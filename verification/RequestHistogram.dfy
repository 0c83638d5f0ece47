// observability-metrics.service.ts: the request counters and latency histogram, from the
// recorded durations to the rendered bucket values. Durations are exact.
module RequestHistogram {
  import opened Options

  const DURATION_BUCKETS_SECONDS: seq<real> := [0.005, 0.01, 0.025, 0.05, 0.1, 0.25, 0.5, 1.0, 2.5, 5.0, 10.0]

  datatype HttpMetric = HttpMetric(count: nat, sumSeconds: real, buckets: seq<nat>)

  /** A request under the key that its labels joined with `|` give. */
  datatype Request = Request(key: string, durationMs: real)

  function Seconds(durationMs: real): real {
    if durationMs / 1000.0 < 0.0 then 0.0 else durationMs / 1000.0
  }

  function EmptyMetric(): HttpMetric {
    HttpMetric(0, 0.0, seq(|DURATION_BUCKETS_SECONDS|, _ => 0))
  }

  function MetricOf(metrics: map<string, HttpMetric>, key: string): HttpMetric {
    if key in metrics then metrics[key] else EmptyMetric()
  }

  predicate WellFormed(m: HttpMetric) {
    |m.buckets| == |DURATION_BUCKETS_SECONDS|
  }

  function Observed(m: HttpMetric, seconds: real): (r: HttpMetric)
    requires WellFormed(m)
    ensures WellFormed(r)
  {
    HttpMetric(m.count + 1, m.sumSeconds + seconds,
      seq(|m.buckets|, i requires 0 <= i < |m.buckets| =>
        if seconds <= DURATION_BUCKETS_SECONDS[i] then m.buckets[i] + 1 else m.buckets[i]))
  }

  /** `previous = Math.max(previous, buckets[i])` along the buckets. */
  function RunningMax(buckets: seq<nat>): seq<nat> {
    if |buckets| <= 1 then buckets
    else
      var before, last := RunningMax(buckets[..|buckets| - 1]), buckets[|buckets| - 1];
      before + [if before != [] && before[|before| - 1] > last then before[|before| - 1] else last]
  }

  class ObservabilityMetricsService {
    var httpRequests: map<string, HttpMetric>

    ghost predicate Valid()
      reads this
    {
      forall k :: k in httpRequests ==> WellFormed(httpRequests[k])
    }

    constructor ()
      ensures Valid() && httpRequests == map[]
    {
      httpRequests := map[];
    }

    method RecordHttpRequest(r: Request)
      requires Valid()
      modifies this
      ensures Valid()
      ensures httpRequests ==
              old(httpRequests)[r.key := Observed(MetricOf(old(httpRequests), r.key), Seconds(r.durationMs))]
    {
      var metric := MetricOf(httpRequests, r.key);
      var seconds := Seconds(r.durationMs);
      var buckets := metric.buckets;
      for i := 0 to |DURATION_BUCKETS_SECONDS|
        invariant |buckets| == |metric.buckets|
        invariant forall j :: 0 <= j < |buckets| ==>
          buckets[j] == metric.buckets[j] + if j < i && seconds <= DURATION_BUCKETS_SECONDS[j] then 1 else 0
      {
        if seconds <= DURATION_BUCKETS_SECONDS[i] {
          buckets := buckets[i := buckets[i] + 1];
        }
      }
      assert buckets == Observed(metric, seconds).buckets;
      httpRequests := httpRequests[r.key := HttpMetric(metric.count + 1, metric.sumSeconds + seconds, buckets)];
    }

    /** The values of the bucket lines of one metric, without the `+Inf` line. */
    method RenderBuckets(key: string) returns (values: seq<nat>)
      requires Valid() && key in httpRequests
      ensures values == RunningMax(httpRequests[key].buckets)
    {
      var previous := 0;
      var buckets := httpRequests[key].buckets;
      values := [];
      for i := 0 to |buckets|
        invariant values == RunningMax(buckets[..i]) && |values| == i
        invariant previous == if i == 0 then 0 else values[i - 1]
      {
        previous := if previous > buckets[i] then previous else buckets[i];
        values := values + [previous];
        assert buckets[..i + 1][..i] == buckets[..i];
      }
      assert buckets[..|buckets|] == buckets;
    }
  }

  // ---------------------------------------------------------------- over a run

  function Recorded(requests: seq<Request>): (metrics: map<string, HttpMetric>)
    ensures forall k :: k in metrics ==> WellFormed(metrics[k])
  {
    if requests == [] then map[]
    else
      var before, r := Recorded(requests[..|requests| - 1]), requests[|requests| - 1];
      before[r.key := Observed(MetricOf(before, r.key), Seconds(r.durationMs))]
  }

  /** How many of the requests under a key took at most `bound` seconds; all of them if there is
      no bound. */
  function CountWithin(requests: seq<Request>, key: string, bound: Option<real>): nat {
    if requests == [] then 0
    else
      var r := requests[|requests| - 1];
      CountWithin(requests[..|requests| - 1], key, bound) +
      (if r.key == key && (bound.Some? ==> r.durationMs <= 1000.0 * bound.value) then 1 else 0)
  }

  function TotalSeconds(requests: seq<Request>, key: string): real {
    if requests == [] then 0.0
    else
      var r := requests[|requests| - 1];
      TotalSeconds(requests[..|requests| - 1], key) +
      (if r.key == key && r.durationMs > 0.0 then r.durationMs / 1000.0 else 0.0)
  }

  lemma {:induction false} BucketsCount(requests: seq<Request>, key: string)
    ensures key in Recorded(requests) <==> CountWithin(requests, key, None) > 0
    ensures MetricOf(Recorded(requests), key).count == CountWithin(requests, key, None)
    ensures MetricOf(Recorded(requests), key).sumSeconds == TotalSeconds(requests, key)
    ensures forall i :: 0 <= i < |DURATION_BUCKETS_SECONDS| ==>
      MetricOf(Recorded(requests), key).buckets[i] == CountWithin(requests, key, Some(DURATION_BUCKETS_SECONDS[i]))
    decreases |requests|
  {
    if requests != [] {
      BucketsCount(requests[..|requests| - 1], key);
    }
  }

  lemma {:induction false} CountGrowsWithBound(requests: seq<Request>, key: string, low: real, high: real)
    requires low <= high
    ensures CountWithin(requests, key, Some(low)) <= CountWithin(requests, key, Some(high))
    ensures CountWithin(requests, key, Some(high)) <= CountWithin(requests, key, None)
    decreases |requests|
  {
    if requests != [] {
      CountGrowsWithBound(requests[..|requests| - 1], key, low, high);
    }
  }

  lemma {:induction false} RunningMaxOfAscending(buckets: seq<nat>)
    requires forall i, j :: 0 <= i < j < |buckets| ==> buckets[i] <= buckets[j]
    ensures RunningMax(buckets) == buckets
    decreases |buckets|
  {
    if |buckets| > 1 {
      RunningMaxOfAscending(buckets[..|buckets| - 1]);
    }
  }

  /** After any run, what a key's histogram shows is true: bucket i is the number of its requests
      that took at most that bound, the values never fall from bucket to bucket or exceed the
      count, and the running maximum of the renderer changes none of them. */
  lemma HistogramIsTrue(requests: seq<Request>, key: string)
    requires key in Recorded(requests)
    ensures var m := Recorded(requests)[key];
            var bounds := [0.005, 0.01, 0.025, 0.05, 0.1, 0.25, 0.5, 1.0, 2.5, 5.0, 10.0];
            && m.count == CountWithin(requests, key, None) && m.sumSeconds == TotalSeconds(requests, key)
            && RunningMax(m.buckets) == m.buckets && |m.buckets| == |bounds|
            && (forall i :: 0 <= i < |bounds| ==>
                  m.buckets[i] == CountWithin(requests, key, Some(bounds[i])) <= m.count)
            && (forall i, j :: 0 <= i < j < |m.buckets| ==> m.buckets[i] <= m.buckets[j])
  {
    BucketsCount(requests, key);
    var m := Recorded(requests)[key];
    forall i, j | 0 <= i <= j < |m.buckets| ensures m.buckets[i] <= m.buckets[j] <= m.count {
      BoundsAscend(i, j);
      CountGrowsWithBound(requests, key, DURATION_BUCKETS_SECONDS[i], DURATION_BUCKETS_SECONDS[j]);
    }
    RunningMaxOfAscending(m.buckets);
  }

  lemma BoundsAscend(i: nat, j: nat)
    requires i <= j < |DURATION_BUCKETS_SECONDS|
    ensures DURATION_BUCKETS_SECONDS[i] <= DURATION_BUCKETS_SECONDS[j]
  {
  }
}

// integration-health.service.ts, getMetrics: percentiles and average over the call history,
// in exact arithmetic.
module LatencyMetrics {
  import opened Options
  import opened IntegrationHealth

  datatype Metrics = Metrics(
    totalCalls: nat, successfulCalls: nat, failedCalls: nat,
    averageLatencyMs: real, p95LatencyMs: Option<int>, p99LatencyMs: Option<int>)

  // ---------------------------------------------------------------- computing

  function Latencies(history: seq<CallRecord>): (ls: seq<int>)
    ensures |ls| <= |history|
  {
    if history == [] then []
    else (if history[0].success then [history[0].latencyMs] else []) + Latencies(history[1..])
  }

  /** `reduce((a, b) => a + b, 0)`. */
  function Total(ls: seq<int>): int {
    if ls == [] then 0 else Total(ls[..|ls| - 1]) + ls[|ls| - 1]
  }

  function Average(ls: seq<int>): real {
    if ls == [] then 0.0 else Total(ls) as real / |ls| as real
  }

  function Inserted(x: int, s: seq<int>): seq<int> {
    if s == [] || x <= s[0] then [x] + s else [s[0]] + Inserted(x, s[1..])
  }

  /** What the library sort returns: `SortedSorts` says it is in order, `SortedCounts` that it
      is a rearrangement. */
  function Sorted(ls: seq<int>): seq<int> {
    if ls == [] then [] else Inserted(ls[0], Sorted(ls[1..]))
  }

  /** The element of rank floor(n q / 100), or the last one should that index be missing. */
  function Percentile(ls: seq<int>, q: nat): Option<int> {
    var s := Sorted(ls);
    var i := |s| * q / 100;
    if s == [] then None else if i < |s| then Some(s[i]) else Some(s[|s| - 1])
  }

  function GetMetrics(history: seq<CallRecord>): Metrics {
    var ls := Latencies(history);
    Metrics(|history|, |ls|, |history| - |ls|, Average(ls), Percentile(ls, 95), Percentile(ls, 99))
  }

  // ---------------------------------------------------------------- the sort

  predicate Ascending(s: seq<int>) {
    forall i, j :: 0 <= i < j < |s| ==> s[i] <= s[j]
  }

  lemma {:induction false} InsertedMembers(x: int, s: seq<int>, y: int)
    ensures y in Inserted(x, s) <==> y == x || y in s
  {
    if s != [] && x > s[0] {
      InsertedMembers(x, s[1..], y);
      assert y in s <==> y == s[0] || y in s[1..];
    }
  }

  lemma {:induction false} InsertedKeepsOrder(x: int, s: seq<int>)
    requires Ascending(s)
    ensures Ascending(Inserted(x, s)) && |Inserted(x, s)| == |s| + 1
  {
    if s != [] && x > s[0] {
      InsertedKeepsOrder(x, s[1..]);
      var t := Inserted(x, s[1..]);
      forall k | 0 <= k < |t| ensures s[0] <= t[k] {
        InsertedMembers(x, s[1..], t[k]);
      }
    }
  }

  lemma {:induction false} SortedSorts(ls: seq<int>)
    ensures Ascending(Sorted(ls)) && |Sorted(ls)| == |ls|
    ensures forall x :: x in Sorted(ls) <==> x in ls
  {
    if ls != [] {
      SortedSorts(ls[1..]);
      InsertedKeepsOrder(ls[0], Sorted(ls[1..]));
      forall x ensures x in Sorted(ls) <==> x in ls {
        InsertedMembers(ls[0], Sorted(ls[1..]), x);
      }
    }
  }

  // ---------------------------------------------------------------- ranks

  /** How many are below x. */
  function CountBelow(ls: seq<int>, x: int): nat {
    if ls == [] then 0 else (if ls[0] < x then 1 else 0) + CountBelow(ls[1..], x)
  }

  function CountAtMost(ls: seq<int>, x: int): nat {
    CountBelow(ls, x + 1)
  }

  lemma {:induction false} InsertedCounts(y: int, s: seq<int>, x: int)
    ensures CountBelow(Inserted(y, s), x) == (if y < x then 1 else 0) + CountBelow(s, x)
  {
    if s != [] && y > s[0] {
      InsertedCounts(y, s[1..], x);
      assert Inserted(y, s)[1..] == Inserted(y, s[1..]);
    } else {
      assert ([y] + s)[1..] == s;
    }
  }

  lemma {:induction false} SortedCounts(ls: seq<int>, x: int)
    ensures CountBelow(Sorted(ls), x) == CountBelow(ls, x)
  {
    if ls != [] {
      SortedCounts(ls[1..], x);
      InsertedCounts(ls[0], Sorted(ls[1..]), x);
    }
  }

  lemma {:induction false} CountBelowMonotone(ls: seq<int>, x: int, y: int)
    requires x <= y
    ensures CountBelow(ls, x) <= CountBelow(ls, y)
  {
    if ls != [] {
      CountBelowMonotone(ls[1..], x, y);
    }
  }

  lemma {:induction false} PrefixBelow(s: seq<int>, n: nat, x: int)
    requires n <= |s| && forall i :: 0 <= i < n ==> s[i] < x
    ensures CountBelow(s, x) >= n
  {
    if n > 0 {
      PrefixBelow(s[1..], n - 1, x);
    }
  }

  lemma {:induction false} SuffixNotBelow(s: seq<int>, n: nat, x: int)
    requires n <= |s| && forall i :: n <= i < |s| ==> s[i] >= x
    ensures CountBelow(s, x) <= n
  {
    if s != [] {
      SuffixNotBelow(s[1..], if n > 0 then n - 1 else 0, x);
    }
  }

  // ---------------------------------------------------------------- what the metrics mean

  /** x splits the latencies at q percent: at most q percent are below it, more than q percent
      are at most it. */
  predicate SplitsAt(ls: seq<int>, q: nat, x: int) {
    CountBelow(ls, x) * 100 <= q * |ls| < CountAtMost(ls, x) * 100
  }

  lemma RankSplits(ls: seq<int>, q: nat, i: nat)
    requires i < |Sorted(ls)| && i * 100 <= q * |ls| < (i + 1) * 100
    ensures SplitsAt(ls, q, Sorted(ls)[i]) && Sorted(ls)[i] in ls
  {
    SortedSorts(ls);
    var s := Sorted(ls);
    assert s[i] in s;
    PrefixBelow(s, i + 1, s[i] + 1);
    SuffixNotBelow(s, i, s[i]);
    SortedCounts(ls, s[i] + 1);
    SortedCounts(ls, s[i]);
  }

  lemma IndexInRange(n: nat, q: nat)
    requires n > 0 && q < 100
    ensures n * q / 100 < n && (n * q / 100) * 100 <= q * n < (n * q / 100 + 1) * 100
  {
    assert n * q < n * 100 && n * q == q * n;
  }

  /** Every percentile below 100 is one of the latencies, taken at an index in range, and it is
      the only number that splits them at q percent. */
  lemma {:induction false} PercentileIsTheSplit(ls: seq<int>, q: nat, x: int)
    requires ls != [] && q < 100
    ensures |Sorted(ls)| * q / 100 < |Sorted(ls)|
    ensures Percentile(ls, q).Some? && Percentile(ls, q).value in ls
    ensures SplitsAt(ls, q, x) <==> Percentile(ls, q) == Some(x)
  {
    hide Sorted, SplitsAt;
    SortedSorts(ls);
    IndexInRange(|ls|, q);
    var i := |ls| * q / 100;
    RankSplits(ls, q, i);
    assert Percentile(ls, q) == Some(Sorted(ls)[i]);
    if SplitsAt(ls, q, x) {
      SplitUnique(ls, q, x, q, Sorted(ls)[i]);
      SplitUnique(ls, q, Sorted(ls)[i], q, x);
    }
  }

  lemma SplitUnique(ls: seq<int>, q: nat, x: int, r: nat, y: int)
    requires SplitsAt(ls, q, x) && SplitsAt(ls, r, y) && q <= r
    ensures x <= y
  {
    assert q * |ls| <= r * |ls|;
    if y < x {
      CountBelowMonotone(ls, y + 1, x);
    }
  }

  lemma {:induction false} TotalBounds(ls: seq<int>, lo: int, hi: int)
    requires forall x :: x in ls ==> lo <= x <= hi
    ensures lo * |ls| <= Total(ls) <= hi * |ls|
  {
    if ls != [] {
      var rest := ls[..|ls| - 1];
      assert forall x :: x in rest ==> x in ls;
      assert ls[|ls| - 1] in ls;
      TotalBounds(rest, lo, hi);
      assert lo * |ls| == lo * |rest| + lo && hi * |ls| == hi * |rest| + hi;
    }
  }

  lemma QuotientBetween(t: int, n: int, lo: int, hi: int)
    requires n > 0 && lo * n <= t <= hi * n
    ensures lo as real <= t as real / n as real <= hi as real
  {
    var a := t as real / n as real;
    assert a * n as real == t as real;
    assert (lo * n) as real == lo as real * n as real;
    assert (hi * n) as real == hi as real * n as real;
    Cancel(lo as real, a, n as real);
    Cancel(a, hi as real, n as real);
  }

  lemma Cancel(x: real, y: real, n: real)
    requires n > 0.0 && x * n <= y * n
    ensures x <= y
  {
    assert x - y > 0.0 ==> (x - y) * n > 0.0;
  }

  lemma AverageBetween(ls: seq<int>, lo: int, hi: int)
    requires ls != [] && forall x :: x in ls ==> lo <= x <= hi
    ensures lo as real <= Average(ls) <= hi as real
  {
    TotalBounds(ls, lo, hi);
    QuotientBetween(Total(ls), |ls|, lo, hi);
  }

  lemma {:induction false} LatencyCount(history: seq<CallRecord>)
    ensures |Latencies(history)| == Count(history, true)
    ensures |history| - |Latencies(history)| == Count(history, false)
    decreases |history|
  {
    if history != [] {
      var init := history[..|history| - 1];
      LatencyCount(init);
      LatenciesAppend(init, history[|history| - 1]);
      assert history == init + [history[|history| - 1]];
    }
  }

  lemma {:induction false} LatenciesAppend(history: seq<CallRecord>, r: CallRecord)
    ensures Latencies(history + [r]) == Latencies(history) + (if r.success then [r.latencyMs] else [])
    decreases |history|
  {
    if history == [] {
      assert Latencies([r][1..]) == [];
    } else {
      LatenciesAppend(history[1..], r);
      var first := if history[0].success then [history[0].latencyMs] else [];
      var last := if r.success then [r.latencyMs] else [];
      assert (history + [r])[0] == history[0] && (history + [r])[1..] == history[1..] + [r];
      assert Latencies(history + [r]) == first + (Latencies(history[1..]) + last);
    }
  }

  ghost predicate BetweenExtremes(ls: seq<int>, a: real) {
    exists lo, hi :: lo in ls && hi in ls && (forall x :: x in ls ==> lo <= x <= hi) && lo as real <= a <= hi as real
  }

  lemma LeastAndLargest(ls: seq<int>)
    requires ls != []
    ensures BetweenExtremes(ls, Average(ls))
  {
    SortedSorts(ls);
    var s := Sorted(ls);
    var lo, hi := s[0], s[|s| - 1];
    assert lo in s && hi in s;
    assert forall x :: x in s ==> lo <= x <= hi;
    assert lo in ls && hi in ls;
    AverageBetween(ls, lo, hi);
  }

  /** What `getMetrics` reports about any history with a success in it: calls by outcome, two
      percentiles that occur among the latencies, p95 no larger than p99, more than 95 and 99
      percent of the latencies at most them, and an average between the least and the largest. */
  lemma MetricsSound(history: seq<CallRecord>)
    requires Count(history, true) > 0
    ensures var m, ls := GetMetrics(history), Latencies(history);
            && m.successfulCalls == Count(history, true) && m.failedCalls == Count(history, false)
            && m.totalCalls == m.successfulCalls + m.failedCalls
            && m.p95LatencyMs.Some? && m.p95LatencyMs.value in ls
            && m.p99LatencyMs.Some? && m.p99LatencyMs.value in ls
            && m.p95LatencyMs.value <= m.p99LatencyMs.value
            && SplitsAt(ls, 95, m.p95LatencyMs.value) && SplitsAt(ls, 99, m.p99LatencyMs.value)
            && BetweenExtremes(ls, m.averageLatencyMs)
  {
    hide Sorted, SplitsAt, Average, Percentile;
    LatencyCount(history);
    var ls, m := Latencies(history), GetMetrics(history);
    LeastAndLargest(ls);
    PercentileIsTheSplit(ls, 95, 0);
    PercentileIsTheSplit(ls, 99, 0);
    var p95, p99 := m.p95LatencyMs.value, m.p99LatencyMs.value;
    PercentileIsTheSplit(ls, 95, p95);
    PercentileIsTheSplit(ls, 99, p99);
    SplitUnique(ls, 95, p95, 99, p99);
  }
}

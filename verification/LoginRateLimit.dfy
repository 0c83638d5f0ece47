// login-rate-limit.guard.ts: a fixed-window limiter over one shared map of buckets that is
// purged on every call.
module LoginRateLimit {
  import opened Options
  import opened SetSizes
  import EmailText

  const WINDOW: int := 60000

  datatype Bucket = Bucket(count: int, resetAt: int)
  type Buckets = map<string, Bucket>

  datatype Request = Request(key: string, at: int)

  function MaxAttempts(loginMaxAttempts: int): (n: int)
    ensures n >= 1
  {
    if loginMaxAttempts < 1 then 1 else loginMaxAttempts
  }

  function Key(ip: Option<string>, email: Option<string>): string {
    (if ip.Some? then ip.value else "unknown") + ":" + (if email.Some? then EmailText.Lower(email.value) else "unknown")
  }

  /** What one request does to the bucket of its own key. */
  function Hit(limit: int, b: Option<Bucket>, now: int): (Bucket, bool) {
    if b.None? || b.value.resetAt <= now then (Bucket(1, now + WINDOW), true)
    else (Bucket(b.value.count + 1, b.value.resetAt), b.value.count + 1 <= limit)
  }

  function At(b: Buckets, key: string): Option<Bucket> {
    if key in b then Some(b[key]) else None
  }

  function Purged(b: Buckets, now: int): Buckets {
    map k | k in b && now < b[k].resetAt :: b[k]
  }

  /** Two requests share a bucket exactly if they come from one address, letter case aside, and
      one ip, at least where these are the same or have no colon in them. */
  lemma SharesBucketIff(ip: Option<string>, email: Option<string>, ip': Option<string>, email': Option<string>)
    requires ip == ip' || (ip.Some? && ip'.Some? && ':' !in ip.value && ':' !in ip'.value)
    ensures Key(ip, email) == Key(ip', email')
            <==> ip == ip' && var s, s' := AddressText(email), AddressText(email');
                 |s| == |s'| && forall i :: 0 <= i < |s| ==> EmailText.LowerChar(s[i]) == EmailText.LowerChar(s'[i])
  {
    var h, h' := if ip.Some? then ip.value else "unknown", if ip'.Some? then ip'.value else "unknown";
    var t, t' := LowerAddress(email), LowerAddress(email');
    if Key(ip, email) == Key(ip', email') {
      HeadsAgree(h, t, h', t');
    }
  }

  function AddressText(email: Option<string>): string {
    if email.Some? then email.value else "unknown"
  }

  function LowerAddress(email: Option<string>): string {
    if email.Some? then EmailText.Lower(email.value) else "unknown"
  }

  lemma HeadsAgree(h: string, t: string, h': string, t': string)
    requires h + ":" + t == h' + ":" + t'
    requires h == h' || (':' !in h && ':' !in h')
    ensures h == h' && t == t'
  {
    var k := h + ":" + t;
    assert k[|h|] == ':' && k[|h'|] == ':';
    assert |h| == |h'|;
    assert h == k[..|h|] == h' && t == k[|h| + 1..] == t';
  }

  /** With colons, as in IPv6, two clients can share one. */
  lemma Ipv6CanShareBucket()
    ensures Key(Some("fe80::1"), Some("2:a")) == Key(Some("fe80::1:2"), Some("a"))
  {
    assert EmailText.Lower("2:a") == "2:a" && EmailText.Lower("a") == "a";
  }

  // ---------------------------------------------------------------- the guard

  class LoginRateLimitGuard {
    const loginMaxAttempts: int
    var buckets: Buckets

    constructor (loginMaxAttempts: int)
      ensures this.loginMaxAttempts == loginMaxAttempts && buckets == map[]
    {
      this.loginMaxAttempts := loginMaxAttempts;
      buckets := map[];
    }

    method Purge(now: int)
      modifies this
      ensures buckets == Purged(old(buckets), now)
    {
      var todo := buckets.Keys;
      while todo != {}
        invariant todo <= buckets.Keys <= old(buckets).Keys
        invariant forall k :: k in buckets ==> buckets[k] == old(buckets)[k]
        invariant forall k :: k in old(buckets) && k !in todo ==> (k in buckets <==> now < old(buckets)[k].resetAt)
        decreases todo
      {
        var k :| k in todo;
        if buckets[k].resetAt <= now {
          buckets := buckets - {k};
        }
        todo := todo - {k};
      }
    }

    /** `false` stands for the TOO_MANY_REQUESTS exception. */
    method CanActivate(ip: Option<string>, email: Option<string>, now: int) returns (ok: bool)
      modifies this
      ensures (buckets, ok) == Guarded(MaxAttempts(loginMaxAttempts), old(buckets), Request(Key(ip, email), now))
      ensures forall k :: k in buckets ==> now < buckets[k].resetAt
    {
      var key := Key(ip, email);
      Purge(now);
      var maxAttempts := MaxAttempts(loginMaxAttempts);
      if key !in buckets || buckets[key].resetAt <= now {
        buckets := buckets[key := Bucket(1, now + WINDOW)];
        return true;
      }
      buckets := buckets[key := buckets[key].(count := buckets[key].count + 1)];
      return buckets[key].count <= maxAttempts;
    }
  }

  // ---------------------------------------------------------------- three limiters

  function Guarded(limit: int, b: Buckets, r: Request): (Buckets, bool) {
    Kept(limit, Purged(b, r.at), r)
  }

  /** The limiter without the purge loop. */
  function Kept(limit: int, b: Buckets, r: Request): (Buckets, bool) {
    var (bucket, ok) := Hit(limit, At(b, r.key), r.at);
    (b[r.key := bucket], ok)
  }

  function GuardedRun(limit: int, b: Buckets, rs: seq<Request>): (ds: seq<bool>)
    ensures |ds| == |rs|
    decreases |rs|
  {
    if rs == [] then []
    else var (b', ok) := Guarded(limit, b, rs[0]); [ok] + GuardedRun(limit, b', rs[1..])
  }

  function KeptRun(limit: int, b: Buckets, rs: seq<Request>): (ds: seq<bool>)
    ensures |ds| == |rs|
    decreases |rs|
  {
    if rs == [] then []
    else var (b', ok) := Kept(limit, b, rs[0]); [ok] + KeptRun(limit, b', rs[1..])
  }

  /** A limiter for a single key. */
  function SingleRun(limit: int, b: Option<Bucket>, times: seq<int>): (ds: seq<bool>)
    ensures |ds| == |times|
    decreases |times|
  {
    if times == [] then []
    else var (b', ok) := Hit(limit, b, times[0]); [ok] + SingleRun(limit, Some(b'), times[1..])
  }

  predicate MonotoneFrom(start: int, rs: seq<Request>) {
    (forall i :: 0 <= i < |rs| ==> start <= rs[i].at) &&
    (forall i, j :: 0 <= i <= j < |rs| ==> rs[i].at <= rs[j].at)
  }

  /** The purged map is the kept one without expired buckets, give or take the latter. */
  ghost predicate Agrees(purged: Buckets, kept: Buckets, now: int) {
    (forall k :: k in purged ==> k in kept && purged[k] == kept[k]) &&
    (forall k :: k in kept && now < kept[k].resetAt ==> k in purged)
  }

  /** Purging changes no decision, for every request sequence with a monotone clock. */
  lemma {:induction false} PurgeIsInvisible(limit: int, purged: Buckets, kept: Buckets, now: int, rs: seq<Request>)
    requires Agrees(purged, kept, now) && MonotoneFrom(now, rs)
    ensures GuardedRun(limit, purged, rs) == KeptRun(limit, kept, rs)
    decreases |rs|
  {
    if rs != [] {
      var r := rs[0];
      var (p', ok) := Guarded(limit, purged, r);
      var (k', ok') := Kept(limit, kept, r);
      assert ok == ok' && p'[r.key] == k'[r.key];
      assert Agrees(p', k', r.at);
      PurgeIsInvisible(limit, p', k', r.at, rs[1..]);
    }
  }

  function TimesOf(rs: seq<Request>, key: string): seq<int> {
    if rs == [] then []
    else (if rs[0].key == key then [rs[0].at] else []) + TimesOf(rs[1..], key)
  }

  function DecisionsOf(rs: seq<Request>, ds: seq<bool>, key: string): seq<bool>
    requires |rs| == |ds|
  {
    if rs == [] then []
    else (if rs[0].key == key then [ds[0]] else []) + DecisionsOf(rs[1..], ds[1..], key)
  }

  lemma {:induction false} KeptIsPerKey(limit: int, b: Buckets, rs: seq<Request>, key: string)
    ensures DecisionsOf(rs, KeptRun(limit, b, rs), key) == SingleRun(limit, At(b, key), TimesOf(rs, key))
    decreases |rs|
  {
    if rs != [] {
      var (b', ok) := Kept(limit, b, rs[0]);
      var rest := TimesOf(rs[1..], key);
      assert KeptRun(limit, b, rs)[1..] == KeptRun(limit, b', rs[1..]);
      KeptIsPerKey(limit, b', rs[1..], key);
      if rs[0].key == key {
        assert TimesOf(rs, key) == [rs[0].at] + rest && ([rs[0].at] + rest)[1..] == rest;
      } else {
        assert At(b', key) == At(b, key) && TimesOf(rs, key) == [] + rest == rest;
        var ds := DecisionsOf(rs[1..], KeptRun(limit, b', rs[1..]), key);
        assert [] + ds == ds;
      }
    }
  }

  /** The decisions for a key are those of a limiter that only ever sees that key's requests:
      neither other keys nor the purge matter. */
  lemma DecisionsDependOnOwnTimes(limit: int, rs: seq<Request>, key: string)
    requires MonotoneFrom(0, rs)
    ensures DecisionsOf(rs, GuardedRun(limit, map[], rs), key) == SingleRun(limit, None, TimesOf(rs, key))
  {
    PurgeIsInvisible(limit, map[], map[], 0, rs);
    KeptIsPerKey(limit, map[], rs, key);
  }

  // ---------------------------------------------------------------- windows

  predicate Sorted(times: seq<int>) {
    forall i, j :: 0 <= i <= j < |times| ==> times[i] <= times[j]
  }

  /** The first request of the window that request `i` falls into: windows are 60 s long, and
      the first request after the end of one starts the next. */
  function WindowOf(times: seq<int>, i: nat): (s: nat)
    requires i < |times|
    ensures s <= i
  {
    if i == 0 then 0
    else if times[i] >= times[WindowOf(times, i - 1)] + 60000 then i
    else WindowOf(times, i - 1)
  }

  /** The bucket left by the first `i` requests. */
  function BucketAfter(limit: int, times: seq<int>, i: nat): Option<Bucket>
    requires i <= |times|
  {
    if i == 0 then None else Some(Hit(limit, BucketAfter(limit, times, i - 1), times[i - 1]).0)
  }

  lemma {:induction false} SingleRunAt(limit: int, times: seq<int>, i: nat, k: nat)
    requires i <= k < |times|
    ensures SingleRun(limit, BucketAfter(limit, times, i), times[i..])[k - i] ==
            Hit(limit, BucketAfter(limit, times, k), times[k]).1
    decreases k - i
  {
    if i < k {
      assert times[i..][1..] == times[i + 1..];
      SingleRunAt(limit, times, i + 1, k);
    }
  }

  lemma {:induction false} BucketCountsWindow(limit: int, times: seq<int>, i: nat)
    requires 0 < i <= |times|
    ensures var s := WindowOf(times, i - 1);
            BucketAfter(limit, times, i) == Some(Bucket(i - s, times[s] + 60000))
  {
    if i > 1 {
      BucketCountsWindow(limit, times, i - 1);
    }
  }

  /** A request is admitted exactly when it is among the first N of its window. */
  lemma AdmittedIffEarlyInWindow(limit: int, times: seq<int>, i: nat)
    requires limit >= 1 && i < |times|
    ensures SingleRun(limit, None, times)[i] <==> i - WindowOf(times, i) < limit
  {
    assert times[0..] == times;
    SingleRunAt(limit, times, 0, i);
    if i > 0 {
      BucketCountsWindow(limit, times, i);
    }
  }

  function Admitted(ds: seq<bool>, lo: int, hi: int): set<int>
    requires 0 <= lo && hi <= |ds|
  {
    set i | lo <= i < hi && ds[i]
  }

  /** Of the k requests of a window exactly min(k, N) are admitted. */
  lemma WindowAdmitsMin(limit: int, times: seq<int>, s: nat, e: nat)
    requires limit >= 1 && s < e <= |times|
    requires forall i :: s <= i < e ==> WindowOf(times, i) == s
    ensures |Admitted(SingleRun(limit, None, times), s, e)| == if e - s < limit then e - s else limit
  {
    var m := if e - s < limit then e - s else limit;
    var ds := SingleRun(limit, None, times);
    forall i | s <= i < e
      ensures ds[i] <==> i < s + m
    {
      AdmittedIffEarlyInWindow(limit, times, i);
    }
    assert Admitted(ds, s, e) == Range(s, s + m);
  }

  // ---------------------------------------------------------------- sliding intervals

  lemma {:induction false} WindowFacts(times: seq<int>, i: nat)
    requires i < |times| && Sorted(times)
    ensures var s := WindowOf(times, i); WindowOf(times, s) == s && times[s] <= times[i] < times[s] + 60000
  {
    if i > 0 {
      WindowFacts(times, i - 1);
    }
  }

  /** Later windows start at least 60 s later. */
  lemma {:induction false} WindowsApart(times: seq<int>, i: nat, j: nat)
    requires i <= j < |times| && Sorted(times)
    ensures WindowOf(times, i) == WindowOf(times, j) ||
            times[WindowOf(times, i)] + 60000 <= times[WindowOf(times, j)]
    decreases j
  {
    if i < j {
      WindowsApart(times, i, j - 1);
    }
  }

  /** The admitted requests at times in [a, a + 60000). */
  function AdmittedDuring(limit: int, times: seq<int>, a: int): set<int> {
    set i | 0 <= i < |times| && SingleRun(limit, None, times)[i] && a <= times[i] < a + 60000
  }

  predicate OfWindow(limit: int, times: seq<int>, i: int, s: int) {
    0 <= i < |times| && WindowOf(times, i) == s && s <= i < s + limit
  }

  /** In any 60 s a key gets at most 2N - 1 requests through. */
  lemma SlidingBound(limit: int, times: seq<int>, a: int)
    requires limit >= 1 && Sorted(times)
    ensures |AdmittedDuring(limit, times, a)| <= 2 * limit - 1
  {
    var all := AdmittedDuring(limit, times, a);
    if f :| f in all {
      var s := WindowOf(times, f);
      forall i | i in all
        ensures OfWindow(limit, times, i, WindowOf(times, i))
      {
        AdmittedIffEarlyInWindow(limit, times, i);
      }
      if g :| g in all && WindowOf(times, g) != s {
        var t := WindowOf(times, g);
        if times[s] <= times[t] {
          TwoWindowsBound(limit, times, a, f, g);
        } else {
          TwoWindowsBound(limit, times, a, g, f);
        }
      } else {
        assert all <= Range(s, s + limit);
        SubsetSize(all, Range(s, s + limit));
      }
    }
  }

  /** Admitted requests `f` and `g` of different windows: there is no third window, and the
      request that opened the earlier one lies before the interval. */
  lemma TwoWindowsBound(limit: int, times: seq<int>, a: int, f: nat, g: nat)
    requires limit >= 1 && Sorted(times)
    requires f in AdmittedDuring(limit, times, a) && g in AdmittedDuring(limit, times, a)
    requires WindowOf(times, f) != WindowOf(times, g) && times[WindowOf(times, f)] <= times[WindowOf(times, g)]
    requires forall i :: i in AdmittedDuring(limit, times, a) ==> OfWindow(limit, times, i, WindowOf(times, i))
    ensures |AdmittedDuring(limit, times, a)| <= 2 * limit - 1
  {
    var all := AdmittedDuring(limit, times, a);
    var s, t := WindowOf(times, f), WindowOf(times, g);
    Apart(times, f, g);
    WindowFacts(times, f);
    WindowFacts(times, g);
    assert times[s] < a;
    forall i | i in all
      ensures i in Range(s + 1, s + limit) + Range(t, t + limit)
    {
      Apart(times, f, i);
      Apart(times, g, i);
      WindowFacts(times, i);
      assert OfWindow(limit, times, i, WindowOf(times, i));
    }
    SubsetSize(all, Range(s + 1, s + limit) + Range(t, t + limit));
  }

  lemma Apart(times: seq<int>, i: nat, j: nat)
    requires i < |times| && j < |times| && Sorted(times)
    ensures var s, t := WindowOf(times, i), WindowOf(times, j);
            s == t || times[s] + 60000 <= times[t] || times[t] + 60000 <= times[s]
  {
    if i <= j {
      WindowsApart(times, i, j);
    } else {
      WindowsApart(times, j, i);
    }
  }

  /** A request at time 0, N - 1 just before the window ends, and N as soon as it has ended. */
  function Burst(limit: int): (times: seq<int>)
    requires limit >= 1
  {
    seq(2 * limit, i requires 0 <= i < 2 * limit => if i == 0 then 0 else if i < limit then 60000 - 1 else 60000)
  }

  lemma {:induction false} BurstWindows(limit: int, i: nat)
    requires limit >= 1 && i < 2 * limit
    ensures WindowOf(Burst(limit), i) == if i < limit then 0 else limit
  {
    if i > 0 {
      BurstWindows(limit, i - 1);
    }
  }

  /** The bound is reached for every N. */
  lemma SlidingBoundReached(limit: int)
    requires limit >= 1
    ensures Sorted(Burst(limit)) && |AdmittedDuring(limit, Burst(limit), 60000 - 1)| == 2 * limit - 1
  {
    var times := Burst(limit);
    forall i: nat | i < 2 * limit
      ensures SingleRun(limit, None, times)[i]
    {
      BurstWindows(limit, i);
      AdmittedIffEarlyInWindow(limit, times, i);
    }
    assert AdmittedDuring(limit, times, 60000 - 1) == Range(1, 2 * limit);
  }

  lemma {:induction false} TimesSorted(rs: seq<Request>, key: string, start: int)
    requires MonotoneFrom(start, rs)
    ensures Sorted(TimesOf(rs, key))
    ensures forall i :: 0 <= i < |TimesOf(rs, key)| ==> start <= TimesOf(rs, key)[i]
    decreases |rs|
  {
    if rs != [] {
      TimesSorted(rs[1..], key, rs[0].at);
    }
  }

  /** The bound for the guard itself: whatever the other keys do, the requests of one key that
      it lets through in any 60 s number at most 2N - 1. */
  lemma GuardSlidingBound(loginMaxAttempts: int, rs: seq<Request>, key: string, a: int)
    requires MonotoneFrom(0, rs)
    ensures var n := if loginMaxAttempts < 1 then 1 else loginMaxAttempts;
            var times, ds := TimesOf(rs, key), DecisionsOf(rs, GuardedRun(n, map[], rs), key);
            && |ds| == |times|
            && |set i | 0 <= i < |times| && ds[i] && a <= times[i] < a + 60000| <= 2 * n - 1
  {
    var n := MaxAttempts(loginMaxAttempts);
    var times, ds := TimesOf(rs, key), DecisionsOf(rs, GuardedRun(n, map[], rs), key);
    DecisionsDependOnOwnTimes(n, rs, key);
    TimesSorted(rs, key, 0);
    SlidingBound(n, times, a);
    assert (set i | 0 <= i < |times| && ds[i] && a <= times[i] < a + 60000) == AdmittedDuring(n, times, a);
  }
}

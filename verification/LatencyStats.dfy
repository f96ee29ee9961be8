/** Per-route latency buffers and their interpolated percentiles. Durations are exact reals. */
module LatencyStats {
  import opened Money

  const BUFFER_MAXLEN := 1000

  // ------------------------------------------------------------ percentiles

  ghost predicate Ascending(xs: seq<real>) {
    forall i, j :: 0 <= i <= j < |xs| ==> xs[i] <= xs[j]
  }

  function Ceil(x: real): int {
    -((-x).Floor)
  }

  lemma CeilIsNear(x: real)
    ensures x.Floor as real <= x <= Ceil(x) as real < x + 1.0
    ensures Ceil(x) == x.Floor || Ceil(x) == x.Floor + 1
  {
    var up := (-x).Floor;
    assert up as real <= -x < up as real + 1.0;
    assert x.Floor as real <= x < x.Floor as real + 1.0;
  }

  lemma RankInBounds(n: nat, rank: real)
    requires 0.0 <= rank && rank <= (n - 1) as real
    ensures 0 <= rank.Floor <= Ceil(rank) < n && Ceil(rank) <= rank.Floor + 1
  {
    CeilIsNear(rank);
    assert Ceil(rank) as real < n as real;
  }

  /** Linear interpolation between the two values around the rank. */
  function At(xs: seq<real>, rank: real): real
    requires 0.0 <= rank && rank <= (|xs| - 1) as real
  {
    RankInBounds(|xs|, rank);
    var low, high := rank.Floor, Ceil(rank);
    if low == high then xs[low] else Interpolated(xs[low], xs[high], rank - low as real)
  }

  function Interpolated(low: real, high: real, weight: real): real {
    low * (1.0 - weight) + high * weight
  }

  function Percentile(xs: seq<real>, pct: real): real
    requires 0.0 <= pct <= 100.0
  {
    if |xs| == 0 then 0.0
    else if |xs| == 1 then xs[0]
    else At(xs, Rank(|xs|, pct))
  }

  function Rank(n: nat, pct: real): (r: real)
    requires n >= 1 && 0.0 <= pct <= 100.0
    ensures 0.0 <= r <= (n - 1) as real
  {
    SharesOrdered((n - 1) as real, 0.0, pct);
    SharesOrdered((n - 1) as real, pct, 100.0);
    Share((n - 1) as real, pct)
  }

  function Share(m: real, pct: real): real {
    pct / 100.0 * m
  }

  lemma SharesOrdered(m: real, p: real, q: real)
    requires m >= 0.0 && p <= q
    ensures Share(m, p) <= Share(m, q)
  {
    ProductNotNegative(q / 100.0 - p / 100.0, m);
    assert (q / 100.0 - p / 100.0) * m == Share(m, q) - Share(m, p);
  }

  /** An interpolated value lies between its two neighbours. */
  lemma Between(a: real, b: real, w: real)
    requires a <= b && 0.0 <= w <= 1.0
    ensures a <= Interpolated(a, b, w) <= b
  {
    assert Interpolated(a, b, w) == a + (b - a) * w;
    ProductNotNegative(b - a, w);
    ProductNotNegative(b - a, 1.0 - w);
    assert (b - a) * (1.0 - w) == (b - a) - (b - a) * w;
  }

  lemma FurtherIsGreater(a: real, b: real, v: real, w: real)
    requires a <= b && v <= w
    ensures Interpolated(a, b, v) <= Interpolated(a, b, w)
  {
    assert Interpolated(a, b, v) == a + (b - a) * v;
    assert Interpolated(a, b, w) == a + (b - a) * w;
    ProductNotNegative(b - a, w - v);
    assert (b - a) * (w - v) == (b - a) * w - (b - a) * v;
  }

  lemma AtIsBetween(xs: seq<real>, rank: real)
    requires Ascending(xs) && 0.0 <= rank && rank <= (|xs| - 1) as real
    ensures 0 <= rank.Floor <= Ceil(rank) < |xs| && Ceil(rank) <= rank.Floor + 1
    ensures xs[rank.Floor] <= At(xs, rank) <= xs[Ceil(rank)]
  {
    RankInBounds(|xs|, rank);
    CeilIsNear(rank);
    var low, high := rank.Floor, Ceil(rank);
    if low == high {
      assert At(xs, rank) == xs[low];
    } else {
      Between(xs[low], xs[high], rank - low as real);
      assert At(xs, rank) == Interpolated(xs[low], xs[high], rank - low as real);
    }
  }

  /** Interpolation is nondecreasing in the rank. */
  lemma AtMonotone(xs: seq<real>, r: real, s: real)
    requires Ascending(xs) && 0.0 <= r <= s && s <= (|xs| - 1) as real
    ensures At(xs, r) <= At(xs, s)
  {
    AtIsBetween(xs, r);
    AtIsBetween(xs, s);
    CeilIsNear(r);
    CeilIsNear(s);
    if r.Floor == s.Floor && Ceil(r) == Ceil(s) {
      if r.Floor != Ceil(r) {
        FurtherIsGreater(xs[r.Floor], xs[Ceil(r)], r - r.Floor as real, s - r.Floor as real);
      }
    } else {
      assert Ceil(r) <= s.Floor || (r == r.Floor as real && r.Floor == s.Floor);
    }
  }

  lemma RankMonotone(n: nat, p: real, q: real)
    requires n >= 1 && 0.0 <= p <= q <= 100.0
    ensures Rank(n, p) <= Rank(n, q)
  {
    SharesOrdered((n - 1) as real, p, q);
  }

  lemma PercentileMonotone(xs: seq<real>, p: real, q: real)
    requires Ascending(xs) && 0.0 <= p <= q <= 100.0
    ensures Percentile(xs, p) <= Percentile(xs, q)
  {
    if |xs| >= 2 {
      RankMonotone(|xs|, p, q);
      AtMonotone(xs, Rank(|xs|, p), Rank(|xs|, q));
    }
  }

  /** A percentile lies between the least and the greatest measurement, which it reaches at 0 and 100. */
  lemma PercentileInRange(xs: seq<real>, p: real)
    requires Ascending(xs) && |xs| > 0 && 0.0 <= p <= 100.0
    ensures xs[0] <= Percentile(xs, p) <= xs[|xs| - 1]
    ensures Percentile(xs, 0.0) == xs[0] && Percentile(xs, 100.0) == xs[|xs| - 1]
  {
    PercentileMonotone(xs, 0.0, p);
    PercentileMonotone(xs, p, 100.0);
    if |xs| >= 2 {
      var n := |xs| - 1;
      assert Rank(|xs|, 0.0) == 0.0 && Rank(|xs|, 100.0) == n as real;
      assert (n as real).Floor == n && Ceil(n as real) == n;
    }
  }

  // ------------------------------------------------------------ buffers

  datatype Measurement = Measurement(route: string, duration: real, slow: bool)

  datatype RouteStats = RouteStats(count: nat, p50: int, p95: int, p99: int, max: int, slow: nat)

  function Insert(xs: seq<real>, x: real): seq<real> {
    if xs == [] || xs[|xs| - 1] <= x then xs + [x] else Insert(xs[..|xs| - 1], x) + [xs[|xs| - 1]]
  }

  function Sort(xs: seq<real>): seq<real> {
    if xs == [] then [] else Insert(Sort(xs[..|xs| - 1]), xs[|xs| - 1])
  }

  lemma AppendAscends(xs: seq<real>, x: real)
    requires Ascending(xs) && forall y :: y in xs ==> y <= x
    ensures Ascending(xs + [x])
  {
    forall i, j | 0 <= i <= j < |xs| + 1
      ensures (xs + [x])[i] <= (xs + [x])[j]
    {
      if i < |xs| {
        assert xs[i] in xs;
      }
    }
  }

  lemma {:induction false} InsertKeeps(xs: seq<real>, x: real)
    ensures multiset(Insert(xs, x)) == multiset(xs) + multiset{x}
    ensures forall y :: y in Insert(xs, x) ==> y in xs || y == x
  {
    if xs != [] && xs[|xs| - 1] > x {
      InsertKeeps(xs[..|xs| - 1], x);
      assert xs == xs[..|xs| - 1] + [xs[|xs| - 1]];
    }
  }

  lemma {:induction false} InsertSorts(xs: seq<real>, x: real)
    requires Ascending(xs)
    ensures Ascending(Insert(xs, x))
  {
    if xs == [] || xs[|xs| - 1] <= x {
      AppendAscends(xs, x);
    } else {
      var init, last := xs[..|xs| - 1], xs[|xs| - 1];
      InsertSorts(init, x);
      InsertKeeps(init, x);
      AppendAscends(Insert(init, x), last);
    }
  }

  lemma {:induction false} SortSorts(xs: seq<real>)
    ensures Ascending(Sort(xs)) && multiset(Sort(xs)) == multiset(xs) && |Sort(xs)| == |xs|
  {
    if xs == [] {
    } else {
      SortSorts(xs[..|xs| - 1]);
      InsertSorts(Sort(xs[..|xs| - 1]), xs[|xs| - 1]);
      InsertKeeps(Sort(xs[..|xs| - 1]), xs[|xs| - 1]);
      assert xs == xs[..|xs| - 1] + [xs[|xs| - 1]];
    }
    assert |multiset(Sort(xs))| == |Sort(xs)| && |multiset(xs)| == |xs|;
  }

  /** The values reported for one buffer; durations rounded to two places. */
  function StatsOf(buffer: seq<real>, slow: nat): RouteStats
    requires buffer != []
  {
    SortSorts(buffer);
    var xs := Sort(buffer);
    RouteStats(|xs|, HalfEven(Percentile(xs, 50.0)), HalfEven(Percentile(xs, 95.0)), HalfEven(Percentile(xs, 99.0)),
               HalfEven(xs[|xs| - 1]), slow)
  }

  /** Whatever was measured, the reported percentiles are in order. */
  lemma ReportedInOrder(buffer: seq<real>, slow: nat)
    requires buffer != []
    ensures var s := StatsOf(buffer, slow); s.p50 <= s.p95 <= s.p99 <= s.max && s.count == |buffer|
  {
    SortSorts(buffer);
    RoundedInOrder(Sort(buffer), 50.0, 95.0);
    RoundedInOrder(Sort(buffer), 95.0, 99.0);
    RoundedInOrder(Sort(buffer), 99.0, 100.0);
    PercentileInRange(Sort(buffer), 100.0);
  }

  lemma RoundedInOrder(xs: seq<real>, p: real, q: real)
    requires Ascending(xs) && 0.0 <= p <= q <= 100.0
    ensures HalfEven(Percentile(xs, p)) <= HalfEven(Percentile(xs, q))
  {
    PercentileMonotone(xs, p, q);
    NearestEvenMonotone(Percentile(xs, p) * 100.0, Percentile(xs, q) * 100.0);
  }

  // ------------------------------------------------------------ what the reported values mean

  /** `q` lies on the line through the measurements, `pct` percent of the way from the first to the last. */
  ghost predicate IsQuantile(xs: seq<real>, pct: real, q: real) {
    || (|xs| == 1 && q == xs[0])
    || exists k: int, w: real :: OnTheLine(xs, pct, k, w, q)
  }

  /** The way ends `w` of the way from the `k`-th measurement to the next. */
  predicate OnTheLine(xs: seq<real>, pct: real, k: int, w: real, q: real) {
    && 0 <= k < |xs| - 1 && 0.0 <= w <= 1.0
    && pct * (|xs| - 1) as real == 100.0 * (k as real + w)
    && q == xs[k] + w * (xs[k + 1] - xs[k])
  }

  lemma AtIsOnTheLine(xs: seq<real>, rank: real) returns (k: int, w: real)
    requires |xs| >= 2 && 0.0 <= rank <= (|xs| - 1) as real
    ensures 0 <= k < |xs| - 1
    ensures 0.0 <= w <= 1.0 && rank == k as real + w && At(xs, rank) == xs[k] + w * (xs[k + 1] - xs[k])
  {
    RankInBounds(|xs|, rank);
    CeilIsNear(rank);
    if rank.Floor == |xs| - 1 {
      k, w := rank.Floor - 1, 1.0;
      assert rank == k as real + 1.0 && At(xs, rank) == xs[k] + 1.0 * (xs[k + 1] - xs[k]);
    } else {
      k, w := rank.Floor, rank - rank.Floor as real;
      if Ceil(rank) == k {
        assert w == 0.0 && At(xs, rank) == xs[k] + w * (xs[k + 1] - xs[k]);
      } else {
        assert At(xs, rank) == Interpolated(xs[k], xs[k + 1], w);
        InterpolatedIsOnTheLine(xs[k], xs[k + 1], w);
        assert At(xs, rank) == xs[k] + w * (xs[k + 1] - xs[k]);
      }
    }
  }

  lemma InterpolatedIsOnTheLine(a: real, b: real, w: real)
    ensures Interpolated(a, b, w) == a + w * (b - a)
  {
  }

  /** The interpolated percentile is the quantile of its percentage. */
  lemma PercentileIsQuantile(xs: seq<real>, pct: real)
    requires |xs| > 0 && 0.0 <= pct <= 100.0
    ensures IsQuantile(xs, pct, Percentile(xs, pct))
  {
    if |xs| >= 2 {
      var rank := Rank(|xs|, pct);
      var k, w := AtIsOnTheLine(xs, rank);
      assert 100.0 * Share((|xs| - 1) as real, pct) == pct * (|xs| - 1) as real;
      assert OnTheLine(xs, pct, k, w, Percentile(xs, pct));
    }
  }

  /** Sorted arrangements of the same measurements are the same. */
  lemma {:induction false} SortedIsUnique(xs: seq<real>, ys: seq<real>)
    requires Ascending(xs) && Ascending(ys) && multiset(xs) == multiset(ys)
    ensures xs == ys
  {
    assert |xs| == |multiset(xs)| && |ys| == |multiset(ys)|;
    if xs == [] {
    } else {
      var n := |xs| - 1;
      GreatestIsLast(xs, ys);
      GreatestIsLast(ys, xs);
      WithoutLast(xs);
      WithoutLast(ys);
      SortedIsUnique(xs[..n], ys[..n]);
      assert xs == xs[..n] + [xs[n]] && ys == ys[..n] + [ys[n]];
    }
  }

  lemma GreatestIsLast(xs: seq<real>, ys: seq<real>)
    requires xs != [] && ys != [] && Ascending(ys) && multiset(xs) == multiset(ys)
    ensures xs[|xs| - 1] <= ys[|ys| - 1]
  {
    assert xs[|xs| - 1] in multiset(ys);
    var i :| 0 <= i < |ys| && ys[i] == xs[|xs| - 1];
  }

  lemma WithoutLast(xs: seq<real>)
    requires xs != []
    ensures multiset(xs[..|xs| - 1]) == multiset(xs) - multiset{xs[|xs| - 1]}
  {
    assert xs == xs[..|xs| - 1] + [xs[|xs| - 1]];
  }

  ghost predicate IsRoundedQuantile(xs: seq<real>, pct: real, shown: int) {
    exists q :: IsQuantile(xs, pct, q) && IsHalfEven(q, shown)
  }

  /**
   The statistics of a buffer, on any sorted arrangement of its durations: the quantiles at 50, 95 and 99
   percent, and the last.
   */
  ghost predicate Describes(stats: RouteStats, buffer: seq<real>) {
    forall xs :: Ascending(xs) && multiset(xs) == multiset(buffer) ==>
      && stats.count == |xs| > 0
      && IsRoundedQuantile(xs, 50.0, stats.p50) && IsRoundedQuantile(xs, 95.0, stats.p95) && IsRoundedQuantile(xs, 99.0, stats.p99)
      && IsHalfEven(xs[|xs| - 1], stats.max)
  }

  lemma RoundedPercentile(xs: seq<real>, pct: real)
    requires |xs| > 0 && 0.0 <= pct <= 100.0
    ensures IsRoundedQuantile(xs, pct, HalfEven(Percentile(xs, pct)))
  {
    PercentileIsQuantile(xs, pct);
    HalfEvenExact(Percentile(xs, pct), HalfEven(Percentile(xs, pct)));
  }

  lemma StatsDescribe(buffer: seq<real>, slow: nat)
    requires buffer != []
    ensures Describes(StatsOf(buffer, slow), buffer) && StatsOf(buffer, slow).slow == slow
  {
    SortSorts(buffer);
    var sorted := Sort(buffer);
    RoundedPercentile(sorted, 50.0);
    RoundedPercentile(sorted, 95.0);
    RoundedPercentile(sorted, 99.0);
    HalfEvenExact(sorted[|sorted| - 1], HalfEven(sorted[|sorted| - 1]));
    forall xs | Ascending(xs) && multiset(xs) == multiset(buffer)
      ensures xs == sorted
    {
      SortedIsUnique(xs, sorted);
    }
  }

  /** The durations of one route over a run, and how many of them were slow. */
  function Durations(run: seq<Measurement>, route: string): seq<real> {
    if run == [] then []
    else
      var m := run[|run| - 1];
      Durations(run[..|run| - 1], route) + (if m.route == route then [m.duration] else [])
  }

  function SlowOnes(run: seq<Measurement>, route: string): nat {
    if run == [] then 0
    else
      var m := run[|run| - 1];
      SlowOnes(run[..|run| - 1], route) + (if m.route == route && m.slow then 1 else 0)
  }

  function LastThousand(xs: seq<real>): seq<real> {
    if |xs| <= BUFFER_MAXLEN then xs else xs[|xs| - BUFFER_MAXLEN..]
  }

  /** `append` on a deque of bounded length: a full one drops its oldest entry. */
  function Appended(buffer: seq<real>, duration: real): (after: seq<real>)
    ensures after != []
  {
    (if |buffer| == BUFFER_MAXLEN then buffer[1..] else buffer) + [duration]
  }

  /** A route's buffer holds exactly its last thousand durations, and its counter all of its slow ones. */
  ghost predicate TracksRoute(buffers: map<string, seq<real>>, slowCounts: map<string, nat>, run: seq<Measurement>,
                              route: string) {
    && (if route in buffers
        then buffers[route] != [] && buffers[route] == LastThousand(Durations(run, route))
        else Durations(run, route) == [])
    && (if route in slowCounts then slowCounts[route] == SlowOnes(run, route) else SlowOnes(run, route) == 0)
  }

  ghost predicate Tracks(buffers: map<string, seq<real>>, slowCounts: map<string, nat>, run: seq<Measurement>) {
    forall route :: TracksRoute(buffers, slowCounts, run, route)
  }

  function AfterDuration(buffers: map<string, seq<real>>, m: Measurement): map<string, seq<real>> {
    buffers[m.route := Appended(if m.route in buffers then buffers[m.route] else [], m.duration)]
  }

  function AfterCount(slowCounts: map<string, nat>, m: Measurement): map<string, nat> {
    if m.slow then slowCounts[m.route := (if m.route in slowCounts then slowCounts[m.route] else 0) + 1] else slowCounts
  }

  lemma TracksOneMore(buffers: map<string, seq<real>>, slowCounts: map<string, nat>, run: seq<Measurement>,
                      m: Measurement)
    requires Tracks(buffers, slowCounts, run)
    ensures Tracks(AfterDuration(buffers, m), AfterCount(slowCounts, m), run + [m])
  {
    forall route
      ensures TracksRoute(AfterDuration(buffers, m), AfterCount(slowCounts, m), run + [m], route)
    {
      assert TracksRoute(buffers, slowCounts, run, route);
      OneMoreMeasurement(run, m, route);
      OneMoreDuration(Durations(run, route), m.duration);
    }
  }

  /** What a snapshot says about a route: the statistics of its last thousand durations and all its slow ones. */
  ghost predicate Reports(stats: RouteStats, run: seq<Measurement>, route: string) {
    LastThousand(Durations(run, route)) != [] && stats == StatsOf(LastThousand(Durations(run, route)), SlowOnes(run, route))
  }

  /** The last min(n, 1000) durations of the route are described, and all its slow ones counted. */
  ghost predicate DescribesRoute(stats: RouteStats, run: seq<Measurement>, route: string) {
    var all := Durations(run, route);
    Describes(stats, if |all| <= 1000 then all else all[|all| - 1000..]) && stats.slow == SlowOnes(run, route)
  }

  lemma ReportsDescribe(run: seq<Measurement>)
    ensures forall stats, route :: Reports(stats, run, route) ==> DescribesRoute(stats, run, route)
  {
    forall stats, route | Reports(stats, run, route)
      ensures DescribesRoute(stats, run, route)
    {
      StatsDescribe(LastThousand(Durations(run, route)), SlowOnes(run, route));
    }
  }

  lemma BuffersAreNotEmpty(buffers: map<string, seq<real>>, slowCounts: map<string, nat>, run: seq<Measurement>)
    requires Tracks(buffers, slowCounts, run)
    ensures forall r :: r in buffers <==> Durations(run, r) != []
  {
    forall r
      ensures r in buffers <==> Durations(run, r) != []
    {
      assert TracksRoute(buffers, slowCounts, run, r);
    }
  }

  class Tracker {
    var buffers: map<string, seq<real>>
    var slowCounts: map<string, nat>
    /** The measurements recorded since the last reset. */
    ghost var run: seq<Measurement>

    ghost predicate Valid()
      reads this
    {
      Tracks(buffers, slowCounts, run)
    }

    constructor ()
      ensures Valid() && run == []
    {
      buffers, slowCounts, run := map[], map[], [];
    }

    method Record(route: string, duration: real, slow: bool)
      requires Valid()
      modifies this
      ensures Valid() && run == old(run) + [Measurement(route, duration, slow)]
    {
      var buffer := if route in buffers then buffers[route] else [];
      buffer := Appended(buffer, duration);
      buffers := buffers[route := buffer];
      if slow {
        slowCounts := slowCounts[route := (if route in slowCounts then slowCounts[route] else 0) + 1];
      }
      TracksOneMore(old(buffers), old(slowCounts), run, Measurement(route, duration, slow));
      run := run + [Measurement(route, duration, slow)];
    }

    method Snapshot() returns (result: map<string, RouteStats>)
      requires Valid()
      ensures forall r :: r in result <==> Durations(run, r) != []
      ensures forall r :: r in result ==> Reports(result[r], run, r)
      ensures forall r :: r in result ==> DescribesRoute(result[r], run, r)
    {
      result := map[];
      var todo := buffers.Keys;
      while todo != {}
        invariant todo <= buffers.Keys
        invariant result.Keys == buffers.Keys - todo
        invariant forall r :: r in result ==> Reports(result[r], run, r)
        decreases |todo|
      {
        var route :| route in todo;
        assert TracksRoute(buffers, slowCounts, run, route);
        result := result[route := StatsOf(buffers[route], if route in slowCounts then slowCounts[route] else 0)];
        todo := todo - {route};
      }
      BuffersAreNotEmpty(buffers, slowCounts, run);
      ReportsDescribe(run);
    }

    method Reset()
      modifies this
      ensures Valid() && run == []
    {
      buffers, slowCounts, run := map[], map[], [];
    }
  }

  lemma OneMoreMeasurement(run: seq<Measurement>, m: Measurement, route: string)
    ensures Durations(run + [m], route) == Durations(run, route) + (if m.route == route then [m.duration] else [])
    ensures SlowOnes(run + [m], route) == SlowOnes(run, route) + (if m.route == route && m.slow then 1 else 0)
  {
    assert (run + [m])[..|run|] == run;
  }

  /** Dropping the oldest of a full buffer and appending keeps the last thousand. */
  lemma OneMoreDuration(before: seq<real>, duration: real)
    ensures
      var buffer := LastThousand(before);
      LastThousand(before + [duration]) == Appended(buffer, duration)
  {
  }
}

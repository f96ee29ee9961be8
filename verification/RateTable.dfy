/**
 The table of historical rates and the calls that fill it from a publisher. Days are numbered, the
 publisher is a fixed function from a day to the rates it published that day (none: the empty map).
 */
module RateTable {
  import opened Options

  type Day = int
  type Currency = string
  type Rates = map<Currency, real>
  type Publisher = Day -> Rates
  type Table = map<(Day, Currency), real>

  const TRY: Currency := "TRY"
  const LOOKBACK := 7

  predicate Storable(rates: Rates, c: Currency) {
    c in rates && c != TRY && rates[c] > 0.0
  }

  predicate HasDay(tb: Table, d: Day) {
    exists k :: k in tb && k.0 == d
  }

  function Ensure(tb: Table, pub: Publisher, d: Day): Table {
    if HasDay(tb, d) then tb else UpsertAll(tb, pub, {d})
  }

  /** Every listed day's publication upserted, in whatever order. */
  function UpsertAll(tb: Table, pub: Publisher, days: set<Day>): Table {
    tb + NewRows(pub, days)
  }

  function NewRows(pub: Publisher, days: set<Day>): Table {
    map k | k in Published(pub, days) :: pub(k.0)[k.1]
  }

  lemma UpsertedRows(tb: Table, pub: Publisher, days: set<Day>)
    ensures forall k :: k in UpsertAll(tb, pub, days) <==> k in tb || (k.0 in days && Storable(pub(k.0), k.1))
    ensures forall k :: k in UpsertAll(tb, pub, days) ==>
      UpsertAll(tb, pub, days)[k] == if k.0 in days && Storable(pub(k.0), k.1) then pub(k.0)[k.1] else tb[k]
  {
    forall k: (Day, Currency)
      ensures k in Published(pub, days) <==> k.0 in days && Storable(pub(k.0), k.1)
    {
      assert k == (k.0, k.1);
    }
  }

  function Published(pub: Publisher, days: set<Day>): (keys: set<(Day, Currency)>)
    ensures forall d, c :: (d, c) in keys <==> d in days && Storable(pub(d), c)
  {
    set d, c | d in days && c in pub(d) && Storable(pub(d), c) :: (d, c)
  }

  function EnsureAll(tb: Table, pub: Publisher, days: set<Day>): Table {
    UpsertAll(tb, pub, set d | d in days && !HasDay(tb, d))
  }

  // ------------------------------------------------------------ lookups

  /** The newest day in `[lo, on]` with a rate for `c`. */
  function LatestDay(tb: Table, c: Currency, lo: Day, on: Day): (r: Option<Day>)
    ensures r.None? <==> forall d :: lo <= d <= on ==> (d, c) !in tb
    ensures r.Some? ==> lo <= r.value <= on && (r.value, c) in tb && forall d :: r.value < d <= on ==> (d, c) !in tb
    decreases on - lo
  {
    if on < lo then None
    else if (on, c) in tb then Some(on)
    else LatestDay(tb, c, lo, on - 1)
  }

  function Lookup(tb: Table, c: Currency, lo: Day, on: Day): Option<real> {
    var d := LatestDay(tb, c, lo, on);
    if d.Some? then Some(tb[(d.value, c)]) else None
  }

  lemma {:induction false} HasGreatest(days: set<Day>, x: Day) returns (m: Day)
    requires x in days
    ensures m in days && forall d :: d in days ==> d <= m
    decreases |days|
  {
    var rest := days - {x};
    m := x;
    if y :| y in rest {
      var hi := HasGreatest(rest, y);
      m := if x > hi then x else hi;
    }
    assert forall d :: d in days ==> d == x || d in rest;
  }

  lemma {:induction false} HasLeast(days: set<Day>, x: Day) returns (m: Day)
    requires x in days
    ensures m in days && forall d :: d in days ==> m <= d
    decreases |days|
  {
    var rest := days - {x};
    m := x;
    if y :| y in rest {
      var lo := HasLeast(rest, y);
      m := if x < lo then x else lo;
    }
    assert forall d :: d in days ==> d == x || d in rest;
  }

  lemma NotEmpty(days: set<Day>)
    requires days != {}
    ensures exists d :: d in days
  {
    assert (forall d :: d !in days) ==> days == {};
  }

  lemma HasEnds(days: set<Day>)
    requires days != {}
    ensures exists m :: m in days && forall d :: d in days ==> d <= m
    ensures exists m :: m in days && forall d :: d in days ==> m <= d
  {
    NotEmpty(days);
    var x :| x in days;
    var hi := HasGreatest(days, x);
    var lo := HasLeast(days, x);
  }

  function Greatest(days: set<Day>): (m: Day)
    requires days != {}
    ensures m in days && forall d :: d in days ==> d <= m
  {
    HasEnds(days);
    var m :| m in days && forall d :: d in days ==> d <= m;
    m
  }

  function Least(days: set<Day>): (m: Day)
    requires days != {}
    ensures m in days && forall d :: d in days ==> m <= d
  {
    HasEnds(days);
    var m :| m in days && forall d :: d in days ==> m <= d;
    m
  }

  function DaysUpTo(tb: Table, c: Currency, on: Day): set<Day> {
    set k | k in tb && k.1 == c && k.0 <= on :: k.0
  }

  /** The newest rate on or before a day, however old. */
  function RateOnOrBefore(tb: Table, c: Currency, on: Day): Option<real> {
    var days := DaysUpTo(tb, c, on);
    if days == {} then None else Some(tb[(Greatest(days), c)])
  }

  /** A windowed lookup that finds a rate finds the one the unbounded lookup finds. */
  lemma WindowAgrees(tb: Table, c: Currency, lo: Day, on: Day)
    requires Lookup(tb, c, lo, on).Some?
    ensures RateOnOrBefore(tb, c, on) == Lookup(tb, c, lo, on)
  {
    var d := LatestDay(tb, c, lo, on).value;
    assert (d, c) in tb && d in DaysUpTo(tb, c, on);
    var top := Greatest(DaysUpTo(tb, c, on));
    assert (top, c) in tb;
  }

  /** The stored rates of a window in ascending order of their days. */
  function Query(tb: Table, c: Currency, lo: Day, hi: Day): seq<(Day, real)>
    decreases hi - lo
  {
    if hi < lo then []
    else Query(tb, c, lo, hi - 1) + (if (hi, c) in tb then [(hi, tb[(hi, c)])] else [])
  }

  predicate Ascending(published: seq<(Day, real)>) {
    forall i, j :: 0 <= i < j < |published| ==> published[i].0 < published[j].0
  }

  lemma {:induction false} QueryAscends(tb: Table, c: Currency, lo: Day, hi: Day)
    ensures Ascending(Query(tb, c, lo, hi)) && forall i :: 0 <= i < |Query(tb, c, lo, hi)| ==> lo <= Query(tb, c, lo, hi)[i].0 <= hi
    decreases hi - lo
  {
    if hi < lo {
    } else {
      QueryAscends(tb, c, lo, hi - 1);
    }
  }

  /** The scan both services use: the last entry not after `on`, or nothing. */
  function LastUpTo(published: seq<(Day, real)>, on: Day): Option<real> {
    if published == [] then None
    else if published[|published| - 1].0 <= on then Some(published[|published| - 1].1)
    else LastUpTo(published[..|published| - 1], on)
  }

  lemma {:induction false} ScanFindsLookup(tb: Table, c: Currency, lo: Day, hi: Day, on: Day)
    requires on <= hi
    ensures LastUpTo(Query(tb, c, lo, hi), on) == Lookup(tb, c, lo, on)
    decreases hi - lo
  {
    if hi < lo {
    } else {
      var before := Query(tb, c, lo, hi - 1);
      if (hi, c) in tb {
        assert Query(tb, c, lo, hi)[..|before|] == before;
      } else {
        assert Query(tb, c, lo, hi) == before;
      }
      if on < hi {
        ScanFindsLookup(tb, c, lo, hi - 1, on);
      } else if (hi, c) !in tb {
        ScanFindsLookup(tb, c, lo, hi - 1, hi - 1);
        LastBeyondTheEnd(tb, c, lo, hi - 1, hi);
      }
    }
  }

  lemma LastBeyondTheEnd(tb: Table, c: Currency, lo: Day, hi: Day, on: Day)
    requires hi <= on
    ensures LastUpTo(Query(tb, c, lo, hi), on) == LastUpTo(Query(tb, c, lo, hi), hi)
  {
    QueryAscends(tb, c, lo, hi);
  }

  method LatestOnOrBefore(published: seq<(Day, real)>, on: Day) returns (chosen: Option<real>)
    requires Ascending(published)
    ensures chosen == LastUpTo(published, on)
  {
    chosen := None;
    var i := 0;
    while i < |published|
      invariant 0 <= i <= |published|
      invariant chosen == LastUpTo(published[..i], on)
    {
      assert published[..i + 1][..i] == published[..i];
      if published[i].0 <= on {
        chosen := Some(published[i].1);
      } else {
        NothingLater(published, i, on);
        return;
      }
      i := i + 1;
    }
    assert published[..|published|] == published;
  }

  lemma {:induction false} NothingLater(published: seq<(Day, real)>, i: nat, on: Day)
    requires Ascending(published) && i < |published| && published[i].0 > on
    ensures LastUpTo(published, on) == LastUpTo(published[..i], on)
    decreases |published|
  {
    var n := |published| - 1;
    if i < n {
      NothingLater(published[..n], i, on);
      assert published[..n][..i] == published[..i];
    }
  }

  // ------------------------------------------------------------ the calls

  /** The first day with a publication, going back from `on` by `delta` up to seven days. */
  function ProbedDay(pub: Publisher, on: Day, delta: nat): (r: Option<Day>)
    ensures r.Some? ==> on - LOOKBACK <= r.value <= on - delta && pub(r.value) != map[]
    ensures forall e :: (if r.Some? then r.value else on - LOOKBACK - 1) < e <= on - delta ==> pub(e) == map[]
    decreases LOOKBACK + 1 - delta
  {
    if delta > LOOKBACK then None
    else if pub(on - delta) != map[] then Some(on - delta)
    else ProbedDay(pub, on, delta + 1)
  }

  function HistoricalRate(tb: Table, pub: Publisher, c: Currency, on: Day): (Table, Option<real>) {
    if c == TRY then (tb, Some(1.0))
    else
      var hit := RateOnOrBefore(tb, c, on);
      if hit.Some? then (tb, hit)
      else
        var d := ProbedDay(pub, on, 0);
        if d.None? then (tb, None)
        else (UpsertAll(tb, pub, {d.value}), if Storable(pub(d.value), c) then Some(pub(d.value)[c]) else None)
  }

  /** `d` is the newest day up to `on` with a stored rate. */
  ghost predicate NewestStored(tb: Table, c: Currency, on: Day, d: Day) {
    d <= on && (d, c) in tb && forall e :: d < e <= on ==> (e, c) !in tb
  }

  ghost predicate NothingStored(tb: Table, c: Currency, on: Day) {
    forall e :: e <= on ==> (e, c) !in tb
  }

  /** `d` is the newest day of the last seven and `on` itself with a publication. */
  ghost predicate NewestPublished(pub: Publisher, on: Day, d: Day) {
    on - 7 <= d <= on && pub(d) != map[] && forall e :: d < e <= on ==> pub(e) == map[]
  }

  /**
   The answer without its loop: the newest stored rate, however old; with none, the newest publication
   within seven days back is stored whole, and decides even when it lacks the currency; else nothing.
   */
  lemma HistoricalRateMeans(tb: Table, pub: Publisher, c: Currency, on: Day, d: Day)
    requires c != TRY
    ensures NewestStored(tb, c, on, d) ==> HistoricalRate(tb, pub, c, on) == (tb, Some(tb[(d, c)]))
    ensures NothingStored(tb, c, on) && NewestPublished(pub, on, d) ==>
      HistoricalRate(tb, pub, c, on) == (UpsertAll(tb, pub, {d}), if PositiveRate(pub(d), c) then Some(pub(d)[c]) else None)
    ensures NothingStored(tb, c, on) && (forall e :: on - 7 <= e <= on ==> pub(e) == map[]) ==>
      HistoricalRate(tb, pub, c, on) == (tb, None)
  {
    if NewestStored(tb, c, on, d) {
      NewestStoredIsFound(tb, c, on, d);
    } else if NothingStored(tb, c, on) {
      NothingIsFound(tb, c, on);
      if NewestPublished(pub, on, d) {
        NewestPublishedIsProbed(pub, on, d);
      }
    }
  }

  lemma NewestStoredIsFound(tb: Table, c: Currency, on: Day, d: Day)
    requires NewestStored(tb, c, on, d)
    ensures RateOnOrBefore(tb, c, on) == Some(tb[(d, c)])
  {
    var days := DaysUpTo(tb, c, on);
    assert (d, c) in tb && d in days;
    var top := Greatest(days);
    assert (top, c) in tb;
  }

  lemma NothingIsFound(tb: Table, c: Currency, on: Day)
    requires NothingStored(tb, c, on)
    ensures RateOnOrBefore(tb, c, on) == None
  {
    assert forall e :: e in DaysUpTo(tb, c, on) ==> (e, c) in tb && e <= on;
    assert DaysUpTo(tb, c, on) == {};
  }

  lemma NewestPublishedIsProbed(pub: Publisher, on: Day, d: Day)
    requires NewestPublished(pub, on, d)
    ensures ProbedDay(pub, on, 0) == Some(d)
  {
    var r := ProbedDay(pub, on, 0);
    assert r.Some? && (r.value < d || r.value > d ==> false);
  }

  function ForwardFill(tb: Table, c: Currency, lo: Day, dates: set<Day>): (filled: map<Day, real>)
    ensures filled.Keys <= dates
  {
    map d | d in dates && Lookup(tb, c, lo, d).Some? :: Lookup(tb, c, lo, d).value
  }

  function Bulk(tb: Table, pub: Publisher, c: Currency, dates: set<Day>): (Table, map<Day, real>) {
    if dates == {} then (tb, map[])
    else if c == TRY then (tb, Ones(dates))
    else BulkFrom(tb, pub, c, Least(dates) - LOOKBACK, dates)
  }

  function Ones(dates: set<Day>): map<Day, real> {
    map d | d in dates :: 1.0
  }

  function BulkFrom(tb: Table, pub: Publisher, c: Currency, lower: Day, dates: set<Day>): (Table, map<Day, real>) {
    var filled := ForwardFill(tb, c, lower, dates);
    if filled.Keys == dates then (tb, filled)
    else
      var after := UpsertAll(tb, pub, dates - filled.Keys);
      (after, ForwardFill(after, c, lower, dates))
  }

  // ------------------------------------------------------------ coherence with the publisher

  /** Every row is a positive publication that is not TRY, and a day that has rows has all of its publication. */
  ghost predicate Faithful(tb: Table, pub: Publisher) {
    && (forall k :: k in tb ==> Storable(pub(k.0), k.1) && tb[k] == pub(k.0)[k.1])
    && (forall k, c :: k in tb && Storable(pub(k.0), c) ==> (k.0, c) in tb)
  }

  /** No row of `tb` is lost or changed in `later`. */
  ghost predicate Grows(tb: Table, later: Table) {
    forall k :: k in tb ==> k in later && later[k] == tb[k]
  }

  /**
   The rows a caching pass leaves: the old ones, and of each listed day that had no row at all its positive
   rates other than TRY.
   */
  lemma EnsuredRows(tb: Table, pub: Publisher, days: set<Day>, k: (Day, Currency))
    ensures
      var after, isNew := EnsureAll(tb, pub, days), k.0 in days && (forall c :: (k.0, c) !in tb) && PositiveRate(pub(k.0), k.1);
      && (k in after <==> k in tb || isNew)
      && (k in tb ==> after[k] == tb[k]) && (isNew ==> after[k] == pub(k.0)[k.1])
  {
    UpsertedRows(tb, pub, set d | d in days && !HasDay(tb, d));
    if HasDay(tb, k.0) {
      var other :| other in tb && other.0 == k.0;
      assert (k.0, other.1) in tb;
    }
  }

  /** A positive rate of a currency other than the lira. */
  predicate PositiveRate(rates: Rates, c: Currency) {
    c != "TRY" && c in rates && rates[c] > 0.0
  }

  lemma UpsertTwice(tb: Table, pub: Publisher, days: set<Day>)
    ensures UpsertAll(UpsertAll(tb, pub, days), pub, days) == UpsertAll(tb, pub, days)
  {
    UpsertedRows(tb, pub, days);
    UpsertedRows(UpsertAll(tb, pub, days), pub, days);
  }

  lemma UpsertAllStaysFaithful(tb: Table, pub: Publisher, days: set<Day>)
    requires Faithful(tb, pub)
    ensures Faithful(UpsertAll(tb, pub, days), pub) && Grows(tb, UpsertAll(tb, pub, days))
    ensures forall d, c :: d in days && Storable(pub(d), c) ==> (d, c) in UpsertAll(tb, pub, days)
    ensures forall k :: k in UpsertAll(tb, pub, days) ==> k in tb || k.0 in days
  {
    var after := UpsertAll(tb, pub, days);
    UpsertedRows(tb, pub, days);
    forall k, c | k in after && Storable(pub(k.0), c)
      ensures (k.0, c) in after
    {
      if k in tb {
        assert (k.0, c) in tb;
      }
    }
  }

  lemma EnsureAllStaysFaithful(tb: Table, pub: Publisher, days: set<Day>)
    requires Faithful(tb, pub)
    ensures Faithful(EnsureAll(tb, pub, days), pub) && Grows(tb, EnsureAll(tb, pub, days))
    ensures forall d, c :: d in days && Storable(pub(d), c) ==> (d, c) in EnsureAll(tb, pub, days)
  {
    UpsertAllStaysFaithful(tb, pub, set d | d in days && !HasDay(tb, d));
    forall d, c | d in days && Storable(pub(d), c)
      ensures (d, c) in EnsureAll(tb, pub, days)
    {
      if HasDay(tb, d) {
        var k :| k in tb && k.0 == d;
        assert (k.0, c) in tb;
      }
    }
  }

  datatype Call =
    | EnsureDate(d: Day)
    | GetRate(c: Currency, on: Day)
    | GetRates(c: Currency, dates: set<Day>)
    | Backfill(dates: set<Day>)

  function AfterCall(tb: Table, pub: Publisher, call: Call): Table {
    match call
    case EnsureDate(d) => Ensure(tb, pub, d)
    case GetRate(c, on) => HistoricalRate(tb, pub, c, on).0
    case GetRates(c, dates) => Bulk(tb, pub, c, dates).0
    case Backfill(dates) => EnsureAll(tb, pub, dates)
  }

  function AfterCalls(tb: Table, pub: Publisher, calls: seq<Call>): Table {
    if calls == [] then tb else AfterCall(AfterCalls(tb, pub, calls[..|calls| - 1]), pub, calls[|calls| - 1])
  }

  lemma HistoricalRateStaysFaithful(tb: Table, pub: Publisher, c: Currency, on: Day)
    requires Faithful(tb, pub)
    ensures Faithful(HistoricalRate(tb, pub, c, on).0, pub) && Grows(tb, HistoricalRate(tb, pub, c, on).0)
  {
    var d := ProbedDay(pub, on, 0);
    if d.Some? {
      UpsertAllStaysFaithful(tb, pub, {d.value});
    }
  }

  lemma BulkStaysFaithful(tb: Table, pub: Publisher, c: Currency, dates: set<Day>)
    requires Faithful(tb, pub)
    ensures Faithful(Bulk(tb, pub, c, dates).0, pub) && Grows(tb, Bulk(tb, pub, c, dates).0)
  {
    if dates != {} && c != TRY {
      UpsertAllStaysFaithful(tb, pub, dates - ForwardFill(tb, c, Least(dates) - LOOKBACK, dates).Keys);
    }
  }

  lemma CallStaysFaithful(tb: Table, pub: Publisher, call: Call)
    requires Faithful(tb, pub)
    ensures Faithful(AfterCall(tb, pub, call), pub) && Grows(tb, AfterCall(tb, pub, call))
  {
    match call {
      case EnsureDate(d) => UpsertAllStaysFaithful(tb, pub, {d});
      case GetRate(c, on) => HistoricalRateStaysFaithful(tb, pub, c, on);
      case GetRates(c, dates) => BulkStaysFaithful(tb, pub, c, dates);
      case Backfill(dates) => EnsureAllStaysFaithful(tb, pub, dates);
    }
  }

  /** Over any sequence of calls every stored row stays a positive publication, and no row is removed or changed. */
  lemma {:induction false} TableStaysFaithful(tb: Table, pub: Publisher, calls: seq<Call>)
    requires Faithful(tb, pub)
    ensures Faithful(AfterCalls(tb, pub, calls), pub) && Grows(tb, AfterCalls(tb, pub, calls))
    ensures forall k :: k in AfterCalls(tb, pub, calls) ==>
      PositiveRate(pub(k.0), k.1) && AfterCalls(tb, pub, calls)[k] == pub(k.0)[k.1]
  {
    if calls == [] {
    } else {
      TableStaysFaithful(tb, pub, calls[..|calls| - 1]);
      CallStaysFaithful(AfterCalls(tb, pub, calls[..|calls| - 1]), pub, calls[|calls| - 1]);
    }
  }

  // ------------------------------------------------------------ the lookups agree

  /**
   What the bulk call returns for a date, the single lookup returns on the same table; a date it leaves out
   has no rate in the window.
   */
  lemma BulkAgreesWithSingle(tb: Table, pub: Publisher, c: Currency, dates: set<Day>, d: Day)
    requires c != TRY && d in dates
    ensures
      var (after, out) := Bulk(tb, pub, c, dates);
      if d in out then RateOnOrBefore(after, c, d) == Some(out[d])
      else forall e :: Least(dates) - LOOKBACK <= e <= d ==> (e, c) !in after
  {
    var (after, out) := Bulk(tb, pub, c, dates);
    if d in out {
      WindowAgrees(after, c, Least(dates) - LOOKBACK, d);
    }
  }

  /** A rate is stored in the window from seven days before the earliest date. */
  ghost predicate Covered(tb: Table, c: Currency, dates: set<Day>, d: Day) {
    exists e, first :: first in dates && (forall other :: other in dates ==> first <= other) && first - 7 <= e <= d && (e, c) in tb
  }

  lemma CoveredExactly(tb: Table, c: Currency, dates: set<Day>, d: Day)
    requires d in dates
    ensures Lookup(tb, c, Least(dates) - LOOKBACK, d).Some? <==> Covered(tb, c, dates, d)
  {
    var first, found := Least(dates), LatestDay(tb, c, Least(dates) - LOOKBACK, d);
    if found.Some? {
      assert first in dates && first - 7 <= found.value <= d && (found.value, c) in tb;
    }
  }

  lemma FilledExactly(tb: Table, c: Currency, dates: set<Day>)
    requires dates != {}
    ensures forall d :: d in ForwardFill(tb, c, Least(dates) - LOOKBACK, dates) <==> d in dates && Covered(tb, c, dates, d)
  {
    forall d | d in dates
      ensures Lookup(tb, c, Least(dates) - LOOKBACK, d).Some? <==> Covered(tb, c, dates, d)
    {
      CoveredExactly(tb, c, dates, d);
    }
  }

  /**
   The bulk call without its loops: exactly the dates that no stored rate covers are fetched and stored whole,
   the others are not, and a date is answered exactly when it is covered then, by the newest stored rate.
   */
  lemma BulkMeans(tb: Table, pub: Publisher, c: Currency, dates: set<Day>, k: (Day, Currency), d: Day)
    requires c != TRY && d in dates
    ensures
      var (after, out) := Bulk(tb, pub, c, dates);
      var isNew := k.0 in dates && !Covered(tb, c, dates, k.0) && PositiveRate(pub(k.0), k.1);
      && (k in after <==> k in tb || isNew) && (isNew ==> after[k] == pub(k.0)[k.1]) && (k in tb && !isNew ==> after[k] == tb[k])
      && (d in out <==> Covered(after, c, dates, d))
      && (d in out ==> RateOnOrBefore(after, c, d) == Some(out[d]))
  {
    var (after, out) := Bulk(tb, pub, c, dates);
    var filled := ForwardFill(tb, c, Least(dates) - LOOKBACK, dates);
    FilledExactly(tb, c, dates);
    FilledExactly(after, c, dates);
    UpsertedRows(tb, pub, dates - filled.Keys);
    BulkAgreesWithSingle(tb, pub, c, dates, d);
  }

  lemma UpsertAnswers(tb: Table, pub: Publisher, c: Currency, on: Day, d: Day)
    requires c != TRY && DaysUpTo(tb, c, on) == {} && d <= on
    ensures RateOnOrBefore(UpsertAll(tb, pub, {d}), c, on) == if Storable(pub(d), c) then Some(pub(d)[c]) else None
  {
    var after := UpsertAll(tb, pub, {d});
    forall e | e in DaysUpTo(after, c, on)
      ensures e == d && Storable(pub(d), c)
    {
      assert (e, c) in after;
      assert (e, c) in tb ==> e in DaysUpTo(tb, c, on);
    }
    if Storable(pub(d), c) {
      assert (d, c) in after && d in DaysUpTo(after, c, on);
    }
  }

  /** Asking again for the same rate gives the same answer and changes nothing more. */
  lemma RepeatedRateIsStable(tb: Table, pub: Publisher, c: Currency, on: Day)
    ensures
      var (after, rate) := HistoricalRate(tb, pub, c, on);
      HistoricalRate(after, pub, c, on) == (after, rate)
  {
    var d := ProbedDay(pub, on, 0);
    if c != TRY && RateOnOrBefore(tb, c, on).None? && d.Some? {
      UpsertAnswers(tb, pub, c, on, d.value);
      UpsertTwice(tb, pub, {d.value});
    }
  }
}

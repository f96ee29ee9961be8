/**
 Conversion of realized records to a display currency. Amounts are stored in cents; the value of a
 record is an exact real, and only a total is rounded.
 */
module Conversion {
  import opened Money
  import opened Options
  import opened RateTable

  datatype Item = Item(amount: int, currency: Currency, on: Day, amountTl: Option<int>)

  /** The unrounded value of one record, from the rates of its own and the display currency on its day. */
  function Value(item: Item, display: Currency, src: Option<real>, dst: Option<real>): real {
    var amount := Amount(item.amount);
    if item.currency == display then amount
    else if display == TRY then
      if item.amountTl.Some? then Amount(item.amountTl.value)
      else if src.Some? then amount * src.value else 0.0
    else if item.currency == TRY then
      if dst.Some? && dst.value > 0.0 then amount / dst.value else 0.0
    else if src.None? || dst.None? || dst.value <= 0.0 then 0.0
    else amount * src.value / dst.value
  }

  /**
   What a record is worth, without a formula for it: the amount itself in its own currency, the recorded
   lira amount in lira, nothing where a rate is missing, and otherwise as many lira as the record is worth.
   */
  ghost predicate IsWorth(item: Item, display: Currency, src: Option<real>, dst: Option<real>, x: real) {
    if item.currency == display then x == Amount(item.amount)
    else if display == TRY && item.amountTl.Some? then x == Amount(item.amountTl.value)
    else if item.currency != TRY && src.None? then x == 0.0
    else if display != TRY && (dst.None? || dst.value <= 0.0) then x == 0.0
    else
      var lira := if item.currency == TRY then Amount(item.amount) else Amount(item.amount) * src.value;
      if display == TRY then x == lira else x * dst.value == lira
  }

  lemma PlainWorth(item: Item, display: Currency, src: Option<real>, dst: Option<real>, x: real)
    requires item.currency == display || display == TRY || dst.None? || dst.value <= 0.0 || (item.currency != TRY && src.None?)
    ensures Value(item, display, src, dst) == x <==> IsWorth(item, display, src, dst, x)
  {
  }

  lemma LiraWorth(item: Item, display: Currency, src: Option<real>, rate: real, x: real)
    requires item.currency == TRY && display != TRY && rate > 0.0
    ensures Value(item, display, src, Some(rate)) == x <==> IsWorth(item, display, src, Some(rate), x)
  {
    QuotientExactly(Amount(item.amount), rate, x);
  }

  lemma CrossWorth(item: Item, display: Currency, own: real, rate: real, x: real)
    requires item.currency != display && item.currency != TRY && display != TRY && rate > 0.0
    ensures Value(item, display, Some(own), Some(rate)) == x <==> IsWorth(item, display, Some(own), Some(rate), x)
  {
    QuotientExactly(Amount(item.amount) * own, rate, x);
  }

  lemma WorthExactly(item: Item, display: Currency, src: Option<real>, dst: Option<real>, x: real)
    ensures Value(item, display, src, dst) == x <==> IsWorth(item, display, src, dst, x)
  {
    if item.currency == display || display == TRY || dst.None? || dst.value <= 0.0 || (item.currency != TRY && src.None?) {
      PlainWorth(item, display, src, dst, x);
    } else if item.currency == TRY {
      LiraWorth(item, display, src, dst.value, x);
    } else {
      CrossWorth(item, display, src.value, dst.value, x);
    }
  }

  lemma QuotientExactly(a: real, d: real, x: real)
    requires d > 0.0
    ensures a / d == x <==> x * d == a
  {
    assert a / d * d == a;
    if x * d == a {
      assert (x - a / d) * d == 0.0;
    }
  }

  /** The record cannot be valued without a rate. */
  predicate NeedsRates(item: Item, display: Currency) {
    item.currency != display && !(display == TRY && item.amountTl.Some?)
  }

  function NeededDates(items: seq<Item>, display: Currency): set<Day> {
    set i | 0 <= i < |items| && NeedsRates(items[i], display) :: items[i].on
  }

  function NeededCurrencies(items: seq<Item>, display: Currency): set<Currency> {
    (set i | 0 <= i < |items| && NeedsRates(items[i], display) && items[i].currency != TRY :: items[i].currency)
    + (set i | 0 <= i < |items| && NeedsRates(items[i], display) && display != TRY :: display)
  }

  /** A rate by its definition: the newest stored one on or before the day and not before `lower`. */
  function RateAt(tb: Table, lower: Day, c: Currency, on: Day): Option<real> {
    if c == TRY then Some(1.0) else Lookup(tb, c, lower, on)
  }

  function ValueAt(tb: Table, lower: Day, item: Item, display: Currency): real {
    Value(item, display, RateAt(tb, lower, item.currency, item.on), RateAt(tb, lower, display, item.on))
  }

  function ValuesAt(tb: Table, lower: Day, items: seq<Item>, display: Currency): real {
    if items == [] then 0.0
    else ValuesAt(tb, lower, items[..|items| - 1], display) + ValueAt(tb, lower, items[|items| - 1], display)
  }

  function LowerOf(dates: set<Day>): Day {
    if dates == {} then 0 else Least(dates) - LOOKBACK
  }

  /** The per-record definition of a batch conversion: the new table, and the rounded sum of the values in cents. */
  function Converted(tb: Table, pub: Publisher, items: seq<Item>, display: Currency): (Table, int) {
    var dates := NeededDates(items, display);
    var after := EnsureAll(tb, pub, dates);
    (after, HalfUp(ValuesAt(after, LowerOf(dates), items, display)))
  }

  // ------------------------------------------------------------ what a batch conversion returns

  /** The newest stored rate of the window, if there is one. */
  ghost predicate IsRateIn(tb: Table, lower: Day, c: Currency, on: Day, r: Option<real>) {
    if r.Some? then exists d :: lower <= d && NewestStored(tb, c, on, d) && tb[(d, c)] == r.value
    else forall d :: lower <= d <= on ==> (d, c) !in tb
  }

  ghost predicate IsWorthIn(tb: Table, lower: Day, item: Item, display: Currency, x: real) {
    exists src, dst ::
      && (item.currency != TRY ==> IsRateIn(tb, lower, item.currency, item.on, src))
      && (display != TRY ==> IsRateIn(tb, lower, display, item.on, dst))
      && IsWorth(item, display, src, dst, x)
  }

  function RealSum(xs: seq<real>): real {
    if xs == [] then 0.0 else RealSum(xs[..|xs| - 1]) + xs[|xs| - 1]
  }

  /** `total` is the sum of what the records are worth at the rates of the window, rounded once. */
  ghost predicate IsBatchWorth(tb: Table, lower: Day, items: seq<Item>, display: Currency, total: int) {
    exists xs ::
      && |xs| == |items| && (forall i :: 0 <= i < |xs| ==> IsWorthIn(tb, lower, items[i], display, xs[i]))
      && IsHalfUp(RealSum(xs), total)
  }

  /** `first` is the earliest date of a record that is neither in the display currency nor of a recorded lira amount. */
  ghost predicate EarliestForeign(items: seq<Item>, display: Currency, first: Day) {
    && (exists i :: 0 <= i < |items| && items[i].on == first && Foreign(items[i], display))
    && forall i :: 0 <= i < |items| && Foreign(items[i], display) ==> first <= items[i].on
  }

  predicate Foreign(item: Item, display: Currency) {
    item.currency != display && (display != "TRY" || item.amountTl.None?)
  }

  lemma ValueAtIsWorth(tb: Table, lower: Day, item: Item, display: Currency)
    ensures IsWorthIn(tb, lower, item, display, ValueAt(tb, lower, item, display))
  {
    var src, dst := RateAt(tb, lower, item.currency, item.on), RateAt(tb, lower, display, item.on);
    WorthExactly(item, display, src, dst, ValueAt(tb, lower, item, display));
    LookupIsRate(tb, lower, item.currency, item.on);
    LookupIsRate(tb, lower, display, item.on);
  }

  lemma LookupIsRate(tb: Table, lower: Day, c: Currency, on: Day)
    ensures IsRateIn(tb, lower, c, on, Lookup(tb, c, lower, on))
  {
    var d := LatestDay(tb, c, lower, on);
    if d.Some? {
      assert NewestStored(tb, c, on, d.value);
    }
  }

  lemma {:induction false} ValuesAreWorths(tb: Table, lower: Day, items: seq<Item>, display: Currency)
    returns (xs: seq<real>)
    ensures |xs| == |items| && (forall i :: 0 <= i < |xs| ==> IsWorthIn(tb, lower, items[i], display, xs[i]))
    ensures RealSum(xs) == ValuesAt(tb, lower, items, display)
  {
    if items == [] {
      xs := [];
    } else {
      var n := |items| - 1;
      var before := ValuesAreWorths(tb, lower, items[..n], display);
      ValueAtIsWorth(tb, lower, items[n], display);
      xs := before + [ValueAt(tb, lower, items[n], display)];
      assert xs[..n] == before;
    }
  }

  lemma BatchIsWorth(tb: Table, lower: Day, items: seq<Item>, display: Currency)
    ensures IsBatchWorth(tb, lower, items, display, HalfUp(ValuesAt(tb, lower, items, display)))
  {
    var xs := ValuesAreWorths(tb, lower, items, display);
    HalfUpExact(RealSum(xs), HalfUp(RealSum(xs)));
  }

  lemma EarliestIsLeast(items: seq<Item>, display: Currency, first: Day)
    requires EarliestForeign(items, display, first)
    ensures LowerOf(NeededDates(items, display)) == first - 7
  {
    var dates := NeededDates(items, display);
    assert first in dates;
    var least := Least(dates);
    var i :| 0 <= i < |items| && NeedsRates(items[i], display) && items[i].on == least;
    assert Foreign(items[i], display);
  }

  /**
   The definition of a batch conversion means what it should: worths at the newest rates back to seven days
   before the earliest date that needs one.
   */
  lemma ConvertedMeans(tb: Table, pub: Publisher, items: seq<Item>, display: Currency)
    ensures
      var (after, total) := Converted(tb, pub, items, display);
      forall first :: EarliestForeign(items, display, first) ==> IsBatchWorth(after, first - 7, items, display, total)
    ensures
      var (after, total) := Converted(tb, pub, items, display);
      (forall i :: 0 <= i < |items| ==> !Foreign(items[i], display)) ==>
        after == EnsureAll(tb, pub, {}) && IsBatchWorth(after, 0, items, display, total)
  {
    var (after, total) := Converted(tb, pub, items, display);
    forall first | EarliestForeign(items, display, first)
      ensures IsBatchWorth(after, first - 7, items, display, total)
    {
      EarliestIsLeast(items, display, first);
      BatchIsWorth(after, first - 7, items, display);
    }
    if forall i :: 0 <= i < |items| ==> !Foreign(items[i], display) {
      assert NeededDates(items, display) == {};
      BatchIsWorth(after, 0, items, display);
    }
  }

  // ------------------------------------------------------------ the rates a batch sees

  /** The lookup of one rate after caching the days of a batch. */
  function BatchRate(tb: Table, pub: Publisher, dates: set<Day>, c: Currency, on: Day): Option<real>
    requires dates != {}
  {
    Lookup(EnsureAll(tb, pub, dates), c, Least(dates) - LOOKBACK, on)
  }

  function DayAlone(tb: Table, pub: Publisher, c: Currency, on: Day): Option<Day> {
    LatestDay(EnsureAll(tb, pub, {on}), c, on - LOOKBACK, on)
  }

  /** The rate a record finds when it is converted alone. */
  function RateAlone(tb: Table, pub: Publisher, c: Currency, on: Day): Option<real> {
    Lookup(EnsureAll(tb, pub, {on}), c, on - LOOKBACK, on)
  }

  /** A publication that would change the rate a record finds alone, if its day were cached too. */
  predicate Displaces(tb: Table, pub: Publisher, c: Currency, on: Day, p: Day) {
    && p <= on && Storable(pub(p), c)
    && (RateAlone(tb, pub, c, on).Some? ==> DayAlone(tb, pub, c, on).value < p && pub(p)[c] != RateAlone(tb, pub, c, on).value)
  }

  ghost predicate Stable(tb: Table, pub: Publisher, c: Currency, on: Day) {
    forall p :: !Displaces(tb, pub, c, on, p)
  }

  lemma RowIsPublished(tb: Table, pub: Publisher, c: Currency, d: Day)
    requires Faithful(tb, pub) && (d, c) in tb
    ensures Storable(pub(d), c) && tb[(d, c)] == pub(d)[c]
  {
    var k := (d, c);
    assert k in tb;
  }

  /**
   On any faithful table that has grown from the record's own, with any older window, a stable rate is what it
   is alone.
   */
  lemma StableRateKeeps(tb: Table, pub: Publisher, later: Table, lower: Day, c: Currency, on: Day)
    requires Faithful(tb, pub) && Faithful(later, pub) && Grows(EnsureAll(tb, pub, {on}), later)
    requires lower <= on - LOOKBACK && Stable(tb, pub, c, on)
    ensures Lookup(later, c, lower, on) == RateAlone(tb, pub, c, on)
  {
    var alone := DayAlone(tb, pub, c, on);
    var found := LatestDay(later, c, lower, on);
    if alone.Some? {
      assert (alone.value, c) in later;
    }
    if found.Some? {
      RowIsPublished(later, pub, c, found.value);
      assert !Displaces(tb, pub, c, on, found.value);
    }
  }

  lemma MoreDaysGrow(tb: Table, later: Table, pub: Publisher, few: set<Day>, many: set<Day>)
    requires Faithful(tb, pub) && Faithful(later, pub) && Grows(tb, later) && few <= many
    ensures Grows(EnsureAll(tb, pub, few), EnsureAll(later, pub, many))
  {
    EnsureAllStaysFaithful(tb, pub, few);
    EnsureAllStaysFaithful(later, pub, many);
    UpsertAllStaysFaithful(tb, pub, set d | d in few && !HasDay(tb, d));
    var a, b := EnsureAll(tb, pub, few), EnsureAll(later, pub, many);
    forall k | k in a
      ensures k in b && b[k] == a[k]
    {
      RowIsPublished(a, pub, k.1, k.0);
      if k in tb {
        assert k in later;
      }
      assert (k.0, k.1) in b;
      RowIsPublished(b, pub, k.1, k.0);
    }
  }

  ghost predicate SameInEveryBatch(tb: Table, pub: Publisher, c: Currency, on: Day) {
    forall dates: set<Day> :: on in dates ==> BatchRate(tb, pub, dates, c, on) == RateAlone(tb, pub, c, on)
  }

  lemma StableInBatch(tb: Table, pub: Publisher, dates: set<Day>, c: Currency, on: Day)
    requires Faithful(tb, pub) && Stable(tb, pub, c, on) && on in dates
    ensures BatchRate(tb, pub, dates, c, on) == RateAlone(tb, pub, c, on)
  {
    EnsureAllStaysFaithful(tb, pub, dates);
    MoreDaysGrow(tb, tb, pub, {on}, dates);
    StableRateKeeps(tb, pub, EnsureAll(tb, pub, dates), Least(dates) - LOOKBACK, c, on);
  }

  /**
   The rate a record finds is the same in every batch that contains its date exactly when no publication
   displaces it.
   */
  lemma BatchIndependenceExactly(tb: Table, pub: Publisher, c: Currency, on: Day)
    requires Faithful(tb, pub)
    ensures SameInEveryBatch(tb, pub, c, on) <==> Stable(tb, pub, c, on)
  {
    if Stable(tb, pub, c, on) {
      StableInEveryBatch(tb, pub, c, on);
    } else {
      var p :| Displaces(tb, pub, c, on, p);
      DisplacingBatch(tb, pub, c, on, p);
      OtherRateInOneBatch(tb, pub, c, on, {on, p});
    }
  }

  lemma OtherRateInOneBatch(tb: Table, pub: Publisher, c: Currency, on: Day, dates: set<Day>)
    requires on in dates && BatchRate(tb, pub, dates, c, on) != RateAlone(tb, pub, c, on)
    ensures !SameInEveryBatch(tb, pub, c, on)
  {
  }

  lemma StableInEveryBatch(tb: Table, pub: Publisher, c: Currency, on: Day)
    requires Faithful(tb, pub) && Stable(tb, pub, c, on)
    ensures SameInEveryBatch(tb, pub, c, on)
  {
    forall dates: set<Day> | on in dates
      ensures BatchRate(tb, pub, dates, c, on) == RateAlone(tb, pub, c, on)
    {
      StableInBatch(tb, pub, dates, c, on);
    }
  }

  lemma DisplacingBatch(tb: Table, pub: Publisher, c: Currency, on: Day, p: Day)
    requires Faithful(tb, pub) && Displaces(tb, pub, c, on, p)
    ensures BatchRate(tb, pub, {on, p}, c, on) != RateAlone(tb, pub, c, on)
  {
    var dates := {on, p};
    var alone, after := EnsureAll(tb, pub, {on}), EnsureAll(tb, pub, dates);
    EnsureAllStaysFaithful(tb, pub, dates);
    assert (p, c) in after && Least(dates) == p;
    var found := LatestDay(after, c, p - LOOKBACK, on).value;
    RowIsPublished(after, pub, c, found);
    RowIsPublished(after, pub, c, p);
    // found is after p only if it was stored before, too far back for the record alone
    if found != p {
      OnlyTheNewDay(tb, pub, on, p, found, c);
    }
  }

  lemma OnlyTheNewDay(tb: Table, pub: Publisher, on: Day, p: Day, d: Day, c: Currency)
    requires Faithful(tb, pub) && (d, c) in EnsureAll(tb, pub, {on, p}) && d != p
    ensures (d, c) in EnsureAll(tb, pub, {on})
  {
    UpsertAllStaysFaithful(tb, pub, set e | e in {on, p} && !HasDay(tb, e));
    EnsureAllStaysFaithful(tb, pub, {on});
    EnsureAllStaysFaithful(tb, pub, {on, p});
    RowIsPublished(EnsureAll(tb, pub, {on, p}), pub, c, d);
    if (d, c) !in tb {
      assert (d, c).0 in {on, p};
    }
  }

  /** A publication on the day itself makes the rate stable. */
  lemma PublishedDayIsStable(tb: Table, pub: Publisher, c: Currency, on: Day)
    requires Faithful(tb, pub) && Storable(pub(on), c)
    ensures Stable(tb, pub, c, on)
  {
    EnsureAllStaysFaithful(tb, pub, {on});
    assert (on, c) in EnsureAll(tb, pub, {on});
  }

  /**
   What a caller can look up beforehand: a rate stored within the last seven days, and nothing published
   for the currency since. An ordinary weekend after a stored Friday is covered.
   */
  lemma CoveredDayIsStable(tb: Table, pub: Publisher, c: Currency, on: Day, q: Day)
    requires Faithful(tb, pub) && (q, c) in tb && on - LOOKBACK <= q <= on
    requires forall e :: q < e <= on ==> !Storable(pub(e), c)
    ensures Stable(tb, pub, c, on)
  {
    EnsureAllStaysFaithful(tb, pub, {on});
    assert (q, c) in EnsureAll(tb, pub, {on});
  }

  /**
   A publication within the last seven days is not enough: a Saturday finds no rate alone, and Friday's when a
   Friday shares its batch.
   */
  lemma RecentPublicationIsNotEnough(friday: Day)
    ensures
      var pub: Publisher := d => if d == friday then map["USD" := 10.0] else map[];
      && RateAlone(map[], pub, "USD", friday + 1) == None
      && BatchRate(map[], pub, {friday + 1, friday}, "USD", friday + 1) != None
  {
    var pub: Publisher := d => if d == friday then map["USD" := 10.0] else map[];
    var alone := EnsureAll(map[], pub, {friday + 1});
    EnsureAllStaysFaithful(map[], pub, {friday + 1});
    UpsertAllStaysFaithful(map[], pub, set d | d in {friday + 1} && !HasDay(map[], d));
    forall d
      ensures (d, "USD") !in alone
    {
      assert (d, "USD") in alone ==> (d, "USD").0 in {friday + 1};
      if (d, "USD") in alone {
        RowIsPublished(alone, pub, "USD", d);
      }
    }
    DisplacingBatch(map[], pub, "USD", friday + 1, friday);
  }

  // ------------------------------------------------------------ the value of a stable record

  /** Every rate the record needs is stable. */
  ghost predicate ItemStable(tb: Table, pub: Publisher, item: Item, display: Currency) {
    NeedsRates(item, display) ==>
      && (item.currency != TRY ==> Stable(tb, pub, item.currency, item.on))
      && (display != TRY ==> Stable(tb, pub, display, item.on))
  }

  ghost predicate ItemsStable(tb: Table, pub: Publisher, items: seq<Item>, display: Currency) {
    forall i :: 0 <= i < |items| ==> ItemStable(tb, pub, items[i], display)
  }

  function SideAlone(tb: Table, pub: Publisher, c: Currency, on: Day): Option<real> {
    if c == TRY then Some(1.0) else RateAlone(tb, pub, c, on)
  }

  /** The value of a record by its own date alone, on the table `tb`. */
  function ValueAlone(tb: Table, pub: Publisher, item: Item, display: Currency): real {
    Value(item, display, SideAlone(tb, pub, item.currency, item.on), SideAlone(tb, pub, display, item.on))
  }

  function ValuesAlone(tb: Table, pub: Publisher, items: seq<Item>, display: Currency): real {
    if items == [] then 0.0
    else ValuesAlone(tb, pub, items[..|items| - 1], display) + ValueAlone(tb, pub, items[|items| - 1], display)
  }

  lemma StableValue(tb: Table, pub: Publisher, later: Table, dates: set<Day>, item: Item, display: Currency)
    requires Faithful(tb, pub) && Faithful(later, pub) && Grows(tb, later)
    requires ItemStable(tb, pub, item, display) && (NeedsRates(item, display) ==> item.on in dates)
    ensures ValueAt(EnsureAll(later, pub, dates), LowerOf(dates), item, display) == ValueAlone(tb, pub, item, display)
  {
    if NeedsRates(item, display) {
      EnsureAllStaysFaithful(later, pub, dates);
      MoreDaysGrow(tb, later, pub, {item.on}, dates);
      if item.currency != TRY {
        StableRateKeeps(tb, pub, EnsureAll(later, pub, dates), LowerOf(dates), item.currency, item.on);
      }
      if display != TRY {
        StableRateKeeps(tb, pub, EnsureAll(later, pub, dates), LowerOf(dates), display, item.on);
      }
    }
  }

  lemma {:induction false} StableValues(tb: Table, pub: Publisher, later: Table, dates: set<Day>, items: seq<Item>,
                                        display: Currency)
    requires Faithful(tb, pub) && Faithful(later, pub) && Grows(tb, later)
    requires ItemsStable(tb, pub, items, display) && NeededDates(items, display) <= dates
    ensures ValuesAt(EnsureAll(later, pub, dates), LowerOf(dates), items, display) == ValuesAlone(tb, pub, items, display)
  {
    if items == [] {
    } else {
      var n := |items| - 1;
      forall d | d in NeededDates(items[..n], display)
        ensures d in dates
      {
        var i :| 0 <= i < n && NeedsRates(items[..n][i], display) && items[..n][i].on == d;
        assert items[i] == items[..n][i];
      }
      assert NeedsRates(items[n], display) ==> items[n].on in NeededDates(items, display);
      StableValues(tb, pub, later, dates, items[..n], display);
      StableValue(tb, pub, later, dates, items[n], display);
    }
  }

  /** A batch of stable records is the rounded sum of the records' own values, on whatever the table has grown to. */
  lemma StableBatch(tb: Table, pub: Publisher, later: Table, items: seq<Item>, display: Currency)
    requires Faithful(tb, pub) && Faithful(later, pub) && Grows(tb, later) && ItemsStable(tb, pub, items, display)
    ensures
      var (after, total) := Converted(later, pub, items, display);
      total == HalfUp(ValuesAlone(tb, pub, items, display)) && Faithful(after, pub) && Grows(tb, after)
  {
    StableValues(tb, pub, later, NeededDates(items, display), items, display);
    EnsureAllStaysFaithful(later, pub, NeededDates(items, display));
  }

  // ------------------------------------------------------------ conversion by key

  datatype Keyed = Keyed(key: string, item: Item)

  /** The keys in the order of their first rows. */
  function KeysOf(rows: seq<Keyed>): seq<string> {
    if rows == [] then []
    else
      var before, k := KeysOf(rows[..|rows| - 1]), rows[|rows| - 1].key;
      if k in before then before else before + [k]
  }

  function ItemsOf(rows: seq<Keyed>, key: string): seq<Item> {
    if rows == [] then []
    else
      var row := rows[|rows| - 1];
      ItemsOf(rows[..|rows| - 1], key) + (if row.key == key then [row.item] else [])
  }

  function AllItems(rows: seq<Keyed>): seq<Item> {
    seq(|rows|, i requires 0 <= i < |rows| => rows[i].item)
  }

  lemma {:induction false} NoItems(rows: seq<Keyed>, key: string)
    requires key !in KeysOf(rows)
    ensures ItemsOf(rows, key) == []
  {
    if rows == [] {
    } else {
      NoItems(rows[..|rows| - 1], key);
    }
  }

  datatype Grouped = Grouped(table: Table, byKey: map<string, int>, total: int)

  /** One batch per key, one after the other, each on the table the one before has left. */
  function GroupsOver(tb: Table, pub: Publisher, rows: seq<Keyed>, keys: seq<string>, display: Currency): Grouped {
    if keys == [] then Grouped(tb, map[], 0)
    else WithGroup(GroupsOver(tb, pub, rows, keys[..|keys| - 1], display), pub, rows, keys[|keys| - 1], display)
  }

  function WithGroup(before: Grouped, pub: Publisher, rows: seq<Keyed>, k: string, display: Currency): Grouped {
    var (after, value) := Converted(before.table, pub, ItemsOf(rows, k), display);
    Grouped(after, before.byKey[k := value], before.total + value)
  }

  function ConvertedGrouped(tb: Table, pub: Publisher, rows: seq<Keyed>, display: Currency): Grouped {
    var groups := GroupsOver(tb, pub, rows, KeysOf(rows), display);
    groups.(total := HalfUp(Amount(groups.total)))
  }

  ghost predicate Distinct(keys: seq<string>) {
    forall i, j :: 0 <= i < j < |keys| ==> keys[i] != keys[j]
  }

  lemma {:induction false} KeysAreDistinct(rows: seq<Keyed>)
    ensures Distinct(KeysOf(rows)) && forall i :: 0 <= i < |rows| ==> rows[i].key in KeysOf(rows)
    ensures forall k :: k in KeysOf(rows) ==> exists i :: 0 <= i < |rows| && rows[i].key == k
  {
    if rows == [] {
    } else {
      var n := |rows| - 1;
      KeysAreDistinct(rows[..n]);
      assert forall i :: 0 <= i < n ==> rows[i] == rows[..n][i];
      forall k | k in KeysOf(rows)
        ensures exists i :: 0 <= i < |rows| && rows[i].key == k
      {
        if k in KeysOf(rows[..n]) {
          var i :| 0 <= i < n && rows[..n][i].key == k;
          assert rows[i].key == k;
        } else {
          assert rows[n].key == k;
        }
      }
    }
  }

  /** The sum over keys of the sums of their records' values. */
  function KeyedValues(tb: Table, pub: Publisher, rows: seq<Keyed>, keys: seq<string>, display: Currency): real {
    if keys == [] then 0.0
    else KeyedValues(tb, pub, rows, keys[..|keys| - 1], display) + ValuesAlone(tb, pub, ItemsOf(rows, keys[|keys| - 1]), display)
  }

  lemma ItemsOfOneMore(tb: Table, pub: Publisher, rows: seq<Keyed>, key: string, display: Currency)
    requires rows != []
    ensures ValuesAlone(tb, pub, ItemsOf(rows, key), display)
         == ValuesAlone(tb, pub, ItemsOf(rows[..|rows| - 1], key), display)
            + (if rows[|rows| - 1].key == key then ValueAlone(tb, pub, rows[|rows| - 1].item, display) else 0.0)
  {
    var before, row := ItemsOf(rows[..|rows| - 1], key), rows[|rows| - 1];
    if row.key == key {
      assert ItemsOf(rows, key)[..|before|] == before;
    } else {
      assert ItemsOf(rows, key) == before;
    }
  }

  lemma {:induction false} KeyedValuesOfOneMore(tb: Table, pub: Publisher, rows: seq<Keyed>, keys: seq<string>,
                                                display: Currency)
    requires rows != [] && Distinct(keys)
    ensures KeyedValues(tb, pub, rows, keys, display)
         == KeyedValues(tb, pub, rows[..|rows| - 1], keys, display)
            + (if rows[|rows| - 1].key in keys then ValueAlone(tb, pub, rows[|rows| - 1].item, display) else 0.0)
    decreases |keys|
  {
    if keys == [] {
    } else {
      var n := |keys| - 1;
      KeyedValuesOfOneMore(tb, pub, rows, keys[..n], display);
      ItemsOfOneMore(tb, pub, rows, keys[n], display);
      assert forall k :: k in keys <==> k in keys[..n] || k == keys[n];
    }
  }

  /** Grouping loses and repeats no record. */
  lemma {:induction false} GroupsPartition(tb: Table, pub: Publisher, rows: seq<Keyed>, keys: seq<string>,
                                           display: Currency)
    requires Distinct(keys) && forall i :: 0 <= i < |rows| ==> rows[i].key in keys
    ensures KeyedValues(tb, pub, rows, keys, display) == ValuesAlone(tb, pub, AllItems(rows), display)
    decreases |rows|
  {
    if rows == [] {
      NoRowsNoValue(tb, pub, keys, display);
    } else {
      GroupsPartition(tb, pub, rows[..|rows| - 1], keys, display);
      KeyedValuesOfOneMore(tb, pub, rows, keys, display);
      AllItemsOfOneMore(tb, pub, rows, display);
    }
  }

  lemma AllItemsOfOneMore(tb: Table, pub: Publisher, rows: seq<Keyed>, display: Currency)
    requires rows != []
    ensures ValuesAlone(tb, pub, AllItems(rows), display)
         == ValuesAlone(tb, pub, AllItems(rows[..|rows| - 1]), display) + ValueAlone(tb, pub, rows[|rows| - 1].item, display)
  {
    assert AllItems(rows)[..|rows| - 1] == AllItems(rows[..|rows| - 1]);
  }

  lemma {:induction false} NoRowsNoValue(tb: Table, pub: Publisher, keys: seq<string>, display: Currency)
    ensures KeyedValues(tb, pub, [], keys, display) == 0.0
  {
    if keys == [] {
    } else {
      NoRowsNoValue(tb, pub, keys[..|keys| - 1], display);
    }
  }

  function SumOfKeys(byKey: map<string, int>, keys: seq<string>): int
    requires forall k :: k in keys ==> k in byKey
  {
    if keys == [] then 0 else SumOfKeys(byKey, keys[..|keys| - 1]) + byKey[keys[|keys| - 1]]
  }

  lemma {:induction false} SumIgnoresOtherKeys(byKey: map<string, int>, keys: seq<string>, k: string, value: int)
    requires (forall key :: key in keys ==> key in byKey) && k !in keys
    ensures SumOfKeys(byKey[k := value], keys) == SumOfKeys(byKey, keys)
  {
    if keys == [] {
    } else {
      SumIgnoresOtherKeys(byKey, keys[..|keys| - 1], k, value);
    }
  }

  lemma {:induction false} GroupsAddUp(tb: Table, pub: Publisher, rows: seq<Keyed>, keys: seq<string>,
                                       display: Currency)
    requires Distinct(keys)
    ensures
      var groups := GroupsOver(tb, pub, rows, keys, display);
      (forall k :: k in groups.byKey <==> k in keys) && groups.total == SumOfKeys(groups.byKey, keys)
    decreases |keys|
  {
    if keys == [] {
    } else {
      var init, k := keys[..|keys| - 1], keys[|keys| - 1];
      var before := GroupsOver(tb, pub, rows, init, display);
      GroupsAddUp(tb, pub, rows, init, display);
      assert k !in init && forall key :: key in keys <==> key in init || key == k;
      var groups := WithGroup(before, pub, rows, k, display);
      SumIgnoresOtherKeys(before.byKey, init, k, groups.byKey[k]);
    }
  }

  /** The total of a grouped conversion is exactly the sum of its groups' values. */
  lemma GroupedTotalIsSum(tb: Table, pub: Publisher, rows: seq<Keyed>, display: Currency)
    ensures
      var grouped := ConvertedGrouped(tb, pub, rows, display);
      && (forall k :: k in grouped.byKey <==> exists i :: 0 <= i < |rows| && rows[i].key == k)
      && (forall k :: k in KeysOf(rows) ==> k in grouped.byKey)
      && grouped.total == SumOfKeys(grouped.byKey, KeysOf(rows))
  {
    KeysAreDistinct(rows);
    GroupsAddUp(tb, pub, rows, KeysOf(rows), display);
    HalfUpOfCents(GroupsOver(tb, pub, rows, KeysOf(rows), display).total);
  }

  ghost predicate RowsStable(tb: Table, pub: Publisher, rows: seq<Keyed>, display: Currency) {
    forall i :: 0 <= i < |rows| ==> ItemStable(tb, pub, rows[i].item, display)
  }

  lemma {:induction false} GroupIsStable(tb: Table, pub: Publisher, rows: seq<Keyed>, key: string, display: Currency)
    requires RowsStable(tb, pub, rows, display)
    ensures ItemsStable(tb, pub, ItemsOf(rows, key), display)
  {
    if rows == [] {
    } else {
      GroupIsStable(tb, pub, rows[..|rows| - 1], key, display);
    }
  }

  /**
   Each key has the rounded sum of its records' own values, and all roundings together move at most half a
   cent per key.
   */
  ghost predicate EachRoundedOnce(groups: Grouped, tb: Table, pub: Publisher, rows: seq<Keyed>, keys: seq<string>,
                                  display: Currency) {
    && Faithful(groups.table, pub) && Grows(tb, groups.table)
    && (forall k :: k in groups.byKey <==> k in keys)
    && (forall k :: k in keys ==> groups.byKey[k] == HalfUp(ValuesAlone(tb, pub, ItemsOf(rows, k), display)))
    && WithinHalfCents(groups.total, KeyedValues(tb, pub, rows, keys, display), |keys|)
  }

  predicate WithinHalfCents(cents: int, value: real, n: nat) {
    -(n as real) <= 2.0 * (cents as real - 100.0 * value) <= n as real
  }

  lemma HalfCentMore(cents: int, value: real, n: nat, own: real)
    requires WithinHalfCents(cents, value, n)
    ensures WithinHalfCents(cents + HalfUp(own), value + own, n + 1)
  {
    HalfUpExact(own, HalfUp(own));
  }

  lemma KeyedValuesOfOneMoreKey(tb: Table, pub: Publisher, rows: seq<Keyed>, keys: seq<string>, k: string,
                                display: Currency)
    ensures KeyedValues(tb, pub, rows, keys + [k], display)
         == KeyedValues(tb, pub, rows, keys, display) + ValuesAlone(tb, pub, ItemsOf(rows, k), display)
  {
    assert (keys + [k])[..|keys|] == keys;
  }

  lemma RoundedEntries(groups: Grouped, after: Grouped, tb: Table, pub: Publisher, rows: seq<Keyed>, keys: seq<string>,
                       k: string, display: Currency)
    requires EachRoundedOnce(groups, tb, pub, rows, keys, display) && Faithful(after.table, pub) && Grows(tb, after.table)
    requires
      var value := HalfUp(ValuesAlone(tb, pub, ItemsOf(rows, k), display));
      after.byKey == groups.byKey[k := value] && after.total == groups.total + value
    ensures EachRoundedOnce(after, tb, pub, rows, keys + [k], display)
  {
    var own := ValuesAlone(tb, pub, ItemsOf(rows, k), display);
    KeyedValuesOfOneMoreKey(tb, pub, rows, keys, k, display);
    HalfCentMore(groups.total, KeyedValues(tb, pub, rows, keys, display), |keys|, own);
  }

  lemma RoundOneMore(groups: Grouped, tb: Table, pub: Publisher, rows: seq<Keyed>, keys: seq<string>, k: string,
                     display: Currency)
    requires Faithful(tb, pub) && RowsStable(tb, pub, rows, display) && EachRoundedOnce(groups, tb, pub, rows, keys, display)
    ensures EachRoundedOnce(WithGroup(groups, pub, rows, k, display), tb, pub, rows, keys + [k], display)
  {
    GroupIsStable(tb, pub, rows, k, display);
    StableBatch(tb, pub, groups.table, ItemsOf(rows, k), display);
    RoundedEntries(groups, WithGroup(groups, pub, rows, k, display), tb, pub, rows, keys, k, display);
  }

  /**
   Each group of stable records is converted as it would be alone, and all roundings together move at most
   half a cent per group.
   */
  lemma {:induction false} GroupsRoundOnce(tb: Table, pub: Publisher, later: Table, rows: seq<Keyed>, keys: seq<string>,
                                           display: Currency)
    requires Faithful(tb, pub) && Faithful(later, pub) && Grows(tb, later) && RowsStable(tb, pub, rows, display)
    ensures EachRoundedOnce(GroupsOver(later, pub, rows, keys, display), tb, pub, rows, keys, display)
    decreases |keys|
  {
    if keys == [] {
      NoGroups(tb, pub, later, rows, keys, display);
    } else {
      GroupsRoundOnce(tb, pub, later, rows, keys[..|keys| - 1], display);
      LastGroup(tb, pub, later, rows, keys, display);
    }
  }

  lemma NoGroups(tb: Table, pub: Publisher, later: Table, rows: seq<Keyed>, keys: seq<string>, display: Currency)
    requires Faithful(later, pub) && Grows(tb, later) && keys == []
    ensures EachRoundedOnce(GroupsOver(later, pub, rows, keys, display), tb, pub, rows, keys, display)
  {
  }

  lemma LastGroup(tb: Table, pub: Publisher, later: Table, rows: seq<Keyed>, keys: seq<string>, display: Currency)
    requires Faithful(tb, pub) && RowsStable(tb, pub, rows, display) && keys != []
    requires
      var init := keys[..|keys| - 1];
      EachRoundedOnce(GroupsOver(later, pub, rows, init, display), tb, pub, rows, init, display)
    ensures EachRoundedOnce(GroupsOver(later, pub, rows, keys, display), tb, pub, rows, keys, display)
  {
    var init, k := keys[..|keys| - 1], keys[|keys| - 1];
    RoundOneMore(GroupsOver(later, pub, rows, init, display), tb, pub, rows, init, k, display);
    assert init + [k] == keys;
  }

  /**
   The total of a grouped conversion over k keys differs from the ungrouped conversion of the same rows
   by at most (k + 1) / 2 cents, when every rate the rows need is stable.
   */
  lemma GroupingErrorBound(tb: Table, pub: Publisher, rows: seq<Keyed>, display: Currency)
    requires Faithful(tb, pub) && RowsStable(tb, pub, rows, display)
    ensures
      var grouped, whole := ConvertedGrouped(tb, pub, rows, display).total, Converted(tb, pub, AllItems(rows), display).1;
      -((|KeysOf(rows)| + 1) / 2) <= grouped - whole <= (|KeysOf(rows)| + 1) / 2
  {
    var keys := KeysOf(rows);
    KeysAreDistinct(rows);
    GroupsRoundOnce(tb, pub, tb, rows, keys, display);
    GroupsPartition(tb, pub, rows, keys, display);
    StableBatch(tb, pub, tb, AllItems(rows), display);
    var groups, sum := GroupsOver(tb, pub, rows, keys, display), ValuesAlone(tb, pub, AllItems(rows), display);
    HalfUpOfCents(groups.total);
    HalfUpExact(sum, HalfUp(sum));
    assert -1.0 <= 2.0 * (HalfUp(sum) as real - 100.0 * sum) <= 1.0;
    var gap := groups.total - HalfUp(sum);
    assert -((|keys| + 1) as real) <= 2.0 * gap as real <= (|keys| + 1) as real;
    assert -(|keys| + 1) <= 2 * gap <= |keys| + 1;
  }
}

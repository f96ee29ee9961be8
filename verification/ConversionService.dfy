/** The batch conversion in the form of the source: collect, prefetch, scan, add up, round once. */
module ConversionService {
  import opened Money
  import opened Options
  import opened RateTable
  import opened RateStore
  import opened Conversion

  type Matrix = map<Day, map<Currency, real>>

  /** The matrix holds exactly the rates a lookup in the window finds. */
  ghost predicate MatrixOf(m: Matrix, tb: Table, lower: Day, dates: set<Day>, currencies: set<Currency>) {
    && m.Keys == dates
    && forall d :: d in dates ==> DayOf(m[d], tb, lower, d, currencies)
  }

  ghost predicate DayOf(rates: map<Currency, real>, tb: Table, lower: Day, d: Day, currencies: set<Currency>) {
    && (forall c :: c in rates ==> c in currencies && Lookup(tb, c, lower, d) == Some(rates[c]))
    && (forall c :: c in currencies && c !in rates ==> Lookup(tb, c, lower, d) == None)
  }

  method MatrixDay(lists: map<Currency, seq<(Day, real)>>, currencies: set<Currency>, d: Day, ghost tb: Table,
                   ghost lower: Day, ghost upper: Day)
    returns (rates: map<Currency, real>)
    requires forall c :: c in currencies ==> c in lists && lists[c] == Query(tb, c, lower, upper)
    requires d <= upper
    ensures DayOf(rates, tb, lower, d, currencies)
  {
    rates := map[];
    var todo := currencies;
    while todo != {}
      invariant todo <= currencies
      invariant DayOf(rates, tb, lower, d, currencies - todo)
      decreases |todo|
    {
      var c :| c in todo;
      QueryAscends(tb, c, lower, upper);
      ScanFindsLookup(tb, c, lower, upper, d);
      var chosen := LatestOnOrBefore(lists[c], d);
      if chosen.Some? {
        rates := rates[c := chosen.value];
      }
      todo := todo - {c};
    }
    assert currencies - todo == currencies;
  }

  /** Without dates or without a currency other than TRY nothing is fetched. */
  method HistoricalRateMatrix(store: Store, dates: set<Day>, currencies: set<Currency>) returns (matrix: Matrix)
    modifies store`table
    ensures store.table ==
      if dates == {} || currencies - {TRY} == {} then old(store.table) else EnsureAll(old(store.table), store.publisher, dates)
    ensures MatrixOf(matrix, store.table, LowerOf(dates), dates, currencies - {TRY})
  {
    var nonTry := currencies - {TRY};
    if dates == {} || nonTry == {} {
      matrix := map d | d in dates :: map[];
    } else {
      store.EnsureDatesCached(dates);
      matrix := ScannedMatrix(store.table, dates, nonTry);
    }
  }

  /** One query for the whole window, then a scan per date and currency. */
  method ScannedMatrix(tb: Table, dates: set<Day>, currencies: set<Currency>) returns (matrix: Matrix)
    requires dates != {}
    ensures MatrixOf(matrix, tb, LowerOf(dates), dates, currencies)
  {
    var lower, upper := Least(dates) - LOOKBACK, Greatest(dates);
    var lists := map c | c in currencies :: Query(tb, c, lower, upper);
    matrix := FillMatrix(lists, currencies, dates, tb, lower, upper);
  }

  method FillMatrix(lists: map<Currency, seq<(Day, real)>>, currencies: set<Currency>, dates: set<Day>, ghost tb: Table,
                    ghost lower: Day, ghost upper: Day)
    returns (matrix: Matrix)
    requires forall c :: c in currencies ==> c in lists && lists[c] == Query(tb, c, lower, upper)
    requires forall d :: d in dates ==> d <= upper
    ensures MatrixOf(matrix, tb, lower, dates, currencies)
  {
    matrix := map[];
    var todo := dates;
    while todo != {}
      invariant todo <= dates
      invariant MatrixOf(matrix, tb, lower, dates - todo, currencies)
      decreases |todo|
    {
      NotEmpty(todo);
      var d :| d in todo;
      var rates := MatrixDay(lists, currencies, d, tb, lower, upper);
      matrix := matrix[d := rates];
      todo := todo - {d};
    }
    assert dates - todo == dates;
  }

  function RateFor(matrix: Matrix, on: Day, c: Currency): Option<real> {
    if c == TRY then Some(1.0)
    else if on in matrix && c in matrix[on] then Some(matrix[on][c]) else None
  }

  /** What was prefetched is what the record needs: the matrix never misses a rate the table has. */
  lemma NoMiss(items: seq<Item>, display: Currency, i: nat, m: Matrix, tb: Table, lower: Day)
    requires i < |items|
    requires NeedsRates(items[i], display) ==>
      MatrixOf(m, tb, lower, NeededDates(items, display), NeededCurrencies(items, display) - {TRY})
    ensures Value(items[i], display, RateFor(m, items[i].on, items[i].currency), RateFor(m, items[i].on, display))
         == ValueAt(tb, lower, items[i], display)
  {
    if NeedsRates(items[i], display) {
      var on := items[i].on;
      assert on in NeededDates(items, display);
      assert DayOf(m[on], tb, lower, on, NeededCurrencies(items, display) - {TRY});
      if items[i].currency != TRY {
        assert items[i].currency in NeededCurrencies(items, display);
      }
      if display != TRY {
        assert display in NeededCurrencies(items, display);
      }
    }
  }

  lemma NothingNeeded(tb: Table, pub: Publisher)
    ensures EnsureAll(tb, pub, {}) == tb
  {
    assert Published(pub, {}) == {} by {
      assert forall k :: k in Published(pub, {}) ==> (k.0, k.1) in Published(pub, {});
    }
    assert (set d | d in {} && !HasDay(tb, d)) == {};
  }

  lemma SomeRateIsNeeded(items: seq<Item>, display: Currency)
    ensures NeededDates(items, display) != {} ==> NeededCurrencies(items, display) - {TRY} != {}
  {
    if NeededDates(items, display) != {} {
      NotEmpty(NeededDates(items, display));
      var d :| d in NeededDates(items, display);
      var i :| 0 <= i < |items| && NeedsRates(items[i], display) && items[i].on == d;
      var c := if items[i].currency != TRY then items[i].currency else display;
      assert c in NeededCurrencies(items, display) - {TRY};
    }
  }

  /** The collecting loop: the dates and currencies for which a rate will be looked up. */
  method CollectNeeded(items: seq<Item>, display: Currency) returns (dates: set<Day>, currencies: set<Currency>)
    ensures dates == NeededDates(items, display) && currencies == NeededCurrencies(items, display)
    ensures forall d :: d in dates <==> exists i :: 0 <= i < |items| && Foreign(items[i], display) && items[i].on == d
  {
    dates, currencies := {}, {};
    for i := 0 to |items|
      invariant dates == set j | 0 <= j < i && NeedsRates(items[j], display) :: items[j].on
      invariant currencies ==
        (set j | 0 <= j < i && NeedsRates(items[j], display) && items[j].currency != TRY :: items[j].currency)
        + (set j | 0 <= j < i && NeedsRates(items[j], display) && display != TRY :: display)
    {
      var c := items[i].currency;
      if c == display {
        continue;
      }
      if display == TRY && items[i].amountTl.Some? {
        continue;
      }
      dates := dates + {items[i].on};
      if c != TRY {
        currencies := currencies + {c};
      }
      if display != TRY {
        currencies := currencies + {display};
      }
    }
  }

  /** The adding loop over the records of a batch. */
  method AddUp(items: seq<Item>, display: Currency, matrix: Matrix, ghost tb: Table, ghost lower: Day)
    returns (sum: real)
    requires NeededDates(items, display) != {} ==>
      MatrixOf(matrix, tb, lower, NeededDates(items, display), NeededCurrencies(items, display) - {TRY})
    ensures sum == ValuesAt(tb, lower, items, display)
  {
    sum := 0.0;
    for i := 0 to |items|
      invariant sum == ValuesAt(tb, lower, items[..i], display)
    {
      assert items[..i + 1][..i] == items[..i];
      assert NeedsRates(items[i], display) ==> items[i].on in NeededDates(items, display);
      NoMiss(items, display, i, matrix, tb, lower);
      sum := sum + Value(items[i], display, RateFor(matrix, items[i].on, items[i].currency), RateFor(matrix, items[i].on, display));
    }
    assert items[..|items|] == items;
  }

  /** Caches what the batch needs and adds it up; the batch computes exactly the per-record definition. */
  method ConvertBatch(store: Store, items: seq<Item>, display: Currency) returns (total: int)
    modifies store`table
    ensures (store.table, total) == Converted(old(store.table), store.publisher, items, display)
  {
    NothingNeeded(store.table, store.publisher);
    if items == [] {
      return 0;
    }
    var dates, currencies := CollectNeeded(items, display);
    SomeRateIsNeeded(items, display);
    var matrix: Matrix := map[];
    if dates != {} {
      matrix := HistoricalRateMatrix(store, dates, currencies);
    }
    var sum := AddUp(items, display, matrix, store.table, LowerOf(dates));
    total := HalfUp(sum);
  }

  /** The total is what the records are worth at the newest rates of the window, added up and rounded once. */
  method ConvertRealized(store: Store, items: seq<Item>, display: Currency) returns (total: int)
    modifies store`table
    ensures (store.table, total) == Converted(old(store.table), store.publisher, items, display)
    ensures forall first :: EarliestForeign(items, display, first) ==> IsBatchWorth(store.table, first - 7, items, display, total)
    ensures (forall i :: 0 <= i < |items| ==> !Foreign(items[i], display)) ==>
      store.table == old(store.table) && IsBatchWorth(store.table, 0, items, display, total)
  {
    NothingNeeded(store.table, store.publisher);
    ConvertedMeans(store.table, store.publisher, items, display);
    total := ConvertBatch(store, items, display);
  }

  /** The grouping loop: per key the items in the order of their rows, and the keys in the order of their first rows. */
  method GroupRows(rows: seq<Keyed>) returns (keys: seq<string>, byKey: map<string, seq<Item>>)
    ensures keys == KeysOf(rows)
    ensures forall k :: k in byKey <==> k in keys
    ensures forall k :: k in keys ==> byKey[k] == ItemsOf(rows, k)
  {
    keys, byKey := [], map[];
    for i := 0 to |rows|
      invariant keys == KeysOf(rows[..i])
      invariant forall k :: k in byKey <==> k in keys
      invariant forall k :: k in keys ==> byKey[k] == ItemsOf(rows[..i], k)
    {
      assert rows[..i + 1][..i] == rows[..i];
      var key := rows[i].key;
      if key !in byKey {
        NoItems(rows[..i], key);
        keys := keys + [key];
        byKey := byKey[key := []];
      }
      byKey := byKey[key := byKey[key] + [rows[i].item]];
    }
    assert rows[..|rows|] == rows;
  }

  lemma OneMoreGroup(tb: Table, pub: Publisher, rows: seq<Keyed>, keys: seq<string>, i: nat, display: Currency)
    requires i < |keys|
    ensures GroupsOver(tb, pub, rows, keys[..i + 1], display)
         == WithGroup(GroupsOver(tb, pub, rows, keys[..i], display), pub, rows, keys[i], display)
  {
    assert keys[..i + 1][..i] == keys[..i];
  }

  method ConvertRealizedGrouped(store: Store, rows: seq<Keyed>, display: Currency)
    returns (byKey: map<string, int>, total: int)
    modifies store`table
    ensures Grouped(store.table, byKey, total) == ConvertedGrouped(old(store.table), store.publisher, rows, display)
  {
    var keys, items := GroupRows(rows);
    byKey := map[];
    var sum := 0;
    ghost var before := store.table;
    for i := 0 to |keys|
      invariant Grouped(store.table, byKey, sum) == GroupsOver(before, store.publisher, rows, keys[..i], display)
    {
      OneMoreGroup(before, store.publisher, rows, keys, i, display);
      assert keys[i] in keys;
      var value := ConvertRealized(store, items[keys[i]], display);
      byKey := byKey[keys[i] := value];
      sum := sum + value;
    }
    assert keys[..|keys|] == keys;
    total := HalfUp(Amount(sum));
  }
}

/** The rate service over its table, in the form of the source: probing, filling and upserting loops. */
module RateStore {
  import opened Options
  import opened RateTable

  class Store {
    const publisher: Publisher
    var table: Table

    constructor (publisher: Publisher)
      ensures this.publisher == publisher && table == map[]
    {
      this.publisher := publisher;
      table := map[];
    }

    /** Upserts one day's publication, code by code, skipping TRY and rates that are not positive. */
    method UpsertRates(d: Day)
      modifies this`table
      ensures table == UpsertAll(old(table), publisher, {d})
      ensures forall k :: k in table <==> k in old(table) || (k.0 == d && PositiveRate(publisher(d), k.1))
      ensures forall k :: k in table ==>
        table[k] == if k.0 == d && PositiveRate(publisher(d), k.1) then publisher(d)[k.1] else old(table)[k]
    {
      UpsertedRows(table, publisher, {d});
      table := WithRates(table, d, publisher(d));
      assert table == UpsertAll(old(table), publisher, {d});
    }

    static method WithRates(before: Table, d: Day, rates: Rates) returns (after: Table)
      ensures forall k :: k in after <==> k in before || (k.0 == d && Storable(rates, k.1))
      ensures forall k :: k in after ==> after[k] == if k.0 == d && Storable(rates, k.1) then rates[k.1] else before[k]
    {
      after := before;
      var codes := rates.Keys;
      while codes != {}
        invariant codes <= rates.Keys
        invariant forall k :: k in after <==> k in before || (k.0 == d && k.1 !in codes && Storable(rates, k.1))
        invariant forall k :: k in after ==>
          after[k] == if k.0 == d && k.1 !in codes && Storable(rates, k.1) then rates[k.1] else before[k]
        decreases |codes|
      {
        var code :| code in codes;
        if Storable(rates, code) {
          after := after[(d, code) := rates[code]];
        }
        codes := codes - {code};
      }
    }

    method EnsureDateCached(d: Day)
      modifies this`table
      ensures table == Ensure(old(table), publisher, d)
    {
      if HasDay(table, d) {
        return;
      }
      UpsertRates(d);
    }

    /** Caches every date of a set, one after the other. */
    method EnsureDatesCached(dates: set<Day>)
      modifies this`table
      ensures table == EnsureAll(old(table), publisher, dates)
    {
      var todo := dates;
      while todo != {}
        invariant todo <= dates
        invariant table == EnsureAll(old(table), publisher, dates - todo)
        decreases |todo|
      {
        NotEmpty(todo);
        var d :| d in todo;
        EnsureOneMore(old(table), publisher, dates - todo, d);
        EnsureDateCached(d);
        assert dates - (todo - {d}) == dates - todo + {d};
        todo := todo - {d};
      }
      assert dates - todo == dates;
    }

    method GetHistoricalRate(c: Currency, on: Day) returns (rate: Option<real>)
      modifies this`table
      ensures (table, rate) == HistoricalRate(old(table), publisher, c, on)
    {
      if c == TRY {
        return Some(1.0);
      }
      rate := RateOnOrBefore(table, c, on);
      if rate.Some? {
        return;
      }
      var found := ProbeBack(on);
      if found.Some? {
        UpsertRates(found.value);
        var rates := publisher(found.value);
        return if Storable(rates, c) then Some(rates[c]) else None;
      }
      rate := None;
    }

    /** Tries the day itself and up to seven days before it, until one has a publication. */
    method ProbeBack(on: Day) returns (found: Option<Day>)
      ensures found == ProbedDay(publisher, on, 0)
    {
      var delta := 0;
      while delta <= LOOKBACK
        invariant 0 <= delta <= LOOKBACK + 1
        invariant ProbedDay(publisher, on, 0) == ProbedDay(publisher, on, delta)
      {
        if publisher(on - delta) != map[] {
          return Some(on - delta);
        }
        delta := delta + 1;
      }
      found := None;
    }

    /** Assigns every date the last entry of the ascending list that is not after it, if there is one. */
    method ForwardFillDates(published: seq<(Day, real)>, dates: set<Day>) returns (filled: map<Day, real>)
      requires Ascending(published)
      ensures filled.Keys == set d | d in dates && LastUpTo(published, d).Some?
      ensures forall d :: d in filled ==> filled[d] == LastUpTo(published, d).value
    {
      filled := map[];
      var todo := dates;
      while todo != {}
        invariant todo <= dates
        invariant filled.Keys == set d | d in dates - todo && LastUpTo(published, d).Some?
        invariant forall d :: d in filled ==> filled[d] == LastUpTo(published, d).value
        decreases |todo|
      {
        NotEmpty(todo);
        var target :| target in todo;
        var chosen := LatestOnOrBefore(published, target);
        if chosen.Some? {
          filled := filled[target := chosen.value];
        }
        todo := todo - {target};
      }
    }

    method FilledFromTable(c: Currency, dates: set<Day>, lower: Day, upper: Day) returns (filled: map<Day, real>)
      requires forall d :: d in dates ==> d <= upper
      ensures filled == ForwardFill(table, c, lower, dates)
    {
      var published := Query(table, c, lower, upper);
      QueryAscends(table, c, lower, upper);
      filled := ForwardFillDates(published, dates);
      forall d | d in dates {
        ScanFindsLookup(table, c, lower, upper, d);
      }
    }

    method GetHistoricalRatesBulk(c: Currency, dates: set<Day>) returns (rates: map<Day, real>)
      modifies this`table
      ensures (table, rates) == Bulk(old(table), publisher, c, dates)
    {
      if dates == {} {
        return map[];
      }
      if c == TRY {
        return Ones(dates);
      }
      rates := RatesFrom(c, Least(dates) - LOOKBACK, Greatest(dates), dates);
    }

    method RatesFrom(c: Currency, lower: Day, upper: Day, dates: set<Day>) returns (rates: map<Day, real>)
      requires forall d :: d in dates ==> d <= upper
      modifies this`table
      ensures (table, rates) == BulkFrom(old(table), publisher, c, lower, dates)
    {
      rates := FilledFromTable(c, dates, lower, upper);
      var missing := dates - rates.Keys;
      if missing == {} {
        return;
      }
      UpsertEach(missing);
      rates := FilledFromTable(c, dates, lower, upper);
    }

    method UpsertEach(days: set<Day>)
      modifies this`table
      ensures table == UpsertAll(old(table), publisher, days)
    {
      var todo := days;
      while todo != {}
        invariant todo <= days
        invariant table == UpsertAll(old(table), publisher, days - todo)
        decreases |todo|
      {
        NotEmpty(todo);
        var d :| d in todo;
        UpsertOneMore(old(table), publisher, days - todo, d);
        UpsertRates(d);
        assert days - (todo - {d}) == days - todo + {d};
        todo := todo - {d};
      }
      assert days - todo == days;
    }

    /** Returns how many of the dates had a publication to cache. */
    method BackfillDates(dates: set<Day>) returns (cached: nat)
      modifies this`table
      ensures table == EnsureAll(old(table), publisher, dates)
      ensures cached == |WithPublication(publisher, set d | d in dates && !HasDay(old(table), d))|
    {
      cached := 0;
      var missing := set d | d in dates && !HasDay(table, d);
      var todo := missing;
      while todo != {}
        invariant todo <= missing
        invariant table == UpsertAll(old(table), publisher, missing - todo)
        invariant cached == |WithPublication(publisher, missing - todo)|
        decreases |todo|
      {
        NotEmpty(todo);
        var d :| d in todo;
        UpsertOneMore(old(table), publisher, missing - todo, d);
        CountOneMore(publisher, missing - todo, d);
        assert missing - (todo - {d}) == missing - todo + {d};
        if publisher(d) != map[] {
          UpsertRates(d);
          cached := cached + 1;
        } else {
          NothingToUpsert(table, publisher, d);
        }
        todo := todo - {d};
      }
      assert missing - todo == missing;
    }
  }

  function WithPublication(pub: Publisher, days: set<Day>): set<Day> {
    set d | d in days && pub(d) != map[]
  }

  lemma CountOneMore(pub: Publisher, days: set<Day>, d: Day)
    requires d !in days
    ensures |WithPublication(pub, days + {d})| == |WithPublication(pub, days)| + if pub(d) != map[] then 1 else 0
  {
    var before := WithPublication(pub, days);
    assert WithPublication(pub, days + {d}) == if pub(d) != map[] then before + {d} else before;
  }

  lemma RowsOfOneMore(pub: Publisher, days: set<Day>, d: Day)
    ensures NewRows(pub, days) + NewRows(pub, {d}) == NewRows(pub, days + {d})
  {
    assert forall k: (Day, Currency) :: k == (k.0, k.1);
  }

  lemma UpsertOneMore(tb: Table, pub: Publisher, days: set<Day>, d: Day)
    ensures UpsertAll(UpsertAll(tb, pub, days), pub, {d}) == UpsertAll(tb, pub, days + {d})
  {
    RowsOfOneMore(pub, days, d);
    UnionsAssociate(tb, NewRows(pub, days), NewRows(pub, {d}));
  }

  lemma UnionsAssociate(a: Table, b: Table, c: Table)
    ensures a + b + c == a + (b + c)
  {
  }

  lemma NothingToUpsert(tb: Table, pub: Publisher, d: Day)
    requires pub(d) == map[]
    ensures UpsertAll(tb, pub, {d}) == tb
  {
    UpsertedRows(tb, pub, {d});
  }

  lemma EnsureOneMore(tb: Table, pub: Publisher, days: set<Day>, d: Day)
    requires d !in days
    ensures Ensure(EnsureAll(tb, pub, days), pub, d) == EnsureAll(tb, pub, days + {d})
  {
    var missing := set e | e in days && !HasDay(tb, e);
    var after := EnsureAll(tb, pub, days);
    assert HasDay(after, d) <==> HasDay(tb, d) by {
      if HasDay(tb, d) {
        var k :| k in tb && k.0 == d;
        assert k in after;
      }
      if HasDay(after, d) {
        var k :| k in after && k.0 == d;
        assert (k.0, k.1) !in Published(pub, missing);
        assert k in tb;
      }
    }
    if HasDay(tb, d) {
      assert (set e | e in days + {d} && !HasDay(tb, e)) == missing;
    } else {
      assert (set e | e in days + {d} && !HasDay(tb, e)) == missing + {d};
      UpsertOneMore(tb, pub, missing, d);
    }
  }
}

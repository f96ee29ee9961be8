/**
 The payload of the live portfolio cache: six sections of positions, their total, the notes derived
 from them, and the row they are stored in. A JSON field the refresh code never reads is not modelled.
 */
module LivePayload {
  import opened Money
  import opened Options

  datatype Section = Wallets | Crypto | Tefas | Stocks | Commodities | ManualCrypto

  const VALID_SECTIONS: seq<Section> := [Wallets, Crypto, Tefas, Stocks, Commodities, ManualCrypto]

  const ALL_SECTIONS: set<Section> := {Wallets, Crypto, Tefas, Stocks, Commodities, ManualCrypto}

  /** The JSON value under `total_value_tl`. */
  datatype Raw = Absent | Number(value: real) | Malformed

  /** `symbol` is the fund code, ticker or coin symbol the section's notes are about. */
  datatype Position = Position(
    total: Raw,
    walletId: Option<string>,
    exchange: string,
    symbol: string,
    priceAvailable: Option<bool>,
    isStale: bool,
    unitPrice: real)

  datatype Body = Body(
    positions: seq<Position>,
    errors: map<string, string>,
    walletErrors: map<string, string>,
    goldAvailable: Option<bool>,
    silverAvailable: Option<bool>)

  type Payload = map<Section, Body>

  /** A compute function returned a body or raised. */
  datatype Computed = Done(body: Body) | Crashed

  function EmptyBody(s: Section): Body {
    if s == Commodities then Body([], map[], map[], Some(false), Some(false))
    else Body([], map[], map[], None, None)
  }

  function BodyOf(s: Section, c: Computed): Body {
    if c.Done? then c.body else EmptyBody(s)
  }

  function Positions(p: Payload, s: Section): seq<Position> {
    if s in p then p[s].positions else []
  }

  // ------------------------------------------------------------ the total

  function Worth(p: Position): real {
    if p.total.Number? then p.total.value else 0.0
  }

  function Sum(ps: seq<Position>): real {
    if ps == [] then 0.0 else Sum(ps[..|ps| - 1]) + Worth(ps[|ps| - 1])
  }

  function PayloadSum(p: Payload): real {
    Sum(Positions(p, Wallets)) + Sum(Positions(p, Crypto)) + Sum(Positions(p, Tefas))
    + Sum(Positions(p, Stocks)) + Sum(Positions(p, Commodities)) + Sum(Positions(p, ManualCrypto))
  }

  /** The stored total, in cents. */
  function Total(p: Payload): int {
    HalfEven(PayloadSum(p))
  }

  lemma {:induction false} SumOfBoth(a: seq<Position>, b: seq<Position>)
    ensures Sum(a + b) == Sum(a) + Sum(b)
    decreases |b|
  {
    if b == [] {
      assert a + b == a;
    } else {
      assert (a + b)[..|a + b| - 1] == a + b[..|b| - 1];
      SumOfBoth(a, b[..|b| - 1]);
    }
  }

  /** A number counts for itself, an absent or malformed value for nothing. */
  lemma SumOfOne(p: Position)
    ensures p.total.Number? ==> Sum([p]) == p.total.value
    ensures !p.total.Number? ==> Sum([p]) == 0.0
  {
    assert [p][..0] == [];
  }

  lemma PayloadSumOfOneMore(p: Payload, s: Section, body: Body)
    requires s !in p
    ensures PayloadSum(p[s := body]) == PayloadSum(p) + Sum(body.positions)
  {
    assert forall other :: other != s ==> Positions(p[s := body], other) == Positions(p, other);
    assert Sum(Positions(p, s)) == 0.0;
  }

  /** The accumulating loop, over the sections in whatever order the stored JSON lists them. */
  method SumSectionsTotal(sections: Payload) returns (cents: int)
    ensures cents == Total(sections)
  {
    var total := 0.0;
    var remaining := sections.Keys;
    ghost var done: Payload := map[];
    while remaining != {}
      invariant remaining <= sections.Keys
      invariant done == map s | s in sections && s !in remaining :: sections[s]
      invariant total == PayloadSum(done)
      decreases |remaining|
    {
      var name :| name in remaining;
      var positions := sections[name].positions;
      ghost var before := total;
      for i := 0 to |positions|
        invariant total == before + Sum(positions[..i])
      {
        assert positions[..i + 1][..i] == positions[..i];
        if positions[i].total.Number? {
          total := total + positions[i].total.value;
        }
      }
      assert positions[..|positions|] == positions;
      PayloadSumOfOneMore(done, name, sections[name]);
      done := done[name := sections[name]];
      remaining := remaining - {name};
    }
    assert done == sections;
    cents := HalfEven(total);
  }

  // ------------------------------------------------------------ notes

  /** A health note; its message text is a function of these fields. */
  datatype Note = Note(source: Section, code: string, exchange: string, symbol: string, price: real)

  /** A manual holding whose price is linked to another source. */
  datatype Linked = Linked(exchange: string, symbol: string, source: Option<string>)

  function FailureNote(s: Section): Note {
    Note(s, "section_failed", "", "", 0.0)
  }

  function TefasNotes(ps: seq<Position>): seq<Note> {
    if ps == [] then []
    else
      var p := ps[|ps| - 1];
      TefasNotes(ps[..|ps| - 1])
      + (if p.priceAvailable == Some(false) then [Note(Tefas, "price_unavailable", "", p.symbol, 0.0)] else [])
  }

  function StockNotes(ps: seq<Position>): seq<Note> {
    if ps == [] then []
    else
      var p := ps[|ps| - 1];
      StockNotes(ps[..|ps| - 1]) + (if p.isStale then [Note(Stocks, "stale_price", "", p.symbol, 0.0)] else [])
  }

  function CommodityNotes(p: Payload): seq<Note> {
    if Commodities !in p then []
    else
      var c := p[Commodities];
      (if c.goldAvailable == Some(false) then [Note(Commodities, "gold_unavailable", "", "", 0.0)] else [])
      + (if c.silverAvailable == Some(false) && c.positions != [] then [Note(Commodities, "silver_unavailable", "", "", 0.0)] else [])
  }

  predicate Matches(h: Linked, p: Position) {
    p.exchange == h.exchange && p.symbol == h.symbol
  }

  function LinkedPrice(h: Linked, ps: seq<Position>): real {
    if ps == [] then 0.0
    else if Matches(h, ps[|ps| - 1]) then ps[|ps| - 1].unitPrice
    else LinkedPrice(h, ps[..|ps| - 1])
  }

  function PricedNote(h: Linked, price: real): Note {
    if price > 0.0 then Note(ManualCrypto, "info_linked", h.exchange, h.symbol, price)
    else
      var source := if h.source.Some? then h.source.value else "?";
      Note(ManualCrypto, "linked_" + source + "_no_price", h.exchange, h.symbol, 0.0)
  }

  function ManualNotes(linked: seq<Linked>, ps: seq<Position>): seq<Note> {
    seq(|linked|, i requires 0 <= i < |linked| => PricedNote(linked[i], LinkedPrice(linked[i], ps)))
  }

  function DeriveNotes(p: Payload, linked: seq<Linked>): seq<Note> {
    TefasNotes(Positions(p, Tefas)) + StockNotes(Positions(p, Stocks)) + CommodityNotes(p)
    + ManualNotes(linked, Positions(p, ManualCrypto))
  }

  /** TEFAS and stock notes position by position: one for a fund without a price, one for a stale stock. */
  lemma {:induction false} NotesOfBoth(a: seq<Position>, b: seq<Position>)
    ensures TefasNotes(a + b) == TefasNotes(a) + TefasNotes(b) && StockNotes(a + b) == StockNotes(a) + StockNotes(b)
    decreases |b|
  {
    if b == [] {
      assert a + b == a;
    } else {
      assert (a + b)[..|a + b| - 1] == a + b[..|b| - 1];
      NotesOfBoth(a, b[..|b| - 1]);
    }
  }

  lemma NotesOfOne(p: Position)
    ensures TefasNotes([p]) == if p.priceAvailable == Some(false) then [Note(Tefas, "price_unavailable", "", p.symbol, 0.0)] else []
    ensures StockNotes([p]) == if p.isStale then [Note(Stocks, "stale_price", "", p.symbol, 0.0)] else []
  {
    assert [p][..0] == [];
  }

  /** The last position that matches the holding decides its price; without a match the price is zero. */
  lemma {:induction false} LastMatchDecides(h: Linked, ps: seq<Position>, i: nat)
    ensures i < |ps| && Matches(h, ps[i]) && (forall j :: i < j < |ps| ==> !Matches(h, ps[j])) ==>
      LinkedPrice(h, ps) == ps[i].unitPrice
    ensures (forall j :: 0 <= j < |ps| ==> !Matches(h, ps[j])) ==> LinkedPrice(h, ps) == 0.0
  {
    if ps == [] {
    } else {
      LastMatchDecides(h, ps[..|ps| - 1], i);
    }
  }

  type Prices = map<(string, string), real>

  function PriceIn(prices: Prices, h: Linked): real {
    if (h.exchange, h.symbol) in prices then prices[(h.exchange, h.symbol)] else 0.0
  }

  /** The dictionary of positions by exchange and symbol: a later position overwrites an earlier one. */
  method PricesByKey(positions: seq<Position>) returns (prices: Prices)
    ensures forall h :: PriceIn(prices, h) == LinkedPrice(h, positions)
  {
    prices := map[];
    for i := 0 to |positions|
      invariant forall h :: PriceIn(prices, h) == LinkedPrice(h, positions[..i])
    {
      assert positions[..i + 1][..i] == positions[..i];
      prices := prices[(positions[i].exchange, positions[i].symbol) := positions[i].unitPrice];
    }
    assert positions[..|positions|] == positions;
  }

  /** `h`'s note says that it is priced, at the last matching position with a positive price, or that it is not. */
  ghost predicate NotesHolding(n: Note, h: Linked, positions: seq<Position>) {
    && n.source == ManualCrypto && n.exchange == h.exchange && n.symbol == h.symbol
    && if n.code == "info_linked"
       then n.price > 0.0 && exists i :: IsLastMatch(h, positions, i) && positions[i].unitPrice == n.price
       else && n.code == "linked_" + (if h.source.Some? then h.source.value else "?") + "_no_price"
            && forall i :: IsLastMatch(h, positions, i) ==> positions[i].unitPrice <= 0.0
  }

  ghost predicate IsLastMatch(h: Linked, positions: seq<Position>, i: int) {
    0 <= i < |positions| && Matches(h, positions[i]) && forall j :: i < j < |positions| ==> !Matches(h, positions[j])
  }

  lemma {:induction false} HasLastMatch(h: Linked, positions: seq<Position>)
    ensures (exists i :: IsLastMatch(h, positions, i)) || (forall j :: 0 <= j < |positions| ==> !Matches(h, positions[j]))
  {
    if positions == [] {
    } else {
      var n := |positions| - 1;
      HasLastMatch(h, positions[..n]);
      if Matches(h, positions[n]) {
        assert IsLastMatch(h, positions, n);
      } else if i :| IsLastMatch(h, positions[..n], i) {
        assert IsLastMatch(h, positions, i);
      }
    }
  }

  lemma CodesDiffer(source: string)
    ensures "linked_" + source + "_no_price" != "info_linked"
  {
    assert ("linked_" + source + "_no_price")[0] == 'l';
    assert "info_linked"[0] == 'i';
  }

  lemma PricedNoteMeans(h: Linked, positions: seq<Position>)
    ensures NotesHolding(PricedNote(h, LinkedPrice(h, positions)), h, positions)
  {
    CodesDiffer(if h.source.Some? then h.source.value else "?");
    HasLastMatch(h, positions);
    LastMatchDecides(h, positions, 0);
    forall i | IsLastMatch(h, positions, i)
      ensures LinkedPrice(h, positions) == positions[i].unitPrice
    {
      LastMatchDecides(h, positions, i);
    }
  }

  method ManualCryptoNotes(linked: seq<Linked>, positions: seq<Position>) returns (notes: seq<Note>)
    ensures notes == ManualNotes(linked, positions)
    // one note per holding, in their order
    ensures |notes| == |linked| && forall i :: 0 <= i < |notes| ==> NotesHolding(notes[i], linked[i], positions)
  {
    forall h
      ensures NotesHolding(PricedNote(h, LinkedPrice(h, positions)), h, positions)
    {
      PricedNoteMeans(h, positions);
    }
    notes := [];
    if linked == [] {
      return;
    }
    var prices := PricesByKey(positions);
    for i := 0 to |linked|
      invariant notes == ManualNotes(linked, positions)[..i]
    {
      assert PriceIn(prices, linked[i]) == LinkedPrice(linked[i], positions);
      notes := notes + [PricedNote(linked[i], PriceIn(prices, linked[i]))];
    }
  }

  lemma NotesOfOneMore(ps: seq<Position>, i: nat)
    requires i < |ps|
    ensures TefasNotes(ps[..i + 1]) == TefasNotes(ps[..i])
      + (if ps[i].priceAvailable == Some(false) then [Note(Tefas, "price_unavailable", "", ps[i].symbol, 0.0)] else [])
    ensures StockNotes(ps[..i + 1]) == StockNotes(ps[..i])
      + (if ps[i].isStale then [Note(Stocks, "stale_price", "", ps[i].symbol, 0.0)] else [])
  {
    assert ps[..i + 1][..i] == ps[..i];
  }

  method DeriveSectionNotes(sections: Payload, linked: seq<Linked>) returns (notes: seq<Note>)
    ensures notes == DeriveNotes(sections, linked)
  {
    notes := [];
    var tefas := Positions(sections, Tefas);
    for i := 0 to |tefas|
      invariant notes == TefasNotes(tefas[..i])
    {
      NotesOfOneMore(tefas, i);
      if tefas[i].priceAvailable == Some(false) {
        notes := notes + [Note(Tefas, "price_unavailable", "", tefas[i].symbol, 0.0)];
      }
    }
    assert tefas[..|tefas|] == tefas;
    var stocks := Positions(sections, Stocks);
    for i := 0 to |stocks|
      invariant notes == TefasNotes(tefas) + StockNotes(stocks[..i])
    {
      NotesOfOneMore(stocks, i);
      if stocks[i].isStale {
        notes := notes + [Note(Stocks, "stale_price", "", stocks[i].symbol, 0.0)];
      }
    }
    assert stocks[..|stocks|] == stocks;
    var commodity := CommodityHealthNotes(sections);
    var manual := ManualCryptoNotes(linked, Positions(sections, ManualCrypto));
    notes := notes + commodity + manual;
  }

  method CommodityHealthNotes(sections: Payload) returns (notes: seq<Note>)
    ensures notes == CommodityNotes(sections)
    // gold without a price is always worth a note, silver only where there is something to value
    ensures
      var gold := Commodities in sections && sections[Commodities].goldAvailable == Some(false);
      var silver := && Commodities in sections && sections[Commodities].silverAvailable == Some(false)
                    && |sections[Commodities].positions| > 0;
      && |notes| == (if gold then 1 else 0) + (if silver then 1 else 0)
      && (gold ==> notes[0].code == "gold_unavailable") && (silver ==> notes[|notes| - 1].code == "silver_unavailable")
  {
    notes := [];
    if Commodities in sections {
      var c := sections[Commodities];
      if c.goldAvailable == Some(false) {
        notes := notes + [Note(Commodities, "gold_unavailable", "", "", 0.0)];
      }
      if c.silverAvailable == Some(false) && c.positions != [] {
        notes := notes + [Note(Commodities, "silver_unavailable", "", "", 0.0)];
      }
    }
  }

  // ------------------------------------------------------------ the row

  datatype RowStatus = Ok | Refreshing | Error

  /** One user's row of `live_portfolio_cache`; an empty list of notes is stored as null. */
  datatype Row = Row(
    payload: Payload,
    total: Option<int>,
    rates: Option<string>,
    issues: seq<Note>,
    status: RowStatus,
    error: Option<string>,
    refreshedAt: Option<int>)

  function SetRefreshing(row: Option<Row>): Row {
    if row.Some? then row.value.(status := Refreshing) else Row(map[], None, None, [], Refreshing, None, None)
  }

  function KeptRefreshedAt(row: Option<Row>): Option<int> {
    if row.Some? then row.value.refreshedAt else None
  }

  function PayloadIn(row: Option<Row>): Payload {
    if row.Some? then row.value.payload else map[]
  }

  function IssuesIn(row: Option<Row>): seq<Note> {
    if row.Some? then row.value.issues else []
  }

  function RatesIn(row: Option<Row>): Option<string> {
    if row.Some? then row.value.rates else None
  }

  // ------------------------------------------------------------ what each refresh stores

  const ALL_FAILED := "Tüm veri kaynakları geçici olarak erişilemez."

  /** The outcome of the six compute functions of a full refresh. */
  type Results = Section -> Computed

  function FullPayload(results: Results): Payload {
    map s | s in ALL_SECTIONS :: BodyOf(s, results(s))
  }

  predicate AllCrashed(results: Results) {
    forall s :: s in ALL_SECTIONS ==> results(s).Crashed?
  }

  function FailureNotes(order: seq<Section>, results: Results): seq<Note> {
    if order == [] then []
    else FailureNotes(order[..|order| - 1], results) + FailureOf(order[|order| - 1], results)
  }

  function FailureOf(s: Section, results: Results): seq<Note> {
    if results(s).Crashed? then [FailureNote(s)] else []
  }

  /** `linked` is None when deriving the notes raises. */
  function DerivedOrNothing(p: Payload, linked: Option<seq<Linked>>): seq<Note> {
    if linked.Some? then DeriveNotes(p, linked.value) else []
  }

  function FullIssues(results: Results, linked: Option<seq<Linked>>): seq<Note> {
    FailureNotes(VALID_SECTIONS, results) + (if AllCrashed(results) then [] else DerivedOrNothing(FullPayload(results), linked))
  }

  function FullRow(row: Option<Row>, results: Results, rates: Option<string>, linked: Option<seq<Linked>>,
                   now: int): Row {
    var payload := FullPayload(results);
    var failed := AllCrashed(results);
    Row(payload, Some(Total(payload)), rates,
        FullIssues(results, linked),
        if failed then Error else Ok,
        if failed then Some(ALL_FAILED) else None,
        if failed then KeptRefreshedAt(row) else Some(now))
  }

  function From(notes: seq<Note>, s: Section): seq<Note> {
    if notes == [] then []
    else
      var n := notes[|notes| - 1];
      From(notes[..|notes| - 1], s) + (if n.source == s then [n] else [])
  }

  function NotFrom(notes: seq<Note>, s: Section): seq<Note> {
    if notes == [] then []
    else
      var n := notes[|notes| - 1];
      NotFrom(notes[..|notes| - 1], s) + (if n.source != s then [n] else [])
  }

  /** What one section's refresh stores, given the row it has read before. */
  function SectionRow(existing: Option<Row>, s: Section, c: Computed, linked: Option<seq<Linked>>, now: int): Row {
    var payload := PayloadIn(existing)[s := BodyOf(s, c)];
    var notes := if c.Crashed? then [FailureNote(s)] else From(DerivedOrNothing(payload, linked), s);
    Row(payload, Some(Total(payload)), RatesIn(existing), NotFrom(IssuesIn(existing), s) + notes, Ok, None, Some(now))
  }

  /** The error mark keeps everything it has read but the status. */
  function MarkedRow(row: Option<Row>, existing: Option<Row>, message: string): Row {
    Row(PayloadIn(existing), if existing.Some? then existing.value.total else None, RatesIn(existing), IssuesIn(existing),
        Error, Some(message), KeptRefreshedAt(row))
  }
}

/** Refreshing one wallet: its positions and errors are patched into the wallets section. */
module WalletRefresh {
  import opened Options
  import opened LivePayload

  datatype WalletResult = WalletResult(positions: seq<Position>, errors: map<string, string>, walletErrors: map<string, string>)

  /** `str(p.get("wallet_id"))`. */
  function WalletOf(p: Position): string {
    if p.walletId.Some? then p.walletId.value else "None"
  }

  function Own(ps: seq<Position>, wid: string): seq<Position> {
    if ps == [] then []
    else Own(ps[..|ps| - 1], wid) + (if WalletOf(ps[|ps| - 1]) == wid then [ps[|ps| - 1]] else [])
  }

  function Others(ps: seq<Position>, wid: string): seq<Position> {
    if ps == [] then []
    else Others(ps[..|ps| - 1], wid) + (if WalletOf(ps[|ps| - 1]) != wid then [ps[|ps| - 1]] else [])
  }

  /** The compute function reports on the one wallet it was asked for. */
  ghost predicate ReportsOn(res: WalletResult, wid: string) {
    && (forall i :: 0 <= i < |res.positions| ==> WalletOf(res.positions[i]) == wid)
    && res.walletErrors.Keys <= {wid}
  }

  function Patched(body: Body, wid: string, res: WalletResult): Body {
    body.(positions := Others(body.positions, wid) + res.positions,
          errors := body.errors + res.errors,
          walletErrors := body.walletErrors - {wid} + res.walletErrors)
  }

  function WalletsIn(p: Payload): Body {
    if Wallets in p then p[Wallets] else EmptyBody(Wallets)
  }

  /** What a wallet refresh stores, given the row it has read before. */
  function WalletRow(existing: Option<Row>, wid: string, res: WalletResult, now: int): Row {
    RowWith(existing, Patched(WalletsIn(PayloadIn(existing)), wid, res), now)
  }

  function RowWith(existing: Option<Row>, wallets: Body, now: int): Row {
    var payload := PayloadIn(existing)[Wallets := wallets];
    Row(payload, Some(Total(payload)), RatesIn(existing), IssuesIn(existing), Ok, None, Some(now))
  }

  /** A wallet refresh whose compute function raised only takes the status back. */
  function UnchangedRow(row: Option<Row>, existing: Row): Row {
    existing.(status := Ok, error := None, refreshedAt := KeptRefreshedAt(row))
  }

  method KeepOthers(stored: seq<Position>, wid: string) returns (kept: seq<Position>)
    ensures kept == Others(stored, wid)
  {
    kept := [];
    for i := 0 to |stored|
      invariant kept == Others(stored[..i], wid)
    {
      assert stored[..i + 1][..i] == stored[..i];
      if WalletOf(stored[i]) != wid {
        kept := kept + [stored[i]];
      }
    }
    assert stored[..|stored|] == stored;
  }

  /** What is left of the stored errors: nothing else than them, and all of them outside `keys`. */
  ghost predicate KeepsBut(left: map<string, string>, stored: map<string, string>, keys: set<string>) {
    && (forall k :: k in left ==> k in stored && left[k] == stored[k])
    && (forall k :: k in stored && k !in keys ==> k in left)
  }

  lemma MergedOverRest(left: map<string, string>, stored: map<string, string>, newErrors: map<string, string>)
    requires KeepsBut(left, stored, newErrors.Keys)
    ensures left + newErrors == stored + newErrors
  {
  }

  /** Pops the keys the new errors write again, then adds the new errors. */
  method MergeErrors(stored: map<string, string>, newErrors: map<string, string>) returns (errors: map<string, string>)
    ensures errors == stored + newErrors
  {
    errors := stored;
    var keys := newErrors.Keys;
    while keys != {}
      invariant keys <= newErrors.Keys
      invariant KeepsBut(errors, stored, newErrors.Keys)
      decreases |keys|
    {
      var k :| k in keys;
      errors := errors - {k};
      keys := keys - {k};
    }
    MergedOverRest(errors, stored, newErrors);
    errors := errors + newErrors;
  }

  method PatchWalletsSection(section: Body, wid: string, res: WalletResult) returns (patched: Body)
    ensures patched == Patched(section, wid, res)
  {
    var kept := KeepOthers(section.positions, wid);
    var errors := MergeErrors(section.errors, res.errors);
    patched := section.(positions := kept + res.positions, errors := errors,
                        walletErrors := section.walletErrors - {wid} + res.walletErrors);
  }

  // ------------------------------------------------------------ filters

  lemma {:induction false} FiltersOfBoth(a: seq<Position>, b: seq<Position>, wid: string)
    ensures Own(a + b, wid) == Own(a, wid) + Own(b, wid)
    ensures Others(a + b, wid) == Others(a, wid) + Others(b, wid)
    decreases |b|
  {
    if b == [] {
      assert a + b == a;
    } else {
      assert (a + b)[..|a + b| - 1] == a + b[..|b| - 1];
      FiltersOfBoth(a, b[..|b| - 1], wid);
    }
  }

  lemma {:induction false} FiltersOfOneWallet(ps: seq<Position>, owner: string, wid: string)
    requires forall i :: 0 <= i < |ps| ==> WalletOf(ps[i]) == owner
    ensures Own(ps, wid) == if wid == owner then ps else []
    ensures Others(ps, wid) == if wid == owner then [] else ps
  {
    if ps == [] {
    } else {
      var init, last := ps[..|ps| - 1], ps[|ps| - 1];
      FiltersOfOneWallet(init, owner, wid);
      assert ps == init + [last] && WalletOf(last) == owner;
      assert Own(ps, wid) == Own(init, wid) + (if owner == wid then [last] else []);
      assert Others(ps, wid) == Others(init, wid) + (if owner != wid then [last] else []);
    }
  }

  lemma {:induction false} FiltersCompose(ps: seq<Position>, v: string, w: string)
    ensures Own(Others(ps, w), v) == if v == w then [] else Own(ps, v)
    ensures Others(Others(ps, w), v) == Others(Others(ps, v), w)
    ensures Others(Others(ps, w), w) == Others(ps, w)
  {
    if ps == [] {
    } else {
      var init, last := ps[..|ps| - 1], [ps[|ps| - 1]];
      FiltersCompose(init, v, w);
      FiltersOfOneWallet(last, WalletOf(last[0]), v);
      FiltersOfOneWallet(last, WalletOf(last[0]), w);
      FiltersOfBoth(Others(init, w), if WalletOf(last[0]) != w then last else [], v);
      FiltersOfBoth(Others(init, v), if WalletOf(last[0]) != v then last else [], w);
      FiltersOfBoth(Others(init, w), if WalletOf(last[0]) != w then last else [], w);
    }
  }

  // ------------------------------------------------------------ framing, repetition, order

  lemma PositionsFrame(ps: seq<Position>, wid: string, own: seq<Position>, other: string)
    requires other != wid && forall i :: 0 <= i < |own| ==> WalletOf(own[i]) == wid
    ensures Own(Others(ps, wid) + own, wid) == own
    ensures Own(Others(ps, wid) + own, other) == Own(ps, other)
    ensures Others(Others(ps, wid) + own, wid) == Others(ps, wid)
  {
    FiltersOfBoth(Others(ps, wid), own, wid);
    FiltersOfBoth(Others(ps, wid), own, other);
    FiltersOfOneWallet(own, wid, wid);
    FiltersOfOneWallet(own, wid, other);
    FiltersCompose(ps, wid, wid);
    FiltersCompose(ps, other, wid);
  }

  lemma PositionsCommute(ps: seq<Position>, v: string, a: seq<Position>, w: string, b: seq<Position>)
    requires v != w
    requires forall i :: 0 <= i < |a| ==> WalletOf(a[i]) == v
    requires forall i :: 0 <= i < |b| ==> WalletOf(b[i]) == w
    ensures Others(Others(ps, v) + a, w) + b == Others(Others(ps, v), w) + a + b
    ensures Others(Others(ps, w) + b, v) + a == Others(Others(ps, v), w) + b + a
  {
    FiltersOfBoth(Others(ps, v), a, w);
    FiltersOfBoth(Others(ps, w), b, v);
    FiltersOfOneWallet(a, v, w);
    FiltersOfOneWallet(b, w, v);
    FiltersCompose(ps, v, w);
  }

  lemma EntriesFrame(entries: map<string, string>, wid: string, own: map<string, string>)
    requires own.Keys <= {wid}
    ensures
      var after := entries - {wid} + own;
      && (wid in after <==> wid in own)
      && (forall k :: k != wid ==> (k in after <==> k in entries))
      && (forall k :: k != wid && k in entries ==> after[k] == entries[k])
      && after - {wid} + own == after
  {
  }

  lemma EntriesCommute(entries: map<string, string>, v: string, a: map<string, string>, w: string,
                       b: map<string, string>)
    requires v != w && a.Keys <= {v} && b.Keys <= {w}
    ensures entries - {v} + a - {w} + b == entries - {w} + b - {v} + a
  {
  }

  lemma ErrorsCommuteExactly(errors: map<string, string>, a: map<string, string>, b: map<string, string>)
    ensures errors + a + b == errors + b + a <==> forall k :: k in a && k in b ==> a[k] == b[k]
  {
    var ab, ba := errors + a + b, errors + b + a;
    if ab == ba {
      forall k | k in a && k in b
        ensures a[k] == b[k]
      {
        assert ab[k] == b[k] && ba[k] == a[k];
      }
    }
  }

  /**
   A wallet refresh replaces exactly its own positions and its `wallet_errors` entry. Every other
   wallet keeps its positions in order and its entry, every other section stays. A key of `errors`
   stays unless the result writes it again, even when its wallet has recovered.
   */
  lemma WalletRefreshFrames(existing: Option<Row>, wid: string, res: WalletResult, now: int, other: string, s: Section)
    requires ReportsOn(res, wid) && other != wid
    ensures
      var row := WalletRow(existing, wid, res, now);
      var before, after := WalletsIn(PayloadIn(existing)), WalletsIn(row.payload);
      && Own(after.positions, wid) == res.positions && Own(after.positions, other) == Own(before.positions, other)
      && Others(after.positions, wid) == Others(before.positions, wid)
      && (wid in after.walletErrors <==> wid in res.walletErrors)
      && (other in after.walletErrors <==> other in before.walletErrors)
      && (other in before.walletErrors ==> after.walletErrors[other] == before.walletErrors[other])
      && (forall k :: k in after.errors <==> k in before.errors || k in res.errors)
      && (s != Wallets ==> (s in row.payload <==> s in PayloadIn(existing)))
      && (s != Wallets && s in PayloadIn(existing) ==> row.payload[s] == PayloadIn(existing)[s])
      && row.total == Some(Total(row.payload))
  {
    var before := WalletsIn(PayloadIn(existing));
    assert WalletsIn(WalletRow(existing, wid, res, now).payload) == Patched(before, wid, res);
    PositionsFrame(before.positions, wid, res.positions, other);
    EntriesFrame(before.walletErrors, wid, res.walletErrors);
  }

  lemma PatchTwice(body: Body, wid: string, res: WalletResult)
    requires ReportsOn(res, wid)
    ensures Patched(Patched(body, wid, res), wid, res) == Patched(body, wid, res)
  {
    PositionsFrame(body.positions, wid, res.positions, wid + "'");
    EntriesFrame(body.walletErrors, wid, res.walletErrors);
    assert body.errors + res.errors + res.errors == body.errors + res.errors;
  }

  /** Refreshing a wallet again with the same result stores what one refresh at the later instant stores. */
  lemma WalletRefreshIsIdempotent(existing: Option<Row>, wid: string, res: WalletResult, now: int, later: int)
    requires ReportsOn(res, wid)
    ensures WalletRow(Some(WalletRow(existing, wid, res, now)), wid, res, later) == WalletRow(existing, wid, res, later)
  {
    var once := Patched(WalletsIn(PayloadIn(existing)), wid, res);
    PatchTwice(WalletsIn(PayloadIn(existing)), wid, res);
    RowWithTwice(existing, once, once, now, later);
  }

  /** The two results write no common key of `errors` with different messages. */
  ghost predicate ErrorsAgree(a: WalletResult, b: WalletResult) {
    forall k :: k in a.errors && k in b.errors ==> a.errors[k] == b.errors[k]
  }

  /** The key a wallet's error is stored under in `errors`: its chain and the first ten characters of its address. */
  function ErrorKey(chain: string, address: string): string {
    chain + ":" + if |address| <= 10 then address else address[..10]
  }

  /**
   Two addresses with the same first ten characters share a key, and the wallet refreshed last decides its
   message.
   */
  lemma SharedPrefixDoesNotCommute(now: int)
    ensures
      var one, two := ErrorKey("bitcoin", "bc1qxy2kgdaa"), ErrorKey("bitcoin", "bc1qxy2kgdbb");
      var a := WalletResult([], map[one := "timeout"], map["1" := "timeout"]);
      var b := WalletResult([], map[two := "refused"], map["2" := "refused"]);
      var vw := WalletRow(Some(WalletRow(None, "1", a, now)), "2", b, now);
      var wv := WalletRow(Some(WalletRow(None, "2", b, now)), "1", a, now);
      && ReportsOn(a, "1") && ReportsOn(b, "2") && one == two
      && WalletsIn(vw.payload).errors != WalletsIn(wv.payload).errors
  {
    var one, two := ErrorKey("bitcoin", "bc1qxy2kgdaa"), ErrorKey("bitcoin", "bc1qxy2kgdbb");
    var a := WalletResult([], map[one := "timeout"], map["1" := "timeout"]);
    var b := WalletResult([], map[two := "refused"], map["2" := "refused"]);
    assert "bc1qxy2kgdaa"[..10] == "bc1qxy2kgdbb"[..10];
    assert "timeout"[0] != "refused"[0] && "1"[0] != "2"[0];
    assert one in a.errors && one in b.errors && !ErrorsAgree(a, b);
    WalletRefreshesCommute(None, "1", a, "2", b, now);
  }

  /** A wallet that has failed and then recovers loses its entry by wallet and keeps its key in `errors`. */
  lemma RecoveryKeepsErrorKey(now: int)
    ensures
      var key := ErrorKey("bitcoin", "bc1qxy2kgdaa");
      var failed, recovered := WalletResult([], map[key := "timeout"], map["1" := "timeout"]), WalletResult([], map[], map[]);
      var row := WalletRow(Some(WalletRow(None, "1", failed, now)), "1", recovered, now);
      "1" !in WalletsIn(row.payload).walletErrors && key in WalletsIn(row.payload).errors
  {
  }

  lemma PatchesCommute(body: Body, v: string, a: WalletResult, w: string, b: WalletResult)
    requires v != w && ReportsOn(a, v) && ReportsOn(b, w)
    ensures
      var vw, wv := Patched(Patched(body, v, a), w, b), Patched(Patched(body, w, b), v, a);
      && vw.positions == Others(Others(body.positions, v), w) + a.positions + b.positions
      && wv.positions == Others(Others(body.positions, v), w) + b.positions + a.positions
      && vw.walletErrors == wv.walletErrors
      && (vw.errors == wv.errors <==> ErrorsAgree(a, b))
  {
    PositionsCommute(body.positions, v, a.positions, w, b.positions);
    ErrorsCommuteExactly(body.errors, a.errors, b.errors);
    EntriesCommute(body.walletErrors, v, a.walletErrors, w, b.walletErrors);
  }

  lemma SumsCommute(kept: seq<Position>, a: seq<Position>, b: seq<Position>)
    ensures Sum(kept + a + b) == Sum(kept + b + a)
    ensures multiset(kept + a + b) == multiset(kept + b + a)
  {
    SumOfBoth(kept + a, b);
    SumOfBoth(kept, a);
    SumOfBoth(kept + b, a);
    SumOfBoth(kept, b);
  }

  lemma SameSumsSameTotal(existing: Option<Row>, x: Body, y: Body, now: int)
    requires Sum(x.positions) == Sum(y.positions)
    ensures RowWith(existing, x, now).total == RowWith(existing, y, now).total
  {
    var p := PayloadIn(existing);
    assert PayloadSum(p[Wallets := x]) == PayloadSum(p[Wallets := y]);
  }

  lemma TwoRefreshes(existing: Option<Row>, v: string, a: WalletResult, w: string, b: WalletResult, now: int)
    ensures WalletRow(Some(WalletRow(existing, v, a, now)), w, b, now)
         == RowWith(existing, Patched(Patched(WalletsIn(PayloadIn(existing)), v, a), w, b), now)
  {
    var once := Patched(WalletsIn(PayloadIn(existing)), v, a);
    RowWithTwice(existing, once, Patched(once, w, b), now, now);
  }

  lemma RowWithTwice(existing: Option<Row>, x: Body, y: Body, now: int, later: int)
    ensures RowWith(Some(RowWith(existing, x, now)), y, later) == RowWith(existing, y, later)
    ensures WalletsIn(PayloadIn(Some(RowWith(existing, x, now)))) == x
  {
    assert PayloadIn(existing)[Wallets := x][Wallets := y] == PayloadIn(existing)[Wallets := y];
  }

  lemma RowsWithAgree(existing: Option<Row>, x: Body, y: Body, now: int)
    ensures
      var vw, wv := RowWith(existing, x, now), RowWith(existing, y, now);
      && WalletsIn(vw.payload) == x && WalletsIn(wv.payload) == y
      && vw.payload - {Wallets} == wv.payload - {Wallets} && vw.issues == wv.issues && vw.rates == wv.rates
  {
  }

  /**
   Refreshes of two wallets commute up to the order of positions: same positions, same entries per
   wallet and section, same total. The `errors` maps agree exactly when the results do on common keys.
   */
  lemma WalletRefreshesCommute(existing: Option<Row>, v: string, a: WalletResult, w: string, b: WalletResult, now: int)
    requires v != w && ReportsOn(a, v) && ReportsOn(b, w)
    ensures
      var vw := WalletRow(Some(WalletRow(existing, v, a, now)), w, b, now);
      var wv := WalletRow(Some(WalletRow(existing, w, b, now)), v, a, now);
      && multiset(WalletsIn(vw.payload).positions) == multiset(WalletsIn(wv.payload).positions)
      && WalletsIn(vw.payload).walletErrors == WalletsIn(wv.payload).walletErrors
      && (WalletsIn(vw.payload).errors == WalletsIn(wv.payload).errors <==> ErrorsAgree(a, b))
      && vw.payload - {Wallets} == wv.payload - {Wallets}
      && vw.total == wv.total && vw.issues == wv.issues && vw.rates == wv.rates
  {
    var body := WalletsIn(PayloadIn(existing));
    var x, y := Patched(Patched(body, v, a), w, b), Patched(Patched(body, w, b), v, a);
    TwoRefreshes(existing, v, a, w, b, now);
    TwoRefreshes(existing, w, b, v, a, now);
    PatchesCommute(body, v, a, w, b);
    SumsCommute(Others(Others(body.positions, v), w), a.positions, b.positions);
    SameSumsSameTotal(existing, x, y, now);
    RowsWithAgree(existing, x, y, now);
  }
}

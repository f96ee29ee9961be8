/**
 The credit ledger as a step system: transactions lock user rows, append ledger rows and either
 commit or roll back. `SELECT ... FOR UPDATE` is its own step, enabled when no other open
 transaction holds the row, and it reads the committed row.
 */
module CreditLedger {
  import opened Options

  type UserId = string
  type TxId = nat

  datatype Reference = NoReference | AdviceRef(id: nat) | OtherRef(text: string)

  datatype Row = Row(user: UserId, amount: int, reason: string, reference: Reference, key: Option<string>)

  const ADVICE_COST := 1
  const ADVICE_REASON := "ai_advice_medium"

  /** A helper call that has passed its checks and waits for the row lock. */
  datatype Pending = Idle | Deducting(user: UserId, amount: int, reason: string, reference: Reference)
    | Adding(user: UserId, amount: int, reason: string, reference: Reference, key: Option<string>)

  /** How far an advice request has come; `Plain` transactions make any other use of the helpers. */
  datatype Kind = Plain | Asked(user: UserId) | Drafted(user: UserId, id: nat) | Charged(user: UserId, id: nat)

  /**
   An open transaction: the rows it holds with its own values for them, its unflushed-to-others rows, and what
   it is doing.
   */
  datatype Tx = Tx(held: map<UserId, int>, rows: seq<Row>, kind: Kind, pending: Pending, aborted: bool)

  /**
   The committed tables; `opening` is the history of the balances before the first step, `lastId` of the
   advice ids handed out.
   */
  datatype Tables = Tables(
    opening: map<UserId, int>,
    balances: map<UserId, int>,
    ledger: seq<Row>,
    advices: map<nat, UserId>,
    lastId: nat)

  datatype Db = Db(tables: Tables, txs: map<TxId, Tx>)

  datatype Reply =
    | Balance(value: int)
    | NotPositive
    | Insufficient(needed: int, available: int)
    | DuplicateKey
    | NoUser
    | Waiting

  datatype Action =
    | Begin(t: TxId)
    | CallDeduct(t: TxId, user: UserId, amount: int, reason: string, reference: Reference)
    | CallAdd(t: TxId, user: UserId, amount: int, reason: string, reference: Reference, key: Option<string>)
    | LockRow(t: TxId)
    | Flush(t: TxId)
    | AskAdvice(t: TxId, user: UserId)
    | DraftAdvice(t: TxId)
    | Commit(t: TxId)
    | Rollback(t: TxId)

  predicate HasKey(rows: seq<Row>, key: Option<string>) {
    key.Some? && exists i :: 0 <= i < |rows| && rows[i].key == key
  }

  /** Another open transaction has inserted the key: the unique index makes the insert wait for it. */
  predicate KeyBusy(db: Db, t: TxId, key: Option<string>) {
    exists u :: u in db.txs && u != t && HasKey(db.txs[u].rows, key)
  }

  predicate HeldByOther(db: Db, t: TxId, user: UserId) {
    exists u :: u in db.txs && u != t && user in db.txs[u].held
  }

  predicate Open(db: Db, t: TxId) {
    t in db.txs && !db.txs[t].aborted
  }

  predicate MayCall(db: Db, t: TxId) {
    Open(db, t) && db.txs[t].pending.Idle? && db.txs[t].kind.Plain?
  }

  function KeyOf(p: Pending): Option<string> {
    if p.Adding? then p.key else None
  }

  predicate Enabled(db: Db, a: Action) {
    match a
    case Begin(t) => t !in db.txs
    case CallDeduct(t, _, _, _, reference) => MayCall(db, t) && !reference.AdviceRef?
    case CallAdd(t, _, _, _, reference, _) => MayCall(db, t) && !reference.AdviceRef?
    case LockRow(t) => Open(db, t) && !db.txs[t].pending.Idle? && !HeldByOther(db, t, db.txs[t].pending.user)
    case Flush(t) =>
      && Open(db, t) && !db.txs[t].pending.Idle? && db.txs[t].pending.user in db.txs[t].held
      && !KeyBusy(db, t, KeyOf(db.txs[t].pending))
    case AskAdvice(t, _) => Open(db, t) && db.txs[t] == NewTx()
    case DraftAdvice(t) => Open(db, t) && db.txs[t].kind.Asked?
    case Commit(t) => Open(db, t) && db.txs[t].pending.Idle? && (db.txs[t].kind.Plain? || db.txs[t].kind.Charged?)
    case Rollback(t) => t in db.txs
  }

  function NewTx(): Tx {
    Tx(map[], [], Plain, Idle, false)
  }

  /** The checks of `deduct_credits` and `add_credits` before the row lock. */
  function Call(tb: Tables, tx: Tx, request: Pending): (Tx, Reply)
    requires !request.Idle?
  {
    if request.amount <= 0 then (tx, NotPositive)
    else if request.Adding? && (HasKey(tb.ledger, request.key) || HasKey(tx.rows, request.key)) then
      (tx, if request.user in tx.held then Balance(tx.held[request.user])
           else if request.user in tb.balances then Balance(tb.balances[request.user]) else NoUser)
    else (tx.(pending := request), Waiting)
  }

  function Lock(tb: Tables, tx: Tx): Tx
    requires !tx.pending.Idle?
  {
    var user := tx.pending.user;
    if user in tx.held then tx
    else if user in tb.balances then tx.(held := tx.held[user := tb.balances[user]])
    else tx.(pending := Idle, aborted := tx.kind.Drafted?)
  }

  function PendingRow(p: Pending): Row
    requires !p.Idle?
  {
    match p
    case Deducting(user, amount, reason, reference) => Row(user, -amount, reason, reference, None)
    case Adding(user, amount, reason, reference, key) => Row(user, amount, reason, reference, key)
  }

  /** With the row locked: the balance check, the new balance and the ledger row, flushed together. */
  function Apply(tb: Tables, tx: Tx): (Tx, Reply)
    requires !tx.pending.Idle? && tx.pending.user in tx.held
  {
    var p := tx.pending;
    var available := tx.held[p.user];
    if p.Deducting? && available < p.amount then
      (tx.(pending := Idle, aborted := tx.kind.Drafted?), Insufficient(p.amount, available))
    else if HasKey(tb.ledger, KeyOf(p)) || HasKey(tx.rows, KeyOf(p)) then
      (tx.(pending := Idle, aborted := true), DuplicateKey)
    else
      var row := PendingRow(p);
      (tx.(held := tx.held[p.user := available + row.amount], rows := tx.rows + [row], pending := Idle,
           kind := if tx.kind.Drafted? then Charged(tx.kind.user, tx.kind.id) else tx.kind),
       Balance(available + row.amount))
  }

  /** The unlocked balance check before the model is called; a refusal ends the request. */
  function Ask(tb: Tables, tx: Tx, user: UserId): Tx {
    if user in tb.balances && tb.balances[user] >= ADVICE_COST then tx.(kind := Asked(user))
    else tx.(aborted := true)
  }

  function Draft(tx: Tx, id: nat): Tx
    requires tx.kind.Asked?
  {
    tx.(kind := Drafted(tx.kind.user, id), pending := Deducting(tx.kind.user, ADVICE_COST, ADVICE_REASON, AdviceRef(id)))
  }

  function Next(db: Db, a: Action): Db
    requires Enabled(db, a)
  {
    match a
    case Begin(t) => db.(txs := db.txs[t := NewTx()])
    case CallDeduct(t, user, amount, reason, reference) =>
      db.(txs := db.txs[t := Call(db.tables, db.txs[t], Deducting(user, amount, reason, reference)).0])
    case CallAdd(t, user, amount, reason, reference, key) =>
      db.(txs := db.txs[t := Call(db.tables, db.txs[t], Adding(user, amount, reason, reference, key)).0])
    case LockRow(t) => db.(txs := db.txs[t := Lock(db.tables, db.txs[t])])
    case Flush(t) => db.(txs := db.txs[t := Apply(db.tables, db.txs[t]).0])
    case AskAdvice(t, user) => db.(txs := db.txs[t := Ask(db.tables, db.txs[t], user)])
    case DraftAdvice(t) =>
      // the advice row is flushed for its id, then the debit for it is requested
      Db(db.tables.(lastId := db.tables.lastId + 1), db.txs[t := Draft(db.txs[t], db.tables.lastId)])
    case Commit(t) =>
      var tx := db.txs[t];
      Db(db.tables.(balances := db.tables.balances + tx.held, ledger := db.tables.ledger + tx.rows,
                    advices := if tx.kind.Charged? then db.tables.advices[tx.kind.id := tx.kind.user] else db.tables.advices),
         db.txs - {t})
    case Rollback(t) => db.(txs := db.txs - {t})
  }

  function Init(opening: map<UserId, int>): Db {
    Db(Tables(opening, opening, [], map[], 0), map[])
  }

  ghost predicate CanRun(db: Db, run: seq<Action>)
    decreases |run|
  {
    run == [] || (Enabled(db, run[0]) && CanRun(Next(db, run[0]), run[1..]))
  }

  ghost function After(db: Db, run: seq<Action>): Db
    requires CanRun(db, run)
    decreases |run|
  {
    if run == [] then db else After(Next(db, run[0]), run[1..])
  }

  // ------------------------------------------------------------ sums and counts over ledger rows

  function Sum(rows: seq<Row>, user: UserId): int {
    if rows == [] then 0
    else Sum(rows[..|rows| - 1], user) + (if rows[|rows| - 1].user == user then rows[|rows| - 1].amount else 0)
  }

  lemma {:induction false} SumOfBoth(a: seq<Row>, b: seq<Row>, user: UserId)
    ensures Sum(a + b, user) == Sum(a, user) + Sum(b, user)
    decreases |b|
  {
    if b == [] {
      assert a + b == a;
    } else {
      assert (a + b)[..|a + b| - 1] == a + b[..|b| - 1];
      SumOfBoth(a, b[..|b| - 1], user);
    }
  }

  lemma SumOfOneMore(rows: seq<Row>, row: Row, user: UserId)
    ensures Sum(rows + [row], user) == Sum(rows, user) + (if row.user == user then row.amount else 0)
  {
    assert (rows + [row])[..|rows|] == rows;
  }

  lemma {:induction false} SumOfOthers(rows: seq<Row>, user: UserId)
    requires forall i :: 0 <= i < |rows| ==> rows[i].user != user
    ensures Sum(rows, user) == 0
  {
    if rows == [] {
    } else {
      SumOfOthers(rows[..|rows| - 1], user);
    }
  }

  ghost predicate KeysDistinct(rows: seq<Row>) {
    forall i, j :: 0 <= i < j < |rows| && rows[i].key.Some? ==> rows[i].key != rows[j].key
  }

  ghost predicate KeysDisjoint(a: seq<Row>, b: seq<Row>) {
    forall i, j :: 0 <= i < |a| && 0 <= j < |b| && a[i].key.Some? ==> a[i].key != b[j].key
  }

  /** Exactly one row refers to the advice, and it is that user's debit of the advice cost. */
  ghost predicate DebitedOnce(rows: seq<Row>, id: nat, user: UserId) {
    exists i :: 0 <= i < |rows| && rows[i] == Row(user, -ADVICE_COST, ADVICE_REASON, AdviceRef(id), None)
      && forall j :: 0 <= j < |rows| && rows[j].reference == AdviceRef(id) ==> j == i
  }

  ghost predicate NoAdvice(rows: seq<Row>, id: nat) {
    forall j :: 0 <= j < |rows| ==> rows[j].reference != AdviceRef(id)
  }

  // ------------------------------------------------------------ the invariant

  ghost predicate Books(tb: Tables) {
    && tb.opening.Keys == tb.balances.Keys
    && forall u :: u in tb.balances ==> tb.balances[u] == tb.opening[u] + Sum(tb.ledger, u) && tb.balances[u] >= 0
  }

  ghost predicate AdvicesCharged(tb: Tables) {
    && (forall id :: id in tb.advices ==> id < tb.lastId && DebitedOnce(tb.ledger, id, tb.advices[id]))
    && (forall id: nat :: id !in tb.advices ==> NoAdvice(tb.ledger, id))
  }

  ghost predicate Holds(tb: Tables, tx: Tx) {
    && (forall u :: u in tx.held ==> u in tb.balances && tx.held[u] == tb.balances[u] + Sum(tx.rows, u) && tx.held[u] >= 0)
    && (forall i :: 0 <= i < |tx.rows| ==> tx.rows[i].user in tx.held)
    && (!tx.pending.Idle? ==> tx.pending.amount > 0)
  }

  /**
   What the rows of a transaction say about advice `id`: nothing, unless it is the advice the transaction has
   charged.
   */
  ghost predicate AdviceRows(tx: Tx, id: nat) {
    if tx.kind.Charged? && tx.kind.id == id then DebitedOnce(tx.rows, id, tx.kind.user) else NoAdvice(tx.rows, id)
  }

  predicate KindHas(kind: Kind, id: nat) {
    (kind.Drafted? || kind.Charged?) && kind.id == id
  }

  ghost predicate PendingAdvice(tx: Tx) {
    if tx.kind.Drafted? && !tx.aborted then
      tx.pending == Deducting(tx.kind.user, ADVICE_COST, ADVICE_REASON, AdviceRef(tx.kind.id))
    else tx.pending.Idle? || (tx.kind.Plain? && !tx.pending.reference.AdviceRef?)
  }

  ghost predicate TxAdvice(tb: Tables, tx: Tx) {
    && PendingAdvice(tx)
    && (forall id: nat :: AdviceRows(tx, id))
    && (forall id: nat :: KindHas(tx.kind, id) ==> id < tb.lastId && id !in tb.advices)
  }

  ghost predicate TxKeys(tb: Tables, tx: Tx) {
    KeysDistinct(tx.rows) && KeysDisjoint(tb.ledger, tx.rows)
  }

  ghost predicate TxOk(tb: Tables, tx: Tx) {
    Holds(tb, tx) && TxKeys(tb, tx) && TxAdvice(tb, tx)
  }

  /** Two open transactions hold different rows, have inserted different keys and work on different advices. */
  ghost predicate Apart(tx: Tx, other: Tx) {
    && (forall u :: u in tx.held ==> u !in other.held)
    && KeysDisjoint(tx.rows, other.rows) && KeysDisjoint(other.rows, tx.rows)
    && (forall id: nat :: KindHas(tx.kind, id) ==> !KindHas(other.kind, id))
  }

  ghost predicate Inv(db: Db) {
    && Books(db.tables) && KeysDistinct(db.tables.ledger) && AdvicesCharged(db.tables)
    && (forall t :: t in db.txs ==> TxOk(db.tables, db.txs[t]))
    && (forall t, u :: t in db.txs && u in db.txs && t != u ==> Apart(db.txs[t], db.txs[u]))
  }

  // ------------------------------------------------------------ steps that replace one transaction

  lemma ApartIsSymmetric(tx: Tx, other: Tx)
    requires Apart(tx, other)
    ensures Apart(other, tx)
  {
  }

  lemma ReplaceTx(db: Db, t: TxId, tx: Tx)
    requires Inv(db) && TxOk(db.tables, tx)
    requires forall u :: u in db.txs && u != t ==> Apart(tx, db.txs[u])
    ensures Inv(db.(txs := db.txs[t := tx]))
  {
    forall u | u in db.txs && u != t
      ensures Apart(db.txs[u], tx)
    {
      ApartIsSymmetric(tx, db.txs[u]);
    }
  }

  lemma LockedTxOk(tb: Tables, tx: Tx)
    requires TxOk(tb, tx) && Books(tb) && !tx.pending.Idle?
    ensures TxOk(tb, Lock(tb, tx))
  {
    var after := Lock(tb, tx);
    if tx.pending.user !in tx.held {
      SumOfOthers(tx.rows, tx.pending.user);
    }
    assert forall id: nat :: AdviceRows(tx, id) ==> AdviceRows(after, id);
  }

  lemma LockedApart(tb: Tables, tx: Tx, other: Tx)
    requires Apart(tx, other) && !tx.pending.Idle? && tx.pending.user !in other.held
    ensures Apart(Lock(tb, tx), other)
  {
  }

  lemma LockOk(db: Db, t: TxId)
    requires Inv(db) && Enabled(db, LockRow(t))
    ensures Inv(Next(db, LockRow(t)))
  {
    LockedTxOk(db.tables, db.txs[t]);
    forall u | u in db.txs && u != t
      ensures Apart(Lock(db.tables, db.txs[t]), db.txs[u])
    {
      LockedApart(db.tables, db.txs[t], db.txs[u]);
    }
    ReplaceTx(db, t, Lock(db.tables, db.txs[t]));
  }

  lemma OneMoreRowHolds(tb: Tables, tx: Tx, row: Row, after: Tx)
    requires Holds(tb, tx) && row.user in tx.held && tx.held[row.user] + row.amount >= 0
    requires after.held == tx.held[row.user := tx.held[row.user] + row.amount]
    requires after.rows == tx.rows + [row] && after.pending.Idle?
    ensures Holds(tb, after)
  {
    forall u | u in after.held
      ensures after.held[u] == tb.balances[u] + Sum(after.rows, u)
    {
      SumOfOneMore(tx.rows, row, u);
    }
  }

  lemma ApplyHolds(db: Db, t: TxId)
    requires Enabled(db, Flush(t)) && Holds(db.tables, db.txs[t])
    ensures Holds(db.tables, Apply(db.tables, db.txs[t]).0)
  {
    var tx, after := db.txs[t], Apply(db.tables, db.txs[t]).0;
    if after.rows != tx.rows {
      OneMoreRowHolds(db.tables, tx, PendingRow(tx.pending), after);
    }
  }

  lemma OneMoreKey(ledger: seq<Row>, rows: seq<Row>, row: Row)
    requires KeysDistinct(rows) && KeysDisjoint(ledger, rows) && !HasKey(ledger, row.key) && !HasKey(rows, row.key)
    ensures KeysDistinct(rows + [row]) && KeysDisjoint(ledger, rows + [row])
  {
  }

  lemma ApplyKeys(tb: Tables, tx: Tx)
    requires TxKeys(tb, tx) && !tx.pending.Idle? && tx.pending.user in tx.held
    ensures TxKeys(tb, Apply(tb, tx).0)
  {
    var row := PendingRow(tx.pending);
    if !HasKey(tb.ledger, row.key) && !HasKey(tx.rows, row.key) {
      OneMoreKey(tb.ledger, tx.rows, row);
    }
  }

  lemma OneMoreAdviceRow(tx: Tx, row: Row, after: Tx, id: nat)
    requires PendingAdvice(tx) && !tx.aborted && !tx.pending.Idle? && AdviceRows(tx, id)
    requires row == PendingRow(tx.pending) && after.rows == tx.rows + [row]
    requires after.kind == if tx.kind.Drafted? then Charged(tx.kind.user, tx.kind.id) else tx.kind
    ensures AdviceRows(after, id)
  {
    if tx.kind.Drafted? && tx.kind.id == id {
      assert after.rows[|tx.rows|] == Row(tx.kind.user, -ADVICE_COST, ADVICE_REASON, AdviceRef(id), None);
    } else {
      assert row.reference != AdviceRef(id);
      assert forall i :: 0 <= i < |tx.rows| ==> after.rows[i] == tx.rows[i];
    }
  }

  lemma ApplyAdvice(tb: Tables, tx: Tx)
    requires TxAdvice(tb, tx) && !tx.aborted && !tx.pending.Idle? && tx.pending.user in tx.held
    ensures TxAdvice(tb, Apply(tb, tx).0)
  {
    var after := Apply(tb, tx).0;
    forall id: nat
      ensures AdviceRows(after, id) && (KindHas(after.kind, id) <==> KindHas(tx.kind, id))
    {
      assert AdviceRows(tx, id);
      if after.rows != tx.rows {
        OneMoreAdviceRow(tx, PendingRow(tx.pending), after, id);
      }
    }
  }

  lemma OneMoreRowApart(tx: Tx, other: Tx, after: Tx, row: Row)
    requires Apart(tx, other) && !HasKey(other.rows, row.key)
    requires after.held.Keys == tx.held.Keys && (after.rows == tx.rows || after.rows == tx.rows + [row])
    requires forall id: nat :: KindHas(after.kind, id) ==> KindHas(tx.kind, id)
    ensures Apart(after, other)
  {
    assert forall u :: u in after.held ==> u in tx.held;
  }

  lemma ApplyApart(db: Db, t: TxId, u: TxId)
    requires Enabled(db, Flush(t)) && u in db.txs && u != t && Apart(db.txs[t], db.txs[u])
    ensures Apart(Apply(db.tables, db.txs[t]).0, db.txs[u])
  {
    var tx := db.txs[t];
    assert !HasKey(db.txs[u].rows, PendingRow(tx.pending).key);
    OneMoreRowApart(tx, db.txs[u], Apply(db.tables, db.txs[t]).0, PendingRow(tx.pending));
  }

  lemma ApplyOk(db: Db, t: TxId)
    requires Inv(db) && Enabled(db, Flush(t))
    ensures Inv(Next(db, Flush(t)))
  {
    var tx, after := db.txs[t], Apply(db.tables, db.txs[t]).0;
    assert TxOk(db.tables, tx);
    ApplyHolds(db, t);
    ApplyKeys(db.tables, tx);
    ApplyAdvice(db.tables, tx);
    forall u | u in db.txs && u != t
      ensures Apart(after, db.txs[u])
    {
      ApplyApart(db, t, u);
    }
    ReplaceTx(db, t, after);
  }

  /** Steps that touch neither the rows nor the held balances of a transaction, nor draft an advice. */
  lemma QuietOk(db: Db, t: TxId, tx: Tx)
    requires Inv(db) && t in db.txs
    requires tx.rows == db.txs[t].rows && tx.held == db.txs[t].held
    requires tx.kind == db.txs[t].kind || (tx.kind.Asked? && db.txs[t].kind.Plain?)
    requires PendingAdvice(tx) && (!tx.pending.Idle? ==> tx.pending.amount > 0)
    ensures Inv(db.(txs := db.txs[t := tx]))
  {
    var before := db.txs[t];
    assert TxOk(db.tables, before);
    assert forall id: nat :: AdviceRows(before, id) ==> AdviceRows(tx, id);
    assert forall id: nat :: KindHas(tx.kind, id) ==> KindHas(before.kind, id);
    forall u | u in db.txs && u != t
      ensures Apart(tx, db.txs[u])
    {
      assert Apart(before, db.txs[u]);
    }
    ReplaceTx(db, t, tx);
  }

  lemma BeginOk(db: Db, t: TxId)
    requires Inv(db) && t !in db.txs
    ensures Inv(db.(txs := db.txs[t := NewTx()]))
  {
    ReplaceTx(db, t, NewTx());
  }

  lemma GrowOk(tb: Tables, tx: Tx)
    requires TxOk(tb, tx)
    ensures TxOk(tb.(lastId := tb.lastId + 1), tx) && !KindHas(tx.kind, tb.lastId)
  {
  }

  lemma DraftedApart(tx: Tx, id: nat, other: Tx)
    requires tx.kind.Asked? && Apart(tx, other) && !KindHas(other.kind, id)
    ensures Apart(Draft(tx, id), other)
  {
  }

  lemma DraftTxOk(tb: Tables, tx: Tx)
    requires TxOk(tb, tx) && tx.kind.Asked? && !tx.aborted && tb.lastId !in tb.advices
    ensures TxOk(tb.(lastId := tb.lastId + 1), Draft(tx, tb.lastId))
  {
    GrowOk(tb, tx);
    assert forall id: nat :: AdviceRows(tx, id) ==> AdviceRows(Draft(tx, tb.lastId), id);
  }

  lemma DraftApart(db: Db, t: TxId, u: TxId)
    requires Inv(db) && Enabled(db, DraftAdvice(t)) && u in db.txs && u != t
    ensures Apart(Draft(db.txs[t], db.tables.lastId), db.txs[u]) && Apart(db.txs[u], Draft(db.txs[t], db.tables.lastId))
  {
    GrowOk(db.tables, db.txs[u]);
    DraftedApart(db.txs[t], db.tables.lastId, db.txs[u]);
    ApartIsSymmetric(Draft(db.txs[t], db.tables.lastId), db.txs[u]);
  }

  lemma DraftOk(db: Db, t: TxId)
    requires Inv(db) && Enabled(db, DraftAdvice(t))
    ensures Inv(Next(db, DraftAdvice(t)))
  {
    var next := Next(db, DraftAdvice(t));
    forall u | u in next.txs
      ensures TxOk(next.tables, next.txs[u]) && (u != t ==> Apart(next.txs[t], next.txs[u]) && Apart(next.txs[u], next.txs[t]))
    {
      if u == t {
        DraftTxOk(db.tables, db.txs[t]);
      } else {
        GrowOk(db.tables, db.txs[u]);
        DraftApart(db, t, u);
      }
    }
  }

  // ------------------------------------------------------------ commit and rollback

  lemma RollbackOk(db: Db, t: TxId)
    requires Inv(db) && t in db.txs
    ensures Inv(db.(txs := db.txs - {t}))
  {
    var next := db.(txs := db.txs - {t});
    forall u | u in next.txs
      ensures TxOk(next.tables, next.txs[u])
    {
      assert TxOk(db.tables, db.txs[u]);
    }
  }

  lemma CommitBooks(db: Db, t: TxId)
    requires Inv(db) && Enabled(db, Commit(t))
    ensures Books(Next(db, Commit(t)).tables)
  {
    var tx := db.txs[t];
    assert TxOk(db.tables, tx);
    forall u | u in db.tables.balances
      ensures Sum(db.tables.ledger + tx.rows, u) == Sum(db.tables.ledger, u) + Sum(tx.rows, u)
      ensures u !in tx.held ==> Sum(tx.rows, u) == 0
    {
      SumOfBoth(db.tables.ledger, tx.rows, u);
      if u !in tx.held {
        SumOfOthers(tx.rows, u);
      }
    }
  }

  lemma DebitedInFirst(a: seq<Row>, b: seq<Row>, id: nat, user: UserId)
    requires DebitedOnce(a, id, user) && NoAdvice(b, id)
    ensures DebitedOnce(a + b, id, user)
  {
    var i :| 0 <= i < |a| && a[i] == Row(user, -ADVICE_COST, ADVICE_REASON, AdviceRef(id), None)
      && forall j :: 0 <= j < |a| && a[j].reference == AdviceRef(id) ==> j == i;
    assert (a + b)[i] == a[i];
  }

  lemma DebitedInSecond(a: seq<Row>, b: seq<Row>, id: nat, user: UserId)
    requires NoAdvice(a, id) && DebitedOnce(b, id, user)
    ensures DebitedOnce(a + b, id, user)
  {
    var i :| 0 <= i < |b| && b[i] == Row(user, -ADVICE_COST, ADVICE_REASON, AdviceRef(id), None)
      && forall j :: 0 <= j < |b| && b[j].reference == AdviceRef(id) ==> j == i;
    assert (a + b)[|a| + i] == b[i];
  }

  lemma CommitAdvices(db: Db, t: TxId)
    requires Inv(db) && Enabled(db, Commit(t))
    ensures AdvicesCharged(Next(db, Commit(t)).tables)
  {
    var tx := db.txs[t];
    var next := Next(db, Commit(t));
    assert TxOk(db.tables, tx);
    forall id: nat
      ensures id in next.tables.advices ==> id < db.tables.lastId && DebitedOnce(next.tables.ledger, id, next.tables.advices[id])
      ensures id !in next.tables.advices ==> NoAdvice(next.tables.ledger, id)
    {
      assert AdviceRows(tx, id);
      if KindHas(tx.kind, id) {
        DebitedInSecond(db.tables.ledger, tx.rows, id, tx.kind.user);
      } else if id in db.tables.advices {
        DebitedInFirst(db.tables.ledger, tx.rows, id, db.tables.advices[id]);
      }
    }
  }

  lemma CommitLeavesOthers(db: Db, t: TxId, u: TxId)
    requires Inv(db) && Enabled(db, Commit(t)) && u in db.txs && u != t
    ensures TxOk(Next(db, Commit(t)).tables, db.txs[u])
  {
    assert TxOk(db.tables, db.txs[u]) && Apart(db.txs[t], db.txs[u]) && Apart(db.txs[u], db.txs[t]);
  }

  lemma CommitOk(db: Db, t: TxId)
    requires Inv(db) && Enabled(db, Commit(t))
    ensures Inv(Next(db, Commit(t)))
  {
    var next := Next(db, Commit(t));
    CommitBooks(db, t);
    CommitAdvices(db, t);
    assert TxOk(db.tables, db.txs[t]);
    assert KeysDistinct(next.tables.ledger);
    forall u | u in next.txs
      ensures TxOk(next.tables, next.txs[u])
    {
      CommitLeavesOthers(db, t, u);
    }
  }

  lemma CallOk(db: Db, t: TxId, request: Pending)
    requires Inv(db) && Open(db, t) && db.txs[t].kind.Plain? && db.txs[t].pending.Idle?
    requires !request.Idle? && !request.reference.AdviceRef?
    ensures Inv(db.(txs := db.txs[t := Call(db.tables, db.txs[t], request).0]))
  {
    QuietOk(db, t, Call(db.tables, db.txs[t], request).0);
  }

  lemma AskOk(db: Db, t: TxId, user: UserId)
    requires Inv(db) && Enabled(db, AskAdvice(t, user))
    ensures Inv(Next(db, AskAdvice(t, user)))
  {
    QuietOk(db, t, Ask(db.tables, db.txs[t], user));
  }

  lemma StepKeepsInv(db: Db, a: Action)
    requires Inv(db) && Enabled(db, a)
    ensures Inv(Next(db, a))
  {
    match a {
      case Begin(t) => BeginOk(db, t);
      case CallDeduct(t, user, amount, reason, reference) => CallOk(db, t, Deducting(user, amount, reason, reference));
      case CallAdd(t, user, amount, reason, reference, key) => CallOk(db, t, Adding(user, amount, reason, reference, key));
      case LockRow(t) => LockOk(db, t);
      case Flush(t) => ApplyOk(db, t);
      case AskAdvice(t, user) => AskOk(db, t, user);
      case DraftAdvice(t) => DraftOk(db, t);
      case Commit(t) => CommitOk(db, t);
      case Rollback(t) => RollbackOk(db, t);
    }
  }

  lemma {:induction false} RunKeepsInv(db: Db, run: seq<Action>)
    requires Inv(db) && CanRun(db, run)
    ensures Inv(After(db, run)) && After(db, run).tables.opening == db.tables.opening
    decreases |run|
  {
    if run == [] {
    } else {
      StepKeepsInv(db, run[0]);
      RunKeepsInv(Next(db, run[0]), run[1..]);
    }
  }

  // ------------------------------------------------------------ what every run guarantees

  ghost predicate Opened(opening: map<UserId, int>) {
    forall u :: u in opening ==> opening[u] >= 0
  }

  lemma Reached(opening: map<UserId, int>, run: seq<Action>)
    requires Opened(opening) && CanRun(Init(opening), run)
    ensures Inv(After(Init(opening), run)) && After(Init(opening), run).tables.opening == opening
  {
    RunKeepsInv(Init(opening), run);
  }

  /** In any interleaving the committed balance is the opening balance plus the committed rows, and never negative. */
  lemma BalanceIsLedgerSum(opening: map<UserId, int>, run: seq<Action>, user: UserId)
    requires Opened(opening) && CanRun(Init(opening), run) && user in opening
    ensures
      var tb := After(Init(opening), run).tables;
      user in tb.balances && tb.balances[user] == opening[user] + Sum(tb.ledger, user) && tb.balances[user] >= 0
  {
    Reached(opening, run);
  }

  /** The ledger only grows, so over any further run a balance moves by the sum of the rows committed meanwhile. */
  lemma {:induction false} LedgerOnlyGrows(db: Db, run: seq<Action>)
    requires CanRun(db, run)
    ensures db.tables.ledger <= After(db, run).tables.ledger
    decreases |run|
  {
    if run == [] {
    } else {
      LedgerOnlyGrows(Next(db, run[0]), run[1..]);
    }
  }

  lemma BalanceMovesWithLedger(opening: map<UserId, int>, run: seq<Action>, further: seq<Action>, user: UserId)
    requires Opened(opening) && CanRun(Init(opening), run) && CanRun(After(Init(opening), run), further) && user in opening
    ensures
      var before, after := After(Init(opening), run).tables, After(After(Init(opening), run), further).tables;
      && before.ledger <= after.ledger && user in before.balances && user in after.balances
      && after.balances[user] - before.balances[user] == Sum(after.ledger[|before.ledger|..], user)
  {
    Reached(opening, run);
    var mid := After(Init(opening), run);
    RunKeepsInv(mid, further);
    LedgerOnlyGrows(mid, further);
    var before, after := mid.tables.ledger, After(mid, further).tables.ledger;
    assert after == before + after[|before|..];
    SumOfBoth(before, after[|before|..], user);
  }

  /** An idempotency key is credited at most once, also when two adds have passed the pre-check together. */
  lemma KeyCreditedOnce(opening: map<UserId, int>, run: seq<Action>, i: nat, j: nat)
    requires Opened(opening) && CanRun(Init(opening), run)
    requires
      var ledger := After(Init(opening), run).tables.ledger;
      i < |ledger| && j < |ledger| && ledger[i].key.Some? && ledger[i].key == ledger[j].key
    ensures i == j
  {
    Reached(opening, run);
  }

  /**
   A committed advice has exactly one debit, of its user and its cost, and no debit names an advice that is
   not committed.
   */
  lemma AdviceChargedOnce(opening: map<UserId, int>, run: seq<Action>, id: nat)
    requires Opened(opening) && CanRun(Init(opening), run)
    ensures
      var tb := After(Init(opening), run).tables;
      if id in tb.advices then DebitedOnce(tb.ledger, id, tb.advices[id]) else NoAdvice(tb.ledger, id)
  {
    Reached(opening, run);
  }

  // ------------------------------------------------------------ only commits reach the tables

  ghost predicate SameBooks(a: Tables, b: Tables) {
    a.balances == b.balances && a.ledger == b.ledger && a.advices == b.advices
  }

  /** A rollback, like every other step but a commit, leaves balances, ledger and advices alone. */
  lemma OnlyCommitsReachTables(db: Db, a: Action)
    requires Enabled(db, a) && !a.Commit?
    ensures SameBooks(Next(db, a).tables, db.tables)
    ensures a.Rollback? ==> Next(db, a).tables == db.tables && a.t !in Next(db, a).txs
  {
  }

  /** The rows of the transactions the run commits, in the order of their commits. */
  ghost function CommittedRows(db: Db, run: seq<Action>): seq<Row>
    requires CanRun(db, run)
    decreases |run|
  {
    if run == [] then []
    else (if run[0].Commit? then db.txs[run[0].t].rows else []) + CommittedRows(Next(db, run[0]), run[1..])
  }

  /** The ledger is exactly what it was and the rows of the committed transactions in commit order. */
  lemma {:induction false} LedgerIsWhatWasCommitted(db: Db, run: seq<Action>)
    requires CanRun(db, run)
    ensures After(db, run).tables.ledger == db.tables.ledger + CommittedRows(db, run)
    ensures (forall i :: 0 <= i < |run| ==> !run[i].Commit?) ==> SameBooks(After(db, run).tables, db.tables)
    decreases |run|
  {
    if run == [] {
    } else {
      LedgerIsWhatWasCommitted(Next(db, run[0]), run[1..]);
      if !run[0].Commit? {
        OnlyCommitsReachTables(db, run[0]);
      }
    }
  }

  /** A transaction that has failed can only be rolled back. */
  lemma FailedOnlyRollsBack(db: Db, a: Action)
    requires Enabled(db, a) && a.t in db.txs && db.txs[a.t].aborted
    ensures a == Rollback(a.t)
  {
  }

  /** The check before the model is called lets a request on exactly when the committed balance covers the cost. */
  lemma AskedExactly(db: Db, t: TxId, user: UserId)
    requires Enabled(db, AskAdvice(t, user))
    ensures
      var tx := Next(db, AskAdvice(t, user)).txs[t];
      && (tx.kind == Asked(user) && !tx.aborted <==> user in db.tables.balances && db.tables.balances[user] >= ADVICE_COST)
      && (tx.aborted <==> !(user in db.tables.balances && db.tables.balances[user] >= ADVICE_COST))
  {
  }

  /**
   A rollback at the end of any run that commits nothing leaves the books of the start, whatever was deducted
   or added before.
   */
  lemma RolledBackRunLeavesNothing(db: Db, run: seq<Action>, t: TxId)
    requires CanRun(db, run) && forall i :: 0 <= i < |run| ==> !run[i].Commit?
    requires t in After(db, run).txs
    ensures SameBooks(Next(After(db, run), Rollback(t)).tables, db.tables)
  {
    LedgerIsWhatWasCommitted(db, run);
    OnlyCommitsReachTables(After(db, run), Rollback(t));
  }

  /** Two open transactions never hold the same user row. */
  lemma RowLockIsExclusive(opening: map<UserId, int>, run: seq<Action>, t: TxId, u: TxId, user: UserId)
    requires Opened(opening) && CanRun(Init(opening), run)
    requires
      var txs := After(Init(opening), run).txs;
      t in txs && u in txs && user in txs[t].held && user in txs[u].held
    ensures t == u
  {
    Reached(opening, run);
    var txs := After(Init(opening), run).txs;
    assert t != u ==> Apart(txs[t], txs[u]);
  }

  lemma RunOfMore(db: Db, a: Action, rest: seq<Action>)
    requires Enabled(db, a) && CanRun(Next(db, a), rest)
    ensures CanRun(db, [a] + rest) && After(db, [a] + rest) == After(Next(db, a), rest)
  {
    assert ([a] + rest)[1..] == rest;
  }

  /** The committed tables after one advice, with nobody else at work. */
  function Advised(tb: Tables, user: UserId): Tables
    requires user in tb.balances
  {
    tb.(balances := tb.balances[user := tb.balances[user] - ADVICE_COST],
        ledger := tb.ledger + [Row(user, -ADVICE_COST, ADVICE_REASON, AdviceRef(tb.lastId), None)],
        advices := tb.advices[tb.lastId := user],
        lastId := tb.lastId + 1)
  }

  ghost function Charging(user: UserId): seq<Action> {
    [DraftAdvice(0)] + ([LockRow(0)] + ([Flush(0)] + ([Commit(0)] + [])))
  }

  /** One request's steps, one after the other, take the tables there. */
  lemma AdviceRun(tb: Tables, user: UserId)
    requires user in tb.balances && tb.balances[user] >= ADVICE_COST
    ensures
      var db, run := Db(tb, map[]), [Begin(0)] + ([AskAdvice(0, user)] + Charging(user));
      CanRun(db, run) && After(db, run) == Db(Advised(tb, user), map[])
  {
    var db, started := Db(tb, map[]), Alone(tb, NewTx());
    ChargingRun(tb, user);
    assert Next(db, Begin(0)) == started;
    assert Next(started, AskAdvice(0, user)) == Alone(tb, Tx(map[], [], Asked(user), Idle, false));
    RunOfMore(started, AskAdvice(0, user), Charging(user));
    RunOfMore(db, Begin(0), [AskAdvice(0, user)] + Charging(user));
  }

  function Alone(tb: Tables, tx: Tx): Db {
    Db(tb, map[0 := tx])
  }

  lemma DraftAlone(tb: Tables, user: UserId)
    ensures
      var db := Alone(tb, Tx(map[], [], Asked(user), Idle, false));
      Enabled(db, DraftAdvice(0))
      && Next(db, DraftAdvice(0)) == Alone(tb.(lastId := tb.lastId + 1), Draft(Tx(map[], [], Asked(user), Idle, false), tb.lastId))
  {
    var tx := Tx(map[], [], Asked(user), Idle, false);
    assert map[0 := tx][0 := Draft(tx, tb.lastId)] == map[0 := Draft(tx, tb.lastId)];
  }

  lemma LockAlone(tb: Tables, tx: Tx)
    requires !tx.aborted && tx.pending.Deducting? && tx.held == map[] && tx.pending.user in tb.balances
    ensures
      var user := tx.pending.user;
      Enabled(Alone(tb, tx), LockRow(0))
      && Next(Alone(tb, tx), LockRow(0)) == Alone(tb, tx.(held := map[user := tb.balances[user]]))
  {
    var after := Lock(tb, tx);
    assert map[0 := tx][0 := after] == map[0 := after];
  }

  lemma FlushAlone(tb: Tables, tx: Tx)
    requires !tx.aborted && tx.pending.Deducting? && tx.pending.user in tx.held
    ensures Enabled(Alone(tb, tx), Flush(0)) && Next(Alone(tb, tx), Flush(0)) == Alone(tb, Apply(tb, tx).0)
  {
    var after := Apply(tb, tx).0;
    assert map[0 := tx][0 := after] == map[0 := after];
  }

  lemma CommitAlone(tb: Tables, tx: Tx)
    requires !tx.aborted && tx.pending.Idle? && tx.kind.Charged?
    ensures
      Enabled(Alone(tb, tx), Commit(0))
      && Next(Alone(tb, tx), Commit(0)) == Db(tb.(balances := tb.balances + tx.held, ledger := tb.ledger + tx.rows,
                                                  advices := tb.advices[tx.kind.id := tx.kind.user]), map[])
  {
    assert map[0 := tx] - {0} == map[];
  }

  lemma ChargingRun(tb: Tables, user: UserId)
    requires user in tb.balances && tb.balances[user] >= ADVICE_COST
    ensures
      var db := Alone(tb, Tx(map[], [], Asked(user), Idle, false));
      CanRun(db, Charging(user)) && After(db, Charging(user)) == Db(Advised(tb, user), map[])
  {
    var grown := tb.(lastId := tb.lastId + 1);
    var asked := Tx(map[], [], Asked(user), Idle, false);
    var drafted := Draft(asked, tb.lastId);
    var locked := drafted.(held := map[user := tb.balances[user]]);
    var flushed := Apply(grown, locked).0;
    DraftAlone(tb, user);
    LockAlone(grown, drafted);
    FlushAlone(grown, locked);
    CommitAlone(grown, flushed);
    assert tb.balances + flushed.held == tb.balances[user := tb.balances[user] - ADVICE_COST];
    RunOfMore(Alone(grown, flushed), Commit(0), []);
    RunOfMore(Alone(grown, locked), Flush(0), [Commit(0)] + []);
    RunOfMore(Alone(grown, drafted), LockRow(0), [Flush(0)] + ([Commit(0)] + []));
    RunOfMore(Alone(tb, asked), DraftAdvice(0), [LockRow(0)] + ([Flush(0)] + ([Commit(0)] + [])));
  }

  ghost function Refusing(): seq<Action> {
    [DraftAdvice(0)] + ([LockRow(0)] + ([Flush(0)] + ([Rollback(0)] + [])))
  }

  /** A balance that has become too small since the check: the request ends without a trace but its advice id. */
  lemma RefusingRun(tb: Tables, user: UserId)
    requires user in tb.balances && tb.balances[user] < ADVICE_COST
    ensures
      var db := Alone(tb, Tx(map[], [], Asked(user), Idle, false));
      CanRun(db, Refusing()) && After(db, Refusing()) == Db(tb.(lastId := tb.lastId + 1), map[])
  {
    var grown := tb.(lastId := tb.lastId + 1);
    var asked := Tx(map[], [], Asked(user), Idle, false);
    var drafted := Draft(asked, tb.lastId);
    var locked := drafted.(held := map[user := tb.balances[user]]);
    var refused := Apply(grown, locked).0;
    DraftAlone(tb, user);
    LockAlone(grown, drafted);
    FlushAlone(grown, locked);
    assert map[0 := refused] - {0} == map[];
    RunOfMore(Alone(grown, refused), Rollback(0), []);
    RunOfMore(Alone(grown, locked), Flush(0), [Rollback(0)] + []);
    RunOfMore(Alone(grown, drafted), LockRow(0), [Flush(0)] + ([Rollback(0)] + []));
    RunOfMore(Alone(tb, asked), DraftAdvice(0), [LockRow(0)] + ([Flush(0)] + ([Rollback(0)] + [])));
  }

  /**
   An add that lost the race after its pre-check waits for the winner's insert, and is refused once the winner
   has committed.
   */
  lemma LosingAddIsRefused(db: Db, t: TxId, u: TxId, key: string)
    requires Enabled(db, Commit(t)) && HasKey(db.txs[t].rows, Some(key))
    requires u != t && Open(db, u) && db.txs[u].pending.Adding? && db.txs[u].pending.key == Some(key)
    requires db.txs[u].pending.user in db.txs[u].held
    ensures !Enabled(db, Flush(u))
    ensures
      var (tx, reply) := Apply(Next(db, Commit(t)).tables, db.txs[u]);
      reply == DuplicateKey && tx.aborted && tx.rows == db.txs[u].rows
  {
    var rows, ledger := db.txs[t].rows, db.tables.ledger;
    var i :| 0 <= i < |rows| && rows[i].key == Some(key);
    assert (ledger + rows)[|ledger| + i].key == Some(key);
  }
}

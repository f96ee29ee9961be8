/**
 `deduct_credits` and `add_credits` on one database session, run to their flush. The contracts state
 the reply and the new session outright, and tie them to the steps of the ledger's step system.
 */
module CreditSession {
  import opened CreditLedger
  import opened Options

  /** The check before the model is called. */
  predicate MayAsk(tables: Tables, user: UserId) {
    user in tables.balances && tables.balances[user] >= ADVICE_COST
  }

  class Session {
    var tables: Tables
    var tx: Tx

    constructor (tables: Tables)
      ensures this.tables == tables && tx == NewTx()
    {
      this.tables := tables;
      tx := NewTx();
    }

    /** What the session sees of a balance: its own value for a row it holds, else the committed one. */
    ghost function Visible(user: UserId): Option<int>
      reads this
    {
      if user in tx.held then Some(tx.held[user])
      else if user in tables.balances then Some(tables.balances[user]) else None
    }

    method SelectForUpdate(user: UserId) returns (found: bool)
      requires !tx.pending.Idle? && tx.pending.user == user
      modifies this`tx
      ensures found == old(Visible(user)).Some?
      ensures tx == Lock(tables, old(tx))
    {
      found := user in tx.held || user in tables.balances;
      if !found {
        tx := tx.(pending := Idle, aborted := tx.kind.Drafted?);
      } else if user !in tx.held {
        tx := tx.(held := tx.held[user := tables.balances[user]]);
      }
    }

    method DeductCredits(user: UserId, amount: int, reason: string, reference: Reference) returns (reply: Reply)
      requires !tx.kind.Drafted? && !tx.aborted && tx.pending.Idle?
      modifies this`tx
      ensures tx.pending.Idle?
      ensures amount <= 0 ==> reply == NotPositive && tx == old(tx)
      ensures amount > 0 && old(Visible(user)) == None ==> reply == NoUser && tx == old(tx)
      ensures amount > 0 && old(Visible(user)).Some? ==>
        var available := old(Visible(user)).value;
        if available < amount then
          reply == Insufficient(amount, available) && tx.rows == old(tx).rows && Visible(user) == Some(available)
        else
          && reply == Balance(available - amount) && Visible(user) == Some(available - amount)
          && tx.rows == old(tx).rows + [Row(user, -amount, reason, reference, None)]
      ensures amount > 0 && old(Visible(user)).Some? ==>
        (tx, reply) == Apply(tables, Lock(tables, Call(tables, old(tx), Deducting(user, amount, reason, reference)).0))
    {
      if amount <= 0 {
        return NotPositive;
      }
      tx := tx.(pending := Deducting(user, amount, reason, reference));
      var found := SelectForUpdate(user);
      if !found {
        return NoUser;
      }
      var available := tx.held[user];
      if available < amount {
        tx := tx.(pending := Idle);
        return Insufficient(amount, available);
      }
      tx := tx.(held := tx.held[user := available - amount],
                rows := tx.rows + [Row(user, -amount, reason, reference, None)],
                pending := Idle);
      reply := Balance(tx.held[user]);
    }

    method AddCredits(user: UserId, amount: int, reason: string, reference: Reference, key: Option<string>)
      returns (reply: Reply)
      requires !tx.kind.Drafted? && !tx.aborted && tx.pending.Idle?
      modifies this`tx
      ensures tx.pending.Idle?
      ensures amount <= 0 ==> reply == NotPositive && tx == old(tx)
      ensures amount > 0 && (HasKey(tables.ledger, key) || HasKey(old(tx).rows, key)) ==>
        tx == old(tx) && reply == (if old(Visible(user)).Some? then Balance(old(Visible(user)).value) else NoUser)
      ensures amount > 0 && !HasKey(tables.ledger, key) && !HasKey(old(tx).rows, key) ==>
        if old(Visible(user)) == None then reply == NoUser && tx == old(tx)
        else
          var available := old(Visible(user)).value;
          && reply == Balance(available + amount) && Visible(user) == Some(available + amount)
          && tx.rows == old(tx).rows + [Row(user, amount, reason, reference, key)]
          && (tx, reply) == Apply(tables, Lock(tables, Call(tables, old(tx), Adding(user, amount, reason, reference, key)).0))
    {
      if amount <= 0 {
        return NotPositive;
      }
      if HasKey(tables.ledger, key) || HasKey(tx.rows, key) {
        return if user in tx.held then Balance(tx.held[user])
               else if user in tables.balances then Balance(tables.balances[user]) else NoUser;
      }
      tx := tx.(pending := Adding(user, amount, reason, reference, key));
      var found := SelectForUpdate(user);
      if !found {
        return NoUser;
      }
      var available := tx.held[user];
      tx := tx.(held := tx.held[user := available + amount],
                rows := tx.rows + [Row(user, amount, reason, reference, key)],
                pending := Idle);
      reply := Balance(tx.held[user]);
    }

    /**
     With the answer at hand: flush the advice for its id, deduct, and commit, or roll back when the deduction
     is refused.
     */
    method ChargeAdvice(user: UserId) returns (id: Option<nat>)
      requires tx == NewTx()
      modifies this
      ensures tx == NewTx()
      ensures
        if MayAsk(old(tables), user) then id == Some(old(tables).lastId) && tables == Advised(old(tables), user)
        else id == None && tables == old(tables).(lastId := old(tables).lastId + 1)
    {
      var next := tables.lastId;
      tables := tables.(lastId := next + 1);
      var reply := DeductCredits(user, ADVICE_COST, ADVICE_REASON, AdviceRef(next));
      id := None;
      if reply.Balance? {
        tables := tables.(balances := tables.balances + tx.held,
                          ledger := tables.ledger + tx.rows,
                          advices := tables.advices[next := user]);
        id := Some(next);
      }
      tx := NewTx();
    }

    /**
     An advice request: check, ask the model, charge. `generated` is whether the model has answered,
     `meanwhile` what others have committed until then, so the balance may have become too small since the check.
     */
    method GenerateAdvice(user: UserId, generated: bool, meanwhile: Tables) returns (id: Option<nat>)
      requires tx == NewTx()
      modifies this
      ensures tx == NewTx()
      ensures !MayAsk(old(tables), user) ==> id == None && tables == old(tables)
      ensures MayAsk(old(tables), user) && !generated ==> id == None && tables == meanwhile
      ensures MayAsk(old(tables), user) && generated ==>
        if MayAsk(meanwhile, user) then id == Some(meanwhile.lastId) && tables == Advised(meanwhile, user)
        else id == None && tables == meanwhile.(lastId := meanwhile.lastId + 1)
    {
      if !MayAsk(tables, user) {
        return None;
      }
      tables := meanwhile;
      if !generated {
        return None;
      }
      id := ChargeAdvice(user);
    }
  }

  /**
   The steps of a request after its check, charged or refused, are a run of the ledger's step system that ends
   in the same tables.
   */
  lemma ChargingIsARun(tb: Tables, user: UserId)
    requires user in tb.balances
    ensures
      var db := Alone(tb, Tx(map[], [], Asked(user), Idle, false));
      var run := if MayAsk(tb, user) then Charging(user) else Refusing();
      var end := if MayAsk(tb, user) then Advised(tb, user) else tb.(lastId := tb.lastId + 1);
      CanRun(db, run) && After(db, run) == Db(end, map[])
  {
    if MayAsk(tb, user) {
      ChargingRun(tb, user);
    } else {
      RefusingRun(tb, user);
    }
  }
}

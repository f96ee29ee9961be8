/**
 The single-flight TTL cache as a step system. One step is the code a task runs between two
 suspension points of `get_or_compute`: the entry section, the section after `await factory()`,
 and the resumption after `await inflight`. A future is a heap object in the source; here it is an
 index into `futures`, and its record remembers the key and the caller it was created for.
 */
module SingleFlight {
  import opened Options

  type Key = string
  type Caller = nat

  /** What an `await` can throw: an error of the factory, or the cancellation of a task. */
  datatype Exn = FactoryError(code: int) | Cancelled

  datatype Status<V> = Pending | Result(value: V) | Failure(exn: Exn)

  datatype Future<V> = Future(key: Key, owner: Caller, status: Status<V>)

  /** The fields of one cache object. */
  datatype Shared<V> = Shared(
    ttl: real,
    cache: map<Key, (real, V)>,
    inflight: map<Key, nat>,
    futures: seq<Future<V>>)

  /** How a call leaves the entry section. */
  datatype Entry<V> = Hit(value: V) | Own(fut: nat) | Join(fut: nat)

  function Enter<V>(sh: Shared<V>, key: Key, now: real): Entry<V> {
    if key in sh.cache && now - sh.cache[key].0 < sh.ttl then Hit(sh.cache[key].1)
    else if key in sh.inflight then Join(sh.inflight[key])
    else Own(|sh.futures|)
  }

  function AfterEnter<V>(sh: Shared<V>, caller: Caller, key: Key, now: real): Shared<V> {
    if Enter(sh, key, now).Own? then
      sh.(futures := sh.futures + [Future(key, caller, Pending)], inflight := sh.inflight[key := |sh.futures|])
    else sh
  }

  /** A future that is done keeps its outcome. */
  function Settle<V>(futures: seq<Future<V>>, fut: nat, outcome: Status<V>): seq<Future<V>>
    requires fut < |futures|
  {
    if futures[fut].status.Pending? then futures[fut := futures[fut].(status := outcome)] else futures
  }

  /** The section after the factory: store a value, settle the future, and take the key off the table. */
  function AfterFactory<V>(sh: Shared<V>, key: Key, fut: nat, outcome: Status<V>, now: real): Shared<V>
    requires fut < |sh.futures| && !outcome.Pending?
  {
    sh.(cache := if outcome.Result? then sh.cache[key := (now, outcome.value)] else sh.cache,
        futures := Settle(sh.futures, fut, outcome),
        inflight := sh.inflight - {key})
  }

  function AfterInvalidate<V>(sh: Shared<V>, key: Option<Key>): Shared<V> {
    sh.(cache := if key.None? then map[] else sh.cache - {key.value})
  }

  // ------------------------------------------------------------ the step system

  datatype Pc<V> =
    | InFactory(key: Key, fut: nat)
    | Awaiting(key: Key, fut: nat, cancelRequested: bool)
    | Returned(key: Key, value: V)
    | Raised(key: Key, exn: Exn)

  datatype Produced<V> = Produced(key: Key, value: V, at: real)

  /** `produced` is the history of the values factories have returned. */
  datatype State<V> = State(
    shared: Shared<V>,
    now: real,
    callers: map<Caller, Pc<V>>,
    produced: seq<Produced<V>>)

  datatype Action<V> =
    | Tick(dt: real)
    | Call(c: Caller, key: Key)
    | FactoryReturns(c: Caller, value: V)
    | FactoryRaises(c: Caller, exn: Exn)
    | Resume(c: Caller)
    | CancelWaiter(c: Caller)
    | Invalidate(target: Option<Key>)

  function Init<V>(ttl: real): State<V> {
    State(Shared(ttl, map[], map[], []), 0.0, map[], [])
  }

  predicate Computing<V>(s: State<V>, c: Caller) {
    c in s.callers && s.callers[c].InFactory? && s.callers[c].fut < |s.shared.futures|
  }

  predicate Waiting<V>(s: State<V>, c: Caller) {
    c in s.callers && s.callers[c].Awaiting? && s.callers[c].fut < |s.shared.futures|
  }

  predicate Enabled<V>(s: State<V>, a: Action<V>) {
    match a
    case Tick(dt) => dt >= 0.0
    case Call(c, _) => c !in s.callers
    case FactoryReturns(c, _) => Computing(s, c)
    case FactoryRaises(c, _) => Computing(s, c)
    case Resume(c) => Waiting(s, c) && !s.shared.futures[s.callers[c].fut].status.Pending?
    case CancelWaiter(c) => Waiting(s, c)
    case Invalidate(_) => true
  }

  /**
   `task.cancel()` on a waiter cancels the shared future it awaits; if that is done already, the request stays
   with the task.
   */
  function Cancel<V>(s: State<V>, c: Caller): State<V>
    requires Waiting(s, c)
  {
    var pc := s.callers[c];
    if s.shared.futures[pc.fut].status.Pending? then
      s.(shared := s.shared.(futures := Settle(s.shared.futures, pc.fut, Failure(Cancelled))))
    else
      s.(callers := s.callers[c := pc.(cancelRequested := true)])
  }

  function Finish<V>(s: State<V>, c: Caller, outcome: Status<V>): State<V>
    requires Computing(s, c) && !outcome.Pending?
  {
    var pc := s.callers[c];
    s.(shared := AfterFactory(s.shared, pc.key, pc.fut, outcome, s.now),
       callers := s.callers[c := if outcome.Result? then Returned(pc.key, outcome.value) else Raised(pc.key, outcome.exn)],
       produced := if outcome.Result? then s.produced + [Produced(pc.key, outcome.value, s.now)] else s.produced)
  }

  function Next<V>(s: State<V>, a: Action<V>): State<V>
    requires Enabled(s, a)
  {
    match a
    case Tick(dt) => s.(now := s.now + dt)
    case Call(c, key) =>
      var pc := match Enter(s.shared, key, s.now)
                case Hit(v) => Returned(key, v)
                case Own(f) => InFactory(key, f)
                case Join(f) => Awaiting(key, f, false);
      s.(shared := AfterEnter(s.shared, c, key, s.now), callers := s.callers[c := pc])
    case FactoryReturns(c, value) => Finish(s, c, Result(value))
    case FactoryRaises(c, exn) => Finish(s, c, Failure(exn))
    case Resume(c) =>
      var pc := s.callers[c];
      var status := s.shared.futures[pc.fut].status;
      s.(callers := s.callers[c :=
        if pc.cancelRequested then Raised(pc.key, Cancelled)
        else if status.Result? then Returned(pc.key, status.value)
        else Raised(pc.key, status.exn)])
    case CancelWaiter(c) => Cancel(s, c)
    case Invalidate(key) => s.(shared := AfterInvalidate(s.shared, key))
  }

  ghost predicate CanRun<V>(s: State<V>, run: seq<Action<V>>)
    decreases |run|
  {
    run == [] || (Enabled(s, run[0]) && CanRun(Next(s, run[0]), run[1..]))
  }

  ghost function After<V>(s: State<V>, run: seq<Action<V>>): State<V>
    requires CanRun(s, run)
    decreases |run|
  {
    if run == [] then s else After(Next(s, run[0]), run[1..])
  }

  // ------------------------------------------------------------ the invariant

  ghost predicate WasProduced<V>(s: State<V>, key: Key, value: V) {
    exists i :: 0 <= i < |s.produced| && s.produced[i].key == key && s.produced[i].value == value
  }

  /** A table entry names a future of its key whose owner is suspended in the factory for it. */
  ghost predicate TableOwned<V>(s: State<V>) {
    forall k :: k in s.shared.inflight ==>
      var f := s.shared.inflight[k];
      && f < |s.shared.futures|
      && s.shared.futures[f].key == k
      && s.shared.futures[f].owner in s.callers
      && s.callers[s.shared.futures[f].owner] == InFactory(k, f)
      && (s.shared.futures[f].status.Pending? || s.shared.futures[f].status == Failure(Cancelled))
  }

  ghost predicate OwnersRegistered<V>(s: State<V>) {
    forall c :: c in s.callers && s.callers[c].InFactory? ==>
      && s.callers[c].key in s.shared.inflight
      && s.shared.inflight[s.callers[c].key] == s.callers[c].fut
      && s.callers[c].fut < |s.shared.futures|
      && s.shared.futures[s.callers[c].fut].owner == c
  }

  ghost predicate FuturesTracked<V>(s: State<V>) {
    forall f :: 0 <= f < |s.shared.futures| ==>
      var fut := s.shared.futures[f];
      && (fut.status.Pending? ==> fut.key in s.shared.inflight && s.shared.inflight[fut.key] == f)
      && (fut.status.Result? ==> WasProduced(s, fut.key, fut.status.value))
  }

  ghost predicate CallersHonest<V>(s: State<V>) {
    forall c :: c in s.callers ==>
      match s.callers[c]
      case Awaiting(k, f, _) => f < |s.shared.futures| && s.shared.futures[f].key == k
      case Returned(k, v) => WasProduced(s, k, v)
      case _ => true
  }

  ghost predicate CacheHonest<V>(s: State<V>) {
    forall k :: k in s.shared.cache ==>
      s.shared.cache[k].0 <= s.now && Produced(k, s.shared.cache[k].1, s.shared.cache[k].0) in s.produced
  }

  ghost predicate Inv<V>(s: State<V>) {
    TableOwned(s) && OwnersRegistered(s) && FuturesTracked(s) && CallersHonest(s) && CacheHonest(s)
  }

  lemma ProducedGrows<V>(s: State<V>, t: State<V>)
    requires s.produced <= t.produced
    ensures forall k, v :: WasProduced(s, k, v) ==> WasProduced(t, k, v)
  {
    forall k, v | WasProduced(s, k, v)
      ensures WasProduced(t, k, v)
    {
      var i :| 0 <= i < |s.produced| && s.produced[i].key == k && s.produced[i].value == v;
      assert t.produced[i] == s.produced[i];
    }
  }

  lemma FinishKeepsTable<V>(s: State<V>, c: Caller, outcome: Status<V>)
    requires Inv(s) && Computing(s, c) && !outcome.Pending?
    ensures TableOwned(Finish(s, c, outcome)) && OwnersRegistered(Finish(s, c, outcome))
  {
  }

  lemma FinishKeepsInv<V>(s: State<V>, c: Caller, outcome: Status<V>)
    requires Inv(s) && Computing(s, c) && !outcome.Pending?
    ensures Inv(Finish(s, c, outcome))
  {
    FinishKeepsTable(s, c, outcome);
    FinishKeepsHonesty(s, c, outcome);
  }

  lemma FinishKeepsHonesty<V>(s: State<V>, c: Caller, outcome: Status<V>)
    requires Inv(s) && Computing(s, c) && !outcome.Pending?
    ensures FuturesTracked(Finish(s, c, outcome)) && CallersHonest(Finish(s, c, outcome)) && CacheHonest(Finish(s, c, outcome))
  {
    var t := Finish(s, c, outcome);
    ProducedGrows(s, t);
    if outcome.Result? {
      assert t.produced[|s.produced|] == Produced(s.callers[c].key, outcome.value, s.now);
    }
  }

  lemma CancelKeepsInv<V>(s: State<V>, c: Caller)
    requires Inv(s) && Waiting(s, c)
    ensures Inv(Cancel(s, c))
  {
    ProducedGrows(s, Cancel(s, c));
  }

  lemma CallKeepsInv<V>(s: State<V>, c: Caller, key: Key)
    requires Inv(s) && c !in s.callers
    ensures Inv(Next(s, Call(c, key)))
  {
    ProducedGrows(s, Next(s, Call(c, key)));
    if Enter(s.shared, key, s.now).Hit? {
      assert Produced(key, s.shared.cache[key].1, s.shared.cache[key].0) in s.produced;
    }
  }

  lemma ResumeKeepsInv<V>(s: State<V>, c: Caller)
    requires Inv(s) && Enabled(s, Resume(c))
    ensures Inv(Next(s, Resume(c)))
  {
    ProducedGrows(s, Next(s, Resume(c)));
  }

  lemma QuietKeepsInv<V>(s: State<V>, now: real, key: Option<Key>)
    requires Inv(s) && now >= s.now
    ensures Inv(s.(now := now)) && Inv(s.(shared := AfterInvalidate(s.shared, key)))
  {
    ProducedGrows(s, s.(now := now));
    ProducedGrows(s, s.(shared := AfterInvalidate(s.shared, key)));
  }

  lemma StepKeepsInv<V>(s: State<V>, a: Action<V>)
    requires Inv(s) && Enabled(s, a)
    ensures Inv(Next(s, a))
  {
    match a {
      case Tick(dt) => QuietKeepsInv(s, s.now + dt, None);
      case Call(c, key) => CallKeepsInv(s, c, key);
      case FactoryReturns(c, value) => FinishKeepsInv(s, c, Result(value));
      case FactoryRaises(c, exn) => FinishKeepsInv(s, c, Failure(exn));
      case Resume(c) => ResumeKeepsInv(s, c);
      case CancelWaiter(c) => CancelKeepsInv(s, c);
      case Invalidate(key) => QuietKeepsInv(s, s.now, key);
    }
  }

  lemma {:induction false} RunKeepsInv<V>(s: State<V>, run: seq<Action<V>>)
    requires Inv(s) && CanRun(s, run)
    ensures Inv(After(s, run))
    decreases |run|
  {
    if run == [] {
    } else {
      StepKeepsInv(s, run[0]);
      RunKeepsInv(Next(s, run[0]), run[1..]);
    }
  }

  // ------------------------------------------------------------ what every run guarantees

  /** At most one factory runs per key, whatever calls, cancellations and invalidations are interleaved. */
  lemma SingleFactoryPerKey<V>(ttl: real, run: seq<Action<V>>, c: Caller, d: Caller)
    requires CanRun(Init(ttl), run)
    requires Computing(After(Init(ttl), run), c) && Computing(After(Init(ttl), run), d)
    requires After(Init(ttl), run).callers[c].key == After(Init(ttl), run).callers[d].key
    ensures c == d
  {
    RunKeepsInv(Init(ttl), run);
  }

  /** A suspended waiter can resume, or the owner of its future is suspended in the factory of the same key. */
  lemma NoWaiterIsLost<V>(ttl: real, run: seq<Action<V>>, c: Caller)
    requires CanRun(Init(ttl), run)
    requires c in After(Init(ttl), run).callers && After(Init(ttl), run).callers[c].Awaiting?
    ensures
      var s := After(Init(ttl), run);
      && s.callers[c].fut < |s.shared.futures|
      && (|| Enabled(s, Resume(c))
          || (var o := s.shared.futures[s.callers[c].fut].owner;
              o in s.callers && s.callers[o] == InFactory(s.callers[c].key, s.callers[c].fut)))
  {
    RunKeepsInv(Init(ttl), run);
  }

  /** When a factory exits, the entry its owner pops is its own, and every waiter on it can resume. */
  lemma OwnerPopsItsOwnEntry<V>(ttl: real, run: seq<Action<V>>, c: Caller, outcome: Status<V>)
    requires CanRun(Init(ttl), run) && !outcome.Pending?
    requires Computing(After(Init(ttl), run), c)
    ensures
      var s := After(Init(ttl), run);
      var t := Finish(s, c, outcome);
      && s.callers[c].key in s.shared.inflight && s.shared.inflight[s.callers[c].key] == s.callers[c].fut
      && (forall w :: w in t.callers && t.callers[w].Awaiting? && t.callers[w].fut == s.callers[c].fut ==> Enabled(t, Resume(w)))
      && (forall k :: k in t.shared.inflight <==> k in s.shared.inflight && k != s.callers[c].key)
  {
    RunKeepsInv(Init(ttl), run);
  }

  /** A returned value was returned by a factory of the same key; a hit is younger than the time to live. */
  lemma ServedValuesAreProduced<V>(ttl: real, run: seq<Action<V>>, c: Caller, key: Key)
    requires CanRun(Init(ttl), run)
    ensures
      var s := After(Init(ttl), run);
      && (c in s.callers && s.callers[c].Returned? ==> WasProduced(s, s.callers[c].key, s.callers[c].value))
      && (Enter(s.shared, key, s.now).Hit? ==>
            exists p :: p in s.produced && p.key == key && p.value == Enter(s.shared, key, s.now).value
                     && 0.0 <= s.now - p.at < s.shared.ttl)
  {
    RunKeepsInv(Init(ttl), run);
    var s := After(Init(ttl), run);
    if Enter(s.shared, key, s.now).Hit? {
      assert Produced(key, s.shared.cache[key].1, s.shared.cache[key].0) in s.produced;
    }
  }

  ghost function Suspended<V>(s: State<V>): set<Caller> {
    set c | c in s.callers && (s.callers[c].InFactory? || s.callers[c].Awaiting?)
  }

  predicate IsExit<V>(a: Action<V>) {
    a.FactoryReturns? || a.FactoryRaises? || a.Resume?
  }

  lemma ExitFreesOne<V>(s: State<V>, exit: Action<V>)
    requires IsExit(exit) && Enabled(s, exit)
    ensures Suspended(Next(s, exit)) == Suspended(s) - {exit.c} && exit.c in Suspended(s)
  {
  }

  lemma SuspendedCanExit<V>(s: State<V>, c: Caller) returns (exit: Action<V>)
    requires Inv(s) && c in Suspended(s)
    ensures IsExit(exit) && Enabled(s, exit)
  {
    var f := s.callers[c].fut;
    exit := if s.shared.futures[f].status.Pending? then FactoryRaises(s.shared.futures[f].owner, Cancelled)
            else if s.callers[c].Awaiting? then Resume(c) else FactoryRaises(c, Cancelled);
  }

  /**
   While a caller is suspended some factory can exit or some waiter can resume, and each such step frees one
   caller: no deadlock.
   */
  lemma ExitsDrain<V>(ttl: real, run: seq<Action<V>>)
    requires CanRun(Init(ttl), run)
    ensures
      var s := After(Init(ttl), run);
      && (Suspended(s) != {} ==> exists a: Action<V> :: IsExit(a) && Enabled(s, a))
      && (forall a: Action<V> :: IsExit(a) && Enabled(s, a) ==> |Suspended(Next(s, a))| == |Suspended(s)| - 1)
  {
    RunKeepsInv(Init(ttl), run);
    var s := After(Init(ttl), run);
    forall a: Action<V> | IsExit(a) && Enabled(s, a)
      ensures |Suspended(Next(s, a))| == |Suspended(s)| - 1
    {
      ExitFreesOne(s, a);
    }
    if Suspended(s) != {} {
      var c :| c in Suspended(s);
      var exit := SuspendedCanExit(s, c);
    }
  }

  // ------------------------------------------------------------ what a call is served

  /** The step does not end a factory of `k` with a value. */
  predicate StoresNothing<V>(s: State<V>, a: Action<V>, k: Key) {
    a.FactoryReturns? && a.c in s.callers ==> s.callers[a.c].key != k
  }

  /** No factory of `k` returns a value during the run. */
  ghost predicate NothingStored<V>(s: State<V>, run: seq<Action<V>>, k: Key)
    requires CanRun(s, run)
    decreases |run|
  {
    run == [] || (StoresNothing(s, run[0], k) && NothingStored(Next(s, run[0]), run[1..], k))
  }

  /** Neither all keys are invalidated during the run nor `k`. */
  ghost predicate NotInvalidated<V>(run: seq<Action<V>>, k: Key) {
    forall i :: 0 <= i < |run| ==> run[i] != Invalidate(None) && run[i] != Invalidate(Some(k))
  }

  lemma StepKeepsEntry<V>(s: State<V>, a: Action<V>, k: Key)
    requires Enabled(s, a) && StoresNothing(s, a, k)
    ensures Next(s, a).shared.ttl == s.shared.ttl && Next(s, a).now >= s.now
    ensures k in Next(s, a).shared.cache ==> k in s.shared.cache && Next(s, a).shared.cache[k] == s.shared.cache[k]
    ensures k in s.shared.cache && a != Invalidate(None) && a != Invalidate(Some(k)) ==> k in Next(s, a).shared.cache
  {
  }

  /** A cached entry outlives the run unless it is invalidated, and none comes from nowhere. */
  lemma {:induction false} RunKeepsEntry<V>(s: State<V>, run: seq<Action<V>>, k: Key)
    requires CanRun(s, run) && NothingStored(s, run, k)
    ensures After(s, run).shared.ttl == s.shared.ttl && After(s, run).now >= s.now
    ensures k in After(s, run).shared.cache ==> k in s.shared.cache && After(s, run).shared.cache[k] == s.shared.cache[k]
    ensures k in s.shared.cache && NotInvalidated(run, k) ==> k in After(s, run).shared.cache
    decreases |run|
  {
    if run == [] {
    } else {
      StepKeepsEntry(s, run[0], k);
      RunKeepsEntry(Next(s, run[0]), run[1..], k);
      assert NotInvalidated(run, k) ==> NotInvalidated(run[1..], k) && run[0] != Invalidate(None) && run[0] != Invalidate(Some(k));
    }
  }

  lemma {:induction false} TtlStays<V>(s: State<V>, run: seq<Action<V>>)
    requires CanRun(s, run)
    ensures After(s, run).shared.ttl == s.shared.ttl
    decreases |run|
  {
    if run == [] {
    } else {
      TtlStays(Next(s, run[0]), run[1..]);
    }
  }

  /**
   After a factory of `k` has returned a value, and as long as no other value of `k` is stored and `k` is
   not invalidated: a call within the time to live returns the value without a factory, a later one does not.
   */
  lemma FreshValueIsServed<V>(ttl: real, run: seq<Action<V>>, c: Caller, value: V, further: seq<Action<V>>, d: Caller)
    requires CanRun(Init(ttl), run) && Computing(After(Init(ttl), run), c)
    requires
      var k, t := After(Init(ttl), run).callers[c].key, Next(After(Init(ttl), run), FactoryReturns(c, value));
      && CanRun(t, further) && NothingStored(t, further, k) && NotInvalidated(further, k)
      && d !in After(t, further).callers
    ensures
      var k, t := After(Init(ttl), run).callers[c].key, Next(After(Init(ttl), run), FactoryReturns(c, value));
      var u := After(t, further);
      var called := Next(u, Call(d, k));
      if u.now - t.now < ttl then called.callers[d] == Returned(k, value) && called.shared == u.shared
      else !called.callers[d].Returned?
  {
    var s := After(Init(ttl), run);
    TtlStays(Init(ttl), run);
    RunKeepsEntry(Next(s, FactoryReturns(c, value)), further, s.callers[c].key);
  }

  /**
   After an invalidation of all keys or of `k`, a call returns nothing from the cache until a factory of `k`
   has returned.
   */
  lemma InvalidatedValueIsNotServed<V>(ttl: real, run: seq<Action<V>>, target: Option<Key>, k: Key,
                                       further: seq<Action<V>>, d: Caller)
    requires CanRun(Init(ttl), run) && (target == None || target == Some(k))
    requires
      var t := Next(After(Init(ttl), run), Invalidate(target));
      CanRun(t, further) && NothingStored(t, further, k) && d !in After(t, further).callers
    ensures
      var u := After(Next(After(Init(ttl), run), Invalidate(target)), further);
      !Next(u, Call(d, k)).callers[d].Returned?
  {
    RunKeepsEntry(Next(After(Init(ttl), run), Invalidate(target)), further, k);
  }

  ghost predicate SomeoneComputes<V>(s: State<V>, k: Key) {
    exists c :: Computing(s, c) && s.callers[c].key == k
  }

  /** A call that is not served from the cache joins the factory that runs for its key, or else starts one. */
  lemma MissJoinsOrStarts<V>(ttl: real, run: seq<Action<V>>, d: Caller, k: Key)
    requires CanRun(Init(ttl), run) && d !in After(Init(ttl), run).callers
    requires !Next(After(Init(ttl), run), Call(d, k)).callers[d].Returned?
    ensures
      var s := After(Init(ttl), run);
      var t := Next(s, Call(d, k));
      if SomeoneComputes(s, k) then
        exists c :: Computing(s, c) && s.callers[c].key == k && t.callers[d] == Awaiting(k, s.callers[c].fut, false) && t.shared == s.shared
      else
        t.callers[d] == InFactory(k, |s.shared.futures|) && t.shared.futures == s.shared.futures + [Future(k, d, Pending)]
  {
    RunKeepsInv(Init(ttl), run);
    var s := After(Init(ttl), run);
    if k in s.shared.inflight {
      var f := s.shared.inflight[k];
      var c := s.shared.futures[f].owner;
      assert Computing(s, c) && s.callers[c].key == k;
    }
  }

  /**
   When the factory raises, its owner raises the same, nothing is cached, and the next call for the key starts
   afresh.
   */
  lemma FailureIsNotCached<V>(ttl: real, run: seq<Action<V>>, c: Caller, exn: Exn, d: Caller)
    requires CanRun(Init(ttl), run) && Computing(After(Init(ttl), run), c)
    requires d !in After(Init(ttl), run).callers
    ensures
      var s := After(Init(ttl), run);
      var k, t := s.callers[c].key, Next(s, FactoryRaises(c, exn));
      && t.callers[c] == Raised(k, exn) && t.shared.cache == s.shared.cache
      && (Next(t, Call(d, k)).callers[d].Returned? || Next(t, Call(d, k)).callers[d] == InFactory(k, |t.shared.futures|))
  {
    RunKeepsInv(Init(ttl), run);
  }

  // ------------------------------------------------------------ who shares the factory's result

  /** The run neither resumes the waiter nor cancels it. */
  ghost predicate LeavesAlone<V>(run: seq<Action<V>>, w: Caller) {
    forall i :: 0 <= i < |run| ==> run[i] != Resume(w) && run[i] != CancelWaiter(w)
  }

  /** The waiter can resume. */
  predicate CanResume<V>(s: State<V>, w: Caller) {
    Waiting(s, w) && !s.shared.futures[s.callers[w].fut].status.Pending?
  }

  lemma StepKeepsOutcome<V>(s: State<V>, a: Action<V>, w: Caller)
    requires CanResume(s, w) && Enabled(s, a) && a != Resume(w) && a != CancelWaiter(w)
    ensures CanResume(Next(s, a), w) && Next(s, a).callers[w] == s.callers[w]
    ensures Next(s, a).shared.futures[s.callers[w].fut] == s.shared.futures[s.callers[w].fut]
  {
  }

  lemma {:induction false} RunKeepsOutcome<V>(s: State<V>, run: seq<Action<V>>, w: Caller)
    requires CanResume(s, w) && CanRun(s, run) && LeavesAlone(run, w)
    ensures CanResume(After(s, run), w) && After(s, run).callers[w] == s.callers[w]
    ensures After(s, run).shared.futures[s.callers[w].fut] == s.shared.futures[s.callers[w].fut]
    decreases |run|
  {
    if run == [] {
    } else {
      StepKeepsOutcome(s, run[0], w);
      RunKeepsOutcome(Next(s, run[0]), run[1..], w);
    }
  }

  lemma FactoryReturnsSettles<V>(s: State<V>, o: Caller, w: Caller, value: V)
    requires Inv(s) && Computing(s, o) && Waiting(s, w) && s.callers[w].fut == s.callers[o].fut
    ensures
      var t := Next(s, FactoryReturns(o, value));
      && CanResume(t, w) && t.callers[w] == s.callers[w]
      && (t.shared.futures[s.callers[w].fut].status == Result(value) <==> s.shared.futures[s.callers[o].fut].status.Pending?)
  {
  }

  /**
   Waiters receive the value of their factory exactly when no cancelled waiter has settled the future before,
   whenever they resume and whatever happens to others until then.
   */
  lemma WaiterSharesExactlyWhenPending<V>(ttl: real, run: seq<Action<V>>, o: Caller, w: Caller, value: V,
                                          further: seq<Action<V>>)
    requires CanRun(Init(ttl), run)
    requires
      var s := After(Init(ttl), run);
      && Computing(s, o) && Waiting(s, w) && s.callers[w].fut == s.callers[o].fut && !s.callers[w].cancelRequested
      && CanRun(Next(s, FactoryReturns(o, value)), further) && LeavesAlone(further, w)
    ensures
      var s := After(Init(ttl), run);
      var t := After(Next(s, FactoryReturns(o, value)), further);
      && Enabled(t, Resume(w))
      && (Next(t, Resume(w)).callers[w] == Returned(s.callers[w].key, value) <==> s.shared.futures[s.callers[o].fut].status.Pending?)
  {
    RunKeepsInv(Init(ttl), run);
    var s := After(Init(ttl), run);
    FactoryReturnsSettles(s, o, w, value);
    RunKeepsOutcome(Next(s, FactoryReturns(o, value)), further, w);
  }

  lemma FactoryRaisesSettles<V>(s: State<V>, o: Caller, w: Caller, exn: Exn)
    requires Inv(s) && Computing(s, o) && Waiting(s, w) && s.callers[w].fut == s.callers[o].fut
    ensures
      var t := Next(s, FactoryRaises(o, exn));
      && CanResume(t, w) && t.callers[w] == s.callers[w]
      && t.shared.futures[s.callers[w].fut].status
         == Failure(if s.shared.futures[s.callers[o].fut].status.Pending? then exn else Cancelled)
  {
  }

  /**
   Waiters raise what their factory raises; where a cancelled waiter has settled the future before, its
   cancellation.
   */
  lemma WaiterRaisesToo<V>(ttl: real, run: seq<Action<V>>, o: Caller, w: Caller, exn: Exn, further: seq<Action<V>>)
    requires CanRun(Init(ttl), run)
    requires
      var s := After(Init(ttl), run);
      && Computing(s, o) && Waiting(s, w) && s.callers[w].fut == s.callers[o].fut && !s.callers[w].cancelRequested
      && CanRun(Next(s, FactoryRaises(o, exn)), further) && LeavesAlone(further, w)
    ensures
      var s := After(Init(ttl), run);
      var t := After(Next(s, FactoryRaises(o, exn)), further);
      && Enabled(t, Resume(w))
      && Next(t, Resume(w)).callers[w]
         == Raised(s.callers[w].key, if s.shared.futures[s.callers[o].fut].status.Pending? then exn else Cancelled)
  {
    RunKeepsInv(Init(ttl), run);
    var s := After(Init(ttl), run);
    FactoryRaisesSettles(s, o, w, exn);
    RunKeepsOutcome(Next(s, FactoryRaises(o, exn)), further, w);
  }

  ghost predicate NoCancel<V>(run: seq<Action<V>>) {
    forall i :: 0 <= i < |run| ==> !run[i].CancelWaiter?
  }

  ghost predicate TablePending<V>(s: State<V>) {
    && (forall k :: k in s.shared.inflight ==>
          s.shared.inflight[k] < |s.shared.futures| && s.shared.futures[s.shared.inflight[k]].status.Pending?)
    && (forall c :: c in s.callers && s.callers[c].Awaiting? ==> !s.callers[c].cancelRequested)
  }

  lemma FinishKeepsTablePending<V>(s: State<V>, c: Caller, outcome: Status<V>)
    requires TableOwned(s) && OwnersRegistered(s) && TablePending(s) && Computing(s, c) && !outcome.Pending?
    ensures TablePending(Finish(s, c, outcome))
  {
  }

  lemma StepKeepsTablePending<V>(s: State<V>, a: Action<V>)
    requires TableOwned(s) && OwnersRegistered(s) && TablePending(s) && Enabled(s, a) && !a.CancelWaiter?
    ensures TablePending(Next(s, a))
  {
    match a {
      case FactoryReturns(c, value) => FinishKeepsTablePending(s, c, Result(value));
      case FactoryRaises(c, exn) => FinishKeepsTablePending(s, c, Failure(exn));
      case _ =>
    }
  }

  lemma {:induction false} NoCancelKeepsTablePending<V>(s: State<V>, run: seq<Action<V>>)
    requires Inv(s) && TablePending(s) && CanRun(s, run) && NoCancel(run)
    ensures Inv(After(s, run)) && TablePending(After(s, run))
    decreases |run|
  {
    if run == [] {
    } else {
      StepKeepsInv(s, run[0]);
      StepKeepsTablePending(s, run[0]);
      NoCancelKeepsTablePending(Next(s, run[0]), run[1..]);
    }
  }

  /**
   When nobody has cancelled a waiter before, every waiter returns what its owner's factory returns, whenever
   it resumes.
   */
  lemma UncancelledWaitersShare<V>(ttl: real, run: seq<Action<V>>, o: Caller, w: Caller, value: V,
                                   further: seq<Action<V>>)
    requires CanRun(Init(ttl), run) && NoCancel(run)
    requires
      var s := After(Init(ttl), run);
      && Computing(s, o) && Waiting(s, w) && s.callers[w].fut == s.callers[o].fut
      && CanRun(Next(s, FactoryReturns(o, value)), further) && LeavesAlone(further, w)
    ensures
      var s := After(Init(ttl), run);
      var t := After(Next(s, FactoryReturns(o, value)), further);
      Enabled(t, Resume(w)) && Next(t, Resume(w)).callers[w] == Returned(s.callers[o].key, value)
  {
    NoCancelKeepsTablePending(Init(ttl), run);
    WaiterSharesExactlyWhenPending(ttl, run, o, w, value, further);
  }

  /** The run in which one cancelled waiter takes another, never cancelled, waiter down with it. */
  const POISONED_RUN: seq<Action<int>> := [
    Call(0, "btc"), Call(1, "btc"), Call(2, "btc"), CancelWaiter(1), FactoryReturns(0, 7), Resume(2)]

  lemma CancelledWaiterPoisonsOthers(ttl: real)
    ensures CanRun(Init(ttl), POISONED_RUN)
    ensures After(Init(ttl), POISONED_RUN).callers[0] == Returned("btc", 7)
    ensures After(Init(ttl), POISONED_RUN).callers[2] == Raised("btc", Cancelled)
  {
    var s0: State<int> := Init(ttl);
    var s1 := Next(s0, Call(0, "btc"));
    var s2 := Next(s1, Call(1, "btc"));
    var s3 := Next(s2, Call(2, "btc"));
    var s4 := Next(s3, CancelWaiter(1));
    var s5 := Next(s4, FactoryReturns(0, 7));
    var r := POISONED_RUN;
    assert r[1..][1..] == r[2..] && r[2..][1..] == r[3..] && r[3..][1..] == r[4..] && r[4..][1..] == r[5..] && r[5..][1..] == [];
    assert CanRun(s5, r[5..]);
    assert CanRun(s4, r[4..]);
    assert CanRun(s3, r[3..]);
    assert CanRun(s2, r[2..]);
    assert CanRun(s1, r[1..]);
  }
}

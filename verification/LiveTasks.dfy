/**
 The refresh tasks of one user as a step system. Each write of the row, each read of it and each
 final save is one step; between two steps of a task any other task may move. What the compute
 functions and the database answer is chosen by the step.
 */
module LiveTasks {
  import opened Options
  import opened LivePayload
  import opened WalletRefresh

  type TaskId = nat

  /** The key of a task in the single-flight dictionaries (full, section and wallet tasks have one each). */
  datatype Kind = FullRefresh | SectionRefresh(section: Section) | WalletRefresh(wid: string)

  /** What a task knows when it reads the row it is about to patch; a wallet compute that raised has no result. */
  datatype Finding =
    | Failure(message: string)
    | SectionBody(computed: Computed)
    | WalletBody(result: Option<WalletResult>)

  datatype Stage = Started | Computing | Patching(existing: Option<Row>, finding: Finding) | Finished

  datatype Task = Task(kind: Kind, stage: Stage)

  datatype World = World(row: Option<Row>, tasks: map<TaskId, Task>, registry: map<Kind, TaskId>, now: int)

  datatype Action =
    | Tick
    | Trigger(t: TaskId, kind: Kind)
    | Cleanup(t: TaskId)
    | WriteStatus(t: TaskId, written: bool)
    | ReadRow(t: TaskId, finding: Finding)
    | SaveFull(t: TaskId, results: Results, rates: Option<string>, linked: Option<seq<Linked>>, written: bool)
    | SavePatch(t: TaskId, linked: Option<seq<Linked>>, written: bool)
    | Abort(t: TaskId)

  predicate Running(w: World, t: TaskId) {
    t in w.tasks && !w.tasks[t].stage.Finished?
  }

  predicate FindingFits(kind: Kind, finding: Finding) {
    match kind
    case FullRefresh => finding.Failure?
    case SectionRefresh(_) => finding.SectionBody?
    case WalletRefresh(_) => finding.WalletBody?
  }

  predicate Enabled(w: World, a: Action) {
    match a
    case Tick => true
    case Trigger(t, kind) => t !in w.tasks && !(kind in w.registry && Running(w, w.registry[kind]))
    case Cleanup(t) => t in w.tasks && w.tasks[t].stage.Finished?
    case WriteStatus(t, _) => t in w.tasks && w.tasks[t].stage.Started?
    case ReadRow(t, finding) => t in w.tasks && w.tasks[t].stage.Computing? && FindingFits(w.tasks[t].kind, finding)
    case SaveFull(t, _, _, _, _) => t in w.tasks && w.tasks[t].stage.Computing? && w.tasks[t].kind.FullRefresh?
    case SavePatch(t, _, _) => t in w.tasks && w.tasks[t].stage.Patching? && FindingFits(w.tasks[t].kind, w.tasks[t].stage.finding)
    case Abort(t) => Running(w, t)
  }

  /** What the final save of a patching task stores. */
  function PatchedRow(row: Option<Row>, kind: Kind, existing: Option<Row>, finding: Finding,
                      linked: Option<seq<Linked>>, now: int): Option<Row>
    requires FindingFits(kind, finding)
  {
    match finding
    case Failure(message) => Some(MarkedRow(row, existing, message))
    case SectionBody(computed) => Some(SectionRow(existing, kind.section, computed, linked, now))
    case WalletBody(result) =>
      if result.Some? then Some(WalletRow(existing, kind.wid, result.value, now))
      else if existing.Some? then Some(UnchangedRow(row, existing.value))
      else row
  }

  function Move(w: World, t: TaskId, stage: Stage): map<TaskId, Task>
    requires t in w.tasks
  {
    w.tasks[t := w.tasks[t].(stage := stage)]
  }

  function Next(w: World, a: Action): World
    requires Enabled(w, a)
  {
    match a
    case Tick => w.(now := w.now + 1)
    case Trigger(t, kind) => w.(tasks := w.tasks[t := Task(kind, Started)], registry := w.registry[kind := t])
    case Cleanup(t) =>
      var kind := w.tasks[t].kind;
      w.(registry := if kind in w.registry && w.registry[kind] == t then w.registry - {kind} else w.registry)
    case WriteStatus(t, written) =>
      // a full refresh gives up when its first write fails; the other two go on
      w.(row := if written then Some(SetRefreshing(w.row)) else w.row,
         tasks := Move(w, t, if !written && w.tasks[t].kind.FullRefresh? then Finished else Computing))
    case ReadRow(t, finding) =>
      // a wallet task whose compute raised returns when there is no row
      w.(tasks := Move(w, t, if finding == WalletBody(None) && w.row.None? then Finished else Patching(w.row, finding)))
    case SaveFull(t, results, rates, linked, written) =>
      w.(row := if written then Some(FullRow(w.row, results, rates, linked, w.now)) else w.row, tasks := Move(w, t, Finished))
    case SavePatch(t, linked, written) =>
      var stage := w.tasks[t].stage;
      w.(row := if written then PatchedRow(w.row, w.tasks[t].kind, stage.existing, stage.finding, linked, w.now) else w.row,
         tasks := Move(w, t, Finished))
    case Abort(t) => w.(tasks := Move(w, t, Finished))
  }

  ghost predicate CanRun(w: World, run: seq<Action>)
    decreases |run|
  {
    run == [] || (Enabled(w, run[0]) && CanRun(Next(w, run[0]), run[1..]))
  }

  ghost function After(w: World, run: seq<Action>): World
    requires CanRun(w, run)
    decreases |run|
  {
    if run == [] then w else After(Next(w, run[0]), run[1..])
  }

  // ------------------------------------------------------------ the total fits the payload

  ghost predicate Coherent(row: Option<Row>) {
    row.Some? ==> (row.value.payload == map[] && row.value.total == None) || row.value.total == Some(Total(row.value.payload))
  }

  /** The row is coherent, and so is every copy of it a suspended task holds. */
  ghost predicate AllCoherent(w: World) {
    Coherent(w.row) && forall t :: t in w.tasks && w.tasks[t].stage.Patching? ==> Coherent(w.tasks[t].stage.existing)
  }

  lemma PatchKeepsCoherent(row: Option<Row>, kind: Kind, existing: Option<Row>, finding: Finding,
                           linked: Option<seq<Linked>>, now: int)
    requires Coherent(row) && Coherent(existing) && FindingFits(kind, finding)
    ensures Coherent(PatchedRow(row, kind, existing, finding, linked, now))
  {
  }

  lemma StepKeepsCoherent(w: World, a: Action)
    requires AllCoherent(w) && Enabled(w, a)
    ensures AllCoherent(Next(w, a))
  {
    if a.SavePatch? {
      var stage := w.tasks[a.t].stage;
      PatchKeepsCoherent(w.row, w.tasks[a.t].kind, stage.existing, stage.finding, a.linked, w.now);
    }
  }

  lemma {:induction false} RunKeepsCoherent(w: World, run: seq<Action>)
    requires AllCoherent(w) && CanRun(w, run)
    ensures AllCoherent(After(w, run))
    decreases |run|
  {
    if run == [] {
    } else {
      StepKeepsCoherent(w, run[0]);
      RunKeepsCoherent(Next(w, run[0]), run[1..]);
    }
  }

  ghost predicate Idle(w: World) {
    w.tasks == map[] && w.registry == map[]
  }

  /**
   In every interleaving of refreshes, with lost updates, failed writes and aborted tasks: the row has
   an empty payload and no total, or its total is the rounded sum of all positions in its payload.
   */
  lemma TotalFitsPayload(w: World, run: seq<Action>)
    requires Idle(w) && Coherent(w.row) && CanRun(w, run)
    ensures Coherent(After(w, run).row)
  {
    RunKeepsCoherent(w, run);
  }

  // ------------------------------------------------------------ single flight

  /** A running task is the one its dictionary names. */
  ghost predicate Registered(w: World) {
    forall t :: Running(w, t) ==> w.tasks[t].kind in w.registry && w.registry[w.tasks[t].kind] == t
  }

  lemma StepKeepsRegistered(w: World, a: Action)
    requires Registered(w) && Enabled(w, a)
    ensures Registered(Next(w, a))
  {
    var next := Next(w, a);
    forall t | Running(next, t)
      ensures next.tasks[t].kind in next.registry && next.registry[next.tasks[t].kind] == t
    {
      assert !a.Trigger? || t != a.t ==> Running(w, t) && next.tasks[t].kind == w.tasks[t].kind;
    }
  }

  lemma {:induction false} RunKeepsRegistered(w: World, run: seq<Action>)
    requires Registered(w) && CanRun(w, run)
    ensures Registered(After(w, run))
    decreases |run|
  {
    if run == [] {
    } else {
      StepKeepsRegistered(w, run[0]);
      RunKeepsRegistered(Next(w, run[0]), run[1..]);
    }
  }

  /** At most one refresh of each kind runs: one full, one per section, one per wallet. */
  lemma OneTaskPerKind(w: World, run: seq<Action>, t: TaskId, u: TaskId)
    requires Idle(w) && CanRun(w, run)
    requires Running(After(w, run), t) && Running(After(w, run), u) && After(w, run).tasks[t].kind == After(w, run).tasks[u].kind
    ensures t == u
  {
    RunKeepsRegistered(w, run);
  }

  // ------------------------------------------------------------ quiescence

  /** Past its first write and before its final save. */
  predicate Working(w: World, t: TaskId) {
    t in w.tasks && (w.tasks[t].stage.Computing? || w.tasks[t].stage.Patching?)
  }

  predicate IsRefreshing(row: Option<Row>) {
    row.Some? && row.value.status == Refreshing
  }

  ghost predicate RefreshingIsCovered(w: World) {
    IsRefreshing(w.row) ==> exists t :: Working(w, t)
  }

  /** The run's final saves are written and its tasks are not aborted; first writes may fail. */
  ghost predicate FinalSavesSucceed(run: seq<Action>) {
    forall i :: 0 <= i < |run| ==>
      match run[i]
      case SaveFull(_, _, _, _, written) => written
      case SavePatch(_, _, written) => written
      case Abort(_) => false
      case _ => true
  }

  /** A wallet task that patches with no result has read a row. */
  ghost predicate PatchesHaveRows(w: World) {
    forall t :: t in w.tasks && w.tasks[t].stage.Patching? && w.tasks[t].stage.finding == WalletBody(None) ==>
      w.tasks[t].stage.existing.Some?
  }

  lemma StepKeepsPatches(w: World, a: Action)
    requires PatchesHaveRows(w) && Enabled(w, a)
    ensures PatchesHaveRows(Next(w, a))
  {
  }

  lemma StepKeepsCovered(w: World, a: Action)
    requires RefreshingIsCovered(w) && PatchesHaveRows(w) && Enabled(w, a) && FinalSavesSucceed([a])
    ensures RefreshingIsCovered(Next(w, a)) && PatchesHaveRows(Next(w, a))
  {
    assert [a][0] == a;
    StepKeepsPatches(w, a);
    var next := Next(w, a);
    if IsRefreshing(next.row) {
      if a.WriteStatus? && a.written {
        assert Working(next, a.t);
      } else {
        var t :| Working(w, t);
        assert Working(next, t);
      }
    }
  }

  lemma {:induction false} RunKeepsCovered(w: World, run: seq<Action>)
    requires RefreshingIsCovered(w) && PatchesHaveRows(w) && CanRun(w, run) && FinalSavesSucceed(run)
    ensures RefreshingIsCovered(After(w, run))
    decreases |run|
  {
    if run == [] {
    } else {
      assert FinalSavesSucceed([run[0]]) by {
        assert run[0] == [run[0]][0];
      }
      StepKeepsCovered(w, run[0]);
      RunKeepsCovered(Next(w, run[0]), run[1..]);
    }
  }

  predicate MarksRefreshing(a: Action) {
    a.WriteStatus? && a.written
  }

  /** A final save that reaches the database. */
  predicate Saves(a: Action) {
    (a.SaveFull? || a.SavePatch?) && a.written
  }

  ghost predicate NothingSaved(run: seq<Action>) {
    forall i :: 0 <= i < |run| ==> !Saves(run[i])
  }

  /** The last write of the run that has reached the database is a status write. */
  ghost predicate EndsMarked(run: seq<Action>) {
    exists i :: 0 <= i < |run| && MarksRefreshing(run[i]) && NothingSaved(run[i + 1..])
  }

  lemma StepMarksExactly(w: World, a: Action)
    requires PatchesHaveRows(w) && Enabled(w, a)
    ensures IsRefreshing(Next(w, a).row) <==> MarksRefreshing(a) || (IsRefreshing(w.row) && !Saves(a))
  {
  }

  lemma EndsMarkedFromFront(run: seq<Action>)
    requires run != []
    ensures NothingSaved(run) <==> !Saves(run[0]) && NothingSaved(run[1..])
    ensures EndsMarked(run) <==> EndsMarked(run[1..]) || (MarksRefreshing(run[0]) && NothingSaved(run[1..]))
  {
    var rest := run[1..];
    assert run == [run[0]] + rest;
    if EndsMarked(run) {
      var i :| 0 <= i < |run| && MarksRefreshing(run[i]) && NothingSaved(run[i + 1..]);
      if i > 0 {
        assert rest[i - 1] == run[i] && rest[i..] == run[i + 1..];
      }
    }
    if EndsMarked(rest) {
      var i :| 0 <= i < |rest| && MarksRefreshing(rest[i]) && NothingSaved(rest[i + 1..]);
      assert run[i + 1] == rest[i] && run[i + 2..] == rest[i + 1..];
    }
  }

  /**
   After any run, with failed writes and aborted tasks: the row is refreshing exactly when the last write
   that has reached the database is a status write, or nothing was saved over a row that was refreshing.
   */
  lemma {:induction false} RefreshingExactly(w: World, run: seq<Action>)
    requires PatchesHaveRows(w) && CanRun(w, run)
    ensures IsRefreshing(After(w, run).row) <==> EndsMarked(run) || (IsRefreshing(w.row) && NothingSaved(run))
    decreases |run|
  {
    if run == [] {
    } else {
      StepMarksExactly(w, run[0]);
      StepKeepsPatches(w, run[0]);
      RefreshingExactly(Next(w, run[0]), run[1..]);
      EndsMarkedFromFront(run);
    }
  }

  /** A run whose final saves succeed and whose tasks are all through does not end with a status write. */
  lemma CompletedRunIsNotMarked(w: World, run: seq<Action>)
    requires Idle(w) && !IsRefreshing(w.row) && CanRun(w, run) && FinalSavesSucceed(run)
    requires forall t :: !Working(After(w, run), t)
    ensures !EndsMarked(run)
  {
    RefreshingExactly(w, run);
    RunKeepsCovered(w, run);
  }

  /** Whenever no task is past its first write, the row is not left refreshing: every path ends in a final save. */
  lemma QuietRowIsNotRefreshing(w: World, run: seq<Action>)
    requires Idle(w) && !IsRefreshing(w.row)
    requires CanRun(w, run) && FinalSavesSucceed(run)
    requires forall t :: !Working(After(w, run), t)
    ensures var row := After(w, run).row; row.Some? ==> row.value.status == Ok || row.value.status == Error
  {
    CompletedRunIsNotMarked(w, run);
    RefreshingExactly(w, run);
  }

  lemma RunOfMore(w: World, a: Action, rest: seq<Action>)
    requires Enabled(w, a) && CanRun(Next(w, a), rest)
    ensures CanRun(w, [a] + rest) && After(w, [a] + rest) == After(Next(w, a), rest)
  {
    assert ([a] + rest)[1..] == rest;
  }

  lemma RunOfTwo(w: World, a: Action, b: Action)
    requires Enabled(w, a) && Enabled(Next(w, a), b)
    ensures CanRun(w, [a, b]) && After(w, [a, b]) == Next(Next(w, a), b)
  {
    RunOfMore(Next(w, a), b, []);
    RunOfMore(w, a, [b]);
    assert [b] + [] == [b] && [a] + [b] == [a, b];
  }

  lemma RunOfThree(w: World, a: Action, b: Action, c: Action)
    requires Enabled(w, a) && Enabled(Next(w, a), b) && Enabled(Next(Next(w, a), b), c)
    ensures CanRun(w, [a, b, c]) && After(w, [a, b, c]) == Next(Next(Next(w, a), b), c)
  {
    RunOfTwo(Next(w, a), b, c);
    RunOfMore(w, a, [b, c]);
    assert [a] + [b, c] == [a, b, c];
  }

  /** The condition is needed: one final save that fails leaves the row refreshing with no task running. */
  lemma FailedSaveSticks(results: Results)
    ensures
      var run := [Trigger(0, FullRefresh), WriteStatus(0, true), SaveFull(0, results, None, None, false)];
      var w := World(None, map[], map[], 0);
      && CanRun(w, run)
      && IsRefreshing(After(w, run).row)
      && forall t :: !Running(After(w, run), t)
  {
    RunOfThree(World(None, map[], map[], 0), Trigger(0, FullRefresh), WriteStatus(0, true),
               SaveFull(0, results, None, None, false));
  }
}

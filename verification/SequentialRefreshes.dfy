/**
 Refreshes that do not overlap, as runs of the step system: what is proved of their composition holds of these
 runs.
 */
module SequentialRefreshes {
  import opened Options
  import opened LivePayload
  import opened WalletRefresh
  import opened LiveTasks
  import opened StoredRows
  import S = SectionRefresh

  lemma {:induction false} RunsCompose(w: World, first: seq<Action>, second: seq<Action>)
    requires CanRun(w, first) && CanRun(After(w, first), second)
    ensures CanRun(w, first + second) && After(w, first + second) == After(After(w, first), second)
    decreases |first|
  {
    if first == [] {
      assert first + second == second;
    } else {
      RunsCompose(Next(w, first[0]), first[1..], second);
      RunOfMore(w, first[0], first[1..] + second);
      assert [first[0]] + (first[1..] + second) == first + second;
    }
  }

  /** A section or wallet refresh with nobody in between: trigger, status write, read, save. */
  function PatchSteps(t: TaskId, kind: Kind, finding: Finding, linked: Option<seq<Linked>>): seq<Action> {
    [Trigger(t, kind), WriteStatus(t, true)] + [ReadRow(t, finding), SavePatch(t, linked, true)]
  }

  /** A full refresh with nobody in between. */
  function FullSteps(t: TaskId, results: Results, rates: Option<string>, linked: Option<seq<Linked>>): seq<Action> {
    [Trigger(t, FullRefresh), WriteStatus(t, true), SaveFull(t, results, rates, linked, true)]
  }

  ghost predicate AllThrough(w: World) {
    forall t :: t in w.tasks ==> w.tasks[t].stage.Finished?
  }

  /** All tasks are through, and their numbers are below `n`. */
  ghost predicate ThroughBelow(w: World, n: nat) {
    forall t :: t in w.tasks ==> t < n && w.tasks[t].stage.Finished?
  }

  /** The world once a task has run alone and left `row`. */
  function AfterTask(w: World, t: TaskId, kind: Kind, row: Option<Row>): World {
    World(row, w.tasks[t := Task(kind, Finished)], w.registry[kind := t], w.now)
  }

  /** Triggered and marked: the task is computing, and the row says refreshing. */
  function Marked(w: World, t: TaskId, kind: Kind): World {
    World(Some(SetRefreshing(w.row)), w.tasks[t := Task(kind, Computing)], w.registry[kind := t], w.now)
  }

  lemma MarkRun(w: World, t: TaskId, kind: Kind)
    requires AllThrough(w) && t !in w.tasks
    ensures CanRun(w, [Trigger(t, kind), WriteStatus(t, true)])
    ensures After(w, [Trigger(t, kind), WriteStatus(t, true)]) == Marked(w, t, kind)
  {
    RunOfTwo(w, Trigger(t, kind), WriteStatus(t, true));
    assert w.tasks[t := Task(kind, Started)][t := Task(kind, Computing)] == w.tasks[t := Task(kind, Computing)];
  }

  lemma SaveRun(w: World, t: TaskId, kind: Kind, finding: Finding, linked: Option<seq<Linked>>)
    requires FindingFits(kind, finding)
    ensures
      var marked, run := Marked(w, t, kind), [ReadRow(t, finding), SavePatch(t, linked, true)];
      && CanRun(marked, run)
      && After(marked, run) == AfterTask(w, t, kind, PatchedRow(marked.row, kind, marked.row, finding, linked, w.now))
  {
    var marked := Marked(w, t, kind);
    RunOfTwo(marked, ReadRow(t, finding), SavePatch(t, linked, true));
    var patching := Task(kind, Patching(marked.row, finding));
    assert marked.tasks[t := patching][t := Task(kind, Finished)] == w.tasks[t := Task(kind, Finished)];
  }

  lemma PatchRun(w: World, t: TaskId, kind: Kind, finding: Finding, linked: Option<seq<Linked>>)
    requires AllThrough(w) && t !in w.tasks && FindingFits(kind, finding)
    ensures
      var run, row := PatchSteps(t, kind, finding, linked), Some(SetRefreshing(w.row));
      CanRun(w, run) && After(w, run) == AfterTask(w, t, kind, PatchedRow(row, kind, row, finding, linked, w.now))
  {
    MarkRun(w, t, kind);
    SaveRun(w, t, kind, finding, linked);
    RunsCompose(w, [Trigger(t, kind), WriteStatus(t, true)], [ReadRow(t, finding), SavePatch(t, linked, true)]);
  }

  /** What a refresh stores does not depend on the status it has written first. */
  lemma MarkIsInvisible(row: Option<Row>)
    ensures
      var marked := Some(SetRefreshing(row));
      && PayloadIn(marked) == PayloadIn(row) && IssuesIn(marked) == IssuesIn(row) && RatesIn(marked) == RatesIn(row)
      && KeptRefreshedAt(marked) == KeptRefreshedAt(row)
  {
  }

  lemma FullRowOfMarked(row: Option<Row>, results: Results, rates: Option<string>, linked: Option<seq<Linked>>,
                        now: int)
    ensures FullRow(Some(SetRefreshing(row)), results, rates, linked, now) == FullRow(row, results, rates, linked, now)
  {
    MarkIsInvisible(row);
  }

  lemma SectionRowOfMarked(row: Option<Row>, s: Section, c: Computed, linked: Option<seq<Linked>>, now: int)
    ensures SectionRow(Some(SetRefreshing(row)), s, c, linked, now) == SectionRow(row, s, c, linked, now)
  {
    MarkIsInvisible(row);
  }

  lemma WalletRowOfMarked(row: Option<Row>, wid: string, res: WalletResult, now: int)
    ensures WalletRow(Some(SetRefreshing(row)), wid, res, now) == WalletRow(row, wid, res, now)
  {
    MarkIsInvisible(row);
  }

  lemma SaveFullRun(w: World, t: TaskId, results: Results, rates: Option<string>, linked: Option<seq<Linked>>)
    ensures
      var marked, save := Marked(w, t, FullRefresh), SaveFull(t, results, rates, linked, true);
      && Enabled(marked, save)
      && Next(marked, save) == AfterTask(w, t, FullRefresh, Some(FullRow(w.row, results, rates, linked, w.now)))
  {
    FullRowOfMarked(w.row, results, rates, linked, w.now);
    var marked := Marked(w, t, FullRefresh);
    assert marked.tasks[t := Task(FullRefresh, Finished)] == w.tasks[t := Task(FullRefresh, Finished)];
  }

  /** A full refresh that runs alone stores the row of the full refresh. */
  lemma FullRun(w: World, t: TaskId, results: Results, rates: Option<string>, linked: Option<seq<Linked>>)
    requires AllThrough(w) && t !in w.tasks
    ensures
      var run := FullSteps(t, results, rates, linked);
      && CanRun(w, run) && After(w, run) == AfterTask(w, t, FullRefresh, Some(FullRow(w.row, results, rates, linked, w.now)))
      && StoresFull(After(w, run).row.value, w.row, results, rates, w.now)
  {
    FullRowStores(w.row, results, rates, linked, w.now);
    var marked, save := Marked(w, t, FullRefresh), SaveFull(t, results, rates, linked, true);
    MarkRun(w, t, FullRefresh);
    SaveFullRun(w, t, results, rates, linked);
    RunOfMore(marked, save, []);
    RunsCompose(w, [Trigger(t, FullRefresh), WriteStatus(t, true)], [save] + []);
    assert [Trigger(t, FullRefresh), WriteStatus(t, true)] + ([save] + []) == FullSteps(t, results, rates, linked);
  }

  // ------------------------------------------------------------ refreshes that fail

  /** A full refresh that times out or fails keeps what the row showed before and marks the error. */
  lemma FailedFullRun(w: World, t: TaskId, message: string)
    requires AllThrough(w) && t !in w.tasks
    ensures
      var run := PatchSteps(t, FullRefresh, Failure(message), None);
      CanRun(w, run) && After(w, run).row.Some? && StoresError(After(w, run).row.value, w.row, w.row, message)
  {
    PatchRun(w, t, FullRefresh, Failure(message), None);
    var marked := Some(SetRefreshing(w.row));
    OtherRowsStore(marked, marked, message);
  }

  /** A wallet refresh whose compute raises leaves the row as it was, at ok; a row that was not there is empty. */
  lemma FailedWalletRun(w: World, t: TaskId, wid: string)
    requires AllThrough(w) && t !in w.tasks
    ensures
      var run := PatchSteps(t, Kind.WalletRefresh(wid), WalletBody(None), None);
      CanRun(w, run) && After(w, run).row.Some? && StoresUnchanged(After(w, run).row.value, w.row, w.row)
  {
    PatchRun(w, t, Kind.WalletRefresh(wid), WalletBody(None), None);
    var marked := Some(SetRefreshing(w.row));
    OtherRowsStore(marked, marked, "");
  }

  /** Triggered, with a status write that did not reach the database. */
  function Unmarked(w: World, t: TaskId, kind: Kind, stage: Stage): World {
    World(w.row, w.tasks[t := Task(kind, stage)], w.registry[kind := t], w.now)
  }

  lemma UnmarkedRun(w: World, t: TaskId, kind: Kind)
    requires AllThrough(w) && t !in w.tasks
    ensures
      var run := [Trigger(t, kind), WriteStatus(t, false)];
      CanRun(w, run) && After(w, run) == Unmarked(w, t, kind, if kind.FullRefresh? then Finished else Computing)
  {
    RunOfTwo(w, Trigger(t, kind), WriteStatus(t, false));
    var stage := if kind.FullRefresh? then Finished else Computing;
    assert w.tasks[t := Task(kind, Started)][t := Task(kind, stage)] == w.tasks[t := Task(kind, stage)];
  }

  /** When its first write fails, a full refresh gives up and leaves the row alone. */
  lemma UnmarkedFullRun(w: World, t: TaskId)
    requires AllThrough(w) && t !in w.tasks
    ensures
      var run := [Trigger(t, FullRefresh), WriteStatus(t, false)];
      CanRun(w, run) && After(w, run).row == w.row && !Running(After(w, run), t)
  {
    UnmarkedRun(w, t, FullRefresh);
  }

  /** When its first write fails, a section refresh goes on and stores its section all the same. */
  lemma UnmarkedSectionRun(w: World, t: TaskId, s: Section, c: Computed, linked: seq<Linked>)
    requires AllThrough(w) && t !in w.tasks
    ensures
      var kind := Kind.SectionRefresh(s);
      var run := [Trigger(t, kind), WriteStatus(t, false)] + [ReadRow(t, SectionBody(c)), SavePatch(t, Some(linked), true)];
      CanRun(w, run) && After(w, run).row.Some? && StoresSection(After(w, run).row.value, w.row, s, c, w.now)
  {
    var kind := Kind.SectionRefresh(s);
    var mid := Unmarked(w, t, kind, Computing);
    UnmarkedRun(w, t, kind);
    RunOfTwo(mid, ReadRow(t, SectionBody(c)), SavePatch(t, Some(linked), true));
    RunsCompose(w, [Trigger(t, kind), WriteStatus(t, false)], [ReadRow(t, SectionBody(c)), SavePatch(t, Some(linked), true)]);
    SectionRowStores(w.row, s, c, Some(linked), w.now);
  }

  /** A wallet refresh that raises over no row at all, its first write having failed too, ends without a row. */
  lemma UnmarkedWalletRun(w: World, t: TaskId, wid: string)
    requires AllThrough(w) && t !in w.tasks && w.row.None?
    ensures
      var kind := Kind.WalletRefresh(wid);
      var run := [Trigger(t, kind), WriteStatus(t, false)] + ([ReadRow(t, WalletBody(None))] + []);
      CanRun(w, run) && After(w, run).row == None && !Running(After(w, run), t)
  {
    var kind := Kind.WalletRefresh(wid);
    var mid := Unmarked(w, t, kind, Computing);
    UnmarkedRun(w, t, kind);
    RunOfMore(mid, ReadRow(t, WalletBody(None)), []);
    RunsCompose(w, [Trigger(t, kind), WriteStatus(t, false)], [ReadRow(t, WalletBody(None))] + []);
  }

  // ------------------------------------------------------------ sections one at a time

  /** Task `i` refreshes the `i`-th section of the order. */
  function EachSteps(order: seq<Section>, results: Results, linked: seq<Linked>): seq<Action> {
    if order == [] then []
    else
      var n := |order| - 1;
      EachSteps(order[..n], results, linked)
      + PatchSteps(n, Kind.SectionRefresh(order[n]), SectionBody(results(order[n])), Some(linked))
  }

  lemma SectionRun(w: World, t: TaskId, s: Section, c: Computed, linked: seq<Linked>)
    requires ThroughBelow(w, t)
    ensures
      var run := PatchSteps(t, Kind.SectionRefresh(s), SectionBody(c), Some(linked));
      var row := Some(SectionRow(w.row, s, c, Some(linked), w.now));
      && CanRun(w, run) && After(w, run) == AfterTask(w, t, Kind.SectionRefresh(s), row)
      && StoresSection(row.value, w.row, s, c, w.now)
  {
    SectionRowStores(w.row, s, c, Some(linked), w.now);
    PatchRun(w, t, Kind.SectionRefresh(s), SectionBody(c), Some(linked));
    SectionRowOfMarked(w.row, s, c, Some(linked), w.now);
  }

  lemma WalletRun(w: World, t: TaskId, wid: string, res: WalletResult)
    requires ThroughBelow(w, t)
    ensures
      var run, row := PatchSteps(t, Kind.WalletRefresh(wid), WalletBody(Some(res)), None), Some(WalletRow(w.row, wid, res, w.now));
      && CanRun(w, run) && After(w, run) == AfterTask(w, t, Kind.WalletRefresh(wid), row)
      && StoresWallet(row.value, w.row, w.now)
  {
    WalletRowStores(w.row, wid, res, w.now);
    PatchRun(w, t, Kind.WalletRefresh(wid), WalletBody(Some(res)), None);
    WalletRowOfMarked(w.row, wid, res, w.now);
  }

  lemma ThroughOneMore(w: World, t: TaskId, kind: Kind, row: Option<Row>)
    requires ThroughBelow(w, t)
    ensures ThroughBelow(AfterTask(w, t, kind, row), t + 1)
  {
  }

  /** The refreshes one after the other are a run, and it leaves what their composition leaves. */
  lemma {:induction false} EachIsARun(w: World, order: seq<Section>, results: Results, linked: seq<Linked>)
    requires Idle(w)
    ensures
      var run := EachSteps(order, results, linked);
      && CanRun(w, run)
      && After(w, run).row == S.RefreshEach(w.row, order, results, linked, w.now)
      && After(w, run).now == w.now && ThroughBelow(After(w, run), |order|)
    decreases |order|
  {
    if order == [] {
    } else {
      var n := |order| - 1;
      var first := EachSteps(order[..n], results, linked);
      EachIsARun(w, order[..n], results, linked);
      var mid := After(w, first);
      SectionRun(mid, n, order[n], results(order[n]), linked);
      ThroughOneMore(mid, n, Kind.SectionRefresh(order[n]), Some(SectionRow(mid.row, order[n], results(order[n]), Some(linked), mid.now)));
      RunsCompose(w, first, PatchSteps(n, Kind.SectionRefresh(order[n]), SectionBody(results(order[n])), Some(linked)));
    }
  }

  /**
   From any idle world, in any order: the run that refreshes every section alone and the run of one full
   refresh end with the same payload and total, and with the same notes exactly when the full refresh
   derives none from a placeholder.
   */
  lemma SectionRunMatchesFullRun(w: World, order: seq<Section>, results: Results, rates: Option<string>,
                                 linked: seq<Linked>)
    requires Idle(w) && forall s :: s in ALL_SECTIONS ==> s in order
    ensures
      var each, full := EachSteps(order, results, linked), FullSteps(0, results, rates, Some(linked));
      && CanRun(w, each) && CanRun(w, full)
      && After(w, each).row.Some? && After(w, full).row.Some?
      && (var a, b := After(w, each).row.value, After(w, full).row.value;
          && a.payload == b.payload && a.total == b.total
          && (multiset(a.issues) == multiset(b.issues) <==> !S.PlaceholderSpeaks(results, linked)))
  {
    EachIsARun(w, order, results, linked);
    FullRun(w, 0, results, rates, Some(linked));
    S.OneByOneMatchesFull(w.row, order, results, rates, linked, w.now);
  }

  // ------------------------------------------------------------ wallets one after the other

  function TwoWalletSteps(v: string, a: WalletResult, u: string, b: WalletResult): seq<Action> {
    PatchSteps(0, Kind.WalletRefresh(v), WalletBody(Some(a)), None) + PatchSteps(1, Kind.WalletRefresh(u), WalletBody(Some(b)), None)
  }

  /** Two wallet refreshes one after the other, of one wallet or of two, are a run that leaves their composition. */
  lemma TwoWalletsAreARun(w: World, v: string, a: WalletResult, u: string, b: WalletResult)
    requires Idle(w)
    ensures
      var run := TwoWalletSteps(v, a, u, b);
      && CanRun(w, run)
      && After(w, run).row == Some(WalletRow(Some(WalletRow(w.row, v, a, w.now)), u, b, w.now))
  {
    var first := PatchSteps(0, Kind.WalletRefresh(v), WalletBody(Some(a)), None);
    var second := PatchSteps(1, Kind.WalletRefresh(u), WalletBody(Some(b)), None);
    WalletRun(w, 0, v, a);
    ThroughOneMore(w, 0, Kind.WalletRefresh(v), Some(WalletRow(w.row, v, a, w.now)));
    WalletRun(After(w, first), 1, u, b);
    RunsCompose(w, first, second);
  }

  /** The runs that refresh two wallets in either order end with the same positions, entries and total. */
  lemma WalletRunsCommute(w: World, v: string, a: WalletResult, u: string, b: WalletResult)
    requires Idle(w) && v != u && ReportsOn(a, v) && ReportsOn(b, u)
    ensures
      var vu, uv := TwoWalletSteps(v, a, u, b), TwoWalletSteps(u, b, v, a);
      && CanRun(w, vu) && CanRun(w, uv)
      && After(w, vu).row.Some? && After(w, uv).row.Some?
      && (var x, y := After(w, vu).row.value, After(w, uv).row.value;
          && multiset(WalletsIn(x.payload).positions) == multiset(WalletsIn(y.payload).positions)
          && WalletsIn(x.payload).walletErrors == WalletsIn(y.payload).walletErrors
          && (WalletsIn(x.payload).errors == WalletsIn(y.payload).errors <==> ErrorsAgree(a, b))
          && x.payload - {Wallets} == y.payload - {Wallets} && x.total == y.total)
  {
    TwoWalletsAreARun(w, v, a, u, b);
    TwoWalletsAreARun(w, u, b, v, a);
    WalletRefreshesCommute(w.row, v, a, u, b, w.now);
  }

  // ------------------------------------------------------------ refreshes that overlap

  /** The step belongs to another task, or to none. */
  predicate LeavesTask(a: Action, t: TaskId) {
    a.Tick? || a.t != t
  }

  lemma {:induction false} TaskWaits(w: World, t: TaskId, run: seq<Action>)
    requires t in w.tasks && CanRun(w, run) && forall i :: 0 <= i < |run| ==> LeavesTask(run[i], t)
    ensures t in After(w, run).tasks && After(w, run).tasks[t] == w.tasks[t]
    decreases |run|
  {
    if run == [] {
    } else {
      assert LeavesTask(run[0], t);
      TaskWaits(Next(w, run[0]), t, run[1..]);
    }
  }

  /**
   A section refresh saves over the row it has read: whatever other tasks have stored since, every other
   section and the rates go back to what they were when it read them.
   */
  lemma StaleCopyIsSaved(w: World, t: TaskId, s: Section, c: Computed, linked: Option<seq<Linked>>, middle: seq<Action>)
    requires t in w.tasks && w.tasks[t] == Task(Kind.SectionRefresh(s), Computing)
    requires CanRun(Next(w, ReadRow(t, SectionBody(c))), middle)
    requires forall i :: 0 <= i < |middle| ==> LeavesTask(middle[i], t)
    ensures
      var before := After(Next(w, ReadRow(t, SectionBody(c))), middle);
      && Enabled(before, SavePatch(t, linked, true))
      && (var row := Next(before, SavePatch(t, linked, true)).row;
          row.Some? && StoresSection(row.value, w.row, s, c, before.now))
  {
    var read := Next(w, ReadRow(t, SectionBody(c)));
    TaskWaits(read, t, middle);
    SectionRowStores(w.row, s, c, linked, After(read, middle).now);
  }
}

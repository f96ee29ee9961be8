/**
 The row and the task dictionaries, updated in place. Each method is what one task does at one of its
 database writes; the contracts say that it stores what the step system says.
 */
module LiveCacheStore {
  import opened Options
  import opened LivePayload
  import opened WalletRefresh
  import opened LiveTasks
  import opened StoredRows

  /** One body per listed section: what its compute function returned, or the placeholder. */
  function BodiesOf(names: seq<Section>, results: Results): Payload {
    if names == [] then map[]
    else
      var name := names[|names| - 1];
      BodiesOf(names[..|names| - 1], results)[name := BodyOf(name, results(name))]
  }

  lemma {:induction false} BodiesOfEach(names: seq<Section>, results: Results)
    ensures forall s :: s in BodiesOf(names, results) <==> s in names
    ensures forall s :: s in BodiesOf(names, results) ==> BodiesOf(names, results)[s] == BodyOf(s, results(s))
  {
    if names == [] {
    } else {
      BodiesOfEach(names[..|names| - 1], results);
    }
  }

  lemma AllBodies(results: Results)
    ensures BodiesOf(VALID_SECTIONS, results) == FullPayload(results)
  {
    BodiesOfEach(VALID_SECTIONS, results);
    forall s | s in ALL_SECTIONS
      ensures s in VALID_SECTIONS
    {
      assert s == VALID_SECTIONS[0] || s == VALID_SECTIONS[1] || s == VALID_SECTIONS[2]
          || s == VALID_SECTIONS[3] || s == VALID_SECTIONS[4] || s == VALID_SECTIONS[5];
    }
  }

  class LiveCache {
    var row: Option<Row>
    var tasks: map<TaskId, Task>
    var registry: map<Kind, TaskId>

    constructor (row: Option<Row>)
      ensures this.row == row && tasks == map[] && registry == map[]
    {
      this.row := row;
      tasks, registry := map[], map[];
    }

    ghost function View(now: int): World
      reads this
    {
      World(row, tasks, registry, now)
    }

    /** Starts a task unless the dictionary names one that is still running. */
    method TriggerRefresh(t: TaskId, kind: Kind, now: int) returns (started: bool)
      requires t !in tasks
      modifies this`tasks, this`registry
      ensures started == Enabled(old(View(now)), Trigger(t, kind))
      ensures View(now) == if started then Next(old(View(now)), Trigger(t, kind)) else old(View(now))
      // it starts unless the dictionary names a task that is not through, and is then the one it names
      ensures !started <==> kind in old(registry) && old(registry)[kind] in old(tasks) && !old(tasks)[old(registry)[kind]].stage.Finished?
      ensures started ==> tasks == old(tasks)[t := Task(kind, Started)] && registry == old(registry)[kind := t]
    {
      if kind in registry {
        var existing := registry[kind];
        if existing in tasks && !tasks[existing].stage.Finished? {
          return false;
        }
      }
      tasks := tasks[t := Task(kind, Started)];
      registry := registry[kind := t];
      started := true;
    }

    /** The done callback: removes the entry only if it still names this task. */
    method OnDone(t: TaskId, now: int)
      requires Enabled(View(now), Cleanup(t))
      modifies this`registry
      ensures View(now) == Next(old(View(now)), Cleanup(t))
      ensures registry == if (tasks[t].kind, t) in old(registry).Items then old(registry) - {tasks[t].kind} else old(registry)
    {
      var kind := tasks[t].kind;
      if kind in registry && registry[kind] == t {
        registry := registry - {kind};
      }
    }

    method SetStatusRefreshing()
      modifies this`row
      ensures row == Some(SetRefreshing(old(row))) && StoresMark(row.value, old(row))
    {
      if row.None? {
        row := Some(Row(map[], None, None, [], Refreshing, None, None));
      } else {
        row := Some(row.value.(status := Refreshing));
      }
    }

    method SaveResult(payload: Payload, total: Option<int>, rates: Option<string>, issues: seq<Note>,
                      status: RowStatus, error: Option<string>, updateRefreshedAt: bool, now: int)
      modifies this`row
      ensures row == Some(Row(payload, total, rates, issues, status, error,
                              if updateRefreshedAt then Some(now)
                              else if old(row).Some? then old(row).value.refreshedAt else None))
    {
      var refreshedAt := if row.Some? then row.value.refreshedAt else None;
      if updateRefreshedAt {
        refreshedAt := Some(now);
      }
      row := Some(Row(payload, total, rates, issues, status, error, refreshedAt));
    }

    method GatherSections(results: Results) returns (sections: Payload, total: int, issues: seq<Note>)
      ensures sections == FullPayload(results) && total == Total(sections) && issues == FailureNotes(VALID_SECTIONS, results)
    {
      sections, issues := map[], [];
      var names := VALID_SECTIONS;
      for i := 0 to |names|
        invariant sections == BodiesOf(names[..i], results)
        invariant issues == FailureNotes(names[..i], results)
      {
        assert names[..i + 1][..i] == names[..i];
        var name := names[i];
        if results(name).Crashed? {
          issues := issues + [FailureNote(name)];
          sections := sections[name := EmptyBody(name)];
        } else {
          sections := sections[name := results(name).body];
        }
      }
      assert names[..|names|] == VALID_SECTIONS;
      AllBodies(results);
      total := SumSectionsTotal(sections);
    }

    method SaveFullRefresh(results: Results, rates: Option<string>, linked: Option<seq<Linked>>, now: int)
      modifies this`row
      ensures row == Some(FullRow(old(row), results, rates, linked, now))
      ensures StoresFull(row.value, old(row), results, rates, now)
    {
      FullRowStores(row, results, rates, linked, now);
      var sections, total, issues := GatherSections(results);
      var allFailed := AllCrashed(results);
      if !allFailed && linked.Some? {
        var notes := DeriveSectionNotes(sections, linked.value);
        issues := issues + notes;
      }
      SaveResult(sections, Some(total), rates, issues, if allFailed then Error else Ok,
                 if allFailed then Some(ALL_FAILED) else None, !allFailed, now);
      assert FailureNotes(VALID_SECTIONS, results) + [] == FailureNotes(VALID_SECTIONS, results);
    }

    method SaveSectionRefresh(existing: Option<Row>, section: Section, computed: Computed, linked: Option<seq<Linked>>,
                              now: int)
      modifies this`row
      ensures row == Some(SectionRow(existing, section, computed, linked, now))
      ensures StoresSection(row.value, existing, section, computed, now)
    {
      SectionRowStores(existing, section, computed, linked, now);
      var payload := PayloadIn(existing)[section := BodyOf(section, computed)];
      var total := SumSectionsTotal(payload);
      var prior := NotesWhere(IssuesIn(existing), section, false);
      var sectionNotes := [];
      if computed.Crashed? {
        sectionNotes := [FailureNote(section)];
      } else if linked.Some? {
        var derived := DeriveSectionNotes(payload, linked.value);
        sectionNotes := NotesWhere(derived, section, true);
      }
      SaveResult(payload, Some(total), RatesIn(existing), prior + sectionNotes, Ok, None, true, now);
    }

    method NotesWhere(notes: seq<Note>, section: Section, own: bool) returns (found: seq<Note>)
      ensures found == if own then From(notes, section) else NotFrom(notes, section)
    {
      found := [];
      for i := 0 to |notes|
        invariant found == if own then From(notes[..i], section) else NotFrom(notes[..i], section)
      {
        assert notes[..i + 1][..i] == notes[..i];
        if (notes[i].source == section) == own {
          found := found + [notes[i]];
        }
      }
      assert notes[..|notes|] == notes;
    }

    method SaveWalletRefresh(existing: Option<Row>, wid: string, result: WalletResult, now: int)
      modifies this`row
      ensures row == Some(WalletRow(existing, wid, result, now)) && StoresWallet(row.value, existing, now)
    {
      WalletRowStores(existing, wid, result, now);
      var patched := PatchWalletsSection(WalletsIn(PayloadIn(existing)), wid, result);
      var payload := PayloadIn(existing)[Wallets := patched];
      var total := SumSectionsTotal(payload);
      SaveResult(payload, Some(total), RatesIn(existing), IssuesIn(existing), Ok, None, true, now);
    }

    method SaveUnchanged(existing: Row, now: int)
      modifies this`row
      ensures row == Some(UnchangedRow(old(row), existing)) && StoresUnchanged(row.value, old(row), Some(existing))
    {
      SaveResult(existing.payload, existing.total, existing.rates, existing.issues, Ok, None, false, now);
    }

    method MarkError(existing: Option<Row>, message: string, now: int)
      modifies this`row
      ensures row == Some(MarkedRow(old(row), existing, message)) && StoresError(row.value, old(row), existing, message)
    {
      SaveResult(PayloadIn(existing), if existing.Some? then existing.value.total else None, RatesIn(existing),
                 IssuesIn(existing), Error, Some(message), false, now);
    }
  }
}

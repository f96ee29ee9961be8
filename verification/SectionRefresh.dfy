/** Refreshing the sections one at a time against refreshing them all at once. */
module SectionRefresh {
  import opened Options
  import opened LivePayload

  /** Section refreshes that do not overlap: each reads the row the one before has stored. */
  ghost function RefreshEach(row: Option<Row>, order: seq<Section>, results: Results, linked: seq<Linked>,
                             now: int): Option<Row>
  {
    if order == [] then row
    else
      var before := RefreshEach(row, order[..|order| - 1], results, linked, now);
      var s := order[|order| - 1];
      Some(SectionRow(before, s, results(s), Some(linked), now))
  }

  // ------------------------------------------------------------ notes by source

  lemma {:induction false} FromOfBoth(a: seq<Note>, b: seq<Note>, s: Section)
    ensures From(a + b, s) == From(a, s) + From(b, s)
    decreases |b|
  {
    if b == [] {
      assert a + b == a;
    } else {
      assert (a + b)[..|a + b| - 1] == a + b[..|b| - 1];
      FromOfBoth(a, b[..|b| - 1], s);
    }
  }

  lemma {:induction false} FromOwn(notes: seq<Note>, owner: Section, s: Section)
    requires forall i :: 0 <= i < |notes| ==> notes[i].source == owner
    ensures From(notes, s) == if s == owner then notes else []
  {
    if notes == [] {
    } else {
      FromOwn(notes[..|notes| - 1], owner, s);
    }
  }

  lemma {:induction false} FromNotFrom(notes: seq<Note>, s: Section, t: Section)
    ensures From(NotFrom(notes, s), t) == if s == t then [] else From(notes, t)
  {
    if notes == [] {
    } else {
      var n := notes[|notes| - 1];
      FromNotFrom(notes[..|notes| - 1], s, t);
      FromOfBoth(NotFrom(notes[..|notes| - 1], s), if n.source != s then [n] else [], t);
      assert From([n], t) == if n.source == t then [n] else [] by {
        assert [n][..0] == [];
      }
    }
  }

  lemma {:induction false} FromCounts(notes: seq<Note>, s: Section, x: Note)
    ensures multiset(From(notes, s))[x] == if x.source == s then multiset(notes)[x] else 0
  {
    if notes == [] {
    } else {
      FromCounts(notes[..|notes| - 1], s, x);
      assert notes == notes[..|notes| - 1] + [notes[|notes| - 1]];
    }
  }

  lemma SameNotesSameSources(a: seq<Note>, b: seq<Note>, s: Section)
    requires multiset(a) == multiset(b)
    ensures |From(a, s)| == |From(b, s)|
  {
    forall x
      ensures multiset(From(a, s))[x] == multiset(From(b, s))[x]
    {
      FromCounts(a, s, x);
      FromCounts(b, s, x);
    }
    assert multiset(From(a, s)) == multiset(From(b, s));
    assert |multiset(From(a, s))| == |From(a, s)|;
  }

  lemma SameSourcesSameNotes(a: seq<Note>, b: seq<Note>)
    requires forall s :: From(a, s) == From(b, s)
    ensures multiset(a) == multiset(b)
  {
    forall x
      ensures multiset(a)[x] == multiset(b)[x]
    {
      FromCounts(a, x.source, x);
      FromCounts(b, x.source, x);
    }
  }

  lemma {:induction false} TefasNotesOwn(ps: seq<Position>)
    ensures forall i :: 0 <= i < |TefasNotes(ps)| ==> TefasNotes(ps)[i].source == Tefas
  {
    if ps == [] {
    } else {
      TefasNotesOwn(ps[..|ps| - 1]);
    }
  }

  lemma {:induction false} StockNotesOwn(ps: seq<Position>)
    ensures forall i :: 0 <= i < |StockNotes(ps)| ==> StockNotes(ps)[i].source == Stocks
  {
    if ps == [] {
    } else {
      StockNotesOwn(ps[..|ps| - 1]);
    }
  }

  /** The notes a section's own data gives rise to. */
  function NotesOf(p: Payload, linked: seq<Linked>, s: Section): seq<Note> {
    match s
    case Wallets => []
    case Crypto => []
    case Tefas => TefasNotes(Positions(p, Tefas))
    case Stocks => StockNotes(Positions(p, Stocks))
    case Commodities => CommodityNotes(p)
    case ManualCrypto => ManualNotes(linked, Positions(p, ManualCrypto))
  }

  lemma FromOfParts(a: seq<Note>, b: seq<Note>, c: seq<Note>, d: seq<Note>, s: Section)
    ensures From(a + b + c + d, s) == From(a, s) + From(b, s) + From(c, s) + From(d, s)
  {
    FromOfBoth(a + b + c, d, s);
    FromOfBoth(a + b, c, s);
    FromOfBoth(a, b, s);
  }

  lemma FromOfFour(a: seq<Note>, b: seq<Note>, c: seq<Note>, d: seq<Note>, s: Section)
    requires forall i :: 0 <= i < |a| ==> a[i].source == Tefas
    requires forall i :: 0 <= i < |b| ==> b[i].source == Stocks
    requires forall i :: 0 <= i < |c| ==> c[i].source == Commodities
    requires forall i :: 0 <= i < |d| ==> d[i].source == ManualCrypto
    ensures From(a + b + c + d, s) ==
      match s
      case Tefas => a
      case Stocks => b
      case Commodities => c
      case ManualCrypto => d
      case _ => []
  {
    FromOfParts(a, b, c, d, s);
    FromOwn(a, Tefas, s);
    FromOwn(b, Stocks, s);
    FromOwn(c, Commodities, s);
    FromOwn(d, ManualCrypto, s);
  }

  /** Notes are local: those from `s` are derived from section `s` alone. */
  lemma DerivedNotesAreLocal(p: Payload, linked: seq<Linked>, s: Section)
    ensures From(DeriveNotes(p, linked), s) == NotesOf(p, linked, s)
  {
    TefasNotesOwn(Positions(p, Tefas));
    StockNotesOwn(Positions(p, Stocks));
    FromOfFour(TefasNotes(Positions(p, Tefas)), StockNotes(Positions(p, Stocks)), CommodityNotes(p),
               ManualNotes(linked, Positions(p, ManualCrypto)), s);
  }

  lemma NotesOfDependsOnSection(p: Payload, q: Payload, linked: seq<Linked>, s: Section)
    requires s in p && s in q && p[s] == q[s]
    ensures NotesOf(p, linked, s) == NotesOf(q, linked, s)
  {
  }

  function SectionNotes(results: Results, linked: seq<Linked>, s: Section): seq<Note> {
    if results(s).Crashed? then [FailureNote(s)] else NotesOf(FullPayload(results), linked, s)
  }

  // ------------------------------------------------------------ one section at a time

  /** A section refresh replaces its own body and notes and leaves the other five sections and their notes alone. */
  lemma SectionRefreshFrames(existing: Option<Row>, s: Section, c: Computed, linked: seq<Linked>, now: int, t: Section)
    ensures
      var row := SectionRow(existing, s, c, Some(linked), now);
      && row.payload == PayloadIn(existing)[s := BodyOf(s, c)] && row.total == Some(Total(row.payload))
      && From(row.issues, t) == (if t != s then From(IssuesIn(existing), t)
                                 else if c.Crashed? then [FailureNote(s)] else NotesOf(row.payload, linked, s))
  {
    var payload := PayloadIn(existing)[s := BodyOf(s, c)];
    var own := if c.Crashed? then [FailureNote(s)] else NotesOf(payload, linked, s);
    DerivedNotesAreLocal(payload, linked, s);
    NotesOfOwn(payload, linked, s);
    OwnNotesReplaced(IssuesIn(existing), own, s, t);
    assert SectionRow(existing, s, c, Some(linked), now).issues == NotFrom(IssuesIn(existing), s) + own;
  }

  lemma OwnNotesReplaced(issues: seq<Note>, own: seq<Note>, s: Section, t: Section)
    requires forall i :: 0 <= i < |own| ==> own[i].source == s
    ensures From(NotFrom(issues, s) + own, t) == if t == s then own else From(issues, t)
  {
    FromNotFrom(issues, s, t);
    FromOfBoth(NotFrom(issues, s), own, t);
    FromOwn(own, s, t);
  }

  lemma NotesOfOwn(p: Payload, linked: seq<Linked>, s: Section)
    ensures forall i :: 0 <= i < |NotesOf(p, linked, s)| ==> NotesOf(p, linked, s)[i].source == s
  {
    TefasNotesOwn(Positions(p, Tefas));
    StockNotesOwn(Positions(p, Stocks));
  }

  /** Section `s` is stored with its result, its notes and a total that fits. */
  ghost predicate Settled(row: Option<Row>, results: Results, linked: seq<Linked>, s: Section) {
    && row.Some? && s in row.value.payload && row.value.payload[s] == BodyOf(s, results(s))
    && From(row.value.issues, s) == SectionNotes(results, linked, s)
    && row.value.total == Some(Total(row.value.payload))
  }

  lemma SectionRefreshSettles(before: Option<Row>, last: Section, results: Results, linked: seq<Linked>, now: int,
                              s: Section)
    requires last == s || Settled(before, results, linked, s)
    ensures Settled(Some(SectionRow(before, last, results(last), Some(linked), now)), results, linked, s)
  {
    SectionRefreshFrames(before, last, results(last), linked, now, s);
    var row := SectionRow(before, last, results(last), Some(linked), now);
    if last == s {
      NotesOfDependsOnSection(row.payload, FullPayload(results), linked, s);
    }
  }

  lemma {:induction false} EachSectionSettles(row: Option<Row>, order: seq<Section>, results: Results,
                                              linked: seq<Linked>, now: int, s: Section)
    requires s in order
    ensures Settled(RefreshEach(row, order, results, linked, now), results, linked, s)
    decreases |order|
  {
    var n := |order| - 1;
    if order[n] != s {
      EachSectionSettles(row, order[..n], results, linked, now, s);
    }
    SectionRefreshSettles(RefreshEach(row, order[..n], results, linked, now), order[n], results, linked, now, s);
  }

  // ------------------------------------------------------------ all at once

  lemma LastFailure(order: seq<Section>, results: Results, s: Section)
    requires order != []
    ensures
      var init, last := order[..|order| - 1], order[|order| - 1];
      From(FailureNotes(order, results), s) == From(FailureNotes(init, results), s) + (if s == last then FailureOf(s, results) else [])
  {
    var init, last := order[..|order| - 1], order[|order| - 1];
    FromOfBoth(FailureNotes(init, results), FailureOf(last, results), s);
    FromOwn(FailureOf(last, results), last, s);
  }

  lemma {:induction false} FailureNotesBySource(order: seq<Section>, results: Results, s: Section)
    requires forall i, j :: 0 <= i < j < |order| ==> order[i] != order[j]
    ensures From(FailureNotes(order, results), s) == if s in order then FailureOf(s, results) else []
    decreases |order|
  {
    if order == [] {
    } else {
      var init, last := order[..|order| - 1], order[|order| - 1];
      FailureNotesBySource(init, results, s);
      LastFailure(order, results, s);
      assert last !in init && (s in order <==> s in init || s == last);
    }
  }

  lemma ListedOnce(s: Section)
    ensures s in VALID_SECTIONS && forall i, j :: 0 <= i < j < |VALID_SECTIONS| ==> VALID_SECTIONS[i] != VALID_SECTIONS[j]
  {
  }

  lemma FullNotesBySource(results: Results, linked: seq<Linked>, s: Section)
    ensures From(FullIssues(results, Some(linked)), s)
         == FailureOf(s, results) + (if AllCrashed(results) then [] else NotesOf(FullPayload(results), linked, s))
  {
    ListedOnce(s);
    FailuresAndDerived(VALID_SECTIONS, results, linked, s);
  }

  lemma FailuresAndDerived(order: seq<Section>, results: Results, linked: seq<Linked>, s: Section)
    requires s in order && forall i, j :: 0 <= i < j < |order| ==> order[i] != order[j]
    ensures From(FailureNotes(order, results) + [], s) == FailureOf(s, results)
    ensures From(FailureNotes(order, results) + DeriveNotes(FullPayload(results), linked), s)
         == FailureOf(s, results) + NotesOf(FullPayload(results), linked, s)
  {
    FailureNotesBySource(order, results, s);
    DerivedNotesAreLocal(FullPayload(results), linked, s);
    FromOfBoth(FailureNotes(order, results), DeriveNotes(FullPayload(results), linked), s);
    assert FailureNotes(order, results) + [] == FailureNotes(order, results);
  }

  /** The full refresh derives notes from the placeholder of a crashed section. */
  predicate PlaceholderSpeaks(results: Results, linked: seq<Linked>) {
    !AllCrashed(results) && (results(Commodities).Crashed? || (results(ManualCrypto).Crashed? && linked != []))
  }

  lemma NotesOfPlaceholder(results: Results, linked: seq<Linked>, s: Section)
    requires results(s).Crashed?
    ensures NotesOf(FullPayload(results), linked, s) == [] <==> s != Commodities && (s == ManualCrypto ==> linked == [])
  {
    assert FullPayload(results)[s] == EmptyBody(s);
  }

  lemma NotesDiffer(results: Results, linked: seq<Linked>, s: Section)
    ensures
      var full := From(FullIssues(results, Some(linked)), s);
      var each := SectionNotes(results, linked, s);
      if results(s).Crashed? && !AllCrashed(results) && (s == Commodities || (s == ManualCrypto && linked != []))
      then |full| > |each| else full == each
  {
    FullNotesBySource(results, linked, s);
    if results(s).Crashed? {
      NotesOfPlaceholder(results, linked, s);
    }
  }

  /**
   Whatever the order, and with repeats: refreshing every section one at a time stores the payload and
   the total of one full refresh. The notes agree exactly when the full refresh derives none from a
   placeholder: no crashed commodities section, and no crashed manual section with linked holdings,
   unless everything has crashed.
   */
  lemma OneByOneMatchesFull(row: Option<Row>, order: seq<Section>, results: Results, rates: Option<string>,
                            linked: seq<Linked>, now: int)
    requires forall s :: s in ALL_SECTIONS ==> s in order
    ensures
      var after := RefreshEach(row, order, results, linked, now);
      var full := FullRow(row, results, rates, Some(linked), now);
      && after.Some? && after.value.payload == full.payload && after.value.total == full.total
      && (multiset(after.value.issues) == multiset(full.issues) <==> !PlaceholderSpeaks(results, linked))
  {
    var after := RefreshEach(row, order, results, linked, now);
    EverySectionSettles(row, order, results, linked, now, after);
    AllSettled(after, results, linked);
  }

  /** With only the commodities crashed: payload and total agree, and the notes do not. */
  lemma CrashedCommoditiesTellThemApart(now: int)
    ensures
      var results: Results := s => if s == Commodities then Crashed else Done(EmptyBody(s));
      var after, full := RefreshEach(None, VALID_SECTIONS, results, [], now), FullRow(None, results, None, Some([]), now);
      && after.Some? && after.value.payload == full.payload && after.value.total == full.total
      && multiset(after.value.issues) != multiset(full.issues)
  {
    var results: Results := s => if s == Commodities then Crashed else Done(EmptyBody(s));
    forall s | s in ALL_SECTIONS
      ensures s in VALID_SECTIONS
    {
      ListedOnce(s);
    }
    assert results(Wallets).Done? && results(Commodities).Crashed?;
    OneByOneMatchesFull(None, VALID_SECTIONS, results, None, [], now);
  }

  lemma EverySectionSettles(row: Option<Row>, order: seq<Section>, results: Results, linked: seq<Linked>, now: int,
                            after: Option<Row>)
    requires forall s :: s in ALL_SECTIONS ==> s in order
    requires after == RefreshEach(row, order, results, linked, now)
    ensures forall s :: Settled(after, results, linked, s)
  {
    forall s
      ensures Settled(after, results, linked, s)
    {
      EverySectionListed(s);
      EachSectionSettles(row, order, results, linked, now, s);
    }
  }

  lemma EverySectionListed(s: Section)
    ensures s in ALL_SECTIONS
  {
    match s {
      case _ =>
    }
  }

  lemma AllSettled(after: Option<Row>, results: Results, linked: seq<Linked>)
    requires forall s :: Settled(after, results, linked, s)
    ensures after.Some? && after.value.payload == FullPayload(results) && after.value.total == Some(Total(FullPayload(results)))
    ensures multiset(after.value.issues) == multiset(FullIssues(results, Some(linked))) <==> !PlaceholderSpeaks(results, linked)
  {
    assert Settled(after, results, linked, Wallets);
    forall s
      ensures s in after.value.payload && s in FullPayload(results) && after.value.payload[s] == FullPayload(results)[s]
      ensures From(after.value.issues, s) == SectionNotes(results, linked, s)
    {
      EverySectionListed(s);
      assert Settled(after, results, linked, s);
    }
    assert after.value.payload == FullPayload(results);
    NotesAgreeExactly(after.value.issues, results, linked);
  }

  lemma NotesAgreeExactly(issues: seq<Note>, results: Results, linked: seq<Linked>)
    requires forall s :: From(issues, s) == SectionNotes(results, linked, s)
    ensures multiset(issues) == multiset(FullIssues(results, Some(linked))) <==> !PlaceholderSpeaks(results, linked)
  {
    var full := FullIssues(results, Some(linked));
    if PlaceholderSpeaks(results, linked) {
      var s := if results(Commodities).Crashed? then Commodities else ManualCrypto;
      NotesDiffer(results, linked, s);
      if multiset(issues) == multiset(full) {
        SameNotesSameSources(issues, full, s);
      }
    } else {
      forall s
        ensures From(issues, s) == From(full, s)
      {
        NotesDiffer(results, linked, s);
      }
      SameSourcesSameNotes(issues, full);
    }
  }
}

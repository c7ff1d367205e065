/** Boot of the notes page: the saved author filter arrives late and is assigned without starting a new
    generation.  Exactly when this lets an answer for another filter, or its notes, survive. */
module NotesBoot {
  import opened NotesStore
  import opened NotesFeed
  import opened Wrappers

  // ---------------------------------------------------------------------------
  // Honest runs and what they should keep
  // ---------------------------------------------------------------------------

  predicate Fits(n: Note, authors: seq<string>) {
    authors == [] || n.user in authors
  }

  predicate AllFit(notes: seq<Note>, authors: seq<string>) {
    forall n | n in notes :: Fits(n, authors)
  }

  /** The server answers with notes of the authors it was asked for, and posts come back as one's own. */
  predicate Honest(p: Page, e: Event, me: string)
    requires Enabled(p, e)
  {
    match e
    case PollAnswered(i, fetched, _) => AllFit(fetched, p.polls[i].authors)
    case OlderAnswered(j, notes) => AllFit(notes, p.older[j].authors)
    case Posted(n) => n.user == me
    case _ => true
  }

  ghost predicate HonestRun(p: Page, es: seq<Event>, me: string): (r: bool)
    ensures r ==> Possible(p, es, me)
    decreases |es|
  {
    es == [] || (Enabled(p, es[0]) && Honest(p, es[0], me) && HonestRun(Step(p, es[0], me), es[1..], me))
  }

  predicate HeldFits(h: Held, authors: seq<string>, me: string) {
    && (forall id | id in h.shown :: Fits(h.shown[id], authors) || h.shown[id].user == me)
    && (forall id | id in h.waiting :: Fits(h.waiting[id], authors) || h.waiting[id].user == me)
  }

  /** Along the run every answer that changes what is held was asked for the selected authors, and only
      their notes and one's own are ever held. */
  ghost predicate Faithful(p: Page, es: seq<Event>, me: string)
    requires Possible(p, es, me)
    decreases |es|
  {
    && HeldFits(p.held, p.selected, me)
    && (es == [] || (Loyal(p, es[0], me) && Faithful(Step(p, es[0], me), es[1..], me)))
  }

  lemma {:induction false} MergeFits(h: Held, notes: seq<Note>, defer: bool, authors: seq<string>, me: string)
    requires HeldFits(h, authors, me) && AllFit(notes, authors)
    ensures HeldFits(Merge(h, notes, defer, me), authors, me)
  {
    hide Fits;
    if notes != [] {
      MergeFits(h, notes[..|notes| - 1], defer, authors, me);
      assert notes[|notes| - 1] in notes;
    }
  }

  lemma {:induction false} AddMissingFits(m: map<nat, Note>, notes: seq<Note>, authors: seq<string>, me: string)
    requires HeldFits(Held(m, map[]), authors, me) && AllFit(notes, authors)
    ensures HeldFits(Held(AddMissing(m, notes), map[]), authors, me)
  {
    hide Fits;
    if notes != [] {
      AddMissingFits(m, notes[..|notes| - 1], authors, me);
      assert notes[|notes| - 1] in notes;
    }
  }

  lemma AnswerFits(p: Page, i: nat, fetched: seq<Note>, scrolled: bool, me: string)
    requires i < |p.polls| && HeldFits(p.held, p.selected, me)
    requires p.polls[i].gen == p.gen ==> AllFit(fetched, p.selected)
    ensures var q := OnAnswer(p, i, fetched, scrolled, me); HeldFits(q.held, q.selected, me)
  {
    hide Merge, Fits, Finish;
    if p.polls[i].gen != p.gen {
      FinishLeavesCursor(p, i);
    } else {
      var kept := Held(Kept(p.held.shown, fetched), Kept(p.held.waiting, fetched));
      MergeFits(kept, fetched, scrolled && p.initialLoaded, p.selected, me);
      FinishLeavesCursor(LandAnswer(p, fetched, scrolled, me), i);
    }
  }

  lemma OlderAnswerFits(p: Page, j: nat, notes: seq<Note>, me: string)
    requires j < |p.older| && HeldFits(p.held, p.selected, me)
    requires p.older[j].gen == p.gen ==> AllFit(notes, p.selected)
    ensures var q := OnOlder(p, j, notes); HeldFits(q.held, q.selected, me)
  {
    hide AddMissing, Fits;
    if p.older[j].gen == p.gen { AddMissingFits(p.held.shown, notes, p.selected, me); }
  }

  lemma SelectionFits(p: Page, authors: seq<string>, me: string)
    requires HeldFits(p.held, p.selected, me)
    ensures var q := ApplySelection(p, authors); HeldFits(q.held, q.selected, me)
  {
    hide PollOnce, Fits;
    PollingOnlyDrives(Cleared(p.(selected := authors)));
  }

  lemma HonestStepFits(p: Page, e: Event, me: string)
    requires Driven(p) && Tagged(p) && HeldFits(p.held, p.selected, me)
    requires Enabled(p, e) && Honest(p, e, me) && !e.SavedFilter?
    ensures var q := Step(p, e, me); HeldFits(q.held, q.selected, me)
  {
    hide Fits, AllFit, OnAnswer, OnFailure, OnOlder, ApplySelection, Driven, PollOnce, OnVisibility;
    match e
    case FirstPoll => StartingOnlyDrives(p, e, me);
    case TimerFired => StartingOnlyDrives(p, e, me);
    case VisibilityChanged(_) => StartingOnlyDrives(p, e, me);
    case PollAnswered(i, fetched, scrolled) =>
      assert p.polls[i] in p.polls;
      AnswerFits(p, i, fetched, scrolled, me);
    case PollFailed(i, u) => FailureOnlyDrives(p, i, u);
    case OlderAnswered(j, notes) =>
      assert p.older[j] in p.older;
      OlderAnswerFits(p, j, notes, me);
    case Select(authors) => SelectionFits(p, authors, me);
    case _ =>
  }

  lemma {:induction false} HonestIsFaithful(p: Page, es: seq<Event>, me: string)
    requires Driven(p) && Tagged(p) && HeldFits(p.held, p.selected, me) && HonestRun(p, es, me) && NoSaved(es)
    ensures Faithful(p, es, me)
    ensures var q := Run(p, es, me); Driven(q) && Tagged(q) && HeldFits(q.held, q.selected, me)
    decreases |es|
  {
    hide HeldFits, Loyal, Driven, Tagged, Honest, Step, Enabled;
    if es != [] {
      assert es[0] in es && forall e | e in es[1..] :: e in es;
      TaggedIsLoyal(p, es[0], me);
      StepKeepsDriven(p, es[0], me);
      HonestStepFits(p, es[0], me);
      HonestIsFaithful(Step(p, es[0], me), es[1..], me);
    }
  }

  // ---------------------------------------------------------------------------
  // The assignment of the saved filter
  // ---------------------------------------------------------------------------

  /** Nothing in the air will be taken for an answer to the saved filter unless it was asked for it, and
      nothing held is foreign to it. */
  ghost predicate Harmless(p: Page, saved: seq<string>, me: string) {
    Tagged(p.(selected := saved)) && HeldFits(p.held, saved, me)
  }

  function FreshId(h: Held): NoteId {
    if HeldIds(h) == {} then 1 else Newest(HeldIds(h)) + 1
  }

  function SomeAuthor(authors: seq<string>): string {
    if authors == [] then "" else authors[0]
  }

  lemma FreshNoteFits(h: Held, authors: seq<string>)
    ensures var n := Note(FreshId(h), SomeAuthor(authors)); n.id !in HeldIds(h) && AllFit([n], authors)
  {
  }

  // An answer for another filter brings a note the page does not hold yet.
  lemma ForeignPollLands(p: Page, i: nat, me: string)
    requires i < |p.polls| && p.polls[i].gen == p.gen && p.polls[i].authors != p.selected
    ensures var n := Note(FreshId(p.held), SomeAuthor(p.polls[i].authors));
            var e := PollAnswered(i, [n], false);
            HonestRun(p, [e], me) && NoSaved([e]) && !Loyal(p, e, me)
  {
    var n := Note(FreshId(p.held), SomeAuthor(p.polls[i].authors));
    FreshNoteFits(p.held, p.polls[i].authors);
    hide Finish, Merge;
    WindowIsExactlyTheAnswer(p.held, [n], false, me, n.id);
    assert n.id in Ids([n]) by { assert Ids([n])[0] == n.id; }
    FinishLeavesCursor(LandAnswer(p, [n], false, me), i);
    assert HonestRun(Step(p, PollAnswered(i, [n], false), me), [], me);
  }

  lemma ForeignOlderLands(p: Page, j: nat, me: string)
    requires j < |p.older| && p.older[j].gen == p.gen && p.older[j].authors != p.selected
    ensures var n := Note(FreshId(p.held), SomeAuthor(p.older[j].authors));
            var e := OlderAnswered(j, [n]);
            HonestRun(p, [e], me) && NoSaved([e]) && !Loyal(p, e, me)
  {
    var n := Note(FreshId(p.held), SomeAuthor(p.older[j].authors));
    FreshNoteFits(p.held, p.older[j].authors);
    OlderPageAddsItsIds(p.held.shown, [n], n.id);
    assert n.id in Ids([n]) by { assert Ids([n])[0] == n.id; }
    hide AddMissing;
    assert HonestRun(Step(p, OlderAnswered(j, [n]), me), [], me);
  }

  lemma HarmfulShows(p: Page, saved: seq<string>, me: string)
    requires Driven(p) && !Harmless(p, saved, me)
    ensures var b := Step(p, SavedFilter(saved), me);
            exists after | HonestRun(b, after, me) && NoSaved(after) :: !Faithful(b, after, me)
  {
    var b := Step(p, SavedFilter(saved), me);
    if !HeldFits(p.held, saved, me) {
      assert HonestRun(b, [], me) && NoSaved([]) && !Faithful(b, [], me);
    } else if r :| r in b.polls && r.gen == b.gen && r.authors != saved {
      var i :| 0 <= i < |b.polls| && b.polls[i] == r;
      ForeignPollLands(b, i, me);
      var e := PollAnswered(i, [Note(FreshId(b.held), SomeAuthor(b.polls[i].authors))], false);
      assert !Faithful(b, [e], me);
    } else {
      var r :| r in b.older && r.gen == b.gen && r.authors != saved;
      var j :| 0 <= j < |b.older| && b.older[j] == r;
      ForeignOlderLands(b, j, me);
      var e := OlderAnswered(j, [Note(FreshId(b.held), SomeAuthor(b.older[j].authors))]);
      assert !Faithful(b, [e], me);
    }
  }

  /** From page load on: whatever happens after boot assigns the saved filter, every answer that changes what
      is held was asked for the selected authors and only their notes and one's own are held, if and only if
      at the assignment nothing current in the air was asked for other authors and nothing held is foreign. */
  lemma BootKeepsFilterIff(visible: bool, before: seq<Event>, saved: seq<string>, me: string)
    requires HonestRun(Loaded(visible), before, me)
    ensures var p := Run(Loaded(visible), before, me);
            var b := Step(p, SavedFilter(saved), me);
            (forall after | HonestRun(b, after, me) && NoSaved(after) :: Faithful(b, after, me))
            <==> Harmless(p, saved, me)
  {
    RunKeepsDriven(Loaded(visible), before, me);
    var p := Run(Loaded(visible), before, me);
    var b := Step(p, SavedFilter(saved), me);
    if Harmless(p, saved, me) {
      forall after | HonestRun(b, after, me) && NoSaved(after) ensures Faithful(b, after, me) {
        HonestIsFaithful(b, after, me);
      }
    } else {
      HarmfulShows(p, saved, me);
    }
  }

  // ---------------------------------------------------------------------------
  // When the assignment is harmless
  // ---------------------------------------------------------------------------

  predicate StartsPoll(e: Event) {
    e.FirstPoll? || e == VisibilityChanged(true) || e.Select?
  }

  // Nothing was ever asked, so only one's own posts are held.
  ghost predicate NeverAsked(p: Page, me: string) {
    && p.polls == [] && p.older == [] && p.timer == None && !p.offered
    && (forall id | id in p.held.shown :: p.held.shown[id].user == me) && p.held.waiting == map[]
  }

  lemma NeverAskedStep(p: Page, e: Event, me: string)
    requires NeverAsked(p, me) && Enabled(p, e) && Honest(p, e, me) && !StartsPoll(e)
    ensures NeverAsked(Step(p, e, me), me)
  {
    hide Fits, AllFit, OnAnswer, OnFailure, OnOlder, OnOlderFailed, ClickOlder, ApplySelection, PollOnce;
  }

  lemma {:induction false} NothingAskedYet(p: Page, es: seq<Event>, me: string)
    requires NeverAsked(p, me) && HonestRun(p, es, me) && forall e | e in es :: !StartsPoll(e)
    ensures NeverAsked(Run(p, es, me), me)
    decreases |es|
  {
    if es != [] {
      assert es[0] in es && forall e | e in es[1..] :: e in es;
      NeverAskedStep(p, es[0], me);
      hide Step, Enabled, Honest, NeverAsked;
      NothingAskedYet(Step(p, es[0], me), es[1..], me);
    }
  }

  /** It is harmless if no poll was started before, or if the saved filter is the one in use already; and it
      is not if a poll of the filter in use is in the air and the saved one differs. */
  lemma HarmlessUnlessPolledBefore(visible: bool, before: seq<Event>, saved: seq<string>, me: string)
    requires HonestRun(Loaded(visible), before, me) && NoSaved(before)
    ensures var p := Run(Loaded(visible), before, me);
            && ((forall e | e in before :: !StartsPoll(e)) || saved == p.selected ==> Harmless(p, saved, me))
            && (saved != p.selected && (exists r :: r in p.polls && r.gen == p.gen) ==> !Harmless(p, saved, me))
  {
    HonestIsFaithful(Loaded(visible), before, me);
    if forall e | e in before :: !StartsPoll(e) {
      NothingAskedYet(Loaded(visible), before, me);
    }
  }

  lemma ThenRun(p: Page, e: Event, es: seq<Event>, me: string)
    requires Enabled(p, e) && Honest(p, e, me) && HonestRun(Step(p, e, me), es, me)
    ensures HonestRun(p, [e] + es, me) && Run(p, [e] + es, me) == Run(Step(p, e, me), es, me)
  {
    assert ([e] + es)[1..] == es;
  }

  // One poll is in the air and current, and its answer is a single note.
  lemma OneNoteLands(p: Page, n: Note, me: string)
    requires Driven(p) && |p.polls| == 1 && p.polls[0].gen == p.gen && Fits(n, p.polls[0].authors) && p.visible
    requires n.id !in HeldIds(p.held)
    ensures var e := PollAnswered(0, [n], false);
            && Enabled(p, e) && Honest(p, e, me)
            && var q := Step(p, e, me);
            && Driven(q) && n.id in q.held.shown && q.selected == p.selected && q.gen == p.gen && q.polls == []
            && q.visible && q.timer.Some?
            && forall id | id in p.held.shown && id < n.id :: id in q.held.shown
  {
    var e, l := PollAnswered(0, [n], false), LandAnswer(p, [n], false, me);
    MergeIds(Held(Kept(p.held.shown, [n]), Kept(p.held.waiting, [n])), [n], false, me, n.id);
    assert Ids([n])[0] == n.id && Ids([n]) == [n.id];
    forall id | id in p.held.shown && id < n.id ensures id in l.held.shown {
      MergeIds(Held(Kept(p.held.shown, [n]), Kept(p.held.waiting, [n])), [n], false, me, id);
    }
    StepKeepsDriven(p, e, me);
    FinishLeavesCursor(l, 0);
    hide Reconcile;
    assert l.polls[..0] + l.polls[1..] == [];
  }

  /** As when the page becomes visible while boot is still fetching the saved filter: the poll for everyone
      that this starts lands after the filter was narrowed to one author, and is applied. */
  lemma StaleAnswerDuringBoot(me: string)
    ensures var es := [VisibilityChanged(true), SavedFilter(["alice"]), PollAnswered(0, [Note(1, "bob")], false)];
            && HonestRun(Loaded(true), es, me)
            && var p := Run(Loaded(true), es, me); p.selected == ["alice"] && 1 in p.held.shown
  {
    var seen, saved := VisibilityChanged(true), SavedFilter(["alice"]);
    var landed := PollAnswered(0, [Note(1, "bob")], false);
    var p1 := Step(Loaded(true), seen, me);
    var p2 := Step(p1, saved, me);
    OneNoteLands(p2, Note(1, "bob"), me);
    hide Step, HonestRun, Honest;
    EmptyIsHonest(Step(p2, landed, me), me);
    ThenRun(p2, landed, [], me);
    ThenRun(p1, saved, [landed], me);
    ThenRun(Loaded(true), seen, [saved, landed], me);
    assert [landed] + [] == [landed] && [saved] + [landed] == [saved, landed];
  }

  lemma EmptyIsHonest(p: Page, me: string)
    ensures HonestRun(p, [], me) && Run(p, [], me) == p
    ensures forall e: Event | e.SavedFilter? || e.VisibilityChanged? :: Enabled(p, e) && Honest(p, e, me)
    ensures p.timer.Some? ==> Enabled(p, TimerFired) && Honest(p, TimerFired, me)
  {
  }

  lemma ForeignNoteHeld(me: string)
    ensures var es := [VisibilityChanged(true), PollAnswered(0, [Note(1, "bob")], false), SavedFilter(["alice"])];
            && HonestRun(Loaded(true), es, me)
            && var p := Run(Loaded(true), es, me);
            && Driven(p) && p.polls == [] && p.selected == ["alice"] && HeldIds(p.held) == {1}
            && 1 in p.held.shown && p.visible && p.timer.Some? && !p.polling
  {
    var seen, first, saved := VisibilityChanged(true), PollAnswered(0, [Note(1, "bob")], false), SavedFilter(["alice"]);
    var p1 := Step(Loaded(true), seen, me);
    OneNoteLands(p1, Note(1, "bob"), me);
    OnlyOneHeld(p1, Note(1, "bob"), me);
    var p2 := Step(p1, first, me);
    StepKeepsDriven(p2, saved, me);
    var p3 := Step(p2, saved, me);
    EmptyIsHonest(p3, me);
    EmptyIsHonest(p2, me);
    EmptyIsHonest(Loaded(true), me);
    hide Driven, HonestRun, Honest, OnAnswer;
    ThenRun(p2, saved, [], me);
    ThenRun(p1, first, [saved], me);
    ThenRun(Loaded(true), seen, [first, saved], me);
    assert [saved] + [] == [saved] && [first] + [saved] == [first, saved];
    assert [seen] + [first, saved] == [seen, first, saved];
  }

  lemma ForeignNoteKept(p: Page, me: string)
    requires Driven(p) && p.polls == [] && p.selected == ["alice"] && HeldIds(p.held) == {1}
    requires 1 in p.held.shown && p.visible && p.timer.Some? && !p.polling
    ensures var es := [TimerFired, PollAnswered(0, [Note(2, "alice")], false)];
            && HonestRun(p, es, me)
            && var q := Run(p, es, me); q.selected == ["alice"] && 1 in q.held.shown && 2 in q.held.shown
  {
    var second := PollAnswered(0, [Note(2, "alice")], false);
    EmptyIsHonest(p, me);
    var p4 := Step(p, TimerFired, me);
    StepKeepsDriven(p, TimerFired, me);
    assert p4.polls == [PollRequest(p4.gen, ["alice"])] && p4.held == p.held && p4.selected == p.selected && p4.visible;
    OneNoteLands(p4, Note(2, "alice"), me);
    EmptyIsHonest(Step(p4, second, me), me);
    hide Step, HonestRun, Honest, Enabled, Driven;
    ThenRun(p4, second, [], me);
    ThenRun(p, TimerFired, [second], me);
    assert [second] + [] == [second] && [TimerFired] + [second] == [TimerFired, second];
  }

  /** And when that poll lands before the filter is narrowed nothing is in the air at the assignment, but the
      other author's note stays on screen through later polls, below every window of the narrowed feed. */
  lemma ForeignNoteStays(me: string)
    ensures var es := [VisibilityChanged(true), PollAnswered(0, [Note(1, "bob")], false), SavedFilter(["alice"])];
            var rest := [TimerFired, PollAnswered(0, [Note(2, "alice")], false)];
            && HonestRun(Loaded(true), es, me) && Run(Loaded(true), es, me).polls == []
            && HonestRun(Run(Loaded(true), es, me), rest, me)
            && var p := Run(Run(Loaded(true), es, me), rest, me);
               p.selected == ["alice"] && 1 in p.held.shown && 2 in p.held.shown
  {
    ForeignNoteHeld(me);
    var es := [VisibilityChanged(true), PollAnswered(0, [Note(1, "bob")], false), SavedFilter(["alice"])];
    hide Step, HonestRun, Run;
    ForeignNoteKept(Run(Loaded(true), es, me), me);
  }

  lemma OnlyOneHeld(p: Page, n: Note, me: string)
    requires |p.polls| == 1 && p.polls[0].gen == p.gen && p.held == Held(map[], map[])
    ensures HeldIds(Step(p, PollAnswered(0, [n], false), me).held) == {n.id}
  {
    var l := LandAnswer(p, [n], false, me);
    forall id ensures id in HeldIds(l.held) <==> id == n.id {
      MergeIds(Held(Kept(p.held.shown, [n]), Kept(p.held.waiting, [n])), [n], false, me, id);
      assert Ids([n])[0] == n.id && Ids([n]) == [n.id];
    }
    FinishLeavesCursor(l, 0);
  }
}

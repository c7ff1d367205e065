/** Which notes of the page are on screen and which wait behind the pill: at the end of any run exactly those
    that some turn put there and no later turn took away. */
module NotesHeld {
  import opened NotesStore
  import opened NotesFeed
  import opened Wrappers

  // ---------------------------------------------------------------------------
  // Where each listed note goes
  // ---------------------------------------------------------------------------

  /** The first listed note with this id. */
  function Listed(notes: seq<Note>, id: nat): (n: Note)
    requires id in Ids(notes)
    ensures n in notes && n.id == id
  {
    assert notes != [];
    if notes[0].id == id then notes[0]
    else
      assert forall k | 1 <= k < |notes| :: Ids(notes)[k] == Ids(notes[1..])[k - 1];
      Listed(notes[1..], id)
  }

  lemma ListedSnoc(notes: seq<Note>, n: Note, id: nat)
    requires id in Ids(notes + [n])
    ensures Ids(notes + [n]) == Ids(notes) + [n.id]
    ensures Listed(notes + [n], id) == if id in Ids(notes) then Listed(notes, id) else n
  {
    assert Ids(notes + [n]) == Ids(notes) + [n.id];
    if notes != [] && notes[0].id != id {
      assert (notes + [n])[1..] == notes[1..] + [n];
      assert Ids(notes) == [notes[0].id] + Ids(notes[1..]);
      assert Ids(notes[1..] + [n]) == Ids(notes[1..]) + [n.id];
      ListedSnoc(notes[1..], n, id);
    }
  }

  // The map holds this note under its id.
  predicate Has(m: map<nat, Note>, n: Note) {
    n.id in m && m[n.id] == n
  }

  // Nothing changed for this id.
  predicate Same(g: Held, h: Held, id: nat) {
    && (id in g.shown <==> id in h.shown) && (id in h.shown ==> g.shown[id] == h.shown[id])
    && (id in g.waiting <==> id in h.waiting) && (id in h.waiting ==> g.waiting[id] == h.waiting[id])
  }

  // Where an id is after the listed notes were added.
  ghost predicate Placed(g: Held, h: Held, notes: seq<Note>, defer: bool, me: string, id: nat) {
    if id !in Ids(notes) || id in HeldIds(h) then Same(g, h, id)
    else
      var n := Listed(notes, id);
      if defer && n.user != me then Has(g.waiting, n) && id !in g.shown
      else Has(g.shown, n) && id !in g.waiting
  }

  lemma PlaceKnown(g: Held, h: Held, init: seq<Note>, n: Note, defer: bool, me: string, id: nat)
    requires Placed(g, h, init, defer, me, id) && (n.id != id || id in Ids(init) || id in HeldIds(h))
    ensures Placed(g, h, init + [n], defer, me, id)
  {
    assert Ids(init + [n]) == Ids(init) + [n.id];
    if id in Ids(init + [n]) { ListedSnoc(init, n, id); }
  }

  /** Of the listed notes exactly those not held before are added, as listed first: others' notes to the waiting
      ones when the page defers, all else to the shown ones. */
  lemma {:induction false} MergePlaces(h: Held, notes: seq<Note>, defer: bool, me: string, id: nat)
    ensures Placed(Merge(h, notes, defer, me), h, notes, defer, me, id)
  {
    if notes != [] {
      var init, n := notes[..|notes| - 1], notes[|notes| - 1];
      assert notes == init + [n];
      MergePlaces(h, init, defer, me, id);
      MergeIds(h, init, defer, me, id);
      var was := Merge(h, init, defer, me);
      if n.id != id || id in HeldIds(was) {
        PlaceKnown(was, h, init, n, defer, me, id);
      } else {
        ListedSnoc(init, n, id);
      }
    }
  }

  lemma AnswerPlaces(h: Held, fetched: seq<Note>, defer: bool, me: string, id: nat)
    ensures var g := Reconcile(h, fetched, defer, me);
            if id in Ids(fetched) && id !in HeldIds(h) then
              var n := Listed(fetched, id);
              if defer && n.user != me then Has(g.waiting, n) && id !in g.shown
              else Has(g.shown, n) && id !in g.waiting
            else if id in Ids(fetched) || !InWindow(id, fetched) then Same(g, h, id)
            else id !in HeldIds(g)
  {
    hide Merge;
    MergePlaces(Held(Kept(h.shown, fetched), Kept(h.waiting, fetched)), fetched, defer, me, id);
  }

  lemma {:induction false} OlderPlaces(m: map<nat, Note>, notes: seq<Note>, id: nat)
    ensures var g := AddMissing(m, notes);
            if id in m then id in g && g[id] == m[id]
            else if id in Ids(notes) then Has(g, Listed(notes, id)) else id !in g
  {
    if notes != [] {
      var init, last := notes[..|notes| - 1], notes[|notes| - 1];
      assert notes == init + [last];
      OlderPlaces(m, init, id);
      if id in Ids(notes) { ListedSnoc(init, last, id); }
      assert Ids(notes) == Ids(init) + [last.id];
    }
  }

  // ---------------------------------------------------------------------------
  // What each turn shows, defers and drops
  // ---------------------------------------------------------------------------

  predicate Lands(p: Page, e: Event)
    requires Enabled(p, e)
  {
    (e.PollAnswered? && p.polls[e.i].gen == p.gen) || (e.OlderAnswered? && p.older[e.j].gen == p.gen)
  }

  /** Another's note, listed for the first time while the page is loaded and scrolled down. */
  predicate Defers(p: Page, e: Event, me: string, id: nat)
    requires Enabled(p, e)
  {
    && e.PollAnswered? && Lands(p, e) && id in Ids(e.fetched) && id !in HeldIds(p.held)
    && e.scrolled && p.initialLoaded && Listed(e.fetched, id).user != me
  }

  /** The turn puts the note on screen, unless it is there. */
  predicate Shows(p: Page, e: Event, me: string, id: nat)
    requires Enabled(p, e)
  {
    match e
    case PollAnswered(_, fetched, _) =>
      Lands(p, e) && id in Ids(fetched) && id !in HeldIds(p.held) && !Defers(p, e, me, id)
    case OlderAnswered(_, notes) => Lands(p, e) && id in Ids(notes)
    case Posted(n) => n.id == id
    case PillClicked => id in p.held.waiting
    case _ => false
  }

  /** The note is deleted, or missing from an answer that should have it, or another filter is chosen. */
  predicate Drops(p: Page, e: Event, id: nat)
    requires Enabled(p, e)
  {
    match e
    case PollAnswered(_, fetched, _) => Lands(p, e) && InWindow(id, fetched) && id !in Ids(fetched)
    case Deleted(gone) => gone == id
    case Select(authors) => authors != p.selected
    case _ => false
  }

  /** The note put on screen by such a turn. */
  function Bringing(p: Page, e: Event, me: string, id: nat): (n: Note)
    requires Enabled(p, e) && Shows(p, e, me, id)
  {
    match e
    case PollAnswered(_, fetched, _) => Listed(fetched, id)
    case OlderAnswered(_, notes) => Listed(notes, id)
    case Posted(n) => n
    case PillClicked => p.held.waiting[id]
  }

  // What a turn does to one id.
  ghost predicate Accounted(p: Page, e: Event, me: string, id: nat)
    requires Enabled(p, e)
  {
    var h, g := p.held, Step(p, e, me).held;
    && (id in g.shown <==> Shows(p, e, me, id) || (id in h.shown && !Drops(p, e, id)))
    && (id in g.shown ==> g.shown[id] == if id in h.shown then h.shown[id] else Bringing(p, e, me, id))
    && (id in g.waiting <==> Defers(p, e, me, id) || (id in h.waiting && !Drops(p, e, id) && !e.PillClicked?))
    && (id in g.waiting ==> g.waiting[id] == if id in h.waiting then h.waiting[id] else Listed(e.fetched, id))
  }

  lemma AnswerLeaves(p: Page, e: Event, me: string)
    requires Enabled(p, e) && e.PollAnswered?
    ensures var q := Step(p, e, me);
            if Lands(p, e) then
              q.held == Reconcile(p.held, e.fetched, e.scrolled && p.initialLoaded, me) && q.initialLoaded
            else q.held == p.held && q.initialLoaded == p.initialLoaded
  {
    hide Finish, Reconcile, OnFailure, OnOlder, OnOlderFailed, ApplySelection, OnVisibility, PollOnce;
    FinishLeavesCursor(if p.polls[e.i].gen != p.gen then p else LandAnswer(p, e.fetched, e.scrolled, me), e.i);
  }

  lemma AnswerAccounted(p: Page, e: Event, me: string, id: nat)
    requires Enabled(p, e) && e.PollAnswered?
    ensures Accounted(p, e, me, id)
  {
    AnswerLeaves(p, e, me);
    hide Step, Reconcile, InWindow;
    if Lands(p, e) {
      AnswerPlaces(p.held, e.fetched, e.scrolled && p.initialLoaded, me, id);
    }
  }

  // Turns that leave what is held alone.
  predicate Quiet(e: Event) {
    !e.PollAnswered? && !e.OlderAnswered? && !e.Posted? && !e.PillClicked? && !e.Deleted? && !e.Select?
  }

  lemma QuietKeepsHeld(p: Page, e: Event, me: string)
    requires Enabled(p, e) && Quiet(e)
    ensures Step(p, e, me).held == p.held && Step(p, e, me).initialLoaded == p.initialLoaded
  {
    if e.PollFailed? {
      FailureOnlyDrives(p, e.i, e.unauthorized);
    } else if e.FirstPoll? || e.TimerFired? || e.VisibilityChanged? {
      StartingOnlyDrives(p, e, me);
    }
    hide OnFailure, PollOnce, OnVisibility;
  }

  lemma QuietAccounted(p: Page, e: Event, me: string, id: nat)
    requires Enabled(p, e) && Quiet(e) && Step(p, e, me).held == p.held
    ensures Accounted(p, e, me, id)
  {
    hide Step;
  }

  lemma SelectLeaves(p: Page, e: Event, me: string)
    requires e.Select?
    ensures var q := Step(p, e, me);
            if e.authors == p.selected then q == p else q.held == Held(map[], map[]) && !q.initialLoaded
  {
    hide PollOnce;
    PollingOnlyDrives(Cleared(p.(selected := e.authors)));
  }

  lemma SelectAccounted(p: Page, e: Event, me: string, id: nat)
    requires e.Select?
    ensures Accounted(p, e, me, id)
  {
    SelectLeaves(p, e, me);
    hide Step;
  }

  lemma OlderLeaves(p: Page, e: Event, me: string)
    requires Enabled(p, e) && e.OlderAnswered?
    ensures var q := Step(p, e, me);
            && q.held == (if Lands(p, e) then p.held.(shown := AddMissing(p.held.shown, e.notes)) else p.held)
            && q.initialLoaded == p.initialLoaded
  {
    hide AddMissing;
  }

  lemma OlderAccounted(p: Page, e: Event, me: string, id: nat)
    requires Enabled(p, e) && e.OlderAnswered?
    ensures Accounted(p, e, me, id)
  {
    OlderLeaves(p, e, me);
    hide Step, AddMissing;
    OlderPlaces(p.held.shown, e.notes, id);
  }

  predicate Button(e: Event) {
    e.Posted? || e.Deleted? || e.PillClicked?
  }

  function Pressed(h: Held, e: Event): Held {
    match e
    case Posted(n) => if n.id in h.shown then h else h.(shown := h.shown[n.id := n])
    case Deleted(id) => Held(h.shown - {id}, h.waiting - {id})
    case _ => Held(h.waiting + h.shown, map[])
  }

  lemma PostedLeaves(p: Page, n: Note, me: string)
    ensures var q := Step(p, Posted(n), me);
            q.held == Pressed(p.held, Posted(n)) && q.initialLoaded == p.initialLoaded
  {
  }

  lemma ButtonLeaves(p: Page, e: Event, me: string)
    requires Button(e)
    ensures Step(p, e, me).held == Pressed(p.held, e) && Step(p, e, me).initialLoaded == p.initialLoaded
  {
    match e
    case Posted(n) => PostedLeaves(p, n, me);
    case Deleted(id) => assert Step(p, Deleted(id), me) == OnDeleted(p, id);
    case PillClicked => assert Step(p, PillClicked, me) == p.(held := ShowWaiting(p.held));
  }

  lemma ButtonAccounted(p: Page, e: Event, me: string, id: nat)
    requires Button(e)
    ensures Accounted(p, e, me, id)
  {
    ButtonLeaves(p, e, me);
    hide Step;
  }

  lemma TurnAccounted(p: Page, e: Event, me: string, id: nat)
    requires Enabled(p, e)
    ensures Accounted(p, e, me, id)
  {
    hide Accounted, Step, Enabled;
    match e
    case PollAnswered(_, _, _) => AnswerAccounted(p, e, me, id);
    case OlderAnswered(_, _) => OlderAccounted(p, e, me, id);
    case Select(_) => SelectAccounted(p, e, me, id);
    case Posted(_) => ButtonAccounted(p, e, me, id);
    case Deleted(_) => ButtonAccounted(p, e, me, id);
    case PillClicked => ButtonAccounted(p, e, me, id);
    case _ =>
      QuietKeepsHeld(p, e, me);
      QuietAccounted(p, e, me, id);
  }

  // ---------------------------------------------------------------------------
  // Over runs
  // ---------------------------------------------------------------------------

  ghost predicate NeverDropped(p: Page, es: seq<Event>, me: string, id: nat)
    requires Possible(p, es, me)
    decreases |es|
  {
    es != [] ==> !Drops(p, es[0], id) && NeverDropped(Step(p, es[0], me), es[1..], me, id)
  }

  ghost predicate NeverReleased(p: Page, es: seq<Event>, me: string, id: nat)
    requires Possible(p, es, me)
  {
    NeverDropped(p, es, me, id) && forall e | e in es :: !e.PillClicked?
  }

  /** Some turn of the run showed the note and none dropped it afterwards. */
  ghost predicate ShownAndKept(p: Page, es: seq<Event>, me: string, id: nat)
    requires Possible(p, es, me)
    decreases |es|
  {
    es != [] && var q := Step(p, es[0], me);
    (Shows(p, es[0], me, id) && NeverDropped(q, es[1..], me, id)) || ShownAndKept(q, es[1..], me, id)
  }

  /** Some turn deferred it, and none dropped it and no click released it afterwards. */
  ghost predicate DeferredAndKept(p: Page, es: seq<Event>, me: string, id: nat)
    requires Possible(p, es, me)
    decreases |es|
  {
    es != [] && var q := Step(p, es[0], me);
    (Defers(p, es[0], me, id) && NeverReleased(q, es[1..], me, id)) || DeferredAndKept(q, es[1..], me, id)
  }

  lemma {:induction false} HeldAfter(p: Page, es: seq<Event>, me: string, id: nat)
    requires Possible(p, es, me)
    ensures var h := Run(p, es, me).held;
            && (id in h.shown <==> ShownAndKept(p, es, me, id) || (id in p.held.shown && NeverDropped(p, es, me, id)))
            && (id in h.waiting <==>
                  DeferredAndKept(p, es, me, id) || (id in p.held.waiting && NeverReleased(p, es, me, id)))
    decreases |es|
  {
    hide Step, Enabled, Shows, Defers, Drops;
    if es != [] {
      TurnAccounted(p, es[0], me, id);
      HeldAfter(Step(p, es[0], me), es[1..], me, id);
      assert es == [es[0]] + es[1..];
    }
  }

  /** From page load on, a note is on screen if and only if some turn showed it and none dropped it since; it waits
      behind the pill if and only if some answer deferred it and since then none dropped it and the pill was not
      clicked. */
  lemma WhatIsShownAndWhatWaits(visible: bool, es: seq<Event>, me: string, id: nat)
    requires Possible(Loaded(visible), es, me)
    ensures var h := Run(Loaded(visible), es, me).held;
            && (id in h.shown <==> ShownAndKept(Loaded(visible), es, me, id))
            && (id in h.waiting <==> DeferredAndKept(Loaded(visible), es, me, id))
  {
    HeldAfter(Loaded(visible), es, me, id);
  }

  // An answer for the present generation came since the page was loaded or its filter changed.
  ghost predicate LandedSince(p: Page, es: seq<Event>, me: string, before: bool)
    requires Possible(p, es, me)
    decreases |es|
  {
    if es == [] then before
    else
      LandedSince(Step(p, es[0], me), es[1..], me,
                  if es[0].Select? && es[0].authors != p.selected then false
                  else before || (es[0].PollAnswered? && Lands(p, es[0])))
  }

  lemma LoadedStep(p: Page, e: Event, me: string)
    requires Enabled(p, e)
    ensures Step(p, e, me).initialLoaded <==>
            if e.Select? && e.authors != p.selected then false
            else p.initialLoaded || (e.PollAnswered? && Lands(p, e))
  {
    if Quiet(e) {
      QuietKeepsHeld(p, e, me);
    } else if Button(e) {
      ButtonLeaves(p, e, me);
    } else if e.Select? {
      SelectLeaves(p, e, me);
    } else if e.PollAnswered? {
      AnswerLeaves(p, e, me);
    } else {
      OlderLeaves(p, e, me);
    }
    hide Step;
  }

  lemma {:induction false} LoadedAfter(p: Page, es: seq<Event>, me: string)
    requires Possible(p, es, me)
    ensures Run(p, es, me).initialLoaded <==> LandedSince(p, es, me, p.initialLoaded)
    decreases |es|
  {
    hide Step, Enabled, Lands;
    if es != [] {
      LoadedStep(p, es[0], me);
      LoadedAfter(Step(p, es[0], me), es[1..], me);
    }
  }

  /** On any run an answer that lands while the page is scrolled down, not the first of its filter, puts exactly
      the listed notes of one's own that were not held on screen, beside those it leaves there; every other
      new one waits.  When it is the first, or the page is at the top, none waits. */
  lemma ScrolledAnswerShowsOwn(visible: bool, es: seq<Event>, e: Event, me: string, id: nat)
    requires Possible(Loaded(visible), es, me) && e.PollAnswered? && Enabled(Run(Loaded(visible), es, me), e)
    requires Lands(Run(Loaded(visible), es, me), e)
    ensures var p := Run(Loaded(visible), es, me);
            var h, g := p.held, Step(p, e, me).held;
            var defer := e.scrolled && LandedSince(Loaded(visible), es, me, false);
            var fresh' := id in Ids(e.fetched) && id !in HeldIds(h);
            && (id in g.shown && id !in h.shown <==> fresh' && (!defer || Listed(e.fetched, id).user == me))
            && (id in g.waiting && id !in h.waiting <==> fresh' && defer && Listed(e.fetched, id).user != me)
  {
    LoadedAfter(Loaded(visible), es, me);
    hide Step, Run, Possible;
    TurnAccounted(Run(Loaded(visible), es, me), e, me, id);
  }
}

/** The notes page together with the table it reads: what "load older" has delivered once it reaches the end,
    on any run of the page with answers read from a table that keeps changing. */
module NotesWorld {
  import opened NotesStore
  import opened NotesFeed
  import opened Wrappers

  /** pollRead and olderRead are what the server read for the requests in the air; first is the cursor the
      present generation started from, 0 while it has none. */
  datatype World = World(page: Page, db: Db, pollRead: Option<seq<Note>>, olderRead: Option<seq<Note>>, first: nat)

  datatype Move =
    | Edit(db: Db)                       // notes are created and deleted
    | PollRead(answer: seq<Note>)        // the server reads the answer to the poll in the air
    | OlderRead(answer: seq<Note>)       // and to the load-older request
    | Turn(e: Event)                     // a turn of the page

  // Whoever matches the second filter matches the first.
  predicate Narrows(authors: seq<string>, saved: seq<string>) {
    authors == [] || (saved != [] && forall a | a in saved :: a in authors)
  }

  // A note the page does not hold could be in the stretch it has paged through, or below its end.
  ghost predicate Uncovered(p: Page, first: nat) {
    exists id | 1 <= id < first :: if id >= p.oldest then id !in HeldIds(p.held) else p.reachedEnd
  }

  /** Boot's filter comes while nothing current in the air was asked for other authors, and narrows the
      filter in use or comes before anything was paged back. */
  ghost predicate Assignable(w: World, saved: seq<string>) {
    Tagged(w.page.(selected := saved)) && (Narrows(w.page.selected, saved) || !Uncovered(w.page, w.first))
  }

  ghost predicate Allowed(w: World, m: Move) {
    match m
    case Edit(db) => Sane(db) && Evolves(w.db, db)
    case PollRead(answer) =>
      w.page.polls != [] && w.pollRead.None? && Ids(answer) == ListNotes(w.db, 0, PAGE, w.page.polls[0].authors)
    case OlderRead(answer) =>
      && w.page.older != [] && w.olderRead.None?
      && Ids(answer) == ListNotes(w.db, w.page.older[0].before, PAGE, w.page.older[0].authors)
    case Turn(e) =>
      && Enabled(w.page, e) && (e.SavedFilter? ==> Assignable(w, e.authors))
      && (e.PollAnswered? ==> w.pollRead == Some(e.fetched)) && (e.OlderAnswered? ==> w.olderRead == Some(e.notes))
      && (e.Posted? ==> e.note.id < w.db.next) && (e.Deleted? ==> e.id !in w.db.notes)
  }

  function First(w: World, q: Page): nat {
    if q.oldest == 0 then 0 else if w.page.oldest == 0 then q.oldest else w.first
  }

  function Next(w: World, m: Move, me: string): World
    requires Allowed(w, m)
  {
    match m
    case Edit(db) => w.(db := db)
    case PollRead(answer) => w.(pollRead := Some(answer))
    case OlderRead(answer) => w.(olderRead := Some(answer))
    case Turn(e) =>
      var q := Step(w.page, e, me);
      World(q, w.db, if e.PollAnswered? || e.PollFailed? then None else w.pollRead,
            if e.OlderAnswered? || e.OlderFailed? then None else w.olderRead, First(w, q))
  }

  ghost predicate Story(w: World, ms: seq<Move>, me: string)
    decreases |ms|
  {
    ms == [] || (Allowed(w, ms[0]) && Story(Next(w, ms[0], me), ms[1..], me))
  }

  function After(w: World, ms: seq<Move>, me: string): World
    requires Story(w, ms, me)
    decreases |ms|
  {
    if ms == [] then w else After(Next(w, ms[0], me), ms[1..], me)
  }

  /** A page just loaded. */
  ghost predicate Fresh(w: World) {
    && (exists visible :: w.page == Loaded(visible))
    && Sane(w.db) && w.db.next > 0 && w.pollRead == w.olderRead == None && w.first == 0
  }

  // ---------------------------------------------------------------------------
  // What every move keeps
  // ---------------------------------------------------------------------------

  // Requests, cursor and reads fit together.
  ghost predicate Tidy(w: World) {
    && Driven(w.page) && Tagged(w.page) && Anchored(w.page) && Sane(w.db)
    && (w.pollRead.Some? ==> w.page.polls != []) && (w.olderRead.Some? ==> w.page.older != [])
    && (w.page.oldest == 0 <==> w.first == 0) && w.page.oldest <= w.first < w.db.next
    && (w.page.oldest == 0 ==> !w.page.reachedEnd)
    && (w.pollRead.Some? ==> forall id | id in Ids(w.pollRead.value) :: id < w.db.next)
  }

  // Between the cursor and where it started the page holds everything the table has.
  ghost predicate Complete(w: World) {
    w.first != 0 ==>
      && (forall id | id in Matching(w.db.notes, w.first, w.page.selected) && id >= w.page.oldest ::
            id in HeldIds(w.page.held))
      && (w.page.reachedEnd ==> forall id :: id !in Matching(w.db.notes, w.page.oldest, w.page.selected))
  }

  ghost predicate WindowCovers(s: set<nat>, fetched: seq<Note>) {
    forall id | id in s && InWindow(id, fetched) :: id in Ids(fetched)
  }

  // A poll read since the cursor was set lists everything older in its window; one read before it was set
  // comes while nothing has been paged back.
  ghost predicate PollReadOk(w: World) {
    w.pollRead.Some? && w.page.polls != [] && w.page.polls[0].gen == w.page.gen ==>
      && Falling(Ids(w.pollRead.value))
      && (w.first != 0 ==>
            || WindowCovers(Matching(w.db.notes, w.first, w.page.selected), w.pollRead.value)
            || (w.page.oldest == w.first && !w.page.offered && forall r | r in w.page.older :: r.gen != w.page.gen))
  }

  ghost predicate PageCovers(s: set<nat>, before: nat, notes: seq<Note>) {
    && Falling(Ids(notes)) && (forall id | id in Ids(notes) :: id < before)
    && (forall id | id in s && (|notes| < PAGE || id >= notes[|notes| - 1].id) :: id in Ids(notes))
  }

  // An older page lists everything from its last note up to the cursor, and everything if it is short.
  ghost predicate OlderReadOk(w: World) {
    w.olderRead.Some? && w.page.older != [] && w.page.older[0].gen == w.page.gen ==>
      PageCovers(Matching(w.db.notes, w.page.oldest, w.page.selected), w.page.oldest, w.olderRead.value)
  }

  ghost predicate Sound(w: World) {
    Tidy(w) && Complete(w) && PollReadOk(w) && OlderReadOk(w)
  }

  lemma OldMatchesOnlyGo(a: Db, b: Db, before: nat, authors: seq<string>)
    requires Evolves(a, b) && 0 < before <= a.next
    ensures Matching(b.notes, before, authors) <= Matching(a.notes, before, authors)
  {
  }

  lemma EditKeeps(w: World, db: Db)
    requires Sound(w) && Sane(db) && Evolves(w.db, db)
    ensures Sound(w.(db := db))
  {
    hide Driven, Tagged, Anchored, Matching;
    if w.first != 0 {
      OldMatchesOnlyGo(w.db, db, w.first, w.page.selected);
      OldMatchesOnlyGo(w.db, db, w.page.oldest, w.page.selected);
    }
    assert Tidy(w.(db := db));
    assert w.page.older != [] && w.page.older[0].gen == w.page.gen ==> w.page.oldest != 0 by { AnchoredIsSet(w.page); }
  }

  lemma AnchoredIsSet(p: Page)
    requires Anchored(p)
    ensures p.older != [] && p.older[0].gen == p.gen ==> p.oldest != 0 && p.older[0].before == p.oldest
  {
    if p.older != [] { assert p.older[0] in p.older; }
  }

  lemma PollReadKeeps(w: World, answer: seq<Note>)
    requires Sound(w) && Allowed(w, PollRead(answer))
    ensures Sound(w.(pollRead := Some(answer)))
  {
    hide Driven, Anchored;
    var r := w.page.polls[0];
    assert r in w.page.polls;
    TopIsPage(Matching(w.db.notes, 0, r.authors), PAGE);
    if w.first != 0 && r.gen == w.page.gen {
      forall id | id in Matching(w.db.notes, w.first, w.page.selected) && InWindow(id, answer)
        ensures id in Ids(answer)
      {
        assert id in Matching(w.db.notes, 0, r.authors);
        if answer != [] { assert Ids(answer)[|answer| - 1] in Ids(answer); }
      }
    }
  }

  lemma OlderReadKeeps(w: World, answer: seq<Note>)
    requires Sound(w) && Allowed(w, OlderRead(answer))
    ensures Sound(w.(olderRead := Some(answer)))
  {
    hide Driven;
    var r := w.page.older[0];
    assert r in w.page.older;
    TopIsPage(Matching(w.db.notes, r.before, r.authors), PAGE);
    if r.gen == w.page.gen {
      if answer != [] { assert Ids(answer)[|answer| - 1] in Ids(answer); }
    }
  }

  // ---------------------------------------------------------------------------
  // What the page's turns keep
  // ---------------------------------------------------------------------------

  ghost predicate Steady(w: World, q: Page) {
    Driven(q) && Tagged(q) && Anchored(q)
  }

  // Turns that only start, end or time polls.
  lemma QuietKeeps(w: World, q: Page, pollRead: Option<seq<Note>>)
    requires Sound(w) && Steady(w, q) && OnlyDrives(w.page, q)
    requires pollRead.None? || (pollRead == w.pollRead && q.polls == w.page.polls)
    ensures Sound(w.(page := q, pollRead := pollRead)) && First(w, q) == w.first
  {
    hide Driven, Tagged, Anchored, Matching, InWindow;
  }

  lemma StartingQuietly(p: Page, e: Event, me: string)
    requires Enabled(p, e) && (e.FirstPoll? || e.TimerFired? || e.VisibilityChanged?)
    ensures var q := Step(p, e, me); OnlyDrives(p, q) && (Driven(p) && p.polls != [] ==> q.polls == p.polls)
  {
    StartingOnlyDrives(p, e, me);
    hide OnlyDrives;
  }

  lemma StartKeeps(w: World, e: Event, me: string)
    requires Sound(w) && Allowed(w, Turn(e)) && (e.FirstPoll? || e.TimerFired? || e.VisibilityChanged?)
    requires Steady(w, Step(w.page, e, me))
    ensures Sound(Next(w, Turn(e), me))
  {
    StartingQuietly(w.page, e, me);
    var q := Step(w.page, e, me);
    hide Driven, Tagged, Anchored, Step, OnlyDrives;
    if w.page.polls == [] {
      QuietKeeps(w, q, None);
    } else {
      QuietKeeps(w, q, w.pollRead);
    }
  }

  lemma FailureKeepsWorld(w: World, e: Event, me: string)
    requires Sound(w) && Allowed(w, Turn(e)) && e.PollFailed? && Steady(w, Step(w.page, e, me))
    ensures Sound(Next(w, Turn(e), me))
  {
    FailureOnlyDrives(w.page, e.i, e.unauthorized);
    hide OnFailure, Driven, Tagged, Anchored, OnlyDrives;
    QuietKeeps(w, Step(w.page, e, me), None);
  }

  // A current answer is applied.
  lemma LandingKeeps(w: World, fetched: seq<Note>, scrolled: bool, me: string)
    requires Sound(w) && w.pollRead == Some(fetched) && w.page.polls[0].gen == w.page.gen
    requires Steady(w, LandAnswer(w.page, fetched, scrolled, me))
    ensures var q := LandAnswer(w.page, fetched, scrolled, me);
            Sound(World(q, w.db, None, w.olderRead, First(w, q)))
  {
    hide Driven, Tagged, Reconcile;
    var p, q := w.page, LandAnswer(w.page, fetched, scrolled, me);
    var v := World(q, w.db, None, w.olderRead, First(w, q));
    if p.oldest != 0 {
      forall id | id in Matching(w.db.notes, w.first, p.selected) && id >= p.oldest ensures id in HeldIds(q.held) {
        WindowIsExactlyTheAnswer(p.held, fetched, scrolled && p.initialLoaded, me, id);
      }
    } else if fetched != [] {
      assert Ids(fetched)[|fetched| - 1] in Ids(fetched);
    }
    AnchoredIsSet(p);
    assert Complete(v) && Tidy(v) && OlderReadOk(v);
  }

  lemma AnswerKeepsWorld(w: World, e: Event, me: string)
    requires Sound(w) && Allowed(w, Turn(e)) && e.PollAnswered? && Steady(w, Step(w.page, e, me))
    ensures Sound(Next(w, Turn(e), me))
  {
    var p := w.page;
    assert e.i == 0 && |p.polls| == 1;
    hide Finish, LandAnswer, Tagged, Anchored, OnlyDrives, Sound;
    if p.polls[0].gen != p.gen {
      FinishLeavesCursor(p, 0);
      QuietKeeps(w, Step(p, e, me), None);
    } else {
      var l := LandAnswer(p, e.fetched, e.scrolled, me);
      LandAnswerKeeps(p, e.fetched, e.scrolled, me);
      LandAnswerLeavesCursor(p, e.fetched, e.scrolled, me);
      LandAnswerAnchored(w, e.fetched, e.scrolled, me);
      SoundIsSteady(w);
      LandingKeeps(w, e.fetched, e.scrolled, me);
      var v := World(l, w.db, None, w.olderRead, First(w, l));
      FinishLeavesCursor(l, 0);
      QuietKeeps(v, Finish(l, 0), None);
      FirstThroughFinish(w, l, Finish(l, 0));
    }
  }

  lemma SoundIsSteady(w: World)
    requires Sound(w)
    ensures Steady(w, w.page)
  {
  }

  lemma LandAnswerAnchored(w: World, fetched: seq<Note>, scrolled: bool, me: string)
    requires Sound(w)
    ensures Anchored(LandAnswer(w.page, fetched, scrolled, me))
  {
    hide Reconcile, Driven, Tagged;
  }

  lemma FirstThroughFinish(w: World, l: Page, q: Page)
    requires OnlyDrives(l, q)
    ensures First(w, q) == First(w, l)
  {
  }

  // One's own post, a deletion, and the pill.
  lemma HeldTurnsKeep(w: World, e: Event, me: string)
    requires Sound(w) && Allowed(w, Turn(e)) && (e.Posted? || e.Deleted? || e.PillClicked?)
    requires Steady(w, Step(w.page, e, me))
    ensures Sound(Next(w, Turn(e), me))
  {
    var v, p := Next(w, Turn(e), me), w.page;
    assert p.oldest == 0 ==> forall r | r in p.older :: r.gen != p.gen;
    AnchoredIsSet(p);
    hide Driven, Tagged, Anchored;
    assert Complete(v) && Tidy(v) && PollReadOk(v) && OlderReadOk(v);
  }

  lemma SelectKeepsWorld(w: World, e: Event, me: string)
    requires Sound(w) && Allowed(w, Turn(e)) && e.Select? && Steady(w, Step(w.page, e, me))
    ensures Sound(Next(w, Turn(e), me))
  {
    var v, p := Next(w, Turn(e), me), w.page;
    if e.authors != p.selected {
      assert p.polls != [] ==> p.polls[0] in p.polls && v.page.polls == p.polls;
      assert p.older != [] ==> p.older[0] in p.older && v.page.older == p.older;
      assert v.page.oldest == 0 && v.page.gen == p.gen + 1 && !v.page.reachedEnd;
    }
    hide Tagged, Anchored, Step;
  }

  lemma OlderClickKeeps(w: World, me: string)
    requires Sound(w) && Allowed(w, Turn(OlderClicked)) && Steady(w, Step(w.page, OlderClicked, me))
    ensures Sound(Next(w, Turn(OlderClicked), me))
  {
    assert w.olderRead.None?;
    hide Driven, Tagged, Anchored, Matching, InWindow;
  }

  lemma OlderFailureKeeps(w: World, e: Event, me: string)
    requires Sound(w) && Allowed(w, Turn(e)) && e.OlderFailed? && Steady(w, Step(w.page, e, me))
    ensures Sound(Next(w, Turn(e), me))
  {
    var p, v := w.page, Next(w, Turn(e), me);
    assert v.page.older == [] by { assert p.older[..e.j] + p.older[e.j + 1..] == []; }
    hide Driven, Tagged, Anchored, Matching, InWindow;
  }

  // What the page covers after an older page, given what both covered before.
  lemma OlderCovers(s: set<nat>, oldest: nat, lower: nat, was: set<nat>, now: set<nat>, notes: seq<Note>)
    requires forall id | id in s && id >= oldest :: id in was
    requires PageCovers((set id | id in s && id < oldest), oldest, notes)
    requires lower == if notes != [] then notes[|notes| - 1].id else oldest
    requires forall id :: id in now <==> id in was || id in Ids(notes)
    ensures lower <= oldest && (forall id | id in s && id >= lower :: id in now)
    ensures |notes| < PAGE ==> forall id | id in s :: id >= lower
  {
    if notes != [] { assert Ids(notes)[|notes| - 1] in Ids(notes); }
    forall id | id in s && id < oldest && |notes| < PAGE ensures id >= lower {
      assert id in Ids(notes);
    }
  }

  lemma OlderLandingKeeps(w: World, notes: seq<Note>, me: string)
    requires Sound(w) && w.olderRead == Some(notes) && w.page.older[0].gen == w.page.gen && |w.page.older| == 1
    requires Steady(w, OnOlder(w.page, 0, notes))
    ensures var q := OnOlder(w.page, 0, notes); Sound(World(q, w.db, w.pollRead, None, First(w, q)))
  {
    var p, q := w.page, OnOlder(w.page, 0, notes);
    var v := World(q, w.db, w.pollRead, None, First(w, q));
    AnchoredIsSet(p);
    assert p.older[0] in p.older;
    forall id ensures id in HeldIds(q.held) <==> id in HeldIds(p.held) || id in Ids(notes) {
      OlderPageAddsItsIds(p.held.shown, notes, id);
    }
    var s := Matching(w.db.notes, w.first, p.selected);
    assert (set id | id in s && id < p.oldest) == Matching(w.db.notes, p.oldest, p.selected);
    hide Driven, Tagged, AddMissing;
    OlderCovers(s, p.oldest, q.oldest, HeldIds(p.held), HeldIds(q.held), notes);
    assert q.oldest != 0 && v.first == w.first;
    assert Matching(w.db.notes, q.oldest, p.selected) <= Matching(w.db.notes, p.oldest, p.selected);
    assert Complete(v) && PollReadOk(v);
  }

  lemma OlderKeepsWorld(w: World, e: Event, me: string)
    requires Sound(w) && Allowed(w, Turn(e)) && e.OlderAnswered? && Steady(w, Step(w.page, e, me))
    ensures Sound(Next(w, Turn(e), me))
  {
    var p := w.page;
    assert e.j == 0 && |p.older| == 1;
    if p.older[0].gen == p.gen {
      hide Sound, Steady, OnOlder;
      OlderLandingKeeps(w, e.notes, me);
    } else {
      assert Next(w, Turn(e), me).page.older == [] by { assert p.older[..0] + p.older[1..] == []; }
      hide Driven, Tagged, Anchored, Matching, InWindow;
    }
  }

  lemma NarrowedMatchesFewer(notes: map<nat, string>, before: nat, authors: seq<string>, saved: seq<string>)
    requires Narrows(authors, saved)
    ensures Matching(notes, before, saved) <= Matching(notes, before, authors)
  {
  }

  lemma AssignmentKeepsComplete(w: World, saved: seq<string>)
    requires Complete(w) && Sane(w.db) && w.page.oldest <= w.first && (w.page.oldest == 0 ==> w.first == 0)
    requires Narrows(w.page.selected, saved) || !Uncovered(w.page, w.first)
    ensures Complete(w.(page := w.page.(selected := saved)))
  {
    if Narrows(w.page.selected, saved) {
      NarrowedMatchesFewer(w.db.notes, w.first, w.page.selected, saved);
      NarrowedMatchesFewer(w.db.notes, w.page.oldest, w.page.selected, saved);
    } else if w.page.reachedEnd && w.first != 0 {
      forall id ensures id !in Matching(w.db.notes, w.page.oldest, saved) {
        assert !(1 <= id < w.first && if id >= w.page.oldest then id !in HeldIds(w.page.held) else w.page.reachedEnd);
      }
    }
  }

  function Unlike(authors: seq<string>): (a: string)
    ensures forall b | b in authors :: |b| < |a|
  {
    if authors == [] then "?" else
      var a := Unlike(authors[1..]);
      if |a| > |authors[0]| then a else authors[0] + "?"
  }

  /** Exactly when the assignment keeps the promise, whatever notes there are: the filter narrows, or no note
      the page does not hold could be in what it has paged through. */
  lemma AssignmentKeepsCompleteIff(w: World, saved: seq<string>)
    requires Tidy(w)
    ensures (forall db | Sane(db) && w.first < db.next && Complete(w.(db := db)) ::
               Complete(w.(db := db, page := w.page.(selected := saved))))
            <==> Narrows(w.page.selected, saved) || !Uncovered(w.page, w.first)
  {
    hide Driven, Tagged, Anchored;
    if Narrows(w.page.selected, saved) || !Uncovered(w.page, w.first) {
      forall db | Sane(db) && w.first < db.next && Complete(w.(db := db))
        ensures Complete(w.(db := db, page := w.page.(selected := saved)))
      {
        var x := w.(db := db);
        AssignmentKeepsComplete(x, saved);
        assert x.(page := x.page.(selected := saved)) == w.(db := db, page := w.page.(selected := saved));
      }
    } else {
      WidenedMisses(w, saved);
    }
  }

  lemma WidenedMisses(w: World, saved: seq<string>)
    requires Tidy(w) && !Narrows(w.page.selected, saved) && Uncovered(w.page, w.first)
    ensures exists db :: Sane(db) && w.first < db.next && Complete(w.(db := db))
                         && !Complete(w.(db := db, page := w.page.(selected := saved)))
  {
    hide Driven, Tagged, Anchored;
    assert Unlike(w.page.selected) !in w.page.selected;
    var a :| a !in w.page.selected && (saved == [] || a in saved);
    var id :| 1 <= id < w.first && if id >= w.page.oldest then id !in HeldIds(w.page.held) else w.page.reachedEnd;
    var db := Db(map[id := a], w.first + 1);
    assert id in Matching(db.notes, w.first, saved);
    assert id < w.page.oldest ==> id in Matching(db.notes, w.page.oldest, saved);
    assert Complete(w.(db := db));
  }

  lemma AssignmentKeepsWorld(w: World, e: Event, me: string)
    requires Sound(w) && Allowed(w, Turn(e)) && e.SavedFilter? && Driven(Step(w.page, e, me))
    requires Anchored(Step(w.page, e, me))
    ensures Sound(Next(w, Turn(e), me))
  {
    var p, q := w.page, w.page.(selected := e.authors);
    var v := w.(page := q);
    assert Next(w, Turn(e), me) == v;
    AssignmentKeepsComplete(w, e.authors);
    if p.polls != [] && p.polls[0].gen == p.gen { assert p.polls[0] in p.polls && p.polls[0] in q.polls; }
    if p.older != [] && p.older[0].gen == p.gen { assert p.older[0] in p.older && p.older[0] in q.older; }
    hide Driven, Anchored, Matching, InWindow, Uncovered, Narrows, Next;
    assert Tidy(v) && PollReadOk(v) && OlderReadOk(v);
  }

  lemma MoveKeeps(w: World, m: Move, me: string)
    requires Sound(w) && Allowed(w, m)
    ensures Sound(Next(w, m, me))
  {
    match m
    case Edit(db) => EditKeeps(w, db);
    case PollRead(answer) => PollReadKeeps(w, answer);
    case OlderRead(answer) => OlderReadKeeps(w, answer);
    case Turn(e) =>
      StepKeepsDriven(w.page, e, me);
      StepKeepsAnchored(w.page, e, me);
      hide Step, Tidy, Complete, PollReadOk, OlderReadOk, First;
      match e
      case PollAnswered(_, _, _) => AnswerKeepsWorld(w, e, me);
      case PollFailed(_, _) => FailureKeepsWorld(w, e, me);
      case Select(_) => SelectKeepsWorld(w, e, me);
      case SavedFilter(_) => AssignmentKeepsWorld(w, e, me);
      case OlderClicked => OlderClickKeeps(w, me);
      case OlderAnswered(_, _) => OlderKeepsWorld(w, e, me);
      case OlderFailed(_, _) => OlderFailureKeeps(w, e, me);
      case FirstPoll => StartKeeps(w, e, me);
      case TimerFired => StartKeeps(w, e, me);
      case VisibilityChanged(_) => StartKeeps(w, e, me);
      case _ => HeldTurnsKeep(w, e, me);
  }

  lemma {:induction false} StoryKeeps(w: World, ms: seq<Move>, me: string)
    requires Sound(w) && Story(w, ms, me)
    ensures Sound(After(w, ms, me))
    decreases |ms|
  {
    hide Sound, Allowed, Next;
    if ms != [] {
      MoveKeeps(w, ms[0], me);
      StoryKeeps(Next(w, ms[0], me), ms[1..], me);
    }
  }

  /** From page load on, whatever the page does and however the table changes meanwhile: every matching note from the
      cursor of "load older" up to where it started is held, and once the end is reached every matching note
      below the start is: the page has delivered every survivor. */
  lemma LoadOlderDelivers(w: World, ms: seq<Move>, me: string, id: nat)
    requires Fresh(w) && Story(w, ms, me)
    requires var v := After(w, ms, me);
             && v.first != 0 && id in Matching(v.db.notes, v.first, v.page.selected)
             && (v.page.reachedEnd || id >= v.page.oldest)
    ensures id in HeldIds(After(w, ms, me).page.held)
  {
    assert Sound(w);
    StoryKeeps(w, ms, me);
    var v := After(w, ms, me);
    assert v.page.reachedEnd ==> id !in Matching(v.db.notes, v.page.oldest, v.page.selected);
  }
}

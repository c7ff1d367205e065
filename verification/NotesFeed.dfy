/** The notes page of frontend/js/page-notes.js: reconciliation of each poll with what is held, the
    polling driver with its backoff, and the generation counter that discards stale answers.
    One event is one event-loop turn of the page, from the moment it is loaded. */
module NotesFeed {
  import opened NotesStore
  import opened Wrappers

  const POLL_MS := 5000
  const MAX_BACKOFF_MS := 60000

  type NoteId = id: nat | id > 0 witness 1

  datatype Note = Note(id: NoteId, user: string)

  // ---------------------------------------------------------------------------
  // What is held: noteMap (shown) and pendingNew (behind the pill)
  // ---------------------------------------------------------------------------

  datatype Held = Held(shown: map<nat, Note>, waiting: map<nat, Note>)

  function HeldIds(h: Held): set<nat> {
    h.shown.Keys + h.waiting.Keys
  }

  function Ids(notes: seq<Note>): seq<nat>
    ensures |Ids(notes)| == |notes|
    ensures forall i | 0 <= i < |notes| :: Ids(notes)[i] == notes[i].id
  {
    seq(|notes|, i requires 0 <= i < |notes| => notes[i].id)
  }

  predicate InWindow(id: nat, fetched: seq<Note>) {
    fetched == [] || id >= fetched[|fetched| - 1].id
  }

  // Notes inside the window that the answer does not list were deleted.
  function Kept(m: map<nat, Note>, fetched: seq<Note>): map<nat, Note> {
    map id | id in m && (InWindow(id, fetched) ==> id in Ids(fetched)) :: m[id]
  }

  /** Adds the answered notes one by one; others' notes wait when `defer`. */
  function Merge(h: Held, notes: seq<Note>, defer: bool, me: string): Held {
    if notes == [] then h
    else
      var g := Merge(h, notes[..|notes| - 1], defer, me);
      var n := notes[|notes| - 1];
      if n.id in g.shown || n.id in g.waiting then g
      else if n.user == me || !defer then g.(shown := g.shown[n.id := n])
      else g.(waiting := g.waiting[n.id := n])
  }

  function Reconcile(h: Held, fetched: seq<Note>, defer: bool, me: string): Held {
    Merge(Held(Kept(h.shown, fetched), Kept(h.waiting, fetched)), fetched, defer, me)
  }

  function AddMissing(m: map<nat, Note>, notes: seq<Note>): map<nat, Note> {
    if notes == [] then m
    else
      var g, n := AddMissing(m, notes[..|notes| - 1]), notes[|notes| - 1];
      if n.id in g then g else g[n.id := n]
  }

  lemma {:induction false} MergeIds(h: Held, notes: seq<Note>, defer: bool, me: string, id: nat)
    ensures var g := Merge(h, notes, defer, me);
            && (id in HeldIds(g) <==> id in HeldIds(h) || id in Ids(notes))
            && (id in h.shown ==> id in g.shown && g.shown[id] == h.shown[id])
            && (id in h.waiting ==> id in g.waiting && g.waiting[id] == h.waiting[id])
            && (id in g.waiting && id !in h.waiting ==> defer && g.waiting[id].user != me)
            && (id !in Ids(notes) ==> (id in g.shown <==> id in h.shown) && (id in g.waiting <==> id in h.waiting))
  {
    if notes != [] {
      MergeIds(h, notes[..|notes| - 1], defer, me, id);
      assert Ids(notes) == Ids(notes[..|notes| - 1]) + [notes[|notes| - 1].id];
    }
  }

  /** After an answer is applied, the ids held at or above the window's minimum are exactly the
      answer's; below it nothing was touched; an empty answer empties both maps. */
  lemma WindowIsExactlyTheAnswer(h: Held, fetched: seq<Note>, defer: bool, me: string, id: nat)
    requires Falling(Ids(fetched))
    ensures var g := Reconcile(h, fetched, defer, me);
            && (InWindow(id, fetched) ==> (id in HeldIds(g) <==> id in Ids(fetched)))
            && (!InWindow(id, fetched) ==>
                  && (id in g.shown <==> id in h.shown) && (id in g.waiting <==> id in h.waiting)
                  && (id in h.shown ==> g.shown[id] == h.shown[id])
                  && (id in h.waiting ==> g.waiting[id] == h.waiting[id]))
            && (fetched == [] ==> id !in HeldIds(g))
  {
    MergeIds(Held(Kept(h.shown, fetched), Kept(h.waiting, fetched)), fetched, defer, me, id);
    if id in Ids(fetched) {
      var k :| 0 <= k < |fetched| && Ids(fetched)[k] == id;
      assert id >= fetched[|fetched| - 1].id;
    }
  }

  /** Against the server: the ids held in the window are exactly the matching notes the table had in that
      range when it answered. */
  lemma WindowMatchesServer(h: Held, fetched: seq<Note>, defer: bool, me: string, db: Db, authors: seq<string>, id: nat)
    requires Ids(fetched) == ListNotes(db, 0, PAGE, authors) && InWindow(id, fetched)
    ensures id in HeldIds(Reconcile(h, fetched, defer, me)) <==> id in Matching(db.notes, 0, authors)
  {
    TopIsPage(Matching(db.notes, 0, authors), PAGE);
    WindowIsExactlyTheAnswer(h, fetched, defer, me, id);
    if fetched != [] {
      var last := Ids(fetched)[|fetched| - 1];
      assert last in Ids(fetched);
    }
  }

  /** Which of the server's matching notes the page still lacks after an answer: exactly those below the
      window that it did not hold before, as after more than a page of new notes between two polls. */
  lemma MissingIffBelowWindow(h: Held, fetched: seq<Note>, defer: bool, me: string, db: Db,
                              authors: seq<string>, id: nat)
    requires Ids(fetched) == ListNotes(db, 0, PAGE, authors) && id in Matching(db.notes, 0, authors)
    ensures id !in HeldIds(Reconcile(h, fetched, defer, me)) <==> !InWindow(id, fetched) && id !in HeldIds(h)
  {
    TopIsPage(Matching(db.notes, 0, authors), PAGE);
    WindowIsExactlyTheAnswer(h, fetched, defer, me, id);
    if InWindow(id, fetched) {
      WindowMatchesServer(h, fetched, defer, me, db, authors, id);
    }
  }

  /** A load-older page adds exactly its ids and replaces nothing that is shown. */
  lemma {:induction false} OlderPageAddsItsIds(m: map<nat, Note>, notes: seq<Note>, id: nat)
    ensures id in AddMissing(m, notes) <==> id in m || id in Ids(notes)
    ensures id in m ==> AddMissing(m, notes)[id] == m[id]
  {
    if notes != [] {
      OlderPageAddsItsIds(m, notes[..|notes| - 1], id);
      assert Ids(notes) == Ids(notes[..|notes| - 1]) + [notes[|notes| - 1].id];
    }
  }

  // ---------------------------------------------------------------------------
  // The page
  // ---------------------------------------------------------------------------

  datatype PollRequest = PollRequest(gen: nat, authors: seq<string>)
  datatype OlderRequest = OlderRequest(gen: nat, before: nat, authors: seq<string>)

  /** timer holds the armed delay; polls and older the requests in flight; offered says that the "load
      older" button is on screen. */
  datatype Page = Page(
    held: Held, oldest: nat, reachedEnd: bool, offered: bool, initialLoaded: bool,
    timer: Option<nat>, backoff: nat, polling: bool, polls: seq<PollRequest>,
    loadingOlder: bool, older: seq<OlderRequest>,
    visible: bool, selected: seq<string>, gen: nat, leaving: bool)

  function Loaded(visible: bool): Page {
    Page(Held(map[], map[]), 0, false, false, false, None, POLL_MS, false, [], false, [], visible, [], 0, false)
  }

  datatype Event =
    | SavedFilter(authors: seq<string>)      // boot has loaded the saved author filter
    | FirstPoll                              // and starts polling
    | TimerFired
    | VisibilityChanged(visible: bool)
    | PollAnswered(i: nat, fetched: seq<Note>, scrolled: bool)
    | PollFailed(i: nat, unauthorized: bool)
    | Select(authors: seq<string>)
    | OlderClicked
    | OlderAnswered(j: nat, notes: seq<Note>)
    | OlderFailed(j: nat, unauthorized: bool)
    | Posted(note: Note)
    | Deleted(id: nat)
    | PillClicked

  predicate Enabled(p: Page, e: Event) {
    match e
    case TimerFired => p.timer.Some?
    case PollAnswered(i, _, _) => i < |p.polls|
    case PollFailed(i, _) => i < |p.polls|
    case OlderClicked => !p.loadingOlder && p.offered
    case OlderAnswered(j, _) => j < |p.older|
    case OlderFailed(j, _) => j < |p.older|
    case _ => true
  }

  function PollOnce(p: Page): Page {
    if p.polling then p else p.(polling := true, polls := p.polls + [PollRequest(p.gen, p.selected)])
  }

  function ScheduleNextPoll(p: Page): Page {
    if !p.visible then p.(timer := None) else p.(timer := Some(p.backoff))
  }

  function OnVisibility(p: Page, visible: bool): Page {
    if visible then PollOnce(p.(visible := true, backoff := POLL_MS)) else p.(visible := false, timer := None)
  }

  function Cleared(p: Page): Page {
    p.(gen := p.gen + 1, held := Held(map[], map[]), oldest := 0, reachedEnd := false, offered := false,
       initialLoaded := false, timer := None, backoff := POLL_MS)
  }

  function ResetFeed(p: Page): Page {
    PollOnce(Cleared(p))
  }

  function ApplySelection(p: Page, authors: seq<string>): Page {
    if authors == p.selected then p else ResetFeed(p.(selected := authors))
  }

  // The request leaves the air, and the finally block runs.
  function Finish(p: Page, i: nat): Page
    requires i < |p.polls|
  {
    var q := p.(polling := false, polls := p.polls[..i] + p.polls[i + 1..]);
    if p.polls[i].gen != p.gen then PollOnce(q) else ScheduleNextPoll(q)
  }

  function LandAnswer(p: Page, fetched: seq<Note>, scrolled: bool, me: string): Page {
    p.(backoff := POLL_MS, held := Reconcile(p.held, fetched, scrolled && p.initialLoaded, me),
       oldest := if p.oldest == 0 && fetched != [] then fetched[|fetched| - 1].id else p.oldest,
       offered := p.offered || (|fetched| >= PAGE && !p.reachedEnd), initialLoaded := true)
  }

  function OnAnswer(p: Page, i: nat, fetched: seq<Note>, scrolled: bool, me: string): Page
    requires i < |p.polls|
  {
    Finish(if p.polls[i].gen != p.gen then p else LandAnswer(p, fetched, scrolled, me), i)
  }

  function Doubled(backoff: nat): nat {
    if backoff * 2 > MAX_BACKOFF_MS then MAX_BACKOFF_MS else backoff * 2
  }

  function OnFailure(p: Page, i: nat, unauthorized: bool): Page
    requires i < |p.polls|
  {
    Finish(if p.polls[i].gen != p.gen then p
           else if unauthorized then p.(leaving := true)
           else p.(backoff := Doubled(p.backoff)), i)
  }

  function ClickOlder(p: Page): Page {
    p.(loadingOlder := true, older := p.older + [OlderRequest(p.gen, p.oldest, p.selected)])
  }

  function OnOlder(p: Page, j: nat, notes: seq<Note>): Page
    requires j < |p.older|
  {
    var q := p.(loadingOlder := false, older := p.older[..j] + p.older[j + 1..]);
    if p.older[j].gen != p.gen then q
    else q.(held := p.held.(shown := AddMissing(p.held.shown, notes)),
            oldest := if notes != [] then notes[|notes| - 1].id else p.oldest,
            reachedEnd := p.reachedEnd || |notes| < PAGE, offered := p.offered && |notes| >= PAGE)
  }

  function OnOlderFailed(p: Page, j: nat, unauthorized: bool): Page
    requires j < |p.older|
  {
    p.(loadingOlder := false, older := p.older[..j] + p.older[j + 1..], leaving := p.leaving || unauthorized)
  }

  function OnPosted(p: Page, n: Note): Page {
    p.(held := if n.id in p.held.shown then p.held else p.held.(shown := p.held.shown[n.id := n]),
       oldest := if p.oldest == 0 then n.id else p.oldest)
  }

  function OnDeleted(p: Page, id: nat): Page {
    p.(held := Held(p.held.shown - {id}, p.held.waiting - {id}))
  }

  function ShowWaiting(h: Held): Held {
    Held(h.waiting + h.shown, map[])
  }

  function Step(p: Page, e: Event, me: string): Page
    requires Enabled(p, e)
  {
    match e
    case SavedFilter(authors) => p.(selected := authors)
    case FirstPoll => PollOnce(p)
    case TimerFired => PollOnce(p.(timer := None))
    case VisibilityChanged(v) => OnVisibility(p, v)
    case PollAnswered(i, fetched, scrolled) => OnAnswer(p, i, fetched, scrolled, me)
    case PollFailed(i, unauthorized) => OnFailure(p, i, unauthorized)
    case Select(authors) => ApplySelection(p, authors)
    case OlderClicked => ClickOlder(p)
    case OlderAnswered(j, notes) => OnOlder(p, j, notes)
    case OlderFailed(j, unauthorized) => OnOlderFailed(p, j, unauthorized)
    case Posted(n) => OnPosted(p, n)
    case Deleted(id) => OnDeleted(p, id)
    case PillClicked => p.(held := ShowWaiting(p.held))
  }

  ghost predicate Possible(p: Page, es: seq<Event>, me: string)
    decreases |es|
  {
    es == [] || (Enabled(p, es[0]) && Possible(Step(p, es[0], me), es[1..], me))
  }

  function Run(p: Page, es: seq<Event>, me: string): Page
    requires Possible(p, es, me)
    decreases |es|
  {
    if es == [] then p else Run(Step(p, es[0], me), es[1..], me)
  }

  // ---------------------------------------------------------------------------
  // What every turn keeps
  // ---------------------------------------------------------------------------

  // At most one poll is in the air, exactly when the flag says so; delays stay in range.
  ghost predicate Driven(p: Page) {
    && |p.polls| == (if p.polling then 1 else 0)
    && |p.older| == (if p.loadingOlder then 1 else 0)
    && (forall r | r in p.polls :: r.gen <= p.gen) && (forall r | r in p.older :: r.gen <= p.gen)
    && POLL_MS <= p.backoff <= MAX_BACKOFF_MS
    && (p.timer.Some? ==> POLL_MS <= p.timer.value <= MAX_BACKOFF_MS && p.visible)
  }

  // A request of the current generation asked for the authors that are selected now.
  ghost predicate Tagged(p: Page) {
    && (forall r | r in p.polls && r.gen == p.gen :: r.authors == p.selected)
    && (forall r | r in p.older && r.gen == p.gen :: r.authors == p.selected)
  }

  ghost predicate Awake(p: Page) {
    p.visible ==> p.polling || p.timer.Some?
  }

  // Tags are kept, whether or not they were right before.
  ghost predicate Keeps(p: Page, q: Page) {
    Driven(q) && (Tagged(p) ==> Tagged(q))
  }

  lemma PollOnceKeeps(p: Page)
    requires Driven(p)
    ensures Keeps(p, PollOnce(p)) && Awake(PollOnce(p))
  {
  }

  lemma SettledKeeps(p: Page, i: nat)
    requires Driven(p) && i < |p.polls|
    ensures Keeps(p, p.(polling := false, polls := p.polls[..i] + p.polls[i + 1..]))
    ensures p.polls[..i] + p.polls[i + 1..] == []
  {
    assert p.polls[..i] + p.polls[i + 1..] == [];
  }

  lemma ScheduleKeeps(p: Page)
    requires Driven(p)
    ensures Keeps(p, ScheduleNextPoll(p)) && Awake(ScheduleNextPoll(p))
  {
  }

  // A stale poll is followed at once by one for the present filter.
  lemma FinishKeeps(p: Page, i: nat)
    requires Driven(p) && i < |p.polls|
    ensures Keeps(p, Finish(p, i)) && Awake(Finish(p, i))
    ensures p.polls[i].gen != p.gen ==> Finish(p, i).polls == [PollRequest(p.gen, p.selected)]
  {
    hide Driven, Tagged, Awake, ScheduleNextPoll;
    SettledKeeps(p, i);
    var q := p.(polling := false, polls := p.polls[..i] + p.polls[i + 1..]);
    ScheduleKeeps(q);
    PollOnceKeeps(q);
  }

  lemma SettledOlderKeeps(p: Page, j: nat)
    requires Driven(p) && j < |p.older|
    ensures var q := p.(loadingOlder := false, older := p.older[..j] + p.older[j + 1..]);
            Keeps(p, q) && (Awake(p) ==> Awake(q))
  {
    assert p.older[..j] + p.older[j + 1..] == [];
  }

  lemma OlderKeeps(p: Page, j: nat, notes: seq<Note>)
    requires Driven(p) && j < |p.older|
    ensures var q := OnOlder(p, j, notes); Keeps(p, q) && (Awake(p) ==> Awake(q))
  {
    hide AddMissing, Driven, Tagged, Awake;
    SettledOlderKeeps(p, j);
    HeldTurnKeeps(p.(loadingOlder := false, older := p.older[..j] + p.older[j + 1..]), OnOlder(p, j, notes));
  }

  lemma OlderFailedKeeps(p: Page, j: nat, unauthorized: bool)
    requires Driven(p) && j < |p.older|
    ensures var q := OnOlderFailed(p, j, unauthorized); Keeps(p, q) && (Awake(p) ==> Awake(q))
  {
    assert p.older[..j] + p.older[j + 1..] == [];
  }

  lemma ClearedKeeps(p: Page, authors: seq<string>)
    requires Driven(p)
    ensures Driven(Cleared(p.(selected := authors))) && Tagged(Cleared(p.(selected := authors)))
  {
  }

  lemma LandAnswerKeeps(p: Page, fetched: seq<Note>, scrolled: bool, me: string)
    requires Driven(p)
    ensures var q := LandAnswer(p, fetched, scrolled, me); Keeps(p, q) && q.polls == p.polls
  {
    hide Reconcile;
  }

  lemma AnswerKeeps(p: Page, i: nat, fetched: seq<Note>, scrolled: bool, me: string)
    requires Driven(p) && i < |p.polls|
    ensures var q := OnAnswer(p, i, fetched, scrolled, me); Keeps(p, q) && Awake(q)
  {
    hide Finish, LandAnswer;
    LandAnswerKeeps(p, fetched, scrolled, me);
    FinishKeeps(if p.polls[i].gen != p.gen then p else LandAnswer(p, fetched, scrolled, me), i);
  }

  lemma FailureKeeps(p: Page, i: nat, unauthorized: bool)
    requires Driven(p) && i < |p.polls|
    ensures var q := OnFailure(p, i, unauthorized); Keeps(p, q) && Awake(q)
  {
    hide Finish;
    FinishKeeps(if p.polls[i].gen != p.gen then p
                else if unauthorized then p.(leaving := true) else p.(backoff := Doubled(p.backoff)), i);
  }

  lemma SelectionKeeps(p: Page, authors: seq<string>)
    requires Driven(p)
    ensures var q := ApplySelection(p, authors); Keeps(p, q) && (Awake(p) ==> Awake(q))
  {
    hide Cleared, PollOnce;
    if authors != p.selected {
      ClearedKeeps(p, authors);
      PollOnceKeeps(Cleared(p.(selected := authors)));
    }
  }

  lemma VisibilityKeeps(p: Page, visible: bool)
    requires Driven(p)
    ensures var q := OnVisibility(p, visible); Keeps(p, q) && Awake(q)
  {
    hide PollOnce;
    if visible { PollOnceKeeps(p.(visible := true, backoff := POLL_MS)); }
  }

  lemma TimerKeeps(p: Page)
    requires Driven(p)
    ensures var q := PollOnce(p.(timer := None)); Keeps(p, q) && Awake(q)
  {
  }

  lemma ClickKeeps(p: Page)
    requires Driven(p) && !p.loadingOlder
    ensures Keeps(p, ClickOlder(p)) && (Awake(p) ==> Awake(ClickOlder(p)))
  {
  }

  // Turns that only change what is held, the cursor or the filter.
  lemma HeldTurnKeeps(p: Page, q: Page)
    requires Driven(p) && q.polls == p.polls && q.polling == p.polling && q.older == p.older && q.gen == p.gen
    requires q.loadingOlder == p.loadingOlder && q.backoff == p.backoff && q.timer == p.timer && q.visible == p.visible
    ensures Driven(q) && (Awake(p) ==> Awake(q)) && (q.selected == p.selected && Tagged(p) ==> Tagged(q))
  {
  }

  lemma StepKeepsDriven(p: Page, e: Event, me: string)
    requires Driven(p) && Enabled(p, e)
    ensures Driven(Step(p, e, me)) && (Tagged(p) && !e.SavedFilter? ==> Tagged(Step(p, e, me)))
    ensures Awake(p) || e.FirstPoll? ==> Awake(Step(p, e, me))
  {
    hide Driven, Tagged, Awake, ShowWaiting, PollOnce, OnVisibility, OnAnswer, OnFailure, ClickOlder, OnOlder,
         OnOlderFailed, ApplySelection;
    match e
    case FirstPoll => PollOnceKeeps(p);
    case TimerFired => TimerKeeps(p);
    case VisibilityChanged(v) => VisibilityKeeps(p, v);
    case PollAnswered(i, fetched, scrolled) => AnswerKeeps(p, i, fetched, scrolled, me);
    case PollFailed(i, u) => FailureKeeps(p, i, u);
    case Select(authors) => SelectionKeeps(p, authors);
    case OlderClicked => ClickKeeps(p);
    case OlderAnswered(j, notes) => OlderKeeps(p, j, notes);
    case OlderFailed(j, u) => OlderFailedKeeps(p, j, u);
    case _ => HeldTurnKeeps(p, Step(p, e, me));
  }

  predicate NoSaved(es: seq<Event>) {
    forall e | e in es :: !e.SavedFilter?
  }

  lemma {:induction false} RunKeepsDriven(p: Page, es: seq<Event>, me: string)
    requires Driven(p) && Possible(p, es, me)
    ensures Driven(Run(p, es, me)) && (Tagged(p) && NoSaved(es) ==> Tagged(Run(p, es, me)))
    ensures Awake(p) ==> Awake(Run(p, es, me))
    decreases |es|
  {
    if es != [] {
      StepKeepsDriven(p, es[0], me);
      RunKeepsDriven(Step(p, es[0], me), es[1..], me);
      assert es[0] in es && forall e | e in es[1..] :: e in es;
    }
  }

  // A load-older request of this generation asks from the cursor, which is set while the button is offered.
  ghost predicate Anchored(p: Page) {
    && (forall r | r in p.older && r.gen == p.gen :: r.before == p.oldest && p.oldest != 0)
    && (p.offered ==> p.oldest != 0)
  }

  // Requests and generation stay, and so does a set cursor; the button comes only with a cursor.
  ghost predicate LeavesCursor(p: Page, q: Page) {
    && q.older == p.older && q.gen == p.gen && q.selected == p.selected && q.reachedEnd == p.reachedEnd
    && (p.oldest != 0 ==> q.oldest == p.oldest) && (q.offered ==> p.offered || q.oldest != 0)
  }

  // Nothing but the driver of the polls changes.
  ghost predicate OnlyDrives(p: Page, q: Page) {
    && q.held == p.held && q.oldest == p.oldest && q.reachedEnd == p.reachedEnd && q.offered == p.offered
    && q.older == p.older && q.gen == p.gen && q.selected == p.selected && q.initialLoaded == p.initialLoaded
  }

  lemma PollingOnlyDrives(p: Page)
    ensures OnlyDrives(p, PollOnce(p)) && OnlyDrives(p, ScheduleNextPoll(p))
  {
  }

  lemma FinishLeavesCursor(p: Page, i: nat)
    requires i < |p.polls|
    ensures OnlyDrives(p, Finish(p, i))
  {
    hide PollOnce, ScheduleNextPoll;
    PollingOnlyDrives(p.(polling := false, polls := p.polls[..i] + p.polls[i + 1..]));
  }

  lemma LandAnswerLeavesCursor(p: Page, fetched: seq<Note>, scrolled: bool, me: string)
    ensures var q := LandAnswer(p, fetched, scrolled, me); LeavesCursor(p, q) && q.polls == p.polls
  {
    hide Reconcile;
  }

  lemma AnswerLeavesCursor(p: Page, i: nat, fetched: seq<Note>, scrolled: bool, me: string)
    requires i < |p.polls|
    ensures LeavesCursor(p, OnAnswer(p, i, fetched, scrolled, me))
  {
    hide Finish, LandAnswer;
    LandAnswerLeavesCursor(p, fetched, scrolled, me);
    FinishLeavesCursor(if p.polls[i].gen != p.gen then p else LandAnswer(p, fetched, scrolled, me), i);
  }

  lemma FailureOnlyDrives(p: Page, i: nat, unauthorized: bool)
    requires i < |p.polls|
    ensures OnlyDrives(p, OnFailure(p, i, unauthorized))
  {
    hide Finish;
    FinishLeavesCursor(if p.polls[i].gen != p.gen then p
                       else if unauthorized then p.(leaving := true) else p.(backoff := Doubled(p.backoff)), i);
  }

  // Turns that only start polls or arm the timer.
  lemma StartingOnlyDrives(p: Page, e: Event, me: string)
    requires Enabled(p, e) && (e.FirstPoll? || e.TimerFired? || e.VisibilityChanged?)
    ensures OnlyDrives(p, Step(p, e, me))
  {
    hide PollOnce;
    match e
    case FirstPoll => PollingOnlyDrives(p);
    case TimerFired => PollingOnlyDrives(p.(timer := None));
    case VisibilityChanged(v) => if v { PollingOnlyDrives(p.(visible := true, backoff := POLL_MS)); }
  }

  // Turns that neither page back nor change the filter.
  lemma OtherTurnsLeaveCursor(p: Page, e: Event, me: string)
    requires Enabled(p, e) && !e.Select? && !e.SavedFilter? && !e.OlderClicked? && !e.OlderAnswered? && !e.OlderFailed?
    ensures LeavesCursor(p, Step(p, e, me))
  {
    hide ShowWaiting, OnAnswer, OnFailure;
    match e
    case PollAnswered(i, fetched, scrolled) => AnswerLeavesCursor(p, i, fetched, scrolled, me);
    case PollFailed(i, u) => FailureOnlyDrives(p, i, u);
    case _ =>
  }

  lemma StepKeepsAnchored(p: Page, e: Event, me: string)
    requires Driven(p) && Anchored(p) && Enabled(p, e)
    ensures Anchored(Step(p, e, me))
  {
    hide AddMissing, OnAnswer, OnFailure, ShowWaiting, LandAnswer, Finish;
    match e
    case SavedFilter(_) =>
    case OlderAnswered(j, _) => assert p.older[..j] + p.older[j + 1..] == [];
    case OlderFailed(j, _) => assert p.older[..j] + p.older[j + 1..] == [];
    case OlderClicked =>
    case Select(_) =>
    case _ =>
      hide Step;
      OtherTurnsLeaveCursor(p, e, me);
  }

  lemma {:induction false} RunKeepsAnchored(p: Page, es: seq<Event>, me: string)
    requires Driven(p) && Anchored(p) && Possible(p, es, me)
    ensures Driven(Run(p, es, me)) && Anchored(Run(p, es, me))
    decreases |es|
  {
    if es != [] {
      StepKeepsDriven(p, es[0], me);
      StepKeepsAnchored(p, es[0], me);
      RunKeepsAnchored(Step(p, es[0], me), es[1..], me);
    }
  }

  // The answer to a load-older request lists notes below the cursor it was made from.
  ghost predicate AnswersBelow(p: Page, e: Event)
    requires Enabled(p, e)
  {
    e.OlderAnswered? ==> forall n | n in e.notes :: n.id < p.older[e.j].before
  }

  lemma CursorStep(p: Page, e: Event, me: string)
    requires Driven(p) && Anchored(p) && Enabled(p, e) && AnswersBelow(p, e) && p.oldest != 0
    ensures var q := Step(p, e, me);
            && (q.oldest != p.oldest ==> e.OlderAnswered? || (e.Select? && q.oldest == 0 && q.gen == p.gen + 1))
            && (e.OlderAnswered? ==>
                  q.oldest == if p.older[e.j].gen == p.gen && e.notes != [] then e.notes[|e.notes| - 1].id
                              else p.oldest)
            && q.oldest <= p.oldest
  {
    hide AddMissing, OnAnswer, OnFailure, ShowWaiting, LandAnswer, Finish, Driven;
    match e
    case SavedFilter(_) =>
    case OlderAnswered(j, notes) => assert p.older[j] in p.older && (notes != [] ==> notes[|notes| - 1] in notes);
    case OlderFailed(j, _) =>
    case OlderClicked =>
    case Select(_) =>
    case _ =>
      hide Step;
      OtherTurnsLeaveCursor(p, e, me);
  }

  /** The cursor of "load older" only ever moves down, and only by a current load-older answer: polls,
      posts and deletions leave it alone once it is set, and a change of filter is what clears it. */
  lemma CursorOnlyFalls(visible: bool, es: seq<Event>, e: Event, me: string)
    requires Possible(Loaded(visible), es, me)
    requires var p := Run(Loaded(visible), es, me); Enabled(p, e) && AnswersBelow(p, e) && p.oldest != 0
    ensures var p := Run(Loaded(visible), es, me);
            var q := Step(p, e, me);
            && (q.oldest != p.oldest ==> e.OlderAnswered? || (e.Select? && q.oldest == 0 && q.gen == p.gen + 1))
            && (e.OlderAnswered? ==>
                  q.oldest == if p.older[e.j].gen == p.gen && e.notes != [] then e.notes[|e.notes| - 1].id
                              else p.oldest)
            && q.oldest <= p.oldest
  {
    hide Step, Run;
    RunKeepsAnchored(Loaded(visible), es, me);
    CursorStep(Run(Loaded(visible), es, me), e, me);
  }

  /** The driver never stalls and never overlaps: from the moment a first poll is in the air, whoever started
      it, whenever the page is visible a poll is in the air or a timer is armed; on every run never two polls
      are in the air, and every delay stays between 5 and 60 seconds. */
  lemma DriverNeverStallsOrOverlaps(visible: bool, before: seq<Event>, after: seq<Event>, me: string)
    requires Possible(Loaded(visible), before, me) && Possible(Run(Loaded(visible), before, me), after, me)
    ensures var p := Run(Run(Loaded(visible), before, me), after, me);
            && |p.polls| <= 1 && POLL_MS <= p.backoff <= MAX_BACKOFF_MS
            && (p.timer.Some? ==> POLL_MS <= p.timer.value <= MAX_BACKOFF_MS)
            && (Run(Loaded(visible), before, me).polls != [] ==> p.visible ==> |p.polls| == 1 || p.timer.Some?)
  {
    RunKeepsDriven(Loaded(visible), before, me);
    RunKeepsDriven(Run(Loaded(visible), before, me), after, me);
  }

  // ---------------------------------------------------------------------------
  // Stale filters
  // ---------------------------------------------------------------------------

  /** An answer that changes what is held was asked for the authors selected now. */
  ghost predicate Loyal(p: Page, e: Event, me: string)
    requires Enabled(p, e)
  {
    && (e.PollAnswered? && Step(p, e, me).held != p.held ==> p.polls[e.i].authors == p.selected)
    && (e.OlderAnswered? && Step(p, e, me).held != p.held ==> p.older[e.j].authors == p.selected)
  }

  lemma TaggedIsLoyal(p: Page, e: Event, me: string)
    requires Tagged(p) && Enabled(p, e)
    ensures Loyal(p, e, me)
  {
    hide Reconcile, AddMissing, LandAnswer, Finish;
    match e
    case PollAnswered(i, _, _) => FinishLeavesCursor(p, i); assert p.polls[i] in p.polls;
    case OlderAnswered(j, _) => assert p.older[j] in p.older;
    case _ =>
  }

  /** If what is in the air when boot assigns the saved filter was asked for that filter, as when nothing is,
      then ever after a poll or load-older answer changes the held notes only if it was asked for the authors
      selected when it lands; and if the filter changed meanwhile, a poll for the new one is in the air as
      soon as the old one settles. */
  lemma StaleAnswersAreDiscarded(p: Page, es: seq<Event>, e: Event, me: string)
    requires Driven(p) && Tagged(p) && Possible(p, es, me) && NoSaved(es) && Enabled(Run(p, es, me), e)
    ensures var q := Run(p, es, me);
            var r := Step(q, e, me);
            && Loyal(q, e, me)
            && (e.PollAnswered? && q.polls[e.i].gen != q.gen ==> r.polls == [PollRequest(q.gen, q.selected)])
            && (e.PollFailed? && q.polls[e.i].gen != q.gen ==> r.polls == [PollRequest(q.gen, q.selected)])
            && (e.Select? && e.authors != q.selected ==>
                  r.held == Held(map[], map[]) && |r.polls| == 1 && (q.polls == [] <==> r.polls[0].gen == r.gen))
  {
    hide Reconcile, AddMissing, ShowWaiting, Loyal, Finish;
    var q := Run(p, es, me);
    RunKeepsDriven(p, es, me);
    TaggedIsLoyal(q, e, me);
    match e
    case PollAnswered(i, _, _) => FinishKeeps(q, i);
    case PollFailed(i, _) => FinishKeeps(q, i);
    case Select(_) => assert q.polls != [] ==> q.polls[0] in q.polls;
    case _ =>
  }
}

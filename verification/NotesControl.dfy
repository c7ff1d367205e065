/** The notes page behind its flags: at most one poll and one request for older notes, a timer, a cursor, and what
    has been seen of the feed.  On every run the page's flags, lists and delays are these. */
module NotesControl {
  import opened NotesStore
  import opened NotesFeed
  import opened Wrappers

  function Power(n: nat): (r: nat)
    ensures r >= 1
  {
    if n == 0 then 1 else 2 * Power(n - 1)
  }

  /** Five seconds, twice as long for every failure in a row, at most a minute. */
  function DelayAfter(failures: nat): nat {
    if POLL_MS * Power(failures) > MAX_BACKOFF_MS then MAX_BACKOFF_MS else POLL_MS * Power(failures)
  }

  lemma OneFailureMore(failures: nat)
    ensures Doubled(DelayAfter(failures)) == DelayAfter(failures + 1)
  {
    assert POLL_MS * Power(failures + 1) == 2 * (POLL_MS * Power(failures));
  }

  lemma NoFailures()
    ensures DelayAfter(0) == POLL_MS
  {
  }

  /** failures counts those in a row; full and short say that a full answer and a short older page have landed since
      the filter was chosen. */
  datatype Control = Control(
    visible: bool, selected: seq<string>, gen: nat, poll: Option<PollRequest>, timer: Option<nat>, failures: nat,
    older: Option<OlderRequest>, cursor: nat, full: bool, short: bool, leaving: bool)

  function Opened(visible: bool): Control {
    Control(visible, [], 0, None, None, 0, None, 0, false, false, false)
  }

  // A poll is in the air afterwards: the one that was, or one for the present filter.
  function Asking(c: Control): Control {
    if c.poll.Some? then c else c.(poll := Some(PollRequest(c.gen, c.selected)))
  }

  function Timed(c: Control): Control {
    c.(poll := None, timer := if c.visible then Some(DelayAfter(c.failures)) else None)
  }

  function LastId(notes: seq<Note>, before: nat): nat {
    if notes == [] then before else notes[|notes| - 1].id
  }

  // A poll that settles was for the present filter; otherwise another is sent at once.
  predicate Settles(c: Control) {
    c.poll.Some? && c.poll.value.gen == c.gen
  }

  function Again(c: Control): Control {
    Asking(c.(poll := None))
  }

  function ControlNext(c: Control, e: Event): Control {
    match e
    case SavedFilter(authors) => c.(selected := authors)
    case FirstPoll => Asking(c)
    case TimerFired => Asking(c.(timer := None))
    case VisibilityChanged(v) =>
      if v then Asking(c.(visible := true, failures := 0)) else c.(visible := false, timer := None)
    case PollAnswered(_, fetched, _) =>
      if !Settles(c) then Again(c)
      else Timed(c.(failures := 0, full := c.full || |fetched| >= PAGE,
                    cursor := if c.cursor == 0 then LastId(fetched, 0) else c.cursor))
    case PollFailed(_, unauthorized) =>
      if !Settles(c) then Again(c)
      else if unauthorized then Timed(c.(leaving := true))
      else Timed(c.(failures := c.failures + 1))
    case Select(authors) =>
      if authors == c.selected then c
      else Asking(Control(c.visible, authors, c.gen + 1, c.poll, None, 0, c.older, 0, false, false, c.leaving))
    case OlderClicked => c.(older := Some(OlderRequest(c.gen, c.cursor, c.selected)))
    case OlderAnswered(_, notes) =>
      if c.older.Some? && c.older.value.gen == c.gen then
        c.(older := None, cursor := LastId(notes, c.cursor), short := c.short || |notes| < PAGE)
      else c.(older := None)
    case OlderFailed(_, unauthorized) => c.(older := None, leaving := c.leaving || unauthorized)
    case Posted(n) => if c.cursor == 0 then c.(cursor := n.id) else c
    case Deleted(_) => c
    case PillClicked => c
  }

  function ControlAfter(c: Control, es: seq<Event>): Control
    decreases |es|
  {
    if es == [] then c else ControlAfter(ControlNext(c, es[0]), es[1..])
  }

  // The page's polls, timer and delay.
  predicate DrivesAs(p: Page, c: Control) {
    && p.visible == c.visible && p.selected == c.selected && p.gen == c.gen && p.leaving == c.leaving
    && p.polls == (if c.poll.Some? then [c.poll.value] else []) && p.polling == c.poll.Some?
    && p.timer == c.timer && p.backoff == DelayAfter(c.failures)
  }

  // Its cursor, its button, and the request for older notes.
  predicate PagesAs(p: Page, c: Control) {
    && p.older == (if c.older.Some? then [c.older.value] else []) && p.loadingOlder == c.older.Some?
    && p.oldest == c.cursor && p.offered == (c.full && !c.short) && p.reachedEnd == c.short
  }

  lemma PollOnceIs(p: Page, c: Control)
    requires DrivesAs(p, c)
    ensures DrivesAs(PollOnce(p), Asking(c))
  {
    hide DelayAfter;
  }

  lemma AskingKeepsPaging(p: Page, q: Page, c: Control)
    requires PagesAs(p, c) && OnlyDrives(p, q) && q.loadingOlder == p.loadingOlder
    ensures PagesAs(q, Asking(c))
  {
  }

  lemma FinishDrives(p: Page, c: Control)
    requires DrivesAs(p, c) && c.poll.Some?
    ensures DrivesAs(Finish(p, 0), if Settles(c) then Timed(c) else Again(c))
  {
    hide DelayAfter, PollOnce;
    var q, d := p.(polling := false, polls := p.polls[..0] + p.polls[1..]), c.(poll := None);
    assert q.polls == [];
    PollOnceIs(q, d);
  }

  lemma Finished(p: Page, c: Control)
    requires DrivesAs(p, c) && PagesAs(p, c) && c.poll.Some?
    ensures var d := if Settles(c) then Timed(c) else Again(c); DrivesAs(Finish(p, 0), d) && PagesAs(Finish(p, 0), d)
  {
    FinishDrives(p, c);
    FinishLeavesCursor(p, 0);
    FinishKeepsClick(p, 0);
    SettledPages(c);
    hide DrivesAs, Finish, Timed, Again;
  }

  lemma FinishKeepsClick(p: Page, i: nat)
    requires i < |p.polls|
    ensures Finish(p, i).loadingOlder == p.loadingOlder
  {
    hide ScheduleNextPoll, PollOnce;
    var q := p.(polling := false, polls := p.polls[..i] + p.polls[i + 1..]);
    assert PollOnce(q).loadingOlder == ScheduleNextPoll(q).loadingOlder == q.loadingOlder by { PollKeepsClick(q); }
  }

  lemma PollKeepsClick(p: Page)
    ensures PollOnce(p).loadingOlder == ScheduleNextPoll(p).loadingOlder == p.loadingOlder
  {
  }

  // What a settling poll leaves of the paging part.
  lemma SettledPages(c: Control)
    ensures var d := if Settles(c) then Timed(c) else Again(c);
            d.older == c.older && d.cursor == c.cursor && d.full == c.full && d.short == c.short
  {
    hide DelayAfter;
  }

  function Landed(c: Control, fetched: seq<Note>): Control {
    c.(failures := 0, full := c.full || |fetched| >= PAGE,
       cursor := if c.cursor == 0 then LastId(fetched, 0) else c.cursor)
  }

  lemma LandedIs(p: Page, c: Control, fetched: seq<Note>, scrolled: bool, me: string)
    requires DrivesAs(p, c) && PagesAs(p, c)
    ensures DrivesAs(LandAnswer(p, fetched, scrolled, me), Landed(c, fetched))
    ensures PagesAs(LandAnswer(p, fetched, scrolled, me), Landed(c, fetched))
  {
    NoFailures();
    hide DelayAfter, Reconcile;
  }

  lemma AnsweredIs(p: Page, c: Control, fetched: seq<Note>, scrolled: bool, me: string)
    requires DrivesAs(p, c) && PagesAs(p, c) && c.poll.Some?
    ensures var q := OnAnswer(p, 0, fetched, scrolled, me);
            var d := if Settles(c) then Timed(Landed(c, fetched)) else Again(c);
            DrivesAs(q, d) && PagesAs(q, d)
  {
    LandedIs(p, c, fetched, scrolled, me);
    if Settles(c) {
      Finished(LandAnswer(p, fetched, scrolled, me), Landed(c, fetched));
    } else {
      Finished(p, c);
    }
    hide Finish, LandAnswer, Timed, Again, PagesAs;
  }

  lemma AnswerIs(p: Page, c: Control, i: nat, fetched: seq<Note>, scrolled: bool, me: string)
    requires DrivesAs(p, c) && PagesAs(p, c) && i < |p.polls|
    ensures var q, d := OnAnswer(p, i, fetched, scrolled, me), ControlNext(c, PollAnswered(i, fetched, scrolled));
            DrivesAs(q, d) && PagesAs(q, d)
  {
    AnsweredIs(p, c, fetched, scrolled, me);
    assert i == 0;
    hide OnAnswer, Timed, Again, PagesAs;
  }

  function Failed(c: Control, unauthorized: bool): Control {
    if unauthorized then c.(leaving := true) else c.(failures := c.failures + 1)
  }

  lemma FailedIs(p: Page, c: Control, unauthorized: bool)
    requires DrivesAs(p, c) && PagesAs(p, c) && c.poll.Some?
    ensures var q := OnFailure(p, 0, unauthorized);
            var d := if Settles(c) then Timed(Failed(c, unauthorized)) else Again(c);
            DrivesAs(q, d) && PagesAs(q, d)
  {
    OneFailureMore(c.failures);
    hide DelayAfter, Doubled, Finish, Timed, Again;
    if Settles(c) {
      Finished(if unauthorized then p.(leaving := true) else p.(backoff := Doubled(p.backoff)),
               Failed(c, unauthorized));
    } else {
      Finished(p, c);
    }
  }

  lemma FailureIs(p: Page, c: Control, e: Event, me: string)
    requires DrivesAs(p, c) && PagesAs(p, c) && Enabled(p, e) && e.PollFailed?
    ensures var q := Step(p, e, me); DrivesAs(q, ControlNext(c, e)) && PagesAs(q, ControlNext(c, e))
  {
    FailedIs(p, c, e.unauthorized);
    hide OnAnswer, Timed, Again, PagesAs, OnFailure, OnOlder, ApplySelection, OnVisibility, PollOnce;
  }

  lemma StartIs(p: Page, c: Control, e: Event, me: string)
    requires DrivesAs(p, c) && PagesAs(p, c) && Enabled(p, e)
    requires e.FirstPoll? || e.TimerFired? || e.VisibilityChanged?
    ensures var q := Step(p, e, me); DrivesAs(q, ControlNext(c, e)) && PagesAs(q, ControlNext(c, e))
  {
    NoFailures();
    match e
    case FirstPoll =>
      StartedIs(p, c);
      assert Step(p, e, me) == PollOnce(p);
    case TimerFired =>
      StartedIs(p.(timer := None), c.(timer := None));
      assert Step(p, e, me) == PollOnce(p.(timer := None));
    case VisibilityChanged(v) =>
      if v { StartedIs(p.(visible := true, backoff := POLL_MS), c.(visible := true, failures := 0)); }
      assert Step(p, e, me) == OnVisibility(p, v);
      hide PollOnce, DelayAfter;
  }

  lemma StartedIs(p: Page, c: Control)
    requires DrivesAs(p, c) && PagesAs(p, c)
    ensures DrivesAs(PollOnce(p), Asking(c)) && PagesAs(PollOnce(p), Asking(c))
  {
    PollOnceIs(p, c);
    hide DelayAfter, DrivesAs;
  }

  lemma SelectIs(p: Page, c: Control, e: Event, me: string)
    requires DrivesAs(p, c) && PagesAs(p, c) && e.Select?
    ensures var q := Step(p, e, me); DrivesAs(q, ControlNext(c, e)) && PagesAs(q, ControlNext(c, e))
  {
    NoFailures();
    hide DelayAfter, PollOnce;
    if e.authors != p.selected {
      StartedIs(Cleared(p.(selected := e.authors)),
                Control(c.visible, e.authors, c.gen + 1, c.poll, None, 0, c.older, 0, false, false, c.leaving));
    }
  }

  lemma OlderLandedIs(p: Page, c: Control, notes: seq<Note>)
    requires DrivesAs(p, c) && PagesAs(p, c) && c.older.Some?
    ensures var q := OnOlder(p, 0, notes);
            var d := if c.older.value.gen == c.gen then
                       c.(older := None, cursor := LastId(notes, c.cursor), short := c.short || |notes| < PAGE)
                     else c.(older := None);
            DrivesAs(q, d) && PagesAs(q, d)
  {
    hide DelayAfter, AddMissing;
    assert p.older[..0] + p.older[1..] == [];
  }

  lemma OlderFailedIs(p: Page, c: Control, unauthorized: bool)
    requires DrivesAs(p, c) && PagesAs(p, c) && c.older.Some?
    ensures var q, d := OnOlderFailed(p, 0, unauthorized), c.(older := None, leaving := c.leaving || unauthorized);
            DrivesAs(q, d) && PagesAs(q, d)
  {
    hide DelayAfter;
    assert p.older[..0] + p.older[1..] == [];
  }

  lemma ClickedIs(p: Page, c: Control)
    requires DrivesAs(p, c) && PagesAs(p, c) && !p.loadingOlder
    ensures var q, d := ClickOlder(p), c.(older := Some(OlderRequest(c.gen, c.cursor, c.selected)));
            DrivesAs(q, d) && PagesAs(q, d)
  {
    hide DelayAfter;
  }

  lemma OlderIs(p: Page, c: Control, e: Event, me: string)
    requires DrivesAs(p, c) && PagesAs(p, c) && Enabled(p, e) && (e.OlderAnswered? || e.OlderFailed? || e.OlderClicked?)
    ensures var q := Step(p, e, me); DrivesAs(q, ControlNext(c, e)) && PagesAs(q, ControlNext(c, e))
  {
    match e
    case OlderClicked =>
      ClickedIs(p, c);
      assert Step(p, e, me) == ClickOlder(p);
    case OlderAnswered(j, notes) =>
      OlderLandedIs(p, c, notes);
      assert j == 0 && Step(p, e, me) == OnOlder(p, 0, notes);
    case OlderFailed(j, u) =>
      OlderFailedIs(p, c, u);
      assert j == 0 && Step(p, e, me) == OnOlderFailed(p, 0, u);
  }

  lemma OtherIs(p: Page, c: Control, e: Event, me: string)
    requires DrivesAs(p, c) && PagesAs(p, c) && (e.SavedFilter? || e.Posted? || e.Deleted? || e.PillClicked?)
    ensures var q := Step(p, e, me); DrivesAs(q, ControlNext(c, e)) && PagesAs(q, ControlNext(c, e))
  {
    hide DelayAfter, ShowWaiting;
    match e
    case Posted(n) => assert Step(p, e, me) == OnPosted(p, n);
    case _ =>
  }

  lemma AnswerStep(p: Page, i: nat, fetched: seq<Note>, scrolled: bool, me: string)
    requires Enabled(p, PollAnswered(i, fetched, scrolled))
    ensures i < |p.polls| && Step(p, PollAnswered(i, fetched, scrolled), me) == OnAnswer(p, i, fetched, scrolled, me)
  {
  }

  lemma TurnIs(p: Page, c: Control, e: Event, me: string)
    requires DrivesAs(p, c) && PagesAs(p, c) && Enabled(p, e)
    ensures var q := Step(p, e, me); DrivesAs(q, ControlNext(c, e)) && PagesAs(q, ControlNext(c, e))
  {
    hide Step, ControlNext, DrivesAs, PagesAs, Enabled;
    match e
    case PollAnswered(i, fetched, scrolled) =>
      AnswerStep(p, i, fetched, scrolled, me);
      AnswerIs(p, c, i, fetched, scrolled, me);
    case PollFailed(_, _) => FailureIs(p, c, e, me);
    case FirstPoll => StartIs(p, c, e, me);
    case TimerFired => StartIs(p, c, e, me);
    case VisibilityChanged(_) => StartIs(p, c, e, me);
    case Select(_) => SelectIs(p, c, e, me);
    case OlderClicked => OlderIs(p, c, e, me);
    case OlderAnswered(_, _) => OlderIs(p, c, e, me);
    case OlderFailed(_, _) => OlderIs(p, c, e, me);
    case _ => OtherIs(p, c, e, me);
  }

  lemma {:induction false} RunIs(p: Page, c: Control, es: seq<Event>, me: string)
    requires DrivesAs(p, c) && PagesAs(p, c) && Possible(p, es, me)
    ensures var q, d := Run(p, es, me), ControlAfter(c, es); DrivesAs(q, d) && PagesAs(q, d)
    decreases |es|
  {
    hide Step, ControlNext, DrivesAs, PagesAs, Enabled;
    if es != [] {
      TurnIs(p, c, es[0], me);
      RunIs(Step(p, es[0], me), ControlNext(c, es[0]), es[1..], me);
    }
  }

  /** On every run from page load the page is driven, and pages back, as this simple machine does: the "load older"
      button is on screen if and only if a full answer has landed for the present filter and no short older page
      has; the end is reached exactly when one has. */
  lemma PageIsControlled(visible: bool, es: seq<Event>, me: string)
    requires Possible(Loaded(visible), es, me)
    ensures var p, c := Run(Loaded(visible), es, me), ControlAfter(Opened(visible), es);
            DrivesAs(p, c) && PagesAs(p, c)
  {
    NoFailures();
    RunIs(Loaded(visible), Opened(visible), es, me);
  }

  /** On every run, when a poll of the present filter settles on a visible page the next one is timed five seconds
      ahead, twice as long for each failure in a row, at most a minute; on a hidden page none is timed. */
  lemma NextPollIsTimed(visible: bool, es: seq<Event>, e: Event, me: string)
    requires Possible(Loaded(visible), es, me) && Enabled(Run(Loaded(visible), es, me), e)
    requires (e.PollAnswered? || e.PollFailed?)
             && Run(Loaded(visible), es, me).polls[e.i].gen == Run(Loaded(visible), es, me).gen
    ensures var p, c := Run(Loaded(visible), es, me), ControlAfter(Opened(visible), es);
            var failures := if e.PollAnswered? then 0 else if e.unauthorized then c.failures else c.failures + 1;
            Step(p, e, me).timer == if p.visible then Some(DelayAfter(failures)) else None
  {
    PageIsControlled(visible, es, me);
    var p, c := Run(Loaded(visible), es, me), ControlAfter(Opened(visible), es);
    hide Run, Possible, ControlAfter;
    SettledTimer(p, c, e, me);
  }

  lemma SettledTimer(p: Page, c: Control, e: Event, me: string)
    requires DrivesAs(p, c) && PagesAs(p, c) && Enabled(p, e)
    requires (e.PollAnswered? || e.PollFailed?) && p.polls[e.i].gen == p.gen
    ensures var failures := if e.PollAnswered? then 0 else if e.unauthorized then c.failures else c.failures + 1;
            Step(p, e, me).timer == if p.visible then Some(DelayAfter(failures)) else None
  {
    TurnIs(p, c, e, me);
    assert Settles(c);
    hide Step, PagesAs, DelayAfter;
  }
}

/** What one page of the CAPTCHA counters shows and remembers at the end of any run, resets included: the total
    it was last told plus what it holds, and the streaks. */
module CaptchaPage {
  import opened CaptchaSync
  import D = CaptchaDisplay
  import opened Wrappers

  // ---------------------------------------------------------------------------
  // One page within the system
  // ---------------------------------------------------------------------------

  // What the event does to page d.
  function PageAfter(s: System, e: Event, d: nat): Device
    requires Enabled(s, e) && d < |s.devices|
  {
    match e
    case Page(c, turn) => if c == d then After(s.devices[d], turn) else s.devices[d]
    case Succeeded(c) => if c == d then Resume(Succeed(s.devices[d], s.replies[d].value)) else s.devices[d]
    case Failed(c, u) => if c == d then Resume(Fail(s.devices[d], u)) else s.devices[d]
    case BootReplied(c) => if c == d then BootReply(s.devices[d], s.boots[d].stats) else s.devices[d]
    case _ => s.devices[d]
  }

  lemma PageIsAfter(s: System, e: Event, d: nat)
    requires Enabled(s, e) && d < |s.devices|
    ensures |Step(s, e).devices| == |s.devices| && Step(s, e).devices[d] == PageAfter(s, e, d)
  {
    hide Tally, Add, Folded, Over, After, Resume, Succeed, Fail, BootReply, TurnBooks, AppliedBooks, Double, Discard;
  }

  // ---------------------------------------------------------------------------
  // The displayed total
  // ---------------------------------------------------------------------------

  // The event has page d count anew what it holds.
  predicate Recounts(s: System, e: Event, d: nat)
    requires Enabled(s, e)
  {
    match e
    case Page(c, turn) => c == d && (turn.Solved? || (turn.ResetClicked? && s.devices[d].inflight.None?))
    case Succeeded(c) => c == d
    case Failed(c, _) => c == d
    case _ => false
  }

  // Queued solves that are discarded and still shown.
  function StillShown(s: System, e: Event, d: nat, before: nat): nat
    requires Enabled(s, e) && d < |s.devices|
  {
    if Recounts(s, e, d) then 0
    else if e == Page(d, ResetClicked) then before + |s.devices[d].pending| else before
  }

  /** Solves discarded by resets clicked while a sync was in the air, since the page last counted. */
  ghost function DiscardedButShown(s: System, es: seq<Event>, d: nat, before: nat): nat
    requires Possible(s, es) && d < |s.devices|
    decreases |es|
  {
    if es == [] then before
    else
      PageIsAfter(s, es[0], d);
      DiscardedButShown(Step(s, es[0]), es[1..], d, StillShown(s, es[0], d, before))
  }

  lemma TurnShown(d: Device, turn: Turn)
    ensures var n := After(d, turn);
            && (turn.Solved? || (turn.ResetClicked? && d.inflight.None?) ==> n.shown == PendingTotal(n))
            && (!turn.Solved? && !(turn.ResetClicked? && d.inflight.None?) ==> n.shown == d.shown)
            && PendingTotal(n) == if turn.Solved? then PendingTotal(d) + 1
                                  else if turn.ResetClicked? then |InFlight(d)| else PendingTotal(d)
  {
  }

  lemma SettledShown(d: Device, row: Row, unauthorized: bool)
    ensures var n := Resume(Succeed(d, row)); n.shown == PendingTotal(n)
    ensures var n := Resume(Fail(d, unauthorized)); n.shown == PendingTotal(n)
  {
  }

  lemma ShownStep(s: System, e: Event, d: nat, hidden: nat)
    requires Enabled(s, e) && d < |s.devices| && s.devices[d].shown == PendingTotal(s.devices[d]) + hidden
    ensures var n := PageAfter(s, e, d); n.shown == PendingTotal(n) + StillShown(s, e, d, hidden)
  {
    var p := s.devices[d];
    match e
    case Page(c, turn) =>
      TurnShown(p, turn);
      hide After;
    case Succeeded(c) => if c == d { SettledShown(p, s.replies[d].value, true); }
    case Failed(c, u) => if c == d { SettledShown(p, Row(0, 0, 0, 0, 0), u); }
    case _ =>
  }

  lemma {:induction false} ShownFrom(s: System, es: seq<Event>, d: nat, hidden: nat)
    requires Possible(s, es) && d < |s.devices| && s.devices[d].shown == PendingTotal(s.devices[d]) + hidden
    ensures d < |Run(s, es).devices|
    ensures var n := Run(s, es).devices[d]; n.shown == PendingTotal(n) + DiscardedButShown(s, es, d, hidden)
    decreases |es|
  {
    hide Step, Enabled, PageAfter, StillShown, PendingTotal;
    if es != [] {
      PageIsAfter(s, es[0], d);
      ShownStep(s, es[0], d, hidden);
      ShownFrom(Step(s, es[0]), es[1..], d, StillShown(s, es[0], d, hidden));
    }
  }

  /** The total that page d was last told, or zero since its reset was confirmed. */
  ghost function Told(s: System, es: seq<Event>, d: nat, before: int): int
    requires Possible(s, es) && d < |s.devices|
    decreases |es|
  {
    if es == [] then before
    else
      PageIsAfter(s, es[0], d);
      var e := es[0];
      Told(Step(s, e), es[1..], d,
           if e == Page(d, ResetSucceeded) then 0
           else if e == Succeeded(d) then RowTotal(s.replies[d])
           else if e == BootReplied(d) then RowTotal(Some(s.boots[d].stats))
           else before)
  }

  lemma BaseStep(s: System, e: Event, d: nat)
    requires Enabled(s, e) && d < |s.devices|
    ensures PageAfter(s, e, d).base ==
            if e == Page(d, ResetSucceeded) then 0
            else if e == Succeeded(d) then RowTotal(s.replies[d])
            else if e == BootReplied(d) then RowTotal(Some(s.boots[d].stats))
            else s.devices[d].base
  {
  }

  lemma {:induction false} BaseFrom(s: System, es: seq<Event>, d: nat)
    requires Possible(s, es) && d < |s.devices|
    ensures d < |Run(s, es).devices| && Run(s, es).devices[d].base == Told(s, es, d, s.devices[d].base)
    decreases |es|
  {
    hide Step, Enabled, PageAfter, RowTotal;
    if es != [] {
      PageIsAfter(s, es[0], d);
      BaseStep(s, es[0], d);
      BaseFrom(Step(s, es[0]), es[1..], d);
    }
  }

  /** On every run, resets included, a page displays the total it was last told, plus what it has queued and in
      flight, plus what was discarded under its feet and not counted anew. */
  lemma DisplayIs(s: System, es: seq<Event>, d: nat)
    requires Init(s) && Possible(s, es) && d < |s.devices|
    ensures d < |Run(s, es).devices|
    ensures var n := Run(s, es).devices[d];
            Displayed(n) == Told(s, es, d, 0) + PendingTotal(n) + DiscardedButShown(s, es, d, 0)
  {
    ShownFrom(s, es, d, 0);
    BaseFrom(s, es, d);
  }

  /** Right after its reset is confirmed a page remembers no streak, and it displays exactly what it has queued and
      in flight if and only if nothing was discarded since it last counted; otherwise that many more. */
  lemma ConfirmedResetShowsHeld(s: System, es: seq<Event>, d: nat)
    requires Init(s) && Possible(s, es) && Enabled(Run(s, es), Page(d, ResetSucceeded)) && d < |s.devices|
    ensures d < |Step(Run(s, es), Page(d, ResetSucceeded)).devices|
    ensures var n := Step(Run(s, es), Page(d, ResetSucceeded)).devices[d];
            && n.streak == 0 && n.best == 0
            && Displayed(n) == PendingTotal(n) + DiscardedButShown(s, es, d, 0)
            && (Displayed(n) == PendingTotal(n) <==> DiscardedButShown(s, es, d, 0) == 0)
  {
    ShownFrom(s, es, d, 0);
    PageIsAfter(Run(s, es), Page(d, ResetSucceeded), d);
    hide Step, Run, Possible, Init;
  }

  ghost predicate Leads(s: System, es: seq<Event>, t: System) {
    Possible(s, es) && Run(s, es) == t
  }

  lemma {:induction false} StepOn(s: System, es: seq<Event>, t: System, e: Event)
    requires Leads(s, es, t) && Enabled(t, e)
    ensures Leads(s, es + [e], Step(t, e))
    decreases |es|
  {
    hide Step, Enabled;
    if es == [] {
      assert es + [e] == [e] && [e][1..] == [] && Possible(Step(s, e), []) && Run(Step(s, e), []) == Step(s, e);
    } else {
      StepOn(Step(s, es[0]), es[1..], t, e);
      assert (es + [e])[1..] == es[1..] + [e] && (es + [e])[0] == es[0];
    }
  }

  // A system of this one page.
  predicate Lone(s: System, d: Device) {
    |s.replies| == |s.resets| == |s.boots| == 1 && s.devices == [d]
  }

  lemma LoneTurn(s: System, d: Device, turn: Turn)
    requires Lone(s, d) && !turn.TimerFired?
    ensures Enabled(s, Page(0, turn))
    ensures var t := Step(s, Page(0, turn));
            && Lone(t, After(d, turn))
            && (turn.ResetClicked? && d.inflight.None? ==> Enabled(t, RowDeleted(0)))
  {
    hide After, TurnBooks;
  }

  lemma LoneDeletion(s: System, d: Device)
    requires Lone(s, d) && Enabled(s, RowDeleted(0))
    ensures Lone(Step(s, RowDeleted(0)), d)
  {
  }

  const CLOSED := Device(0, [], None, false, false, false, 0, 0, 0, 0, 0, 0, false)

  // What these turns leave of a page.
  lemma TwoResets()
    ensures var d := After(After(After(CLOSED, ResetClicked), Solved(false)), FlushNow);
            var n := After(After(After(d, Solved(false)), ResetClicked), ResetSucceeded);
            CLOSED.inflight.None? && PendingTotal(n) == 1 && Displayed(n) == 2
  {
  }

  const TWO_RESETS := [Page(0, ResetClicked), RowDeleted(0), Page(0, Solved(false)), Page(0, FlushNow),
                       Page(0, Solved(false)), Page(0, ResetClicked)]

  lemma TwoResetsListed()
    ensures [] + [Page(0, ResetClicked)] + [RowDeleted(0)] + [Page(0, Solved(false))] + [Page(0, FlushNow)]
            + [Page(0, Solved(false))] + [Page(0, ResetClicked)] == TWO_RESETS
  {
  }

  lemma AloneIsLone()
    ensures Init(D.Alone()) && Lone(D.Alone(), CLOSED)
  {
  }

  /** And it does display more: a solve is in the air and another queued when a second reset is clicked, which
      discards the queued one; then the first reset is confirmed, and the page shows two while it holds one. */
  lemma ResetCanShowDiscarded()
    ensures Init(D.Alone()) && Possible(D.Alone(), TWO_RESETS)
    ensures Enabled(Run(D.Alone(), TWO_RESETS), Page(0, ResetSucceeded))
    ensures var t := Step(Run(D.Alone(), TWO_RESETS), Page(0, ResetSucceeded));
            |t.devices| == 1 && PendingTotal(t.devices[0]) == 1 && Displayed(t.devices[0]) == 2
  {
    var s0 := D.Alone();
    AloneIsLone();
    TwoResets();
    hide *;
    var reset, solve, flush := Page(0, ResetClicked), Page(0, Solved(false)), Page(0, FlushNow);
    StartsHere(s0);
    LoneTurn(s0, CLOSED, ResetClicked);
    StepOn(s0, [], s0, reset);
    var s1, d1 := Step(s0, reset), After(CLOSED, ResetClicked);
    LoneDeletion(s1, d1);
    StepOn(s0, [] + [reset], s1, RowDeleted(0));
    var s2 := Step(s1, RowDeleted(0));
    LoneTurn(s2, d1, Solved(false));
    StepOn(s0, [] + [reset] + [RowDeleted(0)], s2, solve);
    var s3, d3 := Step(s2, solve), After(d1, Solved(false));
    LoneTurn(s3, d3, FlushNow);
    StepOn(s0, [] + [reset] + [RowDeleted(0)] + [solve], s3, flush);
    var s4, d4 := Step(s3, flush), After(d3, FlushNow);
    LoneTurn(s4, d4, Solved(false));
    StepOn(s0, [] + [reset] + [RowDeleted(0)] + [solve] + [flush], s4, solve);
    var s5, d5 := Step(s4, solve), After(d4, Solved(false));
    LoneTurn(s5, d5, ResetClicked);
    StepOn(s0, [] + [reset] + [RowDeleted(0)] + [solve] + [flush] + [solve], s5, reset);
    var s6, d6 := Step(s5, reset), After(d5, ResetClicked);
    LoneTurn(s6, d6, ResetSucceeded);
    TwoResetsListed();
    LeadsHere(s0, TWO_RESETS, s6);
    LoneIs(Step(s6, Page(0, ResetSucceeded)), After(d6, ResetSucceeded));
  }

  lemma LoneIs(s: System, d: Device)
    requires Lone(s, d)
    ensures s.devices == [d]
  {
  }

  lemma StartsHere(s: System)
    ensures Leads(s, [], s)
  {
  }

  lemma LeadsHere(s: System, es: seq<Event>, t: System)
    requires Leads(s, es, t)
    ensures Possible(s, es) && Run(s, es) == t
  {
  }

  // ---------------------------------------------------------------------------
  // What the server knows of the streaks
  // ---------------------------------------------------------------------------

  /** The streak in the last row that page d was sent, and the greatest best one in any. */
  datatype Known = Known(streak: int, best: int)

  function KnownNext(s: System, e: Event, d: nat, before: Known): Known
    requires Enabled(s, e) && d < |s.devices|
  {
    if e == Succeeded(d) then Known(s.replies[d].value.current, Max(before.best, s.replies[d].value.best))
    else if e == BootReplied(d) then Known(s.boots[d].stats.current, Max(before.best, s.boots[d].stats.best))
    else before
  }

  ghost function KnownAfter(s: System, es: seq<Event>, d: nat, before: Known): Known
    requires Possible(s, es) && d < |s.devices|
    decreases |es|
  {
    if es == [] then before
    else
      PageIsAfter(s, es[0], d);
      KnownAfter(Step(s, es[0]), es[1..], d, KnownNext(s, es[0], d, before))
  }

  // No reset of the page, and no boot reply while its sync is in the air.
  predicate Undivided(s: System, e: Event, d: nat)
    requires Enabled(s, e) && d < |s.devices|
  {
    && e != Page(d, ResetClicked) && e != Page(d, ResetSucceeded)
    && (e == BootReplied(d) ==> s.devices[d].inflight.None?)
  }

  ghost predicate UndividedRun(s: System, es: seq<Event>, d: nat)
    requires Possible(s, es) && d < |s.devices|
    decreases |es|
  {
    es == [] || (Undivided(s, es[0], d) && (PageIsAfter(s, es[0], d); UndividedRun(Step(s, es[0]), es[1..], d)))
  }

  function Within(v: int): int {
    Clamp(v, 0, MAX_STREAK)
  }

  // The server knows these streaks, within its limits.
  predicate Knows(k: Known, streak: int, best: int) {
    Within(streak) == Within(k.streak) && Within(best) <= Max(0, k.best)
  }

  // The streaks are known to the server, or on their way, or marked to be sent.
  predicate StreaksGoOut(d: Device, k: Known) {
    && d.waiting == 0
    && match d.inflight
       case None => d.dirtyStreak || Knows(k, d.streak, d.best)
       case Some(b) =>
         && (d.dirtyStreak || (d.streak == b.current && Within(d.best) <= Max(Within(b.best), Max(0, k.best))))
         && (d.hadDirty || Knows(k, b.current, b.best))
  }

  // What the server answers tells what the batch claimed.
  predicate ReplyTells(d: Device, reply: Option<Row>) {
    reply.Some? ==>
      d.inflight.Some? && reply.value.current == Within(d.inflight.value.current)
      && reply.value.best >= Within(d.inflight.value.best)
  }

  lemma TurnGoesOut(d: Device, turn: Turn, k: Known)
    requires StreaksGoOut(d, k) && !turn.ResetClicked? && !turn.ResetSucceeded?
    ensures StreaksGoOut(After(d, turn), k)
    ensures d.inflight.Some? ==> After(d, turn).inflight == d.inflight
  {
    hide PendingTotal, Tally;
  }

  lemma SuccessGoesOut(d: Device, row: Row, k: Known)
    requires StreaksGoOut(d, k) && d.inflight.Some? && ReplyTells(d, Some(row))
    ensures StreaksGoOut(Resume(Succeed(d, row)), Known(row.current, Max(k.best, row.best)))
  {
    hide PendingTotal, Tally;
  }

  lemma FailureGoesOut(d: Device, unauthorized: bool, k: Known)
    requires StreaksGoOut(d, k) && d.inflight.Some?
    ensures StreaksGoOut(Resume(Fail(d, unauthorized)), k)
  {
    hide PendingTotal, Tally, Clamp;
  }

  lemma BootGoesOut(d: Device, stats: Row, k: Known)
    requires StreaksGoOut(d, k) && d.inflight.None?
    ensures StreaksGoOut(BootReply(d, stats), Known(stats.current, Max(k.best, stats.best)))
  {
  }

  lemma GoingOutStep(s: System, e: Event, d: nat, k: Known)
    requires Enabled(s, e) && d < |s.devices| && d < |s.replies| && Undivided(s, e, d)
    requires StreaksGoOut(s.devices[d], k) && ReplyTells(s.devices[d], s.replies[d])
    ensures StreaksGoOut(PageAfter(s, e, d), KnownNext(s, e, d, k))
  {
    hide After, Resume, Succeed, Fail, BootReply, StreaksGoOut, ReplyTells, Max;
    var p := s.devices[d];
    match e
    case Page(c, turn) => if c == d { TurnGoesOut(p, turn, k); }
    case Succeeded(c) =>
      if c == d {
        FlightOf(p, s.replies[d]);
        SuccessGoesOut(p, s.replies[d].value, k);
      }
    case Failed(c, u) => if c == d { FailureGoesOut(p, u, k); }
    case BootReplied(c) => if c == d { BootGoesOut(p, s.boots[d].stats, k); }
    case _ =>
  }

  lemma FlightOf(d: Device, reply: Option<Row>)
    requires ReplyTells(d, reply) && reply.Some?
    ensures d.inflight.Some? && reply == Some(reply.value)
  {
  }

  // Executing a batch puts its streak into the row.
  lemma ExecutionTells(row: Option<Row>, b: Batch)
    ensures Folded(row, b).current == Within(b.current) && Folded(row, b).best >= Within(b.best)
    ensures row.Some? ==> Folded(row, b).best >= row.value.best
  {
    hide Tally;
  }

  lemma ReplyStep(s: System, e: Event, d: nat)
    requires Ok(s) && Enabled(s, e) && d < |s.devices| && Undivided(s, e, d)
    requires ReplyTells(s.devices[d], s.replies[d])
    ensures d < |Step(s, e).replies| && ReplyTells(PageAfter(s, e, d), Step(s, e).replies[d])
  {
    hide After, Resume, Succeed, Fail, Folded, Clamp, Over, TurnBooks, AppliedBooks, Double, Discard, Add;
    match e
    case Page(c, turn) => if c == d { TurnKeepsDeviceOk(s.devices[d], turn); }
    case Executed(c) => if c == d { ExecutionTells(s.row, s.devices[d].inflight.value); }
    case _ =>
  }

  lemma {:induction false} GoingOutRun(s: System, es: seq<Event>, d: nat, k: Known)
    requires Ok(s) && Possible(s, es) && d < |s.devices| && UndividedRun(s, es, d)
    requires StreaksGoOut(s.devices[d], k) && ReplyTells(s.devices[d], s.replies[d])
    ensures d < |Run(s, es).devices| && StreaksGoOut(Run(s, es).devices[d], KnownAfter(s, es, d, k))
    decreases |es|
  {
    hide Step, Enabled, PageAfter, Undivided, KnownNext, StreaksGoOut, ReplyTells;
    if es != [] {
      PageIsAfter(s, es[0], d);
      StepKeepsOk(s, es[0]);
      GoingOutStep(s, es[0], d, k);
      ReplyStep(s, es[0], d);
      GoingOutRun(Step(s, es[0]), es[1..], d, KnownNext(s, es[0], d, k));
    }
  }

  /** No streak is forgotten: on every run without a reset of the page and without a boot reply during its sync, when
      a page has nothing to send and nothing in the air, its streak is the one in the last row it was sent and
      its best streak no greater than one it was sent, within the server's limits. */
  lemma NoStreakIsForgotten(s: System, es: seq<Event>, d: nat)
    requires Init(s) && Possible(s, es) && d < |s.devices| && UndividedRun(s, es, d)
    ensures d < |Run(s, es).devices|
    ensures var n := Run(s, es).devices[d];
            !HasWork(n) && n.inflight.None? ==> Knows(KnownAfter(s, es, d, Known(0, 0)), n.streak, n.best)
  {
    GoingOutRun(s, es, d, Known(0, 0));
  }

  /** A boot reply during a sync can divide them: with nothing else to send, once the sync has landed the page's streak
      is the one boot resumed, and the server's the one the batch claimed. */
  lemma BootDuringSyncDivides(d: Device, stats: Row, row: Row)
    requires d.inflight.Some? && ReplyTells(d, Some(row)) && d.pending == [] && !d.dirtyStreak && d.waiting == 0
    ensures var n := Resume(Succeed(BootReply(d, stats), row));
            && !HasWork(n) && n.inflight.None? && n.streak == stats.current
            && (Within(n.streak) == Within(row.current) <==>
                  Within(stats.current) == Within(d.inflight.value.current))
  {
  }

  // ---------------------------------------------------------------------------
  // The streaks
  // ---------------------------------------------------------------------------

  // The streak on page d after the event, and the best one.
  function StreakAfter(s: System, e: Event, d: nat, streak: int): int
    requires Enabled(s, e) && d < |s.devices|
  {
    match e
    case Page(c, Solved(_)) => if c == d then streak + 1 else streak
    case Page(c, Missed) => if c == d then 0 else streak
    case Page(c, ResetSucceeded) => if c == d then 0 else streak
    case BootReplied(c) => if c == d then s.boots[d].stats.current else streak
    case _ => streak
  }

  function BestAfter(s: System, e: Event, d: nat, streak: int, best: int): int
    requires Enabled(s, e) && d < |s.devices|
  {
    match e
    case Page(c, Solved(_)) => if c == d then Max(best, streak + 1) else best
    case Page(c, ResetSucceeded) => if c == d then 0 else best
    case BootReplied(c) => if c == d then Max(best, s.boots[d].stats.best) else best
    case Succeeded(c) => if c == d then Max(best, s.replies[d].value.best) else best
    case _ => best
  }

  lemma TurnStreak(d: Device, turn: Turn)
    ensures var n := After(d, turn);
            && n.streak == (if turn.Solved? then d.streak + 1
                            else if turn.Missed? || turn.ResetSucceeded? then 0 else d.streak)
            && n.best == if turn.Solved? then Max(d.best, d.streak + 1) else if turn.ResetSucceeded? then 0 else d.best
  {
    hide PendingTotal, Max, HasWork;
  }

  lemma SettledStreak(d: Device, row: Row, unauthorized: bool)
    ensures var n := Resume(Succeed(d, row)); n.streak == d.streak && n.best == Max(d.best, row.best)
    ensures var n := Resume(Fail(d, unauthorized)); n.streak == d.streak && n.best == d.best
  {
    hide PendingTotal, Max, HasWork;
  }

  lemma StreakStep(s: System, e: Event, d: nat)
    requires Enabled(s, e) && d < |s.devices|
    ensures var p, n := s.devices[d], PageAfter(s, e, d);
            n.streak == StreakAfter(s, e, d, p.streak) && n.best == BestAfter(s, e, d, p.streak, p.best)
  {
    hide After, Resume, Succeed, Fail, Max;
    var p := s.devices[d];
    match e
    case Page(c, turn) => TurnStreak(p, turn);
    case Succeeded(c) => if c == d { SettledStreak(p, s.replies[d].value, true); }
    case Failed(c, u) => if c == d { SettledStreak(p, Row(0, 0, 0, 0, 0), u); }
    case _ =>
  }

  /** Consecutive solves since the last miss or confirmed reset, on top of the streak boot resumed. */
  ghost function Streak(s: System, es: seq<Event>, d: nat, before: int): int
    requires Possible(s, es) && d < |s.devices|
    decreases |es|
  {
    if es == [] then before
    else
      PageIsAfter(s, es[0], d);
      Streak(Step(s, es[0]), es[1..], d, StreakAfter(s, es[0], d, before))
  }

  /** The greatest streak reached or told since the last confirmed reset. */
  ghost function Best(s: System, es: seq<Event>, d: nat, streak: int, best: int): int
    requires Possible(s, es) && d < |s.devices|
    decreases |es|
  {
    if es == [] then best
    else
      PageIsAfter(s, es[0], d);
      Best(Step(s, es[0]), es[1..], d, StreakAfter(s, es[0], d, streak), BestAfter(s, es[0], d, streak, best))
  }

  lemma {:induction false} StreaksAre(s: System, es: seq<Event>, d: nat)
    requires Possible(s, es) && d < |s.devices|
    ensures d < |Run(s, es).devices|
    ensures var p, n := s.devices[d], Run(s, es).devices[d];
            n.streak == Streak(s, es, d, p.streak) && n.best == Best(s, es, d, p.streak, p.best)
    decreases |es|
  {
    hide Step, Enabled, PageAfter, StreakAfter, BestAfter;
    if es != [] {
      PageIsAfter(s, es[0], d);
      StreakStep(s, es[0], d);
      StreaksAre(Step(s, es[0]), es[1..], d);
    }
  }
}

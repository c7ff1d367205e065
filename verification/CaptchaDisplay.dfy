/** What the CAPTCHA page displays on runs of the sync protocol without a reset: it adds up with the row,
    and goes backwards exactly when boot and a sync overlap in one of two ways. */
module CaptchaDisplay {
  import opened CaptchaSync
  import opened Wrappers

  // ---------------------------------------------------------------------------
  // Runs without a reset in which every batch fits the cap
  // ---------------------------------------------------------------------------

  predicate Fits(b: Batch) {
    Tally(b.solves, false) <= MAX_DELTA_PER_SYNC && Tally(b.solves, true) <= MAX_DELTA_PER_SYNC
  }

  // The event is not a reset, and if it executes a batch then the batch fits.
  predicate Plain(s: System, e: Event)
    requires Enabled(s, e)
  {
    match e
    case Page(_, turn) => !turn.ResetClicked? && !turn.ResetSucceeded?
    case Executed(d) => Fits(s.devices[d].inflight.value)
    case ExecutedLate(b) => Fits(b)
    case _ => true
  }

  ghost predicate PlainRun(s: System, es: seq<Event>): (r: bool)
    ensures r ==> Possible(s, es)
    decreases |es|
  {
    es == [] || (Enabled(s, es[0]) && Plain(s, es[0]) && PlainRun(Step(s, es[0]), es[1..]))
  }

  // The page shows what is queued and sent on top of a total the row once had, and so do replies to come.
  ghost predicate Calm(d: Device, reply: Option<Row>, boot: Boot, row: Option<Row>) {
    && d.waiting == 0 && d.shown == PendingTotal(d) && d.base <= RowTotal(row)
    && (reply.Some? ==> |InFlight(d)| <= RowTotal(reply) <= RowTotal(row))
    && (boot.Read? ==> RowTotal(Some(boot.stats)) <= RowTotal(row))
    && (boot.Booted? || Covered(d, reply))
  }

  // A reply on its way to the page covers what the page shows and sent.
  predicate Covered(d: Device, reply: Option<Row>) {
    reply.Some? ==> d.base + |InFlight(d)| <= RowTotal(reply)
  }

  /** Nothing was reset, cut off or discarded, and every page is calm. */
  ghost predicate Undisturbed(s: System)
    requires Ok(s)
  {
    && s.books.erased == s.books.clipped == s.books.discarded == Delta(0, 0)
    && (forall d | 0 <= d < |s.devices| :: s.resets[d] == 0 && Calm(s.devices[d], s.replies[d], s.boots[d], s.row))
  }

  lemma TotalIsNatural(row: Option<Row>)
    requires Sound(row)
    ensures RowTotal(row) >= 0
  {
  }

  lemma FittingBatchGrowsRow(row: Option<Row>, b: Batch)
    requires Sound(row) && Fits(b)
    ensures RowTotal(Some(Folded(row, b))) == RowTotal(row) + |b.solves|
    ensures Over(b.solves, false) == Over(b.solves, true) == 0
  {
    TallyBoth(b.solves);
  }

  lemma CalmTurn(d: Device, reply: Option<Row>, boot: Boot, row: Option<Row>, turn: Turn)
    requires Calm(d, reply, boot, row) && (reply.Some? ==> d.inflight.Some?)
    requires !turn.ResetClicked? && !turn.ResetSucceeded?
    ensures Calm(After(d, turn), reply, boot, row) && Displayed(After(d, turn)) >= Displayed(d)
    ensures (Covered(d, reply) ==> Covered(After(d, turn), reply)) && After(d, turn).base == d.base
  {
    hide Tally, RowTotal;
  }

  lemma CalmSettling(d: Device, reply: Option<Row>, boot: Boot, row: Option<Row>, unauthorized: bool)
    requires Calm(d, reply, boot, row) && d.inflight.Some?
    ensures reply.Some? ==>
              var n := Succeed(d, reply.value);
              && n.waiting == 0 && Calm(Resume(n), None, boot, row) && n.base == RowTotal(reply)
              && (Displayed(Resume(n)) >= Displayed(d) <==> Covered(d, reply))
    ensures var n := Fail(d, unauthorized);
            && n.waiting == 0 && Calm(Resume(n), None, boot, row) && n.base == d.base
            && Displayed(Resume(n)) >= Displayed(d)
  {
  }

  lemma CalmBoot(d: Device, reply: Option<Row>, stats: Row, row: Option<Row>)
    requires Calm(d, reply, Read(stats), row)
    ensures Calm(BootReply(d, stats), reply, Booted, row)
    ensures BootReply(d, stats).base == RowTotal(Some(stats))
    ensures Displayed(BootReply(d, stats)) >= Displayed(d) <==> d.base <= RowTotal(Some(stats))
  {
  }

  // One device's turn ends calm; the others are untouched and the row has not shrunk.
  lemma CalmElsewhere(s: System, t: System, d: nat)
    requires Ok(s) && Ok(t) && |t.devices| == |s.devices| && Undisturbed(s)
    requires t.books.erased == t.books.clipped == t.books.discarded == Delta(0, 0) && t.resets == s.resets
    requires RowTotal(t.row) >= RowTotal(s.row)
    requires forall i | 0 <= i < |s.devices| && i != d ::
               t.devices[i] == s.devices[i] && t.replies[i] == s.replies[i] && t.boots[i] == s.boots[i]
    requires d < |s.devices| ==> Calm(t.devices[d], t.replies[d], t.boots[d], t.row)
    ensures Undisturbed(t)
  {
    hide DeviceOk, RowTotal, Sound, Displayed, PendingTotal, Covered;
  }

  /** When what a page displays goes down without a reset: when its boot reply is older than a sync it
      already landed, or when a sync lands that the boot reply had already counted. */
  predicate Lowers(s: System, e: Event, d: nat)
    requires Enabled(s, e) && d < |s.devices| && d < |s.replies| && d < |s.boots|
  {
    || (e == BootReplied(d) && RowTotal(Some(s.boots[d].stats)) < s.devices[d].base)
    || (e == Succeeded(d) && !Covered(s.devices[d], s.replies[d]))
  }

  // What one step does to what device d displays, and to its base.
  ghost predicate DisplayStep(s: System, e: Event, d: nat)
    requires Ok(s) && Enabled(s, e) && Ok(Step(s, e)) && |Step(s, e).devices| == |s.devices| && d < |s.devices|
  {
    var t := Step(s, e);
    && (Displayed(t.devices[d]) < Displayed(s.devices[d]) <==> Lowers(s, e, d))
    && (Covered(s.devices[d], s.replies[d]) && e != BootReplied(d) ==> Covered(t.devices[d], t.replies[d]))
    && t.devices[d].base == if e == Succeeded(d) then RowTotal(s.replies[d])
                            else if e == BootReplied(d) then RowTotal(Some(s.boots[d].stats))
                            else s.devices[d].base
  }

  lemma PlainPage(s: System, d: nat, turn: Turn)
    requires Ok(s) && Undisturbed(s) && Enabled(s, Page(d, turn)) && Ok(Step(s, Page(d, turn)))
    requires !turn.ResetClicked? && !turn.ResetSucceeded? && |Step(s, Page(d, turn)).devices| == |s.devices|
    ensures Undisturbed(Step(s, Page(d, turn)))
    ensures forall i | 0 <= i < |s.devices| :: DisplayStep(s, Page(d, turn), i)
  {
    hide After, Resume, Succeed, Fail, Folded, DeviceOk, Tally, RowTotal, Displayed, Sound, Over, PendingTotal, Covered;
    CalmTurn(s.devices[d], s.replies[d], s.boots[d], s.row, turn);
    CalmElsewhere(s, Step(s, Page(d, turn)), d);
  }

  lemma PlainExecute(s: System, d: nat)
    requires Ok(s) && Undisturbed(s) && Enabled(s, Executed(d)) && Fits(s.devices[d].inflight.value)
    requires Ok(Step(s, Executed(d))) && |Step(s, Executed(d)).devices| == |s.devices|
    ensures Undisturbed(Step(s, Executed(d)))
    ensures forall i | 0 <= i < |s.devices| :: DisplayStep(s, Executed(d), i)
    ensures RowTotal(Step(s, Executed(d)).row) == RowTotal(s.row) + |InFlight(s.devices[d])|
  {
    hide After, Resume, Succeed, Fail, Folded, DeviceOk, Tally, RowTotal, Displayed, Sound, Over, PendingTotal;
    var t := Step(s, Executed(d));
    FittingBatchGrowsRow(s.row, s.devices[d].inflight.value);
    TotalIsNatural(s.row);
    assert Calm(t.devices[d], t.replies[d], t.boots[d], t.row);
    CalmElsewhere(s, t, d);
  }

  lemma PlainLate(s: System, b: Batch)
    requires Ok(s) && Undisturbed(s) && Enabled(s, ExecutedLate(b)) && Fits(b)
    requires Ok(Step(s, ExecutedLate(b))) && |Step(s, ExecutedLate(b)).devices| == |s.devices|
    ensures Undisturbed(Step(s, ExecutedLate(b)))
    ensures forall i | 0 <= i < |s.devices| :: DisplayStep(s, ExecutedLate(b), i)
  {
    hide After, Resume, Succeed, Fail, Folded, DeviceOk, Tally, RowTotal, Displayed, Sound, Over, PendingTotal, Covered;
    FittingBatchGrowsRow(s.row, b);
    CalmElsewhere(s, Step(s, ExecutedLate(b)), |s.devices|);
  }

  lemma PlainSettle(s: System, e: Event)
    requires Ok(s) && Undisturbed(s) && Enabled(s, e) && (e.Succeeded? || e.Failed?)
    requires Ok(Step(s, e)) && |Step(s, e).devices| == |s.devices|
    ensures Undisturbed(Step(s, e))
    ensures forall i | 0 <= i < |s.devices| :: DisplayStep(s, e, i)
  {
    hide After, Resume, Succeed, Fail, Folded, DeviceOk, Tally, RowTotal, Displayed, Sound, Over, PendingTotal, Covered;
    var d, u := e.d, e.Failed? && e.unauthorized;
    CalmSettling(s.devices[d], s.replies[d], s.boots[d], s.row, u);
    ResumeKeepsBase(if e.Succeeded? then Succeed(s.devices[d], s.replies[d].value) else Fail(s.devices[d], u));
    CoveredByNone(Step(s, e).devices[d]);
    CalmElsewhere(s, Step(s, e), d);
  }

  lemma ResumeKeepsBase(n: Device)
    ensures Resume(n).base == n.base
  {
  }

  lemma CoveredByNone(d: Device)
    ensures Covered(d, None)
  {
  }

  lemma PlainBoot(s: System, e: Event)
    requires Ok(s) && Undisturbed(s) && Enabled(s, e) && (e.StatsRead? || e.BootReplied? || e.BootFailed?)
    requires Ok(Step(s, e)) && |Step(s, e).devices| == |s.devices|
    ensures Undisturbed(Step(s, e))
    ensures forall i | 0 <= i < |s.devices| :: DisplayStep(s, e, i)
  {
    hide DeviceOk, Tally, Displayed, Sound, PendingTotal, Covered, BootReply;
    var d := e.d;
    if e.BootReplied? { CalmBoot(s.devices[d], s.replies[d], s.boots[d].stats, s.row); }
    CalmElsewhere(s, Step(s, e), d);
  }

  /** Without a reset and with batches that fit, each step keeps every page calm, and lowers what a page
      displays exactly when it is one of the two kinds above. */
  lemma PlainStep(s: System, e: Event)
    requires Ok(s) && Undisturbed(s) && Enabled(s, e) && Plain(s, e)
    ensures Ok(Step(s, e)) && Undisturbed(Step(s, e)) && |Step(s, e).devices| == |s.devices|
    ensures forall d | 0 <= d < |s.devices| :: DisplayStep(s, e, d)
  {
    StepKeepsOk(s, e);
    match e
    case RowDeleted(d) => assert false;
    case _ =>
      hide Step, Displayed, Fits, DisplayStep;
      match e
      case Page(d, turn) => PlainPage(s, d, turn);
      case Executed(d) => PlainExecute(s, d);
      case ExecutedLate(b) => PlainLate(s, b);
      case Succeeded(d) => PlainSettle(s, e);
      case Failed(d, u) => PlainSettle(s, e);
      case _ => PlainBoot(s, e);
  }

  lemma InitIsUndisturbed(s: System)
    requires Init(s)
    ensures Ok(s) && Undisturbed(s)
  {
  }

  lemma {:induction false} PlainRunKept(s: System, es: seq<Event>)
    requires Ok(s) && Undisturbed(s) && PlainRun(s, es)
    ensures Possible(s, es) && Ok(Run(s, es)) && Undisturbed(Run(s, es)) && |Run(s, es).devices| == |s.devices|
    decreases |es|
  {
    hide Ok, Undisturbed, DisplayStep, Plain, Enabled, Step;
    if es != [] {
      PlainStep(s, es[0]);
      PlainRunKept(Step(s, es[0]), es[1..]);
    }
  }

  // A page boots once, on what was read for it.
  lemma {:induction false} BootMovesOn(s: System, es: seq<Event>, d: nat)
    requires Ok(s) && Possible(s, es) && d < |s.devices|
    ensures |Run(s, es).boots| == |s.boots|
    ensures s.boots[d].Booted? ==> Run(s, es).boots[d].Booted?
    ensures s.boots[d].Read? ==> Run(s, es).boots[d] == s.boots[d] || Run(s, es).boots[d].Booted?
    decreases |es|
  {
    if es != [] {
      StepKeepsOk(s, es[0]);
      hide After, Resume, Succeed, Fail, BootReply, Folded, Tally, TurnBooks, AppliedBooks, Double, Ok;
      BootMovesOn(Step(s, es[0]), es[1..], d);
    }
  }

  predicate HasBooted(s: System, d: nat) {
    d < |s.devices| && d < |s.replies| && d < |s.boots| && s.boots[d].Booted?
  }

  lemma {:induction false} CoveredStaysUp(s: System, es: seq<Event>, d: nat)
    requires Ok(s) && Undisturbed(s) && PlainRun(s, es) && d < |s.devices|
    requires s.boots[d].Booted? && Covered(s.devices[d], s.replies[d])
    ensures Possible(s, es) && |Run(s, es).devices| == |s.devices|
    ensures Displayed(Run(s, es).devices[d]) >= Displayed(s.devices[d])
    decreases |es|
  {
    PlainRunKept(s, es);
    if es != [] {
      PlainStep(s, es[0]);
      BootMovesOn(s, [es[0]], d);
      hide Ok, Undisturbed, Plain, Step, Displayed, Covered;
      assert DisplayStep(s, es[0], d);
      CoveredStaysUp(Step(s, es[0]), es[1..], d);
    }
  }

  /** After boot displayed solves never go backwards: on a run without a reset whose batches fit the cap,
      between any two turn boundaries, whatever fails and whatever other devices add, unless at the first of
      them a sync is still unanswered that the boot reply had already counted. */
  lemma DisplayNeverGoesBack(s: System, before: seq<Event>, after: seq<Event>, d: nat)
    requires Init(s) && d < |s.devices| && PlainRun(s, before) && HasBooted(Run(s, before), d)
    requires Covered(Run(s, before).devices[d], Run(s, before).replies[d])
    requires PlainRun(Run(s, before), after)
    ensures Possible(Run(s, before), after) && |Run(Run(s, before), after).devices| == |s.devices|
    ensures Displayed(Run(Run(s, before), after).devices[d]) >= Displayed(Run(s, before).devices[d])
  {
    InitIsUndisturbed(s);
    PlainRunKept(s, before);
    CoveredStaysUp(Run(s, before), after, d);
  }

  /** That condition is exact: a booted page's display can still fall, in some continuation, if and only if
      such a sync is unanswered. */
  lemma DisplayStaysUpIffCovered(s: System, before: seq<Event>, d: nat)
    requires Init(s) && d < |s.devices| && PlainRun(s, before) && HasBooted(Run(s, before), d)
    ensures var u := Run(s, before);
            (forall after | PlainRun(u, after) && d < |Run(u, after).devices| ::
               Displayed(Run(u, after).devices[d]) >= Displayed(u.devices[d]))
            <==> Covered(u.devices[d], u.replies[d])
  {
    InitIsUndisturbed(s);
    PlainRunKept(s, before);
    var u := Run(s, before);
    if Covered(u.devices[d], u.replies[d]) {
      forall after | PlainRun(u, after) && d < |Run(u, after).devices|
        ensures Displayed(Run(u, after).devices[d]) >= Displayed(u.devices[d])
      {
        CoveredStaysUp(u, after, d);
      }
    } else {
      var e := Succeeded(d);
      PlainStep(u, e);
      assert DisplayStep(u, e, d);
      assert PlainRun(Step(u, e), []) && Possible(Step(u, e), []);
      OneStepFirst(u, e, []);
      assert [e] + [] == [e];
    }
  }

  // ---------------------------------------------------------------------------
  // Exactly when a booting page's display falls
  // ---------------------------------------------------------------------------

  /** A sync of page d landed during es with a larger row total than this. */
  ghost predicate LandedPast(s: System, es: seq<Event>, d: nat, total: int)
    requires Possible(s, es)
    decreases |es|
  {
    es != [] && ((es[0] == Succeeded(d) && RowTotal(s.replies[d]) > total)
                 || LandedPast(Step(s, es[0]), es[1..], d, total))
  }

  lemma {:induction false} BasePastIffLanded(s: System, es: seq<Event>, d: nat, total: int)
    requires Ok(s) && Undisturbed(s) && PlainRun(s, es) && d < |s.devices| && s.boots[d].Read?
    requires Ok(Run(s, es)) && |Run(s, es).devices| == |s.devices| && Run(s, es).boots[d] == s.boots[d]
    ensures Run(s, es).devices[d].base > total <==> s.devices[d].base > total || LandedPast(s, es, d, total)
    decreases |es|
  {
    if es != [] {
      var e, t := es[0], Step(s, es[0]);
      PlainStep(s, e);
      BootMovesOn(s, [e], d);
      BootMovesOn(t, es[1..], d);
      assert Run(s, [e]) == t;
      assert e != BootReplied(d);
      assert DisplayStep(s, e, d) && Calm(s.devices[d], s.replies[d], s.boots[d], s.row);
      hide Ok, Undisturbed, Plain, Step, Displayed;
      BasePastIffLanded(t, es[1..], d, total);
    }
  }

  /** The boot reply lowers what the page displays if and only if between the read and the reply a sync of
      this page landed with a larger row total than was read. */
  lemma DisplayFallsAtBootIff(s: System, before: seq<Event>, between: seq<Event>, d: nat)
    requires Init(s) && d < |s.devices| && PlainRun(s, before)
    requires Enabled(Run(s, before), StatsRead(d))
    requires PlainRun(Step(Run(s, before), StatsRead(d)), between)
    requires Enabled(Run(Step(Run(s, before), StatsRead(d)), between), BootReplied(d))
    ensures var p := Run(s, before);
            var q := Step(p, StatsRead(d));
            var r := Run(q, between);
            && d < |Step(r, BootReplied(d)).devices|
            && (Displayed(Step(r, BootReplied(d)).devices[d]) < Displayed(r.devices[d])
                <==> LandedPast(q, between, d, RowTotal(p.row)))
  {
    InitIsUndisturbed(s);
    PlainRunKept(s, before);
    var p := Run(s, before);
    PlainStep(p, StatsRead(d));
    var q := Step(p, StatsRead(d));
    PlainRunKept(q, between);
    var r := Run(q, between);
    BootMovesOn(q, between, d);
    PlainStep(r, BootReplied(d));
    assert DisplayStep(r, BootReplied(d), d);
    assert Calm(q.devices[d], q.replies[d], q.boots[d], q.row) && q.row == p.row;
    assert RowTotal(Some(StatsOf(p.row))) == RowTotal(p.row);
    BasePastIffLanded(q, between, d, RowTotal(p.row));
  }

  /** The boot reply of page d landed during es with a larger total than this. */
  ghost predicate BootedPast(s: System, es: seq<Event>, d: nat, total: int)
    requires Possible(s, es)
    decreases |es|
  {
    es != [] && ((es[0] == BootReplied(d) && RowTotal(Some(s.boots[d].stats)) > total)
                 || BootedPast(Step(s, es[0]), es[1..], d, total))
  }

  lemma BaseAfterStep(s: System, e: Event, d: nat)
    requires Ok(s) && Undisturbed(s) && Enabled(s, e) && Plain(s, e) && d < |s.devices|
    ensures var t := Step(s, e);
            && Ok(t) && Undisturbed(t) && |t.devices| == |s.devices|
            && (s.boots[d].Booted? ==> t.boots[d].Booted? && e != BootReplied(d))
            && (e == BootReplied(d) ==> t.boots[d].Booted? && t.devices[d].base == RowTotal(Some(s.boots[d].stats)))
            && (e != BootReplied(d) && e != Succeeded(d) ==> t.devices[d].base == s.devices[d].base)
  {
    PlainStep(s, e);
    BootMovesOn(s, [e], d);
    assert Run(s, [e]) == Step(s, e);
    assert DisplayStep(s, e, d);
    hide RowTotal, Covered, Undisturbed, Displayed;
  }

  lemma {:induction false} BasePastIffBooted(s: System, es: seq<Event>, d: nat, total: int)
    requires Ok(s) && Undisturbed(s) && PlainRun(s, es) && d < |s.devices|
    requires Ok(Run(s, es)) && |Run(s, es).devices| == |s.devices|
    requires (forall e | e in es :: e != Succeeded(d)) && (s.boots[d].Booted? || s.devices[d].base <= total)
    ensures Run(s, es).devices[d].base > total <==> s.devices[d].base > total || BootedPast(s, es, d, total)
    decreases |es|
  {
    hide Ok, Undisturbed, Plain, Step, Enabled, RowTotal, Sound;
    if es != [] {
      BaseAfterStep(s, es[0], d);
      assert es[0] in es && forall e | e in es[1..] :: e in es;
      BasePastIffBooted(Step(s, es[0]), es[1..], d, total);
    }
  }

  /** A sync that lands after boot lowers what the page displays if and only if, between its execution and
      its landing, the boot reply arrived with a total that leaves no room for the batch below the sync's own
      total; its read then came after the execution, and counted the batch already. */
  lemma DisplayFallsAtLandingIff(s: System, before: seq<Event>, between: seq<Event>, d: nat)
    requires Init(s) && d < |s.devices| && PlainRun(s, before)
    requires Enabled(Run(s, before), Executed(d)) && Plain(Run(s, before), Executed(d))
    requires PlainRun(Step(Run(s, before), Executed(d)), between)
    requires forall e | e in between :: e != Succeeded(d) && !(e.Failed? && e.d == d)
    requires Enabled(Run(Step(Run(s, before), Executed(d)), between), Succeeded(d))
    ensures var p := Run(s, before);
            var q := Step(p, Executed(d));
            var r := Run(q, between);
            && d < |Step(r, Succeeded(d)).devices| && d < |p.boots|
            && (Displayed(Step(r, Succeeded(d)).devices[d]) < Displayed(r.devices[d])
                <==> BootedPast(q, between, d, RowTotal(p.row)))
            && (Displayed(Step(r, Succeeded(d)).devices[d]) < Displayed(r.devices[d]) ==> p.boots[d].Asking?)
  {
    InitIsUndisturbed(s);
    PlainRunKept(s, before);
    var p := Run(s, before);
    PlainStep(p, Executed(d));
    PlainExecute(p, d);
    var q := Step(p, Executed(d));
    PlainRunKept(q, between);
    var r := Run(q, between);
    PlainStep(r, Succeeded(d));
    assert DisplayStep(r, Succeeded(d), d);
    assert Calm(p.devices[d], p.replies[d], p.boots[d], p.row);
    UnsettledStays(q, between, d);
    BasePastIffBooted(q, between, d, RowTotal(p.row));
    if !p.boots[d].Asking? { ReadBeforeIsCovered(q, between, d, RowTotal(p.row)); }
  }

  lemma {:induction false} UnsettledStays(s: System, es: seq<Event>, d: nat)
    requires Ok(s) && Possible(s, es) && d < |s.devices| && s.devices[d].inflight.Some? && s.replies[d].Some?
    requires forall e | e in es :: e != Succeeded(d) && !(e.Failed? && e.d == d)
    ensures var t := Run(s, es);
            && d < |t.devices| && d < |t.replies|
            && t.devices[d].inflight == s.devices[d].inflight && t.replies[d] == s.replies[d]
    decreases |es|
  {
    if es != [] {
      var e := es[0];
      assert e in es;
      StepKeepsOk(s, e);
      if e.Page? && e.d == d { TurnKeepsDeviceOk(s.devices[d], e.turn); }
      if e == BootReplied(d) { BootKeepsDeviceOk(s.devices[d], s.boots[d].stats); }
      hide After, Resume, Succeed, Fail, BootReply, Folded, Tally, TurnBooks, AppliedBooks, Double, DeviceOk;
      UnsettledStays(Step(s, e), es[1..], d);
    }
  }

  lemma {:induction false} ReadBeforeIsCovered(s: System, es: seq<Event>, d: nat, total: int)
    requires Ok(s) && Possible(s, es) && d < |s.devices|
    requires s.boots[d].Booted? || (s.boots[d].Read? && RowTotal(Some(s.boots[d].stats)) <= total)
    ensures !BootedPast(s, es, d, total)
    decreases |es|
  {
    if es != [] {
      StepKeepsOk(s, es[0]);
      BootMovesOn(s, [es[0]], d);
      assert Run(s, [es[0]]) == Step(s, es[0]);
      ReadBeforeIsCovered(Step(s, es[0]), es[1..], d, total);
    }
  }

  // ---------------------------------------------------------------------------
  // Both do happen
  // ---------------------------------------------------------------------------

  /** One page of a user who has no row yet. */
  function Alone(): System {
    System([Device(0, [], None, false, false, false, 0, 0, 0, 0, 0, 0, false)], [None], [0], [Asking], None, [],
           multiset{}, Books({}, {}, {}, Delta(0, 0), Delta(0, 0), Delta(0, 0), Delta(0, 0), Delta(0, 0), Delta(0, 0)))
  }

  lemma OneStepFirst(s: System, e: Event, es: seq<Event>)
    requires Enabled(s, e) && Plain(s, e) && PlainRun(Step(s, e), es)
    ensures PlainRun(s, [e] + es) && Run(s, [e] + es) == Run(Step(s, e), es)
  {
    assert ([e] + es)[1..] == es;
  }

  lemma OneStepLast(s: System, es: seq<Event>, e: Event)
    requires PlainRun(s, es) && Possible(s, es) && Enabled(Run(s, es), e) && Plain(Run(s, es), e)
    ensures PlainRun(s, es + [e]) && Possible(s, es + [e]) && Run(s, es + [e]) == Step(Run(s, es), e)
    decreases |es|
  {
    hide Step, Enabled, Plain;
    if es == [] {
      assert [] + [e] == [e];
      OneStepAlone(s, e);
    } else {
      OneStepLast(Step(s, es[0]), es[1..], e);
      assert (es + [e])[1..] == es[1..] + [e];
    }
  }

  lemma OneStepAlone(s: System, e: Event)
    requires Enabled(s, e) && Plain(s, e)
    ensures PlainRun(s, [e]) && Possible(s, [e]) && Run(s, [e]) == Step(s, e)
  {
    hide Step, Enabled, Plain;
    assert PlainRun(Step(s, e), []) && Possible(Step(s, e), []) && Run(Step(s, e), []) == Step(s, e);
    assert [e][1..] == [];
  }

  const FIRST := Solve(0, 0, false)

  // A first solve is recorded and sent.
  lemma FirstSolveSent()
    ensures var es := [Page(0, Solved(false)), Page(0, FlushNow)];
            && PlainRun(Alone(), es) && Possible(Alone(), es)
            && var s := Run(Alone(), es);
            && s.devices == [Device(0, [], Some(Batch([FIRST], 1, 1)), false, true, true, 1, 1, 0, 1, 1, 0, false)]
            && s.replies == [None] && s.boots == [Asking] && s.resets == [0] && s.row == None && s.late == multiset{}
  {
    var e := Page(0, Solved(false));
    OneStepAlone(Alone(), e);
    var s := Step(Alone(), e);
    assert s.devices[0].pending == [FIRST];
    OneStepLast(Alone(), [e], Page(0, FlushNow));
    assert [e] + [Page(0, FlushNow)] == [e, Page(0, FlushNow)];
  }

  lemma FirstSolveFits()
    ensures Tally([FIRST], false) == 1 && Tally([FIRST], true) == 0 && Fits(Batch([FIRST], 1, 1))
    ensures Folded(None, Batch([FIRST], 1, 1)) == Row(1, 1, 1, 1, 0)
  {
    assert [FIRST][..0] == [];
  }

  const READ_EARLY := [Page(0, Solved(false)), Page(0, FlushNow), StatsRead(0), Executed(0), Succeeded(0)]
  const READ_LATE := [Page(0, Solved(false)), Page(0, FlushNow), Executed(0), StatsRead(0), BootReplied(0)]

  /** A first solve is synced and acknowledged before the boot reply, which was read earlier, arrives: the
      display falls from one to zero. */
  lemma BootReplyCanLowerDisplay()
    ensures Init(Alone()) && PlainRun(Alone(), READ_EARLY + [BootReplied(0)])
    ensures Possible(Alone(), READ_EARLY) && Possible(Alone(), READ_EARLY + [BootReplied(0)])
    ensures var s, t := Run(Alone(), READ_EARLY), Run(Alone(), READ_EARLY + [BootReplied(0)]);
            |s.devices| == |t.devices| == 1 && Displayed(s.devices[0]) == 1 && Displayed(t.devices[0]) == 0
  {
    FirstSolveSent();
    FirstSolveFits();
    hide Tally, Folded, Run, PlainRun, Possible;
    var es := [Page(0, Solved(false)), Page(0, FlushNow)];
    OneStepLast(Alone(), es, StatsRead(0));
    OneStepLast(Alone(), es + [StatsRead(0)], Executed(0));
    OneStepLast(Alone(), es + [StatsRead(0)] + [Executed(0)], Succeeded(0));
    assert es + [StatsRead(0)] + [Executed(0)] + [Succeeded(0)] == READ_EARLY;
    OneStepLast(Alone(), READ_EARLY, BootReplied(0));
  }

  /** The boot reply already counts a solve whose sync is still unanswered: the display rises to two, and
      falls to one when the sync lands. */
  lemma LandingCanLowerDisplay()
    ensures Init(Alone()) && PlainRun(Alone(), READ_LATE + [Succeeded(0)])
    ensures Possible(Alone(), READ_LATE) && Possible(Alone(), READ_LATE + [Succeeded(0)])
    ensures var s, t := Run(Alone(), READ_LATE), Run(Alone(), READ_LATE + [Succeeded(0)]);
            |s.devices| == |t.devices| == 1 && Displayed(s.devices[0]) == 2 && Displayed(t.devices[0]) == 1
  {
    FirstSolveSent();
    FirstSolveFits();
    hide Tally, Folded, Run, PlainRun, Possible;
    var es := [Page(0, Solved(false)), Page(0, FlushNow)];
    OneStepLast(Alone(), es, Executed(0));
    OneStepLast(Alone(), es + [Executed(0)], StatsRead(0));
    OneStepLast(Alone(), es + [Executed(0)] + [StatsRead(0)], BootReplied(0));
    assert es + [Executed(0)] + [StatsRead(0)] + [BootReplied(0)] == READ_LATE;
    OneStepLast(Alone(), READ_LATE, Succeeded(0));
  }

  /** No solve is ever lost: without a reset, the server's totals plus what the devices still hold are
      exactly what was recorded plus the batches applied although their failure was reported. */
  lemma NoSolveIsLost(s: System, es: seq<Event>, auto: bool)
    requires Init(s) && PlainRun(s, es)
    ensures Possible(s, es) && Ok(Run(s, es))
    ensures var t := Run(s, es);
            Counted(t.row, auto) + HeldTotal(t.devices, t.replies, auto)
            == Counted(s.row, auto) + Part(t.books.recorded, auto) + Part(t.books.doubled, auto)
  {
    InitIsUndisturbed(s);
    PlainRunKept(s, es);
    EverySolveIsAccountedFor(s, es, auto);
    OpeningKept(s, es);
  }

  lemma {:induction false} OpeningKept(s: System, es: seq<Event>)
    requires Possible(s, es)
    ensures Run(s, es).books.opening == s.books.opening
    decreases |es|
  {
    if es != [] { OpeningKept(Step(s, es[0]), es[1..]); }
  }
}

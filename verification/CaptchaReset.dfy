/** Resets of the CAPTCHA page racing with its syncs: which solves the deletion of the row cannot bring back,
    and which it takes along. */
module CaptchaReset {
  import opened CaptchaSync
  import opened Sequences
  import opened Wrappers

  // ---------------------------------------------------------------------------
  // A reset does not resurrect solves
  // ---------------------------------------------------------------------------

  /** The event makes device d's performReset pass its second discard and send its request. */
  predicate Discards(s: System, e: Event, d: nat)
    requires Enabled(s, e)
  {
    match e
    case Page(c, turn) => c == d && turn.ResetClicked? && s.devices[d].inflight.None?
    case Succeeded(c) => c == d && s.devices[d].waiting > 0
    case Failed(c, _) => c == d && s.devices[d].waiting > 0
    case _ => false
  }

  // Solves of device d recorded before serial number mark.
  predicate Old(x: Solve, d: nat, mark: nat) {
    x.device == d && x.serial < mark
  }

  // Device d holds only solves recorded from mark on.
  ghost predicate Renewed(s: System, d: nat, mark: nat) {
    && d < |s.devices| && mark <= s.devices[d].serial
    && (forall x | x in s.devices[d].pending || x in InFlight(s.devices[d]) :: x.serial >= mark)
  }

  lemma SettlingRenews(s: System, d: nat, n: Device, late: multiset<Batch>, b: Books)
    requires Ok(s) && d < |s.devices| && n.waiting > 0 && n.inflight.None?
    ensures var t := Settle(s, d, n, late, b);
            && |t.devices| == |s.devices| && Renewed(t, d, t.devices[d].serial)
            && t.devices[d].waiting == 0 && t.resets[d] > s.resets[d]
  {
    hide Tally, Add, DeviceOk;
  }

  lemma DiscardRenews(s: System, e: Event, d: nat)
    requires Ok(s) && Enabled(s, e) && Discards(s, e, d) && d < |s.devices|
    ensures |Step(s, e).devices| == |s.devices| && Renewed(Step(s, e), d, Step(s, e).devices[d].serial)
    ensures Step(s, e).devices[d].waiting == 0 && Step(s, e).resets[d] > s.resets[d]
  {
    hide Tally, Add, Settle, Double;
    match e
    case Succeeded(_) => SettlingRenews(s, d, Succeed(s.devices[d], s.replies[d].value), s.late, s.books);
    case Failed(_, u) =>
      var n, b := Fail(s.devices[d], u), s.devices[d].inflight.value;
      SettlingRenews(s, d, n, s.late, Double(s.books, b.solves));
      SettlingRenews(s, d, n, s.late + multiset{b}, s.books);
    case _ =>
  }

  lemma TurnKeepsRenewed(d: Device, turn: Turn, mark: nat)
    requires mark <= d.serial && forall x | x in d.pending || x in InFlight(d) :: x.serial >= mark
    ensures d.serial <= After(d, turn).serial
    ensures forall x | x in After(d, turn).pending || x in InFlight(After(d, turn)) :: x.serial >= mark
  {
    hide Tally;
  }

  lemma SettleKeepsRenewed(s: System, c: nat, n: Device, late: multiset<Batch>, b: Books, d: nat, mark: nat)
    requires Ok(s) && c < |s.devices| && Renewed(s, d, mark) && n.inflight.None? && n.serial == s.devices[c].serial
    requires forall x | x in n.pending :: x in s.devices[c].pending || x in InFlight(s.devices[c])
    ensures Renewed(Settle(s, c, n, late, b), d, mark)
  {
    hide Tally, Add;
  }

  lemma StepKeepsRenewed(s: System, e: Event, d: nat, mark: nat)
    requires Ok(s) && Enabled(s, e) && Renewed(s, d, mark)
    ensures Renewed(Step(s, e), d, mark)
  {
    hide Tally, Add, Folded, Over, After, Settle, Resume, TurnBooks, AppliedBooks, Double;
    match e
    case Page(c, turn) => if c == d { TurnKeepsRenewed(s.devices[d], turn, mark); }
    case Succeeded(c) => SettleKeepsRenewed(s, c, Succeed(s.devices[c], s.replies[c].value), s.late, s.books, d, mark);
    case Failed(c, u) =>
      var n, t := Fail(s.devices[c], u), FailStep(s, c, u);
      SettleKeepsRenewed(s, c, n, s.late, Double(s.books, s.devices[c].inflight.value.solves), d, mark);
      SettleKeepsRenewed(s, c, n, s.late + multiset{s.devices[c].inflight.value}, s.books, d, mark);
    case _ =>
  }

  lemma {:induction false} RunKeepsRenewed(s: System, es: seq<Event>, d: nat, mark: nat)
    requires Ok(s) && Possible(s, es) && Renewed(s, d, mark)
    ensures Renewed(Run(s, es), d, mark) && Ok(Run(s, es))
    decreases |es|
  {
    if es != [] {
      StepKeepsOk(s, es[0]);
      StepKeepsRenewed(s, es[0], d, mark);
      RunKeepsRenewed(Step(s, es[0]), es[1..], d, mark);
    }
  }

  // The server runs a request already reported failed, and it carries an old solve.
  ghost predicate CarriesOld(e: Event, d: nat, mark: nat) {
    e.ExecutedLate? && exists x | x in e.batch.solves :: Old(x, d, mark)
  }

  ghost predicate HasOld(log: seq<Solve>, d: nat, mark: nat) {
    exists x | x in log :: Old(x, d, mark)
  }

  lemma StepLog(s: System, e: Event, d: nat, mark: nat)
    requires Ok(s) && Enabled(s, e) && Renewed(s, d, mark) && !e.RowDeleted?
    ensures HasOld(Step(s, e).log, d, mark) <==> HasOld(s.log, d, mark) || CarriesOld(e, d, mark)
  {
    hide Tally, Add, Folded, Over, After, Resume, Succeed, Fail, TurnBooks, AppliedBooks, Double;
    match e
    case Executed(c) => assert forall x | x in s.devices[c].inflight.value.solves :: x in InFlight(s.devices[c]);
    case _ =>
  }

  lemma {:induction false} RunLog(s: System, es: seq<Event>, d: nat, mark: nat)
    requires Ok(s) && Possible(s, es) && Renewed(s, d, mark)
    requires forall i | 0 <= i < |es| :: !es[i].RowDeleted?
    ensures HasOld(Run(s, es).log, d, mark) <==>
            HasOld(s.log, d, mark) || exists i | 0 <= i < |es| :: CarriesOld(es[i], d, mark)
    decreases |es|
  {
    if es != [] {
      StepKeepsOk(s, es[0]);
      StepKeepsRenewed(s, es[0], d, mark);
      StepLog(s, es[0], d, mark);
      RunLog(Step(s, es[0]), es[1..], d, mark);
      assert forall i | 0 < i < |es| :: es[i] == es[1..][i - 1];
      if exists i | 0 <= i < |es| - 1 :: CarriesOld(es[1..][i], d, mark) {
        var i :| 0 <= i < |es| - 1 && CarriesOld(es[1..][i], d, mark);
        assert CarriesOld(es[i + 1], d, mark);
      }
    }
  }

  /** Let a reset pass its second discard (event e), and let the row be deleted later.  For every
      interleaving in between and afterwards, a solve recorded before that discard counts again in the
      new row if and only if the server runs, after the deletion, a request that had already been
      reported failed and carries one: a settled request that has had its effect resurrects nothing. */
  lemma ResetResurrectsOnlyByLateRequests(s: System, before: seq<Event>, e: Event, between: seq<Event>, k: nat,
                                          after: seq<Event>, d: nat)
    requires Init(s) && Possible(s, before) && Enabled(Run(s, before), e)
    requires d < |Run(s, before).devices| && Discards(Run(s, before), e, d)
    requires Possible(Step(Run(s, before), e), between)
    requires Enabled(Run(Step(Run(s, before), e), between), RowDeleted(k))
    requires Possible(Step(Run(Step(Run(s, before), e), between), RowDeleted(k)), after)
    requires forall i | 0 <= i < |after| :: !after[i].RowDeleted?
    ensures d < |Step(Run(s, before), e).devices|
    ensures var mark := Step(Run(s, before), e).devices[d].serial;
            HasOld(Run(Step(Run(Step(Run(s, before), e), between), RowDeleted(k)), after).log, d, mark)
            <==> exists i | 0 <= i < |after| :: CarriesOld(after[i], d, mark)
  {
    InitIsOk(s);
    RunKeepsOk(s, before);
    var s1 := Run(s, before);
    StepKeepsOk(s1, e);
    DiscardRenews(s1, e, d);
    var s2 := Step(s1, e);
    var mark := s2.devices[d].serial;
    RunKeepsRenewed(s2, between, d, mark);
    var s3 := Run(s2, between);
    StepKeepsOk(s3, RowDeleted(k));
    StepKeepsRenewed(s3, RowDeleted(k), d, mark);
    RunLog(Step(s3, RowDeleted(k)), after, d, mark);
  }

  // Nothing recorded from mark on was dropped, and no reset of device d is under way.
  ghost predicate KeptFrom(s: System, d: nat, mark: nat) {
    && Renewed(s, d, mark) && s.devices[d].waiting == 0
    && forall x | x in s.books.dropped && x.device == d :: x.serial < mark
  }

  lemma TurnDropsNothing(s: System, d: nat, turn: Turn)
    requires d < |s.devices| && d < |s.resets|
    ensures After(s.devices[d], turn).waiting ==
            s.devices[d].waiting + (if turn.ResetClicked? && s.devices[d].inflight.Some? then 1 else 0)
    ensures PageStep(s, d, turn).books.dropped ==
            if turn.ResetClicked? then s.books.dropped + Members(s.devices[d].pending) else s.books.dropped
  {
    hide Tally, Add;
  }

  lemma SettleKeepsLater(s: System, c: nat, n: Device, late: multiset<Batch>, b: Books, d: nat, mark: nat)
    requires Ok(s) && KeptFrom(s, d, mark) && c < |s.devices| && b.dropped == s.books.dropped
    requires n.waiting == s.devices[c].waiting && forall x | x in n.pending :: x.device == c
    requires Renewed(Settle(s, c, n, late, b), d, mark)
    ensures KeptFrom(Settle(s, c, n, late, b), d, mark)
  {
    hide Tally, Add;
  }

  lemma StepKeepsLater(s: System, e: Event, d: nat, mark: nat)
    requires Ok(s) && Enabled(s, e) && KeptFrom(s, d, mark) && e != Page(d, ResetClicked)
    ensures KeptFrom(Step(s, e), d, mark)
  {
    StepKeepsRenewed(s, e, d, mark);
    hide Tally, Add, Folded, Over, After, Settle, Resume, Renewed;
    match e
    case Page(c, turn) => TurnDropsNothing(s, c, turn);
    case Succeeded(c) => SettleKeepsLater(s, c, Succeed(s.devices[c], s.replies[c].value), s.late, s.books, d, mark);
    case Failed(c, u) =>
      var n, b := Fail(s.devices[c], u), s.devices[c].inflight.value;
      if s.replies[c].Some? {
        SettleKeepsLater(s, c, n, s.late, Double(s.books, b.solves), d, mark);
      } else {
        SettleKeepsLater(s, c, n, s.late + multiset{b}, s.books, d, mark);
      }
    case _ =>
  }

  // Some request reported failed and not yet run carries an old solve.
  ghost predicate LateHasOld(late: multiset<Batch>, d: nat, mark: nat) {
    exists b | b in late :: HasOld(b.solves, d, mark)
  }

  lemma LateOldStep(s: System, e: Event, d: nat, mark: nat)
    requires Ok(s) && Enabled(s, e) && Renewed(s, d, mark) && LateHasOld(Step(s, e).late, d, mark)
    ensures LateHasOld(s.late, d, mark)
  {
    hide Tally, Add, Folded, Over, After, Resume, Succeed, Fail, TurnBooks, AppliedBooks, Double;
    var b :| b in Step(s, e).late && HasOld(b.solves, d, mark);
    assert b in s.late || (e.Failed? && b.solves == InFlight(s.devices[e.d]));
  }

  lemma {:induction false} CarriedOldWasLate(s: System, es: seq<Event>, d: nat, mark: nat)
    requires Ok(s) && Possible(s, es) && Renewed(s, d, mark) && exists i | 0 <= i < |es| :: CarriesOld(es[i], d, mark)
    ensures LateHasOld(s.late, d, mark)
    decreases |es|
  {
    if CarriesOld(es[0], d, mark) {
      assert es[0].batch in s.late;
    } else {
      var i :| 0 <= i < |es| && CarriesOld(es[i], d, mark);
      assert CarriesOld(es[1..][i - 1], d, mark);
      StepKeepsOk(s, es[0]);
      StepKeepsRenewed(s, es[0], d, mark);
      CarriedOldWasLate(Step(s, es[0]), es[1..], d, mark);
      LateOldStep(s, es[0], d, mark);
    }
  }

  /** Seen at the deletion: some continuation resurrects a solve of that page if and only if a request
      reported failed and not yet run carries one at that moment. */
  lemma ResurrectionPossibleIffLate(s: System, before: seq<Event>, e: Event, between: seq<Event>, k: nat, d: nat)
    requires Init(s) && Possible(s, before) && Enabled(Run(s, before), e)
    requires d < |Run(s, before).devices| && Discards(Run(s, before), e, d)
    requires Possible(Step(Run(s, before), e), between)
    requires Enabled(Run(Step(Run(s, before), e), between), RowDeleted(k))
    ensures d < |Step(Run(s, before), e).devices|
    ensures var mark := Step(Run(s, before), e).devices[d].serial;
            var t := Step(Run(Step(Run(s, before), e), between), RowDeleted(k));
            (exists after | Possible(t, after) :: NoDeletion(after) && HasOld(Run(t, after).log, d, mark))
            <==> LateHasOld(Run(Step(Run(s, before), e), between).late, d, mark)
  {
    InitIsOk(s);
    RunKeepsOk(s, before);
    var s1 := Run(s, before);
    StepKeepsOk(s1, e);
    DiscardRenews(s1, e, d);
    var s2 := Step(s1, e);
    var mark := s2.devices[d].serial;
    RunKeepsRenewed(s2, between, d, mark);
    var s3 := Run(s2, between);
    StepKeepsOk(s3, RowDeleted(k));
    StepKeepsRenewed(s3, RowDeleted(k), d, mark);
    ContinuationResurrects(Step(s3, RowDeleted(k)), d, mark);
  }

  lemma ContinuationResurrects(t: System, d: nat, mark: nat)
    requires Ok(t) && Renewed(t, d, mark) && t.log == []
    ensures (exists after | Possible(t, after) :: NoDeletion(after) && HasOld(Run(t, after).log, d, mark))
            <==> LateHasOld(t.late, d, mark)
  {
    if LateHasOld(t.late, d, mark) {
      var b :| b in t.late && HasOld(b.solves, d, mark);
      var e := ExecutedLate(b);
      assert Possible(Step(t, e), []);
      assert [e][1..] == [];
      assert Possible(t, [e]) && Run(t, [e]).log == b.solves && NoDeletion([e]);
    }
    forall after | Possible(t, after) && NoDeletion(after) && HasOld(Run(t, after).log, d, mark)
      ensures LateHasOld(t.late, d, mark)
    {
      RunLog(t, after, d, mark);
      CarriedOldWasLate(t, after, d, mark);
    }
  }

  /** And that does happen: whenever a sync that the server has not run is reported failed, the page may
      be reset, the row deleted, and the server may still run the sync, which then counts again. */
  lemma LateRequestResurrects(s: System, d: nat, x: Solve)
    requires Ok(s) && d < |s.devices| && s.devices[d].inflight.Some? && s.replies[d].None? && s.devices[d].waiting == 0
    requires x in InFlight(s.devices[d])
    ensures var s1 := Step(s, Failed(d, false));
            && Enabled(s1, Page(d, ResetClicked)) && Discards(s1, Page(d, ResetClicked), d)
            && var s2 := Step(s1, Page(d, ResetClicked));
            && Enabled(s2, RowDeleted(d))
            && var s3 := Step(s2, RowDeleted(d));
            var late := ExecutedLate(s.devices[d].inflight.value);
            && Enabled(s3, late) && d < |s2.devices| && HasOld(Step(s3, late).log, d, s2.devices[d].serial)
  {
    hide Tally, Add, Folded, Over;
    var b := s.devices[d].inflight.value;
    var s1 := FailStep(s, d, false);
    assert b in s1.late && s1.devices[d].inflight.None? && s1.devices[d].serial == s.devices[d].serial;
    var s2 := PageStep(s1, d, ResetClicked);
    assert b in s2.late && s2.resets[d] > 0 && s2.devices[d].serial == s.devices[d].serial;
    var s3 := DeleteStep(s2, d);
    assert x in LateStep(s3, b).log && Old(x, d, s2.devices[d].serial);
  }

  // ---------------------------------------------------------------------------
  // The log is what the row adds up to
  // ---------------------------------------------------------------------------

  // What the cap cut off the batches in the row, when it was `sofar` before the event.
  function ClippedAfter(s: System, e: Event, auto: bool, sofar: nat): nat
    requires Enabled(s, e)
  {
    match e
    case RowDeleted(_) => 0
    case Executed(d) => sofar + Over(InFlight(s.devices[d]), auto)
    case ExecutedLate(b) => sofar + Over(b.solves, auto)
    case _ => sofar
  }

  /** What the cap cut off since the last deletion, or in the whole run when there was none. */
  ghost function ClippedSinceDeletion(s: System, es: seq<Event>, auto: bool, sofar: nat): nat
    requires Possible(s, es)
    decreases |es|
  {
    if es == [] then sofar
    else ClippedSinceDeletion(Step(s, es[0]), es[1..], auto, ClippedAfter(s, es[0], auto, sofar))
  }

  lemma RowStep(s: System, e: Event, auto: bool, sofar: nat, opening: int)
    requires Enabled(s, e) && Counted(s.row, auto) + sofar == Tally(s.log, auto) + opening
    ensures var t := Step(s, e);
            Counted(t.row, auto) + ClippedAfter(s, e, auto, sofar)
            == Tally(t.log, auto) + (if e.RowDeleted? then 0 else opening)
  {
    hide Counted, Folded, Over, After, Resume, Succeed, Fail, BootReply, TurnBooks, AppliedBooks, Double;
    match e
    case Executed(d) =>
      ApplyCounts(s.row, s.devices[d].inflight.value, auto);
      TallyConcat(s.log, InFlight(s.devices[d]), auto);
    case ExecutedLate(b) =>
      ApplyCounts(s.row, b, auto);
      TallyConcat(s.log, b.solves, auto);
    case RowDeleted(_) => NoRowCountsNothing(auto);
    case _ =>
  }

  lemma NoRowCountsNothing(auto: bool)
    ensures Counted(None, auto) == 0 == Tally([], auto)
  {
  }

  lemma {:induction false} RowAddsUpFrom(s: System, es: seq<Event>, auto: bool, sofar: nat, opening: int)
    requires Possible(s, es) && Counted(s.row, auto) + sofar == Tally(s.log, auto) + opening
    ensures Counted(Run(s, es).row, auto) + ClippedSinceDeletion(s, es, auto, sofar)
            == Tally(Run(s, es).log, auto) + (if NoDeletion(es) then opening else 0)
    decreases |es|
  {
    hide Step, Enabled, ClippedAfter, Counted, Tally;
    if es != [] {
      RowStep(s, es[0], auto, sofar, opening);
      RowAddsUpFrom(Step(s, es[0]), es[1..], auto, ClippedAfter(s, es[0], auto, sofar),
                    if es[0].RowDeleted? then 0 else opening);
      assert NoDeletion(es) <==> !es[0].RowDeleted? && NoDeletion(es[1..]) by {
        assert es == [es[0]] + es[1..];
      }
    }
  }

  /** On every run the row's counters, with what the cap cut off since the last deletion, are the tally of the
      logged solves, plus what the account opened with if nothing was deleted. */
  lemma RowAddsUpLog(s: System, es: seq<Event>, auto: bool)
    requires Init(s) && Possible(s, es)
    ensures Counted(Run(s, es).row, auto) + ClippedSinceDeletion(s, es, auto, 0)
            == Tally(Run(s, es).log, auto) + (if NoDeletion(es) then Counted(s.row, auto) else 0)
  {
    RowAddsUpFrom(s, es, auto, 0, Counted(s.row, auto));
  }

  // ---------------------------------------------------------------------------
  // Exactly when a solve recorded after the discard still counts
  // ---------------------------------------------------------------------------

  predicate HeldBy(s: System, x: Solve) {
    x.device < |s.devices| && (x in s.devices[x.device].pending || x in InFlight(s.devices[x.device]))
  }

  // The solve is queued or in flight on its page, or part of what the row holds.
  predicate Counts(s: System, x: Solve) {
    HeldBy(s, x) || x in s.log
  }

  predicate NoDeletion(es: seq<Event>) {
    forall e | e in es :: !e.RowDeleted?
  }

  // The server folds a batch with this solve into the row.
  predicate Executes(s: System, e: Event, x: Solve)
    requires Enabled(s, e)
  {
    (e.Executed? && x in InFlight(s.devices[e.d])) || (e.ExecutedLate? && x in e.batch.solves)
  }

  // The page is told that a sync with this solve succeeded.
  predicate Acknowledges(s: System, e: Event, x: Solve)
    requires Enabled(s, e)
  {
    e == Succeeded(x.device) && x in InFlight(s.devices[x.device])
  }

  predicate Records(s: System, e: Event, x: Solve)
    requires Enabled(s, e)
  {
    e == Page(x.device, Solved(x.auto)) && x.serial == s.devices[x.device].serial
  }

  ghost predicate Acknowledged(s: System, es: seq<Event>, x: Solve)
    requires Possible(s, es)
    decreases |es|
  {
    es != [] && (Acknowledges(s, es[0], x) || Acknowledged(Step(s, es[0]), es[1..], x))
  }

  /** During es the solve was executed after the last deletion, or when there was none. */
  ghost predicate ExecutedSinceDeletion(s: System, es: seq<Event>, x: Solve)
    requires Possible(s, es)
    decreases |es|
  {
    es != [] && ((Executes(s, es[0], x) && NoDeletion(es[1..])) || ExecutedSinceDeletion(Step(s, es[0]), es[1..], x))
  }

  lemma LogStep(s: System, e: Event, x: Solve)
    requires Enabled(s, e)
    ensures x in Step(s, e).log <==> !e.RowDeleted? && (x in s.log || Executes(s, e, x))
  {
    hide Tally, Add, Folded, Over, After, Resume, Succeed, Fail, BootReply, TurnBooks, AppliedBooks, Double;
  }

  lemma {:induction false} LogAfter(s: System, es: seq<Event>, x: Solve)
    requires Possible(s, es)
    ensures x in Run(s, es).log <==> (x in s.log && NoDeletion(es)) || ExecutedSinceDeletion(s, es, x)
    decreases |es|
  {
    hide Step, Enabled;
    if es != [] {
      LogStep(s, es[0], x);
      LogAfter(Step(s, es[0]), es[1..], x);
      assert NoDeletion(es) <==> !es[0].RowDeleted? && NoDeletion(es[1..]) by {
        assert es == [es[0]] + es[1..];
      }
    }
  }

  lemma HeldTurn(d: Device, turn: Turn, x: Solve)
    requires DeviceOk(d) && x.device == d.id && !turn.ResetClicked?
    ensures var n := After(d, turn);
            (x in n.pending || x in InFlight(n)) <==>
            x in d.pending || x in InFlight(d) || (turn == Solved(x.auto) && x.serial == d.serial)
  {
    hide Tally;
  }

  lemma HeldSettled(d: Device, row: Row, unauthorized: bool, x: Solve)
    requires DeviceOk(d) && d.waiting == 0 && d.inflight.Some?
    ensures var n := Resume(Succeed(d, row)); n.inflight.None? && (x in n.pending <==> x in d.pending)
    ensures var n := Resume(Fail(d, unauthorized));
            n.inflight.None? && (x in n.pending <==> x in d.pending || x in InFlight(d))
    ensures x in d.pending ==> x !in InFlight(d)
  {
    hide Tally;
  }

  lemma HeldStep(s: System, e: Event, x: Solve)
    requires Ok(s) && Enabled(s, e) && x.device < |s.devices| && s.devices[x.device].waiting == 0
    requires e != Page(x.device, ResetClicked)
    ensures HeldBy(Step(s, e), x) <==> (HeldBy(s, x) && !Acknowledges(s, e, x)) || Records(s, e, x)
  {
    hide Tally, Add, Folded, Over, After, Resume, Succeed, Fail, TurnBooks, AppliedBooks, Double, Discard;
    var d := s.devices[x.device];
    match e
    case Page(c, turn) => if c == x.device { HeldTurn(d, turn, x); }
    case Succeeded(c) => if c == x.device { HeldSettled(d, s.replies[c].value, true, x); }
    case Failed(c, u) => if c == x.device { HeldSettled(d, Row(0, 0, 0, 0, 0), u, x); }
    case _ =>
  }

  lemma SeenStep(s: System, e: Event, x: Solve)
    requires Ok(s) && Enabled(s, e) && x.device < |s.devices|
    ensures x in Step(s, e).books.seen <==> x in s.books.seen || Records(s, e, x)
  {
    hide Tally, Add, Folded, Over, After, Resume, Succeed, Fail, BootReply;
  }

  // A solve that has left its page, or is about to be recorded, is followed to the end of the run.
  lemma {:induction false} HeldUnlessAcknowledged(s: System, es: seq<Event>, x: Solve, mark: nat)
    requires Ok(s) && Possible(s, es) && KeptFrom(s, x.device, mark)
    requires forall i | 0 <= i < |es| :: es[i] != Page(x.device, ResetClicked)
    requires HeldBy(s, x) ==> x in s.books.seen
    requires x in s.books.seen ==> x.serial < s.devices[x.device].serial
    ensures x in Run(s, es).books.seen && (x in s.books.seen ==> HeldBy(s, x)) ==>
              (HeldBy(Run(s, es), x) <==> !Acknowledged(s, es, x))
    ensures x in s.books.seen && !HeldBy(s, x) ==> !HeldBy(Run(s, es), x) && !Acknowledged(s, es, x)
    decreases |es|
  {
    if es != [] {
      var t := Step(s, es[0]);
      StepKeepsOk(s, es[0]);
      StepKeepsLater(s, es[0], x.device, mark);
      HeldStep(s, es[0], x);
      SeenStep(s, es[0], x);
      SerialStep(s, es[0], x.device);
      AcknowledgedWasHeld(s, es[0], x);
      hide Ok, Step, Enabled, HeldBy, Acknowledges, KeptFrom;
      HeldUnlessAcknowledged(t, es[1..], x, mark);
    }
  }

  lemma TurnSerial(d: Device, turn: Turn)
    ensures After(d, turn).serial == d.serial + (if turn.Solved? then 1 else 0)
  {
    hide Tally;
  }

  lemma SettleSerial(d: Device, row: Row, unauthorized: bool)
    ensures Resume(Succeed(d, row)).serial == Resume(Fail(d, unauthorized)).serial == d.serial
  {
  }

  lemma SerialStep(s: System, e: Event, d: nat)
    requires Ok(s) && Enabled(s, e) && d < |s.devices|
    ensures d < |Step(s, e).devices|
    ensures Step(s, e).devices[d].serial ==
            s.devices[d].serial + (if e.Page? && e.d == d && e.turn.Solved? then 1 else 0)
  {
    hide Tally, Add, Folded, Over, After, Resume, Succeed, Fail, TurnBooks, AppliedBooks, Double, Discard;
    match e
    case Page(c, turn) => TurnSerial(s.devices[c], turn);
    case Succeeded(c) => SettleSerial(s.devices[c], s.replies[c].value, true);
    case Failed(c, u) => SettleSerial(s.devices[c], Row(0, 0, 0, 0, 0), u);
    case _ =>
  }

  lemma AcknowledgedWasHeld(s: System, e: Event, x: Solve)
    requires Enabled(s, e)
    ensures Acknowledges(s, e, x) ==> HeldBy(s, x)
  {
  }

  predicate Written(s: System, x: Solve) {
    x.device < |s.devices| && x.serial < s.devices[x.device].serial
  }

  ghost predicate BatchWritten(s: System, solves: seq<Solve>) {
    forall x | x in solves :: Written(s, x)
  }

  // What the row holds, and what may still be folded into it late, was recorded by its page.
  ghost predicate LogRecorded(s: System) {
    && (forall x | x in s.log :: Written(s, x))
    && (forall b | b in s.late :: BatchWritten(s, b.solves))
    && (forall x | x in s.books.seen :: Written(s, x))
  }

  lemma SerialsGrow(s: System, e: Event)
    requires Ok(s) && Enabled(s, e)
    ensures Ok(Step(s, e)) && |Step(s, e).devices| == |s.devices|
    ensures forall d | 0 <= d < |s.devices| :: s.devices[d].serial <= Step(s, e).devices[d].serial
    ensures e.Page? && e.turn.Solved? ==> s.devices[e.d].serial < Step(s, e).devices[e.d].serial
  {
    StepKeepsOk(s, e);
    forall d: nat | d < |s.devices| ensures s.devices[d].serial <= Step(s, e).devices[d].serial {
      SerialStep(s, e, d);
    }
    if e.Page? && e.turn.Solved? { SerialStep(s, e, e.d); }
  }

  lemma SourcesStep(s: System, e: Event)
    requires Ok(s) && Enabled(s, e)
    ensures var t := Step(s, e);
            && (forall x | x in t.log :: x in s.log || (e.Executed? && x in InFlight(s.devices[e.d]))
                  || (e.ExecutedLate? && x in e.batch.solves))
            && (forall b | b in t.late :: b in s.late || (e.Failed? && b.solves == InFlight(s.devices[e.d])))
            && (forall x | x in t.books.seen :: x in s.books.seen
                  || (e.Page? && e.turn.Solved? && x == Solve(e.d, s.devices[e.d].serial, e.turn.auto)))
  {
    hide Tally, Add, Folded, Over, After, Resume, Succeed, Fail, BootReply;
  }

  lemma SentWasWritten(s: System, d: nat)
    requires Ok(s) && d < |s.devices|
    ensures BatchWritten(s, InFlight(s.devices[d]))
  {
    assert Own(s.devices[d], InFlight(s.devices[d]));
  }

  lemma WrittenStays(s: System, e: Event, solves: seq<Solve>)
    requires Ok(s) && Enabled(s, e) && BatchWritten(s, solves)
    ensures BatchWritten(Step(s, e), solves)
  {
    SerialsGrow(s, e);
    hide Step, Ok, Enabled;
  }

  lemma LogWrittenStep(s: System, e: Event)
    requires Ok(s) && Enabled(s, e) && LogRecorded(s)
    ensures BatchWritten(Step(s, e), Step(s, e).log)
  {
    SerialsGrow(s, e);
    SourcesStep(s, e);
    if e.Executed? { SentWasWritten(s, e.d); }
    if e.ExecutedLate? { assert e.batch in s.late; }
    hide Step, Ok, Enabled, InFlight;
  }

  lemma LateWrittenStep(s: System, e: Event)
    requires Ok(s) && Enabled(s, e) && LogRecorded(s)
    ensures forall b | b in Step(s, e).late :: BatchWritten(Step(s, e), b.solves)
  {
    SourcesStep(s, e);
    if e.Failed? {
      SentWasWritten(s, e.d);
      WrittenStays(s, e, InFlight(s.devices[e.d]));
    }
    hide Step, Ok, Enabled, InFlight, BatchWritten;
    forall b | b in Step(s, e).late ensures BatchWritten(Step(s, e), b.solves) {
      if b in s.late { WrittenStays(s, e, b.solves); }
    }
  }

  lemma SeenWrittenStep(s: System, e: Event)
    requires Ok(s) && Enabled(s, e) && LogRecorded(s)
    ensures forall x | x in Step(s, e).books.seen :: Written(Step(s, e), x)
  {
    SerialsGrow(s, e);
    SourcesStep(s, e);
    hide Step, Ok, InFlight, BatchWritten;
  }

  lemma LogRecordedStep(s: System, e: Event)
    requires Ok(s) && Enabled(s, e) && LogRecorded(s)
    ensures LogRecorded(Step(s, e))
  {
    LogWrittenStep(s, e);
    LateWrittenStep(s, e);
    SeenWrittenStep(s, e);
    hide Step, Ok, Enabled;
  }

  lemma {:induction false} LogRecordedAfter(s: System, es: seq<Event>)
    requires Ok(s) && Possible(s, es) && LogRecorded(s)
    ensures LogRecorded(Run(s, es)) && Ok(Run(s, es))
    decreases |es|
  {
    if es != [] {
      StepKeepsOk(s, es[0]);
      LogRecordedStep(s, es[0]);
      LogRecordedAfter(Step(s, es[0]), es[1..]);
    }
  }

  // When the discard is made, nothing recorded later is anywhere yet.
  lemma NothingLaterYet(s: System, e: Event, x: Solve)
    requires Ok(s) && NothingVanished(s) && LogRecorded(s) && Enabled(s, e)
    requires x.device < |s.devices| && Discards(s, e, x.device)
    requires x.device < |Step(s, e).devices| && x.serial >= Step(s, e).devices[x.device].serial
    ensures var t := Step(s, e);
            && Ok(t) && KeptFrom(t, x.device, t.devices[x.device].serial)
            && !HeldBy(t, x) && x !in t.log && x !in t.books.seen
  {
    StepKeepsOk(s, e);
    StepKeepsEverySolve(s, e);
    LogRecordedStep(s, e);
    DiscardRenews(s, e, x.device);
    var t := Step(s, e);
    hide Step, Discards, Enabled;
    assert !Written(t, x);
    assert Own(t.devices[x.device], t.devices[x.device].pending);
    assert Own(t.devices[x.device], InFlight(t.devices[x.device]));
  }

  /** Until the next reset of its page a solve recorded after the discard is queued, in flight or in the row
      if and only if either no sync with it was acknowledged yet, or the server ran one after the last
      deletion: it is lost exactly when it was synced and acknowledged and every execution of it came
      before a deletion. */
  lemma LaterSolveCountsIff(s: System, before: seq<Event>, e: Event, after: seq<Event>, x: Solve)
    requires Init(s) && Possible(s, before) && Enabled(Run(s, before), e)
    requires x.device < |Run(s, before).devices| && Discards(Run(s, before), e, x.device)
    requires x.device < |Step(Run(s, before), e).devices|
    requires x.serial >= Step(Run(s, before), e).devices[x.device].serial
    requires Possible(Step(Run(s, before), e), after)
    requires forall i | 0 <= i < |after| :: after[i] != Page(x.device, ResetClicked)
    requires x in Run(Step(Run(s, before), e), after).books.seen
    ensures var s2 := Step(Run(s, before), e);
            Counts(Run(s2, after), x) <==> !Acknowledged(s2, after, x) || ExecutedSinceDeletion(s2, after, x)
  {
    InitIsOk(s);
    EverySolveIsSomewhere(s, before);
    LogRecordedAfter(s, before);
    NothingLaterYet(Run(s, before), e, x);
    var s2 := Step(Run(s, before), e);
    hide Ok, Step, Enabled, Discards, Init, KeptFrom, HeldBy, NothingVanished, LogRecorded;
    HeldUnlessAcknowledged(s2, after, x, s2.devices[x.device].serial);
    LogAfter(s2, after, x);
  }

  // ---------------------------------------------------------------------------
  // The same, as seen at the deletion
  // ---------------------------------------------------------------------------

  /** Nothing is deleted and the page is not reset again. */
  predicate Undisturbed(es: seq<Event>, d: nat) {
    NoDeletion(es) && forall e | e in es :: e != Page(d, ResetClicked)
  }

  // The solve is queued, or in a request of its page that the server has not run.
  predicate Unrun(s: System, x: Solve) {
    x.device < |s.devices| && x.device < |s.replies| &&
    (x in s.devices[x.device].pending || (x in InFlight(s.devices[x.device]) && s.replies[x.device].None?))
  }

  lemma UnrunTurn(d: Device, turn: Turn, x: Solve)
    requires !turn.ResetClicked?
    ensures x in d.pending ==> x in After(d, turn).pending || (d.inflight.None? && x in InFlight(After(d, turn)))
    ensures x in InFlight(d) ==> x in InFlight(After(d, turn))
  {
    hide Tally;
  }

  lemma UnrunPage(s: System, c: nat, turn: Turn, x: Solve)
    requires Ok(s) && c < |s.devices| && Unrun(s, x) && !(c == x.device && turn.ResetClicked?)
    ensures Unrun(PageStep(s, c, turn), x)
  {
    hide Tally, Add, After, TurnBooks, DeviceOk;
    if c == x.device { UnrunTurn(s.devices[c], turn, x); }
  }

  lemma UnrunSettled(s: System, c: nat, n: Device, late: multiset<Batch>, b: Books, x: Solve)
    requires Ok(s) && c < |s.devices| && Unrun(s, x)
    requires c == x.device ==> x in Resume(n).pending
    ensures Unrun(Settle(s, c, n, late, b), x)
  {
    hide Tally, Add, Resume, Discard, DeviceOk;
  }

  // A solve that the server has not run stays so until it does.
  lemma UnrunStep(s: System, e: Event, x: Solve)
    requires Ok(s) && Enabled(s, e) && x.device < |s.devices| && s.devices[x.device].waiting == 0
    requires e != Page(x.device, ResetClicked) && !e.RowDeleted? && (x in s.log || Unrun(s, x))
    ensures x in Step(s, e).log || Unrun(Step(s, e), x)
  {
    LogStep(s, e, x);
    if x !in s.log && !Executes(s, e, x) {
      hide PageStep, Settle, Tally, Add, Folded, Over, Resume, Succeed, Fail, AppliedBooks, Double, DeviceOk;
      var d := s.devices[x.device];
      match e
      case Page(c, turn) => UnrunPage(s, c, turn, x);
      case Succeeded(c) =>
        if c == x.device { SettledKeepsQueue(d, s.replies[c].value, true, x); }
        UnrunSettled(s, c, Succeed(s.devices[c], s.replies[c].value), s.late, s.books, x);
      case Failed(c, u) =>
        if c == x.device { SettledKeepsQueue(d, Row(0, 0, 0, 0, 0), u, x); }
        var n, b := Fail(s.devices[c], u), s.devices[c].inflight.value;
        UnrunSettled(s, c, n, s.late, Double(s.books, b.solves), x);
        UnrunSettled(s, c, n, s.late + multiset{b}, s.books, x);
      case _ =>
    }
  }

  lemma SettledKeepsQueue(d: Device, row: Row, unauthorized: bool, x: Solve)
    requires d.waiting == 0
    ensures x in d.pending ==> x in Resume(Succeed(d, row)).pending
    ensures x in d.pending || x in InFlight(d) ==> x in Resume(Fail(d, unauthorized)).pending
  {
  }

  lemma {:induction false} UnrunIsKept(s: System, es: seq<Event>, x: Solve, mark: nat)
    requires Ok(s) && Possible(s, es) && KeptFrom(s, x.device, mark) && Undisturbed(es, x.device)
    requires x in s.log || Unrun(s, x)
    ensures Counts(Run(s, es), x)
    decreases |es|
  {
    if es == [] {
      assert x in s.log || HeldBy(s, x);
    } else {
      assert es[0] in es && forall e | e in es[1..] :: e in es;
      StepKeepsOk(s, es[0]);
      StepKeepsLater(s, es[0], x.device, mark);
      UnrunStep(s, es[0], x);
      hide Step, Ok, KeptFrom, Enabled, Unrun;
      UnrunIsKept(Step(s, es[0]), es[1..], x, mark);
    }
  }

  lemma OneMoreEvent(t: System, e: Event)
    requires Enabled(t, e)
    ensures Possible(t, [e]) && Run(t, [e]) == Step(t, e)
  {
    assert [e][1..] == [] && Possible(Step(t, e), []);
  }

  // A solve in a request that the server ran before the deletion is lost when the reply arrives.
  lemma RunBeforeIsLost(t: System, x: Solve, mark: nat)
    requires Ok(t) && KeptFrom(t, x.device, mark) && t.log == [] && HeldBy(t, x) && !Unrun(t, x)
    ensures var es := [Succeeded(x.device)];
            Possible(t, es) && Undisturbed(es, x.device) && !Counts(Run(t, es), x)
  {
    var e := Succeeded(x.device);
    OneMoreEvent(t, e);
    HeldStep(t, e, x);
    LogStep(t, e, x);
  }

  lemma LossPossible(t: System, x: Solve, mark: nat)
    requires Ok(t) && KeptFrom(t, x.device, mark) && t.log == []
    ensures (exists after | Possible(t, after) :: Undisturbed(after, x.device) && !Counts(Run(t, after), x))
            <==> !Unrun(t, x)
  {
    if !Unrun(t, x) {
      if HeldBy(t, x) {
        RunBeforeIsLost(t, x, mark);
      } else {
        assert Possible(t, []) && Undisturbed([], x.device) && !Counts(Run(t, []), x);
      }
    } else {
      forall after | Possible(t, after) && Undisturbed(after, x.device) ensures Counts(Run(t, after), x) {
        UnrunIsKept(t, after, x, mark);
      }
    }
  }

  predicate InLate(s: System, x: Solve) {
    exists b | b in s.late :: x in b.solves
  }

  // The solve was recorded, and nothing has it any more.
  predicate Gone(s: System, x: Solve) {
    Written(s, x) && !HeldBy(s, x) && x !in s.log && !InLate(s, x)
  }

  lemma GoneStep(s: System, e: Event, x: Solve)
    requires Ok(s) && Enabled(s, e) && Gone(s, x) && s.devices[x.device].waiting == 0
    requires e != Page(x.device, ResetClicked)
    ensures Gone(Step(s, e), x)
  {
    SerialsGrow(s, e);
    HeldStep(s, e, x);
    SourcesStep(s, e);
    NotSent(s, e, x);
    hide Step, HeldBy, InFlight, Ok, Enabled;
  }

  // What nothing has is in no request either.
  lemma NotSent(s: System, e: Event, x: Solve)
    requires Ok(s) && Enabled(s, e) && !HeldBy(s, x) && !InLate(s, x) && Written(s, x)
    ensures e.Executed? || e.Failed? ==> x !in InFlight(s.devices[e.d])
    ensures e.ExecutedLate? ==> x !in e.batch.solves
    ensures !Acknowledges(s, e, x) && !Records(s, e, x)
  {
    if e.Executed? || e.Failed? { assert Own(s.devices[e.d], InFlight(s.devices[e.d])); }
  }

  lemma {:induction false} GoneForGood(s: System, es: seq<Event>, x: Solve, mark: nat)
    requires Ok(s) && Possible(s, es) && KeptFrom(s, x.device, mark) && Undisturbed(es, x.device) && Gone(s, x)
    ensures !Counts(Run(s, es), x)
    decreases |es|
  {
    if es != [] {
      assert es[0] in es && forall e | e in es[1..] :: e in es;
      StepKeepsOk(s, es[0]);
      StepKeepsLater(s, es[0], x.device, mark);
      GoneStep(s, es[0], x);
      hide Step, Ok, KeptFrom, Enabled, Gone;
      GoneForGood(Step(s, es[0]), es[1..], x, mark);
    }
  }

  lemma LossCertain(t: System, x: Solve, mark: nat)
    requires Ok(t) && KeptFrom(t, x.device, mark) && t.log == [] && Written(t, x)
    ensures (forall after | Possible(t, after) && Undisturbed(after, x.device) :: !Counts(Run(t, after), x))
            <==> !HeldBy(t, x) && !InLate(t, x)
  {
    if HeldBy(t, x) {
      assert Possible(t, []) && Undisturbed([], x.device) && Counts(Run(t, []), x);
    } else if InLate(t, x) {
      var b :| b in t.late && x in b.solves;
      OneMoreEvent(t, ExecutedLate(b));
      LogStep(t, ExecutedLate(b), x);
      assert Undisturbed([ExecutedLate(b)], x.device);
    } else {
      forall after | Possible(t, after) && Undisturbed(after, x.device) ensures !Counts(Run(t, after), x) {
        GoneForGood(t, after, x, mark);
      }
    }
  }

  /** Seen at the deletion: while nothing else is deleted and the page is not reset again, some continuation
      loses a solve recorded since the discard if and only if it is then neither queued nor in a request
      that the server has not run; and every continuation does if and only if it is then in no queue and
      no request, not even one reported failed that could still be run. */
  lemma LossAtDeletionIff(s: System, before: seq<Event>, e: Event, between: seq<Event>, k: nat, x: Solve)
    requires Init(s) && Possible(s, before) && Enabled(Run(s, before), e)
    requires x.device < |Run(s, before).devices| && Discards(Run(s, before), e, x.device)
    requires x.device < |Step(Run(s, before), e).devices|
    requires x.serial >= Step(Run(s, before), e).devices[x.device].serial
    requires Possible(Step(Run(s, before), e), between) && forall b | b in between :: b != Page(x.device, ResetClicked)
    requires Enabled(Run(Step(Run(s, before), e), between), RowDeleted(k))
    requires x in Run(Step(Run(s, before), e), between).books.seen
    ensures var t := Step(Run(Step(Run(s, before), e), between), RowDeleted(k));
            && ((exists after | Possible(t, after) :: Undisturbed(after, x.device) && !Counts(Run(t, after), x))
                <==> !Unrun(t, x))
            && ((forall after | Possible(t, after) && Undisturbed(after, x.device) :: !Counts(Run(t, after), x))
                <==> !HeldBy(t, x) && !InLate(t, x))
  {
    InitIsOk(s);
    EverySolveIsSomewhere(s, before);
    LogRecordedAfter(s, before);
    var s1 := Run(s, before);
    NothingLaterYet(s1, e, x);
    LogRecordedStep(s1, e);
    var s2 := Step(s1, e);
    var mark := s2.devices[x.device].serial;
    hide Step, Ok, KeptFrom, Init, Discards, HeldBy, Counts, Unrun, Undisturbed, LogRecorded, NothingVanished;
    KeptThrough(s2, between, x.device, mark);
    LogRecordedAfter(s2, between);
    var s3 := Run(s2, between);
    DeletionLeaves(s3, k, x, mark);
    hide Possible, Run, Enabled;
    LossPossible(Step(s3, RowDeleted(k)), x, mark);
    LossCertain(Step(s3, RowDeleted(k)), x, mark);
  }

  lemma DeletionLeaves(s: System, k: nat, x: Solve, mark: nat)
    requires Ok(s) && Enabled(s, RowDeleted(k)) && KeptFrom(s, x.device, mark) && LogRecorded(s)
    requires x in s.books.seen
    ensures var t := Step(s, RowDeleted(k)); Ok(t) && KeptFrom(t, x.device, mark) && t.log == [] && Written(t, x)
  {
    StepKeepsOk(s, RowDeleted(k));
    StepKeepsLater(s, RowDeleted(k), x.device, mark);
    assert Written(s, x);
  }

  lemma {:induction false} KeptThrough(s: System, es: seq<Event>, d: nat, mark: nat)
    requires Ok(s) && Possible(s, es) && KeptFrom(s, d, mark) && forall e | e in es :: e != Page(d, ResetClicked)
    ensures Ok(Run(s, es)) && KeptFrom(Run(s, es), d, mark)
    decreases |es|
  {
    if es != [] {
      assert es[0] in es && forall e | e in es[1..] :: e in es;
      StepKeepsOk(s, es[0]);
      StepKeepsLater(s, es[0], d, mark);
      hide Step, Ok, KeptFrom, Enabled;
      KeptThrough(Step(s, es[0]), es[1..], d, mark);
    }
  }

  lemma SolvedAfterReset(s: System, d: nat, auto: bool)
    requires Ok(s) && d < |s.devices| && s.devices[d].inflight.None?
    ensures var reset, solve, x := Page(d, ResetClicked), Page(d, Solved(auto)), Solve(d, s.devices[d].serial, auto);
            && Enabled(s, reset) && Discards(s, reset, d) && Enabled(Step(s, reset), solve)
            && var t := Step(Step(s, reset), solve);
            && Ok(t) && d < |t.devices| && t.devices[d].pending == [x] && t.devices[d].inflight.None?
            && t.devices[d].waiting == 0 && t.replies[d].None? && t.resets[d] > 0 && x in t.books.seen
            && t.late == s.late
  {
    hide Tally, Add;
    StepKeepsOk(s, Page(d, ResetClicked));
    StepKeepsOk(Step(s, Page(d, ResetClicked)), Page(d, Solved(auto)));
  }

  lemma FlushSends(s: System, d: nat, x: Solve)
    requires Ok(s) && d < |s.devices| && s.devices[d].pending == [x] && s.devices[d].inflight.None?
    ensures Enabled(s, Page(d, FlushNow))
    ensures var t := Step(s, Page(d, FlushNow));
            && Ok(t) && d < |t.devices| && t.devices[d].pending == [] && InFlight(t.devices[d]) == [x]
            && t.devices[d].waiting == s.devices[d].waiting && t.replies == s.replies && t.resets == s.resets
            && t.books.seen == s.books.seen && t.late == s.late
  {
    hide Tally, Add;
    StepKeepsOk(s, Page(d, FlushNow));
  }

  // A solve is recorded and flushed while the reset request is in the air.
  lemma FlushedDuringReset(s: System, d: nat, auto: bool)
    requires Ok(s) && d < |s.devices| && s.devices[d].inflight.None?
    ensures var es := [Page(d, ResetClicked), Page(d, Solved(auto)), Page(d, FlushNow)];
            var x := Solve(d, s.devices[d].serial, auto);
            && Possible(s, es) && Discards(s, es[0], d)
            && var t := Run(s, es);
            && Ok(t) && d < |t.devices| && t.devices[d].pending == [] && InFlight(t.devices[d]) == [x]
            && t.devices[d].waiting == 0 && t.replies[d].None? && t.resets[d] > 0 && x in t.books.seen
            && t.late == s.late
  {
    hide Step, Discards, Enabled, After, Tally;
    var reset, solve, flush := Page(d, ResetClicked), Page(d, Solved(auto)), Page(d, FlushNow);
    SolvedAfterReset(s, d, auto);
    FlushSends(Step(Step(s, reset), solve), d, Solve(d, s.devices[d].serial, auto));
    ThenRun(Step(Step(s, reset), solve), flush, []);
    ThenRun(Step(s, reset), solve, [flush]);
    ThenRun(s, reset, [solve, flush]);
    assert [flush] + [] == [flush] && [solve] + [flush] == [solve, flush];
    assert [reset] + [solve, flush] == [reset, solve, flush];
  }

  lemma ThreeSteps(s: System, e: Event, f: Event, g: Event)
    requires Enabled(s, e) && Enabled(Step(s, e), f) && Enabled(Step(Step(s, e), f), g)
    ensures Possible(s, [e, f, g]) && Run(s, [e, f, g]) == Step(Step(Step(s, e), f), g)
  {
    hide Step, Enabled;
    var s2 := Step(Step(s, e), f);
    OneMoreEvent(s2, g);
    ThenRun(Step(s, e), f, [g]);
    ThenRun(s, e, [f, g]);
    assert [f] + [g] == [f, g] && [e] + [f, g] == [e, f, g];
  }

  lemma ExecutionAnswers(s: System, d: nat)
    requires Ok(s) && d < |s.devices| && s.devices[d].inflight.Some? && s.replies[d].None?
    ensures Enabled(s, Executed(d))
    ensures var t := Step(s, Executed(d));
            && Ok(t) && t.devices == s.devices && t.replies[d].Some? && t.resets == s.resets && t.late == s.late
            && t.books.seen == s.books.seen
  {
    StepKeepsOk(s, Executed(d));
    hide Tally, Over, Folded;
  }

  // Its batch is executed before the deletion and acknowledged after it.
  lemma ErasedOnTheWay(s: System, d: nat, x: Solve)
    requires Ok(s) && d < |s.devices| && s.devices[d].pending == [] && InFlight(s.devices[d]) == [x]
    requires s.devices[d].waiting == 0 && s.replies[d].None? && s.resets[d] > 0 && x in s.books.seen && x.device == d
    ensures var es := [Executed(d), RowDeleted(d), Succeeded(d)];
            && Possible(s, es)
            && var t := Run(s, es);
            x in t.books.seen && !Counts(t, x) && t.row == None && t.late == s.late
  {
    ExecutionAnswers(s, d);
    var s1 := Step(s, Executed(d));
    StepKeepsOk(s1, RowDeleted(d));
    assert Enabled(s1, RowDeleted(d)) && Enabled(Step(s1, RowDeleted(d)), Succeeded(d));
    ThreeSteps(s, Executed(d), RowDeleted(d), Succeeded(d));
    hide Tally, Add, Folded, Over, Ok;
    var t := Step(Step(s1, RowDeleted(d)), Succeeded(d));
    assert t.devices[d].pending == [] && t.devices[d].inflight.None? && t.log == [];
  }

  /** And that loss does happen, on the way through one reset: such a solve is acknowledged, and yet in no
      queue, request or row. */
  lemma FlushDuringResetIsErased(s: System, d: nat, auto: bool)
    requires Ok(s) && d < |s.devices| && s.devices[d].inflight.None? && s.late == multiset{}
    ensures var es := [Page(d, ResetClicked), Page(d, Solved(auto)), Page(d, FlushNow)];
            var rest := [Executed(d), RowDeleted(d), Succeeded(d)];
            var x := Solve(d, s.devices[d].serial, auto);
            && Possible(s, es) && Discards(s, es[0], d) && Possible(Run(s, es), rest)
            && var t := Run(Run(s, es), rest);
            x in t.books.seen && !Counts(t, x) && t.row == None && t.late == multiset{}
  {
    FlushedDuringReset(s, d, auto);
    var es := [Page(d, ResetClicked), Page(d, Solved(auto)), Page(d, FlushNow)];
    hide Ok, Step, Enabled, Discards, Counts;
    ErasedOnTheWay(Run(s, es), d, Solve(d, s.devices[d].serial, auto));
  }

  lemma ThenRun(s: System, e: Event, es: seq<Event>)
    requires Enabled(s, e) && Possible(Step(s, e), es)
    ensures Possible(s, [e] + es) && Run(s, [e] + es) == Run(Step(s, e), es)
  {
    assert ([e] + es)[1..] == es;
  }
}

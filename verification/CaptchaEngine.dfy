/** The sync engine as the page keeps it: two counters that are reassigned, an in-flight pair, flags and
    a timer.  The ghost model names the single solves behind the counters; every handler is one turn of
    that model (CaptchaSync), which is where the guarantees are proved. */
module CaptchaEngine {
  import opened S = CaptchaSync
  import opened Wrappers

  class CaptchaStore {
    var row: Option<Row>

    constructor ()
      ensures row == None
    {
      row := None;
    }

    /** Sync: clamp what the client claims, then fold it into the row in one statement. */
    method Sync(claimed: SyncInput) returns (stats: Row)
      requires Sound(row)
      modifies this
      ensures row == Some(stats) && stats == Fold(old(row), ClampSync(claimed)) && Sound(row)
      ensures old(row).Some? ==> stats.best >= old(row).value.best && RowTotal(row) >= RowTotal(old(row))
    {
      FoldKeepsSound(row, claimed);
      var i := ClampSync(claimed);
      if row.None? {
        row := Some(Row(i.best, i.current, i.manual + i.auto, i.manual, i.auto));
      } else {
        var r := row.value;
        row := Some(Row(Max(r.best, i.best), i.current, r.total + i.manual + i.auto,
                        r.manual + i.manual, r.auto + i.auto));
      }
      stats := row.value;
    }

    method Reset()
      modifies this
      ensures row == None
    {
      row := None;
    }
  }

  class SyncEngine {
    var pending: Delta
    var inflight: Option<Delta>
    var dirtyStreak: bool
    var hadDirtyStreak: bool
    var syncTimer: bool
    var syncInFlight: bool
    var syncPromise: bool
    var awaitingResets: nat
    var streak: int
    var best: int
    var baseSolves: int
    var pendingSignal: int
    var leaving: bool
    ghost var model: Device

    ghost predicate Counts(d: Delta, s: seq<Solve>) {
      d.manual == Tally(s, false) && d.auto == Tally(s, true)
    }

    ghost predicate Valid()
      reads this
    {
      && Counts(pending, model.pending)
      && inflight.Some? == model.inflight.Some? == syncInFlight == syncPromise
      && (inflight.Some? ==> Counts(inflight.value, model.inflight.value.solves))
      && dirtyStreak == model.dirtyStreak && hadDirtyStreak == model.hadDirty && syncTimer == model.timer
      && streak == model.streak && best == model.best && baseSolves == model.base && pendingSignal == model.shown
      && awaitingResets == model.waiting && leaving == model.leaving
    }

    /** A page that has just been opened. */
    constructor (ghost id: nat)
      ensures Valid() && model == Device(id, [], None, false, false, false, 0, 0, 0, 0, 0, 0, false)
    {
      pending, inflight := Delta(0, 0), None;
      dirtyStreak, hadDirtyStreak, syncTimer, syncInFlight, syncPromise := false, false, false, false, false;
      awaitingResets, leaving := 0, false;
      streak, best, baseSolves, pendingSignal := 0, 0, 0, 0;
      model := Device(id, [], None, false, false, false, 0, 0, 0, 0, 0, 0, false);
    }

    /** Boot receives the statistics it asked for. */
    method BootReplied(stats: Row)
      requires Valid()
      modifies this`baseSolves, this`best, this`streak, this`model
      ensures Valid() && model == BootReply(old(model), stats)
      ensures baseSolves == stats.manual + stats.auto && best == Max(old(best), stats.best) && streak == stats.current
    {
      baseSolves := stats.manual + stats.auto;
      best := Max(best, stats.best);
      streak := stats.current;
      model := BootReply(model, stats);
    }

    function PendingCount(): int
      reads this`pending, this`inflight
    {
      pending.manual + pending.auto + (if inflight.Some? then inflight.value.manual + inflight.value.auto else 0)
    }

    predicate HasQueued()
      reads this`pending, this`dirtyStreak
    {
      pending.manual > 0 || pending.auto > 0 || dirtyStreak
    }

    /** A correct answer or a finished automatic round. */
    method Solved(auto: bool)
      requires Valid()
      modifies this
      ensures Valid() && model == S.RecordSolve(old(model), auto)
      ensures streak == old(streak) + 1 && best == Max(old(best), old(streak) + 1) && syncTimer
    {
      hide Tally, S.RecordSolve;
      SolveCountsOneMore(model, auto);
      streak := streak + 1;
      best := Max(best, streak);
      RecordSolve(auto);
      model := S.RecordSolve(model, auto);
    }

    method RecordSolve(auto: bool)
      modifies this`pending, this`dirtyStreak, this`pendingSignal, this`syncTimer
      ensures pending == if auto then old(pending).(auto := old(pending.auto) + 1)
                         else old(pending).(manual := old(pending.manual) + 1)
      ensures dirtyStreak && syncTimer && pendingSignal == PendingCount()
    {
      if auto {
        pending := pending.(auto := pending.auto + 1);
      } else {
        pending := pending.(manual := pending.manual + 1);
      }
      dirtyStreak := true;
      pendingSignal := PendingCount();
      ScheduleSync();
    }

    method Missed()
      requires Valid()
      modifies this
      ensures Valid() && model == RecordMiss(old(model))
      ensures streak == 0 && best == old(best) && pending == old(pending) && dirtyStreak && syncTimer
    {
      streak := 0;
      dirtyStreak := true;
      ScheduleSync();
      model := RecordMiss(model);
    }

    method ScheduleSync()
      modifies this`syncTimer
      ensures syncTimer
    {
      if syncTimer {
        return;
      }
      syncTimer := true;
    }

    method TimerFires() returns (sent: Option<SyncInput>)
      requires Valid() && syncTimer
      modifies this
      ensures Valid() && model == S.TimerFires(old(model))
      ensures sent == if old(syncInFlight) || model.inflight.None? then None else Some(Input(model.inflight.value))
    {
      syncTimer := false;
      model := model.(timer := false);
      sent := FlushSync();
    }

    /** Hands everything queued to one request, unless one is in the air or there is nothing to say.
        Returns the request's body. */
    method FlushSync() returns (sent: Option<SyncInput>)
      requires Valid()
      modifies this
      ensures Valid() && model == Flush(old(model))
      ensures sent == if old(syncInFlight) || model.inflight.None? then None else Some(Input(model.inflight.value))
    {
      TotalOfCounts(model);
      if syncInFlight || !HasQueued() {
        return None;
      }
      sent := DoFlush();
      syncPromise := true;
      model := Flush(model);
    }

    // doFlush up to its await.
    method DoFlush() returns (sent: Option<SyncInput>)
      modifies this`syncInFlight, this`inflight, this`pending, this`hadDirtyStreak, this`dirtyStreak
      ensures syncInFlight && inflight == Some(old(pending)) && pending == Delta(0, 0)
      ensures hadDirtyStreak == old(dirtyStreak) && !dirtyStreak
      ensures sent == Some(SyncInput(old(pending.manual), old(pending.auto), streak, best))
    {
      syncInFlight := true;
      inflight := Some(pending);
      pending := Delta(0, 0);
      hadDirtyStreak := dirtyStreak;
      dirtyStreak := false;
      sent := Some(SyncInput(inflight.value.manual, inflight.value.auto, streak, best));
    }

    /** The reply arrives; performReset calls that waited for it resume, each sending a request. */
    method SyncLands(stats: Row) returns (resetRequests: nat)
      requires Valid() && syncInFlight
      modifies this
      ensures Valid() && model == Resume(Succeed(old(model), stats)) && resetRequests == old(model.waiting)
    {
      hide Valid, Resume, Succeed;
      Adopt(stats);
      resetRequests := ResumeResets();
    }

    // doFlush after the reply.
    method Adopt(stats: Row)
      requires Valid() && syncInFlight
      modifies this
      ensures Valid() && !syncInFlight && model == Succeed(old(model), stats) && model.waiting == old(model.waiting)
    {
      hide Tally, Succeed;
      SuccessReleasesBatch(model, stats);
      ApplyServer(stats);
      if HasQueued() {
        ScheduleSync();
      }
      Settle();
      model := Succeed(model, stats);
    }

    method ApplyServer(stats: Row)
      modifies this`inflight, this`pendingSignal, this`baseSolves, this`best
      ensures inflight == None && pendingSignal == PendingCount()
      ensures baseSolves == stats.manual + stats.auto && best == Max(old(best), stats.best)
    {
      inflight := None;
      pendingSignal := PendingCount();
      baseSolves := stats.manual + stats.auto;
      best := Max(best, stats.best);
    }

    method Settle()
      modifies this`syncInFlight, this`syncPromise
      ensures !syncInFlight && !syncPromise
    {
      syncInFlight, syncPromise := false, false;
    }

    method SyncFails(unauthorized: bool) returns (resetRequests: nat)
      requires Valid() && syncInFlight
      modifies this
      ensures Valid() && model == Resume(Fail(old(model), unauthorized)) && resetRequests == old(model.waiting)
    {
      hide Valid, Resume, Fail;
      Recover(unauthorized);
      resetRequests := ResumeResets();
    }

    // doFlush after a failure.
    method Recover(unauthorized: bool)
      requires Valid() && syncInFlight
      modifies this
      ensures Valid() && !syncInFlight && model == Fail(old(model), unauthorized) && model.waiting == old(model.waiting)
    {
      hide Tally, Fail;
      FailRestoresCounts(model, unauthorized);
      Requeue();
      if unauthorized {
        leaving := true;
      } else {
        ScheduleSync();
      }
      Settle();
      model := Fail(model, unauthorized);
    }

    method Requeue()
      requires inflight.Some?
      modifies this`pending, this`inflight, this`dirtyStreak, this`pendingSignal
      ensures pending == Delta(old(pending.manual + inflight.value.manual), old(pending.auto + inflight.value.auto))
      ensures inflight == None && dirtyStreak == old(dirtyStreak || hadDirtyStreak) && pendingSignal == PendingCount()
    {
      pending := Delta(pending.manual + inflight.value.manual, pending.auto + inflight.value.auto);
      inflight := None;
      dirtyStreak := dirtyStreak || hadDirtyStreak;
      pendingSignal := PendingCount();
    }

    /** performReset, up to its first await. */
    method PerformReset() returns (resetRequests: nat)
      requires Valid()
      modifies this
      ensures Valid() && model == ClickReset(old(model))
      ensures resetRequests == if old(syncInFlight) then 0 else 1
    {
      pending := Delta(0, 0);
      dirtyStreak := false;
      syncTimer := false;
      if syncPromise {
        awaitingResets := awaitingResets + 1;
        resetRequests := 0;
      } else {
        pendingSignal := PendingCount();
        resetRequests := 1;
      }
      model := ClickReset(model);
    }

    /** The rest of every performReset that awaited the sync: the second discard. */
    method ResumeResets() returns (resetRequests: nat)
      requires Valid() && !syncInFlight
      modifies this
      ensures Valid() && model == Resume(old(model)) && resetRequests == old(model.waiting)
    {
      resetRequests := awaitingResets;
      while awaitingResets > 0
        modifies this`pending, this`dirtyStreak, this`syncTimer, this`awaitingResets, this`pendingSignal
        invariant 0 <= awaitingResets <= resetRequests
        invariant awaitingResets < resetRequests ==>
                    pending == Delta(0, 0) && !dirtyStreak && !syncTimer && pendingSignal == 0
        invariant awaitingResets == resetRequests ==>
                    && pending == old(pending) && dirtyStreak == old(dirtyStreak)
                    && syncTimer == old(syncTimer) && pendingSignal == old(pendingSignal)
      {
        awaitingResets := awaitingResets - 1;
        pending := Delta(0, 0);
        dirtyStreak := false;
        syncTimer := false;
        pendingSignal := PendingCount();
      }
      model := Resume(model);
    }

    /** The reset request was answered. */
    method ResetLands()
      requires Valid()
      modifies this
      ensures Valid() && model == ResetDone(old(model))
      ensures streak == 0 && best == 0 && baseSolves == 0
      ensures pendingSignal == old(pendingSignal) && pending == old(pending) && inflight == old(inflight)
    {
      streak, best, baseSolves := 0, 0, 0;
      model := ResetDone(model);
    }
  }

  // A solve adds one to its own count and to the display, which is what is queued and in flight.
  lemma SolveCountsOneMore(d: Device, auto: bool)
    ensures var r := RecordSolve(d, auto);
            && Tally(r.pending, auto) == Tally(d.pending, auto) + 1
            && Tally(r.pending, !auto) == Tally(d.pending, !auto)
            && r.shown == Tally(r.pending, false) + Tally(r.pending, true)
                          + Tally(InFlight(d), false) + Tally(InFlight(d), true)
            && r == d.(streak := d.streak + 1, best := Max(d.best, d.streak + 1), pending := r.pending,
                       serial := d.serial + 1, dirtyStreak := true, shown := r.shown, timer := true)
    ensures d.inflight.None? ==> Tally(InFlight(d), false) == Tally(InFlight(d), true) == 0
  {
    var x := Solve(d.id, d.serial, auto);
    assert (d.pending + [x])[..|d.pending|] == d.pending;
    TotalOfCounts(RecordSolve(d, auto));
  }

  // A reply leaves what was queued since, and a timer only if that is any work.
  lemma SuccessReleasesBatch(d: Device, row: Row)
    ensures var n := Succeed(d, row);
            && n.shown == Tally(d.pending, false) + Tally(d.pending, true)
            && n == d.(inflight := None, shown := n.shown, base := row.manual + row.auto, best := Max(d.best, row.best),
                       timer := d.timer || Tally(d.pending, false) > 0 || Tally(d.pending, true) > 0 || d.dirtyStreak)
  {
    TotalOfCounts(Succeed(d, row));
  }

  // A failed sync leaves the counters at what was queued plus what was sent; all else is bookkeeping.
  lemma FailRestoresCounts(d: Device, unauthorized: bool)
    ensures var f := Fail(d, unauthorized);
            && Tally(f.pending, false) == Tally(d.pending, false) + Tally(InFlight(d), false)
            && Tally(f.pending, true) == Tally(d.pending, true) + Tally(InFlight(d), true)
            && f.shown == Tally(f.pending, false) + Tally(f.pending, true)
            && f == d.(pending := f.pending, inflight := None, dirtyStreak := d.dirtyStreak || d.hadDirty,
                       shown := f.shown, leaving := d.leaving || unauthorized, timer := d.timer || !unauthorized)
  {
    TallyConcat(d.pending, InFlight(d), true);
    TallyConcat(d.pending, InFlight(d), false);
    TallyBoth(Fail(d, unauthorized).pending);
  }

  lemma TotalOfCounts(d: Device)
    ensures PendingTotal(d) == Tally(d.pending, false) + Tally(d.pending, true)
                               + Tally(InFlight(d), false) + Tally(InFlight(d), true)
    ensures Tally([], false) == Tally([], true) == 0
    ensures HasWork(d) == (Tally(d.pending, false) > 0 || Tally(d.pending, true) > 0 || d.dirtyStreak)
  {
    TallyBoth(d.pending);
    TallyBoth(InFlight(d));
  }
}

/** The batched statistics sync of frontend/js/page-captcha.js against the aggregate row of
    internal/store/store.go, as a state machine over any number of devices of one account.

    One step is one event-loop turn of a device or one statement of the server.  Solves carry an
    identity so that losing, repeating and resurrecting them can be told apart; the page itself only
    keeps counts (see CaptchaEngine). */
module CaptchaSync {
  import opened Sequences
  import opened Wrappers

  // ---------------------------------------------------------------------------
  // The server: clampSync and the fold into the one row per user
  // ---------------------------------------------------------------------------

  const MAX_DELTA_PER_SYNC := 100_000
  const MAX_STREAK := 1_000_000_000

  datatype SyncInput = SyncInput(manual: int, auto: int, current: int, best: int)
  datatype Row = Row(best: int, current: int, total: int, manual: int, auto: int)

  function Max(a: int, b: int): int { if a < b then b else a }
  function Min(a: int, b: int): int { if b < a then b else a }

  function Clamp(v: int, lo: int, hi: int): (r: int)
    ensures lo <= hi ==> lo <= r <= hi && (lo <= v <= hi ==> r == v) && (v < lo ==> r == lo) && (v > hi ==> r == hi)
  {
    Max(lo, Min(v, hi))
  }

  function ClampSync(i: SyncInput): SyncInput {
    var current := Clamp(i.current, 0, MAX_STREAK);
    SyncInput(Clamp(i.manual, 0, MAX_DELTA_PER_SYNC), Clamp(i.auto, 0, MAX_DELTA_PER_SYNC),
              current, Max(Clamp(i.best, 0, MAX_STREAK), current))
  }

  /** SyncCaptchaStats: insert the row, or fold the batch into it. */
  function Fold(row: Option<Row>, i: SyncInput): Row {
    match row
    case None => Row(i.best, i.current, i.manual + i.auto, i.manual, i.auto)
    case Some(r) =>
      Row(Max(r.best, i.best), i.current, r.total + i.manual + i.auto, r.manual + i.manual, r.auto + i.auto)
  }

  // The row's own constraints, and that a best streak is never below the current one.
  ghost predicate Sound(row: Option<Row>) {
    row.Some? ==>
      && 0 <= row.value.current <= row.value.best && 0 <= row.value.manual && 0 <= row.value.auto
      && row.value.total == row.value.manual + row.value.auto
  }

  /** Whatever a client sends, the row stays sound, no total shrinks and the best streak never regresses. */
  lemma FoldKeepsSound(row: Option<Row>, i: SyncInput)
    requires Sound(row)
    ensures var r := Fold(row, ClampSync(i)); Sound(Some(r))
    ensures row.Some? ==>
              var r := Fold(row, ClampSync(i));
              r.best >= row.value.best && r.manual >= row.value.manual && r.auto >= row.value.auto
  {
  }

  function FoldAll(inputs: seq<SyncInput>): Option<Row> {
    if inputs == [] then None else Some(Fold(FoldAll(inputs[..|inputs| - 1]), ClampSync(inputs[|inputs| - 1])))
  }

  function SumOf(inputs: seq<SyncInput>, auto: bool): int {
    if inputs == [] then 0
    else
      var i := inputs[|inputs| - 1];
      SumOf(inputs[..|inputs| - 1], auto) + Clamp(if auto then i.auto else i.manual, 0, MAX_DELTA_PER_SYNC)
  }

  /** After any syncs the row sums up their deltas by kind, its current streak is the last one claimed, and
      its best streak is the greatest streak ever claimed, as best or as current, each within its limits. */
  lemma {:induction false} RowSumsUpSyncs(inputs: seq<SyncInput>)
    requires inputs != []
    ensures FoldAll(inputs).Some?
    ensures var r := FoldAll(inputs).value;
            && r.manual == SumOf(inputs, false) && r.auto == SumOf(inputs, true) && r.total == r.manual + r.auto
            && r.current == Clamp(inputs[|inputs| - 1].current, 0, MAX_STREAK)
            && (forall i | 0 <= i < |inputs| ::
                  Clamp(inputs[i].best, 0, MAX_STREAK) <= r.best && Clamp(inputs[i].current, 0, MAX_STREAK) <= r.best)
            && (exists i | 0 <= i < |inputs| ::
                  r.best == Clamp(inputs[i].best, 0, MAX_STREAK) || r.best == Clamp(inputs[i].current, 0, MAX_STREAK))
  {
    hide Clamp;
    var rest := inputs[..|inputs| - 1];
    if rest != [] {
      RowSumsUpSyncs(rest);
      var r := FoldAll(rest).value;
      var k :| 0 <= k < |rest| &&
               (r.best == Clamp(rest[k].best, 0, MAX_STREAK) || r.best == Clamp(rest[k].current, 0, MAX_STREAK));
      assert inputs[k] == rest[k];
    }
    var last := |inputs| - 1;
    assert Clamp(inputs[last].best, 0, MAX_STREAK) == Clamp(inputs[last].best, 0, MAX_STREAK);
  }

  function RowTotal(row: Option<Row>): int { Counted(row, false) + Counted(row, true) }

  function Counted(row: Option<Row>, auto: bool): int {
    if row.None? then 0 else if auto then row.value.auto else row.value.manual
  }

  // ---------------------------------------------------------------------------
  // A device: one open page
  // ---------------------------------------------------------------------------

  datatype Solve = Solve(device: nat, serial: nat, auto: bool)
  datatype Batch = Batch(solves: seq<Solve>, current: int, best: int)

  /** shown is pendingSignal, base is baseSolvesSignal; hadDirty is doFlush's local; waiting counts
      performReset calls that await the airborne sync. */
  datatype Device = Device(
    id: nat, pending: seq<Solve>, inflight: Option<Batch>, dirtyStreak: bool, hadDirty: bool, timer: bool,
    streak: int, best: int, base: int, shown: int, serial: nat, waiting: nat, leaving: bool)

  function Tally(s: seq<Solve>, auto: bool): nat {
    if s == [] then 0 else Tally(s[..|s| - 1], auto) + (if s[|s| - 1].auto == auto then 1 else 0)
  }

  lemma {:induction false} TallyConcat(a: seq<Solve>, b: seq<Solve>, auto: bool)
    ensures Tally(a + b, auto) == Tally(a, auto) + Tally(b, auto)
  {
    if b == [] {
      assert a + b == a;
    } else {
      TallyConcat(a, b[..|b| - 1], auto);
      assert (a + b)[..|a + b| - 1] == a + b[..|b| - 1];
    }
  }

  lemma {:induction false} TallyBoth(s: seq<Solve>)
    ensures Tally(s, true) + Tally(s, false) == |s|
  {
    if s != [] { TallyBoth(s[..|s| - 1]); }
  }

  function InFlight(d: Device): seq<Solve> {
    if d.inflight.None? then [] else d.inflight.value.solves
  }

  function PendingTotal(d: Device): nat {
    |d.pending| + |InFlight(d)|
  }

  predicate HasWork(d: Device) {
    |d.pending| > 0 || d.dirtyStreak
  }

  function Displayed(d: Device): int {
    d.base + d.shown
  }

  function RecordSolve(d: Device, auto: bool): Device {
    var e := d.(streak := d.streak + 1, best := Max(d.best, d.streak + 1),
                pending := d.pending + [Solve(d.id, d.serial, auto)], serial := d.serial + 1, dirtyStreak := true);
    e.(shown := PendingTotal(e), timer := true)
  }

  function RecordMiss(d: Device): Device {
    d.(streak := 0, dirtyStreak := true, timer := true)
  }

  function Flush(d: Device): Device {
    if d.inflight.Some? || !HasWork(d) then d
    else d.(inflight := Some(Batch(d.pending, d.streak, d.best)), pending := [],
            hadDirty := d.dirtyStreak, dirtyStreak := false)
  }

  function TimerFires(d: Device): Device {
    Flush(d.(timer := false))
  }

  /** The rest of performReset after the airborne sync settled: the second discard. */
  function Resume(d: Device): Device {
    if d.waiting == 0 then d
    else var e := d.(pending := [], dirtyStreak := false, timer := false, waiting := 0); e.(shown := PendingTotal(e))
  }

  function Succeed(d: Device, row: Row): Device {
    var e := d.(inflight := None);
    var f := e.(shown := PendingTotal(e), base := row.manual + row.auto, best := Max(e.best, row.best));
    if HasWork(f) then f.(timer := true) else f
  }

  function Fail(d: Device, unauthorized: bool): Device {
    var e := d.(pending := d.pending + InFlight(d), inflight := None, dirtyStreak := d.dirtyStreak || d.hadDirty);
    var f := e.(shown := PendingTotal(e));
    if unauthorized then f.(leaving := true) else f.(timer := true)
  }

  /** performReset up to its first await: the first discard, and the second one too when no sync is
      in the air. */
  function ClickReset(d: Device): Device {
    var e := d.(pending := [], dirtyStreak := false, timer := false);
    if d.inflight.Some? then e.(waiting := d.waiting + 1) else e.(shown := 0)
  }

  function ResetDone(d: Device): Device {
    d.(streak := 0, best := 0, base := 0)
  }

  /** The reply to the statistics request of a booting page arrives. */
  function BootReply(d: Device, stats: Row): Device {
    d.(base := stats.manual + stats.auto, best := Max(d.best, stats.best), streak := stats.current)
  }

  /** A user without a row is told zeros. */
  function StatsOf(row: Option<Row>): Row {
    if row.None? then Row(0, 0, 0, 0, 0) else row.value
  }

  // ---------------------------------------------------------------------------
  // The whole system
  // ---------------------------------------------------------------------------

  datatype Delta = Delta(manual: int, auto: int)

  function Part(d: Delta, auto: bool): int { if auto then d.auto else d.manual }

  function Add(d: Delta, s: seq<Solve>): Delta {
    Delta(d.manual + Tally(s, false), d.auto + Tally(s, true))
  }

  /** Bookkeeping no page or server keeps: what was ever recorded, applied or
      dropped, and for each kind what was
      recorded, what the row held at the start, what resets discarded, what was applied although its
      failure was reported, what the cap cut off and what deletions erased. */
  datatype Books = Books(
    seen: set<Solve>, applied: set<Solve>, dropped: set<Solve>,
    recorded: Delta, opening: Delta, discarded: Delta, doubled: Delta, clipped: Delta, erased: Delta)

  /** How far a page's statistics request is. */
  datatype Boot = Asking | Read(stats: Row) | Booted

  /** replies[i] is the row the server returned for device i's request, once it executed it; resets[i]
      counts i's reset requests sent and not yet executed.  log lists the solves folded into the current
      row, late the requests reported failed that the server may still execute. */
  datatype System = System(
    devices: seq<Device>, replies: seq<Option<Row>>, resets: seq<nat>, boots: seq<Boot>,
    row: Option<Row>, log: seq<Solve>, late: multiset<Batch>, books: Books)

  /** What can happen on an open page by itself. */
  datatype Turn =
    | Solved(auto: bool)
    | Missed
    | TimerFired
    | FlushNow          // page hidden, page left, or the solver stopped
    | ResetClicked
    | ResetSucceeded    // the reply to a reset request arrives (a failed one changes nothing)

  datatype Event =
    | Page(d: nat, turn: Turn)
    | Executed(d: nat)                       // the server runs device d's sync request
    | ExecutedLate(batch: Batch)             // it runs one that was already reported failed
    | Succeeded(d: nat)                      // d receives the reply to its sync
    | Failed(d: nat, unauthorized: bool)     // or an error, whether or not the server ran it
    | RowDeleted(d: nat)                     // the server runs d's reset request
    | StatsRead(d: nat)                      // the server reads the row for the booting page d
    | BootReplied(d: nat)                    // d receives what was read
    | BootFailed(d: nat)                     // or an error

  predicate Enabled(s: System, e: Event) {
    && (e.ExecutedLate? || (e.d < |s.devices| && e.d < |s.replies| && e.d < |s.resets| && e.d < |s.boots|))
    && match e
       case Page(d, turn) => turn.TimerFired? ==> s.devices[d].timer
       case Executed(d) => s.devices[d].inflight.Some? && s.replies[d].None?
       case ExecutedLate(b) => b in s.late
       case Succeeded(d) => s.devices[d].inflight.Some? && s.replies[d].Some?
       case Failed(d, _) => s.devices[d].inflight.Some?
       case RowDeleted(d) => s.resets[d] > 0
       case StatsRead(d) => s.boots[d].Asking?
       case BootReplied(d) => s.boots[d].Read?
       case BootFailed(d) => !s.boots[d].Booted?
  }

  function After(d: Device, turn: Turn): Device {
    match turn
    case Solved(auto) => RecordSolve(d, auto)
    case Missed => RecordMiss(d)
    case TimerFired => TimerFires(d)
    case FlushNow => Flush(d)
    case ResetClicked => ClickReset(d)
    case ResetSucceeded => ResetDone(d)
  }

  function Discard(b: Books, gone: seq<Solve>): Books {
    b.(discarded := Add(b.discarded, gone), dropped := b.dropped + Members(gone))
  }

  function Double(b: Books, again: seq<Solve>): Books {
    b.(doubled := Add(b.doubled, again))
  }

  function TurnBooks(b: Books, d: Device, turn: Turn): Books {
    if turn.Solved? then b.(seen := b.seen + {Solve(d.id, d.serial, turn.auto)},
                            recorded := Add(b.recorded, [Solve(d.id, d.serial, turn.auto)]))
    else if turn.ResetClicked? then Discard(b, d.pending)
    else b
  }

  function PageStep(s: System, d: nat, turn: Turn): System
    requires d < |s.devices| && d < |s.resets|
  {
    System(s.devices[d := After(s.devices[d], turn)], s.replies,
           s.resets[d := s.resets[d] + (if turn.ResetClicked? && s.devices[d].inflight.None? then 1 else 0)],
           s.boots, s.row, s.log, s.late, TurnBooks(s.books, s.devices[d], turn))
  }

  function Input(b: Batch): SyncInput {
    SyncInput(Tally(b.solves, false), Tally(b.solves, true), b.current, b.best)
  }

  function Over(s: seq<Solve>, auto: bool): nat {
    if Tally(s, auto) > MAX_DELTA_PER_SYNC then Tally(s, auto) - MAX_DELTA_PER_SYNC else 0
  }

  function Folded(row: Option<Row>, b: Batch): Row {
    Fold(row, ClampSync(Input(b)))
  }

  function AppliedBooks(b: Books, batch: Batch): Books {
    b.(applied := b.applied + Members(batch.solves),
       clipped := Delta(b.clipped.manual + Over(batch.solves, false), b.clipped.auto + Over(batch.solves, true)))
  }

  function ExecuteStep(s: System, d: nat): System
    requires d < |s.devices| && d < |s.replies| && s.devices[d].inflight.Some?
  {
    var b := s.devices[d].inflight.value;
    var row := Some(Folded(s.row, b));
    System(s.devices, s.replies[d := row], s.resets, s.boots, row, s.log + b.solves, s.late, AppliedBooks(s.books, b))
  }

  function LateStep(s: System, b: Batch): System {
    System(s.devices, s.replies, s.resets, s.boots, Some(Folded(s.row, b)), s.log + b.solves, s.late - multiset{b},
           Double(AppliedBooks(s.books, b), b.solves))
  }

  /** A sync settled; if performReset was waiting for it, it resumes in the same turn, discards what is
      queued and sends its request. */
  function Settle(s: System, d: nat, n: Device, late: multiset<Batch>, b: Books): System
    requires d < |s.devices| && d < |s.replies| && d < |s.resets|
  {
    System(s.devices[d := Resume(n)], s.replies[d := None], s.resets[d := s.resets[d] + n.waiting],
           s.boots, s.row, s.log, late, if n.waiting == 0 then b else Discard(b, n.pending))
  }

  function FailStep(s: System, d: nat, unauthorized: bool): System
    requires d < |s.devices| && d < |s.replies| && d < |s.resets| && s.devices[d].inflight.Some?
  {
    var b, n := s.devices[d].inflight.value, Fail(s.devices[d], unauthorized);
    if s.replies[d].Some? then Settle(s, d, n, s.late, Double(s.books, b.solves))
    else Settle(s, d, n, s.late + multiset{b}, s.books)
  }

  function DeleteStep(s: System, d: nat): System
    requires d < |s.resets| && s.resets[d] > 0
  {
    System(s.devices, s.replies, s.resets[d := s.resets[d] - 1], s.boots, None, [], s.late,
           s.books.(erased := Delta(s.books.erased.manual + Counted(s.row, false),
                                    s.books.erased.auto + Counted(s.row, true))))
  }

  function StatsStep(s: System, d: nat): System
    requires d < |s.boots|
  {
    s.(boots := s.boots[d := Read(StatsOf(s.row))])
  }

  function BootStep(s: System, d: nat): System
    requires d < |s.devices| && d < |s.boots| && s.boots[d].Read?
  {
    s.(devices := s.devices[d := BootReply(s.devices[d], s.boots[d].stats)], boots := s.boots[d := Booted])
  }

  function Step(s: System, e: Event): System
    requires Enabled(s, e)
  {
    match e
    case Page(d, turn) => PageStep(s, d, turn)
    case Executed(d) => ExecuteStep(s, d)
    case ExecutedLate(b) => LateStep(s, b)
    case Succeeded(d) => Settle(s, d, Succeed(s.devices[d], s.replies[d].value), s.late, s.books)
    case Failed(d, unauthorized) => FailStep(s, d, unauthorized)
    case RowDeleted(d) => DeleteStep(s, d)
    case StatsRead(d) => StatsStep(s, d)
    case BootReplied(d) => BootStep(s, d)
    case BootFailed(d) => s.(boots := s.boots[d := Booted])
  }

  /** No page has done anything yet, whether it is open already or will be opened at any time later. */
  ghost predicate Init(s: System) {
    && Sound(s.row) && |s.devices| == |s.replies| == |s.resets| == |s.boots|
    && (forall d | 0 <= d < |s.devices| ::
          && s.devices[d] == Device(d, [], None, false, false, false, 0, 0, 0, 0, 0, 0, false)
          && s.replies[d] == None && s.resets[d] == 0 && s.boots[d] == Asking)
    && s.late == multiset{} && s.log == [] && s.books.seen == s.books.applied == s.books.dropped == {}
    && s.books.recorded == s.books.discarded == s.books.doubled == s.books.clipped == s.books.erased == Delta(0, 0)
    && s.books.opening == Delta(Counted(s.row, false), Counted(s.row, true))
  }

  ghost predicate Possible(s: System, es: seq<Event>)
    decreases |es|
  {
    es == [] || (Enabled(s, es[0]) && Possible(Step(s, es[0]), es[1..]))
  }

  function Run(s: System, es: seq<Event>): System
    requires Possible(s, es)
    decreases |es|
  {
    if es == [] then s else Run(Step(s, es[0]), es[1..])
  }

  // ---------------------------------------------------------------------------
  // What every turn keeps
  // ---------------------------------------------------------------------------

  ghost predicate Own(d: Device, q: seq<Solve>) {
    forall x | x in q :: x.device == d.id && x.serial < d.serial
  }

  ghost predicate DeviceOk(d: Device) {
    && Own(d, d.pending) && Own(d, InFlight(d)) && (forall x | x in d.pending :: x !in InFlight(d))
    && (d.waiting > 0 ==> d.inflight.Some?)
    // queued work always has a timer or a running sync that will pick it up
    && (HasWork(d) ==> d.timer || d.inflight.Some? || d.leaving)
  }

  ghost predicate PagesOk(devices: seq<Device>, replies: seq<Option<Row>>) {
    && |devices| == |replies|
    && (forall d | 0 <= d < |devices| :: devices[d].id == d && DeviceOk(devices[d]))
    && (forall d | 0 <= d < |devices| :: replies[d].Some? ==> devices[d].inflight.Some?)
  }

  ghost predicate Ok(s: System) {
    Sound(s.row) && PagesOk(s.devices, s.replies) && |s.resets| == |s.boots| == |s.devices|
  }

  // A turn that settles no request leaves a running sync alone.
  lemma TurnKeepsDeviceOk(d: Device, turn: Turn)
    requires DeviceOk(d)
    ensures DeviceOk(After(d, turn)) && After(d, turn).id == d.id
    ensures d.inflight.Some? ==> After(d, turn).inflight == d.inflight
  {
    hide Tally;
  }

  lemma SettlingKeepsDeviceOk(d: Device, row: Row, unauthorized: bool)
    requires DeviceOk(d) && d.inflight.Some?
    ensures DeviceOk(Resume(Succeed(d, row))) && Resume(Succeed(d, row)).id == d.id
    ensures DeviceOk(Resume(Fail(d, unauthorized))) && Resume(Fail(d, unauthorized)).id == d.id
  {
  }

  lemma BootKeepsDeviceOk(d: Device, stats: Row)
    requires DeviceOk(d)
    ensures DeviceOk(BootReply(d, stats)) && BootReply(d, stats).id == d.id
    ensures BootReply(d, stats).inflight == d.inflight && BootReply(d, stats).pending == d.pending
  {
  }

  lemma SettleKeepsOk(s: System, d: nat, n: Device, late: multiset<Batch>, b: Books)
    requires Ok(s) && d < |s.devices| && DeviceOk(Resume(n)) && Resume(n).id == d
    ensures Ok(Settle(s, d, n, late, b))
  {
    hide DeviceOk, Resume, Discard, Sound;
  }

  lemma StepKeepsOk(s: System, e: Event)
    requires Ok(s) && Enabled(s, e)
    ensures Ok(Step(s, e)) && |Step(s, e).devices| == |s.devices|
  {
    hide After, Resume, Succeed, Fail, BootReply, Fold, ClampSync, DeviceOk, Tally, TurnBooks, AppliedBooks, Double;
    match e
    case Page(d, turn) => TurnKeepsDeviceOk(s.devices[d], turn);
    case Executed(d) => FoldKeepsSound(s.row, Input(s.devices[d].inflight.value));
    case ExecutedLate(b) => FoldKeepsSound(s.row, Input(b));
    case Succeeded(d) =>
      SettlingKeepsDeviceOk(s.devices[d], s.replies[d].value, true);
      SettleKeepsOk(s, d, Succeed(s.devices[d], s.replies[d].value), s.late, s.books);
    case Failed(d, u) =>
      SettlingKeepsDeviceOk(s.devices[d], Row(0, 0, 0, 0, 0), u);
      SettleKeepsOk(s, d, Fail(s.devices[d], u), FailStep(s, d, u).late, s.books);
    case BootReplied(d) => BootKeepsDeviceOk(s.devices[d], s.boots[d].stats);
    case _ =>
  }

  lemma {:induction false} RunKeepsOk(s: System, es: seq<Event>)
    requires Ok(s) && Possible(s, es)
    ensures Ok(Run(s, es)) && |Run(s, es).devices| == |s.devices|
    decreases |es|
  {
    if es != [] {
      StepKeepsOk(s, es[0]);
      RunKeepsOk(Step(s, es[0]), es[1..]);
    }
  }

  lemma InitIsOk(s: System)
    requires Init(s)
    ensures Ok(s)
  {
  }

  /** Whatever syncs succeed, fail, are retried or discarded: a device that has something to send has
      a timer armed or a sync running, unless it is on its way to the login page. */
  lemma WorkIsNeverStranded(s: System, es: seq<Event>, d: nat)
    requires Init(s) && Possible(s, es) && d < |s.devices|
    ensures |Run(s, es).devices| == |s.devices|
    ensures var n := Run(s, es).devices[d]; HasWork(n) ==> n.timer || n.inflight.Some? || n.leaving
  {
    RunKeepsOk(s, es);
  }

  // ---------------------------------------------------------------------------
  // Conservation
  // ---------------------------------------------------------------------------

  /** What a device holds that the server has not applied: all of it while no reply exists. */
  function Held(d: Device, reply: Option<Row>): seq<Solve> {
    d.pending + (if reply.None? then InFlight(d) else [])
  }

  function HeldTotal(devices: seq<Device>, replies: seq<Option<Row>>, auto: bool): int
    requires |devices| <= |replies|
  {
    if devices == [] then 0
    else HeldTotal(devices[..|devices| - 1], replies, auto)
         + Tally(Held(devices[|devices| - 1], replies[|devices| - 1]), auto)
  }

  lemma {:induction false} HeldTotalChange(devices: seq<Device>, replies: seq<Option<Row>>, d: nat, n: Device,
                                           reply: Option<Row>, auto: bool)
    requires |devices| <= |replies| && d < |replies|
    ensures HeldTotal(if d < |devices| then devices[d := n] else devices, replies[d := reply], auto)
            == HeldTotal(devices, replies, auto) +
               (if d < |devices| then Tally(Held(n, reply), auto) - Tally(Held(devices[d], replies[d]), auto) else 0)
  {
    hide Tally, Held;
    if devices != [] {
      var rest := devices[..|devices| - 1];
      HeldTotalChange(rest, replies, d, n, reply, auto);
      if d < |devices| {
        assert devices[d := n][..|devices| - 1] == if d < |rest| then rest[d := n] else rest;
      }
    }
  }

  // What a turn adds to or takes from the solves a device holds.
  function TurnChange(d: Device, turn: Turn, auto: bool): int {
    if turn.Solved? then Tally([Solve(d.id, d.serial, turn.auto)], auto)
    else if turn.ResetClicked? then 0 - Tally(d.pending, auto)
    else 0
  }

  lemma HeldSplit(d: Device, reply: Option<Row>, auto: bool)
    ensures Tally(Held(d, reply), auto) ==
            Tally(d.pending, auto) + (if reply.None? then Tally(InFlight(d), auto) else 0)
    ensures Tally([], auto) == 0
  {
    TallyConcat(d.pending, InFlight(d), auto);
    assert d.pending + [] == d.pending;
  }

  lemma HeldAfterTurn(d: Device, reply: Option<Row>, turn: Turn, auto: bool)
    requires reply.Some? ==> d.inflight.Some?
    ensures Tally(Held(After(d, turn), reply), auto) == Tally(Held(d, reply), auto) + TurnChange(d, turn, auto)
  {
    hide Tally, Held;
    HeldSplit(d, reply, auto);
    HeldSplit(After(d, turn), reply, auto);
    TallyConcat(d.pending, [Solve(d.id, d.serial, turn.Solved? && turn.auto)], auto);
  }

  lemma HeldAfterExecution(d: Device, row: Row, auto: bool)
    ensures Tally(Held(d, Some(row)), auto) == Tally(Held(d, None), auto) - Tally(InFlight(d), auto)
  {
    TallyConcat(d.pending, InFlight(d), auto);
    assert d.pending + [] == d.pending;
  }

  lemma HeldAfterSettling(d: Device, n: Device, extra: seq<Solve>, auto: bool)
    requires n.waiting == d.waiting && n.inflight.None? && n.pending == d.pending + extra
    ensures Tally(Held(Resume(n), None), auto) + (if n.waiting == 0 then 0 else Tally(n.pending, auto))
            == Tally(d.pending, auto) + Tally(extra, auto)
  {
    TallyConcat(d.pending, extra, auto);
    assert n.pending + [] == n.pending;
  }

  /** In the row, erased with it, cut off by the cap, discarded by a reset, or still on a device: that
      is what was there at the start, plus what was recorded, plus what a failed report sent twice. */
  ghost predicate Balanced(s: System, auto: bool)
    requires |s.devices| <= |s.replies|
  {
    Counted(s.row, auto) + Part(s.books.erased, auto) + Part(s.books.clipped, auto) + Part(s.books.discarded, auto)
    + HeldTotal(s.devices, s.replies, auto)
    == Part(s.books.opening, auto) + Part(s.books.recorded, auto) + Part(s.books.doubled, auto)
  }

  lemma ApplyCounts(row: Option<Row>, b: Batch, auto: bool)
    ensures Counted(Some(Folded(row, b)), auto) + Over(b.solves, auto) == Counted(row, auto) + Tally(b.solves, auto)
  {
  }

  lemma PageBalance(s: System, d: nat, turn: Turn, auto: bool)
    requires Ok(s) && d < |s.devices| && Balanced(s, auto)
    ensures Balanced(PageStep(s, d, turn), auto)
  {
    hide After, Tally, Held, Counted;
    HeldTotalChange(s.devices, s.replies, d, After(s.devices[d], turn), s.replies[d], auto);
    assert s.replies[d := s.replies[d]] == s.replies;
    HeldAfterTurn(s.devices[d], s.replies[d], turn, auto);
  }

  lemma ExecuteBalance(s: System, d: nat, auto: bool)
    requires Ok(s) && d < |s.devices| && s.devices[d].inflight.Some? && s.replies[d].None? && Balanced(s, auto)
    ensures Balanced(ExecuteStep(s, d), auto)
  {
    hide Tally, Held, Counted, Folded, Over;
    var b := s.devices[d].inflight.value;
    ApplyCounts(s.row, b, auto);
    HeldAfterExecution(s.devices[d], Folded(s.row, b), auto);
    HeldTotalChange(s.devices, s.replies, d, s.devices[d], Some(Folded(s.row, b)), auto);
    assert s.devices[d := s.devices[d]] == s.devices;
  }

  lemma SettleBalance(s: System, d: nat, n: Device, late: multiset<Batch>, b: Books, auto: bool)
    requires Ok(s) && d < |s.devices|
    requires Counted(s.row, auto) + Part(b.erased, auto) + Part(b.clipped, auto) + Part(b.discarded, auto)
             + HeldTotal(s.devices, s.replies, auto) - Tally(Held(s.devices[d], s.replies[d]), auto)
             + Tally(Held(Resume(n), None), auto) + (if n.waiting == 0 then 0 else Tally(n.pending, auto))
             == Part(b.opening, auto) + Part(b.recorded, auto) + Part(b.doubled, auto)
    ensures Balanced(Settle(s, d, n, late, b), auto)
  {
    hide Resume, Tally, Held, Counted;
    HeldTotalChange(s.devices, s.replies, d, Resume(n), None, auto);
  }

  lemma SucceedBalance(s: System, d: nat, auto: bool)
    requires Ok(s) && d < |s.devices| && s.devices[d].inflight.Some? && s.replies[d].Some? && Balanced(s, auto)
    ensures Balanced(Settle(s, d, Succeed(s.devices[d], s.replies[d].value), s.late, s.books), auto)
  {
    hide Counted, HeldTotal;
    var n := Succeed(s.devices[d], s.replies[d].value);
    assert n.pending == s.devices[d].pending + [];
    HeldSplit(s.devices[d], s.replies[d], auto);
    HeldAfterSettling(s.devices[d], n, [], auto);
    SettleBalance(s, d, n, s.late, s.books, auto);
  }

  lemma FailBalance(s: System, d: nat, u: bool, auto: bool)
    requires Ok(s) && d < |s.devices| && s.devices[d].inflight.Some? && Balanced(s, auto)
    ensures Balanced(FailStep(s, d, u), auto)
  {
    hide Counted, HeldTotal, Tally, Held, Resume, Settle;
    var n, b := Fail(s.devices[d], u), s.devices[d].inflight.value;
    HeldSplit(s.devices[d], s.replies[d], auto);
    HeldAfterSettling(s.devices[d], n, InFlight(s.devices[d]), auto);
    if s.replies[d].Some? {
      SettleBalance(s, d, n, s.late, Double(s.books, b.solves), auto);
    } else {
      SettleBalance(s, d, n, s.late + multiset{b}, s.books, auto);
    }
  }

  lemma BootBalance(s: System, d: nat, auto: bool)
    requires Ok(s) && d < |s.devices| && s.boots[d].Read? && Balanced(s, auto)
    ensures Balanced(BootStep(s, d), auto)
  {
    hide Tally, Counted;
    var n := BootReply(s.devices[d], s.boots[d].stats);
    assert Held(n, s.replies[d]) == Held(s.devices[d], s.replies[d]);
    hide Held;
    HeldTotalChange(s.devices, s.replies, d, n, s.replies[d], auto);
    assert s.replies[d := s.replies[d]] == s.replies;
  }

  lemma LateBalance(s: System, b: Batch, auto: bool)
    requires Ok(s) && Balanced(s, auto)
    ensures Balanced(LateStep(s, b), auto)
  {
    hide Tally, HeldTotal, Counted, Folded, Over;
    ApplyCounts(s.row, b, auto);
  }

  lemma ServerOnlyBalance(s: System, e: Event, auto: bool)
    requires Ok(s) && Enabled(s, e) && Balanced(s, auto) && (e.RowDeleted? || e.StatsRead? || e.BootFailed?)
    ensures Balanced(Step(s, e), auto)
  {
    hide HeldTotal;
  }

  lemma StepKeepsBalance(s: System, e: Event, auto: bool)
    requires Ok(s) && Enabled(s, e) && Balanced(s, auto)
    ensures Ok(Step(s, e)) && Balanced(Step(s, e), auto)
  {
    StepKeepsOk(s, e);
    hide Ok, PageStep, ExecuteStep, Settle, FailStep, BootStep, Folded, Over, Tally, HeldTotal, Balanced;
    match e
    case Page(d, turn) => PageBalance(s, d, turn, auto);
    case Executed(d) => ExecuteBalance(s, d, auto);
    case ExecutedLate(b) => LateBalance(s, b, auto);
    case Succeeded(d) => SucceedBalance(s, d, auto);
    case Failed(d, u) => FailBalance(s, d, u, auto);
    case BootReplied(d) => BootBalance(s, d, auto);
    case _ => ServerOnlyBalance(s, e, auto);
  }

  lemma {:induction false} NothingHeldAtFirst(s: System, auto: bool, devices: seq<Device>)
    requires Init(s) && devices <= s.devices
    ensures HeldTotal(devices, s.replies, auto) == 0
  {
    if devices != [] { NothingHeldAtFirst(s, auto, devices[..|devices| - 1]); }
  }

  lemma {:induction false} BalanceKept(s: System, es: seq<Event>, auto: bool)
    requires Ok(s) && Possible(s, es) && Balanced(s, auto)
    ensures Ok(Run(s, es)) && Balanced(Run(s, es), auto)
    decreases |es|
  {
    if es != [] {
      StepKeepsBalance(s, es[0], auto);
      BalanceKept(Step(s, es[0]), es[1..], auto);
    }
  }

  /** Manual and automatic solves separately, on every run of every number of devices with any
      failures, retries and resets, the books balance. */
  lemma EverySolveIsAccountedFor(s: System, es: seq<Event>, auto: bool)
    requires Init(s) && Possible(s, es)
    ensures Ok(Run(s, es)) && Balanced(Run(s, es), auto)
  {
    NothingHeldAtFirst(s, auto, s.devices);
    InitIsOk(s);
    BalanceKept(s, es, auto);
  }

  // ---------------------------------------------------------------------------
  // Where each single solve is
  // ---------------------------------------------------------------------------

  ghost predicate Somewhere(s: System, x: Solve) {
    x in s.books.applied || x in s.books.dropped ||
    (x.device < |s.devices| && (x in s.devices[x.device].pending || x in InFlight(s.devices[x.device])))
  }

  ghost predicate NothingVanished(s: System)
    requires |s.devices| <= |s.replies|
  {
    && (forall x | x in s.books.seen :: Somewhere(s, x))
    && (forall x | x in s.books.dropped :: x.device < |s.devices| && x.serial < s.devices[x.device].serial)
    && (forall d | 0 <= d < |s.devices| && s.replies[d].Some? ::
          forall x | x in InFlight(s.devices[d]) :: x in s.books.applied)
  }

  lemma TurnKeepsQueued(d: Device, turn: Turn, x: Solve)
    requires x in d.pending || x in InFlight(d)
    ensures x in After(d, turn).pending || x in InFlight(After(d, turn)) || (turn.ResetClicked? && x in d.pending)
  {
    hide Tally;
  }

  lemma TurnAddsToNoFlight(d: Device, turn: Turn)
    ensures d.inflight.Some? ==> InFlight(After(d, turn)) == InFlight(d)
    ensures d.serial <= After(d, turn).serial
    ensures turn.Solved? ==> Solve(d.id, d.serial, turn.auto) in After(d, turn).pending
  {
    hide Tally;
  }

  lemma PageKeepsEverySolve(s: System, d: nat, turn: Turn)
    requires Ok(s) && NothingVanished(s) && d < |s.devices|
    ensures NothingVanished(PageStep(s, d, turn))
  {
    hide After, Tally, Add;
    TurnAddsToNoFlight(s.devices[d], turn);
    var t := PageStep(s, d, turn);
    forall x | x in t.books.seen ensures Somewhere(t, x) {
      if x in s.books.seen && Somewhere(s, x) && x.device == d
         && (x in s.devices[d].pending || x in InFlight(s.devices[d])) {
        TurnKeepsQueued(s.devices[d], turn, x);
      }
    }
  }

  lemma SettleKeepsEverySolve(s: System, d: nat, n: Device, late: multiset<Batch>, b: Books)
    requires Ok(s) && NothingVanished(s) && d < |s.devices| && n.inflight.None? && n.serial == s.devices[d].serial
    requires n.id == d && Own(n, n.pending)
    requires b.seen == s.books.seen && b.applied == s.books.applied && b.dropped == s.books.dropped
    requires forall x | x in s.devices[d].pending :: x in n.pending
    requires forall x | x in InFlight(s.devices[d]) :: x in n.pending || x in s.books.applied
    ensures NothingVanished(Settle(s, d, n, late, b))
  {
    hide Tally, Add;
    var t := Settle(s, d, n, late, b);
    forall x | x in t.books.seen ensures Somewhere(t, x) {
      assert Somewhere(s, x);
    }
  }

  lemma ExecutionKeepsEverySolve(s: System, d: nat)
    requires Ok(s) && NothingVanished(s) && Enabled(s, Executed(d))
    ensures NothingVanished(ExecuteStep(s, d))
  {
    hide Tally, Add, Folded, Over, DeviceOk;
    forall x | x in s.books.seen ensures Somewhere(ExecuteStep(s, d), x) { assert Somewhere(s, x); }
  }

  lemma OtherStepsKeepEverySolve(s: System, e: Event)
    requires Ok(s) && Enabled(s, e) && NothingVanished(s) && !e.Page? && !e.Succeeded? && !e.Failed?
    ensures NothingVanished(Step(s, e))
  {
    hide Tally, Add, Folded, Over, PageStep, Settle, FailStep, Ok;
    if e.Executed? {
      ExecutionKeepsEverySolve(s, e.d);
    } else {
      hide ExecuteStep;
      forall x | x in s.books.seen ensures Somewhere(Step(s, e), x) { assert Somewhere(s, x); }
    }
  }

  lemma StepKeepsEverySolve(s: System, e: Event)
    requires Ok(s) && Enabled(s, e) && NothingVanished(s)
    ensures NothingVanished(Step(s, e))
  {
    hide Tally, Add, Folded, Over, PageStep, Settle, Resume;
    match e
    case Page(d, turn) => PageKeepsEverySolve(s, d, turn);
    case Succeeded(d) => SettleKeepsEverySolve(s, d, Succeed(s.devices[d], s.replies[d].value), s.late, s.books);
    case Failed(d, u) =>
      var n, b := Fail(s.devices[d], u), s.devices[d].inflight.value;
      if s.replies[d].Some? {
        SettleKeepsEverySolve(s, d, n, s.late, Double(s.books, b.solves));
      } else {
        SettleKeepsEverySolve(s, d, n, s.late + multiset{b}, s.books);
      }
    case _ => OtherStepsKeepEverySolve(s, e);
  }

  /** Every single solve ever recorded is queued, in flight, applied, or was dropped by a reset. */
  lemma {:induction false} EverySolveIsSomewhere(s: System, es: seq<Event>)
    requires Ok(s) && NothingVanished(s) && Possible(s, es)
    ensures Ok(Run(s, es)) && NothingVanished(Run(s, es))
    decreases |es|
  {
    if es != [] {
      StepKeepsOk(s, es[0]);
      StepKeepsEverySolve(s, es[0]);
      EverySolveIsSomewhere(Step(s, es[0]), es[1..]);
    }
  }
}

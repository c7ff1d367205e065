/** The second factor of one account: the statements of internal/store/store.go as atomic steps, and the
    handlers of internal/auth/handlers.go as processes that read, compute and write in separate steps
    and interleave freely. */
module SecondFactor {
  import opened Text
  import opened TotpCodes
  import opened Wrappers

  // ---------------------------------------------------------------------------
  // The rows of one user and the statements on them
  // ---------------------------------------------------------------------------

  datatype Secret = Secret(sealed: string, confirmed: bool, lastUsed: Option<int>)
  datatype Code = Code(hash: string, used: bool)
  datatype Factor = Factor(secret: Option<Secret>, codes: seq<Code>)

  function Fresh(hashes: seq<string>): seq<Code> {
    seq(|hashes|, i requires 0 <= i < |hashes| => Code(hashes[i], false))
  }

  function StartEnrollment(f: Factor, sealed: string, hashes: seq<string>): (Factor, bool) {
    if f.secret.Some? && f.secret.value.confirmed then (f, false)
    else (Factor(Some(Secret(sealed, false, None)), Fresh(hashes)), true)
  }

  function ConfirmTotp(f: Factor, step: int): (Factor, bool) {
    if f.secret.Some? && !f.secret.value.confirmed then
      (f.(secret := Some(f.secret.value.(confirmed := true, lastUsed := Some(step)))), true)
    else (f, false)
  }

  function MarkStepUsed(f: Factor, step: int): (Factor, bool) {
    if f.secret.Some? && f.secret.value.confirmed
       && (f.secret.value.lastUsed.None? || f.secret.value.lastUsed.value < step) then
      (f.(secret := Some(f.secret.value.(lastUsed := Some(step)))), true)
    else (f, false)
  }

  predicate Unused(codes: seq<Code>, hash: string) {
    Code(hash, false) in codes
  }

  // The UPDATE marks every row with this hash, however often it occurs.
  function Spend(codes: seq<Code>, hash: string): seq<Code> {
    seq(|codes|, i requires 0 <= i < |codes| => if codes[i].hash == hash then Code(hash, true) else codes[i])
  }

  function UseCode(f: Factor, hash: string): (Factor, bool) {
    if Unused(f.codes, hash) then (f.(codes := Spend(f.codes, hash)), true) else (f, false)
  }

  function DeleteTotp(): Factor {
    Factor(None, [])
  }

  // ---------------------------------------------------------------------------
  // The handlers
  // ---------------------------------------------------------------------------

  datatype Ask = Confirm | Login | Disable

  /** Where a request is.  Login and Disable first check that the factor is on, then read the secret,
      then match at some later clock, then write; Disable deletes last.  sealed is the stored text the
      secret was read from, kept to speak about it. */
  datatype Proc =
    | Arrived(ask: Ask, code: string)
    | Checked(ask: Ask, code: string)
    | HasSecret(ask: Ask, code: string, secret: string, sealed: string)
    | HasStep(ask: Ask, step: int, clock: int, code: string, sealed: string)
    | HasHash(ask: Ask, hash: string)
    | Passed(ask: Ask)
    | Done

  datatype Token = Step(step: int, clock: int) | Recovery(hash: string)
  datatype Grant = Grant(request: nat, epoch: nat, token: Token)

  /** epoch counts the enrolments started; grants and deletions are logs. */
  datatype System = System(factor: Factor, procs: map<nat, Proc>, epoch: nat, grants: seq<Grant>, deletions: seq<nat>)

  datatype Event =
    | Enroll(sealed: string, hashes: seq<string>)
    | Arrive(id: nat, ask: Ask, code: string)
    | Advance(id: nat, now: int)      // the request's next step, its clock reading now

  predicate Enabled(s: System, e: Event) {
    match e
    case Enroll(_, _) => true
    case Arrive(id, _, _) => id !in s.procs
    case Advance(id, _) => id in s.procs
  }

  function Goto(s: System, id: nat, p: Proc): System {
    s.(procs := s.procs[id := p])
  }

  function On(f: Factor): bool {
    f.secret.Some? && f.secret.value.confirmed
  }

  function Open(crypto: Crypto, s: System, id: nat, ask: Ask, code: string): System
    requires s.factor.secret.Some?
  {
    match crypto.unseal(s.factor.secret.value.sealed)
    case None => Goto(s, id, Done)
    case Some(secret) => Goto(s, id, HasSecret(ask, code, secret, s.factor.secret.value.sealed))
  }

  // The first read: confirm takes a pending secret, the others only look whether the factor is on.
  function Check(crypto: Crypto, s: System, id: nat, ask: Ask, code: string): System {
    if ask.Confirm? then
      if s.factor.secret.Some? && !s.factor.secret.value.confirmed then Open(crypto, s, id, ask, code)
      else Goto(s, id, Done)
    else if On(s.factor) then Goto(s, id, Checked(ask, code))
    else Goto(s, id, Done)
  }

  // verifySecondFactor reads the secret again.
  function ReadSecret(crypto: Crypto, s: System, id: nat, ask: Ask, code: string): System {
    if TrimSpace(code) == "" || !On(s.factor) then Goto(s, id, Done) else Open(crypto, s, id, ask, code)
  }

  function MatchCode(crypto: Crypto, s: System, id: nat, ask: Ask, code: string, secret: string, sealed: string,
                     now: int): System {
    var trimmed := if ask.Confirm? then code else TrimSpace(code);
    match MatchStep(crypto, trimmed, secret, now)
    case Some(step) => Goto(s, id, HasStep(ask, step, now, trimmed, sealed))
    case None =>
      if ask.Confirm? then Goto(s, id, Done)
      else Goto(s, id, HasHash(ask, crypto.digest(Normalized(trimmed))))
  }

  function Granted(s: System, id: nat, ask: Ask, f: Factor, token: Token): System {
    System(f, s.procs[id := Passed(ask)], s.epoch, s.grants + [Grant(id, s.epoch, token)], s.deletions)
  }

  function SpendStep(s: System, id: nat, ask: Ask, step: int, clock: int): System {
    var (f, ok) := if ask.Confirm? then ConfirmTotp(s.factor, step) else MarkStepUsed(s.factor, step);
    if ok then Granted(s, id, ask, f, Step(step, clock)) else Goto(s, id, Done)
  }

  function SpendCode(s: System, id: nat, ask: Ask, hash: string): System {
    var (f, ok) := UseCode(s.factor, hash);
    if ok then Granted(s, id, ask, f, Recovery(hash)) else Goto(s, id, Done)
  }

  function Conclude(s: System, id: nat, ask: Ask): System {
    if ask.Disable? then
      System(DeleteTotp(), s.procs[id := Done], s.epoch, s.grants, s.deletions + [id])
    else Goto(s, id, Done)
  }

  function Next(crypto: Crypto, s: System, e: Event): System
    requires Enabled(s, e)
  {
    match e
    case Enroll(sealed, hashes) =>
      var (f, started) := StartEnrollment(s.factor, sealed, hashes);
      if started then s.(factor := f, epoch := s.epoch + 1) else s
    case Arrive(id, ask, code) => Goto(s, id, Arrived(ask, code))
    case Advance(id, now) =>
      match s.procs[id]
      case Arrived(ask, code) => Check(crypto, s, id, ask, code)
      case Checked(ask, code) => ReadSecret(crypto, s, id, ask, code)
      case HasSecret(ask, code, secret, sealed) => MatchCode(crypto, s, id, ask, code, secret, sealed, now)
      case HasStep(ask, step, clock, _, _) => SpendStep(s, id, ask, step, clock)
      case HasHash(ask, hash) => SpendCode(s, id, ask, hash)
      case Passed(ask) => Conclude(s, id, ask)
      case Done => s
  }

  const START := System(Factor(None, []), map[], 0, [], [])

  ghost predicate Possible(crypto: Crypto, s: System, es: seq<Event>)
    decreases |es|
  {
    es == [] || (Enabled(s, es[0]) && Possible(crypto, Next(crypto, s, es[0]), es[1..]))
  }

  function Run(crypto: Crypto, s: System, es: seq<Event>): System
    requires Possible(crypto, s, es)
    decreases |es|
  {
    if es == [] then s else Run(crypto, Next(crypto, s, es[0]), es[1..])
  }

  // ---------------------------------------------------------------------------
  // What every step keeps
  // ---------------------------------------------------------------------------

  /** The steps accepted in an enrolment, the confirming one included, with the clocks that matched them. */
  function Accepted(gs: seq<Grant>, epoch: nat): seq<Token> {
    if gs == [] then []
    else
      var g := gs[|gs| - 1];
      Accepted(gs[..|gs| - 1], epoch) + (if g.epoch == epoch && g.token.Step? then [g.token] else [])
  }

  ghost predicate Rising(ts: seq<Token>) {
    && (forall i | 0 <= i < |ts| :: ts[i].Step?)
    && (forall i, j | 0 <= i < j < |ts| :: ts[i].step < ts[j].step)
  }

  predicate Near(step: int, clock: int) {
    GoDiv(clock, PERIOD) - 1 <= step <= GoDiv(clock, PERIOD) + 1
  }

  // The stored step is the last accepted one; an unconfirmed secret has accepted none.
  ghost predicate StepsOk(s: System) {
    && (forall e | e > s.epoch :: Accepted(s.grants, e) == [])
    && (forall e: nat :: Rising(Accepted(s.grants, e)))
    && (s.factor.secret.Some? ==>
          var a := Accepted(s.grants, s.epoch);
          if s.factor.secret.value.confirmed then
            a != [] && s.factor.secret.value.lastUsed == Some(a[|a| - 1].step)
          else a == [] && s.factor.secret.value.lastUsed == None)
    && (forall g | g in s.grants && g.token.Step? :: Near(g.token.step, g.token.clock))
    && (forall id | id in s.procs && s.procs[id].HasStep? :: Near(s.procs[id].step, s.procs[id].clock))
  }

  ghost predicate Distinct(gs: seq<Grant>) {
    forall i, j | 0 <= i < j < |gs| ::
      gs[i].request != gs[j].request &&
      (gs[i].epoch == gs[j].epoch && gs[i].token.Recovery? ==> gs[i].token != gs[j].token)
  }

  // A hash accepted in this enrolment has no unused row left, and only running or finished requests
  // have been granted anything.
  ghost predicate CodesOk(s: System) {
    && Distinct(s.grants)
    && (forall g | g in s.grants :: g.epoch <= s.epoch && g.request in s.procs
          && (s.procs[g.request].Passed? || s.procs[g.request].Done?))
    && (forall g | g in s.grants && g.epoch == s.epoch && g.token.Recovery? :: !Unused(s.factor.codes, g.token.hash))
    && (forall id | id in s.procs && s.procs[id].Passed? :: exists g :: g in s.grants && g.request == id)
  }

  ghost predicate DeletionsOk(s: System) {
    && (forall i, j | 0 <= i < j < |s.deletions| :: s.deletions[i] != s.deletions[j])
    && (forall id | id in s.deletions :: id in s.procs && s.procs[id].Done?)
    && (forall id | id in s.deletions :: exists g :: g in s.grants && g.request == id)
  }

  lemma AcceptedSnoc(gs: seq<Grant>, g: Grant, e: nat)
    ensures Accepted(gs + [g], e) == Accepted(gs, e) + (if g.epoch == e && g.token.Step? then [g.token] else [])
  {
    assert (gs + [g])[..|gs|] == gs;
  }

  lemma GotoKeeps(s: System, id: nat, p: Proc)
    requires StepsOk(s) && CodesOk(s) && DeletionsOk(s) && !p.Passed?
    requires p.HasStep? ==> Near(p.step, p.clock)
    requires id in s.procs ==> !s.procs[id].Passed? && (s.procs[id].Done? ==> p.Done?)
    ensures StepsOk(Goto(s, id, p)) && CodesOk(Goto(s, id, p)) && DeletionsOk(Goto(s, id, p))
  {
    hide Accepted, Rising, Near, Unused;
  }

  // The step a statement accepts is newer than every one accepted before in this enrolment.
  lemma AcceptedStepIsNewer(s: System, ask: Ask, step: int, clock: int)
    requires StepsOk(s)
    requires if ask.Confirm? then ConfirmTotp(s.factor, step).1 else MarkStepUsed(s.factor, step).1
    ensures Rising(Accepted(s.grants, s.epoch) + [Step(step, clock)])
  {
    var a := Accepted(s.grants, s.epoch);
    assert Rising(a);
    hide Accepted;
    assert forall i | 0 <= i < |a| :: a[i].step <= a[|a| - 1].step;
  }

  // What a granted step adds to the accepted ones.
  lemma AcceptedAfterStep(s: System, id: nat, step: int, clock: int, e: nat)
    ensures Accepted(s.grants + [Grant(id, s.epoch, Step(step, clock))], e) ==
            Accepted(s.grants, e) + (if e == s.epoch then [Step(step, clock)] else [])
  {
    AcceptedSnoc(s.grants, Grant(id, s.epoch, Step(step, clock)), e);
  }

  lemma StepGrantRises(s: System, id: nat, step: int, clock: int)
    requires forall e: nat :: Rising(Accepted(s.grants, e))
    requires Rising(Accepted(s.grants, s.epoch) + [Step(step, clock)])
    ensures forall e: nat :: Rising(Accepted(s.grants + [Grant(id, s.epoch, Step(step, clock))], e))
  {
    hide Accepted, Rising;
    var gs := s.grants + [Grant(id, s.epoch, Step(step, clock))];
    forall e: nat ensures Rising(Accepted(gs, e)) {
      AcceptedAfterStep(s, id, step, clock, e);
      assert Rising(Accepted(s.grants, e)) && Accepted(s.grants, e) + [] == Accepted(s.grants, e);
    }
  }

  lemma StepGrantLaterEmpty(s: System, id: nat, step: int, clock: int)
    requires forall e | e > s.epoch :: Accepted(s.grants, e) == []
    ensures forall e | e > s.epoch :: Accepted(s.grants + [Grant(id, s.epoch, Step(step, clock))], e) == []
  {
    hide Accepted;
    var gs := s.grants + [Grant(id, s.epoch, Step(step, clock))];
    forall e | e > s.epoch ensures Accepted(gs, e) == [] { AcceptedAfterStep(s, id, step, clock, e); }
  }

  lemma StepGrantNear(s: System, id: nat, step: int, clock: int)
    requires Near(step, clock)
    requires forall g | g in s.grants && g.token.Step? :: Near(g.token.step, g.token.clock)
    ensures var gs := s.grants + [Grant(id, s.epoch, Step(step, clock))];
            forall g | g in gs && g.token.Step? :: Near(g.token.step, g.token.clock)
  {
    hide Near;
  }

  lemma StepGrantKeeps(s: System, id: nat, ask: Ask, step: int, clock: int)
    requires StepsOk(s) && Near(step, clock)
    ensures StepsOk(SpendStep(s, id, ask, step, clock))
  {
    hide Near, Accepted, Rising;
    if (if ask.Confirm? then ConfirmTotp(s.factor, step).1 else MarkStepUsed(s.factor, step).1) {
      AcceptedStepIsNewer(s, ask, step, clock);
      StepGrantRises(s, id, step, clock);
      StepGrantLaterEmpty(s, id, step, clock);
      StepGrantNear(s, id, step, clock);
      AcceptedAfterStep(s, id, step, clock, s.epoch);
    }
  }

  lemma CodeGrantKeeps(s: System, id: nat, ask: Ask, hash: string)
    requires StepsOk(s)
    ensures StepsOk(SpendCode(s, id, ask, hash))
  {
    var t := SpendCode(s, id, ask, hash);
    if |t.grants| > |s.grants| {
      forall e: nat ensures Accepted(t.grants, e) == Accepted(s.grants, e) {
        AcceptedSnoc(s.grants, Grant(id, s.epoch, Recovery(hash)), e);
      }
      hide Accepted, Rising;
      forall e: nat ensures Rising(Accepted(t.grants, e)) { assert Rising(Accepted(s.grants, e)); }
    }
  }

  /** Spending a code touches the rows with its hash and no others. */
  lemma SpendIsExact(codes: seq<Code>, hash: string)
    ensures var after := Spend(codes, hash);
            && |after| == |codes| && (forall i | 0 <= i < |codes| :: after[i].hash == codes[i].hash)
            && (forall other :: Unused(after, other) <==> other != hash && Unused(codes, other))
  {
    var after := Spend(codes, hash);
    forall other ensures Unused(after, other) <==> other != hash && Unused(codes, other) {
      if other != hash && Unused(codes, other) {
        var i :| 0 <= i < |codes| && codes[i] == Code(other, false);
        assert after[i] == Code(other, false);
      }
    }
  }

  // A grant goes to a request that had none, for a token no other request was granted.
  lemma GrantKeeps(s: System, id: nat, ask: Ask, f: Factor, token: Token)
    requires CodesOk(s) && DeletionsOk(s) && id in s.procs && !s.procs[id].Passed? && !s.procs[id].Done?
    requires token.Recovery? ==> Unused(s.factor.codes, token.hash) && f.codes == Spend(s.factor.codes, token.hash)
    requires token.Step? ==> f.codes == s.factor.codes
    ensures CodesOk(Granted(s, id, ask, f, token)) && DeletionsOk(Granted(s, id, ask, f, token))
  {
    hide Unused, Spend;
    var t, g := Granted(s, id, ask, f, token), Grant(id, s.epoch, token);
    assert g in t.grants;
    forall h | h in t.grants && h.epoch == t.epoch && h.token.Recovery? ensures !Unused(f.codes, h.token.hash) {
      if token.Recovery? { SpendIsExact(s.factor.codes, token.hash); }
      assert h in s.grants || h == g;
    }
    forall i, j | 0 <= i < j < |t.grants|
      ensures t.grants[i].request != t.grants[j].request
      ensures t.grants[i].epoch == t.grants[j].epoch && t.grants[i].token.Recovery? ==>
                t.grants[i].token != t.grants[j].token
    {
      assert t.grants[i] in s.grants;
    }
    forall k | k in t.procs && t.procs[k].Passed? ensures exists h :: h in t.grants && h.request == k {
      if k != id {
        var h :| h in s.grants && h.request == k;
        assert h in t.grants;
      }
    }
    forall k | k in t.deletions ensures exists h :: h in t.grants && h.request == k {
      var h :| h in s.grants && h.request == k;
      assert h in t.grants;
    }
  }

  lemma ConcludeKeeps(s: System, id: nat, ask: Ask)
    requires StepsOk(s) && CodesOk(s) && DeletionsOk(s) && id in s.procs && s.procs[id].Passed?
    ensures var t := Conclude(s, id, ask); StepsOk(t) && CodesOk(t) && DeletionsOk(t)
  {
    hide Accepted, Rising, Near;
    var t := Conclude(s, id, ask);
    forall k | k in t.deletions ensures exists g :: g in t.grants && g.request == k {
      assert k in s.deletions || k == id;
    }
  }

  lemma EnrollKeeps(crypto: Crypto, s: System, sealed: string, hashes: seq<string>)
    requires StepsOk(s) && CodesOk(s) && DeletionsOk(s)
    ensures var t := Next(crypto, s, Enroll(sealed, hashes)); StepsOk(t) && CodesOk(t) && DeletionsOk(t)
  {
    hide Rising, Near;
  }

  lemma MatchedIsNear(s: System, id: nat)
    requires StepsOk(s) && id in s.procs && s.procs[id].HasStep?
    ensures Near(s.procs[id].step, s.procs[id].clock)
  {
  }

  lemma NextKeeps(crypto: Crypto, s: System, e: Event)
    requires Enabled(s, e) && StepsOk(s) && CodesOk(s) && DeletionsOk(s)
    ensures var t := Next(crypto, s, e); StepsOk(t) && CodesOk(t) && DeletionsOk(t)
  {
    hide StepsOk, CodesOk, DeletionsOk, TrimSpace, MatchStep;
    match e
    case Enroll(sealed, hashes) => EnrollKeeps(crypto, s, sealed, hashes);
    case Arrive(id, ask, code) => GotoKeeps(s, id, Arrived(ask, code));
    case Advance(id, now) =>
      var p := Next(crypto, s, e).procs[id];
      match s.procs[id]
      case HasSecret(ask, code, secret, _) =>
        MatchIsWithinOneStep(crypto, if ask.Confirm? then code else TrimSpace(code), secret, now);
        GotoKeeps(s, id, p);
      case HasStep(ask, step, clock, _, _) =>
        MatchedIsNear(s, id);
        StepGrantKeeps(s, id, ask, step, clock);
        if p.Passed? {
          GrantKeeps(s, id, ask, Next(crypto, s, e).factor, Step(step, clock));
        } else {
          GotoKeeps(s, id, p);
        }
      case HasHash(ask, hash) =>
        CodeGrantKeeps(s, id, ask, hash);
        if p.Passed? {
          GrantKeeps(s, id, ask, Next(crypto, s, e).factor, Recovery(hash));
        } else {
          GotoKeeps(s, id, p);
        }
      case Passed(ask) => ConcludeKeeps(s, id, ask);
      case Done =>
      case _ => GotoKeeps(s, id, p);
  }

  ghost predicate Good(s: System) {
    StepsOk(s) && CodesOk(s) && DeletionsOk(s)
  }

  lemma {:induction false} RunKeeps(crypto: Crypto, s: System, es: seq<Event>)
    requires Good(s) && Possible(crypto, s, es)
    ensures Good(Run(crypto, s, es))
    decreases |es|
  {
    if es != [] {
      NextKeeps(crypto, s, es[0]);
      RunKeeps(crypto, Next(crypto, s, es[0]), es[1..]);
    }
  }

  // ---------------------------------------------------------------------------
  // Main results
  // ---------------------------------------------------------------------------

  /** Section 5.2 of RFC 6238: over all interleavings, the steps accepted in one enrolment, the confirming
      one included, strictly increase, and each is at most one step from the clock of its request. */
  lemma AcceptedStepsIncrease(crypto: Crypto, es: seq<Event>, epoch: nat)
    requires Possible(crypto, START, es)
    ensures var s := Run(crypto, START, es);
            Rising(Accepted(s.grants, epoch)) && forall t | t in Accepted(s.grants, epoch) :: Near(t.step, t.clock)
  {
    RunKeeps(crypto, START, es);
    AcceptedAreGrants(Run(crypto, START, es).grants, epoch);
  }

  lemma {:induction false} AcceptedAreGrants(gs: seq<Grant>, epoch: nat)
    ensures forall t | t in Accepted(gs, epoch) :: t.Step? && exists g | g in gs :: g.token == t && g.epoch == epoch
    ensures forall g | g in gs && g.epoch == epoch && g.token.Step? :: g.token in Accepted(gs, epoch)
  {
    if gs != [] {
      AcceptedAreGrants(gs[..|gs| - 1], epoch);
      assert gs == gs[..|gs| - 1] + [gs[|gs| - 1]];
    }
  }

  /** Those of the accepted tokens whose request was clocked in [t1, t2]. */
  function Within(ts: seq<Token>, t1: int, t2: int): seq<int> {
    if ts == [] then []
    else
      var t := ts[|ts| - 1];
      Within(ts[..|ts| - 1], t1, t2) + (if t.Step? && t1 <= t.clock <= t2 then [t.step] else [])
  }

  lemma {:induction false} WithinIsBounded(ts: seq<Token>, t1: int, t2: int, low: int)
    requires Rising(ts) && t1 <= t2 && low == GoDiv(t1, PERIOD) - 1
    requires forall t | t in ts :: Near(t.step, t.clock)
    ensures var w := Within(ts, t1, t2);
            w != [] ==> low <= w[|w| - 1] <= GoDiv(t2, PERIOD) + 1 && w[|w| - 1] <= ts[|ts| - 1].step
                        && |w| <= w[|w| - 1] - low + 1
  {
    hide GoDiv;
    if ts != [] {
      var t, rest := ts[|ts| - 1], ts[..|ts| - 1];
      assert forall x | x in rest :: x in ts;
      WithinIsBounded(rest, t1, t2, low);
      if t1 <= t.clock <= t2 {
        StepsGrowWithTime(t1, t.clock);
        StepsGrowWithTime(t.clock, t2);
        assert t in ts;
      }
    }
  }

  /** So in one enrolment at most floor(t2/30) - floor(t1/30) + 3 codes are accepted from requests clocked
      in [t1, t2]. */
  lemma AcceptedCodesBounded(crypto: Crypto, es: seq<Event>, epoch: nat, t1: int, t2: int)
    requires Possible(crypto, START, es) && t1 <= t2
    ensures |Within(Accepted(Run(crypto, START, es).grants, epoch), t1, t2)|
            <= GoDiv(t2, PERIOD) - GoDiv(t1, PERIOD) + 3
  {
    AcceptedStepsIncrease(crypto, es, epoch);
    WithinIsBounded(Accepted(Run(crypto, START, es).grants, epoch), t1, t2, GoDiv(t1, PERIOD) - 1);
    StepsGrowWithTime(t1, t2);
  }

  /** A confirmed secret is never overwritten: only a Disable request that was granted a token ends it. */
  lemma ConfirmedSecretStays(crypto: Crypto, s: System, e: Event)
    requires Enabled(s, e) && On(s.factor)
    ensures var t := Next(crypto, s, e);
            (On(t.factor) && t.factor.secret.value.sealed == s.factor.secret.value.sealed && t.epoch == s.epoch
             && t.deletions == s.deletions)
            || (e.Advance? && s.procs[e.id] == Passed(Disable) && t.deletions == s.deletions + [e.id]
                && t.factor == DeleteTotp() && t.epoch == s.epoch)
  {
    hide TrimSpace, MatchStep;
  }

  lemma {:induction false} DeletionsGrow(crypto: Crypto, s: System, es: seq<Event>)
    requires Possible(crypto, s, es)
    ensures s.deletions <= Run(crypto, s, es).deletions && s.epoch <= Run(crypto, s, es).epoch
    decreases |es|
  {
    hide TrimSpace, MatchStep;
    if es != [] {
      var n := Next(crypto, s, es[0]);
      assert s.deletions <= n.deletions && s.epoch <= n.epoch;
      DeletionsGrow(crypto, Next(crypto, s, es[0]), es[1..]);
    }
  }

  // After its deletion an enrolment never comes back: the next secret belongs to a later one.
  ghost predicate Over(s: System, epoch: nat) {
    s.epoch > epoch || (s.epoch == epoch && s.factor.secret.None?)
  }

  lemma {:induction false} OverStaysOver(crypto: Crypto, s: System, es: seq<Event>, epoch: nat)
    requires Possible(crypto, s, es) && Over(s, epoch)
    ensures Over(Run(crypto, s, es), epoch)
    decreases |es|
  {
    hide TrimSpace, MatchStep;
    if es != [] {
      assert Over(Next(crypto, s, es[0]), epoch);
      OverStaysOver(crypto, Next(crypto, s, es[0]), es[1..], epoch);
    }
  }

  /** Over any run a confirmed secret is in force if and only if no Disable has deleted the factor since, and
      it is then the same secret: enrolling again, in whatever interleaving, cannot replace it. */
  lemma {:induction false} ConfirmedSecretLasts(crypto: Crypto, s: System, es: seq<Event>)
    requires Possible(crypto, s, es) && On(s.factor)
    ensures var t := Run(crypto, s, es);
            && (On(t.factor) && t.epoch == s.epoch <==> t.deletions == s.deletions)
            && (On(t.factor) && t.epoch == s.epoch ==> t.factor.secret.value.sealed == s.factor.secret.value.sealed)
    decreases |es|
  {
    if es != [] {
      ConfirmedSecretStays(crypto, s, es[0]);
      var n := Next(crypto, s, es[0]);
      DeletionsGrow(crypto, n, es[1..]);
      if On(n.factor) && n.epoch == s.epoch && n.deletions == s.deletions {
        ConfirmedSecretLasts(crypto, n, es[1..]);
      } else {
        OverStaysOver(crypto, n, es[1..], s.epoch);
      }
    }
  }

  // Two grants to different requests are for different things.
  ghost predicate Unshared(g: Grant, h: Grant) {
    g.request != h.request &&
    (g.epoch == h.epoch && g.token.Step? == h.token.Step? ==>
       if g.token.Step? then g.token.step != h.token.step else g.token.hash != h.token.hash)
  }

  lemma {:induction false} StepsNotShared(gs: seq<Grant>, i: nat, j: nat)
    requires (forall e: nat :: Rising(Accepted(gs, e))) && i < j < |gs|
    requires gs[i].epoch == gs[j].epoch && gs[i].token.Step? && gs[j].token.Step?
    ensures gs[i].token.step < gs[j].token.step
  {
    var rest, e := gs[..|gs| - 1], gs[j].epoch;
    if j == |gs| - 1 {
      assert gs[i] in rest;
      AcceptedAreGrants(rest, e);
      var a := Accepted(rest, e);
      var m :| 0 <= m < |a| && a[m] == gs[i].token;
      assert Accepted(gs, e) == a + [gs[j].token] && Rising(Accepted(gs, e));
      assert Accepted(gs, e)[m] == a[m] && Accepted(gs, e)[|a|] == gs[j].token;
    } else {
      forall k: nat ensures Rising(Accepted(rest, k)) {
        assert Rising(Accepted(gs, k));
        assert forall m | 0 <= m < |Accepted(rest, k)| :: Accepted(gs, k)[m] == Accepted(rest, k)[m];
      }
      StepsNotShared(rest, i, j);
    }
  }

  /** Every deletion of the factor is matched one to one with a grant: deletions are by different requests,
      each of which was granted exactly one accepted step or recovery code, and no two requests were ever
      granted the same one.  In particular a recovery code is accepted at most once per enrolment even if
      its hash is stored several times. */
  lemma DeletionsMatchGrants(crypto: Crypto, es: seq<Event>)
    requires Possible(crypto, START, es)
    ensures var s := Run(crypto, START, es);
            && (forall i, j | 0 <= i < j < |s.grants| :: Unshared(s.grants[i], s.grants[j]))
            && (forall i, j | 0 <= i < j < |s.deletions| :: s.deletions[i] != s.deletions[j])
            && (forall id | id in s.deletions :: exists i | 0 <= i < |s.grants| :: s.grants[i].request == id)
  {
    RunKeeps(crypto, START, es);
    var s := Run(crypto, START, es);
    forall i, j | 0 <= i < j < |s.grants| ensures Unshared(s.grants[i], s.grants[j]) {
      if s.grants[i].epoch == s.grants[j].epoch && s.grants[i].token.Step? && s.grants[j].token.Step? {
        StepsNotShared(s.grants, i, j);
      }
    }
  }

  // ---------------------------------------------------------------------------
  // Exactly which codes are accepted
  // ---------------------------------------------------------------------------

  // The hashes of the present enrolment's recovery codes; none once the factor was deleted.
  function IssuedNext(s: System, e: Event, issued: seq<string>): seq<string>
    requires Enabled(s, e)
  {
    match e
    case Enroll(_, hashes) => if On(s.factor) then issued else hashes
    case Arrive(_, _, _) => issued
    case Advance(id, _) => if s.procs[id] == Passed(Disable) then [] else issued
  }

  /** The hashes issued by the last enrolment of a run that started, unless the factor was deleted since. */
  ghost function Issued(crypto: Crypto, s: System, es: seq<Event>, before: seq<string>): seq<string>
    requires Possible(crypto, s, es)
    decreases |es|
  {
    if es == [] then before else Issued(crypto, Next(crypto, s, es[0]), es[1..], IssuedNext(s, es[0], before))
  }

  predicate Taken(s: System, hash: string) {
    exists g | g in s.grants :: g.epoch == s.epoch && g.token == Recovery(hash)
  }

  // The rows' unused codes are the issued ones that nobody was granted.
  ghost predicate CodesAreIssued(s: System, issued: seq<string>) {
    forall hash :: Unused(s.factor.codes, hash) <==> hash in issued && !Taken(s, hash)
  }

  lemma FreshAreUnused(hashes: seq<string>, hash: string)
    ensures Unused(Fresh(hashes), hash) <==> hash in hashes
  {
    if hash in hashes {
      var i :| 0 <= i < |hashes| && hashes[i] == hash;
      assert Fresh(hashes)[i] == Code(hash, false);
    }
  }

  lemma EnrollIssues(crypto: Crypto, s: System, e: Event, issued: seq<string>)
    requires e.Enroll? && CodesOk(s) && CodesAreIssued(s, issued)
    ensures CodesAreIssued(Next(crypto, s, e), IssuedNext(s, e, issued))
  {
    var t := Next(crypto, s, e);
    if !On(s.factor) {
      forall hash ensures Unused(t.factor.codes, hash) <==> hash in e.hashes && !Taken(t, hash) {
        FreshAreUnused(e.hashes, hash);
      }
    }
  }

  lemma GrantTakes(s: System, id: nat, ask: Ask, f: Factor, token: Token, issued: seq<string>)
    requires CodesAreIssued(s, issued)
    requires f.codes == if token.Recovery? then Spend(s.factor.codes, token.hash) else s.factor.codes
    ensures CodesAreIssued(Granted(s, id, ask, f, token), issued)
  {
    hide Unused, Spend;
    var t, g := Granted(s, id, ask, f, token), Grant(id, s.epoch, token);
    if token.Recovery? { SpendIsExact(s.factor.codes, token.hash); }
    assert g in t.grants;
    forall hash ensures Taken(t, hash) <==> Taken(s, hash) || token == Recovery(hash) {
      if Taken(s, hash) {
        var h :| h in s.grants && h.epoch == s.epoch && h.token == Recovery(hash);
        assert h in t.grants;
      }
    }
  }

  lemma IssuedStep(crypto: Crypto, s: System, e: Event, issued: seq<string>)
    requires Enabled(s, e) && CodesOk(s) && CodesAreIssued(s, issued)
    ensures CodesAreIssued(Next(crypto, s, e), IssuedNext(s, e, issued))
  {
    hide TrimSpace, MatchStep, Normalized, CodesAreIssued, CodesOk, Unused, Spend;
    if e.Enroll? {
      EnrollIssues(crypto, s, e, issued);
    } else {
      var t := Next(crypto, s, e);
      if e.Advance? && t.grants != s.grants {
        var g := t.grants[|t.grants| - 1];
        GrantTakes(s, e.id, t.procs[e.id].ask, t.factor, g.token, issued);
      } else if e.Advance? && s.procs[e.id] == Passed(Disable) {
        NoCodesNoneIssued(t);
      } else {
        SameCodesIssued(s, t, issued);
      }
    }
  }

  lemma NoCodesNoneIssued(t: System)
    requires t.factor.codes == []
    ensures CodesAreIssued(t, [])
  {
  }

  lemma SameCodesIssued(s: System, t: System, issued: seq<string>)
    requires CodesAreIssued(s, issued) && t.factor == s.factor && t.epoch == s.epoch && t.grants == s.grants
    ensures CodesAreIssued(t, issued)
  {
  }

  lemma {:induction false} IssuedRun(crypto: Crypto, s: System, es: seq<Event>, issued: seq<string>)
    requires Possible(crypto, s, es) && Good(s) && CodesAreIssued(s, issued)
    ensures CodesAreIssued(Run(crypto, s, es), Issued(crypto, s, es, issued))
    decreases |es|
  {
    hide StepsOk, CodesOk, DeletionsOk, CodesAreIssued, Next, Enabled, IssuedNext;
    if es != [] {
      NextKeeps(crypto, s, es[0]);
      IssuedStep(crypto, s, es[0], issued);
      IssuedRun(crypto, Next(crypto, s, es[0]), es[1..], IssuedNext(s, es[0], issued));
    }
  }

  /** Over all interleavings a request that has come to its write with a hash is granted if and only if the
      hash was issued in the present enrolment, the factor was not deleted since, and no request was granted
      it in this enrolment: an unused code of the enrolment is never refused. */
  lemma CodeAcceptedIff(crypto: Crypto, es: seq<Event>, id: nat, now: int)
    requires Possible(crypto, START, es) && id in Run(crypto, START, es).procs
    requires Run(crypto, START, es).procs[id].HasHash?
    ensures var s := Run(crypto, START, es);
            var hash, t := s.procs[id].hash, Next(crypto, s, Advance(id, now));
            && (t.procs[id] == Passed(s.procs[id].ask) <==>
                  hash in Issued(crypto, START, es, []) && !Taken(s, hash))
            && (t.procs[id].Passed? ==> t.grants == s.grants + [Grant(id, s.epoch, Recovery(hash))])
            && (!t.procs[id].Passed? ==> t.procs[id].Done? && t.factor == s.factor && t.grants == s.grants)
  {
    var s := Run(crypto, START, es);
    IssuedRun(crypto, START, es, []);
    hide TrimSpace, MatchStep, Normalized, Unused, Run, Possible;
    assert Unused(s.factor.codes, s.procs[id].hash) <==>
           s.procs[id].hash in Issued(crypto, START, es, []) && !Taken(s, s.procs[id].hash);
  }

  // Newer than all these.
  ghost predicate Newer(accepted: seq<Token>, step: int) {
    forall a | a in accepted :: a.Step? && a.step < step
  }

  lemma LastIsNewest(accepted: seq<Token>, step: int)
    requires Rising(accepted) && accepted != []
    ensures Newer(accepted, step) <==> accepted[|accepted| - 1].step < step
  {
    assert accepted[|accepted| - 1] in accepted;
    forall i | 0 <= i < |accepted| ensures accepted[i].step <= accepted[|accepted| - 1].step { }
  }

  lemma StepWriteIff(s: System, ask: Ask, step: int)
    requires StepsOk(s)
    ensures var accepted := Accepted(s.grants, s.epoch);
            (if ask.Confirm? then ConfirmTotp(s.factor, step) else MarkStepUsed(s.factor, step)).1 <==>
            s.factor.secret.Some? && if ask.Confirm? then accepted == [] else accepted != [] && Newer(accepted, step)
    ensures var (f, ok) := if ask.Confirm? then ConfirmTotp(s.factor, step) else MarkStepUsed(s.factor, step);
            !ok ==> f == s.factor
  {
    var accepted := Accepted(s.grants, s.epoch);
    assert Rising(accepted);
    hide Accepted, Rising, Newer, Near;
    if accepted != [] { LastIsNewest(accepted, step); }
  }

  /** And one that has come to its write with a step: a Login or Disable request is granted if and only if the
      factor is on and the step is newer than every step accepted in this enrolment, a Confirm request if and
      only if there is a secret and no step was accepted yet. */
  lemma StepAcceptedIff(crypto: Crypto, es: seq<Event>, id: nat, now: int)
    requires Possible(crypto, START, es) && id in Run(crypto, START, es).procs
    requires Run(crypto, START, es).procs[id].HasStep?
    ensures var s := Run(crypto, START, es);
            var p, t := s.procs[id], Next(crypto, s, Advance(id, now));
            var accepted := Accepted(s.grants, s.epoch);
            && (t.procs[id] == Passed(p.ask) <==>
                  s.factor.secret.Some? &&
                  if p.ask.Confirm? then accepted == []
                  else accepted != [] && Newer(accepted, p.step))
            && (t.procs[id].Passed? ==> t.grants == s.grants + [Grant(id, s.epoch, Step(p.step, p.clock))])
            && (!t.procs[id].Passed? ==> t.procs[id].Done? && t.factor == s.factor && t.grants == s.grants)
  {
    RunKeeps(crypto, START, es);
    var s := Run(crypto, START, es);
    hide Run, Possible;
    StepWriteIff(s, s.procs[id].ask, s.procs[id].step);
    hide TrimSpace, MatchStep, Normalized, Accepted, ConfirmTotp, MarkStepUsed, StepsOk;
  }

  // ---------------------------------------------------------------------------
  // Whose code an accepted step is
  // ---------------------------------------------------------------------------

  predicate CodeOf(crypto: Crypto, sealed: string, step: int, code: string) {
    var k := crypto.unseal(sealed);
    k.Some? && crypto.generate(k.value, step) == Some(TrimSpace(code))
  }

  // A request that matched a step matched it on the secret it read.
  ghost predicate MatchedOnRead(crypto: Crypto, s: System) {
    && (forall id | id in s.procs && s.procs[id].HasSecret? ::
          crypto.unseal(s.procs[id].sealed) == Some(s.procs[id].secret))
    && (forall id | id in s.procs && s.procs[id].HasStep? ::
          CodeOf(crypto, s.procs[id].sealed, s.procs[id].step, s.procs[id].code))
  }

  lemma MatchCodeMatches(crypto: Crypto, s: System, id: nat, ask: Ask, code: string, secret: string,
                         sealed: string, now: int)
    requires MatchedOnRead(crypto, s) && crypto.unseal(sealed) == Some(secret)
    ensures MatchedOnRead(crypto, MatchCode(crypto, s, id, ask, code, secret, sealed, now))
  {
    hide TrimSpace, MatchStep;
    MatchIsWithinOneStep(crypto, if ask.Confirm? then code else TrimSpace(code), secret, now);
  }

  lemma NextMatchedOnRead(crypto: Crypto, s: System, e: Event)
    requires Enabled(s, e) && MatchedOnRead(crypto, s)
    ensures MatchedOnRead(crypto, Next(crypto, s, e))
  {
    hide CodeOf, TrimSpace, MatchCode;
    if e.Advance? && s.procs[e.id].HasSecret? {
      var p := s.procs[e.id];
      MatchCodeMatches(crypto, s, e.id, p.ask, p.code, p.secret, p.sealed, e.now);
    }
  }

  lemma {:induction false} RunMatchedOnRead(crypto: Crypto, s: System, es: seq<Event>)
    requires Possible(crypto, s, es) && MatchedOnRead(crypto, s)
    ensures MatchedOnRead(crypto, Run(crypto, s, es))
    decreases |es|
  {
    hide Next, Enabled, MatchedOnRead;
    if es != [] {
      NextMatchedOnRead(crypto, s, es[0]);
      RunMatchedOnRead(crypto, Next(crypto, s, es[0]), es[1..]);
    }
  }

  // Request id is on its way from reading this text to writing.
  predicate Reading(s: System, id: nat, sealed: string) {
    id in s.procs && ((s.procs[id].HasSecret? || s.procs[id].HasStep?) ==> s.procs[id].sealed == sealed)
    && !s.procs[id].Arrived? && !s.procs[id].Checked?
  }

  // Until another enrolment starts this text is the only one that can be in force, and afterwards it is not.
  predicate InForceSince(s: System, epoch: nat, sealed: string) {
    && s.epoch >= epoch
    && (s.factor.secret.Some? ==> (s.factor.secret.value.sealed == sealed <==> s.epoch == epoch))
  }

  lemma ReadingNext(crypto: Crypto, s: System, e: Event, id: nat, sealed: string)
    requires Enabled(s, e) && Reading(s, id, sealed)
    ensures Reading(Next(crypto, s, e), id, sealed)
  {
    hide TrimSpace, MatchStep, Normalized, StartEnrollment, ConfirmTotp, MarkStepUsed, UseCode;
  }

  lemma InForceNext(crypto: Crypto, s: System, e: Event, epoch: nat, sealed: string)
    requires Enabled(s, e) && InForceSince(s, epoch, sealed) && (e.Enroll? ==> e.sealed != sealed)
    ensures InForceSince(Next(crypto, s, e), epoch, sealed)
  {
    hide TrimSpace, MatchStep, Normalized, Unused, Spend;
  }

  lemma {:induction false} ReadingOn(crypto: Crypto, s: System, es: seq<Event>, id: nat, sealed: string, epoch: nat)
    requires Possible(crypto, s, es) && Reading(s, id, sealed) && InForceSince(s, epoch, sealed)
    requires forall e | e in es && e.Enroll? :: e.sealed != sealed
    ensures Reading(Run(crypto, s, es), id, sealed) && InForceSince(Run(crypto, s, es), epoch, sealed)
    decreases |es|
  {
    if es != [] {
      assert es[0] in es && forall e | e in es[1..] :: e in es;
      hide Next, Enabled, Reading, InForceSince;
      ReadingNext(crypto, s, es[0], id, sealed);
      InForceNext(crypto, s, es[0], epoch, sealed);
      ReadingOn(crypto, Next(crypto, s, es[0]), es[1..], id, sealed, epoch);
    }
  }

  /** A step accepted from a request is a code of the secret the request read; and that secret is the one in
      force when the step is written if and only if no enrolment started between the read and the write
      (sealed texts being fresh). */
  lemma AcceptedCodeIsInForceIffSameEnrolment(crypto: Crypto, before: seq<Event>, id: nat, now: int,
                                              between: seq<Event>)
    requires Possible(crypto, START, before) && Enabled(Run(crypto, START, before), Advance(id, now))
    requires var s := Next(crypto, Run(crypto, START, before), Advance(id, now));
             && s.procs[id].HasSecret? && s.factor == Run(crypto, START, before).factor && s.factor.secret.Some?
             && !Run(crypto, START, before).procs[id].HasSecret?
             && Possible(crypto, s, between)
             && (forall e | e in between && e.Enroll? :: e.sealed != s.factor.secret.value.sealed)
             && var t := Run(crypto, s, between);
             id in t.procs && t.procs[id].HasStep? && t.factor.secret.Some?
    ensures var s := Next(crypto, Run(crypto, START, before), Advance(id, now));
            var t := Run(crypto, s, between);
            var p := t.procs[id];
            && CodeOf(crypto, s.factor.secret.value.sealed, p.step, p.code)
            && (t.factor.secret.value.sealed == s.factor.secret.value.sealed <==> t.epoch == s.epoch)
            && (t.epoch == s.epoch ==> CodeOf(crypto, t.factor.secret.value.sealed, p.step, p.code))
  {
    hide TrimSpace, MatchStep, Normalized, CodeOf;
    var r := Run(crypto, START, before);
    var s := Next(crypto, r, Advance(id, now));
    var sealed := s.factor.secret.value.sealed;
    RunMatchedOnRead(crypto, START, before);
    NextMatchedOnRead(crypto, r, Advance(id, now));
    RunMatchedOnRead(crypto, s, between);
    hide Next, Enabled;
    ReadingOn(crypto, s, between, id, sealed, s.epoch);
  }

  // ---------------------------------------------------------------------------
  // Runs from an empty account
  // ---------------------------------------------------------------------------

  ghost predicate Leads(crypto: Crypto, s: System, es: seq<Event>, t: System) {
    Possible(crypto, s, es) && Run(crypto, s, es) == t
  }

  lemma OneStep(crypto: Crypto, s: System, e: Event)
    requires Enabled(s, e)
    ensures Leads(crypto, s, [e], Next(crypto, s, e))
  {
    hide Next;
    var n := Next(crypto, s, e);
    assert [e][1..] == [] && Leads(crypto, n, [], n);
  }

  lemma {:induction false} GoesOn(crypto: Crypto, s: System, es: seq<Event>, t: System, more: seq<Event>, u: System)
    requires Leads(crypto, s, es, t) && Leads(crypto, t, more, u)
    ensures Leads(crypto, s, es + more, u)
    decreases |es|
  {
    hide Next, Enabled;
    if es == [] {
      assert es + more == more;
    } else {
      assert (es + more)[1..] == es[1..] + more;
      GoesOn(crypto, Next(crypto, s, es[0]), es[1..], t, more, u);
    }
  }

  lemma StepOn(crypto: Crypto, s: System, es: seq<Event>, t: System, e: Event)
    requires Leads(crypto, s, es, t) && Enabled(t, e)
    ensures Leads(crypto, s, es + [e], Next(crypto, t, e))
  {
    hide Next, Leads;
    OneStep(crypto, t, e);
    GoesOn(crypto, s, es, t, [e], Next(crypto, t, e));
  }

  ghost predicate Matches(crypto: Crypto, sealed: string, code: string, now: int, step: int) {
    crypto.unseal(sealed).Some? && MatchStep(crypto, code, crypto.unseal(sealed).value, now) == Some(step)
  }

  function ConfirmEvents(id: nat, code: string, now: int): seq<Event> {
    [Arrive(id, Confirm, code)] + [Advance(id, now)] + [Advance(id, now)] + [Advance(id, now)]
  }

  function DisableEvents(id: nat, code: string, now: int): seq<Event> {
    [Arrive(id, Disable, code)] + [Advance(id, now)] + [Advance(id, now)] + [Advance(id, now)] + [Advance(id, now)]
  }

  function LoginEvents(id: nat, code: string, now: int): seq<Event> {
    [Arrive(id, Login, code)] + [Advance(id, now)] + [Advance(id, now)] + [Advance(id, now)] + [Advance(id, now)]
  }

  function EventsOf(id: nat, ask: Ask, code: string, now: int): seq<Event> {
    match ask
    case Confirm => ConfirmEvents(id, code, now)
    case Login => LoginEvents(id, code, now)
    case Disable => DisableEvents(id, code, now)
  }

  /** What the handler would be granted if nothing else happened: Confirm a step of a pending secret, the
      others a step newer than the last, or, if the code is no step's, a recovery code still unused. */
  function TokenFor(crypto: Crypto, f: Factor, ask: Ask, code: string, now: int): Option<Token> {
    var trimmed := if ask.Confirm? then code else TrimSpace(code);
    if f.secret.None? || f.secret.value.confirmed == ask.Confirm? || (!ask.Confirm? && trimmed == "") then None
    else
      match crypto.unseal(f.secret.value.sealed)
      case None => None
      case Some(key) =>
        match MatchStep(crypto, trimmed, key, now)
        case Some(step) =>
          if ask.Confirm? || f.secret.value.lastUsed.None? || f.secret.value.lastUsed.value < step then
            Some(Step(step, now))
          else None
        case None =>
          var hash := crypto.digest(Normalized(trimmed));
          if !ask.Confirm? && Code(hash, false) in f.codes then Some(Recovery(hash)) else None
  }

  ghost predicate GrantedAlone(s: System, id: nat, ask: Ask, token: Token, t: System) {
    && t.procs == s.procs[id := Passed(ask)] && t.epoch == s.epoch && t.deletions == s.deletions
    && t.grants == s.grants + [Grant(id, s.epoch, token)] && s.factor.secret.Some?
    && t.factor == match token
                   case Step(step, _) =>
                     Factor(Some(Secret(s.factor.secret.value.sealed, true, Some(step))), s.factor.codes)
                   case Recovery(hash) => Factor(s.factor.secret, Spend(s.factor.codes, hash))
  }

  lemma GotoTwice(s: System, id: nat, p: Proc, q: Proc)
    ensures Goto(Goto(s, id, p), id, q) == Goto(s, id, q)
  {
    assert s.procs[id := p][id := q] == s.procs[id := q];
  }

  // Where a request that has arrived is after two steps, or one for Confirm: at its secret or finished.
  lemma ReadsAlone(crypto: Crypto, s: System, id: nat, ask: Ask, code: string, now: int)
    requires id !in s.procs
    ensures var f := s.factor;
            var opens := f.secret.Some? && f.secret.value.confirmed == !ask.Confirm?
                         && (ask.Confirm? || TrimSpace(code) != "");
            var key := if opens then crypto.unseal(f.secret.value.sealed) else None;
            var p := if key.Some? then HasSecret(ask, code, key.value, f.secret.value.sealed) else Done;
            var es := [Arrive(id, ask, code)] + [Advance(id, now)] + (if ask.Confirm? then [] else [Advance(id, now)]);
            Leads(crypto, s, es, Goto(s, id, p))
  {
    hide TrimSpace, MatchStep, Normalized, Leads;
    var go := Advance(id, now);
    var s1 := Goto(s, id, Arrived(ask, code));
    OneStep(crypto, s, Arrive(id, ask, code));
    StepOn(crypto, s, [Arrive(id, ask, code)], s1, go);
    var s2 := Next(crypto, s1, go);
    GotoTwice(s, id, Arrived(ask, code), s2.procs[id]);
    var es := [Arrive(id, ask, code)] + [go];
    if ask.Confirm? {
      assert es + [] == es;
    } else {
      StepOn(crypto, s, es, s2, go);
      GotoTwice(s, id, s2.procs[id], Next(crypto, s2, go).procs[id]);
    }
  }

  lemma MatchesAlone(crypto: Crypto, s: System, id: nat, ask: Ask, code: string, key: string, sealed: string, now: int)
    ensures var trimmed := if ask.Confirm? then code else TrimSpace(code);
            var m := MatchStep(crypto, trimmed, key, now);
            var p := if m.Some? then HasStep(ask, m.value, now, trimmed, sealed)
                     else if ask.Confirm? then Done else HasHash(ask, crypto.digest(Normalized(trimmed)));
            Next(crypto, Goto(s, id, HasSecret(ask, code, key, sealed)), Advance(id, now)) == Goto(s, id, p)
  {
    hide TrimSpace, MatchStep, Normalized;
    var t := Goto(s, id, HasSecret(ask, code, key, sealed));
    GotoTwice(s, id, t.procs[id], Next(crypto, t, Advance(id, now)).procs[id]);
  }

  // The write of a request that is at its step or hash.
  lemma WritesAlone(crypto: Crypto, s: System, id: nat, p: Proc, now: int)
    requires p.HasStep? || p.HasHash?
    ensures var f, t := s.factor, Next(crypto, Goto(s, id, p), Advance(id, now));
            var token := if p.HasStep? then Step(p.step, p.clock) else Recovery(p.hash);
            var ok := if p.HasHash? then Code(p.hash, false) in f.codes
                      else f.secret.Some? && f.secret.value.confirmed == !p.ask.Confirm?
                           && (p.ask.Confirm? || f.secret.value.lastUsed.None?
                               || f.secret.value.lastUsed.value < p.step);
            if ok && s.factor.secret.Some? then GrantedAlone(s, id, p.ask, token, t)
            else ok || t == Goto(s, id, Done)
  {
    hide Spend, TrimSpace, MatchStep, Normalized;
    GotoTwice(s, id, p, Done);
    GotoTwice(s, id, p, Passed(p.ask));
  }

  lemma DoneStays(crypto: Crypto, s: System, id: nat, now: int)
    ensures Next(crypto, Goto(s, id, Done), Advance(id, now)) == Goto(s, id, Done)
  {
  }

  /** A request that runs alone is granted exactly the token its handler reads like granting; the steps it is
      split into add and lose nothing. */
  lemma AloneIsHandler(crypto: Crypto, s: System, id: nat, ask: Ask, code: string, now: int)
    requires id !in s.procs
    ensures Possible(crypto, s, EventsOf(id, ask, code, now))
    ensures var t, token := Run(crypto, s, EventsOf(id, ask, code, now)), TokenFor(crypto, s.factor, ask, code, now);
            if token.Some? then GrantedAlone(s, id, ask, token.value, t) else t == Goto(s, id, Done)
  {
    hide TrimSpace, MatchStep, Normalized, Leads, Next, GrantedAlone, Unused;
    var go, f := Advance(id, now), s.factor;
    var es := [Arrive(id, ask, code)] + [go] + (if ask.Confirm? then [] else [go]);
    ReadsAlone(crypto, s, id, ask, code, now);
    assert [Arrive(id, ask, code)] + [go] + [] == [Arrive(id, ask, code)] + [go];
    assert es + [go] + [go] == EventsOf(id, ask, code, now);
    var opens := f.secret.Some? && f.secret.value.confirmed == !ask.Confirm? && (ask.Confirm? || TrimSpace(code) != "");
    var key := if opens then crypto.unseal(f.secret.value.sealed) else None;
    if key.None? {
      DoneStays(crypto, s, id, now);
      StepOn(crypto, s, es, Goto(s, id, Done), go);
      StepOn(crypto, s, es + [go], Goto(s, id, Done), go);
      LeadsHere(crypto, s, EventsOf(id, ask, code, now), Goto(s, id, Done));
    } else {
      var s1 := Goto(s, id, HasSecret(ask, code, key.value, f.secret.value.sealed));
      MatchesAlone(crypto, s, id, ask, code, key.value, f.secret.value.sealed, now);
      StepOn(crypto, s, es, s1, go);
      var s2 := Next(crypto, s1, go);
      var p := s2.procs[id];
      StepOn(crypto, s, es + [go], s2, go);
      LeadsHere(crypto, s, EventsOf(id, ask, code, now), Next(crypto, s2, go));
      if p.Done? {
        DoneStays(crypto, s, id, now);
      } else {
        WritesAlone(crypto, s, id, p, now);
      }
    }
  }

  lemma DoneStep(crypto: Crypto, s: System, e: Event, id: nat)
    requires Enabled(s, e) && id in s.procs && s.procs[id].Done?
    ensures var t := Next(crypto, s, e);
            && id in t.procs && t.procs[id].Done?
            && forall g | g in t.grants && g.request == id :: g in s.grants
  {
    hide TrimSpace, MatchStep, Normalized;
  }

  lemma {:induction false} DoneForGood(crypto: Crypto, s: System, es: seq<Event>, id: nat)
    requires Possible(crypto, s, es) && id in s.procs && s.procs[id].Done?
    ensures var t := Run(crypto, s, es);
            && id in t.procs && t.procs[id].Done?
            && forall g | g in t.grants && g.request == id :: g in s.grants
    decreases |es|
  {
    hide Next, Enabled;
    if es != [] {
      DoneStep(crypto, s, es[0], id);
      DoneForGood(crypto, Next(crypto, s, es[0]), es[1..], id);
    }
  }

  /** The first look decides: a Login or Disable request that finds the factor off then, or a Confirm request that
      finds no pending secret, is never granted anything, whatever is enrolled or confirmed afterwards. */
  lemma FirstLookRefuses(crypto: Crypto, s: System, id: nat, now: int, es: seq<Event>)
    requires id in s.procs && s.procs[id].Arrived?
    requires if s.procs[id].ask.Confirm? then s.factor.secret.None? || On(s.factor) else !On(s.factor)
    requires Possible(crypto, Next(crypto, s, Advance(id, now)), es)
    ensures var t := Run(crypto, Next(crypto, s, Advance(id, now)), es);
            && id in t.procs && t.procs[id].Done? && forall g | g in t.grants && g.request == id :: g in s.grants
  {
    var n := Next(crypto, s, Advance(id, now));
    assert n.procs[id].Done? && n.grants == s.grants;
    hide Next, Possible, Run;
    DoneForGood(crypto, n, es, id);
  }

  // A Confirm request that is not interrupted turns a pending secret on.
  lemma ConfirmPasses(crypto: Crypto, s: System, id: nat, code: string, now: int, sealed: string, step: int)
    requires id !in s.procs && s.factor.secret == Some(Secret(sealed, false, None))
    requires Matches(crypto, sealed, code, now, step)
    ensures Leads(crypto, s, ConfirmEvents(id, code, now),
                  System(Factor(Some(Secret(sealed, true, Some(step))), s.factor.codes), s.procs[id := Passed(Confirm)],
                         s.epoch, s.grants + [Grant(id, s.epoch, Step(step, now))], s.deletions))
  {
    hide TrimSpace, MatchStep, Normalized, Run, Possible;
    AloneIsHandler(crypto, s, id, Confirm, code, now);
  }

  // A Disable request that is not interrupted is granted its step; it has deleted nothing yet.
  lemma DisablePasses(crypto: Crypto, s: System, id: nat, code: string, now: int, sealed: string, last: int, step: int)
    requires id !in s.procs && s.factor.secret == Some(Secret(sealed, true, Some(last))) && last < step
    requires TrimSpace(code) != "" && Matches(crypto, sealed, TrimSpace(code), now, step)
    ensures Leads(crypto, s, DisableEvents(id, code, now),
                  System(Factor(Some(Secret(sealed, true, Some(step))), s.factor.codes), s.procs[id := Passed(Disable)],
                         s.epoch, s.grants + [Grant(id, s.epoch, Step(step, now))], s.deletions))
  {
    hide TrimSpace, MatchStep, Normalized, Run, Possible;
    AloneIsHandler(crypto, s, id, Disable, code, now);
  }

  /** And enrolling again in between can indeed be confirmed by a code of the secret it replaced. */
  lemma StaleCodeCanConfirm(crypto: Crypto, a: string, b: string, hashes: seq<string>, code: string, now: int)
    requires crypto.unseal(a).Some? && MatchStep(crypto, code, crypto.unseal(a).value, now).Some?
    ensures var es := [Enroll(a, hashes), Arrive(0, Confirm, code), Advance(0, now), Advance(0, now), Enroll(b, hashes),
                       Advance(0, now)];
            && Possible(crypto, START, es)
            && var s := Run(crypto, START, es); On(s.factor) && s.factor.secret.value.sealed == b
  {
    hide TrimSpace, MatchStep, Normalized, Leads;
    var go, arrive := Advance(0, now), Arrive(0, Confirm, code);
    var s1 := Next(crypto, START, Enroll(a, hashes));
    var s2 := Next(crypto, s1, arrive);
    var s3 := Next(crypto, s2, go);
    assert s3.procs[0] == HasSecret(Confirm, code, crypto.unseal(a).value, a);
    var s4 := Next(crypto, s3, go);
    var s5 := Next(crypto, s4, Enroll(b, hashes));
    assert s5.procs[0].HasStep? && s5.factor.secret == Some(Secret(b, false, None));
    var t := Next(crypto, s5, go);
    assert On(t.factor) && t.factor.secret.value.sealed == b;
    assert Enabled(s3, go) && Enabled(s5, go);
    hide Next;
    OneStep(crypto, START, Enroll(a, hashes));
    StepOn(crypto, START, [Enroll(a, hashes)], s1, arrive);
    StepOn(crypto, START, [Enroll(a, hashes)] + [arrive], s2, go);
    StepOn(crypto, START, [Enroll(a, hashes)] + [arrive] + [go], s3, go);
    StepOn(crypto, START, [Enroll(a, hashes)] + [arrive] + [go] + [go], s4, Enroll(b, hashes));
    StepOn(crypto, START, [Enroll(a, hashes)] + [arrive] + [go] + [go] + [Enroll(b, hashes)], s5, go);
    LeadsHere(crypto, START, [Enroll(a, hashes)] + [arrive] + [go] + [go] + [Enroll(b, hashes)] + [go], t);
    assert [Enroll(a, hashes)] + [arrive] + [go] + [go] + [Enroll(b, hashes)] + [go]
        == [Enroll(a, hashes), arrive, go, go, Enroll(b, hashes), go];
  }

  // ---------------------------------------------------------------------------
  // Which enrolment a Disable ends
  // ---------------------------------------------------------------------------

  // Without a secret there are no recovery codes either.
  predicate CodesNeedSecret(f: Factor) {
    f.secret.None? ==> f.codes == []
  }

  lemma {:induction false} RunCodesNeedSecret(crypto: Crypto, s: System, es: seq<Event>)
    requires Possible(crypto, s, es) && CodesNeedSecret(s.factor)
    ensures CodesNeedSecret(Run(crypto, s, es).factor)
    decreases |es|
  {
    hide TrimSpace, MatchStep, Normalized;
    if es != [] {
      assert CodesNeedSecret(Next(crypto, s, es[0]).factor);
      RunCodesNeedSecret(crypto, Next(crypto, s, es[0]), es[1..]);
    }
  }

  // The factor as it is belongs to this enrolment.
  predicate Holds(s: System, epoch: nat) {
    s.factor.secret.Some? && s.epoch == epoch
  }

  // One step keeps the enrolment, starts the next one, or deletes the factor.
  lemma EnrolmentStep(crypto: Crypto, s: System, e: Event)
    requires Enabled(s, e) && s.factor.secret.Some?
    ensures var n := Next(crypto, s, e);
            if n.epoch == s.epoch && n.deletions == s.deletions then n.factor.secret.Some?
            else Over(n, s.epoch) && (n.epoch > s.epoch || |n.deletions| > |s.deletions|)
  {
    hide TrimSpace, MatchStep, Normalized;
  }

  /** An enrolment, confirmed or not, is over if and only if a later one was started or the factor deleted. */
  lemma {:induction false} EnrolmentLasts(crypto: Crypto, s: System, es: seq<Event>)
    requires Possible(crypto, s, es) && s.factor.secret.Some?
    ensures var t := Run(crypto, s, es);
            && (Holds(t, s.epoch) <==> t.epoch == s.epoch && t.deletions == s.deletions)
            && (!Holds(t, s.epoch) ==> Over(t, s.epoch))
    decreases |es|
  {
    hide Next, Enabled;
    if es != [] {
      var n := Next(crypto, s, es[0]);
      EnrolmentStep(crypto, s, es[0]);
      DeletionsGrow(crypto, n, es[1..]);
      if n.epoch == s.epoch && n.deletions == s.deletions {
        EnrolmentLasts(crypto, n, es[1..]);
      } else {
        OverStaysOver(crypto, n, es[1..], s.epoch);
      }
    }
  }

  // What the step that grants a Disable request its token leaves.
  lemma DisableGrant(crypto: Crypto, r: System, id: nat, now: int)
    requires CodesNeedSecret(r.factor) && Enabled(r, Advance(id, now)) && !r.procs[id].Passed?
    requires Next(crypto, r, Advance(id, now)).procs[id] == Passed(Disable)
    ensures var s := Next(crypto, r, Advance(id, now));
            && s.grants != [] && s.factor.secret.Some? && s.epoch == r.epoch && s.deletions == r.deletions
            && var g := s.grants[|s.grants| - 1];
               s.grants == r.grants + [g] && g.request == id && g.epoch == s.epoch
               && (g.token.Step? ==> On(s.factor))
  {
    hide TrimSpace, MatchStep, Normalized, Spend;
    var g := Next(crypto, r, Advance(id, now)).grants;
    assert r.procs[id].HasStep? || r.procs[id].HasHash?;
  }

  /** Exactly when a Disable ends the enrolment whose code it verified.  Between the grant of its token and
      its deletion anything may happen.  The factor it deletes is of the enrolment the token was granted in
      if and only if since the grant no other request deleted the factor and no enrolment started; when the
      factor was on at the grant, as it always is for a code of the secret, if and only if no other request
      deleted the factor.  Otherwise it ends a later enrolment or nothing at all. */
  lemma DisableEndsItsEnrolmentIff(crypto: Crypto, before: seq<Event>, id: nat, now: int, between: seq<Event>,
                                   later: int)
    requires Possible(crypto, START, before) && Enabled(Run(crypto, START, before), Advance(id, now))
    requires !Run(crypto, START, before).procs[id].Passed?
    requires var s := Next(crypto, Run(crypto, START, before), Advance(id, now));
             && s.procs[id] == Passed(Disable) && Possible(crypto, s, between)
             && id in Run(crypto, s, between).procs && Run(crypto, s, between).procs[id] == Passed(Disable)
    ensures var s := Next(crypto, Run(crypto, START, before), Advance(id, now));
            var t := Run(crypto, s, between);
            var u := Next(crypto, t, Advance(id, later));
            && u.factor == DeleteTotp() && u.deletions == t.deletions + [id]
            && s.grants != []
            && var g := s.grants[|s.grants| - 1];
            && s.grants == Run(crypto, START, before).grants + [g] && g.request == id && g.epoch == s.epoch
            && (g.token.Step? ==> On(s.factor))
            && (Holds(t, g.epoch) <==> t.deletions == s.deletions && t.epoch == s.epoch)
            && (On(s.factor) ==> (Holds(t, g.epoch) <==> t.deletions == s.deletions))
            && (Holds(t, g.epoch) && On(s.factor) ==>
                  On(t.factor) && t.factor.secret.value.sealed == s.factor.secret.value.sealed)
            && (!Holds(t, g.epoch) ==> t.factor.secret.None? || t.epoch > g.epoch)
  {
    var r := Run(crypto, START, before);
    var s := Next(crypto, r, Advance(id, now));
    var t := Run(crypto, s, between);
    RunCodesNeedSecret(crypto, START, before);
    DisableGrant(crypto, r, id, now);
    assert Next(crypto, t, Advance(id, later)) == Conclude(t, id, Disable);
    hide Next, Run, Possible, Enabled;
    EnrolmentLasts(crypto, s, between);
    if On(s.factor) {
      ConfirmedSecretLasts(crypto, s, between);
    }
  }

  /** And it can end a later one: requests 1 and 2 are granted steps of the first secret, request 2 deletes
      the factor, another secret is enrolled and confirmed, and request 1 then deletes that one. */
  lemma DisableCanEndLaterEnrolment(crypto: Crypto, a: string, b: string, hashes: seq<string>, code: int -> string,
                                    now: int -> int, step: int -> int)
    requires Matches(crypto, a, code(0), now(0), step(0)) && Matches(crypto, b, code(3), now(3), step(3))
    requires forall i | 1 <= i <= 2 :: TrimSpace(code(i)) != "" && step(i - 1) < step(i)
                                       && Matches(crypto, a, TrimSpace(code(i)), now(i), step(i))
    ensures var es := [Enroll(a, hashes)] + ConfirmEvents(0, code(0), now(0)) + DisableEvents(1, code(1), now(1))
                      + DisableEvents(2, code(2), now(2)) + [Advance(2, now(2))] + [Enroll(b, hashes)]
                      + ConfirmEvents(3, code(3), now(3));
            && Possible(crypto, START, es)
            && var t := Run(crypto, START, es);
            && Grant(1, 1, Step(step(1), now(1))) in t.grants && t.epoch == 2
            && On(t.factor) && t.factor.secret.value.sealed == b
            && Enabled(t, Advance(1, now(3))) && Next(crypto, t, Advance(1, now(3))).factor == DeleteTotp()
            && Next(crypto, t, Advance(1, now(3))).deletions == [2, 1]
  {
    hide TrimSpace, Matches, Leads, ConfirmEvents, DisableEvents;
    var s1 := System(Factor(Some(Secret(a, false, None)), Fresh(hashes)), map[], 1, [], []);
    assert s1 == Next(crypto, START, Enroll(a, hashes));
    var e1 := [Enroll(a, hashes)];
    OneStep(crypto, START, Enroll(a, hashes));

    var s2 := System(Factor(Some(Secret(a, true, Some(step(0)))), Fresh(hashes)), map[0 := Passed(Confirm)], 1,
                     [Grant(0, 1, Step(step(0), now(0)))], []);
    ConfirmPasses(crypto, s1, 0, code(0), now(0), a, step(0));
    assert s2.procs == s1.procs[0 := Passed(Confirm)] && s2.grants == s1.grants + s2.grants;
    GoesOn(crypto, START, e1, s1, ConfirmEvents(0, code(0), now(0)), s2);
    var e2 := e1 + ConfirmEvents(0, code(0), now(0));

    var s3 := System(Factor(Some(Secret(a, true, Some(step(1)))), Fresh(hashes)), s2.procs[1 := Passed(Disable)], 1,
                     s2.grants + [Grant(1, 1, Step(step(1), now(1)))], []);
    DisablePasses(crypto, s2, 1, code(1), now(1), a, step(0), step(1));
    GoesOn(crypto, START, e2, s2, DisableEvents(1, code(1), now(1)), s3);
    var e3 := e2 + DisableEvents(1, code(1), now(1));

    var s4 := System(Factor(Some(Secret(a, true, Some(step(2)))), Fresh(hashes)), s3.procs[2 := Passed(Disable)], 1,
                     s3.grants + [Grant(2, 1, Step(step(2), now(2)))], []);
    DisablePasses(crypto, s3, 2, code(2), now(2), a, step(1), step(2));
    GoesOn(crypto, START, e3, s3, DisableEvents(2, code(2), now(2)), s4);
    var e4 := e3 + DisableEvents(2, code(2), now(2));

    var s5 := System(Factor(None, []), s4.procs[2 := Done], 1, s4.grants, [2]);
    assert s5 == Next(crypto, s4, Advance(2, now(2))) by { assert s4.deletions + [2] == [2]; }
    StepOn(crypto, START, e4, s4, Advance(2, now(2)));
    var s6 := System(Factor(Some(Secret(b, false, None)), Fresh(hashes)), s5.procs, 2, s5.grants, [2]);
    StepOn(crypto, START, e4 + [Advance(2, now(2))], s5, Enroll(b, hashes));
    var e6 := e4 + [Advance(2, now(2))] + [Enroll(b, hashes)];

    var t := System(Factor(Some(Secret(b, true, Some(step(3)))), Fresh(hashes)), s6.procs[3 := Passed(Confirm)], 2,
                    s6.grants + [Grant(3, 2, Step(step(3), now(3)))], [2]);
    ConfirmPasses(crypto, s6, 3, code(3), now(3), b, step(3));
    GoesOn(crypto, START, e6, s6, ConfirmEvents(3, code(3), now(3)), t);
    assert Grant(1, 1, Step(step(1), now(1))) == t.grants[1];
    assert t.procs[1] == Passed(Disable);
    LeadsHere(crypto, START, e6 + ConfirmEvents(3, code(3), now(3)), t);
  }

  // A Disable request whose code is no step's gets as far as its hash.
  lemma DisableHashes(crypto: Crypto, s: System, id: nat, code: string, now: int, sealed: string, last: int)
    requires id !in s.procs && s.factor.secret == Some(Secret(sealed, true, Some(last)))
    requires TrimSpace(code) != "" && crypto.unseal(sealed).Some?
    requires MatchStep(crypto, TrimSpace(code), crypto.unseal(sealed).value, now).None?
    ensures Leads(crypto, s, HashEvents(id, code, now),
                  Goto(s, id, HasHash(Disable, crypto.digest(Normalized(TrimSpace(code))))))
  {
    hide TrimSpace, MatchStep, Normalized, Leads;
    var go, key := Advance(id, now), crypto.unseal(sealed).value;
    var s1 := Goto(s, id, Arrived(Disable, code));
    var s2 := Goto(s1, id, Checked(Disable, code));
    var s3 := Goto(s2, id, HasSecret(Disable, code, key, sealed));
    OneStep(crypto, s, Arrive(id, Disable, code));
    StepOn(crypto, s, [Arrive(id, Disable, code)], s1, go);
    StepOn(crypto, s, [Arrive(id, Disable, code)] + [go], s2, go);
    StepOn(crypto, s, [Arrive(id, Disable, code)] + [go] + [go], s3, go);
    var hashed := HasHash(Disable, crypto.digest(Normalized(TrimSpace(code))));
    assert s3.procs[id := hashed] == s.procs[id := hashed];
  }

  function HashEvents(id: nat, code: string, now: int): seq<Event> {
    [Arrive(id, Disable, code)] + [Advance(id, now)] + [Advance(id, now)] + [Advance(id, now)]
  }

  /** The second condition is needed too: a recovery code of the enrolment that followed a deletion is granted
      while that is unconfirmed; a third enrolment replaces it without a deletion, and is deleted. */
  lemma RecoveryGrantCanEndLaterEnrolment(crypto: Crypto, a: string, b: string, c: string, hashes: seq<string>,
                                          code: int -> string, now: int -> int, step: int -> int)
    requires Matches(crypto, a, code(0), now(0), step(0)) && step(0) < step(2)
    requires TrimSpace(code(2)) != "" && Matches(crypto, a, TrimSpace(code(2)), now(2), step(2))
    requires TrimSpace(code(1)) != "" && crypto.digest(Normalized(TrimSpace(code(1)))) in hashes
    requires MatchStep(crypto, TrimSpace(code(1)), crypto.unseal(a).value, now(1)).None?
    ensures var es := [Enroll(a, hashes)] + ConfirmEvents(0, code(0), now(0)) + HashEvents(1, code(1), now(1))
                      + DisableEvents(2, code(2), now(2)) + [Advance(2, now(2))] + [Enroll(b, hashes)]
                      + [Advance(1, now(1))];
            && Possible(crypto, START, es)
            && var s := Run(crypto, START, es);
            && 1 in s.procs && s.procs[1] == Passed(Disable) && s.epoch == 2 && s.factor.secret.Some? && !On(s.factor)
            && var t := Next(crypto, s, Enroll(c, hashes));
            && t.epoch == 3 && t.deletions == s.deletions == [2] && t.factor.secret.Some?
            && Next(crypto, t, Advance(1, now(1))).factor == DeleteTotp()
  {
    hide TrimSpace, Normalized, Leads, ConfirmEvents, DisableEvents, HashEvents;
    assert crypto.unseal(a).Some?;
    hide Matches, MatchStep;
    var hash := crypto.digest(Normalized(TrimSpace(code(1))));
    var e1 := [Enroll(a, hashes)];
    var s1 := System(Factor(Some(Secret(a, false, None)), Fresh(hashes)), map[], 1, [], []);
    OneStep(crypto, START, Enroll(a, hashes));

    var s2 := System(Factor(Some(Secret(a, true, Some(step(0)))), Fresh(hashes)), map[0 := Passed(Confirm)], 1,
                     [Grant(0, 1, Step(step(0), now(0)))], []);
    ConfirmPasses(crypto, s1, 0, code(0), now(0), a, step(0));
    assert s2.procs == s1.procs[0 := Passed(Confirm)] && s2.grants == s1.grants + s2.grants;
    GoesOn(crypto, START, e1, s1, ConfirmEvents(0, code(0), now(0)), s2);
    var e2 := e1 + ConfirmEvents(0, code(0), now(0));

    var s3 := Goto(s2, 1, HasHash(Disable, hash));
    DisableHashes(crypto, s2, 1, code(1), now(1), a, step(0));
    GoesOn(crypto, START, e2, s2, HashEvents(1, code(1), now(1)), s3);
    var e3 := e2 + HashEvents(1, code(1), now(1));

    var s4 := System(Factor(Some(Secret(a, true, Some(step(2)))), Fresh(hashes)), s3.procs[2 := Passed(Disable)], 1,
                     s3.grants + [Grant(2, 1, Step(step(2), now(2)))], []);
    DisablePasses(crypto, s3, 2, code(2), now(2), a, step(0), step(2));
    GoesOn(crypto, START, e3, s3, DisableEvents(2, code(2), now(2)), s4);
    var e4 := e3 + DisableEvents(2, code(2), now(2));

    var s5 := System(Factor(None, []), s4.procs[2 := Done], 1, s4.grants, [2]);
    assert s5 == Next(crypto, s4, Advance(2, now(2))) by { assert s4.deletions + [2] == [2]; }
    StepOn(crypto, START, e4, s4, Advance(2, now(2)));
    var s6 := System(Factor(Some(Secret(b, false, None)), Fresh(hashes)), s5.procs, 2, s5.grants, [2]);
    StepOn(crypto, START, e4 + [Advance(2, now(2))], s5, Enroll(b, hashes));
    var e6 := e4 + [Advance(2, now(2))] + [Enroll(b, hashes)];
    FreshAreUnused(hashes, hash);
    StepOn(crypto, START, e6, s6, Advance(1, now(1)));
    LeadsHere(crypto, START, e6 + [Advance(1, now(1))], Next(crypto, s6, Advance(1, now(1))));
  }

  lemma LeadsHere(crypto: Crypto, s: System, es: seq<Event>, t: System)
    requires Leads(crypto, s, es, t)
    ensures Possible(crypto, s, es) && Run(crypto, s, es) == t
  {
  }

  // ---------------------------------------------------------------------------
  // The tables of all users
  // ---------------------------------------------------------------------------

  class FactorStore {
    var secrets: map<string, Secret>
    var codes: map<string, seq<Code>>

    ghost function FactorOf(user: string): Factor
      reads this
    {
      Factor(if user in secrets then Some(secrets[user]) else None, if user in codes then codes[user] else [])
    }

    constructor ()
      ensures forall user :: FactorOf(user) == DeleteTotp()
    {
      secrets, codes := map[], map[];
    }

    method StartTOTPEnrollment(user: string, sealed: string, hashes: seq<string>) returns (started: bool)
      modifies this
      ensures (FactorOf(user), started) == StartEnrollment(old(FactorOf(user)), sealed, hashes)
      ensures forall other | other != user :: FactorOf(other) == old(FactorOf(other))
    {
      if user in secrets && secrets[user].confirmed {
        return false;
      }
      secrets := secrets[user := Secret(sealed, false, None)];
      var rows: seq<Code> := [];
      for i := 0 to |hashes|
        invariant rows == Fresh(hashes[..i])
      {
        rows := rows + [Code(hashes[i], false)];
        assert hashes[..i + 1] == hashes[..i] + [hashes[i]];
      }
      assert hashes[..|hashes|] == hashes;
      codes := codes[user := rows];
      started := true;
    }

    method ConfirmTOTP(user: string, step: int) returns (done: bool)
      modifies this`secrets
      ensures (FactorOf(user), done) == ConfirmTotp(old(FactorOf(user)), step)
      ensures forall other | other != user :: FactorOf(other) == old(FactorOf(other))
    {
      done := user in secrets && !secrets[user].confirmed;
      if done {
        secrets := secrets[user := secrets[user].(confirmed := true, lastUsed := Some(step))];
      }
    }

    method MarkTOTPStepUsed(user: string, step: int) returns (fresh': bool)
      modifies this`secrets
      ensures (FactorOf(user), fresh') == MarkStepUsed(old(FactorOf(user)), step)
      ensures forall other | other != user :: FactorOf(other) == old(FactorOf(other))
    {
      fresh' := user in secrets && secrets[user].confirmed
                && (secrets[user].lastUsed.None? || secrets[user].lastUsed.value < step);
      if fresh' {
        secrets := secrets[user := secrets[user].(lastUsed := Some(step))];
      }
    }

    method UseRecoveryCode(user: string, hash: string) returns (used: bool)
      modifies this`codes
      ensures (FactorOf(user), used) == UseCode(old(FactorOf(user)), hash)
      ensures used == Unused(old(FactorOf(user)).codes, hash)
      ensures forall other :: Unused(FactorOf(user).codes, other) <==>
                              other != hash && Unused(old(FactorOf(user)).codes, other)
      ensures forall other | other != user :: FactorOf(other) == old(FactorOf(other))
    {
      if user !in codes {
        return false;
      }
      SpendIsExact(codes[user], hash);
      used := Unused(codes[user], hash);
      if used {
        codes := codes[user := Spend(codes[user], hash)];
      }
    }

    method DeleteTOTP(user: string)
      modifies this
      ensures FactorOf(user) == DeleteTotp()
      ensures forall other | other != user :: FactorOf(other) == old(FactorOf(other))
    {
      codes := codes - {user};
      secrets := secrets - {user};
    }
  }
}

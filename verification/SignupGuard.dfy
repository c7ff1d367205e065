/** The signup guard of internal/server/server.go: two limiters composed by Chain.

    Each limiter is asked under its own mutex with its own reading of the clock, and requests run
    concurrently, so between a request's two asks anything may happen. */
module SignupGuard {
  import opened Sequences
  import opened TokenBucket

  // ---------------------------------------------------------------------------
  // Composition
  // ---------------------------------------------------------------------------

  datatype Limit = PerIp | SiteWide

  /** A handler creates the account, or asks a limiter and goes on only if it says yes. */
  datatype Handler = Create | Limited(limit: Limit, message: string, next: Handler)

  type Middleware = Handler -> Handler

  const IP_MESSAGE := "too many signups from your network \U{2014} please try again in a few minutes"
  const GLOBAL_MESSAGE := "signups are briefly rate limited site-wide \U{2014} please try again in a minute"
  const GLOBAL_KEY := "global"

  function LimitWith(limit: Limit, message: string): Middleware {
    (next: Handler) => Limited(limit, message, next)
  }

  /** The first listed middleware is outermost. */
  function Nested(h: Handler, mws: seq<Middleware>): Handler {
    if mws == [] then h else mws[0](Nested(h, mws[1..]))
  }

  method Chain(h: Handler, mws: seq<Middleware>) returns (wrapped: Handler)
    ensures wrapped == Nested(h, mws)
  {
    wrapped := h;
    for i := |mws| downto 0
      invariant wrapped == Nested(h, mws[i..])
    {
      wrapped := mws[i](wrapped);
    }
    assert mws[0..] == mws;
  }

  /** The limiters a handler asks, in order, each with what it tells the client it turns away. */
  function Asks(h: Handler): seq<(Limit, string)> {
    match h
    case Create => []
    case Limited(limit, message, next) => [(limit, message)] + Asks(next)
  }

  method Guard(h: Handler, hasIp: bool, hasGlobal: bool) returns (wrapped: Handler)
    ensures Asks(wrapped) == (if hasIp then [(PerIp, IP_MESSAGE)] else [])
                             + (if hasGlobal then [(SiteWide, GLOBAL_MESSAGE)] else []) + Asks(h)
  {
    var mws: seq<Middleware> := [];
    if hasIp {
      mws := mws + [LimitWith(PerIp, IP_MESSAGE)];
    }
    if hasGlobal {
      mws := mws + [LimitWith(SiteWide, GLOBAL_MESSAGE)];
    }
    wrapped := Chain(h, mws);
    NestedPair(h, mws);
  }

  lemma NestedPair(h: Handler, mws: seq<Middleware>)
    ensures |mws| == 0 ==> Nested(h, mws) == h
    ensures |mws| == 1 ==> Nested(h, mws) == mws[0](h)
    ensures |mws| == 2 ==> Nested(h, mws) == mws[0](mws[1](h))
  {
    if |mws| == 2 {
      assert mws[1..] == [mws[1]];
      assert Nested(h, mws[1..]) == mws[1](h);
    }
  }

  // ---------------------------------------------------------------------------
  // Runs with both limiters on
  // ---------------------------------------------------------------------------

  /** Requests are numbered in the order in which they ask the IP limiter. */
  datatype Event =
    | AskIp(key: string, now: real)
    | AskGlobal(request: nat, now: real)

  /** queue: requests the IP limiter let through that have not asked the global one yet, in the order of
      their admission; created: requests both let through. */
  datatype Site = Site(ip: Limiter, global: Limiter, arrived: nat, queue: seq<nat>, created: seq<nat>)

  predicate Enabled(s: Site, e: Event) {
    e.AskGlobal? ==> e.request in s.queue
  }

  function Step(s: Site, e: Event): Site {
    match e
    case AskIp(key, now) =>
      var (l, ok) := Admit(s.ip, Call(key, now));
      Site(l, s.global, s.arrived + 1, if ok then s.queue + [s.arrived] else s.queue, s.created)
    case AskGlobal(request, now) =>
      var (l, ok) := Admit(s.global, Call(GLOBAL_KEY, now));
      Site(s.ip, l, s.arrived, Without(s.queue, request), if ok then s.created + [request] else s.created)
  }

  function Start(ip: Limiter, global: Limiter): Site {
    Site(ip, global, 0, [], [])
  }

  function Front(es: seq<Event>): seq<Event>
    requires es != []
  {
    es[..|es| - 1]
  }

  function Last(es: seq<Event>): Event
    requires es != []
  {
    es[|es| - 1]
  }

  function Reached(ip: Limiter, global: Limiter, es: seq<Event>): Site {
    if es == [] then Start(ip, global) else Step(Reached(ip, global, Front(es)), Last(es))
  }

  ghost predicate Possible(ip: Limiter, global: Limiter, es: seq<Event>) {
    es == [] || (Possible(ip, global, Front(es)) && Enabled(Reached(ip, global, Front(es)), Last(es)))
  }

  // All readings are of one clock that does not run backwards; events are listed as they read it.
  ghost predicate InTime(es: seq<Event>) {
    forall i, j | 0 <= i <= j < |es| :: es[i].now <= es[j].now
  }

  // What each limiter is asked.
  function IpCalls(es: seq<Event>): seq<Call> {
    if es == [] then []
    else if Last(es).AskIp? then IpCalls(Front(es)) + [Call(Last(es).key, Last(es).now)]
    else IpCalls(Front(es))
  }

  function GlobalCalls(es: seq<Event>): seq<Call> {
    if es == [] then []
    else if Last(es).AskGlobal? then GlobalCalls(Front(es)) + [Call(GLOBAL_KEY, Last(es).now)]
    else GlobalCalls(Front(es))
  }

  /** The requests that asked the global limiter, in the order it was asked, and when each did. */
  function Asked(es: seq<Event>): seq<nat> {
    if es == [] then []
    else if Last(es).AskGlobal? then Asked(Front(es)) + [Last(es).request]
    else Asked(Front(es))
  }

  function AskedAt(es: seq<Event>): map<nat, real> {
    if es == [] then map[]
    else if Last(es).AskGlobal? then AskedAt(Front(es))[Last(es).request := Last(es).now]
    else AskedAt(Front(es))
  }

  /** The requests among the first n that the IP limiter admitted, in its order. */
  function Passed(ip: Limiter, calls: seq<Call>, n: nat): seq<nat>
    requires n <= |calls|
  {
    if n == 0 then []
    else if Answer(ip, calls, n - 1) then Passed(ip, calls, n - 1) + [n - 1]
    else Passed(ip, calls, n - 1)
  }

  function Admissions(ip: Limiter, es: seq<Event>): seq<nat> {
    Passed(ip, IpCalls(es), |IpCalls(es)|)
  }

  lemma {:induction false} AfterPrefix(l: Limiter, calls: seq<Call>, more: seq<Call>, n: nat)
    requires n <= |calls|
    ensures After(l, calls + more, n) == After(l, calls, n)
    ensures n < |calls| ==> Answer(l, calls + more, n) == Answer(l, calls, n)
  {
    if n > 0 { AfterPrefix(l, calls, more, n - 1); }
  }

  lemma {:induction false} PassedPrefix(l: Limiter, calls: seq<Call>, more: seq<Call>, n: nat)
    requires n <= |calls|
    ensures Passed(l, calls + more, n) == Passed(l, calls, n)
  {
    hide Answer, After;
    if n > 0 {
      PassedPrefix(l, calls, more, n - 1);
      AfterPrefix(l, calls, more, n - 1);
    }
  }

  lemma OneCallMore(l: Limiter, calls: seq<Call>, c: Call)
    ensures var more := calls + [c];
            var (next, ok) := Admit(After(l, calls, |calls|), c);
            && After(l, more, |more|) == next
            && Passed(l, more, |more|) ==
               if ok then Passed(l, calls, |calls|) + [|calls|] else Passed(l, calls, |calls|)
  {
    hide Admit;
    AfterPrefix(l, calls, [c], |calls|);
    PassedPrefix(l, calls, [c], |calls|);
  }

  /** Each limiter goes through exactly the calls made to it, in the order and at the times of its own
      mutex, whatever the other does meanwhile. */
  lemma {:induction false} EachLimiterSeesItsOwnRun(ip: Limiter, global: Limiter, es: seq<Event>)
    ensures var s := Reached(ip, global, es);
            && s.ip == After(ip, IpCalls(es), |IpCalls(es)|) && s.arrived == |IpCalls(es)|
            && s.global == After(global, GlobalCalls(es), |GlobalCalls(es)|)
  {
    hide Admit;
    if es != [] {
      EachLimiterSeesItsOwnRun(ip, global, Front(es));
      if Last(es).AskIp? {
        OneCallMore(ip, IpCalls(Front(es)), Call(Last(es).key, Last(es).now));
      } else {
        OneCallMore(global, GlobalCalls(Front(es)), Call(GLOBAL_KEY, Last(es).now));
      }
    }
  }

  // The IP limiter's answer to an AskIp that ends the run.
  lemma AdmissionsStep(ip: Limiter, global: Limiter, es: seq<Event>)
    requires es != []
    ensures var s, e := Reached(ip, global, Front(es)), Last(es);
            Admissions(ip, es) ==
              if e.AskIp? && Admit(s.ip, Call(e.key, e.now)).1 then Admissions(ip, Front(es)) + [s.arrived]
              else Admissions(ip, Front(es))
  {
    hide Admit;
    EachLimiterSeesItsOwnRun(ip, global, Front(es));
    if Last(es).AskIp? {
      OneCallMore(ip, IpCalls(Front(es)), Call(Last(es).key, Last(es).now));
    }
  }

  // ---------------------------------------------------------------------------
  // Who asks the global limiter, and in which order
  // ---------------------------------------------------------------------------

  lemma {:induction false} RisingIsDistinct(a: seq<nat>, k: nat)
    requires forall i, j | 0 <= i < j < |a| :: a[i] < a[j]
    ensures multiset(a)[k] <= 1
  {
    if a != [] {
      var last := |a| - 1;
      RisingIsDistinct(a[..last], k);
      assert a == a[..last] + [a[last]];
      assert a[last] !in a[..last];
    }
  }

  lemma {:induction false} PassedRises(ip: Limiter, calls: seq<Call>, n: nat)
    requires n <= |calls|
    ensures var a := Passed(ip, calls, n);
            && (forall k | k in a :: k < n && Answer(ip, calls, k))
            && forall i, j | 0 <= i < j < |a| :: a[i] < a[j]
  {
    hide Answer;
    if n > 0 {
      PassedRises(ip, calls, n - 1);
      var a := Passed(ip, calls, n - 1);
      forall i | 0 <= i < |a| ensures a[i] < n - 1 { assert a[i] in a; }
    }
  }

  // A request that asks moves from those waiting to those that asked.
  lemma AskMoves(admissions: seq<nat>, asked: seq<nat>, queue: seq<nat>, request: nat)
    requires multiset(admissions) == multiset(asked) + multiset(queue) && request in queue
    requires multiset(admissions)[request] <= 1
    ensures multiset(admissions) == multiset(asked + [request]) + multiset(Without(queue, request))
    ensures |queue| == |Without(queue, request)| + 1
  {
    hide Without;
    WithoutAsMultiset(queue, request);
    assert request in multiset(queue);
    assert multiset(queue) == multiset(queue)[request := 0] + multiset{request};
  }

  lemma AdmissionsRise(ip: Limiter, es: seq<Event>)
    ensures var a := Admissions(ip, es);
            forall i, j | 0 <= i < j < |a| :: a[i] < a[j]
  {
    PassedRises(ip, IpCalls(es), |IpCalls(es)|);
  }

  ghost predicate AsksMatch(ip: Limiter, global: Limiter, es: seq<Event>) {
    var queue := Reached(ip, global, es).queue;
    && multiset(Admissions(ip, es)) == multiset(Asked(es)) + multiset(queue)
    && |Admissions(ip, es)| == |Asked(es)| + |queue| && |GlobalCalls(es)| == |Asked(es)|
  }

  lemma AskedMatches(ip: Limiter, global: Limiter, es: seq<Event>)
    requires es != [] && Last(es).AskGlobal? && Last(es).request in Reached(ip, global, Front(es)).queue
    requires AsksMatch(ip, global, Front(es))
    ensures AsksMatch(ip, global, es)
  {
    hide Admit, Without, Admissions;
    var was, e := Front(es), Last(es);
    AdmissionsStep(ip, global, es);
    AdmissionsRise(ip, was);
    RisingIsDistinct(Admissions(ip, was), e.request);
    AskMoves(Admissions(ip, was), Asked(was), Reached(ip, global, was).queue, e.request);
  }

  lemma ArrivedMatches(ip: Limiter, global: Limiter, es: seq<Event>)
    requires es != [] && Last(es).AskIp? && AsksMatch(ip, global, Front(es))
    ensures AsksMatch(ip, global, es)
  {
    hide Admit, Admissions;
    AdmissionsStep(ip, global, es);
  }

  /** The requests that asked the global limiter and those about to are one to one with the requests the IP
      limiter admitted: each admission asks at most once, and nobody else asks. */
  lemma EveryAdmissionAsksOnce(ip: Limiter, global: Limiter, es: seq<Event>)
    requires Possible(ip, global, es)
    ensures var s := Reached(ip, global, es);
            && multiset(Admissions(ip, es)) == multiset(Asked(es)) + multiset(s.queue)
            && |Admissions(ip, es)| == |Asked(es)| + |s.queue| && |GlobalCalls(es)| == |Asked(es)|
    ensures forall i, j | 0 <= i < j < |Admissions(ip, es)| :: Admissions(ip, es)[i] < Admissions(ip, es)[j]
  {
    AdmissionsRise(ip, es);
    AlwaysMatch(ip, global, es);
  }

  lemma {:induction false} AlwaysMatch(ip: Limiter, global: Limiter, es: seq<Event>)
    requires Possible(ip, global, es)
    ensures AsksMatch(ip, global, es)
  {
    if es != [] {
      hide AsksMatch, Reached;
      AlwaysMatch(ip, global, Front(es));
      if Last(es).AskGlobal? {
        AskedMatches(ip, global, es);
      } else {
        ArrivedMatches(ip, global, es);
      }
    }
  }

  // A request asks the global limiter before one that the IP limiter admitted earlier.
  predicate Overtakes(s: Site, e: Event) {
    e.AskGlobal? && s.queue != [] && s.queue[0] != e.request
  }

  ghost predicate NobodyOvertakes(ip: Limiter, global: Limiter, es: seq<Event>) {
    es == [] || (NobodyOvertakes(ip, global, Front(es)) && !Overtakes(Reached(ip, global, Front(es)), Last(es)))
  }

  // The orders differ within what has been asked.
  ghost predicate Mismatch(asked: seq<nat>, admissions: seq<nat>) {
    exists k | 0 <= k < |asked| && k < |admissions| :: asked[k] != admissions[k]
  }

  lemma InOrderUntilOvertaken(queue: seq<nat>, asked: seq<nat>, request: nat)
    requires queue != [] && (queue[0] == request ==> request !in queue[1..])
    ensures queue[0] == request ==> asked + queue == asked + [request] + Without(queue, request)
    ensures queue[0] != request ==> Mismatch(asked + [request], asked + queue)
  {
    if queue[0] == request {
      WithoutIsRest(queue[1..], request);
      assert queue == [request] + queue[1..];
    } else {
      var k := |asked|;
      assert (asked + [request])[k] != (asked + queue)[k];
    }
  }

  lemma WaitsOnce(ip: Limiter, global: Limiter, es: seq<Event>, request: nat)
    requires Possible(ip, global, es)
    ensures var q := Reached(ip, global, es).queue; q != [] && q[0] == request ==> request !in q[1..]
  {
    hide Reached, Possible, Admissions, Asked;
    EveryAdmissionAsksOnce(ip, global, es);
    RisingIsDistinct(Admissions(ip, es), request);
    var q := Reached(ip, global, es).queue;
    if q != [] && request in q[1..] {
      assert q == [q[0]] + q[1..];
      assert multiset(q) == multiset{q[0]} + multiset(q[1..]);
    }
  }

  lemma MismatchStays(asked: seq<nat>, admissions: seq<nat>, more: seq<nat>, later: seq<nat>)
    requires Mismatch(asked, admissions)
    ensures Mismatch(asked + more, admissions + later)
  {
    var k :| 0 <= k < |asked| && k < |admissions| && asked[k] != admissions[k];
    assert (asked + more)[k] != (admissions + later)[k];
  }

  lemma {:induction false} OrderStep(ip: Limiter, global: Limiter, es: seq<Event>)
    requires Possible(ip, global, es)
    ensures if NobodyOvertakes(ip, global, es) then Admissions(ip, es) == Asked(es) + Reached(ip, global, es).queue
            else Mismatch(Asked(es), Admissions(ip, es))
  {
    hide Admit, Mismatch, Without;
    if es != [] {
      var was, e, s := Front(es), Last(es), Reached(ip, global, Front(es));
      OrderStep(ip, global, was);
      AdmissionsStep(ip, global, es);
      if e.AskGlobal? {
        WaitsOnce(ip, global, was, e.request);
        InOrderUntilOvertaken(s.queue, Asked(was), e.request);
      } else {
        assert Asked(was) + (s.queue + [s.arrived]) == Asked(was) + s.queue + [s.arrived];
      }
      if !NobodyOvertakes(ip, global, was) {
        var asked, admitted := Asked(was), Admissions(ip, was);
        var more := if e.AskGlobal? then [e.request] else [];
        var later := if e.AskIp? && Admit(s.ip, Call(e.key, e.now)).1 then [s.arrived] else [];
        MismatchStays(asked, admitted, more, later);
        assert asked + [] == asked && admitted + [] == admitted;
      }
    }
  }

  /** The global limiter is asked in the order of the IP limiter's admissions if and only if nobody
      overtakes between the two. */
  lemma OrdersAgreeIffNobodyOvertakes(ip: Limiter, global: Limiter, es: seq<Event>)
    requires Possible(ip, global, es)
    ensures Asked(es) <= Admissions(ip, es) <==> NobodyOvertakes(ip, global, es)
  {
    hide Admissions, Asked;
    OrderStep(ip, global, es);
  }

  // ---------------------------------------------------------------------------
  // The assembled handler runs as this machine
  // ---------------------------------------------------------------------------

  /** The server with any handler: each request that waits between two asks has its IP key and the rest of
      its handler. */
  datatype Server = Server(ip: Limiter, global: Limiter, arrived: nat, waiting: map<nat, (string, Handler)>,
                           created: seq<nat>)

  // A request asks the next limiter of its handler; allowed, it waits for the one after, or creates.
  function Serve(s: Server, request: nat, key: string, h: Handler, now: real): Server {
    var left := map k | k in s.waiting && k != request :: s.waiting[k];
    match h
    case Create => s.(waiting := left, created := s.created + [request])
    case Limited(limit, _, next) =>
      var (l, ok) := if limit.PerIp? then Admit(s.ip, Call(key, now)) else Admit(s.global, Call(GLOBAL_KEY, now));
      var t := if limit.PerIp? then s.(ip := l) else s.(global := l);
      if !ok then t.(waiting := left)
      else if next.Create? then t.(waiting := left, created := t.created + [request])
      else t.(waiting := left[request := (key, next)])
  }

  predicate Servable(s: Server, e: Event) {
    e.AskGlobal? ==> e.request in s.waiting
  }

  function ServerStep(h: Handler, s: Server, e: Event): Server
    requires Servable(s, e)
  {
    match e
    case AskIp(key, now) => Serve(s.(arrived := s.arrived + 1), s.arrived, key, h, now)
    case AskGlobal(request, now) => Serve(s, request, s.waiting[request].0, s.waiting[request].1, now)
  }

  ghost predicate ServerPossible(h: Handler, ip: Limiter, global: Limiter, es: seq<Event>)
    decreases |es|, 0
  {
    es == []
    || (ServerPossible(h, ip, global, Front(es)) && Servable(ServerReached(h, ip, global, Front(es)), Last(es)))
  }

  ghost function ServerReached(h: Handler, ip: Limiter, global: Limiter, es: seq<Event>): Server
    requires ServerPossible(h, ip, global, es)
    decreases |es|, 1
  {
    if es == [] then Server(ip, global, 0, map[], [])
    else ServerStep(h, ServerReached(h, ip, global, Front(es)), Last(es))
  }

  // Whoever waits has only the site-wide limiter before it.
  ghost predicate Simulates(t: Server, s: Site, message: string) {
    && t.ip == s.ip && t.global == s.global && t.arrived == s.arrived && t.created == s.created
    && t.waiting.Keys == Members(s.queue)
    && forall k | k in t.waiting :: t.waiting[k].1 == Limited(SiteWide, message, Create)
  }

  lemma ServerStepSimulates(t: Server, s: Site, e: Event, h: Handler, first: string, second: string)
    requires Simulates(t, s, second) && Asks(h) == [(PerIp, first), (SiteWide, second)]
    requires Servable(t, e) && s.arrived !in t.waiting
    ensures Simulates(ServerStep(h, t, e), Step(s, e), second)
  {
    hide Admit, Without;
    TwoAsks(h, first, second);
    if e.AskGlobal? { WithoutIsRest(s.queue, e.request); }
  }

  lemma NextAsks(h: Handler)
    ensures Asks(h) == [] <==> h.Create?
    ensures h.Limited? ==> Asks(h)[0] == (h.limit, h.message) && Asks(h)[1..] == Asks(h.next)
  {
  }

  lemma TwoAsks(h: Handler, first: string, second: string)
    requires Asks(h) == [(PerIp, first), (SiteWide, second)]
    ensures h == Limited(PerIp, first, Limited(SiteWide, second, Create))
  {
    NextAsks(h);
    NextAsks(h.next);
    NextAsks(h.next.next);
  }

  /** The handler that Guard assembles when both limiters are on, whatever the interleaving of its requests,
      goes through exactly the runs of this machine: the same asks are possible, the limiters see the same
      calls, the same requests wait and the same signups are created. */
  lemma {:induction false} GuardRunsAsMachine(h: Handler, first: string, second: string, ip: Limiter, global: Limiter,
                                              es: seq<Event>)
    requires Asks(h) == [(PerIp, first), (SiteWide, second)]
    ensures ServerPossible(h, ip, global, es) <==> Possible(ip, global, es)
    ensures Possible(ip, global, es) ==>
              Simulates(ServerReached(h, ip, global, es), Reached(ip, global, es), second)
  {
    if es != [] {
      var was := Front(es);
      GuardRunsAsMachine(h, first, second, ip, global, was);
      if Possible(ip, global, was) {
        var s := Reached(ip, global, was);
        EachLimiterSeesItsOwnRun(ip, global, was);
        WaitingWereAdmitted(ip, global, was);
        hide Step, ServerStep, Answer, Admit;
        if Enabled(s, Last(es)) {
          ServerStepSimulates(ServerReached(h, ip, global, was), s, Last(es), h, first, second);
        }
      }
    }
  }

  // ---------------------------------------------------------------------------
  // Runs of two requests
  // ---------------------------------------------------------------------------

  // The part of a run that its next event depends on.
  ghost predicate Stands(ip: Limiter, global: Limiter, es: seq<Event>, calls: seq<Call>, queue: seq<nat>,
                         asked: seq<nat>, at: map<nat, real>) {
    && Possible(ip, global, es) && IpCalls(es) == calls && Reached(ip, global, es).queue == queue
    && Asked(es) == asked && AskedAt(es) == at
  }

  lemma EmptyStands(ip: Limiter, global: Limiter)
    ensures Stands(ip, global, [], [], [], [], map[])
  {
  }

  lemma AdmittedNext(ip: Limiter, global: Limiter, es: seq<Event>, calls: seq<Call>, queue: seq<nat>,
                     asked: seq<nat>, at: map<nat, real>, e: Event)
    requires Stands(ip, global, es, calls, queue, asked, at) && e.AskIp?
    requires Answer(ip, calls + [Call(e.key, e.now)], |calls|)
    ensures Stands(ip, global, es + [e], calls + [Call(e.key, e.now)], queue + [|calls|], asked, at)
  {
    hide Admit;
    assert Front(es + [e]) == es;
    EachLimiterSeesItsOwnRun(ip, global, es);
    AfterPrefix(ip, calls, [Call(e.key, e.now)], |calls|);
  }

  lemma AskedNext(ip: Limiter, global: Limiter, es: seq<Event>, calls: seq<Call>, queue: seq<nat>,
                  asked: seq<nat>, at: map<nat, real>, e: Event)
    requires Stands(ip, global, es, calls, queue, asked, at) && e.AskGlobal? && e.request in queue
    ensures Stands(ip, global, es + [e], calls, Without(queue, e.request), asked + [e.request], at[e.request := e.now])
  {
    hide Admit;
    assert Front(es + [e]) == es;
  }

  /** Two requests of one IP that ask the IP limiter at p and q and the global one at g and h. */
  function TwoRequests(key: string, p: real, q: real, g: real, h: real): seq<Event> {
    if g <= q then [AskIp(key, p), AskGlobal(0, g), AskIp(key, q), AskGlobal(1, h)]
    else [AskIp(key, p), AskIp(key, q), AskGlobal(0, g), AskGlobal(1, h)]
  }

  lemma WithoutOneOfTwo(a: nat, b: nat)
    requires a != b
    ensures Without([a], a) == [] && Without([a, b], a) == [b] && Without([a, b], b) == [a]
  {
    assert [a, b] == [a] + [b];
    WithoutConcat([a], [b], a);
    WithoutConcat([a], [b], b);
  }

  lemma InTurn(ip: Limiter, global: Limiter, key: string, p: real, q: real, g: real, h: real)
    requires Answer(ip, [Call(key, p)], 0) && Answer(ip, [Call(key, p), Call(key, q)], 1)
    ensures Stands(ip, global, TwoRequests(key, p, q, g, h), [Call(key, p), Call(key, q)], [], [0, 1],
                   map[0 := g, 1 := h])
  {
    hide Stands, Answer, Without;
    var c, d := Call(key, p), Call(key, q);
    var e0, e1, e2, e3 := AskIp(key, p), AskIp(key, q), AskGlobal(0, g), AskGlobal(1, h);
    EmptyStands(ip, global);
    WithoutOneOfTwo(0, 1);
    WithoutOneOfTwo(1, 0);
    assert [] + [c] == [c] && [c] + [d] == [c, d] && [] + [e0] == [e0] && [] + [0] == [0] && [0] + [1] == [0, 1];
    AdmittedNext(ip, global, [], [], [], [], map[], e0);
    if g <= q {
      AskedNext(ip, global, [e0], [c], [0], [], map[], e2);
      assert [e0] + [e2] == [e0, e2] && [e0, e2] + [e1] == [e0, e2, e1] && [e0, e2, e1] + [e3] == [e0, e2, e1, e3];
      assert [] + [1] == [1];
      AdmittedNext(ip, global, [e0, e2], [c], [], [0], map[0 := g], e1);
      AskedNext(ip, global, [e0, e2, e1], [c, d], [1], [0], map[0 := g], e3);
    } else {
      AdmittedNext(ip, global, [e0], [c], [0], [], map[], e1);
      assert [e0] + [e1] == [e0, e1] && [e0, e1] + [e2] == [e0, e1, e2] && [e0, e1, e2] + [e3] == [e0, e1, e2, e3];
      AskedNext(ip, global, [e0, e1], [c, d], [0, 1], [], map[], e2);
      AskedNext(ip, global, [e0, e1, e2], [c, d], [1], [0], map[0 := g], e3);
    }
  }

  lemma TwoRequestsRun(ip: Limiter, global: Limiter, key: string, p: real, q: real, g: real, h: real)
    requires p <= q <= h && p <= g <= h
    requires Answer(ip, [Call(key, p)], 0) && Answer(ip, [Call(key, p), Call(key, q)], 1)
    ensures var es := TwoRequests(key, p, q, g, h);
            && Possible(ip, global, es) && InTime(es)
            && IpCalls(es) == [Call(key, p), Call(key, q)] && AskedAt(es) == map[0 := g, 1 := h]
  {
    hide Answer, Possible, Reached, IpCalls, AskedAt, Asked;
    InTurn(ip, global, key, p, q, g, h);
  }

  lemma OutOfTurn(ip: Limiter, global: Limiter, key: string, p: real, q: real, g: real, h: real)
    requires Answer(ip, [Call(key, p)], 0) && Answer(ip, [Call(key, p), Call(key, q)], 1)
    ensures Stands(ip, global, [AskIp(key, p), AskIp(key, q), AskGlobal(1, g), AskGlobal(0, h)],
                   [Call(key, p), Call(key, q)], [], [1, 0], map[1 := g, 0 := h])
  {
    hide Stands, Answer, Without;
    var c, d := Call(key, p), Call(key, q);
    var e0, e1, e2, e3 := AskIp(key, p), AskIp(key, q), AskGlobal(1, g), AskGlobal(0, h);
    EmptyStands(ip, global);
    WithoutOneOfTwo(0, 1);
    WithoutOneOfTwo(1, 0);
    assert [] + [c] == [c] && [c] + [d] == [c, d] && [] + [e0] == [e0] && [] + [0] == [0] && [0] + [1] == [0, 1];
    assert [] + [1] == [1] && [1] + [0] == [1, 0];
    assert [e0] + [e1] == [e0, e1] && [e0, e1] + [e2] == [e0, e1, e2] && [e0, e1, e2] + [e3] == [e0, e1, e2, e3];
    AdmittedNext(ip, global, [], [], [], [], map[], e0);
    AdmittedNext(ip, global, [e0], [c], [0], [], map[], e1);
    AskedNext(ip, global, [e0, e1], [c, d], [0, 1], [], map[], e2);
    AskedNext(ip, global, [e0, e1, e2], [c, d], [0], [1], map[1 := g], e3);
  }

  /** Overtaking can happen: two requests of one IP pass the IP limiter, and the second is the first to ask
      the global one. */
  lemma OvertakingHappens(ip: Limiter, global: Limiter, key: string, p: real, q: real, g: real, h: real)
    requires p <= q <= g <= h && Answer(ip, [Call(key, p)], 0) && Answer(ip, [Call(key, p), Call(key, q)], 1)
    ensures var es := [AskIp(key, p), AskIp(key, q), AskGlobal(1, g), AskGlobal(0, h)];
            && Possible(ip, global, es) && InTime(es) && IpCalls(es) == [Call(key, p), Call(key, q)]
            && Asked(es) == [1, 0] && !NobodyOvertakes(ip, global, es)
  {
    hide Answer, NobodyOvertakes, Possible, Reached, IpCalls, AskedAt, Asked, Passed;
    var es := [AskIp(key, p), AskIp(key, q), AskGlobal(1, g), AskGlobal(0, h)];
    OutOfTurn(ip, global, key, p, q, g, h);
    OrdersAgreeIffNobodyOvertakes(ip, global, es);
    EveryAdmissionAsksOnce(ip, global, es);
    assert Asked(es)[0] > Asked(es)[1];
  }

  // ---------------------------------------------------------------------------
  // Both window bounds
  // ---------------------------------------------------------------------------

  lemma {:induction false} CallsInTime(es: seq<Event>)
    requires InTime(es)
    ensures Ordered(IpCalls(es)) && Ordered(GlobalCalls(es))
    ensures forall k | 0 <= k < |IpCalls(es)| :: es != [] && IpCalls(es)[k].now <= Last(es).now
    ensures forall k | 0 <= k < |GlobalCalls(es)| :: es != [] && GlobalCalls(es)[k].now <= Last(es).now
  {
    if es != [] {
      CallsInTime(Front(es));
      if |es| > 1 { assert es[|es| - 2].now <= es[|es| - 1].now; }
    }
  }

  /** Signups that went through with the global limiter's answer given within [lo, hi]. */
  function CreatedWithin(ip: Limiter, global: Limiter, es: seq<Event>, lo: real, hi: real): nat {
    if es == [] then 0
    else CreatedWithin(ip, global, Front(es), lo, hi) +
         (if Last(es).AskGlobal? && lo <= Last(es).now <= hi
             && |Reached(ip, global, es).created| > |Reached(ip, global, Front(es)).created| then 1 else 0)
  }

  lemma {:induction false} GrantedPrefix(l: Limiter, calls: seq<Call>, more: seq<Call>, key: string,
                                         lo: real, hi: real, n: nat)
    requires n <= |calls|
    ensures GrantedWithin(l, calls + more, key, lo, hi, n) == GrantedWithin(l, calls, key, lo, hi, n)
  {
    hide Admit;
    if n > 0 {
      GrantedPrefix(l, calls, more, key, lo, hi, n - 1);
      AfterPrefix(l, calls, more, n - 1);
    }
  }

  lemma {:induction false} CreatedIsGranted(ip: Limiter, global: Limiter, es: seq<Event>, lo: real, hi: real)
    ensures CreatedWithin(ip, global, es, lo, hi) ==
            GrantedWithin(global, GlobalCalls(es), GLOBAL_KEY, lo, hi, |GlobalCalls(es)|)
  {
    hide Admit;
    if es != [] {
      CreatedIsGranted(ip, global, Front(es), lo, hi);
      EachLimiterSeesItsOwnRun(ip, global, Front(es));
      if Last(es).AskGlobal? {
        var calls, c := GlobalCalls(Front(es)), Call(GLOBAL_KEY, Last(es).now);
        GrantedPrefix(global, calls, [c], GLOBAL_KEY, lo, hi, |calls|);
        AfterPrefix(global, calls, [c], |calls|);
      }
    }
  }

  // Requests with a time were admitted by the IP limiter, no later than then.
  ghost predicate Late(ip: Limiter, calls: seq<Call>, at: map<nat, real>) {
    forall k | k in at :: k < |calls| && Answer(ip, calls, k) && calls[k].now <= at[k]
  }

  lemma WaitingWereAdmitted(ip: Limiter, global: Limiter, es: seq<Event>)
    requires Possible(ip, global, es)
    ensures forall k | k in Reached(ip, global, es).queue :: k < |IpCalls(es)| && Answer(ip, IpCalls(es), k)
  {
    hide Admit, Answer, Reached, Possible, IpCalls, Asked;
    EveryAdmissionAsksOnce(ip, global, es);
    PassedRises(ip, IpCalls(es), |IpCalls(es)|);
    var q := Reached(ip, global, es).queue;
    forall k | k in q ensures k < |IpCalls(es)| && Answer(ip, IpCalls(es), k) {
      assert k in multiset(q);
      assert k in multiset(Admissions(ip, es));
      assert k in Passed(ip, IpCalls(es), |IpCalls(es)|);
    }
  }

  lemma {:induction false} AskedAfterAdmission(ip: Limiter, global: Limiter, es: seq<Event>)
    requires Possible(ip, global, es) && InTime(es)
    ensures Late(ip, IpCalls(es), AskedAt(es))
  {
    hide Admit, Answer;
    if es != [] {
      var was, calls, e := Front(es), IpCalls(Front(es)), Last(es);
      AskedAfterAdmission(ip, global, was);
      WaitingWereAdmitted(ip, global, was);
      CallsInTime(es);
      hide Reached;
      if e.AskIp? {
        forall k | k in AskedAt(was) ensures Answer(ip, IpCalls(es), k) {
          AfterPrefix(ip, calls, [Call(e.key, e.now)], k);
        }
      }
    }
  }

  /** Of the requests with a time in `at`, those of one IP whose time, or with ownClock whose admission by
      the IP limiter, lies in [lo, hi]; among the first n. */
  function CountWithin(calls: seq<Call>, at: map<nat, real>, key: string, lo: real, hi: real, ownClock: bool,
                       n: nat): nat
    requires n <= |calls|
  {
    if n == 0 then 0
    else
      var k := n - 1;
      CountWithin(calls, at, key, lo, hi, ownClock, k) +
      (if k in at && calls[k].key == key && lo <= (if ownClock then calls[k].now else at[k]) <= hi then 1 else 0)
  }

  lemma {:induction false} CountedWereGranted(ip: Limiter, calls: seq<Call>, at: map<nat, real>, key: string,
                                              lo: real, hi: real, n: nat)
    requires n <= |calls| && Late(ip, calls, at)
    ensures CountWithin(calls, at, key, lo, hi, true, n) <= GrantedWithin(ip, calls, key, lo, hi, n)
  {
    hide Answer;
    if n > 0 { CountedWereGranted(ip, calls, at, key, lo, hi, n - 1); }
  }

  /** No two asks of one IP's requests come closer together than their admissions were. */
  ghost predicate Spaced(calls: seq<Call>, at: map<nat, real>, key: string) {
    forall j, k | 0 <= j < k < |calls| && j in at && k in at && calls[j].key == key && calls[k].key == key ::
      at[k] - at[j] >= calls[k].now - calls[j].now
  }

  ghost predicate Counted(calls: seq<Call>, at: map<nat, real>, key: string, lo: real, hi: real, k: nat) {
    k < |calls| && k in at && calls[k].key == key && lo <= at[k] <= hi
  }

  // What is counted on the later clock lies between a first and a last admission on the IP limiter's.
  lemma {:induction false} CountedSpan(calls: seq<Call>, at: map<nat, real>, key: string, lo: real, hi: real, n: nat)
    returns (a: nat, b: nat)
    requires n <= |calls| && Ordered(calls) && CountWithin(calls, at, key, lo, hi, false, n) > 0
    ensures a <= b < n && Counted(calls, at, key, lo, hi, a) && Counted(calls, at, key, lo, hi, b)
    ensures CountWithin(calls, at, key, lo, hi, false, n)
            <= CountWithin(calls, at, key, calls[a].now, calls[b].now, true, n)
  {
    var k := n - 1;
    if CountWithin(calls, at, key, lo, hi, false, k) > 0 {
      a, b := CountedSpan(calls, at, key, lo, hi, k);
      if Counted(calls, at, key, lo, hi, k) {
        CountGrows(calls, at, key, calls[a].now, calls[b].now, calls[k].now, k);
        b := k;
      }
    } else {
      a, b := k, k;
    }
  }

  lemma {:induction false} CountGrows(calls: seq<Call>, at: map<nat, real>, key: string, lo: real, hi: real,
                                      later: real, n: nat)
    requires n <= |calls| && hi <= later
    ensures CountWithin(calls, at, key, lo, hi, true, n) <= CountWithin(calls, at, key, lo, later, true, n)
  {
    if n > 0 { CountGrows(calls, at, key, lo, hi, later, n - 1); }
  }

  lemma LongerEarnsMore(rate: real, a: real, b: real, lo: real, hi: real)
    requires rate >= 0.0 && b - a <= hi - lo
    ensures Earned(rate, a, b) <= Earned(rate, lo, hi)
  {
    assert Earned(rate, lo, hi) - Earned(rate, a, b) == ((hi - lo) - (b - a)) * rate;
  }

  // The per-IP bound on the clock of the later asks, when they are spaced.
  lemma SpacedCountBounded(ip: Limiter, calls: seq<Call>, at: map<nat, real>, key: string, lo: real, hi: real)
    requires Ordered(calls) && Late(ip, calls, at) && Spaced(calls, at, key) && lo <= hi
    requires ip.rate >= 0.0 && ip.capacity >= 1.0 && ip.buckets == map[]
    ensures CountWithin(calls, at, key, lo, hi, false, |calls|) as real <= ip.capacity + Earned(ip.rate, lo, hi)
  {
    hide Earned, Answer;
    if CountWithin(calls, at, key, lo, hi, false, |calls|) == 0 {
      Accrual(ip.rate, lo, lo, hi);
    } else {
      var a, b := CountedSpan(calls, at, key, lo, hi, |calls|);
      CountedWereGranted(ip, calls, at, key, calls[a].now, calls[b].now, |calls|);
      WindowBound(ip, calls, key, calls[a].now, calls[b].now, |calls|);
      LongerEarnsMore(ip.rate, calls[a].now, calls[b].now, lo, hi);
    }
  }

  /** No request of the IP waits longer than this between its two asks. */
  ghost predicate Prompt(calls: seq<Call>, at: map<nat, real>, key: string, wait: real) {
    forall k | 0 <= k < |calls| && k in at && calls[k].key == key :: at[k] - calls[k].now <= wait
  }

  lemma {:induction false} CountedSoonBefore(ip: Limiter, calls: seq<Call>, at: map<nat, real>, key: string,
                                             lo: real, hi: real, wait: real, n: nat)
    requires n <= |calls| && Late(ip, calls, at) && Prompt(calls, at, key, wait)
    ensures CountWithin(calls, at, key, lo, hi, false, n) <= CountWithin(calls, at, key, lo - wait, hi, true, n)
  {
    hide Answer;
    if n > 0 { CountedSoonBefore(ip, calls, at, key, lo, hi, wait, n - 1); }
  }

  /** The signups that went through, with the time of the global limiter's answer. */
  function CreatedAt(ip: Limiter, global: Limiter, es: seq<Event>): map<nat, real> {
    map k | k in AskedAt(es) && k in Reached(ip, global, es).created :: AskedAt(es)[k]
  }

  lemma {:induction false} CreatedWereAsked(ip: Limiter, global: Limiter, es: seq<Event>)
    ensures forall k | k in Reached(ip, global, es).created :: k in AskedAt(es) && k in CreatedAt(ip, global, es)
  {
    hide Admit;
    if es != [] { CreatedWereAsked(ip, global, Front(es)); }
  }

  /** Signups stay within the site-wide bound on the global limiter's clock.  The signups of one IP,
      and the global tokens its requests can spend, stay within the per-IP bound on the IP limiter's clock,
      and on the global one too if these requests are spaced. */
  lemma BothWindowsHold(ip: Limiter, global: Limiter, es: seq<Event>, key: string, lo: real, hi: real)
    requires Possible(ip, global, es) && InTime(es) && lo <= hi
    requires ip.rate >= 0.0 && ip.capacity >= 1.0 && ip.buckets == map[]
    requires global.rate >= 0.0 && global.capacity >= 1.0 && global.buckets == map[]
    ensures CreatedWithin(ip, global, es, lo, hi) as real <= global.capacity + Earned(global.rate, lo, hi)
    ensures var calls, at := IpCalls(es), AskedAt(es);
            && CountWithin(calls, at, key, lo, hi, true, |calls|) as real <= ip.capacity + Earned(ip.rate, lo, hi)
            && CountWithin(calls, CreatedAt(ip, global, es), key, lo, hi, true, |calls|) as real
               <= ip.capacity + Earned(ip.rate, lo, hi)
            && (Spaced(calls, at, key) ==>
                  CountWithin(calls, at, key, lo, hi, false, |calls|) as real <= ip.capacity + Earned(ip.rate, lo, hi))
  {
    hide Earned, Answer, Spaced, CountWithin;
    CallsInTime(es);
    CreatedIsGranted(ip, global, es, lo, hi);
    WindowBound(global, GlobalCalls(es), GLOBAL_KEY, lo, hi, |GlobalCalls(es)|);
    AskedAfterAdmission(ip, global, es);
    CountedWereGranted(ip, IpCalls(es), AskedAt(es), key, lo, hi, |IpCalls(es)|);
    CountedWereGranted(ip, IpCalls(es), CreatedAt(ip, global, es), key, lo, hi, |IpCalls(es)|);
    WindowBound(ip, IpCalls(es), key, lo, hi, |IpCalls(es)|);
    if Spaced(IpCalls(es), AskedAt(es), key) {
      SpacedCountBounded(ip, IpCalls(es), AskedAt(es), key, lo, hi);
    }
  }

  /** On the global limiter's clock the per-IP bound grows by what the delay earns: if none of an IP's
      requests waits longer than `wait` between its asks, the global tokens they spend in [lo, hi] are at
      most burst + rate * (hi - lo + wait). */
  lemma DelayCostsItsEarnings(ip: Limiter, global: Limiter, es: seq<Event>, key: string, lo: real, hi: real, wait: real)
    requires Possible(ip, global, es) && InTime(es) && lo <= hi && wait >= 0.0
    requires ip.rate >= 0.0 && ip.capacity >= 1.0 && ip.buckets == map[]
    requires Prompt(IpCalls(es), AskedAt(es), key, wait)
    ensures CountWithin(IpCalls(es), AskedAt(es), key, lo, hi, false, |IpCalls(es)|) as real
            <= ip.capacity + Earned(ip.rate, lo - wait, hi)
  {
    hide Earned, Answer, CountWithin, Prompt;
    CallsInTime(es);
    AskedAfterAdmission(ip, global, es);
    CountedSoonBefore(ip, IpCalls(es), AskedAt(es), key, lo, hi, wait, |IpCalls(es)|);
    CountedWereGranted(ip, IpCalls(es), AskedAt(es), key, lo - wait, hi, |IpCalls(es)|);
    WindowBound(ip, IpCalls(es), key, lo - wait, hi, |IpCalls(es)|);
  }

  // ---------------------------------------------------------------------------
  // When the per-IP bound also holds on the global clock
  // ---------------------------------------------------------------------------

  lemma InverseTimesSpan(p: real, q: real)
    requires p < q
    ensures (q - p) * (1.0 / (q - p)) == 1.0
  {
  }

  // The limiter that allows one request at once and the next when q is reached.
  function Tight(p: real, q: real): Limiter
    requires p < q
  {
    NewLimiter(1.0 / (q - p), 1.0)
  }

  lemma TightEarns(p: real, q: real)
    requires p < q
    ensures var l := Tight(p, q);
            && l.rate > 0.0 && l.capacity == 1.0 && l.buckets == map[] && Earned(l.rate, p, q) == 1.0
  {
    InverseTimesSpan(p, q);
  }

  lemma TightAnswers(key: string, p: real, q: real)
    requires p < q
    ensures Answer(Tight(p, q), [Call(key, p)], 0) && Answer(Tight(p, q), [Call(key, p), Call(key, q)], 1)
  {
    TightEarns(p, q);
    var l := Tight(p, q);
    hide Earned, Answer, Tight;
    PatientKeyNeverRefused(l, [Call(key, p)], 0);
    PatientKeyNeverRefused(l, [Call(key, p), Call(key, q)], 1);
  }

  /** Exactly when the bound survives the delay between the two asks.  Take two requests of an IP admitted at
      p < q that ask the global limiter at g <= h.  On every run that has them, under every rate and burst
      that admits both, the two fit the per-IP bound over [g, h] if and only if they are spaced: otherwise
      there is a run in which the IP spends more global tokens in a window than its limiter allows in one of
      that length. */
  lemma BoundSurvivesDelayIffSpaced(key: string, p: real, q: real, g: real, h: real, global: Limiter)
    requires p < q <= h && p <= g <= h
    ensures (forall rate: real, burst: real ::
               rate >= 0.0 && Answer(NewLimiter(rate, burst), [Call(key, p), Call(key, q)], 1) ==>
                 2.0 <= NewLimiter(rate, burst).capacity + Earned(rate, g, h))
            <==> h - g >= q - p
    ensures h - g < q - p ==>
              var ip, es := Tight(p, q), TwoRequests(key, p, q, g, h);
              && Possible(ip, global, es) && InTime(es)
              && CountWithin(IpCalls(es), AskedAt(es), key, g, h, false, |IpCalls(es)|) as real
                 > ip.capacity + Earned(ip.rate, g, h)
  {
    hide Earned, Reached, Possible, IpCalls, AskedAt;
    var calls := [Call(key, p), Call(key, q)];
    assert Ordered(calls);
    if h - g >= q - p {
      forall rate: real, burst: real | rate >= 0.0 && Answer(NewLimiter(rate, burst), calls, 1)
        ensures 2.0 <= NewLimiter(rate, burst).capacity + Earned(rate, g, h)
      {
        TwoFit(NewLimiter(rate, burst), key, p, q);
        LongerEarnsMore(rate, p, q, g, h);
      }
    } else {
      var ip, es := Tight(p, q), TwoRequests(key, p, q, g, h);
      TightEarns(p, q);
      TightAnswers(key, p, q);
      ShorterEarnsLess(ip.rate, p, q, g, h);
      TwoRequestsRun(ip, global, key, p, q, g, h);
      BothCounted(calls, g, h, key);
    }
  }

  /** And no smaller bound holds: for every delay there is a limiter and a run with no longer wait in which the
      IP spends exactly that many at one moment. */
  lemma DelayBoundIsAttained(key: string, p: real, wait: real, global: Limiter)
    requires wait > 0.0
    ensures var q := p + wait;
            var ip, es := Tight(p, q), TwoRequests(key, p, q, q, q);
            && Possible(ip, global, es) && InTime(es) && Prompt(IpCalls(es), AskedAt(es), key, wait)
            && CountWithin(IpCalls(es), AskedAt(es), key, q, q, false, |IpCalls(es)|) as real
               == ip.capacity + Earned(ip.rate, q - wait, q)
  {
    hide Earned, Reached, Possible, IpCalls, AskedAt, Tight;
    var q := p + wait;
    var calls := [Call(key, p), Call(key, q)];
    TightEarns(p, q);
    TightAnswers(key, p, q);
    TwoRequestsRun(Tight(p, q), global, key, p, q, q, q);
    BothCounted(calls, q, q, key);
  }

  lemma TwoFit(l: Limiter, key: string, p: real, q: real)
    requires p <= q && l.rate >= 0.0 && l.capacity >= 1.0 && l.buckets == map[]
    requires Answer(l, [Call(key, p), Call(key, q)], 1)
    ensures 2.0 <= l.capacity + Earned(l.rate, p, q)
  {
    hide Earned;
    var calls := [Call(key, p), Call(key, q)];
    AllowedIffEveryWindowFits(l, calls, 0);
    AllowedIffEveryWindowFits(l, calls, 1);
    Accrual(l.rate, p, p, p);
    assert Granted(l, calls, key, 0, 0) == 0 && Granted(l, calls, key, 0, 1) == 1;
  }

  lemma ShorterEarnsLess(rate: real, a: real, b: real, lo: real, hi: real)
    requires rate > 0.0 && b - a > hi - lo
    ensures Earned(rate, a, b) > Earned(rate, lo, hi)
  {
    assert Earned(rate, a, b) - Earned(rate, lo, hi) == ((b - a) - (hi - lo)) * rate;
  }

  lemma BothCounted(calls: seq<Call>, g: real, h: real, key: string)
    requires |calls| == 2 && calls[0].key == key && calls[1].key == key && g <= h
    ensures CountWithin(calls, map[0 := g, 1 := h], key, g, h, false, 2) == 2
  {
    var at := map[0 := g, 1 := h];
    assert CountWithin(calls, at, key, g, h, false, 0) == 0;
    assert CountWithin(calls, at, key, g, h, false, 1) == 1;
  }
}

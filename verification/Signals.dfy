/** The reactive signals of frontend/js/page-captcha.js: state signals, lazily cached computed
    signals and effects, with observer sets that only grow.

    A node's function is any terminating function of what it reads: given the values read so far it
    either returns or asks for another signal, so which signals it reads may depend on their values.
    Nodes are numbered so that functions read lower numbers only; an acyclic graph always can be. */
module Signals {
  import opened Sequences
  import opened Wrappers

  datatype Query = Return(value: int) | Ask(sig: nat)
  datatype Fn = Fn(next: seq<int> -> Query, bound: nat)
  datatype Node = State | Computed(fn: Fn) | Effect(fn: Fn)

  type Graph = seq<Node>

  // Functions stop within their bound, read only lower-numbered signals, and never read effects.
  ghost predicate Acyclic(g: Graph) {
    forall n | 0 <= n < |g| && !g[n].State? ::
      && (forall h: seq<int> :: |h| >= g[n].fn.bound ==> g[n].fn.next(h).Return?)
      && (forall h: seq<int> :: g[n].fn.next(h).Ask? ==>
            g[n].fn.next(h).sig < n && !g[g[n].fn.next(h).sig].Effect?)
  }

  /** What is stored: for a state signal its value; for a computed signal the cached value, its dirty
      flag and (for proofs) what it last read; for an effect the same about its last run, "dirty"
      meaning it has never run.  Observers are in insertion order. */
  datatype Heap = Heap(value: seq<int>, dirty: seq<bool>, observers: seq<seq<nat>>, read: seq<seq<int>>)

  ghost predicate Shaped(g: Graph, h: Heap) {
    && |h.value| == |h.dirty| == |h.observers| == |h.read| == |g|
    && (forall n | 0 <= n < |g| :: g[n].State? ==> !h.dirty[n])
    && (forall n, i | 0 <= n < |g| && 0 <= i < |h.observers[n]| ::
          n < h.observers[n][i] < |g| && !g[h.observers[n][i]].State?)
  }

  /** Read number i of run r of node n is served by a clean signal that still shows the value read
      and that n observes. */
  ghost predicate Served(g: Graph, h: Heap, n: nat, r: seq<int>, i: nat)
    requires Acyclic(g) && Shaped(g, h) && n < |g| && !g[n].State? && i < |r|
  {
    var q := g[n].fn.next(r[..i]);
    q.Ask? && !h.dirty[q.sig] && h.value[q.sig] == r[i] && n in h.observers[q.sig]
  }

  ghost predicate Replays(g: Graph, h: Heap, n: nat, r: seq<int>)
    requires Acyclic(g) && Shaped(g, h) && n < |g| && !g[n].State?
  {
    forall i | 0 <= i < |r| :: Served(g, h, n, r, i)
  }

  /** Node n's stored result is what its function returns on the stored values of the signals it reads. */
  ghost predicate Consistent(g: Graph, h: Heap, n: nat)
    requires Acyclic(g) && Shaped(g, h) && n < |g|
  {
    g[n].State? || h.dirty[n] ||
    (Replays(g, h, n, h.read[n]) && g[n].fn.next(h.read[n]) == Return(h.value[n]))
  }

  // Everything is consistent except possibly the nodes in bad, which are still to be notified.
  ghost predicate ConsistentBut(g: Graph, h: Heap, bad: set<nat>)
    requires Acyclic(g) && Shaped(g, h)
  {
    forall n | 0 <= n < |g| && n !in bad :: Consistent(g, h, n)
  }

  // ---------------------------------------------------------------------------
  // The meaning of a signal: its function recomputed from the state signals
  // ---------------------------------------------------------------------------

  ghost function Meaning(g: Graph, st: seq<int>, n: nat): int
    requires Acyclic(g) && |st| == |g| && n < |g|
    decreases n, 1, 0
  {
    if g[n].State? then st[n] else MeaningFrom(g, st, n, [])
  }

  ghost function MeaningFrom(g: Graph, st: seq<int>, n: nat, r: seq<int>): int
    requires Acyclic(g) && |st| == |g| && n < |g| && !g[n].State? && |r| <= g[n].fn.bound
    decreases n, 0, g[n].fn.bound - |r|
  {
    match g[n].fn.next(r)
    case Return(v) => v
    case Ask(s) => MeaningFrom(g, st, n, r + [Meaning(g, st, s)])
  }

  /** In a consistent heap every clean cache, and every effect's last result, is the meaning of its
      function on the current state. */
  lemma {:induction false} ConsistentIsCurrent(g: Graph, h: Heap, n: nat)
    requires Acyclic(g) && Shaped(g, h) && ConsistentBut(g, h, {}) && n < |g| && !h.dirty[n]
    ensures h.value[n] == Meaning(g, h.value, n)
    decreases n, 1, 0
  {
    if !g[n].State? {
      assert Consistent(g, h, n);
      ReplayIsMeaning(g, h, n, 0);
      assert h.read[n][..0] == [];
    }
  }

  lemma {:induction false} ReplayIsMeaning(g: Graph, h: Heap, n: nat, i: nat)
    requires Acyclic(g) && Shaped(g, h) && ConsistentBut(g, h, {}) && n < |g| && !g[n].State? && !h.dirty[n]
    requires i <= |h.read[n]| && Replays(g, h, n, h.read[n]) && g[n].fn.next(h.read[n]) == Return(h.value[n])
    ensures i <= g[n].fn.bound && MeaningFrom(g, h.value, n, h.read[n][..i]) == h.value[n]
    decreases n, 0, |h.read[n]| - i
  {
    var r := h.read[n];
    if i == |r| {
      assert r[..i] == r;
      if i > 0 { assert Served(g, h, n, r, i - 1); }
    } else {
      assert Served(g, h, n, r, i);
      ConsistentIsCurrent(g, h, g[n].fn.next(r[..i]).sig);
      assert r[..i] + [r[i]] == r[..i + 1];
      ReplayIsMeaning(g, h, n, i + 1);
    }
  }

  // ---------------------------------------------------------------------------
  // What reading and notifying do to the heap
  // ---------------------------------------------------------------------------

  /** Reads only clean caches and add observers: clean nodes keep their results. */
  ghost predicate Warmer(g: Graph, h: Heap, k: Heap)
    requires Acyclic(g) && Shaped(g, h) && Shaped(g, k)
  {
    && (forall n | 0 <= n < |g| && !h.dirty[n] ::
          !k.dirty[n] && k.value[n] == h.value[n] && k.read[n] == h.read[n])
    && (forall n | 0 <= n < |g| && g[n].Effect? :: k.dirty[n] == h.dirty[n])
    && (forall n, o | 0 <= n < |g| && o in h.observers[n] :: o in k.observers[n])
    && (forall n | 0 <= n < |g| && h.dirty[n] && !k.dirty[n] :: Consistent(g, k, n))
  }

  lemma WarmerReplays(g: Graph, h: Heap, k: Heap, n: nat, r: seq<int>)
    requires Acyclic(g) && Shaped(g, h) && Shaped(g, k) && Warmer(g, h, k)
    requires n < |g| && !g[n].State? && Replays(g, h, n, r)
    ensures Replays(g, k, n, r)
  {
    forall i | 0 <= i < |r| ensures Served(g, k, n, r, i) {
      assert Served(g, h, n, r, i);
    }
  }

  lemma WarmerConsistent(g: Graph, h: Heap, k: Heap, bad: set<nat>)
    requires Acyclic(g) && Shaped(g, h) && Shaped(g, k) && Warmer(g, h, k) && ConsistentBut(g, h, bad)
    ensures ConsistentBut(g, k, bad)
  {
    forall n | 0 <= n < |g| && n !in bad ensures Consistent(g, k, n) {
      assert Consistent(g, h, n);
      if !g[n].State? && !h.dirty[n] { WarmerReplays(g, h, k, n, h.read[n]); }
    }
  }

  lemma WarmerTransitive(g: Graph, h: Heap, k: Heap, m: Heap)
    requires Acyclic(g) && Shaped(g, h) && Shaped(g, k) && Shaped(g, m) && Warmer(g, h, k) && Warmer(g, k, m)
    ensures Warmer(g, h, m)
  {
    forall n | 0 <= n < |g| && h.dirty[n] && !m.dirty[n] ensures Consistent(g, m, n) {
      if !k.dirty[n] {
        assert Consistent(g, k, n);
        if !g[n].State? { WarmerReplays(g, k, m, n, k.read[n]); }
      }
    }
  }

  lemma ObservingIsWarm(g: Graph, h: Heap, k: Heap)
    requires Acyclic(g) && Shaped(g, h) && Shaped(g, k)
    requires k.value == h.value && k.dirty == h.dirty && k.read == h.read
    requires forall n, o | 0 <= n < |g| && o in h.observers[n] :: o in k.observers[n]
    ensures Warmer(g, h, k)
  {
  }

  lemma MoreBad(g: Graph, h: Heap, bad: set<nat>, worse: set<nat>)
    requires Acyclic(g) && Shaped(g, h) && ConsistentBut(g, h, bad) && bad <= worse
    ensures ConsistentBut(g, h, worse)
  {
  }

  /** Changing or dirtying one signal can only upset its observers. */
  lemma OnlyObserversUpset(g: Graph, h: Heap, k: Heap, s: nat, bad: set<nat>)
    requires Acyclic(g) && Shaped(g, h) && Shaped(g, k) && s < |g| && ConsistentBut(g, h, bad + {s})
    requires k.observers == h.observers && k.read == h.read
    requires forall n | 0 <= n < |g| && n != s :: k.value[n] == h.value[n] && k.dirty[n] == h.dirty[n]
    requires g[s].State? || k.dirty[s]
    ensures ConsistentBut(g, k, bad + Members(h.observers[s]))
  {
    forall n | 0 <= n < |g| && n !in bad && n !in h.observers[s] ensures Consistent(g, k, n) {
      if n != s {
        assert Consistent(g, h, n);
        if !g[n].State? && !h.dirty[n] {
          forall i | 0 <= i < |h.read[n]| ensures Served(g, k, n, h.read[n], i) {
            assert Served(g, h, n, h.read[n], i);
          }
        }
      }
    }
  }

  // ---------------------------------------------------------------------------
  // The runtime
  // ---------------------------------------------------------------------------

  class Runtime {
    const graph: Graph
    var value: seq<int>
    var dirty: seq<bool>
    var observers: seq<seq<nat>>
    ghost var read: seq<seq<int>>
    var activeSubscriber: Option<nat>

    ghost function View(): Heap
      reads this
    {
      Heap(value, dirty, observers, read)
    }

    ghost predicate Valid()
      reads this
    {
      && Acyclic(graph) && Shaped(graph, View())
      && (activeSubscriber.Some? ==> activeSubscriber.value < |graph| && !graph[activeSubscriber.value].State?)
    }

    /** All computed signals start dirty; effects have not run. */
    constructor (g: Graph, initial: seq<int>)
      requires Acyclic(g) && |initial| == |g|
      ensures Valid() && graph == g && activeSubscriber == None && value == initial
      ensures ConsistentBut(graph, View(), {})
      ensures forall n | 0 <= n < |g| :: dirty[n] <==> !g[n].State?
    {
      graph := g;
      value := initial;
      dirty := seq(|g|, n requires 0 <= n < |g| => !g[n].State?);
      observers := seq(|g|, _ => []);
      read := seq(|g|, _ => []);
      activeSubscriber := None;
    }

    /** Reads a signal: recomputes it if dirty, and subscribes whoever is running. */
    method Get(s: nat) returns (v: int)
      requires Valid() && s < |graph| && !graph[s].Effect?
      requires activeSubscriber.Some? ==> s < activeSubscriber.value
      modifies this
      ensures Valid() && Warmer(graph, old(View()), View()) && activeSubscriber == old(activeSubscriber)
      ensures !dirty[s] && v == value[s]
      ensures activeSubscriber.Some? ==> activeSubscriber.value in observers[s]
      ensures forall n | s < n < |graph| ::
                value[n] == old(value)[n] && dirty[n] == old(dirty)[n] && read[n] == old(read)[n]
      decreases s, 2
    {
      hide ConsistentBut, Consistent, Warmer;
      if dirty[s] {
        Run(s);
      }
      ghost var was := View();
      if activeSubscriber.Some? && activeSubscriber.value !in observers[s] {
        observers := observers[s := observers[s] + [activeSubscriber.value]];
      }
      ObservingIsWarm(graph, was, View());
      if old(dirty[s]) { WarmerTransitive(graph, old(View()), was, View()); }
      v := value[s];
    }

    /** Runs a computed signal's or an effect's function with itself as the subscriber, and stores
        the result. */
    method Run(n: nat)
      requires Valid() && n < |graph| && !graph[n].State? && (dirty[n] || graph[n].Effect?)
      modifies this
      ensures Valid() && activeSubscriber == old(activeSubscriber)
      ensures !dirty[n] && Consistent(graph, View(), n)
      ensures !graph[n].Effect? ==> Warmer(graph, old(View()), View())
      ensures forall bad | ConsistentBut(graph, old(View()), bad + {n}) :: ConsistentBut(graph, View(), bad)
      ensures forall m | 0 <= m < |graph| && graph[m].State? :: value[m] == old(value)[m]
      ensures forall m | 0 <= m < |graph| && graph[m].Effect? && m != n :: dirty[m] == old(dirty)[m]
      ensures forall m | n < m < |graph| ::
                value[m] == old(value)[m] && dirty[m] == old(dirty)[m] && read[m] == old(read)[m]
      decreases n, 1
    {
      hide ConsistentBut, Consistent, Warmer, Replays;
      ghost var was := View();
      var previous := activeSubscriber;
      activeSubscriber := Some(n);
      var v, r := Evaluate(n);
      activeSubscriber := previous;
      ghost var ran := View();
      WarmerKeeps(graph, was, ran);
      Store(n, v, r);
      StoreResult(graph, ran, View(), n);
      if !graph[n].Effect? {
        StoreKeepsWarmer(graph, was, ran, View(), n);
      }
      forall bad | ConsistentBut(graph, was, bad + {n}) ensures ConsistentBut(graph, View(), bad) {
        WarmerConsistent(graph, was, ran, bad + {n});
        StoreKeepsConsistent(graph, ran, View(), n, bad);
      }
    }

    method Store(n: nat, v: int, ghost r: seq<int>)
      requires n < |value| && n < |dirty| && n < |read|
      modifies this`value, this`dirty, this`read
      ensures value == old(value)[n := v] && dirty == old(dirty)[n := false] && read == old(read)[n := r]
    {
      value := value[n := v];
      dirty := dirty[n := false];
      read := read[n := r];
    }

    /** Calls node n's function: each signal it asks for is read, until it returns. */
    method Evaluate(n: nat) returns (v: int, ghost r: seq<int>)
      requires Valid() && activeSubscriber == Some(n) && (dirty[n] || graph[n].Effect?)
      modifies this
      ensures Valid() && activeSubscriber == Some(n) && Warmer(graph, old(View()), View())
      ensures Replays(graph, View(), n, r) && graph[n].fn.next(r) == Return(v)
      ensures forall m | n <= m < |graph| ::
                value[m] == old(value)[m] && dirty[m] == old(dirty)[m] && read[m] == old(read)[m]
      decreases n, 0
    {
      hide ConsistentBut, Consistent, Warmer, Replays;
      ghost var was := View();
      var seen := [];
      var q := graph[n].fn.next(seen);
      ObservingIsWarm(graph, was, View());
      NothingReplays(graph, was, n);
      while q.Ask?
        invariant Valid() && activeSubscriber == Some(n) && Warmer(graph, was, View())
        invariant |seen| <= graph[n].fn.bound && q == graph[n].fn.next(seen)
        invariant Replays(graph, View(), n, seen)
        invariant forall m | n <= m < |graph| ::
                    value[m] == was.value[m] && dirty[m] == was.dirty[m] && read[m] == was.read[m]
        decreases graph[n].fn.bound - |seen|
      {
        ghost var before := View();
        var got := Get(q.sig);
        WarmerReplays(graph, before, View(), n, seen);
        WarmerTransitive(graph, was, before, View());
        ExtendReplay(graph, View(), n, seen, got);
        seen := seen + [got];
        q := graph[n].fn.next(seen);
      }
      return q.value, seen;
    }

    /** Runs a snapshot of subscribers in order: a computed signal turns dirty and passes the news on
        to its own observers at once, an effect runs again.  While this is under way effects may read
        caches that are about to be dirtied; `bad` and the rest of the snapshot hold all of those. */
    method Notify(snapshot: seq<nat>, floor: nat, ghost bad: set<nat>)
      requires Valid() && activeSubscriber.None? && floor < |graph|
      requires forall o | o in snapshot :: floor < o < |graph| && !graph[o].State?
      requires ConsistentBut(graph, View(), bad + Members(snapshot))
      modifies this
      ensures Valid() && activeSubscriber.None? && ConsistentBut(graph, View(), bad)
      ensures forall m | 0 <= m < |graph| && graph[m].State? :: value[m] == old(value)[m]
      ensures forall m | 0 <= m < |graph| && graph[m].Effect? && !old(dirty)[m] :: !dirty[m]
      decreases |graph| - floor
    {
      hide ConsistentBut, Consistent, Warmer, Acyclic, Members;
      assert snapshot[0..] == snapshot;
      for i := 0 to |snapshot|
        invariant Valid() && activeSubscriber.None?
        invariant ConsistentBut(graph, View(), bad + Members(snapshot[i..]))
        invariant forall m | 0 <= m < |graph| && graph[m].State? :: value[m] == old(value)[m]
        invariant forall m | 0 <= m < |graph| && graph[m].Effect? && !old(dirty)[m] :: !dirty[m]
      {
        var o := snapshot[i];
        assert o in snapshot;
        ghost var rest := bad + Members(snapshot[i + 1..]);
        NextMember(snapshot, i);
        MoreBad(graph, View(), bad + Members(snapshot[i..]), rest + {o});
        if graph[o].Computed? {
          ghost var was := View();
          dirty := dirty[o := true];
          OnlyObserversUpset(graph, was, View(), o, rest);
          Notify(observers[o], o, rest);
        } else {
          Run(o);
        }
      }
      NoMembers(snapshot[|snapshot|..]);
      MoreBad(graph, View(), bad + Members(snapshot[|snapshot|..]), bad);
    }

    /** Setting a state signal terminates and leaves every clean cache and every effect's last run
        current. */
    method Set(s: nat, next: int)
      requires Valid() && activeSubscriber.None? && s < |graph| && graph[s].State?
      requires ConsistentBut(graph, View(), {})
      modifies this
      ensures Valid() && activeSubscriber.None? && ConsistentBut(graph, View(), {})
      ensures value[s] == next
      ensures forall m | 0 <= m < |graph| && graph[m].State? && m != s :: value[m] == old(value)[m]
      ensures forall m | 0 <= m < |graph| && graph[m].Effect? && !old(dirty)[m] :: !dirty[m]
      ensures forall n | 0 <= n < |graph| && !dirty[n] :: value[n] == Meaning(graph, value, n)
    {
      if next != value[s] {
        ghost var was := View();
        value := value[s := next];
        OnlyObserversUpset(graph, was, View(), s, {});
        assert {} + Members(observers[s]) == Members(observers[s]);
        Notify(observers[s], s, {});
      }
      forall n | 0 <= n < |graph| && !dirty[n] ensures value[n] == Meaning(graph, value, n) {
        ConsistentIsCurrent(graph, View(), n);
      }
    }

    /** Reading a signal from outside any function gives its meaning on the current state. */
    method Peek(s: nat) returns (v: int)
      requires Valid() && activeSubscriber.None? && s < |graph| && !graph[s].Effect?
      requires ConsistentBut(graph, View(), {})
      modifies this
      ensures Valid() && activeSubscriber.None? && ConsistentBut(graph, View(), {})
      ensures forall m | 0 <= m < |graph| && graph[m].State? :: value[m] == old(value)[m]
      ensures v == Meaning(graph, value, s)
    {
      v := Get(s);
      WarmerConsistent(graph, old(View()), View(), {});
      ConsistentIsCurrent(graph, View(), s);
    }

    /** Creating an effect runs it once, on current values. */
    method StartEffect(e: nat)
      requires Valid() && activeSubscriber.None? && e < |graph| && graph[e].Effect?
      requires ConsistentBut(graph, View(), {})
      modifies this
      ensures Valid() && activeSubscriber.None? && ConsistentBut(graph, View(), {})
      ensures forall m | 0 <= m < |graph| && graph[m].State? :: value[m] == old(value)[m]
      ensures forall m | 0 <= m < |graph| && graph[m].Effect? && m != e :: dirty[m] == old(dirty)[m]
      ensures !dirty[e] && value[e] == Meaning(graph, value, e)
    {
      assert ConsistentBut(graph, View(), {} + {e});
      Run(e);
      ConsistentIsCurrent(graph, View(), e);
    }
  }

  lemma NothingReplays(g: Graph, h: Heap, n: nat)
    requires Acyclic(g) && Shaped(g, h) && n < |g| && !g[n].State?
    ensures Replays(g, h, n, [])
  {
  }

  lemma WarmerKeeps(g: Graph, h: Heap, k: Heap)
    requires Acyclic(g) && Shaped(g, h) && Shaped(g, k) && Warmer(g, h, k)
    ensures forall n | 0 <= n < |g| && g[n].State? :: k.value[n] == h.value[n]
    ensures forall n | 0 <= n < |g| && g[n].Effect? :: k.dirty[n] == h.dirty[n]
  {
  }

  lemma ExtendReplay(g: Graph, h: Heap, n: nat, r: seq<int>, v: int)
    requires Acyclic(g) && Shaped(g, h) && n < |g| && !g[n].State? && Replays(g, h, n, r)
    requires g[n].fn.next(r).Ask?
    requires var s := g[n].fn.next(r).sig; !h.dirty[s] && h.value[s] == v && n in h.observers[s]
    ensures |r| < g[n].fn.bound && Replays(g, h, n, r + [v])
  {
    var t := r + [v];
    forall i | 0 <= i < |t| ensures Served(g, h, n, t, i) {
      if i < |r| {
        assert Served(g, h, n, r, i) && t[..i] == r[..i];
      } else {
        assert t[..i] == r;
      }
    }
  }

  // Node n's run ends: its result is stored and nothing else changes.
  ghost predicate Stored(g: Graph, h: Heap, k: Heap, n: nat)
    requires Acyclic(g) && Shaped(g, h) && n < |g| && !g[n].State?
  {
    && Shaped(g, k) && k.observers == h.observers && !k.dirty[n]
    && (forall m | 0 <= m < |g| && m != n ::
          k.value[m] == h.value[m] && k.dirty[m] == h.dirty[m] && k.read[m] == h.read[m])
  }

  // A node does not read itself, so storing its result does not disturb its own run.
  lemma StoreResult(g: Graph, h: Heap, k: Heap, n: nat)
    requires Acyclic(g) && Shaped(g, h) && n < |g| && !g[n].State? && Stored(g, h, k, n)
    requires Replays(g, h, n, k.read[n]) && g[n].fn.next(k.read[n]) == Return(k.value[n])
    ensures Consistent(g, k, n)
  {
    var r := k.read[n];
    forall i | 0 <= i < |r| ensures Served(g, k, n, r, i) {
      assert Served(g, h, n, r, i);
    }
  }

  lemma StoreKeepsConsistent(g: Graph, h: Heap, k: Heap, n: nat, bad: set<nat>)
    requires Acyclic(g) && Shaped(g, h) && n < |g| && !g[n].State? && Stored(g, h, k, n)
    requires ConsistentBut(g, h, bad + {n}) && Consistent(g, k, n)
    requires h.dirty[n] || g[n].Effect?
    ensures ConsistentBut(g, k, bad)
  {
    forall m | 0 <= m < |g| && m !in bad ensures Consistent(g, k, m) {
      if m != n {
        assert Consistent(g, h, m);
        if !g[m].State? && !h.dirty[m] {
          forall i | 0 <= i < |h.read[m]| ensures Served(g, k, m, h.read[m], i) {
            assert Served(g, h, m, h.read[m], i);
          }
        }
      }
    }
  }

  lemma StoreKeepsWarmer(g: Graph, was: Heap, h: Heap, k: Heap, n: nat)
    requires Acyclic(g) && Shaped(g, was) && Shaped(g, h) && n < |g| && !g[n].State? && Stored(g, h, k, n)
    requires Warmer(g, was, h) && was.dirty[n] && h.dirty[n] && !g[n].Effect? && Consistent(g, k, n)
    ensures Warmer(g, was, k)
  {
    forall m | 0 <= m < |g| && was.dirty[m] && !k.dirty[m] ensures Consistent(g, k, m) {
      if m != n {
        assert Consistent(g, h, m);
        if !g[m].State? {
          forall i | 0 <= i < |h.read[m]| ensures Served(g, k, m, h.read[m], i) {
            assert Served(g, h, m, h.read[m], i);
          }
        }
      }
    }
  }
}

/** The per-key token bucket of internal/httpx/middleware.go.

    `Limiter` is the state behind the mutex; `Admit` is one call of Allow, sweep included.
    Times are seconds as reals, because float rounding is not the point here.  The limiter that
    never forgets a bucket is `Ledger`; the theorems say that sweeping cannot be told apart from it,
    and that the answers are exactly "admit while every window stays within burst + rate * length". */
module TokenBucket {

  const SWEEP_INTERVAL := 60.0
  // Go's zero time.Time, in Unix seconds: where lastSweep starts.
  const ZERO_TIME := -62135596800.0

  datatype Bucket = Bucket(tokens: real, last: real)
  datatype Limiter = Limiter(rate: real, capacity: real, buckets: map<string, Bucket>, lastSweep: real)
  datatype Call = Call(key: string, now: real)

  function Burst(burst: real): (capacity: real)
    ensures capacity >= 1.0 && capacity >= burst && (capacity == burst || capacity == 1.0)
  {
    if burst < 1.0 then 1.0 else burst
  }

  function NewLimiter(rate: real, burst: real): Limiter {
    Limiter(rate, Burst(burst), map[], ZERO_TIME)
  }

  /** Tokens earned from one instant to another. */
  function Earned(rate: real, from: real, to: real): real {
    (to - from) * rate
  }

  function Refill(rate: real, capacity: real, b: Bucket, now: real): real {
    var t := b.tokens + Earned(rate, b.last, now);
    if t > capacity then capacity else t
  }

  function Sweep(l: Limiter, now: real): Limiter {
    if now - l.lastSweep < SWEEP_INTERVAL then l
    else l.(lastSweep := now,
            buckets := map k | k in l.buckets && !(Refill(l.rate, l.capacity, l.buckets[k], now) >= l.capacity)
                         :: l.buckets[k])
  }

  /** One call of Allow: the new state and the answer. */
  function Admit(l: Limiter, c: Call): (Limiter, bool) {
    var s := Sweep(l, c.now);
    if c.key !in s.buckets then
      (s.(buckets := s.buckets[c.key := Bucket(s.capacity - 1.0, c.now)]), true)
    else
      var t := Refill(s.rate, s.capacity, s.buckets[c.key], c.now);
      if t >= 1.0 then (s.(buckets := s.buckets[c.key := Bucket(t - 1.0, c.now)]), true)
      else (s.(buckets := s.buckets[c.key := Bucket(t, c.now)]), false)
  }

  /** The state after the first n calls of a run, and the answer the n-th call gets. */
  function After(l: Limiter, calls: seq<Call>, n: nat): Limiter
    requires n <= |calls|
  {
    if n == 0 then l else Admit(After(l, calls, n - 1), calls[n - 1]).0
  }

  predicate Answer(l: Limiter, calls: seq<Call>, n: nat)
    requires n < |calls|
  {
    Admit(After(l, calls, n), calls[n]).1
  }

  // The mutex is taken before the clock is read, so the calls of a run never go back in time.
  ghost predicate Ordered(calls: seq<Call>) {
    forall i, j :: 0 <= i <= j < |calls| ==> calls[i].now <= calls[j].now
  }

  // ---------------------------------------------------------------------------
  // The reference: every key starts full and no bucket is ever dropped.
  // ---------------------------------------------------------------------------

  type Ledger = map<string, Bucket>

  function Credit(rate: real, capacity: real, g: Ledger, c: Call): real {
    if c.key in g then Refill(rate, capacity, g[c.key], c.now) else capacity
  }

  function Charge(rate: real, capacity: real, g: Ledger, c: Call): Ledger {
    var t := Credit(rate, capacity, g, c);
    g[c.key := Bucket(if t >= 1.0 then t - 1.0 else t, c.now)]
  }

  function LedgerAfter(rate: real, capacity: real, calls: seq<Call>, n: nat): Ledger
    requires n <= |calls|
  {
    if n == 0 then map[] else Charge(rate, capacity, LedgerAfter(rate, capacity, calls, n - 1), calls[n - 1])
  }

  predicate LedgerAnswer(rate: real, capacity: real, calls: seq<Call>, n: nat)
    requires n < |calls|
  {
    Credit(rate, capacity, LedgerAfter(rate, capacity, calls, n), calls[n]) >= 1.0
  }

  // ---------------------------------------------------------------------------
  // Arithmetic
  // ---------------------------------------------------------------------------

  lemma Accrual(rate: real, a: real, b: real, c: real)
    ensures Earned(rate, a, c) == Earned(rate, a, b) + Earned(rate, b, c)
    ensures Earned(rate, a, a) == 0.0
    ensures rate >= 0.0 && b <= c ==> Earned(rate, b, c) >= 0.0
    ensures rate <= 0.0 && b <= c ==> Earned(rate, b, c) <= 0.0
  {
    assert c - a == (b - a) + (c - b);
  }

  // ---------------------------------------------------------------------------
  // Sweeping is invisible
  // ---------------------------------------------------------------------------

  /** The swept state and the ledger agree, except on keys whose ledger bucket is already full. */
  ghost predicate Mirrors(l: Limiter, g: Ledger, now: real) {
    && (forall k :: k in l.buckets ==> k in g && l.buckets[k] == g[k])
    && (forall k :: k in g ==> g[k].tokens < l.capacity && g[k].last <= now)
    && (forall k :: k in g && k !in l.buckets ==> Refill(l.rate, l.capacity, g[k], now) >= l.capacity)
  }

  // With a non-negative rate a full bucket stays full; with a negative one no bucket is ever full.
  lemma FullStaysFull(rate: real, capacity: real, b: Bucket, now: real, later: real)
    requires b.tokens < capacity && b.last <= now <= later
    requires Refill(rate, capacity, b, now) >= capacity
    ensures Refill(rate, capacity, b, later) >= capacity
  {
    hide Earned;
    Accrual(rate, b.last, now, later);
    Accrual(rate, b.last, b.last, now);
  }

  lemma MirrorsLater(l: Limiter, g: Ledger, now: real, later: real)
    requires now <= later && Mirrors(l, g, now)
    ensures Mirrors(l, g, later)
  {
    hide Refill;
    forall k | k in g && k !in l.buckets ensures Refill(l.rate, l.capacity, g[k], later) >= l.capacity {
      FullStaysFull(l.rate, l.capacity, g[k], now, later);
    }
  }

  lemma MirrorsSwept(l: Limiter, g: Ledger, now: real)
    requires Mirrors(l, g, now)
    ensures Mirrors(Sweep(l, now), g, now)
  {
    hide Refill;
  }

  lemma MirrorsStep(l: Limiter, g: Ledger, last: real, c: Call)
    requires l.capacity >= 1.0 && last <= c.now && Mirrors(l, g, last)
    ensures Mirrors(Admit(l, c).0, Charge(l.rate, l.capacity, g, c), c.now)
    ensures Admit(l, c).1 == (Credit(l.rate, l.capacity, g, c) >= 1.0)
    ensures Admit(l, c).0.rate == l.rate && Admit(l, c).0.capacity == l.capacity
  {
    hide Earned;
    MirrorsLater(l, g, last, c.now);
    MirrorsSwept(l, g, c.now);
    hide Sweep;
  }

  lemma {:induction false} MirrorsAlways(rate: real, burst: real, calls: seq<Call>, n: nat)
    requires Ordered(calls) && n <= |calls|
    ensures var l := After(NewLimiter(rate, burst), calls, n);
            l.rate == rate && l.capacity == Burst(burst)
    ensures n < |calls| ==>
              Mirrors(After(NewLimiter(rate, burst), calls, n), LedgerAfter(rate, Burst(burst), calls, n), calls[n].now)
  {
    hide Earned;
    if n > 0 {
      MirrorsAlways(rate, burst, calls, n - 1);
      var l, g := After(NewLimiter(rate, burst), calls, n - 1), LedgerAfter(rate, Burst(burst), calls, n - 1);
      MirrorsStep(l, g, calls[n - 1].now, calls[n - 1]);
      if n < |calls| {
        hide Admit, Charge, Mirrors;
        MirrorsLater(After(NewLimiter(rate, burst), calls, n), LedgerAfter(rate, Burst(burst), calls, n),
                     calls[n - 1].now, calls[n].now);
      }
    }
  }

  /** On every run the sweeping limiter answers exactly as the one that never drops a bucket,
      whatever the rate (even a negative one, which the constructor does not rule out). */
  lemma SweepIsInvisible(rate: real, burst: real, calls: seq<Call>, n: nat)
    requires Ordered(calls) && n < |calls|
    ensures Answer(NewLimiter(rate, burst), calls, n) == LedgerAnswer(rate, Burst(burst), calls, n)
  {
    hide Earned;
    MirrorsAlways(rate, burst, calls, n);
    MirrorsStep(After(NewLimiter(rate, burst), calls, n), LedgerAfter(rate, Burst(burst), calls, n),
                calls[n].now, calls[n]);
  }

  // ---------------------------------------------------------------------------
  // What the answers mean: every window within burst + rate * length
  // ---------------------------------------------------------------------------

  /** How many of the calls i..n-1 for key were allowed. */
  function Granted(l: Limiter, calls: seq<Call>, key: string, i: nat, n: nat): nat
    requires i <= n <= |calls|
    decreases n
  {
    if i == n then 0
    else Granted(l, calls, key, i, n - 1) + (if calls[n - 1].key == key && Answer(l, calls, n - 1) then 1 else 0)
  }

  /** The tokens a call for key would find at `now`. */
  function Level(l: Limiter, key: string, now: real): real {
    if key in l.buckets then Refill(l.rate, l.capacity, l.buckets[key], now) else l.capacity
  }

  // Every bucket was last touched in the past, and is neither overdrawn nor over capacity.
  ghost predicate Healthy(l: Limiter, now: real) {
    && l.rate >= 0.0 && l.capacity >= 1.0
    && forall k :: k in l.buckets ==> l.buckets[k].last <= now && 0.0 <= l.buckets[k].tokens <= l.capacity
  }

  lemma LevelGrows(l: Limiter, key: string, now: real, later: real)
    requires Healthy(l, now) && now <= later
    ensures Level(l, key, later) ==
            if Level(l, key, now) + Earned(l.rate, now, later) > l.capacity then l.capacity
            else Level(l, key, now) + Earned(l.rate, now, later)
    ensures 0.0 <= Level(l, key, now) <= Level(l, key, later) <= l.capacity
  {
    hide Earned;
    Accrual(l.rate, now, now, later);
    if key in l.buckets {
      Accrual(l.rate, l.buckets[key].last, now, later);
      Accrual(l.rate, l.buckets[key].last, l.buckets[key].last, now);
    }
  }

  lemma LevelStep(l: Limiter, key: string, c: Call)
    requires Healthy(l, c.now)
    ensures Healthy(Admit(l, c).0, c.now)
    ensures Admit(l, c).0.rate == l.rate && Admit(l, c).0.capacity == l.capacity
    ensures Admit(l, c).1 == (Level(l, c.key, c.now) >= 1.0)
    ensures Level(Admit(l, c).0, key, c.now) ==
            Level(l, key, c.now) - (if c.key == key && Admit(l, c).1 then 1.0 else 0.0)
  {
    hide Earned;
    Accrual(l.rate, c.now, c.now, c.now);
    LevelGrows(l, key, c.now, c.now);
    LevelGrows(l, c.key, c.now, c.now);
    SweepKeepsLevel(l, key, c.now);
    SweepKeepsLevel(l, c.key, c.now);
  }

  // A dropped bucket was full, and a missing one reads as full.
  lemma SweepKeepsLevel(l: Limiter, key: string, now: real)
    ensures Level(Sweep(l, now), key, now) == Level(l, key, now)
  {
    hide Earned;
  }

  lemma {:induction false} HealthyAlways(l: Limiter, calls: seq<Call>, n: nat, t: real)
    requires Ordered(calls) && n <= |calls| && (n > 0 ==> calls[n - 1].now <= t)
    requires l.rate >= 0.0 && l.capacity >= 1.0 && l.buckets == map[]
    ensures Healthy(After(l, calls, n), t)
    ensures After(l, calls, n).rate == l.rate && After(l, calls, n).capacity == l.capacity
  {
    hide Earned;
    if n > 0 {
      HealthyAlways(l, calls, n - 1, calls[n - 1].now);
      LevelStep(After(l, calls, n - 1), calls[n - 1].key, calls[n - 1]);
    }
  }

  /** Room in the window from call i up to time t, after the first n calls. */
  function Room(l: Limiter, calls: seq<Call>, key: string, i: nat, n: nat, t: real): real
    requires i < n <= |calls|
  {
    l.capacity + Earned(l.rate, calls[i].now, t) - Granted(l, calls, key, i, n) as real
  }

  /** The bucket always holds the least room over all windows ending now, or is full. */
  lemma {:induction false} LevelIsLeastRoom(l: Limiter, calls: seq<Call>, key: string, n: nat, t: real)
    requires Ordered(calls) && n <= |calls| && (n > 0 ==> calls[n - 1].now <= t)
    requires l.rate >= 0.0 && l.capacity >= 1.0 && l.buckets == map[]
    ensures forall i | 0 <= i < n :: Level(After(l, calls, n), key, t) <= Room(l, calls, key, i, n, t)
    ensures Level(After(l, calls, n), key, t) == l.capacity
            || exists i | 0 <= i < n :: Level(After(l, calls, n), key, t) == Room(l, calls, key, i, n, t)
  {
    hide Earned;
    if n > 0 {
      var u := calls[n - 1].now;
      var was := After(l, calls, n - 1);
      LevelIsLeastRoom(l, calls, key, n - 1, u);
      HealthyAlways(l, calls, n - 1, u);
      LevelStep(was, key, calls[n - 1]);
      LevelGrows(was, key, u, u);
      LevelGrows(After(l, calls, n), key, u, t);
      Accrual(l.rate, u, u, t);
      forall i | 0 <= i < n ensures Level(After(l, calls, n), key, t) <= Room(l, calls, key, i, n, t) {
        RoomStep(l, calls, key, i, n, t);
      }
      if Level(was, key, u) == l.capacity {
        RoomStep(l, calls, key, n - 1, n, t);
      } else {
        var i :| 0 <= i < n - 1 && Level(was, key, u) == Room(l, calls, key, i, n - 1, u);
        RoomStep(l, calls, key, i, n, t);
      }
    }
  }

  lemma RoomStep(l: Limiter, calls: seq<Call>, key: string, i: nat, n: nat, t: real)
    requires i < n <= |calls|
    ensures var g := if calls[n - 1].key == key && Answer(l, calls, n - 1) then 1.0 else 0.0;
            var before := if i == n - 1 then l.capacity else Room(l, calls, key, i, n - 1, calls[n - 1].now);
            Room(l, calls, key, i, n, t) == before - g + Earned(l.rate, calls[n - 1].now, t)
  {
    hide Earned;
    Accrual(l.rate, calls[i].now, calls[n - 1].now, t);
  }

  /** A call is allowed if and only if allowing it keeps every window of its key, from any earlier
      call up to now, within burst + rate * length: the limiter refuses nothing else. */
  lemma AllowedIffEveryWindowFits(l: Limiter, calls: seq<Call>, n: nat)
    requires Ordered(calls) && n < |calls|
    requires l.rate >= 0.0 && l.capacity >= 1.0 && l.buckets == map[]
    ensures Answer(l, calls, n) <==>
            forall i | 0 <= i <= n ::
              (Granted(l, calls, calls[n].key, i, n) + 1) as real
              <= l.capacity + Earned(l.rate, calls[i].now, calls[n].now)
  {
    hide Earned;
    var key, t := calls[n].key, calls[n].now;
    var now := After(l, calls, n);
    LevelIsLeastRoom(l, calls, key, n, t);
    HealthyAlways(l, calls, n, t);
    LevelStep(now, key, calls[n]);
    if Answer(l, calls, n) {
      forall i | 0 <= i <= n
        ensures (Granted(l, calls, key, i, n) + 1) as real <= l.capacity + Earned(l.rate, calls[i].now, t)
      {
        if i < n { assert Room(l, calls, key, i, n, t) >= 1.0; }
      }
    } else {
      assert Level(now, key, t) < 1.0;
      var i :| 0 <= i < n && Level(now, key, t) == Room(l, calls, key, i, n, t);
      assert (Granted(l, calls, key, i, n) + 1) as real > l.capacity + Earned(l.rate, calls[i].now, t);
    }
  }

  // ---------------------------------------------------------------------------
  // Windows given by two instants
  // ---------------------------------------------------------------------------

  /** Among the first n calls, the allowed ones for key whose time lies in [lo, hi]. */
  function GrantedWithin(l: Limiter, calls: seq<Call>, key: string, lo: real, hi: real, n: nat): nat
    requires n <= |calls|
  {
    if n == 0 then 0
    else GrantedWithin(l, calls, key, lo, hi, n - 1) +
         (if calls[n - 1].key == key && lo <= calls[n - 1].now <= hi && Answer(l, calls, n - 1) then 1 else 0)
  }

  lemma {:induction false} NothingBeforeTheWindow(l: Limiter, calls: seq<Call>, key: string, lo: real, hi: real, n: nat)
    requires n <= |calls| && Ordered(calls) && (n > 0 ==> calls[n - 1].now < lo)
    ensures GrantedWithin(l, calls, key, lo, hi, n) == 0
  {
    hide Earned;
    if n > 0 { NothingBeforeTheWindow(l, calls, key, lo, hi, n - 1); }
  }

  // Tokens spent in the window plus tokens left never exceed what the window can hold.
  lemma {:induction false} SpentPlusLeft(l: Limiter, calls: seq<Call>, key: string, lo: real, hi: real, n: nat, t: real)
    requires Ordered(calls) && n <= |calls| && lo <= t <= hi && (n > 0 ==> calls[n - 1].now <= t)
    requires l.rate >= 0.0 && l.capacity >= 1.0 && l.buckets == map[]
    ensures GrantedWithin(l, calls, key, lo, hi, n) as real + Level(After(l, calls, n), key, t)
            <= l.capacity + Earned(l.rate, lo, t)
  {
    hide Earned;
    HealthyAlways(l, calls, n, t);
    LevelGrows(After(l, calls, n), key, t, t);
    Accrual(l.rate, lo, lo, t);
    if n > 0 {
      var u := calls[n - 1].now;
      if u < lo {
        NothingBeforeTheWindow(l, calls, key, lo, hi, n);
      } else {
        SpentPlusLeft(l, calls, key, lo, hi, n - 1, u);
        HealthyAlways(l, calls, n - 1, u);
        LevelStep(After(l, calls, n - 1), key, calls[n - 1]);
        LevelGrows(After(l, calls, n), key, u, t);
        Accrual(l.rate, lo, u, t);
      }
    }
  }

  /** In any window of a run at most burst + rate * length calls of one key are allowed,
      whatever buckets were dropped and made again in between. */
  lemma {:induction false} WindowBound(l: Limiter, calls: seq<Call>, key: string, lo: real, hi: real, n: nat)
    requires Ordered(calls) && n <= |calls| && lo <= hi
    requires l.rate >= 0.0 && l.capacity >= 1.0 && l.buckets == map[]
    ensures GrantedWithin(l, calls, key, lo, hi, n) as real <= l.capacity + Earned(l.rate, lo, hi)
  {
    hide Earned;
    if n > 0 && calls[n - 1].now > hi {
      WindowBound(l, calls, key, lo, hi, n - 1);
    } else {
      SpentPlusLeft(l, calls, key, lo, hi, n, hi);
      HealthyAlways(l, calls, n, hi);
      LevelGrows(After(l, calls, n), key, hi, hi);
    }
  }

  // ---------------------------------------------------------------------------
  // A patient key is never refused
  // ---------------------------------------------------------------------------

  /** Any two calls for key are at least 1/rate apart. */
  ghost predicate Patient(rate: real, calls: seq<Call>, key: string) {
    forall i, j :: 0 <= i < j < |calls| && calls[i].key == key && calls[j].key == key
                   ==> Earned(rate, calls[i].now, calls[j].now) >= 1.0
  }

  lemma {:induction false} PatientLevel(l: Limiter, calls: seq<Call>, key: string, n: nat, t: real)
    requires Ordered(calls) && n <= |calls| && (n > 0 ==> calls[n - 1].now <= t)
    requires l.rate >= 0.0 && l.capacity >= 1.0 && l.buckets == map[]
    ensures Level(After(l, calls, n), key, t) >= 1.0
            || exists j | 0 <= j < n ::
                 calls[j].key == key && Level(After(l, calls, n), key, t) >= Earned(l.rate, calls[j].now, t)
  {
    hide Earned;
    if n > 0 {
      var u := calls[n - 1].now;
      PatientLevel(l, calls, key, n - 1, u);
      HealthyAlways(l, calls, n - 1, u);
      LevelStep(After(l, calls, n - 1), key, calls[n - 1]);
      LevelGrows(After(l, calls, n - 1), key, u, u);
      LevelGrows(After(l, calls, n), key, u, t);
      Accrual(l.rate, u, u, t);
      if calls[n - 1].key != key && Level(After(l, calls, n), key, t) < 1.0 {
        var j :| 0 <= j < n - 1 && calls[j].key == key
                 && Level(After(l, calls, n - 1), key, u) >= Earned(l.rate, calls[j].now, u);
        Accrual(l.rate, calls[j].now, u, t);
      }
    }
  }

  lemma PatientKeyNeverRefused(l: Limiter, calls: seq<Call>, n: nat)
    requires Ordered(calls) && n < |calls| && Patient(l.rate, calls, calls[n].key)
    requires l.rate >= 0.0 && l.capacity >= 1.0 && l.buckets == map[]
    ensures Answer(l, calls, n)
  {
    hide Earned;
    PatientLevel(l, calls, calls[n].key, n, calls[n].now);
    HealthyAlways(l, calls, n, calls[n].now);
    LevelStep(After(l, calls, n), calls[n].key, calls[n]);
  }

  // ---------------------------------------------------------------------------
  // Only recently active keys are tracked
  // ---------------------------------------------------------------------------

  // The bucket of key was last touched by a call after which it could not refill before the last sweep.
  ghost predicate Recent(l: Limiter, calls: seq<Call>, n: nat, key: string)
    requires n <= |calls| && key in l.buckets
  {
    exists j | 0 <= j < n :: calls[j].key == key && l.buckets[key].last == calls[j].now
                             && Earned(l.rate, calls[j].now, l.lastSweep) < l.capacity
  }

  lemma RecentStep(l: Limiter, calls: seq<Call>, n: nat, key: string)
    requires 0 < n <= |calls| && Healthy(l, calls[n - 1].now) && l.lastSweep <= calls[n - 1].now
    requires key in l.buckets ==> Recent(l, calls, n - 1, key)
    requires key in Admit(l, calls[n - 1]).0.buckets
    ensures Recent(Admit(l, calls[n - 1]).0, calls, n, key)
  {
    hide Earned;
    var c, m := calls[n - 1], Admit(l, calls[n - 1]).0;
    if key == c.key {
      Accrual(l.rate, c.now, c.now, c.now);
      Accrual(l.rate, c.now, l.lastSweep, c.now);
      Accrual(l.rate, l.lastSweep, l.lastSweep, c.now);
      assert calls[n - 1].key == key && m.buckets[key].last == calls[n - 1].now;
    } else {
      var j :| 0 <= j < n - 1 && calls[j].key == key && l.buckets[key].last == calls[j].now
               && Earned(l.rate, calls[j].now, l.lastSweep) < l.capacity;
      assert calls[j].key == key && m.buckets[key].last == calls[j].now;
    }
  }

  /** Memory is bounded by the recently active keys: after every call the last sweep is less than a
      minute ago, and every tracked key was called too shortly before it for a bucket to refill. */
  lemma {:induction false} TrackedKeysAreRecent(l: Limiter, calls: seq<Call>, n: nat)
    requires Ordered(calls) && 0 < n <= |calls| && l.lastSweep <= calls[0].now
    requires l.rate >= 0.0 && l.capacity >= 1.0 && l.buckets == map[]
    ensures var m := After(l, calls, n);
            && m.lastSweep <= calls[n - 1].now < m.lastSweep + SWEEP_INTERVAL
            && forall k | k in m.buckets ::
                 exists j | 0 <= j < n :: calls[j].key == k && Earned(l.rate, calls[j].now, m.lastSweep) < l.capacity
    ensures forall k | k in After(l, calls, n).buckets :: Recent(After(l, calls, n), calls, n, k)
  {
    hide Earned;
    var was, c := After(l, calls, n - 1), calls[n - 1];
    HealthyAlways(l, calls, n - 1, c.now);
    HealthyAlways(l, calls, n, c.now);
    if n > 1 { TrackedKeysAreRecent(l, calls, n - 1); }
    var m := After(l, calls, n);
    forall k | k in m.buckets ensures Recent(m, calls, n, k) {
      RecentStep(was, calls, n, k);
    }
  }

  /** The price of a call: keys are only gone through when the last time was a minute ago or more, and only then
      is one dropped. */
  lemma SweepsAreAMinuteApart(l: Limiter, calls: seq<Call>, n: nat)
    requires n < |calls|
    ensures var was, now := After(l, calls, n), After(l, calls, n + 1);
            && (now.lastSweep != was.lastSweep || !(was.buckets.Keys <= now.buckets.Keys) ==>
                  now.lastSweep == calls[n].now && calls[n].now - was.lastSweep >= 60.0)
            && now.buckets.Keys <= was.buckets.Keys + {calls[n].key}
  {
    hide Refill;
  }

  // ---------------------------------------------------------------------------
  // The limiter itself: a map updated in place, swept by a deleting loop
  // ---------------------------------------------------------------------------

  class RateLimiter {
    var buckets: map<string, Bucket>
    const rate: real
    const capacity: real
    var lastSweep: real

    ghost function View(): Limiter
      reads this
    {
      Limiter(rate, capacity, buckets, lastSweep)
    }

    constructor (ratePerSec: real, burst: real)
      ensures View() == NewLimiter(ratePerSec, burst)
    {
      rate := ratePerSec;
      capacity := if burst < 1.0 then 1.0 else burst;
      buckets := map[];
      lastSweep := ZERO_TIME;
    }

    method Allow(key: string, now: real) returns (ok: bool)
      modifies this
      ensures (View(), ok) == Admit(old(View()), Call(key, now))
    {
      SweepFull(now);
      if key !in buckets {
        buckets := buckets[key := Bucket(capacity - 1.0, now)];
        return true;
      }
      var t := Refill(rate, capacity, buckets[key], now);
      buckets := buckets[key := Bucket(t, now)];
      if t >= 1.0 {
        buckets := buckets[key := Bucket(t - 1.0, now)];
        assert buckets == Admit(old(View()), Call(key, now)).0.buckets;
        return true;
      }
      return false;
    }

    method SweepFull(now: real)
      modifies this
      ensures View() == Sweep(old(View()), now)
    {
      if now - lastSweep < SWEEP_INTERVAL {
        return;
      }
      lastSweep := now;
      ghost var all := buckets;
      var left := buckets.Keys;
      while left != {}
        invariant lastSweep == now && left <= buckets.Keys <= all.Keys
        invariant forall k :: k in buckets ==> buckets[k] == all[k]
        invariant forall k :: k in all && k !in left ==>
                    (k in buckets <==> !(Refill(rate, capacity, all[k], now) >= capacity))
        decreases |left|
      {
        var k :| k in left;
        left := left - {k};
        if Refill(rate, capacity, buckets[k], now) >= capacity {
          buckets := buckets - {k};
        }
      }
      assert buckets == Sweep(old(View()), now).buckets;
    }
  }
}

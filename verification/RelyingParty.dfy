/** The relying-party provider of internal/auth/passkey.go: a static relying party, and ones derived
    from trusted origins behind a bounded cache. */
module RelyingParty {
  import opened Wrappers
  import opened Text
  import opened Origins

  const MAX_DERIVED_RPS := 256

  datatype Error = NotAllowed | NoRpId | Invalid(reason: string)

  datatype Rp = Rp(rpID: string, displayName: string, origins: seq<string>)

  /** What a provider is configured with; check stands for the WebAuthn library's verdict on a relying
      party's data, None being acceptance. */
  datatype Config = Config(rp: Rp, patterns: seq<string>, check: Rp -> Option<string>)

  function NewWebAuthn(cfg: Config, rp: Rp): Result<Rp, Error> {
    match cfg.check(rp)
    case None => Success(rp)
    case Some(reason) => Failure(Invalid(reason))
  }

  // ---------------------------------------------------------------------------
  // The provider without a cache
  // ---------------------------------------------------------------------------

  function StaticOrigins(origins: seq<string>): set<string> {
    if origins == [] then {} else StaticOrigins(origins[..|origins| - 1]) + {Canonical(origins[|origins| - 1])}
  }

  function StaticDefault(origins: seq<string>): string {
    if origins == [] then "" else origins[0]
  }

  predicate Trusted(patterns: seq<string>, origin: string) {
    exists p | p in patterns :: MatchOriginPattern(p, origin)
  }

  function Derive(cfg: Config, origin: string): Result<Rp, Error> {
    var rpID := HostOfOrigin(origin);
    if rpID == "" then Failure(NoRpId) else NewWebAuthn(cfg, Rp(rpID, cfg.rp.displayName, [origin]))
  }

  /** The relying party of an origin, and the origin to pin to the ceremony. */
  function Resolve(cfg: Config, origin: string): Result<(Rp, string), Error> {
    var o := Canonical(origin);
    if o == "" then Success((cfg.rp, StaticDefault(cfg.rp.origins)))
    else if o in StaticOrigins(cfg.rp.origins) then Success((cfg.rp, o))
    else if !Trusted(cfg.patterns, o) then Failure(NotAllowed)
    else Pinned(Derive(cfg, o), o)
  }

  function Pinned(rp: Result<Rp, Error>, origin: string): Result<(Rp, string), Error> {
    match rp
    case Success(rp) => Success((rp, origin))
    case Failure(e) => Failure(e)
  }

  // ---------------------------------------------------------------------------
  // The cache
  // ---------------------------------------------------------------------------

  type Cache = map<string, Rp>

  predicate Derived(cfg: Config, origin: string) {
    var o := Canonical(origin);
    o != "" && o !in StaticOrigins(cfg.rp.origins) && Trusted(cfg.patterns, o)
  }

  // A hit is served as it is; a miss is derived and kept, a full cache being emptied first.
  function Lookup(cfg: Config, cache: Cache, o: string): (Result<Rp, Error>, Cache) {
    if o in cache then (Success(cache[o]), cache)
    else
      match Derive(cfg, o)
      case Failure(e) => (Failure(e), cache)
      case Success(rp) => (Success(rp), (if |cache| >= MAX_DERIVED_RPS then map[] else cache)[o := rp])
  }

  function Answer(cfg: Config, cache: Cache, origin: string): (Result<(Rp, string), Error>, Cache) {
    var o := Canonical(origin);
    if Derived(cfg, origin) then var (rp, next) := Lookup(cfg, cache, o); (Pinned(rp, o), next)
    else (Resolve(cfg, origin), cache)
  }

  function CacheAfter(cfg: Config, calls: seq<string>): Cache {
    if calls == [] then map[] else Answer(cfg, CacheAfter(cfg, calls[..|calls| - 1]), calls[|calls| - 1]).1
  }

  ghost predicate Sound(cfg: Config, cache: Cache) {
    |cache| <= MAX_DERIVED_RPS && forall o | o in cache :: Derive(cfg, o) == Success(cache[o])
  }

  lemma AnswerIsResolve(cfg: Config, cache: Cache, origin: string)
    requires Sound(cfg, cache)
    ensures Answer(cfg, cache, origin).0 == Resolve(cfg, origin) && Sound(cfg, Answer(cfg, cache, origin).1)
  {
    hide Canonical, Derive, Trusted, StaticOrigins;
    if Derived(cfg, origin) {
      hide Lookup;
      LookupIsDerive(cfg, cache, Canonical(origin));
    }
  }

  lemma LookupIsDerive(cfg: Config, cache: Cache, o: string)
    requires Sound(cfg, cache)
    ensures Lookup(cfg, cache, o).0 == Derive(cfg, o) && Sound(cfg, Lookup(cfg, cache, o).1)
  {
    hide Derive;
    var rp := Derive(cfg, o);
    if o !in cache && rp.Success? {
      assert map[o := rp.value].Keys == {o};
      assert cache[o := rp.value].Keys == cache.Keys + {o};
    }
  }

  /** After any calls whatever the next one is answered as if there were no cache, and the cache never
      holds more than 256 relying parties. */
  lemma {:induction false} CacheIsTransparent(cfg: Config, calls: seq<string>, origin: string)
    ensures Answer(cfg, CacheAfter(cfg, calls), origin).0 == Resolve(cfg, origin)
    ensures |CacheAfter(cfg, calls)| <= MAX_DERIVED_RPS
  {
    CacheStaysSound(cfg, calls);
    AnswerIsResolve(cfg, CacheAfter(cfg, calls), origin);
  }

  lemma {:induction false} CacheStaysSound(cfg: Config, calls: seq<string>)
    ensures Sound(cfg, CacheAfter(cfg, calls))
  {
    hide Answer;
    if calls != [] {
      CacheStaysSound(cfg, calls[..|calls| - 1]);
      AnswerIsResolve(cfg, CacheAfter(cfg, calls[..|calls| - 1]), calls[|calls| - 1]);
    }
  }

  /** What was just derived is cached, and other entries go only when a full cache is emptied for a new
      one. */
  lemma CacheKeeps(cfg: Config, cache: Cache, origin: string)
    ensures var next := Answer(cfg, cache, origin).1;
            && (Derived(cfg, origin) && Answer(cfg, cache, origin).0.Success? ==> Canonical(origin) in next)
            && (forall o | o in cache :: (o in next && next[o] == cache[o]) || |cache| >= MAX_DERIVED_RPS)
            && (forall o | o in next :: o in cache || o == Canonical(origin))
  {
    hide Canonical, Derive, Trusted, StaticOrigins;
  }

  // ---------------------------------------------------------------------------
  // Which party an origin gets
  // ---------------------------------------------------------------------------

  predicate Configured(cfg: Config, o: string) {
    exists s | s in cfg.rp.origins :: Canonical(s) == o
  }

  predicate PatternMatches(cfg: Config, o: string) {
    exists p | p in cfg.patterns :: Labelwise(p, o)
  }

  lemma TrustedIsMatched(cfg: Config, o: string)
    ensures Trusted(cfg.patterns, o) <==> PatternMatches(cfg, o)
  {
    hide MatchOriginPattern, Labelwise;
    forall p | p in cfg.patterns ensures MatchOriginPattern(p, o) <==> Labelwise(p, o) {
      MatchIsLabelwise(p, o);
    }
  }

  // A trusted origin has no configured spelling, so what is derived for it is another party.
  lemma DerivedIsAnother(cfg: Config, o: string, rp: Rp)
    requires Derive(cfg, o) == Success(rp) && o == Canonical(o) && !Configured(cfg, o)
    ensures rp != cfg.rp
  {
    hide Canonical, HostOfOrigin;
    assert o in rp.origins;
  }

  /** An origin is refused as not allowed if and only if it is there, is no configured origin's canonical
      spelling, and no pattern matches it; it gets the static party if and only if it is blank or such a
      spelling, pinning the first configured origin, or itself. */
  lemma WhoIsAllowed(cfg: Config, header: string)
    ensures var o, r := Canonical(header), Resolve(cfg, header);
            && (r == Failure(NotAllowed) <==> o != "" && !Configured(cfg, o) && !PatternMatches(cfg, o))
            && (r.Success? && r.value.0 == cfg.rp <==> o == "" || Configured(cfg, o))
            && (o == "" ==> r == Success((cfg.rp, if |cfg.rp.origins| > 0 then cfg.rp.origins[0] else "")))
            && (o != "" && Configured(cfg, o) ==> r == Success((cfg.rp, o)))
  {
    hide Canonical, Derive, Trusted, StaticOrigins, PatternMatches;
    var o := Canonical(header);
    CanonicalIsStable(header);
    StaticOriginsHold(cfg.rp.origins, o);
    TrustedIsMatched(cfg, o);
    DeriveRefusesOtherwise(cfg, o);
    if Derive(cfg, o).Success? && !Configured(cfg, o) {
      DerivedIsAnother(cfg, o, Derive(cfg, o).value);
    }
  }

  lemma DeriveRefusesOtherwise(cfg: Config, o: string)
    ensures Derive(cfg, o) != Failure(NotAllowed)
  {
  }

  /** A matched origin's host up to the last colon is the RP ID of the party derived for it, bound to that
      origin alone: no party if there is nothing before the colon or the library refuses it. */
  lemma WhatIsDerived(cfg: Config, header: string)
    requires var o := Canonical(header); o != "" && !Configured(cfg, o) && PatternMatches(cfg, o)
    ensures var o, r := Canonical(header), Resolve(cfg, header);
            && SplitOrigin(o).Some?
            && var host := BeforeLast(SplitOrigin(o).value.host, ':');
               var rp := Rp(host, cfg.rp.displayName, [o]);
            && (host == "" ==> r == Failure(NoRpId))
            && (host != "" && cfg.check(rp).None? ==> r == Success((rp, o)))
            && (host != "" && cfg.check(rp).Some? ==> r == Failure(Invalid(cfg.check(rp).value)))
  {
    hide Canonical, StaticOrigins, HostOfOrigin, OneLabelMore, IsWildcard, SplitOrigin;
    var o := Canonical(header);
    CanonicalIsStable(header);
    StaticOriginsHold(cfg.rp.origins, o);
    TrustedIsMatched(cfg, o);
    DerivedHost(o, SplitOrigin(o).value);
  }

  // ---------------------------------------------------------------------------
  // Beginning and finishing a ceremony
  // ---------------------------------------------------------------------------

  lemma {:induction false} StaticOriginsHold(origins: seq<string>, o: string)
    ensures o in StaticOrigins(origins) <==> exists s | s in origins :: Canonical(s) == o
  {
    if origins != [] {
      var init, last := origins[..|origins| - 1], origins[|origins| - 1];
      StaticOriginsHold(init, o);
      assert origins == init + [last];
      assert last in origins;
    }
  }

  /** Resolving the origin pinned when a ceremony began gives the same relying party when it finishes,
      and the same pinned origin unless the request carried none. */
  lemma BeginAndFinishAgree(cfg: Config, origin: string, rp: Rp, pinned: string)
    requires Resolve(cfg, origin) == Success((rp, pinned))
    ensures Resolve(cfg, pinned).Success? && Resolve(cfg, pinned).value.0 == rp
    ensures Canonical(origin) != "" ==> Resolve(cfg, pinned) == Resolve(cfg, origin)
  {
    hide Canonical, Derive, Trusted, StaticOrigins;
    CanonicalIsStable(origin);
    if Canonical(origin) == "" {
      BlankIsStatic(cfg);
    }
  }

  lemma BlankIsStatic(cfg: Config)
    ensures var d := Resolve(cfg, StaticDefault(cfg.rp.origins)); d.Success? && d.value.0 == cfg.rp
  {
    var origins := cfg.rp.origins;
    if origins == [] {
      assert Canonical("") == "";
    } else {
      StaticOriginsHold(origins, Canonical(origins[0]));
    }
  }

  predicate PortFreeWildcards(patterns: seq<string>) {
    forall p | p in patterns && SplitOrigin(p).Some? ::
      IsWildcard(SplitOrigin(p).value) && ':' !in SplitOrigin(p).value.host
  }

  /** A derived relying party is bound to exactly its origin, with that origin's host up to the last
      colon as RP ID.  When every trusted pattern is a wildcard without a port the RP ID is the whole
      host, so origins of different hosts never share one, and it is one label in front of the suffix
      of a trusted pattern. */
  lemma DerivedIsBoundToHost(cfg: Config, origin: string, rp: Rp, pinned: string)
    requires Derived(cfg, origin) && Resolve(cfg, origin) == Success((rp, pinned))
    ensures pinned == Canonical(origin) && rp.origins == [pinned] && SplitOrigin(pinned).Some?
    ensures rp.rpID == BeforeLast(SplitOrigin(pinned).value.host, ':')
    ensures PortFreeWildcards(cfg.patterns) ==>
              && rp.rpID == SplitOrigin(pinned).value.host
              && exists p | p in cfg.patterns ::
                   SplitOrigin(p).Some? && rp.rpID == Labels(rp.rpID)[0] + SplitOrigin(p).value.host[1..]
  {
    hide Canonical, HostOfOrigin, SplitOrigin, Labels, IsWildcard;
    var p :| p in cfg.patterns && MatchOriginPattern(p, pinned);
    CanonicalIsStable(origin);
    DerivedHost(pinned, SplitOrigin(pinned).value);
    if PortFreeWildcards(cfg.patterns) {
      WildcardRpId(p, pinned, SplitOrigin(p).value, SplitOrigin(pinned).value);
    }
  }

  // ---------------------------------------------------------------------------
  // The provider
  // ---------------------------------------------------------------------------

  class RPProvider {
    const cfg: Config
    const staticDefault: string
    const staticOrigins: set<string>
    var byOrigin: Cache

    ghost predicate Valid()
      reads this
    {
      && staticDefault == StaticDefault(cfg.rp.origins) && staticOrigins == StaticOrigins(cfg.rp.origins)
      && Sound(cfg, byOrigin)
    }

    constructor (cfg: Config, staticDefault: string, staticOrigins: set<string>)
      requires staticDefault == StaticDefault(cfg.rp.origins) && staticOrigins == StaticOrigins(cfg.rp.origins)
      ensures Valid() && this.cfg == cfg && byOrigin == map[]
    {
      this.cfg := cfg;
      this.staticDefault := staticDefault;
      this.staticOrigins := staticOrigins;
      byOrigin := map[];
    }

    /** Answers as if there were no cache. */
    method ForOrigin(header: string) returns (r: Result<(Rp, string), Error>)
      requires Valid()
      modifies this`byOrigin
      ensures Valid() && r == Resolve(cfg, header)
      ensures r == Failure(NotAllowed) <==>
              var o := Canonical(header); o != "" && !Configured(cfg, o) && !PatternMatches(cfg, o)
      ensures r.Success? && r.value.0 == cfg.rp <==> var o := Canonical(header); o == "" || Configured(cfg, o)
      ensures byOrigin == Answer(cfg, old(byOrigin), header).1
    {
      hide Canonical, Derive, StaticOrigins, StaticDefault, MatchOriginPattern;
      AnswerIsResolve(cfg, byOrigin, header);
      WhoIsAllowed(cfg, header);
      hide Configured, PatternMatches;
      var origin := Canonical(header);
      if origin == "" {
        return Success((cfg.rp, staticDefault));
      }
      if origin in staticOrigins {
        return Success((cfg.rp, origin));
      }
      for i := 0 to |cfg.patterns|
        invariant forall k | 0 <= k < i :: !MatchOriginPattern(cfg.patterns[k], origin)
      {
        if MatchOriginPattern(cfg.patterns[i], origin) {
          assert Trusted(cfg.patterns, origin);
          var rp := FromCache(origin);
          return match rp case Success(wa) => Success((wa, origin)) case Failure(e) => Failure(e);
        }
      }
      r := Failure(NotAllowed);
    }

    /** derived: the cached relying party of an origin, made and kept if it is not there yet. */
    method FromCache(origin: string) returns (r: Result<Rp, Error>)
      requires Valid()
      modifies this`byOrigin
      ensures (r, byOrigin) == Lookup(cfg, old(byOrigin), origin)
    {
      if origin in byOrigin {
        return Success(byOrigin[origin]);
      }
      var rpID := HostOfOrigin(origin);
      if rpID == "" {
        return Failure(NoRpId);
      }
      var wa := NewWebAuthn(cfg, Rp(rpID, cfg.rp.displayName, [origin]));
      if wa.Failure? {
        return wa;
      }
      if |byOrigin| >= MAX_DERIVED_RPS {
        byOrigin := map[];
      }
      byOrigin := byOrigin[origin := wa.value];
      r := wa;
    }
  }

  method NewRPProvider(cfg: Config) returns (p: RPProvider?, error: Option<Error>)
    ensures p != null <==> cfg.check(cfg.rp) == None
    ensures p != null ==> fresh(p) && p.Valid() && p.cfg == cfg && p.byOrigin == map[] && error == None
    ensures p == null ==> error == Some(Invalid(cfg.check(cfg.rp).value))
  {
    var wa := NewWebAuthn(cfg, cfg.rp);
    if wa.Failure? {
      return null, Some(wa.error);
    }
    var statics := {};
    for i := 0 to |cfg.rp.origins|
      invariant statics == StaticOrigins(cfg.rp.origins[..i])
    {
      assert cfg.rp.origins[..i + 1][..i] == cfg.rp.origins[..i];
      statics := statics + {Canonical(cfg.rp.origins[i])};
    }
    assert cfg.rp.origins[..|cfg.rp.origins|] == cfg.rp.origins;
    var def := "";
    if |cfg.rp.origins| > 0 {
      def := cfg.rp.origins[0];
    }
    p := new RPProvider(cfg, def, statics);
    error := None;
  }
}

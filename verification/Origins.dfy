/** The origin rules of internal/httpx/middleware.go and the host an RP ID is derived from
    (internal/auth/passkey.go). */
module Origins {
  import opened Wrappers
  import opened Text

  datatype Parts = Parts(scheme: string, host: string)

  predicate ContainsAny(s: string, chars: set<char>) {
    exists c | c in s :: c in chars
  }

  function SplitOrigin(origin: string): Option<Parts> {
    var o := Canonical(origin);
    var i := Index(o, "://");
    if i <= 0 then None
    else
      var p := Parts(o[..i], o[i + 3..]);
      if p.host == "" || ContainsAny(p.host, {'/', '?', '#', '@', ' '}) then None else Some(p)
  }

  // The host is a nonempty label and the suffix.
  predicate EndsWithOneLabel(host: string, suffix: string) {
    && |suffix| <= |host| && host[|host| - |suffix|..] == suffix
    && var star := host[..|host| - |suffix|];
       star != "" && !ContainsAny(star, {'.', ':', '/'})
  }

  predicate MatchOriginPattern(pattern: string, origin: string) {
    match (SplitOrigin(pattern), SplitOrigin(origin))
    case (Some(p), Some(o)) =>
      p.scheme == o.scheme &&
      if !At(p.host, 0, "*.") then p.host == o.host else EndsWithOneLabel(o.host, p.host[1..])
    case _ => false
  }

  method OriginAllowed(allowed: seq<string>, allowAny: bool, origin: string) returns (echo: string, ok: bool)
    ensures ok <==> origin != "" &&
                    (allowAny || origin in allowed || exists a | a in allowed :: '*' in a && Labelwise(a, origin))
    ensures echo == if ok then origin else ""
  {
    if origin == "" {
      return "", false;
    }
    if allowAny {
      return origin, true;
    }
    hide MatchOriginPattern, Labelwise;
    for i := 0 to |allowed|
      invariant forall k | 0 <= k < i :: allowed[k] != origin && !('*' in allowed[k] && Labelwise(allowed[k], origin))
    {
      var a := allowed[i];
      if a == origin {
        return origin, true;
      }
      MatchIsLabelwise(a, origin);
      if '*' in a && MatchOriginPattern(a, origin) {
        return origin, true;
      }
    }
    return "", false;
  }

  function HostOfOrigin(origin: string): string {
    var i := Index(origin, "://");
    var o := if i >= 0 then origin[i + 3..] else origin;
    var j := IndexOf(o, '/');
    BeforeLast(if j >= 0 then o[..j] else o, ':')
  }

  // ---------------------------------------------------------------------------
  // What an origin is
  // ---------------------------------------------------------------------------

  /** scheme://host is an origin that splits back into its parts. */
  predicate Wellformed(p: Parts) {
    && p.scheme != "" && Index(p.scheme, "://") < 0
    && p.host != "" && !ContainsAny(p.host, {'/', '?', '#', '@', ' '})
  }

  function Written(p: Parts): string {
    p.scheme + "://" + p.host
  }

  lemma SeparatorIs(o: string, i: nat)
    ensures At(o, i, "://") <==> i + 3 <= |o| && o[i] == ':' && o[i + 1] == '/' && o[i + 2] == '/'
  {
    if i + 3 <= |o| {
      assert o[i..i + 3] == [o[i], o[i + 1], o[i + 2]];
    }
  }

  // A separator cannot begin inside the scheme and end outside it.
  lemma FirstSeparator(p: Parts)
    requires Wellformed(p)
    ensures Index(Written(p), "://") == |p.scheme|
  {
    hide At, ContainsAny;
    var o, n := Written(p), |p.scheme|;
    var i := Index(o, "://");
    SeparatorIs(o, n);
    SeparatorIs(o, i);
    assert o[..n] == p.scheme;
    OccursInPrefix(o, n, "://");
  }

  /** splitOrigin accepts exactly the origins whose canonical spelling is a wellformed scheme://host,
      and returns that scheme and host. */
  lemma SplitIsInverseOfWritten(origin: string, p: Parts)
    ensures SplitOrigin(origin) == Some(p) <==> Wellformed(p) && Canonical(origin) == Written(p)
  {
    hide Canonical, ContainsAny;
    if Wellformed(p) && Canonical(origin) == Written(p) {
      FirstSeparator(p);
      assert Written(p)[..|p.scheme|] == p.scheme && Written(p)[|p.scheme| + 3..] == p.host;
    }
    if SplitOrigin(origin) == Some(p) {
      SplitIsWellformed(origin, p);
    }
  }

  lemma SplitIsWellformed(origin: string, p: Parts)
    requires SplitOrigin(origin) == Some(p)
    ensures Wellformed(p) && Canonical(origin) == Written(p)
  {
    hide Canonical, ContainsAny;
    var o := Canonical(origin);
    var i := Index(o, "://");
    assert o == o[..i] + o[i..i + 3] + o[i + 3..];
    OccursInPrefix(o, i, "://");
  }

  // ---------------------------------------------------------------------------
  // What a wildcard stands for
  // ---------------------------------------------------------------------------

  predicate IsWildcard(p: Parts) {
    At(p.host, 0, "*.")
  }

  // A host's dot-separated labels.
  function Labels(host: string): (r: seq<string>)
    ensures r != []
  {
    Split(host, '.')
  }

  /** The host carries one more label than the suffix after the wildcard, in front: nonempty and with
      neither a port nor a path in it. */
  predicate OneLabelMore(host: string, wildcard: string) {
    var h, w := Labels(host), Labels(wildcard);
    |h| == |w| && h[1..] == w[1..] && h[0] != "" && ':' !in h[0] && '/' !in h[0]
  }

  /** Same scheme, and the pattern's host or, for a wildcard, its labels with one proper label in place of
      the star. */
  predicate Labelwise(pattern: string, origin: string) {
    var p, o := SplitOrigin(pattern), SplitOrigin(origin);
    && p.Some? && o.Some? && p.value.scheme == o.value.scheme
    && if IsWildcard(p.value) then OneLabelMore(o.value.host, p.value.host) else p.value.host == o.value.host
  }

  /** A pattern matches exactly the origins of the same scheme whose host is the pattern's or, for a
      wildcard pattern, has the pattern's labels with one proper label in place of the star. */
  lemma MatchIsLabelwise(pattern: string, origin: string)
    ensures MatchOriginPattern(pattern, origin) <==> Labelwise(pattern, origin)
  {
    var p, o := SplitOrigin(pattern), SplitOrigin(origin);
    if p.Some? && o.Some? && IsWildcard(p.value) {
      StarIsOneLabel(p.value.host, o.value.host);
    }
  }

  lemma StarIsOneLabel(wildcard: string, host: string)
    requires At(wildcard, 0, "*.")
    ensures OneLabelMore(host, wildcard) <==> EndsWithOneLabel(host, wildcard[1..])
  {
    hide Split;
    var rest := wildcard[2..];
    WildcardLabels(wildcard);
    if EndsWithOneLabel(host, wildcard[1..]) {
      var star := host[..|host| - |rest| - 1];
      assert host == star + ['.'] + rest;
      SplitFirst(star, rest, '.');
    }
    if OneLabelMore(host, wildcard) {
      HostOfLabels(host, rest);
      assert host[..|host| - |rest| - 1] == Labels(host)[0];
    }
  }

  lemma WildcardLabels(wildcard: string)
    requires At(wildcard, 0, "*.")
    ensures |wildcard| >= 2 && wildcard[1..] == ['.'] + wildcard[2..]
    ensures Labels(wildcard) == ["*"] + Labels(wildcard[2..])
  {
    assert wildcard[..2] == "*.";
    assert wildcard[0] == wildcard[..2][0] && wildcard[1] == wildcard[..2][1];
    assert wildcard == "*" + ['.'] + wildcard[2..];
    SplitFirst("*", wildcard[2..], '.');
  }

  lemma HostOfLabels(host: string, rest: string)
    requires |Labels(host)| > 1 && Labels(host)[1..] == Labels(rest)
    ensures host == Labels(host)[0] + ['.'] + rest && '.' !in Labels(host)[0]
  {
    hide Split, Join;
    SplitParts(host, '.');
    JoinOfSplit(host, '.');
    JoinOfSplit(rest, '.');
    JoinFirst(Labels(host)[0], Labels(rest), '.');
    assert Labels(host) == [Labels(host)[0]] + Labels(rest);
  }

  // ---------------------------------------------------------------------------
  // The RP ID derived from an origin
  // ---------------------------------------------------------------------------

  /** Of any string the host is what stands after the first separator, or from the start when there is none, up to
      the first slash, without what follows its last colon. */
  lemma HostIsBetween(s: string, host: string, path: string)
    requires '/' !in host && (path == "" || path[0] == '/')
    requires var i := Index(s, "://"); host + path == if i < 0 then s else s[i + 3..]
    ensures HostOfOrigin(s) == BeforeLast(host, ':')
  {
    hide Index, IndexOf, BeforeLast, At;
    UpToSlash(host, path);
  }

  lemma UpToSlash(host: string, path: string)
    requires '/' !in host && (path == "" || path[0] == '/')
    ensures var j := IndexOf(host + path, '/'); (if j >= 0 then (host + path)[..j] else host + path) == host
  {
    hide IndexOf;
    var rest := host + path;
    var j := IndexOf(rest, '/');
    assert forall k | 0 <= k < |host| :: rest[k] == host[k];
    if path == "" {
      assert rest == host;
    } else {
      assert rest[|host|] == '/';
      assert forall k | 0 <= k < j :: rest[..j][k] == rest[k];
      assert rest[..|host|] == host;
    }
  }

  /** For every origin in canonical spelling the derived RP ID is its host up to the last colon, so it
      is the whole host if and only if that has no port. */
  lemma DerivedHost(origin: string, p: Parts)
    requires SplitOrigin(origin) == Some(p)
    ensures HostOfOrigin(Canonical(origin)) == BeforeLast(p.host, ':')
    ensures HostOfOrigin(Canonical(origin)) == p.host <==> ':' !in p.host
  {
    hide Canonical;
    var o := Canonical(origin);
    assert o[Index(o, "://") + 3..] == p.host;
    assert '/' !in p.host;
  }

  /** The RP ID derived for an origin a wildcard pattern trusts is one label followed by the pattern's
      suffix without its port. */
  lemma WildcardRpId(pattern: string, origin: string, p: Parts, o: Parts)
    requires MatchOriginPattern(pattern, origin) && SplitOrigin(pattern) == Some(p) && SplitOrigin(origin) == Some(o)
    requires IsWildcard(p)
    ensures var star := Labels(o.host)[0];
            && star != "" && '.' !in star && ':' !in star
            && HostOfOrigin(Canonical(origin)) == star + BeforeLast(p.host[1..], ':')
            && (':' !in p.host ==> HostOfOrigin(Canonical(origin)) == o.host == star + p.host[1..])
  {
    hide Canonical, Split, SplitOrigin, HostOfOrigin, At, ContainsAny;
    MatchIsLabelwise(pattern, origin);
    DerivedHost(origin, o);
    WildcardLabels(p.host);
    var star, suffix := Labels(o.host)[0], p.host[1..];
    HostOfLabels(o.host, p.host[2..]);
    assert o.host == star + suffix;
    if ':' in suffix {
      BeforeLastOfSum(star, suffix, ':');
    }
  }
}

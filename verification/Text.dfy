/** The string functions of Go's standard library that the origin rules and the PHC codec call. */
module Text {

  // ---------------------------------------------------------------------------
  // Searching
  // ---------------------------------------------------------------------------

  predicate At(s: string, i: nat, t: string) {
    i + |t| <= |s| && s[i..i + |t|] == t
  }

  /** The first place where t occurs in s, or -1. */
  function Index(s: string, t: string): (i: int)
    ensures -1 <= i
    ensures i >= 0 ==> At(s, i, t)
    ensures forall j: nat | At(s, j, t) :: 0 <= i <= j
  {
    if At(s, 0, t) then 0
    else if s == "" then -1
    else
      assert forall j: nat | j > 0 && At(s, j, t) :: At(s[1..], j - 1, t) by {
        forall j: nat | j > 0 && At(s, j, t) ensures At(s[1..], j - 1, t) {
          assert s[1..][j - 1..j - 1 + |t|] == s[j..j + |t|];
        }
      }
      var r := Index(s[1..], t);
      if r < 0 then -1 else assert s[1..][r..r + |t|] == s[r + 1..r + 1 + |t|]; r + 1
  }

  lemma OccursInPrefix(s: string, n: nat, t: string)
    requires n <= |s|
    ensures forall j: nat :: At(s[..n], j, t) <==> j + |t| <= n && At(s, j, t)
  {
    forall j: nat | j + |t| <= n ensures At(s[..n], j, t) <==> At(s, j, t) {
      assert s[j..j + |t|] == s[..n][j..j + |t|];
    }
  }

  /** The first place where c stands in s, or -1. */
  function IndexOf(s: string, c: char): (i: int)
    ensures -1 <= i < |s|
    ensures i >= 0 ==> s[i] == c && c !in s[..i]
    ensures i < 0 <==> c !in s
  {
    if s == "" then -1
    else if s[0] == c then 0
    else
      var r := IndexOf(s[1..], c);
      if r < 0 then -1 else assert s[..r + 1] == [s[0]] + s[1..][..r]; r + 1
  }

  /** What stands before the last c, or everything when there is none. */
  function BeforeLast(s: string, c: char): (r: string)
    ensures c !in s ==> r == s
    ensures c in s ==> |r| < |s| && s[|r|] == c && r == s[..|r|] && c !in s[|r| + 1..]
  {
    if c !in s then s
    else if s[|s| - 1] == c then s[..|s| - 1]
    else
      assert s == s[..|s| - 1] + [s[|s| - 1]];
      var r := BeforeLast(s[..|s| - 1], c);
      assert s[|r| + 1..] == s[..|s| - 1][|r| + 1..] + [s[|s| - 1]];
      r
  }

  lemma BeforeLastOfSum(a: string, b: string, c: char)
    requires c in b
    ensures BeforeLast(a + b, c) == a + BeforeLast(b, c)
  {
    var r, q := BeforeLast(a + b, c), BeforeLast(b, c);
    assert (a + b)[|a| + |q|] == c;
    assert forall k | |a| + |q| < k < |a| + |b| :: (a + b)[k] == b[|q| + 1..][k - |a| - |q| - 1];
    assert forall k | |r| < k < |a| + |b| :: (a + b)[k] == (a + b)[|r| + 1..][k - |r| - 1];
    assert |r| == |a| + |q|;
    assert (a + b)[..|a| + |q|] == a + b[..|q|];
  }

  // ---------------------------------------------------------------------------
  // Splitting at a separator
  // ---------------------------------------------------------------------------

  function Split(s: string, sep: char): (parts: seq<string>)
    ensures parts != []
    decreases |s|
  {
    var i := IndexOf(s, sep);
    if i < 0 then [s] else [s[..i]] + Split(s[i + 1..], sep)
  }

  function Join(parts: seq<string>, sep: char): string
    requires parts != []
  {
    if |parts| == 1 then parts[0] else parts[0] + [sep] + Join(parts[1..], sep)
  }

  lemma SplitWhole(a: string, sep: char)
    requires sep !in a
    ensures Split(a, sep) == [a]
  {
  }

  lemma SplitFirst(a: string, b: string, sep: char)
    requires sep !in a
    ensures Split(a + [sep] + b, sep) == [a] + Split(b, sep)
  {
    var s, i := a + [sep] + b, IndexOf(a + [sep] + b, sep);
    assert s[|a|] == sep;
    forall k | 0 <= k < |a| ensures s[k] != sep { assert s[k] == a[k]; }
    forall k | 0 <= k < i ensures s[k] != sep { assert s[k] == s[..i][k]; }
    assert s[..i] == a && s[i + 1..] == b;
  }

  lemma {:induction false} SplitParts(s: string, sep: char)
    ensures forall p | p in Split(s, sep) :: sep !in p
    decreases |s|
  {
    var i := IndexOf(s, sep);
    if i >= 0 { SplitParts(s[i + 1..], sep); }
  }

  lemma JoinFirst(a: string, parts: seq<string>, sep: char)
    requires parts != []
    ensures Join([a] + parts, sep) == a + [sep] + Join(parts, sep)
  {
    assert ([a] + parts)[1..] == parts;
  }

  lemma {:induction false} JoinOfSplit(s: string, sep: char)
    ensures Join(Split(s, sep), sep) == s
    decreases |s|
  {
    var i := IndexOf(s, sep);
    if i >= 0 {
      hide Join;
      JoinOfSplit(s[i + 1..], sep);
      JoinFirst(s[..i], Split(s[i + 1..], sep), sep);
      assert s == s[..i] + [sep] + s[i + 1..];
    }
  }

  lemma {:induction false} SplitOfJoin(parts: seq<string>, sep: char)
    requires parts != [] && forall p | p in parts :: sep !in p
    ensures Split(Join(parts, sep), sep) == parts
  {
    if |parts| > 1 {
      hide Split, Join;
      assert parts == [parts[0]] + parts[1..];
      SplitOfJoin(parts[1..], sep);
      JoinFirst(parts[0], parts[1..], sep);
      SplitFirst(parts[0], Join(parts[1..], sep), sep);
    }
  }

  // ---------------------------------------------------------------------------
  // Canonical spelling
  // ---------------------------------------------------------------------------

  const LETTERS := "abcdefghijklmnopqrstuvwxyz"
  const CAPITALS := "ABCDEFGHIJKLMNOPQRSTUVWXYZ"
  const DIGITS := "0123456789"

  lemma AlphabetIsConsecutive()
    ensures |LETTERS| == |CAPITALS| == 26 && |DIGITS| == 10
    ensures forall i | 0 <= i < 26 :: LETTERS[i] == 'a' + i as char && CAPITALS[i] == 'A' + i as char
    ensures forall i | 0 <= i < 10 :: DIGITS[i] == '0' + i as char
  {
  }

  // A string of consecutive characters.
  lemma Consecutive(s: string, first: char, c: char)
    requires first as int + |s| <= 0x80 && forall i | 0 <= i < |s| :: s[i] == first + i as char
    ensures c in s <==> first as int <= c as int < first as int + |s|
  {
    if first as int <= c as int < first as int + |s| { assert s[c as int - first as int] == c; }
  }

  lemma InAlphabet(c: char)
    ensures c in LETTERS <==> 'a' <= c <= 'z'
    ensures c in CAPITALS <==> 'A' <= c <= 'Z'
    ensures c in DIGITS <==> '0' <= c <= '9'
  {
    AlphabetIsConsecutive();
    Consecutive(LETTERS, 'a', c);
    Consecutive(CAPITALS, 'A', c);
    Consecutive(DIGITS, '0', c);
  }

  // Unicode's White_Space property.
  predicate Space(c: char) {
    var n := c as int;
    9 <= n <= 13 || n == 0x20 || n == 0x85 || n == 0xA0 || n == 0x1680 || 0x2000 <= n <= 0x200A
    || n == 0x2028 || n == 0x2029 || n == 0x202F || n == 0x205F || n == 0x3000
  }

  /** The characters of that property, one by one. */
  const WHITE_SPACE := "\t\n\U{b}\U{c}\r \U{85}\U{a0}\U{1680}\U{2000}\U{2001}\U{2002}\U{2003}\U{2004}\U{2005}" +
                       "\U{2006}\U{2007}\U{2008}\U{2009}\U{200a}\U{2028}\U{2029}\U{202f}\U{205f}\U{3000}"

  lemma SpaceIsListed(c: char)
    ensures Space(c) <==> c in WHITE_SPACE
  {
  }

  function TrimLeft(s: string): string {
    if s != "" && Space(s[0]) then TrimLeft(s[1..]) else s
  }

  function TrimRight(s: string): string {
    if s != "" && Space(s[|s| - 1]) then TrimRight(s[..|s| - 1]) else s
  }

  // The mapping is the ASCII one: other letters with case are left alone.
  function LowerChar(c: char): char {
    if 'A' <= c <= 'Z' then c - 'A' + 'a' else c
  }

  function Lower(s: string): (r: string)
    ensures |r| == |s| && forall i | 0 <= i < |s| :: r[i] == LowerChar(s[i])
  {
    if s == "" then "" else [LowerChar(s[0])] + Lower(s[1..])
  }

  function TrimSpace(s: string): string {
    TrimRight(TrimLeft(s))
  }

  function Canonical(s: string): string {
    Lower(TrimSpace(s))
  }

  predicate Bare(s: string) {
    s != "" ==> !Space(s[0]) && !Space(s[|s| - 1])
  }

  lemma {:induction false} TrimRightKeepsStart(s: string)
    requires s != "" ==> !Space(s[0])
    ensures Bare(TrimRight(s))
  {
    if s != "" && Space(s[|s| - 1]) { TrimRightKeepsStart(s[..|s| - 1]); }
  }

  lemma {:induction false} TrimLeftStart(s: string)
    ensures var r := TrimLeft(s); r != "" ==> !Space(r[0])
  {
    if s != "" && Space(s[0]) { TrimLeftStart(s[1..]); }
  }

  lemma CanonicalIsBare(s: string)
    ensures Bare(Canonical(s)) && forall c | c in Canonical(s) :: LowerChar(c) == c
  {
    TrimLeftStart(s);
    TrimRightKeepsStart(TrimLeft(s));
  }

  /** Lower-casing changes capitals to their small letters and nothing else. */
  lemma LowerCharIs(c: char)
    ensures c !in CAPITALS ==> LowerChar(c) == c
    ensures forall i | 0 <= i < 26 :: LowerChar(CAPITALS[i]) == LETTERS[i]
    ensures LowerChar(c) == c <==> c !in CAPITALS
  {
    InAlphabet(c);
    AlphabetIsConsecutive();
  }

  lemma {:induction false} TrimLeftIs(s: string) returns (before: string)
    ensures s == before + TrimLeft(s) && forall c | c in before :: Space(c)
  {
    before := "";
    if s != "" && Space(s[0]) {
      var more := TrimLeftIs(s[1..]);
      before := [s[0]] + more;
    }
  }

  lemma {:induction false} TrimRightIs(s: string) returns (after: string)
    ensures s == TrimRight(s) + after && forall c | c in after :: Space(c)
  {
    after := "";
    if s != "" && Space(s[|s| - 1]) {
      var more := TrimRightIs(s[..|s| - 1]);
      after := more + [s[|s| - 1]];
    }
  }

  /** Making a string canonical takes the white space off its ends, and only that, and makes its capitals small. */
  lemma CanonicalIs(s: string) returns (before: string, kept: string, after: string)
    ensures s == before + kept + after && Bare(kept) && Canonical(s) == Lower(kept)
    ensures forall c | c in before || c in after :: Space(c)
  {
    before := TrimLeftIs(s);
    after := TrimRightIs(TrimLeft(s));
    kept := TrimSpace(s);
    TrimLeftStart(s);
    TrimRightKeepsStart(TrimLeft(s));
  }

  /** Canonical spellings are the bare strings without capitals, and making them canonical changes nothing. */
  lemma CanonicalIsStable(s: string)
    ensures Canonical(s) == s <==> Bare(s) && forall c | c in s :: c !in CAPITALS
    ensures Canonical(Canonical(s)) == Canonical(s)
  {
    CanonicalIsBare(s);
    forall c ensures LowerChar(c) == c <==> c !in CAPITALS { LowerCharIs(c); }
    forall r | Bare(r) && forall c | c in r :: LowerChar(c) == c ensures Canonical(r) == r {
      assert TrimSpace(r) == r;
      assert Lower(r) == r;
    }
  }
}

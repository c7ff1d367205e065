/** Unpadded base64 as Go's RawStdEncoding does it: sections 3.2 and 4 of RFC 4648, with line breaks
    skipped and unused trailing bits not looked at when decoding. */
module Base64 {
  import opened Text
  import opened Wrappers

  type byte = x: int | 0 <= x < 256
  type Sextet = x: int | 0 <= x < 64

  function Char(v: Sextet): char {
    if v < 26 then 'A' + v as char
    else if v < 52 then 'a' + (v - 26) as char
    else if v < 62 then '0' + (v - 52) as char
    else if v == 62 then '+' else '/'
  }

  function Value(c: char): Option<Sextet> {
    if 'A' <= c <= 'Z' then Some((c - 'A') as int)
    else if 'a' <= c <= 'z' then Some((c - 'a') as int + 26)
    else if '0' <= c <= '9' then Some((c - '0') as int + 52)
    else if c == '+' then Some(62)
    else if c == '/' then Some(63)
    else None
  }

  // The six-bit groups of the bytes, three bytes at a time; a last short group is filled up with zeros.
  function Sextets(b: seq<byte>): seq<Sextet> {
    if b == [] then []
    else if |b| == 1 then [b[0] / 4, b[0] % 4 * 16]
    else if |b| == 2 then [b[0] / 4, b[0] % 4 * 16 + b[1] / 16, b[1] % 16 * 4]
    else [b[0] / 4, b[0] % 4 * 16 + b[1] / 16, b[1] % 16 * 4 + b[2] / 64, b[2] % 64] + Sextets(b[3..])
  }

  function Chars(v: seq<Sextet>): (s: string)
    ensures |s| == |v| && forall i | 0 <= i < |v| :: s[i] == Char(v[i])
  {
    if v == [] then "" else [Char(v[0])] + Chars(v[1..])
  }

  function Encode(b: seq<byte>): string {
    Chars(Sextets(b))
  }

  // The bytes that two, three or four characters stand for.
  function Quantum(v: seq<int>): seq<byte>
    requires 2 <= |v| <= 4 && forall i | 0 <= i < |v| :: 0 <= v[i] < 64
  {
    if |v| == 2 then [v[0] * 4 + v[1] / 16]
    else if |v| == 3 then [v[0] * 4 + v[1] / 16, v[1] % 16 * 16 + v[2] / 4]
    else [v[0] * 4 + v[1] / 16, v[1] % 16 * 16 + v[2] / 4, v[2] % 4 * 64 + v[3]]
  }

  function Values(s: string): Option<seq<Sextet>>
    ensures Values(s).Some? <==> forall c | c in s :: Value(c).Some?
    ensures Values(s).Some? ==>
              |Values(s).value| == |s| && forall i | 0 <= i < |s| :: Value(s[i]) == Some(Values(s).value[i])
  {
    if s == "" then Some([])
    else
      match (Value(s[0]), Values(s[1..]))
      case (Some(v), Some(vs)) => Some([v] + vs)
      case _ => None
  }

  function Bytes(v: seq<Sextet>): Option<seq<byte>> {
    if v == [] then Some([])
    else if |v| == 1 then None
    else if |v| <= 4 then Some(Quantum(v))
    else
      match Bytes(v[4..])
      case None => None
      case Some(rest) => Some(Quantum(v[..4]) + rest)
  }

  function Unwrapped(s: string): string {
    if s == "" then "" else if s[0] == '\r' || s[0] == '\n' then Unwrapped(s[1..]) else [s[0]] + Unwrapped(s[1..])
  }

  function Decode(s: string): Option<seq<byte>> {
    match Values(Unwrapped(s))
    case None => None
    case Some(v) => Bytes(v)
  }

  // ---------------------------------------------------------------------------
  // Encoding and decoding
  // ---------------------------------------------------------------------------

  lemma CharsAndValues(c: char, v: Sextet)
    ensures Value(Char(v)) == Some(v)
    ensures Value(c) == Some(v) <==> c == Char(v)
  {
  }

  lemma ValuesOfChars(v: seq<Sextet>)
    ensures Values(Chars(v)) == Some(v)
  {
    hide Char, Value, Chars, Values;
    var s := Chars(v);
    forall i | 0 <= i < |v| ensures Value(s[i]) == Some(v[i]) {
      CharsAndValues('A', v[i]);
    }
    assert forall c | c in s :: Value(c).Some?;
    assert Values(s).value == v;
  }

  lemma QuantumOfSextets(b: seq<byte>)
    requires 1 <= |b| <= 3
    ensures |Sextets(b)| == |b| + 1 && Quantum(Sextets(b)) == b
  {
  }

  lemma {:induction false} BytesOfSextets(b: seq<byte>)
    ensures Bytes(Sextets(b)) == Some(b)
  {
    if 1 <= |b| <= 3 {
      QuantumOfSextets(b);
    } else if |b| > 3 {
      hide Quantum;
      BytesOfSextets(b[3..]);
      QuantumOfSextets(b[..3]);
      assert b == b[..3] + b[3..];
      SextetsOfSum(b[..3], b[3..]);
      assert Sextets(b)[..4] == Sextets(b[..3]) && Sextets(b)[4..] == Sextets(b[3..]);
    }
  }

  lemma {:induction false} UnwrappedIsSame(s: string)
    ensures Unwrapped(s) == s <==> '\r' !in s && '\n' !in s
    ensures |Unwrapped(s)| <= |s|
    ensures forall c | c in Unwrapped(s) :: c != '\r' && c != '\n'
  {
    if s != "" {
      UnwrappedIsSame(s[1..]);
      assert s == [s[0]] + s[1..];
    }
  }

  /** Section 4 of RFC 4648: what was encoded is decoded, for every input ... */
  lemma DecodeOfEncode(b: seq<byte>)
    ensures Decode(Encode(b)) == Some(b)
  {
    ValuesOfChars(Sextets(b));
    BytesOfSextets(b);
    CharsAreAlphabet(Sextets(b));
    UnwrappedIsSame(Encode(b));
  }

  lemma CharsAreAlphabet(v: seq<Sextet>)
    ensures forall c | c in Chars(v) :: Value(c).Some? && c != '\r' && c != '\n' && c != '$'
  {
  }

  /** ... into as few characters as its bits need, none of them padding (section 3.2). */
  lemma {:induction false} EncodedLength(b: seq<byte>)
    ensures |Encode(b)| == (8 * |b| + 5) / 6
  {
    if |b| >= 3 { EncodedLength(b[3..]); }
  }

  lemma {:induction false} BytesAreSome(v: seq<Sextet>)
    ensures Bytes(v).Some? <==> |v| % 4 != 1
  {
    if |v| > 4 { BytesAreSome(v[4..]); }
  }

  // The bits a last short group has no byte for are zero.
  predicate TailClear(v: seq<Sextet>) {
    (|v| % 4 == 2 ==> v[|v| - 1] % 16 == 0) && (|v| % 4 == 3 ==> v[|v| - 1] % 4 == 0)
  }

  // How the bits of neighbouring groups meet in one byte, and come apart again.
  lemma BitsMeet(a: Sextet, b: Sextet)
    ensures var x := a * 4 + b / 16 as int; x / 4 == a && x % 4 == b / 16
    ensures var y := a % 16 * 16 + b / 4 as int; y / 16 == a % 16 && y % 16 == b / 4
    ensures var z := a % 4 * 64 + b as int; z / 64 == a % 4 && z % 64 == b
    ensures a == a / 16 * 16 + a % 16 == a / 4 * 4 + a % 4
  {
  }

  lemma SextetsOfQuantum(v: seq<Sextet>)
    requires 2 <= |v| <= 4
    ensures |Quantum(v)| == |v| - 1 && (Sextets(Quantum(v)) == v <==> TailClear(v))
  {
    BitsMeet(v[0], v[1]);
    if |v| > 2 { BitsMeet(v[1], v[2]); }
    if |v| > 3 { BitsMeet(v[2], v[3]); }
  }

  lemma TailIsLast(v: seq<Sextet>)
    requires |v| > 4
    ensures TailClear(v[..4]) && (TailClear(v) <==> TailClear(v[4..]))
  {
  }

  lemma SextetsOfSum(front: seq<byte>, rest: seq<byte>)
    requires |front| == 3
    ensures |Sextets(front)| == 4 && Sextets(front + rest) == Sextets(front) + Sextets(rest)
  {
    assert (front + rest)[3..] == rest;
  }

  lemma {:induction false} SextetsOfBytes(v: seq<Sextet>)
    requires Bytes(v).Some?
    ensures Sextets(Bytes(v).value) == v <==> TailClear(v)
  {
    if 2 <= |v| <= 4 {
      SextetsOfQuantum(v);
    } else if |v| > 4 {
      hide Quantum, Sextets, TailClear;
      SextetsOfBytes(v[4..]);
      SextetsOfQuantum(v[..4]);
      TailIsLast(v);
      var front, rest := Quantum(v[..4]), Bytes(v[4..]).value;
      SextetsOfSum(front, rest);
      assert v == v[..4] + v[4..];
      assert Sextets(front + rest)[4..] == Sextets(rest);
    }
  }

  /** A text decodes if and only if what is left of it without line breaks is in the alphabet and not
      one character over; and it is then the encoding of what it decodes to if and only if it has no
      line breaks and its unused trailing bits are zero. */
  lemma EncodeOfDecode(s: string)
    ensures Decode(s).Some? <==> Values(Unwrapped(s)).Some? && |Unwrapped(s)| % 4 != 1
    ensures Decode(s).Some? ==>
              (Encode(Decode(s).value) == s <==> Unwrapped(s) == s && TailClear(Values(Unwrapped(s)).value))
  {
    UnwrappedIsSame(s);
    if Values(Unwrapped(s)).Some? {
      var v := Values(Unwrapped(s)).value;
      BytesAreSome(v);
      CharsOfValues(Unwrapped(s));
      if Bytes(v).Some? {
        SextetsOfBytes(v);
        var w := Sextets(Bytes(v).value);
        CharsAreAlphabet(w);
        ValuesOfChars(w);
      }
    }
  }

  lemma CharsOfValues(s: string)
    requires Values(s).Some?
    ensures Chars(Values(s).value) == s
  {
    hide Char, Value, Chars, Values;
    var v := Values(s).value;
    forall i | 0 <= i < |v| ensures Chars(v)[i] == s[i] {
      CharsAndValues(s[i], v[i]);
    }
  }

  // ---------------------------------------------------------------------------
  // The alphabet and the bits
  // ---------------------------------------------------------------------------

  /** Table 1 of RFC 4648, section 4. */
  const TABLE := CAPITALS + LETTERS + DIGITS + "+/"

  /** The character of each value is the table's, and the value of each character its place there, if any. */
  lemma CharIsInTable(v: Sextet, c: char)
    ensures |TABLE| == 64 && Char(v) == TABLE[v]
    ensures Value(c).Some? <==> c in TABLE
    ensures Value(c).Some? ==> TABLE[Value(c).value] == c
  {
    AlphabetIsConsecutive();
    hide Char, Value;
    TableOf(v);
    ValueInTable(c);
    if c in TABLE {
      var i :| 0 <= i < 64 && TABLE[i] == c;
      TableOf(i);
      CharsAndValues(c, i);
    }
  }

  lemma TableOf(v: Sextet)
    ensures |TABLE| == 64 && Char(v) == TABLE[v]
  {
    AlphabetIsConsecutive();
    if v < 26 { assert TABLE[v] == CAPITALS[v]; }
    else if v < 52 { assert TABLE[v] == LETTERS[v - 26]; }
    else if v < 62 { assert TABLE[v] == DIGITS[v - 52]; }
    else { assert TABLE[v] == "+/"[v - 62]; }
  }

  lemma ValueInTable(c: char)
    ensures Value(c).Some? ==> |TABLE| == 64 && TABLE[Value(c).value] == c
  {
    if Value(c).Some? {
      CharsAndValues(c, Value(c).value);
      TableOf(Value(c).value);
    }
  }

  /** The lowest w bits of x, the highest first. */
  function Bits(x: nat, w: nat): (r: seq<bool>)
    ensures |r| == w
  {
    if w == 0 then [] else Bits(x / 2, w - 1) + [x % 2 == 1]
  }

  function BitsOfBytes(b: seq<byte>): (r: seq<bool>)
    ensures |r| == 8 * |b|
  {
    if b == [] then [] else Bits(b[0], 8) + BitsOfBytes(b[1..])
  }

  function BitsOfSextets(v: seq<Sextet>): (r: seq<bool>)
    ensures |r| == 6 * |v|
  {
    if v == [] then [] else Bits(v[0], 6) + BitsOfSextets(v[1..])
  }

  lemma SplitTwo(x: nat, w: nat)
    ensures Bits(x, w + 2) == Bits(x / 4, w) + Bits(x % 4, 2)
  {
    assert Bits(x, w + 2) == Bits(x / 2 / 2, w) + [x / 2 % 2 == 1] + [x % 2 == 1];
    assert Bits(x % 4, 2) == Bits(x % 4 / 2 / 2, 0) + [x % 4 / 2 % 2 == 1] + [x % 4 % 2 == 1];
    assert x / 2 / 2 == x / 4 && x / 2 % 2 == x % 4 / 2 % 2 && x % 2 == x % 4 % 2;
  }

  lemma SplitFour(x: nat, w: nat)
    ensures Bits(x, w + 4) == Bits(x / 16, w) + Bits(x % 16, 4)
  {
    hide Bits;
    SplitTwo(x, w + 2);
    SplitTwo(x / 4, w);
    SplitTwo(x % 16, 2);
    assert x / 4 / 4 == x / 16 && x % 16 / 4 == x / 4 % 4 && x % 16 % 4 == x % 4;
  }

  lemma SplitSix(x: nat, w: nat)
    ensures Bits(x, w + 6) == Bits(x / 64, w) + Bits(x % 64, 6)
  {
    hide Bits;
    SplitTwo(x, w + 4);
    SplitFour(x / 4, w);
    SplitTwo(x % 64, 4);
    assert x / 4 / 16 == x / 64 && x % 64 / 4 == x / 4 % 16 && x % 64 % 4 == x % 4;
  }

  lemma JoinedParts(high: nat, low: nat)
    ensures low < 16 ==> (high * 16 + low) / 16 == high && (high * 16 + low) % 16 == low
    ensures low < 4 ==> (high * 4 + low) / 4 == high && (high * 4 + low) % 4 == low
  {
  }

  // A sextet that ends one byte and begins the next.
  lemma BitsJoin(a: byte, b: byte)
    ensures Bits(a % 4 * 16 + b / 16, 6) == Bits(a % 4, 2) + Bits(b / 16, 4)
    ensures Bits(a % 16 * 4 + b / 64, 6) == Bits(a % 16, 4) + Bits(b / 64, 2)
  {
    hide Bits;
    JoinedParts(a % 4, b / 16);
    JoinedParts(a % 16, b / 64);
    SplitFour(a % 4 * 16 + b / 16, 2);
    SplitTwo(a % 16 * 4 + b / 64, 4);
  }

  lemma BitsApart(a: byte)
    ensures Bits(a, 8) == Bits(a / 4, 6) + Bits(a % 4, 2) == Bits(a / 16, 4) + Bits(a % 16, 4)
            == Bits(a / 64, 2) + Bits(a % 64, 6)
  {
    hide Bits;
    SplitTwo(a, 6);
    SplitFour(a, 4);
    SplitSix(a, 2);
  }

  lemma GroupBits(a: byte, b: byte, c: byte)
    ensures BitsOfSextets([a / 4, a % 4 * 16 + b / 16, b % 16 * 4 + c / 64, c % 64]) == BitsOfBytes([a, b, c])
  {
    hide *;
    BitsApart(a);
    BitsApart(b);
    BitsApart(c);
    BitsJoin(a, b);
    BitsJoin(b, c);
    FourSextets(a / 4, a % 4 * 16 + b / 16, b % 16 * 4 + c / 64, c % 64);
    ThreeBytes(a, b, c);
    Regroup(Bits(a / 4, 6), Bits(a % 4, 2), Bits(b / 16, 4), Bits(b % 16, 4), Bits(c / 64, 2), Bits(c % 64, 6));
  }

  lemma Regroup(a: seq<bool>, b: seq<bool>, c: seq<bool>, d: seq<bool>, e: seq<bool>, f: seq<bool>)
    ensures a + (b + c) + (d + e) + f == (a + b) + (c + d) + (e + f)
  {
  }

  lemma FourSextets(a: Sextet, b: Sextet, c: Sextet, d: Sextet)
    ensures BitsOfSextets([a, b, c, d]) == Bits(a, 6) + Bits(b, 6) + Bits(c, 6) + Bits(d, 6)
  {
    hide Bits;
    assert [a, b, c, d][1..] == [b, c, d] && [b, c, d][1..] == [c, d] && [c, d][1..] == [d] && [d][1..] == [];
    assert BitsOfSextets([c, d]) == Bits(c, 6) + Bits(d, 6);
  }

  lemma ThreeBytes(a: byte, b: byte, c: byte)
    ensures BitsOfBytes([a, b, c]) == Bits(a, 8) + Bits(b, 8) + Bits(c, 8)
  {
    hide Bits;
    assert [a, b, c][1..] == [b, c] && [b, c][1..] == [c] && [c][1..] == [];
    assert BitsOfBytes([b, c]) == Bits(b, 8) + Bits(c, 8);
  }

  lemma {:induction false} BytesConcat(a: seq<byte>, b: seq<byte>)
    ensures BitsOfBytes(a + b) == BitsOfBytes(a) + BitsOfBytes(b)
  {
    hide Bits;
    if a == [] {
      assert a + b == b;
    } else {
      BytesConcat(a[1..], b);
      assert (a + b)[1..] == a[1..] + b;
    }
  }

  lemma {:induction false} SextetsConcat(v: seq<Sextet>, w: seq<Sextet>)
    ensures BitsOfSextets(v + w) == BitsOfSextets(v) + BitsOfSextets(w)
  {
    hide Bits;
    if v == [] {
      assert v + w == w;
    } else {
      SextetsConcat(v[1..], w);
      assert (v + w)[1..] == v[1..] + w;
    }
  }

  /** Zero bits that fill up the last sextet. */
  function Filling(bytes: nat): (r: seq<bool>) {
    if bytes % 3 == 0 then [] else if bytes % 3 == 1 then Bits(0, 4) else Bits(0, 2)
  }

  lemma ShortSextets(a: Sextet, b: Sextet, c: Sextet)
    ensures BitsOfSextets([a, b]) == Bits(a, 6) + Bits(b, 6)
    ensures BitsOfSextets([a, b, c]) == Bits(a, 6) + (Bits(b, 6) + Bits(c, 6))
  {
    hide Bits;
    assert [a, b, c][1..] == [b, c] && [b, c][1..] == [c] && [c][1..] == [] && [a, b][1..] == [b] && [b][1..] == [];
    assert BitsOfSextets([b, c]) == Bits(b, 6) + Bits(c, 6);
  }

  lemma ShortBytes(a: byte, b: byte)
    ensures BitsOfBytes([a]) == Bits(a, 8) && BitsOfBytes([a, b]) == Bits(a, 8) + Bits(b, 8)
  {
    hide Bits;
    assert [a, b][1..] == [b] && [b][1..] == [] && [a][1..] == [];
  }

  lemma OneByteBits(a: byte)
    ensures BitsOfSextets([a / 4, a % 4 * 16]) == BitsOfBytes([a]) + Bits(0, 4)
  {
    hide *;
    BitsApart(a);
    BitsJoin(a, 0);
    ShortSextets(a / 4, a % 4 * 16, 0);
    ShortBytes(a, 0);
    RegroupOne(Bits(a / 4, 6), Bits(a % 4, 2), Bits(0, 4));
  }

  lemma RegroupOne(a: seq<bool>, b: seq<bool>, c: seq<bool>)
    ensures a + (b + c) == (a + b) + c
  {
  }

  lemma TwoByteBits(a: byte, b: byte)
    ensures BitsOfSextets([a / 4, a % 4 * 16 + b / 16, b % 16 * 4]) == BitsOfBytes([a, b]) + Bits(0, 2)
  {
    hide *;
    BitsApart(a);
    BitsApart(b);
    BitsJoin(a, b);
    BitsJoin(b, 0);
    ShortSextets(a / 4, a % 4 * 16 + b / 16, b % 16 * 4);
    ShortBytes(a, b);
    RegroupTwo(Bits(a / 4, 6), Bits(a % 4, 2), Bits(b / 16, 4), Bits(b % 16, 4), Bits(0, 2));
  }

  lemma RegroupTwo(a: seq<bool>, b: seq<bool>, c: seq<bool>, d: seq<bool>, e: seq<bool>)
    ensures a + ((b + c) + (d + e)) == (a + b) + (c + d) + e
  {
  }

  lemma ThreeFirst(b: seq<byte>)
    requires |b| > 2
    ensures b == [b[0], b[1], b[2]] + b[3..]
  {
  }

  lemma ThreeMore(b: seq<byte>)
    requires |b| > 2
    ensures Sextets(b) == [b[0] / 4, b[0] % 4 * 16 + b[1] / 16, b[1] % 16 * 4 + b[2] / 64, b[2] % 64] + Sextets(b[3..])
  {
  }

  lemma SameFilling(bytes: nat)
    ensures Filling(bytes + 3) == Filling(bytes)
  {
  }

  lemma ShortSextetsOf(a: byte, b: byte)
    ensures Sextets([a]) == [a / 4, a % 4 * 16] && Sextets([a, b]) == [a / 4, a % 4 * 16 + b / 16, b % 16 * 4]
    ensures Filling(1) == Bits(0, 4) && Filling(2) == Bits(0, 2)
  {
    hide Bits;
  }

  lemma OneEncoded(a: byte)
    ensures BitsOfSextets(Sextets([a])) == BitsOfBytes([a]) + Filling(1)
  {
    hide *;
    ShortSextetsOf(a, 0);
    OneByteBits(a);
  }

  lemma TwoEncoded(a: byte, b: byte)
    ensures BitsOfSextets(Sextets([a, b])) == BitsOfBytes([a, b]) + Filling(2)
  {
    hide *;
    ShortSextetsOf(a, b);
    TwoByteBits(a, b);
  }

  lemma ShortEncoding(b: seq<byte>)
    requires |b| <= 2
    ensures BitsOfSextets(Sextets(b)) == BitsOfBytes(b) + Filling(|b|)
  {
    hide *;
    if b == [] {
      NothingEncoded();
    } else if |b| == 1 {
      OneEncoded(b[0]);
      assert b == [b[0]];
    } else {
      TwoEncoded(b[0], b[1]);
      assert b == [b[0], b[1]];
    }
  }

  lemma NothingEncoded()
    ensures BitsOfSextets(Sextets([])) == BitsOfBytes([]) + Filling(0)
  {
  }

  /** An encoding spells the bits of the bytes, six to a character of the table, the last filled up with zeros. */
  lemma {:induction false} EncodingHasTheBits(b: seq<byte>)
    ensures BitsOfSextets(Sextets(b)) == BitsOfBytes(b) + Filling(|b|)
    ensures |Encode(b)| == |Sextets(b)| && forall i | 0 <= i < |Encode(b)| :: Encode(b)[i] == TABLE[Sextets(b)[i]]
  {
    hide *;
    EncodeUsesTable(b);
    if |b| <= 2 {
      ShortEncoding(b);
    } else {
      EncodingHasTheBits(b[3..]);
      GroupBits(b[0], b[1], b[2]);
      ThreeFirst(b);
      ThreeMore(b);
      SameFilling(|b[3..]|);
      BytesConcat([b[0], b[1], b[2]], b[3..]);
      SextetsConcat([b[0] / 4, b[0] % 4 * 16 + b[1] / 16, b[1] % 16 * 4 + b[2] / 64, b[2] % 64], Sextets(b[3..]));
      RegroupOne(BitsOfBytes([b[0], b[1], b[2]]), BitsOfBytes(b[3..]), Filling(|b|));
    }
  }

  lemma EncodeUsesTable(b: seq<byte>)
    ensures |Encode(b)| == |Sextets(b)| && forall i | 0 <= i < |Encode(b)| :: Encode(b)[i] == TABLE[Sextets(b)[i]]
  {
    hide Char, Sextets;
    forall i | 0 <= i < |Encode(b)| ensures Encode(b)[i] == TABLE[Sextets(b)[i]] { TableOf(Sextets(b)[i]); }
  }

  // Two, three or four characters: the bits of their bytes, and those left over.
  lemma DecodedTwo(a: Sextet, b: Sextet)
    ensures BitsOfSextets([a, b]) == BitsOfBytes(Quantum([a, b])) + Bits(b % 16, 4)
  {
    var x := a * 4 + b / 16;
    assert x / 4 == a && x % 4 == b / 16 && Quantum([a, b]) == [x];
    hide *;
    ShortSextets(a, b, 0);
    ShortBytes(x, 0);
    BitsApart(x);
    SplitFour(b, 2);
    RegroupOne(Bits(a, 6), Bits(b / 16, 2), Bits(b % 16, 4));
  }

  lemma DecodedThree(a: Sextet, b: Sextet, c: Sextet)
    ensures BitsOfSextets([a, b, c]) == BitsOfBytes(Quantum([a, b, c])) + Bits(c % 4, 2)
  {
    var x, y := a * 4 + b / 16, b % 16 * 16 + c / 4;
    BitsMeet(a, b);
    BitsMeet(b, c);
    assert Quantum([a, b, c]) == [x, y];
    hide *;
    ShortSextets(a, b, c);
    ShortBytes(x, y);
    BitsApart(x);
    BitsApart(y);
    SplitFour(b, 2);
    SplitTwo(c, 4);
    RegroupTwo(Bits(a, 6), Bits(b / 16, 2), Bits(b % 16, 4), Bits(c / 4, 4), Bits(c % 4, 2));
  }

  lemma FourMeet(a: Sextet, b: Sextet, c: Sextet, d: Sextet)
    ensures Quantum([a, b, c, d]) == [a * 4 + b / 16, b % 16 * 16 + c / 4, c % 4 * 64 + d]
  {
  }

  lemma DecodedFour(a: Sextet, b: Sextet, c: Sextet, d: Sextet)
    ensures BitsOfSextets([a, b, c, d]) == BitsOfBytes(Quantum([a, b, c, d]))
  {
    hide *;
    FourMeet(a, b, c, d);
    BitsMeet(a, b);
    BitsMeet(b, c);
    BitsMeet(c, d);
    GroupBits(a * 4 + b / 16, b % 16 * 16 + c / 4, c % 4 * 64 + d);
  }

  lemma StartsWith(a: seq<bool>, b: seq<bool>)
    ensures a <= a + b
  {
  }

  lemma QuantumBitsTwo(v: seq<Sextet>)
    requires |v| == 2
    ensures BitsOfBytes(Quantum(v)) <= BitsOfSextets(v)
  {
    hide *;
    assert v == [v[0], v[1]];
    DecodedTwo(v[0], v[1]);
    StartsWith(BitsOfBytes(Quantum(v)), Bits(v[1] % 16, 4));
  }

  lemma QuantumBitsThree(v: seq<Sextet>)
    requires |v| == 3
    ensures BitsOfBytes(Quantum(v)) <= BitsOfSextets(v)
  {
    hide *;
    assert v == [v[0], v[1], v[2]];
    DecodedThree(v[0], v[1], v[2]);
    StartsWith(BitsOfBytes(Quantum(v)), Bits(v[2] % 4, 2));
  }

  lemma QuantumBitsFour(v: seq<Sextet>)
    requires |v| == 4
    ensures BitsOfBytes(Quantum(v)) == BitsOfSextets(v)
  {
    hide *;
    assert v == [v[0], v[1], v[2], v[3]];
    DecodedFour(v[0], v[1], v[2], v[3]);
  }

  /** Whatever is decoded, canonical or not: the bytes are the leading bits of the characters' values, and fewer than
      eight are left over. */
  lemma {:induction false} DecodingHasTheBits(v: seq<Sextet>)
    requires Bytes(v).Some?
    ensures BitsOfBytes(Bytes(v).value) <= BitsOfSextets(v)
    ensures |BitsOfSextets(v)| - |BitsOfBytes(Bytes(v).value)| < 8
  {
    hide Bits, BitsOfBytes, BitsOfSextets, Quantum;
    if v == [] {
      NothingEncoded();
    } else if |v| == 2 {
      QuantumBitsTwo(v);
      SextetsOfQuantum(v);
    } else if |v| == 3 {
      QuantumBitsThree(v);
      SextetsOfQuantum(v);
    } else if |v| == 4 {
      QuantumBitsFour(v);
      SextetsOfQuantum(v);
    } else {
      var front, rest := Quantum(v[..4]), Bytes(v[4..]).value;
      DecodingHasTheBits(v[4..]);
      QuantumBitsFour(v[..4]);
      SextetsOfQuantum(v[..4]);
      assert v == v[..4] + v[4..];
      SextetsConcat(v[..4], v[4..]);
      BytesConcat(front, rest);
    }
  }
}

/** internal/auth/password.go: argon2id hashes in PHC string format.  The key derivation itself is an
    uninterpreted function whose output has the length asked for. */
module PasswordHash {
  import opened Wrappers
  import opened Text
  import opened Base64

  const ARGON_TIME := 1
  const ARGON_MEMORY := 65536
  const ARGON_THREADS := 4
  const ARGON_KEY_LEN := 32
  const ARGON_SALT_LEN := 16
  const ARGON_VERSION := 19

  datatype Error = EmptyPassword | NoRandomness | InvalidHash | IncompatibleVersion

  datatype Params = Params(memory: nat, time: nat, threads: nat)

  datatype Decoded = Decoded(params: Params, salt: seq<byte>, hash: seq<byte>)

  /** Password, salt, parameters and key length to key. */
  type Kdf = f: (string, seq<byte>, Params, nat) -> seq<byte> | forall p, s, c, n: nat :: |f(p, s, c, n)| == n
    witness (_, _, _, n: nat) => seq(n, _ => 0)

  // ---------------------------------------------------------------------------
  // Decimal numbers
  // ---------------------------------------------------------------------------

  predicate Digit(c: char) {
    '0' <= c <= '9'
  }

  function Decimal(n: nat): (s: string)
    ensures s != "" && forall c | c in s :: Digit(c)
  {
    if n < 10 then ['0' + n as char] else Decimal(n / 10) + ['0' + (n % 10) as char]
  }

  function Number(digits: string): nat
    requires forall c | c in digits :: Digit(c)
  {
    if digits == "" then 0 else
      var last := digits[|digits| - 1];
      assert Digit(last) by { assert last in digits; }
      10 * Number(digits[..|digits| - 1]) + (last - '0') as nat
  }

  lemma {:induction false} NumberOfDecimal(n: nat)
    ensures Number(Decimal(n)) == n
  {
    if n >= 10 {
      NumberOfDecimal(n / 10);
      assert Decimal(n)[..|Decimal(n)| - 1] == Decimal(n / 10);
    }
  }

  // ---------------------------------------------------------------------------
  // fmt.Sscanf, for literal text and %d
  // ---------------------------------------------------------------------------

  datatype Scanned = Scanned(value: int, rest: string)

  // How far the leading digits reach.
  function DigitsEnd(s: string): (n: nat)
    ensures n <= |s| && (forall c | c in s[..n] :: Digit(c)) && (n < |s| ==> !Digit(s[n]))
  {
    if s != "" && Digit(s[0]) then
      var n := DigitsEnd(s[1..]);
      assert s[..n + 1] == [s[0]] + s[1..][..n];
      n + 1
    else 0
  }

  // White space is skipped before a number, but a line break is an error.
  function SkipSpace(s: string): Option<string> {
    if s == "" || !Space(s[0]) then Some(s) else if s[0] == '\n' then None else SkipSpace(s[1..])
  }

  function ScanDigits(s: string): Option<Scanned> {
    var n := DigitsEnd(s);
    if n == 0 then None else Some(Scanned(Number(s[..n]), s[n..]))
  }

  /** %d into an unsigned integer below the limit. */
  function ScanUnsigned(s: string, limit: nat): (r: Option<Scanned>)
    ensures r.Some? ==> 0 <= r.value.value < limit
  {
    match SkipSpace(s)
    case None => None
    case Some(t) =>
      match ScanDigits(t)
      case None => None
      case Some(r) => if r.value < limit then Some(r) else None
  }

  /** %d into an int of 64 bits. */
  function ScanSigned(s: string): Option<Scanned> {
    match SkipSpace(s)
    case None => None
    case Some(t) =>
      var signed := t != "" && (t[0] == '+' || t[0] == '-');
      match ScanDigits(if signed then t[1..] else t)
      case None => None
      case Some(r) =>
        var v := if signed && t[0] == '-' then -r.value else r.value;
        if -0x8000_0000_0000_0000 <= v < 0x8000_0000_0000_0000 then Some(Scanned(v, r.rest)) else None
  }

  function After(literal: string, s: string): Option<string> {
    if literal <= s then Some(s[|literal|..]) else None
  }

  // Input after the last number is not looked at.
  function ScanVersion(s: string): Option<int> {
    match After("v=", s)
    case None => None
    case Some(t) =>
      match ScanSigned(t)
      case None => None
      case Some(r) => Some(r.value)
  }

  function ScanField(literal: string, s: string, limit: nat): (r: Option<Scanned>)
    ensures r.Some? ==> 0 <= r.value.value < limit
  {
    match After(literal, s)
    case None => None
    case Some(t) => ScanUnsigned(t, limit)
  }

  function ScanParams(s: string): Option<Params> {
    match ScanField("m=", s, 0x1_0000_0000)
    case None => None
    case Some(m) =>
      match ScanField(",t=", m.rest, 0x1_0000_0000)
      case None => None
      case Some(t) =>
        match ScanField(",p=", t.rest, 0x100)
        case None => None
        case Some(p) => Some(Params(m.value, t.value, p.value))
  }

  // ---------------------------------------------------------------------------
  // Hashing, decoding and verifying
  // ---------------------------------------------------------------------------

  function PrintParams(p: Params): string {
    "m=" + Decimal(p.memory) + ",t=" + Decimal(p.time) + ",p=" + Decimal(p.threads)
  }

  function PrintPHC(version: nat, p: Params, salt: seq<byte>, key: seq<byte>): string {
    "$argon2id$v=" + Decimal(version) + "$" + PrintParams(p) + "$" + Encode(salt) + "$" + Encode(key)
  }

  function DecodePHC(encoded: string): Result<Decoded, Error> {
    var parts := Split(encoded, '$');
    if |parts| != 6 || parts[1] != "argon2id" then Failure(InvalidHash)
    else
      match ScanVersion(parts[2])
      case None => Failure(InvalidHash)
      case Some(version) =>
        if version != ARGON_VERSION then Failure(IncompatibleVersion)
        else
          match (ScanParams(parts[3]), Decode(parts[4]), Decode(parts[5]))
          case (Some(p), Some(salt), Some(hash)) => Success(Decoded(p, salt, hash))
          case _ => Failure(InvalidHash)
  }

  /** salt is what the random source gave, None being its failure. */
  function HashPassword(kdf: Kdf, password: string, salt: Option<seq<byte>>): Result<string, Error>
    requires salt.Some? ==> |salt.value| == ARGON_SALT_LEN
  {
    if password == "" then Failure(EmptyPassword)
    else
      match salt
      case None => Failure(NoRandomness)
      case Some(salt) =>
        var p := Params(ARGON_MEMORY, ARGON_TIME, ARGON_THREADS);
        Success(PrintPHC(ARGON_VERSION, p, salt, kdf(password, salt, p, ARGON_KEY_LEN)))
  }

  function VerifyPassword(kdf: Kdf, encoded: string, password: string): Result<bool, Error> {
    match DecodePHC(encoded)
    case Failure(e) => Failure(e)
    case Success(d) =>
      var computed := kdf(password, d.salt, d.params, |d.hash|);
      Success(|computed| == |d.hash| && computed == d.hash)
  }

  // ---------------------------------------------------------------------------
  // Round trips
  // ---------------------------------------------------------------------------

  lemma ScanOfDecimal(n: nat, rest: string)
    requires rest == "" || !Digit(rest[0])
    ensures ScanDigits(Decimal(n) + rest) == Some(Scanned(n, rest))
    ensures SkipSpace(Decimal(n) + rest) == Some(Decimal(n) + rest)
    ensures (Decimal(n) + rest)[0] != '+' && (Decimal(n) + rest)[0] != '-'
  {
    hide Decimal, Number, ScanDigits;
    var d := Decimal(n);
    assert (d + rest)[0] == d[0] && d[0] in d && Digit(d[0]);
    DigitsOf(d, rest);
    NumberOfDecimal(n);
  }

  lemma ScanOfField(literal: string, n: nat, rest: string, limit: nat)
    requires rest == "" || !Digit(rest[0])
    ensures ScanField(literal, literal + Decimal(n) + rest, limit) == if n < limit then Some(Scanned(n, rest)) else None
  {
    hide Decimal, ScanDigits, SkipSpace;
    ScanOfDecimal(n, rest);
    var s := literal + Decimal(n) + rest;
    assert s[|literal|..] == Decimal(n) + rest && s[..|literal|] == literal;
  }

  predicate InRange(p: Params) {
    p.memory < 0x1_0000_0000 && p.time < 0x1_0000_0000 && p.threads < 0x100
  }

  lemma ScanOfPrintedParams(p: Params)
    ensures ScanParams(PrintParams(p)) == if InRange(p) then Some(p) else None
  {
    hide Decimal, ScanField;
    var last := ",p=" + Decimal(p.threads) + "";
    var later := ",t=" + Decimal(p.time) + last;
    ScanOfField(",p=", p.threads, "", 0x100);
    ScanOfField(",t=", p.time, last, 0x1_0000_0000);
    ScanOfField("m=", p.memory, later, 0x1_0000_0000);
    assert PrintParams(p) == "m=" + Decimal(p.memory) + later;
  }

  lemma ScanOfPrintedVersion(v: nat)
    ensures ScanVersion("v=" + Decimal(v)) == if v < 0x8000_0000_0000_0000 then Some(v) else None
  {
    hide Decimal, ScanDigits, SkipSpace;
    ScanOfDecimal(v, "");
    assert Decimal(v) + "" == Decimal(v);
    assert ("v=" + Decimal(v))[2..] == Decimal(v);
  }

  // The printed form is six parts between dollar signs, none inside a part.
  lemma PartsOfPrinted(version: nat, p: Params, salt: seq<byte>, key: seq<byte>)
    ensures Split(PrintPHC(version, p, salt, key), '$')
            == ["", "argon2id", "v=" + Decimal(version), PrintParams(p), Encode(salt), Encode(key)]
  {
    hide Split, Encode, Decimal, PrintParams;
    NoDollar(version, p, salt, key);
    var tail := Encode(salt) + ['$'] + Encode(key);
    var fields := PrintParams(p) + ['$'] + tail;
    var versioned := "v=" + Decimal(version) + ['$'] + fields;
    var named := "argon2id" + ['$'] + versioned;
    assert PrintPHC(version, p, salt, key) == "" + ['$'] + named;
    assert Split(Encode(key), '$') == [Encode(key)] by { SplitWhole(Encode(key), '$'); }
    SplitFirst(Encode(salt), Encode(key), '$');
    SplitFirst(PrintParams(p), tail, '$');
    SplitFirst("v=" + Decimal(version), fields, '$');
    SplitFirst("argon2id", versioned, '$');
    SplitFirst("", named, '$');
  }

  lemma NoDollar(version: nat, p: Params, salt: seq<byte>, key: seq<byte>)
    ensures '$' !in "v=" + Decimal(version) && '$' !in PrintParams(p) && '$' !in Encode(salt) && '$' !in Encode(key)
  {
    hide Decimal, Sextets, Chars;
    CharsAreAlphabet(Sextets(salt));
    CharsAreAlphabet(Sextets(key));
  }

  /** Whatever is printed is read back: exactly when the version is argon2's and the parameters fit
      their fields, and otherwise with the error that says which. */
  lemma DecodeOfPrint(version: nat, p: Params, salt: seq<byte>, key: seq<byte>)
    ensures DecodePHC(PrintPHC(version, p, salt, key)) ==
            if version >= 0x8000_0000_0000_0000 then Failure(InvalidHash)
            else if version != ARGON_VERSION then Failure(IncompatibleVersion)
            else if !InRange(p) then Failure(InvalidHash)
            else Success(Decoded(p, salt, key))
  {
    hide Split, Encode, Decode, Decimal, PrintPHC, PrintParams, ScanVersion, ScanParams;
    PartsOfPrinted(version, p, salt, key);
    ScanOfPrintedVersion(version);
    ScanOfPrintedParams(p);
    DecodeOfEncode(salt);
    DecodeOfEncode(key);
  }

  /** The decoder accepts more than is ever printed; whatever it accepts is in range, and printing that
      gives a normal form with the same content. */
  lemma PrintOfDecode(encoded: string)
    requires DecodePHC(encoded).Success?
    ensures var d := DecodePHC(encoded).value;
            InRange(d.params) && DecodePHC(PrintPHC(ARGON_VERSION, d.params, d.salt, d.hash)) == Success(d)
  {
    hide Split, Decode, ScanVersion, ScanField, PrintPHC;
    var d := DecodePHC(encoded).value;
    DecodeOfPrint(ARGON_VERSION, d.params, d.salt, d.hash);
  }

  // ---------------------------------------------------------------------------
  // Exactly which strings are accepted
  // ---------------------------------------------------------------------------

  predicate Blank(s: string) {
    forall c | c in s :: Space(c) && c != '\n'
  }

  predicate Digits(s: string) {
    s != "" && forall c | c in s :: Digit(c)
  }

  /** White space without line breaks, a sign or none, digits, and a rest that does not go on with one. */
  predicate Numeral(s: string, space: string, sign: string, digits: string, rest: string) {
    && s == space + (sign + (digits + rest)) && Blank(space) && sign in {"", "+", "-"} && Digits(digits)
    && (rest == "" || !Digit(rest[0]))
  }

  function Signed(sign: string, digits: string): int
    requires Digits(digits)
  {
    if sign == "-" then 0 - Number(digits) else Number(digits)
  }

  lemma {:induction false} SkipOf(space: string, t: string)
    requires Blank(space) && (t == "" || !Space(t[0]))
    ensures SkipSpace(space + t) == Some(t)
  {
    if space == "" {
      assert space + t == t;
    } else {
      assert space[0] in space && forall c | c in space[1..] :: c in space;
      assert (space + t)[1..] == space[1..] + t;
      SkipOf(space[1..], t);
    }
  }

  lemma {:induction false} SkipGives(s: string) returns (space: string)
    requires SkipSpace(s).Some?
    ensures var t := SkipSpace(s).value; Blank(space) && s == space + t && (t == "" || !Space(t[0]))
  {
    if s == "" || !Space(s[0]) {
      space := "";
    } else {
      var more := SkipGives(s[1..]);
      space := [s[0]] + more;
    }
  }

  lemma DigitsEndOf(digits: string, rest: string)
    requires Digits(digits) && (rest == "" || !Digit(rest[0]))
    ensures DigitsEnd(digits + rest) == |digits|
  {
    var s := digits + rest;
    var k := DigitsEnd(s);
    forall i | 0 <= i < |digits| ensures Digit(s[i]) { assert s[i] == digits[i] && digits[i] in digits; }
    forall i | 0 <= i < k ensures Digit(s[i]) { assert s[i] == s[..k][i] && s[..k][i] in s[..k]; }
    assert rest != "" ==> s[|digits|] == rest[0];
  }

  lemma DigitsOf(digits: string, rest: string)
    requires Digits(digits) && (rest == "" || !Digit(rest[0]))
    ensures ScanDigits(digits + rest) == Some(Scanned(Number(digits), rest))
  {
    hide Number;
    DigitsEndOf(digits, rest);
    assert (digits + rest)[..|digits|] == digits && (digits + rest)[|digits|..] == rest;
  }

  lemma DigitsGive(s: string) returns (digits: string)
    requires ScanDigits(s).Some?
    ensures var r := ScanDigits(s).value;
            && Digits(digits) && s == digits + r.rest && r.value == Number(digits)
            && (r.rest == "" || !Digit(r.rest[0]))
  {
    digits := s[..DigitsEnd(s)];
    assert s == digits + s[DigitsEnd(s)..];
  }

  /** %d into an int reads a numeral exactly as written, and fails on everything else. */
  lemma SignedNumeral(s: string, space: string, sign: string, digits: string, rest: string)
    requires Numeral(s, space, sign, digits, rest)
    ensures var v := Signed(sign, digits);
            ScanSigned(s) ==
            if -0x8000_0000_0000_0000 <= v < 0x8000_0000_0000_0000 then Some(Scanned(v, rest)) else None
  {
    hide Number, ScanDigits, SkipSpace;
    var body := digits + rest;
    var t := sign + body;
    assert digits[0] in digits && body[0] == digits[0];
    assert t[0] == if sign == "" then body[0] else sign[0];
    SkipOf(space, t);
    DigitsOf(digits, rest);
    if sign == "" { assert t == body; } else { assert t[1..] == body; }
  }

  lemma SignedGives(s: string) returns (space: string, sign: string, digits: string)
    requires ScanSigned(s).Some?
    ensures Numeral(s, space, sign, digits, ScanSigned(s).value.rest)
  {
    hide Number, ScanDigits, SkipSpace;
    space := SkipGives(s);
    var t := SkipSpace(s).value;
    if t != "" && (t[0] == '+' || t[0] == '-') {
      sign := [t[0]];
      digits := DigitsGive(t[1..]);
      assert t == sign + t[1..];
    } else {
      sign := "";
      digits := DigitsGive(t);
      assert t == sign + t;
    }
  }

  /** %d into an unsigned integer takes no sign. */
  lemma UnsignedNumeral(s: string, space: string, digits: string, rest: string, limit: nat)
    requires Numeral(s, space, "", digits, rest)
    ensures ScanUnsigned(s, limit) == if Number(digits) < limit then Some(Scanned(Number(digits), rest)) else None
  {
    hide Number, ScanDigits, SkipSpace;
    var body := digits + rest;
    assert digits[0] in digits && body[0] == digits[0] && "" + body == body;
    SkipOf(space, body);
    DigitsOf(digits, rest);
  }

  lemma UnsignedGives(s: string, limit: nat) returns (space: string, digits: string)
    requires ScanUnsigned(s, limit).Some?
    ensures Numeral(s, space, "", digits, ScanUnsigned(s, limit).value.rest)
    ensures ScanUnsigned(s, limit).value.value == Number(digits) < limit
  {
    hide Number, ScanDigits, SkipSpace;
    space := SkipGives(s);
    var t := SkipSpace(s).value;
    digits := DigitsGive(t);
    assert t == "" + t;
  }

  // A literal and an unsigned numeral below the limit.
  ghost predicate Field(s: string, literal: string, n: nat, limit: nat, rest: string) {
    && literal <= s && n < limit
    && exists space, digits :: Numeral(s[|literal|..], space, "", digits, rest) && n == Number(digits)
  }

  lemma FieldIff(s: string, literal: string, n: nat, limit: nat, rest: string)
    ensures ScanField(literal, s, limit) == Some(Scanned(n, rest)) <==> Field(s, literal, n, limit, rest)
  {
    hide Number, ScanUnsigned, Blank;
    if ScanField(literal, s, limit) == Some(Scanned(n, rest)) {
      var space, digits := UnsignedGives(s[|literal|..], limit);
    }
    if Field(s, literal, n, limit, rest) {
      var space, digits :| Numeral(s[|literal|..], space, "", digits, rest) && n == Number(digits);
      UnsignedNumeral(s[|literal|..], space, digits, rest, limit);
    }
  }

  /** Memory, time and threads in this order, each with its name and within its width; what follows the last number
      is not looked at. */
  ghost predicate ParamsWritten(s: string, p: Params) {
    exists a, b, c ::
      && Field(s, "m=", p.memory, 0x1_0000_0000, a) && Field(a, ",t=", p.time, 0x1_0000_0000, b)
      && Field(b, ",p=", p.threads, 0x100, c)
  }

  lemma ParamsIff(s: string, p: Params)
    ensures ScanParams(s) == Some(p) <==> ParamsWritten(s, p)
  {
    hide ScanField, Field;
    if ScanParams(s) == Some(p) {
      var m := ScanField("m=", s, 0x1_0000_0000).value;
      var t := ScanField(",t=", m.rest, 0x1_0000_0000).value;
      var n := ScanField(",p=", t.rest, 0x100).value;
      FieldIff(s, "m=", p.memory, 0x1_0000_0000, m.rest);
      FieldIff(m.rest, ",t=", p.time, 0x1_0000_0000, t.rest);
      FieldIff(t.rest, ",p=", p.threads, 0x100, n.rest);
    }
    if ParamsWritten(s, p) {
      var a, b, c :|
        && Field(s, "m=", p.memory, 0x1_0000_0000, a) && Field(a, ",t=", p.time, 0x1_0000_0000, b)
        && Field(b, ",p=", p.threads, 0x100, c);
      FieldIff(s, "m=", p.memory, 0x1_0000_0000, a);
      FieldIff(a, ",t=", p.time, 0x1_0000_0000, b);
      FieldIff(b, ",p=", p.threads, 0x100, c);
    }
  }

  /** v= and a numeral of 64 bits, a sign allowed, and anything after it. */
  ghost predicate VersionWritten(s: string, v: int) {
    && "v=" <= s && -0x8000_0000_0000_0000 <= v < 0x8000_0000_0000_0000
    && exists space, sign, digits, rest :: Numeral(s[2..], space, sign, digits, rest) && v == Signed(sign, digits)
  }

  lemma VersionIff(s: string, v: int)
    ensures ScanVersion(s) == Some(v) <==> VersionWritten(s, v)
  {
    hide Signed, ScanSigned, Digits, Blank;
    if ScanVersion(s) == Some(v) {
      var space, sign, digits := SignedGives(s[2..]);
      SignedNumeral(s[2..], space, sign, digits, ScanSigned(s[2..]).value.rest);
    }
    if VersionWritten(s, v) {
      var space, sign, digits, rest :| Numeral(s[2..], space, sign, digits, rest) && v == Signed(sign, digits);
      SignedNumeral(s[2..], space, sign, digits, rest);
    }
  }

  /** Exactly what the decoder makes of a string: six parts between dollar signs, whatever the first is, then
      argon2id, a version, parameters, and salt and key in base64.  Another version is told apart only when the
      rest up to it is in order, and then whatever follows. */
  lemma DecodeIff(encoded: string, d: Decoded)
    ensures var parts := Split(encoded, '$');
            var named := |parts| == 6 && parts[1] == "argon2id";
            && (DecodePHC(encoded) == Success(d) <==>
                  && named && VersionWritten(parts[2], 19) && ParamsWritten(parts[3], d.params)
                  && Decode(parts[4]) == Some(d.salt) && Decode(parts[5]) == Some(d.hash))
            && (DecodePHC(encoded) == Failure(IncompatibleVersion) <==>
                  named && exists v :: VersionWritten(parts[2], v) && v != 19)
            && (DecodePHC(encoded).Failure? ==> DecodePHC(encoded).error in {IncompatibleVersion, InvalidHash})
  {
    hide Split, Decode, ScanVersion, ScanParams, VersionWritten, ParamsWritten;
    var parts := Split(encoded, '$');
    if |parts| == 6 {
      VersionIff(parts[2], 19);
      ParamsIff(parts[3], d.params);
      var v := ScanVersion(parts[2]);
      if v.Some? { VersionIff(parts[2], v.value); }
      if w :| VersionWritten(parts[2], w) && w != 19 { VersionIff(parts[2], w); }
    }
  }

  // ---------------------------------------------------------------------------
  // Exactly which accepted strings are printed forms
  // ---------------------------------------------------------------------------

  /** A decimal numeral without sign, space or leading zeros. */
  predicate Shortest(s: string) {
    s != "" && (forall c | c in s :: Digit(c)) && (|s| > 1 ==> s[0] != '0')
  }

  lemma {:induction false} DecimalIsShortest(n: nat)
    ensures Shortest(Decimal(n)) && (n > 0 ==> Decimal(n)[0] != '0')
  {
    if n >= 10 {
      DecimalIsShortest(n / 10);
      assert Decimal(n)[0] == Decimal(n / 10)[0];
    }
  }

  lemma {:induction false} NumberIsPositive(s: string)
    requires Shortest(s) && s[0] != '0'
    ensures Number(s) > 0
  {
    if |s| > 1 {
      var front := s[..|s| - 1];
      assert forall c | c in front :: c in s;
      NumberIsPositive(front);
    } else {
      assert s[0] in s && s[..0] == "";
    }
  }

  /** The numerals that are printed are the shortest ones. */
  lemma {:induction false} DecimalOfNumber(s: string)
    requires forall c | c in s :: Digit(c)
    ensures Decimal(Number(s)) == s <==> Shortest(s)
  {
    if Shortest(s) {
      var front, last := s[..|s| - 1], s[|s| - 1];
      assert last in s && forall c | c in front :: c in s;
      if |s| > 1 {
        NumberIsPositive(front);
        DecimalOfNumber(front);
        assert Number(s) / 10 == Number(front) && Number(s) % 10 == (last - '0') as nat;
        assert s == front + [last];
      } else {
        assert s == [last] && front == "";
      }
    } else {
      DecimalIsShortest(Number(s));
    }
  }

  predicate FieldPrinted(literal: string, s: string) {
    literal <= s && Shortest(s[|literal|..])
  }

  /** Three fields m=, t= and p= in this order, each a shortest numeral, and nothing after the last. */
  predicate ParamsPrinted(s: string) {
    var fields := Split(s, ',');
    |fields| == 3 && FieldPrinted("m=", fields[0]) && FieldPrinted("t=", fields[1]) && FieldPrinted("p=", fields[2])
  }

  /** No line breaks, and zeros in the bits that no byte uses. */
  predicate EncodingPrinted(s: string) {
    Unwrapped(s) == s && Values(s).Some? && TailClear(Values(s).value)
  }

  lemma FieldsOfPrinted(p: Params)
    ensures Split(PrintParams(p), ',') ==
            ["m=" + Decimal(p.memory), "t=" + Decimal(p.time), "p=" + Decimal(p.threads)]
  {
    hide Split, Decimal;
    NoComma(p);
    var m, t, last := "m=" + Decimal(p.memory), "t=" + Decimal(p.time), "p=" + Decimal(p.threads);
    assert PrintParams(p) == m + [','] + (t + [','] + last);
    SplitWhole(last, ',');
    SplitFirst(t, last, ',');
    SplitFirst(m, t + [','] + last, ',');
  }

  lemma NoComma(p: Params)
    ensures ',' !in "m=" + Decimal(p.memory) && ',' !in "t=" + Decimal(p.time) && ',' !in "p=" + Decimal(p.threads)
  {
    hide Decimal;
  }

  lemma SameParts(a: string, b: string, sep: char)
    requires Split(a, sep) == Split(b, sep)
    ensures a == b
  {
    JoinOfSplit(a, sep);
    JoinOfSplit(b, sep);
  }

  lemma FieldIsPrinted(literal: string, s: string)
    requires FieldPrinted(literal, s)
    ensures s == literal + Decimal(Number(s[|literal|..]))
  {
    hide Decimal, Number;
    DecimalOfNumber(s[|literal|..]);
    assert s == s[..|literal|] + s[|literal|..];
  }

  // The parameter text prints what it scans to exactly when it is in this form.
  lemma ParamsPrintedIff(s: string)
    requires ScanParams(s).Some?
    ensures s == PrintParams(ScanParams(s).value) <==> ParamsPrinted(s)
  {
    hide Split, Decimal, Number, PrintParams, ScanParams, Shortest;
    if ParamsPrinted(s) {
      var fields := Split(s, ',');
      FieldIsPrinted("m=", fields[0]);
      FieldIsPrinted("t=", fields[1]);
      FieldIsPrinted("p=", fields[2]);
      var p := Params(Number(fields[0][2..]), Number(fields[1][2..]), Number(fields[2][2..]));
      FieldsOfPrinted(p);
      assert fields == [fields[0], fields[1], fields[2]];
      SameParts(s, PrintParams(p), ',');
      ScanOfPrintedParams(p);
    }
    var q := ScanParams(s).value;
    FieldsOfPrinted(q);
    DecimalIsShortest(q.memory);
    DecimalIsShortest(q.time);
    DecimalIsShortest(q.threads);
  }

  lemma EncodingPrintedIff(s: string)
    requires Decode(s).Some?
    ensures s == Encode(Decode(s).value) <==> EncodingPrinted(s)
  {
    hide Encode, Decode, TailClear;
    EncodeOfDecode(s);
  }

  lemma VersionPrinted()
    ensures "v=" + Decimal(ARGON_VERSION) == "v=19"
  {
    assert Decimal(1) == "1" && Decimal(19) == Decimal(1) + "9";
  }

  /** Exactly which accepted strings are printed forms: nothing stands before the first dollar sign, the
      version is spelt v=19, the parameters are three shortest numerals with nothing after them, and salt
      and key have no line breaks and no stray bits.  Signs, spaces, leading zeros and trailing input are
      accepted but never printed. */
  lemma PrintedFormIff(encoded: string)
    requires DecodePHC(encoded).Success?
    ensures var d := DecodePHC(encoded).value;
            var parts := Split(encoded, '$');
            |parts| == 6 &&
            (encoded == PrintPHC(ARGON_VERSION, d.params, d.salt, d.hash) <==>
             && parts[0] == "" && parts[2] == "v=19" && ParamsPrinted(parts[3])
             && EncodingPrinted(parts[4]) && EncodingPrinted(parts[5]))
  {
    hide Split, Encode, Decode, Decimal, PrintPHC, PrintParams, ScanVersion, ScanParams, ParamsPrinted,
         EncodingPrinted;
    var d := DecodePHC(encoded).value;
    var parts := Split(encoded, '$');
    var printed := PrintPHC(ARGON_VERSION, d.params, d.salt, d.hash);
    PartsOfPrinted(ARGON_VERSION, d.params, d.salt, d.hash);
    VersionPrinted();
    ParamsPrintedIff(parts[3]);
    EncodingPrintedIff(parts[4]);
    EncodingPrintedIff(parts[5]);
    assert parts == [parts[0], parts[1], parts[2], parts[3], parts[4], parts[5]];
    if parts == Split(printed, '$') {
      SameParts(encoded, printed, '$');
    }
  }

  /** An attempt is judged under the parameters and salt that the stored hash names, whatever is printed today,
      by a key of the stored length; and what the decoder refuses is refused with the decoder's error. */
  lemma VerifiesUnderStored(kdf: Kdf, version: nat, p: Params, salt: seq<byte>, key: seq<byte>, attempt: string)
    ensures VerifyPassword(kdf, PrintPHC(version, p, salt, key), attempt) ==
            if version >= 0x8000_0000_0000_0000 then Failure(InvalidHash)
            else if version != ARGON_VERSION then Failure(IncompatibleVersion)
            else if !InRange(p) then Failure(InvalidHash)
            else Success(kdf(attempt, salt, p, |key|) == key)
  {
    hide PrintPHC, DecodePHC;
    DecodeOfPrint(version, p, salt, key);
  }

  /** The same for every string, printed or not: it is refused exactly as the decoder refuses it, and otherwise
      the answer is that for the normal form of what it decodes to. */
  lemma VerifiesAsNormalForm(kdf: Kdf, encoded: string, attempt: string)
    ensures match DecodePHC(encoded)
            case Failure(e) => VerifyPassword(kdf, encoded, attempt) == Failure(e)
            case Success(d) =>
              VerifyPassword(kdf, encoded, attempt) ==
              VerifyPassword(kdf, PrintPHC(ARGON_VERSION, d.params, d.salt, d.hash), attempt)
  {
    if DecodePHC(encoded).Success? { PrintOfDecode(encoded); }
    hide PrintPHC, DecodePHC;
  }

  /** Every password but the empty one verifies against its own hash, and another password does
      exactly when the derivation cannot tell the two apart under the stored salt. */
  lemma HashVerifies(kdf: Kdf, password: string, salt: seq<byte>, attempt: string)
    requires |salt| == ARGON_SALT_LEN
    ensures HashPassword(kdf, "", Some(salt)) == HashPassword(kdf, "", None) == Failure(EmptyPassword)
    ensures password != "" ==> HashPassword(kdf, password, None) == Failure(NoRandomness)
    ensures password == "" <==> HashPassword(kdf, password, Some(salt)).Failure?
    ensures password != "" ==>
              var encoded := HashPassword(kdf, password, Some(salt)).value;
              var p := Params(ARGON_MEMORY, ARGON_TIME, ARGON_THREADS);
              && VerifyPassword(kdf, encoded, password) == Success(true)
              && VerifyPassword(kdf, encoded, attempt) ==
                 Success(kdf(attempt, salt, p, ARGON_KEY_LEN) == kdf(password, salt, p, ARGON_KEY_LEN))
  {
    hide PrintPHC, DecodePHC;
    var p := Params(ARGON_MEMORY, ARGON_TIME, ARGON_THREADS);
    DecodeOfPrint(ARGON_VERSION, p, salt, kdf(password, salt, p, ARGON_KEY_LEN));
  }
}

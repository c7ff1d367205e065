/** internal/auth/totp.go: matching a code to a time step (section 4.2 of RFC 6238, one step of skew
    either way), and recovery codes as people type them. */
module TotpCodes {
  import opened Wrappers
  import opened Text

  /** What the model leaves uninterpreted: the code a secret generates for a step (None is a generator
      error), opening a sealed secret, and hashing a normalised recovery code. */
  datatype Crypto = Crypto(generate: (string, int) -> Option<string>, unseal: string -> Option<string>,
                           digest: string -> string)

  const PERIOD := 30

  // Go's integer division truncates toward zero.
  function GoDiv(a: int, b: int): int
    requires b > 0
  {
    if a >= 0 then a / b else -((-a) / b)
  }

  /** A step lasts thirty seconds; the one around the epoch, truncation being toward zero, nearly sixty. */
  lemma StepOfClock(now: int, step: int)
    ensures GoDiv(now, PERIOD) == step <==>
            if now >= 0 then 30 * step <= now < 30 * (step + 1) else 30 * (step - 1) < now <= 30 * step
  {
  }

  lemma StepsGrowWithTime(a: int, c: int)
    requires a <= c
    ensures GoDiv(a, PERIOD) <= GoDiv(c, PERIOD)
  {
  }

  /** The first of the candidate steps whose code is the one given; a generator error ends the search. */
  function FirstMatch(crypto: Crypto, secret: string, code: string, steps: seq<int>): Option<int> {
    if steps == [] then None
    else
      match crypto.generate(secret, steps[0])
      case None => None
      case Some(want) => if want == code then Some(steps[0]) else FirstMatch(crypto, secret, code, steps[1..])
  }

  function Candidates(now: int): seq<int> {
    var base := GoDiv(now, PERIOD);
    [base, base - 1, base + 1]
  }

  function MatchStep(crypto: Crypto, code: string, secret: string, now: int): Option<int> {
    if |TrimSpace(code)| != 6 then None else FirstMatch(crypto, secret, TrimSpace(code), Candidates(now))
  }

  method MatchTOTPStep(crypto: Crypto, code: string, secret: string, now: int) returns (step: int, ok: bool)
    ensures (if ok then Some(step) else None) == MatchStep(crypto, code, secret, now)
  {
    var trimmed := TrimSpace(code);
    if |trimmed| != 6 {
      return 0, false;
    }
    var base := GoDiv(now, PERIOD);
    var skews := [0, -1, 1];
    for i := 0 to |skews|
      invariant FirstMatch(crypto, secret, trimmed, Candidates(now))
                == FirstMatch(crypto, secret, trimmed, Candidates(now)[i..])
    {
      step := base + skews[i];
      assert Candidates(now)[i..][0] == step && Candidates(now)[i..][1..] == Candidates(now)[i + 1..];
      var want := crypto.generate(secret, step);
      if want.None? {
        return 0, false;
      }
      if want.value == trimmed {
        return step, true;
      }
    }
    return 0, false;
  }

  /** A match is a step at most one away from the clock whose code it is, the present one preferred
      and then the previous one; and without generator errors every such code is matched. */
  lemma MatchIsWithinOneStep(crypto: Crypto, code: string, secret: string, now: int)
    ensures var m, base, t := MatchStep(crypto, code, secret, now), GoDiv(now, PERIOD), TrimSpace(code);
            && (m.Some? ==> base - 1 <= m.value <= base + 1 && |t| == 6 && crypto.generate(secret, m.value) == Some(t))
            && (crypto.generate(secret, base) == None ==> m == None)
            && (|t| == 6 && crypto.generate(secret, base) == Some(t) ==> m == Some(base))
            && (|t| == 6 && crypto.generate(secret, base) !in {None, Some(t)} ==>
                  crypto.generate(secret, base - 1) == Some(t) ==> m == Some(base - 1))
            && (|t| == 6 && (forall s | base - 1 <= s <= base + 1 :: crypto.generate(secret, s).Some?) ==>
                  (m.Some? <==> exists s | base - 1 <= s <= base + 1 :: crypto.generate(secret, s) == Some(t)))
  {
    var base, t := GoDiv(now, PERIOD), TrimSpace(code);
    var late, early := [base - 1, base + 1], [base + 1];
    assert Candidates(now)[1..] == late && late[1..] == early && early[1..] == [];
    assert FirstMatch(crypto, secret, t, early[1..]) == None;
    assert FirstMatch(crypto, secret, t, late[1..]) == FirstMatch(crypto, secret, t, early);
    assert FirstMatch(crypto, secret, t, Candidates(now)[1..]) == FirstMatch(crypto, secret, t, late);
  }

  // ---------------------------------------------------------------------------
  // Recovery codes
  // ---------------------------------------------------------------------------

  const ALPHABET := "abcdefghijkmnpqrstuvwxyz23456789"

  function NormalChar(c: char): string {
    if 'A' <= c <= 'Z' then [(c as int + 32) as char]
    else if 'a' <= c <= 'z' || '0' <= c <= '9' then [c]
    else ""
  }

  function Normalized(code: string): string {
    if code == "" then "" else Normalized(code[..|code| - 1]) + NormalChar(code[|code| - 1])
  }

  method NormalizeRecoveryCode(code: string) returns (b: string)
    ensures b == Normalized(code)
  {
    b := "";
    for i := 0 to |code|
      invariant b == Normalized(code[..i])
    {
      var r := code[i];
      assert code[..i + 1][..i] == code[..i];
      if 'A' <= r <= 'Z' {
        b := b + [(r as int + 32) as char];
      } else if 'a' <= r <= 'z' || '0' <= r <= '9' {
        b := b + [r];
      }
    }
    assert code[..|code|] == code;
  }

  /** The code randomRecoveryCode makes of the random bytes it drew. */
  predicate MadeOf(code: string, bytes: seq<int>)
    requires |bytes| == 10 && forall i | 0 <= i < 10 :: 0 <= bytes[i] < 256
  {
    |code| == 11 && code[5] == '-' &&
    forall i | 0 <= i < 11 && i != 5 :: code[i] == ALPHABET[bytes[if i < 5 then i else i - 1] % |ALPHABET|]
  }

  method FormatRecoveryCode(bytes: seq<int>) returns (code: string)
    requires |bytes| == 10 && forall i | 0 <= i < 10 :: 0 <= bytes[i] < 256
    ensures MadeOf(code, bytes)
  {
    code := "";
    for g := 0 to 2
      invariant |code| == if g == 0 then 0 else 6 * g - 1
      invariant g == 2 ==> code[5] == '-'
      invariant forall i | 0 <= i < |code| && i != 5 ::
                  code[i] == ALPHABET[bytes[if i < 5 then i else i - 1] % |ALPHABET|]
    {
      if g > 0 {
        code := code + "-";
      }
      for i := 0 to 5
        invariant |code| == 6 * g + i
        invariant g == 1 ==> code[5] == '-'
        invariant forall k | 0 <= k < |code| && k != 5 ::
                    code[k] == ALPHABET[bytes[if k < 5 then k else k - 1] % |ALPHABET|]
      {
        code := code + [ALPHABET[bytes[g * 5 + i] % |ALPHABET|]];
      }
    }
  }

  lemma NormalizedSnoc(a: string, c: char)
    ensures Normalized(a + [c]) == Normalized(a) + NormalChar(c)
  {
    hide NormalChar;
    assert (a + [c])[..|a|] == a;
  }

  lemma NothingNormalized()
    ensures Normalized("") == ""
  {
  }

  lemma {:induction false} NormalizedConcat(a: string, b: string)
    ensures Normalized(a + b) == Normalized(a) + Normalized(b)
  {
    hide NormalChar, Normalized;
    if b == "" {
      NothingNormalized();
      assert a + b == a;
    } else {
      var start, c := b[..|b| - 1], b[|b| - 1];
      NormalizedConcat(a, start);
      NormalizedSnoc(a + start, c);
      NormalizedSnoc(start, c);
      assert start + [c] == b && a + start + [c] == a + b;
    }
  }

  function Upper(s: string): string {
    seq(|s|, i requires 0 <= i < |s| => if 'a' <= s[i] <= 'z' then (s[i] as int - 32) as char else s[i])
  }

  /** Of all characters only the letters A to Z, which become small, and a to z and the digits remain. */
  lemma NormalCharIs(c: char)
    ensures NormalChar(c) == "" <==> c !in LETTERS && c !in CAPITALS && c !in DIGITS
    ensures c in LETTERS || c in DIGITS ==> NormalChar(c) == [c]
    ensures forall i | 0 <= i < 26 :: NormalChar(CAPITALS[i]) == [LETTERS[i]]
  {
    InAlphabet(c);
    AlphabetIsConsecutive();
  }

  /** However a recovery code is typed, with dashes, spaces or anything else put in or left out ... */
  lemma FillersDoNotMatter(a: string, filler: char, b: string)
    requires NormalChar(filler) == ""
    ensures Normalized(a + [filler] + b) == Normalized(a + b)
  {
    NormalizedConcat(a + [filler], b);
    NormalizedConcat(a, b);
    assert (a + [filler])[..|a|] == a;
  }

  /** ... or in upper case, it normalises, and so hashes, to the same thing. */
  lemma {:induction false} CaseDoesNotMatter(a: string)
    ensures Normalized(Upper(a)) == Normalized(a)
  {
    if a != "" {
      CaseDoesNotMatter(a[..|a| - 1]);
      assert Upper(a)[..|a| - 1] == Upper(a[..|a| - 1]);
      assert NormalChar(Upper(a)[|a| - 1]) == NormalChar(a[|a| - 1]);
    }
  }

  predicate Plain(c: char) {
    'a' <= c <= 'z' || '0' <= c <= '9'
  }

  lemma {:induction false} PlainIsNormal(s: string)
    requires forall i | 0 <= i < |s| :: Plain(s[i])
    ensures Normalized(s) == s
  {
    hide Normalized;
    if s == "" {
      NothingNormalized();
    } else {
      PlainIsNormal(s[..|s| - 1]);
      NormalizedSnoc(s[..|s| - 1], s[|s| - 1]);
      assert s == s[..|s| - 1] + [s[|s| - 1]];
    }
  }

  lemma AlphabetIsPlain()
    ensures forall c | c in ALPHABET :: Plain(c)
  {
  }

  /** Every generated code normalises to its ten letters and digits. */
  lemma GeneratedCodeNormalizes(code: string, bytes: seq<int>)
    requires |bytes| == 10 && (forall i | 0 <= i < 10 :: 0 <= bytes[i] < 256) && MadeOf(code, bytes)
    ensures Normalized(code) == code[..5] + code[6..]
  {
    hide Plain, NormalChar;
    AlphabetIsPlain();
    DashIsFiller();
    var a, b := code[..5], code[6..];
    FillersDoNotMatter(a, '-', b);
    forall i | 0 <= i < 10 ensures Plain((a + b)[i]) {
      assert (a + b)[i] == code[if i < 5 then i else i + 1];
      assert code[if i < 5 then i else i + 1] in ALPHABET;
    }
    PlainIsNormal(a + b);
    assert code == a + ['-'] + b;
  }

  lemma DashIsFiller()
    ensures NormalChar('-') == ""
  {
  }
}

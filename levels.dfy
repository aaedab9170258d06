/** Skill scores of levels (App.tsx getLevelScore) and the JavaScript
    `parseInt` they rely on, read with radix 10 or, after a "0x" prefix, 16. */
module Levels {
  import opened Types

  /** White space and line terminators that `parseInt` skips at the front. */
  predicate IsJsWhitespace(c: char)
  {
    var n := c as int;
    n == 0x09 || n == 0x0A || n == 0x0B || n == 0x0C || n == 0x0D || n == 0x20 ||
    n == 0xA0 || n == 0x1680 || (0x2000 <= n <= 0x200A) || n == 0x2028 ||
    n == 0x2029 || n == 0x202F || n == 0x205F || n == 0x3000 || n == 0xFEFF
  }

  function TrimStart(s: string): (t: string)
    ensures |t| <= |s| && t == s[|s| - |t|..]
    ensures t != [] ==> !IsJsWhitespace(t[0])
    ensures forall i :: 0 <= i < |s| - |t| ==> IsJsWhitespace(s[i])
  {
    if s != [] && IsJsWhitespace(s[0]) then TrimStart(s[1..]) else s
  }

  predicate IsDecimalDigit(c: char) { '0' <= c <= '9' }

  /** The value of a digit character in radix 16, or 16 when it is none. */
  function HexValue(c: char): nat
  {
    if '0' <= c <= '9' then c as nat - '0' as nat
    else if 'a' <= c <= 'f' then c as nat - 'a' as nat + 10
    else if 'A' <= c <= 'F' then c as nat - 'A' as nat + 10
    else 16
  }

  predicate IsDigitIn(c: char, radix: nat) { HexValue(c) < radix }

  /** Length of the longest prefix of `s` made of digits of `radix`. */
  function DigitRun(s: string, radix: nat): (k: nat)
    ensures k <= |s|
    ensures forall i :: 0 <= i < k ==> IsDigitIn(s[i], radix)
    ensures k < |s| ==> !IsDigitIn(s[k], radix)
  {
    if s != [] && IsDigitIn(s[0], radix) then 1 + DigitRun(s[1..], radix) else 0
  }

  /** Positional value of a digit string, most significant digit first. */
  function DigitsValue(d: string, radix: nat): nat
  {
    if d == [] then 0
    else DigitsValue(d[..|d| - 1], radix) * radix + HexValue(d[|d| - 1]) % 16
  }

  /** Whether a leading sign says negative, and what follows the sign. */
  function SplitSign(t: string): (r: (bool, string))
    ensures |r.1| <= |t|
  {
    if t != [] && t[0] == '-' then (true, t[1..])
    else if t != [] && t[0] == '+' then (false, t[1..])
    else (false, t)
  }

  /** The radix, 16 after a "0x" or "0X" prefix and 10 otherwise, and the digits part. */
  function SplitRadix(u: string): (r: (nat, string))
  {
    if |u| >= 2 && u[0] == '0' && (u[1] == 'x' || u[1] == 'X') then (16, u[2..])
    else (10, u)
  }

  /** The number spelled by the digits after the sign, None when there are none. */
  function ReadMagnitude(u: string): (r: Option<nat>)
  {
    var digits := SplitRadix(u);
    var k := DigitRun(digits.1, digits.0);
    if k == 0 then None else Some(DigitsValue(digits.1[..k], digits.0))
  }

  /** `parseInt(s)` without a radix: None stands for NaN. */
  function ParseInt(s: string): (r: Option<int>)
    ensures (s != [] && !IsJsWhitespace(s[0]) && s[0] != '-' && s[0] != '+'
             && !IsDecimalDigit(s[0])) ==> r == None
  {
    SignedValue(SplitSign(TrimStart(s)))
  }

  /** The number after the sign, negated when the sign is a minus. */
  function SignedValue(signed: (bool, string)): Option<int>
  {
    match ReadMagnitude(signed.1)
    case None => None
    case Some(m) => Some(if signed.0 then -(m as int) else m)
  }

  /** Decimal numeral of `n` with no leading zeros. */
  function Decimal(n: nat): (s: string)
    ensures s != [] && (|s| > 1 ==> s[0] != '0')
    ensures forall i :: 0 <= i < |s| ==> IsDecimalDigit(s[i])
  {
    if n < 10 then [('0' as nat + n) as char]
    else Decimal(n / 10) + [('0' as nat + n % 10) as char]
  }

  lemma {:induction false} DecimalValue(n: nat)
    ensures DigitsValue(Decimal(n), 10) == n
  {
    var s := Decimal(n);
    if n >= 10 {
      DecimalValue(n / 10);
      assert s[..|s| - 1] == Decimal(n / 10);
    }
  }

  lemma {:induction false} AllDigitsRun(s: string)
    requires forall i :: 0 <= i < |s| ==> IsDecimalDigit(s[i])
    ensures DigitRun(s, 10) == |s|
  {
    if s != [] {
      AllDigitsRun(s[1..]);
    }
  }

  predicate IsNumeral(s: string)
  {
    s != [] && (|s| > 1 ==> s[0] != '0') &&
    forall i :: 0 <= i < |s| ==> IsDecimalDigit(s[i])
  }

  lemma NumeralIsTrimmed(s: string)
    requires IsNumeral(s)
    ensures TrimStart(s) == s
  {
  }

  lemma NumeralIsUnsignedDecimal(s: string)
    requires IsNumeral(s)
    ensures SplitSign(s) == (false, s) && SplitRadix(s) == (10, s)
  {
  }

  lemma ReadNumeral(w: string)
    requires IsNumeral(w)
    ensures ReadMagnitude(w) == Some(DigitsValue(w, 10))
  {
    NumeralIsUnsignedDecimal(w);
    AllDigitsRun(w);
    assert w[..|w|] == w;
  }

  /** Once the sign is split off, a numeral is read in radix 10 to its end. */
  lemma ReadDigits(s: string, negative: bool, w: string)
    requires IsNumeral(w)
    requires SplitSign(TrimStart(s)) == (negative, w)
    ensures ParseInt(s) == Some(if negative then -(DigitsValue(w, 10) as int) else DigitsValue(w, 10))
  {
    ReadSigned(negative, w);
  }

  lemma ReadSigned(negative: bool, w: string)
    requires IsNumeral(w)
    ensures SignedValue((negative, w)) == Some(if negative then -(DigitsValue(w, 10) as int) else DigitsValue(w, 10))
  {
    ReadNumeral(w);
  }

  /** A bare numeral without leading zeros reads as its positional value. */
  lemma ParseNumeral(s: string)
    requires IsNumeral(s)
    ensures ParseInt(s) == Some(DigitsValue(s, 10))
  {
    NumeralIsTrimmed(s);
    NumeralIsUnsignedDecimal(s);
    ReadDigits(s, false, s);
  }

  /** Reading back a decimal numeral gives the number (the round trip of
      numeric levels such as "14"). */
  lemma ParseDecimal(n: nat)
    ensures ParseInt(Decimal(n)) == Some(n)
  {
    ParseNumeral(Decimal(n));
    DecimalValue(n);
  }

  /** A leading minus sign negates the numeral. */
  lemma ParseNegativeDecimal(n: nat)
    ensures ParseInt("-" + Decimal(n)) == Some(-(n as int))
  {
    var s := Decimal(n);
    var t := "-" + s;
    assert t[0] == '-' && t[1..] == s;
    assert TrimStart(t) == t;
    ReadDigits(t, true, s);
    DecimalValue(n);
  }

  lemma NoNumberAt(s: string, c: char)
    requires s != [] && s[0] == c
    requires !IsJsWhitespace(c) && c != '-' && c != '+' && !IsDecimalDigit(c)
    ensures ParseInt(s).None?
  {
  }

  /** None of the four tier names starts like a number. */
  lemma TiersAreNotNumerals()
    ensures ParseInt(PRO).None? && ParseInt(ADVANCED).None?
    ensures ParseInt(INTERMEDIATE).None? && ParseInt(BEGINNER).None?
  {
    NoNumberAt(PRO, '校');
    NoNumberAt(ADVANCED, '高');
    NoNumberAt(INTERMEDIATE, '中');
    NoNumberAt(BEGINNER, '初');
  }

  /** getLevelScore: the parsed number for a numeric level, the fixed score of
      a named tier, and 1 for anything else. */
  function LevelScore(level: string): (score: int)
    ensures ParseInt(level).Some? ==> score == ParseInt(level).value
    ensures level == PRO ==> score == 18
    ensures level == ADVANCED ==> score == 14
    ensures level == INTERMEDIATE ==> score == 8
    ensures level == BEGINNER ==> score == 3
    ensures (ParseInt(level).None? && level != PRO && level != ADVANCED
             && level != INTERMEDIATE && level != BEGINNER) ==> score == 1
  {
    TiersAreNotNumerals();
    var parsed := ParseInt(level);
    if parsed.Some? then parsed.value
    else if level == PRO then 18
    else if level == ADVANCED then 14
    else if level == INTERMEDIATE then 8
    else if level == BEGINNER then 3
    else 1
  }

  /** Numeric levels "1".."18" (and any other numeral) score their own value. */
  lemma LevelScoreOfNumeral(n: nat)
    ensures LevelScore(Decimal(n)) == n
  {
    ParseDecimal(n);
  }
}

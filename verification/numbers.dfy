/**
 * Python's conversions from text to integers: `int(s)` (base ten) and
 * `int(float(s))`.  Both strip surrounding blanks and accept one sign and digit
 * groups separated by single underscores.  `float` also reads a fraction, an
 * exponent, `nan` and the infinities; `int` of a float truncates toward zero,
 * raises ValueError on nan and OverflowError on an infinity.
 */
module Numbers {
  import opened Options
  import opened Strings

  /** Python's `digitpart`: digits, possibly grouped by single underscores. */
  predicate DigitPart(s: string) {
    && |s| >= 1 && IsDigit(s[0]) && IsDigit(s[|s| - 1])
    && (forall i :: 0 <= i < |s| ==> IsDigit(s[i]) || s[i] == '_')
    && (forall i :: 0 <= i < |s| - 1 ==> !(s[i] == '_' && s[i + 1] == '_'))
  }

  /** The digits of `s` with the underscores taken out. */
  function DigitsOnly(s: string): (r: string)
    requires forall i :: 0 <= i < |s| ==> IsDigit(s[i]) || s[i] == '_'
    ensures AllDigits(r) && |r| <= |s|
  {
    if s == [] then [] else (if s[0] == '_' then [] else [s[0]]) + DigitsOnly(s[1..])
  }

  lemma {:induction false} DigitsOnlyOfDigits(s: string)
    requires AllDigits(s)
    ensures DigitsOnly(s) == s
  {
    if s != [] {
      DigitsOnlyOfDigits(s[1..]);
    }
  }

  /** The value of a digit part, underscores ignored. */
  function DigitPartValue(s: string): nat
    requires DigitPart(s)
  {
    DigitsValue(DigitsOnly(s))
  }

  /** 2^1024 - 2^970: the least magnitude that a double rounds to infinity. */
  const FloatOverflow: nat :=
    0xFFFF_FFFF_FFFF_FC00_0000_0000_0000_0000_0000_0000_0000_0000_0000_0000_0000_0000_0000_0000_0000_0000_0000_0000_0000_0000_0000_0000_0000_0000_0000_0000_0000_0000_0000_0000_0000_0000_0000_0000_0000_0000_0000_0000_0000_0000_0000_0000_0000_0000_0000_0000_0000_0000_0000_0000_0000_0000_0000_0000_0000_0000_0000_0000_0000_0000

  /** `(negative, rest)`: one leading sign split off. */
  function SplitSign(t: string): (r: (bool, string))
    ensures |r.1| <= |t|
  {
    if t != [] && (t[0] == '+' || t[0] == '-') then (t[0] == '-', t[1..]) else (false, t)
  }

  /** `s` cut at the first character in `stop`: what precedes it and, if found, what follows. */
  function CutAtFirst(s: string, stop: set<char>): (r: (string, Option<string>))
    ensures r.1.None? ==> r.0 == s
    ensures r.1.Some? ==> |r.0| < |s| && s[|r.0|] in stop && s == r.0 + [s[|r.0|]] + r.1.value
    ensures forall i :: 0 <= i < |r.0| ==> r.0[i] !in stop
  {
    if s == [] then ([], None)
    else if s[0] in stop then ([], Some(s[1..]))
    else
      var (a, b) := CutAtFirst(s[1..], stop);
      ([s[0]] + a, b)
  }

  /** A magnitude with its sign. */
  function Signed(neg: bool, magnitude: nat): int {
    if neg then -(magnitude as int) else magnitude
  }

  /** Python's `int(s)` in base ten; `None` where it raises ValueError. */
  function IntLiteral(s: string): Option<int> {
    var (neg, body) := SplitSign(Strip(s));
    UnsignedIntLiteral(neg, body)
  }

  /** `int()` of a text whose sign is already split off. */
  function UnsignedIntLiteral(neg: bool, body: string): Option<int> {
    if DigitPart(body) then Some(Signed(neg, DigitPartValue(body))) else None
  }

  /** What `int(float(s))` does: a value, ValueError, or OverflowError. */
  datatype Truncated = Value(value: int) | Invalid | Overflow

  /** Python's `pointfloat` or plain `digitpart`, cut into integer and fraction digits. */
  predicate Mantissa(m: string) {
    var (ip, frac) := CutAtFirst(m, {'.'});
    match frac
    case None => DigitPart(ip)
    case Some(fp) => (ip == [] && DigitPart(fp)) || (DigitPart(ip) && (fp == [] || DigitPart(fp)))
  }

  /** The digits of a valid mantissa, and how many of them follow the point. */
  function MantissaDigits(m: string): (r: (string, nat))
    requires Mantissa(m)
    ensures AllDigits(r.0) && r.1 <= |r.0|
  {
    var (ip, frac) := CutAtFirst(m, {'.'});
    var intDigits := if ip == [] then [] else DigitsOnly(ip);
    var fracDigits := if frac.None? || frac.value == [] then [] else DigitsOnly(frac.value);
    (intDigits + fracDigits, |fracDigits|)
  }

  /** Python's `exponent` after the `e`: an optional sign and a digit part. */
  predicate Exponent(e: string) {
    DigitPart(SplitSign(e).1)
  }

  function ExponentValue(e: string): int
    requires Exponent(e)
  {
    var (neg, digits) := SplitSign(e);
    var v: int := DigitPartValue(digits);
    if neg then -v else v
  }

  /** floor(n * 10^-scale) for a natural n. */
  function Shift(n: nat, scale: int): nat
    decreases if scale < 0 then -scale else scale
  {
    if scale == 0 then n
    else if scale < 0 then 10 * Shift(n, scale + 1)
    else Shift(n / 10, scale - 1)
  }

  /** `int(float(s))`: the number `s` spells, truncated toward zero. */
  function FloatToInt(s: string): Truncated {
    var signed := SplitSign(Strip(s));
    UnsignedFloatToInt(signed.0, signed.1)
  }

  /** `int(float(...))` of a text whose sign is already split off. */
  function UnsignedFloatToInt(neg: bool, body: string): Truncated {
    if Spells(body, "inf") || Spells(body, "infinity") then Overflow
    else if Spells(body, "nan") then Invalid
    else FiniteToInt(neg, body)
  }

  /** `s.lower() == word` for a lower-case `word`. */
  predicate Spells(s: string, word: string) {
    if s == [] then word == []
    else word != [] && LowerChar(s[0]) == word[0] && Spells(s[1..], word[1..])
  }

  /** A finite number: a mantissa and an optional exponent after `e` or `E`. */
  function FiniteToInt(neg: bool, body: string): Truncated {
    var (m, exp) := CutAtFirst(body, {'e', 'E'});
    if !Mantissa(m) || (exp.Some? && !Exponent(exp.value)) then Invalid
    else InRange(neg, Magnitude(m, if exp.None? then 0 else ExponentValue(exp.value)))
  }

  /** The magnitude of `m * 10^e`, truncated. */
  function Magnitude(m: string, e: int): nat
    requires Mantissa(m)
  {
    var (digits, fracLen) := MantissaDigits(m);
    Shift(DigitsValue(digits), fracLen - e)
  }

  /** A truncated magnitude with its sign; past the largest double the conversion overflows. */
  function InRange(neg: bool, magnitude: nat): Truncated {
    if magnitude >= FloatOverflow then Overflow else Value(Signed(neg, magnitude))
  }

  /** A plain run of digits is a digit part worth its decimal value. */
  lemma DigitsArePart(s: string)
    requires AllDigits(s) && |s| >= 1
    ensures DigitPart(s) && DigitPartValue(s) == DigitsValue(s)
  {
    DigitsOnlyOfDigits(s);
  }

  lemma SplitSignDigits(s: string)
    requires AllDigits(s) && |s| >= 1
    ensures SplitSign(s) == (false, s)
    ensures SplitSign("-" + s) == (true, s)
  {
    assert IsDigit(s[0]);
    var t := "-" + s;
    assert t[0] == '-' && t[1..] == s;
  }

  lemma UnsignedIntDigits(s: string, neg: bool)
    requires AllDigits(s) && |s| >= 1
    ensures UnsignedIntLiteral(neg, s) == Some(Signed(neg, DigitsValue(s)))
  {
    DigitsArePart(s);
  }

  /** A run of digits, with or without a minus sign, is read by `int()` as its value. */
  lemma IntLiteralDigits(s: string)
    requires AllDigits(s) && |s| >= 1
    ensures IntLiteral(s) == Some(DigitsValue(s) as int)
    ensures IntLiteral("-" + s) == Some(-(DigitsValue(s) as int))
  {
    StripSignedDigits(s);
    SplitSignDigits(s);
    UnsignedIntDigits(s, false);
    UnsignedIntDigits(s, true);
  }

  /** What `str(n)` writes, `int()` reads back. */
  lemma IntLiteralDecimal(n: nat)
    ensures IntLiteral(Decimal(n)) == Some(n as int)
  {
    DecimalRoundTrip(n);
    IntLiteralDigits(Decimal(n));
  }

  /** A run of digits, with or without a minus sign, is read by `int(float())` as its value. */
  lemma FloatToIntDigits(s: string)
    requires AllDigits(s) && |s| >= 1 && DigitsValue(s) < FloatOverflow
    ensures FloatToInt(s) == Value(DigitsValue(s))
    ensures FloatToInt("-" + s) == Value(-(DigitsValue(s) as int))
  {
    StripSignedDigits(s);
    SplitSignDigits(s);
    UnsignedDigits(s, false);
    UnsignedDigits(s, true);
  }

  /** What `str(n)` writes, `int(float())` reads back while the double stays finite. */
  lemma FloatToIntDecimal(n: nat)
    requires n < FloatOverflow
    ensures FloatToInt(Decimal(n)) == Value(n)
    ensures FloatToInt("-" + Decimal(n)) == Value(-(n as int))
  {
    DecimalRoundTrip(n);
    FloatToIntDigits(Decimal(n));
  }

  lemma UnsignedDigits(s: string, neg: bool)
    requires AllDigits(s) && |s| >= 1 && DigitsValue(s) < FloatOverflow
    ensures UnsignedFloatToInt(neg, s)
         == Value(if neg then -(DigitsValue(s) as int) else DigitsValue(s))
  {
    NoLetters(s);
    CutNothing(s, {'e', 'E'});
    MantissaOfDigits(s);
    WithoutExponent(neg, s);
  }

  lemma MantissaOfDigits(s: string)
    requires AllDigits(s) && |s| >= 1
    ensures Mantissa(s) && Magnitude(s, 0) == DigitsValue(s)
  {
    CutNothing(s, {'.'});
    DigitsArePart(s);
    assert Mantissa(s);
    DigitsOnlyOfDigits(s);
    var r := MantissaDigits(s);
    assert r.0 == s + [];
    assert r.1 == 0;
    assert s + [] == s;
    assert Shift(DigitsValue(s), 0) == DigitsValue(s);
  }

  /** Dropping `|f|` trailing digits: `Shift` by the number of fraction digits keeps the integer part. */
  lemma {:induction false} ShiftDropsFraction(s: string, f: string)
    requires AllDigits(s) && AllDigits(f)
    ensures AllDigits(s + f) && Shift(DigitsValue(s + f), |f|) == DigitsValue(s)
    decreases |f|
  {
    var t := s + f;
    assert AllDigits(t) by {
      forall i | 0 <= i < |t| ensures IsDigit(t[i]) {
        if i < |s| { assert t[i] == s[i]; } else { assert t[i] == f[i - |s|]; }
      }
    }
    if f == [] {
      assert t == s;
    } else {
      var g := f[..|f| - 1];
      assert t[..|t| - 1] == s + g;
      ShiftDropsFraction(s, g);
      assert DigitsValue(t) / 10 == DigitsValue(s + g);
    }
  }

  /** A number written with a fraction, `s.f`, is truncated: the fraction digits are dropped. */
  lemma FloatToIntTruncates(s: string, f: string)
    requires AllDigits(s) && |s| >= 1 && AllDigits(f) && DigitsValue(s) < FloatOverflow
    ensures FloatToInt(s + "." + f) == Value(DigitsValue(s))
  {
    PointStripped(s, f);
    SplitSignNumber(s, f);
    PointUnsigned(s, f, false);
  }

  /** A negative number written with a fraction, `-s.f`, is truncated toward zero, to `-s`. */
  lemma FloatToIntTowardZero(s: string, f: string)
    requires AllDigits(s) && |s| >= 1 && AllDigits(f) && DigitsValue(s) < FloatOverflow
    ensures FloatToInt("-" + s + "." + f) == Value(-(DigitsValue(s) as int))
  {
    PointStripped(s, f);
    SplitSignNumber(s, f);
    PointUnsigned(s, f, true);
  }

  lemma PointStripped(s: string, f: string)
    requires AllDigits(s) && |s| >= 1 && AllDigits(f)
    ensures Strip(s + "." + f) == s + "." + f
    ensures Strip("-" + s + "." + f) == "-" + s + "." + f
  {
    var body := s + "." + f;
    var neg := "-" + s + "." + f;
    var c := body[|body| - 1];
    assert c == '.' || IsDigit(c);
    assert neg[|neg| - 1] == c;
    assert body[0] == s[0] && IsDigit(s[0]);
    assert neg[0] == '-';
    StripUnchanged(body);
    StripUnchanged(neg);
  }

  lemma SplitSignNumber(s: string, f: string)
    requires AllDigits(s) && |s| >= 1
    ensures SplitSign(s + "." + f) == (false, s + "." + f)
    ensures SplitSign("-" + s + "." + f) == (true, s + "." + f)
  {
    var body := s + "." + f;
    var neg := "-" + s + "." + f;
    assert body[0] == s[0] && IsDigit(s[0]);
    assert neg[1..] == body;
  }

  lemma PointUnsigned(s: string, f: string, neg: bool)
    requires AllDigits(s) && |s| >= 1 && AllDigits(f) && DigitsValue(s) < FloatOverflow
    ensures UnsignedFloatToInt(neg, s + "." + f) == Value(Signed(neg, DigitsValue(s)))
  {
    var body := s + "." + f;
    assert body[0] == s[0];
    NoLetters(body);
    NoExponentMark(s, f);
    PointMantissa(s, f);
    WithoutExponent(neg, body);
  }

  lemma NoExponentMark(s: string, f: string)
    requires AllDigits(s) && AllDigits(f)
    ensures CutAtFirst(s + "." + f, {'e', 'E'}) == (s + "." + f, None)
  {
    var body := s + "." + f;
    forall i | 0 <= i < |body| ensures body[i] !in {'e', 'E'} {
      if i < |s| {
        assert body[i] == s[i];
      } else if i > |s| {
        assert body[i] == f[i - |s| - 1];
      }
    }
    CutNothing(body, {'e', 'E'});
  }

  /** A mantissa with no exponent is worth its own magnitude. */
  lemma WithoutExponent(neg: bool, body: string)
    requires CutAtFirst(body, {'e', 'E'}) == (body, None) && Mantissa(body)
    ensures FiniteToInt(neg, body) == InRange(neg, Magnitude(body, 0))
  {
  }

  lemma PointMantissa(s: string, f: string)
    requires AllDigits(s) && |s| >= 1 && AllDigits(f)
    ensures Mantissa(s + "." + f) && Magnitude(s + "." + f, 0) == DigitsValue(s)
  {
    var body := s + "." + f;
    CutNothing(s, {'.'});
    assert CutAtFirst(body, {'.'}) == (s, Some(f)) by {
      CutAfter(s, f, {'.'});
    }
    DigitsArePart(s);
    if f != [] {
      DigitsArePart(f);
    }
    DigitsOnlyOfDigits(s);
    DigitsOnlyOfDigits(f);
    ShiftDropsFraction(s, f);
  }

  /** Cutting `s + [c] + f` at a stop character `c` that `s` lacks. */
  lemma {:induction false} CutAfter(s: string, f: string, stop: set<char>)
    requires forall i :: 0 <= i < |s| ==> s[i] !in stop
    requires '.' in stop
    ensures CutAtFirst(s + "." + f, stop) == (s, Some(f))
  {
    if s == [] {
      assert s + "." + f == "." + f;
    } else {
      var t := s + "." + f;
      assert t[0] == s[0] && s[0] !in stop;
      assert t[1..] == s[1..] + "." + f;
      CutAfter(s[1..], f, stop);
      assert [s[0]] + s[1..] == s;
    }
  }

  lemma {:induction false} CutNothing(s: string, stop: set<char>)
    requires forall i :: 0 <= i < |s| ==> s[i] !in stop
    ensures CutAtFirst(s, stop) == (s, None)
  {
    if s != [] {
      CutNothing(s[1..], stop);
    }
  }

  /** A run of digits is neither an infinity nor nan. */
  lemma NoLetters(s: string)
    requires |s| >= 1 && IsDigit(s[0])
    ensures !Spells(s, "inf") && !Spells(s, "infinity") && !Spells(s, "nan")
  {
    assert LowerChar(s[0]) == s[0];
  }

  lemma StripSignedDigits(s: string)
    requires AllDigits(s) && |s| >= 1
    ensures Strip(s) == s && Strip("-" + s) == "-" + s
  {
    var t := "-" + s;
    var c := s[|s| - 1];
    assert IsDigit(c) && IsDigit(s[0]);
    assert !IsSpace(c) && !IsSpace(s[0]);
    assert t[|t| - 1] == c;
    assert !IsSpace('-');
    StripUnchanged(s);
    StripUnchanged(t);
  }
}

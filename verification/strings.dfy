/**
 * The parts of Python's `str` that the core relies on, over `seq<char>`:
 * whitespace, `strip`, `lstrip(ch)`, `lower`, `in` (substring), `startswith`,
 * `replace`, `split()`, `split(sep)[0]`, `split(ch)[-1]`, `<` on strings,
 * and `str(n)` for natural numbers.
 */
module Strings {

  /** Python's `str.isspace()`: the characters `split()` and `strip()` treat as blanks. */
  predicate IsSpace(c: char) {
    var n := c as int;
    (9 <= n <= 13) || (28 <= n <= 32) || n == 0x85 || n == 0xA0 || n == 0x1680
    || (0x2000 <= n <= 0x200A) || n == 0x2028 || n == 0x2029 || n == 0x202F
    || n == 0x205F || n == 0x3000
  }

  predicate NoSpace(s: string) {
    forall i :: 0 <= i < |s| ==> !IsSpace(s[i])
  }

  /** `str.lower()` on the ASCII letters; every other character is left alone. */
  function LowerChar(c: char): char {
    if 'A' <= c <= 'Z' then (c as int + 32) as char else c
  }

  function Lower(s: string): (r: string)
    ensures |r| == |s|
  {
    seq(|s|, i requires 0 <= i < |s| => LowerChar(s[i]))
  }

  /** `str.lstrip()` with no argument. */
  function StripLeft(s: string): (r: string)
    ensures |r| <= |s| && r == s[|s| - |r|..]
    ensures r == [] || !IsSpace(r[0])
    ensures forall i :: 0 <= i < |s| - |r| ==> IsSpace(s[i])
  {
    if s != [] && IsSpace(s[0]) then StripLeft(s[1..]) else s
  }

  /** `str.rstrip()` with no argument. */
  function StripRight(s: string): (r: string)
    ensures |r| <= |s| && r == s[..|r|]
    ensures r == [] || !IsSpace(r[|r| - 1])
    ensures forall i :: |r| <= i < |s| ==> IsSpace(s[i])
  {
    if s != [] && IsSpace(s[|s| - 1]) then StripRight(s[..|s| - 1]) else s
  }

  /** `str.strip()` with no argument: a contiguous piece of `s` with no blank at either end. */
  function Strip(s: string): (r: string)
    ensures |r| <= |s|
  {
    StripRight(StripLeft(s))
  }

  /** `strip()` leaves a piece of the string with no blank at either end. */
  lemma StripShape(s: string)
    ensures var r := Strip(s);
            && (r == [] || (!IsSpace(r[0]) && !IsSpace(r[|r| - 1])))
            && Contains(s, r)
  {
    var l := StripLeft(s);
    var r := StripRight(l);
    var k := |s| - |l|;
    assert s[k..] == l && StartsWith(s[k..], r);
    ContainsAt(s, r, k);
  }

  /** A string with no blank at either end is its own `strip()`. */
  lemma StripUnchanged(s: string)
    requires s != [] && !IsSpace(s[0]) && !IsSpace(s[|s| - 1])
    ensures Strip(s) == s
  {
    assert StripLeft(s) == s;
  }

  /** `str.lstrip(c)` for a single character `c` (e.g. `cik.lstrip("0")`). */
  function LStripChar(s: string, c: char): (r: string)
    ensures |r| <= |s| && r == s[|s| - |r|..]
    ensures r == [] || r[0] != c
    ensures forall i :: 0 <= i < |s| - |r| ==> s[i] == c
  {
    if s != [] && s[0] == c then LStripChar(s[1..], c) else s
  }

  predicate StartsWith(s: string, p: string) {
    |p| <= |s| && s[..|p|] == p
  }

  /** Python's `sub in s`. */
  predicate Contains(s: string, sub: string) {
    exists i | 0 <= i <= |s| :: StartsWith(s[i..], sub)
  }

  lemma ContainsAt(s: string, sub: string, i: nat)
    requires i <= |s| && StartsWith(s[i..], sub)
    ensures Contains(s, sub)
  {
  }

  lemma ContainsEquivalent(s: string, sub: string)
    ensures Contains(s, sub) <==> (StartsWith(s, sub) || (s != [] && Contains(s[1..], sub)))
  {
    if StartsWith(s, sub) {
      assert s[0..] == s;
    }
    if Contains(s, sub) && !StartsWith(s, sub) {
      var i :| 0 <= i <= |s| && StartsWith(s[i..], sub);
      assert i > 0;
      assert s[1..][i - 1..] == s[i..];
    }
    if s != [] && Contains(s[1..], sub) {
      var i :| 0 <= i <= |s[1..]| && StartsWith(s[1..][i..], sub);
      assert s[1..][i..] == s[i + 1..];
      ContainsAt(s, sub, i + 1);
    }
  }

  /**
   * `s.replace(pat, rep)`: every non-overlapping occurrence of `pat`, scanning from
   * the left, is replaced.  The core only ever replaces a non-empty `pat`.
   */
  function Replace(s: string, pat: string, rep: string): (r: string)
    requires |pat| > 0
    decreases |s|
  {
    if s == [] then []
    else if StartsWith(s, pat) then rep + Replace(s[|pat|..], pat, rep)
    else [s[0]] + Replace(s[1..], pat, rep)
  }

  /** Replacing something that does not occur changes nothing. */
  lemma {:induction false} ReplaceAbsent(s: string, pat: string, rep: string)
    requires |pat| > 0 && !Contains(s, pat)
    ensures Replace(s, pat, rep) == s
    decreases |s|
  {
    if s != [] {
      ContainsEquivalent(s, pat);
      ReplaceAbsent(s[1..], pat, rep);
    }
  }

  /** Deleting every occurrence of one character leaves none of it behind. */
  lemma {:induction false} ReplaceCharRemovesAll(s: string, c: char)
    ensures |Replace(s, [c], "")| <= |s|
    ensures forall i :: 0 <= i < |Replace(s, [c], "")| ==> Replace(s, [c], "")[i] != c
  {
    if s != [] {
      ReplaceCharRemovesAll(s[1..], c);
    }
  }

  /** The longest blank-free prefix of `s`. */
  function TakeWord(s: string): (w: string)
    ensures |w| <= |s| && w == s[..|w|] && NoSpace(w)
    ensures |w| == |s| || IsSpace(s[|w|])
    ensures s != [] && !IsSpace(s[0]) ==> |w| >= 1
  {
    if s == [] || IsSpace(s[0]) then [] else [s[0]] + TakeWord(s[1..])
  }

  /** `str.split()` with no argument: the maximal runs of non-blank characters. */
  function Words(s: string): seq<string>
    decreases |s|
  {
    var t := StripLeft(s);
    if t == [] then []
    else
      assert !IsSpace(t[0]);
      var w := TakeWord(t);
      assert |w| >= 1;
      [w] + Words(t[|w|..])
  }

  predicate AllWords(ws: seq<string>) {
    forall k :: 0 <= k < |ws| ==> NoSpace(ws[k]) && |ws[k]| > 0
  }

  /** Every word `split()` yields is non-empty and blank-free. */
  lemma {:induction false} WordsAreWords(s: string)
    ensures AllWords(Words(s))
    decreases |s|
  {
    var t := StripLeft(s);
    if t != [] {
      assert !IsSpace(t[0]);
      var w := TakeWord(t);
      assert |w| >= 1;
      var rest := Words(t[|w|..]);
      WordsAreWords(t[|w|..]);
      var ws := Words(s);
      assert ws == [w] + rest;
      forall k | 0 <= k < |ws| ensures NoSpace(ws[k]) && |ws[k]| > 0 {
        if k > 0 {
          assert ws[k] == rest[k - 1];
        }
      }
    }
  }

  /** The first word `split()` yields is a non-empty, blank-free piece of `s`. */
  lemma FirstWordOccurs(s: string)
    requires Words(s) != []
    ensures |Words(s)[0]| > 0 && NoSpace(Words(s)[0]) && Contains(s, Words(s)[0])
  {
    var t := StripLeft(s);
    assert !IsSpace(t[0]);
    var w := TakeWord(t);
    var k := |s| - |t|;
    assert s[k..] == t && StartsWith(t, w);
    ContainsAt(s, w, k);
  }

  /** `s.split(sep)[0]`: everything before the first occurrence of `sep`. */
  function BeforeFirst(s: string, sep: string): string
    requires |sep| > 0
  {
    if s == [] || StartsWith(s, sep) then [] else [s[0]] + BeforeFirst(s[1..], sep)
  }

  /** The part before the separator is a prefix that ends at its first occurrence, or the whole string. */
  lemma {:induction false} BeforeFirstShape(s: string, sep: string)
    requires |sep| > 0
    ensures |BeforeFirst(s, sep)| <= |s| && BeforeFirst(s, sep) == s[..|BeforeFirst(s, sep)|]
    ensures BeforeFirst(s, sep) == s || StartsWith(s[|BeforeFirst(s, sep)|..], sep)
    ensures forall i :: 0 <= i < |BeforeFirst(s, sep)| ==> !StartsWith(s[i..], sep)
  {
    if s != [] && !StartsWith(s, sep) {
      BeforeFirstShape(s[1..], sep);
      var rest := BeforeFirst(s[1..], sep);
      var r := BeforeFirst(s, sep);
      assert r == [s[0]] + rest;
      assert s[..|r|] == [s[0]] + s[1..][..|rest|];
      assert s[|r|..] == s[1..][|rest|..];
      forall i | 0 <= i < |r| ensures !StartsWith(s[i..], sep) {
        if i > 0 {
          assert s[i..] == s[1..][i - 1..];
        }
      }
    }
  }

  /** A prefix of a text that does not start with `sep` does not start with it either. */
  lemma PrefixNoStart(s: string, r: string, sep: string)
    requires |r| <= |s| && r == s[..|r|] && !StartsWith(s, sep)
    ensures !StartsWith(r, sep)
  {
    if |sep| <= |r| {
      assert r[..|sep|] == s[..|sep|];
    }
  }

  /** The part before the separator holds no occurrence of it. */
  lemma BeforeFirstUntagged(s: string, sep: string)
    requires |sep| > 0
    ensures !Contains(BeforeFirst(s, sep), sep)
  {
    var r := BeforeFirst(s, sep);
    BeforeFirstShape(s, sep);
    forall i | 0 <= i <= |r| ensures !StartsWith(r[i..], sep) {
      if i < |r| {
        assert r[i..] == s[i..][..|r| - i];
        PrefixNoStart(s[i..], r[i..], sep);
      }
    }
  }

  /** A piece of a piece of `a` is a piece of `a`. */
  lemma ContainsTransitive(a: string, b: string, c: string)
    requires Contains(a, b) && Contains(b, c)
    ensures Contains(a, c)
  {
    var i :| 0 <= i <= |a| && StartsWith(a[i..], b);
    var j :| 0 <= j <= |b| && StartsWith(b[j..], c);
    forall t | 0 <= t < |c| ensures a[i + j + t] == c[t] {
      assert b[j..][..|c|][t] == c[t];
      assert a[i..][..|b|][j + t] == b[j + t];
    }
    assert a[i + j..][..|c|] == c;
    ContainsAt(a, c, i + j);
  }

  /** `s.split(c)[-1]`: everything after the last occurrence of `c`. */
  function AfterLast(s: string, c: char): string {
    if s == [] || s[|s| - 1] == c then [] else AfterLast(s[..|s| - 1], c) + [s[|s| - 1]]
  }

  /** The part after the last `c` is a suffix free of `c`, preceded by `c` unless it is the whole string. */
  lemma {:induction false} AfterLastShape(s: string, c: char)
    ensures |AfterLast(s, c)| <= |s| && AfterLast(s, c) == s[|s| - |AfterLast(s, c)|..]
    ensures forall i :: 0 <= i < |AfterLast(s, c)| ==> AfterLast(s, c)[i] != c
    ensures AfterLast(s, c) == s || s[|s| - |AfterLast(s, c)| - 1] == c
  {
    if s != [] && s[|s| - 1] != c {
      var init := s[..|s| - 1];
      AfterLastShape(init, c);
      var prev := AfterLast(init, c);
      assert AfterLast(s, c) == prev + [s[|s| - 1]];
      assert s[|s| - |prev| - 1..] == init[|init| - |prev|..] + [s[|s| - 1]];
    }
  }

  /** Python's `a < b` on strings: code-point lexicographic order. */
  predicate LexLess(a: string, b: string) {
    if a == [] then b != []
    else if b == [] then false
    else if a[0] != b[0] then a[0] < b[0]
    else LexLess(a[1..], b[1..])
  }

  /** Python's `a <= b` on strings. */
  predicate LexLe(a: string, b: string) {
    a == b || LexLess(a, b)
  }

  lemma {:induction false} LexLessIrreflexive(a: string)
    ensures !LexLess(a, a)
  {
    if a != [] {
      LexLessIrreflexive(a[1..]);
    }
  }

  lemma {:induction false} LexLessTransitive(a: string, b: string, c: string)
    requires LexLess(a, b) && LexLess(b, c)
    ensures LexLess(a, c)
  {
    if a != [] && b != [] && c != [] && a[0] == b[0] && b[0] == c[0] {
      LexLessTransitive(a[1..], b[1..], c[1..]);
    }
  }

  lemma {:induction false} LexLessTotal(a: string, b: string)
    ensures a == b || LexLess(a, b) || LexLess(b, a)
  {
    if a != [] && b != [] && a[0] == b[0] {
      LexLessTotal(a[1..], b[1..]);
      if a[1..] == b[1..] {
        assert a == [a[0]] + a[1..] && b == [b[0]] + b[1..];
      }
    }
  }

  lemma LexLessAsymmetric(a: string, b: string)
    ensures !(LexLess(a, b) && LexLess(b, a))
  {
    if LexLess(a, b) && LexLess(b, a) {
      LexLessTransitive(a, b, a);
      LexLessIrreflexive(a);
    }
  }

  /** `<=` on strings is a total order. */
  lemma LexLeTotalOrder(a: string, b: string, c: string)
    ensures LexLe(a, b) || LexLe(b, a)
    ensures LexLe(a, b) && LexLe(b, a) ==> a == b
    ensures LexLe(a, b) && LexLe(b, c) ==> LexLe(a, c)
  {
    LexLessTotal(a, b);
    LexLessAsymmetric(a, b);
    if LexLess(a, b) && LexLess(b, c) {
      LexLessTransitive(a, b, c);
    }
  }

  predicate IsDigit(c: char) {
    '0' <= c <= '9'
  }

  predicate AllDigits(s: string) {
    forall i :: 0 <= i < |s| ==> IsDigit(s[i])
  }

  function DigitChar(d: nat): (c: char)
    requires d < 10
    ensures IsDigit(c) && c as int - '0' as int == d
  {
    ('0' as int + d) as char
  }

  /** The number a run of ASCII digits spells in base ten. */
  function DigitsValue(s: string): nat
    requires AllDigits(s)
  {
    if s == [] then 0 else DigitsValue(s[..|s| - 1]) * 10 + (s[|s| - 1] as int - '0' as int)
  }

  /** `str(n)` for a natural number. */
  function Decimal(n: nat): (s: string)
    ensures |s| >= 1 && AllDigits(s)
  {
    if n < 10 then [DigitChar(n)] else Decimal(n / 10) + [DigitChar(n % 10)]
  }

  /** Reading back what `str(n)` wrote gives `n`. */
  lemma {:induction false} DecimalRoundTrip(n: nat)
    ensures DigitsValue(Decimal(n)) == n
  {
    if n >= 10 {
      DecimalRoundTrip(n / 10);
      var s := Decimal(n);
      assert s[..|s| - 1] == Decimal(n / 10);
    }
  }
}

/**
 * String helpers of util.py: Python's integer parsing (`int(s, base)`) and
 * zero-padded formatting (`format(n, '0wb')`, `f"{n:04X}"`), the 16-bit
 * binary/hex converters built on them, the IPv4 validator and the
 * frequency-unit conversion.
 */
module Util {
  import opened Wrappers

  /** The bases this program formats and parses in (binary, decimal, hex). */
  type Base = b: int | b == 2 || b == 10 || b == 16 witness 2

  function Max(a: int, b: int): int { if a < b then b else a }

  function Pow(b: nat, w: nat): nat
  {
    if w == 0 then 1 else b * Pow(b, w - 1)
  }

  lemma {:induction false} PowPositive(b: Base, w: nat)
    ensures Pow(b, w) >= 1
  {
    if w > 0 {
      PowPositive(b, w - 1);
      MulMono(1, Pow(b, w - 1), b);
    }
  }

  /** The powers this program's register widths need. */
  lemma PowValues()
    ensures Pow(2, 4) == 16 && Pow(2, 10) == 1024 && Pow(2, 16) == 65536
    ensures Pow(16, 2) == 256 && Pow(16, 4) == 65536 && Pow(10, 3) == 1000
  {
    assert Pow(2, 2) == 4;
    assert Pow(2, 4) == 16;
    assert Pow(2, 6) == 64;
    assert Pow(2, 8) == 256;
    assert Pow(2, 10) == 1024;
    assert Pow(2, 12) == 4096;
    assert Pow(2, 14) == 16384;
    assert Pow(16, 2) == 256;
    assert Pow(16, 4) == 65536;
    assert Pow(10, 2) == 100;
  }

  // ---------------------------------------------------------------------
  // Digits and their values
  // ---------------------------------------------------------------------

  /** The digit Python prints for `d` in the 'X', 'b' and 'd' formats. */
  function DigitChar(d: nat): char
    requires d < 16
  {
    if d < 10 then ('0' as int + d) as char else ('A' as int + d - 10) as char
  }

  predicate IsUpperHexChar(c: char)
  {
    '0' <= c <= '9' || 'A' <= c <= 'F'
  }

  /** The value of a digit character, either case, or 16 for a non-digit. */
  function DigitValue(c: char): (v: nat)
    ensures v <= 16
  {
    if '0' <= c <= '9' then c as int - '0' as int
    else if 'A' <= c <= 'F' then c as int - 'A' as int + 10
    else if 'a' <= c <= 'f' then c as int - 'a' as int + 10
    else 16
  }

  predicate IsDigit(c: char, b: Base)
  {
    DigitValue(c) < b
  }

  predicate IsDigits(s: string, b: Base)
  {
    forall i :: 0 <= i < |s| ==> IsDigit(s[i], b)
  }

  /** The value `int(s, b)` gives a string of digits, most significant first (meaningful when `IsDigits(s, b)`). */
  function ValueOf(s: string, b: Base): nat
  {
    if s == [] then 0 else ValueOf(s[..|s| - 1], b) * b + DigitValue(s[|s| - 1])
  }

  /** ASCII upper-casing, character by character. */
  function UpperChar(c: char): char
  {
    if 'a' <= c <= 'z' then (c as int - 'a' as int + 'A' as int) as char else c
  }

  function Upper(s: string): (r: string)
    ensures |r| == |s|
    ensures forall i :: 0 <= i < |s| ==> r[i] == UpperChar(s[i])
  {
    seq(|s|, i requires 0 <= i < |s| => UpperChar(s[i]))
  }

  lemma DigitCharValue(d: nat)
    requires d < 16
    ensures DigitValue(DigitChar(d)) == d && IsUpperHexChar(DigitChar(d))
  {
  }

  lemma DigitOfValue(c: char, b: Base)
    requires IsDigit(c, b)
    ensures DigitChar(DigitValue(c)) == UpperChar(c)
  {
  }

  /** Exactly `w` digits of `n` in base `b`, the least significant last. */
  function FixedDigits(n: nat, b: Base, w: nat): (r: string)
    ensures |r| == w
  {
    if w == 0 then [] else FixedDigits(n / b, b, w - 1) + [DigitChar(n % b)]
  }

  /** The number of digits Python prints for `n` without padding (one for zero). */
  function NumDigits(n: nat, b: Base): (k: nat)
    ensures k >= 1
  {
    if n < b then 1 else 1 + NumDigits(n / b, b)
  }

  /**
   * Python's `format(n, f'0{w}b')` (b = 2), `f"{n:04X}"` (b = 16) and
   * `str(n)` (b = 10, w = 1): the digits of `n`, zero-padded on the left
   * to `w` characters, and LONGER than `w` when `n` does not fit.
   */
  function Format(n: nat, b: Base, w: nat): string
  {
    FixedDigits(n, b, Max(w, NumDigits(n, b)))
  }

  // ---------------------------------------------------------------------
  // Arithmetic facts behind the digit lemmas, one base at a time
  // ---------------------------------------------------------------------

  lemma MulMono(x: int, y: int, b: Base)
    requires x <= y
    ensures x * b <= y * b
  {
    if b == 2 { } else if b == 10 { } else { }
  }

  lemma DivMod(n: nat, b: Base)
    ensures n == (n / b) * b + n % b
  {
    if b == 2 { } else if b == 10 { } else { }
  }

  lemma DivModOfDigit(q: nat, b: Base, d: nat)
    requires d < b
    ensures (q * b + d) / b == q && (q * b + d) % b == d
  {
    if b == 2 { } else if b == 10 { } else { }
  }

  lemma DivBound(n: nat, b: Base, p: nat)
    requires n < b * p
    ensures n / b < p
  {
    if b == 2 { } else if b == 10 { } else { }
  }

  lemma DivUpper(n: nat, b: Base, p: nat)
    requires n / b < p
    ensures n < b * p
  {
    if b == 2 { } else if b == 10 { } else { }
  }

  lemma DivLower(n: nat, b: Base, p: nat)
    requires p <= n / b
    ensures b * p <= n
  {
    if b == 2 { } else if b == 10 { } else { }
  }

  lemma MulGrow(p: nat, b: Base)
    ensures p <= b * p
  {
    if b == 2 { } else if b == 10 { } else { }
  }

  lemma ValueStep(v: nat, d: nat, b: Base, p: nat)
    requires v < p && d < b
    ensures v * b + d < b * p
  {
    if b == 2 { } else if b == 10 { } else { }
  }

  lemma ValueStepLow(v: nat, d: nat, b: Base, p: nat)
    requires p <= v
    ensures b * p <= v * b + d
  {
    if b == 2 { } else if b == 10 { } else { }
  }

  lemma {:induction false} ValueOfBound(s: string, b: Base)
    requires IsDigits(s, b)
    ensures ValueOf(s, b) < Pow(b, |s|)
  {
    if s != [] {
      var p := s[..|s| - 1];
      ValueOfBound(p, b);
      ValueStep(ValueOf(p, b), DigitValue(s[|s| - 1]), b, Pow(b, |p|));
    }
  }

  lemma ShiftStep(v: int, p: int, u: int, d: int, b: Base)
    ensures (v * p + u) * b + d == v * (b * p) + (u * b + d)
  {
    if b == 2 { } else if b == 10 { } else { }
  }

  /** The value of a concatenation: the front digits shifted by the length of the back. */
  lemma {:induction false} ValueOfAppend(s: string, t: string, b: Base)
    requires IsDigits(s, b) && IsDigits(t, b)
    ensures IsDigits(s + t, b)
    ensures ValueOf(s + t, b) == ValueOf(s, b) * Pow(b, |t|) + ValueOf(t, b)
  {
    if t == [] {
      assert s + t == s;
    } else {
      var u := t[..|t| - 1];
      assert (s + t)[..|s + t| - 1] == s + u;
      ValueOfAppend(s, u, b);
      ShiftStep(ValueOf(s, b), Pow(b, |u|), ValueOf(u, b), DigitValue(t[|t| - 1]), b);
    }
  }

  // ---------------------------------------------------------------------
  // Formatting and parsing are inverse
  // ---------------------------------------------------------------------

  /** Fixed-width digits are upper-case digits of the base. */
  lemma {:induction false} FixedDigitsChars(n: nat, b: Base, w: nat)
    ensures IsDigits(FixedDigits(n, b, w), b)
    ensures forall i :: 0 <= i < w ==> IsUpperHexChar(FixedDigits(n, b, w)[i])
  {
    if w > 0 {
      FixedDigitsChars(n / b, b, w - 1);
      DigitCharValue(n % b);
    }
  }

  /** One more digit multiplies the value by the base and adds the digit. */
  lemma ValueOfSnoc(p: string, c: char, b: Base)
    requires IsDigits(p, b) && IsDigit(c, b)
    ensures IsDigits(p + [c], b)
    ensures ValueOf(p + [c], b) == ValueOf(p, b) * b + DigitValue(c)
  {
    assert (p + [c])[..|p|] == p;
  }

  /** Fixed-width digits parse back to the number they encode when it fits. */
  lemma {:induction false} FixedDigitsValue(n: nat, b: Base, w: nat)
    requires n < Pow(b, w)
    ensures IsDigits(FixedDigits(n, b, w), b)
    ensures ValueOf(FixedDigits(n, b, w), b) == n
  {
    FixedDigitsChars(n, b, w);
    if w > 0 {
      DivBound(n, b, Pow(b, w - 1));
      FixedDigitsValue(n / b, b, w - 1);
      ValueOfLastDigit(FixedDigits(n / b, b, w - 1), n, b);
    }
  }

  /** Appending the digit `n % b` to the digits of `n / b` gives the digits of `n`. */
  lemma ValueOfLastDigit(p: string, n: nat, b: Base)
    requires IsDigits(p, b) && ValueOf(p, b) == n / b
    ensures IsDigits(p + [DigitChar(n % b)], b)
    ensures ValueOf(p + [DigitChar(n % b)], b) == n
  {
    DivMod(n, b);
    DigitCharValue(n % b);
    ValueOfSnoc(p, DigitChar(n % b), b);
  }

  /** Formatting a string's value at its own width gives the string back, upper-cased. */
  lemma {:induction false} FixedDigitsOfValue(s: string, b: Base)
    requires IsDigits(s, b)
    ensures FixedDigits(ValueOf(s, b), b, |s|) == Upper(s)
  {
    if s != [] {
      var p := s[..|s| - 1];
      var c := s[|s| - 1];
      FixedDigitsOfValue(p, b);
      DivModOfDigit(ValueOf(p, b), b, DigitValue(c));
      DigitOfValue(c, b);
      assert Upper(s) == Upper(p) + [UpperChar(c)];
    }
  }

  /** `NumDigits` is the least width at which `n` fits. */
  lemma {:induction false} NumDigitsFits(n: nat, b: Base)
    ensures n < Pow(b, NumDigits(n, b))
    ensures NumDigits(n, b) > 1 ==> Pow(b, NumDigits(n, b) - 1) <= n
  {
    if n >= b {
      var k := NumDigits(n / b, b);
      assert NumDigits(n, b) == k + 1;
      NumDigitsFits(n / b, b);
      assert n < Pow(b, k + 1) by {
        DivUpper(n, b, Pow(b, k));
      }
      if k > 1 {
        assert Pow(b, k) <= n by {
          DivLower(n, b, Pow(b, k - 1));
        }
      } else {
        assert Pow(b, 1) == b;
      }
    } else {
      assert NumDigits(n, b) == 1 && Pow(b, 1) == b;
    }
  }

  lemma {:induction false} PowMonotone(b: Base, i: nat, j: nat)
    requires i <= j
    ensures Pow(b, i) <= Pow(b, j)
  {
    if i < j {
      PowMonotone(b, i, j - 1);
      MulGrow(Pow(b, j - 1), b);
    }
  }

  /** A number fits in `w` digits exactly when it needs at most `w` digits. */
  lemma NumDigitsAtMost(n: nat, b: Base, w: nat)
    requires w >= 1
    ensures n < Pow(b, w) <==> NumDigits(n, b) <= w
  {
    NumDigitsFits(n, b);
    var k := NumDigits(n, b);
    if k <= w {
      PowMonotone(b, k, w);
    } else {
      PowMonotone(b, w, k - 1);
    }
  }

  /** The length of Python's padded formatting: `w` when `n` fits, longer when it does not. */
  lemma FormatLength(n: nat, b: Base, w: nat)
    requires w >= 1
    ensures n < Pow(b, w) ==> |Format(n, b, w)| == w
    ensures n >= Pow(b, w) ==> |Format(n, b, w)| > w
  {
    NumDigitsAtMost(n, b, w);
  }

  /** Whatever the width, the formatted digits denote `n` (no truncation). */
  lemma FormatValue(n: nat, b: Base, w: nat)
    ensures IsDigits(Format(n, b, w), b)
    ensures ValueOf(Format(n, b, w), b) == n
    ensures forall i :: 0 <= i < |Format(n, b, w)| ==> IsUpperHexChar(Format(n, b, w)[i])
  {
    var k := Max(w, NumDigits(n, b));
    NumDigitsFits(n, b);
    PowMonotone(b, NumDigits(n, b), k);
    FixedDigitsChars(n, b, k);
    FixedDigitsValue(n, b, k);
  }

  /** A string that starts with a non-zero digit is worth at least `b^(|s|-1)`. */
  lemma {:induction false} LeadingDigitBound(s: string, b: Base)
    requires IsDigits(s, b) && |s| >= 1 && DigitValue(s[0]) != 0
    ensures ValueOf(s, b) >= Pow(b, |s| - 1)
  {
    if |s| > 1 {
      var p := s[..|s| - 1];
      assert p[0] == s[0];
      LeadingDigitBound(p, b);
      ValueStepLow(ValueOf(p, b), DigitValue(s[|s| - 1]), b, Pow(b, |p| - 1));
    } else {
      assert s[..0] == [];
    }
  }

  /** A digit string without a superfluous leading zero is what Python prints for its value. */
  lemma FormatOfValue(s: string, b: Base, w: nat)
    requires IsDigits(s, b) && |s| >= 1 && w <= |s|
    requires |s| == 1 || DigitValue(s[0]) != 0
    ensures Format(ValueOf(s, b), b, w) == Upper(s)
  {
    var v := ValueOf(s, b);
    ValueOfBound(s, b);
    NumDigitsAtMost(v, b, |s|);
    if |s| > 1 {
      LeadingDigitBound(s, b);
      NumDigitsAtMost(v, b, |s| - 1);
    }
    FixedDigitsOfValue(s, b);
  }

  /** A leading zero adds nothing to a digit string's value. */
  lemma {:induction false} LeadingZeroDrop(t: string, b: Base)
    requires IsDigits(t, b) && |t| >= 1 && DigitValue(t[0]) == 0
    ensures ValueOf(t, b) == ValueOf(t[1..], b)
  {
    if |t| > 1 {
      var p := t[..|t| - 1];
      assert p[0] == t[0];
      LeadingZeroDrop(p, b);
      assert p[1..] == t[1..][..|t[1..]| - 1];
    } else {
      assert t[..0] == [];
    }
  }

  /** The first of the minimal digits of a number that needs more than one is not zero. */
  lemma ZeroLeadNotNeeded(n: nat, b: Base)
    requires NumDigits(n, b) > 1
    ensures DigitValue(Format(n, b, 1)[0]) != 0
  {
    var k := NumDigits(n, b);
    NumDigitsFits(n, b);
    var t := FixedDigits(n, b, k);
    FixedDigitsValue(n, b, k);
    if DigitValue(t[0]) == 0 {
      LeadingZeroDrop(t, b);
      ValueOfBound(t[1..], b);
    }
  }

  // ---------------------------------------------------------------------
  // util.py: binary/hex conversion
  // ---------------------------------------------------------------------

  predicate IsBits16(s: string)
  {
    |s| == 16 && forall i :: 0 <= i < 16 ==> s[i] == '0' || s[i] == '1'
  }

  predicate IsUpperHex(s: string)
  {
    forall i :: 0 <= i < |s| ==> IsUpperHexChar(s[i])
  }

  lemma BinaryDigitsAreBits(r: string)
    requires |r| == 16 && IsDigits(r, 2)
    ensures IsBits16(r)
  {
    assert forall i :: 0 <= i < 16 ==> IsDigit(r[i], 2);
  }

  lemma Bits16AreDigits(s: string)
    requires IsBits16(s)
    ensures IsDigits(s, 2) && Upper(s) == s
  {
  }

  // ---------------------------------------------------------------------
  // Python's int(s, base) and format(n, '0wX') on any integer
  // ---------------------------------------------------------------------

  /** The white space `int` skips around a number: tab, line feed, vertical tab, form feed, carriage return, space. */
  predicate IsSpace(c: char)
  {
    c == ' ' || '\t' <= c <= '\r'
  }

  predicate AllSpaces(s: string)
  {
    forall i :: 0 <= i < |s| ==> IsSpace(s[i])
  }

  function StripLeft(s: string): string
  {
    if s != [] && IsSpace(s[0]) then StripLeft(s[1..]) else s
  }

  function StripRight(s: string): string
  {
    if s != [] && IsSpace(s[|s| - 1]) then StripRight(s[..|s| - 1]) else s
  }

  /** `s` without its leading and trailing white space. */
  function Strip(s: string): string
  {
    StripRight(StripLeft(s))
  }

  /** The letter of the prefix `int` accepts after a `0`: `0b` in base 2, `0x` in base 16, either case. */
  predicate IsPrefixLetter(c: char, b: Base)
  {
    (b == 2 && (c == 'b' || c == 'B')) || (b == 16 && (c == 'x' || c == 'X'))
  }

  /** The text after a base prefix and the one underscore allowed right behind it. */
  function DropPrefix(u: string, b: Base): string
  {
    if |u| >= 2 && u[0] == '0' && IsPrefixLetter(u[1], b) then
      if |u| >= 3 && u[2] == '_' then u[3..] else u[2..]
    else
      u
  }

  /** Digits of base `b` split by single underscores: none first, last, or two in a row. */
  predicate IsGrouped(t: string, b: Base)
  {
    |t| > 0 && IsDigit(t[0], b) && forall i :: 0 <= i < |t| ==> GroupChar(t, i, b)
  }

  /** Position `i` holds a digit, or an underscore with a digit right after it. */
  predicate GroupChar(t: string, i: nat, b: Base)
    requires i < |t|
  {
    IsDigit(t[i], b) || (t[i] == '_' && i + 1 < |t| && IsDigit(t[i + 1], b))
  }

  /** The digits of a grouped text, underscores removed. */
  function Ungrouped(t: string): string
  {
    if t == [] then [] else (if t[0] == '_' then [] else [t[0]]) + Ungrouped(t[1..])
  }

  /** The digits after the sign: an optional prefix, then grouped digits. */
  function ParseUnsigned(u: string, b: Base): Option<int>
  {
    var body := DropPrefix(u, b);
    if IsGrouped(body, b) then Some(ValueOf(Ungrouped(body), b))
    else
      None
  }

  /** A stripped number: an optional sign, then the unsigned part. */
  function ParseSigned(t: string, b: Base): Option<int>
  {
    if t != [] && (t[0] == '-' || t[0] == '+') then
      match ParseUnsigned(t[1..], b)
      case None => None
      case Some(m) => Some(if t[0] == '-' then -m else m)
    else
      ParseUnsigned(t, b)
  }

  /**
   * Python's `int(s, b)` for the bases 2, 10 and 16: white space around,
   * then an optional sign, then in bases 2 and 16 an optional `0b`/`0x`
   * prefix, then digits with single underscores between them; `None`
   * where `int` raises `ValueError`.
   */
  function PyInt(s: string, b: Base): Option<int>
  {
    ParseSigned(Strip(s), b)
  }

  lemma {:induction false} UngroupedOfDigits(t: string, b: Base)
    requires IsDigits(t, b)
    ensures Ungrouped(t) == t
  {
    if t != [] {
      assert IsDigit(t[0], b);
      UngroupedOfDigits(t[1..], b);
      assert t == [t[0]] + t[1..];
    }
  }

  lemma {:induction false} UngroupedAppend(x: string, y: string)
    ensures Ungrouped(x + y) == Ungrouped(x) + Ungrouped(y)
  {
    if x != [] {
      assert (x + y)[1..] == x[1..] + y;
      UngroupedAppend(x[1..], y);
    } else {
      assert x + y == y;
    }
  }

  /** A text that neither starts nor ends with white space is its own strip. */
  lemma StripTrimmed(s: string)
    requires s != [] && !IsSpace(s[0]) && !IsSpace(s[|s| - 1])
    ensures Strip(s) == s
  {
  }

  /** Plain digits, with no prefix, are grouped and are their own digits. */
  lemma UnsignedDigits(t: string, b: Base)
    requires |t| > 0 && IsDigits(t, b)
    ensures DropPrefix(t, b) == t && IsGrouped(t, b)
    ensures ParseUnsigned(t, b) == Some(ValueOf(t, b))
  {
    assert IsDigit(t[0], b);
    if |t| >= 2 {
      assert IsDigit(t[1], b);
    }
    UngroupedOfDigits(t, b);
  }

  /** Plain digits parse to their value: `int(t, b)` on the canonical form. */
  lemma PyIntDigits(t: string, b: Base)
    requires |t| > 0 && IsDigits(t, b)
    ensures PyInt(t, b) == Some(ValueOf(t, b))
  {
    assert IsDigit(t[0], b) && IsDigit(t[|t| - 1], b);
    StripTrimmed(t);
    UnsignedDigits(t, b);
  }

  lemma {:induction false} StripLeftSpaces(w: string, s: string)
    requires AllSpaces(w)
    ensures StripLeft(w + s) == StripLeft(s)
  {
    if w != [] {
      assert (w + s)[1..] == w[1..] + s;
      StripLeftSpaces(w[1..], s);
    } else {
      assert w + s == s;
    }
  }

  lemma {:induction false} StripRightSpaces(s: string, w: string)
    requires AllSpaces(w)
    ensures StripRight(s + w) == StripRight(s)
  {
    if w != [] {
      assert (s + w)[..|s + w| - 1] == s + w[..|w| - 1];
      StripRightSpaces(s, w[..|w| - 1]);
    } else {
      assert s + w == s;
    }
  }

  /** Trailing white space passes through the left strip of a text that is not blank. */
  lemma {:induction false} StripLeftAppend(s: string, w: string)
    ensures StripLeft(s) != [] ==> StripLeft(s + w) == StripLeft(s) + w
    ensures StripLeft(s) == [] ==> StripLeft(s + w) == StripLeft(w)
  {
    if s != [] {
      assert (s + w)[0] == s[0];
      if IsSpace(s[0]) {
        assert (s + w)[1..] == s[1..] + w;
        StripLeftAppend(s[1..], w);
      }
    } else {
      assert s + w == w;
    }
  }

  /** `int` ignores white space around the number. */
  lemma PyIntSpaces(w1: string, s: string, w2: string, b: Base)
    requires AllSpaces(w1) && AllSpaces(w2)
    ensures PyInt(w1 + s + w2, b) == PyInt(s, b)
  {
    assert w1 + s + w2 == w1 + (s + w2);
    StripLeftSpaces(w1, s + w2);
    StripLeftAppend(s, w2);
    if StripLeft(s) != [] {
      StripRightSpaces(StripLeft(s), w2);
    } else {
      StripLeftSpaces(w2, []);
      assert w2 + [] == w2;
    }
    assert Strip(w1 + s + w2) == Strip(s);
  }

  /** A minus sign negates a number written without white space or sign of its own; a plus sign keeps it. */
  lemma PyIntSigned(t: string, b: Base, m: int)
    requires PyInt(t, b) == Some(m) && t != [] && !IsSpace(t[0]) && !IsSpace(t[|t| - 1])
    requires t[0] != '-' && t[0] != '+'
    ensures PyInt("-" + t, b) == Some(-m)
    ensures PyInt("+" + t, b) == Some(m)
  {
    StripTrimmed(t);
    StripTrimmed("-" + t);
    StripTrimmed("+" + t);
    assert ("-" + t)[1..] == t && ("+" + t)[1..] == t;
    assert PyInt(t, b) == ParseUnsigned(t, b);
  }

  /** In bases 2 and 16 the prefix `0b`/`0x`, alone or followed by one underscore, changes nothing. */
  lemma PyIntPrefixed(c: char, t: string, b: Base)
    requires IsPrefixLetter(c, b) && |t| > 0 && IsDigits(t, b)
    ensures PyInt(['0', c] + t, b) == Some(ValueOf(t, b))
    ensures PyInt(['0', c, '_'] + t, b) == Some(ValueOf(t, b))
  {
    UnsignedDigits(t, b);
    assert IsDigit(t[|t| - 1], b);
    var u, v := ['0', c] + t, ['0', c, '_'] + t;
    StripTrimmed(u);
    StripTrimmed(v);
    assert u[2..] == t && v[3..] == t;
    assert DropPrefix(u, b) == t && DropPrefix(v, b) == t;
    assert ParseUnsigned(u, b) == ParseUnsigned(t, b);
    assert ParseUnsigned(v, b) == ParseUnsigned(t, b);
  }

  /** Digits, one underscore, digits: every underscore is followed by a digit. */
  lemma GroupedPairChars(x: string, y: string, b: Base)
    requires |x| > 0 && |y| > 0 && IsDigits(x, b) && IsDigits(y, b)
    ensures IsGrouped(x + "_" + y, b)
  {
    var t := x + "_" + y;
    assert t[0] == x[0] && IsDigit(x[0], b);
    forall i | 0 <= i < |t|
      ensures GroupChar(t, i, b)
    {
      if i < |x| {
        assert t[i] == x[i];
      } else if i == |x| {
        assert t[i + 1] == y[0];
      } else {
        assert t[i] == y[i - |x| - 1];
      }
    }
  }

  /** Digits, one underscore, digits: no prefix, grouped, and their digits are the two parts joined. */
  lemma GroupedPair(x: string, y: string, b: Base)
    requires |x| > 0 && |y| > 0 && IsDigits(x, b) && IsDigits(y, b)
    ensures DropPrefix(x + "_" + y, b) == x + "_" + y
    ensures IsGrouped(x + "_" + y, b) && Ungrouped(x + "_" + y) == x + y
  {
    var t := x + "_" + y;
    if |x| >= 2 {
      assert t[1] == x[1] && IsDigit(x[1], b);
    } else {
      assert t[1] == '_';
    }
    GroupedPairChars(x, y, b);
    UngroupedPair(x, y, b);
  }

  lemma UngroupedPair(x: string, y: string, b: Base)
    requires IsDigits(x, b) && IsDigits(y, b)
    ensures Ungrouped(x + "_" + y) == x + y
  {
    var u := "_" + y;
    assert x + "_" + y == x + u;
    UngroupedAppend(x, u);
    assert u[0] == '_' && u[1..] == y;
    assert Ungrouped(u) == Ungrouped(y);
    UngroupedOfDigits(x, b);
    UngroupedOfDigits(y, b);
  }

  /** A single underscore between digits is ignored: `int("12_AB", 16) == int("12AB", 16)`. */
  lemma PyIntUnderscore(x: string, y: string, b: Base)
    requires |x| > 0 && |y| > 0 && IsDigits(x, b) && IsDigits(y, b)
    ensures PyInt(x + "_" + y, b) == Some(ValueOf(x + y, b))
  {
    var t := x + "_" + y;
    assert t[0] == x[0] && IsDigit(x[0], b);
    assert t[|t| - 1] == y[|y| - 1] && IsDigit(y[|y| - 1], b);
    StripTrimmed(t);
    assert PyInt(t, b) == ParseUnsigned(t, b);
    GroupedPair(x, y, b);
    assert IsDigits(x + y, b);
  }

  /** The text is not grouped when position `i` holds an underscore with no digit after it. */
  lemma NotGroupedAt(t: string, i: nat, b: Base)
    requires i < |t| && t[i] == '_' && (i + 1 == |t| || t[i + 1] == '_')
    ensures !IsGrouped(t, b)
  {
    assert !GroupChar(t, i, b);
  }

  /** A minus sign inside the digits makes `int` raise. */
  lemma InnerMinusRaises(r: string, i: nat, b: Base)
    requires 2 <= |r| && 0 < i < |r| && r[i] == '-'
    requires IsDigit(r[0], b) && !IsPrefixLetter(r[1], b) && IsDigit(r[|r| - 1], b)
    ensures PyInt(r, b).None?
  {
    StripTrimmed(r);
    assert DropPrefix(r, b) == r;
    assert !GroupChar(r, i, b);
  }

  /** An underscore first, last or doubled makes `int` raise. */
  lemma PyIntStrayUnderscore(x: string, y: string, b: Base)
    requires |x| > 0 && |y| > 0 && IsDigits(x, b) && IsDigits(y, b)
    ensures PyInt("_" + x, b).None?
    ensures PyInt(x + "_", b).None?
    ensures PyInt(x + "__" + y, b).None?
  {
    assert IsDigit(x[0], b) && IsDigit(x[|x| - 1], b) && IsDigit(y[|y| - 1], b);
    var lead, trail, double := "_" + x, x + "_", x + "__" + y;
    StripTrimmed(lead);
    StripTrimmed(trail);
    StripTrimmed(double);
    if |x| >= 2 {
      assert IsDigit(x[1], b);
      assert trail[1] == x[1] && double[1] == x[1];
    } else {
      assert trail[1] == '_' && double[1] == '_';
    }
    assert DropPrefix(lead, b) == lead && DropPrefix(trail, b) == trail && DropPrefix(double, b) == double;
    NotGroupedAt(trail, |x|, b);
    NotGroupedAt(double, |x|, b);
  }

  /**
   * `format(n, f'0{w}b')`, `f"{n:0{w}X}"` on any integer: a negative
   * number is a minus sign and the magnitude, zero-padded so that both
   * together fill the width.
   */
  function FormatInt(n: int, b: Base, w: nat): string
  {
    if n < 0 then "-" + Format(-n, b, if w > 0 then w - 1 else 0) else Format(n, b, w)
  }

  /** `int(format(n, ...), b) == n` for every integer. */
  lemma FormatIntParses(n: int, b: Base, w: nat)
    ensures |FormatInt(n, b, w)| >= 1
    ensures PyInt(FormatInt(n, b, w), b) == Some(n)
  {
    if n < 0 {
      FormatNegativeParses(n, b, w);
    } else {
      FormatDigits(n, b, w);
    }
  }

  lemma FormatNegativeParses(n: int, b: Base, w: nat)
    requires n < 0
    ensures |FormatInt(n, b, w)| >= 1
    ensures PyInt(FormatInt(n, b, w), b) == Some(n)
  {
    var t := Format(-n, b, if w > 0 then w - 1 else 0);
    assert FormatInt(n, b, w) == "-" + t;
    FormatValue(-n, b, if w > 0 then w - 1 else 0);
    MinusDigits(t, b, -n);
  }

  /** A minus sign in front of plain digits negates their value. */
  lemma MinusDigits(t: string, b: Base, m: int)
    requires |t| > 0 && IsDigits(t, b) && ValueOf(t, b) == m
    ensures PyInt("-" + t, b) == Some(-m)
  {
    PyIntDigits(t, b);
    assert IsDigit(t[0], b) && IsDigit(t[|t| - 1], b);
    PyIntSigned(t, b, m);
  }

  /** The zero-padded text is at least one digit and parses back to its value. */
  lemma FormatDigits(n: nat, b: Base, w: nat)
    ensures |Format(n, b, w)| >= 1 && IsDigits(Format(n, b, w), b)
    ensures PyInt(Format(n, b, w), b) == Some(n)
  {
    FormatValue(n, b, w);
    PyIntDigits(Format(n, b, w), b);
  }

  /**
   * `bin16_to_hex4`: `int(s, 2)` printed as `04X`; `None` where `int`
   * raises.
   */
  function Bin16ToHex4(s: string): Option<string>
  {
    match PyInt(s, 2)
    case None => None
    case Some(v) => Some(FormatInt(v, 16, 4))
  }

  /** `hex4_to_bin16`: `int(s, 16)` printed as `016b`; `None` where `int` raises. */
  function Hex4ToBin16(s: string): Option<string>
  {
    match PyInt(s, 16)
    case None => None
    case Some(v) => Some(FormatInt(v, 2, 16))
  }

  /** Any 16-bit string becomes exactly four upper-case hex digits of the same value. */
  lemma Bin16ToHex4Spec(s: string)
    requires IsBits16(s)
    ensures Bin16ToHex4(s).Some?
    ensures |Bin16ToHex4(s).value| == 4 && IsUpperHex(Bin16ToHex4(s).value)
    ensures IsDigits(Bin16ToHex4(s).value, 16)
    ensures ValueOf(Bin16ToHex4(s).value, 16) == ValueOf(s, 2)
  {
    Bits16AreDigits(s);
    PyIntDigits(s, 2);
    ValueOfBound(s, 2);
    PowValues();
    FormatLength(ValueOf(s, 2), 16, 4);
    FormatValue(ValueOf(s, 2), 16, 4);
  }

  /** A hex string below 65536 becomes exactly sixteen zero-padded binary digits. */
  lemma Hex4ToBin16Spec(h: string)
    requires |h| > 0 && IsDigits(h, 16) && ValueOf(h, 16) < 65536
    ensures Hex4ToBin16(h).Some? && IsBits16(Hex4ToBin16(h).value)
    ensures IsDigits(Hex4ToBin16(h).value, 2)
    ensures ValueOf(Hex4ToBin16(h).value, 2) == ValueOf(h, 16)
  {
    var v := ValueOf(h, 16);
    PyIntDigits(h, 16);
    PowValues();
    FormatLength(v, 2, 16);
    FormatValue(v, 2, 16);
    BinaryDigitsAreBits(Format(v, 2, 16));
  }

  /** Round trip from bits: hex4_to_bin16(bin16_to_hex4(b)) == b. */
  lemma BinHexRoundTrip(s: string)
    requires IsBits16(s)
    ensures Bin16ToHex4(s).Some?
    ensures Hex4ToBin16(Bin16ToHex4(s).value) == Some(s)
  {
    Bin16ToHex4Spec(s);
    var h := Bin16ToHex4(s).value;
    PyIntDigits(h, 16);
    assert Hex4ToBin16(h) == Some(Format(ValueOf(s, 2), 2, 16));
    Bits16AreDigits(s);
    ValueOfBound(s, 2);
    PowValues();
    NumDigitsAtMost(ValueOf(s, 2), 2, 16);
    FixedDigitsOfValue(s, 2);
  }

  /** Round trip from hex: bin16_to_hex4(hex4_to_bin16(h)) is `h` upper-cased. */
  lemma HexBinRoundTrip(h: string)
    requires |h| == 4 && IsDigits(h, 16)
    ensures Hex4ToBin16(h).Some?
    ensures Bin16ToHex4(Hex4ToBin16(h).value) == Some(Upper(h))
  {
    ValueOfBound(h, 16);
    PowValues();
    Hex4ToBin16Spec(h);
    var bits := Hex4ToBin16(h).value;
    PyIntDigits(bits, 2);
    assert Bin16ToHex4(bits) == Some(Format(ValueOf(h, 16), 16, 4));
    NumDigitsAtMost(ValueOf(h, 16), 16, 4);
    FixedDigitsOfValue(h, 16);
  }

  /** `dec_to_bin_n`: `format(n, f'0{width}b')`. */
  function DecToBinN(n: int, width: nat): string
  {
    FormatInt(n, 2, width)
  }

  /** `dec_to_bin4`: `format(n, '04b')`. */
  function DecToBin4(n: int): string
  {
    FormatInt(n, 2, 4)
  }

  /**
   * The binary text of `n` parses back to `n`. A non-negative `n` gives
   * binary digits only, exactly `width` of them when `n` fits in `width`
   * bits and more otherwise; a negative `n` gives a minus sign first, and
   * sign and digits fill `width` when the magnitude fits in one bit less.
   * `dec_to_bin4` is the width-4 case.
   */
  lemma DecToBinNSpec(n: int, width: nat)
    ensures PyInt(DecToBinN(n, width), 2) == Some(n)
    ensures n >= 0 ==> IsDigits(DecToBinN(n, width), 2) && ValueOf(DecToBinN(n, width), 2) == n
    ensures 0 <= n && width >= 1 && n < Pow(2, width) ==> |DecToBinN(n, width)| == width
    ensures n >= 0 && n >= Pow(2, width) ==> |DecToBinN(n, width)| > width
    ensures n < 0 ==> DecToBinN(n, width)[0] == '-'
    ensures n < 0 && width >= 2 && -n < Pow(2, width - 1) ==> |DecToBinN(n, width)| == width
    ensures DecToBin4(n) == DecToBinN(n, 4)
  {
    FormatIntParses(n, 2, width);
    if n >= 0 {
      DecToBinNatural(n, width);
    } else {
      DecToBinNegative(n, width);
    }
  }

  lemma DecToBinNatural(n: nat, width: nat)
    ensures IsDigits(DecToBinN(n, width), 2) && ValueOf(DecToBinN(n, width), 2) == n
    ensures width >= 1 && n < Pow(2, width) ==> |DecToBinN(n, width)| == width
    ensures n >= Pow(2, width) ==> |DecToBinN(n, width)| > width
  {
    assert DecToBinN(n, width) == Format(n, 2, width);
    FormatValue(n, 2, width);
    if width >= 1 {
      FormatLength(n, 2, width);
    }
  }

  lemma DecToBinNegative(n: int, width: nat)
    requires n < 0
    ensures DecToBinN(n, width)[0] == '-'
    ensures width >= 2 && -n < Pow(2, width - 1) ==> |DecToBinN(n, width)| == width
  {
    assert DecToBinN(n, width) == "-" + Format(-n, 2, if width > 0 then width - 1 else 0);
    if width >= 2 {
      FormatLength(-n, 2, width - 1);
    }
  }

  /** Python's `str(n)` for an integer. */
  function IntToString(n: int): string
  {
    if n < 0 then "-" + Format(-n, 10, 1) else Format(n, 10, 1)
  }

  // ---------------------------------------------------------------------
  // util.py: check_ip
  // ---------------------------------------------------------------------

  predicate IsDec(c: char) { '0' <= c <= '9' }

  /**
   * One octet alternative of the `check_ip` regular expression:
   * `[0-9]|[1-9][0-9]|1[0-9]{2}|2[0-4][0-9]|25[0-5]`.
   */
  predicate OctetPattern(t: string)
  {
    || (|t| == 1 && IsDec(t[0]))
    || (|t| == 2 && '1' <= t[0] <= '9' && IsDec(t[1]))
    || (|t| == 3 && t[0] == '1' && IsDec(t[1]) && IsDec(t[2]))
    || (|t| == 3 && t[0] == '2' && '0' <= t[1] <= '4' && IsDec(t[2]))
    || (|t| == 3 && t[0] == '2' && t[1] == '5' && '0' <= t[2] <= '5')
  }

  /** Reference reading of an octet: decimal digits, no leading zero, at most 255. */
  predicate CanonicalOctet(t: string)
  {
    |t| >= 1 && IsDigits(t, 10) && (|t| == 1 || t[0] != '0') && ValueOf(t, 10) <= 255
  }

  lemma DecimalDigits(t: string)
    ensures IsDigits(t, 10) <==> forall i :: 0 <= i < |t| ==> IsDec(t[i])
  {
  }

  lemma ValueOfShort(t: string)
    requires IsDigits(t, 10) && 1 <= |t| <= 3
    ensures |t| == 1 ==> ValueOf(t, 10) == DigitValue(t[0])
    ensures |t| == 2 ==> ValueOf(t, 10) == 10 * DigitValue(t[0]) + DigitValue(t[1])
    ensures |t| == 3 ==> ValueOf(t, 10) == 100 * DigitValue(t[0]) + 10 * DigitValue(t[1]) + DigitValue(t[2])
  {
    assert t[..1][..0] == [] && t[..1] == [t[0]];
    if |t| >= 2 {
      assert t[..2][..1] == t[..1];
      assert ValueOf(t[..2], 10) == 10 * DigitValue(t[0]) + DigitValue(t[1]);
    }
    if |t| == 3 {
      assert t[..|t| - 1] == t[..2];
    }
  }

  /** The regular expression's octet alternatives are exactly the canonical octets. */
  lemma OctetPatternIsCanonical(t: string)
    ensures OctetPattern(t) <==> CanonicalOctet(t)
  {
    DecimalDigits(t);
    if |t| >= 1 && IsDigits(t, 10) {
      if |t| <= 3 {
        ValueOfShort(t);
      } else if t[0] != '0' {
        LeadingDigitBound(t, 10);
        PowMonotone(10, 3, |t| - 1);
        PowValues();
      }
    }
  }

  /** Python's `s.split(sep)`. */
  function Split(s: string, sep: char): (parts: seq<string>)
    ensures |parts| >= 1
    decreases |s|
  {
    if |s| == 0 then [""]
    else
      var rest := Split(s[1..], sep);
      if s[0] == sep then [""] + rest else [[s[0]] + rest[0]] + rest[1..]
  }

  /** `sep.join(parts)`. */
  function Join(parts: seq<string>, sep: char): string
    requires |parts| >= 1
  {
    if |parts| == 1 then parts[0] else parts[0] + [sep] + Join(parts[1..], sep)
  }

  lemma JoinCons(c: char, parts: seq<string>, sep: char)
    requires |parts| >= 1
    ensures Join([[c] + parts[0]] + parts[1..], sep) == [c] + Join(parts, sep)
  {
    var ps := [[c] + parts[0]] + parts[1..];
    assert ps[1..] == parts[1..];
  }

  /** Splitting undoes joining parts that do not contain the separator. */
  lemma {:induction false} SplitJoin(parts: seq<string>, sep: char)
    requires |parts| >= 1
    requires forall i :: 0 <= i < |parts| ==> sep !in parts[i]
    ensures Split(Join(parts, sep), sep) == parts
    decreases |Join(parts, sep)|, |parts[0]|
  {
    var s := Join(parts, sep);
    if parts[0] == [] {
      if |parts| > 1 {
        assert s == [sep] + Join(parts[1..], sep);
        assert s[1..] == Join(parts[1..], sep);
        SplitJoin(parts[1..], sep);
        assert parts == [""] + parts[1..];
      }
    } else {
      var c := parts[0][0];
      var tail := [parts[0][1..]] + parts[1..];
      assert tail[1..] == parts[1..];
      assert parts[0] == [c] + tail[0];
      JoinCons(c, tail, sep);
      assert [[c] + tail[0]] + tail[1..] == parts;
      assert s[1..] == Join(tail, sep);
      SplitJoin(tail, sep);
    }
  }

  /** Joining the parts of a split gives the string back, and no part holds the separator. */
  lemma {:induction false} JoinSplit(s: string, sep: char)
    ensures Join(Split(s, sep), sep) == s
    ensures forall i :: 0 <= i < |Split(s, sep)| ==> sep !in Split(s, sep)[i]
    decreases |s|
  {
    if |s| > 0 {
      JoinSplit(s[1..], sep);
      var rest := Split(s[1..], sep);
      if s[0] != sep {
        JoinCons(s[0], rest, sep);
      }
    }
  }

  lemma {:induction false} NoNewlineInJoin(parts: seq<string>, sep: char)
    requires |parts| >= 1 && sep != '\n'
    requires forall i :: 0 <= i < |parts| ==> '\n' !in parts[i]
    ensures '\n' !in Join(parts, sep)
  {
    if |parts| > 1 { NoNewlineInJoin(parts[1..], sep); }
  }

  /**
   * The text the pattern's `$` has to reach: Python's `$` also matches just
   * before a newline that ends the string.
   */
  function IpBody(s: string): string
  {
    if |s| > 0 && s[|s| - 1] == '\n' then s[..|s| - 1] else s
  }

  /**
   * `check_ip`: `re.match` of `^((octet)\.){3}(octet)$`. Octets contain no
   * dot, so the match is the split of the text at its dots.
   */
  predicate CheckIp(s: string)
  {
    var parts := Split(IpBody(s), '.');
    |parts| == 4 && forall i :: 0 <= i < 4 ==> OctetPattern(parts[i])
  }

  /** The dotted quad of four numbers, each printed with `str`. */
  function DottedQuad(q: seq<nat>): string
    requires |q| == 4
  {
    Join([Format(q[0], 10, 1), Format(q[1], 10, 1), Format(q[2], 10, 1), Format(q[3], 10, 1)], '.')
  }

  predicate OctetValues(q: seq<nat>)
  {
    |q| == 4 && forall i :: 0 <= i < 4 ==> q[i] <= 255
  }

  lemma DecimalIsCanonical(n: nat)
    requires n <= 255
    ensures CanonicalOctet(Format(n, 10, 1))
    ensures '.' !in Format(n, 10, 1) && '\n' !in Format(n, 10, 1)
  {
    var t := Format(n, 10, 1);
    FormatValue(n, 10, 1);
    if |t| > 1 {
      ZeroLeadNotNeeded(n, 10);
    }
  }

  /** Every string `check_ip` accepts is a dotted quad of octets, maybe followed by a newline. */
  lemma CheckIpSound(s: string) returns (q: seq<nat>)
    requires CheckIp(s)
    ensures OctetValues(q) && (s == DottedQuad(q) || s == DottedQuad(q) + "\n")
  {
    var body := IpBody(s);
    var parts := Split(body, '.');
    q := [];
    for i := 0 to 4
      invariant |q| == i
      invariant forall j :: 0 <= j < i ==> q[j] <= 255 && Format(q[j], 10, 1) == parts[j]
    {
      var t := parts[i];
      OctetPatternIsCanonical(t);
      FormatOfValue(t, 10, 1);
      assert Upper(t) == t;
      q := q + [ValueOf(t, 10)];
    }
    JoinSplit(body, '.');
    assert parts == [parts[0], parts[1], parts[2], parts[3]];
  }

  /** `check_ip` accepts every dotted quad of octets, with or without one trailing newline. */
  lemma CheckIpComplete(q: seq<nat>)
    requires OctetValues(q)
    ensures CheckIp(DottedQuad(q)) && CheckIp(DottedQuad(q) + "\n")
  {
    var parts := [Format(q[0], 10, 1), Format(q[1], 10, 1), Format(q[2], 10, 1), Format(q[3], 10, 1)];
    forall i | 0 <= i < 4 ensures CanonicalOctet(parts[i]) && OctetPattern(parts[i])
      && '.' !in parts[i] && '\n' !in parts[i]
    {
      DecimalIsCanonical(q[i]);
      OctetPatternIsCanonical(parts[i]);
    }
    var d := DottedQuad(q);
    SplitJoin(parts, '.');
    NoNewlineInJoin(parts, '.');
    assert (d + "\n")[..|d|] == d;
    assert IpBody(d + "\n") == d;
    assert |d| > 0 ==> d[|d| - 1] in d;
  }

  /**
   * `check_ip` accepts a string exactly when it is four dot-separated octets
   * 0..255 without leading zeros, optionally followed by one newline.
   */
  lemma CheckIpIsDottedQuad(s: string)
    ensures CheckIp(s) <==>
      exists q: seq<nat> :: OctetValues(q) && (s == DottedQuad(q) || s == DottedQuad(q) + "\n")
  {
    if CheckIp(s) {
      var q := CheckIpSound(s);
    }
    if exists q: seq<nat> :: OctetValues(q) && (s == DottedQuad(q) || s == DottedQuad(q) + "\n") {
      var q: seq<nat> :| OctetValues(q) && (s == DottedQuad(q) || s == DottedQuad(q) + "\n");
      CheckIpComplete(q);
    }
  }

  // ---------------------------------------------------------------------
  // util.py: change_freq_unit
  // ---------------------------------------------------------------------

  datatype UnitError = UnknownUnit(unit: string)

  /** The units the frequency entry offers, smallest first; each is 1000 times the one before. */
  const Units: seq<string> := ["Hz", "kHz", "MHz", "GHz"]

  /**
   * `change_freq_unit` over whole numbers: the frequency in Hz of `freq`
   * given in `unit`; any other unit raises `ValueError`.
   */
  function ChangeFreqUnit(freq: int, unit: string): (r: Result<int, UnitError>)
    ensures r.Err? <==> unit !in Units
    ensures r.Err? ==> r.error == UnknownUnit(unit)
    ensures forall i :: 0 <= i < |Units| && unit == Units[i] ==> r == Ok(freq * Pow(1000, i))
  {
    if unit == "Hz" then Ok(freq)
    else if unit == "kHz" then Ok(freq * 1000)
    else if unit == "MHz" then assert Pow(1000, 2) == 1000000; Ok(freq * 1000000)
    else if unit == "GHz" then assert Pow(1000, 3) == 1000000000; Ok(freq * 1000000000)
    else Err(UnknownUnit(unit))
  }

  /** A value in one unit equals 1000 times that value in the next smaller unit. */
  lemma ChangeFreqUnitStep(freq: int, i: nat)
    requires i + 1 < |Units|
    ensures ChangeFreqUnit(freq, Units[i + 1]) == ChangeFreqUnit(freq * 1000, Units[i])
  {
    assert Pow(1000, i + 1) == 1000 * Pow(1000, i);
  }
}

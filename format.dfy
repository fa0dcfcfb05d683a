/**
 * The parts of std::format that the result table uses: a field of a given
 * width filled and centred (`{:F^W}`) or left aligned (`{:<W}`), the decimal
 * text of integers (`{}`) and the fixed-point text of a finite floating-point
 * value (`{:.Nf}`).
 */
module Format {

  function Max(a: nat, b: nat): nat {
    if a < b then b else a
  }

  /** `n` copies of `c`. */
  function Repeat(c: char, n: nat): (r: string)
    ensures |r| == n
    ensures forall i :: 0 <= i < n ==> r[i] == c
  {
    if n == 0 then [] else Repeat(c, n - 1) + [c]
  }

  /**
   * `{:F^W}`: `s` in a field of width `W` filled with `F`. Of the
   * p = max(W - |s|, 0) fill characters, p/2 go before `s` and p - p/2 after
   * (one fill character on each side at a time, the odd one after); a text
   * longer than the field is not cut.
   */
  function Centered(s: string, width: nat, fill: char): (r: string)
    ensures |r| == Max(width, |s|)
    decreases width
  {
    if width <= |s| then s
    else if width == |s| + 1 then s + [fill]
    else [fill] + Centered(s, width - 2, fill) + [fill]
  }

  /** The fill is split p/2 before and p - p/2 after the text. */
  lemma {:induction false} CenteredSplit(s: string, width: nat, fill: char)
    ensures var p := if width > |s| then width - |s| else 0;
      Centered(s, width, fill) == Repeat(fill, p / 2) + s + Repeat(fill, p - p / 2)
    decreases width
  {
    var p := if width > |s| then width - |s| else 0;
    if width <= |s| {
      assert p / 2 == 0 && p - p / 2 == 0;
      assert Repeat(fill, 0) + s + Repeat(fill, 0) == s;
    } else if width == |s| + 1 {
      assert p / 2 == 0 && p - p / 2 == 1;
      assert Repeat(fill, 0) + s + Repeat(fill, 1) == s + [fill];
    } else {
      CenteredSplit(s, width - 2, fill);
      var a, b := (p - 2) / 2, (p - 2) - (p - 2) / 2;
      HalvesStep(p, a, b);
      WrapFill(fill, a, b, s, Centered(s, width - 2, fill));
    }
  }

  /** One fill character more before and after a centred text. */
  lemma WrapFill(fill: char, a: nat, b: nat, s: string, inner: string)
    requires inner == Repeat(fill, a) + s + Repeat(fill, b)
    ensures [fill] + inner + [fill] == Repeat(fill, a + 1) + s + Repeat(fill, b + 1)
  {
    RepeatFront(fill, a);
    calc {
      [fill] + inner + [fill];
      ([fill] + Repeat(fill, a)) + s + (Repeat(fill, b) + [fill]);
      Repeat(fill, a + 1) + s + Repeat(fill, b + 1);
    }
  }

  /** Two more fill characters put one more on each side. */
  lemma HalvesStep(p: nat, a: nat, b: nat)
    requires p >= 2 && a == (p - 2) / 2 && b == (p - 2) - (p - 2) / 2
    ensures p / 2 == a + 1 && p - p / 2 == b + 1
  {
  }

  /** A run of one character can be grown at its front as well as at its back. */
  lemma {:induction false} RepeatFront(c: char, n: nat)
    ensures Repeat(c, n + 1) == [c] + Repeat(c, n)
  {
    if n > 0 {
      RepeatFront(c, n - 1);
    }
  }

  /**
   * Where the text sits in its field: after (|r| - |s|) / 2 fill characters,
   * the rest of the field filled after it.
   */
  lemma CenteredLayout(s: string, width: nat, fill: char)
    ensures var r := Centered(s, width, fill);
      var before := (|r| - |s|) / 2;
      r[before .. before + |s|] == s
      && (forall i :: 0 <= i < before ==> r[i] == fill)
      && (forall i :: before + |s| <= i < |r| ==> r[i] == fill)
  {
    var p := if width > |s| then width - |s| else 0;
    var r := Centered(s, width, fill);
    CenteredSplit(s, width, fill);
    assert r == Repeat(fill, p / 2) + s + Repeat(fill, p - p / 2);
  }

  /** `{:<W}`: `s` followed by spaces up to width `W`. */
  function LeftAligned(s: string, width: nat): (r: string)
    ensures |r| == Max(width, |s|)
  {
    s + Repeat(' ', if width > |s| then width - |s| else 0)
  }

  /** The text comes first, spaces fill the rest of the field. */
  lemma LeftAlignedLayout(s: string, width: nat)
    ensures var r := LeftAligned(s, width);
      r[..|s|] == s && forall i :: |s| <= i < |r| ==> r[i] == ' '
  {
  }

  predicate IsDigit(c: char) {
    '0' <= c <= '9'
  }

  predicate AllDigits(s: string) {
    forall i :: 0 <= i < |s| ==> IsDigit(s[i])
  }

  function DigitValue(c: char): nat
    requires IsDigit(c)
  {
    c as int - '0' as int
  }

  function DigitChar(d: nat): (c: char)
    requires d < 10
    ensures IsDigit(c) && DigitValue(c) == d
  {
    ('0' as int + d) as char
  }

  /** The number a string of decimal digits denotes. */
  function DigitsValue(s: string): nat
    requires AllDigits(s)
  {
    if s == [] then 0 else DigitsValue(s[..|s| - 1]) * 10 + DigitValue(s[|s| - 1])
  }

  function Pow10(d: nat): (r: nat)
    ensures r >= 1
  {
    if d == 0 then 1 else 10 * Pow10(d - 1)
  }

  /** `{}` of an unsigned integer: its decimal digits, without leading zeros. */
  function NatText(n: nat): (r: string)
    ensures |r| >= 1 && AllDigits(r)
    ensures r[0] == '0' <==> n == 0
  {
    if n < 10 then [DigitChar(n)] else NatText(n / 10) + [DigitChar(n % 10)]
  }

  /** `{}` of a signed integer. */
  function IntText(n: int): (r: string)
    ensures |r| >= 1
    ensures r[0] == '-' <==> n < 0
  {
    if n < 0 then "-" + NatText(-n) else NatText(n)
  }

  /** Reading back the text of a number gives the number. */
  lemma {:induction false} NatTextRoundTrip(n: nat)
    ensures DigitsValue(NatText(n)) == n
  {
    if n >= 10 {
      var r := NatText(n);
      assert r[..|r| - 1] == NatText(n / 10);
      NatTextRoundTrip(n / 10);
    }
  }

  /**
   * floor(log10(n)) + 1 for n >= 1, that is, the number of decimal digits
   * of `n`, characterised by 10^(d-1) <= n < 10^d.
   */
  function DigitCount(n: nat): (d: nat)
    requires n >= 1
    ensures d >= 1 && Pow10(d - 1) <= n < Pow10(d)
  {
    if n < 10 then 1 else 1 + DigitCount(n / 10)
  }

  /** The digit count is the length of the decimal text. */
  lemma {:induction false} NatTextLength(n: nat)
    requires n >= 1
    ensures |NatText(n)| == DigitCount(n)
  {
    if n >= 10 {
      NatTextLength(n / 10);
    }
  }

  /** A number below 10^d has at most d digits. */
  lemma {:induction false} NatTextShort(n: nat, d: nat)
    requires n < Pow10(d)
    ensures |NatText(n)| <= Max(d, 1)
  {
    if n >= 10 {
      NatTextShort(n / 10, d - 1);
    }
  }

  /**
   * The integer nearest to `y` >= 0, ties to the even neighbour, as
   * IEEE-754 formatting rounds the exact value it prints.
   */
  function RoundHalfEven(y: real): (m: nat)
    requires y >= 0.0
    ensures -0.5 <= m as real - y <= 0.5
    ensures (m as real - y == 0.5 || y - m as real == 0.5) ==> m % 2 == 0
  {
    var n := y.Floor;
    var frac := y - n as real;
    if frac < 0.5 then n
    else if frac > 0.5 then n + 1
    else if n % 2 == 0 then n
    else n + 1
  }

  /** `s` padded with leading zeros up to width `d`. */
  function ZeroPadded(s: string, d: nat): (r: string)
    ensures |r| == Max(d, |s|)
  {
    Repeat('0', if d > |s| then d - |s| else 0) + s
  }

  /** Leading zeros do not change the number a digit string denotes. */
  lemma {:induction false} LeadingZeros(s: string, k: nat)
    requires AllDigits(s)
    ensures AllDigits(Repeat('0', k) + s)
    ensures DigitsValue(Repeat('0', k) + s) == DigitsValue(s)
  {
    var t := Repeat('0', k) + s;
    if s == [] {
      assert t == Repeat('0', k);
      if k > 0 {
        assert t[..|t| - 1] == Repeat('0', k - 1) + [];
        LeadingZeros([], k - 1);
      }
    } else {
      assert t[..|t| - 1] == Repeat('0', k) + s[..|s| - 1];
      LeadingZeros(s[..|s| - 1], k);
    }
  }

  function Abs(x: real): real {
    if x < 0.0 then -x else x
  }

  /** |x| * 10^digits, the magnitude in units of the last printed decimal. */
  function Scaled(x: real, digits: nat): (y: real)
    ensures y >= 0.0
  {
    var a := Abs(x);
    var p := Pow10(digits) as real;
    assert a * p >= 0.0 by {
      assert a >= 0.0 && p >= 1.0;
    }
    a * p
  }

  /**
   * The decimal text of m, padded with leading zeros to at least
   * digits + 1 characters: the digits of m / 10^digits without the point.
   */
  function PaddedDigits(m: nat, digits: nat): (s: string)
    ensures |s| >= digits + 1
  {
    ZeroPadded(NatText(m), digits + 1)
  }

  /** The digits before the point of m / 10^digits. */
  function WholeDigits(m: nat, digits: nat): string {
    var s := PaddedDigits(m, digits);
    s[..|s| - digits]
  }

  /** The `digits` digits after the point of m / 10^digits. */
  function FractionDigits(m: nat, digits: nat): string {
    var s := PaddedDigits(m, digits);
    s[|s| - digits..]
  }

  /** The digits of m / 10^digits with `digits` decimals. */
  function DecimalDigits(m: nat, digits: nat): string {
    WholeDigits(m, digits) + "." + FractionDigits(m, digits)
  }

  /**
   * `{:.Nf}` of a finite value `x`: a '-' when `x` is negative, then |x|
   * rounded to N decimals (ties to even).
   */
  function FixedText(x: real, digits: nat): string
  {
    (if x < 0.0 then "-" else "") + DecimalDigits(RoundHalfEven(Scaled(x, digits)), digits)
  }

  lemma ShiftDigit(x: int, p: int, y: int, d: int)
    ensures (x * p + y) * 10 + d == x * (p * 10) + (y * 10 + d)
  {
  }

  /** Appending digits shifts the value of the prefix by the digits' count. */
  lemma {:induction false} DigitsValueAppend(a: string, b: string)
    requires AllDigits(a) && AllDigits(b)
    ensures AllDigits(a + b)
    ensures DigitsValue(a + b) == DigitsValue(a) * Pow10(|b|) + DigitsValue(b)
  {
    if b == [] {
      assert a + b == a;
    } else {
      var b' := b[..|b| - 1];
      assert (a + b)[..|a + b| - 1] == a + b';
      DigitsValueAppend(a, b');
      var x, p, y, d := DigitsValue(a), Pow10(|b'|), DigitsValue(b'), DigitValue(b[|b| - 1]);
      assert DigitsValue(a + b) == DigitsValue(a + b') * 10 + d;
      assert DigitsValue(b) == y * 10 + d;
      assert Pow10(|b|) == p * 10;
      ShiftDigit(x, p, y, d);
    }
  }

  /** Padding the text of a number with zeros keeps it a text of the number. */
  lemma PaddedValue(m: nat, w: nat)
    ensures AllDigits(ZeroPadded(NatText(m), w))
    ensures DigitsValue(ZeroPadded(NatText(m), w)) == m
  {
    var n := NatText(m);
    LeadingZeros(n, if w > |n| then w - |n| else 0);
    NatTextRoundTrip(m);
  }

  /**
   * What the decimal text says: at least one digit before the point and
   * exactly `digits` after it, which read together as integer and fraction
   * denote m / 10^digits.
   */
  lemma DecimalDigitsValue(m: nat, digits: nat)
    ensures |WholeDigits(m, digits)| >= 1 && |FractionDigits(m, digits)| == digits
    ensures AllDigits(WholeDigits(m, digits)) && AllDigits(FractionDigits(m, digits))
    ensures DigitsValue(WholeDigits(m, digits)) * Pow10(digits)
      + DigitsValue(FractionDigits(m, digits)) == m
  {
    var s := PaddedDigits(m, digits);
    PaddedValue(m, digits + 1);
    var whole, frac := WholeDigits(m, digits), FractionDigits(m, digits);
    DigitsSplit(s, |s| - digits);
    DigitsValueAppend(whole, frac);
  }

  /** Cutting a digit string in two gives two digit strings that make it up again. */
  lemma DigitsSplit(s: string, k: nat)
    requires AllDigits(s) && k <= |s|
    ensures AllDigits(s[..k]) && AllDigits(s[k..]) && s[..k] + s[k..] == s
  {
  }
}

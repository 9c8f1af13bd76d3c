/** Positional numerals: fixed-width and zero-padded digit strings, their values and their dictionary order. */
module Digits {

  const DIGITS: string := "0123456789abcdef"

  function Digit(d: nat): char
    requires d < 16
  {
    DIGITS[d]
  }

  /** The value of a digit, in either case; 16 for a character that is no digit. */
  function DigitValue(c: char): nat {
    if '0' <= c <= '9' then c as int - '0' as int
    else if 'a' <= c <= 'f' then c as int - 'a' as int + 10
    else if 'A' <= c <= 'F' then c as int - 'A' as int + 10
    else 16
  }

  lemma DigitRoundTrip(d: nat)
    requires d < 16
    ensures DigitValue(Digit(d)) == d
    ensures d < 10 ==> '0' <= Digit(d) <= '9'
    ensures Digit(d) != '\n' && Digit(d) != '{' && Digit(d) != '.' && Digit(d) != '/'
    ensures !('A' <= Digit(d) <= 'F')
  {
  }

  // ---------------------------------------------------------------- the two radices in use

  datatype Radix = Ten | Sixteen
  {
    function Size(): nat {
      match this case Ten => 10 case Sixteen => 16
    }

    function Quotient(n: nat): nat {
      match this case Ten => n / 10 case Sixteen => n / 16
    }

    function Remainder(n: nat): (d: nat)
      ensures d < Size()
    {
      match this case Ten => n % 10 case Sixteen => n % 16
    }

    /** The number whose digits are those of `q` followed by `d`. */
    function Join(q: nat, d: nat): nat {
      match this case Ten => q * 10 + d case Sixteen => q * 16 + d
    }

    lemma JoinParts(n: nat)
      ensures Join(Quotient(n), Remainder(n)) == n
    {
    }

    lemma PartsOfJoin(q: nat, d: nat)
      requires d < Size()
      ensures Quotient(Join(q, d)) == q && Remainder(Join(q, d)) == d
    {
    }
  }

  // ---------------------------------------------------------------- numerals

  predicate Numeric(s: string, base: Radix) {
    forall i :: 0 <= i < |s| ==> DigitValue(s[i]) < base.Size()
  }

  /** The number that `s` spells in `base`, most significant digit first. */
  function Numeral(s: string, base: Radix): nat {
    if s == [] then 0 else base.Join(Numeral(s[..|s| - 1], base), DigitValue(s[|s| - 1]))
  }

  /** The last `width` digits of `n` in `base`. */
  function Fixed(n: nat, base: Radix, width: nat): (s: string)
    ensures |s| == width
  {
    if width == 0 then [] else Fixed(base.Quotient(n), base, width - 1) + [Digit(base.Remainder(n))]
  }

  /** `n` has at most `width` digits in `base`. */
  predicate Fits(n: nat, base: Radix, width: nat) {
    if width == 0 then n == 0 else Fits(base.Quotient(n), base, width - 1)
  }

  lemma {:induction false} FitsMonotone(n: nat, base: Radix, i: nat, j: nat)
    requires i <= j && Fits(n, base, i)
    ensures Fits(n, base, j)
  {
    if i == 0 && j > 0 {
      FitsMonotone(0, base, 0, j - 1);
    } else if i > 0 {
      FitsMonotone(base.Quotient(n), base, i - 1, j - 1);
    }
  }

  /** No upper-case letter: the spelling that the encoders produce. */
  predicate LowerCase(s: string) {
    forall i :: 0 <= i < |s| ==> !('A' <= s[i] <= 'F')
  }

  lemma NumeralSnoc(init: string, c: char, base: Radix)
    ensures Numeral(init + [c], base) == base.Join(Numeral(init, base), DigitValue(c))
  {
  }

  lemma {:induction false} FixedIsNumeric(n: nat, base: Radix, width: nat)
    ensures Numeric(Fixed(n, base, width), base) && LowerCase(Fixed(n, base, width))
  {
    if width > 0 {
      FixedIsNumeric(base.Quotient(n), base, width - 1);
      DigitRoundTrip(base.Remainder(n));
    }
  }

  lemma {:induction false} FixedRoundTrip(n: nat, base: Radix, width: nat)
    requires Fits(n, base, width)
    ensures Numeral(Fixed(n, base, width), base) == n
  {
    if width > 0 {
      FixedRoundTrip(base.Quotient(n), base, width - 1);
      FixedStep(n, base, width);
      base.JoinParts(n);
    }
  }

  lemma FixedStep(n: nat, base: Radix, width: nat)
    requires width > 0
    ensures Numeral(Fixed(n, base, width), base)
         == base.Join(Numeral(Fixed(base.Quotient(n), base, width - 1), base), base.Remainder(n))
  {
    var init, c := Fixed(base.Quotient(n), base, width - 1), Digit(base.Remainder(n));
    DigitRoundTrip(base.Remainder(n));
    NumeralSnoc(init, c, base);
    assert Fixed(n, base, width) == init + [c];
  }

  lemma DigitIsLowerCase(c: char)
    requires DigitValue(c) < 16
    ensures Digit(DigitValue(c)) == c <==> !('A' <= c <= 'F')
  {
  }

  lemma {:induction false} NumeralFits(s: string, base: Radix)
    requires Numeric(s, base)
    ensures Fits(Numeral(s, base), base, |s|)
  {
    if s != [] {
      var init, d := s[..|s| - 1], DigitValue(s[|s| - 1]);
      NumeralFits(init, base);
      base.PartsOfJoin(Numeral(init, base), d);
    }
  }

  lemma FixedSnoc(v: nat, d: nat, base: Radix, width: nat)
    requires d < base.Size()
    ensures Fixed(base.Join(v, d), base, width + 1) == Fixed(v, base, width) + [Digit(d)]
  {
    base.PartsOfJoin(v, d);
  }

  lemma SnocEqual(a: string, c: char, b: string, d: char)
    requires |a| == |b|
    ensures a + [c] == b + [d] <==> a == b && c == d
    ensures LowerCase(a + [c]) <==> LowerCase(a) && !('A' <= c <= 'F')
  {
    var s, t := a + [c], b + [d];
    assert a == s[..|a|] && b == t[..|b|] && c == s[|a|] && d == t[|b|];
    if LowerCase(s) {
      assert forall i :: 0 <= i < |a| ==> a[i] == s[i];
    }
  }

  /** A numeral is the fixed-width spelling of its value exactly when its letters are in lower case. */
  lemma {:induction false} NumeralRoundTrip(s: string, base: Radix)
    requires Numeric(s, base)
    ensures Fixed(Numeral(s, base), base, |s|) == s <==> LowerCase(s)
  {
    if s != [] {
      var init, last := s[..|s| - 1], s[|s| - 1];
      var v := Numeral(init, base);
      NumeralRoundTrip(init, base);
      assert s == init + [last];
      assert Fixed(Numeral(s, base), base, |s|) == Fixed(v, base, |init|) + [Digit(DigitValue(last))] by {
        FixedSnoc(v, DigitValue(last), base, |init|);
      }
      DigitIsLowerCase(last);
      SnocEqual(init, last, Fixed(v, base, |init|), Digit(DigitValue(last)));
    }
  }

  // ---------------------------------------------------------------- decimal numbers

  function Decimal(n: nat): (s: string)
    ensures |s| > 0
  {
    if n < 10 then [Digit(n)] else Decimal(n / 10) + [Digit(n % 10)]
  }

  function Zeros(k: nat): (s: string)
    ensures |s| == k
  {
    if k == 0 then [] else Zeros(k - 1) + ['0']
  }

  /** `n` in decimal, zero-padded on the left to at least `width` characters. */
  function Padded(n: nat, width: nat): string {
    var s := Decimal(n);
    if |s| < width then Zeros(width - |s|) + s else s
  }

  lemma {:induction false} DecimalIsFixed(n: nat)
    ensures Decimal(n) == Fixed(n, Ten, |Decimal(n)|)
    ensures Fits(n, Ten, |Decimal(n)|)
    ensures |Decimal(n)| > 1 ==> !Fits(n, Ten, |Decimal(n)| - 1)
  {
    if n >= 10 {
      DecimalIsFixed(n / 10);
    } else {
      assert Fixed(n, Ten, 1) == Fixed(n / 10, Ten, 0) + [Digit(n % 10)];
      assert Fits(n / 10, Ten, 0);
    }
  }

  lemma {:induction false} ZerosFixed(n: nat, width: nat, k: nat)
    requires Fits(n, Ten, width)
    ensures Zeros(k) + Fixed(n, Ten, width) == Fixed(n, Ten, width + k)
  {
    if width == 0 {
      if k > 0 {
        ZerosFixed(n, 0, k - 1);
        assert Digit(0) == '0';
        assert Zeros(k) + Fixed(n, Ten, 0) == Zeros(k - 1) + Fixed(n, Ten, 0) + ['0'];
      }
    } else {
      ZerosFixed(n / 10, width - 1, k);
      assert Zeros(k) + Fixed(n, Ten, width) == (Zeros(k) + Fixed(n / 10, Ten, width - 1)) + [Digit(n % 10)];
    }
  }

  lemma PaddedIsFixed(n: nat, width: nat)
    ensures |Padded(n, width)| >= width && |Padded(n, width)| > 0
    ensures Padded(n, width) == Fixed(n, Ten, |Padded(n, width)|)
    ensures Fits(n, Ten, |Padded(n, width)|)
    ensures width > 0 ==> (|Padded(n, width)| == width <==> Fits(n, Ten, width))
  {
    var d := Decimal(n);
    DecimalIsFixed(n);
    if |d| < width {
      ZerosFixed(n, |d|, width - |d|);
      FitsMonotone(n, Ten, |d|, width);
    } else if |d| > width > 0 && Fits(n, Ten, width) {
      FitsMonotone(n, Ten, width, |d| - 1);
    }
  }

  /** Padding keeps the value; the width is exceeded only by numbers that need more digits. */
  lemma PaddedSpells(n: nat, width: nat)
    ensures Numeric(Padded(n, width), Ten)
    ensures Numeral(Padded(n, width), Ten) == n
  {
    PaddedIsFixed(n, width);
    FixedIsNumeric(n, Ten, |Padded(n, width)|);
    FixedRoundTrip(n, Ten, |Padded(n, width)|);
  }

  // ---------------------------------------------------------------- dictionary order

  predicate LexLess(s: string, t: string) {
    t != [] && (s == [] || s[0] < t[0] || (s[0] == t[0] && LexLess(s[1..], t[1..])))
  }

  lemma {:induction false} LexLessConcat(a: string, b: string, s: string, t: string)
    requires |a| == |b|
    ensures LexLess(a + s, b + t) <==> LexLess(a, b) || (a == b && LexLess(s, t))
  {
    if a == [] {
      assert a + s == s && b + t == t;
    } else {
      assert (a + s)[1..] == a[1..] + s && (b + t)[1..] == b[1..] + t;
      LexLessConcat(a[1..], b[1..], s, t);
      assert a == [a[0]] + a[1..] && b == [b[0]] + b[1..];
    }
  }

  /** Decimal strings of one length are in dictionary order exactly when their values are in numeric order. */
  lemma {:induction false} FixedOrder(m: nat, n: nat, width: nat)
    requires Fits(m, Ten, width) && Fits(n, Ten, width)
    ensures LexLess(Fixed(m, Ten, width), Fixed(n, Ten, width)) <==> m < n
    ensures Fixed(m, Ten, width) == Fixed(n, Ten, width) <==> m == n
  {
    FixedRoundTrip(m, Ten, width);
    FixedRoundTrip(n, Ten, width);
    if width > 0 {
      FixedOrder(m / 10, n / 10, width - 1);
      DigitOrder(m % 10, n % 10);
      LexLessConcat(Fixed(m / 10, Ten, width - 1), Fixed(n / 10, Ten, width - 1), [Digit(m % 10)], [Digit(n % 10)]);
    }
  }

  lemma DigitOrder(c: nat, d: nat)
    requires c < 10 && d < 10
    ensures LexLess([Digit(c)], [Digit(d)]) <==> c < d
  {
  }
}

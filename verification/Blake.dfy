/**
  Content hashes and the blobs they name. The 32 bytes of a hash are read as one big-endian number, so its
  hexadecimal form is the number's 64 digits. The hash function itself stays a parameter wherever it is needed.
 */
module Blake {
  import opened Wrappers
  import opened Digits

  const HASH_COUNT: nat := 0x1_0000000000000000_0000000000000000_0000000000000000_0000000000000000

  type Hash = n: nat | n < HASH_COUNT

  type Blob = seq<bv8>

  /** `blake` sends `data` to `h`: the check that every byte string passes before it is believed. */
  predicate Verifies(blake: Blob -> Hash, h: Hash, data: Blob) {
    blake(data) == h
  }

  function ToHex(h: Hash): (s: string)
    ensures |s| == 64
  {
    Fixed(h, Sixteen, 64)
  }

  /** Decoding accepts either letter case and exactly 64 digits. */
  function FromHex(s: string): Option<Hash> {
    if |s| == 64 && Numeric(s, Sixteen) then
      NumeralIsHash(s);
      Some(Numeral(s, Sixteen))
    else None
  }

  function SixteenTo(width: nat): nat {
    if width == 0 then 1 else 16 * SixteenTo(width - 1)
  }

  lemma {:induction false} FitsBelowPower(n: nat, width: nat)
    ensures Fits(n, Sixteen, width) <==> n < SixteenTo(width)
  {
    if width > 0 {
      FitsBelowPower(n / 16, width - 1);
    }
  }

  lemma SixteenMore(width: nat)
    ensures SixteenTo(width + 16) == 0x1_0000_0000_0000_0000 * SixteenTo(width)
  {
    FourMore(width);
    FourMore(width + 4);
    FourMore(width + 8);
    FourMore(width + 12);
  }

  lemma FourMore(width: nat)
    ensures SixteenTo(width + 4) == 0x1_0000 * SixteenTo(width)
  {
    assert SixteenTo(width + 4) == 16 * SixteenTo(width + 3);
    assert SixteenTo(width + 2) == 16 * SixteenTo(width + 1);
  }

  lemma HashCountIsPower()
    ensures SixteenTo(64) == HASH_COUNT
  {
    SixteenMore(0);
    SixteenMore(16);
    SixteenMore(32);
    SixteenMore(48);
  }

  lemma HashHas64Digits(n: nat)
    ensures Fits(n, Sixteen, 64) <==> n < HASH_COUNT
  {
    hide *;
    FitsBelowPower(n, 64);
    HashCountIsPower();
  }

  lemma NumeralIsHash(s: string)
    requires |s| == 64 && Numeric(s, Sixteen)
    ensures Numeral(s, Sixteen) < HASH_COUNT
  {
    NumeralFits(s, Sixteen);
    HashHas64Digits(Numeral(s, Sixteen));
  }

  /** Every hash is read back from its own spelling, so different hashes are spelled differently. */
  lemma HexRoundTrip(h: Hash)
    ensures FromHex(ToHex(h)) == Some(h)
    ensures LowerCase(ToHex(h))
  {
    HashHas64Digits(h);
    FixedIsNumeric(h, Sixteen, 64);
    FixedRoundTrip(h, Sixteen, 64);
  }

  /** A readable name is the spelling that `ToHex` would choose exactly when it has no upper-case letter. */
  lemma HexSpelling(s: string)
    requires FromHex(s).Some?
    ensures ToHex(FromHex(s).value) == s <==> LowerCase(s)
  {
    NumeralRoundTrip(s, Sixteen);
  }

  /** Exactly the strings of 64 hexadecimal digits, in either case, are read. */
  lemma FromHexAccepts(s: string)
    ensures FromHex(s).Some? <==> |s| == 64 && forall i :: 0 <= i < 64 ==> s[i] in "0123456789abcdefABCDEF"
  {
    var all := "0123456789abcdefABCDEF";
    forall c: char ensures DigitValue(c) < 16 <==> c in all {
      HexDigits(c);
    }
  }

  /** And letter case does not matter. */
  lemma CaseIsIgnored(s: string, t: string)
    requires |s| == |t| == 64 && forall i :: 0 <= i < 64 ==> LowerOf(s[i]) == LowerOf(t[i])
    ensures FromHex(s) == FromHex(t)
  {
    forall i | 0 <= i < 64 ensures DigitValue(s[i]) == DigitValue(t[i]) {
      SameDigit(s[i], t[i]);
    }
    SameNumeral(s, t, Sixteen);
  }

  function LowerOf(c: char): char {
    if 'A' <= c <= 'Z' then c - 'A' + 'a' else c
  }

  lemma SameDigit(c: char, d: char)
    requires LowerOf(c) == LowerOf(d)
    ensures DigitValue(c) == DigitValue(d)
  {
  }

  lemma HexDigits(c: char)
    ensures DigitValue(c) < 16 <==> c in "0123456789abcdefABCDEF"
    ensures DigitValue(c) < 10 <==> c in "0123456789"
  {
  }

  lemma {:induction false} SameNumeral(s: string, t: string, base: Radix)
    requires |s| == |t| && forall i :: 0 <= i < |s| ==> DigitValue(s[i]) == DigitValue(t[i])
    ensures Numeric(s, base) <==> Numeric(t, base)
    ensures Numeric(s, base) ==> Numeral(s, base) == Numeral(t, base)
  {
    if s != [] && Numeric(s, base) {
      var n := |s| - 1;
      SameNumeral(s[..n], t[..n], base);
    }
  }

  lemma ToHexIsInjective(g: Hash, h: Hash)
    requires ToHex(g) == ToHex(h)
    ensures g == h
  {
    HexRoundTrip(g);
    HexRoundTrip(h);
  }
}

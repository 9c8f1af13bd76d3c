/** One hash under two file names: when that spoils the index, and a directory in which it does. */
module Spellings {
  import opened Wrappers
  import opened Digits
  import opened Blake
  import opened Lru
  import opened Directories
  import opened Reopening

  lemma OpensValid(dir: Directory, order: seq<string>, budget: nat)
    requires Lists(dir, order) && OneSpelling(dir, order)
    ensures Valid(Open(dir, order, budget).index) && Open(dir, order, budget).index.total <= budget
  {
    hide *;
    FilledIsValidIff(dir, order);
    var e := OpenIs(dir, order, budget);
    EvictFits(Filled(dir, order), budget);
  }

  lemma OpensInvalid(dir: Directory, order: seq<string>)
    requires Lists(dir, order) && !OneSpelling(dir, order)
    ensures !Valid(Open(dir, order, Filled(dir, order).total).index)
  {
    hide *;
    FilledIsValidIff(dir, order);
    var e := OpenIs(dir, order, Filled(dir, order).total);
    NothingToEvict(Filled(dir, order));
  }

  /** Opening gives a sound index under every budget exactly when no two names in the directory spell one hash. */
  lemma OpenIsValidIff(dir: Directory, order: seq<string>)
    requires Lists(dir, order)
    ensures (forall budget: nat :: Valid(Open(dir, order, budget).index)) <==> OneSpelling(dir, order)
  {
    hide *;
    if OneSpelling(dir, order) {
      forall budget: nat ensures Valid(Open(dir, order, budget).index) {
        OpensValid(dir, order, budget);
      }
    } else {
      OpensInvalid(dir, order);
      assert !Valid(Open(dir, order, Filled(dir, order).total).index);
    }
  }

  // ---------------------------------------------------------------- such a directory

  /** The hash 10 with its only letter in upper case. */
  const UPPER_TEN: string := Zeros(63) + "A"

  lemma {:induction false} ZerosSpellNothing(k: nat)
    ensures Numeric(Zeros(k), Sixteen) && Numeral(Zeros(k), Sixteen) == 0
  {
    if k > 0 {
      ZerosSpellNothing(k - 1);
      NumeralSnoc(Zeros(k - 1), '0', Sixteen);
    }
  }

  lemma TwoSpellings()
    ensures FromHex(UPPER_TEN) == Some(10) == FromHex(ToHex(10))
    ensures UPPER_TEN != ToHex(10) && !IsTemp(UPPER_TEN)
  {
    ZerosSpellNothing(63);
    NumeralSnoc(Zeros(63), 'A', Sixteen);
    var s := UPPER_TEN;
    assert forall i :: 0 <= i < 63 ==> s[i] == Zeros(63)[i];
    assert s[63] == 'A';
    assert Numeric(s, Sixteen);
    HexRoundTrip(10);
    HexSpelling(s);
    assert !LowerCase(s);
    NumericIsNotTemp(s);
  }

  /** Two copies of one blob, one of them under the upper-case name: the queue lists the blob twice. */
  lemma TwoCopiesBreakIndex(f: File, g: File)
    requires f.regular && g.regular
    ensures var dir, order := map[ToHex(10) := f, UPPER_TEN := g], [ToHex(10), UPPER_TEN];
      && Lists(dir, order) && !Valid(Open(dir, order, Filled(dir, order).total).index)
  {
    hide ToHex, FromHex, IsTemp, Open, Filled, Valid, Zeros;
    TwoSpellings();
    HexIsNotTemp(10);
    var dir, order := map[ToHex(10) := f, UPPER_TEN := g], [ToHex(10), UPPER_TEN];
    assert IsEntry(dir, ToHex(10)) && IsEntry(dir, UPPER_TEN);
    assert order[0] == ToHex(10) && order[1] == UPPER_TEN;
    assert !OneSpelling(dir, order);
    OpensInvalid(dir, order);
  }
}

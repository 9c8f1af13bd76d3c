/**
  Percent-encoding of object paths, sections 2.1 and 2.3 of RFC 3986. Text is held as its UTF-8 bytes, one byte to
  a character below 256.
 */
module UriEncoding {
  import opened Wrappers
  import opened Digits

  predicate IsByte(c: char) {
    c as int < 256
  }

  predicate IsBytes(s: string) {
    forall i :: 0 <= i < |s| ==> IsByte(s[i])
  }

  predicate Unreserved(c: char) {
    'A' <= c <= 'Z' || 'a' <= c <= 'z' || '0' <= c <= '9' || c == '-' || c == '_' || c == '.' || c == '~'
  }

  const UPPER_DIGITS: string := "0123456789ABCDEF"

  function UpperDigit(d: nat): char
    requires d < 16
  {
    UPPER_DIGITS[d]
  }

  function EncodeByte(c: char): (s: string)
    requires IsByte(c)
    ensures |s| > 0
  {
    if Unreserved(c) then [c] else ['%', UpperDigit(c as int / 16), UpperDigit(c as int % 16)]
  }

  /** The unreserved characters pass; any other byte is a percent sign and its two digits, in upper case. */
  lemma EncodeByteIs(c: char)
    requires IsByte(c)
    ensures var passing := "ABCDEFGHIJKLMNOPQRSTUVWXYZ" + "abcdefghijklmnopqrstuvwxyz" + "0123456789-_.~";
      if c in passing then EncodeByte(c) == [c]
      else
        exists hi, lo :: && EncodeByte(c) == ['%', hi, lo]
                         && hi in "0123456789ABCDEF" && lo in "0123456789ABCDEF"
                         && DigitValue(hi) * 16 + DigitValue(lo) == c as int
  {
    UnreservedIs(c);
    UpperDigitRoundTrip(c as int / 16);
    UpperDigitRoundTrip(c as int % 16);
    hide DigitValue, Unreserved;
    if !Unreserved(c) {
      var hi, lo := UpperDigit(c as int / 16), UpperDigit(c as int % 16);
      assert EncodeByte(c) == ['%', hi, lo];
    }
  }

  lemma UpperLetters(c: char)
    ensures c in "ABCDEFGHIJKLMNOPQRSTUVWXYZ" <==> 'A' <= c <= 'Z'
  {
    var all := "ABCDEFGHIJKLMNOPQRSTUVWXYZ";
    if 'A' <= c <= 'Z' { assert all[c as int - 'A' as int] == c; }
  }

  lemma LowerLetters(c: char)
    ensures c in "abcdefghijklmnopqrstuvwxyz" <==> 'a' <= c <= 'z'
  {
    var all := "abcdefghijklmnopqrstuvwxyz";
    if 'a' <= c <= 'z' { assert all[c as int - 'a' as int] == c; }
  }

  lemma DigitsAndMarks(c: char)
    ensures c in "0123456789-_.~" <==> '0' <= c <= '9' || c == '-' || c == '_' || c == '.' || c == '~'
  {
    var all := "0123456789-_.~";
    if '0' <= c <= '9' { assert all[c as int - '0' as int] == c; }
    assert all[10] == '-' && all[11] == '_' && all[12] == '.' && all[13] == '~';
  }

  lemma UnreservedIs(c: char)
    ensures Unreserved(c)
       <==> c in "ABCDEFGHIJKLMNOPQRSTUVWXYZ" + "abcdefghijklmnopqrstuvwxyz" + "0123456789-_.~"
  {
    UpperLetters(c);
    LowerLetters(c);
    DigitsAndMarks(c);
    var upper, lower, others := "ABCDEFGHIJKLMNOPQRSTUVWXYZ", "abcdefghijklmnopqrstuvwxyz", "0123456789-_.~";
    InConcat(upper, lower, c);
    InConcat(upper + lower, others, c);
  }

  lemma InConcat(a: string, b: string, c: char)
    ensures c in a + b <==> c in a || c in b
  {
  }

  function EncodeSegment(seg: string): string
    requires IsBytes(seg)
  {
    if seg == [] then [] else EncodeByte(seg[0]) + EncodeSegment(seg[1..])
  }

  lemma {:induction false} EncodeSegmentConcat(s: string, t: string)
    requires IsBytes(s) && IsBytes(t) && IsBytes(s + t)
    ensures EncodeSegment(s + t) == EncodeSegment(s) + EncodeSegment(t)
  {
    hide EncodeByte;
    if s == [] {
      assert s + t == t;
    } else {
      var tail := s[1..];
      assert (s + t)[1..] == tail + t;
      EncodeSegmentConcat(tail, t);
      assert EncodeSegment(s + t) == EncodeByte(s[0]) + EncodeSegment(tail + t);
    }
  }

  /** The encoder as it runs: one pass over the bytes, growing the output. */
  method UriEncodeSegment(seg: string) returns (out: string)
    requires IsBytes(seg)
    ensures out == EncodeSegment(seg)
  {
    out := "";
    for i := 0 to |seg|
      invariant out == EncodeSegment(seg[..i])
    {
      var b := seg[i];
      EncodeSegmentConcat(seg[..i], [b]);
      assert seg[..i + 1] == seg[..i] + [b];
      assert EncodeSegment([b]) == EncodeByte(b) + EncodeSegment([]);
      if Unreserved(b) {
        out := out + [b];
      } else {
        out := out + ['%', UpperDigit(b as int / 16), UpperDigit(b as int % 16)];
      }
    }
    assert seg[..|seg|] == seg;
  }

  // ---------------------------------------------------------------- whole paths

  function Split(s: string, sep: char): (parts: seq<string>)
    ensures |parts| > 0
  {
    if s == [] then [[]]
    else
      var rest := Split(s[1..], sep);
      if s[0] == sep then [[]] + rest else [[s[0]] + rest[0]] + rest[1..]
  }

  function Join(parts: seq<string>, sep: char): string {
    if parts == [] then []
    else if |parts| == 1 then parts[0]
    else parts[0] + [sep] + Join(parts[1..], sep)
  }

  /** Splitting takes a string apart at every separator, and joining puts it together again. */
  lemma {:induction false} SplitThenJoin(s: string, sep: char)
    ensures Join(Split(s, sep), sep) == s
    ensures forall part :: part in Split(s, sep) ==> sep !in part
  {
    if s != [] {
      SplitThenJoin(s[1..], sep);
      var rest := Split(s[1..], sep);
      assert rest == [rest[0]] + rest[1..];
      if s[0] == sep {
        JoinCons([], rest[0], rest[1..], sep);
      } else {
        JoinCons([s[0]], rest[0], rest[1..], sep);
        assert s == [s[0]] + s[1..];
      }
    }
  }

  lemma {:induction false} SplitFirst(a: string, s: string, sep: char)
    requires sep !in a
    ensures Split(a + ([sep] + s), sep) == [a] + Split(s, sep)
    ensures Split(a, sep) == [a]
  {
    if a == [] {
      assert a + ([sep] + s) == [sep] + s;
      assert ([sep] + s)[1..] == s;
    } else {
      SplitFirst(a[1..], s, sep);
      var all := a + ([sep] + s);
      assert all[1..] == a[1..] + ([sep] + s);
      assert a == [a[0]] + a[1..];
      assert all[0] == a[0] && a[0] in a;
    }
  }

  predicate AllBytes(parts: seq<string>) {
    forall i :: 0 <= i < |parts| ==> IsBytes(parts[i])
  }

  function EncodeAll(parts: seq<string>): (r: seq<string>)
    requires AllBytes(parts)
    ensures |r| == |parts|
  {
    if parts == [] then [] else [EncodeSegment(parts[0])] + EncodeAll(parts[1..])
  }

  lemma {:induction false} SplitKeepsBytes(s: string, sep: char)
    requires IsBytes(s)
    ensures AllBytes(Split(s, sep))
  {
    if s != [] {
      SplitKeepsBytes(s[1..], sep);
    }
  }

  /** Split at slashes, encode every segment, join again: what the request signer does to a path. */
  function EncodeBySegments(path: string): string
    requires IsBytes(path)
  {
    SplitKeepsBytes(path, '/');
    Join(EncodeAll(Split(path, '/')), '/')
  }

  /** One pass over the path that lets slashes through. */
  function EncodePath(path: string): string
    requires IsBytes(path)
  {
    if path == [] then []
    else (if path[0] == '/' then "/" else EncodeByte(path[0])) + EncodePath(path[1..])
  }

  lemma JoinCons(a: string, b: string, rest: seq<string>, sep: char)
    ensures Join([a + b] + rest, sep) == a + Join([b] + rest, sep)
    ensures Join([[]] + ([b] + rest), sep) == [sep] + Join([b] + rest, sep)
  {
  }

  /** The two descriptions agree on every path. */
  lemma {:induction false} SegmentsAreOnePass(path: string)
    requires IsBytes(path)
    ensures EncodeBySegments(path) == EncodePath(path)
  {
    SplitKeepsBytes(path, '/');
    if path == [] {
      assert EncodeAll([[]]) == [EncodeSegment([])] + EncodeAll([]);
    } else {
      var c, tail := path[0], path[1..];
      SegmentsAreOnePass(tail);
      SplitKeepsBytes(tail, '/');
      var parts := Split(tail, '/');
      var enc := EncodeAll(parts);
      assert enc == [EncodeSegment(parts[0])] + EncodeAll(parts[1..]);
      if c == '/' {
        assert EncodeAll([[]] + parts) == [[]] + enc by { assert ([[]] + parts)[1..] == parts; }
        JoinCons([], EncodeSegment(parts[0]), EncodeAll(parts[1..]), '/');
      } else {
        var first := [c] + parts[0];
        assert EncodeSegment(first) == EncodeByte(c) + EncodeSegment(parts[0]) by { assert first[1..] == parts[0]; }
        assert ([first] + parts[1..])[1..] == parts[1..];
        assert EncodeAll([first] + parts[1..]) == [EncodeSegment(first)] + EncodeAll(parts[1..]);
        JoinCons(EncodeByte(c), EncodeSegment(parts[0]), EncodeAll(parts[1..]), '/');
      }
    }
  }

  // ---------------------------------------------------------------- decoding

  /** Percent-decoding; `None` when a percent sign is not followed by two hexadecimal digits. */
  function Decode(s: string): Option<string> {
    if s == [] then Some([])
    else if s[0] != '%' then Prepend(s[0], Decode(s[1..]))
    else if |s| < 3 || DigitValue(s[1]) >= 16 || DigitValue(s[2]) >= 16 then None
    else Prepend((DigitValue(s[1]) * 16 + DigitValue(s[2])) as char, Decode(s[3..]))
  }

  function Prepend(c: char, s: Option<string>): Option<string> {
    match s
    case None => None
    case Some(t) => Some([c] + t)
  }

  lemma DecodeOneByte(c: char, t: string)
    requires IsByte(c)
    ensures Decode(EncodeByte(c) + t) == Prepend(c, Decode(t))
    ensures '\n' !in EncodeByte(c)
  {
    var s := EncodeByte(c) + t;
    if Unreserved(c) {
      assert s[1..] == t;
    } else {
      UpperDigitRoundTrip(c as int / 16);
      UpperDigitRoundTrip(c as int % 16);
      assert s[3..] == t;
    }
  }

  lemma UpperDigitRoundTrip(d: nat)
    requires d < 16
    ensures DigitValue(UpperDigit(d)) == d && UpperDigit(d) != '\n'
  {
  }

  /** Decoding restores the path; the encoded form holds no line break. */
  lemma {:induction false} DecodeRestores(path: string)
    requires IsBytes(path)
    ensures Decode(EncodePath(path)) == Some(path)
    ensures '\n' !in EncodePath(path)
  {
    if path != [] {
      DecodeRestores(path[1..]);
      assert path == [path[0]] + path[1..];
      if path[0] == '/' {
        assert EncodePath(path)[1..] == EncodePath(path[1..]);
      } else {
        DecodeOneByte(path[0], EncodePath(path[1..]));
      }
    }
  }
}

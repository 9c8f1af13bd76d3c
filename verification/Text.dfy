/** Searching in strings. */
module Text {

  predicate Contains(s: string, pattern: string) {
    pattern <= s || (s != [] && Contains(s[1..], pattern))
  }

  /** To contain a pattern is to be some text, the pattern and some text. */
  lemma {:induction false} ContainsIff(s: string, pattern: string)
    ensures Contains(s, pattern) <==> exists a, b :: s == a + pattern + b
  {
    if Contains(s, pattern) {
      var a, b := Around(s, pattern);
    } else if a, b :| s == a + pattern + b {
      ContainsAround(a, pattern, b);
    }
  }

  lemma {:induction false} Around(s: string, pattern: string) returns (a: string, b: string)
    requires Contains(s, pattern)
    ensures s == a + pattern + b
  {
    if pattern <= s {
      a, b := [], s[|pattern|..];
    } else {
      var rest;
      rest, b := Around(s[1..], pattern);
      a := [s[0]] + rest;
    }
  }

  lemma ContainsAround(a: string, pattern: string, b: string)
    ensures Contains(a + pattern + b, pattern)
  {
    assert pattern <= pattern + b;
    ContainsLater(a, pattern + b, pattern);
    assert a + (pattern + b) == a + pattern + b;
  }

  /** What contains a pattern contains its first character. */
  lemma {:induction false} ContainsFirst(s: string, pattern: string)
    requires pattern != [] && Contains(s, pattern)
    ensures exists i :: 0 <= i < |s| && s[i] == pattern[0]
  {
    if pattern <= s {
      assert s[0] == pattern[0];
    } else {
      ContainsFirst(s[1..], pattern);
      var i :| 0 <= i < |s[1..]| && s[1..][i] == pattern[0];
      assert s[i + 1] == pattern[0];
    }
  }

  lemma NoFirstNoPattern(s: string, pattern: string)
    requires pattern != [] && forall i :: 0 <= i < |s| ==> s[i] != pattern[0]
    ensures !Contains(s, pattern)
  {
    if Contains(s, pattern) { ContainsFirst(s, pattern); }
  }

  lemma {:induction false} ContainsLater(a: string, b: string, pattern: string)
    requires Contains(b, pattern)
    ensures Contains(a + b, pattern)
  {
    if a == [] {
      assert a + b == b;
    } else {
      assert (a + b)[1..] == a[1..] + b;
      ContainsLater(a[1..], b, pattern);
    }
  }
}

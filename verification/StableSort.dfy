/** The library's stable sort by key. */
module StableSort {

  /** `x` comes before everything of its own key in `s`. */
  function InsertBy<T>(x: T, s: seq<T>, key: T -> int): seq<T> {
    if s == [] || key(x) <= key(s[0]) then [x] + s else [s[0]] + InsertBy(x, s[1..], key)
  }

  function SortBy<T>(s: seq<T>, key: T -> int): seq<T> {
    if s == [] then [] else InsertBy(s[0], SortBy(s[1..], key), key)
  }

  predicate Ascending<T>(s: seq<T>, key: T -> int) {
    forall i, j :: 0 <= i < j < |s| ==> key(s[i]) <= key(s[j])
  }

  function WithKey<T>(s: seq<T>, key: T -> int, k: int): seq<T> {
    if s == [] then [] else (if key(s[0]) == k then [s[0]] else []) + WithKey(s[1..], key, k)
  }

  lemma {:induction false} InsertAddsOne<T>(x: T, s: seq<T>, key: T -> int)
    ensures multiset(InsertBy(x, s, key)) == multiset{x} + multiset(s)
  {
    if s != [] && key(x) > key(s[0]) {
      InsertAddsOne(x, s[1..], key);
      assert s == [s[0]] + s[1..];
    }
  }

  lemma {:induction false} InsertMembers<T>(x: T, s: seq<T>, key: T -> int, i: nat)
    requires i < |InsertBy(x, s, key)|
    ensures InsertBy(x, s, key)[i] == x || InsertBy(x, s, key)[i] in s
  {
    if s != [] && key(x) > key(s[0]) && i > 0 {
      InsertMembers(x, s[1..], key, i - 1);
    }
  }

  lemma AscendingCons<T>(x: T, s: seq<T>, key: T -> int)
    requires Ascending(s, key) && forall i :: 0 <= i < |s| ==> key(x) <= key(s[i])
    ensures Ascending([x] + s, key)
  {
  }

  lemma AscendingTail<T>(s: seq<T>, key: T -> int)
    requires Ascending(s, key) && s != []
    ensures Ascending(s[1..], key) && forall y :: y in s ==> key(s[0]) <= key(y)
  {
  }

  lemma {:induction false} InsertAscends<T>(x: T, s: seq<T>, key: T -> int)
    requires Ascending(s, key)
    ensures Ascending(InsertBy(x, s, key), key)
  {
    hide Ascending;
    if s == [] {
      AscendingOne(x, key);
      assert [x] + s == [x];
    } else {
      AscendingTail(s, key);
      if key(x) > key(s[0]) {
        var rest := InsertBy(x, s[1..], key);
        InsertAscends(x, s[1..], key);
        forall i | 0 <= i < |rest| ensures key(s[0]) <= key(rest[i]) {
          InsertMembers(x, s[1..], key, i);
        }
        AscendingCons(s[0], rest, key);
      } else {
        forall i | 0 <= i < |s| ensures key(x) <= key(s[i]) {
          assert s[i] in s;
        }
        AscendingCons(x, s, key);
      }
    }
  }

  lemma AscendingOne<T>(x: T, key: T -> int)
    ensures Ascending([x], key)
  {
  }

  lemma InsertPast<T>(x: T, y: T, s: seq<T>, key: T -> int)
    requires key(x) > key(y)
    ensures InsertBy(x, [y] + s, key) == [y] + InsertBy(x, s, key)
  {
    assert ([y] + s)[1..] == s;
  }

  lemma WithKeyCons<T>(x: T, s: seq<T>, key: T -> int, k: int)
    ensures WithKey([x] + s, key, k) == (if key(x) == k then [x] else []) + WithKey(s, key, k)
  {
    assert ([x] + s)[1..] == s;
  }

  lemma {:induction false} InsertIsStable<T>(x: T, s: seq<T>, key: T -> int, k: int)
    ensures WithKey(InsertBy(x, s, key), key, k) == (if key(x) == k then [x] else []) + WithKey(s, key, k)
  {
    hide WithKey;
    if s == [] || key(x) <= key(s[0]) {
      WithKeyCons(x, s, key, k);
    } else {
      var y, rest := s[0], s[1..];
      assert s == [y] + rest;
      InsertIsStable(x, rest, key, k);
      InsertPast(x, y, rest, key);
      WithKeyCons(y, rest, key, k);
      WithKeyCons(y, InsertBy(x, rest, key), key, k);
      var mine, others := if key(x) == k then [x] else [], if key(y) == k then [y] else [];
      assert key(x) == k ==> others == [] || key(y) == key(x);
      assert mine == [] || others == [];
    }
  }

  /** The sort orders by key, loses and invents nothing, and keeps the given order among equal keys. */
  lemma {:induction false} SortIsStable<T>(s: seq<T>, key: T -> int, k: int)
    ensures Ascending(SortBy(s, key), key)
    ensures multiset(SortBy(s, key)) == multiset(s)
    ensures WithKey(SortBy(s, key), key, k) == WithKey(s, key, k)
  {
    hide Ascending, InsertBy;
    if s == [] {
      AscendingNone(key);
    } else {
      var rest := SortBy(s[1..], key);
      SortIsStable(s[1..], key, k);
      InsertAscends(s[0], rest, key);
      InsertAddsOne(s[0], rest, key);
      InsertIsStable(s[0], rest, key, k);
      assert s == [s[0]] + s[1..];
    }
  }

  lemma AscendingNone<T>(key: T -> int)
    ensures Ascending([], key)
  {
  }

  // ---------------------------------------------------------------- leaving elements out

  function Keep<T>(s: seq<T>, p: T -> bool): seq<T> {
    if s == [] then [] else (if p(s[0]) then [s[0]] else []) + Keep(s[1..], p)
  }

  lemma KeepCons<T>(x: T, s: seq<T>, p: T -> bool)
    ensures Keep([x] + s, p) == if p(x) then [x] + Keep(s, p) else Keep(s, p)
  {
    assert ([x] + s)[1..] == s;
  }

  lemma {:induction false} KeepConcat<T>(s: seq<T>, t: seq<T>, p: T -> bool)
    ensures Keep(s + t, p) == Keep(s, p) + Keep(t, p)
  {
    hide Keep;
    if s == [] {
      assert s + t == t;
      KeepNothing(p);
      assert s == [];
    } else {
      var x, rest := s[0], s[1..];
      assert s == [x] + rest;
      assert s + t == [x] + (rest + t);
      KeepConcat(rest, t, p);
      KeepCons(x, rest, p);
      KeepCons(x, rest + t, p);
    }
  }

  lemma KeepNothing<T>(p: T -> bool)
    ensures Keep([], p) == []
  {
  }

  lemma KeepOne<T>(x: T, p: T -> bool)
    ensures Keep([x], p) == if p(x) then [x] else []
  {
  }

  lemma {:induction false} KeepMembers<T>(s: seq<T>, p: T -> bool, i: nat)
    requires i < |Keep(s, p)|
    ensures Keep(s, p)[i] in s && p(Keep(s, p)[i])
  {
    if s != [] {
      var n := if p(s[0]) then 1 else 0;
      assert s == [s[0]] + s[1..];
      if i >= n { KeepMembers(s[1..], p, i - n); }
    }
  }

  lemma {:induction false} KeepAll<T>(s: seq<T>, p: T -> bool)
    requires forall i :: 0 <= i < |s| ==> p(s[i])
    ensures Keep(s, p) == s
  {
    if s != [] { KeepAll(s[1..], p); }
  }

  lemma {:induction false} KeepNone<T>(s: seq<T>, p: T -> bool)
    requires forall i :: 0 <= i < |s| ==> !p(s[i])
    ensures Keep(s, p) == []
  {
    if s != [] { KeepNone(s[1..], p); }
  }

  lemma InsertInFront<T>(x: T, s: seq<T>, key: T -> int, p: T -> bool)
    requires forall y :: y in s ==> key(x) <= key(y)
    ensures InsertBy(x, Keep(s, p), key) == [x] + Keep(s, p)
  {
    if Keep(s, p) != [] { KeepMembers(s, p, 0); }
  }

  lemma {:induction false} InsertKeeps<T>(x: T, s: seq<T>, key: T -> int, p: T -> bool)
    requires Ascending(s, key)
    ensures Keep(InsertBy(x, s, key), p) == if p(x) then InsertBy(x, Keep(s, p), key) else Keep(s, p)
  {
    hide Ascending, Keep;
    if s == [] {
      KeepNothing(p);
      KeepCons(x, s, p);
      InsertInFront(x, s, key, p);
    } else {
      var y, rest := s[0], s[1..];
      assert s == [y] + rest;
      AscendingTail(s, key);
      if key(x) <= key(y) {
        KeepCons(x, s, p);
        InsertInFront(x, s, key, p);
      } else {
        InsertKeeps(x, rest, key, p);
        InsertPast(x, y, rest, key);
        KeepCons(y, InsertBy(x, rest, key), p);
        KeepCons(y, rest, p);
        InsertPast(x, y, Keep(rest, p), key);
      }
    }
  }

  lemma SortCons<T>(x: T, s: seq<T>, key: T -> int)
    ensures SortBy([x] + s, key) == InsertBy(x, SortBy(s, key), key)
  {
    assert ([x] + s)[1..] == s;
  }

  /** Sorting and leaving elements out commute. */
  lemma {:induction false} SortKeeps<T>(s: seq<T>, key: T -> int, p: T -> bool)
    ensures SortBy(Keep(s, p), key) == Keep(SortBy(s, key), p)
  {
    hide Ascending, InsertBy, Keep;
    if s == [] {
      KeepNothing(p);
    } else {
      var x, rest := s[0], s[1..];
      assert s == [x] + rest;
      SortKeeps(rest, key, p);
      SortIsStable(rest, key, 0);
      InsertKeeps(x, SortBy(rest, key), key, p);
      KeepCons(x, rest, p);
      SortCons(x, Keep(rest, p), key);
    }
  }
}

/** The recency index of the disk cache: a queue, a size map and a running byte total. */
module Lru {
  import opened Wrappers
  import opened Blake

  /** A snapshot of the index. The queue runs from the oldest entry to the most recently used one. */
  datatype Index = Index(entries: map<Hash, nat>, lru: seq<Hash>, total: nat)

  const EMPTY: Index := Index(map[], [], 0)

  // ---------------------------------------------------------------- the operations, on any index whatever

  function SaturatingSub(a: nat, b: nat): nat {
    if a <= b then 0 else a - b
  }

  function Position(s: seq<Hash>, h: Hash): (p: Option<nat>)
    ensures p.Some? ==> p.value < |s| && s[p.value] == h
  {
    if s == [] then None
    else if s[0] == h then Some(0)
    else match Position(s[1..], h) case None => None case Some(k) => Some(k + 1)
  }

  /** The queue without its first occurrence of `h`. */
  function Without(s: seq<Hash>, h: Hash): seq<Hash> {
    match Position(s, h)
    case None => s
    case Some(k) => s[..k] + s[k + 1..]
  }

  function SizeOf(entries: map<Hash, nat>, h: Hash): nat {
    if h in entries then entries[h] else 0
  }

  function Touched(v: Index, h: Hash): Index {
    if Position(v.lru, h).Some? then v.(lru := Without(v.lru, h) + [h]) else v
  }

  /** Forget `h` in the size map and the total, but not in the queue. */
  function Unsized(v: Index, h: Hash): Index {
    v.(entries := v.entries - {h}, total := SaturatingSub(v.total, SizeOf(v.entries, h)))
  }

  /** Forget `h` altogether. */
  function Dropped(v: Index, h: Hash): Index {
    Unsized(v, h).(lru := Without(v.lru, h))
  }

  datatype Eviction = Eviction(index: Index, evicted: seq<Hash>)

  /** Take entries from the front until `size` more bytes fit `budget` or the queue is empty. */
  function Evict(v: Index, size: nat, budget: nat): Eviction
    decreases |v.lru|
  {
    if v.total + size <= budget || v.lru == [] then Eviction(v, [])
    else
      var rest := Evict(Unsized(v, v.lru[0]).(lru := v.lru[1..]), size, budget);
      Eviction(rest.index, [v.lru[0]] + rest.evicted)
  }

  function Inserted(v: Index, h: Hash, size: nat, budget: nat): Eviction {
    var e := Evict(if h in v.entries then Dropped(v, h) else v, size, budget);
    Eviction(Index(e.index.entries[h := size], e.index.lru + [h], e.index.total + size), e.evicted)
  }

  // ---------------------------------------------------------------- the object

  class LruState {
    var entries: map<Hash, nat>
    var lru: seq<Hash>
    var totalBytes: nat

    function Value(): Index
      reads this
    {
      Index(entries, lru, totalBytes)
    }

    constructor ()
      ensures Value() == EMPTY
    {
      entries, lru, totalBytes := map[], [], 0;
    }

    method Touch(h: Hash)
      modifies this
      ensures Value() == Touched(old(Value()), h)
    {
      var pos := Position(lru, h);
      if pos.Some? {
        lru := lru[..pos.value] + lru[pos.value + 1..];
        lru := lru + [h];
      }
    }

    method Drop(h: Hash)
      modifies this
      ensures Value() == Dropped(old(Value()), h)
    {
      if h in entries {
        totalBytes := SaturatingSub(totalBytes, entries[h]);
        entries := entries - {h};
      } else {
        assert entries - {h} == entries;
      }
      var pos := Position(lru, h);
      if pos.Some? {
        lru := lru[..pos.value] + lru[pos.value + 1..];
      }
    }

    method Insert(h: Hash, size: nat, budget: nat) returns (evicted: seq<Hash>)
      modifies this
      ensures Eviction(Value(), evicted) == Inserted(old(Value()), h, size, budget)
    {
      if h in entries {
        totalBytes := SaturatingSub(totalBytes, entries[h]);
        entries := entries - {h};
        var pos := Position(lru, h);
        if pos.Some? {
          lru := lru[..pos.value] + lru[pos.value + 1..];
        }
      }
      evicted := EvictUntilFits(size, budget);
      entries := entries[h := size];
      lru := lru + [h];
      totalBytes := totalBytes + size;
    }

    /** The eviction loop, shared by insertion and by opening a directory that has outgrown its budget. */
    method EvictUntilFits(size: nat, budget: nat) returns (evicted: seq<Hash>)
      modifies this
      ensures Eviction(Value(), evicted) == Evict(old(Value()), size, budget)
    {
      evicted := [];
      ghost var start := Value();
      while totalBytes + size > budget
        invariant Evict(start, size, budget)
               == Eviction(Evict(Value(), size, budget).index, evicted + Evict(Value(), size, budget).evicted)
        decreases |lru|
      {
        if lru == [] {
          break;
        }
        ghost var before := Value();
        var victim := lru[0];
        lru := lru[1..];
        if victim in entries {
          totalBytes := SaturatingSub(totalBytes, entries[victim]);
          entries := entries - {victim};
        } else {
          assert entries - {victim} == entries;
        }
        assert Value() == Unsized(before, victim).(lru := before.lru[1..]);
        evicted := evicted + [victim];
      }
    }
  }

  // ---------------------------------------------------------------- the invariant

  predicate Distinct(s: seq<Hash>) {
    s == [] || (s[0] !in s[1..] && Distinct(s[1..]))
  }

  function Total(s: seq<Hash>, entries: map<Hash, nat>): nat {
    if s == [] then 0 else SizeOf(entries, s[0]) + Total(s[1..], entries)
  }

  /** The queue lists the keys of the size map once each, and the total is the exact sum of the sizes. */
  ghost predicate Valid(v: Index) {
    && Distinct(v.lru)
    && (forall h :: h in v.lru <==> h in v.entries)
    && v.total == Total(v.lru, v.entries)
  }

  lemma {:induction false} PositionFinds(s: seq<Hash>, h: Hash)
    ensures Position(s, h).Some? <==> h in s
  {
    if s != [] {
      PositionFinds(s[1..], h);
      assert s == [s[0]] + s[1..];
    }
  }

  /** Where a distinct queue holds `h`. */
  lemma SplitAt(s: seq<Hash>, h: Hash) returns (a: seq<Hash>, b: seq<Hash>)
    requires h in s && Distinct(s)
    ensures s == a + [h] + b && Without(s, h) == a + b
    ensures h !in a && h !in b
  {
    PositionFinds(s, h);
    var k := Position(s, h).value;
    a, b := s[..k], s[k + 1..];
    assert s == a + [h] + b;
    DistinctConcat(a + [h], b);
    DistinctConcat(a, [h]);
    assert h in [h] && h in a + [h];
  }

  lemma WithoutAbsent(s: seq<Hash>, h: Hash)
    requires h !in s
    ensures Without(s, h) == s
  {
  }

  lemma {:induction false} TotalConcat(s: seq<Hash>, t: seq<Hash>, entries: map<Hash, nat>)
    ensures Total(s + t, entries) == Total(s, entries) + Total(t, entries)
  {
    if s == [] {
      assert s + t == t;
    } else {
      assert (s + t)[1..] == s[1..] + t;
      TotalConcat(s[1..], t, entries);
    }
  }

  lemma {:induction false} TotalSame(s: seq<Hash>, e: map<Hash, nat>, f: map<Hash, nat>)
    requires forall h :: h in s ==> SizeOf(e, h) == SizeOf(f, h)
    ensures Total(s, e) == Total(s, f)
  {
    if s != [] { TotalSame(s[1..], e, f); }
  }

  lemma {:induction false} DistinctConcat(s: seq<Hash>, t: seq<Hash>)
    ensures Distinct(s + t) <==> Distinct(s) && Distinct(t) && forall h :: h in s ==> h !in t
  {
    if s == [] {
      assert s + t == t;
    } else {
      assert (s + t)[1..] == s[1..] + t;
      DistinctConcat(s[1..], t);
      assert s == [s[0]] + s[1..];
      assert s[0] in s[1..] + t <==> s[0] in s[1..] || s[0] in t;
    }
  }

  lemma TotalSplits(a: seq<Hash>, h: Hash, b: seq<Hash>, entries: map<Hash, nat>)
    ensures Total(a + [h] + b, entries) == Total(a + b, entries) + SizeOf(entries, h)
    ensures Total(a + b + [h], entries) == Total(a + b, entries) + SizeOf(entries, h)
  {
    TotalConcat(a + [h], b, entries);
    TotalConcat(a, [h], entries);
    TotalConcat(a, b, entries);
    TotalConcat(a + b, [h], entries);
    assert [h][1..] == [];
  }

  /** Dropping an entry keeps the invariant; the subtraction never saturates. */
  lemma DroppedIsValid(v: Index, h: Hash)
    requires Valid(v)
    ensures Valid(Dropped(v, h))
    ensures Dropped(v, h).total + SizeOf(v.entries, h) == v.total
    ensures forall x :: x in Dropped(v, h).entries <==> x in v.entries && x != h
  {
    hide Total, Distinct, Position;
    var w := Dropped(v, h);
    if h in v.lru {
      var a, b := SplitAt(v.lru, h);
      WithoutKeeps(a, h, b);
      TotalSplits(a, h, b, v.entries);
      TotalSame(a + b, v.entries, w.entries);
    } else {
      WithoutAbsent(v.lru, h);
      assert w.entries == v.entries;
    }
  }

  lemma WithoutKeeps(a: seq<Hash>, h: Hash, b: seq<Hash>)
    requires Distinct(a + [h] + b)
    ensures Distinct(a + b)
    ensures forall x :: x in a + b <==> x in a + [h] + b && x != h
  {
    DistinctConcat(a + [h], b);
    DistinctConcat(a, [h]);
    DistinctConcat(a, b);
    assert h in [h];
    assert forall x :: x in a + [h] <==> x in a || x == h;
  }

  lemma TouchedIsValid(v: Index, h: Hash)
    requires Valid(v)
    ensures Valid(Touched(v, h))
    ensures Touched(v, h).entries == v.entries && Touched(v, h).total == v.total
  {
    hide Total, Distinct, Position;
    PositionFinds(v.lru, h);
    if h in v.lru {
      var a, b := SplitAt(v.lru, h);
      WithoutKeeps(a, h, b);
      DistinctConcat(a + b, [h]);
      DistinctOne(h);
      TotalSplits(a, h, b, v.entries);
    }
  }

  /** A touched entry moves to the back, all others keep their order. */
  lemma TouchMeans(v: Index, h: Hash) returns (older: seq<Hash>, newer: seq<Hash>)
    requires Valid(v) && h in v.entries
    ensures v.lru == older + [h] + newer
    ensures Touched(v, h) == Index(v.entries, older + newer + [h], v.total)
  {
    hide Distinct, Total, Position;
    PositionFinds(v.lru, h);
    older, newer := SplitAt(v.lru, h);
  }

  /** A dropped entry leaves queue, size map and total; all others keep their order and size. */
  lemma DropMeans(v: Index, h: Hash) returns (older: seq<Hash>, newer: seq<Hash>)
    requires Valid(v) && h in v.entries
    ensures v.lru == older + [h] + newer
    ensures Dropped(v, h).lru == older + newer && Dropped(v, h).entries == v.entries - {h}
    ensures Dropped(v, h).total + v.entries[h] == v.total
  {
    hide Distinct, Total, Position;
    DroppedIsValid(v, h);
    older, newer := SplitAt(v.lru, h);
  }

  lemma DistinctOne(h: Hash)
    ensures Distinct([h])
  {
  }

  /** What eviction takes: the shortest oldest part of the queue that makes room, and nothing that it need not. */
  ghost predicate EvictsShortest(v: Index, size: nat, budget: nat, e: Eviction) {
    var k := |e.evicted|;
    && k <= |v.lru|
    && e.evicted == v.lru[..k] && e.index.lru == v.lru[k..]
    && (e.index.total + size <= budget || e.index.lru == [])
    && (forall j :: 0 <= j < k ==> Total(v.lru[j..], v.entries) + size > budget)
    && (forall h :: h in e.index.entries ==> h in v.entries && e.index.entries[h] == v.entries[h])
  }

  lemma EvictOneIsValid(v: Index)
    requires Valid(v) && v.lru != []
    ensures var w := Unsized(v, v.lru[0]).(lru := v.lru[1..]);
      Valid(w) && w == Dropped(v, v.lru[0]) && v.lru[0] !in w.lru
  {
    var h := v.lru[0];
    assert Without(v.lru, h) == v.lru[..0] + v.lru[1..] == v.lru[1..];
    DroppedIsValid(v, h);
  }

  lemma EvictionExtends(v: Index, w: Index, size: nat, budget: nat, r: Eviction)
    requires Valid(v) && v.lru != [] && v.total + size > budget
    requires w == Unsized(v, v.lru[0]).(lru := v.lru[1..]) && v.lru[0] !in w.lru
    requires EvictsShortest(w, size, budget, r)
    ensures EvictsShortest(v, size, budget, Eviction(r.index, [v.lru[0]] + r.evicted))
  {
    hide Total, Distinct;
    var h, k := v.lru[0], |r.evicted|;
    assert v.lru[..k + 1] == [h] + w.lru[..k];
    assert v.lru[k + 1..] == w.lru[k..];
    forall j | 0 <= j < k + 1
      ensures Total(v.lru[j..], v.entries) + size > budget
    {
      SuffixTotals(v, w, j);
    }
  }

  lemma SuffixTotals(v: Index, w: Index, j: nat)
    requires Valid(v) && v.lru != [] && v.lru[0] !in w.lru
    requires w == Unsized(v, v.lru[0]).(lru := v.lru[1..])
    ensures j == 0 ==> Total(v.lru[j..], v.entries) == v.total
    ensures 0 < j <= |v.lru| ==> Total(v.lru[j..], v.entries) == Total(w.lru[j - 1..], w.entries)
  {
    hide Total, Distinct;
    if j == 0 {
      assert v.lru[0..] == v.lru;
    } else if j <= |v.lru| {
      assert v.lru[j..] == w.lru[j - 1..];
      TotalSame(w.lru[j - 1..], w.entries, v.entries);
    }
  }

  lemma {:induction false} EvictMeans(v: Index, size: nat, budget: nat)
    requires Valid(v)
    ensures Valid(Evict(v, size, budget).index)
    ensures EvictsShortest(v, size, budget, Evict(v, size, budget))
    decreases |v.lru|
  {
    hide Valid, EvictsShortest;
    if v.total + size > budget && v.lru != [] {
      var w := Unsized(v, v.lru[0]).(lru := v.lru[1..]);
      EvictOneIsValid(v);
      EvictMeans(w, size, budget);
      EvictionExtends(v, w, size, budget, Evict(w, size, budget));
    } else {
      EvictsNothing(v, size, budget);
    }
  }

  lemma EvictsNothing(v: Index, size: nat, budget: nat)
    requires Valid(v) && (v.total + size <= budget || v.lru == [])
    ensures EvictsShortest(v, size, budget, Eviction(v, []))
  {
  }

  lemma AppendedIsValid(v: Index, h: Hash, size: nat)
    requires Valid(v) && h !in v.entries
    ensures Valid(Index(v.entries[h := size], v.lru + [h], v.total + size))
  {
    var w := Index(v.entries[h := size], v.lru + [h], v.total + size);
    DistinctConcat(v.lru, [h]);
    DistinctOne(h);
    TotalConcat(v.lru, [h], w.entries);
    assert Total([h], w.entries) == size by { assert [h][1..] == []; }
    TotalSame(v.lru, v.entries, w.entries);
  }

  lemma DroppingAbsent(v: Index, h: Hash)
    requires Valid(v) && h !in v.entries
    ensures Dropped(v, h) == v
  {
  }

  lemma EvictAvoids(v: Index, size: nat, budget: nat, h: Hash)
    requires Valid(v) && h !in v.lru
    ensures h !in Evict(v, size, budget).evicted && h !in Evict(v, size, budget).index.entries
    ensures Evict(v, size, budget).index.total + size <= budget || Evict(v, size, budget).index.total == 0
  {
    hide Evict, Distinct;
    EvictMeans(v, size, budget);
  }

  /** Insertion keeps the invariant and, for an entry that fits the budget at all, stays within it. */
  lemma InsertedIsValid(v: Index, h: Hash, size: nat, budget: nat)
    requires Valid(v)
    ensures Valid(Inserted(v, h, size, budget).index)
    ensures size <= budget ==> Inserted(v, h, size, budget).index.total <= budget
    ensures h in Inserted(v, h, size, budget).index.entries && h !in Inserted(v, h, size, budget).evicted
  {
    var base := Dropped(v, h);
    DroppedIsValid(v, h);
    if h !in v.entries { DroppingAbsent(v, h); }
    assert h !in base.lru;
    EvictMeans(base, size, budget);
    EvictAvoids(base, size, budget, h);
    hide Evict, Dropped, Valid, EvictsShortest;
    AppendedIsValid(Evict(base, size, budget).index, h, size);
  }

  /**
    What insertion does: `h` ends up newest with its new size, the evicted entries are the shortest oldest part of the
    others that makes room, and everybody else keeps place and size.
   */
  lemma InsertMeans(v: Index, h: Hash, size: nat, budget: nat)
    requires Valid(v)
    ensures var e, others := Inserted(v, h, size, budget), Without(v.lru, h);
      && e.evicted + e.index.lru == others + [h]
      && e.index.lru != [] && e.index.entries == (v.entries - {h} - Members(e.evicted))[h := size]
      && (forall j :: 0 <= j < |e.evicted| ==> Total(others[j..], v.entries) + size > budget)
  {
    hide *;
    InsertIsDropEvictAppend(v, h, size, budget);
    var base := Dropped(v, h);
    DroppedIsValid(v, h);
    EvictParts(base, size, budget);
    EvictEntries(base, size, budget);
    forall j | 0 <= j < |Evict(base, size, budget).evicted|
      ensures Total(base.lru[j..], v.entries) + size > budget
    {
      OthersKeepSize(v, h, base.lru[j..]);
    }
  }

  lemma InsertIsDropEvictAppend(v: Index, h: Hash, size: nat, budget: nat)
    requires Valid(v)
    ensures var base := Dropped(v, h); var e := Evict(base, size, budget);
      && base.lru == Without(v.lru, h) && base.entries == v.entries - {h}
      && Inserted(v, h, size, budget)
      == Eviction(Index(e.index.entries[h := size], e.index.lru + [h], e.index.total + size), e.evicted)
  {
    if h !in v.entries { DroppingAbsent(v, h); }
    hide Evict;
  }

  lemma EvictParts(v: Index, size: nat, budget: nat)
    requires Valid(v)
    ensures var e := Evict(v, size, budget);
      && e.evicted + e.index.lru == v.lru
      && (forall j :: 0 <= j < |e.evicted| ==> Total(v.lru[j..], v.entries) + size > budget)
  {
    hide Evict, Total, Distinct, Valid;
    EvictMeans(v, size, budget);
    var k := |Evict(v, size, budget).evicted|;
    assert v.lru[..k] + v.lru[k..] == v.lru;
  }

  function Members(s: seq<Hash>): set<Hash> {
    set h | h in s
  }

  lemma OthersKeepSize(v: Index, h: Hash, s: seq<Hash>)
    requires Valid(v) && forall x :: x in s ==> x in Dropped(v, h).lru
    ensures Total(s, Dropped(v, h).entries) == Total(s, v.entries)
  {
    DroppedIsValid(v, h);
    TotalSame(s, Dropped(v, h).entries, v.entries);
  }

  lemma {:induction false} EvictEntries(v: Index, size: nat, budget: nat)
    ensures Evict(v, size, budget).index.entries == v.entries - Members(Evict(v, size, budget).evicted)
    decreases |v.lru|
  {
    if !(v.total + size <= budget || v.lru == []) {
      var w := Unsized(v, v.lru[0]).(lru := v.lru[1..]);
      EvictEntries(w, size, budget);
      var rest := Evict(w, size, budget).evicted;
      assert Members([v.lru[0]] + rest) == {v.lru[0]} + Members(rest);
      assert v.entries - {v.lru[0]} - Members(rest) == v.entries - ({v.lru[0]} + Members(rest));
    } else {
      assert v.entries - Members([]) == v.entries;
    }
  }
}

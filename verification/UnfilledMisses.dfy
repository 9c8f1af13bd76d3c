/** Budget monotonicity when some misses stay unfilled: what goes wrong, and room with which it does not. */
module UnfilledMisses {
  import opened Blake
  import opened Lru
  import opened RecentRun
  import opened BudgetMonotonicity
  import opened StableSort

  // ---------------------------------------------------------------- a second cause

  /**
    A lookup that no source fills can hit in the larger cache alone and there make a blob recent that the smaller cache
    has lost; the next store then pushes out what the smaller one keeps. Every blob here fits the smaller budget.
   */
  lemma UnfilledMissBreaksMonotonicity(size: Sizes)
    requires size(1) == 2 && size(2) == size(3) == 1 && forall h :: size(h) <= 2
    ensures RoomForBoth(size, 2, 3)
    ensures var requests := [Fetch(1), Fetch(2), Get(1), Fetch(3), Fetch(2)];
      Hits(requests, size, 2) == 1 && Hits(requests, size, 3) == 0
  {
    NothingIsLarge(size, 2, 3);
    SmallTrace(size);
    LargeTrace(size);
  }

  lemma NothingIsLarge(size: Sizes, small: nat, large: nat)
    requires small <= large && forall h :: size(h) <= small
    ensures RoomForBoth(size, small, large)
  {
    forall run, big | Distinct(run) && Distinct(big) && run != [] && Bytes(run, size) <= small
                      && OnlyLarge(big, size, small, large)
      ensures Bytes(run, size) + Bytes(big, size) <= large
    {
      HeadIsIn(big);
      assert big == [];
    }
  }

  function Trace(): seq<Request> {
    [Fetch(1), Fetch(2), Get(1), Fetch(3), Fetch(2)]
  }

  /** The state after one more request, and whether that was a hit. */
  lemma OneMoreRequest(requests: seq<Request>, i: nat, size: Sizes, budget: nat)
    requires i < |requests|
    ensures Run(requests[..i + 1], size, budget) == Serve(Run(requests[..i], size, budget), requests[i], size, budget)
    ensures Hits(requests[..i + 1], size, budget) == Hits(requests[..i], size, budget)
      + if requests[i].Fetch? && requests[i].hash in Run(requests[..i], size, budget).entries then 1 else 0
  {
    assert requests[..i + 1][..i] == requests[..i];
    hide Serve;
  }

  lemma EmptyRun(requests: seq<Request>, size: Sizes, budget: nat)
    ensures Run(requests[..0], size, budget) == EMPTY && Hits(requests[..0], size, budget) == 0
  {
  }

  lemma StoreFirst(h: Hash, size: Sizes, budget: nat)
    requires size(h) <= budget
    ensures Serve(EMPTY, Fetch(h), size, budget) == Index(map[h := size(h)], [h], size(h))
  {
    assert Evict(EMPTY, size(h), budget) == Eviction(EMPTY, []);
  }

  lemma StoreSecond(g: Hash, h: Hash, size: Sizes, budget: nat)
    requires g != h && size(g) + size(h) <= budget
    ensures Serve(Index(map[g := size(g)], [g], size(g)), Fetch(h), size, budget)
         == Index(map[g := size(g), h := size(h)], [g, h], size(g) + size(h))
  {
    var v := Index(map[g := size(g)], [g], size(g));
    assert Evict(v, size(h), budget) == Eviction(v, []);
    assert v.entries[h := size(h)] == map[g := size(g), h := size(h)];
  }

  lemma StoreInstead(g: Hash, h: Hash, size: Sizes, budget: nat)
    requires g != h && size(h) <= budget < size(g) + size(h)
    ensures Serve(Index(map[g := size(g)], [g], size(g)), Fetch(h), size, budget)
         == Index(map[h := size(h)], [h], size(h))
  {
    var v := Index(map[g := size(g)], [g], size(g));
    assert Unsized(v, g).(lru := []) == EMPTY;
    assert Evict(EMPTY, size(h), budget) == Eviction(EMPTY, []);
    assert Evict(v, size(h), budget).index == EMPTY;
  }

  lemma SmallTrace(size: Sizes)
    requires size(1) == 2 && size(2) == size(3) == 1
    ensures Hits(Trace(), size, 2) == 1
  {
    hide Serve, Run, Hits;
    var r := Trace();
    EmptyRun(r, size, 2);
    OneMoreRequest(r, 0, size, 2);
    StoreFirst(1, size, 2);
    OneMoreRequest(r, 1, size, 2);
    StoreInstead(1, 2, size, 2);
    OneMoreRequest(r, 2, size, 2);
    MissedGet(1, 2, size, 2);
    OneMoreRequest(r, 3, size, 2);
    StoreSecond(2, 3, size, 2);
    OneMoreRequest(r, 4, size, 2);
    assert r[..5] == r;
  }

  lemma MissedGet(g: Hash, h: Hash, size: Sizes, budget: nat)
    requires g != h
    ensures var v := Index(map[h := size(h)], [h], size(h)); Serve(v, Get(g), size, budget) == v
  {
  }

  lemma TouchOlder(g: Hash, h: Hash, size: Sizes, budget: nat)
    requires g != h
    ensures var entries := map[g := size(g), h := size(h)];
      Serve(Index(entries, [g, h], size(g) + size(h)), Get(g), size, budget)
      == Index(entries, [h, g], size(g) + size(h))
  {
    assert Without([g, h], g) == [h];
  }

  /** A store that pushes out the older of two blobs. */
  lemma StoreThird(g: Hash, h: Hash, x: Hash, size: Sizes, budget: nat)
    requires g != h && x != g && x != h && size(g) + size(x) <= budget < size(g) + size(h) + size(x)
    ensures Serve(Index(map[g := size(g), h := size(h)], [h, g], size(g) + size(h)), Fetch(x), size, budget)
         == Index(map[g := size(g), x := size(x)], [g, x], size(g) + size(x))
  {
    var v := Index(map[g := size(g), h := size(h)], [h, g], size(g) + size(h));
    var w := Index(map[g := size(g)], [g], size(g));
    assert v.entries - {h} == w.entries;
    assert Unsized(v, h).(lru := [g]) == w;
    assert v.lru[1..] == [g];
    assert Evict(w, size(x), budget) == Eviction(w, []);
    assert Evict(v, size(x), budget).index == w;
    assert w.entries[x := size(x)] == map[g := size(g), x := size(x)];
  }

  lemma LargeTrace(size: Sizes)
    requires size(1) == 2 && size(2) == size(3) == 1
    ensures Hits(Trace(), size, 3) == 0
  {
    hide Serve, Run, Hits;
    var r := Trace();
    EmptyRun(r, size, 3);
    OneMoreRequest(r, 0, size, 3);
    StoreFirst(1, size, 3);
    OneMoreRequest(r, 1, size, 3);
    StoreSecond(1, 2, size, 3);
    OneMoreRequest(r, 2, size, 3);
    TouchOlder(1, 2, size, 3);
    OneMoreRequest(r, 3, size, 3);
    StoreThird(1, 2, 3, size, 3);
    OneMoreRequest(r, 4, size, 3);
    assert r[..5] == r;
  }

  // ---------------------------------------------------------------- the exact room

  ghost predicate Apart(s: seq<Hash>, t: seq<Hash>) {
    Distinct(s) && Distinct(t) && forall h :: h in s ==> h !in t
  }

  /** Stored in this order, all of them fit the larger cache, and the smaller one has nothing of `gone` left. */
  ghost predicate PushesOut(gone: seq<Hash>, rest: seq<Hash>, size: Sizes, small: nat, large: nat) {
    && gone != [] && Apart(rest, gone) && (forall h :: h in gone ==> size(h) <= small)
    && Bytes(rest, size) <= small < size(gone[|gone| - 1]) + Bytes(rest, size)
    && Bytes(gone, size) + Bytes(rest, size) <= large
  }

  ghost predicate Includes(gone: seq<Hash>, extra: seq<Hash>, size: Sizes, small: nat) {
    forall h :: h in extra && size(h) <= small ==> h in gone
  }

  /** The larger cache can come to hold `extra` while the smaller one holds none of it. */
  ghost predicate Separable(extra: seq<Hash>, size: Sizes, small: nat, large: nat) {
    || (forall h :: h in extra ==> size(h) > small)
    || exists gone, rest :: PushesOut(gone, rest, size, small, large) && Includes(gone, extra, size, small)
  }

  /** `h` is stored when the smaller cache holds `held` and keeps it, and the larger one holds `extra` besides. */
  ghost predicate Joins(h: Hash, held: seq<Hash>, extra: seq<Hash>, size: Sizes, small: nat, large: nat) {
    && held != [] && Apart(held, extra) && h !in held && h !in extra
    && Bytes(held, size) <= small && Bytes(held, size) + Bytes(extra, size) <= large
    && size(h) <= large && (size(h) > small || Bytes(held, size) + size(h) <= small)
    && Separable(extra, size, small, large)
  }

  /** Then the larger cache has room for all of them. This can be read off the sizes and the budgets. */
  ghost predicate RoomToReorder(size: Sizes, small: nat, large: nat) {
    forall held, extra, h :: Joins(h, held, extra, size, small, large)
      ==> Bytes(held, size) + Bytes(extra, size) + size(h) <= large
  }

  // ---------------------------------------------------------------- queues

  function In(s: seq<Hash>): Hash -> bool {
    h => h in s
  }

  function NotIn(s: seq<Hash>): Hash -> bool {
    h => h !in s
  }

  /** The smaller queue is what the larger one has of it, in the same order. */
  ghost predicate Within(s: seq<Hash>, l: seq<Hash>) {
    Keep(l, In(s)) == s
  }

  lemma {:induction false} KeepHas(s: seq<Hash>, p: Hash -> bool, h: Hash)
    ensures h in Keep(s, p) <==> h in s && p(h)
  {
    if s != [] {
      KeepHas(s[1..], p, h);
      assert s == [s[0]] + s[1..];
    }
  }

  lemma {:induction false} KeepSame(s: seq<Hash>, p: Hash -> bool, q: Hash -> bool)
    requires forall h :: h in s ==> p(h) == q(h)
    ensures Keep(s, p) == Keep(s, q)
  {
    if s != [] { KeepSame(s[1..], p, q); }
  }

  lemma {:induction false} KeepDistinct(s: seq<Hash>, p: Hash -> bool)
    requires Distinct(s)
    ensures Distinct(Keep(s, p))
  {
    if s != [] {
      KeepDistinct(s[1..], p);
      KeepHas(s[1..], p, s[0]);
      var t := Keep(s, p);
      if p(s[0]) {
        assert t == [s[0]] + Keep(s[1..], p);
        assert t[0] == s[0] && t[1..] == Keep(s[1..], p);
      } else {
        assert t == Keep(s[1..], p);
      }
    }
  }

  lemma {:induction false} BytesSplitBy(l: seq<Hash>, s: seq<Hash>, size: Sizes)
    ensures Bytes(l, size) == Bytes(Keep(l, In(s)), size) + Bytes(Keep(l, NotIn(s)), size)
  {
    if l != [] {
      var h, rest := l[0], l[1..];
      BytesSplitBy(rest, s, size);
      BytesConcat([h], Keep(rest, In(s)), size);
      BytesConcat([h], Keep(rest, NotIn(s)), size);
      BytesOne(h, size);
      assert [] + Keep(rest, In(s)) == Keep(rest, In(s));
      assert [] + Keep(rest, NotIn(s)) == Keep(rest, NotIn(s));
    }
  }

  lemma WithinHas(s: seq<Hash>, l: seq<Hash>, h: Hash)
    requires Within(s, l) && h in s
    ensures h in l
  {
    KeepHas(l, In(s), h);
  }

  /** Moving one blob to the back of both queues keeps the one within the other. */
  lemma MoveKeepsWithin(s: seq<Hash>, l: seq<Hash>, h: Hash)
    requires Within(s, l) && Distinct(s) && Distinct(l)
    ensures Within(MoveToBack(s, h), MoveToBack(l, h))
  {
    hide Keep, Distinct, Without, Position;
    var t := MoveToBack(s, h);
    var others := Without(l, h);
    MoveToBackIsDistinct(s, h);
    WithoutHas(l, h);
    KeepConcat(others, [h], In(t));
    KeepOne(h, In(t));
    KeepSame(others, In(t), In(s));
    KeepWithout(l, h, s);
  }

  lemma WithoutHas(l: seq<Hash>, h: Hash)
    requires Distinct(l)
    ensures forall x :: x in Without(l, h) <==> x in l && x != h
    ensures Distinct(Without(l, h))
  {
    if h in l {
      var a, b := SplitAt(l, h);
      WithoutKeeps(a, h, b);
    } else {
      WithoutAbsent(l, h);
    }
  }

  /** What a queue has of `s`, without `h`. */
  lemma KeepWithout(l: seq<Hash>, h: Hash, s: seq<Hash>)
    requires Distinct(l)
    ensures Keep(Without(l, h), In(s)) == Without(Keep(l, In(s)), h)
  {
    hide Keep, Distinct, Position;
    if h in l {
      var a, b := SplitAt(l, h);
      KeepConcat(a + [h], b, In(s));
      KeepConcat(a, [h], In(s));
      KeepConcat(a, b, In(s));
      KeepOne(h, In(s));
      KeepHas(a, In(s), h);
      KeepHas(b, In(s), h);
      var p, q := Keep(a, In(s)), Keep(b, In(s));
      if h in s {
        WithoutFirst(p, h, q);
      } else {
        assert p + [] + q == p + q;
        KeepHas(l, In(s), h);
        WithoutAbsent(p + q, h);
      }
    } else {
      WithoutAbsent(l, h);
      KeepHas(l, In(s), h);
      WithoutAbsent(Keep(l, In(s)), h);
    }
  }

  /** The larger queue, cut in front of a blob of the smaller one. */
  lemma CutAt(s: seq<Hash>, l: seq<Hash>, k: nat) returns (a: seq<Hash>, rest: seq<Hash>)
    requires Within(s, l) && Distinct(l) && k < |s|
    ensures l == a + rest && Keep(rest, In(s)) == s[k..]
  {
    hide Keep, Distinct;
    WithinHas(s, l, s[k]);
    KeepDistinct(l, In(s));
    var b;
    a, b := SplitAt(l, s[k]);
    rest := [s[k]] + b;
    assert l == a + rest;
    KeepConcat(a, rest, In(s));
    KeepCons(s[k], b, In(s));
    SplitHere(s, k, Keep(a, In(s)), Keep(b, In(s)));
  }

  /** What the larger queue has from there on fits. */
  lemma CutFits(s: seq<Hash>, k: nat, a: seq<Hash>, rest: seq<Hash>, size: Sizes, large: nat)
    requires k < |s| && Keep(rest, In(s)) == s[k..]
    requires Bytes(s[k..], size) + Bytes(Keep(a + rest, NotIn(s)), size) <= large
    ensures Bytes(rest, size) <= large
  {
    hide Keep, Bytes;
    KeepConcat(a, rest, NotIn(s));
    BytesSplitBy(rest, s, size);
    BytesConcat(Keep(a, NotIn(s)), Keep(rest, NotIn(s)), size);
  }

  /** So its longest run begins no later. */
  lemma RunCovers(a: seq<Hash>, rest: seq<Hash>, size: Sizes, large: nat) returns (front: seq<Hash>)
    requires Bytes(rest, size) <= large
    ensures LongestRun(a + rest, size, large) == front + rest
    ensures |front| <= |a| && front == a[|a| - |front|..]
  {
    hide Bytes, LongestRun;
    var l := a + rest;
    var run := LongestRun(l, size, large);
    LongestRunIs(l, size, large);
    assert l[|a|..] == rest;
    front := run[..|run| - |rest|];
    assert run == front + rest;
  }

  /** Ends of both queues: if all that the larger one has from the smaller one's first blob on fits, it keeps that. */
  lemma EndsKeepWithin(s: seq<Hash>, l: seq<Hash>, k: nat, size: Sizes, large: nat)
    requires Within(s, l) && Distinct(l) && k < |s|
    requires Bytes(s[k..], size) + Bytes(Keep(l, NotIn(s)), size) <= large
    ensures Within(s[k..], LongestRun(l, size, large))
  {
    hide Keep, Distinct, LongestRun, Bytes, Within;
    var a, rest := CutAt(s, l, k);
    CutFits(s, k, a, rest, size, large);
    var front := RunCovers(a, rest, size, large);
    KeptOfEnd(s, k, l, a, front, rest);
  }

  /** The two ways to cut the kept blobs of `l` at `s[k]` are one. */
  lemma SplitHere(s: seq<Hash>, k: nat, p: seq<Hash>, q: seq<Hash>)
    requires k < |s| && Distinct(s) && s == p + ([s[k]] + q)
    ensures p == s[..k] && [s[k]] + q == s[k..]
  {
    var h := s[k];
    assert s == s[..k] + [h] + s[k + 1..];
    assert s == p + [h] + q;
    DistinctConcat(s[..k] + [h], s[k + 1..]);
    DistinctConcat(s[..k], [h]);
    DistinctConcat(p + [h], q);
    DistinctConcat(p, [h]);
    assert h in [h];
    SplitIsUnique(s[..k], h, s[k + 1..], p, q);
  }

  lemma KeptOfEnd(s: seq<Hash>, k: nat, l: seq<Hash>, a: seq<Hash>, front: seq<Hash>, rest: seq<Hash>)
    requires k < |s| && Distinct(l) && l == a + rest && Keep(rest, In(s)) == s[k..]
    requires |front| <= |a| && front == a[|a| - |front|..]
    ensures Within(s[k..], front + rest)
  {
    hide Keep, Distinct;
    var end := s[k..];
    DistinctConcat(a, rest);
    KeepConcat(front, rest, In(end));
    forall i | 0 <= i < |front| ensures front[i] !in end {
      assert front[i] == a[|a| - |front| + i];
      KeepHas(rest, In(s), front[i]);
    }
    KeepNone(front, In(end));
    forall h | h in rest ensures (h in s) == (h in end) {
      KeepHas(rest, In(s), h);
      assert h in end ==> h in s;
    }
    KeepSame(rest, In(end), In(s));
  }

  // ---------------------------------------------------------------- one request

  /** Sound, sized and within the budget. */
  ghost predicate Healthy(v: Index, size: Sizes, budget: nat) {
    Valid(v) && Sized(v, size) && v.total <= budget
  }

  lemma HealthyHolds(v: Index, size: Sizes, budget: nat)
    requires Healthy(v, size, budget)
    ensures HoldsLongestRun(v, v.lru, size, budget) && Distinct(v.lru) && Bytes(v.lru, size) <= budget
    ensures forall h :: h in v.lru ==> size(h) <= budget
  {
    hide Distinct, Total;
    TotalIsBytes(v.lru, v.entries, size);
    forall h | h in v.lru ensures size(h) <= budget {
      var a, b := SplitAt(v.lru, h);
      BytesSplitPlain(a, h, b, size);
    }
  }

  lemma ServeIsHealthy(v: Index, r: Request, size: Sizes, budget: nat)
    requires Healthy(v, size, budget)
    ensures Healthy(Serve(v, r, size, budget), size, budget)
    ensures Serve(v, r, size, budget).lru
         == if IsAccess(v, r, size, budget) then LongestRun(MoveToBack(v.lru, r.hash), size, budget) else v.lru
  {
    hide Distinct, Total, LongestRun, MoveToBack, Serve, Valid, IsAccess;
    HealthyHolds(v, size, budget);
    ServeHoldsLongestRun(v, v.lru, r, size, budget);
  }

  lemma StaysWithin(s: seq<Hash>, l: seq<Hash>, h: Hash)
    requires Within(s, l) && Distinct(l) && h !in s
    ensures Within(s, MoveToBack(l, h))
  {
    hide Keep, Distinct, Without;
    KeepWithout(l, h, s);
    WithoutAbsent(s, h);
    KeepConcat(Without(l, h), [h], In(s));
    KeepOne(h, In(s));
  }

  lemma ExtraGrows(s: seq<Hash>, l: seq<Hash>, h: Hash, size: Sizes)
    requires h !in s && h !in l
    ensures Bytes(Keep(MoveToBack(l, h), NotIn(s)), size) == Bytes(Keep(l, NotIn(s)), size) + size(h)
  {
    hide Keep, Bytes, Without;
    WithoutAbsent(l, h);
    KeepConcat(l, [h], NotIn(s));
    KeepOne(h, NotIn(s));
    BytesConcat(Keep(l, NotIn(s)), [h], size);
    BytesOne(h, size);
  }

  lemma StillSeparable(extra: seq<Hash>, fewer: seq<Hash>, size: Sizes, small: nat, large: nat)
    requires Separable(extra, size, small, large) && forall h :: h in fewer && size(h) <= small ==> h in extra
    ensures Separable(fewer, size, small, large)
  {
    hide PushesOut;
    if h :| h in extra && size(h) <= small {
      var gone, rest :| PushesOut(gone, rest, size, small, large) && Includes(gone, extra, size, small);
      assert Includes(gone, fewer, size, small);
    }
  }

  /** What the smaller cache holds, and what the larger one holds in addition. */
  ghost predicate Paired(s: seq<Hash>, l: seq<Hash>, size: Sizes, small: nat, large: nat) {
    && Within(s, l) && Distinct(s) && Distinct(l)
    && Bytes(s, size) <= small && Bytes(l, size) <= large && (forall h :: h in s ==> size(h) <= small)
    && Separable(Keep(l, NotIn(s)), size, small, large)
  }

  lemma FewerBytes(s: seq<Hash>, t: seq<Hash>, size: Sizes)
    requires Distinct(s) && forall h :: h in s ==> h in t
    ensures Bytes(s, size) <= Bytes(t, size)
  {
    SpreadBytes(s, t, [], size);
    NothingWeighsNothing(size);
  }

  /** Parts of both queues are apart and fit. */
  lemma PartsFit(s: seq<Hash>, l: seq<Hash>, part: seq<Hash>, extra: seq<Hash>, size: Sizes, small: nat, large: nat)
    requires Paired(s, l, size, small, large) && Distinct(part) && Distinct(extra)
    requires (forall h :: h in part ==> h in s) && (forall h :: h in extra ==> h in l && h !in s)
    ensures Apart(part, extra) && Bytes(part, size) <= small && Bytes(part, size) + Bytes(extra, size) <= large
    ensures Separable(extra, size, small, large)
  {
    hide Keep, Distinct, Bytes, Separable;
    BytesSplitBy(l, s, size);
    FewerBytes(part, s, size);
    forall h | h in extra ensures h in Keep(l, NotIn(s)) {
      KeepHas(l, NotIn(s), h);
    }
    FewerBytes(extra, Keep(l, NotIn(s)), size);
    StillSeparable(Keep(l, NotIn(s)), extra, size, small, large);
  }

  /** The newest blob alone is in both queues. */
  lemma NewestWithin(l: seq<Hash>, h: Hash, size: Sizes, large: nat)
    requires Distinct(l) && size(h) <= large
    ensures Within([h], LongestRun(MoveToBack(l, h), size, large))
  {
    hide Keep, Distinct, LongestRun, Without;
    WithoutHas(l, h);
    LongestRunSnoc(Without(l, h), h, size, large);
    LongestRunIs(Without(l, h), size, large - size(h));
    var run := LongestRun(Without(l, h), size, large - size(h));
    forall x | x in run ensures x !in [h] {
      assert x in Without(l, h);
    }
    KeepConcat(run, [h], In([h]));
    KeepNone(run, In([h]));
    KeepOne(h, In([h]));
  }

  /** What the smaller queue is after `h` has been made most recent. */
  lemma KeptEnd(s: seq<Hash>, h: Hash, size: Sizes, small: nat) returns (k: nat, init: seq<Hash>)
    requires Distinct(s) && size(h) <= small
    ensures var t := MoveToBack(s, h);
      && k < |t| && LongestRun(t, size, small) == t[k..] == init + [h]
      && Distinct(init) && h !in init && (forall x :: x in init ==> x in s)
      && Bytes(init, size) + size(h) <= small && Bytes(t[k..], size) <= small
      && (k > 0 ==> size(t[k - 1]) + Bytes(t[k..], size) > small)
  {
    hide Distinct, Bytes, LongestRun, Without;
    var t := MoveToBack(s, h);
    LongestRunSnoc(Without(s, h), h, size, small);
    LongestRunIs(t, size, small);
    var run := LongestRun(t, size, small);
    k := |t| - |run|;
    init := LongestRun(Without(s, h), size, small - size(h));
    LongestRunIs(Without(s, h), size, small - size(h));
    WithoutHas(s, h);
    EndIsDistinct(Without(s, h), |Without(s, h)| - |init|);
    forall x | x in init ensures x in Without(s, h) {}
    if k > 0 {
      assert t[k - 1..] == [t[k - 1]] + t[k..];
      BytesConcat([t[k - 1]], t[k..], size);
      BytesOne(t[k - 1], size);
    }
  }

  /** A request that the smaller cache serves: the larger one then holds all that the smaller one keeps. */
  lemma BothAccess(s: seq<Hash>, l: seq<Hash>, h: Hash, size: Sizes, small: nat, large: nat)
    requires small <= large && RoomToReorder(size, small, large) && Paired(s, l, size, small, large) && size(h) <= small
    ensures Within(LongestRun(MoveToBack(s, h), size, small), LongestRun(MoveToBack(l, h), size, large))
  {
    hide Keep, Distinct, Bytes, LongestRun, MoveToBack, Within, Separable, Apart;
    var t, m := MoveToBack(s, h), MoveToBack(l, h);
    var k, init := KeptEnd(s, h, size, small);
    if init == [] {
      assert init + [h] == [h];
      NewestWithin(l, h, size, large);
    } else {
      MoveKeepsWithin(s, l, h);
      MoveToBackIsDistinct(s, h);
      MoveToBackIsDistinct(l, h);
      var extra := Keep(m, NotIn(t));
      KeepDistinct(m, NotIn(t));
      forall x ensures x in extra ==> x in l && x !in s && x != h {
        KeepHas(m, NotIn(t), x);
      }
      PartsFit(s, l, init, extra, size, small, large);
      assert Joins(h, init, extra, size, small, large);
      BytesConcat(init, [h], size);
      BytesOne(h, size);
      EndsKeepWithin(t, m, k, size, large);
    }
  }

  /** If the larger queue keeps what the smaller one drops, it keeps the last thing that the smaller one drops. */
  lemma LastDropped(t: seq<Hash>, m: seq<Hash>, a: seq<Hash>, b: seq<Hash>, k: nat, x: Hash)
    requires Within(t, m) && m == a + b && 0 < k <= |t| && x in t && x in b && x !in t[k..]
    ensures t[k - 1] in b
  {
    hide Keep;
    KeepConcat(a, b, In(t));
    KeepHas(b, In(t), x);
    var q := |Keep(a, In(t))|;
    assert t[q..] == Keep(b, In(t));
    assert t[k - 1] == t[q..][k - 1 - q];
    KeepHas(b, In(t), t[k - 1]);
  }

  /** The blobs that the smaller cache has just dropped are pushed out by what it keeps. */
  lemma JustPushedOut(t: seq<Hash>, kept: seq<Hash>, l: seq<Hash>, p: Hash, size: Sizes, small: nat, large: nat)
    requires Within(kept, l) && Distinct(kept) && Distinct(l) && Bytes(l, size) <= large
    requires p in l && p !in kept && size(p) <= small
    requires Bytes(kept, size) <= small < size(p) + Bytes(kept, size)
    ensures Separable(Keep(l, NotIn(kept)), size, small, large)
  {
    hide Keep, Distinct, Bytes, Fitting, Without;
    var extra := Keep(l, NotIn(kept));
    var gone := MoveToBack(Fitting(extra, size, small), p);
    KeepDistinct(l, NotIn(kept));
    FittingIsDistinct(extra, size, small);
    MoveToBackIsDistinct(Fitting(extra, size, small), p);
    forall x ensures x in gone <==> x in l && x !in kept && size(x) <= small {
      FittingHas(extra, size, small, x);
      KeepHas(l, NotIn(kept), x);
    }
    forall x | x in extra ensures x in l && x !in kept {
      KeepHas(l, NotIn(kept), x);
    }
    forall x | x in gone ensures x in extra {
      KeepHas(l, NotIn(kept), x);
    }
    FewerBytes(gone, extra, size);
    BytesSplitBy(l, kept, size);
    assert PushesOut(gone, kept, size, small, large);
    assert Includes(gone, extra, size, small);
  }

  /** And what the larger one holds in addition is separable again. */
  lemma BothSeparable(s: seq<Hash>, l: seq<Hash>, h: Hash, size: Sizes, small: nat, large: nat)
    requires small <= large && Paired(s, l, size, small, large) && size(h) <= small
    requires Within(LongestRun(MoveToBack(s, h), size, small), LongestRun(MoveToBack(l, h), size, large))
    ensures Separable(Keep(LongestRun(MoveToBack(l, h), size, large), NotIn(LongestRun(MoveToBack(s, h), size, small))),
                      size, small, large)
  {
    hide Keep, Distinct, Bytes, LongestRun, MoveToBack, Within, Separable;
    var t, m := MoveToBack(s, h), MoveToBack(l, h);
    var k, init := KeptEnd(s, h, size, small);
    var kept := t[k..];
    var a := RunIsEnd(m, size, large);
    var run := LongestRun(m, size, large);
    var extra := Keep(run, NotIn(kept));
    MoveKeepsWithin(s, l, h);
    MoveToBackIsDistinct(s, h);
    MoveToBackIsDistinct(l, h);
    DistinctConcat(a, run);
    if x :| x in extra && size(x) <= small && x !in Keep(l, NotIn(s)) {
      KeepHas(run, NotIn(kept), x);
      KeepHas(l, NotIn(s), x);
      assert x in m && x != h;
      assert k > 0;
      LastDropped(t, m, a, run, k, x);
      DroppedIsApart(t, k);
      JustPushedOut(t, kept, run, t[k - 1], size, small, large);
    } else {
      StillSeparable(Keep(l, NotIn(s)), extra, size, small, large);
    }
  }

  lemma DroppedIsApart(t: seq<Hash>, k: nat)
    requires Distinct(t) && 0 < k <= |t|
    ensures Distinct(t[k..]) && t[k - 1] !in t[k..]
  {
    hide Distinct;
    assert t == t[..k] + t[k..];
    DistinctConcat(t[..k], t[k..]);
    assert t[..k][k - 1] == t[k - 1];
  }

  /** A request that only the larger cache serves, by touching or by storing. */
  lemma LargeAccess(s: seq<Hash>, l: seq<Hash>, h: Hash, size: Sizes, small: nat, large: nat)
    requires RoomToReorder(size, small, large) && Paired(s, l, size, small, large) && h !in s
    requires h in l || small < size(h) <= large
    ensures Within(s, LongestRun(MoveToBack(l, h), size, large))
    ensures Separable(Keep(LongestRun(MoveToBack(l, h), size, large), NotIn(s)), size, small, large)
  {
    hide Keep, Distinct, Bytes, LongestRun, MoveToBack, Separable, Apart;
    var m := MoveToBack(l, h);
    MoveToBackIsDistinct(l, h);
    var a := RunIsEnd(m, size, large);
    var run := LongestRun(m, size, large);
    forall x | x in Keep(run, NotIn(s)) && size(x) <= small ensures x in Keep(l, NotIn(s)) {
      KeepHas(run, NotIn(s), x);
      KeepHas(l, NotIn(s), x);
      assert x in m;
    }
    StillSeparable(Keep(l, NotIn(s)), Keep(run, NotIn(s)), size, small, large);
    if s == [] {
      KeepNone(run, In(s));
    } else {
      StaysWithin(s, l, h);
      if h in l {
        BytesPermute(m, l, size);
        BytesSplitBy(m, s, size);
      } else {
        var extra := Keep(l, NotIn(s));
        KeepDistinct(l, NotIn(s));
        forall x ensures x in extra ==> x in l && x !in s {
          KeepHas(l, NotIn(s), x);
        }
        PartsFit(s, l, s, extra, size, small, large);
        assert Joins(h, s, extra, size, small, large);
        ExtraGrows(s, l, h, size);
      }
      assert s[0..] == s;
      EndsKeepWithin(s, m, 0, size, large);
    }
  }

  lemma HealthyPair(s: Index, l: Index, size: Sizes, small: nat, large: nat)
    requires Healthy(s, size, small) && Healthy(l, size, large) && Within(s.lru, l.lru)
    requires Separable(Keep(l.lru, NotIn(s.lru)), size, small, large)
    ensures Paired(s.lru, l.lru, size, small, large)
  {
    hide Distinct, Bytes, Keep, Separable, Healthy;
    HealthyHolds(s, size, small);
    HealthyHolds(l, size, large);
  }

  lemma StepStaysPaired(s: Index, l: Index, r: Request, size: Sizes, small: nat, large: nat)
    requires small <= large && RoomToReorder(size, small, large)
    requires Healthy(s, size, small) && Healthy(l, size, large) && Paired(s.lru, l.lru, size, small, large)
    ensures Paired(Serve(s, r, size, small).lru, Serve(l, r, size, large).lru, size, small, large)
  {
    hide Keep, Distinct, Bytes, LongestRun, MoveToBack, Within, Total, Serve, RoomToReorder, Separable, Healthy;
    var h := r.hash;
    ServeIsHealthy(s, r, size, small);
    ServeIsHealthy(l, r, size, large);
    HeldOrNot(s, l, h, size, small, large);
    if IsAccess(s, r, size, small) {
      BothAccess(s.lru, l.lru, h, size, small, large);
      BothSeparable(s.lru, l.lru, h, size, small, large);
    } else if IsAccess(l, r, size, large) {
      LargeAccess(s.lru, l.lru, h, size, small, large);
    }
    HealthyPair(Serve(s, r, size, small), Serve(l, r, size, large), size, small, large);
  }

  lemma HeldOrNot(s: Index, l: Index, h: Hash, size: Sizes, small: nat, large: nat)
    requires Healthy(s, size, small) && Healthy(l, size, large) && Paired(s.lru, l.lru, size, small, large)
    ensures h in s.entries <==> h in s.lru
    ensures h in l.entries <==> h in l.lru
    ensures h in s.lru ==> h in l.lru && size(h) <= small
  {
    hide Keep, Distinct, Total;
    if h in s.lru { WithinHas(s.lru, l.lru, h); }
  }

  // ---------------------------------------------------------------- every trace

  lemma {:induction false} RunsArePaired(requests: seq<Request>, size: Sizes, small: nat, large: nat)
    requires small <= large && RoomToReorder(size, small, large)
    ensures Paired(Run(requests, size, small).lru, Run(requests, size, large).lru, size, small, large)
  {
    hide Serve, RoomToReorder, Healthy, Paired;
    if requests == [] {
      NothingIsPaired(size, small, large);
    } else {
      var init, r := requests[..|requests| - 1], requests[|requests| - 1];
      RunsArePaired(init, size, small, large);
      RunIsHealthy(init, size, small);
      RunIsHealthy(init, size, large);
      StepStaysPaired(Run(init, size, small), Run(init, size, large), r, size, small, large);
    }
  }

  lemma NothingIsPaired(size: Sizes, small: nat, large: nat)
    ensures Paired([], [], size, small, large)
  {
  }

  lemma RunIsHealthy(requests: seq<Request>, size: Sizes, budget: nat)
    ensures Healthy(Run(requests, size, budget), size, budget)
  {
    hide Run, Recency, Accesses, LongestRun, Valid;
    RunHoldsLongestRun(requests, size, budget);
  }

  lemma QueueIsEntries(v: Index, size: Sizes, budget: nat, h: Hash)
    requires Healthy(v, size, budget)
    ensures h in v.lru <==> h in v.entries
  {
    hide Distinct, Total;
  }

  /**
    On any trace whatever, misses filled or not: with room to reorder, the larger cache's queue has all of the smaller
    one's in the same order, so the smaller cache holds nothing that the larger one lacks.
   */
  lemma RoomHoldsMore(requests: seq<Request>, size: Sizes, small: nat, large: nat)
    requires small <= large && RoomToReorder(size, small, large)
    ensures Within(Run(requests, size, small).lru, Run(requests, size, large).lru)
    ensures Run(requests, size, small).entries.Keys <= Run(requests, size, large).entries.Keys
  {
    hide Run, RoomToReorder, Healthy, Keep;
    RunsArePaired(requests, size, small, large);
    RunIsHealthy(requests, size, small);
    RunIsHealthy(requests, size, large);
    var s, l := Run(requests, size, small), Run(requests, size, large);
    forall h | h in s.entries.Keys ensures h in l.entries.Keys {
      QueueIsEntries(s, size, small, h);
      QueueIsEntries(l, size, large, h);
      WithinHas(s.lru, l.lru, h);
    }
  }

  /** Lookups that hit, whether or not a miss would have been filled. */
  function Found(requests: seq<Request>, size: Sizes, budget: nat): nat {
    if requests == [] then 0
    else
      var init, r := requests[..|requests| - 1], requests[|requests| - 1];
      Found(init, size, budget) + if !r.Put? && r.hash in Run(init, size, budget).entries then 1 else 0
  }

  /** And so a larger budget never gets fewer hits on any trace, counting fetches or all lookups. */
  lemma {:induction false} RoomHitsMore(requests: seq<Request>, size: Sizes, small: nat, large: nat)
    requires small <= large && RoomToReorder(size, small, large)
    ensures Hits(requests, size, small) <= Hits(requests, size, large)
    ensures Found(requests, size, small) <= Found(requests, size, large)
  {
    hide Run, RoomToReorder, Within;
    if requests != [] {
      var init := requests[..|requests| - 1];
      RoomHitsMore(init, size, small, large);
      RoomHoldsMore(init, size, small, large);
    }
  }

  // ---------------------------------------------------------------- when there is such room

  lemma {:induction false} EqualBytes(s: seq<Hash>, size: Sizes, unit: nat)
    requires forall h :: size(h) == unit
    ensures Bytes(s, size) == |s| * unit
  {
    if s != [] { EqualBytes(s[1..], size, unit); }
  }

  lemma {:induction false} DistinctIncluded(s: seq<Hash>, t: seq<Hash>)
    requires Distinct(s) && Distinct(t) && forall h :: h in s ==> h in t
    ensures |s| <= |t|
  {
    if s != [] {
      var a, b := SplitAt(t, s[0]);
      WithoutHas(t, s[0]);
      DistinctIncluded(s[1..], Without(t, s[0]));
    }
  }

  /** Blobs of one size. */
  lemma EqualSizesHaveRoom(size: Sizes, unit: nat, small: nat, large: nat)
    requires small <= large && forall h :: size(h) == unit
    ensures RoomToReorder(size, small, large)
  {
    hide Distinct, Bytes;
    forall held, extra, h | Joins(h, held, extra, size, small, large)
      ensures Bytes(held, size) + Bytes(extra, size) + size(h) <= large
    {
      EqualBytes(held, size, unit);
      EqualBytes(extra, size, unit);
      Times(1, |held|, unit);
      if extra != [] {
        assert extra[0] in extra;
        var gone, rest :| PushesOut(gone, rest, size, small, large) && Includes(gone, extra, size, small);
        EqualBytes(gone, size, unit);
        EqualBytes(rest, size, unit);
        DistinctIncluded(extra, gone);
        Counts(|held|, |extra|, |gone|, |rest|, unit, small, large);
      }
    }
  }

  lemma Times(a: nat, b: nat, unit: nat)
    requires a <= b
    ensures a * unit <= b * unit
  {
  }

  lemma Counts(held: nat, extra: nat, gone: nat, rest: nat, unit: nat, small: nat, large: nat)
    requires extra <= gone && held * unit + unit <= small < unit + rest * unit && gone * unit + rest * unit <= large
    ensures held * unit + extra * unit + unit <= large
  {
    Times(extra, gone, unit);
    if held < rest {
      Times(held + 1, rest, unit);
      assert (held + 1) * unit == held * unit + unit;
    } else {
      Times(rest, held, unit);
    }
  }

  /** All blobs that the larger cache can store fit into it together. */
  ghost predicate AllFitTogether(size: Sizes, large: nat) {
    forall all :: Distinct(all) && (forall h :: h in all ==> size(h) <= large) ==> Bytes(all, size) <= large
  }

  lemma AllTogetherHaveRoom(size: Sizes, small: nat, large: nat)
    requires small <= large && AllFitTogether(size, large)
    ensures RoomToReorder(size, small, large)
  {
    hide Distinct, Bytes, Separable;
    forall held, extra, h | Joins(h, held, extra, size, small, large)
      ensures Bytes(held, size) + Bytes(extra, size) + size(h) <= large
    {
      forall x | x in held ensures size(x) <= large { FitsWithin(held, x, size); }
      forall x | x in extra ensures size(x) <= large { FitsWithin(extra, x, size); }
      DistinctConcat(held, extra);
      DistinctOne(h);
      DistinctConcat(held + extra, [h]);
      BytesConcat(held, extra, size);
      BytesConcat(held + extra, [h], size);
      BytesOne(h, size);
    }
  }
}

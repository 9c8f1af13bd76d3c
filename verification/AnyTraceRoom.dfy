/** The room of `UnfilledMisses` is needed, too: the exact condition for budget monotonicity on any trace whatever. */
module AnyTraceRoom {
  import opened Blake
  import opened Lru
  import opened RecentRun
  import opened BudgetMonotonicity
  import opened UnfilledMisses

  // ---------------------------------------------------------------- too little room

  function Puts(s: seq<Hash>): seq<Request> {
    seq(|s|, i requires 0 <= i < |s| => Request.Put(s[i]))
  }

  function Gets(s: seq<Hash>): seq<Request> {
    seq(|s|, i requires 0 <= i < |s| => Request.Get(s[i]))
  }

  lemma RunSnoc(requests: seq<Request>, r: Request, size: Sizes, budget: nat)
    ensures Run(requests + [r], size, budget) == Serve(Run(requests, size, budget), r, size, budget)
    ensures Hits(requests + [r], size, budget)
         == Hits(requests, size, budget) + if r.Fetch? && r.hash in Run(requests, size, budget).entries then 1 else 0
  {
    hide Serve;
    assert (requests + [r])[..|requests|] == requests;
  }

  lemma PutsSnoc(a: seq<Request>, s: seq<Hash>)
    requires s != []
    ensures a + Puts(s) == a + Puts(s[..|s| - 1]) + [Request.Put(s[|s| - 1])]
    ensures a + Gets(s) == a + Gets(s[..|s| - 1]) + [Request.Get(s[|s| - 1])]
  {
  }

  predicate EndsIn(s: seq<Hash>, end: seq<Hash>) {
    |end| <= |s| && s[|s| - |end|..] == end
  }

  lemma EndHas(s: seq<Hash>, end: seq<Hash>)
    requires EndsIn(s, end)
    ensures s == s[..|s| - |end|] + end && forall h :: h in end ==> h in s
  {
    forall h | h in end ensures h in s {
      var i :| 0 <= i < |end| && end[i] == h;
      assert s[|s| - |end| + i] == h;
    }
  }

  /** A blob that fits beside the end of the queue joins it. */
  lemma AccessJoins(s: seq<Hash>, end: seq<Hash>, h: Hash, size: Sizes, budget: nat)
    requires Distinct(s) && EndsIn(s, end) && h !in end && Bytes(end, size) + size(h) <= budget
    ensures EndsIn(LongestRun(MoveToBack(s, h), size, budget), end + [h])
  {
    hide Distinct, Bytes, LongestRun, Without;
    EndHas(s, end);
    var b := MovedPast(s, end, h);
    BytesConcat(end, [h], size);
    BytesOne(h, size);
    var front := RunCovers(b, end + [h], size, budget);
  }

  lemma MovedPast(s: seq<Hash>, end: seq<Hash>, h: Hash) returns (b: seq<Hash>)
    requires Distinct(s) && EndsIn(s, end) && h !in end
    ensures MoveToBack(s, h) == b + (end + [h])
  {
    hide Distinct, Without;
    EndHas(s, end);
    var a := s[..|s| - |end|];
    if h in a {
      WithoutOfStart(a, end, h);
      b := Without(a, h);
      assert b + end + [h] == b + (end + [h]);
    } else {
      WithoutAbsent(s, h);
      b := a;
      assert a + end + [h] == a + (end + [h]);
    }
  }

  lemma PutJoins(a: seq<Request>, end: seq<Hash>, h: Hash, size: Sizes, budget: nat)
    requires EndsIn(Run(a, size, budget).lru, end) && h !in end && Bytes(end, size) + size(h) <= budget
    ensures EndsIn(Run(a + [Request.Put(h)], size, budget).lru, end + [h])
  {
    hide Distinct, Bytes, LongestRun, MoveToBack, Run, Serve, EndsIn, Healthy;
    RunSnoc(a, Request.Put(h), size, budget);
    RunIsHealthy(a, size, budget);
    HealthyHolds(Run(a, size, budget), size, budget);
    ServeIsHealthy(Run(a, size, budget), Request.Put(h), size, budget);
    AccessJoins(Run(a, size, budget).lru, end, h, size, budget);
  }

  lemma {:induction false} PutsJoin(a: seq<Request>, end: seq<Hash>, s: seq<Hash>, size: Sizes, budget: nat)
    requires EndsIn(Run(a, size, budget).lru, end) && Distinct(end + s) && Bytes(end, size) + Bytes(s, size) <= budget
    ensures EndsIn(Run(a + Puts(s), size, budget).lru, end + s)
    decreases |s|
  {
    hide Distinct, Bytes, Run, EndsIn;
    if s == [] {
      assert a + Puts(s) == a && end + s == end;
    } else {
      var init, h := s[..|s| - 1], s[|s| - 1];
      assert s == init + [h] && end + s == end + init + [h];
      DistinctConcat(end + init, [h]);
      BytesConcat(init, [h], size);
      BytesConcat(end, init, size);
      BytesOne(h, size);
      PutsJoin(a, end, init, size, budget);
      PutsSnoc(a, s);
      PutJoins(a + Puts(init), end + init, h, size, budget);
    }
  }

  /** Blobs that are too large are not stored. */
  lemma {:induction false} PutsPass(a: seq<Request>, s: seq<Hash>, size: Sizes, budget: nat)
    requires forall h :: h in s ==> size(h) > budget
    ensures Run(a + Puts(s), size, budget) == Run(a, size, budget)
    decreases |s|
  {
    hide Run;
    if s == [] {
      assert a + Puts(s) == a;
    } else {
      var init := s[..|s| - 1];
      PutsPass(a, init, size, budget);
      PutsSnoc(a, s);
      RunSnoc(a + Puts(init), Request.Put(s[|s| - 1]), size, budget);
    }
  }

  /** Lookups of what is not there change nothing. */
  lemma {:induction false} GetsMiss(a: seq<Request>, s: seq<Hash>, size: Sizes, budget: nat)
    requires forall h :: h in s ==> h !in Run(a, size, budget).entries
    ensures Run(a + Gets(s), size, budget) == Run(a, size, budget)
    decreases |s|
  {
    hide Run;
    if s == [] {
      assert a + Gets(s) == a;
    } else {
      var init := s[..|s| - 1];
      GetsMiss(a, init, size, budget);
      PutsSnoc(a, s);
      RunSnoc(a + Gets(init), Request.Get(s[|s| - 1]), size, budget);
    }
  }

  /** Lookups of what is there move it to the back, in their order. */
  lemma {:induction false} GetsMove(a: seq<Request>, older: seq<Hash>, end: seq<Hash>, s: seq<Hash>, size: Sizes,
                                    budget: nat)
    returns (left: seq<Hash>)
    requires Run(a, size, budget).lru == older + end && Distinct(s) && forall h :: h in s ==> h in older
    ensures Run(a + Gets(s), size, budget).lru == left + (end + s)
    ensures forall h :: h in older && h !in s ==> h in left
    decreases |s|
  {
    hide Run, Distinct;
    if s == [] {
      assert a + Gets(s) == a && end + s == end;
      left := older;
    } else {
      var init, h := s[..|s| - 1], s[|s| - 1];
      assert s == init + [h];
      DistinctConcat(init, [h]);
      assert h !in init && h in older;
      var c := GetsMove(a, older, end, init, size, budget);
      PutsSnoc(a, s);
      left := GetMoves(a + Gets(init), c, end + init, h, size, budget);
      assert end + init + [h] == end + s;
    }
  }

  lemma GetMoves(a: seq<Request>, older: seq<Hash>, end: seq<Hash>, h: Hash, size: Sizes, budget: nat)
    returns (left: seq<Hash>)
    requires Run(a, size, budget).lru == older + end && h in older
    ensures Run(a + [Request.Get(h)], size, budget).lru == left + (end + [h])
    ensures forall x :: x in older && x != h ==> x in left
  {
    hide Run, Distinct, Without, Healthy;
    var v := Run(a, size, budget);
    RunSnoc(a, Request.Get(h), size, budget);
    RunIsHealthy(a, size, budget);
    HealthyHolds(v, size, budget);
    QueueIsEntries(v, size, budget, h);
    DistinctConcat(older, end);
    PositionFinds(v.lru, h);
    WithoutOfStart(older, end, h);
    left := Without(older, h);
    WithoutHas(older, h);
    assert left + end + [h] == left + (end + [h]);
  }

  /** What is stored one after the other, all of it small enough. */
  lemma StoredInOrder(s: seq<Hash>, size: Sizes, budget: nat)
    requires Distinct(s) && forall h :: h in s ==> size(h) <= budget
    ensures Run(Puts(s), size, budget).lru == LongestRun(s, size, budget)
  {
    hide Run, LongestRun, Distinct, Recency;
    assert forall i :: 0 <= i < |s| ==> s[i] in s;
    FilledAccesses(Puts(s), size, budget, budget);
    PutsHashes(s);
    RecencyOfDistinct(s);
    RunHoldsLongestRun(Puts(s), size, budget);
  }

  lemma {:induction false} PutsHashes(s: seq<Hash>)
    ensures HashesOf(Puts(s)) == s
  {
    if s != [] {
      var init := s[..|s| - 1];
      PutsHashes(init);
      assert Puts(s)[..|s| - 1] == Puts(init);
    }
  }

  lemma EntryServed(v: Index, r: Request, size: Sizes, budget: nat, h: Hash)
    requires Valid(v) && h in Serve(v, r, size, budget).entries
    ensures h in v.entries || (!r.Get? && r.hash == h)
  {
    hide Inserted, Valid, Touched;
    TouchedIsValid(v, r.hash);
    if size(r.hash) <= budget { InsertMeans(v, r.hash, size(r.hash), budget); }
  }

  predicate NoFetches(requests: seq<Request>) {
    forall i :: 0 <= i < |requests| ==> !requests[i].Fetch?
  }

  lemma {:induction false} NoFetchesNoHits(requests: seq<Request>, size: Sizes, budget: nat)
    requires NoFetches(requests)
    ensures Hits(requests, size, budget) == 0
  {
    hide Run;
    if requests != [] { NoFetchesNoHits(requests[..|requests| - 1], size, budget); }
  }

  ghost predicate Parts(held: seq<Hash>, light: seq<Hash>, heavy: seq<Hash>) {
    held != [] && Apart(held, light) && Apart(held, heavy) && Apart(light, heavy)
  }

  /** In the larger cache, `held[0]` is then the oldest of all, and the smaller one never sees `light`. */
  function Reorder(start: seq<Request>, held: seq<Hash>, light: seq<Hash>, heavy: seq<Hash>): seq<Request>
    requires held != []
  {
    start + Gets(light) + Puts([held[0]]) + Gets(light) + Puts(held[1..]) + Puts(heavy)
  }

  lemma PartsOrdered(held: seq<Hash>, light: seq<Hash>, heavy: seq<Hash>, size: Sizes)
    requires Parts(held, light, heavy)
    ensures var d, rest := [held[0]], held[1..];
      && Distinct(light + d) && Distinct(d + light + rest) && Distinct(d + light + rest + heavy)
      && Bytes(d + light + rest + heavy, size) == Bytes(held, size) + Bytes(light, size) + Bytes(heavy, size)
      && Bytes(d + light + rest, size) == Bytes(held, size) + Bytes(light, size)
      && Bytes(d + light, size) == Bytes(light, size) + Bytes(d, size)
      && Bytes(held, size) == Bytes(d, size) + Bytes(rest, size)
  {
    hide Distinct, Bytes;
    var d, rest := [held[0]], held[1..];
    assert held == d + rest;
    DistinctConcat(d, rest);
    DistinctConcat(light, d);
    DistinctConcat(d, light);
    DistinctConcat(d + light, rest);
    DistinctConcat(d + light + rest, heavy);
    BytesConcat(d, rest, size);
    BytesConcat(d, light, size);
    BytesConcat(d + light, rest, size);
    BytesConcat(d + light + rest, heavy, size);
  }

  lemma IsEnd(a: seq<Hash>, end: seq<Hash>)
    ensures EndsIn(a + end, end)
  {
  }

  lemma LargeReorders(start: seq<Request>, held: seq<Hash>, light: seq<Hash>, heavy: seq<Hash>, size: Sizes, large: nat)
    requires Parts(held, light, heavy) && forall x :: x in light ==> x in Run(start, size, large).lru
    requires Bytes(held, size) + Bytes(light, size) + Bytes(heavy, size) <= large
    ensures EndsIn(Run(Reorder(start, held, light, heavy), size, large).lru, [held[0]] + light + held[1..] + heavy)
  {
    hide Distinct, Bytes, Run, EndsIn, Puts, Gets;
    var d, rest := [held[0]], held[1..];
    PartsOrdered(held, light, heavy, size);
    var all := Run(start, size, large).lru;
    assert all + [] == all && [] + light == light;
    var left := GetsMove(start, all, [], light, size, large);
    IsEnd(left, light);
    var t1 := start + Gets(light);
    PutsJoin(t1, light, d, size, large);
    var t2 := t1 + Puts(d);
    EndHas(Run(t2, size, large).lru, light + d);
    var a := Run(t2, size, large).lru[..|Run(t2, size, large).lru| - |light + d|];
    assert a + (light + d) == (a + light) + d;
    var b := GetsMove(t2, a + light, d, light, size, large);
    IsEnd(b, d + light);
    var t3 := t2 + Gets(light);
    PutsJoin(t3, d + light, rest, size, large);
    PutsJoin(t3 + Puts(rest), d + light + rest, heavy, size, large);
  }

  lemma PutDrops(a: seq<Request>, end: seq<Hash>, h: Hash, size: Sizes, budget: nat)
    requires EndsIn(Run(a, size, budget).lru, end) && end != [] && h !in end
    requires size(h) <= budget < Bytes(end, size) + size(h)
    ensures end[0] !in Run(a + [Request.Put(h)], size, budget).entries
  {
    hide Distinct, Bytes, LongestRun, MoveToBack, Run, Serve, EndsIn, Healthy;
    var v, r := Run(a, size, budget), Request.Put(h);
    RunSnoc(a, r, size, budget);
    RunIsHealthy(a, size, budget);
    HealthyHolds(v, size, budget);
    ServeIsHealthy(v, r, size, budget);
    var b := MovedPast(v.lru, end, h);
    BytesConcat(end, [h], size);
    BytesOne(h, size);
    FullRunIgnoresPast(b, end + [h], size, budget);
    LongestRunIs(end + [h], size, budget);
    MoveToBackIsDistinct(v.lru, h);
    DistinctConcat(b, end + [h]);
    var run := LongestRun(end + [h], size, budget);
    FirstIsOut(end + [h], run);
    QueueIsEntries(Serve(v, r, size, budget), size, budget, end[0]);
  }

  lemma FirstIsOut(s: seq<Hash>, run: seq<Hash>)
    requires Distinct(s) && |run| < |s| && run == s[|s| - |run|..]
    ensures s[0] !in run
  {
    hide Distinct;
    assert s == [s[0]] + s[1..];
    DistinctConcat([s[0]], s[1..]);
    forall x | x in run ensures x in s[1..] {
      var i :| 0 <= i < |run| && run[i] == x;
      assert s[1..][|s| - |run| + i - 1] == x;
    }
  }

  lemma SmallReorders(start: seq<Request>, held: seq<Hash>, light: seq<Hash>, heavy: seq<Hash>, size: Sizes, small: nat)
    requires Parts(held, light, heavy) && forall x :: x in light ==> x !in Run(start, size, small).entries
    requires Bytes(held, size) <= small && forall x :: x in heavy ==> size(x) > small
    ensures EndsIn(Run(Reorder(start, held, light, heavy), size, small).lru, held)
  {
    hide Distinct, Bytes, Run, EndsIn, Puts, Gets, Serve, Healthy;
    var d, rest := [held[0]], held[1..];
    PartsOrdered(held, light, heavy, size);
    assert d + rest == held && [] + d == d;
    NothingWeighsNothing(size);
    var t1 := start + Gets(light);
    GetsMiss(start, light, size, small);
    IsEnd(Run(t1, size, small).lru, []);
    assert Run(t1, size, small).lru + [] == Run(t1, size, small).lru;
    DistinctConcat(d, rest);
    PutsJoin(t1, [], d, size, small);
    var t2 := t1 + Puts(d);
    OnePut(t1, held[0]);
    RunSnoc(t1, Request.Put(held[0]), size, small);
    RunIsHealthy(t1, size, small);
    forall x | x in light ensures x !in Run(t2, size, small).entries {
      if x in Run(t2, size, small).entries {
        HealthyIsValid(Run(t1, size, small), size, small);
        EntryServed(Run(t1, size, small), Request.Put(held[0]), size, small, x);
      }
    }
    GetsMiss(t2, light, size, small);
    var t3 := t2 + Gets(light);
    PutsJoin(t3, d, rest, size, small);
    PutsPass(t3 + Puts(rest), heavy, size, small);
  }

  lemma OnePut(a: seq<Request>, h: Hash)
    ensures a + Puts([h]) == a + [Request.Put(h)]
  {
  }

  lemma HealthyIsValid(v: Index, size: Sizes, budget: nat)
    requires Healthy(v, size, budget)
    ensures Valid(v)
  {
  }

  lemma StillThere(a: seq<Request>, held: seq<Hash>, h: Hash, size: Sizes, small: nat)
    requires EndsIn(Run(a, size, small).lru, held) && held != [] && h !in held
    requires size(h) > small || Bytes(held, size) + size(h) <= small
    ensures held[0] in Run(a + [Request.Put(h)], size, small).entries
  {
    hide Distinct, Bytes, Run, EndsIn, Serve, Healthy;
    var b := a + [Request.Put(h)];
    if size(h) > small {
      PutsPass(a, [h], size, small);
      OnePut(a, h);
      EndHas(Run(b, size, small).lru, held);
    } else {
      PutJoins(a, held, h, size, small);
      EndHas(Run(b, size, small).lru, held + [h]);
      assert (held + [h])[0] == held[0];
    }
    RunIsHealthy(b, size, small);
    QueueIsEntries(Run(b, size, small), size, small, held[0]);
  }

  /** A start after which the larger cache holds these blobs and the smaller one does not. */
  lemma Separated(extra: seq<Hash>, size: Sizes, small: nat, large: nat) returns (start: seq<Request>)
    requires small <= large && Separable(extra, size, small, large)
    ensures NoFetches(start)
    ensures forall x :: x in extra && size(x) <= small ==>
      x in Run(start, size, large).lru && x !in Run(start, size, small).entries
  {
    hide Distinct, Bytes, Run, Healthy, LongestRun;
    if h :| h in extra && size(h) <= small {
      var gone, rest :| PushesOut(gone, rest, size, small, large) && Includes(gone, extra, size, small);
      start := Puts(gone + rest);
      DistinctConcat(gone, rest);
      BytesConcat(gone, rest, size);
      BytesConcat([gone[|gone| - 1]], rest, size);
      BytesOne(gone[|gone| - 1], size);
      forall x | x in rest ensures size(x) <= small {
        FitsWithin(rest, x, size);
      }
      StoredInOrder(gone + rest, size, large);
      StoredInOrder(gone + rest, size, small);
      WholeRun(gone + rest, size, large);
      WholeRun(rest, size, small);
      OlderDoesNotMatter(gone, rest, size, small);
      RunIsHealthy(start, size, small);
      forall x | x in extra && size(x) <= small ensures x !in Run(start, size, small).entries {
        QueueIsEntries(Run(start, size, small), size, small, x);
      }
    } else {
      start := [];
    }
  }

  lemma WholeRun(s: seq<Hash>, size: Sizes, budget: nat)
    requires Bytes(s, size) <= budget
    ensures LongestRun(s, size, budget) == s
  {
  }

  lemma PutsAreNoFetches(start: seq<Request>, held: seq<Hash>, light: seq<Hash>, heavy: seq<Hash>, h: Hash)
    requires NoFetches(start) && held != []
    ensures NoFetches(Reorder(start, held, light, heavy) + [Request.Put(h)])
  {
  }

  /** Without the room there is a trace on which the larger cache gets no hit and the smaller one does. */
  lemma TooLittleRoom(h: Hash, held: seq<Hash>, extra: seq<Hash>, size: Sizes, small: nat, large: nat)
    returns (requests: seq<Request>)
    requires small <= large && Joins(h, held, extra, size, small, large)
    requires Bytes(held, size) + Bytes(extra, size) + size(h) > large
    ensures NoFetches(requests)
    ensures held[0] in Run(requests, size, small).entries && held[0] !in Run(requests, size, large).entries
  {
    hide Distinct, Bytes, Run, Fitting, Oversized, Separable, EndsIn, Reorder;
    var light, heavy := Fitting(extra, size, small), Oversized(extra, size, small);
    forall x ensures x in light <==> x in extra && size(x) <= small {
      FittingHas(extra, size, small, x);
    }
    forall x ensures x in heavy <==> x in extra && size(x) > small {
      FittingHas(extra, size, small, x);
    }
    SplitBySize(extra, size, small);
    FittingIsDistinct(extra, size, small);
    var start := Separated(extra, size, small, large);
    LargeReorders(start, held, light, heavy, size, large);
    SmallReorders(start, held, light, heavy, size, small);
    PartsOrdered(held, light, heavy, size);
    var t, end := Reorder(start, held, light, heavy), [held[0]] + light + held[1..] + heavy;
    requests := t + [Request.Put(h)];
    PutsAreNoFetches(start, held, light, heavy, h);
    assert h !in end;
    PutDrops(t, end, h, size, large);
    StillThere(t, held, h, size, small);
  }

  // ---------------------------------------------------------------- the exact condition

  ghost predicate AlwaysHitsMore(size: Sizes, small: nat, large: nat) {
    forall requests :: Hits(requests, size, small) <= Hits(requests, size, large)
  }

  ghost predicate AlwaysHoldsMore(size: Sizes, small: nat, large: nat) {
    forall requests :: Run(requests, size, small).entries.Keys <= Run(requests, size, large).entries.Keys
  }

  lemma TooFewHits(h: Hash, held: seq<Hash>, extra: seq<Hash>, size: Sizes, small: nat, large: nat)
    requires small <= large && Joins(h, held, extra, size, small, large)
    requires Bytes(held, size) + Bytes(extra, size) + size(h) > large
    ensures !AlwaysHitsMore(size, small, large) && !AlwaysHoldsMore(size, small, large)
  {
    hide Run, Hits, Bytes, Separable;
    var requests := TooLittleRoom(h, held, extra, size, small, large);
    var fetch := Fetch(held[0]);
    NoFetchesNoHits(requests, size, small);
    NoFetchesNoHits(requests, size, large);
    RunSnoc(requests, fetch, size, small);
    RunSnoc(requests, fetch, size, large);
    assert Hits(requests + [fetch], size, small) > Hits(requests + [fetch], size, large);
    assert held[0] in Run(requests, size, small).entries.Keys;
  }

  /**
    On all traces, whatever misses stay unfilled: a larger budget never gets fewer hits exactly when it has room to
    reorder, and exactly then it never holds less.
   */
  lemma AnyTraceHitsMoreIff(size: Sizes, small: nat, large: nat)
    requires small <= large
    ensures AlwaysHitsMore(size, small, large) <==> RoomToReorder(size, small, large)
    ensures AlwaysHoldsMore(size, small, large) <==> RoomToReorder(size, small, large)
  {
    hide Run, Hits, Joins, Bytes;
    if RoomToReorder(size, small, large) {
      forall requests ensures Hits(requests, size, small) <= Hits(requests, size, large) {
        RoomHitsMore(requests, size, small, large);
      }
      forall requests ensures Run(requests, size, small).entries.Keys <= Run(requests, size, large).entries.Keys {
        RoomHoldsMore(requests, size, small, large);
      }
    } else {
      var held, extra, h :|
        Joins(h, held, extra, size, small, large) && Bytes(held, size) + Bytes(extra, size) + size(h) > large;
      TooFewHits(h, held, extra, size, small, large);
    }
  }

  /** Filled traces are some of them, so room to reorder is room for both. */
  lemma RoomToReorderIsMore(size: Sizes, small: nat, large: nat)
    requires small <= large && RoomToReorder(size, small, large)
    ensures RoomForBoth(size, small, large)
  {
    hide Run, Hits, RoomToReorder, RoomForBoth;
    AnyTraceHitsMoreIff(size, small, large);
    LargerBudgetHitsMoreIff(size, small, large);
  }
}

/** When a larger budget can hurt: the exact sizes and budgets, for traces in which every miss is filled. */
module BudgetMonotonicity {
  import opened Wrappers
  import opened Blake
  import opened Lru
  import opened RecentRun

  /** Every lookup that misses is filled from a source; blobs may be too large for either budget. */
  predicate NoGets(requests: seq<Request>) {
    forall i :: 0 <= i < |requests| ==> !requests[i].Get?
  }

  /**
    Whatever the smaller cache can hold leaves room, in the larger one, for any blobs that only the larger one stores.
    This can be read off the sizes and the budgets.
   */
  ghost predicate RoomForBoth(size: Sizes, small: nat, large: nat) {
    forall run, big ::
      Distinct(run) && Distinct(big) && run != [] && Bytes(run, size) <= small && OnlyLarge(big, size, small, large)
      ==> Bytes(run, size) + Bytes(big, size) <= large
  }

  predicate OnlyLarge(big: seq<Hash>, size: Sizes, small: nat, large: nat) {
    forall h :: h in big ==> small < size(h) <= large
  }

  // ---------------------------------------------------------------- what fits, and what does not

  function Fitting(s: seq<Hash>, size: Sizes, budget: nat): seq<Hash> {
    if s == [] then []
    else Fitting(s[..|s| - 1], size, budget) + if size(s[|s| - 1]) <= budget then [s[|s| - 1]] else []
  }

  function Oversized(s: seq<Hash>, size: Sizes, budget: nat): seq<Hash> {
    if s == [] then []
    else Oversized(s[..|s| - 1], size, budget) + if size(s[|s| - 1]) <= budget then [] else [s[|s| - 1]]
  }

  lemma {:induction false} FittingHas(s: seq<Hash>, size: Sizes, budget: nat, h: Hash)
    ensures h in Fitting(s, size, budget) <==> h in s && size(h) <= budget
    ensures h in Oversized(s, size, budget) <==> h in s && size(h) > budget
  {
    if s != [] {
      FittingHas(s[..|s| - 1], size, budget, h);
      assert s == s[..|s| - 1] + [s[|s| - 1]];
    }
  }

  lemma {:induction false} FittingConcat(s: seq<Hash>, t: seq<Hash>, size: Sizes, budget: nat)
    ensures Fitting(s + t, size, budget) == Fitting(s, size, budget) + Fitting(t, size, budget)
    decreases |t|
  {
    if t == [] {
      assert s + t == s;
    } else {
      assert (s + t)[..|s + t| - 1] == s + t[..|t| - 1];
      FittingConcat(s, t[..|t| - 1], size, budget);
    }
  }

  lemma FittingOne(h: Hash, size: Sizes, budget: nat)
    ensures Fitting([h], size, budget) == if size(h) <= budget then [h] else []
  {
    assert [h][..0] == [];
  }

  lemma {:induction false} FittingTwice(s: seq<Hash>, size: Sizes, small: nat, large: nat)
    requires small <= large
    ensures Fitting(Fitting(s, size, large), size, small) == Fitting(s, size, small)
  {
    if s != [] {
      var init, h := s[..|s| - 1], s[|s| - 1];
      FittingTwice(init, size, small, large);
      FittingConcat(Fitting(init, size, large), [h], size, small);
      FittingOne(h, size, small);
      assert Fitting(init, size, large) + [] == Fitting(init, size, large);
    }
  }

  lemma NothingWeighsNothing(size: Sizes)
    ensures Bytes([], size) == 0
  {
  }

  lemma {:induction false} SplitBySize(s: seq<Hash>, size: Sizes, budget: nat)
    ensures Bytes(s, size) == Bytes(Fitting(s, size, budget), size) + Bytes(Oversized(s, size, budget), size)
    ensures Distinct(s) ==> Distinct(Oversized(s, size, budget))
  {
    hide Distinct, Bytes;
    NothingWeighsNothing(size);
    if s == [] {
      NoneIsDistinct();
    } else {
      var init, h := s[..|s| - 1], s[|s| - 1];
      assert s == init + [h];
      SplitBySize(init, size, budget);
      BytesConcat(init, [h], size);
      BytesConcat(Fitting(init, size, budget), [h], size);
      BytesConcat(Oversized(init, size, budget), [h], size);
      DistinctConcat(init, [h]);
      DistinctConcat(Oversized(init, size, budget), [h]);
      DistinctOne(h);
      assert h in [h];
      FittingHas(init, size, budget, h);
      assert Oversized(init, size, budget) + [] == Oversized(init, size, budget);
      assert Fitting(init, size, budget) + [] == Fitting(init, size, budget);
    }
  }

  // ---------------------------------------------------------------- recency and filtering

  lemma FittingWithout(s: seq<Hash>, h: Hash, size: Sizes, budget: nat)
    requires Distinct(s)
    ensures Fitting(Without(s, h), size, budget)
         == if size(h) <= budget then Without(Fitting(s, size, budget), h) else Fitting(s, size, budget)
  {
    hide Distinct, Position, Fitting;
    FittingHas(s, size, budget, h);
    if h in s {
      var a, b := SplitAt(s, h);
      var p, q := Fitting(a, size, budget), Fitting(b, size, budget);
      FittingConcat(a + [h], b, size, budget);
      FittingConcat(a, [h], size, budget);
      FittingConcat(a, b, size, budget);
      FittingOne(h, size, budget);
      FittingHas(a, size, budget, h);
      if size(h) <= budget {
        WithoutFirst(p, h, q);
      } else {
        assert p + [] + q == p + q;
      }
    } else {
      WithoutAbsent(s, h);
      WithoutAbsent(Fitting(s, size, budget), h);
    }
  }

  lemma {:induction false} WithoutFirst(a: seq<Hash>, h: Hash, b: seq<Hash>)
    requires h !in a
    ensures Without(a + [h] + b, h) == a + b
  {
    PositionAfter(a, h, b);
    var s := a + [h] + b;
    assert s[..|a|] == a && s[|a| + 1..] == b;
  }

  lemma {:induction false} PositionAfter(a: seq<Hash>, h: Hash, b: seq<Hash>)
    requires h !in a
    ensures Position(a + [h] + b, h) == Some(|a|)
  {
    if a == [] {
      assert (a + [h] + b)[0] == h;
    } else {
      assert (a + [h] + b)[1..] == a[1..] + [h] + b;
      PositionAfter(a[1..], h, b);
    }
  }

  /** Forgetting the blobs that do not fit and ordering by recency commute. */
  lemma {:induction false} RecencyFilters(s: seq<Hash>, size: Sizes, budget: nat)
    ensures Recency(Fitting(s, size, budget)) == Fitting(Recency(s), size, budget)
  {
    hide Distinct, Position, Without;
    if s != [] {
      var init, h := s[..|s| - 1], s[|s| - 1];
      RecencyFilters(init, size, budget);
      RecencyIsDistinct(init);
      FittingWithout(Recency(init), h, size, budget);
      FittingConcat(Without(Recency(init), h), [h], size, budget);
      FittingOne(h, size, budget);
      var fit := Fitting(init, size, budget);
      assert (fit + [h])[..|fit|] == fit;
      assert fit + [] == fit;
      assert Fitting(Recency(init), size, budget) + [] == Fitting(Recency(init), size, budget);
    }
  }

  /** A blob in the index fits the budget. */
  lemma HeldFits(v: Index, past: seq<Hash>, size: Sizes, budget: nat, h: Hash)
    requires HoldsLongestRun(v, past, size, budget) && h in v.entries
    ensures size(h) <= budget && h in past && h in v.lru
  {
    hide Distinct, Total, Bytes, LongestRun;
    LongestRunIs(past, size, budget);
    assert h in v.lru;
    var a, b := SplitAt(v.lru, h);
    BytesSplitPlain(a, h, b, size);
  }

  /** When misses are filled, what is accessed is what fits, whatever the cache held. */
  lemma {:induction false} AccessesAreFitting(requests: seq<Request>, size: Sizes, budget: nat)
    requires NoGets(requests)
    ensures Accesses(requests, size, budget) == Fitting(HashesOf(requests), size, budget)
  {
    hide Recency, HoldsLongestRun, Run;
    if requests != [] {
      var init, r := requests[..|requests| - 1], requests[|requests| - 1];
      AccessesAreFitting(init, size, budget);
      RunHoldsLongestRun(init, size, budget);
      if r.hash in Run(init, size, budget).entries {
        HeldFits(Run(init, size, budget), Recency(Accesses(init, size, budget)), size, budget, r.hash);
      }
      FittingConcat(HashesOf(init), [r.hash], size, budget);
      FittingOne(r.hash, size, budget);
    }
  }

  // ---------------------------------------------------------------- room for both is enough

  /** An end of what fits is what fits of an end. */
  lemma {:induction false} EndOfFitting(s: seq<Hash>, run: seq<Hash>, size: Sizes, budget: nat) returns (k: nat)
    requires |run| <= |Fitting(s, size, budget)|
    requires run == Fitting(s, size, budget)[|Fitting(s, size, budget)| - |run|..]
    ensures k <= |s| && Fitting(s[k..], size, budget) == run
  {
    hide Fitting;
    var fit := Fitting(s, size, budget);
    if |run| == |fit| {
      k := 0;
      assert s[0..] == s;
    } else if s == [] {
      FittingNothing(size, budget);
      assert false;
    } else {
      assert s == [s[0]] + s[1..];
      FittingConcat([s[0]], s[1..], size, budget);
      FittingOne(s[0], size, budget);
      var rest := Fitting(s[1..], size, budget);
      assert run == rest[|rest| - |run|..];
      var j := EndOfFitting(s[1..], run, size, budget);
      k := j + 1;
      assert s[k..] == s[1..][j..];
    }
  }

  lemma FittingNothing(size: Sizes, budget: nat)
    ensures Fitting([], size, budget) == []
  {
  }

  lemma EndIsDistinct(s: seq<Hash>, k: nat)
    requires Distinct(s) && k <= |s|
    ensures Distinct(s[k..])
  {
    assert s == s[..k] + s[k..];
    DistinctConcat(s[..k], s[k..]);
  }

  /** With room for both, the end of the larger cache's past that starts at the smaller cache's queue fits. */
  lemma RunIsInside(past: seq<Hash>, size: Sizes, small: nat, large: nat, h: Hash)
    requires RoomForBoth(size, small, large) && Distinct(past) && forall x :: x in past ==> size(x) <= large
    requires h in LongestRun(Fitting(past, size, small), size, small)
    ensures h in LongestRun(past, size, large)
  {
    hide Distinct, Fitting, Oversized, Bytes, LongestRun;
    var run := LongestRun(Fitting(past, size, small), size, small);
    LongestRunIs(Fitting(past, size, small), size, small);
    var k := EndOfFitting(past, run, size, small);
    var end := past[k..];
    EndIsDistinct(past, k);
    SplitBySize(end, size, small);
    FittingIsDistinct(end, size, small);
    forall x | x in Oversized(end, size, small) ensures small < size(x) <= large {
      FittingHas(end, size, small, x);
      assert x in past;
    }
    assert OnlyLarge(Oversized(end, size, small), size, small, large);
    assert Bytes(end, size) <= large;
    FittingHas(end, size, small, h);
    EndInRun(past, size, large, k, h);
  }

  lemma {:induction false} FittingIsDistinct(s: seq<Hash>, size: Sizes, budget: nat)
    requires Distinct(s)
    ensures Distinct(Fitting(s, size, budget))
  {
    hide Distinct;
    if s == [] {
      NoneIsDistinct();
    } else {
      var init, h := s[..|s| - 1], s[|s| - 1];
      assert s == init + [h];
      DistinctConcat(init, [h]);
      FittingIsDistinct(init, size, budget);
      DistinctConcat(Fitting(init, size, budget), [h]);
      FittingHas(init, size, budget, h);
      assert h in [h];
      assert Fitting(init, size, budget) + [] == Fitting(init, size, budget);
    }
  }

  lemma EndInRun(past: seq<Hash>, size: Sizes, budget: nat, k: nat, h: Hash)
    requires k <= |past| && Bytes(past[k..], size) <= budget && h in past[k..]
    ensures h in LongestRun(past, size, budget)
  {
    hide Bytes, LongestRun;
    LongestRunIs(past, size, budget);
    var run := LongestRun(past, size, budget);
    assert run == past[|past| - |run|..];
    var i :| 0 <= i < |past[k..]| && past[k..][i] == h;
    assert run[i + k - (|past| - |run|)] == h;
  }

  /** So at every point the smaller cache holds nothing that the larger one lacks. */
  lemma RoomKeepsSubset(requests: seq<Request>, size: Sizes, small: nat, large: nat)
    requires NoGets(requests) && small <= large && RoomForBoth(size, small, large)
    ensures Run(requests, size, small).entries.Keys <= Run(requests, size, large).entries.Keys
  {
    hide *;
    var all := HashesOf(requests);
    var past := Recency(Fitting(all, size, large));
    AccessesAreFitting(requests, size, small);
    AccessesAreFitting(requests, size, large);
    RunHoldsLongestRun(requests, size, small);
    RunHoldsLongestRun(requests, size, large);
    FittingTwice(all, size, small, large);
    RecencyFilters(Fitting(all, size, large), size, small);
    RecencyIsDistinct(Fitting(all, size, large));
    forall x | x in past ensures size(x) <= large { FittingHas(all, size, large, x); }
    forall h | h in Run(requests, size, small).entries.Keys ensures h in Run(requests, size, large).entries.Keys {
      HeldIsQueue(Run(requests, size, small), Fitting(past, size, small), size, small, h);
      HeldIsQueue(Run(requests, size, large), past, size, large, h);
      RunIsInside(past, size, small, large, h);
    }
  }

  lemma HeldIsQueue(v: Index, past: seq<Hash>, size: Sizes, budget: nat, h: Hash)
    requires HoldsLongestRun(v, past, size, budget)
    ensures h in v.entries.Keys <==> h in LongestRun(past, size, budget)
  {
    hide Distinct, Total, LongestRun;
  }

  ghost predicate AlwaysSubset(size: Sizes, small: nat, large: nat) {
    forall requests :: NoGets(requests)
      ==> Run(requests, size, small).entries.Keys <= Run(requests, size, large).entries.Keys
  }

  ghost predicate NeverFewerHits(size: Sizes, small: nat, large: nat) {
    forall requests :: NoGets(requests) ==> Hits(requests, size, small) <= Hits(requests, size, large)
  }

  lemma {:induction false} SubsetHitsMore(requests: seq<Request>, size: Sizes, small: nat, large: nat)
    requires NoGets(requests) && AlwaysSubset(size, small, large)
    ensures Hits(requests, size, small) <= Hits(requests, size, large)
  {
    hide Run;
    if requests != [] {
      var init := requests[..|requests| - 1];
      SubsetHitsMore(init, size, small, large);
      assert Run(init, size, small).entries.Keys <= Run(init, size, large).entries.Keys;
    }
  }

  // ---------------------------------------------------------------- and it is needed

  function Fetches(s: seq<Hash>): (requests: seq<Request>)
    ensures NoGets(requests)
  {
    if s == [] then [] else Fetches(s[..|s| - 1]) + [Fetch(s[|s| - 1])]
  }

  lemma {:induction false} FetchesHashes(s: seq<Hash>)
    ensures HashesOf(Fetches(s)) == s
  {
    if s != [] {
      FetchesHashes(s[..|s| - 1]);
      assert s == s[..|s| - 1] + [s[|s| - 1]];
    }
  }

  /** The queue after fetching `s`. */
  lemma QueueAfter(s: seq<Hash>, size: Sizes, budget: nat)
    ensures var v, past := Run(Fetches(s), size, budget), Fitting(Recency(s), size, budget);
      v.lru == LongestRun(past, size, budget) && forall h :: h in v.entries <==> h in LongestRun(past, size, budget)
  {
    hide *;
    FetchesHashes(s);
    AccessesAreFitting(Fetches(s), size, budget);
    RunHoldsLongestRun(Fetches(s), size, budget);
    RecencyFilters(s, size, budget);
    HeldParts(Run(Fetches(s), size, budget), Fitting(Recency(s), size, budget), size, budget);
  }

  lemma HeldParts(v: Index, past: seq<Hash>, size: Sizes, budget: nat)
    requires HoldsLongestRun(v, past, size, budget)
    ensures v.lru == LongestRun(past, size, budget)
    ensures forall h :: h in v.entries <==> h in LongestRun(past, size, budget)
  {
    hide Distinct, Total, LongestRun;
  }

  lemma HitsStep(s: seq<Hash>, h: Hash, size: Sizes, budget: nat)
    ensures Hits(Fetches(s + [h]), size, budget)
         == Hits(Fetches(s), size, budget) + if h in Run(Fetches(s), size, budget).entries then 1 else 0
  {
    hide Run;
    assert (s + [h])[..|s|] == s;
    var f := Fetches(s + [h]);
    assert f == Fetches(s) + [Fetch(h)];
    assert f[..|f| - 1] == Fetches(s);
  }

  /** Nothing is found that was not fetched before. */
  lemma NewIsMissed(s: seq<Hash>, h: Hash, size: Sizes, budget: nat)
    requires h !in s || size(h) > budget
    ensures h !in Run(Fetches(s), size, budget).entries
  {
    hide Run, Recency, Fitting, Bytes, LongestRun;
    QueueAfter(s, size, budget);
    RecencyIsDistinct(s);
    FittingHas(Recency(s), size, budget, h);
    LongestRunIs(Fitting(Recency(s), size, budget), size, budget);
  }

  /** First fetches of distinct blobs, and fetches of blobs too large to keep, never hit. */
  lemma {:induction false} NoHitsYet(s: seq<Hash>, t: seq<Hash>, size: Sizes, budget: nat)
    requires forall i :: 0 <= i < |t| ==> t[i] !in s + t[..i] || size(t[i]) > budget
    ensures Hits(Fetches(s + t), size, budget) == Hits(Fetches(s), size, budget)
    decreases |t|
  {
    hide Run, Hits, Fetches;
    if t == [] {
      assert s + t == s;
    } else {
      var n := |t| - 1;
      assert forall i :: 0 <= i < n ==> t[..n][..i] == t[..i];
      NoHitsYet(s, t[..n], size, budget);
      assert s + t == (s + t[..n]) + [t[n]];
      NewIsMissed(s + t[..n], t[n], size, budget);
      HitsStep(s + t[..n], t[n], size, budget);
    }
  }

  lemma {:induction false} AtMostOneEach(s: seq<Hash>, t: seq<Hash>, size: Sizes, budget: nat)
    ensures Hits(Fetches(s + t), size, budget) <= Hits(Fetches(s), size, budget) + |t|
    decreases |t|
  {
    hide Run, Hits, Fetches;
    if t == [] {
      assert s + t == s;
    } else {
      var n := |t| - 1;
      AtMostOneEach(s, t[..n], size, budget);
      assert s + t == (s + t[..n]) + [t[n]];
      HitsStep(s + t[..n], t[n], size, budget);
    }
  }

  /** Fetching blobs again that all fit together hits every time. */
  lemma {:induction false} AllHits(run: seq<Hash>, big: seq<Hash>, again: seq<Hash>, size: Sizes, small: nat)
    requires Distinct(run) && Bytes(run, size) <= small
    requires (forall h :: h in big ==> size(h) > small) && (forall h :: h in again ==> h in run)
    ensures Hits(Fetches(run + big + again), size, small) == Hits(Fetches(run + big), size, small) + |again|
    decreases |again|
  {
    hide Run, Hits, Fetches, Distinct, Bytes;
    var s := run + big;
    if again == [] {
      assert s + again == s;
    } else {
      var n := |again| - 1;
      AllHits(run, big, again[..n], size, small);
      assert s + again == (s + again[..n]) + [again[n]];
      StillHeld(run, big, again[..n], again[n], size, small);
      HitsStep(s + again[..n], again[n], size, small);
    }
  }

  lemma StillHeld(run: seq<Hash>, big: seq<Hash>, again: seq<Hash>, h: Hash, size: Sizes, small: nat)
    requires Distinct(run) && Bytes(run, size) <= small && h in run
    requires (forall x :: x in big ==> size(x) > small) && (forall x :: x in again ==> x in run)
    ensures h in Run(Fetches(run + big + again), size, small).entries
  {
    hide Run, Fetches, Recency, Fitting, Distinct, Bytes;
    var s := run + big + again;
    QueueAfter(s, size, small);
    RecencyIsDistinct(s);
    FittingIsDistinct(Recency(s), size, small);
    var past := Fitting(Recency(s), size, small);
    forall x ensures x in past <==> x in run {
      FittingHas(Recency(s), size, small, x);
      if x in run { FitsWithin(run, x, size); }
    }
    BytesPermute(past, run, size);
    assert LongestRun(past, size, small) == past;
  }

  lemma FitsWithin(run: seq<Hash>, h: Hash, size: Sizes)
    requires Distinct(run) && h in run
    ensures size(h) <= Bytes(run, size)
  {
    var a, b := SplitAt(run, h);
    BytesSplitPlain(a, h, b, size);
  }

  /** Fetching distinct blobs in order is being recent in that order. */
  lemma {:induction false} RecencyOfDistinct(s: seq<Hash>)
    requires Distinct(s)
    ensures Recency(s) == s
  {
    hide Distinct, Without;
    if s != [] {
      var init, h := s[..|s| - 1], s[|s| - 1];
      assert s == init + [h];
      DistinctConcat(init, [h]);
      assert h in [h];
      RecencyOfDistinct(init);
      WithoutAbsent(init, h);
    }
  }

  /** The oldest of more than fits is gone. */
  lemma OldestIsGone(s: seq<Hash>, size: Sizes, budget: nat)
    requires Distinct(s) && s != [] && Bytes(s, size) > budget && forall h :: h in s ==> size(h) <= budget
    ensures s[0] !in Run(Fetches(s), size, budget).entries
  {
    hide Run, Fetches, Recency;
    QueueAfter(s, size, budget);
    RecencyOfDistinct(s);
    AllFit(s, size, budget);
    LongestRunIs(s[1..], size, budget);
  }

  lemma {:induction false} AllFit(s: seq<Hash>, size: Sizes, budget: nat)
    requires forall h :: h in s ==> size(h) <= budget
    ensures Fitting(s, size, budget) == s
  {
    if s != [] {
      AllFit(s[..|s| - 1], size, budget);
      assert s == s[..|s| - 1] + [s[|s| - 1]];
    }
  }

  /** Fetch what the smaller cache can hold, then what only the larger one stores, then the former again. */
  lemma CrowdedOut(run: seq<Hash>, big: seq<Hash>, size: Sizes, small: nat, large: nat)
    requires small <= large && Distinct(run) && Distinct(big) && run != [] && Bytes(run, size) <= small
    requires OnlyLarge(big, size, small, large) && Bytes(run, size) + Bytes(big, size) > large
    ensures Hits(Fetches(run + big + run), size, large) < |run| == Hits(Fetches(run + big + run), size, small)
  {
    hide Run, Hits, Fetches, Bytes, Distinct;
    forall h | h in run ensures size(h) <= small { FitsWithin(run, h, size); }
    DistinctConcat(run, big);
    FirstFetches(run, big, size, small);
    FirstFetches(run, big, size, large);
    AllHits(run, big, run, size, small);
    BytesConcat(run, big, size);
    assert (run + big)[0] == run[0];
    OldestIsGone(run + big, size, large);
    HitsStep(run + big, run[0], size, large);
    AtMostOneEach(run + big + [run[0]], run[1..], size, large);
    assert run + big + run == run + big + [run[0]] + run[1..] by { assert run == [run[0]] + run[1..]; }
  }

  lemma FirstFetches(run: seq<Hash>, big: seq<Hash>, size: Sizes, budget: nat)
    requires Distinct(run + big)
    ensures Hits(Fetches(run + big), size, budget) == 0
  {
    hide Run, Distinct;
    var s := run + big;
    forall i | 0 <= i < |s| ensures s[i] !in [] + s[..i] {
      assert s == s[..i] + s[i..] && s[i] in s[i..];
      DistinctConcat(s[..i], s[i..]);
    }
    NoHitsYet([], s, size, budget);
    assert [] + s == s;
    assert Hits(Fetches([]), size, budget) == 0;
  }

  // ---------------------------------------------------------------- the exact condition

  /**
    On any trace on which every miss is filled, a larger budget never gets fewer hits exactly when it leaves room for
    whatever the smaller one can hold next to any blobs that the smaller one is too small to store. When misses may stay
    unfilled, `AnyTraceHitsMoreIff` gives the condition.
   */
  lemma LargerBudgetHitsMoreIff(size: Sizes, small: nat, large: nat)
    requires small <= large
    ensures NeverFewerHits(size, small, large) <==> RoomForBoth(size, small, large)
  {
    hide Run, Hits, Fetches, Bytes, Distinct;
    if RoomForBoth(size, small, large) {
      RoomMeansSubset(size, small, large);
      forall requests | NoGets(requests) ensures Hits(requests, size, small) <= Hits(requests, size, large) {
        SubsetHitsMore(requests, size, small, large);
      }
    } else {
      var run, big :|
        Distinct(run) && Distinct(big) && run != [] && Bytes(run, size) <= small && OnlyLarge(big, size, small, large)
        && Bytes(run, size) + Bytes(big, size) > large;
      CrowdedOut(run, big, size, small, large);
      assert NoGets(Fetches(run + big + run));
    }
  }

  lemma RoomMeansSubset(size: Sizes, small: nat, large: nat)
    requires small <= large && RoomForBoth(size, small, large)
    ensures AlwaysSubset(size, small, large)
  {
    forall requests | NoGets(requests)
      ensures Run(requests, size, small).entries.Keys <= Run(requests, size, large).entries.Keys
    {
      RoomKeepsSubset(requests, size, small, large);
    }
  }

  /** The same condition decides whether the smaller cache's contents are always a subset of the larger one's. */
  lemma SmallerIsSubsetIff(size: Sizes, small: nat, large: nat)
    requires small <= large
    ensures AlwaysSubset(size, small, large) <==> RoomForBoth(size, small, large)
  {
    hide Run, Hits, RoomForBoth;
    if RoomForBoth(size, small, large) {
      RoomMeansSubset(size, small, large);
    }
    if AlwaysSubset(size, small, large) {
      forall requests | NoGets(requests) ensures Hits(requests, size, small) <= Hits(requests, size, large) {
        SubsetHitsMore(requests, size, small, large);
      }
      LargerBudgetHitsMoreIff(size, small, large);
    }
  }
}

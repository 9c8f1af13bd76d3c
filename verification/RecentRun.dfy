/** What an LRU budget means: the cache holds the longest most recent run of distinct blobs that fits. */
module RecentRun {
  import opened Blake
  import opened Lru

  /** The size of the blob that each hash names. */
  type Sizes = Hash -> nat

  // ---------------------------------------------------------------- recency and runs

  function MoveToBack(s: seq<Hash>, h: Hash): seq<Hash> {
    Without(s, h) + [h]
  }

  /** The distinct hashes of `accesses`, least recently accessed first. */
  function Recency(accesses: seq<Hash>): seq<Hash> {
    if accesses == [] then [] else MoveToBack(Recency(accesses[..|accesses| - 1]), accesses[|accesses| - 1])
  }

  function Bytes(s: seq<Hash>, size: Sizes): nat {
    if s == [] then 0 else size(s[0]) + Bytes(s[1..], size)
  }

  /** The longest end of `s` whose sizes sum to at most `budget`. */
  function LongestRun(s: seq<Hash>, size: Sizes, budget: nat): seq<Hash> {
    if s == [] || Bytes(s, size) <= budget then s else LongestRun(s[1..], size, budget)
  }

  /** `run` is an end of `s` that fits, and no longer end fits. */
  ghost predicate IsLongestRun(run: seq<Hash>, s: seq<Hash>, size: Sizes, budget: nat) {
    && |run| <= |s| && run == s[|s| - |run|..]
    && Bytes(run, size) <= budget
    && (forall i :: 0 <= i < |s| - |run| ==> Bytes(s[i..], size) > budget)
  }

  lemma {:induction false} LongestRunIs(s: seq<Hash>, size: Sizes, budget: nat)
    ensures IsLongestRun(LongestRun(s, size, budget), s, size, budget)
  {
    if s != [] && Bytes(s, size) > budget {
      var t := s[1..];
      LongestRunIs(t, size, budget);
      var run := LongestRun(t, size, budget);
      assert run == t[|t| - |run|..] == s[|s| - |run|..];
      forall i | 0 <= i < |s| - |run| ensures Bytes(s[i..], size) > budget {
        if i == 0 { assert s[0..] == s; } else { assert s[i..] == t[i - 1..]; }
      }
    } else {
      assert s == s[0..];
    }
  }

  lemma {:induction false} BytesConcat(s: seq<Hash>, t: seq<Hash>, size: Sizes)
    ensures Bytes(s + t, size) == Bytes(s, size) + Bytes(t, size)
  {
    if s == [] {
      assert s + t == t;
    } else {
      assert (s + t)[1..] == s[1..] + t;
      BytesConcat(s[1..], t, size);
    }
  }

  lemma BytesOne(h: Hash, size: Sizes)
    ensures Bytes([h], size) == size(h)
  {
  }

  /** A longer past does not matter once the next older blob no longer fits. */
  lemma {:induction false} OlderDoesNotMatter(past: seq<Hash>, s: seq<Hash>, size: Sizes, budget: nat)
    requires past == [] || Bytes([past[|past| - 1]] + s, size) > budget
    ensures LongestRun(past + s, size, budget) == LongestRun(s, size, budget)
  {
    if past == [] {
      assert past + s == s;
    } else {
      var last := [past[|past| - 1]] + s;
      assert past + s == past[..|past| - 1] + last;
      BytesConcat(past[..|past| - 1], last, size);
      assert (past + s)[1..] == past[1..] + s;
      if |past| > 1 {
        assert past[1..][|past| - 2] == past[|past| - 1];
      }
      OlderDoesNotMatter(past[1..], s, size, budget);
    }
  }

  lemma {:induction false} LongestRunSnoc(s: seq<Hash>, h: Hash, size: Sizes, budget: nat)
    requires size(h) <= budget
    ensures LongestRun(s + [h], size, budget) == LongestRun(s, size, budget - size(h)) + [h]
  {
    BytesConcat(s, [h], size);
    BytesOne(h, size);
    if s != [] && Bytes(s, size) > budget - size(h) {
      assert (s + [h])[1..] == s[1..] + [h];
      LongestRunSnoc(s[1..], h, size, budget);
    } else if s == [] {
      assert s + [h] == [h];
    }
  }

  /** Running at a small budget is the same as running at a larger one and shrinking afterwards. */
  lemma {:induction false} ShrinkTwice(s: seq<Hash>, size: Sizes, small: nat, large: nat)
    requires small <= large
    ensures LongestRun(LongestRun(s, size, large), size, small) == LongestRun(s, size, small)
  {
    if s != [] && Bytes(s, size) > large {
      ShrinkTwice(s[1..], size, small, large);
    }
  }

  lemma {:induction false} LongestRunSame(s: seq<Hash>, size: Sizes, other: Sizes, budget: nat)
    requires forall h :: h in s ==> size(h) == other(h)
    ensures LongestRun(s, size, budget) == LongestRun(s, other, budget) && Bytes(s, size) == Bytes(s, other)
  {
    if s != [] { LongestRunSame(s[1..], size, other, budget); }
  }

  lemma {:induction false} RunIsEnd(s: seq<Hash>, size: Sizes, budget: nat) returns (past: seq<Hash>)
    ensures s == past + LongestRun(s, size, budget)
    ensures past == [] || Bytes([past[|past| - 1]] + LongestRun(s, size, budget), size) > budget
    ensures Bytes(LongestRun(s, size, budget), size) <= budget
  {
    var run := LongestRun(s, size, budget);
    LongestRunIs(s, size, budget);
    past := s[..|s| - |run|];
    if past != [] {
      assert s[|past| - 1..] == [past[|past| - 1]] + run;
    }
  }

  // ---------------------------------------------------------------- one access

  lemma {:induction false} RecencyIsDistinct(accesses: seq<Hash>)
    ensures Distinct(Recency(accesses))
    ensures forall h :: h in Recency(accesses) <==> h in accesses
  {
    hide Distinct, MoveToBack;
    if accesses == [] {
      NoneIsDistinct();
    } else {
      var init, h := accesses[..|accesses| - 1], accesses[|accesses| - 1];
      RecencyIsDistinct(init);
      MoveToBackIsDistinct(Recency(init), h);
      assert accesses == init + [h];
    }
  }

  lemma NoneIsDistinct()
    ensures Distinct([])
  {
  }

  lemma MoveToBackIsDistinct(s: seq<Hash>, h: Hash)
    requires Distinct(s)
    ensures Distinct(MoveToBack(s, h))
    ensures forall x :: x in MoveToBack(s, h) <==> x in s || x == h
  {
    DistinctOne(h);
    if h in s {
      var a, b := SplitAt(s, h);
      WithoutKeeps(a, h, b);
      DistinctConcat(a + b, [h]);
    } else {
      WithoutAbsent(s, h);
      DistinctConcat(s, [h]);
    }
  }

  /** The heart of LRU: accessing `h` in the longest run gives the longest run after accessing `h`. */
  lemma AccessKeepsLongestRun(s: seq<Hash>, h: Hash, size: Sizes, budget: nat)
    requires Distinct(s) && size(h) <= budget
    ensures var run := LongestRun(s, size, budget);
      LongestRun(MoveToBack(s, h), size, budget) == LongestRun(Without(run, h), size, budget - size(h)) + [h]
  {
    var run, room := LongestRun(s, size, budget), budget - size(h);
    var past := RunIsEnd(s, size, budget);
    hide LongestRun, Bytes, Distinct;
    LongestRunSnoc(Without(s, h), h, size, budget);
    DistinctConcat(past, run);
    if h in run {
      WithoutOfEnd(past, run, h);
      var a, b := SplitAt(run, h);
      if past != [] {
        BytesSplit(past[|past| - 1], a, h, b, size);
      }
      OlderDoesNotMatter(past, Without(run, h), size, room);
    } else {
      WithoutAbsent(run, h);
      WithoutOfPast(past, run, h, size, budget);
    }
  }

  lemma WithoutOfEnd(past: seq<Hash>, run: seq<Hash>, h: Hash)
    requires Distinct(past + run) && h in run
    ensures Without(past + run, h) == past + Without(run, h)
  {
    DistinctConcat(past, run);
    hide Distinct, Without;
    var a, b := SplitAt(run, h);
    var c, d := SplitAt(past + run, h);
    assert past + run == (past + a) + [h] + b;
    SplitIsUnique(past + a, h, b, c, d);
  }

  lemma SplitIsUnique(a: seq<Hash>, h: Hash, b: seq<Hash>, c: seq<Hash>, d: seq<Hash>)
    requires a + [h] + b == c + [h] + d
    requires h !in a && h !in c
    ensures a == c && b == d
  {
    var s, t := a + [h] + b, c + [h] + d;
    assert s[|a|] == h && t[|c|] == h;
    assert forall i :: 0 <= i < |a| ==> s[i] == a[i];
    assert forall i :: 0 <= i < |c| ==> t[i] == c[i];
    assert |a| == |c|;
    assert a == s[..|a|] && c == t[..|c|];
    assert b == s[|a| + 1..] && d == t[|c| + 1..];
  }

  lemma BytesSplit(x: Hash, a: seq<Hash>, h: Hash, b: seq<Hash>, size: Sizes)
    ensures Bytes([x] + (a + [h] + b), size) == Bytes([x] + (a + b), size) + size(h)
  {
    BytesConcat([x], a + [h] + b, size);
    BytesConcat([x], a + b, size);
    BytesConcat(a + [h], b, size);
    BytesConcat(a, [h], size);
    BytesConcat(a, b, size);
    BytesOne(h, size);
  }

  lemma WithoutOfPast(past: seq<Hash>, run: seq<Hash>, h: Hash, size: Sizes, budget: nat)
    requires Distinct(past + run) && h !in run && size(h) <= budget
    requires past == [] || Bytes([past[|past| - 1]] + run, size) > budget
    ensures LongestRun(Without(past + run, h), size, budget - size(h)) == LongestRun(run, size, budget - size(h))
  {
    hide LongestRun, Bytes, Distinct, Position;
    var room := budget - size(h);
    if h !in past {
      WithoutAbsent(past + run, h);
      OlderDoesNotMatter(past, run, size, room);
    } else {
      WithoutOfStart(past, run, h);
      DistinctConcat(past, run);
      var c, d := SplitAt(past, h);
      ShorterPast(c, h, d, run, size, budget);
    }
  }

  lemma WithoutOfStart(past: seq<Hash>, run: seq<Hash>, h: Hash)
    requires Distinct(past + run) && h in past
    ensures Without(past + run, h) == Without(past, h) + run
  {
    DistinctConcat(past, run);
    hide Distinct, Without;
    var a, b := SplitAt(past + run, h);
    var c, d := SplitAt(past, h);
    assert past + run == c + [h] + (d + run);
    SplitIsUnique(a, h, b, c, d + run);
    assert c + (d + run) == (c + d) + run;
  }

  lemma ShorterPast(c: seq<Hash>, h: Hash, d: seq<Hash>, run: seq<Hash>, size: Sizes, budget: nat)
    requires size(h) <= budget && Bytes([(c + [h] + d)[|c + [h] + d| - 1]] + run, size) > budget
    ensures LongestRun((c + d) + run, size, budget - size(h)) == LongestRun(run, size, budget - size(h))
  {
    hide LongestRun, Bytes;
    var room := budget - size(h);
    if d == [] {
      BytesConcat([h], run, size);
      BytesOne(h, size);
      FullRunIgnoresPast(c + d, run, size, room);
    } else {
      assert (c + [h] + d)[|c + [h] + d| - 1] == d[|d| - 1] == (c + d)[|c + d| - 1];
      OlderDoesNotMatter(c + d, run, size, room);
    }
  }

  lemma FullRunIgnoresPast(past: seq<Hash>, run: seq<Hash>, size: Sizes, budget: nat)
    requires Bytes(run, size) > budget
    ensures LongestRun(past + run, size, budget) == LongestRun(run, size, budget)
  {
    if past != [] { BytesConcat([past[|past| - 1]], run, size); }
    OlderDoesNotMatter(past, run, size, budget);
  }

  lemma HeadIsIn(s: seq<Hash>)
    ensures s != [] ==> s[0] in s
  {
  }

  lemma {:induction false} BytesPermute(s: seq<Hash>, t: seq<Hash>, size: Sizes)
    requires Distinct(s) && Distinct(t) && forall h :: h in s <==> h in t
    ensures Bytes(s, size) == Bytes(t, size)
    decreases |s|
  {
    HeadIsIn(s);
    HeadIsIn(t);
    if s != [] {
      var h := s[0];
      var c, d := SplitAt(t, h);
      assert s == [h] + s[1..];
      WithoutKeeps(c, h, d);
      BytesSplitPlain(c, h, d, size);
      BytesPermute(s[1..], c + d, size);
    }
  }

  lemma BytesWithout(s: seq<Hash>, h: Hash, size: Sizes)
    requires h in s
    ensures Bytes(s, size) == Bytes(Without(s, h), size) + size(h)
    ensures forall x :: x in s && x != h ==> x in Without(s, h)
  {
    PositionFinds(s, h);
    var k := Position(s, h).value;
    assert s == s[..k] + [h] + s[k + 1..];
    BytesSplitPlain(s[..k], h, s[k + 1..], size);
  }

  /** Distinct blobs that are spread over two lists weigh no more than the lists. */
  lemma {:induction false} SpreadBytes(all: seq<Hash>, s: seq<Hash>, t: seq<Hash>, size: Sizes)
    requires Distinct(all) && forall h :: h in all ==> h in s || h in t
    ensures Bytes(all, size) <= Bytes(s, size) + Bytes(t, size)
    decreases |all|
  {
    hide Position, Without;
    if all != [] {
      var h := all[0];
      assert all == [h] + all[1..];
      assert h in all;
      if h in s {
        BytesWithout(s, h, size);
        SpreadBytes(all[1..], Without(s, h), t, size);
      } else {
        BytesWithout(t, h, size);
        SpreadBytes(all[1..], s, Without(t, h), size);
      }
    }
  }

  // ---------------------------------------------------------------- the index over whole request sequences

  /** `Fetch` is a lookup that is filled from a source when it misses. */
  datatype Request = Put(hash: Hash) | Get(hash: Hash) | Fetch(hash: Hash)

  function Stored(v: Index, h: Hash, size: Sizes, budget: nat): Index {
    if size(h) > budget then v else Inserted(v, h, size(h), budget).index
  }

  function Serve(v: Index, r: Request, size: Sizes, budget: nat): Index {
    match r
    case Put(h) => Stored(v, h, size, budget)
    case Get(h) => if h in v.entries then Touched(v, h) else v
    case Fetch(h) => if h in v.entries then Touched(v, h) else Stored(v, h, size, budget)
  }

  function Run(requests: seq<Request>, size: Sizes, budget: nat): Index {
    if requests == [] then EMPTY
    else Serve(Run(requests[..|requests| - 1], size, budget), requests[|requests| - 1], size, budget)
  }

  /** Does `r` store its blob or find it? */
  predicate IsAccess(v: Index, r: Request, size: Sizes, budget: nat) {
    r.hash in v.entries || (!r.Get? && size(r.hash) <= budget)
  }

  /** The hashes that were stored or found, in order. */
  function Accesses(requests: seq<Request>, size: Sizes, budget: nat): seq<Hash> {
    if requests == [] then []
    else
      var init, r := requests[..|requests| - 1], requests[|requests| - 1];
      Accesses(init, size, budget) + if IsAccess(Run(init, size, budget), r, size, budget) then [r.hash] else []
  }

  ghost predicate Sized(v: Index, size: Sizes) {
    forall h :: h in v.entries ==> v.entries[h] == size(h)
  }

  lemma {:induction false} TotalIsBytes(s: seq<Hash>, entries: map<Hash, nat>, size: Sizes)
    requires forall h :: h in s ==> SizeOf(entries, h) == size(h)
    ensures Total(s, entries) == Bytes(s, size)
  {
    if s != [] { TotalIsBytes(s[1..], entries, size); }
  }

  /** The eviction loop leaves the longest run that fits the room. */
  lemma {:induction false} EvictLeavesLongestRun(v: Index, taken: nat, budget: nat, size: Sizes)
    requires Valid(v) && Sized(v, size) && taken <= budget
    ensures Evict(v, taken, budget).index.lru == LongestRun(v.lru, size, budget - taken)
    decreases |v.lru|
  {
    TotalIsBytes(v.lru, v.entries, size);
    if v.lru != [] && v.total + taken > budget {
      var w := Unsized(v, v.lru[0]).(lru := v.lru[1..]);
      EvictOneIsValid(v);
      EvictLeavesLongestRun(w, taken, budget, size);
    }
  }

  lemma InsertedIsSized(v: Index, h: Hash, budget: nat, size: Sizes)
    requires Valid(v) && Sized(v, size)
    ensures Sized(Inserted(v, h, size(h), budget).index, size)
  {
    InsertMeans(v, h, size(h), budget);
    hide Inserted, Valid;
  }

  /** One access turns the longest run of the past into the longest run of the present. */
  lemma StoredIsLongestRun(v: Index, past: seq<Hash>, h: Hash, size: Sizes, budget: nat)
    requires Valid(v) && Sized(v, size) && Distinct(past) && v.lru == LongestRun(past, size, budget)
    requires size(h) <= budget
    ensures Inserted(v, h, size(h), budget).index.lru == LongestRun(MoveToBack(past, h), size, budget)
  {
    hide LongestRun, Evict, Distinct, MoveToBack, Bytes;
    AccessKeepsLongestRun(past, h, size, budget);
    var base := Dropped(v, h);
    DroppedIsValid(v, h);
    if h !in v.entries { DroppingAbsent(v, h); }
    EvictLeavesLongestRun(base, size(h), budget, size);
  }

  lemma TouchedIsLongestRun(v: Index, past: seq<Hash>, h: Hash, size: Sizes, budget: nat)
    requires Valid(v) && Sized(v, size) && Distinct(past) && v.lru == LongestRun(past, size, budget)
    requires h in v.entries
    ensures size(h) <= budget
    ensures Touched(v, h).lru == LongestRun(MoveToBack(past, h), size, budget)
  {
    hide Distinct, MoveToBack, Dropped;
    LongestRunIs(past, size, budget);
    var run := v.lru;
    PositionFinds(run, h);
    var a, b := SplitAt(run, h);
    BytesSplitPlain(a, h, b, size);
    AccessKeepsLongestRun(past, h, size, budget);
    assert LongestRun(Without(run, h), size, budget - size(h)) == Without(run, h);
  }

  lemma BytesSplitPlain(a: seq<Hash>, h: Hash, b: seq<Hash>, size: Sizes)
    ensures Bytes(a + [h] + b, size) == Bytes(a + b, size) + size(h)
  {
    BytesConcat(a + [h], b, size);
    BytesConcat(a, [h], size);
    BytesConcat(a, b, size);
    BytesOne(h, size);
  }

  /** The state that a request sequence leaves, said without the eviction loop. */
  ghost predicate HoldsLongestRun(v: Index, past: seq<Hash>, size: Sizes, budget: nat) {
    && Valid(v) && Sized(v, size)
    && v.lru == LongestRun(past, size, budget)
    && v.total <= budget
  }

  lemma ServeHoldsLongestRun(v: Index, past: seq<Hash>, r: Request, size: Sizes, budget: nat)
    requires HoldsLongestRun(v, past, size, budget) && Distinct(past)
    ensures IsAccess(v, r, size, budget)
        ==> HoldsLongestRun(Serve(v, r, size, budget), MoveToBack(past, r.hash), size, budget)
    ensures !IsAccess(v, r, size, budget) ==> Serve(v, r, size, budget) == v
  {
    hide LongestRun, Inserted, Distinct, MoveToBack, Touched, Valid;
    var h := r.hash;
    if IsAccess(v, r, size, budget) {
      if h in v.entries {
        TouchedIsValid(v, h);
        TouchedIsLongestRun(v, past, h, size, budget);
      }
      InsertedIsValid(v, h, size(h), budget);
      InsertedIsSized(v, h, budget, size);
      StoredIsLongestRun(v, past, h, size, budget);
    }
  }

  /**
    After any requests - puts that fit or do not, lookups that hit or miss, fetches - the queue is exactly the longest
    most recent run of distinct accessed blobs that fits the budget, and the size map and total agree with it.
   */
  lemma {:induction false} RunHoldsLongestRun(requests: seq<Request>, size: Sizes, budget: nat)
    ensures HoldsLongestRun(Run(requests, size, budget), Recency(Accesses(requests, size, budget)), size, budget)
  {
    hide HoldsLongestRun, Serve, IsAccess, Distinct, MoveToBack;
    if requests == [] {
      EmptyHoldsRun(size, budget);
    } else {
      var init, r := requests[..|requests| - 1], requests[|requests| - 1];
      RunHoldsLongestRun(init, size, budget);
      var v, past := Run(init, size, budget), Accesses(init, size, budget);
      RecencyIsDistinct(past);
      ServeHoldsLongestRun(v, Recency(past), r, size, budget);
      assert (past + [r.hash])[..|past|] == past;
      assert past + [] == past;
    }
  }

  lemma EmptyHoldsRun(size: Sizes, budget: nat)
    ensures HoldsLongestRun(EMPTY, [], size, budget)
  {
    assert Total([], map[]) == 0;
  }

  // ---------------------------------------------------------------- a larger budget never hurts

  function HashesOf(requests: seq<Request>): seq<Hash> {
    if requests == [] then [] else HashesOf(requests[..|requests| - 1]) + [requests[|requests| - 1].hash]
  }

  /** Every blob fits `budget`, and every miss is filled. */
  predicate AllFilled(requests: seq<Request>, size: Sizes, budget: nat) {
    forall i :: 0 <= i < |requests| ==> !requests[i].Get? && size(requests[i].hash) <= budget
  }

  lemma {:induction false} FilledAccesses(requests: seq<Request>, size: Sizes, small: nat, budget: nat)
    requires AllFilled(requests, size, small) && small <= budget
    ensures Accesses(requests, size, budget) == HashesOf(requests)
  {
    if requests != [] {
      FilledAccesses(requests[..|requests| - 1], size, small, budget);
    }
  }

  function Hits(requests: seq<Request>, size: Sizes, budget: nat): nat {
    if requests == [] then 0
    else
      var init, r := requests[..|requests| - 1], requests[|requests| - 1];
      Hits(init, size, budget) + if r.Fetch? && r.hash in Run(init, size, budget).entries then 1 else 0
  }

  /** The smaller cache's queue is always the newer end of the larger cache's queue, so it holds nothing more. */
  lemma SmallerIsEndOfLarger(requests: seq<Request>, size: Sizes, small: nat, large: nat)
    requires AllFilled(requests, size, small) && small <= large
    ensures var s, l := Run(requests, size, small), Run(requests, size, large);
      && |s.lru| <= |l.lru| && s.lru == l.lru[|l.lru| - |s.lru|..]
      && s.entries.Keys <= l.entries.Keys
  {
    hide *;
    var past := Recency(HashesOf(requests));
    FilledAccesses(requests, size, small, small);
    FilledAccesses(requests, size, small, large);
    RunHoldsLongestRun(requests, size, small);
    RunHoldsLongestRun(requests, size, large);
    RunsNest(Run(requests, size, small), Run(requests, size, large), past, size, small, large);
  }

  lemma RunsNest(s: Index, l: Index, past: seq<Hash>, size: Sizes, small: nat, large: nat)
    requires small <= large
    requires HoldsLongestRun(s, past, size, small) && HoldsLongestRun(l, past, size, large)
    ensures |s.lru| <= |l.lru| && s.lru == l.lru[|l.lru| - |s.lru|..]
    ensures s.entries.Keys <= l.entries.Keys
  {
    hide LongestRun, Distinct, Total, Bytes;
    ShrinkTwice(past, size, small, large);
    LongestRunIs(l.lru, size, small);
    forall h | h in s.entries ensures h in l.entries {
      assert h in s.lru;
    }
  }

  /** So a larger budget never gets fewer hits: no Belady anomaly. */
  lemma {:induction false} LargerBudgetHitsMore(requests: seq<Request>, size: Sizes, small: nat, large: nat)
    requires AllFilled(requests, size, small) && small <= large
    ensures Hits(requests, size, small) <= Hits(requests, size, large)
  {
    if requests != [] {
      var init := requests[..|requests| - 1];
      LargerBudgetHitsMore(init, size, small, large);
      SmallerIsEndOfLarger(init, size, small, large);
    }
  }

  /**
    Without the condition that every blob fits the smaller budget this fails: a blob that only the larger cache stores
    can push out what the smaller one still holds. `LargerBudgetHitsMoreIff` says exactly when.
   */
  lemma OversizedBlobsBreakMonotonicity(size: Sizes)
    requires size(1) == 1 && size(2) == 2
    ensures var requests := [Fetch(1), Fetch(2), Fetch(1)];
      Hits(requests, size, 1) == 1 && Hits(requests, size, 2) == 0
  {
    var r3 := [Fetch(1), Fetch(2), Fetch(1)];
    var r2, r1 := [Fetch(1), Fetch(2)], [Fetch(1)];
    assert r3[..2] == r2 && r2[..1] == r1 && r1[..0] == [];
    assert Evict(EMPTY, 1, 1) == Eviction(EMPTY, []) == Evict(EMPTY, 1, 2);
    assert Run(r1, size, 1) == Index(map[1 := 1], [1], 1) == Run(r1, size, 2);
    assert Run(r2, size, 1) == Run(r1, size, 1);
    var w := Unsized(Run(r1, size, 2), 1).(lru := []);
    assert w == EMPTY;
    assert Evict(Run(r1, size, 2), 2, 2).index == EMPTY;
    assert Run(r2, size, 2) == Index(map[2 := 2], [2], 2);
    assert Hits(r1, size, 1) == 0 == Hits(r1, size, 2);
    assert Hits(r2, size, 1) == 0 == Hits(r2, size, 2);
  }
}

/** Whole histories of the disk cache: what it holds after any requests, and what a restart preserves. */
module DiskHistories {
  import opened Wrappers
  import opened Digits
  import opened Blake
  import opened Lru
  import opened RecentRun
  import opened Directories
  import opened Reopening
  import opened DiskCaches

  function Lengths(content: Hash -> Blob): Sizes {
    h => |content(h)|
  }

  /** The blob each source serves for a hash, the hash function, the time of each request, and the cache's settings. */
  datatype Setting = Setting(content: Hash -> Blob, blake: Blob -> Hash, clock: nat -> int, pid: nat, budget: nat)
  {
    function Size(): Sizes {
      Lengths(content)
    }
  }

  function Perform(d: Disk, r: Request, s: Setting, n: nat): Disk {
    var temp := TempName(r.hash, s.pid, n);
    match r
    case Put(h) => Store(d, h, s.content(h), s.clock(n), temp, s.budget).disk
    case Get(h) => Lookup(d, h, s.blake).disk
    case Fetch(h) =>
      var a := Lookup(d, h, s.blake);
      if a.data.Some? then a.disk else Store(a.disk, h, s.content(h), s.clock(n), temp, s.budget).disk
  }

  /** The cache after `requests`, started on an empty directory. */
  function History(requests: seq<Request>, s: Setting): Disk {
    if requests == [] then Disk(map[], EMPTY)
    else Perform(History(requests[..|requests| - 1], s), requests[|requests| - 1], s, |requests| - 1)
  }

  /** Every file is a complete blob under its own name, and the index is in step. */
  ghost predicate OnlyBlobs(d: Disk, content: Hash -> Blob) {
    && InSync(d)
    && (forall name :: name in d.dir ==> FromHex(name).Some? && NamesBlob(d.dir, name, FromHex(name).value, content))
  }

  ghost predicate NamesBlob(dir: Directory, name: string, h: Hash, content: Hash -> Blob) {
    name == ToHex(h) && HasBlob(dir, h) && dir[name].data == content(h)
  }

  lemma BlobIsContent(d: Disk, content: Hash -> Blob, h: Hash)
    requires OnlyBlobs(d, content) && HasBlob(d.dir, h)
    ensures d.dir[ToHex(h)].data == content(h)
  {
    HexRoundTrip(h);
  }

  lemma NothingBlocks(d: Disk, content: Hash -> Blob, h: Hash, temp: string)
    requires OnlyBlobs(d, content) && |temp| > 64
    ensures !Blocked(d.dir, h, temp) && temp !in d.dir
  {
  }

  lemma SyncedIsSized(d: Disk, s: Setting)
    requires OnlyBlobs(d, s.content)
    ensures Sized(d.index, s.Size())
  {
    hide ToHex, FromHex, Valid;
    forall h | h in d.index.entries ensures d.index.entries[h] == s.Size()(h) {
      BlobIsContent(d, s.content, h);
    }
  }

  // ---------------------------------------------------------------- refinement

  lemma StoreKeepsBlobs(d: Disk, h: Hash, now: int, temp: string, s: Setting)
    requires OnlyBlobs(d, s.content) && |temp| > 64
    ensures var r := Store(d, h, s.content(h), now, temp, s.budget).disk;
      && OnlyBlobs(r, s.content)
      && r.index == Stored(d.index, h, s.Size(), s.budget)
      && (forall g :: g != h && HasBlob(r.dir, g) ==> HasBlob(d.dir, g) && r.dir[ToHex(g)] == d.dir[ToHex(g)])
      && (|s.content(h)| <= s.budget ==> HasBlob(r.dir, h) && r.dir[ToHex(h)] == File(s.content(h), now, true))
  {
    hide Valid, Inserted, ToHex, FromHex, RemoveBlobs, Store, Blocked;
    NothingBlocks(d, s.content, h, temp);
    StoreKeepsSync(d, h, s.content(h), now, temp, s.budget);
    StoreOutcome(d, h, s.content(h), now, temp, s.budget);
    if |s.content(h)| <= s.budget {
      var placed := StoreParts(d, h, s.content(h), now, temp, s.budget);
      var r := Store(d, h, s.content(h), now, temp, s.budget).disk;
      var evicted := Inserted(d.index, h, |s.content(h)|, s.budget).evicted;
      forall g ensures g != h && HasBlob(r.dir, g) ==> HasBlob(d.dir, g) && r.dir[ToHex(g)] == d.dir[ToHex(g)] {
        StoreMeans(d, h, s.content(h), now, temp, s.budget, g);
      }
      StoreMeans(d, h, s.content(h), now, temp, s.budget, h);
      forall name | name in r.dir
        ensures FromHex(name).Some? && NamesBlob(r.dir, name, FromHex(name).value, s.content)
      {
        RemoveBlobsMeans(placed, evicted, name);
        HexRoundTrip(h);
      }
    }
  }

  lemma LookupKeepsBlobs(d: Disk, h: Hash, s: Setting)
    requires OnlyBlobs(d, s.content) && Verifies(s.blake, h, s.content(h))
    ensures var a := Lookup(d, h, s.blake);
      && OnlyBlobs(a.disk, s.content) && a.disk.dir == d.dir
      && a.data == (if h in d.index.entries then Some(s.content(h)) else None)
      && a.disk.index == (if h in d.index.entries then Touched(d.index, h) else d.index)
  {
    LookupMeans(d, h, s.blake);
    if HasBlob(d.dir, h) { BlobIsContent(d, s.content, h); }
    hide ToHex, FromHex, Valid, Touched;
  }

  lemma PerformRefinesServe(d: Disk, r: Request, s: Setting, n: nat)
    requires OnlyBlobs(d, s.content) && (r.Put? || Verifies(s.blake, r.hash, s.content(r.hash)))
    ensures OnlyBlobs(Perform(d, r, s, n), s.content)
    ensures Perform(d, r, s, n).index == Serve(d.index, r, s.Size(), s.budget)
  {
    hide ToHex, FromHex, Valid, Touched, OnlyBlobs, Store, Lookup, Stored;
    var temp := TempName(r.hash, s.pid, n);
    TempIsLong(r.hash, s.pid, n);
    StoreKeepsBlobs(d, r.hash, s.clock(n), temp, s);
    if !r.Put? {
      LookupKeepsBlobs(d, r.hash, s);
    }
  }

  ghost predicate Genuine(requests: seq<Request>, s: Setting) {
    forall i :: 0 <= i < |requests| ==>
      requests[i].Put? || Verifies(s.blake, requests[i].hash, s.content(requests[i].hash))
  }

  /**
    The cache on disk refines the index alone: files and index never get out of step, every file is the complete blob
    for its name, and the queue is what the same requests leave in the index - the longest most recent run that fits.
   */
  lemma {:induction false} HistoryRefinesRun(requests: seq<Request>, s: Setting)
    requires Genuine(requests, s)
    ensures OnlyBlobs(History(requests, s), s.content)
    ensures History(requests, s).index == Run(requests, s.Size(), s.budget)
    ensures History(requests, s).index.lru
         == LongestRun(Recency(Accesses(requests, s.Size(), s.budget)), s.Size(), s.budget)
  {
    hide Perform, Serve, Accesses, LongestRun, FromHex, ToHex, OnlyBlobs;
    if requests == [] {
      EmptyIsOnlyBlobs(s.content);
    } else {
      HistoryRefinesRun(requests[..|requests| - 1], s);
      PerformRefinesServe(History(requests[..|requests| - 1], s), requests[|requests| - 1], s, |requests| - 1);
    }
    HeldRun(requests, s);
  }

  lemma HeldRun(requests: seq<Request>, s: Setting)
    ensures Run(requests, s.Size(), s.budget).lru
         == LongestRun(Recency(Accesses(requests, s.Size(), s.budget)), s.Size(), s.budget)
  {
    hide Run, LongestRun, Recency, Accesses;
    RunHoldsLongestRun(requests, s.Size(), s.budget);
  }

  lemma EmptyIsOnlyBlobs(content: Hash -> Blob)
    ensures OnlyBlobs(Disk(map[], EMPTY), content)
  {
  }

  /** On disk too, a cache with a smaller budget never holds a blob that one with a larger budget lacks. */
  lemma SmallerHoldsSubset(requests: seq<Request>, s: Setting, small: nat, h: Hash)
    requires Genuine(requests, s) && AllFilled(requests, s.Size(), small) && small <= s.budget
    requires HasBlob(History(requests, s.(budget := small)).dir, h)
    ensures HasBlob(History(requests, s).dir, h)
  {
    hide *;
    var t := s.(budget := small);
    SizeIgnoresBudget(s, t);
    GenuineIgnoresBudget(requests, s, small);
    HistoryRefinesRun(requests, s);
    HistoryRefinesRun(requests, t);
    SmallerIsEndOfLarger(requests, s.Size(), small, s.budget);
    SyncedBlobs(History(requests, s), s.content, h);
    SyncedBlobs(History(requests, t), s.content, h);
  }

  lemma GenuineIgnoresBudget(requests: seq<Request>, s: Setting, small: nat)
    requires Genuine(requests, s)
    ensures Genuine(requests, s.(budget := small))
  {
  }

  lemma SyncedBlobs(d: Disk, content: Hash -> Blob, h: Hash)
    requires OnlyBlobs(d, content)
    ensures h in d.index.entries.Keys <==> HasBlob(d.dir, h)
  {
  }

  // ---------------------------------------------------------------- ages

  /** The position of the last request for `h`, or -1. */
  function LastAt(requests: seq<Request>, h: Hash): int {
    if requests == [] then -1
    else if requests[|requests| - 1].hash == h then |requests| - 1
    else LastAt(requests[..|requests| - 1], h)
  }

  function LastIn(requests: seq<Request>): Hash -> int {
    (h: Hash) => LastAt(requests, h)
  }

  lemma {:induction false} LastAtMeans(requests: seq<Request>, h: Hash)
    ensures -1 <= LastAt(requests, h) < |requests|
    ensures h in HashesOf(requests) <==> LastAt(requests, h) >= 0
    ensures LastAt(requests, h) >= 0 ==> requests[LastAt(requests, h)].hash == h
  {
    if requests != [] { LastAtMeans(requests[..|requests| - 1], h); }
  }

  /** Least recently requested first means ascending by the last request. */
  lemma {:induction false} RecencyAscends(requests: seq<Request>)
    ensures Ascends(Recency(HashesOf(requests)), LastIn(requests))
  {
    hide LastAt;
    if requests != [] {
      var init, h := requests[..|requests| - 1], requests[|requests| - 1].hash;
      var past, hashes := Recency(HashesOf(init)), HashesOf(requests);
      assert hashes[..|hashes| - 1] == HashesOf(init);
      RecencyAscends(init);
      RecencyIsDistinct(HashesOf(init));
      WithoutAscends(past, h, LastIn(init));
      var others := Without(past, h);
      assert Recency(hashes) == others + [h];
      forall i, j | 0 <= i < j < |others + [h]|
        ensures LastAt(requests, (others + [h])[i]) < LastAt(requests, (others + [h])[j])
      {
        LastAtStep(requests, (others + [h])[i]);
        LastAtStep(requests, (others + [h])[j]);
      }
    }
  }

  lemma LastAtStep(requests: seq<Request>, h: Hash)
    requires requests != []
    ensures var last := requests[|requests| - 1].hash;
      LastAt(requests, h) == if h == last then |requests| - 1 else LastAt(requests[..|requests| - 1], h)
    ensures LastAt(requests[..|requests| - 1], h) < |requests| - 1
  {
  }

  lemma WithoutAscends(s: seq<Hash>, h: Hash, age: Hash -> int)
    requires Distinct(s) && Ascends(s, age)
    ensures Ascends(Without(s, h), age) && h !in Without(s, h)
  {
    hide Distinct;
    if h in s {
      var a, b := SplitAt(s, h);
      forall i, j | 0 <= i < j < |a + b| ensures age((a + b)[i]) < age((a + b)[j]) {
        assert (a + b)[i] == s[if i < |a| then i else i + 1];
        assert (a + b)[j] == s[if j < |a| then j else j + 1];
      }
    } else {
      WithoutAbsent(s, h);
    }
  }

  predicate AllPuts(requests: seq<Request>) {
    forall i :: 0 <= i < |requests| ==> requests[i].Put?
  }

  /** Time moves between requests. */
  ghost predicate Ticks(clock: nat -> int, n: nat) {
    forall i, j :: 0 <= i < j < n ==> clock(i) < clock(j)
  }

  lemma GenuinePuts(requests: seq<Request>, s: Setting)
    requires AllPuts(requests)
    ensures Genuine(requests, s)
  {
  }

  /** Each file is the one that the last put of its hash wrote. */
  lemma {:induction false} FilesAreLastPuts(requests: seq<Request>, s: Setting, h: Hash)
    requires AllPuts(requests) && AllFilled(requests, s.Size(), s.budget)
    requires HasBlob(History(requests, s).dir, h)
    ensures LastAt(requests, h) >= 0
    ensures History(requests, s).dir[ToHex(h)] == File(s.content(h), s.clock(LastAt(requests, h)), true)
  {
    hide Store, FromHex, ToHex, OnlyBlobs, Lookup, Genuine;
    if requests != [] {
      var n := |requests| - 1;
      var init, r := requests[..n], requests[n];
      GenuinePuts(init, s);
      HistoryRefinesRun(init, s);
      TempIsLong(r.hash, s.pid, n);
      StoreKeepsBlobs(History(init, s), r.hash, s.clock(n), TempName(r.hash, s.pid, n), s);
      assert r == Put(r.hash);
      if h != r.hash {
        assert AllFilled(init, s.Size(), s.budget);
        FilesAreLastPuts(init, s, h);
      }
    }
  }

  // ---------------------------------------------------------------- restarts

  lemma FilledHistory(requests: seq<Request>, s: Setting)
    requires AllPuts(requests) && AllFilled(requests, s.Size(), s.budget)
    ensures OnlyBlobs(History(requests, s), s.content)
    ensures History(requests, s).index.lru == LongestRun(Recency(HashesOf(requests)), s.Size(), s.budget)
  {
    hide History, Recency, LongestRun, OnlyBlobs, AllFilled, Accesses;
    GenuinePuts(requests, s);
    HistoryRefinesRun(requests, s);
    FilledAccesses(requests, s.Size(), s.budget, s.budget);
  }

  lemma PutAge(requests: seq<Request>, s: Setting, h: Hash)
    requires AllPuts(requests) && AllFilled(requests, s.Size(), s.budget)
    requires HasBlob(History(requests, s).dir, h)
    ensures 0 <= LastAt(requests, h) < |requests| && requests[LastAt(requests, h)].hash == h
    ensures Age(History(requests, s).dir, h) == s.clock(LastAt(requests, h))
  {
    hide History, LastAt;
    FilesAreLastPuts(requests, s, h);
    LastAtMeans(requests, h);
  }

  /** After puts alone, the queue is the order of the files' ages. */
  lemma PutsAreByAge(requests: seq<Request>, s: Setting)
    requires AllPuts(requests) && AllFilled(requests, s.Size(), s.budget) && Ticks(s.clock, |requests|)
    ensures ByAge(History(requests, s).dir, History(requests, s).index.lru)
    ensures AgesDiffer(History(requests, s).dir)
  {
    hide *;
    var d := History(requests, s);
    var past := Recency(HashesOf(requests));
    FilledHistory(requests, s);
    RecencyAscends(requests);
    RunOfAscending(past, LastIn(requests), s.Size(), s.budget);
    QueueHasBlobs(d, s.content);
    forall h | HasBlob(d.dir, h)
      ensures 0 <= LastIn(requests)(h) < |requests| && Age(d.dir, h) == s.clock(LastIn(requests)(h))
      ensures requests[LastIn(requests)(h)].hash == h
    {
      PutAge(requests, s, h);
      LastInIs(requests, h);
    }
    TimedAges(d.dir, d.index.lru, requests, s.clock);
    SyncedQueueIsByAge(d);
  }

  lemma LastInIs(requests: seq<Request>, h: Hash)
    ensures LastIn(requests)(h) == LastAt(requests, h)
  {
  }

  lemma RunOfAscending(past: seq<Hash>, age: Hash -> int, size: Sizes, budget: nat)
    requires Ascends(past, age)
    ensures Ascends(LongestRun(past, size, budget), age)
  {
  }

  lemma QueueHasBlobs(d: Disk, content: Hash -> Blob)
    requires OnlyBlobs(d, content)
    ensures InSync(d) && forall h :: h in d.index.lru ==> HasBlob(d.dir, h)
  {
  }

  lemma SyncedQueueIsByAge(d: Disk)
    requires InSync(d) && AgesAscend(d.dir, d.index.lru)
    ensures ByAge(d.dir, d.index.lru)
  {
  }

  /** Files written at the last requests for their hashes are as old as those requests. */
  lemma TimedAges(dir: Directory, queue: seq<Hash>, requests: seq<Request>, clock: nat -> int)
    requires Ascends(queue, LastIn(requests)) && Ticks(clock, |requests|)
    requires forall h :: h in queue ==> HasBlob(dir, h)
    requires forall h :: HasBlob(dir, h) ==>
      0 <= LastIn(requests)(h) < |requests| && Age(dir, h) == clock(LastIn(requests)(h))
      && requests[LastIn(requests)(h)].hash == h
    ensures AgesAscend(dir, queue) && AgesDiffer(dir)
  {
  }

  lemma OnlyBlobsIsCanonical(d: Disk, content: Hash -> Blob)
    requires OnlyBlobs(d, content)
    ensures CanonicalNames(d.dir)
  {
    hide ToHex, FromHex, Valid, LowerCase;
    forall name | IsEntry(d.dir, name) ensures LowerCase(name) {
      HexSpelling(name);
    }
  }

  function Min(a: nat, b: nat): nat {
    if a <= b then a else b
  }

  /** Shrinking a run that fits `large` to `small`, or to a budget that is no smaller. */
  lemma RunAtSmaller(past: seq<Hash>, size: Sizes, small: nat, large: nat)
    ensures LongestRun(LongestRun(past, size, large), size, small) == LongestRun(past, size, Min(small, large))
  {
  }

  lemma ReopenedQueue(requests: seq<Request>, s: Setting, order: seq<string>, budget: nat)
    requires AllPuts(requests) && AllFilled(requests, s.Size(), s.budget) && Ticks(s.clock, |requests|)
    requires Lists(History(requests, s).dir, order)
    ensures var o := Open(History(requests, s).dir, order, budget);
      && InSync(o)
      && o.index.lru == LongestRun(Recency(HashesOf(requests)), s.Size(), Min(budget, s.budget))
  {
    hide *;
    var d := History(requests, s);
    FilledHistory(requests, s);
    OnlyBlobsIsCanonical(d, s.content);
    var all := OpenRecovers(d.dir, order, budget);
    PutsAreByAge(requests, s);
    ByAgeIsUnique(d.dir, all, d.index.lru);
    SizesOnDisk(d, s);
    LongestRunSame(all, FileSize(d.dir), s.Size(), budget);
    RunAtSmaller(Recency(HashesOf(requests)), s.Size(), budget, s.budget);
  }

  lemma SizesOnDisk(d: Disk, s: Setting)
    requires OnlyBlobs(d, s.content)
    ensures forall h :: h in d.index.lru ==> FileSize(d.dir)(h) == s.Size()(h)
  {
    hide ToHex, FromHex, Distinct, Total, HasBlob;
    forall h | h in d.index.lru ensures FileSize(d.dir)(h) == s.Size()(h) {
      assert HasBlob(d.dir, h);
      BlobIsContent(d, s.content, h);
      FileSizeOf(d.dir, h);
    }
  }

  /** A reopened directory of whole blobs is a directory of whole blobs, file by file as before. */
  lemma ReopenedBlobs(d: Disk, order: seq<string>, budget: nat, content: Hash -> Blob)
    requires OnlyBlobs(d, content) && Lists(d.dir, order)
    ensures var o := Open(d.dir, order, budget);
      && OnlyBlobs(o, content)
      && (forall name :: name in o.dir ==> name in d.dir && o.dir[name] == d.dir[name])
  {
    hide Open, Evict, Filled, IsTemp, ToHex, FromHex, Valid;
    OnlyBlobsIsCanonical(d, content);
    var _ := OpenRecovers(d.dir, order, budget);
    var o := Open(d.dir, order, budget);
    forall name | name in o.dir
      ensures name in d.dir && o.dir[name] == d.dir[name]
      ensures FromHex(name).Some? && NamesBlob(o.dir, name, FromHex(name).value, content)
    {
      OpenTakesOnly(d.dir, order, budget, name);
    }
  }

  /**
    Restart equivalence: after any puts, spaced in time, reopening under any budget that each blob fits gives the same
    queue, sizes, total and files as if the cache had run under the smaller of the two budgets from the start.
   */
  lemma RestartEquivalence(requests: seq<Request>, s: Setting, order: seq<string>, budget: nat)
    requires AllPuts(requests) && AllFilled(requests, s.Size(), Min(budget, s.budget)) && Ticks(s.clock, |requests|)
    requires Lists(History(requests, s).dir, order)
    ensures Open(History(requests, s).dir, order, budget) == History(requests, s.(budget := Min(budget, s.budget)))
  {
    hide *;
    var t := s.(budget := Min(budget, s.budget));
    FilledAtLarger(requests, s, Min(budget, s.budget));
    MinIsSmaller(budget, s.budget);
    SizeIgnoresBudget(s, t);
    var d, e, o := History(requests, s), History(requests, t), Open(History(requests, s).dir, order, budget);
    FilledHistory(requests, s);
    FilledHistory(requests, t);
    ReopenedQueue(requests, s, order, budget);
    ReopenedBlobs(d, order, budget, s.content);
    QueueHasBlobs(o, s.content);
    QueueHasBlobs(e, s.content);
    SyncedIsValid(o);
    SyncedIsValid(e);
    SyncedIsSized(o, s);
    SyncedIsSized(e, t);
    SameIndex(o.index, e.index, s.Size());
    forall name
      ensures name in o.dir <==> name in e.dir
      ensures name in o.dir ==> o.dir[name] == e.dir[name]
    {
      SameName(o, e, s.content, name);
      if name in o.dir {
        HasItsBlob(o, s.content, name);
        HasItsBlob(e, s.content, name);
        HasItsBlob(d, s.content, name);
        FilesAreLastPuts(requests, s, FromHex(name).value);
        FilesAreLastPuts(requests, t, FromHex(name).value);
      }
    }
    assert o.dir == e.dir;
  }

  lemma MinIsSmaller(a: nat, b: nat)
    ensures Min(a, b) <= a && Min(a, b) <= b
  {
  }

  lemma SizeIgnoresBudget(s: Setting, t: Setting)
    requires s.content == t.content
    ensures s.Size() == t.Size()
  {
  }

  lemma FilledAtLarger(requests: seq<Request>, s: Setting, small: nat)
    requires AllFilled(requests, s.Size(), small)
    ensures small <= s.budget ==> AllFilled(requests, s.Size(), s.budget)
  {
  }

  lemma HasItsBlob(d: Disk, content: Hash -> Blob, name: string)
    requires OnlyBlobs(d, content) && name in d.dir
    ensures FromHex(name).Some? && name == ToHex(FromHex(name).value) && HasBlob(d.dir, FromHex(name).value)
  {
  }

  lemma SameName(o: Disk, e: Disk, content: Hash -> Blob, name: string)
    requires OnlyBlobs(o, content) && OnlyBlobs(e, content) && o.index == e.index
    ensures name in o.dir <==> name in e.dir
  {
  }

  // ---------------------------------------------------------------- what a restart forgets

  /**
    Reopening an intact cache under the same budget gives back its very index exactly when the queue is in the order of
    the files' ages.
   */
  lemma RestartKeepsIndexIff(d: Disk, order: seq<string>, budget: nat)
    requires InSync(d) && CanonicalNames(d.dir) && AgesDiffer(d.dir) && d.index.total <= budget
    requires Lists(d.dir, order)
    ensures Open(d.dir, order, budget).index == d.index <==> AgesAscend(d.dir, d.index.lru)
  {
    hide *;
    var all := OpenRecovers(d.dir, order, budget);
    var o := Open(d.dir, order, budget);
    SyncedQueue(d, all);
    FootprintIsTotal(d, all);
    WholeRun(all, FileSize(d.dir), budget);
    assert o.index.lru == all;
    if AgesAscend(d.dir, d.index.lru) {
      ByAgeIsUnique(d.dir, all, d.index.lru);
      SizedByFiles(d, d.dir);
      ReopenedSizes(d, o, order, budget);
      SameIndex(o.index, d.index, FileSize(d.dir));
    } else {
      ByAgeMeans(d.dir, all);
    }
  }

  lemma ByAgeMeans(dir: Directory, all: seq<Hash>)
    requires ByAge(dir, all)
    ensures AgesAscend(dir, all)
  {
  }

  lemma SyncedQueue(d: Disk, all: seq<Hash>)
    requires InSync(d) && ByAge(d.dir, all)
    ensures Distinct(all) && forall h :: h in all <==> HasBlob(d.dir, h)
    ensures Valid(d.index)
    ensures AgesAscend(d.dir, d.index.lru) ==> ByAge(d.dir, d.index.lru)
  {
  }

  lemma WholeRun(all: seq<Hash>, size: Sizes, budget: nat)
    requires Bytes(all, size) <= budget
    ensures LongestRun(all, size, budget) == all
  {
  }

  /** So a hit on any blob but the newest is forgotten by a restart: recency is not written down. */
  lemma HitsAreForgotten(d: Disk, h: Hash, blake: Blob -> Hash, order: seq<string>, budget: nat)
    requires InSync(d) && CanonicalNames(d.dir) && AgesDiffer(d.dir) && d.index.total <= budget
    requires Lists(d.dir, order) && AgesAscend(d.dir, d.index.lru)
    requires Lookup(d, h, blake).data.Some? && d.index.lru[|d.index.lru| - 1] != h
    ensures var after := Lookup(d, h, blake).disk; Open(after.dir, order, budget).index != after.index
  {
    hide *;
    var after := Lookup(d, h, blake).disk;
    LookupMeans(d, h, blake);
    SyncedIsValid(d);
    LookupNeverLies(d, h, blake);
    HitReorders(d, h, blake);
    RestartKeepsIndexIff(after, order, budget);
  }

  lemma HitReorders(d: Disk, h: Hash, blake: Blob -> Hash)
    requires InSync(d) && AgesDiffer(d.dir) && AgesAscend(d.dir, d.index.lru)
    requires Lookup(d, h, blake).data.Some? && d.index.lru[|d.index.lru| - 1] != h
    ensures !AgesAscend(d.dir, Lookup(d, h, blake).disk.index.lru)
    ensures Lookup(d, h, blake).disk.dir == d.dir
  {
    hide Distinct, Total, Age, ToHex;
    var s := d.index.lru;
    var newest := s[|s| - 1];
    var a, b := SplitAt(s, h);
    PositionFinds(s, h);
    var t := Lookup(d, h, blake).disk.index.lru;
    assert t == a + b + [h];
    assert b != [] && b[|b| - 1] == newest;
    assert t[|a| + |b| - 1] == newest && t[|a| + |b|] == h;
    assert s[|a|] == h && h in s && newest in s;
    assert Age(d.dir, h) <= Age(d.dir, newest);
    assert HasBlob(d.dir, h) && HasBlob(d.dir, newest);
  }

  // ---------------------------------------------------------------- such a cache

  /** Two blobs of one byte, g stored before h. */
  function TwoBlobs(g: Hash, x: bv8, h: Hash, y: bv8): Disk {
    Disk(map[ToHex(g) := File([x], 0, true), ToHex(h) := File([y], 1, true)], Index(map[g := 1, h := 1], [g, h], 2))
  }

  lemma TwoBlobsHas(g: Hash, x: bv8, h: Hash, y: bv8, k: Hash)
    requires g != h
    ensures HasBlob(TwoBlobs(g, x, h, y).dir, k) <==> k == g || k == h
    ensures ToHex(g) != ToHex(h)
  {
    hide FromHex, IsTemp, LowerCase;
    if ToHex(g) == ToHex(h) { ToHexIsInjective(g, h); }
    if ToHex(k) == ToHex(g) { ToHexIsInjective(k, g); }
    if ToHex(k) == ToHex(h) { ToHexIsInjective(k, h); }
  }

  lemma TwoBlobsInSync(g: Hash, x: bv8, h: Hash, y: bv8)
    requires g != h
    ensures var d := TwoBlobs(g, x, h, y);
      && InSync(d) && CanonicalNames(d.dir) && AgesDiffer(d.dir) && AgesAscend(d.dir, d.index.lru)
      && Lists(d.dir, [ToHex(g), ToHex(h)])
  {
    HexRoundTrip(g);
    HexRoundTrip(h);
    hide ToHex, FromHex, IsTemp, LowerCase, Valid;
    forall k { TwoBlobsHas(g, x, h, y, k); }
    TwoEntriesValid(g, h);
    var order := [ToHex(g), ToHex(h)];
    assert order[0] == ToHex(g) && order[1] == ToHex(h);
  }

  lemma TwoEntriesValid(g: Hash, h: Hash)
    requires g != h
    ensures Valid(Index(map[g := 1, h := 1], [g, h], 2))
  {
    var entries := map[g := 1, h := 1];
    assert [g, h][1..] == [h] && [h][1..] == [];
    assert Total([h], entries) == 1;
    assert Total([g, h], entries) == 2;
  }

  lemma OlderHit(g: Hash, x: bv8, h: Hash, y: bv8, blake: Blob -> Hash)
    requires g != h && Verifies(blake, g, [x])
    ensures var d := TwoBlobs(g, x, h, y);
      Lookup(d, g, blake) == Answer(Disk(d.dir, Index(d.index.entries, [h, g], 2)), Some([x]))
  {
    TwoBlobsHas(g, x, h, y, g);
    hide ToHex;
    assert Without([g, h], g) == [h];
  }

  /** Looking up the older of two blobs is forgotten: a cache and a lookup as `HitsAreForgotten` asks for. */
  lemma ForgottenHit(g: Hash, x: bv8, h: Hash, y: bv8, blake: Blob -> Hash)
    requires g != h && Verifies(blake, g, [x])
    ensures var after := Lookup(TwoBlobs(g, x, h, y), g, blake).disk;
      && after.index.lru == [h, g]
      && Open(after.dir, [ToHex(g), ToHex(h)], 2).index != after.index
  {
    hide ToHex, InSync, CanonicalNames, AgesDiffer, AgesAscend, Lists, Open, Lookup;
    TwoBlobsInSync(g, x, h, y);
    OlderHit(g, x, h, y, blake);
    HitsAreForgotten(TwoBlobs(g, x, h, y), g, blake, [ToHex(g), ToHex(h)], 2);
  }
}

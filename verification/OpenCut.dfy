/** Opening that is cut short by a crash, and starting over from what it leaves. */
module CutOpening {
  import opened Digits
  import opened Blake
  import opened Lru
  import opened RecentRun
  import opened StableSort
  import opened Directories
  import opened Reopening

  /** The files when opening is cut short after `swept` names of the scan or, that done, `removed` evictions. */
  function PartOpened(dir: Directory, order: seq<string>, budget: nat, swept: nat, removed: nat): Directory {
    if swept < |order| then Sweep(dir, order[..swept])
    else
      var evicted := Evict(Filled(dir, order), 0, budget).evicted;
      RemoveBlobs(Sweep(dir, order), if removed <= |evicted| then evicted[..removed] else evicted)
  }

  /**
    Exactly what is gone: of the first `swept` names the scratch files, and once all are swept the files of the first
    `removed` blobs that opening evicts.
   */
  lemma PartOpenedTakes(dir: Directory, order: seq<string>, budget: nat, swept: nat, removed: nat, name: string)
    requires Lists(dir, order)
    ensures var after := PartOpened(dir, order, budget, swept, removed);
      var evicted := Evict(Filled(dir, order), 0, budget).evicted;
      && (name in after ==> name in dir && after[name] == dir[name])
      && (name in after <==>
           && name in dir
           && !(dir[name].regular && IsTemp(name) && Among(order, swept, name))
           && !(dir[name].regular && swept >= |order| && BlobAmong(evicted, removed, name)))
  {
    hide Evict, Filled, IsTemp, ToHex, Sweep, RemoveBlobs;
    var evicted := Evict(Filled(dir, order), 0, budget).evicted;
    AmongFirst(order, swept, name);
    if swept < |order| {
      SweepMeans(dir, order[..swept], name);
    } else {
      SweepMeans(dir, order, name);
      BlobAmongFirst(evicted, removed, name);
      RemoveBlobsMeans(Sweep(dir, order), if removed <= |evicted| then evicted[..removed] else evicted, name);
    }
  }

  predicate Among(order: seq<string>, count: nat, name: string) {
    exists i :: 0 <= i < count && i < |order| && order[i] == name
  }

  predicate BlobAmong(evicted: seq<Hash>, count: nat, name: string) {
    exists i :: 0 <= i < count && i < |evicted| && ToHex(evicted[i]) == name
  }

  lemma AmongFirst(order: seq<string>, count: nat, name: string)
    ensures Among(order, count, name) <==> name in if count < |order| then order[..count] else order
  {
  }

  lemma BlobAmongFirst(evicted: seq<Hash>, count: nat, name: string)
    ensures BlobAmong(evicted, count, name)
       <==> exists h :: h in (if count <= |evicted| then evicted[..count] else evicted) && name == ToHex(h)
  {
    hide ToHex;
    var gone := if count <= |evicted| then evicted[..count] else evicted;
    if h :| h in gone && name == ToHex(h) {
      var i :| 0 <= i < |gone| && gone[i] == h;
      assert ToHex(evicted[i]) == name;
    }
    if i :| 0 <= i < count && i < |evicted| && ToHex(evicted[i]) == name {
      assert gone[i] == evicted[i];
    }
  }

  /** Cut short at its very beginning, opening has done nothing; cut short at its very end, all it does to the files. */
  lemma PartOpenedBounds(dir: Directory, order: seq<string>, budget: nat, swept: nat, removed: nat)
    requires Lists(dir, order)
    ensures PartOpened(dir, order, budget, 0, 0) == dir
    ensures swept >= |order| && removed >= |Evict(Filled(dir, order), 0, budget).evicted| ==>
      PartOpened(dir, order, budget, swept, removed) == Open(dir, order, budget).dir
  {
    var evicted := Evict(Filled(dir, order), 0, budget).evicted;
    assert order[..0] == [] && evicted[..0] == [] && evicted[..|evicted|] == evicted;
    assert order == [] ==> Sweep(dir, order) == dir;
    assert RemoveBlobs(dir, []) == dir;
    hide Evict, Filled, IsTemp, ToHex;
    var e := OpenIs(dir, order, budget);
  }

  /** Nothing is created or changed, and a blob can only go when it is one of the oldest that opening evicts. */
  lemma PartOpenedKeeps(dir: Directory, order: seq<string>, budget: nat, swept: nat, removed: nat, h: Hash)
    ensures var after := PartOpened(dir, order, budget, swept, removed);
      && (HasBlob(after, h) ==> HasBlob(dir, h) && after[ToHex(h)] == dir[ToHex(h)])
      && (HasBlob(dir, h) && h !in Evict(Filled(dir, order), 0, budget).evicted ==> HasBlob(after, h))
  {
    hide Evict, Filled, IsTemp, ToHex, Sweep, RemoveBlobs;
    HexIsNotTemp(h);
    var evicted := Evict(Filled(dir, order), 0, budget).evicted;
    if swept < |order| {
      SweepMeans(dir, order[..swept], ToHex(h));
    } else {
      SweepMeans(dir, order, ToHex(h));
      RemovedBlobs(Sweep(dir, order), if removed <= |evicted| then evicted[..removed] else evicted, h);
    }
  }

  lemma PartOpenedNames(dir: Directory, order: seq<string>, budget: nat, swept: nat, removed: nat, name: string)
    ensures var after := PartOpened(dir, order, budget, swept, removed);
      name in after ==> name in dir && after[name] == dir[name]
  {
    hide Evict, Filled, IsTemp, ToHex, Sweep, RemoveBlobs;
    var evicted := Evict(Filled(dir, order), 0, budget).evicted;
    if swept < |order| {
      SweepMeans(dir, order[..swept], name);
    } else {
      SweepMeans(dir, order, name);
      RemoveBlobsMeans(Sweep(dir, order), if removed <= |evicted| then evicted[..removed] else evicted, name);
    }
  }

  lemma PartOpenedIsCanonical(dir: Directory, order: seq<string>, budget: nat, swept: nat, removed: nat)
    requires CanonicalNames(dir)
    ensures CanonicalNames(PartOpened(dir, order, budget, swept, removed))
  {
    hide PartOpened, FromHex, IsTemp, LowerCase;
    var after := PartOpened(dir, order, budget, swept, removed);
    forall name | IsEntry(after, name) ensures LowerCase(name) {
      PartOpenedNames(dir, order, budget, swept, removed, name);
      assert IsEntry(dir, name);
    }
  }

  // ---------------------------------------------------------------- starting over after opening was cut short

  /** The longest run does not change when older blobs that are not in it go. */
  lemma {:induction false} RunOfEnd(all: seq<Hash>, k: nat, size: Sizes, budget: nat)
    requires k <= |all| - |LongestRun(all, size, budget)|
    ensures LongestRun(all[k..], size, budget) == LongestRun(all, size, budget)
  {
    if k == 0 {
      assert all[0..] == all;
    } else {
      RunOfEnd(all[1..], k - 1, size, budget);
      assert all[1..][k - 1..] == all[k..];
    }
  }

  /** The evicted blobs are the old ones in front of the run, in the order of their ages. */
  lemma EvictedInFront(dir: Directory, order: seq<string>, budget: nat)
    requires Lists(dir, order) && CanonicalNames(dir)
    ensures var v, e := Filled(dir, order), Evict(Filled(dir, order), 0, budget);
      && Valid(v) && ByAge(dir, v.lru) && Sized(v, FileSize(dir))
      && v.lru == e.evicted + e.index.lru && e.index.lru == LongestRun(v.lru, FileSize(dir), budget)
  {
    hide *;
    FilledIsByAge(dir, order);
    EvictParts(Filled(dir, order), 0, budget);
    EvictLeavesLongestRun(Filled(dir, order), 0, budget, FileSize(dir));
  }

  /** How many of the oldest blobs are gone when opening is cut short. */
  function Gone(dir: Directory, order: seq<string>, budget: nat, swept: nat, removed: nat): nat {
    var count := |Evict(Filled(dir, order), 0, budget).evicted|;
    if swept < |order| then 0 else if removed <= count then removed else count
  }

  lemma PartOpenedBlobs(dir: Directory, order: seq<string>, budget: nat, swept: nat, removed: nat, h: Hash)
    ensures var after, k := PartOpened(dir, order, budget, swept, removed), Gone(dir, order, budget, swept, removed);
      var evicted := Evict(Filled(dir, order), 0, budget).evicted;
      && k <= |evicted|
      && (HasBlob(after, h) <==> HasBlob(dir, h) && h !in evicted[..k])
      && (HasBlob(after, h) ==> after[ToHex(h)] == dir[ToHex(h)])
  {
    hide Evict, Filled, IsTemp, ToHex, Sweep, RemoveBlobs;
    HexIsNotTemp(h);
    var evicted := Evict(Filled(dir, order), 0, budget).evicted;
    if swept < |order| {
      SweepMeans(dir, order[..swept], ToHex(h));
    } else {
      assert evicted[..|evicted|] == evicted;
      SweepMeans(dir, order, ToHex(h));
      RemovedBlobs(Sweep(dir, order), evicted[..Gone(dir, order, budget, swept, removed)], h);
    }
  }

  lemma GoneIsInFront(dir: Directory, order: seq<string>, budget: nat, swept: nat, removed: nat)
    ensures Gone(dir, order, budget, swept, removed) <= |Evict(Filled(dir, order), 0, budget).evicted|
  {
  }

  /** What is left is the newer end of what was there, by age. */
  lemma PartOpenedByAge(dir: Directory, order: seq<string>, budget: nat, swept: nat, removed: nat)
    requires Lists(dir, order) && CanonicalNames(dir)
    ensures var after, k := PartOpened(dir, order, budget, swept, removed), Gone(dir, order, budget, swept, removed);
      k <= |Filled(dir, order).lru| && ByAge(after, Filled(dir, order).lru[k..])
  {
    hide Evict, Filled, ToHex, PartOpened, Gone, Valid, Distinct, LongestRun, Sized, CanonicalNames, Lists;
    var after, k := PartOpened(dir, order, budget, swept, removed), Gone(dir, order, budget, swept, removed);
    EvictedInFront(dir, order, budget);
    GoneIsInFront(dir, order, budget, swept, removed);
    var all, evicted := Filled(dir, order).lru, Evict(Filled(dir, order), 0, budget).evicted;
    assert all[..k] == evicted[..k];
    assert all == all[..k] + all[k..];
    DistinctConcat(all[..k], all[k..]);
    forall h
      ensures h in all[k..] <==> HasBlob(after, h)
      ensures h in all[k..] ==> Age(after, h) == Age(dir, h)
    {
      PartOpenedBlobs(dir, order, budget, swept, removed, h);
    }
    forall i, j | 0 <= i < j < |all[k..]| ensures Age(after, all[k..][i]) <= Age(after, all[k..][j]) {
      assert all[k..][i] in all[k..] && all[k..][j] in all[k..];
      assert all[k..][i] == all[i + k] && all[k..][j] == all[j + k];
    }
  }

  lemma PartOpenedAgesDiffer(dir: Directory, order: seq<string>, budget: nat, swept: nat, removed: nat)
    requires AgesDiffer(dir)
    ensures AgesDiffer(PartOpened(dir, order, budget, swept, removed))
  {
    hide Evict, Filled, ToHex, PartOpened, Gone;
    var after := PartOpened(dir, order, budget, swept, removed);
    forall g, h | HasBlob(after, g) && HasBlob(after, h) && Age(after, g) == Age(after, h) ensures g == h {
      PartOpenedKeeps(dir, order, budget, swept, removed, g);
      PartOpenedKeeps(dir, order, budget, swept, removed, h);
    }
  }

  function Names(dir: Directory): string -> bool {
    name => name in dir
  }

  /** The second listing names what is left in the order in which the first one did. */
  ghost predicate SameOrder(order: seq<string>, other: seq<string>, after: Directory) {
    other == Keep(order, Names(after))
  }

  /** The files that survive, as the scan records them. */
  function Survives(gone: seq<Hash>): Found -> bool {
    (f: Found) => f.hash !in gone
  }

  /** Scanning what is left, in the old order, collects what survives of what the old scan collected. */
  lemma {:induction false} CollectSurvivors(dir: Directory, after: Directory, order: seq<string>, gone: seq<Hash>)
    requires CanonicalNames(dir)
    requires forall name :: name in after ==> name in dir && after[name] == dir[name]
    requires forall h :: HasBlob(after, h) <==> HasBlob(dir, h) && h !in gone
    ensures Collect(after, Keep(order, Names(after))) == Keep(Collect(dir, order), Survives(gone))
  {
    hide IsEntry, CanonicalNames, HasBlob, Keep;
    if order == [] {
      KeepNothing(Names(after));
      KeepNothing(Survives(gone));
    } else {
      var init, last := order[..|order| - 1], order[|order| - 1];
      assert order == init + [last];
      CollectSurvivors(dir, after, init, gone);
      SurvivorsLast(dir, after, init, last, gone);
    }
  }

  lemma SurvivorsLast(dir: Directory, after: Directory, init: seq<string>, last: string, gone: seq<Hash>)
    requires CanonicalNames(dir)
    requires forall name :: name in after ==> name in dir && after[name] == dir[name]
    requires forall h :: HasBlob(after, h) <==> HasBlob(dir, h) && h !in gone
    requires Collect(after, Keep(init, Names(after))) == Keep(Collect(dir, init), Survives(gone))
    ensures Collect(after, Keep(init + [last], Names(after))) == Keep(Collect(dir, init + [last]), Survives(gone))
  {
    hide IsEntry, CanonicalNames, HasBlob, Keep, Collect, Survives, EntryOf;
    var kept, found := Keep(init, Names(after)), Collect(dir, init);
    KeepConcat(init, [last], Names(after));
    KeepOne(last, Names(after));
    SurvivingEntry(dir, after, last, gone);
    CollectLast(after, kept, last);
    CollectLast(dir, init, last);
    if last in after {
      assert Keep(init + [last], Names(after)) == kept + [last];
    } else {
      assert Keep(init + [last], Names(after)) == kept + [] == kept;
    }
    if IsEntry(dir, last) {
      KeepConcat(found, [EntryOf(dir, last)], Survives(gone));
      KeepOne(EntryOf(dir, last), Survives(gone));
      assert Keep(found, Survives(gone)) + [] == Keep(found, Survives(gone));
    } else {
      assert found + [] == found;
    }
    assert Collect(after, kept) + [] == Collect(after, kept);
  }

  lemma CollectLast(dir: Directory, init: seq<string>, last: string)
    ensures Collect(dir, init + [last]) == Collect(dir, init) + if IsEntry(dir, last) then [EntryOf(dir, last)] else []
  {
    hide IsEntry;
    assert (init + [last])[..|init|] == init;
  }

  lemma SurvivingEntry(dir: Directory, after: Directory, name: string, gone: seq<Hash>)
    requires CanonicalNames(dir)
    requires forall other :: other in after ==> other in dir && after[other] == dir[other]
    requires forall h :: HasBlob(after, h) <==> HasBlob(dir, h) && h !in gone
    ensures IsEntry(after, name) <==> IsEntry(dir, name) && Survives(gone)(EntryOf(dir, name))
    ensures IsEntry(after, name) ==> EntryOf(after, name) == EntryOf(dir, name)
    ensures IsEntry(after, name) ==> name in after
  {
    hide FromHex, ToHex, LowerCase, IsTemp;
    if IsEntry(dir, name) {
      CanonicalEntry(dir, name);
    }
  }

  /** An ascending listing without its front. */
  lemma KeepBehind(sorted: seq<Found>, k: nat)
    requires Distinct(Hashes(sorted)) && k <= |sorted|
    ensures k <= |Hashes(sorted)|
    ensures Keep(sorted, Survives(Hashes(sorted)[..k])) == sorted[k..]
  {
    hide Distinct;
    HashesMeans(sorted);
    var all, p := Hashes(sorted), Survives(Hashes(sorted)[..k]);
    assert all == all[..k] + all[k..];
    DistinctConcat(all[..k], all[k..]);
    assert sorted == sorted[..k] + sorted[k..];
    KeepConcat(sorted[..k], sorted[k..], p);
    forall i | 0 <= i < k ensures !p(sorted[..k][i]) {
      assert all[..k][i] == sorted[..k][i].hash;
    }
    forall i | 0 <= i < |sorted| - k ensures p(sorted[k..][i]) {
      assert all[k..][i] == sorted[k..][i].hash;
    }
    KeepNone(sorted[..k], p);
    KeepAll(sorted[k..], p);
  }

  lemma HashesBehind(sorted: seq<Found>, k: nat)
    requires k <= |sorted|
    ensures k <= |Hashes(sorted)| && Hashes(sorted[k..]) == Hashes(sorted)[k..]
  {
    HashesMeans(sorted);
    HashesMeans(sorted[k..]);
  }

  /** Filling again from what is left, with ages that differ or in the old order, gives the newer end of the queue. */
  ghost predicate FillsNewerEnd(dir: Directory, order: seq<string>, k: nat, after: Directory, other: seq<string>) {
    k <= |Filled(dir, order).lru| && Filled(after, other).lru == Filled(dir, order).lru[k..]
  }

  lemma FillsByOrder(dir: Directory, order: seq<string>, budget: nat, swept: nat, removed: nat, other: seq<string>)
    requires Lists(dir, order) && CanonicalNames(dir)
    requires SameOrder(order, other, PartOpened(dir, order, budget, swept, removed))
    ensures FillsNewerEnd(dir, order, Gone(dir, order, budget, swept, removed),
                          PartOpened(dir, order, budget, swept, removed), other)
  {
    hide Evict, ToHex, FromHex, PartOpened, Gone, Distinct, LongestRun, Sized, CanonicalNames, Lists, Total, Collect,
      SortByMtime, Build, IsTemp, AgesAscend;
    var after, k := PartOpened(dir, order, budget, swept, removed), Gone(dir, order, budget, swept, removed);
    var found := Collect(dir, order);
    var sorted := SortByMtime(found);
    EvictedInFront(dir, order, budget);
    GoneIsInFront(dir, order, budget, swept, removed);
    BuildFills(sorted);
    HashesMeans(sorted);
    var all, evicted := Hashes(sorted), Evict(Filled(dir, order), 0, budget).evicted;
    assert all[..k] == evicted[..k];
    forall h ensures HasBlob(after, h) <==> HasBlob(dir, h) && h !in all[..k] {
      PartOpenedBlobs(dir, order, budget, swept, removed, h);
    }
    forall name ensures name in after ==> name in dir && after[name] == dir[name] {
      PartOpenedNames(dir, order, budget, swept, removed, name);
    }
    CollectSurvivors(dir, after, order, all[..k]);
    SortSurvivors(found, all[..k]);
    KeepBehind(sorted, k);
    HashesBehind(sorted, k);
    BuildFills(sorted[k..]);
  }

  lemma SortSurvivors(found: seq<Found>, gone: seq<Hash>)
    ensures SortByMtime(Keep(found, Survives(gone))) == Keep(SortByMtime(found), Survives(gone))
  {
    SortKeeps(found, MtimeOf, Survives(gone));
  }

  lemma FillsByAge(dir: Directory, order: seq<string>, budget: nat, swept: nat, removed: nat, other: seq<string>)
    requires Lists(dir, order) && CanonicalNames(dir) && AgesDiffer(dir)
    requires Lists(PartOpened(dir, order, budget, swept, removed), other)
    ensures FillsNewerEnd(dir, order, Gone(dir, order, budget, swept, removed),
                          PartOpened(dir, order, budget, swept, removed), other)
  {
    hide Evict, Filled, PartOpened, Gone, Valid, CanonicalNames, Lists, AgesDiffer, ByAge, Sized;
    var after, k := PartOpened(dir, order, budget, swept, removed), Gone(dir, order, budget, swept, removed);
    PartOpenedIsCanonical(dir, order, budget, swept, removed);
    PartOpenedAgesDiffer(dir, order, budget, swept, removed);
    PartOpenedByAge(dir, order, budget, swept, removed);
    FilledIsByAge(after, other);
    ByAgeIsUnique(after, Filled(after, other).lru, Filled(dir, order).lru[k..]);
  }

  /** Starting over fills the same queue as opening at once. */
  lemma RestartedQueue(dir: Directory, order: seq<string>, budget: nat, swept: nat, removed: nat, other: seq<string>)
    requires Lists(dir, order) && CanonicalNames(dir)
    requires Lists(PartOpened(dir, order, budget, swept, removed), other)
    requires FillsNewerEnd(dir, order, Gone(dir, order, budget, swept, removed),
                           PartOpened(dir, order, budget, swept, removed), other)
    ensures Open(PartOpened(dir, order, budget, swept, removed), other, budget).index.lru
         == Open(dir, order, budget).index.lru
  {
    hide Evict, Filled, ToHex, PartOpened, Gone, Valid, Distinct, LongestRun, Sized, CanonicalNames, Lists, ByAge,
      FileSize, Open, HasBlob;
    var after, k := PartOpened(dir, order, budget, swept, removed), Gone(dir, order, budget, swept, removed);
    var all := Filled(dir, order).lru;
    PartOpenedIsCanonical(dir, order, budget, swept, removed);
    PartOpenedByAge(dir, order, budget, swept, removed);
    EvictedInFront(dir, order, budget);
    EvictedInFront(after, other, budget);
    GoneIsInFront(dir, order, budget, swept, removed);
    forall h | h in all[k..] ensures FileSize(after)(h) == FileSize(dir)(h) {
      SyncedByAge(after, all[k..], h);
      PartOpenedKeeps(dir, order, budget, swept, removed, h);
      FileSizeOf(after, h);
      FileSizeOf(dir, h);
    }
    LongestRunSame(all[k..], FileSize(after), FileSize(dir), budget);
    RunOfEnd(all, k, FileSize(dir), budget);
    var e := OpenIs(dir, order, budget);
    var f := OpenIs(after, other, budget);
  }

  lemma SyncedByAge(dir: Directory, all: seq<Hash>, h: Hash)
    requires ByAge(dir, all) && h in all
    ensures HasBlob(dir, h)
  {
    hide Distinct, HasBlob;
  }

  /** A file that is neither scratch nor a blob of the old directory survives in both. */
  lemma OtherNames(dir: Directory, order: seq<string>, budget: nat, swept: nat, removed: nat, name: string)
    requires !(name in dir && dir[name].regular && (IsTemp(name) || FromHex(name).Some?))
    ensures name in PartOpened(dir, order, budget, swept, removed) <==> name in dir
  {
    hide Evict, Filled, IsTemp, ToHex, FromHex, Sweep, RemoveBlobs;
    var evicted := Evict(Filled(dir, order), 0, budget).evicted;
    forall h ensures FromHex(ToHex(h)).Some? { HexRoundTrip(h); }
    if swept < |order| {
      SweepMeans(dir, order[..swept], name);
    } else {
      SweepMeans(dir, order, name);
      RemoveBlobsMeans(Sweep(dir, order), if removed <= |evicted| then evicted[..removed] else evicted, name);
    }
  }

  lemma OpenedOtherNames(dir: Directory, order: seq<string>, budget: nat, name: string)
    requires Lists(dir, order) && !(name in dir && dir[name].regular && (IsTemp(name) || FromHex(name).Some?))
    ensures name in Open(dir, order, budget).dir <==> name in dir
  {
    hide Evict, Filled, IsTemp, ToHex, FromHex, Open;
    forall h ensures FromHex(ToHex(h)).Some? { HexRoundTrip(h); }
    OpenTakesOnly(dir, order, budget, name);
  }

  /**
    A crash inside opening costs nothing: opening what is left, under the same budget, ends with the index and the files
    of an opening that was never interrupted. When ages differ, that is so in whatever order the rest is listed, and
    always when it is listed in the order of the first time.
   */
  lemma OpeningIsRestartable(dir: Directory, order: seq<string>, budget: nat, swept: nat, removed: nat,
                             other: seq<string>)
    requires Lists(dir, order) && CanonicalNames(dir)
    requires Lists(PartOpened(dir, order, budget, swept, removed), other)
    requires AgesDiffer(dir) || SameOrder(order, other, PartOpened(dir, order, budget, swept, removed))
    ensures Open(PartOpened(dir, order, budget, swept, removed), other, budget) == Open(dir, order, budget)
  {
    hide *;
    if AgesDiffer(dir) {
      FillsByAge(dir, order, budget, swept, removed, other);
    } else {
      FillsByOrder(dir, order, budget, swept, removed, other);
    }
    var after := PartOpened(dir, order, budget, swept, removed);
    var o, p := Open(dir, order, budget), Open(after, other, budget);
    PartOpenedIsCanonical(dir, order, budget, swept, removed);
    var _ := OpenRecovers(dir, order, budget);
    var _ := OpenRecovers(after, other, budget);
    RestartedQueue(dir, order, budget, swept, removed, other);
    ReopenedSizes(Disk(dir, EMPTY), o, order, budget);
    RestartedSizes(dir, order, budget, swept, removed, other, p);
    SameIndex(o.index, p.index, FileSize(dir));
    forall name
      ensures name in o.dir <==> name in p.dir
      ensures name in o.dir ==> o.dir[name] == p.dir[name]
    {
      OpenTakesOnly(dir, order, budget, name);
      OpenTakesOnly(after, other, budget, name);
      PartOpenedNames(dir, order, budget, swept, removed, name);
      RestartedName(dir, order, budget, swept, removed, other, name);
    }
    assert o.dir == p.dir;
  }

  lemma RestartedSizes(dir: Directory, order: seq<string>, budget: nat, swept: nat, removed: nat, other: seq<string>,
                       p: Disk)
    requires p == Open(PartOpened(dir, order, budget, swept, removed), other, budget) && InSync(p)
    ensures Sized(p.index, FileSize(dir)) && Valid(p.index)
  {
    hide ToHex, Valid, Open, InSync, PartOpened, Evict, Filled;
    var after := PartOpened(dir, order, budget, swept, removed);
    forall h ensures HasBlob(p.dir, h) ==> HasBlob(dir, h) && dir[ToHex(h)] == p.dir[ToHex(h)] {
      OpenKeepsBlobs(after, other, budget, h);
      PartOpenedKeeps(dir, order, budget, swept, removed, h);
    }
    SizedByFiles(p, dir);
  }

  lemma RestartedName(dir: Directory, order: seq<string>, budget: nat, swept: nat, removed: nat, other: seq<string>,
                      name: string)
    requires Lists(dir, order) && CanonicalNames(dir)
    requires Lists(PartOpened(dir, order, budget, swept, removed), other)
    requires InSync(Open(dir, order, budget)) && NoTemps(Open(dir, order, budget).dir)
    requires var p := Open(PartOpened(dir, order, budget, swept, removed), other, budget);
      InSync(p) && NoTemps(p.dir) && p.index == Open(dir, order, budget).index
    ensures name in Open(dir, order, budget).dir
       <==> name in Open(PartOpened(dir, order, budget, swept, removed), other, budget).dir
  {
    hide Evict, Filled, IsTemp, ToHex, FromHex, Open, PartOpened, Lists, CanonicalNames, Valid, NoTemps;
    var after := PartOpened(dir, order, budget, swept, removed);
    var o, p := Open(dir, order, budget), Open(after, other, budget);
    OpenTakesOnly(dir, order, budget, name);
    OpenTakesOnly(after, other, budget, name);
    PartOpenedNames(dir, order, budget, swept, removed, name);
    if name in dir && dir[name].regular && (IsTemp(name) || FromHex(name).Some?) {
      if IsTemp(name) {
        NoTempHere(o.dir, name);
        NoTempHere(p.dir, name);
      } else {
        CanonicalEntry(dir, name);
        var h := FromHex(name).value;
        assert HasBlob(o.dir, h) <==> HasBlob(p.dir, h);
      }
    } else {
      OtherNames(dir, order, budget, swept, removed, name);
      OpenedOtherNames(dir, order, budget, name);
      OpenedOtherNames(after, other, budget, name);
    }
  }

  lemma NoTempHere(dir: Directory, name: string)
    requires NoTemps(dir) && IsTemp(name)
    ensures name in dir ==> !dir[name].regular
  {
  }
}

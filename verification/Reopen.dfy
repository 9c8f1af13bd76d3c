/** What opening a cache directory recovers, from whatever files it finds. */
module Reopening {
  import opened Wrappers
  import opened Digits
  import opened Blake
  import opened Lru
  import opened StableSort
  import opened RecentRun
  import opened Directories
  import opened Text

  /** The index names exactly the blobs in the directory, with their sizes. */
  ghost predicate InSync(d: Disk) {
    && Valid(d.index)
    && (forall h :: h in d.index.entries <==> HasBlob(d.dir, h))
    && (forall h :: h in d.index.entries ==> d.index.entries[h] == |d.dir[ToHex(h)].data|)
  }

  /** Every name that opening reads as a hash is the spelling that reads and writes use. */
  ghost predicate CanonicalNames(dir: Directory) {
    forall name :: IsEntry(dir, name) ==> LowerCase(name)
  }

  function FileSize(dir: Directory): Sizes {
    h => if HasBlob(dir, h) then |dir[ToHex(h)].data| else 0
  }

  /** All blobs of the directory, once each, oldest file first. */
  ghost predicate ByAge(dir: Directory, all: seq<Hash>) {
    && Distinct(all)
    && (forall h :: h in all <==> HasBlob(dir, h))
    && AgesAscend(dir, all)
  }

  function Age(dir: Directory, h: Hash): int {
    if HasBlob(dir, h) then dir[ToHex(h)].mtime else 0
  }

  function AgeIn(dir: Directory): Hash -> int {
    (h: Hash) => Age(dir, h)
  }

  ghost predicate AgesAscend(dir: Directory, all: seq<Hash>) {
    forall i, j :: 0 <= i < j < |all| ==> Age(dir, all[i]) <= Age(dir, all[j])
  }

  // ---------------------------------------------------------------- names and blobs

  lemma CanonicalEntry(dir: Directory, name: string)
    requires CanonicalNames(dir) && IsEntry(dir, name)
    ensures name == ToHex(FromHex(name).value) && HasBlob(dir, FromHex(name).value)
  {
    HexSpelling(name);
  }

  lemma BlobIsEntry(dir: Directory, h: Hash)
    requires HasBlob(dir, h)
    ensures IsEntry(dir, ToHex(h)) && FromHex(ToHex(h)) == Some(h)
  {
    HexIsNotTemp(h);
    HexRoundTrip(h);
  }

  // ---------------------------------------------------------------- what the scan collects

  lemma {:induction false} CollectHas(dir: Directory, order: seq<string>, f: Found)
    ensures f in Collect(dir, order)
       <==> exists name :: name in order && IsEntry(dir, name) && EntryOf(dir, name) == f
  {
    hide IsEntry;
    if order != [] {
      var init, last := order[..|order| - 1], order[|order| - 1];
      CollectHas(dir, init, f);
      assert order == init + [last];
      assert forall name :: name in order <==> name in init || name == last;
    }
  }

  lemma EntryHash(dir: Directory, name: string)
    requires IsEntry(dir, name)
    ensures FromHex(name) == Some(EntryOf(dir, name).hash)
  {
  }

  lemma {:induction false} CollectHashes(dir: Directory, order: seq<string>, h: Hash)
    ensures h in Hashes(Collect(dir, order))
       <==> exists name :: name in order && IsEntry(dir, name) && FromHex(name) == Some(h)
  {
    hide IsEntry, FromHex;
    if order != [] {
      var init, last := order[..|order| - 1], order[|order| - 1];
      CollectHashes(dir, init, h);
      assert order == init + [last];
      assert forall name :: name in order <==> name in init || name == last;
      if IsEntry(dir, last) {
        HashesSnoc(Collect(dir, init), EntryOf(dir, last));
        EntryHash(dir, last);
      } else {
        assert Collect(dir, order) == Collect(dir, init);
      }
    }
  }

  lemma HashesSnoc(s: seq<Found>, f: Found)
    ensures Hashes(s + [f]) == Hashes(s) + [f.hash]
  {
  }

  lemma HashesCons(f: Found, s: seq<Found>)
    ensures Hashes([f] + s) == [f.hash] + Hashes(s)
  {
    HashesMeans([f] + s);
    HashesMeans(s);
  }

  /** No two of the listed names decode to the same hash. */
  ghost predicate OneSpelling(dir: Directory, order: seq<string>) {
    forall a, b :: a in order && b in order && IsEntry(dir, a) && IsEntry(dir, b) && FromHex(a) == FromHex(b) ==> a == b
  }

  lemma {:induction false} CollectedOnce(dir: Directory, order: seq<string>)
    requires forall i, j :: 0 <= i < j < |order| ==> order[i] != order[j]
    ensures Distinct(Hashes(Collect(dir, order))) <==> OneSpelling(dir, order)
  {
    hide IsEntry, FromHex, Distinct, Hashes;
    if order == [] {
      HashesMeans([]);
      NoneIsDistinct();
    } else {
      var init, last := order[..|order| - 1], order[|order| - 1];
      CollectedOnce(dir, init);
      assert order == init + [last];
      assert last !in init;
      if IsEntry(dir, last) {
        var h := EntryOf(dir, last).hash;
        EntryHash(dir, last);
        HashesSnoc(Collect(dir, init), EntryOf(dir, last));
        CollectHashes(dir, init, h);
        DistinctConcat(Hashes(Collect(dir, init)), [h]);
        DistinctOne(h);
      } else {
        assert Collect(dir, order) == Collect(dir, init);
      }
    }
  }

  // ---------------------------------------------------------------- sorting keeps the hashes

  lemma {:induction false} InsertKeepsHashes(x: Found, s: seq<Found>)
    ensures multiset(Hashes(InsertBy(x, s, MtimeOf))) == multiset{x.hash} + multiset(Hashes(s))
  {
    hide Hashes;
    HashesCons(x, s);
    if s != [] && x.mtime > s[0].mtime {
      InsertKeepsHashes(x, s[1..]);
      HashesCons(s[0], s[1..]);
      HashesCons(s[0], InsertBy(x, s[1..], MtimeOf));
      assert s == [s[0]] + s[1..];
    }
  }

  lemma {:induction false} SortKeepsHashes(s: seq<Found>)
    ensures multiset(Hashes(SortByMtime(s))) == multiset(Hashes(s))
  {
    if s != [] {
      SortKeepsHashes(s[1..]);
      InsertKeepsHashes(s[0], SortByMtime(s[1..]));
      HashesCons(s[0], s[1..]);
      assert s == [s[0]] + s[1..];
    }
  }

  lemma {:induction false} DistinctIsOnce(s: seq<Hash>)
    ensures Distinct(s) <==> forall h :: multiset(s)[h] <= 1
  {
    if s != [] {
      DistinctIsOnce(s[1..]);
      assert s == [s[0]] + s[1..];
      if s[0] in s[1..] {
        assert multiset(s[1..])[s[0]] >= 1;
        assert multiset(s)[s[0]] >= 2;
      } else {
        assert multiset(s[1..])[s[0]] == 0;
        forall h ensures multiset(s)[h] == multiset(s[1..])[h] + if h == s[0] then 1 else 0 {}
      }
    }
  }

  lemma DistinctIfPermuted(s: seq<Hash>, t: seq<Hash>)
    requires multiset(s) == multiset(t)
    ensures Distinct(s) <==> Distinct(t)
    ensures forall h :: h in s <==> h in t
  {
    DistinctIsOnce(s);
    DistinctIsOnce(t);
    forall h ensures h in s <==> h in t {
      assert h in s <==> h in multiset(s);
      assert h in t <==> h in multiset(t);
    }
  }

  // ---------------------------------------------------------------- the index that opening fills

  function Filled(dir: Directory, order: seq<string>): Index {
    Build(SortByMtime(Collect(dir, order)))
  }

  /** The freshly filled index is sound exactly when no two names in the directory spell the same hash. */
  lemma FilledIsValidIff(dir: Directory, order: seq<string>)
    requires Lists(dir, order)
    ensures Valid(Filled(dir, order)) <==> OneSpelling(dir, order)
  {
    hide *;
    var found := Collect(dir, order);
    BuildIsValidIff(SortByMtime(found));
    SortKeepsHashes(found);
    DistinctIfPermuted(Hashes(SortByMtime(found)), Hashes(found));
    ListsOnce(dir, order);
    CollectedOnce(dir, order);
    FilledIs(dir, order);
  }

  lemma FilledIs(dir: Directory, order: seq<string>)
    ensures Filled(dir, order) == Build(SortByMtime(Collect(dir, order)))
  {
  }

  lemma ListsOnce(dir: Directory, order: seq<string>)
    requires Lists(dir, order)
    ensures forall i, j :: 0 <= i < j < |order| ==> order[i] != order[j]
    ensures forall name :: name in order <==> name in dir
  {
  }

  lemma CanonicalIsOneSpelling(dir: Directory, order: seq<string>)
    requires CanonicalNames(dir)
    ensures OneSpelling(dir, order)
  {
    hide IsEntry, LowerCase, ToHex, FromHex;
    forall a, b | a in order && b in order && IsEntry(dir, a) && IsEntry(dir, b) && FromHex(a) == FromHex(b)
      ensures a == b
    {
      CanonicalEntry(dir, a);
      CanonicalEntry(dir, b);
    }
  }

  /** In canonical spelling the filled index has every blob, oldest first, with the size of its file. */
  lemma FilledIsByAge(dir: Directory, order: seq<string>)
    requires Lists(dir, order) && CanonicalNames(dir)
    ensures Valid(Filled(dir, order)) && ByAge(dir, Filled(dir, order).lru)
    ensures Sized(Filled(dir, order), FileSize(dir))
  {
    hide *;
    CanonicalIsOneSpelling(dir, order);
    FilledIsValidIff(dir, order);
    FilledMembers(dir, order);
    FilledSizes(dir, order);
    FilledAges(dir, order);
    ByAgeIs(dir, Filled(dir, order));
  }

  lemma ByAgeIs(dir: Directory, v: Index)
    requires Valid(v) && forall h :: h in v.lru <==> HasBlob(dir, h)
    requires AgesAscend(dir, v.lru)
    ensures ByAge(dir, v.lru)
  {
  }

  lemma FilledMembers(dir: Directory, order: seq<string>)
    requires Lists(dir, order) && CanonicalNames(dir)
    ensures forall h :: h in Filled(dir, order).lru <==> HasBlob(dir, h)
  {
    hide Valid, Distinct, IsEntry, ToHex, FromHex, LowerCase, Build, SortByMtime, Collect, Hashes, HasBlob;
    var found := Collect(dir, order);
    BuildFills(SortByMtime(found));
    SortKeepsHashes(found);
    DistinctIfPermuted(Hashes(SortByMtime(found)), Hashes(found));
    forall h ensures h in Filled(dir, order).lru <==> HasBlob(dir, h) {
      CollectHashes(dir, order, h);
      if HasBlob(dir, h) {
        BlobIsEntry(dir, h);
        EntryIsListed(dir, order, ToHex(h));
      }
      if h in Hashes(found) {
        var name :| name in order && IsEntry(dir, name) && FromHex(name) == Some(h);
        CanonicalEntry(dir, name);
      }
    }
  }

  lemma EntryIsListed(dir: Directory, order: seq<string>, name: string)
    requires Lists(dir, order) && IsEntry(dir, name)
    ensures name in order
  {
  }

  /** Each collected record describes the file of its hash. */
  lemma FoundDescribes(dir: Directory, order: seq<string>, i: nat)
    requires CanonicalNames(dir) && i < |SortByMtime(Collect(dir, order))|
    ensures var f := SortByMtime(Collect(dir, order))[i];
      HasBlob(dir, f.hash) && f == Found(dir[ToHex(f.hash)].mtime, f.hash, |dir[ToHex(f.hash)].data|)
  {
    hide IsEntry, ToHex, FromHex, LowerCase, SortByMtime, Collect, HasBlob;
    var found := Collect(dir, order);
    var f := SortByMtime(found)[i];
    SortSorts(found, 0);
    assert f in multiset(SortByMtime(found));
    assert f in found;
    CollectHas(dir, order, f);
    var name :| name in order && IsEntry(dir, name) && EntryOf(dir, name) == f;
    CanonicalEntry(dir, name);
    BlobIsEntry(dir, f.hash);
  }

  lemma FilledSizes(dir: Directory, order: seq<string>)
    requires Valid(Filled(dir, order)) && CanonicalNames(dir)
    ensures Sized(Filled(dir, order), FileSize(dir))
  {
    hide Valid, Distinct, IsEntry, ToHex, FromHex, LowerCase, Build, SortByMtime, Collect, Hashes;
    var sorted := SortByMtime(Collect(dir, order));
    BuildFills(sorted);
    BuildIsValidIff(sorted);
    HashesMeans(sorted);
    forall h | h in Filled(dir, order).entries ensures Filled(dir, order).entries[h] == FileSize(dir)(h) {
      var i :| 0 <= i < |sorted| && Hashes(sorted)[i] == h;
      BuildSizes(sorted, i);
      FoundDescribes(dir, order, i);
    }
  }

  lemma FilledAges(dir: Directory, order: seq<string>)
    requires CanonicalNames(dir) && forall h :: h in Filled(dir, order).lru ==> HasBlob(dir, h)
    ensures AgesAscend(dir, Filled(dir, order).lru)
  {
    hide Valid, Distinct, IsEntry, ToHex, FromHex, LowerCase, Build, SortByMtime, Collect, Hashes, HasBlob;
    var sorted := SortByMtime(Collect(dir, order));
    var all := Filled(dir, order).lru;
    BuildFills(sorted);
    HashesMeans(sorted);
    SortSorts(Collect(dir, order), 0);
    forall i, j | 0 <= i < j < |all| ensures Age(dir, all[i]) <= Age(dir, all[j]) {
      FoundDescribes(dir, order, i);
      FoundDescribes(dir, order, j);
    }
  }

  // ---------------------------------------------------------------- opening

  lemma OpenIs(dir: Directory, order: seq<string>, budget: nat) returns (e: Eviction)
    ensures e == Evict(Filled(dir, order), 0, budget)
    ensures Open(dir, order, budget) == Disk(RemoveBlobs(Sweep(dir, order), e.evicted), e.index)
  {
    hide Evict, Build, SortByMtime, Collect, RemoveBlobs, Sweep;
    e := Evict(Filled(dir, order), 0, budget);
  }

  /** Opening takes regular temporary files and evicted blobs; every other file stays as it was, whatever its name. */
  lemma OpenTakesOnly(dir: Directory, order: seq<string>, budget: nat, name: string)
    requires Lists(dir, order)
    ensures var o, evicted := Open(dir, order, budget), Evict(Filled(dir, order), 0, budget).evicted;
      && (name in o.dir
          <==> name in dir && !(dir[name].regular && (IsTemp(name) || exists h :: h in evicted && name == ToHex(h))))
      && (name in o.dir ==> o.dir[name] == dir[name])
  {
    hide Evict, Filled, IsTemp, ToHex, Open;
    var e := OpenIs(dir, order, budget);
    SweepMeans(dir, order, name);
    RemoveBlobsMeans(Sweep(dir, order), e.evicted, name);
  }

  /** Files that are neither blobs nor scratch files are left alone, whatever the budget; scratch files go. */
  lemma OpenLeavesOthers(dir: Directory, order: seq<string>, budget: nat, name: string)
    requires Lists(dir, order) && name in dir
    ensures !Contains(name, ".tmp") && FromHex(name).None? ==>
      name in Open(dir, order, budget).dir && Open(dir, order, budget).dir[name] == dir[name]
    ensures dir[name].regular && (exists a :: name == a + ".tmp") ==> name !in Open(dir, order, budget).dir
    ensures dir[name].regular && (exists a, b :: name == a + ".tmp." + b) ==> name !in Open(dir, order, budget).dir
  {
    OpenTakesOnly(dir, order, budget, name);
    IsTempIff(name);
    hide Evict, Filled, IsTemp, ToHex, FromHex, Open, Contains;
    if !Contains(name, ".tmp") && FromHex(name).None? {
      NoTmpNoTemp(name);
      forall h ensures name != ToHex(h) { HexRoundTrip(h); }
    }
  }

  lemma OpenKeepsBlobs(dir: Directory, order: seq<string>, budget: nat, h: Hash)
    ensures var o, evicted := Open(dir, order, budget), Evict(Filled(dir, order), 0, budget).evicted;
      && (HasBlob(o.dir, h) <==> HasBlob(dir, h) && h !in evicted)
      && (HasBlob(o.dir, h) ==> o.dir[ToHex(h)] == dir[ToHex(h)])
  {
    hide Evict, Filled, IsTemp, ToHex, Open;
    var e := OpenIs(dir, order, budget);
    HexIsNotTemp(h);
    SweepMeans(dir, order, ToHex(h));
    RemovedBlobs(Sweep(dir, order), e.evicted, h);
  }

  ghost predicate NoTemps(dir: Directory) {
    forall name :: name in dir && dir[name].regular ==> !IsTemp(name)
  }

  lemma EvictFits(v: Index, budget: nat)
    requires Valid(v)
    ensures Valid(Evict(v, 0, budget).index) && Evict(v, 0, budget).index.total <= budget
  {
    EvictMeans(v, 0, budget);
    hide Evict, Distinct;
  }

  /** What eviction from a sound index leaves, member by member. */
  lemma EvictMembers(v: Index, budget: nat, h: Hash)
    requires Valid(v)
    ensures var e := Evict(v, 0, budget);
      && (h in e.index.entries <==> h in v.entries && h !in e.evicted)
      && (h in e.index.entries ==> e.index.entries[h] == v.entries[h])
  {
    EvictMeans(v, 0, budget);
    EvictEntries(v, 0, budget);
    hide Evict, Distinct;
  }

  /**
    From any directory whose blobs are spelled as the cache spells them: no temporary file is left, the index names
    exactly the remaining blobs with their sizes, and they are the longest newest run of the old ones that fits.
   */
  lemma OpenRecovers(dir: Directory, order: seq<string>, budget: nat) returns (all: seq<Hash>)
    requires Lists(dir, order) && CanonicalNames(dir)
    ensures ByAge(dir, all)
    ensures var o := Open(dir, order, budget);
      && InSync(o) && NoTemps(o.dir) && CanonicalNames(o.dir) && o.index.total <= budget
      && o.index.lru == LongestRun(all, FileSize(dir), budget)
  {
    hide Evict, Filled, IsTemp, ToHex, FromHex, Open, Valid, LongestRun, Sized, LowerCase, Lists, ByAge;
    FilledIsByAge(dir, order);
    var o, v := Open(dir, order, budget), Filled(dir, order);
    all := v.lru;
    var e := OpenIs(dir, order, budget);
    EvictLeavesLongestRun(v, 0, budget, FileSize(dir));
    EvictFits(v, budget);
    forall h
      ensures h in o.index.entries <==> HasBlob(o.dir, h)
      ensures h in o.index.entries ==> o.index.entries[h] == |o.dir[ToHex(h)].data|
    {
      EvictMembers(v, budget, h);
      OpenKeepsBlobs(dir, order, budget, h);
      FilledHas(dir, v, h);
    }
    forall name | name in o.dir
      ensures name in dir && o.dir[name] == dir[name] && !(dir[name].regular && IsTemp(name))
    {
      OpenTakesOnly(dir, order, budget, name);
    }
  }

  lemma FilledHas(dir: Directory, v: Index, h: Hash)
    requires Valid(v) && ByAge(dir, v.lru) && Sized(v, FileSize(dir))
    ensures h in v.entries <==> HasBlob(dir, h)
    ensures h in v.entries ==> v.entries[h] == |dir[ToHex(h)].data|
  {
  }

  /**
    Canonical spelling is exactly what opening needs: without it some budget yields an index that lists a hash twice
    or names a blob that is not there.
   */
  lemma OpenIsSoundIff(dir: Directory, order: seq<string>)
    requires Lists(dir, order)
    ensures (forall budget: nat :: InSync(Open(dir, order, budget))) <==> CanonicalNames(dir)
  {
    hide *;
    if CanonicalNames(dir) {
      forall budget: nat ensures InSync(Open(dir, order, budget)) {
        var _ := OpenRecovers(dir, order, budget);
      }
    } else {
      OddSpellingBreaks(dir, order);
      assert !InSync(Open(dir, order, Filled(dir, order).total));
    }
  }

  lemma OddSpellingBreaks(dir: Directory, order: seq<string>)
    requires Lists(dir, order) && !CanonicalNames(dir)
    ensures !InSync(Open(dir, order, Filled(dir, order).total))
  {
    hide Evict, Filled, IsTemp, IsEntry, ToHex, FromHex, Open, Valid, LowerCase;
    var name :| IsEntry(dir, name) && !LowerCase(name);
    var v := Filled(dir, order);
    var e := OpenIs(dir, order, v.total);
    NothingToEvict(v);
    EntryHash(dir, name);
    var h := FromHex(name).value;
    HexSpelling(name);
    FilledHolds(dir, order, name);
    OpenKeepsBlobs(dir, order, v.total, h);
    if HasBlob(dir, h) {
      BlobIsEntry(dir, h);
      FilledIsValidIff(dir, order);
      EntryIsListed(dir, order, name);
      EntryIsListed(dir, order, ToHex(h));
      assert !OneSpelling(dir, order);
    }
  }

  lemma NothingToEvict(v: Index)
    ensures Evict(v, 0, v.total) == Eviction(v, [])
  {
  }

  lemma FilledHolds(dir: Directory, order: seq<string>, name: string)
    requires Lists(dir, order) && IsEntry(dir, name)
    ensures FromHex(name).value in Filled(dir, order).entries
  {
    hide IsEntry, ToHex, FromHex, Build, SortByMtime, Collect, Hashes;
    var found := Collect(dir, order);
    EntryHash(dir, name);
    EntryIsListed(dir, order, name);
    CollectHashes(dir, order, FromHex(name).value);
    BuildFills(SortByMtime(found));
    SortKeepsHashes(found);
    DistinctIfPermuted(Hashes(SortByMtime(found)), Hashes(found));
  }

  // ---------------------------------------------------------------- reading order

  /** No two blobs were written at the same moment. */
  ghost predicate AgesDiffer(dir: Directory) {
    forall g, h :: HasBlob(dir, g) && HasBlob(dir, h) && Age(dir, g) == Age(dir, h) ==> g == h
  }

  ghost predicate Ascends(s: seq<Hash>, age: Hash -> int) {
    forall i, j :: 0 <= i < j < |s| ==> age(s[i]) < age(s[j])
  }

  lemma {:induction false} AscendingIsUnique(s: seq<Hash>, t: seq<Hash>, age: Hash -> int)
    requires Ascends(s, age) && Ascends(t, age) && forall h :: h in s <==> h in t
    ensures s == t
  {
    HeadIsIn(s);
    HeadIsIn(t);
    if s != [] && t != [] {
      var i :| 0 <= i < |t| && t[i] == s[0];
      var j :| 0 <= j < |s| && s[j] == t[0];
      HeadIsLeast(t, age, i);
      HeadIsLeast(s, age, j);
      forall h ensures h in s[1..] <==> h in t[1..] {
        TailHas(s, age, h);
        TailHas(t, age, h);
      }
      AscendingIsUnique(s[1..], t[1..], age);
      assert s == [s[0]] + s[1..] && t == [t[0]] + t[1..];
    }
  }

  lemma HeadIsLeast(s: seq<Hash>, age: Hash -> int, k: nat)
    requires Ascends(s, age) && k < |s|
    ensures age(s[0]) <= age(s[k]) && (age(s[0]) == age(s[k]) ==> k == 0)
  {
  }

  lemma TailHas(s: seq<Hash>, age: Hash -> int, h: Hash)
    requires s != [] && Ascends(s, age)
    ensures h in s[1..] <==> h in s && h != s[0]
  {
  }

  lemma ByAgeAscends(dir: Directory, all: seq<Hash>)
    requires ByAge(dir, all) && AgesDiffer(dir)
    ensures Ascends(all, AgeIn(dir))
  {
    hide HasBlob, Age;
    forall i, j | 0 <= i < j < |all| ensures Age(dir, all[i]) < Age(dir, all[j]) {
      DistinctAt(all, i, j);
      assert all[i] in all && all[j] in all;
    }
  }

  lemma {:induction false} DistinctAt(s: seq<Hash>, i: nat, j: nat)
    requires Distinct(s) && i < j < |s|
    ensures s[i] != s[j]
  {
    if i > 0 { DistinctAt(s[1..], i - 1, j - 1); } else { assert s[j] == s[1..][j - 1]; }
  }

  lemma ByAgeIsUnique(dir: Directory, s: seq<Hash>, t: seq<Hash>)
    requires ByAge(dir, s) && ByAge(dir, t) && AgesDiffer(dir)
    ensures s == t
  {
    hide HasBlob, Age, Distinct, AgesAscend, AgesDiffer, Ascends;
    ByAgeAscends(dir, s);
    ByAgeAscends(dir, t);
    AscendingIsUnique(s, t, AgeIn(dir));
  }

  /** An index is fixed by its queue and the sizes of the blobs in it. */
  lemma SameIndex(v: Index, w: Index, size: Sizes)
    requires Valid(v) && Valid(w) && Sized(v, size) && Sized(w, size) && v.lru == w.lru
    ensures v == w
  {
    hide Distinct, Total;
    TotalSame(v.lru, v.entries, w.entries);
    assert v.entries == w.entries;
  }

  /** When no two blobs have the same age, the order in which the system lists the directory is of no account. */
  lemma OpenIgnoresReadingOrder(dir: Directory, order: seq<string>, other: seq<string>, budget: nat)
    requires Lists(dir, order) && Lists(dir, other) && CanonicalNames(dir) && AgesDiffer(dir)
    ensures Open(dir, order, budget) == Open(dir, other, budget)
  {
    hide Evict, Filled, IsTemp, Open, Valid, Sized, ByAge, CanonicalNames, AgesDiffer, Sweep, RemoveBlobs;
    FilledIsByAge(dir, order);
    FilledIsByAge(dir, other);
    ByAgeIsUnique(dir, Filled(dir, order).lru, Filled(dir, other).lru);
    SameIndex(Filled(dir, order), Filled(dir, other), FileSize(dir));
    forall name
      ensures name in Sweep(dir, order) <==> name in Sweep(dir, other)
      ensures name in Sweep(dir, order) ==> Sweep(dir, order)[name] == Sweep(dir, other)[name]
    {
      SweepMeans(dir, order, name);
      SweepMeans(dir, other, name);
    }
    assert Sweep(dir, order) == Sweep(dir, other);
    var e := OpenIs(dir, order, budget);
    var f := OpenIs(dir, other, budget);
  }

  // ---------------------------------------------------------------- indexes and their files

  lemma SizedByFiles(d: Disk, dir: Directory)
    requires InSync(d) && forall h :: HasBlob(d.dir, h) ==> HasBlob(dir, h) && dir[ToHex(h)] == d.dir[ToHex(h)]
    ensures Sized(d.index, FileSize(dir)) && Valid(d.index)
  {
  }

  lemma ReopenedSizes(d: Disk, o: Disk, order: seq<string>, budget: nat)
    requires o == Open(d.dir, order, budget) && InSync(o)
    ensures Sized(o.index, FileSize(d.dir)) && Valid(o.index)
  {
    hide ToHex, Valid, Open, InSync;
    forall h ensures HasBlob(o.dir, h) ==> HasBlob(d.dir, h) && d.dir[ToHex(h)] == o.dir[ToHex(h)] {
      OpenKeepsBlobs(d.dir, order, budget, h);
    }
    SizedByFiles(o, d.dir);
  }

  lemma SyncedIsValid(d: Disk)
    requires InSync(d)
    ensures Valid(d.index)
  {
  }

  lemma FileSizeOf(dir: Directory, h: Hash)
    requires HasBlob(dir, h)
    ensures FileSize(dir)(h) == |dir[ToHex(h)].data|
  {
  }
}

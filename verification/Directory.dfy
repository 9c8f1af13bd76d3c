/** The cache directory: what its file names mean, and what opening it reads, sweeps and indexes. */
module Directories {
  import opened Wrappers
  import opened Digits
  import opened Blake
  import opened Lru
  import opened StableSort
  import opened Text

  datatype File = File(data: Blob, mtime: int, regular: bool)

  type Directory = map<string, File>

  // ---------------------------------------------------------------- names

  /** A file that a crashed or running write may have left, in the old and in the present spelling. */
  predicate IsTemp(name: string) {
    (|name| >= 4 && name[|name| - 4..] == ".tmp") || Contains(name, ".tmp.")
  }

  /** Exactly the names that end in `.tmp` or hold `.tmp.` somewhere. */
  lemma IsTempIff(name: string)
    ensures IsTemp(name) <==> (exists a :: name == a + ".tmp") || (exists a, b :: name == a + ".tmp." + b)
  {
    ContainsIff(name, ".tmp.");
    hide Contains;
    if |name| >= 4 && name[|name| - 4..] == ".tmp" {
      assert name == name[..|name| - 4] + ".tmp";
    }
  }

  /** A name without `.tmp` is no scratch name. */
  lemma NoTmpNoTemp(name: string)
    requires !Contains(name, ".tmp")
    ensures !IsTemp(name)
  {
    IsTempIff(name);
    hide IsTemp, Contains;
    forall a ensures name != a + ".tmp" {
      TmpInside(a, "");
    }
    forall a, b ensures name != a + ".tmp." + b {
      TmpInside(a, b);
    }
  }

  lemma TmpInside(a: string, b: string)
    ensures Contains(a + ".tmp", ".tmp") && Contains(a + ".tmp." + b, ".tmp")
  {
    ContainsAround(a, ".tmp", "");
    ContainsAround(a, ".tmp", "." + b);
    hide Contains;
    assert a + ".tmp" + "" == a + ".tmp";
    assert a + ".tmp" + ("." + b) == a + ".tmp." + b;
  }

  /** The scratch name of one put: unique in the process by its counter. */
  function TempName(h: Hash, pid: nat, n: nat): string {
    ToHex(h) + (".tmp." + (Decimal(pid) + ("." + Decimal(n))))
  }

  lemma TempIsLong(h: Hash, pid: nat, n: nat)
    ensures |TempName(h, pid, n)| > 64
  {
  }

  lemma HexIsShort(h: Hash)
    ensures |ToHex(h)| == 64
  {
  }

  lemma DotIsNoDigit()
    ensures DigitValue('.') == 16
  {
  }

  lemma NumericIsNotTemp(s: string)
    requires Numeric(s, Sixteen)
    ensures !IsTemp(s)
  {
    DotIsNoDigit();
    assert forall i :: 0 <= i < |s| ==> s[i] != '.';
    hide DigitValue, Numeric, Contains;
    NoFirstNoPattern(s, ".tmp.");
    if |s| >= 4 {
      assert s[|s| - 4..][0] == s[|s| - 4];
      assert ".tmp"[0] == '.';
    }
  }

  /** A blob's own name is never taken for a temporary one. */
  lemma HexIsNotTemp(h: Hash)
    ensures !IsTemp(ToHex(h))
  {
    FixedIsNumeric(h, Sixteen, 64);
    NumericIsNotTemp(ToHex(h));
  }

  /** Whatever a put leaves behind when it is cut short, opening recognises it; it is never taken for a blob. */
  lemma TempNameIsTemp(h: Hash, pid: nat, n: nat)
    ensures IsTemp(TempName(h, pid, n))
    ensures FromHex(TempName(h, pid, n)) == None
  {
    var rest := ".tmp." + (Decimal(pid) + ("." + Decimal(n)));
    assert rest[..5] == ".tmp.";
    assert Contains(rest, ".tmp.");
    ContainsLater(ToHex(h), rest, ".tmp.");
    assert |TempName(h, pid, n)| > 64;
  }

  lemma TempParts(h: Hash, pid: nat, n: nat)
    ensures TempName(h, pid, n) == ToHex(h) + ((".tmp." + (Decimal(pid) + ".")) + Decimal(n))
  {
    hide ToHex, Decimal;
  }

  lemma SameParts(a: string, lead: string, b: string, c: string, d: string)
    requires |a| == |c| && a + (lead + b) == c + (lead + d)
    ensures a == c && b == d
  {
    var s := a + (lead + b);
    assert s[..|a|] == a && s[..|c|] == c;
    assert s[|a| + |lead|..] == b && s[|c| + |lead|..] == d;
  }

  lemma DecimalIsInjective(m: nat, n: nat)
    requires Decimal(m) == Decimal(n)
    ensures m == n
  {
    DecimalIsFixed(m);
    DecimalIsFixed(n);
    FixedRoundTrip(m, Ten, |Decimal(m)|);
    FixedRoundTrip(n, Ten, |Decimal(n)|);
  }

  /** Two puts of one process never share a scratch file, not even for the same blob. */
  lemma TempNamesAreUnique(g: Hash, m: nat, h: Hash, n: nat, pid: nat)
    requires TempName(g, pid, m) == TempName(h, pid, n)
    ensures g == h && m == n
  {
    hide ToHex, Decimal, TempName;
    TempParts(g, pid, m);
    TempParts(h, pid, n);
    HexIsShort(g);
    HexIsShort(h);
    SameParts(ToHex(g), ".tmp." + (Decimal(pid) + "."), Decimal(m), ToHex(h), Decimal(n));
    ToHexIsInjective(g, h);
    DecimalIsInjective(m, n);
  }

  // ---------------------------------------------------------------- removing files

  /** Removal takes regular files; on anything else it fails and the failure is ignored. */
  function RemoveFile(dir: Directory, name: string): Directory {
    if name in dir && dir[name].regular then dir - {name} else dir
  }

  function RemoveBlobs(dir: Directory, hashes: seq<Hash>): Directory {
    if hashes == [] then dir else RemoveFile(RemoveBlobs(dir, hashes[..|hashes| - 1]), ToHex(hashes[|hashes| - 1]))
  }

  predicate HasBlob(dir: Directory, h: Hash) {
    ToHex(h) in dir && dir[ToHex(h)].regular
  }

  lemma {:induction false} RemoveBlobsMeans(dir: Directory, hashes: seq<Hash>, name: string)
    ensures name in RemoveBlobs(dir, hashes)
       <==> name in dir && !(dir[name].regular && exists h :: h in hashes && name == ToHex(h))
    ensures name in RemoveBlobs(dir, hashes) ==> RemoveBlobs(dir, hashes)[name] == dir[name]
  {
    if hashes != [] {
      var init, last := hashes[..|hashes| - 1], hashes[|hashes| - 1];
      RemoveBlobsMeans(dir, init, name);
      assert hashes == init + [last];
      assert forall h :: h in hashes <==> h in init || h == last;
    }
  }

  lemma RemovedBlobs(dir: Directory, hashes: seq<Hash>, h: Hash)
    ensures HasBlob(RemoveBlobs(dir, hashes), h) <==> HasBlob(dir, h) && h !in hashes
    ensures HasBlob(RemoveBlobs(dir, hashes), h) ==> RemoveBlobs(dir, hashes)[ToHex(h)] == dir[ToHex(h)]
  {
    RemoveBlobsMeans(dir, hashes, ToHex(h));
    forall g | g in hashes && ToHex(g) == ToHex(h) ensures g == h { ToHexIsInjective(g, h); }
  }

  // ---------------------------------------------------------------- reading the directory

  datatype Found = Found(mtime: int, hash: Hash, size: nat)

  /** A regular file whose name decodes to a hash and is not a temporary one. */
  predicate IsEntry(dir: Directory, name: string) {
    name in dir && !IsTemp(name) && FromHex(name).Some? && dir[name].regular
  }

  function EntryOf(dir: Directory, name: string): Found
    requires IsEntry(dir, name)
  {
    Found(dir[name].mtime, FromHex(name).value, |dir[name].data|)
  }

  function Collect(dir: Directory, order: seq<string>): seq<Found> {
    if order == [] then []
    else
      var init, name := order[..|order| - 1], order[|order| - 1];
      Collect(dir, init) + if IsEntry(dir, name) then [EntryOf(dir, name)] else []
  }

  function Sweep(dir: Directory, order: seq<string>): Directory {
    if order == [] then dir
    else
      var d, name := Sweep(dir, order[..|order| - 1]), order[|order| - 1];
      if IsTemp(name) then RemoveFile(d, name) else d
  }

  function MtimeOf(f: Found): int {
    f.mtime
  }

  /** Oldest first, in reading order among equal times. */
  function SortByMtime(s: seq<Found>): seq<Found> {
    SortBy(s, MtimeOf)
  }

  /** The index as it is filled, before anything is evicted from it. */
  function Build(found: seq<Found>): Index {
    if found == [] then EMPTY
    else
      var v, f := Build(found[..|found| - 1]), found[|found| - 1];
      Index(v.entries[f.hash := f.size], v.lru + [f.hash], v.total + f.size)
  }

  /** Everything that outlives a call: the files and the index. */
  datatype Disk = Disk(dir: Directory, index: Index)

  /** Opening: sweep temporary files, index the rest by age, evict the oldest until the budget is met. */
  function Open(dir: Directory, order: seq<string>, budget: nat): Disk {
    var e := Evict(Build(SortByMtime(Collect(dir, order))), 0, budget);
    Disk(RemoveBlobs(Sweep(dir, order), e.evicted), e.index)
  }

  /** `order` names every file of `dir` once: what reading a directory yields, in whatever order. */
  ghost predicate Lists(dir: Directory, order: seq<string>) {
    && (forall i, j :: 0 <= i < j < |order| ==> order[i] != order[j])
    && (forall name :: name in order <==> name in dir)
  }

  // ---------------------------------------------------------------- sweeping

  lemma {:induction false} SweepMeans(dir: Directory, order: seq<string>, name: string)
    ensures name in Sweep(dir, order) <==> name in dir && !(name in order && IsTemp(name) && dir[name].regular)
    ensures name in Sweep(dir, order) ==> Sweep(dir, order)[name] == dir[name]
  {
    hide IsTemp;
    if order != [] {
      var init, last := order[..|order| - 1], order[|order| - 1];
      SweepMeans(dir, init, name);
      assert name in order <==> name in init || name == last by { assert order == init + [last]; }
    }
  }

  // ---------------------------------------------------------------- sorting

  /** The sort orders by time, loses and invents nothing, and keeps the order of reading among equal times. */
  lemma SortSorts(s: seq<Found>, mtime: int)
    ensures Ascending(SortByMtime(s), MtimeOf)
    ensures multiset(SortByMtime(s)) == multiset(s)
    ensures WithKey(SortByMtime(s), MtimeOf, mtime) == WithKey(s, MtimeOf, mtime)
  {
    SortIsStable(s, MtimeOf, mtime);
  }

  // ---------------------------------------------------------------- indexing

  function Hashes(found: seq<Found>): seq<Hash> {
    if found == [] then [] else Hashes(found[..|found| - 1]) + [found[|found| - 1].hash]
  }

  lemma {:induction false} HashesMeans(found: seq<Found>)
    ensures |Hashes(found)| == |found|
    ensures forall i :: 0 <= i < |found| ==> Hashes(found)[i] == found[i].hash
  {
    if found != [] { HashesMeans(found[..|found| - 1]); }
  }

  lemma {:induction false} BuildFills(found: seq<Found>)
    ensures Build(found).lru == Hashes(found)
    ensures forall h :: h in Build(found).entries <==> h in Hashes(found)
  {
    if found != [] {
      BuildFills(found[..|found| - 1]);
      var v, f := Build(found[..|found| - 1]), found[|found| - 1];
      forall h ensures h in Build(found).entries <==> h in Hashes(found) {
        assert h in Hashes(found) <==> h in v.lru || h == f.hash;
      }
    }
  }

  lemma {:induction false} BuildSizes(found: seq<Found>, i: nat)
    requires Distinct(Hashes(found)) && i < |found|
    ensures found[i].hash in Build(found).entries && Build(found).entries[found[i].hash] == found[i].size
  {
    HashesMeans(found);
    BuildFills(found);
    var n := |found| - 1;
    if i < n {
      DistinctConcat(Hashes(found[..n]), [found[n].hash]);
      HashesMeans(found[..n]);
      BuildSizes(found[..n], i);
      assert found[..n][i] == found[i];
      assert Hashes(found[..n])[i] in Hashes(found[..n]);
    }
  }

  /** The freshly filled index satisfies its invariant exactly when no two files decode to the same hash. */
  lemma {:induction false} BuildIsValidIff(found: seq<Found>)
    ensures Valid(Build(found)) <==> Distinct(Hashes(found))
  {
    BuildFills(found);
    if Distinct(Hashes(found)) {
      DistinctBuildIsValid(found);
    }
  }

  lemma {:induction false} DistinctBuildIsValid(found: seq<Found>)
    requires Distinct(Hashes(found))
    ensures Valid(Build(found))
  {
    if found == [] {
      assert Total([], map[]) == 0;
    } else {
      var init, f := found[..|found| - 1], found[|found| - 1];
      DistinctConcat(Hashes(init), [f.hash]);
      DistinctBuildIsValid(init);
      BuildFills(init);
      AppendedIsValid(Build(init), f.hash, f.size);
    }
  }
}

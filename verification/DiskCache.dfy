/** The disk cache as one caller sees it: an index, a directory of files, and calls that run one after another. */
module DiskCaches {
  import opened Wrappers
  import opened Blake
  import opened Lru
  import opened RecentRun
  import opened Directories
  import opened Reopening

  // ---------------------------------------------------------------- file operations

  /** Writing creates or replaces a regular file and fails on anything else. */
  function WriteFile(dir: Directory, name: string, data: Blob, now: int): Option<Directory> {
    if name in dir && !dir[name].regular then None else Some(dir[name := File(data, now, true)])
  }

  /** Renaming replaces a regular target in one step, keeps the modification time and fails on anything else. */
  function Rename(dir: Directory, from: string, to: string): Option<Directory> {
    if from !in dir || (to in dir && !dir[to].regular) then None else Some((dir - {from})[to := dir[from]])
  }

  // ---------------------------------------------------------------- the calls, on any files and any index

  datatype Answer = Answer(disk: Disk, data: Option<Blob>)

  /** Look `h` up: a missing or corrupt file counts as a miss and is forgotten. */
  function Lookup(d: Disk, h: Hash, blake: Blob -> Hash): Answer {
    if h !in d.index.entries then Answer(d, None)
    else if !HasBlob(d.dir, h) then Answer(Disk(d.dir, Dropped(d.index, h)), None)
    else if !Verifies(blake, h, d.dir[ToHex(h)].data) then
      Answer(Disk(RemoveFile(d.dir, ToHex(h)), Dropped(d.index, h)), None)
    else Answer(Disk(d.dir, Touched(d.index, h)), Some(d.dir[ToHex(h)].data))
  }

  datatype Outcome = Outcome(disk: Disk, ok: bool)

  /** Store `data`: write a scratch file, rename it into place, index it and remove what the index evicts. */
  function Store(d: Disk, h: Hash, data: Blob, now: int, temp: string, budget: nat): Outcome {
    if |data| > budget then Outcome(d, true)
    else
      match WriteFile(d.dir, temp, data, now)
      case None => Outcome(d, false)
      case Some(written) =>
        match Rename(written, temp, ToHex(h))
        case None => Outcome(Disk(written, d.index), false)
        case Some(renamed) =>
          var e := Inserted(d.index, h, |data|, budget);
          Outcome(Disk(RemoveBlobs(renamed, e.evicted), e.index), true)
  }

  // ---------------------------------------------------------------- the calls when the file system fails

  /** Any read error counts as a vanished file, whether or not the file is there. */
  function LookupWith(d: Disk, h: Hash, blake: Blob -> Hash, readFails: bool): Answer {
    if readFails && h in d.index.entries then Answer(Disk(d.dir, Dropped(d.index, h)), None) else Lookup(d, h, blake)
  }

  /** What goes wrong for a store: nothing, the write after `left` bytes or before there is a file, or the rename. */
  datatype Fault = NoFault | WriteFails(left: Option<nat>) | RenameFails

  /** The files after a write that fails part of the way. */
  function PartWritten(dir: Directory, name: string, data: Blob, left: Option<nat>, now: int): Directory {
    match left
    case None => dir
    case Some(n) =>
      match WriteFile(dir, name, if n <= |data| then data[..n] else data, now)
      case None => dir
      case Some(written) => written
  }

  function StoreWith(d: Disk, h: Hash, data: Blob, now: int, temp: string, budget: nat, fault: Fault): Outcome {
    if |data| > budget then Outcome(d, true)
    else
      match fault
      case NoFault => Store(d, h, data, now, temp, budget)
      case WriteFails(left) => Outcome(Disk(PartWritten(d.dir, temp, data, left, now), d.index), false)
      case RenameFails => Outcome(Disk(PartWritten(d.dir, temp, data, Some(|data|), now), d.index), false)
  }

  // ---------------------------------------------------------------- the object

  class DiskCache {
    const blake: Blob -> Hash
    const budget: nat
    const pid: nat
    const state: LruState
    /** What the directory holds. */
    var dir: Directory
    /** The next number of the process-wide counter of scratch files. */
    var counter: nat

    function Value(): Disk
      reads this, state
    {
      Disk(dir, state.Value())
    }

    /** Sweep, scan, sort by age, fill the index, then evict and remove the oldest until the budget is met. */
    constructor Open(files: Directory, order: seq<string>, budget: nat, blake: Blob -> Hash, pid: nat)
      requires Lists(files, order)
      ensures Value() == Directories.Open(files, order, budget)
      ensures this.budget == budget && this.blake == blake && this.pid == pid && fresh(state)
    {
      this.blake, this.budget, this.pid := blake, budget, pid;
      state := new LruState();
      dir, counter := files, 0;
      new;
      var found := Scan(files, order);
      found := SortByMtime(found);
      Fill(found);
      var evicted := state.EvictUntilFits(0, budget);
      RemoveEvicted(evicted);
    }

    method Scan(ghost files: Directory, order: seq<string>) returns (found: seq<Found>)
      requires Lists(files, order) && dir == files
      modifies this`dir
      ensures dir == Sweep(files, order) && found == Collect(files, order)
    {
      found := [];
      for i := 0 to |order|
        invariant dir == Sweep(files, order[..i]) && found == Collect(files, order[..i])
      {
        var name := order[i];
        ScanStep(files, order, i);
        if IsTemp(name) {
          dir := RemoveFile(dir, name);
        } else {
          match FromHex(name) {
            case None =>
            case Some(hash) =>
              if dir[name].regular {
                found := found + [Found(dir[name].mtime, hash, |dir[name].data|)];
              }
          }
        }
      }
      assert order[..|order|] == order;
    }

    method Fill(found: seq<Found>)
      requires state.Value() == EMPTY
      modifies state
      ensures state.Value() == Build(found)
    {
      for i := 0 to |found|
        invariant state.Value() == Build(found[..i])
      {
        var f := found[i];
        assert found[..i + 1][..i] == found[..i];
        state.entries := state.entries[f.hash := f.size];
        state.lru := state.lru + [f.hash];
        state.totalBytes := state.totalBytes + f.size;
      }
      assert found[..|found|] == found;
    }

    method RemoveEvicted(evicted: seq<Hash>)
      modifies this`dir
      ensures dir == RemoveBlobs(old(dir), evicted)
    {
      for i := 0 to |evicted|
        invariant dir == RemoveBlobs(old(dir), evicted[..i])
      {
        assert evicted[..i + 1][..i] == evicted[..i];
        dir := RemoveFile(dir, ToHex(evicted[i]));
      }
      assert evicted[..|evicted|] == evicted;
    }

    /** `readFails` is a read error of the file system on a file that is there. */
    method Get(h: Hash, readFails: bool) returns (data: Option<Blob>)
      modifies this`dir, state
      ensures Answer(Value(), data) == LookupWith(old(Value()), h, blake, readFails)
    {
      if h !in state.entries {
        return None;
      }
      var name := ToHex(h);
      if readFails || !(name in dir && dir[name].regular) {
        state.Drop(h);
        return None;
      }
      var bytes := dir[name].data;
      if !Verifies(blake, h, bytes) {
        dir := RemoveFile(dir, name);
        state.Drop(h);
        return None;
      }
      state.Touch(h);
      return Some(bytes);
    }

    method Put(h: Hash, data: Blob, now: int, fault: Fault) returns (ok: bool)
      modifies this`dir, this`counter, state
      ensures Outcome(Value(), ok)
           == StoreWith(old(Value()), h, data, now, TempName(h, pid, old(counter)), budget, fault)
      ensures counter == old(counter) + if |data| > budget then 0 else 1
    {
      if |data| > budget {
        return true;
      }
      var temp := TempName(h, pid, counter);
      counter := counter + 1;
      if fault.WriteFails? {
        dir := PartWritten(dir, temp, data, fault.left, now);
        return false;
      }
      assert data[..|data|] == data;
      var written := WriteFile(dir, temp, data, now);
      if written.None? {
        return false;
      }
      dir := written.value;
      if fault.RenameFails? {
        return false;
      }
      var renamed := Rename(dir, temp, ToHex(h));
      if renamed.None? {
        return false;
      }
      dir := renamed.value;
      var evicted := state.Insert(h, |data|, budget);
      RemoveEvicted(evicted);
      return true;
    }

    method Contains(h: Hash) returns (present: bool)
      ensures present <==> h in state.entries
      ensures Valid(state.Value()) ==> (present <==> h in state.lru)
    {
      present := h in state.entries;
    }
  }

  /** Sweeping removes temporary files only, so the scan still sees every other file as it was. */
  lemma ScanStep(files: Directory, order: seq<string>, i: nat)
    requires Lists(files, order) && i < |order|
    ensures order[..i + 1][..i] == order[..i] && order[..i + 1][i] == order[i]
    ensures !IsTemp(order[i]) ==>
      order[i] in files && order[i] in Sweep(files, order[..i])
      && Sweep(files, order[..i])[order[i]] == files[order[i]]
  {
    hide IsTemp;
    assert order[i] in order;
    SweepMeans(files, order[..i], order[i]);
  }

  // ---------------------------------------------------------------- looking up

  /** Whatever happened to the files: an answer always verifies, and a miss leaves the hash unindexed. */
  lemma LookupNeverLies(d: Disk, h: Hash, blake: Blob -> Hash)
    requires Valid(d.index)
    ensures var a := Lookup(d, h, blake);
      && Valid(a.disk.index) && a.disk.index.total <= d.index.total
      && (a.data.Some? ==> Verifies(blake, h, a.data.value))
      && (a.data.Some? <==> h in a.disk.index.entries)
      && (a.data.Some? ==> a.disk.index.lru != [] && a.disk.index.lru[|a.disk.index.lru| - 1] == h)
      && (forall g :: g != h ==> (g in a.disk.index.entries <==> g in d.index.entries))
  {
    DroppedIsValid(d.index, h);
    TouchedIsValid(d.index, h);
    PositionFinds(d.index.lru, h);
    hide Distinct, Total, Position, Without;
  }

  /**
    On any files and any sound index: what is found, what leaves the directory, and what becomes of the entry and of the
    order of all others.
   */
  lemma LookupIs(d: Disk, h: Hash, blake: Blob -> Hash)
    requires Valid(d.index)
    ensures var a := Lookup(d, h, blake);
      var intact := HasBlob(d.dir, h) && Verifies(blake, h, d.dir[ToHex(h)].data);
      && (a.data.Some? <==> h in d.index.entries && intact)
      && (a.data.Some? ==>
           && a.data.value == d.dir[ToHex(h)].data && a.disk.dir == d.dir
           && a.disk.index == Index(d.index.entries, Without(d.index.lru, h) + [h], d.index.total))
      && (a.data.None? ==>
           && a.disk.index.entries == d.index.entries - {h} && a.disk.index.lru == Without(d.index.lru, h)
           && a.disk.dir == if h in d.index.entries && HasBlob(d.dir, h) then d.dir - {ToHex(h)} else d.dir)
  {
    PositionFinds(d.index.lru, h);
    DroppedIsValid(d.index, h);
    hide Distinct, Total, Position, ToHex;
    if h !in d.index.entries {
      WithoutAbsent(d.index.lru, h);
      assert d.index.entries - {h} == d.index.entries;
    }
  }

  lemma RemovedBlob(dir: Directory, h: Hash, g: Hash)
    ensures HasBlob(RemoveFile(dir, ToHex(h)), g) <==> HasBlob(dir, g) && g != h
    ensures HasBlob(dir, g) && g != h ==> RemoveFile(dir, ToHex(h))[ToHex(g)] == dir[ToHex(g)]
  {
    hide ToHex;
    if ToHex(g) == ToHex(h) { ToHexIsInjective(g, h); }
  }

  lemma DropKeepsSync(d: Disk, h: Hash)
    requires InSync(d)
    ensures InSync(Disk(RemoveFile(d.dir, ToHex(h)), Dropped(d.index, h)))
  {
    DroppedIsValid(d.index, h);
    forall g { RemovedBlob(d.dir, h, g); }
    hide Valid, Without, ToHex;
  }

  /** Without tampering a lookup finds exactly the blobs that are there intact, and removes exactly a corrupt one. */
  lemma LookupMeans(d: Disk, h: Hash, blake: Blob -> Hash)
    requires InSync(d)
    ensures var a := Lookup(d, h, blake);
      && InSync(a.disk)
      && (a.data.Some? <==> HasBlob(d.dir, h) && Verifies(blake, h, d.dir[ToHex(h)].data))
      && (a.data.Some? ==> a.data.value == d.dir[ToHex(h)].data && a.disk.dir == d.dir)
      && (a.data.None? ==> a.disk.dir == RemoveFile(d.dir, ToHex(h)))
  {
    DropKeepsSync(d, h);
    TouchedIsValid(d.index, h);
    hide Valid, Dropped, Touched, ToHex;
  }

  // ---------------------------------------------------------------- storing

  /** Where a store of a blob that fits cannot succeed: something other than a file is in the way. */
  predicate Blocked(dir: Directory, h: Hash, temp: string) {
    || (temp in dir && !dir[temp].regular)
    || (ToHex(h) in dir && !dir[ToHex(h)].regular)
  }

  /** The directory after the rename: the blob is in place, the scratch file is gone, nothing else changed. */
  lemma PlacedBlob(dir: Directory, h: Hash, data: Blob, now: int, temp: string)
    requires |temp| > 64 && !Blocked(dir, h, temp)
    ensures var written := WriteFile(dir, temp, data, now);
      && written.Some? && Rename(written.value, temp, ToHex(h)).Some?
      && var placed := Rename(written.value, temp, ToHex(h)).value;
      && (forall name :: name in placed <==> name == ToHex(h) || (name in dir && name != temp))
      && (forall name :: name in placed && name != ToHex(h) ==> placed[name] == dir[name])
      && placed[ToHex(h)] == File(data, now, true)
  {
  }

  /** Every file but the scratch file is as it was. */
  ghost predicate OthersKept(before: Directory, after: Directory, temp: string) {
    forall name :: name in before && name != temp ==> name in after && after[name] == before[name]
  }

  /** What a store returns, and that it fails exactly when something is in the way of a blob that fits. */
  lemma StoreOutcome(d: Disk, h: Hash, data: Blob, now: int, temp: string, budget: nat)
    requires |temp| > 64
    ensures var r := Store(d, h, data, now, temp, budget);
      && (!r.ok <==> |data| <= budget && Blocked(d.dir, h, temp))
      && (!r.ok ==> r.disk.index == d.index && forall g :: HasBlob(r.disk.dir, g) <==> HasBlob(d.dir, g))
      && (!r.ok ==> OthersKept(d.dir, r.disk.dir, temp))
      && (|data| > budget ==> r.disk == d)
  {
  }

  /** A store that is not blocked, taken apart. */
  lemma StoreParts(d: Disk, h: Hash, data: Blob, now: int, temp: string, budget: nat) returns (placed: Directory)
    requires |temp| > 64 && |data| <= budget && !Blocked(d.dir, h, temp)
    ensures (forall name :: name in placed <==> name == ToHex(h) || (name in d.dir && name != temp))
    ensures forall name :: name in placed && name != ToHex(h) ==> placed[name] == d.dir[name]
    ensures placed[ToHex(h)] == File(data, now, true)
    ensures var e := Inserted(d.index, h, |data|, budget);
      Store(d, h, data, now, temp, budget) == Outcome(Disk(RemoveBlobs(placed, e.evicted), e.index), true)
  {
    hide Inserted, RemoveBlobs;
    PlacedBlob(d.dir, h, data, now, temp);
    placed := Rename(WriteFile(d.dir, temp, data, now).value, temp, ToHex(h)).value;
  }

  /** The stored blob is there, evicted blobs are gone, every other blob and every other file is untouched. */
  lemma StoreMeans(d: Disk, h: Hash, data: Blob, now: int, temp: string, budget: nat, g: Hash)
    requires |temp| > 64 && |data| <= budget && !Blocked(d.dir, h, temp) && Valid(d.index)
    ensures var r, e := Store(d, h, data, now, temp, budget).disk, Inserted(d.index, h, |data|, budget);
      && HasBlob(r.dir, h) && r.dir[ToHex(h)] == File(data, now, true)
      && (g != h ==> (HasBlob(r.dir, g) <==> HasBlob(d.dir, g) && g !in e.evicted))
      && (g != h && HasBlob(r.dir, g) ==> r.dir[ToHex(g)] == d.dir[ToHex(g)])
  {
    hide ToHex, Inserted, Store, Valid, RemoveBlobs, WriteFile, Rename;
    var placed := StoreParts(d, h, data, now, temp, budget);
    var e := Inserted(d.index, h, |data|, budget);
    InsertedIsValid(d.index, h, |data|, budget);
    RemovedBlobs(placed, e.evicted, g);
    RemovedBlobs(placed, e.evicted, h);
    if g != h && ToHex(g) == ToHex(h) { ToHexIsInjective(g, h); }
  }

  /** The index entries after an insertion, one at a time. */
  lemma InsertedEntry(v: Index, h: Hash, size: nat, budget: nat, g: Hash)
    requires Valid(v)
    ensures var e := Inserted(v, h, size, budget);
      && (g in e.index.entries <==> g == h || (g in v.entries && g !in e.evicted))
      && (g in e.index.entries ==> e.index.entries[g] == if g == h then size else v.entries[g])
  {
    hide Inserted, Valid;
    InsertMeans(v, h, size, budget);
    InsertedIsValid(v, h, size, budget);
  }

  /** Every store, failed or not, keeps index and files in step and, once they are within the budget, within it. */
  lemma StoreKeepsSync(d: Disk, h: Hash, data: Blob, now: int, temp: string, budget: nat)
    requires InSync(d) && |temp| > 64
    ensures var r := Store(d, h, data, now, temp, budget);
      InSync(r.disk) && (d.index.total <= budget ==> r.disk.index.total <= budget)
  {
    hide ToHex, Inserted, Store, Valid, Blocked;
    StoreOutcome(d, h, data, now, temp, budget);
    var r := Store(d, h, data, now, temp, budget);
    if |data| <= budget && r.ok {
      InsertedIsValid(d.index, h, |data|, budget);
      var placed := StoreParts(d, h, data, now, temp, budget);
      forall g
        ensures g in r.disk.index.entries <==> HasBlob(r.disk.dir, g)
        ensures g in r.disk.index.entries ==> r.disk.index.entries[g] == |r.disk.dir[ToHex(g)].data|
      {
        StoreMeans(d, h, data, now, temp, budget, g);
        InsertedEntry(d.index, h, |data|, budget, g);
      }
    } else if |data| <= budget {
      forall g | g in d.index.entries ensures r.disk.dir[ToHex(g)] == d.dir[ToHex(g)] {
        assert ToHex(g) != temp;
      }
    }
  }

  /** What was stored is what is found, whatever state the index and the other files were in. */
  lemma StoreThenLookup(d: Disk, h: Hash, data: Blob, now: int, temp: string, budget: nat, blake: Blob -> Hash)
    requires Valid(d.index) && |temp| > 64 && |data| <= budget && !Blocked(d.dir, h, temp)
    ensures Lookup(Store(d, h, data, now, temp, budget).disk, h, blake).data
         == if Verifies(blake, h, data) then Some(data) else None
  {
    hide ToHex, Inserted, Valid, Store;
    StoreMeans(d, h, data, now, temp, budget, h);
    var placed := StoreParts(d, h, data, now, temp, budget);
    InsertedEntry(d.index, h, |data|, budget, h);
  }

  // ---------------------------------------------------------------- faults

  /** A read error on a file that is there is the one thing that puts index and files out of step. */
  lemma ReadErrorIff(d: Disk, h: Hash, blake: Blob -> Hash, readFails: bool)
    requires InSync(d)
    ensures InSync(LookupWith(d, h, blake, readFails).disk) <==> !(readFails && HasBlob(d.dir, h))
    ensures Valid(LookupWith(d, h, blake, readFails).disk.index)
    ensures readFails ==> LookupWith(d, h, blake, readFails).data.None?
  {
    LookupMeans(d, h, blake);
    DroppedIsValid(d.index, h);
    hide Valid, Dropped, ToHex, Lookup, HasBlob;
  }

  /** No read error makes an answer false. */
  lemma LookupWithNeverLies(d: Disk, h: Hash, blake: Blob -> Hash, readFails: bool)
    requires Valid(d.index)
    ensures var a := LookupWith(d, h, blake, readFails);
      && Valid(a.disk.index) && a.disk.index.total <= d.index.total
      && (a.data.Some? ==> Verifies(blake, h, a.data.value))
      && (a.data.Some? <==> h in a.disk.index.entries)
  {
    LookupNeverLies(d, h, blake);
    DroppedIsValid(d.index, h);
    hide Valid, Lookup, HasBlob, Touched, Without;
  }

  function Least(m: nat, n: nat): nat {
    if m <= n then m else n
  }

  /** A scratch file is no blob and none of the other files; it holds as much of the data as has been written. */
  lemma ScratchOnly(dir: Directory, temp: string, data: Blob, left: Option<nat>, now: int)
    requires |temp| > 64
    ensures var after := PartWritten(dir, temp, data, left, now);
      && (forall g :: HasBlob(after, g) <==> HasBlob(dir, g))
      && (forall name :: name in after && name != temp ==> name in dir && after[name] == dir[name])
      && OthersKept(dir, after, temp)
      && (temp in dir && !dir[temp].regular ==> after == dir)
      && (left.None? ==> after == dir)
      && (left.Some? && !(temp in dir && !dir[temp].regular) ==>
           temp in after && after[temp].data <= data && |after[temp].data| == Least(left.value, |data|))
  {
    hide ToHex;
    forall g { HexIsShort(g); }
  }

  /**
    Whatever goes wrong: a store of a blob that fits succeeds exactly when nothing does and nothing is in the way; a
    failed one leaves the index, every blob and every file but its own scratch file as they were.
   */
  lemma StoreFaults(d: Disk, h: Hash, data: Blob, now: int, temp: string, budget: nat, fault: Fault)
    requires |temp| > 64
    ensures var r := StoreWith(d, h, data, now, temp, budget, fault);
      && (!r.ok <==> |data| <= budget && (fault != NoFault || Blocked(d.dir, h, temp)))
      && (!r.ok ==> r.disk.index == d.index && forall g :: HasBlob(r.disk.dir, g) <==> HasBlob(d.dir, g))
      && (!r.ok ==> OthersKept(d.dir, r.disk.dir, temp))
      && (r.ok ==> r == Store(d, h, data, now, temp, budget))
  {
    hide ToHex, Store, PartWritten, Blocked, HasBlob;
    StoreOutcome(d, h, data, now, temp, budget);
    ScratchOnly(d.dir, temp, data, if fault.WriteFails? then fault.left else Some(|data|), now);
    StoreSkips(d, h, data, now, temp, budget);
  }

  lemma StoreSkips(d: Disk, h: Hash, data: Blob, now: int, temp: string, budget: nat)
    ensures |data| > budget ==> Store(d, h, data, now, temp, budget) == Outcome(d, true)
  {
  }

  /** So no fault of a store ever puts index and files out of step or over the budget. */
  lemma StoreWithKeepsSync(d: Disk, h: Hash, data: Blob, now: int, temp: string, budget: nat, fault: Fault)
    requires InSync(d) && |temp| > 64
    ensures var r := StoreWith(d, h, data, now, temp, budget, fault);
      InSync(r.disk) && (d.index.total <= budget ==> r.disk.index.total <= budget)
  {
    hide ToHex, Store, StoreWith, Valid, Blocked;
    StoreKeepsSync(d, h, data, now, temp, budget);
    StoreFaults(d, h, data, now, temp, budget, fault);
    var r := StoreWith(d, h, data, now, temp, budget, fault);
    if !r.ok {
      forall g | g in d.index.entries ensures r.disk.dir[ToHex(g)] == d.dir[ToHex(g)] {
        HexIsShort(g);
      }
    }
  }

  // ---------------------------------------------------------------- bytes on disk

  /** The bytes of all hash-named files are what the index counts. */
  lemma FootprintIsTotal(d: Disk, all: seq<Hash>)
    requires InSync(d) && Distinct(all) && forall h :: h in all <==> HasBlob(d.dir, h)
    ensures Bytes(all, FileSize(d.dir)) == d.index.total
  {
    hide ToHex, Distinct, Total, Bytes, HasBlob;
    BytesPermute(all, d.index.lru, FileSize(d.dir));
    forall h | h in d.index.lru ensures SizeOf(d.index.entries, h) == FileSize(d.dir)(h) {
      assert HasBlob(d.dir, h);
      FileSizeOf(d.dir, h);
    }
    TotalIsBytes(d.index.lru, d.index.entries, FileSize(d.dir));
  }
}

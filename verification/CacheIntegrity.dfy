/** What concurrent calls and crashes can never do to the files, as long as nobody else touches them. */
module CacheIntegrity {
  import opened Blake
  import opened Lru
  import opened Directories
  import opened Reopening
  import opened CutOpening
  import opened DiskCaches
  import opened CacheMachines

  /** A property of a blob and its name, such as that the blob hashes to it. */
  type Property = (Hash, Blob) -> bool

  /** The blob hashes to its name. */
  function Hashing(blake: Blob -> Hash): Property {
    (h: Hash, data: Blob) => Verifies(blake, h, data)
  }

  ghost predicate BlobsGood(dir: Directory, good: Property) {
    forall h :: HasBlob(dir, h) ==> good(h, dir[ToHex(h)].data)
  }

  predicate HasScratch(dir: Directory, name: string, data: Blob) {
    name in dir && dir[name].regular && dir[name].data == data
  }

  /** The scratch file of a store in progress holds exactly the bytes written so far. */
  ghost predicate TaskWhole(t: Task, dir: Directory, pid: nat, counter: nat, good: Property) {
    match t
    case Starting(h, data) => good(h, data)
    case Writing(h, data, n, done) =>
      good(h, data) && n < counter && done <= |data| && HasScratch(dir, TempName(h, pid, n), data[..done])
    case Placed(h, data) => good(h, data)
    case _ => true
  }

  /** No two stores write to the same scratch file. */
  ghost predicate ScratchApart(tasks: map<nat, Task>) {
    forall i, j :: i in tasks && j in tasks && i != j && tasks[i].Writing? && tasks[j].Writing? ==>
      tasks[i].n != tasks[j].n
  }

  ghost predicate Whole(s: State, good: Property) {
    && BlobsGood(s.disk.dir, good)
    && (forall id :: id in s.tasks ==> TaskWhole(s.tasks[id], s.disk.dir, s.pid, s.counter, good))
    && ScratchApart(s.tasks)
  }

  // ---------------------------------------------------------------- what file operations leave alone

  /** Scratch files of the calls other than `id` are as they were. */
  ghost predicate ScratchKept(s: State, dir: Directory, id: nat) {
    forall j, data :: j in s.tasks && j != id && s.tasks[j].Writing?
      && HasScratch(s.disk.dir, TempName(s.tasks[j].h, s.pid, s.tasks[j].n), data)
      ==> HasScratch(dir, TempName(s.tasks[j].h, s.pid, s.tasks[j].n), data)
  }

  lemma ScratchWriteKeeps(s: State, id: nat, h: Hash, n: nat, data: Blob, now: int, good: Property)
    requires Whole(s, good)
    requires forall j :: j in s.tasks && j != id && s.tasks[j].Writing? ==> s.tasks[j].n != n
    ensures var dir := s.disk.dir[TempName(h, s.pid, n) := File(data, now, true)];
      ScratchKept(s, dir, id) && BlobsGood(dir, good) && HasScratch(dir, TempName(h, s.pid, n), data)
  {
    var name := TempName(h, s.pid, n);
    TempIsLong(h, s.pid, n);
    var dir := s.disk.dir[name := File(data, now, true)];
    forall j | j in s.tasks && j != id && s.tasks[j].Writing?
      ensures TempName(s.tasks[j].h, s.pid, s.tasks[j].n) != name
    {
      if TempName(s.tasks[j].h, s.pid, s.tasks[j].n) == name {
        TempNamesAreUnique(s.tasks[j].h, s.tasks[j].n, h, n, s.pid);
      }
    }
    hide TempName, ToHex;
    forall g ensures HasBlob(dir, g) <==> HasBlob(s.disk.dir, g) { HexIsShort(g); }
    forall g | HasBlob(dir, g) ensures good(g, dir[ToHex(g)].data) { HexIsShort(g); }
  }

  /** Renaming moves the complete scratch file to its blob's name. */
  lemma PlaceKeeps(s: State, id: nat, h: Hash, n: nat, good: Property)
    requires Whole(s, good)
    requires forall j :: j in s.tasks && j != id && s.tasks[j].Writing? ==> s.tasks[j].n != n
    requires Rename(s.disk.dir, TempName(h, s.pid, n), ToHex(h)).Some?
    requires good(h, s.disk.dir[TempName(h, s.pid, n)].data)
    ensures var dir := Rename(s.disk.dir, TempName(h, s.pid, n), ToHex(h)).value;
      ScratchKept(s, dir, id) && BlobsGood(dir, good)
  {
    var name := TempName(h, s.pid, n);
    var dir := Rename(s.disk.dir, name, ToHex(h)).value;
    TempIsLong(h, s.pid, n);
    forall j | j in s.tasks && j != id && s.tasks[j].Writing?
      ensures var other := TempName(s.tasks[j].h, s.pid, s.tasks[j].n); other != name && |other| > 64
    {
      TempIsLong(s.tasks[j].h, s.pid, s.tasks[j].n);
      if TempName(s.tasks[j].h, s.pid, s.tasks[j].n) == name {
        TempNamesAreUnique(s.tasks[j].h, s.tasks[j].n, h, n, s.pid);
      }
    }
    hide TempName, ToHex;
    HexIsShort(h);
    forall g | HasBlob(dir, g) ensures good(g, dir[ToHex(g)].data) {
      HexIsShort(g);
      if ToHex(g) == ToHex(h) { ToHexIsInjective(g, h); }
    }
  }

  // ---------------------------------------------------------------- one step

  /** A step of call `id` keeps everything whole if it keeps the others' scratch files and its own affairs in order. */
  lemma CallKeepsWhole(s: State, t: State, id: nat, good: Property)
    requires Whole(s, good) && t.pid == s.pid && s.counter <= t.counter
    requires BlobsGood(t.disk.dir, good) && ScratchKept(s, t.disk.dir, id)
    requires forall j :: j in t.tasks && j != id ==> j in s.tasks && t.tasks[j] == s.tasks[j]
    requires id in t.tasks ==> TaskWhole(t.tasks[id], t.disk.dir, t.pid, t.counter, good)
    requires id in t.tasks && t.tasks[id].Writing? ==>
      t.tasks[id].n == s.counter || (id in s.tasks && s.tasks[id].Writing? && s.tasks[id].n == t.tasks[id].n)
    ensures Whole(t, good)
  {
  }

  lemma SameFilesKeep(s: State, id: nat)
    ensures ScratchKept(s, s.disk.dir, id)
  {
  }

  lemma CreateKeepsWhole(s: State, id: nat, h: Hash, data: Blob, now: int, good: Property)
    requires Whole(s, good) && good(h, data)
    ensures Whole(CreateStep(s, id, h, data, now), good)
  {
    hide TempName, TaskWhole, HasScratch;
    SameFilesKeep(s, id);
    ScratchBelow(s, good);
    if WriteFile(s.disk.dir, TempName(h, s.pid, s.counter), [], now).Some? {
      ScratchWriteKeeps(s, id, h, s.counter, [], now, good);
    }
    var t := CreateStep(s, id, h, data, now);
    if id in t.tasks { WritingIsWhole(t.tasks[id], t.disk.dir, t.pid, t.counter, good); }
    CallKeepsWhole(s, t, id, good);
  }

  lemma ScratchBelow(s: State, good: Property)
    requires Whole(s, good)
    ensures forall j :: j in s.tasks && s.tasks[j].Writing? ==> s.tasks[j].n < s.counter
  {
  }

  lemma WritingIsWhole(t: Task, dir: Directory, pid: nat, counter: nat, good: Property)
    requires t.Writing? && good(t.h, t.data) && t.n < counter && t.done <= |t.data|
    requires HasScratch(dir, TempName(t.h, pid, t.n), t.data[..t.done])
    ensures TaskWhole(t, dir, pid, counter, good)
  {
  }

  /** What a store in progress knows about its own scratch file, and that nobody shares it. */
  lemma OwnScratch(s: State, id: nat, good: Property)
    requires Whole(s, good) && id in s.tasks && s.tasks[id].Writing?
    ensures var t := s.tasks[id];
      && good(t.h, t.data) && t.n < s.counter && t.done <= |t.data|
      && HasScratch(s.disk.dir, TempName(t.h, s.pid, t.n), t.data[..t.done])
      && (forall j :: j in s.tasks && j != id && s.tasks[j].Writing? ==> s.tasks[j].n != t.n)
  {
  }

  lemma WriteKeepsWhole(s: State, id: nat, upTo: nat, now: int, good: Property)
    requires Whole(s, good) && id in s.tasks && s.tasks[id].Writing? && upTo <= |s.tasks[id].data|
    ensures var t := s.tasks[id]; Whole(WriteStep(s, id, t.h, t.data, t.n, upTo, now), good)
  {
    hide TempName, TaskWhole;
    var w := s.tasks[id];
    OwnScratch(s, id, good);
    ScratchWriteKeeps(s, id, w.h, w.n, w.data[..upTo], now, good);
    var t := WriteStep(s, id, w.h, w.data, w.n, upTo, now);
    WritingIsWhole(t.tasks[id], t.disk.dir, t.pid, t.counter, good);
    CallKeepsWhole(s, t, id, good);
  }

  lemma PlaceKeepsWhole(s: State, id: nat, good: Property)
    requires Whole(s, good) && id in s.tasks && s.tasks[id].Writing? && s.tasks[id].done == |s.tasks[id].data|
    ensures var t := s.tasks[id]; Whole(PlaceStep(s, id, t.h, t.data, t.n), good)
  {
    hide TempName, ToHex, Rename;
    var w := s.tasks[id];
    OwnScratch(s, id, good);
    assert w.data[..w.done] == w.data;
    if Rename(s.disk.dir, TempName(w.h, s.pid, w.n), ToHex(w.h)).Some? {
      PlaceKeeps(s, id, w.h, w.n, good);
    } else {
      SameFilesKeep(s, id);
    }
    CallKeepsWhole(s, PlaceStep(s, id, w.h, w.data, w.n), id, good);
  }

  lemma RemoveKeepsWhole(s: State, t: State, id: nat, h: Hash, good: Property)
    requires Whole(s, good) && t.pid == s.pid && t.counter == s.counter
    requires t.disk.dir == RemoveFile(s.disk.dir, ToHex(h))
    requires forall j :: j in t.tasks && j != id ==> j in s.tasks && t.tasks[j] == s.tasks[j]
    requires id in t.tasks ==> t.tasks[id].Evicting? || t.tasks[id].Dropping?
    ensures Whole(t, good)
  {
  }

  /** Steps that do not touch the files. */
  lemma QuietKeepsWhole(s: State, t: State, id: nat, good: Property)
    requires Whole(s, good) && t.pid == s.pid && s.counter <= t.counter && t.disk.dir == s.disk.dir
    requires forall j :: j in t.tasks && j != id ==> j in s.tasks && t.tasks[j] == s.tasks[j]
    requires id in t.tasks ==> !t.tasks[id].Writing?
    requires id in t.tasks && (t.tasks[id].Starting? || t.tasks[id].Placed?) ==> good(t.tasks[id].h, t.tasks[id].data)
    ensures Whole(t, good)
  {
  }

  lemma StoreStepKeepsWhole(s: State, id: nat, action: Action, blake: Blob -> Hash, good: Property)
    requires Whole(s, good) && id in s.tasks
    requires s.tasks[id].Starting? || s.tasks[id].Writing? || s.tasks[id].Placed? || s.tasks[id].Evicting?
    ensures Whole(Advance(s, id, action, blake), good)
  {
    hide TempName, ToHex, TaskWhole, HasScratch, BlobsGood, Inserted, RemoveFile, CreateStep, WriteStep, PlaceStep;
    var t := Advance(s, id, action, blake);
    TaskIsGood(s, id, good);
    match (s.tasks[id], action)
    case (_, Abandon) => QuietKeepsWhole(s, t, id, good);
    case (Starting(h, data), Create(now)) => CreateKeepsWhole(s, id, h, data, now, good);
    case (Starting(h, data), Fail) => QuietKeepsWhole(s, t, id, good);
    case (Writing(h, data, n, done), Write(upTo, now)) =>
      if done < upTo <= |data| { WriteKeepsWhole(s, id, upTo, now, good); }
    case (Writing(h, data, n, done), Place) => if done == |data| { PlaceKeepsWhole(s, id, good); }
    case (Writing(h, data, n, done), Fail) => QuietKeepsWhole(s, t, id, good);
    case (Placed(h, data), Insert) => QuietKeepsWhole(s, t, id, good);
    case (Evicting(victims), Remove) =>
      if victims == [] { QuietKeepsWhole(s, t, id, good); } else { RemoveKeepsWhole(s, t, id, victims[0], good); }
    case _ =>
  }

  lemma TaskIsGood(s: State, id: nat, good: Property)
    requires Whole(s, good) && id in s.tasks
    ensures s.tasks[id].Starting? || s.tasks[id].Writing? || s.tasks[id].Placed?
      ==> good(s.tasks[id].h, s.tasks[id].data)
  {
  }

  lemma LookupStepKeepsWhole(s: State, id: nat, action: Action, blake: Blob -> Hash, good: Property)
    requires Whole(s, good) && id in s.tasks
    requires !(s.tasks[id].Starting? || s.tasks[id].Writing? || s.tasks[id].Placed? || s.tasks[id].Evicting?)
    ensures Whole(Advance(s, id, action, blake), good)
  {
  }

  lemma ReopenKeepsWhole(dir: Directory, order: seq<string>, budget: nat, good: Property)
    requires BlobsGood(dir, good)
    ensures BlobsGood(Open(dir, order, budget).dir, good)
  {
    hide Open, ToHex, Evict, Filled;
    var o := Open(dir, order, budget).dir;
    forall h | HasBlob(o, h) ensures good(h, o[ToHex(h)].data) {
      OpenKeepsBlobs(dir, order, budget, h);
    }
  }

  lemma CutShortKeepsWhole(s: State, order: seq<string>, budget: nat, swept: nat, removed: nat, good: Property)
    requires Whole(s, good) && s.tasks == map[]
    ensures Whole(WithDir(s, PartOpened(s.disk.dir, order, budget, swept, removed)), good)
  {
    hide ToHex, PartOpened, Evict, Filled;
    var after := PartOpened(s.disk.dir, order, budget, swept, removed);
    forall h | HasBlob(after, h) ensures good(h, after[ToHex(h)].data) {
      PartOpenedKeeps(s.disk.dir, order, budget, swept, removed, h);
    }
  }

  lemma NextIsWhole(s: State, step: Step, blake: Blob -> Hash, good: Property)
    requires Whole(s, good) && (s.up || s.tasks == map[]) && !step.Tamper?
    requires step.StartStore? ==> good(step.h, step.data)
    ensures Whole(Next(s, step, blake), good)
  {
    hide ToHex, TempName, Advance, Open, Lists, BlobsGood, HasScratch, TaskWhole, PartOpened;
    match step
    case StartStore(id, h, data) =>
      if !(!s.up || id in s.tasks || |data| > s.budget) { QuietKeepsWhole(s, Next(s, step, blake), id, good); }
    case StartLookup(id, h) =>
      if !(!s.up || id in s.tasks || h !in s.disk.index.entries) {
        QuietKeepsWhole(s, Next(s, step, blake), id, good);
      }
    case Act(id, action) =>
      if id in s.tasks {
        if s.tasks[id].Starting? || s.tasks[id].Writing? || s.tasks[id].Placed? || s.tasks[id].Evicting? {
          StoreStepKeepsWhole(s, id, action, blake, good);
        } else {
          LookupStepKeepsWhole(s, id, action, blake, good);
        }
      }
    case Reopen(order, budget, pid) => ReopenKeepsWhole(s.disk.dir, order, budget, good);
    case CrashInOpen(order, budget, swept, removed) =>
      if !s.up { CutShortKeepsWhole(s, order, budget, swept, removed, good); }
    case _ =>
  }

  // ---------------------------------------------------------------- every run

  /** Nobody but the cache touches the directory. */
  predicate Untampered(steps: seq<Step>) {
    forall i :: 0 <= i < |steps| ==> !steps[i].Tamper?
  }

  ghost predicate StoresGood(steps: seq<Step>, good: Property) {
    forall i :: 0 <= i < |steps| && steps[i].StartStore? ==> good(steps[i].h, steps[i].data)
  }

  lemma {:induction false} RunIsWhole(dir: Directory, steps: seq<Step>, blake: Blob -> Hash, good: Property)
    requires BlobsGood(dir, good) && Untampered(steps) && StoresGood(steps, good)
    ensures Whole(After(dir, steps, blake), good)
  {
    hide Next, BlobsGood, TaskWhole;
    if steps != [] {
      var init := steps[..|steps| - 1];
      RunIsWhole(dir, init, blake, good);
      DownIsIdle(dir, init, blake);
      NextIsWhole(After(dir, init, blake), steps[|steps| - 1], blake, good);
    }
  }

  /**
    Atomicity: in any interleaving of stores of verified blobs, lookups, failures, crashes and reopenings, every
    hash-named file is at every step the complete blob for its name.
   */
  lemma FilesAlwaysVerify(dir: Directory, steps: seq<Step>, blake: Blob -> Hash, h: Hash)
    requires BlobsGood(dir, Hashing(blake))
    requires Untampered(steps) && StoresGood(steps, Hashing(blake))
    requires HasBlob(After(dir, steps, blake).disk.dir, h)
    ensures Verifies(blake, h, After(dir, steps, blake).disk.dir[ToHex(h)].data)
  {
    hide After, ToHex, TaskWhole, Untampered, Verifies;
    RunIsWhole(dir, steps, blake, Hashing(blake));
  }

  /** And verified or not, each file is, byte for byte, one that was there first or one that some store was given. */
  lemma FilesAreWholeStores(dir: Directory, steps: seq<Step>, blake: Blob -> Hash, h: Hash)
    requires Untampered(steps) && HasBlob(After(dir, steps, blake).disk.dir, h)
    ensures var data := After(dir, steps, blake).disk.dir[ToHex(h)].data; CameFrom(dir, steps)(h, data)
  {
    hide After, ToHex, TaskWhole, Untampered;
    RunIsWhole(dir, steps, blake, CameFrom(dir, steps));
  }

  ghost function CameFrom(dir: Directory, steps: seq<Step>): Property {
    (h: Hash, data: Blob) =>
      (HasBlob(dir, h) && dir[ToHex(h)].data == data)
      || exists i :: 0 <= i < |steps| && steps[i].StartStore? && steps[i].h == h && steps[i].data == data
  }
}

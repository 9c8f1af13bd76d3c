/** Where every blob file on disk belongs, how many bytes that can be, and what a crash at any point leaves. */
module CacheFootprint {
  import opened Digits
  import opened Blake
  import opened Lru
  import opened RecentRun
  import opened Directories
  import opened Reopening
  import opened CutOpening
  import opened DiskCaches
  import opened CacheMachines
  import opened CacheIntegrity

  /** A store that has renamed `h` into place and not indexed it, or has evicted `h` and not removed it. */
  predicate Holds(t: Task, h: Hash) {
    (t.Placed? && t.h == h) || (t.Evicting? && h in t.victims)
  }

  ghost predicate InFlight(s: State, h: Hash) {
    exists id :: id in s.tasks && Holds(s.tasks[id], h)
  }

  /** Every hash-named file is indexed, or a store is about to index it or to remove it. */
  ghost predicate Accounted(s: State) {
    s.up ==> forall h :: HasBlob(s.disk.dir, h) ==> h in s.disk.index.entries || InFlight(s, h)
  }

  ghost predicate OtherInFlight(s: State, id: nat, h: Hash) {
    exists j :: j in s.tasks && j != id && Holds(s.tasks[j], h)
  }

  /**
    A lookup forgets a blob whose file is on disk, and no store in flight will index or remove it. The lookup may have
    met a read error on a file that was there all the time, or the file may have been gone and stored again since.
   */
  ghost predicate ForgetsBlobOnDisk(s: State, step: Step) {
    && step.Act? && step.action.Forget? && step.id in s.tasks && s.tasks[step.id].Dropping?
    && var h := s.tasks[step.id].h;
    && h in s.disk.index.entries && HasBlob(s.disk.dir, h) && !InFlight(s, h)
  }

  /** A store is abandoned that alone was to index or to remove a file. */
  ghost predicate AbandonsFile(s: State, step: Step) {
    && step.Act? && step.action.Abandon? && step.id in s.tasks
    && exists h :: && Holds(s.tasks[step.id], h) && HasBlob(s.disk.dir, h)
                   && h !in s.disk.index.entries && !OtherInFlight(s, step.id, h)
  }

  ghost predicate Spoils(s: State, step: Step) {
    ForgetsBlobOnDisk(s, step) || AbandonsFile(s, step)
  }

  // ---------------------------------------------------------------- names stay canonical

  lemma PlacedNames(dir: Directory, h: Hash, temp: string)
    requires CanonicalNames(dir) && Rename(dir, temp, ToHex(h)).Some?
    ensures CanonicalNames(Rename(dir, temp, ToHex(h)).value)
  {
    hide ToHex, FromHex, IsTemp, LowerCase;
    HexRoundTrip(h);
    var placed := Rename(dir, temp, ToHex(h)).value;
    forall name | IsEntry(placed, name) ensures LowerCase(name) {
      if name != ToHex(h) { assert IsEntry(dir, name); }
    }
  }

  lemma ScratchNames(dir: Directory, h: Hash, pid: nat, n: nat, file: File)
    requires CanonicalNames(dir)
    ensures CanonicalNames(dir[TempName(h, pid, n) := file])
  {
  }

  lemma RemovedNames(dir: Directory, name: string)
    requires CanonicalNames(dir)
    ensures CanonicalNames(RemoveFile(dir, name))
  {
  }

  lemma OpenedNames(dir: Directory, order: seq<string>, budget: nat)
    requires CanonicalNames(dir) && Lists(dir, order)
    ensures CanonicalNames(Open(dir, order, budget).dir)
  {
    hide *;
    var _ := OpenRecovers(dir, order, budget);
  }

  lemma NextIsCanonical(s: State, step: Step, blake: Blob -> Hash)
    requires CanonicalNames(s.disk.dir) && !step.Tamper?
    ensures CanonicalNames(Next(s, step, blake).disk.dir)
  {
    hide ToHex, TempName, CanonicalNames, Open, Lists, RemoveFile, Inserted, Touched, Dropped, Rename, PartOpened;
    match step
    case Act(id, action) =>
      if id in s.tasks {
        match (s.tasks[id], action)
        case (Starting(h, data), Create(now)) =>
          ScratchNames(s.disk.dir, h, s.pid, s.counter, File([], now, true));
        case (Writing(h, data, n, done), Write(upTo, now)) =>
          if done < upTo <= |data| {
            ScratchNames(s.disk.dir, h, s.pid, n, File(data[..upTo], now, true));
          }
        case (Writing(h, data, n, done), Place) =>
          if Rename(s.disk.dir, TempName(h, s.pid, n), ToHex(h)).Some? {
            PlacedNames(s.disk.dir, h, TempName(h, s.pid, n));
          }
        case (Evicting(victims), Remove) =>
          if victims != [] { RemovedNames(s.disk.dir, ToHex(victims[0])); }
        case (Corrupt(h), Remove) => RemovedNames(s.disk.dir, ToHex(h));
        case _ =>
      }
    case Reopen(order, budget, pid) =>
      if !s.up && Lists(s.disk.dir, order) { OpenedNames(s.disk.dir, order, budget); }
    case CrashInOpen(order, budget, swept, removed) =>
      PartOpenedIsCanonical(s.disk.dir, order, budget, swept, removed);
    case _ =>
  }

  lemma {:induction false} NamesStayCanonical(dir: Directory, steps: seq<Step>, blake: Blob -> Hash)
    requires CanonicalNames(dir) && Untampered(steps)
    ensures CanonicalNames(After(dir, steps, blake).disk.dir)
  {
    hide Next, CanonicalNames;
    if steps != [] {
      NamesStayCanonical(dir, steps[..|steps| - 1], blake);
      NextIsCanonical(After(dir, steps[..|steps| - 1], blake), steps[|steps| - 1], blake);
    }
  }

  lemma UntamperedPrefix(steps: seq<Step>, i: nat)
    requires Untampered(steps) && i <= |steps|
    ensures Untampered(steps[..i])
  {
  }

  /** So every reopened directory spells each hash once, and the index is sound throughout. */
  lemma CanonicalIndexSound(dir: Directory, steps: seq<Step>, blake: Blob -> Hash)
    requires CanonicalNames(dir) && Untampered(steps)
    ensures IndexSound(After(dir, steps, blake)) && TasksFit(After(dir, steps, blake))
  {
    hide After, CanonicalNames, OneSpelling, IndexSound, TasksFit, Untampered;
    forall i | 0 <= i < |steps| && steps[i].Reopen?
      ensures OneSpelling(After(dir, steps[..i], blake).disk.dir, steps[i].order)
    {
      UntamperedPrefix(steps, i);
      NamesStayCanonical(dir, steps[..i], blake);
      CanonicalIsOneSpelling(After(dir, steps[..i], blake).disk.dir, steps[i].order);
    }
    IndexIsAlwaysSound(dir, steps, blake);
  }

  /**
    Crash recovery: from the directory that any run leaves at any step, opening ends with no temporary file and an index
    whose keys and sizes are exactly the remaining blobs, which are the longest newest run that fits the budget.
   */
  lemma CrashRecovery(dir: Directory, steps: seq<Step>, blake: Blob -> Hash, order: seq<string>, budget: nat)
    returns (all: seq<Hash>)
    requires CanonicalNames(dir) && Untampered(steps) && Lists(After(dir, steps, blake).disk.dir, order)
    ensures var left := After(dir, steps, blake).disk.dir;
      var o := Open(left, order, budget);
      && InSync(o) && NoTemps(o.dir) && o.index.total <= budget
      && ByAge(left, all) && o.index.lru == LongestRun(all, FileSize(left), budget)
  {
    hide *;
    NamesStayCanonical(dir, steps, blake);
    all := OpenRecovers(After(dir, steps, blake).disk.dir, order, budget);
  }

  // ---------------------------------------------------------------- every file is accounted for

  predicate Covered(s: State, id: nat, h: Hash) {
    h in s.disk.index.entries || (id in s.tasks && Holds(s.tasks[id], h))
  }

  /** It is enough that a step of call `id` uncovers no file that only this call or the index accounted for. */
  lemma CallAccounts(s: State, t: State, id: nat)
    requires s.up && Accounted(s)
    requires forall j :: j in s.tasks && j != id ==> j in t.tasks && t.tasks[j] == s.tasks[j]
    requires forall h :: HasBlob(t.disk.dir, h) ==>
      Covered(t, id, h) || OtherInFlight(s, id, h) || (HasBlob(s.disk.dir, h) && !Covered(s, id, h))
    ensures Accounted(t)
  {
  }

  lemma ScratchIsNoBlob(dir: Directory, h: Hash, pid: nat, n: nat, file: File, g: Hash)
    ensures HasBlob(dir[TempName(h, pid, n) := file], g) <==> HasBlob(dir, g)
  {
  }

  lemma CreateAccounts(s: State, id: nat, h: Hash, data: Blob, now: int)
    requires s.up && Accounted(s) && id in s.tasks && s.tasks[id].Starting?
    ensures Accounted(CreateStep(s, id, h, data, now))
  {
    hide TempName, HasBlob;
    forall g { ScratchIsNoBlob(s.disk.dir, h, s.pid, s.counter, File([], now, true), g); }
    CallAccounts(s, CreateStep(s, id, h, data, now), id);
  }

  lemma WriteAccounts(s: State, id: nat, upTo: nat, now: int)
    requires s.up && Accounted(s) && id in s.tasks && s.tasks[id].Writing? && upTo <= |s.tasks[id].data|
    ensures var w := s.tasks[id]; Accounted(WriteStep(s, id, w.h, w.data, w.n, upTo, now))
  {
    hide TempName, HasBlob;
    var w := s.tasks[id];
    forall g { ScratchIsNoBlob(s.disk.dir, w.h, s.pid, w.n, File(w.data[..upTo], now, true), g); }
    CallAccounts(s, WriteStep(s, id, w.h, w.data, w.n, upTo, now), id);
  }

  lemma PlaceAccounts(s: State, id: nat)
    requires s.up && Accounted(s) && id in s.tasks && s.tasks[id].Writing?
    ensures var w := s.tasks[id]; Accounted(PlaceStep(s, id, w.h, w.data, w.n))
  {
    hide TempName, ToHex;
    var w := s.tasks[id];
    var t := PlaceStep(s, id, w.h, w.data, w.n);
    forall g ensures HasBlob(t.disk.dir, g) ==> (g == w.h && Covered(t, id, g)) || HasBlob(s.disk.dir, g) {
      if ToHex(g) == ToHex(w.h) { ToHexIsInjective(g, w.h); }
    }
    CallAccounts(s, t, id);
  }

  lemma InsertAccounts(s: State, id: nat)
    requires s.up && Accounted(s) && Valid(s.disk.index) && id in s.tasks && s.tasks[id].Placed?
    ensures var w := s.tasks[id]; Accounted(InsertStep(s, id, w.h, w.data))
  {
    hide Valid, Inserted, HasBlob;
    var w := s.tasks[id];
    forall g { InsertedEntry(s.disk.index, w.h, |w.data|, s.budget, g); }
    CallAccounts(s, InsertStep(s, id, w.h, w.data), id);
  }

  lemma RemoveAccounts(s: State, id: nat)
    requires s.up && Accounted(s) && id in s.tasks && s.tasks[id].Evicting?
    ensures Accounted(RemoveStep(s, id, s.tasks[id].victims))
  {
    hide HasBlob, ToHex, RemoveFile;
    var victims := s.tasks[id].victims;
    if victims != [] {
      assert victims == [victims[0]] + victims[1..];
      forall g { RemovedBlob(s.disk.dir, victims[0], g); }
    }
    CallAccounts(s, RemoveStep(s, id, victims), id);
  }

  lemma CorruptAccounts(s: State, id: nat)
    requires s.up && Accounted(s) && id in s.tasks && s.tasks[id].Corrupt?
    ensures var h := s.tasks[id].h;
      Accounted(Goto(WithDir(s, RemoveFile(s.disk.dir, ToHex(h))), id, Dropping(h)))
  {
    hide HasBlob, ToHex, RemoveFile;
    var h := s.tasks[id].h;
    forall g { RemovedBlob(s.disk.dir, h, g); }
    CallAccounts(s, Goto(WithDir(s, RemoveFile(s.disk.dir, ToHex(h))), id, Dropping(h)), id);
  }

  lemma ForgetAccounts(s: State, id: nat)
    requires s.up && Accounted(s) && id in s.tasks && s.tasks[id].Dropping?
    ensures var t := Finish(WithIndex(s, Dropped(s.disk.index, s.tasks[id].h)), id);
      Accounted(t) <==> !Spoils(s, Act(id, Forget))
  {
    hide HasBlob, Without;
    var h := s.tasks[id].h;
    var t := Finish(WithIndex(s, Dropped(s.disk.index, h)), id);
    if Spoils(s, Act(id, Forget)) {
      assert !InFlight(t, h);
    } else {
      if InFlight(s, h) {
        var j :| j in s.tasks && Holds(s.tasks[j], h);
        assert OtherInFlight(s, id, h);
      }
      CallAccounts(s, t, id);
    }
  }

  lemma AbandonAccounts(s: State, id: nat)
    requires s.up && Accounted(s) && id in s.tasks
    ensures Accounted(Finish(s, id)) <==> !Spoils(s, Act(id, Abandon))
  {
    hide HasBlob;
    var t := Finish(s, id);
    forall h ensures InFlight(t, h) <==> OtherInFlight(s, id, h) {
      if OtherInFlight(s, id, h) {
        var j :| j in s.tasks && j != id && Holds(s.tasks[j], h);
        assert t.tasks[j] == s.tasks[j];
      }
      if InFlight(t, h) {
        var j :| j in t.tasks && Holds(t.tasks[j], h);
        assert s.tasks[j] == t.tasks[j];
      }
    }
    if !Spoils(s, Act(id, Abandon)) {
      CallAccounts(s, t, id);
    }
  }

  /** Steps that leave files, entries and what the call holds as they are. */
  lemma QuietAccounts(s: State, t: State, id: nat)
    requires s.up && Accounted(s)
    requires t.disk.dir == s.disk.dir && t.disk.index.entries == s.disk.index.entries
    requires forall j :: j in s.tasks && j != id ==> j in t.tasks && t.tasks[j] == s.tasks[j]
    requires id in s.tasks ==> !s.tasks[id].Placed? && !s.tasks[id].Evicting?
    ensures Accounted(t)
  {
  }

  lemma ActAccounts(s: State, id: nat, action: Action, blake: Blob -> Hash)
    requires s.up && Accounted(s) && Valid(s.disk.index) && id in s.tasks
    ensures Accounted(Advance(s, id, action, blake)) <==> !Spoils(s, Act(id, action))
  {
    hide Accounted, Valid, HasBlob, ToHex, CreateStep, WriteStep, PlaceStep, InsertStep, RemoveStep, Verifies, Dropped,
      RemoveFile, InFlight, OtherInFlight;
    var t := Advance(s, id, action, blake);
    match (s.tasks[id], action)
    case (_, Abandon) => AbandonAccounts(s, id);
    case (Starting(h, data), Create(now)) => CreateAccounts(s, id, h, data, now);
    case (Starting(h, data), Fail) => QuietAccounts(s, t, id);
    case (Writing(h, data, n, done), Write(upTo, now)) => if done < upTo <= |data| { WriteAccounts(s, id, upTo, now); }
    case (Writing(h, data, n, done), Place) => if done == |data| { PlaceAccounts(s, id); }
    case (Writing(h, data, n, done), Fail) => QuietAccounts(s, t, id);
    case (Placed(h, data), Insert) => InsertAccounts(s, id);
    case (Evicting(victims), Remove) => RemoveAccounts(s, id);
    case (Reading(h), Read) => QuietAccounts(s, t, id);
    case (Reading(h), Fail) => QuietAccounts(s, t, id);
    case (Checking(h, data), Check) => QuietAccounts(s, t, id);
    case (Corrupt(h), Remove) => CorruptAccounts(s, id);
    case (Dropping(h), Forget) => ForgetAccounts(s, id);
    case (Touching(h, data), Touch) => QuietAccounts(s, t, id);
    case _ =>
  }

  lemma ReopenAccounts(s: State, order: seq<string>, budget: nat, pid: nat)
    requires CanonicalNames(s.disk.dir) && Lists(s.disk.dir, order)
    ensures Accounted(State(Open(s.disk.dir, order, budget), map[], 0, pid, budget, true, s.served))
  {
    hide Open, CanonicalNames, Lists, Valid, ToHex;
    var _ := OpenRecovers(s.disk.dir, order, budget);
  }

  /**
    Forgetting a blob whose file is on disk, or abandoning a store that alone was to index or remove a file, are the
    only steps after which a file can be on disk unaccounted for.
   */
  lemma NextAccountsIff(s: State, step: Step, blake: Blob -> Hash)
    requires Accounted(s) && CanonicalNames(s.disk.dir) && TasksFit(s) && IndexSound(s) && !step.Tamper?
    ensures Accounted(Next(s, step, blake)) <==> !Spoils(s, step)
  {
    hide CanonicalNames, Valid, HasBlob, Open, Advance, Lists;
    match step
    case Act(id, action) => if id in s.tasks { ActAccounts(s, id, action, blake); }
    case Reopen(order, budget, pid) =>
      if !s.up && Lists(s.disk.dir, order) { ReopenAccounts(s, order, budget, pid); }
    case StartStore(id, h, data) => if s.up && id !in s.tasks { QuietAccounts(s, Next(s, step, blake), id); }
    case StartLookup(id, h) => if s.up && id !in s.tasks { QuietAccounts(s, Next(s, step, blake), id); }
    case _ =>
  }

  lemma AfterStep(dir: Directory, steps: seq<Step>, blake: Blob -> Hash, i: nat)
    requires i < |steps|
    ensures After(dir, steps[..i + 1], blake) == Next(After(dir, steps[..i], blake), steps[i], blake)
  {
    assert steps[..i + 1][..i] == steps[..i];
    hide Next;
  }

  ghost predicate AccountedThroughout(dir: Directory, steps: seq<Step>, blake: Blob -> Hash) {
    forall i :: 0 <= i <= |steps| ==> Accounted(After(dir, steps[..i], blake))
  }

  ghost predicate NothingSpoils(dir: Directory, steps: seq<Step>, blake: Blob -> Hash) {
    forall i :: 0 <= i < |steps| ==> !Spoils(After(dir, steps[..i], blake), steps[i])
  }

  lemma AccountedStep(dir: Directory, steps: seq<Step>, blake: Blob -> Hash, i: nat)
    requires CanonicalNames(dir) && Untampered(steps) && i < |steps|
    requires Accounted(After(dir, steps[..i], blake))
    ensures Accounted(After(dir, steps[..i + 1], blake)) <==> !Spoils(After(dir, steps[..i], blake), steps[i])
  {
    hide Next, After, Accounted, Spoils, CanonicalNames, TasksFit, IndexSound;
    UntamperedPrefix(steps, i);
    NamesStayCanonical(dir, steps[..i], blake);
    CanonicalIndexSound(dir, steps[..i], blake);
    AfterStep(dir, steps, blake, i);
    NextAccountsIff(After(dir, steps[..i], blake), steps[i], blake);
  }

  lemma {:induction false} AccountedUpTo(dir: Directory, steps: seq<Step>, blake: Blob -> Hash, i: nat)
    requires CanonicalNames(dir) && Untampered(steps) && i <= |steps| && NothingSpoils(dir, steps, blake)
    ensures Accounted(After(dir, steps[..i], blake))
  {
    hide Spoils, CanonicalNames, Untampered, Next;
    if i > 0 {
      AccountedUpTo(dir, steps, blake, i - 1);
      AccountedStep(dir, steps, blake, i - 1);
    }
  }

  /**
    Any number of stores and lookups: every hash-named file is at every step indexed, about to be indexed or about to be
    removed - exactly when no lookup of the run forgets a blob that is on disk and no store is abandoned with
    a file in its hands.
   */
  lemma AccountedThroughoutIff(dir: Directory, steps: seq<Step>, blake: Blob -> Hash)
    requires CanonicalNames(dir) && Untampered(steps)
    ensures AccountedThroughout(dir, steps, blake) <==> NothingSpoils(dir, steps, blake)
  {
    hide Spoils, CanonicalNames, Untampered, After, Accounted;
    if NothingSpoils(dir, steps, blake) {
      forall i | 0 <= i <= |steps| ensures Accounted(After(dir, steps[..i], blake)) {
        AccountedUpTo(dir, steps, blake, i);
      }
    } else {
      var i :| 0 <= i < |steps| && Spoils(After(dir, steps[..i], blake), steps[i]);
      if Accounted(After(dir, steps[..i], blake)) {
        AccountedStep(dir, steps, blake, i);
        assert !Accounted(After(dir, steps[..i + 1], blake));
      }
    }
  }

  // ---------------------------------------------------------------- bytes on disk

  function OfSize(size: Sizes): Property {
    (h: Hash, data: Blob) => |data| == size(h)
  }

  ghost predicate IndexSized(s: State, size: Sizes) {
    s.up ==> Sized(s.disk.index, size)
  }

  lemma ReopenIsSized(dir: Directory, order: seq<string>, budget: nat, size: Sizes)
    requires CanonicalNames(dir) && Lists(dir, order) && BlobsGood(dir, OfSize(size))
    ensures Sized(Open(dir, order, budget).index, size)
  {
    hide Open, CanonicalNames, Lists, Valid, ToHex;
    var _ := OpenRecovers(dir, order, budget);
    ReopenKeepsWhole(dir, order, budget, OfSize(size));
  }

  lemma NextIsSized(s: State, step: Step, blake: Blob -> Hash, size: Sizes)
    requires IndexSized(s, size) && Whole(s, OfSize(size)) && CanonicalNames(s.disk.dir)
    requires TasksFit(s) && IndexSound(s) && !step.Tamper?
    ensures IndexSized(Next(s, step, blake), size)
  {
    hide ToHex, TempName, HasBlob, CanonicalNames, Valid, Inserted, Open, Lists, WriteFile, Rename, Rewrite, RemoveFile,
      Without, Whole;
    match step
    case Act(id, action) =>
      if id in s.tasks && s.tasks[id].Placed? {
        TaskIsGood(s, id, OfSize(size));
        InsertedIsSized(s.disk.index, s.tasks[id].h, s.budget, size);
      }
    case Reopen(order, budget, pid) =>
      if !s.up && Lists(s.disk.dir, order) {
        WholeFiles(s, OfSize(size));
        ReopenIsSized(s.disk.dir, order, budget, size);
      }
    case _ =>
  }

  lemma WholeFiles(s: State, good: Property)
    requires Whole(s, good)
    ensures BlobsGood(s.disk.dir, good)
  {
  }

  lemma {:induction false} IndexStaysSized(dir: Directory, steps: seq<Step>, blake: Blob -> Hash, size: Sizes)
    requires CanonicalNames(dir) && Untampered(steps)
    requires BlobsGood(dir, OfSize(size)) && StoresGood(steps, OfSize(size))
    ensures IndexSized(After(dir, steps, blake), size)
  {
    hide Next, CanonicalNames, BlobsGood, Whole, TasksFit, IndexSound;
    if steps != [] {
      var init, last := steps[..|steps| - 1], steps[|steps| - 1];
      IndexStaysSized(dir, init, blake, size);
      NamesStayCanonical(dir, init, blake);
      CanonicalIndexSound(dir, init, blake);
      RunIsWhole(dir, init, blake, OfSize(size));
      NextIsSized(After(dir, init, blake), last, blake, size);
    }
  }

  lemma GoodSizes(dir: Directory, all: seq<Hash>, size: Sizes)
    requires BlobsGood(dir, OfSize(size)) && forall h :: h in all ==> HasBlob(dir, h)
    ensures forall h :: h in all ==> FileSize(dir)(h) == size(h)
  {
  }

  /** What is on disk exceeds the budget by no more than what the stores in flight have yet to index or to remove. */
  lemma FootprintBounded(dir: Directory, steps: seq<Step>, blake: Blob -> Hash, size: Sizes,
                         all: seq<Hash>, inFlight: seq<Hash>)
    requires CanonicalNames(dir) && Untampered(steps) && NothingSpoils(dir, steps, blake)
    requires BlobsGood(dir, OfSize(size)) && StoresGood(steps, OfSize(size))
    requires After(dir, steps, blake).up
    requires Distinct(all) && forall h :: h in all ==> HasBlob(After(dir, steps, blake).disk.dir, h)
    requires forall h :: InFlight(After(dir, steps, blake), h) ==> h in inFlight
    ensures var s := After(dir, steps, blake);
      Bytes(all, FileSize(s.disk.dir)) <= s.budget + Bytes(inFlight, size)
  {
    hide After, CanonicalNames, Untampered, NothingSpoils, BlobsGood, StoresGood, HasBlob, Distinct, Total, InFlight,
      Bytes;
    var s := After(dir, steps, blake);
    assert steps[..|steps|] == steps;
    AccountedUpTo(dir, steps, blake, |steps|);
    CanonicalIndexSound(dir, steps, blake);
    IndexStaysSized(dir, steps, blake, size);
    RunIsWhole(dir, steps, blake, OfSize(size));
    WholeFiles(s, OfSize(size));
    GoodSizes(s.disk.dir, all, size);
    LongestRunSame(all, FileSize(s.disk.dir), size, 0);
    SpreadBytes(all, s.disk.index.lru, inFlight, size);
    TotalIsBytes(s.disk.index.lru, s.disk.index.entries, size);
  }

  ghost predicate NoStoreFinishing(s: State) {
    forall id :: id in s.tasks ==> !s.tasks[id].Placed? && !s.tasks[id].Evicting?
  }

  /** Once no store is between its rename and its last removal, the files are within the budget. */
  lemma FootprintWithinBudget(dir: Directory, steps: seq<Step>, blake: Blob -> Hash, size: Sizes, all: seq<Hash>)
    requires CanonicalNames(dir) && Untampered(steps) && NothingSpoils(dir, steps, blake)
    requires BlobsGood(dir, OfSize(size)) && StoresGood(steps, OfSize(size))
    requires After(dir, steps, blake).up
    requires Distinct(all) && forall h :: h in all ==> HasBlob(After(dir, steps, blake).disk.dir, h)
    requires NoStoreFinishing(After(dir, steps, blake))
    ensures Bytes(all, FileSize(After(dir, steps, blake).disk.dir)) <= After(dir, steps, blake).budget
  {
    hide After, CanonicalNames, Untampered, NothingSpoils, BlobsGood, StoresGood, HasBlob, Distinct, Total;
    FootprintBounded(dir, steps, blake, size, all, []);
  }
}

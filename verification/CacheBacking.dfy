/** The other direction under concurrency: which indexed blobs have a file, and the steps that take it away. */
module CacheBacking {
  import opened Blake
  import opened Lru
  import opened RecentRun
  import opened Directories
  import opened Reopening
  import opened DiskCaches
  import opened CacheMachines
  import opened CacheIntegrity
  import opened CacheFootprint
  import opened CacheSolo
  import opened CacheRace

  ghost predicate AboutToDrop(s: State, h: Hash) {
    exists id :: id in s.tasks && s.tasks[id] == Dropping(h)
  }

  ghost predicate OtherDrops(s: State, id: nat, h: Hash) {
    exists j :: j in s.tasks && j != id && s.tasks[j] == Dropping(h)
  }

  /** Every indexed blob has a file, or a lookup is about to forget it. */
  ghost predicate Backed(s: State) {
    s.up ==> forall h :: h in s.disk.index.entries ==> HasBlob(s.disk.dir, h) || AboutToDrop(s, h)
  }

  /** A store removes a file that it evicted and that another store has put back and indexed since. */
  ghost predicate RemovesIndexed(s: State, step: Step) {
    && step.Act? && step.action.Remove? && step.id in s.tasks && s.tasks[step.id].Evicting?
    && s.tasks[step.id].victims != []
    && var h := s.tasks[step.id].victims[0];
    && h in s.disk.index.entries && HasBlob(s.disk.dir, h) && !AboutToDrop(s, h)
  }

  /** A store indexes a blob whose file has been removed since its rename. */
  ghost predicate IndexesMissing(s: State, step: Step) {
    && step.Act? && step.action.Insert? && step.id in s.tasks && s.tasks[step.id].Placed?
    && !HasBlob(s.disk.dir, s.tasks[step.id].h) && !AboutToDrop(s, s.tasks[step.id].h)
  }

  /** A lookup is abandoned that alone was to forget a blob without a file. */
  ghost predicate AbandonsDrop(s: State, step: Step) {
    && step.Act? && step.action.Abandon? && step.id in s.tasks && s.tasks[step.id].Dropping?
    && var h := s.tasks[step.id].h;
    && h in s.disk.index.entries && !HasBlob(s.disk.dir, h) && !OtherDrops(s, step.id, h)
  }

  ghost predicate Unbacks(s: State, step: Step) {
    RemovesIndexed(s, step) || IndexesMissing(s, step) || AbandonsDrop(s, step)
  }

  // ---------------------------------------------------------------- one step

  predicate Drops(s: State, id: nat, h: Hash) {
    id in s.tasks && s.tasks[id] == Dropping(h)
  }

  lemma CallBacks(s: State, t: State, id: nat)
    requires s.up && Backed(s)
    requires forall j :: j in s.tasks && j != id ==> j in t.tasks && t.tasks[j] == s.tasks[j]
    requires forall h :: h in t.disk.index.entries ==>
      HasBlob(t.disk.dir, h) || Drops(t, id, h) || OtherDrops(s, id, h)
      || (h in s.disk.index.entries && !HasBlob(s.disk.dir, h) && !Drops(s, id, h))
    ensures Backed(t)
  {
    hide HasBlob;
    forall h | h in t.disk.index.entries ensures HasBlob(t.disk.dir, h) || AboutToDrop(t, h) {
      if OtherDrops(s, id, h) {
        var j :| j in s.tasks && j != id && s.tasks[j] == Dropping(h);
        assert t.tasks[j] == s.tasks[j];
      }
    }
  }

  /** Steps that keep the entries, remove no file and leave the call as ready to forget as it was. */
  lemma QuietBacks(s: State, t: State, id: nat)
    requires s.up && Backed(s) && t.disk.index.entries == s.disk.index.entries
    requires forall h :: HasBlob(s.disk.dir, h) ==> HasBlob(t.disk.dir, h)
    requires forall j :: j in s.tasks && j != id ==> j in t.tasks && t.tasks[j] == s.tasks[j]
    requires id in s.tasks ==> !s.tasks[id].Dropping?
    ensures Backed(t)
  {
    hide HasBlob;
    CallBacks(s, t, id);
  }

  lemma CreateBacks(s: State, id: nat, h: Hash, data: Blob, now: int)
    requires s.up && Backed(s) && id in s.tasks && s.tasks[id].Starting?
    ensures Backed(CreateStep(s, id, h, data, now))
  {
    hide TempName, HasBlob;
    forall g { ScratchIsNoBlob(s.disk.dir, h, s.pid, s.counter, File([], now, true), g); }
    QuietBacks(s, CreateStep(s, id, h, data, now), id);
  }

  lemma WriteBacks(s: State, id: nat, upTo: nat, now: int)
    requires s.up && Backed(s) && id in s.tasks && s.tasks[id].Writing? && upTo <= |s.tasks[id].data|
    ensures var w := s.tasks[id]; Backed(WriteStep(s, id, w.h, w.data, w.n, upTo, now))
  {
    hide TempName, HasBlob;
    var w := s.tasks[id];
    forall g { ScratchIsNoBlob(s.disk.dir, w.h, s.pid, w.n, File(w.data[..upTo], now, true), g); }
    QuietBacks(s, WriteStep(s, id, w.h, w.data, w.n, upTo, now), id);
  }

  function Anything(): Property {
    (h: Hash, data: Blob) => true
  }

  lemma PlaceBacks(s: State, id: nat)
    requires s.up && Backed(s) && Whole(s, Anything()) && id in s.tasks && s.tasks[id].Writing?
    ensures var w := s.tasks[id]; Backed(PlaceStep(s, id, w.h, w.data, w.n))
  {
    var w := s.tasks[id];
    TempIsLong(w.h, s.pid, w.n);
    OwnScratch(s, id, Anything());
    hide TempName, ToHex, TaskWhole;
    forall g { HexIsShort(g); }
    QuietBacks(s, PlaceStep(s, id, w.h, w.data, w.n), id);
  }

  lemma InsertBacks(s: State, id: nat)
    requires s.up && Backed(s) && Valid(s.disk.index) && id in s.tasks && s.tasks[id].Placed?
    ensures var w := s.tasks[id]; Backed(InsertStep(s, id, w.h, w.data)) <==> !Unbacks(s, Act(id, Insert))
  {
    hide Valid, Inserted, HasBlob;
    var w := s.tasks[id];
    var t := InsertStep(s, id, w.h, w.data);
    forall g { InsertedEntry(s.disk.index, w.h, |w.data|, s.budget, g); }
    if Unbacks(s, Act(id, Insert)) {
      assert !AboutToDrop(t, w.h);
    } else {
      if AboutToDrop(s, w.h) {
        var j :| j in s.tasks && s.tasks[j] == Dropping(w.h);
        assert OtherDrops(s, id, w.h);
      }
      CallBacks(s, t, id);
    }
  }

  lemma RemoveBacks(s: State, id: nat)
    requires s.up && Backed(s) && id in s.tasks && s.tasks[id].Evicting?
    ensures Backed(RemoveStep(s, id, s.tasks[id].victims)) <==> !Unbacks(s, Act(id, Remove))
  {
    hide HasBlob, ToHex, RemoveFile;
    var victims := s.tasks[id].victims;
    var t := RemoveStep(s, id, victims);
    if victims != [] {
      forall g { RemovedBlob(s.disk.dir, victims[0], g); }
    }
    if Unbacks(s, Act(id, Remove)) {
      assert !AboutToDrop(t, victims[0]);
    } else {
      if victims != [] && AboutToDrop(s, victims[0]) {
        var j :| j in s.tasks && s.tasks[j] == Dropping(victims[0]);
        assert OtherDrops(s, id, victims[0]);
      }
      CallBacks(s, t, id);
    }
  }

  lemma CorruptBacks(s: State, id: nat)
    requires s.up && Backed(s) && id in s.tasks && s.tasks[id].Corrupt?
    ensures var h := s.tasks[id].h; Backed(Goto(WithDir(s, RemoveFile(s.disk.dir, ToHex(h))), id, Dropping(h)))
  {
    hide HasBlob, ToHex, RemoveFile;
    var h := s.tasks[id].h;
    forall g { RemovedBlob(s.disk.dir, h, g); }
    CallBacks(s, Goto(WithDir(s, RemoveFile(s.disk.dir, ToHex(h))), id, Dropping(h)), id);
  }

  lemma ForgetBacks(s: State, id: nat)
    requires s.up && Backed(s) && id in s.tasks && s.tasks[id].Dropping?
    ensures Backed(Finish(WithIndex(s, Dropped(s.disk.index, s.tasks[id].h)), id))
  {
    hide HasBlob, Without;
    CallBacks(s, Finish(WithIndex(s, Dropped(s.disk.index, s.tasks[id].h)), id), id);
  }

  lemma AbandonBacks(s: State, id: nat)
    requires s.up && Backed(s) && id in s.tasks
    ensures Backed(Finish(s, id)) <==> !Unbacks(s, Act(id, Abandon))
  {
    hide HasBlob;
    var t := Finish(s, id);
    if !Unbacks(s, Act(id, Abandon)) {
      CallBacks(s, t, id);
    }
  }

  lemma StoreActBacks(s: State, id: nat, action: Action, blake: Blob -> Hash)
    requires s.up && Backed(s) && Valid(s.disk.index) && Whole(s, Anything()) && id in s.tasks
    requires s.tasks[id].Starting? || s.tasks[id].Writing? || s.tasks[id].Placed? || s.tasks[id].Evicting?
    ensures Backed(Advance(s, id, action, blake)) <==> !Unbacks(s, Act(id, action))
  {
    hide Backed, Valid, HasBlob, ToHex, CreateStep, WriteStep, PlaceStep, InsertStep, RemoveStep, AboutToDrop,
      OtherDrops, Whole;
    var t := Advance(s, id, action, blake);
    match (s.tasks[id], action)
    case (_, Abandon) => AbandonBacks(s, id);
    case (Starting(h, data), Create(now)) => CreateBacks(s, id, h, data, now);
    case (Starting(h, data), Fail) => QuietBacks(s, t, id);
    case (Writing(h, data, n, done), Write(upTo, now)) => if done < upTo <= |data| { WriteBacks(s, id, upTo, now); }
    case (Writing(h, data, n, done), Place) => if done == |data| { PlaceBacks(s, id); }
    case (Writing(h, data, n, done), Fail) => QuietBacks(s, t, id);
    case (Placed(h, data), Insert) => InsertBacks(s, id);
    case (Evicting(victims), Remove) => RemoveBacks(s, id);
    case _ =>
  }

  lemma LookupActBacks(s: State, id: nat, action: Action, blake: Blob -> Hash)
    requires s.up && Backed(s) && id in s.tasks
    requires !(s.tasks[id].Starting? || s.tasks[id].Writing? || s.tasks[id].Placed? || s.tasks[id].Evicting?)
    ensures Backed(Advance(s, id, action, blake)) <==> !Unbacks(s, Act(id, action))
  {
    hide Backed, HasBlob, ToHex, Verifies, Dropped, RemoveFile, AboutToDrop, OtherDrops;
    var t := Advance(s, id, action, blake);
    match (s.tasks[id], action)
    case (_, Abandon) => AbandonBacks(s, id);
    case (Reading(h), Read) => QuietBacks(s, t, id);
    case (Reading(h), Fail) => QuietBacks(s, t, id);
    case (Checking(h, data), Check) => QuietBacks(s, t, id);
    case (Corrupt(h), Remove) => CorruptBacks(s, id);
    case (Dropping(h), Forget) => ForgetBacks(s, id);
    case (Touching(h, data), Touch) => QuietBacks(s, t, id);
    case _ =>
  }

  lemma ReopenBacks(s: State, order: seq<string>, budget: nat, pid: nat)
    requires CanonicalNames(s.disk.dir) && Lists(s.disk.dir, order)
    ensures Backed(State(Open(s.disk.dir, order, budget), map[], 0, pid, budget, true, s.served))
  {
    hide Open, CanonicalNames, Lists, Valid, ToHex;
    var _ := OpenRecovers(s.disk.dir, order, budget);
  }

  /** Those are the only steps after which an indexed blob has no file and nobody is about to forget it. */
  lemma NextBacksIff(s: State, step: Step, blake: Blob -> Hash)
    requires Backed(s) && Whole(s, Anything()) && CanonicalNames(s.disk.dir) && TasksFit(s) && IndexSound(s)
    requires !step.Tamper?
    ensures Backed(Next(s, step, blake)) <==> !Unbacks(s, step)
  {
    hide CanonicalNames, Valid, HasBlob, Open, Advance, Lists, Whole;
    match step
    case Act(id, action) =>
      if id in s.tasks {
        if s.tasks[id].Starting? || s.tasks[id].Writing? || s.tasks[id].Placed? || s.tasks[id].Evicting? {
          StoreActBacks(s, id, action, blake);
        } else {
          LookupActBacks(s, id, action, blake);
        }
      }
    case Reopen(order, budget, pid) =>
      if !s.up && Lists(s.disk.dir, order) { ReopenBacks(s, order, budget, pid); }
    case StartStore(id, h, data) => if s.up && id !in s.tasks { QuietBacks(s, Next(s, step, blake), id); }
    case StartLookup(id, h) => if s.up && id !in s.tasks { QuietBacks(s, Next(s, step, blake), id); }
    case _ =>
  }

  // ---------------------------------------------------------------- every run

  ghost predicate BackedThroughout(dir: Directory, steps: seq<Step>, blake: Blob -> Hash) {
    forall i :: 0 <= i <= |steps| ==> Backed(After(dir, steps[..i], blake))
  }

  ghost predicate NothingUnbacks(dir: Directory, steps: seq<Step>, blake: Blob -> Hash) {
    forall i :: 0 <= i < |steps| ==> !Unbacks(After(dir, steps[..i], blake), steps[i])
  }

  lemma AnyStoresGood(dir: Directory, steps: seq<Step>)
    ensures BlobsGood(dir, Anything()) && StoresGood(steps, Anything())
  {
  }

  lemma BackedStep(dir: Directory, steps: seq<Step>, blake: Blob -> Hash, i: nat)
    requires CanonicalNames(dir) && Untampered(steps) && i < |steps|
    requires Backed(After(dir, steps[..i], blake))
    ensures Backed(After(dir, steps[..i + 1], blake)) <==> !Unbacks(After(dir, steps[..i], blake), steps[i])
  {
    assert !steps[i].Tamper?;
    hide *;
    UntamperedPrefix(steps, i);
    NamesStayCanonical(dir, steps[..i], blake);
    CanonicalIndexSound(dir, steps[..i], blake);
    AnyStoresGood(dir, steps[..i]);
    RunIsWhole(dir, steps[..i], blake, Anything());
    AfterStep(dir, steps, blake, i);
    NextBacksIff(After(dir, steps[..i], blake), steps[i], blake);
  }

  lemma {:induction false} BackedUpTo(dir: Directory, steps: seq<Step>, blake: Blob -> Hash, i: nat)
    requires CanonicalNames(dir) && Untampered(steps) && i <= |steps| && NothingUnbacks(dir, steps, blake)
    ensures Backed(After(dir, steps[..i], blake))
  {
    hide Unbacks, CanonicalNames, Untampered, Next;
    if i > 0 {
      BackedUpTo(dir, steps, blake, i - 1);
      BackedStep(dir, steps, blake, i - 1);
    }
  }

  /** Every indexed blob has a file or is about to be forgotten, at every step, exactly in runs without such steps. */
  lemma BackedThroughoutIff(dir: Directory, steps: seq<Step>, blake: Blob -> Hash)
    requires CanonicalNames(dir) && Untampered(steps)
    ensures BackedThroughout(dir, steps, blake) <==> NothingUnbacks(dir, steps, blake)
  {
    hide Unbacks, CanonicalNames, Untampered, After, Backed;
    if NothingUnbacks(dir, steps, blake) {
      forall i | 0 <= i <= |steps| ensures Backed(After(dir, steps[..i], blake)) {
        BackedUpTo(dir, steps, blake, i);
      }
    } else {
      var i :| 0 <= i < |steps| && Unbacks(After(dir, steps[..i], blake), steps[i]);
      if Backed(After(dir, steps[..i], blake)) {
        BackedStep(dir, steps, blake, i);
        assert !Backed(After(dir, steps[..i + 1], blake));
      }
    }
  }

  // ---------------------------------------------------------------- such a run

  /** Open; store g; store h up to its eviction of g; store g again, evicting h; the first eviction removes g's file. */
  function LateRemovalSteps(g: Hash, x: bv8, h: Hash, y: bv8, now: int): seq<Step> {
    [Reopen([], 1, 0)] + (StoreSteps(0, g, [x], now, 0) + (StoreSteps(2, h, [y], now, 0)
    + (StoreSteps(1, g, [x], now, 1) + [Act(2, Remove)])))
  }

  lemma LateRemovalWalk(g: Hash, x: bv8, h: Hash, y: bv8, now: int, blake: Blob -> Hash)
    ensures var s1 := Next(Initial(map[]), Reopen([], 1, 0), blake);
      var s2 := Walk(s1, StoreSteps(0, g, [x], now, 0), blake);
      var s3 := Walk(s2, StoreSteps(2, h, [y], now, 0), blake);
      var s4 := Walk(s3, StoreSteps(1, g, [x], now, 1), blake);
      After(map[], LateRemovalSteps(g, x, h, y, now), blake) == Next(s4, Act(2, Remove), blake)
  {
    hide Walk, Next, StoreSteps, Initial;
    var s1 := Next(Initial(map[]), Reopen([], 1, 0), blake);
    var s2 := Walk(s1, StoreSteps(0, g, [x], now, 0), blake);
    var s3 := Walk(s2, StoreSteps(2, h, [y], now, 0), blake);
    var s4 := Walk(s3, StoreSteps(1, g, [x], now, 1), blake);
    var r4 := [Act(2, Remove)];
    var r3 := StoreSteps(1, g, [x], now, 1) + r4;
    var r2 := StoreSteps(2, h, [y], now, 0) + r3;
    WalkFirst(Initial(map[]), Reopen([], 1, 0), StoreSteps(0, g, [x], now, 0) + r2, blake);
    WalkOn(s1, StoreSteps(0, g, [x], now, 0), r2, blake);
    WalkOn(s2, StoreSteps(2, h, [y], now, 0), r3, blake);
    WalkOn(s3, StoreSteps(1, g, [x], now, 1), r4, blake);
    WalkOne(s4, Act(2, Remove), blake);
  }

  lemma PlacedBeside(g: Hash, x: bv8, h: Hash, y: bv8, now: int, temp: string)
    requires g != h && |temp| > 64
    ensures !Blocked(One(g, x, now).dir, h, temp)
    ensures var written := WriteFile(One(g, x, now).dir, temp, [y], now);
      && written.Some? && Rename(written.value, temp, ToHex(h)).Some?
      && Rename(written.value, temp, ToHex(h)).value == Both(g, x, h, y, now).dir
  {
    if ToHex(g) == ToHex(h) { ToHexIsInjective(g, h); }
    hide ToHex;
    HexIsShort(g);
    HexIsShort(h);
    PlacedBlob(One(g, x, now).dir, h, [y], now, temp);
  }

  /** The store of h, stopped before it removes the file of g. */
  lemma StoreUpToRemoval(g: Hash, x: bv8, h: Hash, y: bv8, now: int, blake: Blob -> Hash)
    requires g != h
    ensures Walk(Idle(One(g, x, now), map[], 1), StoreSteps(2, h, [y], now, 0), blake)
         == Idle(Both(g, x, h, y, now), map[2 := Evicting([g])], 2)
  {
    hide Walk, ToHex, TempName, Next, Inserted, WriteFile, Rename, Blocked;
    TempIsLong(h, 0, 1);
    PlacedBeside(g, x, h, y, now, TempName(h, 0, 1));
    var s := Idle(One(g, x, now), map[], 1);
    var s1, s2, s3, s4, s5 := WalkStore(s, 2, h, [y], now, 0, blake);
    StoredSteps(s, 2, h, [y], now, blake, s1, s2, s3, s4, s5);
    InsertSwaps(g, h);
    assert map[][2 := Evicting([g])] == map[2 := Evicting([g])];
    WalkNothing(s5, blake);
  }

  lemma WalkNothing(s: State, blake: Blob -> Hash)
    ensures Walk(s, Removals(2, 0), blake) == s
  {
  }

  lemma StoreOverBoth(g: Hash, x: bv8, h: Hash, y: bv8, now: int, temp: string)
    requires g != h && |temp| > 64
    ensures Store(Both(g, x, h, y, now), g, [x], now, temp, 1) == Outcome(One(g, x, now), true)
  {
    InsertSwaps(h, g);
    if ToHex(g) == ToHex(h) { ToHexIsInjective(g, h); }
    hide Inserted, ToHex;
    HexIsShort(g);
    HexIsShort(h);
    var placed := StoreParts(Both(g, x, h, y, now), g, [x], now, temp, 1);
    assert placed == Both(g, x, h, y, now).dir;
    assert [h][..0] == [];
    assert RemoveBlobs(placed, [h]) == RemoveFile(placed, ToHex(h)) == map[ToHex(g) := OneFile(x, now)];
  }

  lemma StoreAgain(g: Hash, x: bv8, h: Hash, y: bv8, now: int, blake: Blob -> Hash)
    requires g != h
    ensures Walk(Idle(Both(g, x, h, y, now), map[2 := Evicting([g])], 2), StoreSteps(1, g, [x], now, 1), blake)
         == Idle(One(g, x, now), map[2 := Evicting([g])], 3)
  {
    hide Walk, Store, Inserted, TempName, StoreSteps, ToHex;
    TempIsLong(g, 0, 2);
    StoreOverBoth(g, x, h, y, now, TempName(g, 0, 2));
    InsertSwaps(h, g);
    SoloStore(Idle(Both(g, x, h, y, now), map[2 := Evicting([g])], 2), 1, g, [x], now, blake);
  }

  lemma LateRemoval(g: Hash, x: bv8, now: int, blake: Blob -> Hash)
    ensures Next(Idle(One(g, x, now), map[2 := Evicting([g])], 3), Act(2, Remove), blake)
         == Idle(Disk(map[], OneEntry(g)), map[], 3)
  {
    hide ToHex;
    assert map[2 := Evicting([g])] - {2} == map[];
    assert RemoveFile(One(g, x, now).dir, ToHex(g)) == map[];
  }

  /** Without tampering, failure or crash this run ends with no call in flight and an indexed blob that has no file. */
  lemma LateRemovalLosesFile(g: Hash, x: bv8, h: Hash, y: bv8, now: int, blake: Blob -> Hash)
    requires g != h
    ensures Untampered(LateRemovalSteps(g, x, h, y, now))
    ensures var s := After(map[], LateRemovalSteps(g, x, h, y, now), blake);
      && s.up && s.tasks == map[]
      && g in s.disk.index.entries && !HasBlob(s.disk.dir, g) && !Backed(s)
  {
    LateRemovalEnds(g, x, h, y, now, blake);
    hide After, ToHex;
  }

  lemma LateRemovalEnds(g: Hash, x: bv8, h: Hash, y: bv8, now: int, blake: Blob -> Hash)
    requires g != h
    ensures After(map[], LateRemovalSteps(g, x, h, y, now), blake) == Idle(Disk(map[], OneEntry(g)), map[], 3)
  {
    hide *;
    ReopenNothing(blake);
    FirstFill(g, x, now, blake);
    StoreUpToRemoval(g, x, h, y, now, blake);
    StoreAgain(g, x, h, y, now, blake);
    LateRemoval(g, x, now, blake);
    LateRemovalWalk(g, x, h, y, now, blake);
  }

  // ---------------------------------------------------------------- both directions at once

  /** With no call in flight, files and index are in step exactly when every file is indexed and every entry has one. */
  lemma IdleInStepIff(s: State, size: Sizes)
    requires s.up && s.tasks == map[] && IndexSound(s) && IndexSized(s, size) && BlobsGood(s.disk.dir, OfSize(size))
    ensures InSync(s.disk) <==> Accounted(s) && Backed(s)
  {
    hide Valid, ToHex;
    forall h ensures !InFlight(s, h) && !AboutToDrop(s, h) {}
  }

  /** When an untampered run without such steps is idle, files and index are in step and within the budget. */
  lemma IdleInStep(dir: Directory, steps: seq<Step>, blake: Blob -> Hash, size: Sizes)
    requires CanonicalNames(dir) && Untampered(steps)
    requires BlobsGood(dir, OfSize(size)) && StoresGood(steps, OfSize(size))
    requires NothingSpoils(dir, steps, blake) && NothingUnbacks(dir, steps, blake)
    requires After(dir, steps, blake).up && After(dir, steps, blake).tasks == map[]
    ensures var s := After(dir, steps, blake); InSync(s.disk) && s.disk.index.total <= s.budget
  {
    hide After, CanonicalNames, Untampered, BlobsGood, StoresGood, NothingSpoils, NothingUnbacks, InSync, Whole, Valid,
      Accounted, Backed, IndexSized;
    var s := After(dir, steps, blake);
    assert steps[..|steps|] == steps;
    AccountedUpTo(dir, steps, blake, |steps|);
    BackedUpTo(dir, steps, blake, |steps|);
    CanonicalIndexSound(dir, steps, blake);
    IndexStaysSized(dir, steps, blake, size);
    RunIsWhole(dir, steps, blake, OfSize(size));
    WholeFiles(s, OfSize(size));
    IdleInStepIff(s, size);
  }
}

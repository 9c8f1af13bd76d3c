/** Schedules on which a file escapes the index: a read error, an abandoned store, and a race past the budget. */
module CacheRace {
  import opened Blake
  import opened Lru
  import opened RecentRun
  import opened Directories
  import opened Reopening
  import opened DiskCaches
  import opened CacheMachines
  import opened CacheIntegrity
  import opened CacheFootprint
  import opened CacheSolo

  function OneFile(x: bv8, now: int): File {
    File([x], now, true)
  }

  function OneEntry(h: Hash): Index {
    Index(map[h := 1], [h], 1)
  }

  /** A cache with a budget of one byte that holds a blob of one byte. */
  function One(h: Hash, x: bv8, now: int): Disk {
    Disk(map[ToHex(h) := OneFile(x, now)], OneEntry(h))
  }

  lemma InsertIntoEmpty(h: Hash)
    ensures Inserted(EMPTY, h, 1, 1) == Eviction(OneEntry(h), [])
  {
  }

  lemma InsertSwaps(g: Hash, h: Hash)
    requires g != h
    ensures Inserted(OneEntry(g), h, 1, 1) == Eviction(OneEntry(h), [g])
  {
    var w := Unsized(OneEntry(g), g).(lru := []);
    assert w == EMPTY;
    assert Evict(w, 1, 1) == Eviction(EMPTY, []);
    assert Evict(OneEntry(g), 1, 1) == Eviction(EMPTY, [g]);
  }

  lemma StoreIntoEmpty(dir: Directory, h: Hash, x: bv8, now: int, temp: string)
    requires |temp| > 64 && temp !in dir && (ToHex(h) in dir ==> dir[ToHex(h)].regular)
    ensures Store(Disk(dir, EMPTY), h, [x], now, temp, 1)
         == Outcome(Disk(dir[ToHex(h) := OneFile(x, now)], OneEntry(h)), true)
  {
  }

  lemma StoreSwaps(g: Hash, x: bv8, h: Hash, y: bv8, now: int, temp: string)
    requires g != h && |temp| > 64
    ensures Store(One(g, x, now), h, [y], now, temp, 1) == Outcome(One(h, y, now), true)
  {
    InsertSwaps(g, h);
    if ToHex(g) == ToHex(h) { ToHexIsInjective(g, h); }
    hide Inserted, ToHex;
    HexIsShort(g);
    var placed := StoreParts(One(g, x, now), h, [y], now, temp, 1);
    assert placed == map[ToHex(g) := OneFile(x, now), ToHex(h) := OneFile(y, now)];
    assert [g][..0] == [];
    assert RemoveBlobs(placed, [g]) == RemoveFile(placed, ToHex(g)) == map[ToHex(h) := OneFile(y, now)];
  }

  function Idle(disk: Disk, tasks: map<nat, Task>, counter: nat): State {
    State(disk, tasks, counter, 0, 1, true, [])
  }

  lemma SwapRun(g: Hash, x: bv8, h: Hash, y: bv8, now: int, tasks: map<nat, Task>, n: nat, blake: Blob -> Hash)
    requires g != h && 0 !in tasks
    ensures Walk(Idle(One(g, x, now), tasks, n), StoreSteps(0, h, [y], now, 1), blake)
         == Idle(One(h, y, now), tasks, n + 1)
  {
    hide Walk, Store, Inserted, One, TempName, StoreSteps;
    TempIsLong(h, 0, n);
    StoreSwaps(g, x, h, y, now, TempName(h, 0, n));
    InsertSwaps(g, h);
    OneIndex(g, x, now);
    SoloStore(Idle(One(g, x, now), tasks, n), 0, h, [y], now, blake);
  }

  lemma OneIndex(h: Hash, x: bv8, now: int)
    ensures One(h, x, now).index == OneEntry(h)
  {
  }

  lemma FillRun(dir: Directory, h: Hash, x: bv8, now: int, n: nat, blake: Blob -> Hash)
    requires (ToHex(h) in dir ==> dir[ToHex(h)].regular) && TempName(h, 0, n) !in dir
    ensures Walk(Idle(Disk(dir, EMPTY), map[], n), StoreSteps(0, h, [x], now, 0), blake)
         == Idle(Disk(dir[ToHex(h) := OneFile(x, now)], OneEntry(h)), map[], n + 1)
  {
    hide Walk, Store, Inserted, TempName, ToHex, StoreSteps;
    TempIsLong(h, 0, n);
    StoreIntoEmpty(dir, h, x, now, TempName(h, 0, n));
    InsertIntoEmpty(h);
    SoloStore(Idle(Disk(dir, EMPTY), map[], n), 0, h, [x], now, blake);
  }

  lemma ReopenNothing(blake: Blob -> Hash)
    ensures Next(Initial(map[]), Reopen([], 1, 0), blake) == Idle(Disk(map[], EMPTY), map[], 0)
  {
  }

  lemma LookupStarts(g: Hash, x: bv8, now: int, blake: Blob -> Hash)
    ensures Next(Idle(One(g, x, now), map[], 1), StartLookup(1, g), blake)
         == Idle(One(g, x, now), map[1 := Reading(g)], 1)
  {
  }

  lemma LookupMisses(g: Hash, h: Hash, y: bv8, now: int, blake: Blob -> Hash)
    requires g != h
    ensures Next(Idle(One(h, y, now), map[1 := Reading(g)], 2), Act(1, Read), blake)
         == Idle(One(h, y, now), map[1 := Dropping(g)], 2)
  {
    if ToHex(g) == ToHex(h) { ToHexIsInjective(g, h); }
    hide ToHex;
    assert map[1 := Reading(g)][1 := Dropping(g)] == map[1 := Dropping(g)];
  }

  lemma LookupForgets(g: Hash, x: bv8, now: int, n: nat, blake: Blob -> Hash)
    ensures Next(Idle(One(g, x, now), map[1 := Dropping(g)], n), Act(1, Forget), blake)
         == Idle(Disk(One(g, x, now).dir, EMPTY), map[], n)
  {
  }

  // ---------------------------------------------------------------- a read error

  lemma LookupFails(g: Hash, x: bv8, now: int, blake: Blob -> Hash)
    ensures Next(Idle(One(g, x, now), map[1 := Reading(g)], 1), Act(1, Fail), blake)
         == Idle(One(g, x, now), map[1 := Dropping(g)], 1)
  {
    hide ToHex;
    assert map[1 := Reading(g)][1 := Dropping(g)] == map[1 := Dropping(g)];
  }

  /** Open; store g; look g up, but reading fails. */
  function ReadErrorSteps(g: Hash, x: bv8, now: int): seq<Step> {
    [Reopen([], 1, 0)] + (StoreSteps(0, g, [x], now, 0)
    + ([StartLookup(1, g)] + ([Act(1, Fail)] + [Act(1, Forget)])))
  }

  lemma ReadErrorWalk(g: Hash, x: bv8, now: int, blake: Blob -> Hash)
    ensures var s1 := Next(Initial(map[]), Reopen([], 1, 0), blake);
      var s2 := Walk(s1, StoreSteps(0, g, [x], now, 0), blake);
      var s3 := Next(s2, StartLookup(1, g), blake);
      After(map[], ReadErrorSteps(g, x, now), blake) == Next(Next(s3, Act(1, Fail), blake), Act(1, Forget), blake)
  {
    hide Walk, Next, StoreSteps, Initial;
    var s1 := Next(Initial(map[]), Reopen([], 1, 0), blake);
    var s2 := Walk(s1, StoreSteps(0, g, [x], now, 0), blake);
    var s3 := Next(s2, StartLookup(1, g), blake);
    var r4 := [Act(1, Fail)] + [Act(1, Forget)];
    var r3 := [StartLookup(1, g)] + r4;
    WalkFirst(Initial(map[]), Reopen([], 1, 0), StoreSteps(0, g, [x], now, 0) + r3, blake);
    WalkOn(s1, StoreSteps(0, g, [x], now, 0), r3, blake);
    WalkFirst(s2, StartLookup(1, g), r4, blake);
    WalkFirst(s3, Act(1, Fail), [Act(1, Forget)], blake);
    WalkOne(Next(s3, Act(1, Fail), blake), Act(1, Forget), blake);
  }

  /** One read error on one intact file, and no two calls at once: the file stays on disk, and the index has lost it. */
  lemma ReadErrorLosesBlob(g: Hash, x: bv8, now: int, blake: Blob -> Hash)
    ensures Untampered(ReadErrorSteps(g, x, now))
    ensures var s := After(map[], ReadErrorSteps(g, x, now), blake);
      && s.up && s.tasks == map[]
      && HasBlob(s.disk.dir, g) && g !in s.disk.index.entries && !Accounted(s)
  {
    ReadErrorEnds(g, x, now, blake);
    hide After, ToHex;
    assert HasBlob(One(g, x, now).dir, g);
  }

  lemma ReadErrorEnds(g: Hash, x: bv8, now: int, blake: Blob -> Hash)
    ensures After(map[], ReadErrorSteps(g, x, now), blake) == Idle(Disk(One(g, x, now).dir, EMPTY), map[], 1)
  {
    hide *;
    ReopenNothing(blake);
    FirstFill(g, x, now, blake);
    LookupStarts(g, x, now, blake);
    LookupFails(g, x, now, blake);
    LookupForgets(g, x, now, 1, blake);
    ReadErrorWalk(g, x, now, blake);
  }

  // ---------------------------------------------------------------- an abandoned store

  /** Open; store g up to the rename; give up. */
  function AbandonSteps(g: Hash, x: bv8, now: int): seq<Step> {
    [Reopen([], 1, 0)] + ([StartStore(0, g, [x])] + ([Act(0, Create(now))] + ([Act(0, Write(1, now))]
    + ([Act(0, Place)] + [Act(0, Abandon)]))))
  }

  lemma AbandonWalk(g: Hash, x: bv8, now: int, blake: Blob -> Hash)
    ensures var s0 := Next(Initial(map[]), Reopen([], 1, 0), blake);
      var s1 := Next(s0, StartStore(0, g, [x]), blake);
      var s2 := Next(s1, Act(0, Create(now)), blake);
      var s3 := Next(s2, Act(0, Write(1, now)), blake);
      var s4 := Next(s3, Act(0, Place), blake);
      After(map[], AbandonSteps(g, x, now), blake) == Next(s4, Act(0, Abandon), blake)
  {
    hide Walk, Next, Initial;
    var s0 := Next(Initial(map[]), Reopen([], 1, 0), blake);
    var s1 := Next(s0, StartStore(0, g, [x]), blake);
    var s2 := Next(s1, Act(0, Create(now)), blake);
    var s3 := Next(s2, Act(0, Write(1, now)), blake);
    var s4 := Next(s3, Act(0, Place), blake);
    var r4 := [Act(0, Abandon)];
    var r3 := [Act(0, Place)] + r4;
    var r2 := [Act(0, Write(1, now))] + r3;
    var r1 := [Act(0, Create(now))] + r2;
    WalkFirst(Initial(map[]), Reopen([], 1, 0), [StartStore(0, g, [x])] + r1, blake);
    WalkFirst(s0, StartStore(0, g, [x]), r1, blake);
    WalkFirst(s1, Act(0, Create(now)), r2, blake);
    WalkFirst(s2, Act(0, Write(1, now)), r3, blake);
    WalkFirst(s3, Act(0, Place), r4, blake);
    WalkOne(s4, Act(0, Abandon), blake);
  }

  lemma AbandonEnds(g: Hash, x: bv8, now: int, blake: Blob -> Hash)
    ensures After(map[], AbandonSteps(g, x, now), blake) == Idle(Disk(One(g, x, now).dir, EMPTY), map[], 1)
  {
    hide Walk, ToHex, TempName, Next, After, Rename, WriteFile;
    var s0 := Idle(Disk(map[], EMPTY), map[], 0);
    var s1 := Next(s0, StartStore(0, g, [x]), blake);
    var s2 := Next(s1, Act(0, Create(now)), blake);
    var s3 := Next(s2, Act(0, Write(|[x]|, now)), blake);
    var s4 := Next(s3, Act(0, Place), blake);
    ReopenNothing(blake);
    AbandonWalk(g, x, now, blake);
    TempIsLong(g, 0, 0);
    PlacedBlob(map[], g, [x], now, TempName(g, 0, 0));
    WrittenSteps(s0, 0, g, [x], now, blake, s1, s2, s3);
    PlacedStep(s0, 0, g, [x], now, blake, s3, s4);
    assert s4.disk.dir == One(g, x, now).dir;
    AbandonLeaves(s4, blake);
    Leaves(map[], 0, Placed(g, [x]));
  }

  lemma AbandonLeaves(s: State, blake: Blob -> Hash)
    requires 0 in s.tasks
    ensures Next(s, Act(0, Abandon), blake) == Finish(s, 0)
  {
  }

  /** A caller that gives up on a store after its rename: the file stays on disk, and the index never learns of it. */
  lemma AbandonedStoreLosesBlob(g: Hash, x: bv8, now: int, blake: Blob -> Hash)
    ensures Untampered(AbandonSteps(g, x, now))
    ensures var s := After(map[], AbandonSteps(g, x, now), blake);
      && s.up && s.tasks == map[]
      && HasBlob(s.disk.dir, g) && g !in s.disk.index.entries && !Accounted(s)
  {
    AbandonEnds(g, x, now, blake);
    hide After, ToHex;
    assert HasBlob(One(g, x, now).dir, g);
  }

  // ---------------------------------------------------------------- a race

  /**
    Open; store g; a lookup of g begins; store h, evicting g; the lookup reads; store g again; the lookup forgets g;
    store h.
   */
  function RaceSteps(g: Hash, x: bv8, h: Hash, y: bv8, now: int): seq<Step> {
    [Reopen([], 1, 0)] + (StoreSteps(0, g, [x], now, 0) + ([StartLookup(1, g)] + (StoreSteps(0, h, [y], now, 1)
    + ([Act(1, Read)] + (StoreSteps(0, g, [x], now, 1) + ([Act(1, Forget)] + StoreSteps(0, h, [y], now, 0)))))))
  }

  lemma FirstFill(g: Hash, x: bv8, now: int, blake: Blob -> Hash)
    ensures Walk(Idle(Disk(map[], EMPTY), map[], 0), StoreSteps(0, g, [x], now, 0), blake)
         == Idle(One(g, x, now), map[], 1)
  {
    hide Walk, StoreSteps, ToHex, TempName;
    FillRun(map[], g, x, now, 0, blake);
    assert map[][ToHex(g) := OneFile(x, now)] == map[ToHex(g) := OneFile(x, now)];
  }

  lemma LastFill(g: Hash, x: bv8, h: Hash, y: bv8, now: int, blake: Blob -> Hash)
    requires g != h
    ensures Walk(Idle(Disk(One(g, x, now).dir, EMPTY), map[], 3), StoreSteps(0, h, [y], now, 0), blake)
         == Idle(Both(g, x, h, y, now), map[], 4)
  {
    TempIsLong(h, 0, 3);
    HexIsShort(g);
    if ToHex(g) == ToHex(h) { ToHexIsInjective(g, h); }
    hide Walk, StoreSteps, ToHex, TempName;
    var dir: Directory := One(g, x, now).dir;
    FillRun(dir, h, y, now, 3, blake);
    assert dir[ToHex(h) := OneFile(y, now)] == map[ToHex(g) := OneFile(x, now), ToHex(h) := OneFile(y, now)];
  }

  /** Two files, one of them indexed. */
  function Both(g: Hash, x: bv8, h: Hash, y: bv8, now: int): Disk {
    Disk(map[ToHex(g) := OneFile(x, now), ToHex(h) := OneFile(y, now)], OneEntry(h))
  }

  lemma RaceEnds(g: Hash, x: bv8, h: Hash, y: bv8, now: int, blake: Blob -> Hash)
    requires g != h
    ensures After(map[], RaceSteps(g, x, h, y, now), blake) == Idle(Both(g, x, h, y, now), map[], 4)
  {
    hide *;
    ReopenNothing(blake);
    FirstFill(g, x, now, blake);
    LookupStarts(g, x, now, blake);
    NoneButOne(Reading(g));
    NoneButOne(Dropping(g));
    SwapRun(g, x, h, y, now, map[1 := Reading(g)], 1, blake);
    LookupMisses(g, h, y, now, blake);
    SwapRun(h, y, g, x, now, map[1 := Dropping(g)], 2, blake);
    LookupForgets(g, x, now, 3, blake);
    LastFill(g, x, h, y, now, blake);
    RaceWalk(g, x, h, y, now, blake);
  }

  lemma NoneButOne(t: Task)
    ensures 0 !in map[1 := t]
  {
  }

  lemma RaceWalk(g: Hash, x: bv8, h: Hash, y: bv8, now: int, blake: Blob -> Hash)
    ensures var s1 := Next(Initial(map[]), Reopen([], 1, 0), blake);
      var s2 := Walk(s1, StoreSteps(0, g, [x], now, 0), blake);
      var s3 := Next(s2, StartLookup(1, g), blake);
      var s4 := Walk(s3, StoreSteps(0, h, [y], now, 1), blake);
      var s5 := Next(s4, Act(1, Read), blake);
      var s6 := Walk(s5, StoreSteps(0, g, [x], now, 1), blake);
      var s7 := Next(s6, Act(1, Forget), blake);
      After(map[], RaceSteps(g, x, h, y, now), blake) == Walk(s7, StoreSteps(0, h, [y], now, 0), blake)
  {
    hide Walk, Next, StoreSteps, Initial;
    var s1 := Next(Initial(map[]), Reopen([], 1, 0), blake);
    var s2 := Walk(s1, StoreSteps(0, g, [x], now, 0), blake);
    var s3 := Next(s2, StartLookup(1, g), blake);
    var s4 := Walk(s3, StoreSteps(0, h, [y], now, 1), blake);
    var s5 := Next(s4, Act(1, Read), blake);
    var s6 := Walk(s5, StoreSteps(0, g, [x], now, 1), blake);
    var r7 := StoreSteps(0, h, [y], now, 0);
    var r6 := [Act(1, Forget)] + r7;
    var r5 := StoreSteps(0, g, [x], now, 1) + r6;
    var r4 := [Act(1, Read)] + r5;
    var r3 := StoreSteps(0, h, [y], now, 1) + r4;
    var r2 := [StartLookup(1, g)] + r3;
    WalkFirst(Initial(map[]), Reopen([], 1, 0), StoreSteps(0, g, [x], now, 0) + r2, blake);
    WalkOn(s1, StoreSteps(0, g, [x], now, 0), r2, blake);
    WalkFirst(s2, StartLookup(1, g), r3, blake);
    WalkOn(s3, StoreSteps(0, h, [y], now, 1), r4, blake);
    WalkFirst(s4, Act(1, Read), r5, blake);
    WalkOn(s5, StoreSteps(0, g, [x], now, 1), r6, blake);
    WalkFirst(s6, Act(1, Forget), r7, blake);
  }

  /**
    The condition on forgetting is needed. Without tampering, failure or crash this schedule ends with no call in flight
    and twice the budget on disk, one blob of it unknown to the index - whatever the blobs hold, verified or not.
   */
  lemma RaceOverflowsBudget(g: Hash, x: bv8, h: Hash, y: bv8, now: int, blake: Blob -> Hash)
    requires g != h
    ensures Untampered(RaceSteps(g, x, h, y, now))
    ensures var s := After(map[], RaceSteps(g, x, h, y, now), blake);
      && s.up && s.tasks == map[] && s.budget == 1
      && HasBlob(s.disk.dir, g) && HasBlob(s.disk.dir, h) && g !in s.disk.index.entries
      && !Accounted(s) && Bytes([g, h], FileSize(s.disk.dir)) == 2
  {
    RaceIsUntampered(g, x, h, y, now);
    hide After, ToHex, RaceSteps, Accounted, Bytes, FileSize, Both, HasBlob, Untampered;
    RaceEnds(g, x, h, y, now, blake);
    BothOverflow(g, x, h, y, now);
    Unaccounted(g, x, h, y, now);
  }

  lemma RaceIsUntampered(g: Hash, x: bv8, h: Hash, y: bv8, now: int)
    ensures Untampered(RaceSteps(g, x, h, y, now))
  {
  }

  lemma Unaccounted(g: Hash, x: bv8, h: Hash, y: bv8, now: int)
    requires g != h && HasBlob(Both(g, x, h, y, now).dir, g)
    ensures !Accounted(Idle(Both(g, x, h, y, now), map[], 4))
  {
    hide ToHex, HasBlob;
  }

  lemma BothOverflow(g: Hash, x: bv8, h: Hash, y: bv8, now: int)
    requires g != h
    ensures var d := Both(g, x, h, y, now);
      && HasBlob(d.dir, g) && HasBlob(d.dir, h) && g !in d.index.entries && Bytes([g, h], FileSize(d.dir)) == 2
  {
    if ToHex(g) == ToHex(h) { ToHexIsInjective(g, h); }
    hide ToHex;
    var d := Both(g, x, h, y, now);
    assert HasBlob(d.dir, g) && HasBlob(d.dir, h);
    FileSizeOf(d.dir, g);
    FileSizeOf(d.dir, h);
    TwoBytes(g, h, FileSize(d.dir));
  }

  lemma TwoBytes(g: Hash, h: Hash, size: Sizes)
    ensures Bytes([g, h], size) == size(g) + size(h)
  {
    assert [g, h] == [g] + [h];
    BytesConcat([g], [h], size);
    BytesOne(g, size);
    BytesOne(h, size);
  }
}

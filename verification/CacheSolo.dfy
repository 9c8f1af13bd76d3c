/** The concurrent cache against the sequential one: a call whose steps run uninterrupted is the sequential call. */
module CacheSolo {
  import opened Wrappers
  import opened Blake
  import opened Lru
  import opened Directories
  import opened DiskCaches
  import opened CacheMachines

  // ---------------------------------------------------------------- uninterrupted calls

  lemma {:induction false} WalkOn(s: State, a: seq<Step>, b: seq<Step>, blake: Blob -> Hash)
    ensures Walk(s, a + b, blake) == Walk(Walk(s, a, blake), b, blake)
    decreases |b|
  {
    hide Next;
    if b == [] {
      assert a + b == a;
    } else {
      assert (a + b)[..|a + b| - 1] == a + b[..|b| - 1];
      WalkOn(s, a, b[..|b| - 1], blake);
    }
  }

  lemma WalkOne(s: State, step: Step, blake: Blob -> Hash)
    ensures Walk(s, [step], blake) == Next(s, step, blake)
  {
  }

  function Removals(id: nat, count: nat): seq<Step> {
    if count == 0 then [] else [Act(id, Remove)] + Removals(id, count - 1)
  }

  function StoreSteps(id: nat, h: Hash, data: Blob, now: int, evictions: nat): seq<Step> {
    [StartStore(id, h, data)] + ([Act(id, Create(now))] + ([Act(id, Write(|data|, now))] + ([Act(id, Place)]
    + ([Act(id, Insert)] + Removals(id, evictions)))))
  }

  function LookupSteps(id: nat, h: Hash): seq<Step> {
    [StartLookup(id, h)] + ([Act(id, Read)] + ([Act(id, Check)] + ([Act(id, Remove)]
    + ([Act(id, Forget)] + [Act(id, Touch)]))))
  }

  lemma WalkFirst(s: State, step: Step, rest: seq<Step>, blake: Blob -> Hash)
    ensures Walk(s, [step] + rest, blake) == Walk(Next(s, step, blake), rest, blake)
  {
    hide Next, Walk;
    WalkOn(s, [step], rest, blake);
    WalkOne(s, step, blake);
  }

  lemma WalkLookup(s: State, id: nat, h: Hash, blake: Blob -> Hash)
    returns (s1: State, s2: State, s3: State, s4: State, s5: State)
    ensures s1 == Next(s, StartLookup(id, h), blake)
    ensures s2 == Next(s1, Act(id, Read), blake)
    ensures s3 == Next(s2, Act(id, Check), blake)
    ensures s4 == Next(s3, Act(id, Remove), blake)
    ensures s5 == Next(s4, Act(id, Forget), blake)
    ensures Walk(s, LookupSteps(id, h), blake) == Next(s5, Act(id, Touch), blake)
  {
    hide Next, Walk;
    s1 := Next(s, StartLookup(id, h), blake);
    s2 := Next(s1, Act(id, Read), blake);
    s3 := Next(s2, Act(id, Check), blake);
    s4 := Next(s3, Act(id, Remove), blake);
    s5 := Next(s4, Act(id, Forget), blake);
    var r5 := [Act(id, Touch)];
    var r4 := [Act(id, Forget)] + r5;
    var r3 := [Act(id, Remove)] + r4;
    var r2 := [Act(id, Check)] + r3;
    var r1 := [Act(id, Read)] + r2;
    WalkFirst(s, StartLookup(id, h), r1, blake);
    WalkFirst(s1, Act(id, Read), r2, blake);
    WalkFirst(s2, Act(id, Check), r3, blake);
    WalkFirst(s3, Act(id, Remove), r4, blake);
    WalkFirst(s4, Act(id, Forget), r5, blake);
    WalkOne(s5, Act(id, Touch), blake);
  }

  lemma NoTask(s: State, id: nat, action: Action, blake: Blob -> Hash)
    requires id !in s.tasks
    ensures Next(s, Act(id, action), blake) == s
  {
  }

  lemma Leaves(tasks: map<nat, Task>, id: nat, t: Task)
    requires id !in tasks
    ensures tasks[id := t] - {id} == tasks
  {
  }

  /** From a lookup that found its hash in the index to its last step but one. */
  lemma ReadOut(s: State, id: nat, h: Hash, blake: Blob -> Hash, s2: State, s3: State, s4: State)
    requires s.up && id !in s.tasks && h in s.disk.index.entries
    requires s2 == Next(Goto(s, id, Reading(h)), Act(id, Read), blake)
    requires s3 == Next(s2, Act(id, Check), blake) && s4 == Next(s3, Act(id, Remove), blake)
    ensures var a := Lookup(s.disk, h, blake);
      s4 == if a.data.Some? then Goto(s, id, Touching(h, a.data.value))
            else Goto(WithDir(s, a.disk.dir), id, Dropping(h))
  {
    hide Dropped, Touched, RemoveFile, ToHex, Verifies;
    if HasBlob(s.disk.dir, h) {
      assert s2 == Goto(s, id, Checking(h, s.disk.dir[ToHex(h)].data));
    } else {
      assert s2 == Goto(s, id, Dropping(h));
    }
  }

  /** The steps of a lookup with nothing in between are `Lookup`. */
  lemma SoloLookup(s: State, id: nat, h: Hash, blake: Blob -> Hash)
    requires s.up && id !in s.tasks
    ensures var t, a := Walk(s, LookupSteps(id, h), blake), Lookup(s.disk, h, blake);
      t == s.(disk := a.disk, served := s.served + if a.data.Some? then [Served(h, a.data.value)] else [])
  {
    hide Dropped, Touched, RemoveFile, ToHex, Verifies, HasBlob, Walk;
    var s1, s2, s3, s4, s5 := WalkLookup(s, id, h, blake);
    if h in s.disk.index.entries {
      ReadOut(s, id, h, blake, s2, s3, s4);
      LastSteps(s, id, h, blake, s4, s5);
    } else {
      assert s5 == s;
      assert s.served + [] == s.served;
    }
  }

  lemma LastSteps(s: State, id: nat, h: Hash, blake: Blob -> Hash, s4: State, s5: State)
    requires s.up && id !in s.tasks && h in s.disk.index.entries
    requires var a := Lookup(s.disk, h, blake);
      s4 == if a.data.Some? then Goto(s, id, Touching(h, a.data.value))
            else Goto(WithDir(s, a.disk.dir), id, Dropping(h))
    requires s5 == Next(s4, Act(id, Forget), blake)
    ensures var t, a := Next(s5, Act(id, Touch), blake), Lookup(s.disk, h, blake);
      t == s.(disk := a.disk, served := s.served + if a.data.Some? then [Served(h, a.data.value)] else [])
  {
    hide Dropped, Touched, RemoveFile, ToHex, Verifies, HasBlob;
    Leaves(s.tasks, id, s4.tasks[id]);
    assert s.served + [] == s.served;
  }

  lemma WalkStore(s: State, id: nat, h: Hash, data: Blob, now: int, evictions: nat, blake: Blob -> Hash)
    returns (s1: State, s2: State, s3: State, s4: State, s5: State)
    ensures s1 == Next(s, StartStore(id, h, data), blake)
    ensures s2 == Next(s1, Act(id, Create(now)), blake)
    ensures s3 == Next(s2, Act(id, Write(|data|, now)), blake)
    ensures s4 == Next(s3, Act(id, Place), blake)
    ensures s5 == Next(s4, Act(id, Insert), blake)
    ensures Walk(s, StoreSteps(id, h, data, now, evictions), blake) == Walk(s5, Removals(id, evictions), blake)
  {
    hide Next, Walk, Removals;
    s1 := Next(s, StartStore(id, h, data), blake);
    s2 := Next(s1, Act(id, Create(now)), blake);
    s3 := Next(s2, Act(id, Write(|data|, now)), blake);
    s4 := Next(s3, Act(id, Place), blake);
    s5 := Next(s4, Act(id, Insert), blake);
    var r4 := [Act(id, Insert)] + Removals(id, evictions);
    var r3 := [Act(id, Place)] + r4;
    var r2 := [Act(id, Write(|data|, now))] + r3;
    var r1 := [Act(id, Create(now))] + r2;
    WalkFirst(s, StartStore(id, h, data), r1, blake);
    WalkFirst(s1, Act(id, Create(now)), r2, blake);
    WalkFirst(s2, Act(id, Write(|data|, now)), r3, blake);
    WalkFirst(s3, Act(id, Place), r4, blake);
    WalkFirst(s4, Act(id, Insert), Removals(id, evictions), blake);
  }

  lemma {:induction false} NoTaskRemovals(s: State, id: nat, count: nat, blake: Blob -> Hash)
    requires id !in s.tasks
    ensures Walk(s, Removals(id, count), blake) == s
  {
    hide Next;
    if count > 0 {
      WalkFirst(s, Act(id, Remove), Removals(id, count - 1), blake);
      NoTask(s, id, Remove, blake);
      NoTaskRemovals(s, id, count - 1, blake);
    }
  }

  lemma {:induction false} RemoveFirst(dir: Directory, h: Hash, rest: seq<Hash>)
    ensures RemoveBlobs(dir, [h] + rest) == RemoveBlobs(RemoveFile(dir, ToHex(h)), rest)
    decreases |rest|
  {
    hide ToHex, RemoveFile;
    if rest == [] {
      assert [h] + rest == [h] && [h][..0] == [];
      assert RemoveBlobs(dir, [h]) == RemoveFile(RemoveBlobs(dir, []), ToHex(h));
    } else {
      assert ([h] + rest)[..|rest|] == [h] + rest[..|rest| - 1];
      RemoveFirst(dir, h, rest[..|rest| - 1]);
    }
  }

  lemma {:induction false} RemovalsRemove(s: State, id: nat, victims: seq<Hash>, blake: Blob -> Hash)
    requires id !in s.tasks
    ensures Walk(Pending(s, id, victims), Removals(id, |victims|), blake)
         == WithDir(s, RemoveBlobs(s.disk.dir, victims))
    decreases |victims|
  {
    hide ToHex, RemoveFile;
    if victims == [] {
      assert s.tasks - {id} == s.tasks;
    } else {
      var t := WithDir(s, RemoveFile(s.disk.dir, ToHex(victims[0])));
      var p := Pending(s, id, victims);
      WalkFirst(p, Act(id, Remove), Removals(id, |victims| - 1), blake);
      Leaves(s.tasks, id, Evicting(victims));
      assert victims[1..] != [] ==> p.tasks[id := Evicting(victims[1..])] == s.tasks[id := Evicting(victims[1..])];
      assert s.tasks - {id} == s.tasks;
      assert Next(p, Act(id, Remove), blake) == Pending(t, id, victims[1..]);
      RemovalsRemove(t, id, victims[1..], blake);
      assert victims == [victims[0]] + victims[1..];
      RemoveFirst(s.disk.dir, victims[0], victims[1..]);
    }
  }

  lemma Reassigned(tasks: map<nat, Task>, id: nat, t: Task, u: Task)
    requires id !in tasks
    ensures tasks[id := t][id := u] == tasks[id := u] && tasks[id := t] - {id} == tasks
  {
  }

  /** The steps of a store with nothing in between are `Store`: stored, skipped as oversized, or failed. */
  lemma SoloStore(s: State, id: nat, h: Hash, data: Blob, now: int, blake: Blob -> Hash)
    requires s.up && id !in s.tasks
    ensures var r := Store(s.disk, h, data, now, TempName(h, s.pid, s.counter), s.budget);
      Walk(s, StoreSteps(id, h, data, now, |Inserted(s.disk.index, h, |data|, s.budget).evicted|), blake)
      == s.(disk := r.disk, counter := s.counter + if |data| > s.budget then 0 else 1)
  {
    hide Walk, ToHex, TempName, Inserted, RemoveBlobs, Removals, Next;
    var count := |Inserted(s.disk.index, h, |data|, s.budget).evicted|;
    var s1, s2, s3, s4, s5 := WalkStore(s, id, h, data, now, count, blake);
    TempIsLong(h, s.pid, s.counter);
    if |data| > s.budget {
      SkippedSteps(s, id, h, data, now, blake, s1, s2, s3, s4, s5);
      NoTaskRemovals(s5, id, count, blake);
    } else if Blocked(s.disk.dir, h, TempName(h, s.pid, s.counter)) {
      BlockedSteps(s, id, h, data, now, blake, s1, s2, s3, s4, s5);
      NoTaskRemovals(s5, id, count, blake);
    } else {
      StoredSteps(s, id, h, data, now, blake, s1, s2, s3, s4, s5);
      var placed := Rename(WriteFile(s.disk.dir, TempName(h, s.pid, s.counter), data, now).value,
                           TempName(h, s.pid, s.counter), ToHex(h)).value;
      var e := Inserted(s.disk.index, h, |data|, s.budget);
      var t := WithIndex(WithDir(s.(counter := s.counter + 1), placed), e.index);
      RemovalsRemove(t, id, e.evicted, blake);
    }
  }

  lemma SkippedSteps(s: State, id: nat, h: Hash, data: Blob, now: int, blake: Blob -> Hash,
                     s1: State, s2: State, s3: State, s4: State, s5: State)
    requires s.up && id !in s.tasks && |data| > s.budget
    requires s1 == Next(s, StartStore(id, h, data), blake) && s2 == Next(s1, Act(id, Create(now)), blake)
    requires s3 == Next(s2, Act(id, Write(|data|, now)), blake) && s4 == Next(s3, Act(id, Place), blake)
    requires s5 == Next(s4, Act(id, Insert), blake)
    ensures s5 == s
  {
  }

  function Scratched(s: State, id: nat, h: Hash, data: Blob, done: nat, now: int): State
    requires done <= |data|
  {
    var dir := s.disk.dir[TempName(h, s.pid, s.counter) := File(data[..done], now, true)];
    Goto(WithDir(s.(counter := s.counter + 1), dir), id, Writing(h, data, s.counter, done))
  }

  /** Creating and writing the scratch file. */
  lemma WrittenSteps(s: State, id: nat, h: Hash, data: Blob, now: int, blake: Blob -> Hash,
                     s1: State, s2: State, s3: State)
    requires s.up && id !in s.tasks && |data| <= s.budget
    requires WriteFile(s.disk.dir, TempName(h, s.pid, s.counter), data, now).Some?
    requires s1 == Next(s, StartStore(id, h, data), blake) && s2 == Next(s1, Act(id, Create(now)), blake)
    requires s3 == Next(s2, Act(id, Write(|data|, now)), blake)
    ensures s3 == Scratched(s, id, h, data, |data|, now)
  {
  }

  lemma BlockedSteps(s: State, id: nat, h: Hash, data: Blob, now: int, blake: Blob -> Hash,
                     s1: State, s2: State, s3: State, s4: State, s5: State)
    requires s.up && id !in s.tasks && |data| <= s.budget
    requires |TempName(h, s.pid, s.counter)| > 64 && Blocked(s.disk.dir, h, TempName(h, s.pid, s.counter))
    requires s1 == Next(s, StartStore(id, h, data), blake) && s2 == Next(s1, Act(id, Create(now)), blake)
    requires s3 == Next(s2, Act(id, Write(|data|, now)), blake) && s4 == Next(s3, Act(id, Place), blake)
    requires s5 == Next(s4, Act(id, Insert), blake)
    ensures s5 == s.(disk := Store(s.disk, h, data, now, TempName(h, s.pid, s.counter), s.budget).disk,
                     counter := s.counter + 1)
  {
    var temp := TempName(h, s.pid, s.counter);
    HexIsShort(h);
    if WriteFile(s.disk.dir, temp, data, now).Some? {
      WrittenSteps(s, id, h, data, now, blake, s1, s2, s3);
      StuckAtPlace(s, id, h, data, now, blake, s3, s4);
    } else {
      CannotCreate(s, id, h, data, now, blake, s1, s2);
      NoTask(s2, id, Write(|data|, now), blake);
      NoTask(s3, id, Place, blake);
    }
    hide ToHex, TempName, Inserted, RemoveBlobs, Next, Rename;
    NoTask(s4, id, Insert, blake);
  }

  lemma StuckAtPlace(s: State, id: nat, h: Hash, data: Blob, now: int, blake: Blob -> Hash, s3: State, s4: State)
    requires id !in s.tasks && |data| <= s.budget
    requires ToHex(h) in s.disk.dir && !s.disk.dir[ToHex(h)].regular && |TempName(h, s.pid, s.counter)| > 64
    requires WriteFile(s.disk.dir, TempName(h, s.pid, s.counter), data, now).Some?
    requires s3 == Scratched(s, id, h, data, |data|, now) && s4 == Next(s3, Act(id, Place), blake)
    ensures id !in s4.tasks
    ensures s4 == s.(disk := Store(s.disk, h, data, now, TempName(h, s.pid, s.counter), s.budget).disk,
                     counter := s.counter + 1)
  {
    hide ToHex, TempName, Inserted, RemoveBlobs;
    HexIsShort(h);
    assert data[..|data|] == data;
    Leaves(s.tasks, id, Writing(h, data, s.counter, |data|));
  }

  lemma CannotCreate(s: State, id: nat, h: Hash, data: Blob, now: int, blake: Blob -> Hash, s1: State, s2: State)
    requires s.up && id !in s.tasks && |data| <= s.budget
    requires WriteFile(s.disk.dir, TempName(h, s.pid, s.counter), data, now).None?
    requires s1 == Next(s, StartStore(id, h, data), blake) && s2 == Next(s1, Act(id, Create(now)), blake)
    ensures id !in s2.tasks
    ensures s2 == s.(disk := Store(s.disk, h, data, now, TempName(h, s.pid, s.counter), s.budget).disk,
                     counter := s.counter + 1)
  {
  }

  lemma StoredSteps(s: State, id: nat, h: Hash, data: Blob, now: int, blake: Blob -> Hash,
                    s1: State, s2: State, s3: State, s4: State, s5: State)
    requires s.up && id !in s.tasks && |data| <= s.budget
    requires |TempName(h, s.pid, s.counter)| > 64 && !Blocked(s.disk.dir, h, TempName(h, s.pid, s.counter))
    requires s1 == Next(s, StartStore(id, h, data), blake) && s2 == Next(s1, Act(id, Create(now)), blake)
    requires s3 == Next(s2, Act(id, Write(|data|, now)), blake) && s4 == Next(s3, Act(id, Place), blake)
    requires s5 == Next(s4, Act(id, Insert), blake)
    ensures var written := WriteFile(s.disk.dir, TempName(h, s.pid, s.counter), data, now);
      && written.Some? && Rename(written.value, TempName(h, s.pid, s.counter), ToHex(h)).Some?
      && var e := Inserted(s.disk.index, h, |data|, s.budget);
      var placed := Rename(written.value, TempName(h, s.pid, s.counter), ToHex(h)).value;
      s5 == Pending(WithIndex(WithDir(s.(counter := s.counter + 1), placed), e.index), id, e.evicted)
  {
    hide ToHex, TempName, Inserted, RemoveBlobs;
    var temp, dir := TempName(h, s.pid, s.counter), s.disk.dir;
    HexIsShort(h);
    WrittenSteps(s, id, h, data, now, blake, s1, s2, s3);
    PlacedStep(s, id, h, data, now, blake, s3, s4);
    IndexedStep(s4, s, id, h, data, blake, s5);
  }

  lemma PlacedStep(s: State, id: nat, h: Hash, data: Blob, now: int, blake: Blob -> Hash, s3: State, s4: State)
    requires id !in s.tasks && |TempName(h, s.pid, s.counter)| > 64
    requires !Blocked(s.disk.dir, h, TempName(h, s.pid, s.counter))
    requires s3 == Scratched(s, id, h, data, |data|, now) && s4 == Next(s3, Act(id, Place), blake)
    ensures var written := WriteFile(s.disk.dir, TempName(h, s.pid, s.counter), data, now);
      && written.Some? && Rename(written.value, TempName(h, s.pid, s.counter), ToHex(h)).Some?
      && var placed := Rename(written.value, TempName(h, s.pid, s.counter), ToHex(h)).value;
      s4 == Goto(WithDir(s.(counter := s.counter + 1), placed), id, Placed(h, data))
  {
    hide ToHex, TempName;
    HexIsShort(h);
    assert data[..|data|] == data;
    Reassigned(s.tasks, id, Writing(h, data, s.counter, |data|), Placed(h, data));
  }

  lemma IndexedStep(s4: State, s: State, id: nat, h: Hash, data: Blob, blake: Blob -> Hash, s5: State)
    requires id !in s.tasks && s4.disk.index == s.disk.index && s4.budget == s.budget
    requires s4.tasks == s.tasks[id := Placed(h, data)] && s5 == Next(s4, Act(id, Insert), blake)
    ensures var e := Inserted(s.disk.index, h, |data|, s.budget);
      s5 == Pending(WithIndex(s4.(tasks := s.tasks), e.index), id, e.evicted)
  {
  }

  // ---------------------------------------------------------------- calls for which the file system fails

  function Acts(id: nat, actions: seq<Action>): seq<Step> {
    if actions == [] then [] else Acts(id, actions[..|actions| - 1]) + [Act(id, actions[|actions| - 1])]
  }

  lemma ActsSnoc(id: nat, actions: seq<Action>, last: Action)
    ensures Acts(id, actions + [last]) == Acts(id, actions) + [Act(id, last)]
    ensures Acts(id, []) == []
  {
  }

  lemma ActsCons(id: nat, first: Action, rest: seq<Action>)
    ensures Acts(id, [first] + rest) == [Act(id, first)] + Acts(id, rest)
    decreases |rest|
  {
    hide Acts;
    if rest == [] {
      ActsSnoc(id, [], first);
      assert [first] + [] == [] + [first];
    } else {
      var init, last := rest[..|rest| - 1], rest[|rest| - 1];
      ActsCons(id, first, init);
      assert [first] + rest == ([first] + init) + [last] && rest == init + [last];
      ActsSnoc(id, [first] + init, last);
      ActsSnoc(id, init, last);
    }
  }

  function LookupActions(readFails: bool): seq<Action> {
    if readFails then [Action.Fail] + ([Forget] + [])
    else [Read] + ([Check] + ([Remove] + ([Forget] + ([Touch] + []))))
  }

  function Removes(count: nat): seq<Action> {
    if count == 0 then [] else [Remove] + Removes(count - 1)
  }

  function StoreActions(data: Blob, now: int, fault: Fault, evictions: nat): seq<Action> {
    match fault
    case NoFault =>
      [Create(now)] + ([Write(|data|, now)] + ([Place] + ([Insert] + Removes(evictions))))
    case WriteFails(None) => [Action.Fail] + []
    case WriteFails(Some(n)) =>
      [Create(now)] + ([Write(if n <= |data| then n else |data|, now)] + ([Action.Fail] + []))
    case RenameFails => [Create(now)] + ([Write(|data|, now)] + ([Action.Fail] + []))
  }

  lemma LookupActs(id: nat, h: Hash)
    ensures [StartLookup(id, h)] + Acts(id, LookupActions(false)) == LookupSteps(id, h)
    ensures Acts(id, LookupActions(true)) == [Act(id, Action.Fail)] + [Act(id, Forget)]
  {
    hide Acts;
    ActsSnoc(id, [], Touch);
    ActsCons(id, Touch, []);
    ActsCons(id, Forget, [Touch] + []);
    ActsCons(id, Remove, [Forget] + ([Touch] + []));
    ActsCons(id, Check, [Remove] + ([Forget] + ([Touch] + [])));
    ActsCons(id, Read, [Check] + ([Remove] + ([Forget] + ([Touch] + []))));
    ActsCons(id, Forget, []);
    ActsCons(id, Action.Fail, [Forget] + []);
  }

  lemma {:induction false} RemovesAct(id: nat, count: nat)
    ensures Acts(id, Removes(count)) == Removals(id, count)
  {
    hide Acts;
    if count == 0 {
      ActsSnoc(id, [], Remove);
    } else {
      RemovesAct(id, count - 1);
      ActsCons(id, Remove, Removes(count - 1));
    }
  }

  lemma StoreActs(id: nat, h: Hash, data: Blob, now: int, evictions: nat)
    ensures [StartStore(id, h, data)] + Acts(id, StoreActions(data, now, NoFault, evictions))
         == StoreSteps(id, h, data, now, evictions)
  {
    hide Acts, Removes, Removals;
    var r := Removes(evictions);
    RemovesAct(id, evictions);
    ActsCons(id, Insert, r);
    ActsCons(id, Place, [Insert] + r);
    ActsCons(id, Write(|data|, now), [Place] + ([Insert] + r));
    ActsCons(id, Create(now), [Write(|data|, now)] + ([Place] + ([Insert] + r)));
  }

  /** A lookup with nothing in between is the sequential lookup, also when reading fails. */
  lemma SoloLookupWith(s: State, id: nat, h: Hash, blake: Blob -> Hash, readFails: bool)
    requires s.up && id !in s.tasks
    ensures var t := Walk(s, [StartLookup(id, h)] + Acts(id, LookupActions(readFails)), blake);
      var a := LookupWith(s.disk, h, blake, readFails);
      t == s.(disk := a.disk, served := s.served + if a.data.Some? then [Served(h, a.data.value)] else [])
  {
    hide Walk, Acts, LookupSteps;
    LookupActs(id, h);
    if readFails {
      var s1 := Next(s, StartLookup(id, h), blake);
      var s2 := Next(s1, Act(id, Action.Fail), blake);
      WalkFirst(s, StartLookup(id, h), [Act(id, Action.Fail)] + [Act(id, Forget)], blake);
      WalkFirst(s1, Act(id, Action.Fail), [Act(id, Forget)], blake);
      WalkOne(s2, Act(id, Forget), blake);
      Leaves(s.tasks, id, Dropping(h));
      hide Dropped, ToHex, Verifies, HasBlob;
      assert s.served + [] == s.served;
      if h in s.disk.index.entries {
        Reassigned(s.tasks, id, Reading(h), Dropping(h));
      }
    } else {
      SoloLookup(s, id, h, blake);
    }
  }

  lemma WalkFailing(s: State, id: nat, h: Hash, data: Blob, now: int, upTo: nat, blake: Blob -> Hash)
    returns (s1: State, s2: State, s3: State)
    ensures s1 == Next(s, StartStore(id, h, data), blake)
    ensures s2 == Next(s1, Act(id, Create(now)), blake)
    ensures s3 == Next(s2, Act(id, Write(upTo, now)), blake)
    ensures Walk(s, [StartStore(id, h, data)]
                    + Acts(id, [Create(now)] + ([Write(upTo, now)] + ([Action.Fail] + []))), blake)
         == Next(s3, Act(id, Action.Fail), blake)
  {
    hide Acts, Next, Walk;
    s1 := Next(s, StartStore(id, h, data), blake);
    s2 := Next(s1, Act(id, Create(now)), blake);
    s3 := Next(s2, Act(id, Write(upTo, now)), blake);
    ActsSnoc(id, [], Action.Fail);
    ActsCons(id, Action.Fail, []);
    ActsCons(id, Write(upTo, now), [Action.Fail] + []);
    ActsCons(id, Create(now), [Write(upTo, now)] + ([Action.Fail] + []));
    var r3 := [Act(id, Action.Fail)] + [];
    var r2 := [Act(id, Write(upTo, now))] + r3;
    WalkFirst(s, StartStore(id, h, data), [Act(id, Create(now))] + r2, blake);
    WalkFirst(s1, Act(id, Create(now)), r2, blake);
    WalkFirst(s2, Act(id, Write(upTo, now)), r3, blake);
    assert r3 == [Act(id, Action.Fail)];
    WalkOne(s3, Act(id, Action.Fail), blake);
  }

  /** Creating the scratch file and writing part of it. */
  lemma PartSteps(s: State, id: nat, h: Hash, data: Blob, now: int, upTo: nat, blake: Blob -> Hash,
                  s1: State, s2: State, s3: State)
    requires s.up && id !in s.tasks && |data| <= s.budget && upTo <= |data|
    requires WriteFile(s.disk.dir, TempName(h, s.pid, s.counter), data, now).Some?
    requires s1 == Next(s, StartStore(id, h, data), blake) && s2 == Next(s1, Act(id, Create(now)), blake)
    requires s3 == Next(s2, Act(id, Write(upTo, now)), blake)
    ensures s3 == Scratched(s, id, h, data, upTo, now)
  {
    hide TempName;
    assert data[..0] == [];
    assert s2 == Scratched(s, id, h, data, 0, now);
  }

  /** A store that fails after `upTo` bytes or at its rename. */
  lemma FailingStore(s: State, id: nat, h: Hash, data: Blob, now: int, upTo: nat, blake: Blob -> Hash)
    requires s.up && id !in s.tasks && |data| <= s.budget && upTo <= |data|
    ensures Walk(s, [StartStore(id, h, data)]
                    + Acts(id, [Create(now)] + ([Write(upTo, now)] + ([Action.Fail] + []))), blake)
         == WithDir(s, PartWritten(s.disk.dir, TempName(h, s.pid, s.counter), data, Some(upTo), now))
            .(counter := s.counter + 1)
  {
    hide Walk, Acts, TempName, Next;
    var s1, s2, s3 := WalkFailing(s, id, h, data, now, upTo, blake);
    if WriteFile(s.disk.dir, TempName(h, s.pid, s.counter), data, now).Some? {
      PartSteps(s, id, h, data, now, upTo, blake, s1, s2, s3);
      FailsWriting(s3, id, blake);
      Leaves(s.tasks, id, Writing(h, data, s.counter, upTo));
    } else {
      CannotCreate(s, id, h, data, now, blake, s1, s2);
      StoreCannotWrite(s.disk, h, data, now, TempName(h, s.pid, s.counter), s.budget);
      NoTask(s2, id, Write(upTo, now), blake);
      NoTask(s3, id, Action.Fail, blake);
    }
  }

  lemma FailsWriting(s: State, id: nat, blake: Blob -> Hash)
    requires id in s.tasks && s.tasks[id].Writing?
    ensures Next(s, Act(id, Action.Fail), blake) == Finish(s, id)
  {
  }

  lemma StoreCannotWrite(d: Disk, h: Hash, data: Blob, now: int, temp: string, budget: nat)
    requires |data| <= budget && WriteFile(d.dir, temp, data, now).None?
    ensures Store(d, h, data, now, temp, budget).disk == d
  {
  }

  lemma OversizedActs(s: State, id: nat, h: Hash, data: Blob, actions: seq<Action>, blake: Blob -> Hash)
    requires s.up && id !in s.tasks && |data| > s.budget
    ensures Walk(s, [StartStore(id, h, data)] + Acts(id, actions), blake) == s
    decreases |actions|
  {
    hide Walk, Acts;
    ActsSnoc(id, [], Action.Fail);
    WalkFirst(s, StartStore(id, h, data), Acts(id, actions), blake);
    NoTaskActs(s, id, actions, blake);
  }

  lemma {:induction false} NoTaskActs(s: State, id: nat, actions: seq<Action>, blake: Blob -> Hash)
    requires id !in s.tasks
    ensures Walk(s, Acts(id, actions), blake) == s
  {
    hide Next;
    if actions != [] {
      var init, last := actions[..|actions| - 1], actions[|actions| - 1];
      NoTaskActs(s, id, init, blake);
      WalkOn(s, Acts(id, init), [Act(id, last)], blake);
      WalkOne(s, Act(id, last), blake);
      NoTask(s, id, last, blake);
    }
  }

  /** A store with nothing in between is the sequential store, whatever fails. */
  lemma SoloStoreWith(s: State, id: nat, h: Hash, data: Blob, now: int, fault: Fault, blake: Blob -> Hash)
    requires s.up && id !in s.tasks
    ensures var r := StoreWith(s.disk, h, data, now, TempName(h, s.pid, s.counter), s.budget, fault);
      var evictions := |Inserted(s.disk.index, h, |data|, s.budget).evicted|;
      Walk(s, [StartStore(id, h, data)] + Acts(id, StoreActions(data, now, fault, evictions)), blake)
      == s.(disk := r.disk, counter := s.counter + if |data| > s.budget then 0 else 1)
  {
    hide Walk, Acts, Store, PartWritten, Inserted, Next, TempName, StoreSteps, Removes;
    var evictions := |Inserted(s.disk.index, h, |data|, s.budget).evicted|;
    if |data| > s.budget {
      OversizedActs(s, id, h, data, StoreActions(data, now, fault, evictions), blake);
    } else {
      match fault {
        case NoFault =>
          StoreActs(id, h, data, now, evictions);
          SoloStore(s, id, h, data, now, blake);
        case WriteFails(None) =>
          FailingAtOnce(s, id, h, data, blake);
          PartUpTo(s.disk.dir, TempName(h, s.pid, s.counter), data, 0, now);
        case WriteFails(Some(n)) =>
          var upTo := if n <= |data| then n else |data|;
          FailingStore(s, id, h, data, now, upTo, blake);
          PartUpTo(s.disk.dir, TempName(h, s.pid, s.counter), data, n, now);
        case RenameFails => FailingStore(s, id, h, data, now, |data|, blake);
      }
    }
  }

  lemma PartUpTo(dir: Directory, name: string, data: Blob, n: nat, now: int)
    ensures PartWritten(dir, name, data, Some(n), now)
         == PartWritten(dir, name, data, Some(if n <= |data| then n else |data|), now)
    ensures PartWritten(dir, name, data, None, now) == dir
  {
    assert data[..|data|] == data;
  }

  lemma FailingAtOnce(s: State, id: nat, h: Hash, data: Blob, blake: Blob -> Hash)
    requires s.up && id !in s.tasks && |data| <= s.budget
    ensures Walk(s, [StartStore(id, h, data)] + Acts(id, [Action.Fail] + []), blake) == s.(counter := s.counter + 1)
  {
    hide Walk, Acts;
    ActsSnoc(id, [], Action.Fail);
    ActsCons(id, Action.Fail, []);
    var s1 := Next(s, StartStore(id, h, data), blake);
    WalkFirst(s, StartStore(id, h, data), [Act(id, Action.Fail)], blake);
    WalkOne(s1, Act(id, Action.Fail), blake);
    Leaves(s.tasks, id, Starting(h, data));
    assert [Act(id, Action.Fail)] + [] == [Act(id, Action.Fail)];
  }
}

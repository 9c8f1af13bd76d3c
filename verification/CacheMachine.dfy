/**
  The disk cache under concurrency: any number of lookups and stores, each at its own point, sharing the files and the
  lock-protected index; tampering from outside; process crashes at any step; reopening.
 */
module CacheMachines {
  import opened Blake
  import opened Lru
  import opened Directories
  import opened Reopening
  import opened CutOpening
  import opened Spellings
  import opened DiskCaches

  /** Where a call stands between two steps that others can observe. */
  datatype Task =
    | Starting(h: Hash, data: Blob)                         // store: the size check has passed
    | Writing(h: Hash, data: Blob, n: nat, done: nat)       // store: `done` bytes are in scratch file `n`
    | Placed(h: Hash, data: Blob)                           // store: renamed, not indexed yet
    | Evicting(victims: seq<Hash>)                          // store: indexed, victims' files still to be removed
    | Reading(h: Hash)                                      // lookup: found in the index
    | Checking(h: Hash, data: Blob)                         // lookup: bytes in hand
    | Corrupt(h: Hash)                                      // lookup: the bytes did not verify
    | Dropping(h: Hash)                                     // lookup: to be forgotten by the index
    | Touching(h: Hash, data: Blob)                         // lookup: verified, to be marked as used

  datatype Served = Served(h: Hash, data: Blob)

  datatype State = State(
    disk: Disk, tasks: map<nat, Task>, counter: nat, pid: nat, budget: nat, up: bool, served: seq<Served>)

  /** What a call does next. `Fail` is any error of the file system; `Abandon` is the caller giving up on the call. */
  datatype Action =
    | Create(now: int) | Write(upTo: nat, now: int) | Place | Insert | Remove
    | Read | Check | Forget | Touch | Fail | Abandon

  datatype Step =
    | StartStore(id: nat, h: Hash, data: Blob)
    | StartLookup(id: nat, h: Hash)
    | Act(id: nat, action: Action)
    | Tamper(files: Directory)
    | Crash
    | Reopen(order: seq<string>, budget: nat, pid: nat)
    | CrashInOpen(order: seq<string>, budget: nat, swept: nat, removed: nat)

  // ---------------------------------------------------------------- steps

  function Goto(s: State, id: nat, task: Task): State {
    s.(tasks := s.tasks[id := task])
  }

  function Finish(s: State, id: nat): State {
    s.(tasks := s.tasks - {id})
  }

  function WithDir(s: State, dir: Directory): State {
    s.(disk := Disk(dir, s.disk.index))
  }

  function WithIndex(s: State, index: Index): State {
    s.(disk := Disk(s.disk.dir, index))
  }

  /** Bytes written to an open file show under its name as long as the name is there. */
  function Rewrite(dir: Directory, name: string, data: Blob, now: int): Directory {
    if name in dir && dir[name].regular then dir[name := File(data, now, true)] else dir
  }

  /** The scratch number is taken even when the file cannot be created. */
  function CreateStep(s: State, id: nat, h: Hash, data: Blob, now: int): State {
    var t := s.(counter := s.counter + 1);
    match WriteFile(s.disk.dir, TempName(h, s.pid, s.counter), [], now)
    case None => Finish(t, id)
    case Some(dir) => Goto(WithDir(t, dir), id, Writing(h, data, s.counter, 0))
  }

  function WriteStep(s: State, id: nat, h: Hash, data: Blob, n: nat, upTo: nat, now: int): State
    requires upTo <= |data|
  {
    Goto(WithDir(s, Rewrite(s.disk.dir, TempName(h, s.pid, n), data[..upTo], now)), id, Writing(h, data, n, upTo))
  }

  function PlaceStep(s: State, id: nat, h: Hash, data: Blob, n: nat): State {
    match Rename(s.disk.dir, TempName(h, s.pid, n), ToHex(h))
    case None => Finish(s, id)
    case Some(dir) => Goto(WithDir(s, dir), id, Placed(h, data))
  }

  /** Go on removing files, or finish when there are none left. */
  function Pending(s: State, id: nat, victims: seq<Hash>): State {
    if victims == [] then Finish(s, id) else Goto(s, id, Evicting(victims))
  }

  function InsertStep(s: State, id: nat, h: Hash, data: Blob): State {
    var e := Inserted(s.disk.index, h, |data|, s.budget);
    Pending(WithIndex(s, e.index), id, e.evicted)
  }

  function RemoveStep(s: State, id: nat, victims: seq<Hash>): State {
    if victims == [] then Finish(s, id)
    else Pending(WithDir(s, RemoveFile(s.disk.dir, ToHex(victims[0]))), id, victims[1..])
  }

  function ReadStep(s: State, id: nat, h: Hash): State {
    Goto(s, id, if HasBlob(s.disk.dir, h) then Checking(h, s.disk.dir[ToHex(h)].data) else Dropping(h))
  }

  function TouchStep(s: State, id: nat, h: Hash, data: Blob): State {
    Finish(WithIndex(s, Touched(s.disk.index, h)).(served := s.served + [Served(h, data)]), id)
  }

  /** A call's next step; an action that does not belong where the call stands changes nothing. */
  function Advance(s: State, id: nat, action: Action, blake: Blob -> Hash): State
    requires id in s.tasks
  {
    match (s.tasks[id], action)
    case (_, Abandon) => Finish(s, id)
    case (Starting(h, data), Create(now)) => CreateStep(s, id, h, data, now)
    case (Starting(h, data), Fail) => Finish(s.(counter := s.counter + 1), id)
    case (Writing(h, data, n, done), Write(upTo, now)) =>
      if done < upTo <= |data| then WriteStep(s, id, h, data, n, upTo, now) else s
    case (Writing(h, data, n, done), Place) => if done == |data| then PlaceStep(s, id, h, data, n) else s
    case (Writing(h, data, n, done), Fail) => Finish(s, id)
    case (Placed(h, data), Insert) => InsertStep(s, id, h, data)
    case (Evicting(victims), Remove) => RemoveStep(s, id, victims)
    case (Reading(h), Read) => ReadStep(s, id, h)
    case (Reading(h), Fail) => Goto(s, id, Dropping(h))
    case (Checking(h, data), Check) => Goto(s, id, if Verifies(blake, h, data) then Touching(h, data) else Corrupt(h))
    case (Corrupt(h), Remove) => Goto(WithDir(s, RemoveFile(s.disk.dir, ToHex(h))), id, Dropping(h))
    case (Dropping(h), Forget) => Finish(WithIndex(s, Dropped(s.disk.index, h)), id)
    case (Touching(h, data), Touch) => TouchStep(s, id, h, data)
    case _ => s
  }

  ghost function Next(s: State, step: Step, blake: Blob -> Hash): State {
    match step
    case StartStore(id, h, data) =>
      if !s.up || id in s.tasks || |data| > s.budget then s else Goto(s, id, Starting(h, data))
    case StartLookup(id, h) =>
      if !s.up || id in s.tasks || h !in s.disk.index.entries then s else Goto(s, id, Reading(h))
    case Act(id, action) => if id in s.tasks then Advance(s, id, action, blake) else s
    case Tamper(files) => WithDir(s, files)
    case Crash => s.(disk := Disk(s.disk.dir, EMPTY), tasks := map[], up := false)
    case Reopen(order, budget, pid) =>
      if s.up || !Lists(s.disk.dir, order) then s
      else State(Open(s.disk.dir, order, budget), map[], 0, pid, budget, true, s.served)
    case CrashInOpen(order, budget, swept, removed) =>
      if s.up || !Lists(s.disk.dir, order) then s else WithDir(s, PartOpened(s.disk.dir, order, budget, swept, removed))
  }

  /** Before the first process has opened the directory. */
  function Initial(dir: Directory): State {
    State(Disk(dir, EMPTY), map[], 0, 0, 0, false, [])
  }

  ghost function Walk(s: State, steps: seq<Step>, blake: Blob -> Hash): State {
    if steps == [] then s else Next(Walk(s, steps[..|steps| - 1], blake), steps[|steps| - 1], blake)
  }

  ghost function After(dir: Directory, steps: seq<Step>, blake: Blob -> Hash): State {
    Walk(Initial(dir), steps, blake)
  }

  // ---------------------------------------------------------------- nothing false is ever served

  ghost predicate Honest(s: State, blake: Blob -> Hash) {
    && (forall i :: 0 <= i < |s.served| ==> Verifies(blake, s.served[i].h, s.served[i].data))
    && (forall id :: id in s.tasks && s.tasks[id].Touching? ==> Verifies(blake, s.tasks[id].h, s.tasks[id].data))
  }

  lemma NextIsHonest(s: State, step: Step, blake: Blob -> Hash)
    requires Honest(s, blake)
    ensures Honest(Next(s, step, blake), blake)
  {
    hide Inserted, Touched, Dropped, Open, WriteFile, Rename, Rewrite, RemoveFile, ToHex, TempName, HasBlob, Lists;
  }

  /** In every reachable state whatsoever, every blob that a lookup has returned hashes to what was asked for. */
  lemma {:induction false} EveryAnswerVerifies(dir: Directory, steps: seq<Step>, blake: Blob -> Hash)
    ensures Honest(After(dir, steps, blake), blake)
  {
    hide Next;
    if steps != [] {
      EveryAnswerVerifies(dir, steps[..|steps| - 1], blake);
      NextIsHonest(After(dir, steps[..|steps| - 1], blake), steps[|steps| - 1], blake);
    }
  }

  // ---------------------------------------------------------------- the index is always sound

  /** Calls in flight exist only while the process is up, and store only blobs that fit. */
  ghost predicate TasksFit(s: State) {
    && (!s.up ==> s.tasks == map[])
    && (forall id :: id in s.tasks ==> TaskFits(s.tasks[id], s.budget))
  }

  predicate TaskFits(t: Task, budget: nat) {
    match t
    case Starting(_, data) => |data| <= budget
    case Writing(_, data, _, done) => |data| <= budget && done <= |data|
    case Placed(_, data) => |data| <= budget
    case _ => true
  }

  ghost predicate IndexSound(s: State) {
    s.up ==> Valid(s.disk.index) && s.disk.index.total <= s.budget
  }

  lemma NextFits(s: State, step: Step, blake: Blob -> Hash)
    requires TasksFit(s)
    ensures TasksFit(Next(s, step, blake))
  {
    hide Inserted, Touched, Dropped, Open, WriteFile, Rename, Rewrite, RemoveFile, ToHex, TempName, HasBlob, Lists;
  }

  /** The only step that can spoil the index is reopening a directory that spells one hash in two ways. */
  lemma NextIndexSound(s: State, step: Step, blake: Blob -> Hash)
    requires TasksFit(s) && IndexSound(s)
    requires step.Reopen? ==> OneSpelling(s.disk.dir, step.order)
    ensures IndexSound(Next(s, step, blake))
  {
    hide Valid, Inserted, Touched, Dropped, Open, WriteFile, Rename, Rewrite, RemoveFile, ToHex, TempName, HasBlob,
      Lists;
    match step
    case Act(id, action) =>
      if id in s.tasks {
        var t, v := s.tasks[id], s.disk.index;
        match t {
          case Placed(h, data) => InsertedIsValid(v, h, |data|, s.budget);
          case Dropping(h) => DroppedIsValid(v, h);
          case Touching(h, data) => TouchedIsValid(v, h);
          case _ =>
        }
      }
    case Reopen(order, budget, pid) =>
      if !s.up && Lists(s.disk.dir, order) {
        OpensValid(s.disk.dir, order, budget);
      }
    case _ =>
  }

  /** Every directory that is reopened spells each hash once. */
  ghost predicate SpelledOnce(dir: Directory, steps: seq<Step>, blake: Blob -> Hash) {
    forall i :: 0 <= i < |steps| && steps[i].Reopen?
      ==> OneSpelling(After(dir, steps[..i], blake).disk.dir, steps[i].order)
  }

  lemma SpelledOnceStep(dir: Directory, steps: seq<Step>, blake: Blob -> Hash)
    requires SpelledOnce(dir, steps, blake) && steps != []
    ensures SpelledOnce(dir, steps[..|steps| - 1], blake)
    ensures var last := steps[|steps| - 1];
      last.Reopen? ==> OneSpelling(After(dir, steps[..|steps| - 1], blake).disk.dir, last.order)
  {
    hide After, OneSpelling;
    var init := steps[..|steps| - 1];
    assert forall i :: 0 <= i < |init| ==> init[..i] == steps[..i] && init[i] == steps[i];
  }

  /**
    In every reachable state of any interleaving of calls, tampering, crashes and reopenings, the queue lists the keys
    of the size map once each, the total is the exact sum of the sizes, and it is within the budget.
   */
  lemma {:induction false} IndexIsAlwaysSound(dir: Directory, steps: seq<Step>, blake: Blob -> Hash)
    requires SpelledOnce(dir, steps, blake)
    ensures IndexSound(After(dir, steps, blake)) && TasksFit(After(dir, steps, blake))
  {
    hide Next, IndexSound, TasksFit, SpelledOnce, OneSpelling;
    if steps == [] {
      InitialIsSound(dir);
    } else {
      var init, last := steps[..|steps| - 1], steps[|steps| - 1];
      SpelledOnceStep(dir, steps, blake);
      IndexIsAlwaysSound(dir, init, blake);
      NextIndexSound(After(dir, init, blake), last, blake);
      NextFits(After(dir, init, blake), last, blake);
    }
  }

  /** Calls in flight end with the process. */
  lemma {:induction false} DownIsIdle(dir: Directory, steps: seq<Step>, blake: Blob -> Hash)
    ensures TasksFit(After(dir, steps, blake))
  {
    hide Next, TasksFit;
    if steps == [] {
      InitialIsSound(dir);
    } else {
      DownIsIdle(dir, steps[..|steps| - 1], blake);
      NextFits(After(dir, steps[..|steps| - 1], blake), steps[|steps| - 1], blake);
    }
  }

  lemma InitialIsSound(dir: Directory)
    ensures IndexSound(Initial(dir)) && TasksFit(Initial(dir))
  {
  }
}

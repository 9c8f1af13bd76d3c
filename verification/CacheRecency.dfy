/** Recency under concurrency: what the queue is after any interleaving of calls, told by the locked updates alone. */
module CacheRecency {
  import opened Blake
  import opened Lru
  import opened RecentRun
  import opened Directories
  import opened Reopening
  import opened DiskCaches
  import opened CacheMachines
  import opened CacheIntegrity
  import opened CacheFootprint

  /** The blob that a step makes the most recent one, if it does: by indexing it, or by touching it after a hit. */
  function Access(s: State, step: Step): seq<Hash> {
    if step.Act? && step.id in s.tasks then
      match (s.tasks[step.id], step.action)
      case (Placed(h, _), Insert) => [h]
      case (Touching(h, _), Touch) => if h in s.disk.index.entries then [h] else []
      case _ => []
    else []
  }

  /** The blobs that steps from `s` make most recent, in the order in which they held the lock. */
  ghost function Log(s: State, steps: seq<Step>, blake: Blob -> Hash): seq<Hash> {
    if steps == [] then []
    else
      var init := steps[..|steps| - 1];
      Log(s, init, blake) + Access(Walk(s, init, blake), steps[|steps| - 1])
  }

  function Extend(past: seq<Hash>, accesses: seq<Hash>): seq<Hash> {
    if accesses == [] then past
    else MoveToBack(Extend(past, accesses[..|accesses| - 1]), accesses[|accesses| - 1])
  }

  /** A lookup takes a blob out of the index. */
  ghost predicate ForgetsEntry(s: State, step: Step) {
    && step.Act? && step.action.Forget? && step.id in s.tasks && s.tasks[step.id].Dropping?
    && s.tasks[step.id].h in s.disk.index.entries
  }

  /** The process stays up and no lookup takes anything out of the index. */
  ghost predicate Undropped(s: State, steps: seq<Step>, blake: Blob -> Hash) {
    forall i :: 0 <= i < |steps| ==> !steps[i].Crash? && !ForgetsEntry(Walk(s, steps[..i], blake), steps[i])
  }

  /** What is being stored has the size of its blob. */
  ghost predicate TasksSized(s: State, size: Sizes) {
    forall id :: id in s.tasks ==> TaskSized(s.tasks[id], size)
  }

  predicate TaskSized(t: Task, size: Sizes) {
    match t
    case Starting(h, data) => |data| == size(h)
    case Writing(h, data, _, _) => |data| == size(h)
    case Placed(h, data) => |data| == size(h)
    case _ => true
  }

  ghost predicate Current(s: State, past: seq<Hash>, size: Sizes) {
    s.up && Distinct(past) && HoldsLongestRun(s.disk.index, past, size, s.budget) && TasksFit(s) && TasksSized(s, size)
  }

  // ---------------------------------------------------------------- one step

  lemma NextTasksSized(s: State, step: Step, blake: Blob -> Hash, size: Sizes)
    requires TasksSized(s, size) && (step.StartStore? ==> |step.data| == size(step.h))
    ensures TasksSized(Next(s, step, blake), size)
  {
    hide Inserted, Touched, Dropped, Open, WriteFile, Rename, Rewrite, RemoveFile, ToHex, TempName, HasBlob, Lists;
  }

  /** The request that a step serves when it holds the lock. */
  function ServedAs(step: Step, h: Hash): Request {
    if step.Act? && step.action.Touch? then Request.Get(h) else Request.Put(h)
  }

  /** A step that holds the lock changes the index as `Serve` does, every other step leaves it. */
  lemma NextServes(s: State, step: Step, blake: Blob -> Hash, size: Sizes)
    requires s.up && TasksFit(s) && TasksSized(s, size) && !step.Crash? && !ForgetsEntry(s, step)
    requires Valid(s.disk.index)
    ensures var t, a := Next(s, step, blake), Access(s, step);
      && t.up && t.budget == s.budget && |a| <= 1
      && (a == [] ==> t.disk.index == s.disk.index)
      && (a != [] ==> IsAccess(s.disk.index, ServedAs(step, a[0]), size, s.budget))
      && (a != [] ==> t.disk.index == Serve(s.disk.index, ServedAs(step, a[0]), size, s.budget))
  {
    hide Inserted, Touched, Without, Open, WriteFile, Rename, Rewrite, RemoveFile, ToHex, TempName, HasBlob, Lists,
      Valid;
    if step.Act? && step.id in s.tasks {
      assert TaskSized(s.tasks[step.id], size) && TaskFits(s.tasks[step.id], s.budget);
      match s.tasks[step.id] {
        case Dropping(h) => if h !in s.disk.index.entries { DroppingAbsent(s.disk.index, h); }
        case Touching(h, data) => TouchingAbsent(s.disk.index, h);
        case _ =>
      }
    }
  }

  lemma TouchingAbsent(v: Index, h: Hash)
    requires Valid(v)
    ensures h !in v.entries ==> Touched(v, h) == v
  {
    PositionFinds(v.lru, h);
  }

  lemma NextIsCurrent(s: State, past: seq<Hash>, step: Step, blake: Blob -> Hash, size: Sizes)
    requires Current(s, past, size) && !step.Crash? && !ForgetsEntry(s, step)
    requires step.StartStore? ==> |step.data| == size(step.h)
    ensures var t := Next(s, step, blake);
      Current(t, Extend(past, Access(s, step)), size) && t.budget == s.budget
  {
    hide Distinct, LongestRun, Inserted, Touched, MoveToBack, Valid, TasksFit, TasksSized, ForgetsEntry, Next, Access,
      Serve;
    NextTasksSized(s, step, blake, size);
    NextFits(s, step, blake);
    NextServes(s, step, blake, size);
    var a := Access(s, step);
    if a != [] {
      assert a == [a[0]] && a[..0] == [];
      var r := ServedAs(step, a[0]);
      ServeHoldsLongestRun(s.disk.index, past, r, size, s.budget);
      MoveToBackIsDistinct(past, a[0]);
    }
  }

  // ---------------------------------------------------------------- every run

  lemma {:induction false} ExtendConcat(past: seq<Hash>, a: seq<Hash>, b: seq<Hash>)
    ensures Extend(past, a + b) == Extend(Extend(past, a), b)
    decreases |b|
  {
    hide MoveToBack;
    if b == [] {
      assert a + b == a;
    } else {
      assert (a + b)[..|a + b| - 1] == a + b[..|b| - 1];
      ExtendConcat(past, a, b[..|b| - 1]);
    }
  }

  lemma UndroppedStep(s: State, steps: seq<Step>, blake: Blob -> Hash)
    requires Undropped(s, steps, blake) && steps != []
    ensures var init, last := steps[..|steps| - 1], steps[|steps| - 1];
      Undropped(s, init, blake) && !last.Crash? && !ForgetsEntry(Walk(s, init, blake), last)
  {
    hide Walk, ForgetsEntry;
    var init := steps[..|steps| - 1];
    assert forall i :: 0 <= i < |init| ==> init[..i] == steps[..i] && init[i] == steps[i];
  }

  /**
    The sequential law under concurrency: over any interleaving of calls, tampering and failures included, during which
    the process stays up and no lookup takes a blob out of the index, the queue is the longest most recent run that fits
    of what was indexed or touched, in the order in which the lock was held; sizes and total are exact.
   */
  lemma {:induction false} QueueIsLongestRun(s: State, past: seq<Hash>, steps: seq<Step>, blake: Blob -> Hash,
                                             size: Sizes)
    requires Current(s, past, size) && Undropped(s, steps, blake) && StoresGood(steps, OfSize(size))
    ensures var t := Walk(s, steps, blake);
      Current(t, Extend(past, Log(s, steps, blake)), size) && t.budget == s.budget
  {
    hide Current, Undropped, ForgetsEntry, Next, Access, MoveToBack;
    if steps != [] {
      var init, last := steps[..|steps| - 1], steps[|steps| - 1];
      UndroppedStep(s, steps, blake);
      QueueIsLongestRun(s, past, init, blake, size);
      NextIsCurrent(Walk(s, init, blake), Extend(past, Log(s, init, blake)), last, blake, size);
      ExtendConcat(past, Log(s, init, blake), Access(Walk(s, init, blake), last));
    }
  }

  /** Such a run can begin at any reopening, with the blobs that are there, oldest file first, for its past. */
  lemma ReopenedIsCurrent(s: State, order: seq<string>, budget: nat, pid: nat, blake: Blob -> Hash, size: Sizes)
    returns (all: seq<Hash>)
    requires !s.up && Lists(s.disk.dir, order) && CanonicalNames(s.disk.dir) && BlobsGood(s.disk.dir, OfSize(size))
    ensures ByAge(s.disk.dir, all)
    ensures Current(Next(s, Reopen(order, budget, pid), blake), all, size)
  {
    hide Open, Lists, CanonicalNames, Valid, LongestRun, AgesAscend, HasBlob, ToHex, Distinct, Total;
    all := OpenRecovers(s.disk.dir, order, budget);
    ReopenIsSized(s.disk.dir, order, budget, size);
    forall h | h in all ensures FileSize(s.disk.dir)(h) == size(h) {
      SizeOfGood(s.disk.dir, h, size);
    }
    LongestRunSame(all, FileSize(s.disk.dir), size, budget);
  }

  lemma SizeOfGood(dir: Directory, h: Hash, size: Sizes)
    requires BlobsGood(dir, OfSize(size)) && HasBlob(dir, h)
    ensures FileSize(dir)(h) == size(h)
  {
    hide ToHex;
  }
}

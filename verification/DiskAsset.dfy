/**
  One asset class over its disk cache, as long as no lookup or store of a fetch runs while another does: between those
  calls fetches overlap freely. `FetchMachines` is the class without that limit.
 */
module DiskAssets {
  import opened Wrappers
  import opened Blake
  import opened Lru
  import opened Directories
  import opened Reopening
  import opened DiskCaches
  import opened FetchChain
  import opened AssetClasses

  datatype Fetched = Fetched(disk: Disk, result: FetchResult, report: FetchReport)

  /** The answer of the cache. */
  function Cached(name: string, hash: Hash, disk: Disk, data: Blob, ms: nat): Fetched {
    Fetched(disk, Ok(data), FetchReport(name, hash, Some(Cache), None, |data|, ms))
  }

  /** What the file system does to a store, and the time and scratch name of the store. */
  datatype Attempt = Attempt(now: int, temp: string, fault: Fault)

  /** The chain over `sources`, with its answer put into the cache; a store that fails does not fail the fetch. */
  function Sourced(blake: Blob -> Hash, name: string, disk: Disk, budget: nat, sources: seq<Source>, hash: Hash,
                   answers: Answers, attempt: Attempt, ms: nat): Fetched {
    match FirstHit(blake, answers, SortByTier(sources), hash)
    case Some(hit) =>
      Fetched(StoreWith(disk, hash, hit.bytes, attempt.now, attempt.temp, budget, attempt.fault).disk, Ok(hit.bytes),
              FetchReport(name, hash, Some(hit.tier), hit.peerId, |hit.bytes|, ms))
    case None =>
      Fetched(disk, FetchFailed(hash), FetchReport(name, hash, None, None, 0, ms))
  }

  function FetchOnDisk(blake: Blob -> Hash, name: string, disk: Disk, budget: nat, sources: seq<Source>, hash: Hash,
                       readFails: bool, answers: Answers, attempt: Attempt, ms: nat): Fetched {
    var a := LookupWith(disk, hash, blake, readFails);
    match a.data
    case Some(data) => Cached(name, hash, a.disk, data, ms)
    case None => Sourced(blake, name, a.disk, budget, sources, hash, answers, attempt, ms)
  }

  class DiskAssetClass {
    const name: string
    const cache: DiskCache
    var sources: seq<Source>
    /** What the observer has been called with so far. */
    var observed: seq<FetchReport>

    /** The class over a cache directory: its files are read into the index on construction. */
    constructor (name: string, files: Directory, order: seq<string>, budget: nat, blake: Blob -> Hash, pid: nat,
                 cdn: Option<Source>)
      requires Lists(files, order)
      ensures this.name == name && observed == [] && fresh(cache) && fresh(cache.state)
      ensures sources == match cdn case Some(s) => [s] case None => []
      ensures cache.Value() == Open(files, order, budget)
      ensures cache.budget == budget && cache.blake == blake && cache.pid == pid
    {
      this.name := name;
      cache := new DiskCache.Open(files, order, budget, blake, pid);
      observed := [];
      sources := match cdn case Some(s) => [s] case None => [];
    }

    method Report(hash: Hash, tier: Option<FetchTier>, peerId: Option<string>, bytesServed: nat, ms: nat)
      returns (report: FetchReport)
      modifies this`observed
      ensures report == FetchReport(name, hash, tier, peerId, bytesServed, ms)
      ensures observed == old(observed) + [report]
    {
      report := FetchReport(name, hash, tier, peerId, bytesServed, ms);
      observed := observed + [report];
    }

    /** The outcome of storing the fetched bytes is looked at by nobody. */
    method FetchBytesReported(hash: Hash, readFails: bool, answers: Answers, now: int, fault: Fault, ms: nat)
      returns (result: FetchResult, report: FetchReport)
      modifies this`observed, cache`dir, cache`counter, cache.state
      ensures Fetched(cache.Value(), result, report)
           == FetchOnDisk(cache.blake, name, old(cache.Value()), cache.budget, sources, hash, readFails, answers,
                          Attempt(now, TempName(hash, cache.pid, old(cache.counter)), fault), ms)
      ensures observed == old(observed) + [report]
    {
      hide LookupWith, StoreWith, TempName;
      var data := cache.Get(hash, readFails);
      if data.Some? {
        report := Report(hash, Some(Cache), None, |data.value|, ms);
        return Ok(data.value), report;
      }
      var chain := new FetchChain(sources);
      var hit := chain.FetchWithProgress(cache.blake, answers, hash);
      match hit {
        case Some(h) =>
          var _ := cache.Put(hash, h.bytes, now, fault);
          report := Report(hash, Some(h.tier), h.peerId, |h.bytes|, ms);
          result := Ok(h.bytes);
        case None =>
          report := Report(hash, None, None, 0, ms);
          result := FetchFailed(hash);
      }
    }
  }

  /** A cache write that fails is not fatal: what the caller and the observer get does not depend on it. */
  lemma FailedStoreIsHarmless(blake: Blob -> Hash, name: string, disk: Disk, budget: nat, sources: seq<Source>,
                              hash: Hash, readFails: bool, answers: Answers, a: Attempt, b: Attempt, ms: nat)
    ensures var f := FetchOnDisk(blake, name, disk, budget, sources, hash, readFails, answers, a, ms);
      var g := FetchOnDisk(blake, name, disk, budget, sources, hash, readFails, answers, b, ms);
      f.result == g.result && f.report == g.report
  {
    hide LookupWith, StoreWith, FirstHit, SortByTier;
  }

  /** What the chain's answer does: the winning source is credited, and its bytes go into a store. */
  lemma SourcedIsCredited(blake: Blob -> Hash, name: string, disk: Disk, budget: nat, sources: seq<Source>, hash: Hash,
                          answers: Answers, attempt: Attempt, ms: nat)
    ensures var f := Sourced(blake, name, disk, budget, sources, hash, answers, attempt, ms);
      if exists x :: x in sources && Serves(blake, answers, x, hash) then
        exists x :: && Wins(x, blake, answers, sources, hash)
                    && answers(x, hash).Some?
                    && var bytes := answers(x, hash).value;
                       && f.disk == StoreWith(disk, hash, bytes, attempt.now, attempt.temp, budget, attempt.fault).disk
                       && f.result == Ok(bytes)
                       && f.report == FetchReport(name, hash, Some(x.tier), x.peerId, |bytes|, ms)
      else f == Fetched(disk, FetchFailed(hash), FetchReport(name, hash, None, None, 0, ms))
  {
    ChainMeans(blake, answers, sources, hash);
    hide FirstHit, SortByTier, StoreWith;
    var hit := FirstHit(blake, answers, SortByTier(sources), hash);
    if hit.Some? {
      var x :| x in sources && Serves(blake, answers, x, hash) && Credits(hit.value, answers, x, hash);
      assert Wins(x, blake, answers, sources, hash);
    }
  }

  /** Nothing goes wrong for the store, and nothing is in its way. */
  predicate Unhindered(disk: Disk, hash: Hash, attempt: Attempt) {
    attempt.fault == NoFault && |attempt.temp| > 64 && !Blocked(disk.dir, hash, attempt.temp)
  }

  /** A blob that a source has served is in the cache afterwards exactly when it fits the budget. */
  lemma SourcedIsStored(blake: Blob -> Hash, name: string, disk: Disk, budget: nat, sources: seq<Source>, hash: Hash,
                        answers: Answers, attempt: Attempt, ms: nat)
    requires Valid(disk.index) && hash !in disk.index.entries && Unhindered(disk, hash, attempt)
    ensures var f := Sourced(blake, name, disk, budget, sources, hash, answers, attempt, ms);
      if f.result.Ok? && |f.result.bytes| <= budget then
        LookupWith(f.disk, hash, blake, false).data == Some(f.result.bytes)
      else f.disk == disk && LookupWith(f.disk, hash, blake, false) == Answer(disk, None)
  {
    ChainMeans(blake, answers, sources, hash);
    hide FirstHit, SortByTier, Valid, Store, Blocked;
    var hit := FirstHit(blake, answers, SortByTier(sources), hash);
    if hit.Some? {
      var Attempt(now, temp, _) := attempt;
      StoreSkips(disk, hash, hit.value.bytes, now, temp, budget);
      if |hit.value.bytes| <= budget {
        StoreThenLookup(disk, hash, hit.value.bytes, now, temp, budget, blake);
      }
    }
  }

  /**
    After a fetch that has succeeded, the next one is served from the cache with the same bytes, whatever the sources
    answer by then - exactly when the first was served from the cache, too, or its bytes fit the budget.
   */
  lemma FetchThenFetch(blake: Blob -> Hash, name: string, disk: Disk, budget: nat, sources: seq<Source>, hash: Hash,
                       readFails: bool, answers: Answers, attempt: Attempt, ms: nat,
                       asked: seq<Source>, later: Answers, again: Attempt, laterMs: nat)
    requires Valid(disk.index) && Unhindered(LookupWith(disk, hash, blake, readFails).disk, hash, attempt)
    ensures var f := FetchOnDisk(blake, name, disk, budget, sources, hash, readFails, answers, attempt, ms);
      var g := FetchOnDisk(blake, name, f.disk, budget, asked, hash, false, later, again, laterMs);
      var cached := LookupWith(disk, hash, blake, readFails).data.Some?;
      if f.result.Ok? && (cached || |f.result.bytes| <= budget) then
        g.result == f.result && g.report == FetchReport(name, hash, Some(Cache), None, |f.result.bytes|, laterMs)
      else
        g == Sourced(blake, name, f.disk, budget, asked, hash, later, again, laterMs)
  {
    var a := LookupWith(disk, hash, blake, readFails);
    LookupWithNeverLies(disk, hash, blake, readFails);
    LookupTwice(disk, hash, blake, readFails);
    if a.data.None? {
      SourcedIsStored(blake, name, a.disk, budget, sources, hash, answers, attempt, ms);
      hide Sourced, LookupWith, Valid, Unhindered;
    } else {
      hide Sourced, LookupWith, Valid;
    }
  }

  /** A lookup that hits can be repeated. */
  lemma LookupTwice(d: Disk, h: Hash, blake: Blob -> Hash, readFails: bool)
    ensures var a := LookupWith(d, h, blake, readFails);
      a.data.Some? ==> LookupWith(a.disk, h, blake, false).data == a.data
  {
    hide ToHex, Without;
  }

  // ---------------------------------------------------------------- whole runs

  /**
    As in memory, fetches overlap between their lookup and their store, each of which is one step here; besides, the
    files may be changed from outside at any time.
   */
  datatype DiskEvent =
    | AddSource(source: Source, contended: bool)
    | Begin(hash: Hash, readFails: bool, beginMs: nat)
    | Finish(k: nat, answers: Answers, attempt: Attempt, ms: nat)
    | Tamper(files: Directory)

  datatype DiskTrace = DiskTrace(
    disk: Disk, sources: seq<Source>, pending: seq<Pending>, results: seq<(Hash, FetchResult)>,
    reports: seq<FetchReport>)
  {
    function Complete(hash: Hash, f: Fetched): DiskTrace {
      this.(disk := f.disk, results := results + [(hash, f.result)], reports := reports + [f.report])
    }
  }

  function DiskNext(blake: Blob -> Hash, name: string, budget: nat, t: DiskTrace, e: DiskEvent): DiskTrace {
    match e
    case AddSource(source, contended) => if contended then t else t.(sources := t.sources + [source])
    case Begin(hash, readFails, ms) =>
      var a := LookupWith(t.disk, hash, blake, readFails);
      (match a.data
       case Some(data) => t.Complete(hash, Cached(name, hash, a.disk, data, ms))
       case None => t.(disk := a.disk, pending := t.pending + [Pending(hash, t.sources)]))
    case Finish(k, answers, attempt, ms) =>
      if k >= |t.pending| then t
      else
        var p := t.pending[k];
        t.(pending := t.pending[..k] + t.pending[k + 1..])
         .Complete(p.hash, Sourced(blake, name, t.disk, budget, p.sources, p.hash, answers, attempt, ms))
    case Tamper(files) => t.(disk := Disk(files, t.disk.index))
  }

  function DiskRun(blake: Blob -> Hash, name: string, budget: nat, start: DiskTrace,
                   events: seq<DiskEvent>): DiskTrace {
    if events == [] then start
    else
      DiskNext(blake, name, budget, DiskRun(blake, name, budget, start, events[..|events| - 1]), events[|events| - 1])
  }

  /** An uninterrupted fetch is the beginning followed by the end, unless the cache answers at once. */
  lemma DiskFetchIsBeginFinish(blake: Blob -> Hash, name: string, budget: nat, t: DiskTrace, hash: Hash,
                               readFails: bool, answers: Answers, attempt: Attempt, ms: nat)
    requires t.pending == []
    ensures var f := FetchOnDisk(blake, name, t.disk, budget, t.sources, hash, readFails, answers, attempt, ms);
      var begin, finish := DiskEvent.Begin(hash, readFails, ms), DiskEvent.Finish(0, answers, attempt, ms);
      DiskRun(blake, name, budget, t, [begin, finish]) == t.Complete(hash, f)
  {
    hide LookupWith, StoreWith, FirstHit, SortByTier;
    var begin, finish := DiskEvent.Begin(hash, readFails, ms), DiskEvent.Finish(0, answers, attempt, ms);
    var events := [begin, finish];
    assert events[..1] == [begin] && events[..1][..0] == [];
    assert DiskRun(blake, name, budget, t, events[..1]) == DiskNext(blake, name, budget, t, begin);
  }

  /** The source list is copied when a fetch begins: what is registered later is kept, but not asked. */
  lemma LateSourceIsNotAsked(blake: Blob -> Hash, name: string, budget: nat, t: DiskTrace, hash: Hash, readFails: bool,
                             late: Source, contended: bool, answers: Answers, attempt: Attempt, ms: nat)
    requires t.pending == [] && LookupWith(t.disk, hash, blake, readFails).data.None?
    ensures var begin, finish := DiskEvent.Begin(hash, readFails, ms), DiskEvent.Finish(0, answers, attempt, ms);
      var u := DiskRun(blake, name, budget, t, [begin, DiskEvent.AddSource(late, contended), finish]);
      var f := FetchOnDisk(blake, name, t.disk, budget, t.sources, hash, readFails, answers, attempt, ms);
      u == t.(sources := if contended then t.sources else t.sources + [late]).Complete(hash, f)
  {
    hide LookupWith, Sourced, DiskRun;
    var begin, add := DiskEvent.Begin(hash, readFails, ms), DiskEvent.AddSource(late, contended);
    var finish := DiskEvent.Finish(0, answers, attempt, ms);
    DiskRunSnoc(blake, name, budget, t, [], begin);
    DiskRunSnoc(blake, name, budget, t, [begin], add);
    DiskRunSnoc(blake, name, budget, t, [begin, add], finish);
    assert [] + [begin] == [begin] && [begin] + [add] == [begin, add];
    assert [begin, add] + [finish] == [begin, add, finish];
  }

  lemma DiskRunSnoc(blake: Blob -> Hash, name: string, budget: nat, t: DiskTrace, events: seq<DiskEvent>, e: DiskEvent)
    ensures DiskRun(blake, name, budget, t, events + [e])
         == DiskNext(blake, name, budget, DiskRun(blake, name, budget, t, events), e)
    ensures DiskRun(blake, name, budget, t, []) == t
  {
    hide DiskNext;
  }

  /** A file that somebody has put in the place of a blob is not served: it is removed, and the sources are asked. */
  lemma TamperedIsNotServed(blake: Blob -> Hash, name: string, budget: nat, t: DiskTrace, files: Directory, hash: Hash,
                            ms: nat)
    requires hash in t.disk.index.entries && HasBlob(files, hash) && !Verifies(blake, hash, files[ToHex(hash)].data)
    ensures DiskRun(blake, name, budget, t, [DiskEvent.Tamper(files), DiskEvent.Begin(hash, false, ms)])
         == t.(disk := Disk(files - {ToHex(hash)}, Dropped(t.disk.index, hash)),
               pending := t.pending + [Pending(hash, t.sources)])
  {
    var tamper, begin := DiskEvent.Tamper(files), DiskEvent.Begin(hash, false, ms);
    hide DiskRun, ToHex, Dropped;
    DiskRunSnoc(blake, name, budget, t, [], tamper);
    DiskRunSnoc(blake, name, budget, t, [tamper], begin);
    assert [] + [tamper] == [tamper] && [tamper] + [begin] == [tamper, begin];
  }

  /** The hashes for which fetches have begun. */
  function Started(events: seq<DiskEvent>): multiset<Hash> {
    if events == [] then multiset{}
    else
      Started(events[..|events| - 1])
      + if events[|events| - 1].Begin? then multiset{events[|events| - 1].hash} else multiset{}
  }

  ghost predicate SoundResults(blake: Blob -> Hash, name: string, t: DiskTrace) {
    && |t.results| == |t.reports|
    && (forall k :: 0 <= k < |t.pending| ==> t.pending[k].sources <= t.sources)
    && (forall i :: 0 <= i < |t.results| ==>
         && ReportFits(name, t.results[i].0, t.results[i].1, t.reports[i])
         && CreditFits(t.reports[i], t.sources)
         && (t.results[i].1.Ok? ==> Verifies(blake, t.results[i].0, t.results[i].1.bytes)))
  }

  lemma LookupVerifies(d: Disk, h: Hash, blake: Blob -> Hash, readFails: bool)
    ensures var a := LookupWith(d, h, blake, readFails); a.data.Some? ==> Verifies(blake, h, a.data.value)
  {
  }

  lemma DiskNextIsSound(blake: Blob -> Hash, name: string, budget: nat, t: DiskTrace, e: DiskEvent)
    requires SoundResults(blake, name, t)
    ensures SoundResults(blake, name, DiskNext(blake, name, budget, t, e))
  {
    hide LookupWith, StoreWith, FirstHit, SortByTier, Verifies;
    match e
    case Begin(hash, readFails, ms) => LookupVerifies(t.disk, hash, blake, readFails);
    case Finish(k, answers, attempt, ms) =>
      if k < |t.pending| { ChainMeans(blake, answers, t.pending[k].sources, t.pending[k].hash); }
    case _ =>
  }

  lemma StepCounts(blake: Blob -> Hash, name: string, budget: nat, t: DiskTrace, e: DiskEvent)
    ensures var u := DiskNext(blake, name, budget, t, e);
      Answered(u.results) + Outstanding(u.pending)
      == Answered(t.results) + Outstanding(t.pending) + if e.Begin? then multiset{e.hash} else multiset{}
  {
    hide LookupWith, Sourced, Answered, Outstanding;
    match e
    case Begin(hash, readFails, ms) =>
      var a := LookupWith(t.disk, hash, blake, readFails);
      if a.data.Some? {
        AnsweredMore(t.results, hash, Ok(a.data.value));
      } else {
        OutstandingMore(t.pending, Pending(hash, t.sources));
      }
    case Finish(k, answers, attempt, ms) =>
      if k < |t.pending| {
        var p := t.pending[k];
        OutstandingWithout(t.pending, k);
        AnsweredMore(t.results, p.hash,
                     Sourced(blake, name, t.disk, budget, p.sources, p.hash, answers, attempt, ms).result);
      }
    case _ =>
  }

  /**
    Over any run on disk in which no lookup or store overlaps another - fetches overlap otherwise, sources are late or
    change, stores and reads fail, files are changed from outside - every result is verified bytes or a failure, and
    each fetch that has begun is under way or has come back with exactly one report, which has no tier exactly when the
    fetch failed and else credits the cache or a registered source.
   */
  lemma {:induction false} DiskRunIsSound(blake: Blob -> Hash, name: string, budget: nat, start: DiskTrace,
                                          events: seq<DiskEvent>)
    requires SoundResults(blake, name, start)
    ensures var t := DiskRun(blake, name, budget, start, events);
      && SoundResults(blake, name, t)
      && Answered(t.results) + Outstanding(t.pending)
         == Answered(start.results) + Outstanding(start.pending) + Started(events)
  {
    hide SoundResults, DiskNext, Answered, Outstanding;
    if events != [] {
      var init, e := events[..|events| - 1], events[|events| - 1];
      DiskRunIsSound(blake, name, budget, start, init);
      DiskNextIsSound(blake, name, budget, DiskRun(blake, name, budget, start, init), e);
      StepCounts(blake, name, budget, DiskRun(blake, name, budget, start, init), e);
    }
  }

  // ---------------------------------------------------------------- the cache along the way

  /** No tampering, no read error on a file that is there, and scratch names as the cache makes them. */
  predicate Undisturbed(events: seq<DiskEvent>) {
    forall i :: 0 <= i < |events| ==>
      && !events[i].Tamper? && (events[i].Begin? ==> !events[i].readFails)
      && (events[i].Finish? ==> |events[i].attempt.temp| > 64)
  }

  ghost predicate CacheInStep(d: Disk, budget: nat) {
    InSync(d) && d.index.total <= budget
  }

  lemma DiskNextInStep(blake: Blob -> Hash, name: string, budget: nat, t: DiskTrace, e: DiskEvent)
    requires CacheInStep(t.disk, budget) && Undisturbed([e])
    ensures CacheInStep(DiskNext(blake, name, budget, t, e).disk, budget)
  {
    hide StoreWith, FirstHit, SortByTier, Valid, Lookup, HasBlob, ToHex;
    assert [e][0] == e;
    match e
    case Begin(hash, readFails, ms) =>
      LookupMeans(t.disk, hash, blake);
      LookupNeverLies(t.disk, hash, blake);
    case Finish(k, answers, attempt, ms) =>
      if k < |t.pending| {
        var hit := FirstHit(blake, answers, SortByTier(t.pending[k].sources), t.pending[k].hash);
        if hit.Some? {
          var Attempt(now, temp, fault) := attempt;
          StoreWithKeepsSync(t.disk, t.pending[k].hash, hit.value.bytes, now, temp, budget, fault);
        }
      }
    case _ =>
  }

  /**
    Undisturbed, and as long as no lookup or store overlaps another, files and index stay in step and within the budget,
    whatever stores fail. `FetchesInStep` is the property for calls that do overlap; `LateFetchesLoseFile`,
    `LateRemovalLosesFile` and `RaceOverflowsBudget` are runs of such calls that lose it without any fault.
   */
  lemma {:induction false} DiskRunInStep(blake: Blob -> Hash, name: string, budget: nat, start: DiskTrace,
                                         events: seq<DiskEvent>)
    requires CacheInStep(start.disk, budget) && Undisturbed(events)
    ensures CacheInStep(DiskRun(blake, name, budget, start, events).disk, budget)
  {
    hide DiskNext, CacheInStep;
    if events != [] {
      var init, e := events[..|events| - 1], events[|events| - 1];
      assert Undisturbed([e]);
      DiskRunInStep(blake, name, budget, start, init);
      DiskNextInStep(blake, name, budget, DiskRun(blake, name, budget, start, init), e);
    }
  }
}

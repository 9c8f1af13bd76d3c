/**
  An asset class over its disk cache under full concurrency: any number of fetches, each a lookup, a walk of the source
  chain and a store, whose cache calls are the tasks of the concurrent cache and overlap step by step.
 */
module FetchMachines {
  import opened Wrappers
  import opened Blake
  import opened Lru
  import opened RecentRun
  import opened Directories
  import opened Reopening
  import opened CutOpening
  import opened DiskCaches
  import opened FetchChain
  import opened CacheMachines
  import opened CacheIntegrity
  import opened CacheFootprint
  import opened CacheBacking
  import opened CacheSolo
  import Assets = AssetClasses

  /** Where a fetch stands. */
  datatype Stage =
    | Looking(hash: Hash)                               // in its lookup
    | Missed(hash: Hash)                                // the cache did not have it
    | Walking(hash: Hash, sources: seq<Source>)         // with its copy of the source list
    | Storing(hash: Hash, hit: ChainHit)                // in its store

  datatype Done = Done(id: nat, hash: Hash, result: Assets.FetchResult)

  /** `begun` is every fetch that ever began, `lost` those whose caller gave up or whose process crashed. */
  datatype Fetches = Fetches(
    cache: State, sources: seq<Source>, stages: map<nat, Stage>,
    results: seq<Done>, reports: seq<Assets.FetchReport>, begun: map<nat, Hash>, lost: set<nat>)

  datatype Event =
    | AddSource(source: Source, contended: bool)
    | Begin(id: nat, hash: Hash)
    | CacheStep(id: nat, action: Action, ms: nat)
    | Copy(id: nat)
    | Answer(id: nat, answers: Answers, ms: nat)
    | GiveUp(id: nat)
    | Outside(step: Step)

  // ---------------------------------------------------------------- steps

  function Complete(t: Fetches, id: nat, hash: Hash, result: Assets.FetchResult, report: Assets.FetchReport): Fetches {
    t.(stages := t.stages - {id}, results := t.results + [Done(id, hash, result)], reports := t.reports + [report])
  }

  function Served(t: Fetches, name: string, id: nat, hash: Hash, data: Blob, tier: FetchTier, peer: Option<string>,
                  ms: nat): Fetches {
    Complete(t, id, hash, Assets.Ok(data), Assets.FetchReport(name, hash, Some(tier), peer, |data|, ms))
  }

  function Drop(t: Fetches, id: nat): Fetches {
    t.(stages := t.stages - {id}, lost := t.lost + {id})
  }

  function AtStage(t: Fetches, id: nat, stage: Stage): Fetches {
    t.(stages := t.stages[id := stage])
  }

  ghost function BeginStep(t: Fetches, id: nat, hash: Hash, blake: Blob -> Hash): Fetches {
    if !t.cache.up || id in t.begun || id in t.cache.tasks then t
    else
      var cache := Next(t.cache, StartLookup(id, hash), blake);
      AtStage(t.(cache := cache, begun := t.begun[id := hash]), id,
              if id in cache.tasks then Looking(hash) else Missed(hash))
  }

  /** What the end of a cache call means for its fetch: `task` is where the call stood before its last step. */
  function CallEnds(t: Fetches, name: string, id: nat, task: Task, action: Action, ms: nat): Fetches
    requires id in t.stages
  {
    if action.Abandon? then Drop(t, id)
    else
      match t.stages[id]
      case Looking(hash) =>
        (match task
         case Touching(_, data) => Served(t, name, id, hash, data, Cache, None, ms)
         case _ => AtStage(t, id, Missed(hash)))
      case Storing(hash, hit) => Served(t, name, id, hash, hit.bytes, hit.tier, hit.peerId, ms)
      case _ => t
  }

  ghost function CallStep(t: Fetches, name: string, id: nat, action: Action, ms: nat, blake: Blob -> Hash): Fetches {
    if id !in t.stages || id !in t.cache.tasks then t
    else
      var cache := Next(t.cache, Act(id, action), blake);
      if id in cache.tasks then t.(cache := cache)
      else CallEnds(t.(cache := cache), name, id, t.cache.tasks[id], action, ms)
  }

  /** The chain answers; what it found is stored, and a store that is skipped or fails does not fail the fetch. */
  ghost function AnswerStep(t: Fetches, name: string, id: nat, answers: Answers, ms: nat,
                            blake: Blob -> Hash): Fetches {
    if id !in t.stages || !t.stages[id].Walking? || id in t.cache.tasks then t
    else
      var Walking(hash, sources) := t.stages[id];
      match FirstHit(blake, answers, SortByTier(sources), hash)
      case None =>
        Complete(t, id, hash, Assets.FetchFailed(hash), Assets.FetchReport(name, hash, None, None, 0, ms))
      case Some(hit) =>
        var cache := Next(t.cache, StartStore(id, hash, hit.bytes), blake);
        if id in cache.tasks then AtStage(t.(cache := cache), id, Storing(hash, hit))
        else Served(t.(cache := cache), name, id, hash, hit.bytes, hit.tier, hit.peerId, ms)
  }

  predicate IsOutside(step: Step) {
    step.Tamper? || step.Crash? || step.Reopen? || step.CrashInOpen?
  }

  ghost function FetchNext(t: Fetches, name: string, e: Event, blake: Blob -> Hash): Fetches {
    match e
    case AddSource(source, contended) => if contended then t else t.(sources := t.sources + [source])
    case Begin(id, hash) => BeginStep(t, id, hash, blake)
    case CacheStep(id, action, ms) => CallStep(t, name, id, action, ms, blake)
    case Copy(id) =>
      if id in t.stages && t.stages[id].Missed? then AtStage(t, id, Walking(t.stages[id].hash, t.sources)) else t
    case Answer(id, answers, ms) => AnswerStep(t, name, id, answers, ms, blake)
    case GiveUp(id) => if id in t.stages && id !in t.cache.tasks then Drop(t, id) else t
    case Outside(step) =>
      if !IsOutside(step) then t
      else if step.Crash? then
        t.(cache := Next(t.cache, step, blake), stages := map[], lost := t.lost + t.stages.Keys)
      else t.(cache := Next(t.cache, step, blake))
  }

  function Start(dir: Directory, sources: seq<Source>): Fetches {
    Fetches(Initial(dir), sources, map[], [], [], map[], {})
  }

  ghost function FetchRun(t: Fetches, name: string, events: seq<Event>, blake: Blob -> Hash): Fetches {
    if events == [] then t
    else FetchNext(FetchRun(t, name, events[..|events| - 1], blake), name, events[|events| - 1], blake)
  }

  /** The sources whose registration met no lock. */
  function Registered(events: seq<Event>): seq<Source> {
    if events == [] then []
    else
      Registered(events[..|events| - 1])
      + match events[|events| - 1]
        case AddSource(source, false) => [source]
        case _ => []
  }

  /** The source list only grows, by those sources and in their order. */
  lemma {:induction false} SourcesAre(t: Fetches, name: string, events: seq<Event>, blake: Blob -> Hash)
    ensures FetchRun(t, name, events, blake).sources == t.sources + Registered(events)
  {
    hide FetchNext;
    if events != [] {
      var init, e := events[..|events| - 1], events[|events| - 1];
      SourcesAre(t, name, init, blake);
      SourcesAfter(FetchRun(t, name, init, blake), name, e, blake);
    }
  }

  lemma SourcesAfter(t: Fetches, name: string, e: Event, blake: Blob -> Hash)
    ensures FetchNext(t, name, e, blake).sources
         == if e.AddSource? && !e.contended then t.sources + [e.source] else t.sources
  {
    hide Next, FirstHit, SortByTier;
  }

  /** A fetch is lost exactly to a caller that gives up, in a cache call or between them, and to a crash. */
  lemma LostAfter(t: Fetches, name: string, e: Event, blake: Blob -> Hash, id: nat)
    requires Matched(t)
    ensures id in FetchNext(t, name, e, blake).lost
       <==> || id in t.lost
            || (id in t.stages
                && ((e == GiveUp(id) && id !in t.cache.tasks)
                    || (e.CacheStep? && e.id == id && e.action.Abandon? && id in t.cache.tasks)
                    || (e.Outside? && e.step.Crash?)))
  {
    hide FirstHit, SortByTier, Inserted, Touched, Dropped, WriteFile, Rename, Rewrite, RemoveFile, ToHex, TempName,
      HasBlob, Verifies, Open, PartOpened, Lists;
  }

  // ---------------------------------------------------------------- every fetch is a run of the cache

  /** The step of the cache that an event takes, if any. */
  ghost function CacheStepOf(t: Fetches, e: Event, blake: Blob -> Hash): seq<Step> {
    match e
    case Begin(id, hash) =>
      if !t.cache.up || id in t.begun || id in t.cache.tasks then [] else [StartLookup(id, hash)]
    case CacheStep(id, action, _) =>
      if id !in t.stages || id !in t.cache.tasks then [] else [Act(id, action)]
    case Answer(id, answers, _) =>
      if id !in t.stages || !t.stages[id].Walking? || id in t.cache.tasks then []
      else
        (match FirstHit(blake, answers, SortByTier(t.stages[id].sources), t.stages[id].hash)
         case None => []
         case Some(hit) => [StartStore(id, t.stages[id].hash, hit.bytes)])
    case Outside(step) => if IsOutside(step) then [step] else []
    case _ => []
  }

  ghost function CacheSteps(t: Fetches, name: string, events: seq<Event>, blake: Blob -> Hash): seq<Step> {
    if events == [] then []
    else
      var init := events[..|events| - 1];
      CacheSteps(t, name, init, blake) + CacheStepOf(FetchRun(t, name, init, blake), events[|events| - 1], blake)
  }

  lemma NextProjects(t: Fetches, name: string, e: Event, blake: Blob -> Hash)
    ensures FetchNext(t, name, e, blake).cache == Walk(t.cache, CacheStepOf(t, e, blake), blake)
  {
    hide Next, FirstHit, SortByTier;
    var steps := CacheStepOf(t, e, blake);
    if steps != [] {
      assert steps == [steps[0]];
      WalkOne(t.cache, steps[0], blake);
    }
  }

  /** Whatever the fetches do, their cache goes through a run of the concurrent cache. */
  lemma {:induction false} FetchesProject(t: Fetches, name: string, events: seq<Event>, blake: Blob -> Hash)
    ensures FetchRun(t, name, events, blake).cache == Walk(t.cache, CacheSteps(t, name, events, blake), blake)
  {
    hide FetchNext, CacheStepOf;
    if events != [] {
      var init, e := events[..|events| - 1], events[|events| - 1];
      FetchesProject(t, name, init, blake);
      NextProjects(FetchRun(t, name, init, blake), name, e, blake);
      WalkOn(t.cache, CacheSteps(t, name, init, blake), CacheStepOf(FetchRun(t, name, init, blake), e, blake), blake);
    }
  }

  // ---------------------------------------------------------------- results and reports

  predicate IsLookup(task: Task) {
    task.Reading? || task.Checking? || task.Corrupt? || task.Dropping? || task.Touching?
  }

  /** A cache call in flight is the call of a fetch, a lookup of its hash or a store. */
  ghost predicate Matched(t: Fetches) {
    forall id :: id in t.cache.tasks ==>
      id in t.stages
      && (t.stages[id].Looking? || t.stages[id].Storing?)
      && (t.stages[id].Looking? ==> IsLookup(t.cache.tasks[id]) && t.cache.tasks[id].h == t.stages[id].hash)
  }

  ghost predicate SoundStages(t: Fetches, blake: Blob -> Hash) {
    forall id :: id in t.stages ==> SoundStage(t.stages[id], t.sources, blake)
  }

  ghost predicate SoundStage(stage: Stage, sources: seq<Source>, blake: Blob -> Hash) {
    match stage
    case Walking(_, copied) => copied <= sources
    case Storing(hash, hit) =>
      && Verifies(blake, hash, hit.bytes)
      && exists s :: s in sources && s.tier == hit.tier && s.peerId == hit.peerId
    case _ => true
  }

  predicate HasResult(results: seq<Done>, id: nat) {
    exists i :: 0 <= i < |results| && results[i].id == id
  }

  /** Every fetch that has begun is in exactly one place, with the hash it was begun for. */
  ghost predicate Tracked(t: Fetches) {
    && (forall id :: id in t.begun <==> id in t.stages || id in t.lost || HasResult(t.results, id))
    && (forall id :: id in t.stages ==>
         t.stages[id].hash == t.begun[id] && id !in t.lost && !HasResult(t.results, id))
    && (forall id :: id in t.lost ==> !HasResult(t.results, id))
    && (forall i :: 0 <= i < |t.results| ==>
         t.results[i].id in t.begun && t.begun[t.results[i].id] == t.results[i].hash)
    && (forall i, j :: 0 <= i < j < |t.results| ==> t.results[i].id != t.results[j].id)
  }

  /** Each result verifies or is a failure, and its report fits and credits the cache, a registered source or nobody. */
  ghost predicate SoundResults(t: Fetches, name: string, blake: Blob -> Hash) {
    && |t.results| == |t.reports|
    && (forall i :: 0 <= i < |t.results| ==>
         && Assets.ReportFits(name, t.results[i].hash, t.results[i].result, t.reports[i])
         && Assets.CreditFits(t.reports[i], t.sources)
         && (t.results[i].result.Ok? ==> Verifies(blake, t.results[i].hash, t.results[i].result.bytes)))
  }

  ghost predicate SoundFetches(t: Fetches, name: string, blake: Blob -> Hash) {
    && Matched(t) && Tracked(t)
    && SoundStages(t, blake) && SoundResults(t, name, blake) && Honest(t.cache, blake)
  }

  lemma ActKeepsTasks(s: State, id: nat, action: Action, blake: Blob -> Hash)
    ensures var u := Next(s, Act(id, action), blake);
      && (forall j :: j != id ==> (j in u.tasks <==> j in s.tasks) && (j in u.tasks ==> u.tasks[j] == s.tasks[j]))
      && (id in u.tasks ==> id in s.tasks)
      && (id in u.tasks && IsLookup(s.tasks[id]) ==> IsLookup(u.tasks[id]) && u.tasks[id].h == s.tasks[id].h)
  {
    hide Inserted, Touched, Dropped, WriteFile, Rename, Rewrite, RemoveFile, ToHex, TempName, HasBlob, Verifies;
  }

  // ---------------------------------------------------------------- where fetches are

  lemma HasOneMore(results: seq<Done>, done: Done, id: nat)
    ensures HasResult(results + [done], id) <==> HasResult(results, id) || id == done.id
  {
    var more := results + [done];
    assert more[|results|] == done;
    if i :| 0 <= i < |results| && results[i].id == id {
      assert more[i].id == id;
    }
  }

  lemma CompleteIsTracked(t: Fetches, id: nat, result: Assets.FetchResult, report: Assets.FetchReport)
    requires Tracked(t) && id in t.stages
    ensures Tracked(Complete(t, id, t.stages[id].hash, result, report))
  {
    var done := Done(id, t.stages[id].hash, result);
    forall j ensures HasResult(t.results + [done], j) <==> HasResult(t.results, j) || j == id {
      HasOneMore(t.results, done, j);
    }
    forall i | 0 <= i < |t.results| ensures HasResult(t.results, t.results[i].id) {}
  }

  lemma DropIsTracked(t: Fetches, id: nat)
    requires Tracked(t) && id in t.stages
    ensures Tracked(Drop(t, id))
  {
  }

  lemma CrashIsTracked(t: Fetches)
    requires Tracked(t)
    ensures Tracked(t.(stages := map[], lost := t.lost + t.stages.Keys))
  {
  }

  lemma StageIsTracked(t: Fetches, id: nat, stage: Stage)
    requires Tracked(t) && id in t.stages && stage.hash == t.stages[id].hash
    ensures Tracked(AtStage(t, id, stage))
  {
  }

  lemma BeginIsTracked(t: Fetches, id: nat, stage: Stage)
    requires Tracked(t) && id !in t.begun
    ensures Tracked(AtStage(t.(begun := t.begun[id := stage.hash]), id, stage))
  {
    forall i | 0 <= i < |t.results| ensures HasResult(t.results, t.results[i].id) {}
  }

  lemma TrackedApart(t: Fetches, u: Fetches)
    requires Tracked(t)
    requires u.stages == t.stages && u.results == t.results && u.begun == t.begun && u.lost == t.lost
    ensures Tracked(u)
  {
  }

  // ---------------------------------------------------------------- what the callers get

  /** A fetch that ends with what fits its report. */
  lemma CompleteIsSound(t: Fetches, name: string, blake: Blob -> Hash, id: nat, hash: Hash,
                        result: Assets.FetchResult, report: Assets.FetchReport)
    requires SoundResults(t, name, blake) && SoundStages(t, blake) && id in t.stages
    requires Assets.ReportFits(name, hash, result, report) && (result.Ok? ==> Verifies(blake, hash, result.bytes))
    requires Assets.CreditFits(report, t.sources)
    ensures SoundResults(Complete(t, id, hash, result, report), name, blake)
    ensures SoundStages(Complete(t, id, hash, result, report), blake)
  {
    hide Assets.ReportFits, Assets.CreditFits, Verifies, SoundStage;
  }

  /** The credit of a fetch that ends with bytes. */
  predicate MayCredit(tier: FetchTier, peer: Option<string>, sources: seq<Source>) {
    (tier == Cache && peer == None) || exists s :: s in sources && s.tier == tier && s.peerId == peer
  }

  lemma ServedIsSound(t: Fetches, name: string, blake: Blob -> Hash, id: nat, hash: Hash, data: Blob, tier: FetchTier,
                      peer: Option<string>, ms: nat)
    requires SoundResults(t, name, blake) && SoundStages(t, blake) && id in t.stages && Verifies(blake, hash, data)
    requires MayCredit(tier, peer, t.sources)
    ensures SoundResults(Served(t, name, id, hash, data, tier, peer, ms), name, blake)
    ensures SoundStages(Served(t, name, id, hash, data, tier, peer, ms), blake)
  {
    hide SoundResults, SoundStages;
    CompleteIsSound(t, name, blake, id, hash, Assets.Ok(data),
                    Assets.FetchReport(name, hash, Some(tier), peer, |data|, ms));
  }

  lemma CallEndsWell(u: Fetches, name: string, id: nat, task: Task, action: Action, ms: nat, blake: Blob -> Hash)
    requires SoundResults(u, name, blake) && SoundStages(u, blake) && Tracked(u) && id in u.stages
    requires task.Touching? && u.stages[id].Looking? ==> Verifies(blake, u.stages[id].hash, task.data)
    ensures var w := CallEnds(u, name, id, task, action, ms);
      SoundResults(w, name, blake) && SoundStages(w, blake) && Tracked(w)
  {
    hide SoundResults, Verifies, Tracked;
    DropIsTracked(u, id);
    match u.stages[id] {
      case Looking(hash) =>
        StageIsTracked(u, id, Missed(hash));
        StageMoves(u, u, name, id, Missed(hash), blake);
        if task.Touching? {
          ServedIsSound(u, name, blake, id, hash, task.data, Cache, None, ms);
          ServedIsTracked(u, name, id, task.data, Cache, None, ms);
        }
      case Storing(hash, hit) =>
        StageMoves(u, u, name, id, Missed(hash), blake);
        assert SoundStage(u.stages[id], u.sources, blake);
        ServedIsSound(u, name, blake, id, hash, hit.bytes, hit.tier, hit.peerId, ms);
        ServedIsTracked(u, name, id, hit.bytes, hit.tier, hit.peerId, ms);
      case _ =>
        StageMoves(u, u, name, id, Missed(u.stages[id].hash), blake);
    }
  }

  lemma ServedIsTracked(t: Fetches, name: string, id: nat, data: Blob, tier: FetchTier, peer: Option<string>, ms: nat)
    requires Tracked(t) && id in t.stages
    ensures Tracked(Served(t, name, id, t.stages[id].hash, data, tier, peer, ms))
  {
    hide Tracked;
    CompleteIsTracked(t, id, Assets.Ok(data),
                      Assets.FetchReport(name, t.stages[id].hash, Some(tier), peer, |data|, ms));
  }

  /** The end of a call moves no other fetch. */
  lemma CallEndsElsewhere(u: Fetches, name: string, id: nat, task: Task, action: Action, ms: nat)
    requires id in u.stages
    ensures var w := CallEnds(u, name, id, task, action, ms);
      w.cache == u.cache && forall j :: j != id && j in u.stages ==> j in w.stages && w.stages[j] == u.stages[j]
  {
  }

  lemma CallStepMatches(t: Fetches, name: string, id: nat, action: Action, ms: nat, blake: Blob -> Hash)
    requires Matched(t)
    ensures Matched(CallStep(t, name, id, action, ms, blake))
  {
    hide Next, CallEnds;
    if id in t.stages && id in t.cache.tasks {
      var cache := Next(t.cache, Act(id, action), blake);
      ActKeepsTasks(t.cache, id, action, blake);
      if id !in cache.tasks {
        CallEndsElsewhere(t.(cache := cache), name, id, t.cache.tasks[id], action, ms);
      }
    }
  }

  lemma CallStepIsSound(t: Fetches, name: string, id: nat, action: Action, ms: nat, blake: Blob -> Hash)
    requires SoundFetches(t, name, blake)
    ensures SoundFetches(CallStep(t, name, id, action, ms, blake), name, blake)
  {
    hide Next, Verifies, SoundResults, CallEnds, SoundStages, Tracked;
    CallStepMatches(t, name, id, action, ms, blake);
    if id in t.stages && id in t.cache.tasks {
      var cache := Next(t.cache, Act(id, action), blake);
      NextIsHonest(t.cache, Act(id, action), blake);
      var u := t.(cache := cache);
      OtherCache(t, u, name, blake);
      if id !in cache.tasks {
        CallEndsWell(u, name, id, t.cache.tasks[id], action, ms, blake);
        CallEndsElsewhere(u, name, id, t.cache.tasks[id], action, ms);
      }
    }
  }

  /** None of this depends on the cache. */
  lemma OtherCache(t: Fetches, u: Fetches, name: string, blake: Blob -> Hash)
    requires SoundResults(t, name, blake) && SoundStages(t, blake) && Tracked(t) && u == t.(cache := u.cache)
    ensures SoundResults(u, name, blake) && SoundStages(u, blake) && Tracked(u)
  {
    hide SoundStage, Assets.ReportFits, Assets.CreditFits, Verifies;
    TrackedApart(t, u);
  }

  /** Moves that end no fetch. */
  lemma StageMoves(t: Fetches, u: Fetches, name: string, id: nat, stage: Stage, blake: Blob -> Hash)
    requires SoundResults(t, name, blake) && SoundStages(t, blake) && u == t.(cache := u.cache)
    requires SoundStage(stage, t.sources, blake)
    ensures SoundResults(Drop(u, id), name, blake) && SoundStages(Drop(u, id), blake)
    ensures SoundResults(AtStage(u, id, stage), name, blake) && SoundStages(AtStage(u, id, stage), blake)
  {
    hide Assets.ReportFits, Assets.CreditFits, Verifies, SoundStage;
  }

  lemma StartsTask(s: State, step: Step, blake: Blob -> Hash)
    requires step.StartLookup? || step.StartStore?
    ensures var u := Next(s, step, blake);
      && (forall j :: j != step.id ==> (j in u.tasks <==> j in s.tasks) && (j in u.tasks ==> u.tasks[j] == s.tasks[j]))
      && (step.id in u.tasks && step.id !in s.tasks && step.StartLookup? ==> u.tasks[step.id] == Reading(step.h))
  {
  }

  lemma BeginIsSound(t: Fetches, name: string, id: nat, hash: Hash, blake: Blob -> Hash)
    requires SoundFetches(t, name, blake)
    ensures SoundFetches(BeginStep(t, id, hash, blake), name, blake)
  {
    hide Next, Verifies, SoundResults, Tracked, SoundStages;
    NextIsHonest(t.cache, StartLookup(id, hash), blake);
    StartsTask(t.cache, StartLookup(id, hash), blake);
    if id !in t.begun {
      var cache := Next(t.cache, StartLookup(id, hash), blake);
      var u := t.(cache := cache);
      var stage := if id in cache.tasks then Looking(hash) else Missed(hash);
      OtherCache(t, u, name, blake);
      BeginIsTracked(u, id, stage);
      BeginsSound(u, name, id, stage, blake);
    }
  }

  lemma BeginsSound(u: Fetches, name: string, id: nat, stage: Stage, blake: Blob -> Hash)
    requires SoundResults(u, name, blake) && SoundStages(u, blake) && SoundStage(stage, u.sources, blake)
    ensures var w := AtStage(u.(begun := u.begun[id := stage.hash]), id, stage);
      SoundResults(w, name, blake) && SoundStages(w, blake)
  {
    hide Assets.ReportFits, Assets.CreditFits, Verifies, SoundStage;
  }

  lemma AnswerIsSound(t: Fetches, name: string, id: nat, answers: Answers, ms: nat, blake: Blob -> Hash)
    requires SoundFetches(t, name, blake)
    ensures SoundFetches(AnswerStep(t, name, id, answers, ms, blake), name, blake)
  {
    hide Next, Verifies, SoundResults, FirstHit, SortByTier, Tracked, SoundStages;
    if id in t.stages && t.stages[id].Walking? && id !in t.cache.tasks {
      var Walking(hash, sources) := t.stages[id];
      WalkingCopied(t, id, blake);
      ChainMeans(blake, answers, sources, hash);
      match FirstHit(blake, answers, SortByTier(sources), hash) {
        case None =>
          var report := Assets.FetchReport(name, hash, None, None, 0, ms);
          CompleteIsSound(t, name, blake, id, hash, Assets.FetchFailed(hash), report);
          CompleteIsTracked(t, id, Assets.FetchFailed(hash), report);
        case Some(hit) =>
          var cache := Next(t.cache, StartStore(id, hash, hit.bytes), blake);
          var u := t.(cache := cache);
          HitIsCredited(hit, answers, sources, t.sources, hash, blake);
          NextIsHonest(t.cache, StartStore(id, hash, hit.bytes), blake);
          StartsTask(t.cache, StartStore(id, hash, hit.bytes), blake);
          OtherCache(t, u, name, blake);
          StageMoves(u, u, name, id, Storing(hash, hit), blake);
          StageIsTracked(u, id, Storing(hash, hit));
          ServedIsSound(u, name, blake, id, hash, hit.bytes, hit.tier, hit.peerId, ms);
          ServedIsTracked(u, name, id, hit.bytes, hit.tier, hit.peerId, ms);
      }
    }
  }

  lemma WalkingCopied(t: Fetches, id: nat, blake: Blob -> Hash)
    requires SoundStages(t, blake) && id in t.stages && t.stages[id].Walking?
    ensures t.stages[id].sources <= t.sources
  {
    assert SoundStage(t.stages[id], t.sources, blake);
  }

  lemma HitIsCredited(hit: ChainHit, answers: Answers, copied: seq<Source>, sources: seq<Source>, hash: Hash,
                      blake: Blob -> Hash)
    requires copied <= sources && Verifies(blake, hash, hit.bytes)
    requires exists s :: s in copied && Serves(blake, answers, s, hash) && Credits(hit, answers, s, hash)
    ensures SoundStage(Storing(hash, hit), sources, blake) && MayCredit(hit.tier, hit.peerId, sources)
  {
    var s :| s in copied && Serves(blake, answers, s, hash) && Credits(hit, answers, s, hash);
    assert s in sources;
  }

  lemma OutsideTasks(s: State, step: Step, blake: Blob -> Hash)
    requires IsOutside(step)
    ensures var u := Next(s, step, blake); u.tasks == s.tasks || u.tasks == map[]
    ensures step.Crash? ==> Next(s, step, blake).tasks == map[]
  {
    hide Open, Lists, PartOpened;
  }

  lemma OutsideIsSound(t: Fetches, name: string, step: Step, blake: Blob -> Hash)
    requires SoundFetches(t, name, blake)
    ensures SoundFetches(FetchNext(t, name, Outside(step), blake), name, blake)
  {
    hide Next, Verifies, SoundResults, Tracked;
    if IsOutside(step) {
      NextIsHonest(t.cache, step, blake);
      OutsideTasks(t.cache, step, blake);
      var u := t.(cache := Next(t.cache, step, blake));
      OtherCache(t, u, name, blake);
      CrashIsTracked(u);
      NoStages(u, name, blake);
    }
  }

  lemma NoStages(t: Fetches, name: string, blake: Blob -> Hash)
    requires SoundResults(t, name, blake)
    ensures SoundResults(t.(stages := map[], lost := t.lost + t.stages.Keys), name, blake)
  {
  }

  lemma CopyIsSound(t: Fetches, name: string, id: nat, blake: Blob -> Hash)
    requires SoundFetches(t, name, blake)
    ensures SoundFetches(FetchNext(t, name, Copy(id), blake), name, blake)
    ensures SoundFetches(FetchNext(t, name, GiveUp(id), blake), name, blake)
  {
    hide Verifies, SoundResults, Tracked, SoundStages;
    if id in t.stages {
      var walking := Walking(t.stages[id].hash, t.sources);
      StageMoves(t, t, name, id, walking, blake);
      StageIsTracked(t, id, walking);
      DropIsTracked(t, id);
    }
  }

  lemma FetchNextIsSound(t: Fetches, name: string, e: Event, blake: Blob -> Hash)
    requires SoundFetches(t, name, blake)
    ensures SoundFetches(FetchNext(t, name, e, blake), name, blake)
  {
    hide SoundFetches, BeginStep, CallStep, AnswerStep, Next;
    match e
    case AddSource(source, contended) => MoreSources(t, name, source, blake);
    case Begin(id, hash) => BeginIsSound(t, name, id, hash, blake);
    case CacheStep(id, action, ms) => CallStepIsSound(t, name, id, action, ms, blake);
    case Copy(id) => CopyIsSound(t, name, id, blake);
    case Answer(id, answers, ms) => AnswerIsSound(t, name, id, answers, ms, blake);
    case GiveUp(id) => CopyIsSound(t, name, id, blake);
    case Outside(step) => OutsideIsSound(t, name, step, blake);
  }

  lemma MoreSources(t: Fetches, name: string, source: Source, blake: Blob -> Hash)
    requires SoundFetches(t, name, blake)
    ensures SoundFetches(t.(sources := t.sources + [source]), name, blake)
  {
    hide Verifies, Assets.ReportFits;
    TrackedApart(t, t.(sources := t.sources + [source]));
    hide Tracked;
    assert t.sources <= t.sources + [source];
  }

  lemma StartIsSound(dir: Directory, sources: seq<Source>, name: string, blake: Blob -> Hash)
    ensures SoundFetches(Start(dir, sources), name, blake)
  {
  }

  /**
    Over any run - fetches that overlap inside lookups and stores, failing reads and stores, late and changing sources,
    callers that give up, tampering, crashes and reopenings - every result is verified bytes or a failure, and each
    fetch that has begun is under way, was lost to its caller or a crash, or has exactly one result, for its own hash,
    and one report, which has no tier exactly when the fetch failed and else credits the cache or a registered source.
   */
  lemma {:induction false} FetchesAreSound(t: Fetches, name: string, events: seq<Event>, blake: Blob -> Hash)
    requires SoundFetches(t, name, blake)
    ensures SoundFetches(FetchRun(t, name, events, blake), name, blake)
  {
    hide FetchNext, SoundFetches;
    if events != [] {
      FetchesAreSound(t, name, events[..|events| - 1], blake);
      FetchNextIsSound(FetchRun(t, name, events[..|events| - 1], blake), name, events[|events| - 1], blake);
    }
  }

  // ---------------------------------------------------------------- the files of a run of fetches

  /** Nobody but the cache touches the directory. */
  predicate Alone(events: seq<Event>) {
    forall i :: 0 <= i < |events| && events[i].Outside? ==> !events[i].step.Tamper?
  }

  lemma StepIsAlone(t: Fetches, e: Event, blake: Blob -> Hash)
    ensures var steps := CacheStepOf(t, e, blake);
      |steps| <= 1 && ((e.Outside? && e.step.Tamper?) || forall i :: 0 <= i < |steps| ==> !steps[i].Tamper?)
  {
    hide FirstHit, SortByTier;
  }

  lemma UntamperedConcat(a: seq<Step>, b: seq<Step>)
    requires Untampered(a) && Untampered(b)
    ensures Untampered(a + b)
  {
  }

  lemma {:induction false} AloneIsUntampered(t: Fetches, name: string, events: seq<Event>, blake: Blob -> Hash)
    requires Alone(events)
    ensures Untampered(CacheSteps(t, name, events, blake))
  {
    hide FetchNext, CacheStepOf;
    if events != [] {
      var init, e := events[..|events| - 1], events[|events| - 1];
      AloneIsUntampered(t, name, init, blake);
      StepIsAlone(FetchRun(t, name, init, blake), e, blake);
      UntamperedConcat(CacheSteps(t, name, init, blake), CacheStepOf(FetchRun(t, name, init, blake), e, blake));
    }
  }

  lemma StepStoresVerified(t: Fetches, e: Event, blake: Blob -> Hash)
    ensures StoresGood(CacheStepOf(t, e, blake), Hashing(blake))
  {
    hide FirstHit, SortByTier, Verifies;
    if e.Answer? && e.id in t.stages && t.stages[e.id].Walking? {
      ChainMeans(blake, e.answers, t.stages[e.id].sources, t.stages[e.id].hash);
    }
  }

  lemma StoresConcat(a: seq<Step>, b: seq<Step>, good: Property)
    requires StoresGood(a, good) && StoresGood(b, good)
    ensures StoresGood(a + b, good)
  {
  }

  /** Fetches store nothing but verified bytes. */
  lemma {:induction false} FetchesStoreVerified(t: Fetches, name: string, events: seq<Event>, blake: Blob -> Hash)
    ensures StoresGood(CacheSteps(t, name, events, blake), Hashing(blake))
  {
    hide FetchNext, CacheStepOf, Verifies;
    if events != [] {
      var init, e := events[..|events| - 1], events[|events| - 1];
      FetchesStoreVerified(t, name, init, blake);
      StepStoresVerified(FetchRun(t, name, init, blake), e, blake);
      var last := CacheStepOf(FetchRun(t, name, init, blake), e, blake);
      StoresConcat(CacheSteps(t, name, init, blake), last, Hashing(blake));
    } else {
      assert CacheSteps(t, name, events, blake) == [];
    }
  }

  /** So, without tampering, every blob file of a class is at every step the complete blob for its name. */
  lemma FetchedFilesVerify(dir: Directory, sources: seq<Source>, name: string, events: seq<Event>, blake: Blob -> Hash,
                           h: Hash)
    requires BlobsGood(dir, Hashing(blake)) && Alone(events)
    requires HasBlob(FetchRun(Start(dir, sources), name, events, blake).cache.disk.dir, h)
    ensures Verifies(blake, h, FetchRun(Start(dir, sources), name, events, blake).cache.disk.dir[ToHex(h)].data)
  {
    hide FetchRun, CacheSteps, ToHex, Verifies, Alone, BlobsGood, StoresGood, Untampered, Walk, HasBlob;
    var t := Start(dir, sources);
    var steps := CacheSteps(t, name, events, blake);
    RunOfCache(dir, sources, name, events, blake);
    FetchesStoreVerified(t, name, events, blake);
    BlobIsThere(After(dir, steps, blake).disk.dir, h);
    FilesAlwaysVerify(dir, steps, blake, h);
  }

  lemma BlobIsThere(dir: Directory, h: Hash)
    requires HasBlob(dir, h)
    ensures ToHex(h) in dir
  {
  }

  // ---------------------------------------------------------------- files and index of a run of fetches

  /** What a run of fetches keeps of its files and index: nothing on disk escapes the index, nor any entry its file. */
  ghost predicate Kept(s: State) {
    Accounted(s) && Backed(s)
  }

  /** The event is none of the steps that `NextAccountsIff` and `NextBacksIff` name. */
  ghost predicate Harmless(t: Fetches, e: Event, blake: Blob -> Hash) {
    forall step :: step in CacheStepOf(t, e, blake) ==> !Spoils(t.cache, step) && !Unbacks(t.cache, step)
  }

  ghost predicate KeptThroughout(t: Fetches, name: string, events: seq<Event>, blake: Blob -> Hash) {
    forall i :: 0 <= i <= |events| ==> Kept(FetchRun(t, name, events[..i], blake).cache)
  }

  ghost predicate AllHarmless(t: Fetches, name: string, events: seq<Event>, blake: Blob -> Hash) {
    forall i :: 0 <= i < |events| ==> Harmless(FetchRun(t, name, events[..i], blake), events[i], blake)
  }

  /** What holds of the cache of every untampered run of fetches. */
  lemma CacheOfRun(dir: Directory, sources: seq<Source>, name: string, events: seq<Event>, blake: Blob -> Hash)
    requires CanonicalNames(dir) && Alone(events)
    ensures var s := FetchRun(Start(dir, sources), name, events, blake).cache;
      Whole(s, Anything()) && CanonicalNames(s.disk.dir) && TasksFit(s) && IndexSound(s)
  {
    hide *;
    var steps := CacheSteps(Start(dir, sources), name, events, blake);
    RunOfCache(dir, sources, name, events, blake);
    NamesStayCanonical(dir, steps, blake);
    CanonicalIndexSound(dir, steps, blake);
    AnyStoresGood(dir, steps);
    RunIsWhole(dir, steps, blake, Anything());
  }

  lemma RunOfCache(dir: Directory, sources: seq<Source>, name: string, events: seq<Event>, blake: Blob -> Hash)
    requires Alone(events)
    ensures var t := Start(dir, sources);
      var steps := CacheSteps(t, name, events, blake);
      FetchRun(t, name, events, blake).cache == After(dir, steps, blake) && Untampered(steps)
  {
    hide FetchRun, CacheSteps, Alone, Untampered, Walk;
    var t := Start(dir, sources);
    FetchesProject(t, name, events, blake);
    AloneIsUntampered(t, name, events, blake);
  }

  lemma EventKeepsIff(t: Fetches, name: string, e: Event, blake: Blob -> Hash)
    requires Whole(t.cache, Anything()) && CanonicalNames(t.cache.disk.dir) && TasksFit(t.cache) && IndexSound(t.cache)
    requires Kept(t.cache) && Alone([e])
    ensures Kept(FetchNext(t, name, e, blake).cache) <==> Harmless(t, e, blake)
  {
    hide Next, CacheStepOf, FetchNext, Whole, CanonicalNames, TasksFit, IndexSound, Accounted, Backed, Spoils, Unbacks;
    assert [e][0] == e;
    var steps := CacheStepOf(t, e, blake);
    NextProjects(t, name, e, blake);
    StepIsAlone(t, e, blake);
    if steps != [] {
      assert steps == [steps[0]];
      WalkOne(t.cache, steps[0], blake);
      NextAccountsIff(t.cache, steps[0], blake);
      NextBacksIff(t.cache, steps[0], blake);
    } else {
      assert forall step :: step in steps ==> !Spoils(t.cache, step);
    }
  }

  lemma RunKeepsIff(dir: Directory, sources: seq<Source>, name: string, events: seq<Event>, blake: Blob -> Hash, i: nat)
    requires CanonicalNames(dir) && Alone(events) && i < |events|
    requires Kept(FetchRun(Start(dir, sources), name, events[..i], blake).cache)
    ensures Kept(FetchRun(Start(dir, sources), name, events[..i + 1], blake).cache)
       <==> Harmless(FetchRun(Start(dir, sources), name, events[..i], blake), events[i], blake)
  {
    assert events[..i + 1][..i] == events[..i];
    assert Alone([events[i]]) && Alone(events[..i]);
    hide FetchNext, Kept, Harmless, CanonicalNames, Alone, Whole, TasksFit, IndexSound;
    CacheOfRun(dir, sources, name, events[..i], blake);
    EventKeepsIff(FetchRun(Start(dir, sources), name, events[..i], blake), name, events[i], blake);
  }

  lemma {:induction false} KeptUpTo(dir: Directory, sources: seq<Source>, name: string, events: seq<Event>,
                                    blake: Blob -> Hash, i: nat)
    requires CanonicalNames(dir) && Alone(events) && i <= |events|
    requires AllHarmless(Start(dir, sources), name, events, blake)
    ensures Kept(FetchRun(Start(dir, sources), name, events[..i], blake).cache)
  {
    if i > 0 {
      hide FetchNext, Kept, Harmless, CanonicalNames, Alone;
      KeptUpTo(dir, sources, name, events, blake, i - 1);
      RunKeepsIff(dir, sources, name, events, blake, i - 1);
    } else {
      assert events[..0] == [];
    }
  }

  /**
    However fetches overlap, at every step all files are accounted for and all entries backed exactly when no event of
    the run forgets a blob on disk, gives up the one call that was to see to a file or an entry, removes the file of a
    blob that has been stored again, or indexes a blob whose file is gone.
   */
  lemma FetchesKeepIff(dir: Directory, sources: seq<Source>, name: string, events: seq<Event>, blake: Blob -> Hash)
    requires CanonicalNames(dir) && Alone(events)
    ensures KeptThroughout(Start(dir, sources), name, events, blake)
       <==> AllHarmless(Start(dir, sources), name, events, blake)
  {
    hide FetchRun, Kept, Harmless, CanonicalNames, Alone;
    var t := Start(dir, sources);
    if AllHarmless(t, name, events, blake) {
      forall i | 0 <= i <= |events| ensures Kept(FetchRun(t, name, events[..i], blake).cache) {
        KeptUpTo(dir, sources, name, events, blake, i);
      }
    } else {
      var i :| 0 <= i < |events| && !Harmless(FetchRun(t, name, events[..i], blake), events[i], blake);
      if Kept(FetchRun(t, name, events[..i], blake).cache) {
        RunKeepsIff(dir, sources, name, events, blake, i);
        assert !Kept(FetchRun(t, name, events[..i + 1], blake).cache);
      }
    }
  }

  /** Blobs of these sizes are all that was on disk and all that the run stores. */
  ghost predicate SizedRun(dir: Directory, sources: seq<Source>, name: string, events: seq<Event>, blake: Blob -> Hash,
                           size: Sizes) {
    BlobsGood(dir, OfSize(size)) && StoresGood(CacheSteps(Start(dir, sources), name, events, blake), OfSize(size))
  }

  lemma SizedCache(dir: Directory, sources: seq<Source>, name: string, events: seq<Event>, blake: Blob -> Hash,
                   size: Sizes)
    requires CanonicalNames(dir) && Alone(events) && SizedRun(dir, sources, name, events, blake, size)
    ensures var s := FetchRun(Start(dir, sources), name, events, blake).cache;
      IndexSized(s, size) && BlobsGood(s.disk.dir, OfSize(size))
  {
    hide FetchRun, CacheSteps, Alone, BlobsGood, StoresGood, Untampered, Walk, CanonicalNames, Whole, IndexSized;
    var steps := CacheSteps(Start(dir, sources), name, events, blake);
    RunOfCache(dir, sources, name, events, blake);
    IndexStaysSized(dir, steps, blake, size);
    RunIsWhole(dir, steps, blake, OfSize(size));
    WholeFiles(After(dir, steps, blake), OfSize(size));
  }

  /**
    With no cache call in flight, files and index are in step exactly when all files are accounted for and all entries
    backed; so they are after every run without the events above. The index is within the budget after any run.
   */
  lemma FetchesInStep(dir: Directory, sources: seq<Source>, name: string, events: seq<Event>, blake: Blob -> Hash,
                      size: Sizes)
    requires CanonicalNames(dir) && Alone(events) && SizedRun(dir, sources, name, events, blake, size)
    requires var s := FetchRun(Start(dir, sources), name, events, blake).cache; s.up && s.tasks == map[]
    ensures var s := FetchRun(Start(dir, sources), name, events, blake).cache;
      && s.disk.index.total <= s.budget
      && (InSync(s.disk) <==> Kept(s))
      && (AllHarmless(Start(dir, sources), name, events, blake) ==> InSync(s.disk))
  {
    hide FetchRun, CacheSteps, Alone, CanonicalNames, InSync, Whole, Valid, TasksFit, AllHarmless, SizedRun, BlobsGood,
      Accounted, Backed, IndexSized;
    CacheOfRun(dir, sources, name, events, blake);
    SizedCache(dir, sources, name, events, blake, size);
    IdleInStepIff(FetchRun(Start(dir, sources), name, events, blake).cache, size);
    if AllHarmless(Start(dir, sources), name, events, blake) {
      KeptUpTo(dir, sources, name, events, blake, |events|);
      assert events[..|events|] == events;
    }
  }
}

/** The concurrent fetches against the sequential one: a fetch whose steps run uninterrupted is the sequential fetch. */
module FetchSolo {
  import opened Wrappers
  import opened Blake
  import opened Lru
  import opened Directories
  import opened DiskCaches
  import opened FetchChain
  import opened CacheMachines
  import opened CacheSolo
  import opened FetchMachines
  import Assets = AssetClasses
  import Sequential = DiskAssets

  // ---------------------------------------------------------------- uninterrupted stretches

  lemma {:induction false} FetchRunOn(t: Fetches, name: string, a: seq<Event>, b: seq<Event>, blake: Blob -> Hash)
    ensures FetchRun(t, name, a + b, blake) == FetchRun(FetchRun(t, name, a, blake), name, b, blake)
    decreases |b|
  {
    hide FetchNext;
    if b == [] {
      assert a + b == a;
    } else {
      var init := b[..|b| - 1];
      assert (a + b)[..|a + b| - 1] == a + init;
      FetchRunOn(t, name, a, init, blake);
    }
  }

  lemma FetchRunOne(t: Fetches, name: string, e: Event, blake: Blob -> Hash)
    ensures FetchRun(t, name, [e], blake) == FetchNext(t, name, e, blake)
  {
    hide FetchNext;
    assert [e][..0] == [];
  }

  lemma FetchRunFirst(t: Fetches, name: string, e: Event, rest: seq<Event>, blake: Blob -> Hash)
    ensures FetchRun(t, name, [e] + rest, blake) == FetchRun(FetchNext(t, name, e, blake), name, rest, blake)
  {
    hide FetchNext, FetchRun;
    FetchRunOn(t, name, [e], rest, blake);
    FetchRunOne(t, name, e, blake);
  }

  /** `u` is `t` after events of fetch `id` alone. */
  ghost predicate OnlyMoved(t: Fetches, u: Fetches, id: nat) {
    u.sources == t.sources && forall j :: j != id ==> (j in u.begun <==> j in t.begun)
  }

  function Calls(id: nat, actions: seq<Action>, ms: nat): seq<Event> {
    if actions == [] then [] else Calls(id, actions[..|actions| - 1], ms) + [CacheStep(id, actions[|actions| - 1], ms)]
  }

  lemma CallProjects(t: Fetches, name: string, id: nat, action: Action, ms: nat, blake: Blob -> Hash)
    requires Matched(t)
    ensures var u := CallStep(t, name, id, action, ms, blake);
      u.cache == Next(t.cache, Act(id, action), blake) && OnlyMoved(t, u, id)
  {
    if id !in t.cache.tasks { NoTask(t.cache, id, action, blake); }
    hide Next;
  }

  lemma IsMatched(t: Fetches, name: string, blake: Blob -> Hash)
    requires SoundFetches(t, name, blake)
    ensures Matched(t)
  {
  }

  lemma {:induction false} CallsProject(t: Fetches, name: string, id: nat, actions: seq<Action>, ms: nat,
                                        blake: Blob -> Hash)
    requires SoundFetches(t, name, blake)
    ensures var u := FetchRun(t, name, Calls(id, actions, ms), blake);
      u.cache == Walk(t.cache, Acts(id, actions), blake) && OnlyMoved(t, u, id)
  {
    hide Next, SoundFetches, Matched, CallStep, FetchNext;
    if actions != [] {
      var init, last := actions[..|actions| - 1], actions[|actions| - 1];
      var before := FetchRun(t, name, Calls(id, init, ms), blake);
      CallsProject(t, name, id, init, ms, blake);
      FetchesAreSound(t, name, Calls(id, init, ms), blake);
      IsMatched(before, name, blake);
      CallProjects(before, name, id, last, ms, blake);
      FetchRunOn(t, name, Calls(id, init, ms), [CacheStep(id, last, ms)], blake);
      FetchRunOne(before, name, CacheStep(id, last, ms), blake);
      IsCallStep(before, name, id, last, ms, blake);
      WalkOn(t.cache, Acts(id, init), [Act(id, last)], blake);
      WalkOne(before.cache, Act(id, last), blake);
    }
  }

  lemma IsCallStep(t: Fetches, name: string, id: nat, action: Action, ms: nat, blake: Blob -> Hash)
    ensures FetchNext(t, name, CacheStep(id, action, ms), blake) == CallStep(t, name, id, action, ms, blake)
  {
  }

  // ---------------------------------------------------------------- where the calls of a fetch take it

  lemma {:induction false} NoStageCalls(t: Fetches, name: string, id: nat, actions: seq<Action>, ms: nat,
                                        blake: Blob -> Hash)
    requires id !in t.stages || id !in t.cache.tasks
    ensures FetchRun(t, name, Calls(id, actions, ms), blake) == t
  {
    hide FetchNext;
    if actions != [] {
      var init, last := actions[..|actions| - 1], actions[|actions| - 1];
      NoStageCalls(t, name, id, init, ms, blake);
      FetchRunOn(t, name, Calls(id, init, ms), [CacheStep(id, last, ms)], blake);
      FetchRunOne(t, name, CacheStep(id, last, ms), blake);
      IsCallStep(t, name, id, last, ms, blake);
    }
  }

  /** A fetch that has come back with these bytes. */
  function CameBack(t: Fetches, cache: State, name: string, id: nat, hash: Hash, data: Blob, tier: FetchTier,
                    peer: Option<string>, ms: nat): Fetches {
    FetchMachines.Served(t.(cache := cache), name, id, hash, data, tier, peer, ms)
  }

  /** What a lookup under way can have become. */
  ghost predicate LookedUp(t: Fetches, u: Fetches, name: string, id: nat, hash: Hash, ms: nat) {
    if id in u.cache.tasks then
      && u == t.(cache := u.cache) && u.cache.served == t.cache.served
      && IsLookup(u.cache.tasks[id]) && u.cache.tasks[id].h == hash
    else
      || (u == AtStage(t.(cache := u.cache), id, Missed(hash)) && u.cache.served == t.cache.served)
      || exists data :: && u == CameBack(t, u.cache, name, id, hash, data, Cache, None, ms)
                        && u.cache.served == t.cache.served + [CacheMachines.Served(hash, data)]
  }

  lemma LookupStep(s: State, id: nat, action: Action, blake: Blob -> Hash)
    requires id in s.tasks && IsLookup(s.tasks[id]) && !action.Abandon?
    ensures var u := Next(s, Act(id, action), blake);
      if id in u.tasks then u.served == s.served && IsLookup(u.tasks[id]) && u.tasks[id].h == s.tasks[id].h
      else if s.tasks[id].Touching? then
        u.served == s.served + [CacheMachines.Served(s.tasks[id].h, s.tasks[id].data)]
      else u.served == s.served
  {
    hide Inserted, Touched, Dropped, RemoveFile, ToHex, HasBlob, Verifies;
  }

  lemma LookedUpStep(t: Fetches, u: Fetches, name: string, id: nat, hash: Hash, action: Action, ms: nat,
                     blake: Blob -> Hash)
    requires id in t.stages && t.stages[id] == Looking(hash) && LookedUp(t, u, name, id, hash, ms) && !action.Abandon?
    ensures LookedUp(t, CallStep(u, name, id, action, ms, blake), name, id, hash, ms)
  {
    if id in u.cache.tasks {
      LookupStep(u.cache, id, action, blake);
      hide Next;
      var cache := Next(u.cache, Act(id, action), blake);
      if id !in cache.tasks && u.cache.tasks[id].Touching? {
        var data := u.cache.tasks[id].data;
        assert CallStep(u, name, id, action, ms, blake) == CameBack(t, cache, name, id, hash, data, Cache, None, ms);
      }
    }
  }

  lemma {:induction false} LookupCalls(t: Fetches, name: string, id: nat, hash: Hash, actions: seq<Action>, ms: nat,
                                       blake: Blob -> Hash)
    requires id in t.stages && t.stages[id] == Looking(hash)
    requires id in t.cache.tasks && IsLookup(t.cache.tasks[id]) && t.cache.tasks[id].h == hash
    requires forall a :: a in actions ==> !a.Abandon?
    ensures LookedUp(t, FetchRun(t, name, Calls(id, actions, ms), blake), name, id, hash, ms)
  {
    hide FetchNext, LookedUp;
    if actions == [] {
      NothingLookedUp(t, name, id, hash, ms);
    } else {
      var init, last := actions[..|actions| - 1], actions[|actions| - 1];
      var u := FetchRun(t, name, Calls(id, init, ms), blake);
      LookupCalls(t, name, id, hash, init, ms, blake);
      FetchRunOn(t, name, Calls(id, init, ms), [CacheStep(id, last, ms)], blake);
      FetchRunOne(u, name, CacheStep(id, last, ms), blake);
      IsCallStep(u, name, id, last, ms, blake);
      LookedUpStep(t, u, name, id, hash, last, ms, blake);
    }
  }

  lemma NothingLookedUp(t: Fetches, name: string, id: nat, hash: Hash, ms: nat)
    requires id in t.cache.tasks && IsLookup(t.cache.tasks[id]) && t.cache.tasks[id].h == hash
    ensures LookedUp(t, t, name, id, hash, ms)
  {
  }

  /** What a store under way can have become. */
  ghost predicate PutAway(t: Fetches, u: Fetches, name: string, id: nat, hash: Hash, hit: ChainHit, ms: nat) {
    if id in u.cache.tasks then u == t.(cache := u.cache)
    else u == CameBack(t, u.cache, name, id, hash, hit.bytes, hit.tier, hit.peerId, ms)
  }

  lemma {:induction false} StoreCalls(t: Fetches, name: string, id: nat, hash: Hash, hit: ChainHit,
                                      actions: seq<Action>, ms: nat, blake: Blob -> Hash)
    requires id in t.stages && t.stages[id] == Storing(hash, hit) && id in t.cache.tasks
    requires forall a :: a in actions ==> !a.Abandon?
    ensures PutAway(t, FetchRun(t, name, Calls(id, actions, ms), blake), name, id, hash, hit, ms)
  {
    hide FetchNext, Next;
    if actions != [] {
      var init, last := actions[..|actions| - 1], actions[|actions| - 1];
      var u := FetchRun(t, name, Calls(id, init, ms), blake);
      StoreCalls(t, name, id, hash, hit, init, ms, blake);
      FetchRunOn(t, name, Calls(id, init, ms), [CacheStep(id, last, ms)], blake);
      FetchRunOne(u, name, CacheStep(id, last, ms), blake);
      IsCallStep(u, name, id, last, ms, blake);
    }
  }

  // ---------------------------------------------------------------- the whole fetch

  lemma ActionsGoOn(readFails: bool, data: Blob, now: int, fault: Fault, evictions: nat)
    ensures forall a :: a in LookupActions(readFails) ==> !a.Abandon?
    ensures forall a :: a in StoreActions(data, now, fault, evictions) ==> !a.Abandon?
  {
    RemovesGoOn(evictions);
  }

  lemma {:induction false} RemovesGoOn(count: nat)
    ensures forall a :: a in Removes(count) ==> !a.Abandon?
  {
    if count > 0 { RemovesGoOn(count - 1); }
  }

  /** A fetch just begun and its lookup. */
  function LookupEvents(id: nat, hash: Hash, readFails: bool, ms: nat): seq<Event> {
    [Begin(id, hash)] + Calls(id, LookupActions(readFails), ms)
  }

  predicate CanBegin(t: Fetches, id: nat) {
    t.cache.up && id !in t.begun && id !in t.stages && id !in t.cache.tasks
  }

  /** The lookup of an uninterrupted fetch. */
  lemma SoloLooksUp(t: Fetches, name: string, id: nat, hash: Hash, readFails: bool, ms: nat, blake: Blob -> Hash)
    requires SoundFetches(t, name, blake) && CanBegin(t, id)
    ensures var u := FetchRun(t, name, LookupEvents(id, hash, readFails, ms), blake);
      var a := LookupWith(t.cache.disk, hash, blake, readFails);
      var served := t.cache.served + if a.data.Some? then [CacheMachines.Served(hash, a.data.value)] else [];
      var cache := t.cache.(disk := a.disk, served := served);
      var begun := t.(cache := cache, begun := t.begun[id := hash]);
      u == match a.data
           case None => AtStage(begun, id, Missed(hash))
           case Some(data) =>
             begun.(results := t.results + [Done(id, hash, Assets.Ok(data))],
                    reports := t.reports + [Assets.FetchReport(name, hash, Some(Cache), None, |data|, ms)])
  {
    hide FetchNext, SoundFetches, LookupWith, Walk, FetchRun, Acts, Calls, LookupActions;
    var actions := LookupActions(readFails);
    var t1 := FetchNext(t, name, Begin(id, hash), blake);
    FetchRunFirst(t, name, Begin(id, hash), Calls(id, actions, ms), blake);
    FetchNextIsSound(t, name, Begin(id, hash), blake);
    ActionsGoOn(readFails, [], 0, NoFault, 0);
    CallsProject(t1, name, id, actions, ms, blake);
    SoloLookupWith(t.cache, id, hash, blake, readFails);
    WalkFirst(t.cache, StartLookup(id, hash), Acts(id, actions), blake);
    Begins(t, name, id, hash, blake);
    var u := FetchRun(t1, name, Calls(id, actions, ms), blake);
    var a := LookupWith(t.cache.disk, hash, blake, readFails);
    if id in t1.cache.tasks {
      LookupCalls(t1, name, id, hash, actions, ms, blake);
      Ended(t1, u, name, id, hash, ms);
      ServedApart(t.cache.served, hash, a.data);
      assert t1.stages - {id} == t.stages;
      assert t1.stages[id := Missed(hash)] == t.stages[id := Missed(hash)];
    } else {
      NoStageCalls(t1, name, id, actions, ms, blake);
      NotIndexed(t.cache.disk, hash, blake, readFails);
    }
  }

  lemma NotIndexed(d: Disk, h: Hash, blake: Blob -> Hash, readFails: bool)
    requires h !in d.index.entries
    ensures LookupWith(d, h, blake, readFails) == DiskCaches.Answer(d, None)
  {
  }

  lemma Begins(t: Fetches, name: string, id: nat, hash: Hash, blake: Blob -> Hash)
    requires CanBegin(t, id)
    ensures var t1 := FetchNext(t, name, Begin(id, hash), blake);
      && t1.cache == Next(t.cache, StartLookup(id, hash), blake) && t1.cache.served == t.cache.served
      && (id in t1.cache.tasks <==> hash in t.cache.disk.index.entries)
      && (id in t1.cache.tasks ==> t1.cache.tasks[id] == Reading(hash))
      && t1 == AtStage(t.(cache := t1.cache, begun := t.begun[id := hash]), id,
                       if id in t1.cache.tasks then Looking(hash) else Missed(hash))
  {
  }

  lemma Ended(t: Fetches, u: Fetches, name: string, id: nat, hash: Hash, ms: nat)
    requires LookedUp(t, u, name, id, hash, ms) && id !in u.cache.tasks
    ensures u.cache.served == t.cache.served ==> u == AtStage(t.(cache := u.cache), id, Missed(hash))
    ensures forall data :: u.cache.served == t.cache.served + [CacheMachines.Served(hash, data)] ==>
      u == CameBack(t, u.cache, name, id, hash, data, Cache, None, ms)
  {
    forall data | u.cache.served == t.cache.served + [CacheMachines.Served(hash, data)]
      ensures u == CameBack(t, u.cache, name, id, hash, data, Cache, None, ms)
    {
      var other :| && u == CameBack(t, u.cache, name, id, hash, other, Cache, None, ms)
                   && u.cache.served == t.cache.served + [CacheMachines.Served(hash, other)];
      assert u.cache.served[|t.cache.served|] == CacheMachines.Served(hash, other) == CacheMachines.Served(hash, data);
    }
  }

  lemma ServedApart(served: seq<CacheMachines.Served>, hash: Hash, data: Option<Blob>)
    ensures served + (if data.Some? then [CacheMachines.Served(hash, data.value)] else []) == served
       <==> data.None?
  {
  }

  /** The bytes that the chain finds, if any. */
  function Found(blake: Blob -> Hash, answers: Answers, sources: seq<Source>, hash: Hash): Blob {
    match FirstHit(blake, answers, SortByTier(sources), hash) case Some(hit) => hit.bytes case None => []
  }

  function StoreEvents(t: Fetches, id: nat, hash: Hash, answers: Answers, now: int, fault: Fault, ms: nat,
                       blake: Blob -> Hash): seq<Event> {
    var data := Found(blake, answers, t.sources, hash);
    var evictions := |Inserted(t.cache.disk.index, hash, |data|, t.cache.budget).evicted|;
    [Copy(id)] + ([Event.Answer(id, answers, ms)] + Calls(id, StoreActions(data, now, fault, evictions), ms))
  }

  /** The sequential fetch that goes with it. */
  function Attempted(s: State, hash: Hash, now: int, fault: Fault): Sequential.Attempt {
    Sequential.Attempt(now, TempName(hash, s.pid, s.counter), fault)
  }

  lemma CopyThenAnswer(t: Fetches, name: string, id: nat, hash: Hash, answers: Answers, ms: nat, blake: Blob -> Hash)
    requires id in t.stages && t.stages[id] == Missed(hash) && id !in t.cache.tasks
    ensures var t2 := FetchNext(FetchNext(t, name, Copy(id), blake), name, Event.Answer(id, answers, ms), blake);
      match FirstHit(blake, answers, SortByTier(t.sources), hash)
      case None =>
        t2 == Complete(t, id, hash, Assets.FetchFailed(hash), Assets.FetchReport(name, hash, None, None, 0, ms))
      case Some(hit) =>
        && t2.cache == Next(t.cache, StartStore(id, hash, hit.bytes), blake)
        && t2 == if id in t2.cache.tasks then AtStage(t.(cache := t2.cache), id, Storing(hash, hit))
                 else CameBack(t, t2.cache, name, id, hash, hit.bytes, hit.tier, hit.peerId, ms)
  {
    hide FirstHit, SortByTier, Next;
    var t1 := FetchNext(t, name, Copy(id), blake);
    assert t1 == AtStage(t, id, Walking(hash, t.sources));
    if FirstHit(blake, answers, SortByTier(t.sources), hash).Some? {
      var storing := Storing(hash, FirstHit(blake, answers, SortByTier(t.sources), hash).value);
      assert t1.stages[id := storing] == t.stages[id := storing];
    }
    assert t1.stages - {id} == t.stages - {id};
  }

  /** From a lookup that missed to the end. */
  lemma SoloWalks(t: Fetches, name: string, id: nat, hash: Hash, answers: Answers, now: int, fault: Fault, ms: nat,
                  blake: Blob -> Hash)
    requires SoundFetches(t, name, blake) && t.cache.up
    requires id in t.stages && t.stages[id] == Missed(hash) && id !in t.cache.tasks
    ensures var u := FetchRun(t, name, StoreEvents(t, id, hash, answers, now, fault, ms, blake), blake);
      var f := Sequential.Sourced(blake, name, t.cache.disk, t.cache.budget, t.sources, hash, answers,
                                  Attempted(t.cache, hash, now, fault), ms);
      u.cache.disk == f.disk && u == Complete(t.(cache := u.cache), id, hash, f.result, f.report)
  {
    hide FetchNext, SoundFetches, StoreWith, Walk, FetchRun, Acts, Calls, StoreActions, FirstHit, SortByTier, Next,
      Inserted, TempName;
    var data := Found(blake, answers, t.sources, hash);
    var actions := StoreActions(data, now, fault, |Inserted(t.cache.disk.index, hash, |data|, t.cache.budget).evicted|);
    var answer := Event.Answer(id, answers, ms);
    var t1 := FetchNext(t, name, Copy(id), blake);
    var t2 := FetchNext(t1, name, answer, blake);
    FetchRunFirst(t, name, Copy(id), [answer] + Calls(id, actions, ms), blake);
    FetchRunFirst(t1, name, answer, Calls(id, actions, ms), blake);
    CopyThenAnswer(t, name, id, hash, answers, ms, blake);
    ActionsGoOn(false, data, now, fault, |Inserted(t.cache.disk.index, hash, |data|, t.cache.budget).evicted|);
    match FirstHit(blake, answers, SortByTier(t.sources), hash) {
      case None =>
        NoStageCalls(t2, name, id, actions, ms, blake);
      case Some(hit) =>
        FetchNextIsSound(t, name, Copy(id), blake);
        FetchNextIsSound(t1, name, answer, blake);
        CallsProject(t2, name, id, actions, ms, blake);
        WalkFirst(t.cache, StartStore(id, hash, hit.bytes), Acts(id, actions), blake);
        SoloStoreWith(t.cache, id, hash, hit.bytes, now, fault, blake);
        if id in t2.cache.tasks {
          StoreCalls(t2, name, id, hash, hit, actions, ms, blake);
          assert t.stages[id := Storing(hash, hit)] - {id} == t.stages - {id};
        } else {
          NoStageCalls(t2, name, id, actions, ms, blake);
        }
    }
  }

  /** All events of one fetch. */
  ghost function SoloEvents(t: Fetches, name: string, id: nat, hash: Hash, readFails: bool, answers: Answers, now: int,
                            fault: Fault, ms: nat, blake: Blob -> Hash): seq<Event> {
    var lookup := LookupEvents(id, hash, readFails, ms);
    lookup + StoreEvents(FetchRun(t, name, lookup, blake), id, hash, answers, now, fault, ms, blake)
  }

  /**
    A fetch whose events come with nothing in between is the sequential fetch - its files, its index, its result and its
    report - with whatever is in the cache, whatever the sources answer, and whatever fails.
   */
  lemma SoloFetch(t: Fetches, name: string, id: nat, hash: Hash, readFails: bool, answers: Answers, now: int,
                  fault: Fault, ms: nat, blake: Blob -> Hash)
    requires SoundFetches(t, name, blake) && t.cache.up && id !in t.begun
    ensures var u := FetchRun(t, name, SoloEvents(t, name, id, hash, readFails, answers, now, fault, ms, blake), blake);
      var f := Sequential.FetchOnDisk(blake, name, t.cache.disk, t.cache.budget, t.sources, hash, readFails, answers,
                                      Attempted(t.cache, hash, now, fault), ms);
      && u.cache.disk == f.disk && u.stages == t.stages && u.sources == t.sources && u.lost == t.lost
      && u.results == t.results + [Done(id, hash, f.result)] && u.reports == t.reports + [f.report]
  {
    hide SoundFetches, LookupWith, FetchRun, LookupEvents, StoreEvents, Sequential.Sourced, TempName;
    var lookup := LookupEvents(id, hash, readFails, ms);
    var t1 := FetchRun(t, name, lookup, blake);
    var rest := StoreEvents(t1, id, hash, answers, now, fault, ms, blake);
    FetchRunOn(t, name, lookup, rest, blake);
    IsFresh(t, name, id, blake);
    SoloLooksUp(t, name, id, hash, readFails, ms, blake);
    var a := LookupWith(t.cache.disk, hash, blake, readFails);
    if a.data.Some? {
      NothingLeft(t1, name, id, hash, answers, now, fault, ms, blake);
    } else {
      FetchesAreSound(t, name, lookup, blake);
      SoloWalks(t1, name, id, hash, answers, now, fault, ms, blake);
      assert t.stages[id := Missed(hash)] - {id} == t.stages;
    }
  }

  lemma IsFresh(t: Fetches, name: string, id: nat, blake: Blob -> Hash)
    requires SoundFetches(t, name, blake) && t.cache.up && id !in t.begun
    ensures CanBegin(t, id)
  {
    hide SoundResults, SoundStages;
  }

  /** A fetch that the cache has served takes no further part. */
  lemma NothingLeft(t: Fetches, name: string, id: nat, hash: Hash, answers: Answers, now: int, fault: Fault, ms: nat,
                    blake: Blob -> Hash)
    requires id !in t.stages
    ensures FetchRun(t, name, StoreEvents(t, id, hash, answers, now, fault, ms, blake), blake) == t
  {
    hide FetchRun, StoreActions, Calls, Inserted, Found;
    var data := Found(blake, answers, t.sources, hash);
    var actions := StoreActions(data, now, fault, |Inserted(t.cache.disk.index, hash, |data|, t.cache.budget).evicted|);
    FetchRunFirst(t, name, Copy(id), [Event.Answer(id, answers, ms)] + Calls(id, actions, ms), blake);
    FetchRunFirst(t, name, Event.Answer(id, answers, ms), Calls(id, actions, ms), blake);
    NoStageCalls(t, name, id, actions, ms, blake);
  }
}

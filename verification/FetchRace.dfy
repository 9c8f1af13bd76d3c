/** Three fetches of two blobs, without any fault, that overlap inside their stores and leave the index out of step. */
module FetchRaces {
  import opened Wrappers
  import opened Blake
  import opened Lru
  import opened Directories
  import opened Reopening
  import opened FetchChain
  import opened CacheMachines
  import opened CacheBacking
  import opened CacheSolo
  import opened CacheRace
  import opened FetchMachines
  import opened FetchSolo
  import opened DiskCaches

  /** Nothing fails, nobody gives up, and nothing comes from outside but opening the cache. */
  predicate Faultless(events: seq<Event>) {
    forall i :: 0 <= i < |events| ==>
      && !events[i].GiveUp?
      && (events[i].Outside? ==> events[i].step.Reopen?)
      && (events[i].CacheStep? ==> !events[i].action.Fail? && !events[i].action.Abandon?)
  }

  // ---------------------------------------------------------------- a fetch that a source serves

  /** Every source answers with this blob. */
  function Holding(data: Blob): Answers {
    (source: Source, hash: Hash) => Some(data)
  }

  lemma SortOne(source: Source)
    ensures SortByTier([source]) == [source]
  {
    SortIsStableSort([source], source.tier);
    var s := SortByTier([source]);
    assert |s| == |multiset(s)| == |multiset([source])| == 1;
    assert s[0] in multiset(s);
    assert s == [s[0]];
  }

  lemma SourceAnswers(blake: Blob -> Hash, source: Source, data: Blob)
    ensures FirstHit(blake, Holding(data), SortByTier([source]), blake(data))
         == Some(ChainHit(source.tier, source.peerId, data))
  {
    hide SortByTier;
    SortOne(source);
  }

  /** A fetch whose lookup misses, whose source answers with the blob, and whose store has gone that far. */
  function FetchEvents(id: nat, hash: Hash, data: Blob, actions: seq<Action>, ms: nat): seq<Event> {
    [Begin(id, hash)] + ([Copy(id)] + ([Event.Answer(id, Holding(data), ms)] + Calls(id, actions, ms)))
  }

  predicate CanFetch(t: Fetches, source: Source, id: nat, hash: Hash) {
    && t.cache.up && t.sources == [source] && id !in t.begun && id !in t.cache.tasks
    && hash !in t.cache.disk.index.entries
  }

  lemma BeginMisses(t: Fetches, source: Source, id: nat, hash: Hash, blake: Blob -> Hash)
    requires CanFetch(t, source, id, hash)
    ensures BeginStep(t, id, hash, blake)
         == t.(stages := t.stages[id := Missed(hash)], begun := t.begun[id := hash])
  {
  }

  lemma AnswerStores(t: Fetches, name: string, source: Source, id: nat, data: Blob, ms: nat, blake: Blob -> Hash)
    requires id in t.stages && t.stages[id] == Walking(blake(data), [source]) && id !in t.cache.tasks
    ensures var u := AnswerStep(t, name, id, Holding(data), ms, blake);
      u.cache == Next(t.cache, StartStore(id, blake(data), data), blake) && OnlyMoved(t, u, id)
  {
    hide FirstHit, SortByTier, Next, Holding;
    SourceAnswers(blake, source, data);
  }

  lemma FetchStarts(t: Fetches, name: string, source: Source, id: nat, data: Blob, ms: nat, blake: Blob -> Hash)
    requires CanFetch(t, source, id, blake(data))
    ensures var t1 := FetchNext(t, name, Begin(id, blake(data)), blake);
      var t2 := FetchNext(t1, name, Copy(id), blake);
      var u := FetchNext(t2, name, Event.Answer(id, Holding(data), ms), blake);
      u.cache == Next(t.cache, StartStore(id, blake(data), data), blake) && OnlyMoved(t, u, id)
  {
    hide Next, AnswerStep, BeginStep, Holding;
    BeginMisses(t, source, id, blake(data), blake);
    var t1 := FetchNext(t, name, Begin(id, blake(data)), blake);
    var t2 := FetchNext(t1, name, Copy(id), blake);
    assert t2.stages[id] == Walking(blake(data), [source]);
    AnswerStores(t2, name, source, id, data, ms, blake);
  }

  lemma FetchProjects(t: Fetches, name: string, source: Source, id: nat, data: Blob, actions: seq<Action>, ms: nat,
                      blake: Blob -> Hash)
    requires SoundFetches(t, name, blake) && CanFetch(t, source, id, blake(data))
    ensures var u := FetchRun(t, name, FetchEvents(id, blake(data), data, actions, ms), blake);
      && SoundFetches(u, name, blake) && OnlyMoved(t, u, id)
      && u.cache == Walk(t.cache, [StartStore(id, blake(data), data)] + Acts(id, actions), blake)
  {
    hide FetchNext, FetchRun, SoundFetches, Holding, Calls, Acts, Next, Walk, CanFetch;
    var begin, answer := Begin(id, blake(data)), Event.Answer(id, Holding(data), ms);
    var t1 := FetchNext(t, name, begin, blake);
    var t2 := FetchNext(t1, name, Copy(id), blake);
    var t3 := FetchNext(t2, name, answer, blake);
    FetchRunFirst(t, name, begin, [Copy(id)] + ([answer] + Calls(id, actions, ms)), blake);
    FetchRunFirst(t1, name, Copy(id), [answer] + Calls(id, actions, ms), blake);
    FetchRunFirst(t2, name, answer, Calls(id, actions, ms), blake);
    FetchStarts(t, name, source, id, data, ms, blake);
    FetchNextIsSound(t, name, begin, blake);
    FetchNextIsSound(t1, name, Copy(id), blake);
    FetchNextIsSound(t2, name, answer, blake);
    CallsProject(t3, name, id, actions, ms, blake);
    FetchesAreSound(t3, name, Calls(id, actions, ms), blake);
    WalkFirst(t.cache, StartStore(id, blake(data), data), Acts(id, actions), blake);
  }

  // ---------------------------------------------------------------- the run

  /**
    Open with a budget of one byte; fetch [x]; fetch [y] up to the removal of [x]'s file; fetch [x] again; the removal.
   */
  function LateFetches(x: bv8, y: bv8, now: int, ms: nat, blake: Blob -> Hash): seq<Event> {
    [Outside(Reopen([], 1, 0))] + (FetchEvents(0, blake([x]), [x], StoreActions([x], now, NoFault, 0), ms)
    + (FetchEvents(2, blake([y]), [y], StoreActions([y], now, NoFault, 0), ms)
    + (FetchEvents(1, blake([x]), [x], StoreActions([x], now, NoFault, 1), ms) + [CacheStep(2, Remove, ms)])))
  }

  /** A whole store within a fetch, or one up to its last removal. */
  lemma FetchIsStore(t: Fetches, name: string, source: Source, id: nat, x: bv8, now: int, removals: nat, ms: nat,
                     blake: Blob -> Hash)
    requires SoundFetches(t, name, blake) && CanFetch(t, source, id, blake([x])) && removals <= 1
    ensures var actions := StoreActions([x], now, NoFault, removals);
      var u := FetchRun(t, name, FetchEvents(id, blake([x]), [x], actions, ms), blake);
      && SoundFetches(u, name, blake) && OnlyMoved(t, u, id)
      && u.cache == Walk(t.cache, StoreSteps(id, blake([x]), [x], now, removals), blake)
  {
    hide FetchRun, Walk, FetchEvents, StoreActions, StoreSteps, Acts, SoundFetches, CanFetch, OnlyMoved;
    FetchProjects(t, name, source, id, [x], StoreActions([x], now, NoFault, removals), ms, blake);
    StoreActs(id, blake([x]), [x], now, removals);
  }

  lemma Opened(source: Source, name: string, blake: Blob -> Hash)
    ensures var t := Start(map[], [source]);
      FetchNext(t, name, Outside(Reopen([], 1, 0)), blake) == t.(cache := Idle(Disk(map[], EMPTY), map[], 0))
  {
    hide Next;
    ReopenNothing(blake);
  }

  lemma LateFetchesRun(t: Fetches, name: string, x: bv8, y: bv8, now: int, ms: nat, blake: Blob -> Hash)
    returns (t1: Fetches, t2: Fetches, t3: Fetches, t4: Fetches)
    ensures t1 == FetchNext(t, name, Outside(Reopen([], 1, 0)), blake)
    ensures t2 == FetchRun(t1, name, FetchEvents(0, blake([x]), [x], StoreActions([x], now, NoFault, 0), ms), blake)
    ensures t3 == FetchRun(t2, name, FetchEvents(2, blake([y]), [y], StoreActions([y], now, NoFault, 0), ms), blake)
    ensures t4 == FetchRun(t3, name, FetchEvents(1, blake([x]), [x], StoreActions([x], now, NoFault, 1), ms), blake)
    ensures FetchRun(t, name, LateFetches(x, y, now, ms, blake), blake)
         == FetchNext(t4, name, CacheStep(2, Remove, ms), blake)
  {
    hide FetchNext, FetchRun, FetchEvents, StoreActions;
    var a := FetchEvents(0, blake([x]), [x], StoreActions([x], now, NoFault, 0), ms);
    var b := FetchEvents(2, blake([y]), [y], StoreActions([y], now, NoFault, 0), ms);
    var c := FetchEvents(1, blake([x]), [x], StoreActions([x], now, NoFault, 1), ms);
    var d := [CacheStep(2, Remove, ms)];
    t1 := FetchNext(t, name, Outside(Reopen([], 1, 0)), blake);
    t2 := FetchRun(t1, name, a, blake);
    t3 := FetchRun(t2, name, b, blake);
    t4 := FetchRun(t3, name, c, blake);
    FetchRunFirst(t, name, Outside(Reopen([], 1, 0)), a + (b + (c + d)), blake);
    FetchRunOn(t1, name, a, b + (c + d), blake);
    FetchRunOn(t2, name, b, c + d, blake);
    FetchRunOn(t3, name, c, d, blake);
    FetchRunOne(t4, name, CacheStep(2, Remove, ms), blake);
  }

  lemma Ready(t: Fetches, source: Source, id: nat, h: Hash, disk: Disk, tasks: map<nat, Task>, counter: nat)
    requires t.cache == Idle(disk, tasks, counter) && t.sources == [source]
    requires id !in t.begun && id !in tasks && h !in disk.index.entries
    ensures CanFetch(t, source, id, h)
  {
  }

  lemma Indexes(g: Hash, x: bv8, h: Hash, y: bv8, now: int)
    requires g != h
    ensures h !in One(g, x, now).index.entries && g !in Both(g, x, h, y, now).index.entries
    ensures 0 !in map[2 := Evicting([g])] && 1 !in map[2 := Evicting([g])]
    ensures h !in EMPTY.entries
  {
  }

  lemma LateFetchesEnd(source: Source, name: string, x: bv8, y: bv8, now: int, ms: nat, blake: Blob -> Hash)
    requires blake([x]) != blake([y])
    ensures FetchRun(Start(map[], [source]), name, LateFetches(x, y, now, ms, blake), blake).cache
         == Idle(Disk(map[], OneEntry(blake([x]))), map[], 3)
  {
    hide FetchNext, FetchRun, FetchEvents, StoreActions, StoreSteps, SoundFetches, CanFetch, Next, Walk, Idle, One,
      Both, LateFetches, Matched, CallStep;
    var g, h := blake([x]), blake([y]);
    var t := Start(map[], [source]);
    var t1, t2, t3, t4 := LateFetchesRun(t, name, x, y, now, ms, blake);
    StartIsSound(map[], [source], name, blake);
    FetchNextIsSound(t, name, Outside(Reopen([], 1, 0)), blake);
    Opened(source, name, blake);
    Indexes(h, y, g, x, now);
    Indexes(g, x, h, y, now);
    Ready(t1, source, 0, g, Disk(map[], EMPTY), map[], 0);
    FetchIsStore(t1, name, source, 0, x, now, 0, ms, blake);
    FirstFill(g, x, now, blake);
    Ready(t2, source, 2, h, One(g, x, now), map[], 1);
    FetchIsStore(t2, name, source, 2, y, now, 0, ms, blake);
    StoreUpToRemoval(g, x, h, y, now, blake);
    Ready(t3, source, 1, g, Both(g, x, h, y, now), map[2 := Evicting([g])], 2);
    FetchIsStore(t3, name, source, 1, x, now, 1, ms, blake);
    StoreAgain(g, x, h, y, now, blake);
    IsMatched(t4, name, blake);
    IsCallStep(t4, name, 2, Remove, ms, blake);
    CallProjects(t4, name, 2, Remove, ms, blake);
    LateRemoval(g, x, now, blake);
  }

  lemma {:induction false} CallsAreFaultless(id: nat, actions: seq<Action>, ms: nat)
    requires forall a :: a in actions ==> !a.Fail? && !a.Abandon?
    ensures Faultless(Calls(id, actions, ms))
  {
    if actions != [] { CallsAreFaultless(id, actions[..|actions| - 1], ms); }
  }

  lemma {:induction false} StoreIsFaultless(data: Blob, now: int, removals: nat)
    ensures forall a :: a in StoreActions(data, now, NoFault, removals) ==> !a.Fail? && !a.Abandon?
  {
    if removals > 0 {
      StoreIsFaultless(data, now, removals - 1);
      var rest := Removes(removals - 1);
      forall a | a in rest ensures !a.Fail? && !a.Abandon? {
        assert a in StoreActions(data, now, NoFault, removals - 1);
      }
    }
  }

  lemma FaultlessConcat(a: seq<Event>, b: seq<Event>)
    requires Faultless(a) && Faultless(b)
    ensures Faultless(a + b)
  {
  }

  lemma FetchIsFaultless(id: nat, hash: Hash, data: Blob, now: int, removals: nat, ms: nat)
    ensures Faultless(FetchEvents(id, hash, data, StoreActions(data, now, NoFault, removals), ms))
  {
    hide Holding;
    StoreIsFaultless(data, now, removals);
    CallsAreFaultless(id, StoreActions(data, now, NoFault, removals), ms);
    FaultlessConcat([Event.Answer(id, Holding(data), ms)], Calls(id, StoreActions(data, now, NoFault, removals), ms));
  }

  lemma LateFetchesAreFaultless(x: bv8, y: bv8, now: int, ms: nat, blake: Blob -> Hash)
    ensures Faultless(LateFetches(x, y, now, ms, blake))
  {
    hide FetchEvents, StoreActions;
    FetchIsFaultless(0, blake([x]), [x], now, 0, ms);
    FetchIsFaultless(2, blake([y]), [y], now, 0, ms);
    FetchIsFaultless(1, blake([x]), [x], now, 1, ms);
  }

  /** Three fetches without any fault end with no cache call in flight and an index entry that has no file. */
  lemma LateFetchesLoseFile(source: Source, name: string, x: bv8, y: bv8, now: int, ms: nat, blake: Blob -> Hash)
    requires blake([x]) != blake([y])
    ensures Faultless(LateFetches(x, y, now, ms, blake))
    ensures var s := FetchRun(Start(map[], [source]), name, LateFetches(x, y, now, ms, blake), blake).cache;
      && s.up && s.tasks == map[] && s.disk == Disk(map[], OneEntry(blake([x])))
      && !InSync(s.disk) && !Backed(s)
  {
    hide FetchRun, LateFetches, Faultless;
    LateFetchesAreFaultless(x, y, now, ms, blake);
    LateFetchesEnd(source, name, x, y, now, ms, blake);
    OutOfStep(blake([x]));
  }

  lemma OutOfStep(g: Hash)
    ensures !InSync(Disk(map[], OneEntry(g))) && !Backed(Idle(Disk(map[], OneEntry(g)), map[], 3))
  {
    hide ToHex;
    assert g in OneEntry(g).entries && !HasBlob(map[], g);
  }
}

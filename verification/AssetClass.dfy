/** One asset class over its in-memory cache: fetches, sources added while it runs, and one report for each fetch. */
module AssetClasses {
  import opened Wrappers
  import opened Blake
  import opened FetchChain

  datatype FetchReport = FetchReport(className: string, hash: Hash, tier: Option<FetchTier>, peerId: Option<string>,
                                     bytesServed: nat, durationMs: nat)
  {
    function TierLabel(): string {
      match tier case Some(t) => t.Label() case None => "miss"
    }
  }

  /** The label names the tier that served, and says "miss" when none did. */
  lemma LabelNamesTier(report: FetchReport)
    ensures report.TierLabel() == "miss" <==> report.tier.None?
    ensures report.TierLabel() == "cache" <==> report.tier == Some(Cache)
    ensures report.TierLabel() == "lan" <==> report.tier == Some(Lan)
    ensures report.TierLabel() == "swarm" <==> report.tier == Some(Swarm)
    ensures report.TierLabel() == "seed" <==> report.tier == Some(Seed)
    ensures report.TierLabel() == "cdn" <==> report.tier == Some(Cdn)
  {
  }

  /** A fetch ends with the bytes, or fails because every source is exhausted. */
  datatype FetchResult = Ok(bytes: Blob) | FetchFailed(hash: Hash)

  datatype State = State(cache: map<Hash, Blob>, sources: seq<Source>)

  datatype Outcome = Outcome(after: State, result: FetchResult, report: FetchReport)

  /** The cached answer, if there is one. */
  function FromCache(name: string, s: State, hash: Hash, ms: nat): Outcome
    requires hash in s.cache
  {
    var bytes := s.cache[hash];
    Outcome(s, Ok(bytes), FetchReport(name, hash, Some(Cache), None, |bytes|, ms))
  }

  /** The chain over the sources `sources`, with its answer put into the cache. */
  function FromChain(blake: Blob -> Hash, name: string, s: State, sources: seq<Source>, hash: Hash,
                     answers: Answers, ms: nat): Outcome {
    match FirstHit(blake, answers, SortByTier(sources), hash)
    case Some(hit) =>
      Outcome(s.(cache := s.cache[hash := hit.bytes]), Ok(hit.bytes),
              FetchReport(name, hash, Some(hit.tier), hit.peerId, |hit.bytes|, ms))
    case None =>
      Outcome(s, FetchFailed(hash), FetchReport(name, hash, None, None, 0, ms))
  }

  /** One fetch that nothing interrupts: the cache first, then the chain over the sources registered at that moment. */
  function Fetch(blake: Blob -> Hash, name: string, s: State, hash: Hash, answers: Answers, ms: nat): Outcome {
    if hash in s.cache then FromCache(name, s, hash, ms)
    else FromChain(blake, name, s, s.sources, hash, answers, ms)
  }

  /** A source that serves the blob, and before which no other that serves it is tried. */
  ghost predicate Wins(source: Source, blake: Blob -> Hash, answers: Answers, sources: seq<Source>, hash: Hash) {
    && source in sources && Serves(blake, answers, source, hash)
    && forall s :: s in sources && Serves(blake, answers, s, hash) ==> !TriedBefore(s.tier, source.tier)
  }

  /** What the chain's answer does: the winning source is credited, and its bytes are in the cache from then on. */
  lemma ChainIsCredited(blake: Blob -> Hash, name: string, s: State, sources: seq<Source>, hash: Hash, answers: Answers,
                        ms: nat)
    ensures var o := FromChain(blake, name, s, sources, hash, answers, ms);
      if exists x :: x in sources && Serves(blake, answers, x, hash) then
        exists x :: && Wins(x, blake, answers, sources, hash)
                    && answers(x, hash).Some?
                    && var bytes := answers(x, hash).value;
                       o == Outcome(State(s.cache[hash := bytes], s.sources), Ok(bytes),
                                    FetchReport(name, hash, Some(x.tier), x.peerId, |bytes|, ms))
      else o == Outcome(s, FetchFailed(hash), FetchReport(name, hash, None, None, 0, ms))
  {
    ChainMeans(blake, answers, sources, hash);
    hide FirstHit, SortByTier;
    var hit := FirstHit(blake, answers, SortByTier(sources), hash);
    if hit.Some? {
      var x :| x in sources && Serves(blake, answers, x, hash) && Credits(hit.value, answers, x, hash);
      assert Wins(x, blake, answers, sources, hash);
    }
  }

  /** Once a fetch has succeeded, the next one is served from the cache, whatever the sources answer by then. */
  lemma FetchThenFetch(blake: Blob -> Hash, name: string, s: State, hash: Hash, answers: Answers, ms: nat,
                       later: Answers, laterMs: nat)
    ensures var o := Fetch(blake, name, s, hash, answers, ms);
      && (forall h :: h != hash ==> (h in o.after.cache <==> h in s.cache))
      && (forall h :: h in s.cache ==> h in o.after.cache && o.after.cache[h] == s.cache[h])
      && (o.result.FetchFailed? ==> o.after == s)
      && (o.result.Ok? ==>
           Fetch(blake, name, o.after, hash, later, laterMs)
           == Outcome(o.after, o.result,
                      FetchReport(name, hash, Some(Cache), None, |o.result.bytes|, laterMs)))
  {
    hide FirstHit, SortByTier;
  }

  /** Every cached blob hashes to its key. */
  ghost predicate Sound(blake: Blob -> Hash, cache: map<Hash, Blob>) {
    forall h :: h in cache ==> Verifies(blake, h, cache[h])
  }

  class AssetClass {
    const name: string
    const blake: Blob -> Hash
    var cache: map<Hash, Blob>
    var sources: seq<Source>
    /** What the observer has been called with so far. */
    var observed: seq<FetchReport>

    ghost function Snapshot(): State
      reads this
    {
      State(cache, sources)
    }

    constructor (name: string, blake: Blob -> Hash, cdn: Option<Source>)
      ensures this.name == name && this.blake == blake && cache == map[] && observed == []
      ensures sources == match cdn case Some(s) => [s] case None => []
      ensures Sound(blake, cache)
    {
      this.name, this.blake := name, blake;
      cache, observed := map[], [];
      sources := match cdn case Some(s) => [s] case None => [];
    }

    /** Registration is best effort: a source is dropped when the list is locked at that moment. */
    method AddSource(source: Source, contended: bool)
      modifies this`sources
      ensures sources == if contended then old(sources) else old(sources) + [source]
    {
      if !contended {
        sources := sources + [source];
      }
    }

    method Report(hash: Hash, tier: Option<FetchTier>, peerId: Option<string>, bytesServed: nat, ms: nat)
      returns (report: FetchReport)
      modifies this`observed
      ensures report == FetchReport(name, hash, tier, peerId, bytesServed, ms)
      ensures observed == old(observed) + [report]
    {
      report := FetchReport(name, hash, tier, peerId, bytesServed, ms);
      observed := observed + [report];
    }

    method FetchBytesReported(hash: Hash, answers: Answers, ms: nat) returns (result: FetchResult, report: FetchReport)
      requires Sound(blake, cache)
      modifies this`cache, this`observed
      ensures Outcome(Snapshot(), result, report) == Fetch(blake, name, old(Snapshot()), hash, answers, ms)
      ensures observed == old(observed) + [report]
      ensures Sound(blake, cache)
      ensures result.Ok? ==> Verifies(blake, hash, result.bytes)
    {
      if hash in cache {
        var bytes := cache[hash];
        report := Report(hash, Some(Cache), None, |bytes|, ms);
        return Ok(bytes), report;
      }
      var chain := new FetchChain(sources);
      var hit := chain.FetchWithProgress(blake, answers, hash);
      ChainMeans(blake, answers, sources, hash);
      match hit {
        case Some(h) =>
          cache := cache[hash := h.bytes];
          report := Report(hash, Some(h.tier), h.peerId, |h.bytes|, ms);
          result := Ok(h.bytes);
        case None =>
          report := Report(hash, None, None, 0, ms);
          result := FetchFailed(hash);
      }
    }
  }

  // ---------------------------------------------------------------- whole runs

  /** A fetch that has missed the cache, taken its copy of the source list and not come back yet. */
  datatype Pending = Pending(hash: Hash, sources: seq<Source>)

  /** Fetches overlap: `Finish(k)` ends the `k`-th fetch under way, whatever has happened since it began. */
  datatype Event =
    | AddSource(source: Source, contended: bool)
    | Begin(hash: Hash, beginMs: nat)
    | Finish(k: nat, answers: Answers, ms: nat)

  datatype Trace = Trace(
    state: State, pending: seq<Pending>, results: seq<(Hash, FetchResult)>, reports: seq<FetchReport>)
  {
    function Complete(hash: Hash, o: Outcome): Trace {
      this.(state := o.after, results := results + [(hash, o.result)], reports := reports + [o.report])
    }
  }

  function Next(blake: Blob -> Hash, name: string, t: Trace, e: Event): Trace {
    match e
    case AddSource(source, contended) =>
      if contended then t else t.(state := t.state.(sources := t.state.sources + [source]))
    case Begin(hash, ms) =>
      if hash in t.state.cache then t.Complete(hash, FromCache(name, t.state, hash, ms))
      else t.(pending := t.pending + [Pending(hash, t.state.sources)])
    case Finish(k, answers, ms) =>
      if k >= |t.pending| then t
      else
        var p := t.pending[k];
        t.(pending := t.pending[..k] + t.pending[k + 1..])
         .Complete(p.hash, FromChain(blake, name, t.state, p.sources, p.hash, answers, ms))
  }

  /** What `events` make of a trace in whatever state. */
  function Continue(blake: Blob -> Hash, name: string, t: Trace, events: seq<Event>): Trace {
    if events == [] then t
    else Next(blake, name, Continue(blake, name, t, events[..|events| - 1]), events[|events| - 1])
  }

  function Run(blake: Blob -> Hash, name: string, start: State, events: seq<Event>): Trace {
    Continue(blake, name, Trace(start, [], [], []), events)
  }

  /** An uninterrupted fetch is the beginning followed by the end. */
  lemma FetchIsBeginFinish(blake: Blob -> Hash, name: string, s: State, hash: Hash, answers: Answers, ms: nat)
    ensures var o := Fetch(blake, name, s, hash, answers, ms);
      Run(blake, name, s, [Begin(hash, ms), Finish(0, answers, ms)])
      == Trace(o.after, [], [(hash, o.result)], [o.report])
  {
    var e := [Begin(hash, ms), Finish(0, answers, ms)];
    assert e[..1] == [Begin(hash, ms)] && e[..1][..0] == [];
    var t := Trace(s, [], [], []);
    assert Continue(blake, name, t, e[..1]) == Next(blake, name, t, Begin(hash, ms));
  }

  /** The source list is copied when a fetch begins: what is registered later is kept, but not asked. */
  lemma LateSourceIsNotAsked(blake: Blob -> Hash, name: string, s: State, hash: Hash, late: Source, contended: bool,
                             answers: Answers, ms: nat)
    requires hash !in s.cache
    ensures var t := Run(blake, name, s, [Begin(hash, ms), AddSource(late, contended), Finish(0, answers, ms)]);
      var o := Fetch(blake, name, s, hash, answers, ms);
      && t.results == [(hash, o.result)] && t.reports == [o.report] && t.state.cache == o.after.cache
      && t.state.sources == if contended then s.sources else s.sources + [late]
  {
    hide FirstHit, SortByTier, Continue;
    var begin, add, finish := Begin(hash, ms), Event.AddSource(late, contended), Finish(0, answers, ms);
    var t := Trace(s, [], [], []);
    ContinueSnoc(blake, name, t, [], begin);
    ContinueSnoc(blake, name, t, [begin], add);
    ContinueSnoc(blake, name, t, [begin, add], finish);
    assert [] + [begin] == [begin] && [begin] + [add] == [begin, add];
    assert [begin, add] + [finish] == [begin, add, finish];
  }

  lemma ContinueSnoc(blake: Blob -> Hash, name: string, t: Trace, events: seq<Event>, e: Event)
    ensures Continue(blake, name, t, events + [e]) == Next(blake, name, Continue(blake, name, t, events), e)
    ensures Continue(blake, name, t, []) == t
  {
    hide Next;
  }

  /** The hashes for which fetches have begun, come back, and not come back. */
  function Begun(events: seq<Event>): multiset<Hash> {
    if events == [] then multiset{}
    else
      Begun(events[..|events| - 1])
      + if events[|events| - 1].Begin? then multiset{events[|events| - 1].hash} else multiset{}
  }

  function Answered(results: seq<(Hash, FetchResult)>): multiset<Hash> {
    if results == [] then multiset{}
    else Answered(results[..|results| - 1]) + multiset{results[|results| - 1].0}
  }

  function Outstanding(pending: seq<Pending>): multiset<Hash> {
    if pending == [] then multiset{}
    else Outstanding(pending[..|pending| - 1]) + multiset{pending[|pending| - 1].hash}
  }

  lemma AnsweredMore(results: seq<(Hash, FetchResult)>, hash: Hash, result: FetchResult)
    ensures Answered(results + [(hash, result)]) == Answered(results) + multiset{hash}
  {
  }

  lemma OutstandingMore(pending: seq<Pending>, p: Pending)
    ensures Outstanding(pending + [p]) == Outstanding(pending) + multiset{p.hash}
  {
  }

  lemma {:induction false} OutstandingWithout(pending: seq<Pending>, k: nat)
    requires k < |pending|
    ensures Outstanding(pending) == Outstanding(pending[..k] + pending[k + 1..]) + multiset{pending[k].hash}
    decreases |pending|
  {
    hide Outstanding;
    var init, last := pending[..|pending| - 1], pending[|pending| - 1];
    WithoutOne(pending, k);
    OutstandingMore(init, last);
    if k < |init| {
      OutstandingWithout(init, k);
      OutstandingMore(init[..k] + init[k + 1..], last);
    }
  }

  lemma WithoutOne(pending: seq<Pending>, k: nat)
    requires k < |pending|
    ensures var n := |pending| - 1; var init := pending[..n];
      && pending == init + [pending[n]]
      && pending[..k] + pending[k + 1..]
         == if k < n then (init[..k] + init[k + 1..]) + [pending[n]] else init
  {
  }

  /** The credit of a report goes to the cache, to a registered source, or to nobody. */
  ghost predicate CreditFits(report: FetchReport, sources: seq<Source>) {
    match report.tier
    case None => report.peerId == None
    case Some(tier) =>
      || (tier == Cache && report.peerId == None)
      || exists s :: s in sources && s.tier == tier && s.peerId == report.peerId
  }

  predicate ReportFits(name: string, hash: Hash, result: FetchResult, report: FetchReport) {
    && report.className == name && report.hash == hash
    && (report.tier.None? <==> result.FetchFailed?)
    && report.bytesServed == (match result case Ok(bytes) => |bytes| case FetchFailed(_) => 0)
  }

  ghost predicate SoundTrace(blake: Blob -> Hash, name: string, t: Trace) {
    && Sound(blake, t.state.cache)
    && |t.results| == |t.reports|
    && (forall k :: 0 <= k < |t.pending| ==> t.pending[k].sources <= t.state.sources)
    && (forall i :: 0 <= i < |t.results| ==>
         && ReportFits(name, t.results[i].0, t.results[i].1, t.reports[i])
         && CreditFits(t.reports[i], t.state.sources)
         && (t.results[i].1.Ok? ==> Verifies(blake, t.results[i].0, t.results[i].1.bytes)))
  }

  lemma NextIsSound(blake: Blob -> Hash, name: string, t: Trace, e: Event)
    requires SoundTrace(blake, name, t)
    ensures SoundTrace(blake, name, Next(blake, name, t, e))
  {
    hide FirstHit, SortByTier;
    if e.Finish? && e.k < |t.pending| {
      ChainMeans(blake, e.answers, t.pending[e.k].sources, t.pending[e.k].hash);
    }
  }

  lemma NextConserves(blake: Blob -> Hash, name: string, t: Trace, e: Event)
    ensures var u := Next(blake, name, t, e);
      Answered(u.results) + Outstanding(u.pending)
      == Answered(t.results) + Outstanding(t.pending) + if e.Begin? then multiset{e.hash} else multiset{}
  {
    hide FirstHit, SortByTier, Answered, Outstanding;
    match e
    case Begin(hash, ms) =>
      if hash in t.state.cache {
        AnsweredMore(t.results, hash, FromCache(name, t.state, hash, ms).result);
      } else {
        OutstandingMore(t.pending, Pending(hash, t.state.sources));
      }
    case Finish(k, answers, ms) =>
      if k < |t.pending| {
        var p := t.pending[k];
        OutstandingWithout(t.pending, k);
        AnsweredMore(t.results, p.hash, FromChain(blake, name, t.state, p.sources, p.hash, answers, ms).result);
      }
    case _ =>
  }

  /**
    Over any run, however fetches overlap, with sources that come late and change their answers: the unverified memory
    read is always right, every result is verified bytes or a failure, and each fetch that has begun is under way or has
    come back with exactly one report, which has no tier exactly when the fetch failed and else credits the cache or a
    registered source.
   */
  lemma {:induction false} RunIsSound(blake: Blob -> Hash, name: string, start: State, events: seq<Event>)
    requires Sound(blake, start.cache)
    ensures var t := Run(blake, name, start, events);
      && SoundTrace(blake, name, t)
      && Answered(t.results) + Outstanding(t.pending) == Begun(events)
  {
    if events != [] {
      var init, e := events[..|events| - 1], events[|events| - 1];
      RunIsSound(blake, name, start, init);
      hide SoundTrace, Next, Answered, Outstanding;
      NextConserves(blake, name, Run(blake, name, start, init), e);
      NextIsSound(blake, name, Run(blake, name, start, init), e);
    }
  }

  /** `hash` is in the cache, and nobody is still out fetching it. */
  ghost predicate Settled(t: Trace, hash: Hash) {
    && hash in t.state.cache && |t.results| == |t.reports|
    && (forall k :: 0 <= k < |t.pending| ==> t.pending[k].hash != hash)
  }

  /** `later` follows on `t`, and every fetch of `hash` that ended in between had `bytes` from the cache. */
  ghost predicate ServedSince(t: Trace, later: Trace, hash: Hash, bytes: Blob) {
    && t.results <= later.results && t.reports <= later.reports
    && (forall i :: |t.results| <= i < |later.results| && i < |later.reports| && later.results[i].0 == hash ==>
         later.results[i].1 == Ok(bytes) && later.reports[i].tier == Some(Cache))
  }

  /**
    From any moment at which a blob is cached and no fetch of it is under way, it is served from the cache for good: no
    source is asked for it again and its bytes never change. A fetch still under way may overwrite it.
   */
  lemma {:induction false} CacheIsPermanent(blake: Blob -> Hash, name: string, t: Trace, events: seq<Event>, hash: Hash)
    requires Settled(t, hash)
    ensures var later := Continue(blake, name, t, events);
      && Settled(later, hash) && later.state.cache[hash] == t.state.cache[hash]
      && ServedSince(t, later, hash, t.state.cache[hash])
  {
    if events != [] {
      var init, e := events[..|events| - 1], events[|events| - 1];
      CacheIsPermanent(blake, name, t, init, hash);
      NextKeepsSettled(blake, name, t, Continue(blake, name, t, init), e, hash);
    }
  }

  lemma NextKeepsSettled(blake: Blob -> Hash, name: string, t: Trace, u: Trace, e: Event, hash: Hash)
    requires Settled(t, hash) && Settled(u, hash)
    requires u.state.cache[hash] == t.state.cache[hash] && ServedSince(t, u, hash, t.state.cache[hash])
    ensures var v := Next(blake, name, u, e);
      && Settled(v, hash) && v.state.cache[hash] == t.state.cache[hash]
      && ServedSince(t, v, hash, t.state.cache[hash])
  {
  }
}

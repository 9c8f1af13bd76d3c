/** The five-tier source chain: stable tier order, first verified answer wins. */
module FetchChain {
  import opened Wrappers
  import opened Blake
  import opened StableSort

  datatype FetchTier = Cache | Lan | Swarm | Seed | Cdn
  {
    function Rank(): nat {
      match this case Cache => 0 case Lan => 1 case Swarm => 2 case Seed => 3 case Cdn => 4
    }

    function Label(): string {
      match this
      case Cache => "cache"
      case Lan => "lan"
      case Swarm => "swarm"
      case Seed => "seed"
      case Cdn => "cdn"
    }
  }

  /** The order of preference: the cache, peers near and far, pinned seeds, and the network that costs money last. */
  predicate TriedBefore(a: FetchTier, b: FetchTier) {
    match a
    case Cache => b != Cache
    case Lan => b == Swarm || b == Seed || b == Cdn
    case Swarm => b == Seed || b == Cdn
    case Seed => b == Cdn
    case Cdn => false
  }

  lemma RankIsOrder(a: FetchTier, b: FetchTier)
    ensures a.Rank() < b.Rank() <==> TriedBefore(a, b)
    ensures a == b || TriedBefore(a, b) || TriedBefore(b, a)
  {
  }

  datatype Source = Source(id: nat, tier: FetchTier, peerId: Option<string>)

  datatype ChainHit = ChainHit(tier: FetchTier, peerId: Option<string>, bytes: Blob)

  /** What each source would answer to each request while one fetch runs; it may change from fetch to fetch. */
  type Answers = (Source, Hash) -> Option<Blob>

  // ---------------------------------------------------------------- tier order

  function TierOf(source: Source): int {
    source.tier.Rank()
  }

  /** The stable sort of `s` by tier. */
  function SortByTier(s: seq<Source>): seq<Source> {
    SortBy(s, TierOf)
  }

  predicate TierSorted(s: seq<Source>) {
    Ascending(s, TierOf)
  }

  /** In tier order: nothing comes behind what should be tried after it. */
  lemma TierSortedIff(s: seq<Source>)
    ensures TierSorted(s) <==> forall i, j :: 0 <= i < j < |s| ==> !TriedBefore(s[j].tier, s[i].tier)
  {
    hide FetchTier.Rank, TriedBefore;
    forall i, j | 0 <= i < j < |s|
      ensures TierOf(s[i]) <= TierOf(s[j]) <==> !TriedBefore(s[j].tier, s[i].tier)
    {
      RankIsOrder(s[j].tier, s[i].tier);
    }
  }

  function OfTier(s: seq<Source>, tier: FetchTier): seq<Source> {
    WithKey(s, TierOf, tier.Rank())
  }

  /** The sort orders by tier, loses and invents nothing, and keeps insertion order inside each tier. */
  lemma SortIsStableSort(s: seq<Source>, tier: FetchTier)
    ensures TierSorted(SortByTier(s))
    ensures multiset(SortByTier(s)) == multiset(s)
    ensures OfTier(SortByTier(s), tier) == OfTier(s, tier)
  {
    SortIsStable(s, TierOf, tier.Rank());
  }

  // ---------------------------------------------------------------- the walk

  predicate Serves(blake: Blob -> Hash, answers: Answers, source: Source, hash: Hash) {
    match answers(source, hash)
    case None => false
    case Some(bytes) => Verifies(blake, hash, bytes)
  }

  function HitOf(answers: Answers, source: Source, hash: Hash): ChainHit
    requires answers(source, hash).Some?
  {
    ChainHit(source.tier, source.peerId, answers(source, hash).value)
  }

  function FirstHit(blake: Blob -> Hash, answers: Answers, chain: seq<Source>, hash: Hash): Option<ChainHit> {
    if chain == [] then None
    else if Serves(blake, answers, chain[0], hash) then Some(HitOf(answers, chain[0], hash))
    else FirstHit(blake, answers, chain[1..], hash)
  }

  class FetchChain {
    var sources: seq<Source>

    constructor (sources: seq<Source>)
      ensures this.sources == SortByTier(sources)
    {
      this.sources := SortByTier(sources);
    }

    method FetchWithProgress(blake: Blob -> Hash, answers: Answers, hash: Hash) returns (hit: Option<ChainHit>)
      ensures hit == FirstHit(blake, answers, sources, hash)
    {
      for i := 0 to |sources|
        invariant FirstHit(blake, answers, sources, hash) == FirstHit(blake, answers, sources[i..], hash)
      {
        var source := sources[i];
        assert sources[i..][1..] == sources[i + 1..];
        var answer := answers(source, hash);
        if answer.None? {
          continue;
        }
        if blake(answer.value) == hash {
          return Some(ChainHit(source.tier, source.peerId, answer.value));
        }
      }
      return None;
    }
  }

  /** The tier, the peer and the bytes of a hit are those of this source. */
  predicate Credits(hit: ChainHit, answers: Answers, source: Source, hash: Hash) {
    hit.tier == source.tier && hit.peerId == source.peerId && answers(source, hash) == Some(hit.bytes)
  }

  /** What the walk finds: a verified answer of the lowest tier that has one, or proof that nobody has one. */
  lemma {:induction false} FirstHitMeans(blake: Blob -> Hash, answers: Answers, chain: seq<Source>, hash: Hash)
    requires TierSorted(chain)
    ensures var hit := FirstHit(blake, answers, chain, hash);
      && (hit.None? <==> forall s :: s in chain ==> !Serves(blake, answers, s, hash))
      && (hit.Some? ==>
           && Verifies(blake, hash, hit.value.bytes)
           && (exists s :: s in chain && Serves(blake, answers, s, hash) && Credits(hit.value, answers, s, hash))
           && (forall s :: s in chain && Serves(blake, answers, s, hash) ==> !TriedBefore(s.tier, hit.value.tier)))
  {
    if chain != [] {
      assert chain == [chain[0]] + chain[1..];
      if Serves(blake, answers, chain[0], hash) {
        assert FirstHit(blake, answers, chain, hash) == Some(HitOf(answers, chain[0], hash));
      } else {
        FirstHitMeans(blake, answers, chain[1..], hash);
      }
    }
  }

  /** The same for a chain as it is built: in terms of the sources as they were inserted. */
  lemma ChainMeans(blake: Blob -> Hash, answers: Answers, sources: seq<Source>, hash: Hash)
    ensures var hit := FirstHit(blake, answers, SortByTier(sources), hash);
      && (hit.None? <==> forall s :: s in sources ==> !Serves(blake, answers, s, hash))
      && (hit.Some? ==>
           && Verifies(blake, hash, hit.value.bytes)
           && (exists s :: s in sources && Serves(blake, answers, s, hash) && Credits(hit.value, answers, s, hash))
           && (forall s :: s in sources && Serves(blake, answers, s, hash) ==> !TriedBefore(s.tier, hit.value.tier)))
  {
    var chain := SortByTier(sources);
    SortIsStableSort(sources, Cache);
    FirstHitMeans(blake, answers, chain, hash);
    assert forall s :: s in chain <==> s in multiset(chain);
    assert forall s :: s in sources <==> s in multiset(sources);
  }

  /** Tier by tier: the CDN pays only when nobody else has the blob, and so on up the list. */
  lemma TiersInOrder(blake: Blob -> Hash, answers: Answers, sources: seq<Source>, hash: Hash, s: Source)
    requires s in sources && Serves(blake, answers, s, hash)
    ensures var hit := FirstHit(blake, answers, SortByTier(sources), hash);
      && hit.Some?
      && (hit.value.tier == Cdn ==> s.tier == Cdn)
      && (hit.value.tier == Seed ==> s.tier == Seed || s.tier == Cdn)
      && (hit.value.tier == Swarm ==> s.tier != Cache && s.tier != Lan)
      && (hit.value.tier == Lan ==> s.tier != Cache)
  {
    ChainMeans(blake, answers, sources, hash);
  }

  lemma {:induction false} FirstHitOfTier(blake: Blob -> Hash, answers: Answers, chain: seq<Source>, hash: Hash)
    requires FirstHit(blake, answers, chain, hash).Some?
    ensures var hit := FirstHit(blake, answers, chain, hash);
      hit == FirstHit(blake, answers, OfTier(chain, hit.value.tier), hash)
  {
    if !Serves(blake, answers, chain[0], hash) {
      FirstHitOfTier(blake, answers, chain[1..], hash);
      var tier := FirstHit(blake, answers, chain, hash).value.tier;
      if chain[0].tier == tier {
        assert OfTier(chain, tier)[1..] == OfTier(chain[1..], tier);
      } else {
        assert OfTier(chain, tier) == OfTier(chain[1..], tier);
      }
    }
  }

  /** Inside the winning tier the credit goes to the source that was registered first. */
  lemma FirstRegisteredWins(blake: Blob -> Hash, answers: Answers, sources: seq<Source>, hash: Hash)
    requires FirstHit(blake, answers, SortByTier(sources), hash).Some?
    ensures var hit := FirstHit(blake, answers, SortByTier(sources), hash);
      hit == FirstHit(blake, answers, OfTier(sources, hit.value.tier), hash)
  {
    var chain := SortByTier(sources);
    FirstHitOfTier(blake, answers, chain, hash);
    SortIsStableSort(sources, FirstHit(blake, answers, chain, hash).value.tier);
  }

  /** Among the verified answers to this request there is only one byte string. */
  ghost predicate NoCollision(blake: Blob -> Hash, answers: Answers, sources: seq<Source>, hash: Hash) {
    forall s, t :: s in sources && t in sources && Serves(blake, answers, s, hash) && Serves(blake, answers, t, hash)
      ==> answers(s, hash) == answers(t, hash)
  }

  /**
    Registering the same sources in another order changes neither whether the blob is found, nor the tier that is
    credited, nor - unless two verified answers collide - the bytes.
   */
  lemma InsertionOrderIsIrrelevant(blake: Blob -> Hash, answers: Answers, s: seq<Source>, t: seq<Source>, hash: Hash)
    requires multiset(s) == multiset(t)
    ensures var a, b := FirstHit(blake, answers, SortByTier(s), hash), FirstHit(blake, answers, SortByTier(t), hash);
      && (a.Some? <==> b.Some?)
      && (a.Some? ==> a.value.tier == b.value.tier)
      && (a.Some? && NoCollision(blake, answers, s, hash) ==> a.value.bytes == b.value.bytes)
  {
    ChainMeans(blake, answers, s, hash);
    ChainMeans(blake, answers, t, hash);
    assert forall x :: x in s <==> x in multiset(s);
    assert forall x :: x in t <==> x in multiset(t);
  }
}

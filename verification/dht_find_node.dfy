/** The node lookup that callers use, and what it promises them. */
module DhtFindNode {
  import opened Counting
  import opened DhtIds
  import opened DhtTable
  import opened DhtOrder
  import opened DhtRouting
  import opened DhtLookup
  import opened DhtSearch

  datatype LookupResult = Found(peers: seq<Peer>) | NoClosePeers | Cancelled

  /** The queries are those of at most `maxRounds` rounds, each of which asks, of the max(4k, 2 alpha) nearest of
      all that has been learnt, the first `alpha` not asked before. */
  ghost predicate AskedInRounds(target: NodeID, start: seq<Peer>, ask: Requester, k: nat, alpha: nat, maxRounds: nat,
                                trace: seq<Peer>) {
    exists rounds :: Scheduled(Params(DistanceTo(target), ask, Max(4 * k, 2 * alpha), alpha), start, rounds, maxRounds)
                     && trace == Flatten(rounds)
  }

  /** `peers` are the `k` nearest of all that a lookup with these queries has learnt, the queries were made in
      rounds, no identifier was queried twice, and with nobody left to ask every one of the peers was queried. */
  ghost predicate LookupDone(target: NodeID, known: seq<Peer>, ask: Requester, k: nat, alpha: nat, maxRounds: nat,
                             peers: seq<Peer>, trace: seq<Peer>) {
    && IsNearest(DistanceTo(target), AskAll(ask, Closest(target, known, k), trace), k, peers)
    && AskedInRounds(target, Closest(target, known, k), ask, k, alpha, maxRounds, trace)
    && DistinctIds(trace)
    && (Batch(LookupParams(target, ask, k, alpha), Lookup(target, known, ask, k, alpha, maxRounds)) == [] ==>
          forall p :: p in peers ==> p.id in Ids(trace))
  }

  lemma LookupKeepsItsPromise(target: NodeID, known: seq<Peer>, ask: Requester, k: nat, alpha: nat, maxRounds: nat)
    requires DistinctIds(known) && k >= 1 && alpha >= 1
    ensures var s := Lookup(target, known, ask, k, alpha, maxRounds);
            LookupDone(target, known, ask, k, alpha, maxRounds, Trim(s.shortlist, k), s.trace)
  {
    var c, start := LookupParams(target, ask, k, alpha), Closest(target, known, k);
    DistanceToInjective(target);
    TrimmedSortIsNearest(c.dist, known, k);
    LookupReturnsNearest(c, start, k, maxRounds);
    var rounds := LookupSchedule(c, start, maxRounds);
    assert c == Params(DistanceTo(target), ask, Max(4 * k, 2 * alpha), alpha);
    LookupDiscipline(c, start, maxRounds);
  }

  method IterativeFindNode(rt: RoutingTable, ask: Requester, target: NodeID, optK: int, optAlpha: int, optRounds: int,
                           cancelled: nat -> bool)
    returns (r: LookupResult, trace: seq<Peer>)
    requires rt.Valid()
    ensures var k, alpha, n := DefaultTo(optK, 20), DefaultTo(optAlpha, 3), DefaultTo(optRounds, ID_BITS);
            var known := Flatten(rt.Lists());
            && (r.NoClosePeers? <==> known == [])
            && (r.Found? ==> var s := Lookup(target, known, ask, k, alpha, n);
                             r.peers == Trim(s.shortlist, k) && trace == s.trace)
            && (r.Found? ==> LookupDone(target, known, ask, k, alpha, n, r.peers, trace))
            && (r.Cancelled? ==> exists i :: 0 <= i < n && cancelled(i))
            && ((forall i :: 0 <= i < n ==> !cancelled(i)) ==> !r.Cancelled?)
  {
    var k, alpha, maxRounds := DefaultTo(optK, 20), DefaultTo(optAlpha, 3), DefaultTo(optRounds, ID_BITS);
    r, trace := FindNode(rt, ask, target, k, alpha, maxRounds, cancelled);
    FlattenDistinct(rt.local, rt.bucketSize, rt.Lists());
    LookupKeepsItsPromise(target, Flatten(rt.Lists()), ask, k, alpha, maxRounds);
  }

  method FindNode(rt: RoutingTable, ask: Requester, target: NodeID, k: nat, alpha: nat, maxRounds: nat,
                  cancelled: nat -> bool)
    returns (r: LookupResult, trace: seq<Peer>)
    requires rt.Valid() && k >= 1 && alpha >= 1
    ensures r.NoClosePeers? <==> Flatten(rt.Lists()) == []
    ensures r.Found? ==> var s := Lookup(target, Flatten(rt.Lists()), ask, k, alpha, maxRounds);
                         r.peers == Trim(s.shortlist, k) && trace == s.trace
    ensures r.Cancelled? ==> exists i :: 0 <= i < maxRounds && cancelled(i)
    ensures (forall i :: 0 <= i < maxRounds ==> !cancelled(i)) ==> !r.Cancelled?
  {
    var shortlist := rt.GetClosestPeers(target, k);
    if |shortlist| == 0 {
      return NoClosePeers, [];
    }
    DistanceToInjective(target);
    var c := LookupParams(target, ask, k, alpha);
    var sorted := Resort(c.dist, shortlist);
    r, trace := FindNodeFrom(c, sorted, k, maxRounds, cancelled);
  }

  method FindNodeFrom(c: Params, start: seq<Peer>, k: nat, maxRounds: nat, cancelled: nat -> bool)
    returns (r: LookupResult, trace: seq<Peer>)
    requires Injective(c.dist) && Ordered(c.dist, start) && c.alpha >= 1
    ensures !r.NoClosePeers?
    ensures r.Found? ==> var s := Rounds(c, Start(start), maxRounds);
                         r.peers == Trim(s.shortlist, k) && trace == s.trace
    ensures r.Cancelled? ==> exists i :: 0 <= i < maxRounds && cancelled(i)
    ensures (forall i :: 0 <= i < maxRounds ==> !cancelled(i)) ==> !r.Cancelled?
  {
    var s, ok := SearchLoop(c, start, maxRounds, cancelled);
    if !ok {
      return Cancelled, s.trace;
    }
    return Found(Trim(s.shortlist, k)), s.trace;
  }
}

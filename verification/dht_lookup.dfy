/** The iterative lookup: a shortlist, ordered by distance and cut to a limit after every round, and
    the peers queried so far. */
module DhtLookup {
  import opened Wrappers
  import opened DhtIds
  import opened DhtTable
  import opened DhtOrder
  import opened DhtRouting

  /** The FIND_NODE call to a peer, for the lookup's target; `None` is an error. */
  type Requester = Peer -> Option<seq<Peer>>

  // ---------------------------------------------------------------- options

  function DefaultTo(value: int, default: nat): (r: nat)
    requires default >= 1
    ensures r >= 1 && (value > 0 ==> r == value) && (value <= 0 ==> r == default)
  {
    if value <= 0 then default else value
  }

  function CandidateLimit(k: nat, alpha: nat): (limit: nat)
    ensures limit >= k && limit >= 4 * k && limit >= 2 * alpha && (limit == 4 * k || limit == 2 * alpha)
  {
    var limit := if k * 4 < alpha * 2 then alpha * 2 else k * 4;
    if limit < k then k else limit
  }

  // ---------------------------------------------------------------- merging

  /** The list with the record of `p.id` replaced by `p`, or with `p` added. */
  function Upsert(peers: seq<Peer>, p: Peer): seq<Peer> {
    var i := Find(peers, p.id, 0);
    if i < |peers| then peers[i := p] else peers + [p]
  }

  /** `existing` updated by each answer in turn; peers with the zero identifier are ignored. */
  function Merge(existing: seq<Peer>, incoming: seq<Peer>): seq<Peer> {
    if |incoming| == 0 then existing
    else
      var n := |incoming| - 1;
      var m := Merge(existing, incoming[..n]);
      if incoming[n].id == ZERO then m else Upsert(m, incoming[n])
  }

  lemma UpsertDistinct(peers: seq<Peer>, p: Peer)
    requires DistinctIds(peers)
    ensures DistinctIds(Upsert(peers, p))
  {
  }

  lemma UpsertMember(peers: seq<Peer>, p: Peer, x: Peer)
    requires DistinctIds(peers)
    ensures x in Upsert(peers, p) <==> x == p || (x in peers && x.id != p.id)
  {
    var i, r := Find(peers, p.id, 0), Upsert(peers, p);
    if x in peers && x.id != p.id {
      var j :| 0 <= j < |peers| && peers[j] == x;
      assert r[j] == x;
    }
    assert i < |peers| ==> r[i] == p;
    assert i == |peers| ==> r[|peers|] == p;
  }

  lemma UpsertHasId(peers: seq<Peer>, p: Peer, id: NodeID)
    ensures HasId(Upsert(peers, p), id) <==> id == p.id || HasId(peers, id)
  {
    var i, r := Find(peers, p.id, 0), Upsert(peers, p);
    if HasId(peers, id) {
      var j :| 0 <= j < |peers| && peers[j].id == id;
      assert r[j].id == id;
    }
    assert i < |peers| ==> r[i].id == p.id;
    assert i == |peers| ==> r[|peers|].id == p.id;
  }

  lemma MergeDistinct(existing: seq<Peer>, incoming: seq<Peer>)
    requires DistinctIds(existing)
    ensures DistinctIds(Merge(existing, incoming))
  {
    if |incoming| > 0 {
      var n := |incoming| - 1;
      MergeDistinct(existing, incoming[..n]);
      UpsertDistinct(Merge(existing, incoming[..n]), incoming[n]);
    }
  }

  /** `p` is the last record of its identifier in the list. */
  ghost predicate IsLatest(peers: seq<Peer>, p: Peer) {
    exists i :: 0 <= i < |peers| && peers[i] == p && forall j :: i < j < |peers| ==> peers[j].id != p.id
  }

  /** What a merge holds: of the identifiers in the answer the answer's last record, of all others, the zero
      identifier among them, what was there before. */
  ghost predicate Merged(existing: seq<Peer>, incoming: seq<Peer>, p: Peer) {
    if p.id != ZERO && HasId(incoming, p.id) then IsLatest(incoming, p) else p in existing
  }

  lemma LatestOfSnoc(incoming: seq<Peer>, last: Peer, p: Peer)
    ensures IsLatest(incoming + [last], p) <==> p == last || (p.id != last.id && IsLatest(incoming, p))
  {
    var all := incoming + [last];
    if p == last {
      assert all[|incoming|] == p;
    } else if p.id != last.id && IsLatest(incoming, p) {
      var i :| 0 <= i < |incoming| && incoming[i] == p && forall j :: i < j < |incoming| ==> incoming[j].id != p.id;
      assert all[i] == p;
    } else if IsLatest(all, p) {
      var i :| 0 <= i < |all| && all[i] == p && forall j :: i < j < |all| ==> all[j].id != p.id;
      assert all[|incoming|] == last;
      assert incoming[i] == p;
      forall j | i < j < |incoming| ensures incoming[j].id != p.id {
        assert all[j] == incoming[j];
      }
    }
  }

  lemma {:induction false} MergeLaw(existing: seq<Peer>, incoming: seq<Peer>, p: Peer)
    requires DistinctIds(existing)
    ensures p in Merge(existing, incoming) <==> Merged(existing, incoming, p)
  {
    if |incoming| > 0 {
      var n := |incoming| - 1;
      var before, last := incoming[..n], incoming[n];
      assert incoming == before + [last];
      MergeLaw(existing, before, p);
      MergeDistinct(existing, before);
      UpsertMember(Merge(existing, before), last, p);
      LatestOfSnoc(before, last, p);
      HasIdOfSnoc(before, last, p.id);
    }
  }

  /** `seen` holds exactly the records of `peers`, by identifier. */
  ghost predicate Indexes(seen: map<NodeID, Peer>, peers: seq<Peer>) {
    forall p :: p in peers <==> p.id in seen && seen[p.id] == p
  }

  lemma IndexUpsert(seen: map<NodeID, Peer>, peers: seq<Peer>, p: Peer)
    requires DistinctIds(peers) && Indexes(seen, peers)
    ensures Indexes(seen[p.id := p], Upsert(peers, p))
  {
    forall x ensures x in Upsert(peers, p) <==> x.id in seen[p.id := p] && seen[p.id := p][x.id] == x {
      UpsertMember(peers, p, x);
    }
  }

  /** The source's merge: through a map, read back in an arbitrary order. */
  method MergePeers(existing: seq<Peer>, incoming: seq<Peer>) returns (merged: seq<Peer>)
    requires DistinctIds(existing)
    ensures DistinctIds(merged) && SameMembers(merged, Merge(existing, incoming))
    ensures forall p :: p in merged <==> Merged(existing, incoming, p)
  {
    forall p ensures p in Merge(existing, incoming) <==> Merged(existing, incoming, p) {
      MergeLaw(existing, incoming, p);
    }
    if |incoming| == 0 {
      return existing;
    }
    var seen: map<NodeID, Peer> := IndexOf(existing);
    for i := 0 to |incoming|
      invariant Indexes(seen, Merge(existing, incoming[..i]))
      invariant forall id :: id in seen ==> seen[id].id == id
    {
      MergeDistinct(existing, incoming[..i]);
      assert incoming[..i + 1][..i] == incoming[..i];
      if incoming[i].id != ZERO {
        IndexUpsert(seen, Merge(existing, incoming[..i]), incoming[i]);
        seen := seen[incoming[i].id := incoming[i]];
      }
    }
    assert incoming[..|incoming|] == incoming;
    merged := Values(seen);
    forall p ensures p in merged <==> p in Merge(existing, incoming) {
    }
  }

  method IndexOf(existing: seq<Peer>) returns (seen: map<NodeID, Peer>)
    requires DistinctIds(existing)
    ensures Indexes(seen, existing) && forall id :: id in seen ==> seen[id].id == id
  {
    seen := map[];
    for i := 0 to |existing|
      invariant Indexes(seen, existing[..i])
      invariant forall id :: id in seen ==> seen[id].id == id
    {
      assert existing[..i + 1] == existing[..i] + [existing[i]];
      assert Upsert(existing[..i], existing[i]) == existing[..i] + [existing[i]];
      IndexUpsert(seen, existing[..i], existing[i]);
      seen := seen[existing[i].id := existing[i]];
    }
    assert existing[..|existing|] == existing;
  }

  /** The records of the map, in any order. */
  method Values(seen: map<NodeID, Peer>) returns (peers: seq<Peer>)
    requires forall id :: id in seen ==> seen[id].id == id
    ensures DistinctIds(peers)
    ensures forall p :: p in peers <==> p.id in seen && seen[p.id] == p
  {
    peers := [];
    var rest := seen.Keys;
    while rest != {}
      invariant rest <= seen.Keys && DistinctIds(peers)
      invariant forall p :: p in peers <==> p.id in seen && p.id !in rest && seen[p.id] == p
      decreases rest
    {
      var id :| id in rest;
      rest := rest - {id};
      peers := peers + [seen[id]];
    }
  }

  // ---------------------------------------------------------------- one round

  /** The first `alpha` peers of the shortlist that have not been queried. */
  function Unqueried(shortlist: seq<Peer>, queried: set<NodeID>, alpha: nat): (batch: seq<Peer>)
    ensures |batch| <= alpha
  {
    if alpha == 0 || |shortlist| == 0 then []
    else if shortlist[0].id in queried then Unqueried(shortlist[1..], queried, alpha)
    else [shortlist[0]] + Unqueried(shortlist[1..], queried, alpha - 1)
  }

  /** The peers that have not been queried, in order. */
  function NotIn(peers: seq<Peer>, queried: set<NodeID>): seq<Peer> {
    if |peers| == 0 then []
    else
      var n := |peers| - 1;
      NotIn(peers[..n], queried) + if peers[n].id in queried then [] else [peers[n]]
  }

  lemma {:induction false} NotInMember(peers: seq<Peer>, queried: set<NodeID>, p: Peer)
    ensures p in NotIn(peers, queried) <==> p in peers && p.id !in queried
  {
    if |peers| > 0 {
      var n := |peers| - 1;
      NotInMember(peers[..n], queried, p);
      assert peers == peers[..n] + [peers[n]];
    }
  }

  /** `batch` is everyone in the first `m` of the shortlist that has not been queried; these are the whole
      shortlist unless the batch is full. */
  ghost predicate Fills(shortlist: seq<Peer>, queried: set<NodeID>, alpha: nat, batch: seq<Peer>, m: nat) {
    && m <= |shortlist| && batch == NotIn(shortlist[..m], queried)
    && |batch| <= alpha && (m == |shortlist| || |batch| == alpha)
  }

  ghost predicate IsNextBatch(shortlist: seq<Peer>, queried: set<NodeID>, alpha: nat, batch: seq<Peer>) {
    exists m :: Fills(shortlist, queried, alpha, batch, m)
  }

  /** In other words: the batch has only peers that have not been queried, and leaves one out only if it is full
      and everyone in it comes first. */
  lemma NextBatchLaw(shortlist: seq<Peer>, queried: set<NodeID>, alpha: nat, batch: seq<Peer>, i: nat)
    requires IsNextBatch(shortlist, queried, alpha, batch) && i < |shortlist|
    ensures shortlist[i] in batch ==> shortlist[i].id !in queried
    ensures shortlist[i].id !in queried && shortlist[i] !in batch ==>
              |batch| == alpha && forall p :: p in batch ==> p in shortlist[..i]
  {
    var m: nat :| Fills(shortlist, queried, alpha, batch, m);
    NotInMember(shortlist[..m], queried, shortlist[i]);
    assert i < m ==> shortlist[..m][i] == shortlist[i];
    if shortlist[i].id !in queried && shortlist[i] !in batch {
      forall p | p in batch ensures p in shortlist[..i] {
        NotInMember(shortlist[..m], queried, p);
        var j :| 0 <= j < m && shortlist[..m][j] == p;
        assert shortlist[..i][j] == p;
      }
    }
  }

  lemma {:induction false} NotInCons(p: Peer, rest: seq<Peer>, queried: set<NodeID>)
    ensures NotIn([p] + rest, queried) == (if p.id in queried then [] else [p]) + NotIn(rest, queried)
  {
    var all := [p] + rest;
    if |rest| == 0 {
      assert all[..0] == [] && all == [p];
    } else {
      var n := |rest| - 1;
      NotInCons(p, rest[..n], queried);
      assert all[..|all| - 1] == [p] + rest[..n];
    }
  }

  lemma {:induction false} UnqueriedIsNext(shortlist: seq<Peer>, queried: set<NodeID>, alpha: nat)
    ensures IsNextBatch(shortlist, queried, alpha, Unqueried(shortlist, queried, alpha))
  {
    if alpha == 0 || |shortlist| == 0 {
      assert Fills(shortlist, queried, alpha, [], 0);
    } else {
      var first, rest := shortlist[0], shortlist[1..];
      var alpha' := if first.id in queried then alpha else alpha - 1;
      UnqueriedIsNext(rest, queried, alpha');
      var m: nat :| Fills(rest, queried, alpha', Unqueried(rest, queried, alpha'), m);
      NotInCons(first, rest[..m], queried);
      assert shortlist[..m + 1] == [first] + rest[..m];
      assert Fills(shortlist, queried, alpha, Unqueried(shortlist, queried, alpha), m + 1);
    }
  }

  method NextUnqueried(shortlist: seq<Peer>, queried: set<NodeID>, alpha: nat) returns (batch: seq<Peer>)
    requires alpha >= 1
    ensures batch == Unqueried(shortlist, queried, alpha)
    ensures IsNextBatch(shortlist, queried, alpha, batch)
  {
    batch := [];
    for i := 0 to |shortlist|
      invariant |batch| < alpha && batch == NotIn(shortlist[..i], queried)
      invariant Unqueried(shortlist, queried, alpha) == batch + Unqueried(shortlist[i..], queried, alpha - |batch|)
    {
      assert shortlist[i..][0] == shortlist[i] && shortlist[i..][1..] == shortlist[i + 1..];
      assert shortlist[..i + 1][..i] == shortlist[..i];
      if shortlist[i].id !in queried {
        batch := batch + [shortlist[i]];
        if |batch| >= alpha {
          assert Fills(shortlist, queried, alpha, batch, i + 1);
          return;
        }
      }
    }
    assert Fills(shortlist, queried, alpha, batch, |shortlist|);
  }

  /** The shortlist after each peer of the batch has been asked in turn. */
  function AskAll(ask: Requester, shortlist: seq<Peer>, batch: seq<Peer>): seq<Peer> {
    if |batch| == 0 then shortlist
    else
      var n := |batch| - 1;
      var m := AskAll(ask, shortlist, batch[..n]);
      match ask(batch[n])
      case None => m
      case Some(answer) => Merge(m, answer)
  }

  function Ids(peers: seq<Peer>): set<NodeID> {
    set i | 0 <= i < |peers| :: peers[i].id
  }

  /** A lookup in progress; `trace` lists the queries made, in order. */
  datatype Search = Search(shortlist: seq<Peer>, queried: set<NodeID>, trace: seq<Peer>)

  datatype Params = Params(dist: Metric, ask: Requester, limit: nat, alpha: nat)

  function Batch(c: Params, s: Search): seq<Peer> {
    Unqueried(s.shortlist, s.queried, c.alpha)
  }

  function Round(c: Params, s: Search): Search {
    var batch := Batch(c, s);
    Search(Trim(Sort(c.dist, AskAll(c.ask, s.shortlist, batch)), c.limit), s.queried + Ids(batch), s.trace + batch)
  }

  /** At most `n` rounds, stopping early when there is nobody left to ask. */
  function Rounds(c: Params, s: Search, n: nat): Search
    decreases n
  {
    if n == 0 || Batch(c, s) == [] then s else Rounds(c, Round(c, s), n - 1)
  }

  function Start(shortlist: seq<Peer>): Search {
    Search(shortlist, {}, [])
  }

  // ---------------------------------------------------------------- the loop

  ghost predicate SearchOk(c: Params, s: Search) {
    Ordered(c.dist, s.shortlist)
  }

  lemma AskAllDistinct(ask: Requester, shortlist: seq<Peer>, batch: seq<Peer>)
    requires DistinctIds(shortlist)
    ensures DistinctIds(AskAll(ask, shortlist, batch))
  {
    if |batch| > 0 {
      var n := |batch| - 1;
      AskAllDistinct(ask, shortlist, batch[..n]);
      match ask(batch[n])
      case None =>
      case Some(answer) => MergeDistinct(AskAll(ask, shortlist, batch[..n]), answer);
    }
  }

  lemma RoundKeepsOrder(c: Params, s: Search)
    requires Injective(c.dist) && SearchOk(c, s)
    ensures SearchOk(c, Round(c, s))
  {
    var asked := AskAll(c.ask, s.shortlist, Batch(c, s));
    OrderedIsDistinct(c.dist, s.shortlist);
    AskAllDistinct(c.ask, s.shortlist, Batch(c, s));
    SortedIsUnique(c.dist, asked, Sort(c.dist, asked));
  }

  /** Merging into lists with the same members gives lists with the same members. */
  lemma MergeSameMembers(a: seq<Peer>, b: seq<Peer>, incoming: seq<Peer>)
    requires DistinctIds(a) && DistinctIds(b) && SameMembers(a, b)
    ensures SameMembers(Merge(a, incoming), Merge(b, incoming))
  {
    if |incoming| > 0 {
      var n := |incoming| - 1;
      MergeSameMembers(a, b, incoming[..n]);
      MergeDistinct(a, incoming[..n]);
      MergeDistinct(b, incoming[..n]);
      forall x
        ensures x in Upsert(Merge(a, incoming[..n]), incoming[n]) <==> x in Upsert(Merge(b, incoming[..n]), incoming[n])
      {
        UpsertMember(Merge(a, incoming[..n]), incoming[n], x);
        UpsertMember(Merge(b, incoming[..n]), incoming[n], x);
      }
    }
  }

  /** Asks every peer of the batch; the answers land in the shortlist in no particular order. */
  method AskBatch(ask: Requester, start: seq<Peer>, batch: seq<Peer>) returns (shortlist: seq<Peer>)
    requires DistinctIds(start)
    ensures DistinctIds(shortlist) && SameMembers(shortlist, AskAll(ask, start, batch))
  {
    shortlist := start;
    for i := 0 to |batch|
      invariant DistinctIds(shortlist) && SameMembers(shortlist, AskAll(ask, start, batch[..i]))
    {
      assert batch[..i + 1][..i] == batch[..i];
      AskAllDistinct(ask, start, batch[..i]);
      var answer := ask(batch[i]);
      if answer.Some? {
        MergeSameMembers(shortlist, AskAll(ask, start, batch[..i]), answer.value);
        shortlist := MergePeers(shortlist, answer.value);
      }
    }
    assert batch[..|batch|] == batch;
  }

  /** The end of a round: the answers are sorted and cut. */
  method FinishRound(c: Params, s: Search, batch: seq<Peer>, asked: seq<Peer>) returns (s': Search)
    requires Injective(c.dist) && SearchOk(c, s) && batch == Batch(c, s)
    requires DistinctIds(asked) && SameMembers(asked, AskAll(c.ask, s.shortlist, batch))
    ensures s' == Round(c, s) && SearchOk(c, s')
  {
    OrderedIsDistinct(c.dist, s.shortlist);
    AskAllDistinct(c.ask, s.shortlist, batch);
    var sorted := SortByDistance(c.dist, asked);
    SortedIsUnique(c.dist, asked, sorted);
    SameMembersSortAlike(c.dist, asked, AskAll(c.ask, s.shortlist, batch));
    RoundKeepsOrder(c, s);
    s' := Search(Trim(sorted, c.limit), s.queried + Ids(batch), s.trace + batch);
  }

  method RunRound(c: Params, s: Search, batch: seq<Peer>) returns (s': Search)
    requires Injective(c.dist) && SearchOk(c, s) && batch == Batch(c, s)
    ensures s' == Round(c, s) && SearchOk(c, s')
  {
    OrderedIsDistinct(c.dist, s.shortlist);
    var asked := AskBatch(c.ask, s.shortlist, batch);
    s' := FinishRound(c, s, batch, asked);
  }

  /** The search loop. Whatever order the map and the sort leave equal elements in, the outcome is the
      one function `Rounds` of the inputs. */
  method SearchLoop(c: Params, start: seq<Peer>, maxRounds: nat, cancelled: nat -> bool)
    returns (s: Search, ok: bool)
    requires Injective(c.dist) && Ordered(c.dist, start) && c.alpha >= 1
    ensures ok ==> s == Rounds(c, Start(start), maxRounds)
    ensures !ok ==> exists i :: 0 <= i < maxRounds && cancelled(i)
    ensures (forall i :: 0 <= i < maxRounds ==> !cancelled(i)) ==> ok
  {
    s := Start(start);
    for round := 0 to maxRounds
      invariant SearchOk(c, s)
      invariant Rounds(c, Start(start), maxRounds) == Rounds(c, s, maxRounds - round)
    {
      if cancelled(round) {
        return s, false;
      }
      var batch := NextUnqueried(s.shortlist, s.queried, c.alpha);
      if |batch| == 0 {
        return s, true;
      }
      s := RunRound(c, s, batch);
    }
    return s, true;
  }

  function LookupParams(target: NodeID, ask: Requester, k: nat, alpha: nat): Params {
    Params(DistanceTo(target), ask, CandidateLimit(k, alpha), alpha)
  }

  /** The outcome of a lookup that is not cancelled. */
  function Lookup(target: NodeID, known: seq<Peer>, ask: Requester, k: nat, alpha: nat, maxRounds: nat): Search {
    Rounds(LookupParams(target, ask, k, alpha), Start(Closest(target, known, k)), maxRounds)
  }

  /** Sorting an ordered list again changes nothing. */
  method Resort(dist: Metric, peers: seq<Peer>) returns (sorted: seq<Peer>)
    requires Injective(dist) && Ordered(dist, peers)
    ensures sorted == peers
  {
    OrderedIsDistinct(dist, peers);
    sorted := SortByDistance(dist, peers);
    SortedIsUnique(dist, peers, sorted);
    OrderedUnique(dist, peers, sorted);
  }
}

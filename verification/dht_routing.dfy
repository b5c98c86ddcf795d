/** The routing table: one bucket per power of two of the distance from the local node. */
module DhtRouting {
  import opened DhtIds
  import opened DhtBuckets
  import opened DhtTable
  import opened DhtOrder

  datatype AddResult = Added | InvalidPeer | SelfPeer

  datatype Op = Add(peer: Peer) | Remove(id: NodeID)

  // ---------------------------------------------------------------- tables as values

  /** A peer that the table of `local` may hold in bucket `j`. */
  ghost predicate Belongs(local: NodeID, j: nat, id: NodeID) {
    id != local && id != ZERO && BucketIndex(local, id) == j
  }

  ghost predicate ListOk(local: NodeID, size: nat, j: nat, peers: seq<Peer>) {
    BucketOk(peers, size) && (forall p :: p in peers ==> Belongs(local, j, p.id))
  }

  /** Every identifier is stored at most once, in its own bucket, never the local or the zero one,
      and no bucket exceeds its capacity. */
  ghost predicate TableOk(local: NodeID, size: nat, lists: seq<seq<Peer>>) {
    |lists| == ID_BITS && (forall j {:trigger lists[j]} :: 0 <= j < ID_BITS ==> ListOk(local, size, j, lists[j]))
  }

  function AddOutcome(local: NodeID, peer: Peer): AddResult {
    if peer.addr == "" || peer.id == ZERO then InvalidPeer else if peer.id == local then SelfPeer else Added
  }

  function Applied(local: NodeID, size: nat, lists: seq<seq<Peer>>, op: Op): seq<seq<Peer>>
    requires |lists| == ID_BITS
  {
    match op
    case Add(peer) =>
      if AddOutcome(local, peer) != Added then lists
      else var j := BucketIndex(local, peer.id); lists[j := Touch(lists[j], size, peer)]
    case Remove(id) =>
      var j := BucketIndex(local, id);
      lists[j := Without(lists[j], id)]
  }

  lemma TouchKeepsListOk(local: NodeID, size: nat, j: nat, peers: seq<Peer>, peer: Peer)
    requires ListOk(local, size, j, peers) && Belongs(local, j, peer.id)
    ensures ListOk(local, size, j, Touch(peers, size, peer))
  {
    TouchKeepsBucketOk(peers, size, peer);
  }

  lemma WithoutKeepsListOk(local: NodeID, size: nat, j: nat, peers: seq<Peer>, id: NodeID)
    requires ListOk(local, size, j, peers)
    ensures ListOk(local, size, j, Without(peers, id))
  {
    WithoutMembers(peers, id);
  }

  lemma AppliedKeepsTableOk(local: NodeID, size: nat, lists: seq<seq<Peer>>, op: Op)
    requires TableOk(local, size, lists)
    ensures TableOk(local, size, Applied(local, size, lists, op))
  {
    match op
    case Add(peer) =>
      if AddOutcome(local, peer) == Added {
        var j := BucketIndex(local, peer.id);
        TouchKeepsListOk(local, size, j, lists[j], peer);
      }
    case Remove(id) =>
      var j := BucketIndex(local, id);
      WithoutKeepsListOk(local, size, j, lists[j], id);
  }

  function RunTable(local: NodeID, size: nat, ops: seq<Op>): (lists: seq<seq<Peer>>)
    ensures |lists| == ID_BITS
  {
    if |ops| == 0 then seq(ID_BITS, _ => [])
    else Applied(local, size, RunTable(local, size, ops[..|ops| - 1]), ops[|ops| - 1])
  }

  /** The table invariant holds after any sequence of additions and removals. */
  lemma {:induction false} TableInvariant(local: NodeID, size: nat, ops: seq<Op>)
    requires size >= 1
    ensures TableOk(local, size, RunTable(local, size, ops))
  {
    if |ops| > 0 {
      TableInvariant(local, size, ops[..|ops| - 1]);
      AppliedKeepsTableOk(local, size, RunTable(local, size, ops[..|ops| - 1]), ops[|ops| - 1]);
    }
  }

  /** The peers of an add-only trace that bucket `j` hears from. */
  function HeardBy(local: NodeID, j: nat, trace: seq<Peer>): seq<Peer> {
    if |trace| == 0 then []
    else
      var n := |trace| - 1;
      var before := HeardBy(local, j, trace[..n]);
      if AddOutcome(local, trace[n]) == Added && BucketIndex(local, trace[n].id) == j then before + [trace[n]]
      else before
  }

  function AddAll(trace: seq<Peer>): seq<Op> {
    seq(|trace|, i requires 0 <= i < |trace| => Add(trace[i]))
  }

  /** After any add-only trace every bucket holds exactly the last distinct peers it heard from, up to
      its capacity, in order of latest addition. */
  lemma {:induction false} TableLru(local: NodeID, size: nat, trace: seq<Peer>, j: nat)
    requires size >= 1 && j < ID_BITS
    ensures RunTable(local, size, AddAll(trace))[j] == LastOf(Recent(HeardBy(local, j, trace)), size)
  {
    TableIsTouched(local, size, trace, j);
    LruLaw(HeardBy(local, j, trace), size);
  }

  lemma {:induction false} TableIsTouched(local: NodeID, size: nat, trace: seq<Peer>, j: nat)
    requires j < ID_BITS
    ensures RunTable(local, size, AddAll(trace))[j] == TouchAll(HeardBy(local, j, trace), size)
  {
    if |trace| > 0 {
      var n := |trace| - 1;
      TableIsTouched(local, size, trace[..n], j);
      assert AddAll(trace)[..n] == AddAll(trace[..n]);
      var before := HeardBy(local, j, trace[..n]);
      assert (before + [trace[n]])[..|before|] == before;
    }
  }

  // ---------------------------------------------------------------- all peers of a table

  function Flatten(lists: seq<seq<Peer>>): seq<Peer> {
    if |lists| == 0 then [] else Flatten(lists[..|lists| - 1]) + lists[|lists| - 1]
  }

  lemma FlattenMember(lists: seq<seq<Peer>>, p: Peer)
    ensures p in Flatten(lists) <==> exists j :: 0 <= j < |lists| && p in lists[j]
  {
    if |lists| > 0 {
      var n := |lists| - 1;
      FlattenMember(lists[..n], p);
      if p in Flatten(lists[..n]) {
        var j :| 0 <= j < n && p in lists[..n][j];
        assert p in lists[j];
      }
      if exists j :: 0 <= j < |lists| && p in lists[j] {
        var j :| 0 <= j < |lists| && p in lists[j];
        assert j < n ==> lists[..n][j] == lists[j];
      }
    }
  }

  ghost predicate ListsOk(local: NodeID, size: nat, lists: seq<seq<Peer>>) {
    forall j {:trigger lists[j]} :: 0 <= j < |lists| ==> ListOk(local, size, j, lists[j])
  }

  lemma {:induction false} FlattenDistinct(local: NodeID, size: nat, lists: seq<seq<Peer>>)
    requires ListsOk(local, size, lists)
    ensures DistinctIds(Flatten(lists))
  {
    if |lists| > 0 {
      var n := |lists| - 1;
      var front, last := Flatten(lists[..n]), lists[n];
      assert forall j :: 0 <= j < n ==> lists[..n][j] == lists[j];
      FlattenDistinct(local, size, lists[..n]);
      forall x, y | 0 <= x < |front| && 0 <= y < |last| ensures front[x].id != last[y].id {
        FlattenMember(lists[..n], front[x]);
        assert front[x] in front;
        var j :| 0 <= j < n && front[x] in lists[..n][j];
        assert front[x] in lists[j] && last[y] in lists[n];
        assert Belongs(local, j, front[x].id) && Belongs(local, n, last[y].id);
      }
      ConcatDistinct(front, last);
    }
  }

  /** A removal takes exactly the identifier out of the table. */
  lemma RemovedFromTable(local: NodeID, size: nat, lists: seq<seq<Peer>>, id: NodeID, p: Peer)
    requires TableOk(local, size, lists)
    ensures p in Flatten(Applied(local, size, lists, Remove(id))) <==> p in Flatten(lists) && p.id != id
  {
    var b, after := BucketIndex(local, id), Applied(local, size, lists, Remove(id));
    FlattenMember(lists, p);
    FlattenMember(after, p);
    WithoutMembers(lists[b], id);
    if p in Flatten(after) {
      var j :| 0 <= j < ID_BITS && p in after[j];
      assert p in lists[j] && Belongs(local, j, p.id);
    }
    if p in Flatten(lists) && p.id != id {
      var j :| 0 <= j < ID_BITS && p in lists[j];
      assert p in after[j];
    }
  }

  lemma ConcatDistinct(a: seq<Peer>, b: seq<Peer>)
    requires DistinctIds(a) && DistinctIds(b)
    requires forall x, y :: 0 <= x < |a| && 0 <= y < |b| ==> a[x].id != b[y].id
    ensures DistinctIds(a + b)
  {
  }

  // ---------------------------------------------------------------- the table object

  ghost function ListsOf(buckets: seq<Bucket>): (lists: seq<seq<Peer>>)
    reads buckets
    ensures |lists| == |buckets| && forall j :: 0 <= j < |buckets| ==> lists[j] == buckets[j].peers
  {
    if |buckets| == 0 then [] else ListsOf(buckets[..|buckets| - 1]) + [buckets[|buckets| - 1].peers]
  }

  class RoutingTable {
    const local: NodeID
    const bucketSize: nat
    const buckets: seq<Bucket>

    ghost function Lists(): (lists: seq<seq<Peer>>)
      reads buckets
      ensures |lists| == |buckets| && forall j :: 0 <= j < |buckets| ==> lists[j] == buckets[j].peers
    {
      ListsOf(buckets)
    }

    ghost predicate Shape() {
      && |buckets| == ID_BITS
      && (forall i, j :: 0 <= i < j < |buckets| ==> buckets[i] != buckets[j])
      && (forall j :: 0 <= j < |buckets| ==> buckets[j].maxSize == bucketSize)
    }

    ghost predicate Valid()
      reads buckets
    {
      Shape() && TableOk(local, bucketSize, Lists())
    }

    constructor (local: NodeID, size: int)
      ensures Valid() && this.local == local && bucketSize == (if size <= 0 then 20 else size)
      ensures Lists() == RunTable(local, bucketSize, [])
      ensures forall b :: b in buckets ==> fresh(b)
    {
      var n := if size <= 0 then 20 else size;
      var bs: seq<Bucket> := [];
      while |bs| < ID_BITS
        invariant |bs| <= ID_BITS
        invariant forall i, j :: 0 <= i < j < |bs| ==> bs[i] != bs[j]
        invariant forall j :: 0 <= j < |bs| ==> bs[j].maxSize == n && bs[j].peers == []
        invariant forall b :: b in bs ==> fresh(b)
      {
        var b := new Bucket(n);
        bs := bs + [b];
      }
      this.local, bucketSize, buckets := local, n, bs;
      new;
      assert Lists() == RunTable(local, bucketSize, []);
      TableInvariant(local, bucketSize, []);
    }

    method AddPeer(peer: Peer) returns (r: AddResult)
      requires Valid()
      modifies buckets
      ensures Valid() && r == AddOutcome(local, peer)
      ensures Lists() == Applied(local, bucketSize, old(Lists()), Add(peer))
      ensures r.InvalidPeer? <==> peer.addr == "" || peer.id == ZERO
      ensures r.SelfPeer? <==> peer.addr != "" && peer.id != ZERO && peer.id == local
      ensures !r.Added? ==> Lists() == old(Lists())
      ensures r.Added? ==> peer in Lists()[BucketIndex(local, peer.id)]
    {
      if peer.addr == "" || peer.id == ZERO {
        return InvalidPeer;
      }
      if peer.id == local {
        return SelfPeer;
      }
      ghost var before := Lists();
      AppliedKeepsTableOk(local, bucketSize, before, Add(peer));
      var index := ComputeBucketIndex(local, peer.id);
      assert ListOk(local, bucketSize, index, before[index]);
      var evicted := buckets[index].Add(peer);
      assert Lists() == Applied(local, bucketSize, before, Add(peer));
      return Added;
    }

    method RemovePeer(id: NodeID) returns (removed: bool)
      requires Valid()
      modifies buckets
      ensures Valid() && removed == HasId(old(Lists())[BucketIndex(local, id)], id)
      ensures Lists() == Applied(local, bucketSize, old(Lists()), Remove(id))
      ensures forall p :: p in Flatten(Lists()) <==> p in old(Flatten(Lists())) && p.id != id
    {
      ghost var before := Lists();
      AppliedKeepsTableOk(local, bucketSize, before, Remove(id));
      var index := ComputeBucketIndex(local, id);
      assert ListOk(local, bucketSize, index, before[index]);
      removed := buckets[index].Remove(id);
      assert Lists() == Applied(local, bucketSize, before, Remove(id));
      forall p ensures p in Flatten(Lists()) <==> p in Flatten(before) && p.id != id {
        RemovedFromTable(local, bucketSize, before, id, p);
      }
    }

    method ListAll() returns (all: seq<Peer>)
      requires Valid()
      ensures all == Flatten(Lists()) && DistinctIds(all)
    {
      all := [];
      for j := 0 to |buckets|
        invariant all == Flatten(Lists()[..j])
      {
        assert Lists()[..j + 1][..j] == Lists()[..j];
        all := all + buckets[j].peers;
      }
      assert Lists()[..|buckets|] == Lists();
      FlattenDistinct(local, bucketSize, Lists());
    }

    /** The `k` known peers nearest the target, in order. */
    method GetClosestPeers(target: NodeID, k: int) returns (r: seq<Peer>)
      requires Valid()
      ensures k <= 0 ==> r == []
      ensures k > 0 ==> r == Closest(target, Flatten(Lists()), k)
      ensures k > 0 ==> IsNearest(DistanceTo(target), Flatten(Lists()), k, r)
    {
      if k <= 0 {
        return [];
      }
      var all := ListAll();
      DistanceToInjective(target);
      r := SelectNearest(DistanceTo(target), all, k);
    }
  }

  /** Sorts by distance and keeps the first `k`. */
  method SelectNearest(dist: Metric, all: seq<Peer>, k: nat) returns (r: seq<Peer>)
    requires Injective(dist) && DistinctIds(all) && k >= 1
    ensures r == Trim(Sort(dist, all), k) && IsNearest(dist, all, k, r)
  {
    var sorted := SortByDistance(dist, all);
    SortedIsUnique(dist, all, sorted);
    TrimmedSortIsNearest(dist, all, k);
    r := TakeFirst(sorted, k);
  }

  method TakeFirst(sorted: seq<Peer>, k: nat) returns (r: seq<Peer>)
    requires k >= 1
    ensures r == Trim(sorted, k)
  {
    var limit := k;
    if limit > |sorted| {
      limit := |sorted|;
    }
    r := [];
    for i := 0 to limit
      invariant r == sorted[..i]
    {
      r := r + [sorted[i]];
    }
  }

  /** What `GetClosestPeers` answers from a table that holds `known`. */
  function Closest(target: NodeID, known: seq<Peer>, k: int): seq<Peer> {
    Trim(Sort(DistanceTo(target), known), k)
  }
}

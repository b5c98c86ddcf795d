/** How tables become complete: once every node has heard from every other node, whatever the order,
    the repetitions and the bucket size, lookups have the network that they converge in. */
module DhtJoin {
  import opened DhtIds
  import opened DhtBuckets
  import opened DhtTable
  import opened DhtRouting
  import opened DhtNetwork

  /** What each live node has heard, in order. */
  type Hearsay = map<NodeID, seq<Peer>>

  ghost predicate HearsFrom(trace: seq<Peer>, b: NodeID) {
    exists i :: 0 <= i < |trace| && trace[i].id == b && trace[i].addr != ""
  }

  /** `a` has heard only of live nodes, and from each of the others at an address. */
  ghost predicate HearsAll(heard: Hearsay, a: NodeID)
    requires a in heard
  {
    && (forall i :: 0 <= i < |heard[a]| ==> heard[a][i].id in heard)
    && (forall b {:trigger HearsFrom(heard[a], b)} :: b in heard && b != a ==> HearsFrom(heard[a], b))
  }

  function TableAfter(a: NodeID, size: nat, trace: seq<Peer>): seq<Peer> {
    Flatten(RunTable(a, size, AddAll(trace)))
  }

  function TablesAfter(heard: Hearsay, size: nat): Tables {
    map a | a in heard :: TableAfter(a, size, heard[a])
  }

  lemma {:induction false} HeardWasSaid(local: NodeID, j: nat, trace: seq<Peer>, id: NodeID)
    requires HasId(HeardBy(local, j, trace), id)
    ensures HasId(trace, id)
  {
    var n := |trace| - 1;
    var before := HeardBy(local, j, trace[..n]);
    assert trace == trace[..n] + [trace[n]];
    HasIdOfSnoc(trace[..n], trace[n], id);
    HasIdOfSnoc(before, trace[n], id);
    if HasId(before, id) {
      HeardWasSaid(local, j, trace[..n], id);
    }
  }

  lemma {:induction false} SaidIsHeard(local: NodeID, trace: seq<Peer>, i: nat)
    requires i < |trace| && AddOutcome(local, trace[i]) == Added
    ensures HasId(HeardBy(local, BucketIndex(local, trace[i].id), trace), trace[i].id)
  {
    var n, j, id := |trace| - 1, BucketIndex(local, trace[i].id), trace[i].id;
    var before := HeardBy(local, j, trace[..n]);
    HasIdOfSnoc(before, trace[n], id);
    if i < n {
      assert trace[..n][i] == trace[i];
      SaidIsHeard(local, trace[..n], i);
    }
  }

  lemma StoredWasSaid(a: NodeID, size: nat, trace: seq<Peer>, p: Peer)
    requires size >= 1 && p in TableAfter(a, size, trace)
    ensures HasId(trace, p.id) && p.id != a
  {
    var lists := RunTable(a, size, AddAll(trace));
    FlattenMember(lists, p);
    var j :| 0 <= j < |lists| && p in lists[j];
    TableInvariant(a, size, AddAll(trace));
    assert ListOk(a, size, j, lists[j]);
    TableLru(a, size, trace, j);
    var heard := HeardBy(a, j, trace);
    MemberOfLast(Recent(heard), size, p);
    RecentMembers(heard);
    HeardWasSaid(a, j, trace, p.id);
  }

  lemma MemberOfLast(order: seq<Peer>, k: nat, p: Peer)
    requires p in LastOf(order, k)
    ensures HasId(order, p.id)
  {
    var last := LastOf(order, k);
    var i :| 0 <= i < |last| && last[i] == p;
    assert order[|order| - |last| + i] == p;
  }

  lemma BucketIsKnown(a: NodeID, size: nat, trace: seq<Peer>, b: NodeID)
    requires size >= 1 && b != a && b != ZERO && HearsFrom(trace, b)
    ensures KnowsBucketOf(TableAfter(a, size, trace), a, b)
  {
    var lists, j := RunTable(a, size, AddAll(trace)), BucketIndex(a, b);
    var i :| 0 <= i < |trace| && trace[i].id == b && trace[i].addr != "";
    SaidIsHeard(a, trace, i);
    TableLru(a, size, trace, j);
    RecentMembers(HeardBy(a, j, trace));
    assert lists[j] != [];
    var p: Peer := lists[j][0];
    TableInvariant(a, size, AddAll(trace));
    assert ListOk(a, size, j, lists[j]) && p in lists[j];
    assert Belongs(a, j, p.id);
    FlattenMember(lists, p);
  }

  lemma TableIsComplete(heard: Hearsay, size: nat, a: NodeID)
    requires size >= 1 && ZERO !in heard && a in heard && HearsAll(heard, a)
    ensures CompleteTable(TablesAfter(heard, size), a)
  {
    var tables, known := TablesAfter(heard, size), TableAfter(a, size, heard[a]);
    TableInvariant(a, size, AddAll(heard[a]));
    FlattenDistinct(a, size, RunTable(a, size, AddAll(heard[a])));
    forall p | p in known ensures p.id in tables && p.id != a {
      StoredWasSaid(a, size, heard[a], p);
    }
    forall b | b in tables && b != a ensures KnowsBucketOf(known, a, b) {
      assert HearsFrom(heard[a], b);
      BucketIsKnown(a, size, heard[a], b);
    }
  }

  /** Tables filled through `AddPeer` from any such hearsay are complete, although full buckets evict. */
  lemma HearingAllCompletesTables(heard: Hearsay, size: nat)
    requires size >= 1 && ZERO !in heard
    requires forall a {:trigger HearsAll(heard, a)} :: a in heard ==> HearsAll(heard, a)
    ensures Complete(TablesAfter(heard, size))
  {
    forall a | a in heard ensures CompleteTable(TablesAfter(heard, size), a) {
      assert HearsAll(heard, a);
      TableIsComplete(heard, size, a);
    }
  }
}

/** Ordering peers by distance from a target. The distance is any function that tells identifiers
    apart, so any correct sort, stable or not, gives the same list; the XOR metric is one. */
module DhtOrder {
  import opened Sequences
  import opened DhtIds
  import opened DhtTable

  type Metric = NodeID -> nat

  function DistanceTo(target: NodeID): Metric {
    id => Distance(target, id)
  }

  ghost predicate Injective(dist: Metric) {
    forall a, b :: dist(a) == dist(b) ==> a == b
  }

  lemma DistanceToInjective(target: NodeID)
    ensures Injective(DistanceTo(target))
  {
    forall a, b | DistanceTo(target)(a) == DistanceTo(target)(b) ensures a == b {
      DistanceInjective(target, a, b);
    }
  }

  ghost predicate NonDecreasing(dist: Metric, peers: seq<Peer>) {
    forall i, j :: 0 <= i < j < |peers| ==> dist(peers[i].id) <= dist(peers[j].id)
  }

  ghost predicate Ordered(dist: Metric, peers: seq<Peer>) {
    forall i, j :: 0 <= i < j < |peers| ==> dist(peers[i].id) < dist(peers[j].id)
  }

  ghost predicate SameMembers(a: seq<Peer>, b: seq<Peer>) {
    forall p :: p in a <==> p in b
  }

  lemma DistinctIsOrdered(dist: Metric, peers: seq<Peer>)
    requires Injective(dist) && DistinctIds(peers) && NonDecreasing(dist, peers)
    ensures Ordered(dist, peers)
  {
  }

  lemma OrderedIsDistinct(dist: Metric, peers: seq<Peer>)
    requires Ordered(dist, peers)
    ensures DistinctIds(peers)
  {
  }

  /** The ordered list of given members is unique. */
  lemma {:induction false} OrderedUnique(dist: Metric, a: seq<Peer>, b: seq<Peer>)
    requires Ordered(dist, a) && Ordered(dist, b) && SameMembers(a, b)
    ensures a == b
  {
    assert |a| > 0 ==> a[0] in b;
    assert |b| > 0 ==> b[0] in a;
    if |a| > 0 && |b| > 0 {
      assert a[0] == b[0];
      forall p ensures p in a[1..] <==> p in b[1..] {
        TailMember(dist, a, p);
        TailMember(dist, b, p);
      }
      OrderedUnique(dist, a[1..], b[1..]);
      assert a == [a[0]] + a[1..] && b == [b[0]] + b[1..];
    }
  }

  lemma TailMember(dist: Metric, a: seq<Peer>, p: Peer)
    requires Ordered(dist, a) && |a| > 0
    ensures p in a[1..] <==> p in a && p != a[0]
  {
    if p in a && p != a[0] {
      var i :| 0 <= i < |a| && a[i] == p;
      assert a[1..][i - 1] == p;
    }
  }

  // ---------------------------------------------------------------- sorting

  /** The place of a peer at distance `d` in an ordered list: after everything at most as far. */
  function Place(dist: Metric, peers: seq<Peer>, d: nat): (i: nat)
    ensures i <= |peers|
    ensures forall j :: 0 <= j < i ==> dist(peers[j].id) <= d
    ensures i < |peers| ==> dist(peers[i].id) > d
  {
    if |peers| == 0 || dist(peers[0].id) > d then 0 else 1 + Place(dist, peers[1..], d)
  }

  lemma InsertKeepsOrder(dist: Metric, peers: seq<Peer>, i: nat, p: Peer)
    requires NonDecreasing(dist, peers) && i <= |peers|
    requires forall j :: 0 <= j < i ==> dist(peers[j].id) <= dist(p.id)
    requires forall j :: i <= j < |peers| ==> dist(p.id) <= dist(peers[j].id)
    ensures NonDecreasing(dist, InsertAt(peers, i, p))
    ensures multiset(InsertAt(peers, i, p)) == multiset(peers + [p])
  {
    var r := InsertAt(peers, i, p);
    assert forall j :: 0 <= j < |r| ==> r[j] == if j < i then peers[j] else if j == i then p else peers[j - 1];
    InsertAtAdds(peers, i, p);
  }

  function Sort(dist: Metric, peers: seq<Peer>): (r: seq<Peer>)
    ensures NonDecreasing(dist, r) && multiset(r) == multiset(peers)
  {
    if |peers| == 0 then []
    else
      var n := |peers| - 1;
      var r := Sort(dist, peers[..n]);
      var i := Place(dist, r, dist(peers[n].id));
      InsertKeepsOrder(dist, r, i, peers[n]);
      assert peers == peers[..n] + [peers[n]];
      InsertAt(r, i, peers[n])
  }

  /** Sorting in place. Only the order and the permutation are promised, as by the library sort. */
  method SortByDistance(dist: Metric, peers: seq<Peer>) returns (r: seq<Peer>)
    ensures NonDecreasing(dist, r) && multiset(r) == multiset(peers)
  {
    r := [];
    for n := 0 to |peers|
      invariant NonDecreasing(dist, r) && multiset(r) == multiset(peers[..n])
    {
      var i := |r|;
      var d := dist(peers[n].id);
      while i > 0 && dist(r[i - 1].id) > d
        invariant 0 <= i <= |r|
        invariant forall j :: i <= j < |r| ==> dist(r[j].id) > d
      {
        i := i - 1;
      }
      InsertKeepsOrder(dist, r, i, peers[n]);
      assert peers[..n + 1] == peers[..n] + [peers[n]];
      r := InsertAt(r, i, peers[n]);
    }
    assert peers[..|peers|] == peers;
  }

  lemma SameMultisetSameMembers(a: seq<Peer>, b: seq<Peer>)
    requires multiset(a) == multiset(b)
    ensures SameMembers(a, b) && |a| == |b|
  {
    forall p ensures p in a <==> p in b {
      assert p in a <==> p in multiset(a);
      assert p in b <==> p in multiset(b);
    }
    assert |a| == |multiset(a)| == |multiset(b)| == |b|;
  }

  /** A permutation of a list without repeated identifiers has none either. */
  lemma PermutationDistinct(a: seq<Peer>, b: seq<Peer>)
    requires multiset(a) == multiset(b) && DistinctIds(a)
    ensures DistinctIds(b)
  {
    SameMultisetSameMembers(a, b);
    forall i, j | 0 <= i < j < |b| ensures b[i].id != b[j].id {
      if b[i].id == b[j].id {
        assert b[i] in a && b[j] in a;
        var x :| 0 <= x < |a| && a[x] == b[i];
        assert b[i] == b[j];
        TwiceInMultiset(b, i, j);
        OnceInMultiset(a, x);
      }
    }
  }

  lemma TwiceInMultiset(b: seq<Peer>, i: nat, j: nat)
    requires i < j < |b| && b[i] == b[j]
    ensures multiset(b)[b[i]] >= 2
  {
    assert b == b[..j] + [b[j]] + b[j + 1..];
    assert b[i] in b[..j];
  }

  lemma OnceInMultiset(a: seq<Peer>, x: nat)
    requires DistinctIds(a) && x < |a|
    ensures multiset(a)[a[x]] == 1
  {
    assert a == a[..x] + [a[x]] + a[x + 1..];
    assert a[x] !in a[..x] && a[x] !in a[x + 1..];
  }

  /** The result of any sort of peers without repeated identifiers: uniquely determined. */
  lemma SortedIsUnique(dist: Metric, peers: seq<Peer>, r: seq<Peer>)
    requires Injective(dist) && DistinctIds(peers) && NonDecreasing(dist, r) && multiset(r) == multiset(peers)
    ensures Ordered(dist, r) && r == Sort(dist, peers) && SameMembers(r, peers)
  {
    var s := Sort(dist, peers);
    PermutationDistinct(peers, r);
    PermutationDistinct(peers, s);
    DistinctIsOrdered(dist, r);
    DistinctIsOrdered(dist, s);
    SameMultisetSameMembers(r, s);
    SameMultisetSameMembers(r, peers);
    OrderedUnique(dist, r, s);
  }

  /** Two lists without repeated identifiers and with the same members sort to the same list. */
  lemma SameMembersSortAlike(dist: Metric, a: seq<Peer>, b: seq<Peer>)
    requires Injective(dist) && DistinctIds(a) && DistinctIds(b) && SameMembers(a, b)
    ensures Sort(dist, a) == Sort(dist, b) && |a| == |b|
  {
    SortedIsUnique(dist, a, Sort(dist, a));
    SortedIsUnique(dist, b, Sort(dist, b));
    OrderedUnique(dist, Sort(dist, a), Sort(dist, b));
    SameMultisetSameMembers(Sort(dist, a), a);
    SameMultisetSameMembers(Sort(dist, b), b);
  }

  // ---------------------------------------------------------------- nearest peers

  function Trim(peers: seq<Peer>, k: int): seq<Peer> {
    if k <= 0 || |peers| <= k then peers else peers[..k]
  }

  /** `r` lists, in order, the `k` members of the pool that are nearest the target. */
  ghost predicate IsNearest(dist: Metric, pool: seq<Peer>, k: nat, r: seq<Peer>) {
    && Ordered(dist, r)
    && (forall p :: p in r ==> p in pool)
    && |r| == (if |pool| < k then |pool| else k)
    && (forall p {:trigger Beyond(dist, r, p)} :: p in pool && p !in r ==> Beyond(dist, r, p))
  }

  /** `p` is farther than every peer of the list. */
  ghost predicate Beyond(dist: Metric, r: seq<Peer>, p: Peer) {
    forall q :: q in r ==> dist(q.id) < dist(p.id)
  }

  lemma TrimmedSortIsNearest(dist: Metric, pool: seq<Peer>, k: nat)
    requires Injective(dist) && DistinctIds(pool) && k >= 1
    ensures IsNearest(dist, pool, k, Trim(Sort(dist, pool), k))
  {
    var s, r := Sort(dist, pool), Trim(Sort(dist, pool), k);
    SortedIsUnique(dist, pool, s);
    SameMultisetSameMembers(s, pool);
    forall p | p in pool && p !in r ensures Beyond(dist, r, p) {
      TrimmedAreBeyond(dist, s, k, p);
    }
  }

  lemma TrimmedAreBeyond(dist: Metric, s: seq<Peer>, k: nat, p: Peer)
    requires Ordered(dist, s) && p in s && p !in Trim(s, k)
    ensures Beyond(dist, Trim(s, k), p)
  {
    var r := Trim(s, k);
    var i :| 0 <= i < |s| && s[i] == p;
    assert forall x :: 0 <= x < |r| ==> r[x] in r;
    forall q | q in r ensures dist(q.id) < dist(p.id) {
      var j :| 0 <= j < |r| && r[j] == q;
    }
  }
}

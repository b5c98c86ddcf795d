/** The LRU k-bucket. */
module DhtTable {
  import opened Sequences
  import opened DhtIds

  // ---------------------------------------------------------------- lists of peers

  ghost predicate DistinctIds(peers: seq<Peer>) {
    forall i, j :: 0 <= i < j < |peers| ==> peers[i].id != peers[j].id
  }

  predicate HasId(peers: seq<Peer>, id: NodeID) {
    exists i :: 0 <= i < |peers| && peers[i].id == id
  }

  /** The first position of `id`, at or after `from`, or the length of the list. */
  function Find(peers: seq<Peer>, id: NodeID, from: nat): (i: nat)
    requires from <= |peers|
    ensures from <= i <= |peers| && (i < |peers| ==> peers[i].id == id)
    ensures forall j :: from <= j < i ==> peers[j].id != id
    decreases |peers| - from
  {
    if from == |peers| || peers[from].id == id then from else Find(peers, id, from + 1)
  }

  /** The list without its first entry for `id`. */
  function Without(peers: seq<Peer>, id: NodeID): seq<Peer> {
    var i := Find(peers, id, 0);
    if i == |peers| then peers else DropAt(peers, i)
  }

  lemma WithoutAt(peers: seq<Peer>, i: nat)
    requires i < |peers| && (forall j :: 0 <= j < i ==> peers[j].id != peers[i].id)
    ensures Without(peers, peers[i].id) == DropAt(peers, i)
  {
  }

  lemma DropAtDistinct(peers: seq<Peer>, i: nat)
    requires DistinctIds(peers) && i < |peers|
    ensures DistinctIds(DropAt(peers, i)) && !HasId(DropAt(peers, i), peers[i].id)
  {
    var r := DropAt(peers, i);
    assert forall j :: 0 <= j < |r| ==> r[j] == if j < i then peers[j] else peers[j + 1];
  }

  lemma DropAtMember(peers: seq<Peer>, i: nat, p: Peer)
    requires DistinctIds(peers) && i < |peers|
    ensures p in DropAt(peers, i) <==> p in peers && p.id != peers[i].id
  {
    var r := DropAt(peers, i);
    assert forall j :: 0 <= j < |r| ==> r[j] == if j < i then peers[j] else peers[j + 1];
    if p in peers && p.id != peers[i].id {
      var j :| 0 <= j < |peers| && peers[j] == p;
      assert r[if j < i then j else j - 1] == p;
    }
  }

  /** What remains after a removal: the other peers, still distinct. */
  lemma WithoutMembers(peers: seq<Peer>, id: NodeID)
    requires DistinctIds(peers)
    ensures DistinctIds(Without(peers, id)) && !HasId(Without(peers, id), id)
    ensures forall p :: p in Without(peers, id) <==> p in peers && p.id != id
  {
    var i := Find(peers, id, 0);
    if i < |peers| {
      assert Without(peers, id) == DropAt(peers, i);
      DropAtDistinct(peers, i);
      forall p ensures p in DropAt(peers, i) <==> p in peers && p.id != id {
        DropAtMember(peers, i, p);
      }
    }
  }

  // ---------------------------------------------------------------- the bucket

  /** A bucket after hearing from `peer`: the peer becomes the most recent; when it is new and the
      bucket is full the least recent one is dropped. */
  function Touch(peers: seq<Peer>, maxSize: nat, peer: Peer): seq<Peer> {
    if HasId(peers, peer.id) then Without(peers, peer.id) + [peer]
    else if |peers| >= maxSize && |peers| > 0 then peers[1..] + [peer]
    else peers + [peer]
  }

  ghost predicate BucketOk(peers: seq<Peer>, maxSize: nat) {
    1 <= maxSize && |peers| <= maxSize && DistinctIds(peers)
  }

  /** What `Touch` puts the peer after: other peers of the bucket, with room for one more. */
  lemma TouchKeepsOthers(peers: seq<Peer>, maxSize: nat, peer: Peer) returns (kept: seq<Peer>)
    requires BucketOk(peers, maxSize)
    ensures Touch(peers, maxSize, peer) == kept + [peer] && |kept| < maxSize && DistinctIds(kept)
    ensures forall p :: p in kept ==> p in peers && p.id != peer.id
  {
    if HasId(peers, peer.id) {
      WithoutMembers(peers, peer.id);
      kept := Without(peers, peer.id);
    } else {
      kept := if |peers| >= maxSize then peers[1..] else peers;
    }
  }

  lemma SnocDistinct(kept: seq<Peer>, peer: Peer)
    requires DistinctIds(kept) && forall p :: p in kept ==> p.id != peer.id
    ensures DistinctIds(kept + [peer])
  {
    assert forall i :: 0 <= i < |kept| ==> kept[i] in kept;
  }

  lemma TouchKeepsBucketOk(peers: seq<Peer>, maxSize: nat, peer: Peer)
    requires BucketOk(peers, maxSize)
    ensures BucketOk(Touch(peers, maxSize, peer), maxSize)
    ensures forall p :: p in Touch(peers, maxSize, peer) ==> p == peer || p in peers
  {
    var kept := TouchKeepsOthers(peers, maxSize, peer);
    SnocDistinct(kept, peer);
  }

  class Bucket {
    var peers: seq<Peer>
    const maxSize: nat

    ghost predicate Valid()
      reads this
    {
      BucketOk(peers, maxSize)
    }

    /** A non-positive capacity selects the default of 20. */
    constructor (size: int)
      ensures Valid() && peers == [] && maxSize == if size <= 0 then 20 else size
    {
      peers := [];
      maxSize := if size <= 0 then 20 else size;
    }

    method IndexOf(id: NodeID) returns (index: int)
      ensures -1 <= index < |peers|
      ensures index >= 0 ==> peers[index].id == id && (forall j :: 0 <= j < index ==> peers[j].id != id)
      ensures index < 0 <==> !HasId(peers, id)
    {
      for i := 0 to |peers|
        invariant forall j :: 0 <= j < i ==> peers[j].id != id
      {
        if peers[i].id == id {
          return i;
        }
      }
      return -1;
    }

    /** Shifts the peers after `index` left by one and puts that peer last. */
    method MoveToEnd(index: int)
      modifies this`peers
      ensures !(0 <= index < |old(peers)|) ==> peers == old(peers)
      ensures 0 <= index < |old(peers)| ==>
                peers == old(peers)[..index] + old(peers)[index + 1..] + [old(peers)[index]]
    {
      if index < 0 || index >= |peers| {
        return;
      }
      var peer := peers[index];
      peers := peers[..index] + peers[index + 1..] + [peers[|peers| - 1]];
      peers := peers[|peers| - 1 := peer];
    }

    method Add(peer: Peer) returns (evicted: seq<Peer>)
      requires Valid()
      modifies this`peers
      ensures Valid() && peers == Touch(old(peers), maxSize, peer)
      ensures evicted == if !HasId(old(peers), peer.id) && |old(peers)| == maxSize then [old(peers)[0]] else []
    {
      evicted := [];
      TouchKeepsBucketOk(peers, maxSize, peer);
      var index := IndexOf(peer.id);
      if index >= 0 {
        WithoutAt(peers, index);
        peers := peers[index := peer];
        MoveToEnd(index);
        return;
      }
      if |peers| >= maxSize {
        var oldest := peers[0];
        peers := peers[1..];
        evicted := [oldest];
      }
      peers := peers + [peer];
    }

    method Remove(id: NodeID) returns (removed: bool)
      requires Valid()
      modifies this`peers
      ensures Valid() && peers == Without(old(peers), id) && removed == HasId(old(peers), id)
    {
      WithoutMembers(peers, id);
      var index := IndexOf(id);
      if index < 0 {
        return false;
      }
      WithoutAt(peers, index);
      peers := peers[..index] + peers[index + 1..];
      return true;
    }
  }

  // ---------------------------------------------------------------- the LRU law

  /** The bucket after hearing from each peer of the trace, starting empty. */
  function TouchAll(trace: seq<Peer>, maxSize: nat): seq<Peer> {
    if |trace| == 0 then [] else Touch(TouchAll(trace[..|trace| - 1], maxSize), maxSize, trace[|trace| - 1])
  }

  /** Every identifier of the trace once, with its latest record, in order of latest mention. */
  function Recent(trace: seq<Peer>): seq<Peer> {
    if |trace| == 0 then []
    else if HasId(trace[1..], trace[0].id) then Recent(trace[1..])
    else [trace[0]] + Recent(trace[1..])
  }

  function LastOf(peers: seq<Peer>, k: nat): seq<Peer> {
    if |peers| <= k then peers else peers[|peers| - k..]
  }

  lemma RecentMembers(trace: seq<Peer>)
    ensures DistinctIds(Recent(trace))
    ensures forall id :: HasId(Recent(trace), id) <==> HasId(trace, id)
  {
    if |trace| > 0 {
      var rest := trace[1..];
      RecentMembers(rest);
      forall id ensures HasId(trace, id) <==> id == trace[0].id || HasId(rest, id) {
        HasIdOfCons(trace[0], rest, id);
        assert trace == [trace[0]] + rest;
      }
      forall id ensures HasId([trace[0]] + Recent(rest), id) <==> id == trace[0].id || HasId(Recent(rest), id) {
        HasIdOfCons(trace[0], Recent(rest), id);
      }
      if !HasId(rest, trace[0].id) {
        var r := [trace[0]] + Recent(rest);
        forall i, j | 0 <= i < j < |r| ensures r[i].id != r[j].id {
          if i == 0 {
            assert r[j].id == Recent(rest)[j - 1].id;
            assert HasId(Recent(rest), r[j].id);
          }
        }
      }
    }
  }

  lemma HasIdOfCons(p: Peer, rest: seq<Peer>, id: NodeID)
    ensures HasId([p] + rest, id) <==> id == p.id || HasId(rest, id)
  {
    var all := [p] + rest;
    if HasId(rest, id) {
      var i :| 0 <= i < |rest| && rest[i].id == id;
      assert all[i + 1].id == id;
    }
    if id == p.id {
      assert all[0].id == id;
    }
  }

  lemma HasIdOfSnoc(rest: seq<Peer>, p: Peer, id: NodeID)
    ensures HasId(rest + [p], id) <==> id == p.id || HasId(rest, id)
  {
    var all := rest + [p];
    if HasId(rest, id) {
      var i :| 0 <= i < |rest| && rest[i].id == id;
      assert all[i].id == id;
    }
    if id == p.id {
      assert all[|rest|].id == id;
    }
  }

  lemma WithoutAbsent(peers: seq<Peer>, id: NodeID)
    requires !HasId(peers, id)
    ensures Without(peers, id) == peers
  {
  }

  lemma WithoutHead(p: Peer, rest: seq<Peer>)
    ensures Without([p] + rest, p.id) == rest
  {
    var all := [p] + rest;
    WithoutAt(all, 0);
    assert DropAt(all, 0) == rest;
  }

  lemma DropAtTail(p: Peer, rest: seq<Peer>, i: nat)
    requires i < |rest|
    ensures DropAt([p] + rest, i + 1) == [p] + DropAt(rest, i)
  {
    var all := [p] + rest;
    assert all[..i + 1] == [p] + rest[..i] && all[i + 2..] == rest[i + 1..];
  }

  lemma WithoutTail(p: Peer, rest: seq<Peer>, id: NodeID)
    requires p.id != id
    ensures Without([p] + rest, id) == [p] + Without(rest, id)
  {
    var all, i := [p] + rest, Find(rest, id, 0);
    if i < |rest| {
      forall j | 0 <= j < i + 1 ensures all[j].id != id {
        assert j > 0 ==> all[j] == rest[j - 1];
      }
      assert all[i + 1] == rest[i];
      WithoutAt(all, i + 1);
      DropAtTail(p, rest, i);
    } else {
      HasIdOfCons(p, rest, id);
      WithoutAbsent(all, id);
    }
  }

  /** Hearing from one more peer moves it to the end of the recency order. */
  lemma {:induction false} RecentSnoc(trace: seq<Peer>, p: Peer)
    ensures Recent(trace + [p]) == Without(Recent(trace), p.id) + [p]
  {
    if |trace| == 0 {
      assert trace + [p] == [p];
    } else {
      var first, rest := trace[0], trace[1..];
      assert (trace + [p])[1..] == rest + [p];
      RecentSnoc(rest, p);
      HasIdOfSnoc(rest, p, first.id);
      if !HasId(rest, first.id) {
        RecentMembers(rest);
        WithoutFromFront(first, Recent(rest), p.id);
      }
    }
  }

  lemma WithoutFromFront(first: Peer, rest: seq<Peer>, id: NodeID)
    requires !HasId(rest, first.id)
    ensures Without([first] + rest, id) == (if first.id == id then [] else [first]) + Without(rest, id)
  {
    if first.id == id {
      WithoutHead(first, rest);
      WithoutAbsent(rest, id);
    } else {
      WithoutTail(first, rest, id);
    }
  }

  lemma LastOfSnoc(peers: seq<Peer>, p: Peer, k: nat)
    requires k >= 1
    ensures LastOf(peers + [p], k) == LastOf(peers, k - 1) + [p]
  {
  }

  lemma DropAtSuffix(order: seq<Peer>, d: nat, i: nat)
    requires d <= i < |order|
    ensures DropAt(order[d..], i - d) == DropAt(order, i)[d..]
  {
    var last := order[d..];
    assert last[..i - d] == order[d..i] && last[i - d + 1..] == order[i + 1..];
  }

  /** Removing from the last `k` is removing from the whole order, when the peer is among them. */
  lemma WithoutLastOf(order: seq<Peer>, i: nat, k: nat)
    requires k >= 1 && DistinctIds(order) && |order| - k <= i < |order|
    ensures Without(LastOf(order, k), order[i].id) == LastOf(Without(order, order[i].id), k - 1)
  {
    var last := LastOf(order, k);
    var d := |order| - |last|;
    assert last == order[d..] && last[i - d] == order[i];
    WithoutAt(last, i - d);
    WithoutAt(order, i);
    DropAtSuffix(order, d, i);
  }

  /** A peer that has fallen out of the last `k` comes back and pushes out the oldest of them. */
  lemma TouchForgotten(order: seq<Peer>, p: Peer, k: nat, i: nat)
    requires k >= 1 && DistinctIds(order) && i < |order| - k && order[i].id == p.id
    ensures Touch(LastOf(order, k), k, p) == LastOf(Without(order, p.id), k - 1) + [p]
  {
    var last, d := LastOf(order, k), |order| - k;
    assert !HasId(last, p.id);
    WithoutAt(order, i);
    var dropped := DropAt(order, i);
    assert dropped[d..] == order[d + 1..];
    assert last[1..] == order[d + 1..];
  }

  lemma TouchNew(order: seq<Peer>, p: Peer, k: nat)
    requires k >= 1 && !HasId(order, p.id)
    ensures Touch(LastOf(order, k), k, p) == LastOf(order, k - 1) + [p]
  {
    var last := LastOf(order, k);
    assert !HasId(last, p.id);
    assert |order| >= k ==> last[1..] == order[|order| - k + 1..];
  }

  /** Touching the last `k` of a recency order gives the last `k` of the new recency order. */
  lemma TouchLastOf(order: seq<Peer>, p: Peer, k: nat)
    requires k >= 1 && DistinctIds(order)
    ensures Touch(LastOf(order, k), k, p) == LastOf(Without(order, p.id) + [p], k)
  {
    var i := Find(order, p.id, 0);
    LastOfSnoc(Without(order, p.id), p, k);
    if i == |order| {
      WithoutAbsent(order, p.id);
      TouchNew(order, p, k);
    } else if i < |order| - k {
      TouchForgotten(order, p, k, i);
    } else {
      WithoutLastOf(order, i, k);
      KnownInLast(order, p, k, i);
    }
  }

  lemma KnownInLast(order: seq<Peer>, p: Peer, k: nat, i: nat)
    requires i < |order| && |order| - k <= i && order[i].id == p.id
    ensures HasId(LastOf(order, k), p.id)
  {
    var last := LastOf(order, k);
    assert last[i - (|order| - |last|)] == order[i];
  }

  /** The LRU law: after any trace of additions a bucket of capacity `k` is exactly the last `k` distinct
      identifiers in order of latest addition. */
  lemma {:induction false} LruLaw(trace: seq<Peer>, k: nat)
    requires k >= 1
    ensures TouchAll(trace, k) == LastOf(Recent(trace), k)
  {
    if |trace| > 0 {
      var n := |trace| - 1;
      LruLaw(trace[..n], k);
      RecentMembers(trace[..n]);
      TouchLastOf(Recent(trace[..n]), trace[n], k);
      RecentSnoc(trace[..n], trace[n]);
      assert trace == trace[..n] + [trace[n]];
    }
  }

  /** After the same trace a smaller bucket is a suffix of a larger one. */
  lemma SmallerBucketIsSuffix(trace: seq<Peer>, small: nat, large: nat)
    requires 1 <= small <= large
    ensures |TouchAll(trace, small)| <= |TouchAll(trace, large)|
    ensures TouchAll(trace, small) == LastOf(TouchAll(trace, large), small)
  {
    LruLaw(trace, small);
    LruLaw(trace, large);
    LastOfLast(Recent(trace), small, large);
  }

  lemma LastOfLast(order: seq<Peer>, small: nat, large: nat)
    requires small <= large
    ensures |LastOf(order, small)| <= |LastOf(order, large)|
    ensures LastOf(order, small) == LastOf(LastOf(order, large), small)
  {
  }
}

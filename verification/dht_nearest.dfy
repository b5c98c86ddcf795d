/** A lookup that has run out of peers to ask returns all of the `k` live nodes nearest the target, although
    tables may know a single peer per bucket: it is enough that answers are no narrower than the result. */
module DhtNearest {
  import opened Counting
  import opened DhtIds
  import opened DhtBuckets
  import opened DhtTable
  import opened DhtOrder
  import opened DhtRouting
  import opened DhtLookup
  import opened DhtSearch
  import opened DhtNetwork

  /** The live nodes nearer the target than `x`. */
  function Nearer(w: Net, x: NodeID): set<NodeID> {
    set y | y in w.tables && Distance(w.target, y) < Distance(w.target, x)
  }

  /** `x` is one of the `k` live nodes nearest the target. */
  ghost predicate Among(w: Net, k: nat, x: NodeID) {
    x in w.tables && |Nearer(w, x)| < k
  }

  lemma AllNearer(w: Net, x: NodeID, r: seq<Peer>)
    requires DistinctIds(r) && AllLive(w, r)
    requires forall p :: p in r ==> Distance(w.target, p.id) < Distance(w.target, x)
    ensures |r| <= |Nearer(w, x)|
  {
    forall id | id in Ids(r) ensures id in Nearer(w, x) {
      var i :| 0 <= i < |r| && r[i].id == id;
      assert r[i] in r && LivePeer(w, r[i]);
    }
    IdCount(r);
    SubsetSize(Ids(r), Nearer(w, x));
  }

  // ---------------------------------------------------------------- what the nearest of a pool hold

  /** If someone in the pool is within 2^e of `x`, so is one of the nearest of the pool: they include that
      one, or are too many to be all nearer the target than `x`. */
  lemma NearestHoldClose(w: Net, k: nat, x: NodeID, pool: seq<Peer>, m: nat, r: seq<Peer>, p: Peer, e: nat)
    returns (q: Peer)
    requires Among(w, k, x) && k <= m && IsNearest(DistanceTo(w.target), pool, m, r)
    requires DistinctIds(pool) && AllLive(w, r) && p in pool && e <= ID_BITS && Distance(p.id, x) < Pow2(e)
    ensures q in r && Distance(q.id, x) < Pow2(e)
  {
    OrderedIsDistinct(DistanceTo(w.target), r);
    if p in r {
      q := p;
    } else {
      MissingMeansFull(pool, m, r, p);
      if forall z :: z in r ==> Distance(w.target, z.id) < Distance(w.target, x) {
        AllNearer(w, x, r);
        assert false;
      }
      q :| q in r && Distance(w.target, x) <= Distance(w.target, q.id);
      assert Beyond(DistanceTo(w.target), r, p);
      assert DistanceTo(w.target)(q.id) < DistanceTo(w.target)(p.id);
      BetweenIsClose(w.target, x, q.id, p.id, e);
    }
  }

  lemma MissingMeansFull(pool: seq<Peer>, m: nat, r: seq<Peer>, p: Peer)
    requires DistinctIds(pool) && DistinctIds(r) && (forall z :: z in r ==> z in pool)
    requires |r| == (if |pool| < m then |pool| else m) && p in pool && p !in r
    ensures |r| == m
  {
    if |pool| < m {
      ShorterMissesNothing(r, pool, p);
    }
  }

  lemma SameBucketIsClose(q: NodeID, x: NodeID, p: NodeID, e: nat)
    requires q != x && q != p && BucketIndex(q, p) == BucketIndex(q, x) && e <= ID_BITS && Distance(q, x) < Pow2(e)
    ensures e > 0 && Distance(p, x) < Pow2(e - 1)
  {
    var f := Exponent(BucketIndex(q, x));
    BucketBounds(q, x);
    BucketBounds(q, p);
    ExponentIsInvolution(BucketIndex(q, x));
    if f >= e { Pow2Monotone(e, f); }
    SameRangeIsClose(q, x, p, f);
    Pow2Monotone(f, e - 1);
  }

  /** A complete table names someone within 2^(e - 1) of `x`. */
  lemma TableKnowsClose(w: Net, x: NodeID, q: NodeID, e: nat) returns (p: Peer)
    requires Complete(w.tables) && x in w.tables && q in w.tables && q != x
    requires e <= ID_BITS && Distance(q, x) < Pow2(e)
    ensures e > 0 && p in w.tables[q] && Distance(p.id, x) < Pow2(e - 1)
  {
    assert CompleteTable(w.tables, q) && KnowsBucketOf(w.tables[q], q, x);
    p :| p in w.tables[q] && p.id != q && BucketIndex(q, p.id) == BucketIndex(q, x);
    SameBucketIsClose(q, x, p.id, e);
  }

  lemma AnswerIsNearest(w: Net, q: NodeID)
    requires Complete(w.tables) && q in w.tables && w.width >= 1
    ensures var answer := Closest(w.target, w.tables[q], w.width);
            IsNearest(DistanceTo(w.target), w.tables[q], w.width, answer) && AllLive(w, answer)
    ensures DistinctIds(w.tables[q])
  {
    assert CompleteTable(w.tables, q);
    DistanceToInjective(w.target);
    TrimmedSortIsNearest(DistanceTo(w.target), w.tables[q], w.width);
    forall z | z in Closest(w.target, w.tables[q], w.width) ensures LivePeer(w, z) {
      ClosestAreKnown(w.target, w.tables[q], w.width, z);
    }
  }

  /** One hop towards `x`: the answer of a node within 2^e of it names one within 2^(e - 1). */
  lemma AnswerHoldsClose(w: Net, k: nat, x: NodeID, q: NodeID, e: nat) returns (y: Peer)
    requires Complete(w.tables) && Among(w, k, x) && 1 <= k <= w.width
    requires q in w.tables && q != x && e <= ID_BITS && Distance(q, x) < Pow2(e)
    ensures e > 0 && y in Closest(w.target, w.tables[q], w.width) && y.id in w.tables
    ensures Distance(y.id, x) < Pow2(e - 1)
  {
    var p := TableKnowsClose(w, x, q, e);
    AnswerIsNearest(w, q);
    y := NearestHoldClose(w, k, x, w.tables[q], w.width, Closest(w.target, w.tables[q], w.width), p, e - 1);
    assert LivePeer(w, y);
  }

  // ---------------------------------------------------------------- what a finished search has learnt

  /** The shortlist is the nearest of what was learnt, all of it live, and all of it has been asked. */
  ghost predicate Finished(w: Net, c: Params, start: seq<Peer>, s: Search) {
    && NetOk(w, c) && SearchNearest(c, start, s) && AllLive(w, s.shortlist) && s.queried == Ids(s.trace)
    && (forall p :: p in s.shortlist ==> p.id in s.queried)
  }

  lemma LearntCloser(w: Net, c: Params, start: seq<Peer>, s: Search, k: nat, x: NodeID, p: Peer, e: nat)
    returns (y: Peer)
    requires Finished(w, c, start, s) && Among(w, k, x) && 1 <= k <= w.width && k <= c.limit
    requires p in AskAll(c.ask, start, s.trace) && 0 < e <= ID_BITS && Distance(p.id, x) < Pow2(e)
    ensures y in AskAll(c.ask, start, s.trace) && Distance(y.id, x) < Pow2(e - 1)
  {
    var pool := AskAll(c.ask, start, s.trace);
    var q := NearestHoldClose(w, k, x, pool, c.limit, s.shortlist, p, e);
    assert LivePeer(w, q);
    if q.id == x {
      DistanceZero(q.id, x);
      y := q;
    } else {
      var z := AnswerHoldsClose(w, k, x, q.id, e);
      AskedIsLearnt(w, c, start, s, q, z);
      var i :| 0 <= i < |pool| && pool[i].id == z.id;
      y := pool[i];
    }
  }

  lemma AskedIsLearnt(w: Net, c: Params, start: seq<Peer>, s: Search, q: Peer, z: Peer)
    requires Finished(w, c, start, s) && q in s.shortlist && q.id in w.tables && z.id in w.tables
    requires z in Closest(w.target, w.tables[q.id], w.width)
    ensures HasId(AskAll(c.ask, start, s.trace), z.id)
  {
    var q' := TracedPeer(s, q.id);
    var answer := Closest(w.target, w.tables[q.id], w.width);
    assert AnswersRightly(w.tables, w.target, w.width, c.ask, q');
    var i :| 0 <= i < |answer| && answer[i] == z;
    assert LearntFrom(c.ask, q', z.id);
    PoolIsWhatWasLearnt(c.ask, start, s.trace, z.id);
  }

  /** Having learnt of anyone within 2^e of `x`, a finished search has learnt of `x` itself. */
  lemma {:induction false} LearntItself(w: Net, c: Params, start: seq<Peer>, s: Search, k: nat, x: NodeID, p: Peer,
                                        e: nat)
    returns (y: Peer)
    requires Finished(w, c, start, s) && Among(w, k, x) && 1 <= k <= w.width && k <= c.limit
    requires p in AskAll(c.ask, start, s.trace) && e <= ID_BITS && Distance(p.id, x) < Pow2(e)
    ensures y in AskAll(c.ask, start, s.trace) && y.id == x
    decreases e
  {
    if e == 0 {
      DistanceZero(p.id, x);
      y := p;
    } else {
      var q := LearntCloser(w, c, start, s, k, x, p, e);
      y := LearntItself(w, c, start, s, k, x, q, e - 1);
    }
  }

  lemma TrimIsLive(w: Net, peers: seq<Peer>, k: nat)
    requires AllLive(w, peers)
    ensures AllLive(w, Trim(peers, k))
  {
    forall p | p in Trim(peers, k) ensures LivePeer(w, p) {
      assert p in peers;
    }
  }

  /** A finished search has every one of the `k` nearest live nodes among its first `k`. */
  lemma FinishedHasAll(w: Net, c: Params, start: seq<Peer>, s: Search, k: nat, x: NodeID)
    requires Finished(w, c, start, s) && s.shortlist != [] && Among(w, k, x) && 1 <= k <= w.width && k <= c.limit
    ensures HasId(Trim(s.shortlist, k), x)
  {
    var pool, r := AskAll(c.ask, start, s.trace), Trim(s.shortlist, k);
    assert s.shortlist[0] in s.shortlist;
    DistanceBound(s.shortlist[0].id, x);
    var y := LearntItself(w, c, start, s, k, x, s.shortlist[0], ID_BITS);
    DistanceZero(y.id, x);
    PrefixOfNearest(c.dist, pool, c.limit, s.shortlist, k);
    TrimIsLive(w, s.shortlist, k);
    var q := NearestHoldClose(w, k, x, pool, k, r, y, 0);
    DistanceZero(q.id, x);
    var i :| 0 <= i < |r| && r[i] == q;
  }

  // ---------------------------------------------------------------- and nobody else

  lemma {:induction false} NearestOf(w: Net, ys: set<NodeID>) returns (y: NodeID)
    requires ys != {}
    ensures y in ys && forall z :: z in ys ==> Distance(w.target, y) <= Distance(w.target, z)
    decreases |ys|
  {
    var z :| z in ys;
    if ys == {z} {
      y := z;
    } else {
      assert ys - {z} != {};
      y := NearestOf(w, ys - {z});
      if Distance(w.target, z) < Distance(w.target, y) { y := z; }
    }
  }

  /** Everyone nearer than the nearest missing node is there, and `x` is not one of them. */
  lemma NearestMissing(w: Net, ids: set<NodeID>, x: NodeID) returns (y: NodeID)
    requires x in ids && !(Nearer(w, x) <= ids)
    ensures y in w.tables && y !in ids && |Nearer(w, y)| < |ids|
  {
    var some :| some in Nearer(w, x) && some !in ids;
    assert some in Nearer(w, x) - ids;
    y := NearestOf(w, Nearer(w, x) - ids);
    forall z | z in Nearer(w, y) ensures z in ids - {x} {
      assert z in Nearer(w, x);
      assert z !in Nearer(w, x) - ids;
    }
    SubsetSize(Nearer(w, y), ids - {x});
  }

  /** A set of at most `k` live nodes that has all of the `k` nearest has nobody else. */
  lemma NobodyElse(w: Net, k: nat, ids: set<NodeID>, x: NodeID)
    requires |ids| <= k && ids <= w.tables.Keys && x in ids
    requires forall y :: Among(w, k, y) ==> y in ids
    ensures Among(w, k, x)
  {
    if Nearer(w, x) <= ids {
      assert x !in Nearer(w, x);
      SubsetSize(Nearer(w, x), ids - {x});
    } else {
      var y := NearestMissing(w, ids, x);
      assert Among(w, k, y);
      assert false;
    }
  }

  // ---------------------------------------------------------------- whole lookups

  lemma FinishedIsExact(w: Net, c: Params, start: seq<Peer>, s: Search, k: nat, x: NodeID)
    requires Finished(w, c, start, s) && s.shortlist != [] && 1 <= k <= w.width && k <= c.limit
    ensures HasId(Trim(s.shortlist, k), x) <==> Among(w, k, x)
  {
    var r := Trim(s.shortlist, k);
    forall y | Among(w, k, y) ensures HasId(r, y) {
      FinishedHasAll(w, c, start, s, k, y);
    }
    if HasId(r, x) {
      forall id | id in Ids(r) ensures id in w.tables.Keys {
        var i :| 0 <= i < |r| && r[i].id == id;
        assert r[i] in s.shortlist && LivePeer(w, r[i]);
      }
      IdCount(r);
      NobodyElse(w, k, Ids(r), x);
    }
  }

  lemma EndIsFinished(w: Net, c: Params, states: seq<Search>, i: nat)
    requires NetOk(w, c) && Injective(c.dist) && IsSearch(c, states) && i < |states|
    requires Lively(w, c, states[0]) && Disciplined(states[0]) && WellStarted(w, states[0])
    requires SearchNearest(c, states[0].shortlist, states[0]) && Batch(c, states[i]) == []
    ensures Finished(w, c, states[0].shortlist, states[i]) && states[i].shortlist != []
  {
    NearestThroughout(c, states[0].shortlist, states, i);
    LivelyThroughout(w, c, states, i);
    DisciplinedThroughout(c, states, i);
    EmptyBatchMeansAllQueried(states[i].shortlist, states[i].queried, c.alpha);
    HeadConverges(w, c, states, i);
  }

  lemma LastIsFinished(w: Net, c: Params, states: seq<Search>, n: nat)
    requires NetOk(w, c) && Injective(c.dist) && IsSearch(c, states)
    requires Lively(w, c, states[0]) && Disciplined(states[0]) && WellStarted(w, states[0])
    requires SearchNearest(c, states[0].shortlist, states[0])
    requires |states| <= n || n < |w.tables.Keys| ==> Batch(c, states[|states| - 1]) == []
    ensures Finished(w, c, states[0].shortlist, states[|states| - 1]) && states[|states| - 1].shortlist != []
  {
    if n >= |w.tables.Keys| { RunsOut(w, c, states, n); }
    EndIsFinished(w, c, states, |states| - 1);
  }

  lemma RoundsFinish(w: Net, c: Params, s: Search, n: nat)
    requires NetOk(w, c) && Injective(c.dist) && (Batch(c, Rounds(c, s, n)) == [] || n >= |w.tables.Keys|)
    requires Lively(w, c, s) && Disciplined(s) && WellStarted(w, s) && SearchNearest(c, s.shortlist, s)
    ensures Finished(w, c, s.shortlist, Rounds(c, s, n)) && Rounds(c, s, n).shortlist != []
  {
    var states := Unrolled(c, s, n);
    LastIsFinished(w, c, states, n);
  }

  lemma LookupStarts(w: Net, local: NodeID, ask: Requester, k: nat, alpha: nat)
    requires LookupSetting(w, local, ask, k, alpha)
    ensures var c, s := LookupParams(w.target, ask, k, alpha), Start(Closest(w.target, w.tables[local], k));
            && NetOk(w, c) && Injective(c.dist) && Lively(w, c, s) && Disciplined(s) && WellStarted(w, s)
            && SearchNearest(c, s.shortlist, s)
  {
    var c, start := LookupParams(w.target, ask, k, alpha), Closest(w.target, w.tables[local], k);
    StartIsWell(w, local, k);
    StartIsLively(w, c, start);
    DistanceToInjective(w.target);
    OrderedIsDistinct(c.dist, start);
    StartIsNearest(c, start);
  }

  /** In a complete static network in which answers have room for `k` peers, a lookup that ends with nobody
      left to ask returns exactly the `k` live nodes nearest the target. It is sure to end so if it has as
      many rounds as there are live nodes. */
  lemma LookupFindsAllNearest(w: Net, local: NodeID, ask: Requester, k: nat, alpha: nat, n: nat, x: NodeID)
    requires LookupSetting(w, local, ask, k, alpha) && w.width >= k
    requires n >= |w.tables.Keys| ||
             Batch(LookupParams(w.target, ask, k, alpha), Lookup(w.target, w.tables[local], ask, k, alpha, n)) == []
    ensures HasId(Trim(Lookup(w.target, w.tables[local], ask, k, alpha, n).shortlist, k), x) <==> Among(w, k, x)
  {
    var c, s := LookupParams(w.target, ask, k, alpha), Start(Closest(w.target, w.tables[local], k));
    LookupStarts(w, local, ask, k, alpha);
    RoundsFinish(w, c, s, n);
    FinishedIsExact(w, c, s.shortlist, Rounds(c, s, n), k, x);
  }
}

/** What the iterative lookup guarantees, for any peers' answers. */
module DhtSearch {
  import opened Counting
  import opened Sequences
  import opened DhtIds
  import opened DhtTable
  import opened DhtOrder
  import opened DhtRouting
  import opened DhtLookup

  // ---------------------------------------------------------------- rounds as a sequence of states

  ghost predicate Follows(c: Params, s: Search, s': Search) {
    Batch(c, s) != [] && s' == Round(c, s)
  }

  ghost predicate IsSearch(c: Params, states: seq<Search>) {
    && |states| >= 1
    && (forall i, j {:trigger Follows(c, states[i], states[j])} ::
          0 <= i < j < |states| && j == i + 1 ==> Follows(c, states[i], states[j]))
  }

  /** The states a lookup goes through. It terminates within its rounds, early only with nobody left
      to ask. */
  lemma {:induction false} Unrolled(c: Params, s: Search, n: nat) returns (states: seq<Search>)
    ensures IsSearch(c, states) && states[0] == s && states[|states| - 1] == Rounds(c, s, n)
    ensures |states| <= n + 1 && (|states| <= n ==> Batch(c, states[|states| - 1]) == [])
    decreases n
  {
    if n == 0 || Batch(c, s) == [] {
      states := [s];
    } else {
      var rest := Unrolled(c, Round(c, s), n - 1);
      SearchPrepend(c, s, rest);
      states := [s] + rest;
    }
  }

  lemma SearchPrepend(c: Params, s: Search, rest: seq<Search>)
    requires IsSearch(c, rest) && Follows(c, s, rest[0])
    ensures IsSearch(c, [s] + rest)
  {
    var states := [s] + rest;
    forall i, j | 0 <= i < j < |states| && j == i + 1 ensures Follows(c, states[i], states[j]) {
      if i > 0 { assert Follows(c, rest[i - 1], rest[i]); }
    }
  }

  // ---------------------------------------------------------------- counting identifiers

  lemma IdsOfSnoc(peers: seq<Peer>, p: Peer)
    ensures Ids(peers + [p]) == Ids(peers) + {p.id}
  {
    var all := peers + [p];
    forall id | id in Ids(peers) + {p.id} ensures id in Ids(all) {
      if id in Ids(peers) {
        var i :| 0 <= i < |peers| && peers[i].id == id;
        assert all[i].id == id;
      } else {
        assert all[|peers|].id == id;
      }
    }
  }

  lemma {:induction false} IdCount(peers: seq<Peer>)
    ensures |Ids(peers)| <= |peers|
    ensures DistinctIds(peers) ==> |Ids(peers)| == |peers|
  {
    if |peers| > 0 {
      var n := |peers| - 1;
      IdCount(peers[..n]);
      assert peers == peers[..n] + [peers[n]];
      IdsOfSnoc(peers[..n], peers[n]);
    } else {
      assert Ids(peers) == {};
    }
  }

  // ---------------------------------------------------------------- trimming loses nothing

  /** During a round `part` holds everything of `whole` except what is farther than all of `base`,
      a full shortlist whose identifiers `part` still has. */
  ghost predicate Lags(dist: Metric, limit: nat, base: seq<Peer>, part: seq<Peer>, whole: seq<Peer>) {
    && DistinctIds(part) && DistinctIds(whole)
    && (forall p :: p in part ==> p in whole)
    && (forall p :: p in base ==> HasId(part, p.id))
    && (forall p :: p in whole && p !in part ==> Outranked(dist, limit, base, p))
  }

  ghost predicate Outranked(dist: Metric, limit: nat, base: seq<Peer>, p: Peer) {
    |base| >= limit && Beyond(dist, base, p)
  }

  lemma UpsertLags(dist: Metric, limit: nat, base: seq<Peer>, part: seq<Peer>, whole: seq<Peer>, x: Peer)
    requires Lags(dist, limit, base, part, whole)
    ensures Lags(dist, limit, base, Upsert(part, x), Upsert(whole, x))
  {
    UpsertDistinct(part, x);
    UpsertDistinct(whole, x);
    forall p ensures p in Upsert(part, x) <==> p == x || (p in part && p.id != x.id) {
      UpsertMember(part, x, p);
    }
    forall p ensures p in Upsert(whole, x) <==> p == x || (p in whole && p.id != x.id) {
      UpsertMember(whole, x, p);
    }
    forall p | p in base ensures HasId(Upsert(part, x), p.id) {
      UpsertHasId(part, x, p.id);
    }
  }

  lemma {:induction false} MergeLags(dist: Metric, limit: nat, base: seq<Peer>, part: seq<Peer>, whole: seq<Peer>,
                                     incoming: seq<Peer>)
    requires Lags(dist, limit, base, part, whole)
    ensures Lags(dist, limit, base, Merge(part, incoming), Merge(whole, incoming))
  {
    if |incoming| > 0 {
      var n := |incoming| - 1;
      MergeLags(dist, limit, base, part, whole, incoming[..n]);
      if incoming[n].id != ZERO {
        UpsertLags(dist, limit, base, Merge(part, incoming[..n]), Merge(whole, incoming[..n]), incoming[n]);
      }
    }
  }

  lemma {:induction false} AskLags(dist: Metric, limit: nat, base: seq<Peer>, part: seq<Peer>, whole: seq<Peer>,
                                   ask: Requester, batch: seq<Peer>)
    requires Lags(dist, limit, base, part, whole)
    ensures Lags(dist, limit, base, AskAll(ask, part, batch), AskAll(ask, whole, batch))
  {
    if |batch| > 0 {
      var n := |batch| - 1;
      AskLags(dist, limit, base, part, whole, ask, batch[..n]);
      match ask(batch[n])
      case None =>
      case Some(answer) =>
        MergeLags(dist, limit, base, AskAll(ask, part, batch[..n]), AskAll(ask, whole, batch[..n]), answer);
    }
  }

  /** Whatever is outranked by a full base is also farther than the nearest `limit` of any list that
      has the base's identifiers. */
  lemma OutrankedIsFarther(dist: Metric, limit: nat, base: seq<Peer>, sorted: seq<Peer>, p: Peer, j: nat)
    requires Ordered(dist, sorted) && DistinctIds(base) && Outranked(dist, limit, base, p)
    requires forall b :: b in base ==> HasId(sorted, b.id)
    requires j < |sorted| && j < limit
    ensures dist(sorted[j].id) < dist(p.id)
  {
    if dist(sorted[j].id) >= dist(p.id) {
      forall id | id in Ids(base) ensures id in Ids(sorted[..j]) {
        var x :| 0 <= x < |base| && base[x].id == id;
        assert base[x] in base;
        var y :| 0 <= y < |sorted| && sorted[y].id == id;
        assert sorted[..j][y].id == id;
      }
      IdCount(base);
      IdCount(sorted[..j]);
      SubsetSize(Ids(base), Ids(sorted[..j]));
    }
  }

  lemma OutrankedIsBeyond(dist: Metric, limit: nat, base: seq<Peer>, sorted: seq<Peer>, p: Peer)
    requires Ordered(dist, sorted) && DistinctIds(base) && Outranked(dist, limit, base, p) && limit >= 1
    requires forall b :: b in base ==> HasId(sorted, b.id)
    ensures Beyond(dist, Trim(sorted, limit), p)
  {
    var r := Trim(sorted, limit);
    forall q | q in r ensures dist(q.id) < dist(p.id) {
      var j :| 0 <= j < |r| && r[j] == q;
      OutrankedIsFarther(dist, limit, base, sorted, p, j);
    }
  }

  lemma HasIdSameMembers(a: seq<Peer>, b: seq<Peer>, id: NodeID)
    requires SameMembers(a, b) && HasId(a, id)
    ensures HasId(b, id)
  {
    var i :| 0 <= i < |a| && a[i].id == id;
    assert a[i] in b;
  }

  lemma LagsSize(dist: Metric, limit: nat, base: seq<Peer>, part: seq<Peer>, whole: seq<Peer>)
    requires Lags(dist, limit, base, part, whole) && DistinctIds(base)
    ensures |part| <= |whole| && (|part| < limit ==> |whole| == |part|)
  {
    IdCount(part);
    IdCount(whole);
    IdCount(base);
    forall id | id in Ids(part) ensures id in Ids(whole) {
      var i :| 0 <= i < |part| && part[i].id == id;
      assert part[i] in whole;
    }
    SubsetSize(Ids(part), Ids(whole));
    if |part| < limit {
      forall id | id in Ids(base) ensures id in Ids(part) {
        var i :| 0 <= i < |base| && base[i].id == id;
        assert base[i] in base;
      }
      SubsetSize(Ids(base), Ids(part));
      forall id | id in Ids(whole) ensures id in Ids(part) {
        var i :| 0 <= i < |whole| && whole[i].id == id;
        assert whole[i] in whole;
        assert whole[i] in part;
      }
      SubsetSize(Ids(whole), Ids(part));
    }
  }

  lemma TrimmedPartIsNearest(dist: Metric, limit: nat, base: seq<Peer>, part: seq<Peer>, whole: seq<Peer>)
    requires Injective(dist) && limit >= 1 && DistinctIds(base) && Lags(dist, limit, base, part, whole)
    ensures IsNearest(dist, whole, limit, Trim(Sort(dist, part), limit))
  {
    var sorted := Sort(dist, part);
    var r := Trim(sorted, limit);
    SortedIsUnique(dist, part, sorted);
    SameMultisetSameMembers(sorted, part);
    LagsSize(dist, limit, base, part, whole);
    forall b | b in base ensures HasId(sorted, b.id) {
      HasIdSameMembers(part, sorted, b.id);
    }
    forall p | p in whole && p !in r ensures Beyond(dist, r, p) {
      if p in part {
        TrimmedAreBeyond(dist, sorted, limit, p);
      } else {
        OutrankedIsBeyond(dist, limit, base, sorted, p);
      }
    }
  }

  /** A shortlist that is the nearest `limit` of what has been seen lags behind it by nothing else. */
  lemma NearestLags(dist: Metric, limit: nat, shortlist: seq<Peer>, seen: seq<Peer>)
    requires IsNearest(dist, seen, limit, shortlist) && DistinctIds(seen)
    ensures Lags(dist, limit, shortlist, shortlist, seen)
  {
    OrderedIsDistinct(dist, shortlist);
    forall p | p in shortlist ensures HasId(shortlist, p.id) {
      var i :| 0 <= i < |shortlist| && shortlist[i] == p;
    }
    forall p | p in seen && p !in shortlist ensures Outranked(dist, limit, shortlist, p) {
      assert Beyond(dist, shortlist, p);
      if |shortlist| < limit {
        ShorterMissesNothing(shortlist, seen, p);
      }
    }
  }

  lemma ShorterMissesNothing(a: seq<Peer>, b: seq<Peer>, p: Peer)
    requires DistinctIds(a) && DistinctIds(b) && |a| == |b|
    requires (forall x :: x in a ==> x in b) && p in b
    ensures p in a
  {
    if p !in a {
      var i :| 0 <= i < |b| && b[i] == p;
      DropAtDistinct(b, i);
      var rest := DropAt(b, i);
      forall id | id in Ids(a) ensures id in Ids(rest) {
        var x :| 0 <= x < |a| && a[x].id == id;
        assert a[x] in b;
        DropAtMember(b, i, a[x]);
        var y :| 0 <= y < |b| && b[y] == a[x];
        assert y != i;
        assert a[x] in rest;
        var z :| 0 <= z < |rest| && rest[z] == a[x];
      }
      IdCount(a);
      IdCount(rest);
      SubsetSize(Ids(a), Ids(rest));
    }
  }

  ghost predicate SearchNearest(c: Params, start: seq<Peer>, s: Search) {
    && DistinctIds(AskAll(c.ask, start, s.trace))
    && IsNearest(c.dist, AskAll(c.ask, start, s.trace), c.limit, s.shortlist)
  }

  lemma {:induction false} AskAllConcat(ask: Requester, start: seq<Peer>, a: seq<Peer>, b: seq<Peer>)
    ensures AskAll(ask, start, a + b) == AskAll(ask, AskAll(ask, start, a), b)
  {
    if |b| == 0 {
      assert a + b == a;
    } else {
      var n := |b| - 1;
      AskAllConcat(ask, start, a, b[..n]);
      assert (a + b)[..|a + b| - 1] == a + b[..n];
    }
  }

  lemma RoundKeepsNearest(c: Params, start: seq<Peer>, s: Search, s': Search)
    requires Injective(c.dist) && c.limit >= 1 && SearchNearest(c, start, s) && Follows(c, s, s')
    ensures SearchNearest(c, start, s')
  {
    var batch, seen := Batch(c, s), AskAll(c.ask, start, s.trace);
    NearestLags(c.dist, c.limit, s.shortlist, seen);
    AskLags(c.dist, c.limit, s.shortlist, s.shortlist, seen, c.ask, batch);
    TrimmedPartIsNearest(c.dist, c.limit, s.shortlist, AskAll(c.ask, s.shortlist, batch), AskAll(c.ask, seen, batch));
    AskAllConcat(c.ask, start, s.trace, batch);
  }

  lemma {:induction false} NearestThroughout(c: Params, start: seq<Peer>, states: seq<Search>, i: nat)
    requires Injective(c.dist) && c.limit >= 1 && IsSearch(c, states) && i < |states|
    requires SearchNearest(c, start, states[0])
    ensures SearchNearest(c, start, states[i])
  {
    if i > 0 {
      NearestThroughout(c, start, states, i - 1);
      assert Follows(c, states[i - 1], states[i]);
      RoundKeepsNearest(c, start, states[i - 1], states[i]);
    }
  }

  lemma PrefixOfNearest(dist: Metric, pool: seq<Peer>, limit: nat, r: seq<Peer>, k: nat)
    requires IsNearest(dist, pool, limit, r) && 1 <= k <= limit
    ensures IsNearest(dist, pool, k, Trim(r, k))
  {
    forall p | p in pool && p !in Trim(r, k) ensures Beyond(dist, Trim(r, k), p) {
      if p in r {
        TrimmedAreBeyond(dist, r, k, p);
      } else {
        assert Beyond(dist, r, p);
      }
    }
  }

  /** Trimming loses nothing: although the shortlist is cut every round, a lookup returns exactly the
      `k` nearest of the initial shortlist and everything learnt from the queries it made. */
  lemma LookupReturnsNearest(c: Params, start: seq<Peer>, k: nat, n: nat)
    requires Injective(c.dist) && Ordered(c.dist, start) && 1 <= k <= c.limit && |start| <= c.limit
    ensures var s := Rounds(c, Start(start), n);
            IsNearest(c.dist, AskAll(c.ask, start, s.trace), k, Trim(s.shortlist, k))
  {
    RoundsKeepNearest(c, start, n);
    var s := Rounds(c, Start(start), n);
    PrefixOfNearest(c.dist, AskAll(c.ask, start, s.trace), c.limit, s.shortlist, k);
  }

  lemma RoundsKeepNearest(c: Params, start: seq<Peer>, n: nat)
    requires Injective(c.dist) && Ordered(c.dist, start) && c.limit >= 1 && |start| <= c.limit
    ensures SearchNearest(c, start, Rounds(c, Start(start), n))
  {
    OrderedIsDistinct(c.dist, start);
    StartIsNearest(c, start);
    var states := Unrolled(c, Start(start), n);
    NearestThroughout(c, start, states, |states| - 1);
  }

  lemma StartIsNearest(c: Params, start: seq<Peer>)
    requires Ordered(c.dist, start) && DistinctIds(start) && c.limit >= 1 && |start| <= c.limit
    ensures SearchNearest(c, start, Start(start))
  {
  }

  // ---------------------------------------------------------------- what has been learnt

  lemma {:induction false} MergeHasId(existing: seq<Peer>, incoming: seq<Peer>, id: NodeID)
    ensures HasId(Merge(existing, incoming), id) <==> HasId(existing, id) || (id != ZERO && HasId(incoming, id))
  {
    if |incoming| > 0 {
      var n := |incoming| - 1;
      MergeHasId(existing, incoming[..n], id);
      assert incoming == incoming[..n] + [incoming[n]];
      HasIdOfSnoc(incoming[..n], incoming[n], id);
      UpsertHasId(Merge(existing, incoming[..n]), incoming[n], id);
    }
  }

  ghost predicate LearntFrom(ask: Requester, p: Peer, id: NodeID) {
    id != ZERO && ask(p).Some? && HasId(ask(p).value, id)
  }

  /** The pool of a lookup: the initial identifiers and every non-zero identifier in a successful
      answer to one of its queries. */
  lemma {:induction false} PoolIsWhatWasLearnt(ask: Requester, start: seq<Peer>, trace: seq<Peer>, id: NodeID)
    ensures HasId(AskAll(ask, start, trace), id) <==>
            HasId(start, id) || exists p :: p in trace && LearntFrom(ask, p, id)
  {
    if |trace| > 0 {
      var n := |trace| - 1;
      PoolIsWhatWasLearnt(ask, start, trace[..n], id);
      assert trace == trace[..n] + [trace[n]];
      OneMoreAnswer(ask, AskAll(ask, start, trace[..n]), trace[n], id);
      assert AskAll(ask, start, trace) == Answered(ask, AskAll(ask, start, trace[..n]), trace[n]);
      forall p ensures p in trace <==> p == trace[n] || p in trace[..n] {
      }
    }
  }

  function Answered(ask: Requester, known: seq<Peer>, p: Peer): seq<Peer> {
    match ask(p)
    case None => known
    case Some(answer) => Merge(known, answer)
  }

  lemma OneMoreAnswer(ask: Requester, known: seq<Peer>, p: Peer, id: NodeID)
    ensures HasId(Answered(ask, known, p), id) <==> HasId(known, id) || LearntFrom(ask, p, id)
  {
    match ask(p)
    case None =>
    case Some(answer) => MergeHasId(known, answer, id);
  }

  // ---------------------------------------------------------------- discipline

  ghost predicate Disciplined(s: Search) {
    DistinctIds(s.trace) && s.queried == Ids(s.trace)
  }

  lemma {:induction false} UnqueriedIsFresh(shortlist: seq<Peer>, queried: set<NodeID>, alpha: nat)
    requires DistinctIds(shortlist)
    ensures var batch := Unqueried(shortlist, queried, alpha);
            DistinctIds(batch) && forall p :: p in batch ==> p in shortlist && p.id !in queried
  {
    if alpha > 0 && |shortlist| > 0 {
      var rest := shortlist[1..];
      if shortlist[0].id in queried {
        UnqueriedIsFresh(rest, queried, alpha);
      } else {
        UnqueriedIsFresh(rest, queried, alpha - 1);
        var batch := [shortlist[0]] + Unqueried(rest, queried, alpha - 1);
        forall i, j | 0 <= i < j < |batch| ensures batch[i].id != batch[j].id {
          assert batch[j] == Unqueried(rest, queried, alpha - 1)[j - 1];
          assert batch[j] in rest;
        }
      }
    }
  }

  lemma {:induction false} EmptyBatchMeansAllQueried(shortlist: seq<Peer>, queried: set<NodeID>, alpha: nat)
    requires alpha >= 1 && Unqueried(shortlist, queried, alpha) == []
    ensures forall p :: p in shortlist ==> p.id in queried
  {
    if |shortlist| > 0 {
      EmptyBatchMeansAllQueried(shortlist[1..], queried, alpha);
      assert shortlist == [shortlist[0]] + shortlist[1..];
    }
  }

  lemma {:induction false} AllQueriedMeansEmptyBatch(shortlist: seq<Peer>, queried: set<NodeID>, alpha: nat)
    requires forall p :: p in shortlist ==> p.id in queried
    ensures Unqueried(shortlist, queried, alpha) == []
  {
    if |shortlist| > 0 {
      assert shortlist[0] in shortlist;
      AllQueriedMeansEmptyBatch(shortlist[1..], queried, alpha);
    }
  }

  lemma IdsConcat(a: seq<Peer>, b: seq<Peer>)
    ensures Ids(a + b) == Ids(a) + Ids(b)
  {
    var all := a + b;
    forall id | id in Ids(a) + Ids(b) ensures id in Ids(all) {
      if id in Ids(a) {
        var i :| 0 <= i < |a| && a[i].id == id;
        assert all[i].id == id;
      } else {
        var i :| 0 <= i < |b| && b[i].id == id;
        assert all[|a| + i].id == id;
      }
    }
  }

  lemma RoundIsDisciplined(c: Params, s: Search)
    requires Disciplined(s) && SearchOk(c, s)
    ensures Disciplined(Round(c, s))
  {
    var batch := Batch(c, s);
    OrderedIsDistinct(c.dist, s.shortlist);
    UnqueriedIsFresh(s.shortlist, s.queried, c.alpha);
    IdsConcat(s.trace, batch);
    forall x, y | 0 <= x < |s.trace| && 0 <= y < |batch| ensures s.trace[x].id != batch[y].id {
      assert batch[y] in batch;
      assert s.trace[x].id in Ids(s.trace);
    }
    ConcatDistinct(s.trace, batch);
  }

  lemma TracedPeer(s: Search, id: NodeID) returns (p: Peer)
    requires s.queried == Ids(s.trace) && id in s.queried
    ensures p in s.trace && p.id == id
  {
    var i :| 0 <= i < |s.trace| && s.trace[i].id == id;
    p := s.trace[i];
  }

  lemma {:induction false} DisciplinedThroughout(c: Params, states: seq<Search>, i: nat)
    requires Injective(c.dist) && IsSearch(c, states) && i < |states|
    requires SearchOk(c, states[0]) && Disciplined(states[0])
    ensures SearchOk(c, states[i]) && Disciplined(states[i])
  {
    if i > 0 {
      DisciplinedThroughout(c, states, i - 1);
      assert Follows(c, states[i - 1], states[i]);
      RoundKeepsOrder(c, states[i - 1]);
      RoundIsDisciplined(c, states[i - 1]);
    }
  }

  /** No identifier is queried twice, and a lookup that stops before its last round has queried every
      peer it returns. */
  lemma LookupDiscipline(c: Params, start: seq<Peer>, n: nat)
    requires Injective(c.dist) && c.alpha >= 1 && Ordered(c.dist, start)
    ensures var s := Rounds(c, Start(start), n);
            && DistinctIds(s.trace) && s.queried == Ids(s.trace)
            && (Batch(c, s) == [] ==> forall p :: p in s.shortlist ==> p.id in Ids(s.trace))
  {
    var states := Unrolled(c, Start(start), n);
    DisciplinedThroughout(c, states, |states| - 1);
    var s := Rounds(c, Start(start), n);
    if Batch(c, s) == [] {
      EmptyBatchMeansAllQueried(s.shortlist, s.queried, c.alpha);
    }
  }

  // ---------------------------------------------------------------- how much each round asks

  lemma {:induction false} NotInIds(peers: seq<Peer>, queried: set<NodeID>)
    requires DistinctIds(peers)
    ensures DistinctIds(NotIn(peers, queried)) && Ids(NotIn(peers, queried)) == Ids(peers) - queried
  {
    if |peers| > 0 {
      var n := |peers| - 1;
      var before, last := peers[..n], peers[n];
      NotInIds(before, queried);
      assert peers == before + [last];
      IdsOfSnoc(before, last);
      assert NotIn(before, queried) + [] == NotIn(before, queried);
      if last.id !in queried {
        IdsOfSnoc(NotIn(before, queried), last);
        forall p | p in NotIn(before, queried) ensures p.id != last.id {
          NotInMember(before, queried, p);
        }
        SnocDistinct(NotIn(before, queried), last);
      }
    } else {
      assert Ids(peers) == {};
    }
  }

  /** A batch is as large as `alpha` and the identifiers not yet queried allow. */
  lemma BatchSize(shortlist: seq<Peer>, queried: set<NodeID>, alpha: nat, batch: seq<Peer>)
    requires DistinctIds(shortlist) && IsNextBatch(shortlist, queried, alpha, batch)
    ensures |batch| == Min(alpha, |Ids(shortlist) - queried|)
  {
    var m: nat :| Fills(shortlist, queried, alpha, batch, m);
    NotInIds(shortlist[..m], queried);
    IdCount(batch);
    assert shortlist[..|shortlist|] == shortlist;
    forall id | id in Ids(shortlist[..m]) ensures id in Ids(shortlist) {
      var i :| 0 <= i < m && shortlist[..m][i].id == id;
      assert shortlist[i].id == id;
    }
    SubsetSize(Ids(batch), Ids(shortlist) - queried);
  }

  // ---------------------------------------------------------------- the schedule of queries

  /** After the queries `before`, a round of a lookup with these parameters asks `batch`: of the `limit` nearest of
      all that has been learnt, the first `alpha` that have not been queried. */
  ghost predicate AsksNext(c: Params, start: seq<Peer>, before: seq<Peer>, batch: seq<Peer>) {
    exists nearest :: IsNearest(c.dist, AskAll(c.ask, start, before), c.limit, nearest) &&
                      IsNextBatch(nearest, Ids(before), c.alpha, batch)
  }

  /** `rounds` lists what each of at most `n` rounds asks; there are fewer only if nobody is left to ask. */
  ghost predicate Scheduled(c: Params, start: seq<Peer>, rounds: seq<seq<Peer>>, n: nat) {
    && |rounds| <= n
    && (forall i {:trigger rounds[i]} :: 0 <= i < |rounds| ==>
          rounds[i] != [] && AsksNext(c, start, Flatten(rounds[..i]), rounds[i]))
    && (|rounds| < n ==> AsksNext(c, start, Flatten(rounds), []))
  }

  lemma StateAsksNext(c: Params, start: seq<Peer>, s: Search)
    requires SearchNearest(c, start, s) && Disciplined(s)
    ensures AsksNext(c, start, s.trace, Batch(c, s))
  {
    UnqueriedIsNext(s.shortlist, s.queried, c.alpha);
  }

  /** What the first `i` rounds of a search have asked. */
  ghost predicate AskedSoFar(c: Params, start: seq<Peer>, s: Search, rounds: seq<seq<Peer>>) {
    Flatten(rounds) == s.trace && Scheduled(c, start, rounds, |rounds|)
  }

  lemma OneMoreRound(c: Params, start: seq<Peer>, s: Search, s': Search, rounds: seq<seq<Peer>>)
    requires AskedSoFar(c, start, s, rounds) && SearchNearest(c, start, s) && Disciplined(s) && Follows(c, s, s')
    ensures AskedSoFar(c, start, s', rounds + [Batch(c, s)])
  {
    var all := rounds + [Batch(c, s)];
    assert all[..|rounds|] == rounds;
    StateAsksNext(c, start, s);
    forall i | 0 <= i < |all| ensures all[i] != [] && AsksNext(c, start, Flatten(all[..i]), all[i]) {
      if i < |rounds| {
        assert all[..i] == rounds[..i] && all[i] == rounds[i];
      }
    }
  }

  lemma {:induction false} ScheduleUpTo(c: Params, start: seq<Peer>, states: seq<Search>, i: nat)
    returns (rounds: seq<seq<Peer>>)
    requires Injective(c.dist) && c.limit >= 1 && IsSearch(c, states) && i < |states|
    requires states[0] == Start(start) && SearchOk(c, states[0]) && SearchNearest(c, start, states[0])
    ensures |rounds| == i && AskedSoFar(c, start, states[i], rounds)
  {
    if i == 0 {
      rounds := [];
    } else {
      rounds := ScheduleUpTo(c, start, states, i - 1);
      NearestThroughout(c, start, states, i - 1);
      DisciplinedThroughout(c, states, i - 1);
      var s, s' := states[i - 1], states[i];
      assert Follows(c, s, s');
      OneMoreRound(c, start, s, s', rounds);
      rounds := rounds + [Batch(c, s)];
    }
  }

  lemma EndOfSchedule(c: Params, start: seq<Peer>, states: seq<Search>, n: nat) returns (rounds: seq<seq<Peer>>)
    requires Injective(c.dist) && c.limit >= 1 && IsSearch(c, states)
    requires states[0] == Start(start) && SearchOk(c, states[0]) && SearchNearest(c, start, states[0])
    requires |states| <= n + 1 && (|states| <= n ==> Batch(c, states[|states| - 1]) == [])
    ensures Scheduled(c, start, rounds, n) && Flatten(rounds) == states[|states| - 1].trace
  {
    var last := |states| - 1;
    rounds := ScheduleUpTo(c, start, states, last);
    NearestThroughout(c, start, states, last);
    DisciplinedThroughout(c, states, last);
    StateAsksNext(c, start, states[last]);
  }

  /** Exactly whom a lookup asks, and in which order: round by round, of the nearest candidates of all it has
      learnt so far, the first `alpha` that it has not asked. */
  lemma LookupSchedule(c: Params, start: seq<Peer>, n: nat) returns (rounds: seq<seq<Peer>>)
    requires Injective(c.dist) && Ordered(c.dist, start) && c.limit >= 1 && |start| <= c.limit
    ensures Scheduled(c, start, rounds, n) && Flatten(rounds) == Rounds(c, Start(start), n).trace
  {
    OrderedIsDistinct(c.dist, start);
    StartIsNearest(c, start);
    var states := Unrolled(c, Start(start), n);
    rounds := EndOfSchedule(c, start, states, n);
  }

  /** Each round asks as many as `alpha` and the candidates not yet asked allow. */
  lemma RoundSize(c: Params, start: seq<Peer>, rounds: seq<seq<Peer>>, n: nat, i: nat)
    returns (nearest: seq<Peer>)
    requires Scheduled(c, start, rounds, n) && i < |rounds|
    ensures IsNearest(c.dist, AskAll(c.ask, start, Flatten(rounds[..i])), c.limit, nearest)
    ensures |rounds[i]| == Min(c.alpha, |Ids(nearest) - Ids(Flatten(rounds[..i]))|)
  {
    assert AsksNext(c, start, Flatten(rounds[..i]), rounds[i]);
    nearest :| IsNearest(c.dist, AskAll(c.ask, start, Flatten(rounds[..i])), c.limit, nearest) &&
               IsNextBatch(nearest, Ids(Flatten(rounds[..i])), c.alpha, rounds[i]);
    OrderedIsDistinct(c.dist, nearest);
    BatchSize(nearest, Ids(Flatten(rounds[..i])), c.alpha, rounds[i]);
  }
}

/** Lookups in a static network in which every table is complete: they converge on the node nearest
    the target, one bit of distance per round. */
module DhtNetwork {
  import opened Counting
  import opened Wrappers
  import opened DhtIds
  import opened DhtBuckets
  import opened DhtTable
  import opened DhtOrder
  import opened DhtRouting
  import opened DhtLookup
  import opened DhtSearch

  /** The live nodes, each with what its routing table holds. */
  type Tables = map<NodeID, seq<Peer>>

  /** `a` knows only live nodes, and someone in each bucket that another live node belongs to. */
  ghost predicate CompleteTable(tables: Tables, a: NodeID)
    requires a in tables
  {
    && DistinctIds(tables[a])
    && (forall p :: p in tables[a] ==> p.id in tables && p.id != a)
    && (forall b {:trigger KnowsBucketOf(tables[a], a, b)} :: b in tables && b != a ==> KnowsBucketOf(tables[a], a, b))
  }

  ghost predicate KnowsBucketOf(known: seq<Peer>, a: NodeID, b: NodeID) {
    exists p :: p in known && p.id != a && BucketIndex(a, p.id) == BucketIndex(a, b)
  }

  ghost predicate Complete(tables: Tables) {
    ZERO !in tables && (forall a {:trigger CompleteTable(tables, a)} :: a in tables ==> CompleteTable(tables, a))
  }

  /** Every live node answers with the `width` peers of its table that are nearest the target. */
  ghost predicate Answers(tables: Tables, target: NodeID, width: nat, ask: Requester) {
    width >= 1 && (forall p: Peer {:trigger AnswersRightly(tables, target, width, ask, p)} ::
                     p.id in tables ==> AnswersRightly(tables, target, width, ask, p))
  }

  ghost predicate AnswersRightly(tables: Tables, target: NodeID, width: nat, ask: Requester, p: Peer)
    requires p.id in tables
  {
    ask(p) == Some(Closest(target, tables[p.id], width))
  }

  ghost predicate NearestLive(tables: Tables, target: NodeID, g: NodeID) {
    g in tables && (forall x {:trigger NoFarther(target, g, x)} :: x in tables ==> NoFarther(target, g, x))
  }

  ghost predicate NoFarther(target: NodeID, a: NodeID, b: NodeID) {
    Distance(target, a) <= Distance(target, b)
  }

  /** The first of the nearest peers is at least as near as any known peer. */
  lemma ClosestHead(target: NodeID, known: seq<Peer>, k: nat, p: Peer) returns (x: Peer)
    requires DistinctIds(known) && k >= 1 && p in known
    ensures Closest(target, known, k) != [] && x == Closest(target, known, k)[0] && x in known
    ensures Distance(target, x.id) <= Distance(target, p.id)
  {
    var dist, r := DistanceTo(target), Closest(target, known, k);
    DistanceToInjective(target);
    TrimmedSortIsNearest(dist, known, k);
    assert |known| > 0;
    x := r[0];
    assert x in r;
    if p in r {
      var i :| 0 <= i < |r| && r[i] == p;
    } else {
      assert Beyond(dist, r, p);
    }
    assert dist(x.id) <= dist(p.id);
  }

  /** One hop towards the nearest live node: the best peer in the answer of `q` is nearer the target,
      and its distance to that node has one bit less. */
  lemma Hop(tables: Tables, target: NodeID, g: NodeID, q: NodeID, width: nat, e: nat) returns (x: Peer)
    requires Complete(tables) && NearestLive(tables, target, g) && q in tables && q != g && width >= 1
    requires e <= ID_BITS && Distance(q, g) < Pow2(e)
    ensures x in Closest(target, tables[q], width) && x.id in tables
    ensures e > 0 && Distance(x.id, g) < Pow2(e - 1) && Distance(target, x.id) < Distance(target, q)
  {
    assert CompleteTable(tables, q) && KnowsBucketOf(tables[q], q, g);
    var p :| p in tables[q] && p.id != q && BucketIndex(q, p.id) == BucketIndex(q, g);
    x := ClosestHead(target, tables[q], width, p);
    BucketBounds(q, g);
    BucketBounds(q, p.id);
    ExponentIsInvolution(BucketIndex(q, g));
    assert NoFarther(target, g, q) && NoFarther(target, g, x.id);
    HopHalves(target, q, g, p.id, x.id, e, Exponent(BucketIndex(q, g)));
  }

  // ---------------------------------------------------------------- one round

  datatype Net = Net(tables: Tables, target: NodeID, g: NodeID, width: nat)

  ghost predicate NetOk(w: Net, c: Params) {
    && Complete(w.tables)
    && NearestLive(w.tables, w.target, w.g)
    && Answers(w.tables, w.target, w.width, c.ask)
    && c.dist == DistanceTo(w.target)
    && c.alpha >= 1 && c.limit >= 1
  }

  /** The head of the shortlist is within 2^e of the nearest live node, every identifier on the
      shortlist is live, and the head is nearer than everyone asked so far other than that node. */
  ghost predicate Closing(w: Net, s: Search, e: nat) {
    && s.shortlist != []
    && AllLive(w, s.shortlist)
    && Distance(s.shortlist[0].id, w.g) < Pow2(e)
    && (forall q {:trigger Beats(w, s.shortlist[0], q)} :: q in s.queried && q != w.g ==> Beats(w, s.shortlist[0], q))
  }

  ghost predicate AllLive(w: Net, peers: seq<Peer>) {
    forall p {:trigger LivePeer(w, p)} :: p in peers ==> LivePeer(w, p)
  }

  ghost predicate LivePeer(w: Net, p: Peer) {
    p.id in w.tables
  }

  ghost predicate Beats(w: Net, h: Peer, q: NodeID) {
    q in w.tables && Distance(w.target, h.id) < Distance(w.target, q)
  }

  /** Everything learnt in a round is live. */
  lemma AskedAreLive(w: Net, c: Params, s: Search, batch: seq<Peer>, id: NodeID)
    requires NetOk(w, c) && AllLive(w, s.shortlist)
    requires forall p :: p in batch ==> p in s.shortlist
    requires HasId(AskAll(c.ask, s.shortlist, batch), id)
    ensures id in w.tables
  {
    PoolIsWhatWasLearnt(c.ask, s.shortlist, batch, id);
    if HasId(s.shortlist, id) {
      var i :| 0 <= i < |s.shortlist| && s.shortlist[i].id == id;
      assert s.shortlist[i] in s.shortlist;
      assert LivePeer(w, s.shortlist[i]);
    } else {
      var p :| p in batch && LearntFrom(c.ask, p, id);
      assert LivePeer(w, p);
      var answer := Closest(w.target, w.tables[p.id], w.width);
      assert AnswersRightly(w.tables, w.target, w.width, c.ask, p);
      var i :| 0 <= i < |answer| && answer[i].id == id;
      assert answer[i] in answer;
      ClosestAreKnown(w.target, w.tables[p.id], w.width, answer[i]);
      assert CompleteTable(w.tables, p.id);
    }
  }

  lemma ClosestAreKnown(target: NodeID, known: seq<Peer>, k: nat, p: Peer)
    requires p in Closest(target, known, k)
    ensures p in known
  {
    SameMultisetSameMembers(Sort(DistanceTo(target), known), known);
    assert p in Sort(DistanceTo(target), known);
  }

  /** The head after a round is at least as near the target as anything the round knew. */
  lemma NewHeadIsNearest(w: Net, c: Params, s: Search, id: NodeID)
    requires NetOk(w, c) && SearchOk(c, s)
    requires HasId(AskAll(c.ask, s.shortlist, Batch(c, s)), id)
    ensures Round(c, s).shortlist != []
    ensures Distance(w.target, Round(c, s).shortlist[0].id) <= Distance(w.target, id)
  {
    var asked := AskAll(c.ask, s.shortlist, Batch(c, s));
    OrderedIsDistinct(c.dist, s.shortlist);
    AskAllDistinct(c.ask, s.shortlist, Batch(c, s));
    var i :| 0 <= i < |asked| && asked[i].id == id;
    assert asked[i] in asked;
    var x := ClosestHead(w.target, asked, c.limit, asked[i]);
  }

  lemma NewShortlistIsLive(w: Net, c: Params, s: Search)
    requires NetOk(w, c) && SearchOk(c, s) && AllLive(w, s.shortlist)
    ensures AllLive(w, Round(c, s).shortlist)
  {
    var batch := Batch(c, s);
    var asked := AskAll(c.ask, s.shortlist, batch);
    OrderedIsDistinct(c.dist, s.shortlist);
    UnqueriedIsFresh(s.shortlist, s.queried, c.alpha);
    forall p | p in Round(c, s).shortlist ensures LivePeer(w, p) {
      ClosestAreKnown(w.target, asked, c.limit, p);
      var i :| 0 <= i < |asked| && asked[i] == p;
      AskedAreLive(w, c, s, batch, p.id);
    }
  }

  /** A queried peer that is not the nearest node has told us of someone nearer than itself. */
  lemma QueriedIsBeaten(w: Net, c: Params, s: Search, q: Peer)
    requires NetOk(w, c) && SearchOk(c, s) && q in Batch(c, s) && q.id in w.tables && q.id != w.g
    ensures Round(c, s).shortlist != []
    ensures Distance(w.target, Round(c, s).shortlist[0].id) < Distance(w.target, q.id)
  {
    DistanceBound(q.id, w.g);
    var x := AnswerIsLearnt(w, c, s, q, ID_BITS);
    NewHeadIsNearest(w, c, s, x.id);
  }

  lemma AnswerIsLearnt(w: Net, c: Params, s: Search, q: Peer, e: nat) returns (x: Peer)
    requires NetOk(w, c) && q in Batch(c, s) && q.id in w.tables && q.id != w.g
    requires e <= ID_BITS && Distance(q.id, w.g) < Pow2(e)
    ensures HasId(AskAll(c.ask, s.shortlist, Batch(c, s)), x.id) && x.id in w.tables
    ensures e > 0 && Distance(x.id, w.g) < Pow2(e - 1) && Distance(w.target, x.id) < Distance(w.target, q.id)
  {
    x := Hop(w.tables, w.target, w.g, q.id, w.width, e);
    var answer := Closest(w.target, w.tables[q.id], w.width);
    assert AnswersRightly(w.tables, w.target, w.width, c.ask, q);
    var i :| 0 <= i < |answer| && answer[i] == x;
    assert HasId(answer, x.id);
    assert LearntFrom(c.ask, q, x.id);
    PoolIsWhatWasLearnt(c.ask, s.shortlist, Batch(c, s), x.id);
  }

  /** While the head has not been asked it is the first to be asked. */
  lemma UnaskedHeadIsNext(c: Params, s: Search)
    requires c.alpha >= 1 && s.shortlist != [] && s.shortlist[0].id !in s.queried
    ensures s.shortlist[0] in Batch(c, s)
  {
    assert Batch(c, s)[0] == s.shortlist[0];
  }

  lemma OldHeadIsKept(c: Params, s: Search)
    requires s.shortlist != []
    ensures HasId(AskAll(c.ask, s.shortlist, Batch(c, s)), s.shortlist[0].id)
  {
    assert HasId(s.shortlist, s.shortlist[0].id);
    PoolIsWhatWasLearnt(c.ask, s.shortlist, Batch(c, s), s.shortlist[0].id);
  }

  /** A head that has been asked, or that is the nearest live node, is that node. */
  lemma AskedHeadIsNearest(w: Net, s: Search, e: nat)
    requires Closing(w, s, e) && s.shortlist[0].id in s.queried
    ensures s.shortlist[0].id == w.g
  {
    var h := s.shortlist[0];
    assert h.id != w.g ==> Beats(w, h, h.id);
  }

  /** Each round clears the top bit of the remaining distance. */
  lemma HeadCloses(w: Net, c: Params, s: Search, e: nat)
    requires NetOk(w, c) && SearchOk(c, s) && Closing(w, s, e) && e <= ID_BITS
    ensures Round(c, s).shortlist != []
    ensures Distance(Round(c, s).shortlist[0].id, w.g) < Pow2(if e == 0 then 0 else e - 1)
  {
    var h, e' := s.shortlist[0], if e == 0 then 0 else e - 1;
    assert h in s.shortlist && LivePeer(w, h);
    OldHeadIsKept(c, s);
    NewHeadIsNearest(w, c, s, h.id);
    NewShortlistIsLive(w, c, s);
    var h' := Round(c, s).shortlist[0];
    assert h' in Round(c, s).shortlist && LivePeer(w, h');
    assert NoFarther(w.target, w.g, h'.id);
    if h.id == w.g {
      DistanceInjective(w.target, h'.id, w.g);
      DistanceZero(w.g, w.g);
    } else {
      assert h.id in s.queried ==> Beats(w, h, h.id);
      UnaskedHeadIsNext(c, s);
      var x := AnswerIsLearnt(w, c, s, h, e);
      NewHeadIsNearest(w, c, s, x.id);
      BetweenIsClose(w.target, w.g, h'.id, x.id, e');
    }
  }

  lemma RoundCloses(w: Net, c: Params, s: Search, e: nat)
    requires NetOk(w, c) && SearchOk(c, s) && Closing(w, s, e) && e <= ID_BITS
    ensures Closing(w, Round(c, s), if e == 0 then 0 else e - 1)
  {
    var s', batch := Round(c, s), Batch(c, s);
    HeadCloses(w, c, s, e);
    NewShortlistIsLive(w, c, s);
    OldHeadIsKept(c, s);
    NewHeadIsNearest(w, c, s, s.shortlist[0].id);
    OrderedIsDistinct(c.dist, s.shortlist);
    UnqueriedIsFresh(s.shortlist, s.queried, c.alpha);
    forall q | q in s'.queried && q != w.g ensures Beats(w, s'.shortlist[0], q) {
      if q in s.queried {
        assert Beats(w, s.shortlist[0], q);
      } else {
        var i :| 0 <= i < |batch| && batch[i].id == q;
        assert batch[i] in batch && LivePeer(w, batch[i]);
        QueriedIsBeaten(w, c, s, batch[i]);
      }
    }
  }

  // ---------------------------------------------------------------- the first shortlist

  /** All other live nodes are in the far half of the identifier space, seen from the nearest one. */
  ghost predicate Isolated(w: Net) {
    forall b {:trigger FarFrom(w, b)} :: b in w.tables && b != w.g ==> FarFrom(w, b)
  }

  ghost predicate FarFrom(w: Net, b: NodeID) {
    Distance(b, w.g) >= Pow2(ID_BITS - 1)
  }

  /** The first shortlist is one hop on already, or the next hop can only be the last. */
  ghost predicate WellStarted(w: Net, s: Search) {
    Closing(w, s, ID_BITS - 1) || (Closing(w, s, ID_BITS) && Isolated(w))
  }

  lemma KnownNearbyPeer(tables: Tables, g: NodeID, b: NodeID, e: nat) returns (p: Peer)
    requires Complete(tables) && g in tables && b in tables && b != g && Distance(b, g) < Pow2(e)
    ensures p in tables[g] && Distance(p.id, g) < Pow2(e)
  {
    assert CompleteTable(tables, g) && KnowsBucketOf(tables[g], g, b);
    p :| p in tables[g] && p.id != g && BucketIndex(g, p.id) == BucketIndex(g, b);
    BucketBounds(g, b);
    BucketBounds(g, p.id);
    DistanceSymmetric(g, b);
    DistanceSymmetric(g, p.id);
    SameRangeBound(g, b, p.id, Exponent(BucketIndex(g, b)), e);
  }

  lemma SameRangeBound(g: NodeID, b: NodeID, p: NodeID, f: nat, e: nat)
    requires InRange(g, b, f) && InRange(g, p, f) && Distance(g, b) < Pow2(e)
    ensures Distance(g, p) < Pow2(e)
  {
    if e <= f {
      Pow2Monotone(e, f);
    } else {
      Pow2Monotone(f + 1, e);
    }
  }

  lemma KnowsSomeone(tables: Tables, local: NodeID, other: NodeID) returns (p: Peer)
    requires Complete(tables) && local in tables && other in tables && other != local
    ensures p in tables[local] && p.id in tables
  {
    assert CompleteTable(tables, local) && KnowsBucketOf(tables[local], local, other);
    p :| p in tables[local] && p.id != local && BucketIndex(local, p.id) == BucketIndex(local, other);
  }

  /** Knowing a peer within 2^e of the nearest live node puts the head of the shortlist within 2^e. */
  lemma StartWithin(w: Net, local: NodeID, k: nat, p: Peer, e: nat)
    requires Complete(w.tables) && NearestLive(w.tables, w.target, w.g) && k >= 1 && local in w.tables
    requires p in w.tables[local] && e <= ID_BITS && Distance(p.id, w.g) < Pow2(e)
    ensures Closing(w, Start(Closest(w.target, w.tables[local], k)), e)
  {
    var start := Closest(w.target, w.tables[local], k);
    assert CompleteTable(w.tables, local);
    var x := ClosestHead(w.target, w.tables[local], k, p);
    forall q | q in start ensures LivePeer(w, q) {
      ClosestAreKnown(w.target, w.tables[local], k, q);
    }
    assert NoFarther(w.target, w.g, x.id);
    BetweenIsClose(w.target, w.g, x.id, p.id, e);
  }

  lemma StartFromOther(w: Net, local: NodeID, k: nat)
    requires Complete(w.tables) && NearestLive(w.tables, w.target, w.g) && k >= 1
    requires local in w.tables && local != w.g
    ensures Closing(w, Start(Closest(w.target, w.tables[local], k)), ID_BITS - 1)
  {
    DistanceBound(local, w.g);
    var x := Hop(w.tables, w.target, w.g, local, k, ID_BITS);
    ClosestAreKnown(w.target, w.tables[local], k, x);
    StartWithin(w, local, k, x, ID_BITS - 1);
  }

  lemma StartFromNearest(w: Net, k: nat, other: NodeID)
    requires Complete(w.tables) && NearestLive(w.tables, w.target, w.g) && k >= 1
    requires other in w.tables && other != w.g
    ensures WellStarted(w, Start(Closest(w.target, w.tables[w.g], k)))
  {
    if Isolated(w) {
      var p := KnowsSomeone(w.tables, w.g, other);
      DistanceBound(p.id, w.g);
      StartWithin(w, w.g, k, p, ID_BITS);
    } else {
      var b :| b in w.tables && b != w.g && !FarFrom(w, b);
      var p := KnownNearbyPeer(w.tables, w.g, b, ID_BITS - 1);
      StartWithin(w, w.g, k, p, ID_BITS - 1);
    }
  }

  lemma StartIsWell(w: Net, local: NodeID, k: nat)
    requires Complete(w.tables) && NearestLive(w.tables, w.target, w.g) && k >= 1
    requires local in w.tables && exists other :: other in w.tables && other != local
    ensures WellStarted(w, Start(Closest(w.target, w.tables[local], k)))
    ensures Ordered(DistanceTo(w.target), Closest(w.target, w.tables[local], k))
  {
    if local == w.g {
      var other :| other in w.tables && other != local;
      StartFromNearest(w, k, other);
    } else {
      StartFromOther(w, local, k);
    }
    assert CompleteTable(w.tables, local);
    DistanceToInjective(w.target);
    TrimmedSortIsNearest(DistanceTo(w.target), w.tables[local], k);
  }

  // ---------------------------------------------------------------- convergence

  /** Bits of distance that may remain after `i` rounds, for `i` at least 1. */
  function Remaining(i: nat): nat {
    if i < ID_BITS - 1 then ID_BITS - 1 - i else 0
  }

  lemma ClosingEarlier(w: Net, s: Search, e: nat, e': nat)
    requires Closing(w, s, e) && e <= e'
    ensures Closing(w, s, e')
  {
    Pow2Monotone(e, e');
  }

  lemma FirstRoundCloses(w: Net, c: Params, s: Search)
    requires NetOk(w, c) && SearchOk(c, s) && WellStarted(w, s)
    ensures Closing(w, Round(c, s), Remaining(1))
  {
    if Closing(w, s, ID_BITS - 1) {
      RoundCloses(w, c, s, ID_BITS - 1);
    } else {
      RoundCloses(w, c, s, ID_BITS);
      var h := Round(c, s).shortlist[0];
      assert h in Round(c, s).shortlist && LivePeer(w, h);
      assert h.id != w.g ==> FarFrom(w, h.id);
      DistanceZero(h.id, w.g);
      assert Pow2(0) == 1;
      ClosingEarlier(w, Round(c, s), 0, Remaining(1));
    }
  }

  /** After the first round the top bit of the remaining distance goes with every round. */
  lemma {:induction false} ClosingThroughout(w: Net, c: Params, states: seq<Search>, i: nat)
    requires NetOk(w, c) && Injective(c.dist) && IsSearch(c, states) && 0 < i < |states|
    requires SearchOk(c, states[0]) && WellStarted(w, states[0])
    ensures SearchOk(c, states[i]) && Closing(w, states[i], Remaining(i))
  {
    if i > 1 {
      ClosingThroughout(w, c, states, i - 1);
      StepCloses(w, c, states, i);
    } else {
      assert Follows(c, states[0], states[1]);
      RoundKeepsOrder(c, states[0]);
      FirstRoundCloses(w, c, states[0]);
    }
  }

  lemma StepCloses(w: Net, c: Params, states: seq<Search>, i: nat)
    requires NetOk(w, c) && Injective(c.dist) && IsSearch(c, states) && 0 < i < |states|
    requires SearchOk(c, states[i - 1]) && Closing(w, states[i - 1], Remaining(i - 1))
    ensures SearchOk(c, states[i]) && Closing(w, states[i], Remaining(i))
  {
    var s, s' := states[i - 1], states[i];
    assert Follows(c, s, s');
    RoundKeepsOrder(c, s);
    RoundCloses(w, c, s, Remaining(i - 1));
  }

  ghost predicate HasHead(s: Search, g: NodeID) {
    s.shortlist != [] && s.shortlist[0].id == g
  }

  ghost predicate LookupSetting(w: Net, local: NodeID, ask: Requester, k: nat, alpha: nat) {
    && Complete(w.tables) && NearestLive(w.tables, w.target, w.g) && Answers(w.tables, w.target, w.width, ask)
    && local in w.tables && (exists other :: other in w.tables && other != local)
    && k >= 1 && alpha >= 1
  }

  /** In every state of a lookup with at least 159 rounds behind it, or with nobody left to ask, the
      head of the shortlist is the nearest live node. */
  lemma HeadConverges(w: Net, c: Params, states: seq<Search>, i: nat)
    requires NetOk(w, c) && Injective(c.dist) && IsSearch(c, states) && i < |states|
    requires SearchOk(c, states[0]) && WellStarted(w, states[0])
    requires i >= ID_BITS - 1 || Batch(c, states[i]) == []
    ensures HasHead(states[i], w.g)
  {
    var e := if i == 0 then ID_BITS else Remaining(i);
    if i == 0 {
      StartCloses(w, states[0]);
    } else {
      ClosingThroughout(w, c, states, i);
    }
    if Batch(c, states[i]) == [] {
      AllAskedMeansNearest(w, c, states[i], e);
    } else {
      assert Pow2(0) == 1;
      DistanceZero(states[i].shortlist[0].id, w.g);
    }
  }

  lemma StartCloses(w: Net, s: Search)
    requires WellStarted(w, s)
    ensures Closing(w, s, ID_BITS)
  {
    if Closing(w, s, ID_BITS - 1) { ClosingEarlier(w, s, ID_BITS - 1, ID_BITS); }
  }

  lemma AllAskedMeansNearest(w: Net, c: Params, s: Search, e: nat)
    requires Closing(w, s, e) && c.alpha >= 1 && Batch(c, s) == []
    ensures HasHead(s, w.g)
  {
    EmptyBatchMeansAllQueried(s.shortlist, s.queried, c.alpha);
    assert s.shortlist[0] in s.shortlist;
    AskedHeadIsNearest(w, s, e);
  }

  // ---------------------------------------------------------------- lookups that run out of peers

  /** A search has learnt of live nodes only. */
  ghost predicate Lively(w: Net, c: Params, s: Search) {
    SearchOk(c, s) && AllLive(w, s.shortlist) && AllLive(w, s.trace)
  }

  lemma RoundIsLively(w: Net, c: Params, s: Search, s': Search)
    requires NetOk(w, c) && Injective(c.dist) && Lively(w, c, s) && Follows(c, s, s')
    ensures Lively(w, c, s')
  {
    RoundKeepsOrder(c, s);
    NewShortlistIsLive(w, c, s);
    OrderedIsDistinct(c.dist, s.shortlist);
    UnqueriedIsFresh(s.shortlist, s.queried, c.alpha);
    forall p | p in Round(c, s).trace ensures LivePeer(w, p) {
      if p in s.trace { assert LivePeer(w, p); } else { assert p in s.shortlist && LivePeer(w, p); }
    }
  }

  lemma {:induction false} LivelyThroughout(w: Net, c: Params, states: seq<Search>, i: nat)
    requires NetOk(w, c) && Injective(c.dist) && IsSearch(c, states) && i < |states| && Lively(w, c, states[0])
    ensures Lively(w, c, states[i])
  {
    if i > 0 {
      LivelyThroughout(w, c, states, i - 1);
      var s, s' := states[i - 1], states[i];
      assert Follows(c, s, s');
      RoundIsLively(w, c, s, s');
    }
  }

  /** Every round makes at least one more query. */
  lemma {:induction false} TraceGrows(c: Params, states: seq<Search>, i: nat)
    requires IsSearch(c, states) && i < |states|
    ensures |states[i].trace| >= i
  {
    if i > 0 {
      TraceGrows(c, states, i - 1);
      assert Follows(c, states[i - 1], states[i]);
    }
  }

  lemma EverybodyAsked(w: Net, c: Params, s: Search)
    requires Lively(w, c, s) && Disciplined(s) && |s.trace| >= |w.tables.Keys|
    ensures Batch(c, s) == []
  {
    forall id | id in Ids(s.trace) ensures id in w.tables.Keys {
      var i :| 0 <= i < |s.trace| && s.trace[i].id == id;
      assert LivePeer(w, s.trace[i]);
    }
    IdCount(s.trace);
    SubsetSize(Ids(s.trace), w.tables.Keys);
    forall p | p in s.shortlist ensures p.id in s.queried {
      assert LivePeer(w, p);
    }
    AllQueriedMeansEmptyBatch(s.shortlist, s.queried, c.alpha);
  }

  /** A search of at least as many rounds as there are live nodes ends with nobody left to ask. */
  lemma RunsOut(w: Net, c: Params, states: seq<Search>, n: nat)
    requires NetOk(w, c) && Injective(c.dist) && IsSearch(c, states) && n >= |w.tables.Keys|
    requires Lively(w, c, states[0]) && Disciplined(states[0])
    requires |states| <= n ==> Batch(c, states[|states| - 1]) == []
    ensures Batch(c, states[|states| - 1]) == []
  {
    var i := |states| - 1;
    if i >= n {
      LivelyThroughout(w, c, states, i);
      TraceGrows(c, states, i);
      DisciplinedThroughout(c, states, i);
      EverybodyAsked(w, c, states[i]);
    }
  }

  lemma StartIsLively(w: Net, c: Params, start: seq<Peer>)
    requires WellStarted(w, Start(start)) && Ordered(c.dist, start)
    ensures Lively(w, c, Start(start)) && Disciplined(Start(start))
  {
  }

  // ---------------------------------------------------------------- whole lookups

  lemma LastConverges(w: Net, c: Params, states: seq<Search>, n: nat)
    requires NetOk(w, c) && Injective(c.dist) && IsSearch(c, states) && (n >= ID_BITS - 1 || n >= |w.tables.Keys|)
    requires Lively(w, c, states[0]) && Disciplined(states[0]) && WellStarted(w, states[0])
    requires |states| <= n ==> Batch(c, states[|states| - 1]) == []
    ensures HasHead(states[|states| - 1], w.g)
  {
    if n >= |w.tables.Keys| { RunsOut(w, c, states, n); }
    HeadConverges(w, c, states, |states| - 1);
  }

  lemma RoundsConverge(w: Net, c: Params, s: Search, n: nat)
    requires NetOk(w, c) && Injective(c.dist) && (n >= ID_BITS - 1 || n >= |w.tables.Keys|)
    requires Lively(w, c, s) && Disciplined(s) && WellStarted(w, s)
    ensures HasHead(Rounds(c, s, n), w.g)
  {
    var states := Unrolled(c, s, n);
    LastConverges(w, c, states, n);
  }

  /** Convergence: in a complete static network a lookup from any node, for any target, has the live
      node nearest the target at the head of its result, one round inside the default of 160, or with
      as many rounds as there are live nodes. */
  lemma LookupConverges(w: Net, local: NodeID, ask: Requester, k: nat, alpha: nat, n: nat)
    requires LookupSetting(w, local, ask, k, alpha) && (n >= ID_BITS - 1 || n >= |w.tables.Keys|)
    ensures var result := Trim(Lookup(w.target, w.tables[local], ask, k, alpha, n).shortlist, k);
            result != [] && result[0].id == w.g
  {
    var start := Closest(w.target, w.tables[local], k);
    StartIsWell(w, local, k);
    DistanceToInjective(w.target);
    StartIsLively(w, LookupParams(w.target, ask, k, alpha), start);
    RoundsConverge(w, LookupParams(w.target, ask, k, alpha), Start(start), n);
  }
}

/** Storing and finding values: the node's handlers, the iterative store and the iterative value
    lookup, and the proof that in a complete static network what was stored is found. */
module DhtStore {
  import opened Wrappers
  import opened DhtIds
  import opened DhtTable
  import opened DhtOrder
  import opened DhtRouting
  import opened DhtLookup
  import opened DhtSearch
  import opened DhtNetwork
  import opened DhtNearest
  import opened DhtFindNode

  type Bytes = seq<Byte>

  type Store = map<string, Bytes>

  /** A FIND_VALUE answer: the value, or peers nearer the key. */
  datatype Reply = Value(value: Bytes) | Closer(peers: seq<Peer>)

  /** The FIND_VALUE call to a peer, for the lookup's key; `None` is an error. */
  type ValueRequester = Peer -> Option<Reply>

  class Node {
    const rt: RoutingTable
    var store: Store

    constructor (id: NodeID, size: int)
      ensures rt.Valid() && fresh(rt) && rt.local == id && store == map[]
      ensures rt.bucketSize == (if size <= 0 then 20 else size) && rt.Lists() == RunTable(id, rt.bucketSize, [])
    {
      rt := new RoutingTable(id, size);
      store := map[];
    }

    method StoreLocal(key: string, value: Bytes)
      modifies this`store
      ensures store == old(store)[key := value]
    {
      store := store[key := value];
    }

    method FindValueLocal(key: string) returns (r: Option<Bytes>)
      ensures r == if key in store then Some(store[key]) else None
    {
      if key !in store {
        return None;
      }
      return Some(store[key]);
    }

    /** The value if it is stored here, otherwise the nearest known peers and nothing else. */
    method HandleFindValue(key: string, keyId: NodeID, k: int) returns (r: Reply)
      requires rt.Valid()
      ensures key in store ==> r == Value(store[key])
      ensures key !in store && k > 0 ==> r == Closer(Closest(keyId, Flatten(rt.Lists()), k))
      ensures key !in store && k <= 0 ==> r == Closer([])
    {
      var found := FindValueLocal(key);
      if found.Some? {
        return Value(found.value);
      }
      var peers := rt.GetClosestPeers(keyId, k);
      return Closer(peers);
    }
  }

  // ---------------------------------------------------------------- finding a value

  /** The peers part of an answer. */
  function PeersOnly(ask: ValueRequester): Requester {
    p => match ask(p) { case Some(Closer(peers)) => Some(peers) case _ => None }
  }

  /** The first value that a peer of the batch answers with. */
  function FirstValue(ask: ValueRequester, batch: seq<Peer>): Option<Bytes> {
    if |batch| == 0 then None
    else match ask(batch[0]) {
      case Some(Value(v)) => Some(v)
      case _ => FirstValue(ask, batch[1..])
    }
  }

  datatype ValueResult = Got(value: Bytes) | NotFound(search: Search)

  function ValueRounds(c: Params, ask: ValueRequester, s: Search, n: nat): ValueResult
    decreases n
  {
    if n == 0 || Batch(c, s) == [] then NotFound(s)
    else match FirstValue(ask, Batch(c, s)) {
      case Some(v) => Got(v)
      case None => ValueRounds(c, ask, Round(c, s), n - 1)
    }
  }

  /** Asks the batch in turn, stopping at the first value. */
  method AskForValue(ask: ValueRequester, start: seq<Peer>, batch: seq<Peer>)
    returns (found: Option<Bytes>, shortlist: seq<Peer>)
    requires DistinctIds(start)
    ensures found == FirstValue(ask, batch)
    ensures found.None? ==> DistinctIds(shortlist) && SameMembers(shortlist, AskAll(PeersOnly(ask), start, batch))
  {
    shortlist := start;
    for i := 0 to |batch|
      invariant FirstValue(ask, batch) == FirstValue(ask, batch[i..])
      invariant DistinctIds(shortlist) && SameMembers(shortlist, AskAll(PeersOnly(ask), start, batch[..i]))
    {
      assert batch[i..][0] == batch[i] && batch[i..][1..] == batch[i + 1..];
      assert batch[..i + 1][..i] == batch[..i];
      AskAllDistinct(PeersOnly(ask), start, batch[..i]);
      var answer := ask(batch[i]);
      if answer.Some? {
        if answer.value.Value? {
          return Some(answer.value.value), shortlist;
        }
        MergeSameMembers(shortlist, AskAll(PeersOnly(ask), start, batch[..i]), answer.value.peers);
        shortlist := MergePeers(shortlist, answer.value.peers);
      }
    }
    assert batch[..|batch|] == batch;
    found := None;
  }

  /** The value search loop computes `ValueRounds`. */
  method ValueLoop(c: Params, ask: ValueRequester, start: seq<Peer>, maxRounds: nat, cancelled: nat -> bool)
    returns (r: ValueResult, ok: bool)
    requires Injective(c.dist) && Ordered(c.dist, start) && c.alpha >= 1 && c.ask == PeersOnly(ask)
    ensures ok ==> r == ValueRounds(c, ask, Start(start), maxRounds)
    ensures !ok ==> exists i :: 0 <= i < maxRounds && cancelled(i)
    ensures (forall i :: 0 <= i < maxRounds ==> !cancelled(i)) ==> ok
  {
    var s := Start(start);
    for round := 0 to maxRounds
      invariant SearchOk(c, s)
      invariant ValueRounds(c, ask, Start(start), maxRounds) == ValueRounds(c, ask, s, maxRounds - round)
    {
      if cancelled(round) {
        return NotFound(s), false;
      }
      var batch := NextUnqueried(s.shortlist, s.queried, c.alpha);
      if |batch| == 0 {
        return NotFound(s), true;
      }
      OrderedIsDistinct(c.dist, s.shortlist);
      var found, asked := AskForValue(ask, s.shortlist, batch);
      if found.Some? {
        return Got(found.value), true;
      }
      s := FinishRound(c, s, batch, asked);
    }
    return NotFound(s), true;
  }

  /** The outcome of a value lookup that is not cancelled. */
  function FindValue(target: NodeID, known: seq<Peer>, ask: ValueRequester, k: nat, alpha: nat,
                     maxRounds: nat): ValueResult {
    ValueRounds(LookupParams(target, PeersOnly(ask), k, alpha), ask, Start(Closest(target, known, k)), maxRounds)
  }

  datatype FindValueResult = HasValue(value: Bytes) | ValueNotFound(closest: seq<Peer>) | NobodyToAsk | Stopped

  /** `target` is the identifier of the key that `ask` asks for. */
  method IterativeFindValue(rt: RoutingTable, ask: ValueRequester, target: NodeID, optK: int, optAlpha: int,
                            optRounds: int,
                            cancelled: nat -> bool)
    returns (r: FindValueResult)
    requires rt.Valid()
    ensures var k, alpha, n := DefaultTo(optK, 20), DefaultTo(optAlpha, 3), DefaultTo(optRounds, ID_BITS);
            var known := Flatten(rt.Lists());
            && (r.NobodyToAsk? <==> known == [])
            && (r.HasValue? ==> FindValue(target, known, ask, k, alpha, n) == Got(r.value))
            && (r.ValueNotFound? ==> var f := FindValue(target, known, ask, k, alpha, n);
                                     f.NotFound? && r.closest == Trim(f.search.shortlist, k))
            && (r.Stopped? ==> exists i :: 0 <= i < n && cancelled(i))
            && ((forall i :: 0 <= i < n ==> !cancelled(i)) ==> !r.Stopped?)
  {
    var k, alpha, maxRounds := DefaultTo(optK, 20), DefaultTo(optAlpha, 3), DefaultTo(optRounds, ID_BITS);
    var shortlist := rt.GetClosestPeers(target, k);
    if |shortlist| == 0 {
      return NobodyToAsk;
    }
    DistanceToInjective(target);
    var c := LookupParams(target, PeersOnly(ask), k, alpha);
    var sorted := Resort(c.dist, shortlist);
    r := FindValueFrom(c, ask, sorted, k, maxRounds, cancelled);
  }

  method FindValueFrom(c: Params, ask: ValueRequester, start: seq<Peer>, k: nat, maxRounds: nat, cancelled: nat -> bool)
    returns (r: FindValueResult)
    requires Injective(c.dist) && Ordered(c.dist, start) && c.alpha >= 1 && c.ask == PeersOnly(ask)
    ensures !r.NobodyToAsk?
    ensures r.HasValue? ==> ValueRounds(c, ask, Start(start), maxRounds) == Got(r.value)
    ensures r.ValueNotFound? ==> var f := ValueRounds(c, ask, Start(start), maxRounds);
                                 f.NotFound? && r.closest == Trim(f.search.shortlist, k)
    ensures r.Stopped? ==> exists i :: 0 <= i < maxRounds && cancelled(i)
    ensures (forall i :: 0 <= i < maxRounds ==> !cancelled(i)) ==> !r.Stopped?
  {
    var f, ok := ValueLoop(c, ask, start, maxRounds, cancelled);
    if !ok {
      return Stopped;
    }
    match f
    case Got(value) => return HasValue(value);
    case NotFound(s) => return ValueNotFound(Trim(s.shortlist, k));
  }

  // ---------------------------------------------------------------- what a value lookup returns

  ghost predicate Holds(ask: ValueRequester, p: Peer) {
    ask(p).Some? && ask(p).value.Value?
  }

  /** `trace[j]` is the first of these peers to hold a value, and it holds `v`. */
  ghost predicate FirstHolder(ask: ValueRequester, trace: seq<Peer>, j: nat, v: Bytes) {
    j < |trace| && ask(trace[j]) == Some(Value(v)) && forall i :: 0 <= i < j ==> !Holds(ask, trace[i])
  }

  /** If nobody of `before` holds a value and `batch[i]` is the first of the batch to hold one, it is the first of
      everything that starts with these. */
  lemma FirstOfAll(ask: ValueRequester, before: seq<Peer>, batch: seq<Peer>, all: seq<Peer>, i: nat, v: Bytes)
    requires before + batch <= all && FirstHolder(ask, batch, i, v) && forall p :: p in before ==> !Holds(ask, p)
    ensures FirstHolder(ask, all, |before| + i, v)
  {
    forall j | 0 <= j < |before| + i ensures !Holds(ask, all[j]) {
      if j < |before| {
        assert all[j] == before[j];
      } else {
        assert all[j] == batch[j - |before|];
      }
    }
    assert all[|before| + i] == batch[i];
  }

  /** The value comes from the first holder in the batch; there is none only if nobody holds one. */
  lemma {:induction false} FirstValueIsFirst(ask: ValueRequester, batch: seq<Peer>)
    ensures FirstValue(ask, batch).None? ==> forall p :: p in batch ==> !Holds(ask, p)
    ensures FirstValue(ask, batch).Some? ==> exists i :: FirstHolder(ask, batch, i, FirstValue(ask, batch).value)
  {
    if |batch| > 0 {
      var rest := batch[1..];
      FirstValueIsFirst(ask, rest);
      assert batch == [batch[0]] + rest;
      if Holds(ask, batch[0]) {
        assert FirstHolder(ask, batch, 0, FirstValue(ask, batch).value);
      } else if FirstValue(ask, rest).Some? {
        var i: nat :| FirstHolder(ask, rest, i, FirstValue(ask, rest).value);
        assert forall p :: p in [batch[0]] ==> p == batch[0];
        FirstOfAll(ask, [batch[0]], rest, batch, i, FirstValue(ask, rest).value);
      }
    }
  }

  lemma {:induction false} AskAllAlike(a: Requester, b: Requester, shortlist: seq<Peer>, batch: seq<Peer>)
    requires forall p :: p in batch ==> a(p) == b(p)
    ensures AskAll(a, shortlist, batch) == AskAll(b, shortlist, batch)
  {
    if |batch| > 0 {
      AskAllAlike(a, b, shortlist, batch[..|batch| - 1]);
      assert batch[|batch| - 1] in batch;
    }
  }

  /** `full` answers as `ask` does, except that holders too answer with peers. */
  ghost predicate Extends(full: Requester, ask: ValueRequester) {
    forall p {:trigger Holds(ask, p)} :: !Holds(ask, p) ==> full(p) == PeersOnly(ask)(p)
  }

  /** A value lookup that finds nothing is a node lookup that has asked no holder. */
  lemma {:induction false} NotFoundMeansNoHolder(c: Params, ask: ValueRequester, full: Requester, s: Search, n: nat)
    requires c.ask == PeersOnly(ask) && Extends(full, ask) && ValueRounds(c, ask, s, n).NotFound?
    requires forall p :: p in s.trace ==> !Holds(ask, p)
    ensures ValueRounds(c, ask, s, n).search == Rounds(c.(ask := full), s, n)
    ensures forall p :: p in Rounds(c.(ask := full), s, n).trace ==> !Holds(ask, p)
    decreases n
  {
    if n > 0 && Batch(c, s) != [] {
      SameRound(c, ask, full, s);
      NotFoundMeansNoHolder(c, ask, full, Round(c, s), n - 1);
    }
  }

  lemma SameRound(c: Params, ask: ValueRequester, full: Requester, s: Search)
    requires c.ask == PeersOnly(ask) && Extends(full, ask) && FirstValue(ask, Batch(c, s)).None?
    requires forall p :: p in s.trace ==> !Holds(ask, p)
    ensures Round(c, s) == Round(c.(ask := full), s) && forall p :: p in Round(c, s).trace ==> !Holds(ask, p)
  {
    FirstValueIsFirst(ask, Batch(c, s));
    AskAllAlike(c.ask, full, s.shortlist, Batch(c, s));
  }

  lemma {:induction false} TraceIsKept(c: Params, s: Search, n: nat)
    ensures s.trace <= Rounds(c, s, n).trace
    decreases n
  {
    if n > 0 && Batch(c, s) != [] {
      TraceIsKept(c, Round(c, s), n - 1);
      PrefixTransitive(s.trace, Batch(c, s), Rounds(c, Round(c, s), n - 1).trace);
    }
  }

  lemma PrefixTransitive(a: seq<Peer>, b: seq<Peer>, all: seq<Peer>)
    requires a + b <= all
    ensures a <= all
  {
  }

  lemma BatchIsTraced(c: Params, s: Search, n: nat)
    requires n > 0 && Batch(c, s) != []
    ensures s.trace + Batch(c, s) <= Rounds(c, s, n).trace
  {
    TraceIsKept(c, Round(c, s), n - 1);
  }

  lemma FirstInBatch(c: Params, ask: ValueRequester, full: Requester, s: Search, n: nat)
    requires n > 0 && FirstValue(ask, Batch(c, s)).Some? && forall p :: p in s.trace ==> !Holds(ask, p)
    ensures exists j :: FirstHolder(ask, Rounds(c.(ask := full), s, n).trace, j, FirstValue(ask, Batch(c, s)).value)
  {
    var batch, c', v := Batch(c, s), c.(ask := full), FirstValue(ask, Batch(c, s)).value;
    FirstValueIsFirst(ask, batch);
    var i: nat :| FirstHolder(ask, batch, i, v);
    assert Batch(c', s) == batch;
    BatchIsTraced(c', s, n);
    FirstOfAll(ask, s.trace, batch, Rounds(c', s, n).trace, i, v);
  }

  /** Exactly what a value lookup returns: the value of the first holder that the node lookup would ask, and
      nothing only if that lookup would ask no holder. */
  lemma {:induction false} FindsFirstHolder(c: Params, ask: ValueRequester, full: Requester, s: Search, n: nat)
    requires c.ask == PeersOnly(ask) && Extends(full, ask) && forall p :: p in s.trace ==> !Holds(ask, p)
    ensures var trace := Rounds(c.(ask := full), s, n).trace;
            && (ValueRounds(c, ask, s, n).NotFound? ==> forall p :: p in trace ==> !Holds(ask, p))
            && (ValueRounds(c, ask, s, n).Got? ==>
                  exists j :: FirstHolder(ask, trace, j, ValueRounds(c, ask, s, n).value))
    decreases n
  {
    if n > 0 && Batch(c, s) != [] {
      if FirstValue(ask, Batch(c, s)).Some? {
        FirstInBatch(c, ask, full, s, n);
      } else {
        SameRound(c, ask, full, s);
        FindsFirstHolder(c, ask, full, Round(c, s), n - 1);
      }
    }
  }

  /** For the value lookup with the source's own parameters: let every holder answer with peers too, and the node
      lookup asks the same peers in the same order. The value lookup returns the value of the first holder among
      them, or, if there is none, what that lookup returns. */
  lemma ValueLookupLaw(target: NodeID, known: seq<Peer>, ask: ValueRequester, full: Requester, k: nat, alpha: nat,
                       n: nat)
    requires Extends(full, ask)
    ensures var f, lookup := FindValue(target, known, ask, k, alpha, n), Lookup(target, known, full, k, alpha, n);
            && (f.Got? <==> exists p :: p in lookup.trace && Holds(ask, p))
            && (f.Got? ==> exists j :: FirstHolder(ask, lookup.trace, j, f.value))
            && (f.NotFound? ==> f.search == lookup)
  {
    var c, s := LookupParams(target, PeersOnly(ask), k, alpha), Start(Closest(target, known, k));
    FindsFirstHolder(c, ask, full, s, n);
    var f, trace := ValueRounds(c, ask, s, n), Rounds(c.(ask := full), s, n).trace;
    if f.Got? {
      var j: nat :| FirstHolder(ask, trace, j, f.value);
      assert trace[j] in trace && Holds(ask, trace[j]);
    } else {
      NotFoundMeansNoHolder(c, ask, full, s, n);
    }
  }

  /** A value that is found was the answer of some peer. */
  lemma {:induction false} ValueIsHeld(c: Params, ask: ValueRequester, s: Search, n: nat) returns (p: Peer)
    requires ValueRounds(c, ask, s, n).Got?
    ensures ask(p) == Some(Value(ValueRounds(c, ask, s, n).value))
    decreases n
  {
    var batch := Batch(c, s);
    if FirstValue(ask, batch).Some? {
      FirstValueIsFirst(ask, batch);
      var i: nat :| FirstHolder(ask, batch, i, FirstValue(ask, batch).value);
      p := batch[i];
    } else {
      p := ValueIsHeld(c, ask, Round(c, s), n - 1);
    }
  }

  // ---------------------------------------------------------------- storing a value

  /** The stores of the live nodes after `peers` have been told to keep `value` under `key`. */
  function StoreAll(stores: map<NodeID, Store>, peers: seq<Peer>, key: string, value: Bytes): map<NodeID, Store> {
    if |peers| == 0 then stores
    else
      var n := |peers| - 1;
      var s := StoreAll(stores, peers[..n], key, value);
      if peers[n].id in s then s[peers[n].id := s[peers[n].id][key := value]] else s
  }

  /** Peer `i` refuses, and nobody before it does. */
  predicate FirstRefusal(closest: seq<Peer>, accepts: Peer -> bool, i: nat)
    requires i < |closest|
  {
    !accepts(closest[i]) && forall j :: 0 <= j < i ==> accepts(closest[j])
  }

  /** Tells each of the nearest peers to store the value; stops at the first that fails. */
  method StoreAtEach(stores: map<NodeID, Store>, closest: seq<Peer>, key: string, value: Bytes, accepts: Peer -> bool)
    returns (stores': map<NodeID, Store>, ok: bool)
    ensures ok <==> forall p :: p in closest ==> accepts(p)
    ensures ok ==> stores' == StoreAll(stores, closest, key, value)
    ensures !ok ==> exists i :: 0 <= i < |closest| && FirstRefusal(closest, accepts, i) &&
                                stores' == StoreAll(stores, closest[..i], key, value)
  {
    stores' := stores;
    for i := 0 to |closest|
      invariant stores' == StoreAll(stores, closest[..i], key, value)
      invariant forall j :: 0 <= j < i ==> accepts(closest[j])
    {
      assert closest[..i + 1][..i] == closest[..i];
      var p := closest[i];
      if !accepts(p) {
        assert FirstRefusal(closest, accepts, i);
        return stores', false;
      }
      if p.id in stores' {
        stores' := stores'[p.id := stores'[p.id][key := value]];
      }
    }
    assert closest[..|closest|] == closest;
    ok := true;
  }

  lemma {:induction false} StoreAllAt(stores: map<NodeID, Store>, peers: seq<Peer>, key: string, value: Bytes,
                                      id: NodeID)
    requires id in stores
    ensures var s := StoreAll(stores, peers, key, value);
            && s.Keys == stores.Keys
            && s[id] == if HasId(peers, id) then stores[id][key := value] else stores[id]
  {
    if |peers| > 0 {
      var n := |peers| - 1;
      StoreAllAt(stores, peers[..n], key, value, id);
      assert peers == peers[..n] + [peers[n]];
      HasIdOfSnoc(peers[..n], peers[n], id);
      var s := StoreAll(stores, peers[..n], key, value);
    }
  }

  datatype StoreResult = StoredAt(closest: seq<Peer>) | StoreFailed(closest: seq<Peer>) | NowhereToStore | StoreStopped

  /** The source's iterative store: find the nearest peers, then tell each to keep the value. */
  method IterativeStore(rt: RoutingTable, find: Requester, accepts: Peer -> bool, stores: map<NodeID, Store>,
                        key: string, target: NodeID, value: Bytes, optK: int, optAlpha: int, optRounds: int,
                        cancelled: nat -> bool)
    returns (r: StoreResult, stores': map<NodeID, Store>)
    requires rt.Valid()
    ensures var k, alpha, n := DefaultTo(optK, 20), DefaultTo(optAlpha, 3), DefaultTo(optRounds, ID_BITS);
            var known := Flatten(rt.Lists());
            var closest := Trim(Lookup(target, known, find, k, alpha, n).shortlist, k);
            && (r.NowhereToStore? <==> known == [])
            && (r.StoreStopped? ==> exists i :: 0 <= i < n && cancelled(i))
            && ((forall i :: 0 <= i < n ==> !cancelled(i)) ==> !r.StoreStopped?)
            && (r.NowhereToStore? || r.StoreStopped? ==> stores' == stores)
            && (r.StoredAt? ==> r.closest == closest && stores' == StoreAll(stores, closest, key, value)
                                && forall p :: p in closest ==> accepts(p))
            && (r.StoreFailed? ==> r.closest == closest)
            && (r.StoreFailed? ==>
                  exists i :: 0 <= i < |closest| && FirstRefusal(closest, accepts, i) &&
                              stores' == StoreAll(stores, closest[..i], key, value))
  {
    var found, _ := IterativeFindNode(rt, find, target, optK, optAlpha, optRounds, cancelled);
    match found
    case NoClosePeers => return NowhereToStore, stores;
    case Cancelled => return StoreStopped, stores;
    case Found(closest) => r, stores' := StoreFrom(stores, closest, key, value, accepts);
  }

  method StoreFrom(stores: map<NodeID, Store>, closest: seq<Peer>, key: string, value: Bytes, accepts: Peer -> bool)
    returns (r: StoreResult, stores': map<NodeID, Store>)
    ensures (r.StoredAt? || r.StoreFailed?) && r.closest == closest
    ensures r.StoredAt? ==> stores' == StoreAll(stores, closest, key, value) && forall p :: p in closest ==> accepts(p)
    ensures r.StoreFailed? ==> exists i :: 0 <= i < |closest| && FirstRefusal(closest, accepts, i) &&
                                           stores' == StoreAll(stores, closest[..i], key, value)
  {
    var ok;
    stores', ok := StoreAtEach(stores, closest, key, value, accepts);
    r := if ok then StoredAt(closest) else StoreFailed(closest);
  }

  // ---------------------------------------------------------------- store, then find

  /** In a static network: a live node that has the key answers with its value, another live node with
      the peers of its table nearest the key, and nobody else answers. */
  ghost predicate Serves(w: Net, stores: map<NodeID, Store>, key: string, ask: ValueRequester) {
    forall p: Peer {:trigger ServesRightly(w, stores, key, ask, p)} :: ServesRightly(w, stores, key, ask, p)
  }

  ghost predicate ServesRightly(w: Net, stores: map<NodeID, Store>, key: string, ask: ValueRequester, p: Peer) {
    ask(p) == if p.id !in w.tables then None
              else if HeldAt(stores, key, p.id) then Some(Value(stores[p.id][key]))
              else Some(Closer(Closest(w.target, w.tables[p.id], w.width)))
  }

  ghost predicate HeldAt(stores: map<NodeID, Store>, key: string, id: NodeID) {
    id in stores && key in stores[id]
  }

  /** What the same network answers to FIND_NODE. */
  function NodeAnswers(w: Net): Requester {
    (p: Peer) => if p.id in w.tables then Some(Closest(w.target, w.tables[p.id], w.width)) else None
  }

  lemma NodeAnswersFit(w: Net, stores: map<NodeID, Store>, key: string, ask: ValueRequester)
    requires Serves(w, stores, key, ask) && w.width >= 1
    ensures Extends(NodeAnswers(w), ask) && Answers(w.tables, w.target, w.width, NodeAnswers(w))
  {
    forall p | !Holds(ask, p) ensures NodeAnswers(w)(p) == PeersOnly(ask)(p) {
      assert ServesRightly(w, stores, key, ask, p);
    }
  }

  /** A search that has gone through 160 rounds, or has nobody left to ask, has asked the nearest live node. */
  lemma NearestIsAsked(w: Net, c: Params, states: seq<Search>, i: nat)
    requires NetOk(w, c) && Injective(c.dist) && IsSearch(c, states) && i < |states|
    requires SearchOk(c, states[0]) && WellStarted(w, states[0])
    requires i >= ID_BITS || Batch(c, states[i]) == []
    ensures w.g in states[i].queried
  {
    if Batch(c, states[i]) == [] {
      HeadConverges(w, c, states, i);
      EmptyBatchMeansAllQueried(states[i].shortlist, states[i].queried, c.alpha);
      assert states[i].shortlist[0] in states[i].shortlist;
    } else {
      var s := states[i - 1];
      HeadConverges(w, c, states, i - 1);
      assert Follows(c, s, states[i]);
      HeadIsAskedNext(c, s);
    }
  }

  lemma HeadIsAskedNext(c: Params, s: Search)
    requires c.alpha >= 1 && s.shortlist != []
    ensures s.shortlist[0].id in Round(c, s).queried
  {
    if s.shortlist[0].id !in s.queried {
      UnaskedHeadIsNext(c, s);
      var i :| 0 <= i < |Batch(c, s)| && Batch(c, s)[i] == s.shortlist[0];
    }
  }

  lemma EndAsksNearest(w: Net, c: Params, states: seq<Search>, n: nat)
    requires NetOk(w, c) && Injective(c.dist) && IsSearch(c, states) && (n >= ID_BITS || n >= |w.tables.Keys|)
    requires Lively(w, c, states[0]) && Disciplined(states[0]) && WellStarted(w, states[0])
    requires |states| <= n ==> Batch(c, states[|states| - 1]) == []
    ensures w.g in states[|states| - 1].queried
  {
    if n >= |w.tables.Keys| { RunsOut(w, c, states, n); }
    NearestIsAsked(w, c, states, |states| - 1);
  }

  lemma LastAsksNearest(w: Net, c: Params, s: Search, n: nat) returns (last: Search)
    requires NetOk(w, c) && Injective(c.dist) && (n >= ID_BITS || n >= |w.tables.Keys|)
    requires Lively(w, c, s) && Disciplined(s) && WellStarted(w, s)
    ensures last == Rounds(c, s, n) && w.g in last.queried
  {
    var states := Unrolled(c, s, n);
    EndAsksNearest(w, c, states, n);
    last := states[|states| - 1];
  }

  lemma RoundsAskNearest(w: Net, c: Params, start: seq<Peer>, n: nat) returns (p: Peer)
    requires NetOk(w, c) && Injective(c.dist) && (n >= ID_BITS || n >= |w.tables.Keys|)
    requires Ordered(c.dist, start) && WellStarted(w, Start(start))
    ensures p in Rounds(c, Start(start), n).trace && p.id == w.g
  {
    StartIsLively(w, c, start);
    var s := LastAsksNearest(w, c, Start(start), n);
    LookupDiscipline(c, start, n);
    p := TracedPeer(s, w.g);
  }

  lemma HolderAnswers(w: Net, stores: map<NodeID, Store>, key: string, ask: ValueRequester, p: Peer)
    requires Serves(w, stores, key, ask) && p.id in w.tables && HeldAt(stores, key, p.id)
    ensures Holds(ask, p)
  {
    assert ServesRightly(w, stores, key, ask, p);
  }

  /** A value lookup from any live node reaches the value once the live node nearest the key has one;
      what it returns is held by a live node under that key. */
  lemma FindValueSucceeds(w: Net, stores: map<NodeID, Store>, key: string, reader: NodeID, ask: ValueRequester,
                          k: nat, alpha: nat, n: nat)
    returns (holder: NodeID)
    requires LookupSetting(w, reader, NodeAnswers(w), k, alpha) && Serves(w, stores, key, ask)
    requires HeldAt(stores, key, w.g) && (n >= ID_BITS || n >= |w.tables.Keys|)
    ensures holder in w.tables && HeldAt(stores, key, holder)
    ensures FindValue(w.target, w.tables[reader], ask, k, alpha, n) == Got(stores[holder][key])
  {
    var c, start := LookupParams(w.target, PeersOnly(ask), k, alpha), Start(Closest(w.target, w.tables[reader], k));
    NodeAnswersFit(w, stores, key, ask);
    StartIsWell(w, reader, k);
    DistanceToInjective(w.target);
    if ValueRounds(c, ask, start, n).NotFound? {
      NotFoundMeansNoHolder(c, ask, NodeAnswers(w), start, n);
      var p := RoundsAskNearest(w, c.(ask := NodeAnswers(w)), start.shortlist, n);
      HolderAnswers(w, stores, key, ask, p);
      assert false;
    } else {
      var p := ValueIsHeld(c, ask, start, n);
      assert ServesRightly(w, stores, key, ask, p);
      holder := p.id;
    }
  }

  /** Where a value ends up: a store whose lookup has run out of peers to ask changes exactly the `k` live
      nodes nearest the key, and there only the key. */
  lemma StoredAtAllNearest(w: Net, stores: map<NodeID, Store>, key: string, value: Bytes, writer: NodeID,
                           find: Requester, k: nat, alpha: nat, n: nat, x: NodeID)
    requires LookupSetting(w, writer, find, k, alpha) && w.width >= k && stores.Keys == w.tables.Keys && x in stores
    requires n >= |w.tables.Keys| ||
             Batch(LookupParams(w.target, find, k, alpha), Lookup(w.target, w.tables[writer], find, k, alpha, n)) == []
    ensures var closest := Trim(Lookup(w.target, w.tables[writer], find, k, alpha, n).shortlist, k);
            && StoreAll(stores, closest, key, value).Keys == stores.Keys
            && StoreAll(stores, closest, key, value)[x] ==
                 if |Nearer(w, x)| < k then stores[x][key := value] else stores[x]
  {
    StoreAllAt(stores, Trim(Lookup(w.target, w.tables[writer], find, k, alpha, n).shortlist, k), key, value, x);
    LookupFindsAllNearest(w, writer, find, k, alpha, n, x);
  }

  /** Store, then find: in a complete static network where nobody holds another value for the key, a
      value stored from one node is found from any other, within the default of 160 rounds or with as many
      rounds as there are live nodes. */
  lemma StoredIsFound(w: Net, stores: map<NodeID, Store>, key: string, value: Bytes,
                      writer: NodeID, find: Requester, k: nat, alpha: nat, n: nat,
                      reader: NodeID, ask: ValueRequester, k': nat, alpha': nat, n': nat)
    requires LookupSetting(w, writer, find, k, alpha) && (n >= ID_BITS - 1 || n >= |w.tables.Keys|)
    requires LookupSetting(w, reader, NodeAnswers(w), k', alpha') && (n' >= ID_BITS || n' >= |w.tables.Keys|)
    requires stores.Keys == w.tables.Keys
    requires forall id :: HeldAt(stores, key, id) ==> stores[id][key] == value
    requires var closest := Trim(Lookup(w.target, w.tables[writer], find, k, alpha, n).shortlist, k);
             Serves(w, StoreAll(stores, closest, key, value), key, ask)
    ensures FindValue(w.target, w.tables[reader], ask, k', alpha', n') == Got(value)
  {
    var closest := Trim(Lookup(w.target, w.tables[writer], find, k, alpha, n).shortlist, k);
    LookupConverges(w, writer, find, k, alpha, n);
    assert HasId(closest, closest[0].id);
    StoreAllAt(stores, closest, key, value, w.g);
    var holder := FindValueSucceeds(w, StoreAll(stores, closest, key, value), key, reader, ask, k', alpha', n');
    StoreAllAt(stores, closest, key, value, holder);
    assert HeldAt(stores, key, holder) ==> stores[holder][key] == value;
  }
}

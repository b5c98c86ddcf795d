/** A sensor node's gossip state and handlers. */
module GossipNode {
  import opened Counting
  import opened Sequences
  import opened Wrappers
  import Propagation = GossipPropagation

  type Addr = string

  type MsgId = string

  /** A sensor reading; only whose it is matters to gossip. */
  datatype Reading = Reading(nodeId: string, data: string)

  datatype PeerInfo = PeerInfo(nodeId: string, addr: Addr)

  /** A gossip frame on its way to `dest`. */
  datatype Packet = Packet(id: MsgId, ttl: int, body: string, dest: Addr)

  function PacketsTo(targets: seq<Addr>, id: MsgId, ttl: int, body: string): (packets: seq<Packet>)
    ensures |packets| == |targets|
    ensures forall i :: 0 <= i < |packets| ==> packets[i] == Packet(id, ttl, body, targets[i])
  {
    seq(|targets|, i requires 0 <= i < |targets| => Packet(id, ttl, body, targets[i]))
  }

  // ---------------------------------------------------------------- addresses in order

  /** The order of the library's string sort: character by character, a prefix first. */
  predicate Leq(a: Addr, b: Addr) {
    |a| == 0 || (|b| > 0 && (a[0] < b[0] || (a[0] == b[0] && Leq(a[1..], b[1..]))))
  }

  lemma LeqTotal(a: Addr, b: Addr)
    ensures Leq(a, b) || Leq(b, a)
  {
  }

  lemma LeqTransitive(a: Addr, b: Addr, c: Addr)
    requires Leq(a, b) && Leq(b, c)
    ensures Leq(a, c)
  {
  }

  ghost predicate InOrder(list: seq<Addr>) {
    forall i, j :: 0 <= i < j < |list| ==> Leq(list[i], list[j])
  }

  /** `x` fits between what comes before place `i` and what comes after. */
  ghost predicate Fits(list: seq<Addr>, i: nat, x: Addr) {
    && (forall j :: 0 <= j < i && j < |list| ==> Leq(list[j], x))
    && (forall j :: i <= j < |list| ==> Leq(x, list[j]))
  }

  lemma FitsBetween(list: seq<Addr>, i: nat, x: Addr)
    requires InOrder(list) && i <= |list| && (i > 0 ==> Leq(list[i - 1], x)) && (i < |list| ==> Leq(x, list[i]))
    ensures Fits(list, i, x)
  {
    forall j | 0 <= j < i ensures Leq(list[j], x) {
      if j < i - 1 { LeqTransitive(list[j], list[i - 1], x); }
    }
    forall j | i <= j < |list| ensures Leq(x, list[j]) {
      if j > i { LeqTransitive(x, list[i], list[j]); }
    }
  }

  lemma InsertInOrder(list: seq<Addr>, i: nat, x: Addr)
    requires InOrder(list) && i <= |list| && Fits(list, i, x)
    ensures InOrder(InsertAt(list, i, x)) && multiset(InsertAt(list, i, x)) == multiset(list) + multiset{x}
  {
    forall p, q | 0 <= p < q < |InsertAt(list, i, x)| ensures Leq(InsertAt(list, i, x)[p], InsertAt(list, i, x)[q]) {
      PairInOrder(list, i, x, p, q);
    }
    InsertAtAdds(list, i, x);
  }

  lemma PairInOrder(list: seq<Addr>, i: nat, x: Addr, p: nat, q: nat)
    requires InOrder(list) && i <= |list| && Fits(list, i, x) && p < q <= |list|
    ensures Leq(InsertAt(list, i, x)[p], InsertAt(list, i, x)[q])
  {
    var r := InsertAt(list, i, x);
    assert r[p] == if p < i then list[p] else if p == i then x else list[p - 1];
    assert r[q] == if q < i then list[q] else if q == i then x else list[q - 1];
  }

  method SortAddrs(addrs: seq<Addr>) returns (sorted: seq<Addr>)
    ensures InOrder(sorted) && multiset(sorted) == multiset(addrs)
  {
    sorted := [];
    for n := 0 to |addrs|
      invariant InOrder(sorted) && multiset(sorted) == multiset(addrs[..n])
    {
      var i := |sorted|;
      while i > 0 && !Leq(sorted[i - 1], addrs[n])
        invariant 0 <= i <= |sorted|
        invariant i < |sorted| ==> Leq(addrs[n], sorted[i])
      {
        LeqTotal(sorted[i - 1], addrs[n]);
        i := i - 1;
      }
      FitsBetween(sorted, i, addrs[n]);
      InsertInOrder(sorted, i, addrs[n]);
      assert addrs[..n + 1] == addrs[..n] + [addrs[n]];
      sorted := InsertAt(sorted, i, addrs[n]);
    }
    assert addrs[..|addrs|] == addrs;
  }

  // ---------------------------------------------------------------- what a node does with a frame

  datatype Verdict = Duplicate | Rejected | Kept(reading: Reading) | Relayed(reading: Reading, ttl: nat)

  /** `ttl` and `reading` are what the frame's fields parse to. */
  function Judge(seen: set<MsgId>, id: MsgId, ttl: Option<int>, reading: Option<Reading>): Verdict {
    if id in seen then Duplicate
    else if ttl.None? || ttl.value < 0 || reading.None? then Rejected
    else if ttl.value == 0 then Kept(reading.value)
    else Relayed(reading.value, ttl.value - 1)
  }

  datatype View = View(addr: Addr, nodeId: string, peers: set<Addr>, seen: set<MsgId>, readings: map<string, Reading>)

  /** The node after the verdict on frame `id`; a rejected frame is remembered all the same. */
  function Record(v: View, id: MsgId, verdict: Verdict): View {
    match verdict
    case Duplicate => v
    case Rejected => v.(seen := v.seen + {id})
    case _ => v.(seen := v.seen + {id}, readings := v.readings[verdict.reading.nodeId := verdict.reading])
  }

  /** A frame is accepted if it is new, has a hop counter that is not negative, and can be decoded. Only then
      is its reading stored, under the node that took it, and it is relayed if hops are left. Every frame is
      remembered. */
  predicate Accepts(seen: set<MsgId>, id: MsgId, ttl: Option<int>, reading: Option<Reading>) {
    id !in seen && ttl.Some? && ttl.value >= 0 && reading.Some?
  }

  lemma FrameLaw(v: View, id: MsgId, ttl: Option<int>, reading: Option<Reading>)
    ensures var verdict := Judge(v.seen, id, ttl, reading);
            var v' := Record(v, id, verdict);
            && v'.addr == v.addr && v'.nodeId == v.nodeId && v'.peers == v.peers && v'.seen == v.seen + {id}
            && v'.readings == (if Accepts(v.seen, id, ttl, reading) then
                                 v.readings[reading.value.nodeId := reading.value] else v.readings)
            && (verdict.Relayed? <==> Accepts(v.seen, id, ttl, reading) && ttl.value > 0)
            && (verdict.Relayed? ==> verdict.ttl == ttl.value - 1)
  {
    assert id in v.seen ==> v.seen + {id} == v.seen;
  }

  // ---------------------------------------------------------------- whom a node sends to

  /** The known peers and the coordinator, without the node itself, in some order. A coordinator that
      is also a peer is listed twice. */
  ghost predicate Candidates(v: View, coordinator: Addr, list: seq<Addr>) {
    multiset(list) == multiset(v.peers - {v.addr}) +
                      (if coordinator != "" && coordinator != v.addr then multiset{coordinator} else multiset{})
  }

  ghost predicate Chosen(v: View, coordinator: Addr, fanout: int, targets: seq<Addr>) {
    if fanout <= 0 then targets == []
    else exists list :: Candidates(v, coordinator, list) && Propagation.Selection(list, fanout, targets)
  }

  /** `sent` is one frame to each of some choice of targets. */
  ghost predicate Sends(v: View, coordinator: Addr, fanout: int, id: MsgId, ttl: int, body: string, sent: seq<Packet>) {
    exists targets :: Chosen(v, coordinator, fanout, targets) && sent == PacketsTo(targets, id, ttl, body)
  }

  function LinksFrom(v: View, coordinator: Addr): set<Addr> {
    (v.peers + if coordinator != "" then {coordinator} else {}) - {v.addr}
  }

  lemma CandidatesAreLinks(v: View, coordinator: Addr, list: seq<Addr>, a: Addr)
    requires Candidates(v, coordinator, list)
    ensures a in list <==> a in LinksFrom(v, coordinator)
  {
    assert a in list <==> multiset(list)[a] > 0;
  }

  /** A node's other peers, and once more the coordinator. */
  function LinkCount(v: View, coordinator: Addr): nat {
    |v.peers - {v.addr}| + if coordinator != "" && coordinator != v.addr then 1 else 0
  }

  lemma CandidateCount(v: View, coordinator: Addr, list: seq<Addr>)
    requires Candidates(v, coordinator, list)
    ensures |list| == LinkCount(v, coordinator) <= |v.peers| + 1
  {
    assert |multiset(list)| == |list|;
    assert v.peers - {v.addr} <= v.peers;
    assert v.peers == (v.peers - {v.addr}) + (v.peers * {v.addr});
  }

  /** As many frames as fanout and links allow, only along links, never to itself; along every link if the
      fanout allows. */
  lemma ChosenBounds(v: View, coordinator: Addr, fanout: int, targets: seq<Addr>)
    requires Chosen(v, coordinator, fanout, targets)
    ensures |targets| <= if fanout <= 0 then 0 else fanout
    ensures fanout > 0 ==> |targets| == Min(fanout, LinkCount(v, coordinator))
    ensures forall t :: t in targets ==> t in LinksFrom(v, coordinator)
    ensures fanout > |v.peers| ==> forall t :: t in LinksFrom(v, coordinator) ==> t in targets
  {
    if fanout > 0 {
      var list :| Candidates(v, coordinator, list) && Propagation.Selection(list, fanout, targets);
      CandidateCount(v, coordinator, list);
      forall t ensures t in list <==> t in LinksFrom(v, coordinator) {
        CandidatesAreLinks(v, coordinator, list, t);
      }
      forall t | t in targets ensures t in list {
        Propagation.SelectedArePeers(list, fanout, targets, t);
      }
      if fanout > |v.peers| {
        forall t | t in list ensures t in targets {
          Propagation.AllSelected(list, fanout, targets, t);
        }
      }
    }
  }

  // ---------------------------------------------------------------- the node

  class NodeState {
    const self: PeerInfo
    var peers: map<Addr, PeerInfo>
    var readings: map<string, Reading>
    var seenGossip: set<MsgId>

    constructor (self: PeerInfo)
      ensures this.self == self && Abs() == View(self.addr, self.nodeId, {}, {}, map[])
    {
      this.self := self;
      peers, readings, seenGossip := map[], map[], {};
    }

    function Abs(): View
      reads this
    {
      View(self.addr, self.nodeId, peers.Keys, seenGossip, readings)
    }

    method UpsertPeer(peer: PeerInfo)
      modifies this`peers
      ensures peers == if peer.addr == "" then old(peers) else old(peers)[peer.addr := peer]
    {
      if peer.addr == "" {
        return;
      }
      peers := peers[peer.addr := peer];
    }

    method PeerAddrs() returns (addrs: seq<Addr>)
      ensures InOrder(addrs) && multiset(addrs) == multiset{self.addr} + multiset(peers.Keys)
    {
      addrs := [self.addr];
      var rest := peers.Keys;
      while rest != {}
        invariant rest <= peers.Keys
        invariant multiset(addrs) == multiset{self.addr} + multiset(peers.Keys - rest)
        decreases rest
      {
        var a :| a in rest;
        assert peers.Keys - (rest - {a}) == (peers.Keys - rest) + {a};
        rest := rest - {a};
        addrs := addrs + [a];
      }
      assert peers.Keys - rest == peers.Keys;
      addrs := SortAddrs(addrs);
    }

    method SetReading(reading: Reading)
      modifies this`readings
      ensures readings == old(readings)[reading.nodeId := reading]
    {
      readings := readings[reading.nodeId := reading];
    }

    /** True exactly the first time. */
    method ShouldProcessGossip(id: MsgId) returns (first: bool)
      modifies this`seenGossip
      ensures first <==> id !in old(seenGossip)
      ensures seenGossip == old(seenGossip) + {id}
    {
      if id in seenGossip {
        return false;
      }
      seenGossip := seenGossip + {id};
      return true;
    }

    method WithoutSelf(peers: seq<Addr>) returns (filtered: seq<Addr>)
      ensures multiset(filtered) == multiset(peers)[self.addr := 0]
    {
      filtered := [];
      for i := 0 to |peers|
        invariant multiset(filtered) == multiset(peers[..i])[self.addr := 0]
      {
        assert peers[..i + 1] == peers[..i] + [peers[i]];
        if peers[i] != self.addr {
          filtered := filtered + [peers[i]];
        }
      }
      assert peers[..|peers|] == peers;
    }

    method SelectGossipTargets(coordinator: Addr, fanout: int) returns (targets: seq<Addr>)
      ensures Chosen(Abs(), coordinator, fanout, targets)
    {
      var addrs := PeerAddrs();
      if coordinator != "" {
        addrs := addrs + [coordinator];
      }
      var filtered := WithoutSelf(addrs);
      FilteredAreCandidates(coordinator, addrs, filtered);
      if fanout <= 0 || |filtered| == 0 {
        return [];
      }
      targets := Propagation.SelectRandomPeers(filtered, fanout);
    }

    lemma FilteredAreCandidates(coordinator: Addr, addrs: seq<Addr>, filtered: seq<Addr>)
      requires multiset(addrs) == multiset{self.addr} + multiset(peers.Keys) +
                                  (if coordinator != "" then multiset{coordinator} else multiset{})
      requires multiset(filtered) == multiset(addrs)[self.addr := 0]
      ensures Candidates(Abs(), coordinator, filtered)
    {
    }

    /** Sending is attempted in turn; a failed attempt does not stop the others. */
    method Send(coordinator: Addr, fanout: int, id: MsgId, ttl: int, body: string) returns (sent: seq<Packet>)
      ensures Sends(Abs(), coordinator, fanout, id, ttl, body, sent)
    {
      var targets := SelectGossipTargets(coordinator, fanout);
      sent := [];
      for i := 0 to |targets|
        invariant sent == PacketsTo(targets[..i], id, ttl, body)
      {
        sent := sent + [Packet(id, ttl, body, targets[i])];
      }
      assert targets[..|targets|] == targets;
    }

    method GossipBroadcast(id: MsgId, coordinator: Addr, fanout: int, ttl: int, encoded: Option<string>)
      returns (sent: seq<Packet>, ok: bool)
      modifies this`seenGossip
      ensures ok <==> encoded.Some?
      ensures !ok ==> sent == [] && seenGossip == old(seenGossip)
      ensures ok ==> seenGossip == old(seenGossip) + {id}
      ensures ok ==> Sends(Abs(), coordinator, fanout, id, ttl, encoded.value, sent)
    {
      if encoded.None? {
        return [], false;
      }
      var _ := ShouldProcessGossip(id);
      sent := Send(coordinator, fanout, id, ttl, encoded.value);
      return sent, true;
    }

    /** One turn of the sensor loop: the node keeps its own reading, then broadcasts it if it can be
        encoded. A reading that cannot be encoded is kept all the same. */
    method Publish(reading: Reading, id: MsgId, coordinator: Addr, fanout: int, ttl: int, encoded: Option<string>)
      returns (sent: seq<Packet>, ok: bool)
      requires reading.nodeId == self.nodeId
      modifies this`seenGossip, this`readings
      ensures readings == old(readings)[self.nodeId := reading]
      ensures ok <==> encoded.Some?
      ensures !ok ==> sent == [] && seenGossip == old(seenGossip)
      ensures ok ==> seenGossip == old(seenGossip) + {id}
      ensures ok ==> Sends(Abs(), coordinator, fanout, id, ttl, encoded.value, sent)
    {
      SetReading(reading);
      sent, ok := GossipBroadcast(id, coordinator, fanout, ttl, encoded);
    }

    /** The checks of the handler, in its order, up to the decision to forward. */
    method Process(id: MsgId, ttl: Option<int>, reading: Option<Reading>) returns (verdict: Verdict)
      modifies this`seenGossip, this`readings
      ensures verdict == Judge(old(seenGossip), id, ttl, reading)
      ensures Abs() == Record(old(Abs()), id, verdict)
      ensures seenGossip == old(seenGossip) + {id}
      ensures readings == if Accepts(old(seenGossip), id, ttl, reading) then
                            old(readings)[reading.value.nodeId := reading.value] else old(readings)
    {
      var first := ShouldProcessGossip(id);
      if !first {
        return Duplicate;
      }
      if ttl.None? || ttl.value < 0 {
        return Rejected;
      }
      if reading.None? {
        return Rejected;
      }
      SetReading(reading.value);
      if ttl.value == 0 {
        return Kept(reading.value);
      }
      return Relayed(reading.value, ttl.value - 1);
    }

    /** `atoi` and `decode` parse the second and third field. */
    method HandleGossipMessage(coordinator: Addr, fanout: int, parts: seq<string>,
                               atoi: string -> Option<int>, decode: string -> Option<Reading>)
      returns (sent: seq<Packet>)
      modifies this`seenGossip, this`readings
      ensures |parts| < 3 ==> Abs() == old(Abs()) && sent == []
      ensures |parts| >= 3 ==>
                Abs() == Record(old(Abs()), parts[0],
                                Judge(old(seenGossip), parts[0], atoi(parts[1]), decode(parts[2])))
      ensures |parts| >= 3 ==>
                var ttl, reading := atoi(parts[1]), decode(parts[2]);
                var accepted := Accepts(old(seenGossip), parts[0], ttl, reading);
                && seenGossip == old(seenGossip) + {parts[0]}
                && readings == (if accepted then old(readings)[reading.value.nodeId := reading.value]
                                else old(readings))
                && (accepted && ttl.value > 0 ==>
                      Sends(Abs(), coordinator, fanout, parts[0], ttl.value - 1, parts[2], sent))
                && (!accepted || ttl.value == 0 ==> sent == [])
    {
      if |parts| < 3 {
        return [];
      }
      var verdict := Process(parts[0], atoi(parts[1]), decode(parts[2]));
      sent := [];
      if verdict.Relayed? {
        sent := Send(coordinator, fanout, parts[0], verdict.ttl, parts[2]);
      }
    }
  }
}

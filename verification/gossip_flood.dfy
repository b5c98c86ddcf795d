/** The flood: nodes broadcasting and relaying gossip frames over a network that delays, reorders and
    loses them. */
module GossipFlood {
  import opened Wrappers
  import opened Counting
  import opened GossipGraph
  import opened GossipNode

  datatype Config = Config(coordinator: Addr, fanout: int, decode: string -> Option<Reading>)

  /** Who broadcast a message, with what. */
  datatype Origin = Origin(addr: Addr, ttl: int, body: string)

  datatype Processing = Processing(node: Addr, id: MsgId)

  datatype Measurement = Measurement(node: Addr, reading: Reading)

  /** `sent`, `done`, `processed` and `measured` list what has happened: frames sent, frames delivered or
      lost, messages that a node took up for the first time, and readings that nodes took themselves. */
  datatype Flood = Flood(nodes: map<Addr, View>, started: map<MsgId, Origin>, flight: multiset<Packet>,
                         sent: seq<Packet>, done: seq<Packet>, processed: seq<Processing>, measured: set<Measurement>)

  datatype Event =
    | Broadcast(a: Addr, id: MsgId, origin: Origin, out: seq<Packet>)
    | Deliver(p: Packet, out: seq<Packet>)
    | Lose(p: Packet)
    | Learn(a: Addr, peer: Addr)
    | Measure(a: Addr, reading: Reading)

  ghost predicate Init(f: Flood) {
    && (forall a :: a in f.nodes ==> f.nodes[a].addr == a && f.nodes[a].seen == {} && f.nodes[a].readings == map[])
    && f.started == map[] && f.flight == multiset{} && f.sent == [] && f.done == []
    && f.processed == [] && f.measured == {}
  }

  function VerdictOn(c: Config, v: View, p: Packet): Verdict {
    Judge(v.seen, p.id, Some(p.ttl), c.decode(p.body))
  }

  ghost predicate Enabled(c: Config, f: Flood, e: Event) {
    match e
    case Broadcast(a, id, o, out) =>
      && a in f.nodes && id !in f.started && o.addr == a
      && Sends(f.nodes[a], c.coordinator, c.fanout, id, o.ttl, o.body, out)
    case Deliver(p, out) =>
      p in f.flight && p.dest in f.nodes && Answers(c, f.nodes[p.dest], p, out)
    case Lose(p) => p in f.flight
    case Learn(a, peer) => a in f.nodes && peer != ""
    case Measure(a, r) => a in f.nodes && r.nodeId == f.nodes[a].nodeId
  }

  /** `out` is what a node sends on receiving `p`. */
  ghost predicate Answers(c: Config, v: View, p: Packet, out: seq<Packet>) {
    match VerdictOn(c, v, p)
    case Relayed(_, ttl) => Sends(v, c.coordinator, c.fanout, p.id, ttl, p.body, out)
    case _ => out == []
  }

  function After(c: Config, f: Flood, e: Event): Flood
    requires e.Broadcast? || e.Learn? || e.Measure? ==> e.a in f.nodes
    requires e.Deliver? ==> e.p.dest in f.nodes
  {
    match e
    case Broadcast(a, id, o, out) =>
      f.(nodes := f.nodes[a := f.nodes[a].(seen := f.nodes[a].seen + {id})], started := f.started[id := o],
         flight := f.flight + multiset(out), sent := f.sent + out, processed := f.processed + [Processing(a, id)])
    case Deliver(p, out) =>
      var verdict := VerdictOn(c, f.nodes[p.dest], p);
      f.(nodes := f.nodes[p.dest := Record(f.nodes[p.dest], p.id, verdict)],
         flight := f.flight - multiset{p} + multiset(out), sent := f.sent + out, done := f.done + [p],
         processed := if verdict.Duplicate? then f.processed else f.processed + [Processing(p.dest, p.id)])
    case Lose(p) => f.(flight := f.flight - multiset{p}, done := f.done + [p])
    case Learn(a, peer) => f.(nodes := f.nodes[a := f.nodes[a].(peers := f.nodes[a].peers + {peer})])
    case Measure(a, r) =>
      f.(nodes := f.nodes[a := f.nodes[a].(readings := f.nodes[a].readings[r.nodeId := r])],
         measured := f.measured + {Measurement(a, r)})
  }

  ghost predicate Step(c: Config, f: Flood, f': Flood) {
    exists e :: Enabled(c, f, e) && f' == After(c, f, e)
  }

  ghost predicate Run(c: Config, states: seq<Flood>) {
    && |states| >= 1 && Init(states[0])
    && (forall i, j {:trigger Step(c, states[i], states[j])} ::
          0 <= i < j < |states| && j == i + 1 ==> Step(c, states[i], states[j]))
  }

  // ---------------------------------------------------------------- what every state keeps

  function NetLinks(c: Config, nodes: map<Addr, View>): Links {
    map a | a in nodes :: LinksFrom(nodes[a], c.coordinator)
  }

  function SeenBy(f: Flood, id: MsgId): set<Addr> {
    set a | a in f.nodes && id in f.nodes[a].seen
  }

  function Fan(c: Config): nat {
    if c.fanout <= 0 then 0 else c.fanout
  }

  function Count(packets: seq<Packet>, id: MsgId): nat {
    if |packets| == 0 then 0
    else
      var n := |packets| - 1;
      Count(packets[..n], id) + if packets[n].id == id then 1 else 0
  }

  ghost predicate PacketOk(c: Config, f: Flood, p: Packet) {
    p.id in f.started && PacketFits(c, f, p, f.started[p.id])
  }

  /** A frame carries what was broadcast; its remaining hops are those of the origin less the hops made,
      and each hop made took another node. */
  ghost predicate PacketFits(c: Config, f: Flood, p: Packet, o: Origin) {
    && p.body == o.body && p.ttl <= o.ttl && (p.ttl == o.ttl || p.ttl >= 0)
    && p.dest in Ball(NetLinks(c, f.nodes), o.addr, o.ttl - p.ttl + 1)
    && o.ttl - p.ttl + 1 <= |SeenBy(f, p.id)|
  }

  /** The farthest a message with this origin may get. */
  function Radius(o: Origin): nat {
    if o.ttl < 0 then 1 else o.ttl + 1
  }

  ghost predicate SeenOk(c: Config, f: Flood, a: Addr, id: MsgId)
    requires a in f.nodes
  {
    id in f.nodes[a].seen ==>
      && id in f.started
      && a in Ball(NetLinks(c, f.nodes), f.started[id].addr, Radius(f.started[id]))
  }

  /** `a` has seen a message with this reading. */
  ghost predicate HeardOf(c: Config, f: Flood, a: Addr, r: Reading)
    requires a in f.nodes
  {
    exists id :: id in f.started && id in f.nodes[a].seen && c.decode(f.started[id].body) == Some(r)
  }

  /** A stored reading is filed under its own node; it was taken here or heard of. */
  ghost predicate ReadingOk(c: Config, f: Flood, a: Addr, k: string, r: Reading)
    requires a in f.nodes
  {
    r.nodeId == k && (Measurement(a, r) in f.measured || HeardOf(c, f, a, r))
  }

  ghost predicate NodeOk(c: Config, f: Flood, a: Addr)
    requires a in f.nodes
  {
    && f.nodes[a].addr == a
    && (forall id {:trigger SeenOk(c, f, a, id)} :: SeenOk(c, f, a, id))
    && (forall k {:trigger f.nodes[a].readings[k]} :: k in f.nodes[a].readings ==>
          ReadingOk(c, f, a, k, f.nodes[a].readings[k]))
  }

  ghost predicate CountOk(c: Config, f: Flood, id: MsgId) {
    Count(f.sent, id) <= Fan(c) * |SeenBy(f, id)|
  }

  ghost predicate ProcessedOk(f: Flood) {
    && (forall i, j :: 0 <= i < j < |f.processed| ==> f.processed[i] != f.processed[j])
    && (forall x {:trigger x in f.processed} :: x in f.processed <==> x.node in f.nodes && x.id in f.nodes[x.node].seen)
  }

  ghost predicate Inv(c: Config, f: Flood) {
    && (forall p {:trigger PacketOk(c, f, p)} :: p in f.sent ==> PacketOk(c, f, p))
    && (forall a {:trigger NodeOk(c, f, a)} :: a in f.nodes ==> NodeOk(c, f, a))
    && (forall id {:trigger CountOk(c, f, id)} :: CountOk(c, f, id))
    && (forall id {:trigger id in f.started} :: id in f.started ==>
          f.started[id].addr in f.nodes && id in f.nodes[f.started[id].addr].seen)
    && (forall x {:trigger x in f.measured} :: x in f.measured ==>
          x.node in f.nodes && x.reading.nodeId == f.nodes[x.node].nodeId)
    && ProcessedOk(f)
    && multiset(f.sent) == f.flight + multiset(f.done)
  }

  // ---------------------------------------------------------------- counting frames

  lemma {:induction false} CountConcat(a: seq<Packet>, b: seq<Packet>, id: MsgId)
    ensures Count(a + b, id) == Count(a, id) + Count(b, id)
  {
    if |b| == 0 {
      assert a + b == a;
    } else {
      var n := |b| - 1;
      CountConcat(a, b[..n], id);
      assert (a + b)[..|a + b| - 1] == a + b[..n];
    }
  }

  lemma {:induction false} CountUniform(out: seq<Packet>, id: MsgId, m: MsgId)
    requires forall p :: p in out ==> p.id == id
    ensures Count(out, m) == if m == id then |out| else 0
  {
    if |out| > 0 {
      var n := |out| - 1;
      CountUniform(out[..n], id, m);
      assert out[n] in out;
    }
  }

  lemma CountRemove(b: seq<Packet>, i: nat, id: MsgId) returns (rest: seq<Packet>)
    requires i < |b|
    ensures multiset(b) == multiset(rest) + multiset{b[i]}
    ensures Count(b, id) == Count(rest, id) + Count([b[i]], id)
  {
    rest := b[..i] + b[i + 1..];
    assert b == b[..i] + ([b[i]] + b[i + 1..]);
    CountConcat(b[..i], [b[i]] + b[i + 1..], id);
    CountConcat([b[i]], b[i + 1..], id);
    CountConcat(b[..i], b[i + 1..], id);
  }

  lemma {:induction false} CountMultiset(a: seq<Packet>, b: seq<Packet>, id: MsgId)
    requires multiset(a) <= multiset(b)
    ensures Count(a, id) <= Count(b, id)
    decreases |a|
  {
    if |a| > 0 {
      var n, last := |a| - 1, a[|a| - 1];
      assert a == a[..n] + [last];
      assert last in multiset(a);
      assert last in multiset(b);
      var i :| 0 <= i < |b| && b[i] == last;
      var rest := CountRemove(b, i, id);
      forall x ensures multiset(a[..n])[x] <= multiset(rest)[x] {
        assert multiset(a)[x] <= multiset(b)[x];
      }
      CountMultiset(a[..n], rest, id);
      CountConcat(a[..n], [last], id);
    }
  }

  // ---------------------------------------------------------------- what only grows

  ghost predicate NodeGrows(v: View, v': View) {
    v.addr == v'.addr && v.nodeId == v'.nodeId && v.peers <= v'.peers && v.seen <= v'.seen
  }

  ghost predicate Grows(f: Flood, f': Flood) {
    && f.nodes.Keys == f'.nodes.Keys && f.measured <= f'.measured
    && (forall a {:trigger NodeGrows(f.nodes[a], f'.nodes[a])} :: a in f.nodes ==> NodeGrows(f.nodes[a], f'.nodes[a]))
    && (forall id {:trigger f.started[id]} :: id in f.started ==> id in f'.started && f'.started[id] == f.started[id])
  }

  lemma BallStays(c: Config, f: Flood, f': Flood, from: Addr, s: nat)
    requires Grows(f, f')
    ensures Ball(NetLinks(c, f.nodes), from, s) <= Ball(NetLinks(c, f'.nodes), from, s)
  {
    var g, g' := NetLinks(c, f.nodes), NetLinks(c, f'.nodes);
    forall n, p | p in GossipGraph.Next(g, n) ensures p in GossipGraph.Next(g', n) {
      assert NodeGrows(f.nodes[n], f'.nodes[n]);
    }
    BallGrows(g, g', from, s, s);
  }

  lemma SeenStays(f: Flood, f': Flood, id: MsgId)
    requires Grows(f, f')
    ensures SeenBy(f, id) <= SeenBy(f', id) && |SeenBy(f, id)| <= |SeenBy(f', id)|
  {
    forall a | a in SeenBy(f, id) ensures a in SeenBy(f', id) {
      assert NodeGrows(f.nodes[a], f'.nodes[a]);
    }
    assert SeenBy(f', id) == SeenBy(f, id) + (SeenBy(f', id) - SeenBy(f, id));
  }

  lemma PacketStays(c: Config, f: Flood, f': Flood, p: Packet)
    requires Grows(f, f') && PacketOk(c, f, p)
    ensures PacketOk(c, f', p)
  {
    PacketFitsStill(c, f, f', p, f.started[p.id]);
  }

  lemma PacketFitsStill(c: Config, f: Flood, f': Flood, p: Packet, o: Origin)
    requires Grows(f, f') && PacketFits(c, f, p, o)
    ensures PacketFits(c, f', p, o)
  {
    BallStays(c, f, f', o.addr, o.ttl - p.ttl + 1);
    SeenStays(f, f', p.id);
  }

  lemma SeenOkStays(c: Config, f: Flood, f': Flood, a: Addr, id: MsgId)
    requires Grows(f, f') && a in f.nodes && id in f.nodes[a].seen && SeenOk(c, f, a, id)
    ensures SeenOk(c, f', a, id)
  {
    var o := f.started[id];
    BallStays(c, f, f', o.addr, Radius(o));
  }

  lemma ReadingStays(c: Config, f: Flood, f': Flood, a: Addr, k: string, r: Reading)
    requires Grows(f, f') && a in f.nodes && ReadingOk(c, f, a, k, r)
    ensures ReadingOk(c, f', a, k, r)
  {
    assert NodeGrows(f.nodes[a], f'.nodes[a]);
  }

  /** `a` has no new reading but what it has measured itself. */
  ghost predicate OnlyMeasures(f: Flood, f': Flood, a: Addr)
    requires a in f.nodes && a in f'.nodes
  {
    forall k {:trigger f'.nodes[a].readings[k]} :: k in f'.nodes[a].readings ==>
      var r := f'.nodes[a].readings[k];
      (k in f.nodes[a].readings && f.nodes[a].readings[k] == r) || (r.nodeId == k && Measurement(a, r) in f'.measured)
  }

  /** A node that took up nothing stays as good as it was. */
  lemma QuietNodeStays(c: Config, f: Flood, f': Flood, a: Addr)
    requires Grows(f, f') && a in f.nodes && NodeOk(c, f, a)
    requires f'.nodes[a].seen == f.nodes[a].seen && OnlyMeasures(f, f', a)
    ensures NodeOk(c, f', a)
  {
    assert NodeGrows(f.nodes[a], f'.nodes[a]);
    forall id ensures SeenOk(c, f', a, id) {
      if id in f'.nodes[a].seen {
        assert SeenOk(c, f, a, id);
        SeenOkStays(c, f, f', a, id);
      }
    }
    forall k | k in f'.nodes[a].readings ensures ReadingOk(c, f', a, k, f'.nodes[a].readings[k]) {
      var r := f'.nodes[a].readings[k];
      if k in f.nodes[a].readings && f.nodes[a].readings[k] == r {
        assert ReadingOk(c, f, a, k, f.nodes[a].readings[k]);
        ReadingStays(c, f, f', a, k, r);
      }
    }
  }

  // ---------------------------------------------------------------- taking up a message

  /** Node `a` takes up message `id`, and nothing else happens to the nodes. */
  ghost predicate TakesUp(f: Flood, f': Flood, a: Addr, id: MsgId) {
    && a in f.nodes && f'.nodes.Keys == f.nodes.Keys
    && (forall b {:trigger f'.nodes[b]} :: b in f.nodes && b != a ==> f'.nodes[b] == f.nodes[b])
    && f'.nodes[a].addr == f.nodes[a].addr && f'.nodes[a].peers == f.nodes[a].peers
    && id !in f.nodes[a].seen && f'.nodes[a].seen == f.nodes[a].seen + {id}
    && f'.processed == f.processed + [Processing(a, id)] && f'.measured == f.measured
  }

  lemma TakenUp(f: Flood, f': Flood, a: Addr, id: MsgId)
    requires TakesUp(f, f', a, id)
    ensures SeenBy(f', id) == SeenBy(f, id) + {a} && |SeenBy(f', id)| == |SeenBy(f, id)| + 1
  {
    assert SeenBy(f', id) == SeenBy(f, id) + {a};
  }

  lemma OthersNotTakenUp(f: Flood, f': Flood, a: Addr, id: MsgId, m: MsgId)
    requires TakesUp(f, f', a, id) && m != id
    ensures SeenBy(f', m) == SeenBy(f, m)
  {
  }

  /** No node takes up a message twice. */
  lemma TakesUpOnce(f: Flood, f': Flood, a: Addr, id: MsgId)
    requires TakesUp(f, f', a, id) && ProcessedOk(f)
    ensures ProcessedOk(f')
  {
    assert Processing(a, id) !in f.processed;
    forall x ensures x in f'.processed <==> x.node in f'.nodes && x.id in f'.nodes[x.node].seen {
      assert x in f'.processed <==> x in f.processed || x == Processing(a, id);
    }
  }

  lemma TakesUpCount(c: Config, f: Flood, f': Flood, a: Addr, id: MsgId, out: seq<Packet>, m: MsgId)
    requires TakesUp(f, f', a, id) && f'.sent == f.sent + out && |out| <= Fan(c)
    requires (forall p :: p in out ==> p.id == id) && CountOk(c, f, m)
    ensures CountOk(c, f', m)
  {
    CountConcat(f.sent, out, m);
    CountUniform(out, id, m);
    if m == id {
      TakenUp(f, f', a, id);
      MulStep(Fan(c), |SeenBy(f, id)|);
    } else {
      OthersNotTakenUp(f, f', a, id, m);
    }
  }

  /** Frames that a node sends go along its links, at most `Fan` of them. */
  lemma SentAlongLinks(c: Config, v: View, id: MsgId, ttl: int, body: string, out: seq<Packet>)
    requires Sends(v, c.coordinator, c.fanout, id, ttl, body, out)
    ensures |out| <= Fan(c)
    ensures forall p :: p in out ==>
              p.id == id && p.ttl == ttl && p.body == body && p.dest in LinksFrom(v, c.coordinator)
  {
    var targets :| Chosen(v, c.coordinator, c.fanout, targets) && out == PacketsTo(targets, id, ttl, body);
    ChosenBounds(v, c.coordinator, c.fanout, targets);
    forall p | p in out ensures p.id == id && p.ttl == ttl && p.body == body && p.dest in LinksFrom(v, c.coordinator) {
      var i :| 0 <= i < |out| && out[i] == p;
      assert targets[i] in targets;
    }
  }

  lemma OneHopFurther(c: Config, nodes: map<Addr, View>, from: Addr, a: Addr, b: Addr, s: nat)
    requires a in nodes && a in Ball(NetLinks(c, nodes), from, s) && b in LinksFrom(nodes[a], c.coordinator)
    ensures b in Ball(NetLinks(c, nodes), from, s + 1)
  {
    assert b in GossipGraph.Next(NetLinks(c, nodes), a);
  }

  // ---------------------------------------------------------------- broadcast

  /** Nobody has a message that was not started. */
  lemma UnstartedIsUnseen(c: Config, f: Flood, id: MsgId)
    requires Inv(c, f) && id !in f.started
    ensures SeenBy(f, id) == {} && forall a :: a in f.nodes ==> id !in f.nodes[a].seen
  {
    forall a | a in f.nodes ensures id !in f.nodes[a].seen {
      assert NodeOk(c, f, a);
      assert SeenOk(c, f, a, id);
    }
  }

  lemma BroadcastTakesUp(c: Config, f: Flood, e: Event)
    requires Inv(c, f) && e.Broadcast? && Enabled(c, f, e)
    ensures TakesUp(f, After(c, f, e), e.a, e.id) && Grows(f, After(c, f, e))
  {
    UnstartedIsUnseen(c, f, e.id);
  }

  lemma BroadcastPackets(c: Config, f: Flood, e: Event, p: Packet)
    requires Inv(c, f) && e.Broadcast? && Enabled(c, f, e) && p in e.out
    ensures PacketOk(c, After(c, f, e), p)
  {
    var f' := After(c, f, e);
    SentAlongLinks(c, f.nodes[e.a], e.id, e.origin.ttl, e.origin.body, e.out);
    BroadcastTakesUp(c, f, e);
    TakenUp(f, f', e.a, e.id);
    FirstHopFits(c, f', p, e.origin);
  }

  lemma FirstHopFits(c: Config, f: Flood, p: Packet, o: Origin)
    requires p.ttl == o.ttl && p.body == o.body && o.addr in f.nodes && |SeenBy(f, p.id)| >= 1
    requires p.dest in LinksFrom(f.nodes[o.addr], c.coordinator)
    ensures PacketFits(c, f, p, o)
  {
    OneHopFurther(c, f.nodes, o.addr, o.addr, p.dest, 0);
  }

  lemma BroadcasterOk(c: Config, f: Flood, e: Event)
    requires Inv(c, f) && e.Broadcast? && Enabled(c, f, e)
    ensures NodeOk(c, After(c, f, e), e.a)
  {
    var f' := After(c, f, e);
    BroadcastTakesUp(c, f, e);
    assert NodeOk(c, f, e.a);
    forall id ensures SeenOk(c, f', e.a, id) {
      assert SeenOk(c, f, e.a, id);
      if id in f.nodes[e.a].seen {
        SeenOkStays(c, f, f', e.a, id);
      } else if id == e.id {
        PathStays(NetLinks(c, f'.nodes), e.a, Radius(e.origin), [e.a]);
      }
    }
    forall k | k in f'.nodes[e.a].readings ensures ReadingOk(c, f', e.a, k, f'.nodes[e.a].readings[k]) {
      assert ReadingOk(c, f, e.a, k, f.nodes[e.a].readings[k]);
      ReadingStays(c, f, f', e.a, k, f.nodes[e.a].readings[k]);
    }
  }

  lemma BroadcastKeeps(c: Config, f: Flood, e: Event)
    requires Inv(c, f) && e.Broadcast? && Enabled(c, f, e)
    ensures Inv(c, After(c, f, e))
  {
    var f' := After(c, f, e);
    BroadcastTakesUp(c, f, e);
    SentAlongLinks(c, f.nodes[e.a], e.id, e.origin.ttl, e.origin.body, e.out);
    PacketsKeep(c, f, f', e.out) by {
      forall p | p in e.out ensures PacketOk(c, f', p) { BroadcastPackets(c, f, e, p); }
    }
    BroadcasterOk(c, f, e);
    OthersKeep(c, f, f', e.a, e.id);
    forall id ensures CountOk(c, f', id) {
      assert CountOk(c, f, id);
      TakesUpCount(c, f, f', e.a, e.id, e.out, id);
    }
    TakesUpOnce(f, f', e.a, e.id);
    StartedKeep(c, f, f');
    MeasuredKeep(f, f');
  }

  lemma PacketsKeep(c: Config, f: Flood, f': Flood, out: seq<Packet>)
    requires Inv(c, f) && Grows(f, f') && f'.sent == f.sent + out
    requires forall p {:trigger PacketOk(c, f', p)} :: p in out ==> PacketOk(c, f', p)
    ensures forall p {:trigger PacketOk(c, f', p)} :: p in f'.sent ==> PacketOk(c, f', p)
  {
    forall p | p in f'.sent ensures PacketOk(c, f', p) {
      if p in f.sent {
        assert PacketOk(c, f, p);
        PacketStays(c, f, f', p);
      }
    }
  }

  lemma OthersKeep(c: Config, f: Flood, f': Flood, a: Addr, id: MsgId)
    requires Inv(c, f) && Grows(f, f') && TakesUp(f, f', a, id)
    ensures forall b {:trigger NodeOk(c, f', b)} :: b in f'.nodes && b != a ==> NodeOk(c, f', b)
  {
    forall b | b in f'.nodes && b != a ensures NodeOk(c, f', b) {
      assert NodeOk(c, f, b);
      QuietNodeStays(c, f, f', b);
    }
  }

  lemma StartedKeep(c: Config, f: Flood, f': Flood)
    requires Inv(c, f) && Grows(f, f')
    ensures forall id {:trigger id in f.started} :: id in f.started ==>
              id in f'.started && f'.started[id].addr in f'.nodes && id in f'.nodes[f'.started[id].addr].seen
  {
    forall id | id in f.started
      ensures id in f'.started && f'.started[id].addr in f'.nodes && id in f'.nodes[f'.started[id].addr].seen
    {
      var a := f.started[id].addr;
      assert NodeGrows(f.nodes[a], f'.nodes[a]);
    }
  }

  // ---------------------------------------------------------------- delivery

  lemma InFlightIsSent(c: Config, f: Flood, p: Packet)
    requires Inv(c, f) && p in f.flight
    ensures p in f.sent && PacketOk(c, f, p)
  {
    assert p in multiset(f.sent);
  }

  /** A first delivery: the verdict is not `Duplicate`. */
  ghost predicate Fresh(c: Config, f: Flood, e: Event) {
    e.Deliver? && Enabled(c, f, e) && e.p.id !in f.nodes[e.p.dest].seen
  }

  lemma DeliveryTakesUp(c: Config, f: Flood, e: Event)
    requires Inv(c, f) && Fresh(c, f, e)
    ensures TakesUp(f, After(c, f, e), e.p.dest, e.p.id) && Grows(f, After(c, f, e))
    ensures After(c, f, e).started == f.started
  {
    assert !VerdictOn(c, f.nodes[e.p.dest], e.p).Duplicate?;
  }

  lemma RelayedPackets(c: Config, f: Flood, e: Event)
    requires Fresh(c, f, e)
    ensures |e.out| <= Fan(c)
    ensures forall p :: p in e.out ==> p.id == e.p.id && p.ttl == e.p.ttl - 1 && p.ttl >= 0 && p.body == e.p.body
                                       && p.dest in LinksFrom(f.nodes[e.p.dest], c.coordinator)
  {
    var v := f.nodes[e.p.dest];
    match VerdictOn(c, v, e.p)
    case Relayed(_, ttl) => SentAlongLinks(c, v, e.p.id, ttl, e.p.body, e.out);
    case _ =>
  }

  lemma RelayedPacketOk(c: Config, f: Flood, e: Event, p: Packet)
    requires Inv(c, f) && Fresh(c, f, e) && p in e.out
    ensures PacketOk(c, After(c, f, e), p)
  {
    var f' := After(c, f, e);
    InFlightIsSent(c, f, e.p);
    RelayedPackets(c, f, e);
    DeliveryTakesUp(c, f, e);
    TakenUp(f, f', e.p.dest, e.p.id);
    RelayedFits(c, f, f', e.p, p, f.started[e.p.id]);
  }

  lemma RelayedFits(c: Config, f: Flood, f': Flood, p: Packet, q: Packet, o: Origin)
    requires Grows(f, f') && p.dest in f.nodes && |SeenBy(f', p.id)| == |SeenBy(f, p.id)| + 1 && PacketFits(c, f, p, o)
    requires q.id == p.id && q.ttl == p.ttl - 1 && q.ttl >= 0 && q.body == p.body
    requires q.dest in LinksFrom(f.nodes[p.dest], c.coordinator)
    ensures PacketFits(c, f', q, o)
  {
    NextHop(c, f, f', o.addr, p.dest, q.dest, o.ttl - p.ttl + 1);
  }

  lemma NextHop(c: Config, f: Flood, f': Flood, from: Addr, a: Addr, b: Addr, s: nat)
    requires Grows(f, f') && a in f.nodes && a in Ball(NetLinks(c, f.nodes), from, s)
    requires b in LinksFrom(f.nodes[a], c.coordinator)
    ensures b in Ball(NetLinks(c, f'.nodes), from, s + 1)
  {
    OneHopFurther(c, f.nodes, from, a, b, s);
    BallStays(c, f, f', from, s + 1);
  }

  lemma RecipientSeenOk(c: Config, f: Flood, f': Flood, p: Packet)
    requires Grows(f, f') && f'.started == f.started && p.dest in f'.nodes && PacketOk(c, f, p)
    ensures SeenOk(c, f', p.dest, p.id)
  {
    var o := f.started[p.id];
    WithinRadius(c, f, p, o);
    BallStays(c, f, f', o.addr, Radius(o));
  }

  lemma WithinRadius(c: Config, f: Flood, p: Packet, o: Origin)
    requires PacketFits(c, f, p, o)
    ensures p.dest in Ball(NetLinks(c, f.nodes), o.addr, Radius(o))
  {
    var g := NetLinks(c, f.nodes);
    BallGrows(g, g, o.addr, o.ttl - p.ttl + 1, Radius(o));
  }

  lemma RecipientReadings(c: Config, f: Flood, e: Event, k: string)
    requires Inv(c, f) && Fresh(c, f, e) && k in After(c, f, e).nodes[e.p.dest].readings
    ensures ReadingOk(c, After(c, f, e), e.p.dest, k, After(c, f, e).nodes[e.p.dest].readings[k])
  {
    var f', a := After(c, f, e), e.p.dest;
    var r := f'.nodes[a].readings[k];
    DeliveryTakesUp(c, f, e);
    InFlightIsSent(c, f, e.p);
    assert NodeOk(c, f, a);
    if k in f.nodes[a].readings && r == f.nodes[a].readings[k] {
      ReadingStays(c, f, f', a, k, r);
    } else {
      assert c.decode(f'.started[e.p.id].body) == Some(r);
      assert HeardOf(c, f', a, r);
    }
  }

  lemma RecipientOk(c: Config, f: Flood, e: Event)
    requires Inv(c, f) && Fresh(c, f, e)
    ensures NodeOk(c, After(c, f, e), e.p.dest)
  {
    var f', a := After(c, f, e), e.p.dest;
    DeliveryTakesUp(c, f, e);
    InFlightIsSent(c, f, e.p);
    assert NodeOk(c, f, a);
    forall id ensures SeenOk(c, f', a, id) {
      if id in f.nodes[a].seen {
        assert SeenOk(c, f, a, id);
        SeenOkStays(c, f, f', a, id);
      } else if id == e.p.id {
        RecipientSeenOk(c, f, f', e.p);
      }
    }
    forall k | k in f'.nodes[a].readings ensures ReadingOk(c, f', a, k, f'.nodes[a].readings[k]) {
      RecipientReadings(c, f, e, k);
    }
  }

  lemma DeliveryBalances(c: Config, f: Flood, e: Event)
    requires Inv(c, f) && e.Deliver? && Enabled(c, f, e)
    ensures var f' := After(c, f, e); multiset(f'.sent) == f'.flight + multiset(f'.done)
  {
    var f' := After(c, f, e);
    assert multiset(f'.sent) == multiset(f.sent) + multiset(e.out);
    assert multiset(f'.done) == multiset(f.done) + multiset{e.p};
  }

  lemma FreshDeliveryKeeps(c: Config, f: Flood, e: Event)
    requires Inv(c, f) && Fresh(c, f, e)
    ensures Inv(c, After(c, f, e))
  {
    var f' := After(c, f, e);
    DeliveryTakesUp(c, f, e);
    RelayedPackets(c, f, e);
    PacketsKeep(c, f, f', e.out) by {
      forall p | p in e.out ensures PacketOk(c, f', p) { RelayedPacketOk(c, f, e, p); }
    }
    RecipientOk(c, f, e);
    OthersKeep(c, f, f', e.p.dest, e.p.id);
    forall id ensures CountOk(c, f', id) {
      assert CountOk(c, f, id);
      TakesUpCount(c, f, f', e.p.dest, e.p.id, e.out, id);
    }
    TakesUpOnce(f, f', e.p.dest, e.p.id);
    StartedKeep(c, f, f');
    MeasuredKeep(f, f');
    DeliveryBalances(c, f, e);
  }

  // ---------------------------------------------------------------- steps in which nobody takes up anything

  ghost predicate Quiet(f: Flood, f': Flood) {
    && Grows(f, f') && f'.started == f.started && f'.sent == f.sent && f'.processed == f.processed
    && (forall a {:trigger OnlyMeasures(f, f', a)} :: a in f.nodes ==>
          f'.nodes[a].seen == f.nodes[a].seen && OnlyMeasures(f, f', a))
    && (forall x {:trigger x in f'.measured} :: x in f'.measured && x !in f.measured ==>
          x.node in f.nodes && x.reading.nodeId == f.nodes[x.node].nodeId)
    && multiset(f'.sent) == f'.flight + multiset(f'.done)
  }

  lemma QuietKeeps(c: Config, f: Flood, f': Flood)
    requires Inv(c, f) && Quiet(f, f')
    ensures Inv(c, f')
  {
    PacketsKeep(c, f, f', []);
    forall a | a in f'.nodes ensures NodeOk(c, f', a) {
      assert NodeOk(c, f, a) && OnlyMeasures(f, f', a);
      QuietNodeStays(c, f, f', a);
    }
    forall a | a in f.nodes ensures f'.nodes[a].seen == f.nodes[a].seen {
      assert OnlyMeasures(f, f', a);
    }
    forall id ensures CountOk(c, f', id) {
      assert CountOk(c, f, id);
      assert SeenBy(f', id) == SeenBy(f, id);
    }
    StartedKeep(c, f, f');
    forall x | x in f'.measured ensures x.node in f'.nodes && x.reading.nodeId == f'.nodes[x.node].nodeId {
      assert x in f.measured ==> x.node in f.nodes;
      assert NodeGrows(f.nodes[x.node], f'.nodes[x.node]);
    }
  }

  lemma MeasuredKeep(f: Flood, f': Flood)
    requires Grows(f, f')
    requires forall x {:trigger x in f.measured} :: x in f.measured ==>
               x.node in f.nodes && x.reading.nodeId == f.nodes[x.node].nodeId
    ensures forall x {:trigger x in f.measured} :: x in f.measured ==>
              x.node in f'.nodes && x.reading.nodeId == f'.nodes[x.node].nodeId
  {
    forall x | x in f.measured ensures x.node in f'.nodes && x.reading.nodeId == f'.nodes[x.node].nodeId {
      assert NodeGrows(f.nodes[x.node], f'.nodes[x.node]);
    }
  }

  lemma QuietSteps(c: Config, f: Flood, e: Event)
    requires Inv(c, f) && Enabled(c, f, e) && !e.Broadcast? && !Fresh(c, f, e)
    ensures Quiet(f, After(c, f, e))
  {
    match e
    case Deliver(p, out) => DuplicateIsQuiet(c, f, e);
    case Lose(p) => LossIsQuiet(c, f, e);
    case Learn(a, peer) => LearningIsQuiet(c, f, e);
    case Measure(a, r) => MeasuringIsQuiet(c, f, e);
  }

  lemma LearningIsQuiet(c: Config, f: Flood, e: Event)
    requires Inv(c, f) && Enabled(c, f, e) && e.Learn?
    ensures Quiet(f, After(c, f, e))
  {
  }

  lemma MeasuringIsQuiet(c: Config, f: Flood, e: Event)
    requires Inv(c, f) && Enabled(c, f, e) && e.Measure?
    ensures Quiet(f, After(c, f, e))
  {
  }

  lemma DuplicateIsQuiet(c: Config, f: Flood, e: Event)
    requires Inv(c, f) && Enabled(c, f, e) && e.Deliver? && !Fresh(c, f, e)
    ensures Quiet(f, After(c, f, e))
  {
    assert VerdictOn(c, f.nodes[e.p.dest], e.p).Duplicate?;
    DeliveryBalances(c, f, e);
  }

  lemma LossIsQuiet(c: Config, f: Flood, e: Event)
    requires Inv(c, f) && Enabled(c, f, e) && e.Lose?
    ensures Quiet(f, After(c, f, e))
  {
    assert multiset(After(c, f, e).done) == multiset(f.done) + multiset{e.p};
  }

  lemma StepKeeps(c: Config, f: Flood, f': Flood)
    requires Inv(c, f) && Step(c, f, f')
    ensures Inv(c, f')
  {
    var e :| Enabled(c, f, e) && f' == After(c, f, e);
    if e.Broadcast? {
      BroadcastKeeps(c, f, e);
    } else if Fresh(c, f, e) {
      FreshDeliveryKeeps(c, f, e);
    } else {
      QuietSteps(c, f, e);
      QuietKeeps(c, f, f');
    }
  }

  lemma InitHolds(c: Config, f: Flood)
    requires Init(f)
    ensures Inv(c, f)
  {
    forall a | a in f.nodes ensures NodeOk(c, f, a) {
      forall id ensures SeenOk(c, f, a, id) { }
    }
    forall id ensures CountOk(c, f, id) {
      assert SeenBy(f, id) == {};
    }
  }

  lemma {:induction false} RunKeeps(c: Config, states: seq<Flood>, i: nat)
    requires Run(c, states) && i < |states|
    ensures Inv(c, states[i])
  {
    if i == 0 {
      InitHolds(c, states[0]);
    } else {
      RunKeeps(c, states, i - 1);
      assert Step(c, states[i - 1], states[i]);
      StepKeeps(c, states[i - 1], states[i]);
    }
  }
}

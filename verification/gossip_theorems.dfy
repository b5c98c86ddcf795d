/** What the flood guarantees on every run: how much is sent, how far it gets, and when it reaches
    everyone. */
module GossipTheorems {
  import opened Counting
  import opened GossipGraph
  import opened GossipNode
  import opened GossipFlood

  /** A message costs at most `fanout` frames per node, however frames are delayed or lost, and every
      delivery uses one up: the flood of a message ends. */
  lemma FloodIsBounded(c: Config, states: seq<Flood>, i: nat, id: MsgId)
    requires Run(c, states) && i < |states|
    ensures var f := states[i];
            && Count(f.done, id) <= Count(f.sent, id) <= Fan(c) * |f.nodes.Keys|
            && (Count(f.done, id) == Fan(c) * |f.nodes.Keys| ==> forall p :: p in f.flight ==> p.id != id)
  {
    var f := states[i];
    RunKeeps(c, states, i);
    assert CountOk(c, f, id);
    SubsetSize(SeenBy(f, id), f.nodes.Keys);
    Scale(Fan(c), |SeenBy(f, id)|, |f.nodes.Keys|);
    CountMultiset(f.done, f.sent, id);
    forall p | p in f.flight ensures p.id == id ==> Count(f.done, id) < Count(f.sent, id) {
      if p.id == id { InFlightIsExtra(f, p); }
    }
  }

  lemma InFlightIsExtra(f: Flood, p: Packet)
    requires multiset(f.sent) == f.flight + multiset(f.done) && p in f.flight
    ensures Count(f.done, p.id) < Count(f.sent, p.id)
  {
    var more := f.done + [p];
    assert multiset(more) <= multiset(f.sent);
    CountMultiset(more, f.sent, p.id);
    CountConcat(f.done, [p], p.id);
  }

  /** Each node takes up a message at most once, and has seen exactly the messages it took up. */
  lemma TakenUpOnce(c: Config, states: seq<Flood>, i: nat)
    requires Run(c, states) && i < |states|
    ensures ProcessedOk(states[i])
  {
    RunKeeps(c, states, i);
  }

  /** Every frame carries the body that was broadcast; its hop counter is between 0 and the initial one,
      and tells how far from the origin its recipient can be. */
  lemma FrameBounds(c: Config, states: seq<Flood>, i: nat, p: Packet)
    requires Run(c, states) && i < |states| && p in states[i].sent
    ensures p.id in states[i].started
    ensures var o := states[i].started[p.id];
            && p.body == o.body && p.ttl <= o.ttl && (o.ttl >= 0 ==> p.ttl >= 0)
            && exists path :: Connects(NetLinks(c, states[i].nodes), path, o.addr, p.dest) &&
                              |path| <= o.ttl - p.ttl + 2
  {
    var f := states[i];
    RunKeeps(c, states, i);
    assert PacketOk(c, f, p);
    var o := f.started[p.id];
    BallIsPaths(NetLinks(c, f.nodes), o.addr, o.ttl - p.ttl + 1, p.dest);
  }

  /** No node more than TTL + 1 hops from the origin takes up the message. */
  lemma HopLimit(c: Config, states: seq<Flood>, i: nat, a: Addr, id: MsgId)
    requires Run(c, states) && i < |states| && a in states[i].nodes && id in states[i].nodes[a].seen
    ensures id in states[i].started
    ensures var o := states[i].started[id];
            exists path :: Connects(NetLinks(c, states[i].nodes), path, o.addr, a) && |path| <= Radius(o) + 1
  {
    var f := states[i];
    RunKeeps(c, states, i);
    assert NodeOk(c, f, a);
    assert SeenOk(c, f, a, id);
    BallIsPaths(NetLinks(c, f.nodes), f.started[id].addr, Radius(f.started[id]), a);
  }

  /** A node keeps no reading but those it measured itself, filed under its own identifier, and those
      broadcast in a message it has seen. Of another node it has only what was broadcast. */
  lemma ReadingsAreGenuine(c: Config, states: seq<Flood>, i: nat, a: Addr, k: string)
    requires Run(c, states) && i < |states| && a in states[i].nodes && k in states[i].nodes[a].readings
    ensures var f, r := states[i], states[i].nodes[a].readings[k];
            && r.nodeId == k && (Measurement(a, r) in f.measured || HeardOf(c, f, a, r))
            && (k != f.nodes[a].nodeId ==> HeardOf(c, f, a, r))
  {
    RunKeeps(c, states, i);
    assert NodeOk(c, states[i], a);
  }

  // ---------------------------------------------------------------- reaching everyone

  /** Nobody learns of peers, and only frames to absent nodes are lost. */
  ghost predicate Calm(f: Flood, e: Event) {
    !e.Learn? && (e.Lose? ==> e.p.dest !in f.nodes)
  }

  ghost predicate CalmStep(c: Config, f: Flood, f': Flood) {
    exists e :: Enabled(c, f, e) && Calm(f, e) && f' == After(c, f, e)
  }

  ghost predicate CalmRun(c: Config, states: seq<Flood>) {
    && |states| >= 1 && Init(states[0])
    && (forall i, j {:trigger CalmStep(c, states[i], states[j])} ::
          0 <= i < j < |states| && j == i + 1 ==> CalmStep(c, states[i], states[j]))
  }

  /** The fanout covers everyone's links. */
  ghost predicate FullFanout(c: Config, nodes: map<Addr, View>) {
    forall a {:trigger nodes[a]} :: a in nodes ==> c.fanout > |nodes[a].peers|
  }

  /** The message can be decoded, and its hops would suffice for a chain of all nodes. */
  ghost predicate Ample(c: Config, nodes: map<Addr, View>, o: Origin) {
    c.decode(o.body).Some? && o.ttl + 2 >= |nodes.Keys|
  }

  ghost predicate SentTo(f: Flood, id: MsgId, b: Addr) {
    exists p :: p in f.sent && p.id == id && p.dest == b
  }

  ghost predicate Forwarded(c: Config, f: Flood, a: Addr, id: MsgId)
    requires a in f.nodes
  {
    forall b {:trigger SentTo(f, id, b)} :: b in LinksFrom(f.nodes[a], c.coordinator) ==> SentTo(f, id, b)
  }

  ghost predicate Handled(f: Flood, p: Packet) {
    p.dest in f.nodes ==> p.id in f.nodes[p.dest].seen
  }

  /** Every node that has the message has forwarded it along all links, or there is nobody left; every
      frame that arrived has been taken note of. */
  ghost predicate Covering(c: Config, f: Flood, id: MsgId) {
    && (SeenBy(f, id) == f.nodes.Keys ||
        forall a {:trigger Forwarded(c, f, a, id)} :: a in SeenBy(f, id) ==> Forwarded(c, f, a, id))
    && AllHandled(f)
  }

  ghost predicate AllHandled(f: Flood) {
    forall p {:trigger Handled(f, p)} :: p in f.done ==> Handled(f, p)
  }

  lemma ForwardedStays(c: Config, f: Flood, f': Flood, a: Addr, id: MsgId, out: seq<Packet>)
    requires f'.sent == f.sent + out && a in f.nodes && a in f'.nodes && Forwarded(c, f, a, id)
    requires f'.nodes[a].addr == f.nodes[a].addr && f'.nodes[a].peers == f.nodes[a].peers
    ensures Forwarded(c, f', a, id)
  {
    forall b | b in LinksFrom(f'.nodes[a], c.coordinator) ensures SentTo(f', id, b) {
      assert SentTo(f, id, b);
      var p :| p in f.sent && p.id == id && p.dest == b;
      assert p in f'.sent;
    }
  }

  /** With a full fanout a node's frames go along all its links. */
  lemma SendsToAll(c: Config, f: Flood, f': Flood, a: Addr, id: MsgId, ttl: int, body: string, out: seq<Packet>)
    requires a in f.nodes && FullFanout(c, f.nodes) && Sends(f.nodes[a], c.coordinator, c.fanout, id, ttl, body, out)
    requires f'.sent == f.sent + out && a in f'.nodes
    requires f'.nodes[a].addr == f.nodes[a].addr && f'.nodes[a].peers == f.nodes[a].peers
    ensures Forwarded(c, f', a, id)
  {
    var v := f.nodes[a];
    var targets :| Chosen(v, c.coordinator, c.fanout, targets) && out == PacketsTo(targets, id, ttl, body);
    ChosenBounds(v, c.coordinator, c.fanout, targets);
    forall b | b in LinksFrom(f'.nodes[a], c.coordinator) ensures SentTo(f', id, b) {
      assert b in targets;
      var i :| 0 <= i < |targets| && targets[i] == b;
      assert f'.sent[|f.sent| + i] == out[i];
      assert out[i] in f'.sent;
    }
  }

  /** A node that keeps the message to itself is the last one. */
  lemma LastNodeKeeps(c: Config, f: Flood, f': Flood, p: Packet, o: Origin)
    requires TakesUp(f, f', p.dest, p.id) && PacketFits(c, f, p, o) && Ample(c, f.nodes, o)
    requires !VerdictOn(c, f.nodes[p.dest], p).Relayed?
    ensures SeenBy(f', p.id) == f'.nodes.Keys
  {
    TakenUp(f, f', p.dest, p.id);
    assert p.ttl <= 0;
    SubsetSize(SeenBy(f', p.id), f'.nodes.Keys);
  }

  lemma RecipientForwards(c: Config, f: Flood, e: Event)
    requires Inv(c, f) && Fresh(c, f, e) && FullFanout(c, f.nodes)
    requires e.p.id in f.started && Ample(c, f.nodes, f.started[e.p.id])
    ensures var f' := After(c, f, e); SeenBy(f', e.p.id) == f'.nodes.Keys || Forwarded(c, f', e.p.dest, e.p.id)
  {
    var f', v := After(c, f, e), f.nodes[e.p.dest];
    DeliveryTakesUp(c, f, e);
    InFlightIsSent(c, f, e.p);
    var verdict := VerdictOn(c, v, e.p);
    if verdict.Relayed? {
      SendsToAll(c, f, f', e.p.dest, e.p.id, verdict.ttl, e.p.body, e.out);
    } else {
      LastNodeKeeps(c, f, f', e.p, f.started[e.p.id]);
    }
  }

  lemma TakingUpCovers(c: Config, f: Flood, f': Flood, a: Addr, m: MsgId, id: MsgId, out: seq<Packet>)
    requires Covering(c, f, id) && TakesUp(f, f', a, m) && f'.sent == f.sent + out
    requires m == id ==> SeenBy(f', id) == f'.nodes.Keys || Forwarded(c, f', a, id)
    ensures SeenBy(f', id) == f'.nodes.Keys ||
            forall b {:trigger Forwarded(c, f', b, id)} :: b in SeenBy(f', id) ==> Forwarded(c, f', b, id)
  {
    if m == id { TakenUp(f, f', a, id); } else { OthersNotTakenUp(f, f', a, m, id); }
    if SeenBy(f', id) != f'.nodes.Keys {
      SeenAll(f, f', id);
      forall b | b in SeenBy(f', id) ensures Forwarded(c, f', b, id) {
        if b in SeenBy(f, id) {
          assert Forwarded(c, f, b, id);
          ForwardedStays(c, f, f', b, id, out);
        }
      }
    }
  }

  lemma SeenAll(f: Flood, f': Flood, id: MsgId)
    requires f'.nodes.Keys == f.nodes.Keys && SeenBy(f, id) <= SeenBy(f', id)
    ensures SeenBy(f, id) == f.nodes.Keys ==> SeenBy(f', id) == f'.nodes.Keys
  {
  }

  lemma HandledStay(f: Flood, f': Flood)
    requires Grows(f, f') && AllHandled(f)
    ensures forall p {:trigger Handled(f', p)} :: p in f.done ==> Handled(f', p)
  {
    forall p | p in f.done ensures Handled(f', p) {
      assert Handled(f, p);
      if p.dest in f.nodes { assert NodeGrows(f.nodes[p.dest], f'.nodes[p.dest]); }
    }
  }

  lemma DoneStays(c: Config, f: Flood, e: Event)
    requires Inv(c, f) && Enabled(c, f, e) && Calm(f, e) && Grows(f, After(c, f, e)) && AllHandled(f)
    ensures AllHandled(After(c, f, e))
  {
    var f' := After(c, f, e);
    HandledStay(f, f');
    forall p | p in f'.done ensures Handled(f', p) {
      if p !in f.done { assert p == e.p; }
    }
  }

  ghost predicate SameLinks(f: Flood, f': Flood) {
    && f'.nodes.Keys == f.nodes.Keys
    && (forall a {:trigger f'.nodes[a]} :: a in f.nodes ==>
          f'.nodes[a].addr == f.nodes[a].addr && f'.nodes[a].peers == f.nodes[a].peers)
  }

  lemma QuietSeen(f: Flood, f': Flood, id: MsgId)
    requires Quiet(f, f')
    ensures SeenBy(f', id) == SeenBy(f, id)
  {
    forall a | a in f.nodes ensures f'.nodes[a].seen == f.nodes[a].seen {
      assert OnlyMeasures(f, f', a);
    }
  }

  lemma QuietCovers(c: Config, f: Flood, f': Flood, id: MsgId)
    requires Quiet(f, f') && Covering(c, f, id) && SameLinks(f, f')
    ensures SeenBy(f', id) == f'.nodes.Keys ||
            forall b {:trigger Forwarded(c, f', b, id)} :: b in SeenBy(f', id) ==> Forwarded(c, f', b, id)
  {
    QuietSeen(f, f', id);
    if SeenBy(f', id) != f'.nodes.Keys {
      forall b | b in SeenBy(f', id) ensures Forwarded(c, f', b, id) {
        assert Forwarded(c, f, b, id);
        ForwardedStays(c, f, f', b, id, []);
      }
    }
  }

  lemma BroadcastCovers(c: Config, f: Flood, e: Event, id: MsgId)
    requires Inv(c, f) && Enabled(c, f, e) && e.Broadcast? && FullFanout(c, f.nodes) && Covering(c, f, id)
    ensures Covering(c, After(c, f, e), id)
  {
    var f' := After(c, f, e);
    BroadcastTakesUp(c, f, e);
    SendsToAll(c, f, f', e.a, e.id, e.origin.ttl, e.origin.body, e.out);
    TakingUpCovers(c, f, f', e.a, e.id, id, e.out);
    DoneStays(c, f, e);
  }

  lemma DeliveryCovers(c: Config, f: Flood, e: Event, id: MsgId)
    requires Inv(c, f) && Fresh(c, f, e) && FullFanout(c, f.nodes) && Covering(c, f, id)
    requires id in f.started ==> Ample(c, f.nodes, f.started[id])
    ensures Covering(c, After(c, f, e), id)
  {
    DeliveryTakesUp(c, f, e);
    InFlightIsSent(c, f, e.p);
    if e.p.id == id { RecipientForwards(c, f, e); }
    TakingUpCovers(c, f, After(c, f, e), e.p.dest, e.p.id, id, e.out);
    DoneStays(c, f, e);
  }

  /** In a calm step links stay as they are and nothing sent is taken back. */
  lemma CalmFrame(c: Config, f: Flood, e: Event) returns (out: seq<Packet>)
    requires Enabled(c, f, e) && Calm(f, e)
    ensures SameLinks(f, After(c, f, e)) && After(c, f, e).sent == f.sent + out
  {
    out := if e.Broadcast? || e.Deliver? then e.out else [];
  }

  lemma CalmStepCovers(c: Config, f: Flood, e: Event, id: MsgId)
    requires Inv(c, f) && Enabled(c, f, e) && Calm(f, e) && FullFanout(c, f.nodes) && Covering(c, f, id)
    requires id in f.started ==> Ample(c, f.nodes, f.started[id])
    ensures Covering(c, After(c, f, e), id)
  {
    if e.Broadcast? {
      BroadcastCovers(c, f, e, id);
    } else if Fresh(c, f, e) {
      DeliveryCovers(c, f, e, id);
    } else {
      QuietSteps(c, f, e);
      var out := CalmFrame(c, f, e);
      QuietCovers(c, f, After(c, f, e), id);
      DoneStays(c, f, e);
    }
  }

  lemma StepGrows(c: Config, f: Flood, e: Event)
    requires Inv(c, f) && Enabled(c, f, e)
    ensures Grows(f, After(c, f, e))
  {
    if e.Broadcast? {
      BroadcastTakesUp(c, f, e);
    } else if Fresh(c, f, e) {
      DeliveryTakesUp(c, f, e);
    } else {
      QuietSteps(c, f, e);
    }
  }

  lemma CalmIsRun(c: Config, states: seq<Flood>)
    requires CalmRun(c, states)
    ensures Run(c, states)
  {
    forall i, j | 0 <= i < j < |states| && j == i + 1 ensures Step(c, states[i], states[j]) {
      assert CalmStep(c, states[i], states[j]);
    }
  }

  /** A message keeps its origin. */
  lemma {:induction false} OriginStays(c: Config, states: seq<Flood>, i: nat, j: nat, id: MsgId)
    requires Run(c, states) && i <= j < |states| && id in states[i].started
    ensures id in states[j].started && states[j].started[id] == states[i].started[id]
    ensures states[j].nodes.Keys == states[i].nodes.Keys
    decreases j
  {
    if i < j {
      OriginStays(c, states, i, j - 1, id);
      RunKeeps(c, states, j - 1);
      assert Step(c, states[j - 1], states[j]);
      var e :| Enabled(c, states[j - 1], e) && states[j] == After(c, states[j - 1], e);
      StepGrows(c, states[j - 1], e);
    }
  }

  lemma CalmKeepsLinks(c: Config, f: Flood, e: Event)
    requires Enabled(c, f, e) && Calm(f, e) && FullFanout(c, f.nodes)
    ensures FullFanout(c, After(c, f, e).nodes)
  {
  }

  lemma {:induction false} CoveringThroughout(c: Config, states: seq<Flood>, i: nat, id: MsgId)
    requires CalmRun(c, states) && i < |states| && FullFanout(c, states[0].nodes)
    requires id in states[i].started ==> Ample(c, states[i].nodes, states[i].started[id])
    ensures Covering(c, states[i], id) && FullFanout(c, states[i].nodes)
  {
    if i > 0 {
      CalmIsRun(c, states);
      var f := states[i - 1];
      if id in f.started { OriginStays(c, states, i - 1, i, id); }
      CoveringThroughout(c, states, i - 1, id);
      RunKeeps(c, states, i - 1);
      assert CalmStep(c, f, states[i]);
      var e :| Enabled(c, f, e) && Calm(f, e) && states[i] == After(c, f, e);
      CalmStepCovers(c, f, e, id);
      CalmKeepsLinks(c, f, e);
    } else {
      assert SeenBy(states[0], id) == {};
    }
  }

  lemma {:induction false} PathIsSeen(c: Config, f: Flood, id: MsgId, path: seq<Addr>)
    requires Inv(c, f) && Covering(c, f, id) && id in f.started && forall p :: p in f.flight ==> p.id != id
    requires IsPath(NetLinks(c, f.nodes), path) && path[0] == f.started[id].addr && path[|path| - 1] in f.nodes
    ensures path[|path| - 1] in SeenBy(f, id)
    decreases |path|
  {
    var m := |path| - 1;
    if m > 0 {
      var a, b := path[m - 1], path[m];
      assert b in GossipGraph.Next(NetLinks(c, f.nodes), a);
      PathIsSeen(c, f, id, path[..m]);
      if SeenBy(f, id) != f.nodes.Keys {
        assert Forwarded(c, f, a, id);
        LinkIsSeen(c, f, id, a, b);
      }
    }
  }

  lemma LinkIsSeen(c: Config, f: Flood, id: MsgId, a: Addr, b: Addr)
    requires Inv(c, f) && AllHandled(f) && forall p :: p in f.flight ==> p.id != id
    requires a in f.nodes && b in f.nodes && Forwarded(c, f, a, id) && b in LinksFrom(f.nodes[a], c.coordinator)
    ensures b in SeenBy(f, id)
  {
    assert SentTo(f, id, b);
    var p :| p in f.sent && p.id == id && p.dest == b;
    assert p in multiset(f.sent);
    assert p in multiset(f.done);
    assert Handled(f, p);
  }

  /** Coverage: without losses, with a fanout that covers all links and a TTL of at least the number of
      nodes less two, the message ends up with exactly the nodes that the origin is connected to. */
  lemma FloodReachesAll(c: Config, states: seq<Flood>, i: nat, id: MsgId, a: Addr)
    requires CalmRun(c, states) && i < |states| && FullFanout(c, states[0].nodes)
    requires id in states[i].started && Ample(c, states[i].nodes, states[i].started[id])
    requires (forall p :: p in states[i].flight ==> p.id != id) && a in states[i].nodes
    ensures id in states[i].nodes[a].seen <==>
            exists path :: Connects(NetLinks(c, states[i].nodes), path, states[i].started[id].addr, a)
  {
    var f := states[i];
    CalmIsRun(c, states);
    RunKeeps(c, states, i);
    CoveringThroughout(c, states, i, id);
    if id in f.nodes[a].seen {
      HopLimit(c, states, i, a, id);
    }
    if path :| Connects(NetLinks(c, f.nodes), path, f.started[id].addr, a) {
      PathIsSeen(c, f, id, path);
    }
  }

  // ---------------------------------------------------------------- the origin's own links

  /** The origin has sent the message along all its links, whatever the TTL. */
  ghost predicate Launched(c: Config, f: Flood, id: MsgId) {
    && AllHandled(f)
    && (id in f.started ==> f.started[id].addr in f.nodes && Forwarded(c, f, f.started[id].addr, id))
  }

  lemma CalmStepLaunches(c: Config, f: Flood, e: Event, id: MsgId)
    requires Inv(c, f) && Enabled(c, f, e) && Calm(f, e) && FullFanout(c, f.nodes) && Launched(c, f, id)
    ensures Launched(c, After(c, f, e), id)
  {
    var f' := After(c, f, e);
    StepGrows(c, f, e);
    DoneStays(c, f, e);
    var out := CalmFrame(c, f, e);
    if id in f.started {
      ForwardedStays(c, f, f', f.started[id].addr, id, out);
    } else if e.Broadcast? && e.id == id {
      SendsToAll(c, f, f', e.a, id, e.origin.ttl, e.origin.body, e.out);
    } else {
      assert id !in f'.started;
    }
  }

  lemma {:induction false} LaunchedThroughout(c: Config, states: seq<Flood>, i: nat, id: MsgId)
    requires CalmRun(c, states) && i < |states| && FullFanout(c, states[0].nodes)
    ensures Launched(c, states[i], id) && FullFanout(c, states[i].nodes)
  {
    if i > 0 {
      CalmIsRun(c, states);
      LaunchedThroughout(c, states, i - 1, id);
      RunKeeps(c, states, i - 1);
      var f := states[i - 1];
      assert CalmStep(c, f, states[i]);
      var e :| Enabled(c, f, e) && Calm(f, e) && states[i] == After(c, f, e);
      CalmStepLaunches(c, f, e, id);
      CalmKeepsLinks(c, f, e);
    }
  }

  /** Whatever the TTL, a finished flood without losses has reached the origin's own links. */
  lemma NeighboursAreReached(c: Config, states: seq<Flood>, i: nat, id: MsgId, x: Addr)
    requires CalmRun(c, states) && i < |states| && FullFanout(c, states[0].nodes)
    requires id in states[i].started && (forall p :: p in states[i].flight ==> p.id != id)
    requires x in states[i].nodes && x in Ball(NetLinks(c, states[i].nodes), states[i].started[id].addr, 1)
    ensures id in states[i].nodes[x].seen
  {
    var f := states[i];
    CalmIsRun(c, states);
    RunKeeps(c, states, i);
    LaunchedThroughout(c, states, i, id);
    var o := f.started[id].addr;
    if x != o {
      OneHop(NetLinks(c, f.nodes), o, x);
      LinkIsSeen(c, f, id, o, x);
    }
  }

  lemma OneHop(g: Links, from: Addr, x: Addr)
    requires x in Ball(g, from, 1) && x != from
    ensures x in GossipGraph.Next(g, from)
  {
    assert Ball(g, from, 0) == {from};
  }
}

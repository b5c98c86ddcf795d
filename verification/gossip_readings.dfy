/** What becomes of the readings that a flood carries: who ends up with which. */
module GossipReadings {
  import opened Wrappers
  import opened GossipGraph
  import opened GossipNode
  import opened GossipFlood
  import opened GossipTheorems

  /** What a delivery does to readings: the recipient of a new frame with hops not negative and a body that can
      be decoded has its reading from then on; nobody else's readings change, nor does any other delivery. */
  lemma DeliveryStores(c: Config, f: Flood, e: Event)
    requires Enabled(c, f, e) && e.Deliver?
    ensures var f', a := After(c, f, e), e.p.dest;
            && f'.nodes.Keys == f.nodes.Keys
            && (forall b :: b in f.nodes && b != a ==> f'.nodes[b] == f.nodes[b])
            && f'.nodes[a].readings ==
                 if e.p.id !in f.nodes[a].seen && e.p.ttl >= 0 && c.decode(e.p.body).Some? then
                   var r := c.decode(e.p.body).value; f.nodes[a].readings[r.nodeId := r]
                 else f.nodes[a].readings
  {
    FrameLaw(f.nodes[e.p.dest], e.p.id, Some(e.p.ttl), c.decode(e.p.body));
  }

  lemma StepKeepsReadings(c: Config, f: Flood, e: Event, a: Addr)
    requires Enabled(c, f, e) && a in f.nodes
    ensures a in After(c, f, e).nodes && f.nodes[a].readings.Keys <= After(c, f, e).nodes[a].readings.Keys
  {
    if e.Deliver? { DeliveryStores(c, f, e); }
  }

  /** Once a node has a reading of another it always has one. */
  lemma {:induction false} ReadingsAreNeverLost(c: Config, states: seq<Flood>, i: nat, j: nat, a: Addr)
    requires Run(c, states) && i <= j < |states| && a in states[i].nodes
    ensures a in states[j].nodes && states[i].nodes[a].readings.Keys <= states[j].nodes[a].readings.Keys
    decreases j
  {
    if i < j {
      ReadingsAreNeverLost(c, states, i, j - 1, a);
      assert Step(c, states[j - 1], states[j]);
      var e :| Enabled(c, states[j - 1], e) && states[j] == After(c, states[j - 1], e);
      StepKeepsReadings(c, states[j - 1], e, a);
    }
  }

  /** If `a` has seen message `id`, broadcast by another node with hops not negative, it has a reading of the
      node that the message is about. */
  ghost predicate Informed(c: Config, f: Flood, a: Addr, id: MsgId)
    requires a in f.nodes
  {
    id in f.nodes[a].seen && id in f.started ==>
      var o := f.started[id];
      o.addr != a && o.ttl >= 0 && c.decode(o.body).Some? ==> c.decode(o.body).value.nodeId in f.nodes[a].readings
  }

  lemma RecipientIsInformed(c: Config, f: Flood, e: Event)
    requires Inv(c, f) && Fresh(c, f, e)
    ensures e.p.dest in After(c, f, e).nodes && Informed(c, After(c, f, e), e.p.dest, e.p.id)
  {
    DeliveryTakesUp(c, f, e);
    InFlightIsSent(c, f, e.p);
    DeliveryStores(c, f, e);
  }

  lemma StaysInformed(c: Config, f: Flood, e: Event, a: Addr, id: MsgId)
    requires Inv(c, f) && Enabled(c, f, e) && a in f.nodes && Informed(c, f, a, id)
    requires id in f.nodes[a].seen
    ensures a in After(c, f, e).nodes && Informed(c, After(c, f, e), a, id)
  {
    StepGrows(c, f, e);
    StepKeepsReadings(c, f, e, a);
    assert NodeOk(c, f, a);
    assert SeenOk(c, f, a, id);
  }

  lemma NewlySeen(c: Config, f: Flood, e: Event, a: Addr, id: MsgId)
    requires Inv(c, f) && Enabled(c, f, e) && a in f.nodes && id !in f.nodes[a].seen
    ensures a in After(c, f, e).nodes
    ensures id in After(c, f, e).nodes[a].seen ==>
              (e.Broadcast? && e.a == a && e.id == id) || (Fresh(c, f, e) && e.p.dest == a && e.p.id == id)
  {
    if e.Deliver? { FrameLaw(f.nodes[e.p.dest], e.p.id, Some(e.p.ttl), c.decode(e.p.body)); }
  }

  lemma StepInforms(c: Config, f: Flood, e: Event, a: Addr, id: MsgId)
    requires Inv(c, f) && Enabled(c, f, e) && a in f.nodes && Informed(c, f, a, id)
    ensures a in After(c, f, e).nodes && Informed(c, After(c, f, e), a, id)
  {
    if id in f.nodes[a].seen {
      StaysInformed(c, f, e, a, id);
    } else {
      NewlySeen(c, f, e, a, id);
      if Fresh(c, f, e) && e.p.dest == a && e.p.id == id {
        RecipientIsInformed(c, f, e);
      }
    }
  }

  /** Seeing is knowing: on every run, with losses and delays and whatever the fanout, a node that has seen a
      message that can be decoded and was broadcast by another, with hops not negative, has a reading of the
      node that the message is about. */
  lemma {:induction false} SeenIsStored(c: Config, states: seq<Flood>, i: nat, a: Addr, id: MsgId)
    requires Run(c, states) && i < |states| && a in states[i].nodes
    ensures Informed(c, states[i], a, id)
  {
    if i > 0 {
      var f := states[i - 1];
      RunKeeps(c, states, i - 1);
      assert Step(c, f, states[i]);
      var e :| Enabled(c, f, e) && states[i] == After(c, f, e);
      StepGrows(c, f, e);
      SeenIsStored(c, states, i - 1, a, id);
      StepInforms(c, f, e, a, id);
    }
  }

  /** Every message about the node of `r` carries `r`. */
  ghost predicate OnlyReading(c: Config, f: Flood, r: Reading) {
    forall id {:trigger f.started[id]} :: id in f.started && c.decode(f.started[id].body).Some? ==>
      var x := c.decode(f.started[id].body).value;
      x.nodeId == r.nodeId ==> x == r
  }

  /** What a flood is for: without losses, with a full fanout and a TTL of at least the number of nodes less two,
      it ends with a reading of the node that the message is about at every node connected to the origin; the
      very reading that was broadcast, unless another was broadcast too or the node takes such readings itself. */
  lemma FloodDeliversReading(c: Config, states: seq<Flood>, i: nat, id: MsgId, a: Addr, path: seq<Addr>, r: Reading)
    requires CalmRun(c, states) && i < |states| && FullFanout(c, states[0].nodes)
    requires id in states[i].started && Ample(c, states[i].nodes, states[i].started[id])
    requires (forall p :: p in states[i].flight ==> p.id != id) && a in states[i].nodes
    requires a != states[i].started[id].addr && c.decode(states[i].started[id].body) == Some(r)
    requires Connects(NetLinks(c, states[i].nodes), path, states[i].started[id].addr, a)
    ensures r.nodeId in states[i].nodes[a].readings
    ensures OnlyReading(c, states[i], r) && states[i].nodes[a].nodeId != r.nodeId ==>
              states[i].nodes[a].readings[r.nodeId] == r
  {
    var f, o := states[i], states[i].started[id];
    CalmIsRun(c, states);
    RunKeeps(c, states, i);
    FloodReachesAll(c, states, i, id, a);
    assert {a, o.addr} <= f.nodes.Keys;
    TwoNodes(f.nodes.Keys, a, o.addr);
    SeenIsStored(c, states, i, a, id);
    ReadingsAreGenuine(c, states, i, a, r.nodeId);
  }

  lemma TwoNodes(nodes: set<Addr>, a: Addr, b: Addr)
    requires a in nodes && b in nodes && a != b
    ensures |nodes| >= 2
  {
    assert nodes == {a, b} + (nodes - {a, b});
  }
}

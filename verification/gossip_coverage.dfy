/** For which TTL a flood is sure to reach every node near enough. With too few hops it is not: a frame
    on a long path can overtake the one on the short path, and deduplication then drops the latter with
    its larger hop counter. */
module GossipCoverage {
  import opened Sequences
  import opened Wrappers
  import opened GossipGraph
  import opened GossipNode
  import opened GossipFlood
  import opened GossipTheorems

  /** A run among `n` nodes, without losses and with a full fanout, at whose end the flood of `id`, which
      has TTL `t` and can be decoded, is over. */
  ghost predicate Finished(c: Config, states: seq<Flood>, id: MsgId, n: nat, t: int) {
    && CalmRun(c, states) && FullFanout(c, states[0].nodes)
    && var f := Last(states);
       && |f.nodes.Keys| == n && id in f.started && f.started[id].ttl == t && c.decode(f.started[id].body).Some?
       && (forall p :: p in f.flight ==> p.id != id)
  }

  /** Every node within TTL + 1 hops of the origin has seen the message. */
  ghost predicate ReachesNear(c: Config, f: Flood, id: MsgId) {
    id in f.started ==>
      forall x {:trigger f.nodes[x]} ::
        x in f.nodes && x in Ball(NetLinks(c, f.nodes), f.started[id].addr, Radius(f.started[id])) ==>
          id in f.nodes[x].seen
  }

  /** On every network of `n` nodes every finished flood with TTL `t` reaches all nodes near enough. */
  ghost predicate Reliable(decode: string -> Option<Reading>, n: nat, t: int) {
    forall coordinator, fanout, states, id {:trigger Finished(Config(coordinator, fanout, decode), states, id, n, t)} ::
      Finished(Config(coordinator, fanout, decode), states, id, n, t) ==>
        ReachesNear(Config(coordinator, fanout, decode), Last(states), id)
  }

  // ---------------------------------------------------------------- enough hops, or none needed

  lemma EnoughHops(c: Config, states: seq<Flood>, id: MsgId, n: nat, t: int)
    requires Finished(c, states, id, n, t) && (t <= 0 || t + 2 >= n)
    ensures ReachesNear(c, Last(states), id)
  {
    var f, i := Last(states), |states| - 1;
    var o := f.started[id];
    forall x | x in f.nodes && x in Ball(NetLinks(c, f.nodes), o.addr, Radius(o)) ensures id in f.nodes[x].seen {
      if t <= 0 {
        NeighboursAreReached(c, states, i, id, x);
      } else {
        BallIsPaths(NetLinks(c, f.nodes), o.addr, Radius(o), x);
        FloodReachesAll(c, states, i, id, x);
      }
    }
  }

  // ---------------------------------------------------------------- a network that misleads

  function Name(i: nat): (name: Addr)
    ensures |name| == i + 1
  {
    if i == 0 then "x" else Name(i - 1) + "x"
  }

  function Names(n: nat): set<Addr> {
    if n == 0 then {} else Names(n - 1) + {Name(n - 1)}
  }

  lemma {:induction false} NamesAre(n: nat)
    ensures |Names(n)| == n
    ensures forall a {:trigger a in Names(n)} :: a in Names(n) <==> 1 <= |a| <= n && a == Name(|a| - 1)
  {
    if n > 0 { NamesAre(n - 1); }
  }

  /** Nodes 0 to t + 2 form a chain, with a short cut from node 0 to node t + 1; any others stand alone. */
  function PeersAt(t: nat, i: nat): set<Addr> {
    if i == 0 then {Name(1), Name(t + 1)} else if i <= t + 1 then {Name(i + 1)} else {}
  }

  function NodeOf(t: nat, a: Addr): View {
    View(a, "", if |a| == 0 then {} else PeersAt(t, |a| - 1), {}, map[])
  }

  function Chain(n: nat, t: nat): map<Addr, View> {
    map a | a in Names(n) :: NodeOf(t, a)
  }

  lemma InChain(n: nat, t: nat, i: nat)
    requires i < n
    ensures Name(i) in Names(n) && Chain(n, t)[Name(i)] == View(Name(i), "", PeersAt(t, i), {}, map[])
  {
    NamesAre(n);
  }

  // ---------------------------------------------------------------- the run

  /** The run to describe: `n` nodes, TTL `t`, any decodable body. */
  datatype Plan = Plan(decode: string -> Option<Reading>, body: string, n: nat, t: nat)

  ghost predicate PlanOk(w: Plan) {
    1 <= w.t && w.t + 3 <= w.n && w.decode(w.body).Some?
  }

  function Rules(w: Plan): Config {
    Config("", 3, w.decode)
  }

  /** The frame to node `j` of the chain, and the one that takes the short cut. */
  function Link(w: Plan, j: nat): Packet {
    Packet("m", w.t + 1 - j, w.body, Name(j))
  }

  function Short(w: Plan): Packet {
    Packet("m", w.t, w.body, Name(w.t + 1))
  }

  /** Nodes 0 to `k` have seen the message. */
  ghost predicate NodeAt(w: Plan, f: Flood, k: nat, i: nat) {
    && Name(i) in f.nodes
    && var v := f.nodes[Name(i)];
       v.addr == Name(i) && v.peers == PeersAt(w.t, i) && v.seen == if i <= k then {"m"} else {}
  }

  ghost predicate At(w: Plan, f: Flood, k: nat, flight: multiset<Packet>) {
    && f.nodes.Keys == Names(w.n)
    && (forall i: nat {:trigger NodeAt(w, f, k, i)} :: i < w.n ==> NodeAt(w, f, k, i))
    && f.started == map["m" := Origin(Name(0), w.t, w.body)]
    && f.flight == flight
  }

  ghost function Beginning(w: Plan): Flood {
    Flood(Chain(w.n, w.t), map[], multiset{}, [], [], [], {})
  }

  lemma SendsAlong(w: Plan, v: View, list: seq<Addr>, ttl: int)
    requires multiset(list) == multiset(v.peers) && v.addr !in v.peers && |list| <= 3
    ensures Sends(v, "", 3, "m", ttl, w.body, PacketsTo(list, "m", ttl, w.body))
  {
    assert v.peers - {v.addr} == v.peers;
    assert Candidates(v, "", list);
    assert Propagation.Selection(list, 3, list);
    assert Chosen(v, "", 3, list);
  }

  function Launch(w: Plan): Event {
    Broadcast(Name(0), "m", Origin(Name(0), w.t, w.body), [Link(w, 1), Short(w)])
  }

  lemma LaunchIsEnabled(w: Plan)
    requires PlanOk(w)
    ensures Enabled(Rules(w), Beginning(w), Launch(w))
  {
    var list := [Name(1), Name(w.t + 1)];
    InChain(w.n, w.t, 0);
    assert |Name(0)| < |Name(1)| < |Name(w.t + 1)|;
    assert multiset(list) == multiset(PeersAt(w.t, 0));
    SendsAlong(w, Beginning(w).nodes[Name(0)], list, w.t);
    assert PacketsTo(list, "m", w.t, w.body) == [Link(w, 1), Short(w)];
  }

  /** Node 0 broadcasts, down the chain and over the short cut. */
  lemma Begins(w: Plan) returns (f: Flood)
    requires PlanOk(w)
    ensures CalmStep(Rules(w), Beginning(w), f) && At(w, f, 0, multiset{Link(w, 1), Short(w)})
  {
    LaunchIsEnabled(w);
    f := After(Rules(w), Beginning(w), Launch(w));
    BeginsAt(w, f);
  }

  lemma BeginsAt(w: Plan, f: Flood)
    requires PlanOk(w) && Name(0) in Beginning(w).nodes && f == After(Rules(w), Beginning(w), Launch(w))
    ensures At(w, f, 0, multiset{Link(w, 1), Short(w)})
  {
    forall i: nat | i < w.n ensures NodeAt(w, f, 0, i) {
      InChain(w.n, w.t, i);
      assert |Name(i)| == i + 1;
    }
    assert multiset([Link(w, 1), Short(w)]) == multiset{Link(w, 1), Short(w)};
  }

  /** Node `k + 1` takes the message up; whether it relays or keeps it, `k + 1` nodes after the first
      have seen it. */
  lemma NextNode(w: Plan, f: Flood, k: nat, flight: multiset<Packet>, e: Event, flight': multiset<Packet>)
    requires PlanOk(w) && k + 1 < w.n && At(w, f, k, flight)
    requires e.Deliver? && e.p == Link(w, k + 1) && e.p.dest in f.nodes
    requires !VerdictOn(Rules(w), f.nodes[e.p.dest], e.p).Duplicate?
    requires flight' == flight - multiset{e.p} + multiset(e.out)
    ensures At(w, After(Rules(w), f, e), k + 1, flight')
  {
    var f', j := After(Rules(w), f, e), k + 1;
    assert NodeAt(w, f, k, j);
    forall i: nat {:trigger NodeAt(w, f', j, i)} | i < w.n ensures NodeAt(w, f', j, i) {
      assert NodeAt(w, f, k, i);
      assert |Name(i)| == i + 1 && |Name(j)| == j + 1;
    }
  }

  lemma RelayIsEnabled(w: Plan, f: Flood, k: nat)
    requires PlanOk(w) && k < w.t && At(w, f, k, multiset{Link(w, k + 1), Short(w)})
    ensures Name(k + 1) in f.nodes && VerdictOn(Rules(w), f.nodes[Name(k + 1)], Link(w, k + 1)).Relayed?
    ensures Enabled(Rules(w), f, Deliver(Link(w, k + 1), [Link(w, k + 2)]))
  {
    var list := [Name(k + 2)];
    assert NodeAt(w, f, k, k + 1);
    var v := f.nodes[Name(k + 1)];
    assert |Name(k + 1)| < |Name(k + 2)|;
    SendsAlong(w, v, list, w.t - k - 1);
    assert PacketsTo(list, "m", w.t - k - 1, w.body) == [Link(w, k + 2)];
    assert VerdictOn(Rules(w), v, Link(w, k + 1)) == Relayed(w.decode(w.body).value, w.t - k - 1);
  }

  lemma Relays(w: Plan, f: Flood, k: nat) returns (f': Flood)
    requires PlanOk(w) && k < w.t && At(w, f, k, multiset{Link(w, k + 1), Short(w)})
    ensures CalmStep(Rules(w), f, f') && At(w, f', k + 1, multiset{Link(w, k + 2), Short(w)})
  {
    var e := Deliver(Link(w, k + 1), [Link(w, k + 2)]);
    RelayIsEnabled(w, f, k);
    NextNode(w, f, k, multiset{Link(w, k + 1), Short(w)}, e, multiset{Link(w, k + 2), Short(w)});
    f' := After(Rules(w), f, e);
    assert Calm(f, e);
  }

  lemma TakeOne(p: Packet, q: Packet)
    ensures multiset{p, q} - multiset{p} + multiset([]) == multiset{q}
  {
  }

  lemma ArrivalIsEnabled(w: Plan, f: Flood)
    requires PlanOk(w) && At(w, f, w.t, multiset{Link(w, w.t + 1), Short(w)})
    ensures Name(w.t + 1) in f.nodes && VerdictOn(Rules(w), f.nodes[Name(w.t + 1)], Link(w, w.t + 1)).Kept?
    ensures Enabled(Rules(w), f, Deliver(Link(w, w.t + 1), []))
  {
    assert NodeAt(w, f, w.t, w.t + 1);
  }

  /** The chain's frame reaches node `t + 1` with no hops left. */
  lemma ArrivesFirst(w: Plan, f: Flood) returns (f': Flood)
    requires PlanOk(w) && At(w, f, w.t, multiset{Link(w, w.t + 1), Short(w)})
    ensures CalmStep(Rules(w), f, f') && At(w, f', w.t + 1, multiset{Short(w)})
  {
    var e := Deliver(Link(w, w.t + 1), []);
    ArrivalIsEnabled(w, f);
    TakeOne(Link(w, w.t + 1), Short(w));
    NextNode(w, f, w.t, multiset{Link(w, w.t + 1), Short(w)}, e, multiset{Short(w)});
    f' := After(Rules(w), f, e);
    assert Calm(f, e);
  }

  /** The frame over the short cut, with hops to spare, comes second. */
  lemma IsDropped(w: Plan, f: Flood) returns (f': Flood)
    requires PlanOk(w) && At(w, f, w.t + 1, multiset{Short(w)})
    ensures CalmStep(Rules(w), f, f') && At(w, f', w.t + 1, multiset{})
  {
    var p := Short(w);
    assert NodeAt(w, f, w.t + 1, w.t + 1);
    assert VerdictOn(Rules(w), f.nodes[p.dest], p).Duplicate?;
    var e := Deliver(p, []);
    assert Enabled(Rules(w), f, e) && Calm(f, e);
    f' := After(Rules(w), f, e);
    assert f'.nodes == f.nodes;
    var k := w.t + 1;
    forall i: nat {:trigger NodeAt(w, f', k, i)} | i < w.n ensures NodeAt(w, f', k, i) {
      assert NodeAt(w, f, k, i);
    }
  }

  // ---------------------------------------------------------------- putting the run together

  lemma Onward(c: Config, states: seq<Flood>, f: Flood)
    requires CalmRun(c, states) && CalmStep(c, Last(states), f)
    ensures CalmRun(c, states + [f]) && (states + [f])[0] == states[0] && Last(states + [f]) == f
  {
    var longer := states + [f];
    forall i, j | 0 <= i < j < |longer| && j == i + 1 ensures CalmStep(c, longer[i], longer[j]) {
      StepOf(c, states, f, i);
    }
  }

  lemma StepOf(c: Config, states: seq<Flood>, f: Flood, i: nat)
    requires CalmRun(c, states) && CalmStep(c, Last(states), f) && i < |states|
    ensures CalmStep(c, (states + [f])[i], (states + [f])[i + 1])
  {
    if i + 1 < |states| { assert CalmStep(c, states[i], states[i + 1]); }
  }

  lemma FirstRun(w: Plan) returns (states: seq<Flood>)
    requires PlanOk(w)
    ensures CalmRun(Rules(w), states) && states[0] == Beginning(w)
    ensures At(w, Last(states), 0, multiset{Link(w, 1), Short(w)})
  {
    BeginningIsInit(w);
    var f := Begins(w);
    Onward(Rules(w), [Beginning(w)], f);
    states := [Beginning(w)] + [f];
  }

  lemma {:induction false} RunTo(w: Plan, k: nat) returns (states: seq<Flood>)
    requires PlanOk(w) && k <= w.t
    ensures CalmRun(Rules(w), states) && states[0] == Beginning(w)
    ensures At(w, Last(states), k, multiset{Link(w, k + 1), Short(w)})
  {
    if k == 0 {
      states := FirstRun(w);
    } else {
      var before := RunTo(w, k - 1);
      states := RunFurther(w, before, k - 1);
    }
  }

  lemma RunFurther(w: Plan, before: seq<Flood>, k: nat) returns (states: seq<Flood>)
    requires PlanOk(w) && k < w.t && CalmRun(Rules(w), before)
    requires At(w, Last(before), k, multiset{Link(w, k + 1), Short(w)})
    ensures CalmRun(Rules(w), states) && states[0] == before[0]
    ensures At(w, Last(states), k + 1, multiset{Link(w, k + 2), Short(w)})
  {
    var f := Relays(w, Last(before), k);
    Onward(Rules(w), before, f);
    states := before + [f];
  }

  lemma BeginningIsInit(w: Plan)
    ensures Init(Beginning(w))
  {
  }

  lemma RunToEnd(w: Plan) returns (states: seq<Flood>)
    requires PlanOk(w)
    ensures CalmRun(Rules(w), states) && states[0] == Beginning(w) && At(w, Last(states), w.t + 1, multiset{})
  {
    states := RunTo(w, w.t);
    var f := ArrivesFirst(w, Last(states));
    Onward(Rules(w), states, f);
    states := states + [f];
    f := IsDropped(w, f);
    Onward(Rules(w), states, f);
    states := states + [f];
  }

  lemma FanoutIsFull(w: Plan)
    ensures FullFanout(Rules(w), Beginning(w).nodes)
  {
    forall a | a in Beginning(w).nodes ensures 3 > |Beginning(w).nodes[a].peers| {
      if |a| > 0 { FewPeers(w.t, |a| - 1); }
    }
  }

  lemma FewPeers(t: nat, i: nat)
    ensures |PeersAt(t, i)| <= 2
  {
    assert PeersAt(t, 0) == {Name(1)} + {Name(t + 1)};
  }

  /** Node `t + 2` is two hops from node 0 and has seen nothing. */
  lemma LastNodeIsMissed(w: Plan, f: Flood)
    requires PlanOk(w) && At(w, f, w.t + 1, multiset{})
    ensures !ReachesNear(Rules(w), f, "m")
  {
    var g, o, x := NetLinks(Rules(w), f.nodes), Origin(Name(0), w.t, w.body), Name(w.t + 2);
    assert NodeAt(w, f, w.t + 1, 0) && NodeAt(w, f, w.t + 1, w.t + 1) && NodeAt(w, f, w.t + 1, w.t + 2);
    assert |Name(0)| < |Name(w.t + 1)| < |x|;
    assert Name(w.t + 1) in GossipGraph.Next(g, Name(0)) && x in GossipGraph.Next(g, Name(w.t + 1));
    PathStays(g, Name(0), Radius(o), [Name(0), Name(w.t + 1), x]);
    assert x in f.nodes && "m" !in f.nodes[x].seen;
  }

  /** With at least one hop and fewer than `n` - 2, some finished flood among `n` nodes misses a node
      near enough. */
  lemma FloodMayMissNearNode(w: Plan) returns (states: seq<Flood>)
    requires PlanOk(w)
    ensures Finished(Rules(w), states, "m", w.n, w.t) && !ReachesNear(Rules(w), Last(states), "m")
  {
    states := RunToEnd(w);
    FanoutIsFull(w);
    NamesAre(w.n);
    LastNodeIsMissed(w, Last(states));
  }

  /** Exactly when floods are sure to reach everyone near enough: with a TTL that allows no relaying at
      all, or with one of at least the number of nodes less two. */
  lemma FloodIsReliableIff(decode: string -> Option<Reading>, body: string, n: nat, t: int)
    requires decode(body).Some?
    ensures Reliable(decode, n, t) <==> t <= 0 || t >= n - 2
  {
    if t <= 0 || t >= n - 2 {
      forall coordinator, fanout, states, id | Finished(Config(coordinator, fanout, decode), states, id, n, t)
        ensures ReachesNear(Config(coordinator, fanout, decode), Last(states), id)
      {
        EnoughHops(Config(coordinator, fanout, decode), states, id, n, t);
      }
    } else {
      var w := Plan(decode, body, n, t);
      var states := FloodMayMissNearNode(w);
      assert Finished(Config("", 3, decode), states, "m", n, t);
    }
  }
}

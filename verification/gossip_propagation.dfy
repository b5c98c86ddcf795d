/** The propagation simulator: from one node, every infected node infects up to `fanout` randomly
    chosen peers per step. */
module GossipPropagation {
  import opened Counting
  import opened Sequences
  import opened GossipGraph

  datatype Node = Node(id: Id, peers: seq<Id>)

  /** Who lists whom as a peer. */
  type Graph = map<Id, seq<Id>>

  function PeersOf(g: Graph, n: Id): seq<Id> {
    if n in g then g[n] else []
  }

  function LinksOf(g: Graph): Links {
    map n | n in g :: set p | p in g[n]
  }

  /** The graph of a list of nodes; of nodes with the same identifier the last counts. */
  function GraphOf(nodes: seq<Node>): Graph {
    if |nodes| == 0 then map[]
    else
      var n := |nodes| - 1;
      GraphOf(nodes[..n])[nodes[n].id := nodes[n].peers]
  }

  /** A node's peers are those of the last listing of its identifier; who is not listed is not a node. */
  lemma {:induction false} LastListingCounts(nodes: seq<Node>, id: Id)
    ensures id in GraphOf(nodes) <==> exists i :: 0 <= i < |nodes| && nodes[i].id == id
    ensures forall i :: 0 <= i < |nodes| && nodes[i].id == id && (forall j :: i < j < |nodes| ==> nodes[j].id != id) ==>
              id in GraphOf(nodes) && GraphOf(nodes)[id] == nodes[i].peers
  {
    if |nodes| > 0 {
      var n := |nodes| - 1;
      var front := nodes[..n];
      LastListingCounts(front, id);
      assert forall i :: 0 <= i < n ==> front[i] == nodes[i];
      if nodes[n].id == id {
        assert GraphOf(nodes)[id] == nodes[n].peers;
      }
    }
  }

  // ---------------------------------------------------------------- choosing peers

  /** `chosen` takes `fanout` of the peers, or all if there are fewer, each entry at most once. */
  ghost predicate Selection(peers: seq<Id>, fanout: nat, chosen: seq<Id>) {
    |chosen| == Min(fanout, |peers|) && multiset(chosen) <= multiset(peers)
  }

  ghost predicate Distinct(indices: seq<nat>) {
    forall i, j :: 0 <= i < j < |indices| ==> indices[i] != indices[j]
  }

  ghost predicate Within(indices: seq<nat>, n: nat) {
    forall i :: 0 <= i < |indices| ==> indices[i] < n
  }

  /** A permutation of 0..n-1, built by random insertion; any can come out. */
  method Perm(n: nat) returns (indices: seq<nat>)
    ensures |indices| == n && Distinct(indices) && Within(indices, n)
  {
    indices := [];
    for i := 0 to n
      invariant |indices| == i && Distinct(indices) && Within(indices, i)
    {
      var j :| 0 <= j <= i;
      indices := if j == i then indices + [i] else indices[j := i] + [indices[j]];
    }
  }

  function Pick(peers: seq<Id>, indices: seq<nat>): (r: seq<Id>)
    requires Within(indices, |peers|)
    ensures |r| == |indices|
  {
    seq(|indices|, i requires 0 <= i < |indices| => peers[indices[i]])
  }

  /** Picking at different indices takes no entry twice. */
  lemma {:induction false} PickIsPart(peers: seq<Id>, indices: seq<nat>)
    requires Distinct(indices) && Within(indices, |peers|)
    ensures multiset(Pick(peers, indices)) <= multiset(peers)
    decreases |peers|
  {
    if |indices| == 0 {
      assert Pick(peers, indices) == [];
    } else {
      assert indices[0] < |peers|;
      var m := |peers| - 1;
      assert peers == peers[..m] + [peers[m]];
      if i :| 0 <= i < |indices| && indices[i] == m {
        var rest := indices[..i] + indices[i + 1..];
        PickIsPart(peers[..m], rest);
        PickSplit(peers, indices, i);
      } else {
        PickIsPart(peers[..m], indices);
        assert Pick(peers, indices) == Pick(peers[..m], indices);
      }
    }
  }

  lemma WithinRest(indices: seq<nat>, i: nat, m: nat)
    requires Distinct(indices) && Within(indices, m + 1) && i < |indices| && indices[i] == m
    ensures Within(indices[..i] + indices[i + 1..], m)
  {
    var rest := indices[..i] + indices[i + 1..];
    forall j | 0 <= j < |rest| ensures rest[j] < m {
      assert rest[j] == indices[if j < i then j else j + 1];
    }
  }

  lemma PickSplit(peers: seq<Id>, indices: seq<nat>, i: nat)
    requires |peers| > 0 && Distinct(indices) && Within(indices, |peers|)
    requires i < |indices| && indices[i] == |peers| - 1
    ensures var m, rest := |peers| - 1, indices[..i] + indices[i + 1..];
            Within(rest, m) && multiset(Pick(peers, indices)) == multiset(Pick(peers[..m], rest)) + multiset{peers[m]}
  {
    var m, rest, all := |peers| - 1, indices[..i] + indices[i + 1..], Pick(peers, indices);
    WithinRest(indices, i, m);
    var part := Pick(peers[..m], rest);
    assert part[..i] == all[..i];
    assert part[i..] == all[i + 1..];
    assert all == InsertAt(part, i, peers[m]);
    InsertAtAdds(part, i, peers[m]);
  }

  method SelectRandomPeers(peers: seq<Id>, fanout: nat) returns (selected: seq<Id>)
    ensures Selection(peers, fanout, selected)
    ensures |selected| <= fanout && |selected| <= |peers| && (|selected| == fanout || |selected| == |peers|)
    ensures multiset(selected) <= multiset(peers)
  {
    if |peers| == 0 {
      return [];
    }
    if fanout >= |peers| {
      return peers;
    }
    var indices := Perm(|peers|);
    selected := [];
    for i := 0 to fanout
      invariant selected == Pick(peers, indices[..i])
    {
      selected := selected + [peers[indices[i]]];
    }
    PickIsPart(peers, indices[..fanout]);
  }

  // ---------------------------------------------------------------- one step

  type Choice = map<Id, seq<Id>>

  ghost predicate Chooses(g: Graph, fanout: nat, infected: set<Id>, choice: Choice) {
    choice.Keys == infected && forall n :: n in infected ==> Selection(PeersOf(g, n), fanout, choice[n])
  }

  function Targets(choice: Choice, nodes: set<Id>): set<Id>
    requires nodes <= choice.Keys
  {
    set n, p | n in nodes && p in choice[n] :: p
  }

  /** One step: every infected node infects the peers it chose. */
  ghost predicate Spreads(g: Graph, fanout: nat, before: set<Id>, after: set<Id>) {
    exists choice :: Chooses(g, fanout, before, choice) && after == before + Targets(choice, before)
  }

  method Spread(g: Graph, fanout: nat, infected: set<Id>) returns (after: set<Id>)
    ensures Spreads(g, fanout, infected, after)
  {
    var newly: set<Id> := {};
    var rest := infected;
    ghost var choice: Choice := map[];
    while rest != {}
      invariant rest <= infected && Chooses(g, fanout, infected - rest, choice)
      invariant infected + newly == infected + Targets(choice, infected - rest)
      decreases rest
    {
      var n :| n in rest;
      var selected := SelectRandomPeers(PeersOf(g, n), fanout);
      newly := Infect(infected, newly, selected);
      TargetsGrow(choice, infected - rest, n, selected);
      choice := choice[n := selected];
      assert infected - (rest - {n}) == (infected - rest) + {n};
      rest := rest - {n};
    }
    assert infected - rest == infected;
    after := infected + newly;
  }

  method Infect(infected: set<Id>, newly: set<Id>, selected: seq<Id>) returns (newly': set<Id>)
    ensures infected + newly' == infected + newly + (set p | p in selected)
    ensures newly' - newly == (set p | p in selected && p !in infected && p !in newly)
  {
    newly' := newly;
    for i := 0 to |selected|
      invariant newly' == newly + (set p | p in selected[..i] && p !in infected)
    {
      if selected[i] !in infected {
        newly' := newly' + {selected[i]};
      }
    }
    assert selected[..|selected|] == selected;
  }

  lemma TargetsGrow(choice: Choice, nodes: set<Id>, n: Id, selected: seq<Id>)
    requires nodes <= choice.Keys && n !in nodes
    ensures Targets(choice[n := selected], nodes + {n}) == Targets(choice, nodes) + (set p | p in selected)
  {
    var choice' := choice[n := selected];
    forall p | p in Targets(choice, nodes) ensures p in Targets(choice', nodes + {n}) {
      var m :| m in nodes && p in choice[m];
      assert p in choice'[m];
    }
    forall p | p in selected ensures p in Targets(choice', nodes + {n}) {
      assert p in choice'[n];
    }
  }

  // ---------------------------------------------------------------- the simulation

  /** The infected set after each step of a run from `initial`. */
  ghost predicate IsRun(g: Graph, fanout: nat, initial: Id, trace: seq<set<Id>>) {
    && |trace| >= 1 && trace[0] == {initial}
    && (forall i, j {:trigger Spreads(g, fanout, trace[i], trace[j])} ::
          0 <= i < j < |trace| && j == i + 1 ==> Spreads(g, fanout, trace[i], trace[j]))
  }

  datatype Result = Result(steps: nat, reachedCount: nat, reachedRatio: real, total: nat)

  datatype Outcome =
    | Reached(result: Result)
    | NotReached(result: Result)
    | NoNodes | BadFanout | BadTarget | BadMaxSteps | UnknownInitial

  /** The infected set makes up the wanted share of `total` nodes. */
  ghost predicate Suffices(infected: set<Id>, total: nat, target: real) {
    |infected| as real >= target * total as real
  }

  /** A run whose last step, and no step before it, infects the wanted share of the nodes. */
  ghost predicate FirstReached(trace: seq<set<Id>>, total: nat, target: real)
    requires |trace| >= 1
  {
    && Suffices(trace[|trace| - 1], total, target)
    && (forall s :: 1 <= s < |trace| - 1 ==> !Suffices(trace[s], total, target))
  }

  ghost predicate NeverReached(trace: seq<set<Id>>, total: nat, target: real) {
    forall s :: 1 <= s < |trace| ==> !Suffices(trace[s], total, target)
  }

  lemma RatioLaw(count: nat, total: nat, target: real)
    requires total > 0
    ensures (count as real / total as real) * total as real == count as real
    ensures count as real / total as real >= target <==> count as real >= target * total as real
  {
    var ratio := count as real / total as real;
    assert ratio * total as real == count as real;
    if ratio >= target {
      assert (ratio - target) * total as real >= 0.0;
    } else {
      assert (target - ratio) * total as real > 0.0;
    }
  }

  /** The source's test: a set's ratio to `total` is at least the target. */
  function Meets(total: nat, target: real): set<Id> -> bool
    requires total > 0
  {
    (infected: set<Id>) => |infected| as real / total as real >= target
  }

  lemma MeetsLaw(infected: set<Id>, total: nat, target: real)
    requires total > 0
    ensures Meets(total, target)(infected) <==> Suffices(infected, total, target)
  {
    RatioLaw(|infected|, total, target);
  }

  /** No step of the run met the test. */
  ghost predicate NeverMet(trace: seq<set<Id>>, meets: set<Id> -> bool) {
    forall s :: 1 <= s < |trace| ==> !meets(trace[s])
  }

  lemma ReachedBySize(trace: seq<set<Id>>, total: nat, target: real)
    requires total > 0 && |trace| >= 1
    ensures Meets(total, target)(trace[|trace| - 1]) && NeverMet(trace[..|trace| - 1], Meets(total, target)) ==>
              FirstReached(trace, total, target)
    ensures NeverMet(trace, Meets(total, target)) ==> NeverReached(trace, total, target)
  {
    forall s | 0 <= s < |trace| ensures Meets(total, target)(trace[s]) <==> Suffices(trace[s], total, target) {
      MeetsLaw(trace[s], total, target);
    }
  }

  method Report(infected: set<Id>, steps: nat, total: nat) returns (result: Result)
    requires total > 0
    ensures result.steps == steps && result.reachedCount == |infected| && result.total == total
    ensures result.reachedRatio * total as real == |infected| as real
  {
    RatioLaw(|infected|, total, 0.0);
    result := Result(steps, |infected|, |infected| as real / total as real, total);
  }

  method IndexNodes(nodes: seq<Node>) returns (g: Graph)
    ensures g == GraphOf(nodes)
  {
    g := map[];
    for i := 0 to |nodes|
      invariant g == GraphOf(nodes[..i])
    {
      assert nodes[..i + 1][..i] == nodes[..i];
      g := g[nodes[i].id := nodes[i].peers];
    }
    assert nodes[..|nodes|] == nodes;
  }

  lemma RunExtends(g: Graph, fanout: nat, initial: Id, trace: seq<set<Id>>, next: set<Id>)
    requires IsRun(g, fanout, initial, trace) && Spreads(g, fanout, trace[|trace| - 1], next)
    ensures IsRun(g, fanout, initial, trace + [next])
  {
    var longer := trace + [next];
    forall i, j | 0 <= i < j < |longer| && j == i + 1 ensures Spreads(g, fanout, longer[i], longer[j]) {
      if j < |trace| {
        assert Spreads(g, fanout, trace[i], trace[j]);
      }
    }
  }

  /** The simulation loop. */
  method SpreadUntil(g: Graph, initial: Id, fanout: nat, meets: set<Id> -> bool, maxSteps: nat)
    returns (infected: set<Id>, steps: nat, reached: bool, ghost trace: seq<set<Id>>)
    requires maxSteps > 0
    ensures IsRun(g, fanout, initial, trace) && 1 < |trace| <= maxSteps + 1
    ensures steps == |trace| - 1 && infected == trace[steps]
    ensures reached ==> meets(infected) && NeverMet(trace[..steps], meets)
    ensures !reached ==> steps == maxSteps && NeverMet(trace, meets)
  {
    infected := {initial};
    trace := [infected];
    for step := 1 to maxSteps + 1
      invariant |trace| == step && IsRun(g, fanout, initial, trace) && infected == trace[step - 1]
      invariant NeverMet(trace, meets)
    {
      infected := Spread(g, fanout, infected);
      RunExtends(g, fanout, initial, trace, infected);
      assert (trace + [infected])[..step] == trace;
      trace := trace + [infected];
      if meets(infected) {
        return infected, step, true, trace;
      }
    }
    return infected, maxSteps, false, trace;
  }

  method SimulatePropagation(nodes: seq<Node>, initial: Id, fanout: int, target: real, maxSteps: int)
    returns (r: Outcome, ghost trace: seq<set<Id>>)
    ensures r.NoNodes? <==> |nodes| == 0
    ensures r.BadFanout? <==> |nodes| > 0 && fanout <= 0
    ensures r.BadTarget? <==> |nodes| > 0 && fanout > 0 && (target <= 0.0 || target > 1.0)
    ensures r.BadMaxSteps? <==> |nodes| > 0 && fanout > 0 && 0.0 < target <= 1.0 && maxSteps <= 0
    ensures r.UnknownInitial? <==>
            |nodes| > 0 && fanout > 0 && 0.0 < target <= 1.0 && maxSteps > 0 && initial !in GraphOf(nodes)
    ensures r.Reached? || r.NotReached? ==>
              && initial in GraphOf(nodes) && IsRun(GraphOf(nodes), fanout, initial, trace)
              && 1 < |trace| <= maxSteps + 1
              && r.result.steps == |trace| - 1 && r.result.reachedCount == |trace[|trace| - 1]|
              && r.result.total == |nodes|
              && r.result.reachedRatio * r.result.total as real == r.result.reachedCount as real
    ensures r.Reached? ==> FirstReached(trace, |nodes|, target)
    ensures r.NotReached? ==> |trace| == maxSteps + 1 && NeverReached(trace, |nodes|, target)
  {
    trace := [];
    if |nodes| == 0 {
      return NoNodes, trace;
    }
    if fanout <= 0 {
      return BadFanout, trace;
    }
    if target <= 0.0 || target > 1.0 {
      return BadTarget, trace;
    }
    if maxSteps <= 0 {
      return BadMaxSteps, trace;
    }
    var peersById := IndexNodes(nodes);
    if initial !in peersById {
      return UnknownInitial, trace;
    }
    var infected, steps, reached;
    infected, steps, reached, trace := SpreadUntil(peersById, initial, fanout, Meets(|nodes|, target), maxSteps);
    ReachedBySize(trace, |nodes|, target);
    var result := Report(infected, steps, |nodes|);
    return if reached then Reached(result) else NotReached(result), trace;
  }

  // ---------------------------------------------------------------- bounds

  lemma SelectedArePeers(peers: seq<Id>, fanout: nat, chosen: seq<Id>, p: Id)
    requires Selection(peers, fanout, chosen) && p in chosen
    ensures p in peers
  {
    assert multiset(chosen)[p] >= 1;
  }

  /** A selection leaves someone out only when there are more peers than the fanout. */
  lemma AllSelected(peers: seq<Id>, fanout: nat, chosen: seq<Id>, p: Id)
    requires Selection(peers, fanout, chosen) && fanout >= |peers| && p in peers
    ensures p in chosen
  {
    assert |multiset(peers) - multiset(chosen)| == 0;
    assert multiset(chosen)[p] >= 1;
  }

  lemma {:induction false} ElementCount(xs: seq<Id>)
    ensures |set p | p in xs| <= |xs|
  {
    if |xs| > 0 {
      var n := |xs| - 1;
      ElementCount(xs[..n]);
      assert xs == xs[..n] + [xs[n]];
      assert (set p | p in xs) == (set p | p in xs[..n]) + {xs[n]};
    } else {
      assert (set p | p in xs) == {};
    }
  }

  lemma {:induction false} TargetCount(choice: Choice, nodes: set<Id>, fanout: nat)
    requires nodes <= choice.Keys && forall n :: n in nodes ==> |choice[n]| <= fanout
    ensures |Targets(choice, nodes)| <= fanout * |nodes|
    decreases nodes
  {
    if n :| n in nodes {
      var rest := nodes - {n};
      TargetCount(choice, rest, fanout);
      TargetsGrow(choice, rest, n, choice[n]);
      assert choice[n := choice[n]] == choice && rest + {n} == nodes;
      ElementCount(choice[n]);
      MulStep(fanout, |rest|);
      assert |nodes| == |rest| + 1;
    } else {
      assert Targets(choice, nodes) == {};
    }
  }

  function Pow(b: nat, e: nat): nat {
    if e == 0 then 1 else b * Pow(b, e - 1)
  }

  lemma SpreadCount(g: Graph, fanout: nat, before: set<Id>, after: set<Id>)
    requires Spreads(g, fanout, before, after)
    ensures before <= after && |after| <= |before| + fanout * |before|
  {
    var choice :| Chooses(g, fanout, before, choice) && after == before + Targets(choice, before);
    TargetCount(choice, before, fanout);
  }

  /** Every infected node infects as many entries of its peer list as the fanout allows, none twice. */
  lemma SpreadChoice(g: Graph, fanout: nat, before: set<Id>, after: set<Id>, n: Id) returns (chosen: seq<Id>)
    requires Spreads(g, fanout, before, after) && n in before
    ensures |chosen| == (if |PeersOf(g, n)| < fanout then |PeersOf(g, n)| else fanout)
    ensures multiset(chosen) <= multiset(PeersOf(g, n)) && forall p :: p in chosen ==> p in after
  {
    var choice :| Chooses(g, fanout, before, choice) && after == before + Targets(choice, before);
    chosen := choice[n];
  }

  lemma SpreadReach(g: Graph, fanout: nat, before: set<Id>, after: set<Id>, p: Id) returns (n: Id)
    requires Spreads(g, fanout, before, after) && p in after - before
    ensures n in before && p in PeersOf(g, n)
  {
    var choice :| Chooses(g, fanout, before, choice) && after == before + Targets(choice, before);
    n :| n in before && p in choice[n];
    SelectedArePeers(PeersOf(g, n), fanout, choice[n], p);
  }

  /** The infected set never shrinks. */
  lemma {:induction false} InfectionGrows(g: Graph, fanout: nat, initial: Id, trace: seq<set<Id>>, s: nat, t: nat)
    requires IsRun(g, fanout, initial, trace) && s <= t < |trace|
    ensures trace[s] <= trace[t]
    decreases t
  {
    if s < t {
      InfectionGrows(g, fanout, initial, trace, s, t - 1);
      assert Spreads(g, fanout, trace[t - 1], trace[t]);
      SpreadCount(g, fanout, trace[t - 1], trace[t]);
    }
  }

  /** After `s` steps the infection is inside the ball of radius `s`. */
  lemma {:induction false} InfectionInBall(g: Graph, fanout: nat, initial: Id, trace: seq<set<Id>>, s: nat)
    requires IsRun(g, fanout, initial, trace) && s < |trace|
    ensures trace[s] <= Ball(LinksOf(g), initial, s)
  {
    if s > 0 {
      InfectionInBall(g, fanout, initial, trace, s - 1);
      assert Spreads(g, fanout, trace[s - 1], trace[s]);
      forall p | p in trace[s] && p !in trace[s - 1] ensures p in Ball(LinksOf(g), initial, s) {
        var n := SpreadReach(g, fanout, trace[s - 1], trace[s], p);
        assert p in Next(LinksOf(g), n);
      }
    }
  }

  /** After `s` steps at most (1+fanout)^s are infected. */
  lemma {:induction false} InfectionCount(g: Graph, fanout: nat, initial: Id, trace: seq<set<Id>>, s: nat)
    requires IsRun(g, fanout, initial, trace) && s < |trace|
    ensures |trace[s]| <= Pow(1 + fanout, s)
  {
    if s > 0 {
      InfectionCount(g, fanout, initial, trace, s - 1);
      assert Spreads(g, fanout, trace[s - 1], trace[s]);
      SpreadCount(g, fanout, trace[s - 1], trace[s]);
      Compound(fanout, |trace[s - 1]|, Pow(1 + fanout, s - 1));
    }
  }

  lemma SpreadToAll(g: Graph, fanout: nat, before: set<Id>, after: set<Id>, n: Id, p: Id)
    requires Spreads(g, fanout, before, after) && n in before && p in PeersOf(g, n) && fanout >= |PeersOf(g, n)|
    ensures p in after
  {
    var choice :| Chooses(g, fanout, before, choice) && after == before + Targets(choice, before);
    AllSelected(PeersOf(g, n), fanout, choice[n], p);
  }

  /** With a fanout no smaller than any peer list the infection is the ball: nothing is left to chance. */
  lemma {:induction false} FullFanoutFillsBall(g: Graph, fanout: nat, initial: Id, trace: seq<set<Id>>, s: nat)
    requires IsRun(g, fanout, initial, trace) && s < |trace|
    requires forall n :: n in g ==> fanout >= |g[n]|
    ensures trace[s] == Ball(LinksOf(g), initial, s)
  {
    InfectionInBall(g, fanout, initial, trace, s);
    if s > 0 {
      FullFanoutFillsBall(g, fanout, initial, trace, s - 1);
      assert Spreads(g, fanout, trace[s - 1], trace[s]);
      InfectionGrows(g, fanout, initial, trace, s - 1, s);
      forall p | p in Ball(LinksOf(g), initial, s) ensures p in trace[s] {
        if p !in Ball(LinksOf(g), initial, s - 1) {
          var n :| n in Ball(LinksOf(g), initial, s - 1) && p in Next(LinksOf(g), n);
          SpreadToAll(g, fanout, trace[s - 1], trace[s], n, p);
        }
      }
    }
  }

  /** Then the whole outcome is determined: two simulations that reach the target take the same steps. */
  lemma FullFanoutIsDeterministic(g: Graph, fanout: nat, initial: Id, total: nat, target: real,
                                  a: seq<set<Id>>, b: seq<set<Id>>)
    requires IsRun(g, fanout, initial, a) && IsRun(g, fanout, initial, b) && |a| > 1 && |b| > 1
    requires forall n :: n in g ==> fanout >= |g[n]|
    requires FirstReached(a, total, target) && FirstReached(b, total, target)
    ensures a == b
  {
    forall s: nat | s < |a| ensures a[s] == Ball(LinksOf(g), initial, s) {
      FullFanoutFillsBall(g, fanout, initial, a, s);
    }
    forall s: nat | s < |b| ensures b[s] == Ball(LinksOf(g), initial, s) {
      FullFanoutFillsBall(g, fanout, initial, b, s);
    }
  }

  lemma {:induction false} GraphSize(nodes: seq<Node>)
    ensures |GraphOf(nodes).Keys| <= |nodes|
  {
    if |nodes| > 0 {
      var n := |nodes| - 1;
      GraphSize(nodes[..n]);
      assert GraphOf(nodes).Keys == GraphOf(nodes[..n]).Keys + {nodes[n].id};
    }
  }

  ghost predicate Closed(g: Graph) {
    forall n, p :: p in PeersOf(g, n) ==> p in g
  }

  lemma SpreadStaysInside(g: Graph, fanout: nat, before: set<Id>, after: set<Id>)
    requires Closed(g) && Spreads(g, fanout, before, after) && before <= g.Keys
    ensures after <= g.Keys
  {
    forall p | p in after && p !in before ensures p in g {
      var n := SpreadReach(g, fanout, before, after, p);
    }
  }

  lemma {:induction false} InfectedAreNodes(g: Graph, fanout: nat, initial: Id, trace: seq<set<Id>>, s: nat)
    requires Closed(g) && IsRun(g, fanout, initial, trace) && s < |trace| && initial in g
    ensures trace[s] <= g.Keys
  {
    if s > 0 {
      InfectedAreNodes(g, fanout, initial, trace, s - 1);
      assert Spreads(g, fanout, trace[s - 1], trace[s]);
      SpreadStaysInside(g, fanout, trace[s - 1], trace[s]);
    }
  }

  /** When every listed peer is itself a node, no more than all nodes are ever counted as reached. */
  lemma ReachedAreNodes(nodes: seq<Node>, fanout: nat, initial: Id, trace: seq<set<Id>>, s: nat)
    requires Closed(GraphOf(nodes)) && IsRun(GraphOf(nodes), fanout, initial, trace)
    requires s < |trace| && initial in GraphOf(nodes)
    ensures |trace[s]| <= |nodes|
  {
    GraphSize(nodes);
    InfectedAreNodes(GraphOf(nodes), fanout, initial, trace, s);
    SubsetSize(trace[s], GraphOf(nodes).Keys);
  }
}

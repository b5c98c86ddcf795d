/** What a run of the cluster has done so far, and the invariant that ties it to the nodes.

    A `Reign` is one won election: its leader, the leader's log when it won, the log as the leader
    has grown it since, and for each voter the log that voter held when it voted. A `Grant` is one
    vote, an `Accept` one node's acceptance of a leader's entry in the term that created it. None
    of this steers the protocol; it only records. */
module RaftHistory {
  import opened Counting
  import opened RaftHandlers

  datatype Reign = Reign(leader: Id, start: Log, log: Log, ballots: map<Id, Log>)

  datatype Grant = Grant(voter: Id, term: nat, candidate: Id, log: Log)

  datatype Accept = Accept(node: Id, term: nat, index: nat)

  type Reigns = map<nat, Reign>

  type Nodes = map<Id, NodeState>

  datatype Hist = Hist(reigns: Reigns, grants: set<Grant>, accepts: set<Accept>)

  // ---------------------------------------------------------------- logs and reigns

  /** Every entry of the log was created by the leader of its term, and the log agrees with that
      leader's log up to and including the entry. */
  ghost predicate Backed(reigns: Reigns, log: Log) {
    forall p :: 0 <= p < |log| ==> log[p].term in reigns && log[..p + 1] <= reigns[log[p].term].log
  }

  ghost predicate Below(log: Log, term: nat) {
    forall p :: 0 <= p < |log| ==> log[p].term < term
  }

  ghost predicate AtMost(log: Log, term: nat) {
    forall p :: 0 <= p < |log| ==> log[p].term <= term
  }

  ghost predicate Sorted(log: Log) {
    forall p, q :: 0 <= p < q < |log| ==> log[p].term <= log[q].term
  }

  /** The two logs hold different entries at some common position. */
  ghost predicate Differ(a: Log, b: Log) {
    exists p :: 0 <= p < |a| && p < |b| && a[p] != b[p]
  }

  /** The leader's log up to the accepted entry. */
  ghost function AcceptedPrefix(reigns: Reigns, a: Accept): (log: Log)
    requires a.term in reigns && a.index <= |reigns[a.term].log|
  {
    reigns[a.term].log[..a.index]
  }

  /** A leader of a term after the acceptance and before `bound` contradicts the accepted prefix. */
  ghost predicate Overruled(reigns: Reigns, a: Accept, bound: nat)
    requires a.term in reigns && a.index <= |reigns[a.term].log|
  {
    exists t :: t in reigns && a.term < t < bound && Differ(AcceptedPrefix(reigns, a), reigns[t].log)
  }

  /** `log` still holds what was accepted, unless a leader before `bound` overruled it. */
  ghost predicate Kept(reigns: Reigns, a: Accept, log: Log, bound: nat) {
    && a.term in reigns
    && a.index <= |reigns[a.term].log|
    && (AcceptedPrefix(reigns, a) <= log || Overruled(reigns, a, bound))
  }

  // ---------------------------------------------------------------- the invariant

  ghost predicate NodeOk(h: Hist, n: Id, s: NodeState) {
    && n != ""
    && Backed(h.reigns, s.log)
    && AtMost(s.log, s.currentTerm)
    && (s.role.Candidate? ==>
          Below(s.log, s.currentTerm) && Grant(n, s.currentTerm, n, s.log) in h.grants)
    && (s.role.Leader? ==>
          && s.currentTerm in h.reigns
          && h.reigns[s.currentTerm].leader == n
          && h.reigns[s.currentTerm].log == s.log)
    && (s.leaderId != "" ==> s.currentTerm in h.reigns && h.reigns[s.currentTerm].leader == s.leaderId)
  }

  /** The part of a reign's invariant that speaks of logs alone. */
  ghost predicate ReignLogOk(reigns: Reigns, t: nat)
    requires t in reigns
  {
    var r := reigns[t];
    && r.start <= r.log
    && Below(r.start, t)
    && (forall p :: |r.start| <= p < |r.log| ==> r.log[p].term == t)
    && Backed(reigns, r.log)
  }

  ghost predicate ReignOk(nodes: Nodes, h: Hist, t: nat)
    requires t in h.reigns
  {
    var r := h.reigns[t];
    && r.leader in nodes
    && nodes[r.leader].currentTerm >= t
    && (nodes[r.leader].currentTerm == t ==> nodes[r.leader].role.Leader?)
    && ReignLogOk(h.reigns, t)
    && r.ballots.Keys <= nodes.Keys
    && |r.ballots.Keys| >= Quorum(|nodes.Keys|)
    && (forall v :: v in r.ballots ==>
          && Grant(v, t, r.leader, r.ballots[v]) in h.grants
          && UpToDate(|r.start|, LastTerm(r.start), r.ballots[v]))
  }

  ghost predicate GrantOk(nodes: Nodes, h: Hist, g: Grant) {
    && g.voter in nodes
    && g.candidate != ""
    && g.term <= nodes[g.voter].currentTerm
    && (g.term == nodes[g.voter].currentTerm ==> nodes[g.voter].votedFor == g.candidate)
    && Backed(h.reigns, g.log)
  }

  ghost predicate AcceptOk(nodes: Nodes, h: Hist, a: Accept) {
    && a.node in nodes
    && a.term in h.reigns
    && 1 <= a.index <= |h.reigns[a.term].log|
    && h.reigns[a.term].log[a.index - 1].term == a.term
    && a.term <= nodes[a.node].currentTerm
    && Kept(h.reigns, a, nodes[a.node].log, nodes[a.node].currentTerm + 1)
  }

  /** Each node votes for at most one candidate in a term. */
  ghost predicate VotesOnce(h: Hist) {
    forall g, g' :: g in h.grants && g' in h.grants && g.voter == g'.voter && g.term == g'.term
      ==> g.candidate == g'.candidate
  }

  ghost predicate GrantKeeps(h: Hist, g: Grant) {
    forall a {:trigger a in h.accepts} ::
      a in h.accepts && a.node == g.voter && a.term < g.term ==> Kept(h.reigns, a, g.log, g.term + 1)
  }

  ghost predicate BallotsKeep(h: Hist, t: nat)
    requires t in h.reigns
  {
    forall a {:trigger a in h.accepts} ::
      a in h.accepts && a.node in h.reigns[t].ballots && a.term < t ==>
        Kept(h.reigns, a, h.reigns[t].ballots[a.node], t)
  }

  ghost predicate NodesOk(nodes: Nodes, h: Hist) {
    forall n {:trigger NodeOk(h, n, nodes[n])} :: n in nodes ==> NodeOk(h, n, nodes[n])
  }

  ghost predicate ReignsOk(nodes: Nodes, h: Hist) {
    forall t {:trigger ReignOk(nodes, h, t)} :: t in h.reigns ==> ReignOk(nodes, h, t)
  }

  ghost predicate GrantsOk(nodes: Nodes, h: Hist) {
    forall g {:trigger GrantOk(nodes, h, g)} :: g in h.grants ==> GrantOk(nodes, h, g)
  }

  ghost predicate AcceptsOk(nodes: Nodes, h: Hist) {
    forall a {:trigger AcceptOk(nodes, h, a)} :: a in h.accepts ==> AcceptOk(nodes, h, a)
  }

  /** No vote and no ballot had lost what its voter had accepted, unless it had been overruled. */
  ghost predicate VotesKeep(h: Hist) {
    && (forall g {:trigger GrantKeeps(h, g)} :: g in h.grants ==> GrantKeeps(h, g))
    && (forall t {:trigger BallotsKeep(h, t)} :: t in h.reigns ==> BallotsKeep(h, t))
  }

  ghost predicate HistOk(nodes: Nodes, h: Hist) {
    NodesOk(nodes, h) && ReignsOk(nodes, h) && GrantsOk(nodes, h) && AcceptsOk(nodes, h) && VotesOnce(h) && VotesKeep(h)
  }

  // ---------------------------------------------------------------- growth of reigns

  ghost predicate ReignGrows(r: Reign, r': Reign) {
    r'.leader == r.leader && r'.start == r.start && r'.ballots == r.ballots && r.log <= r'.log
  }

  ghost predicate ReignsGrow(reigns: Reigns, reigns': Reigns) {
    forall t :: t in reigns ==> t in reigns' && ReignGrows(reigns[t], reigns'[t])
  }

  ghost predicate HistGrows(h: Hist, h': Hist) {
    ReignsGrow(h.reigns, h'.reigns) && h.grants <= h'.grants && h.accepts <= h'.accepts
  }

  lemma BackedGrows(reigns: Reigns, reigns': Reigns, log: Log)
    requires ReignsGrow(reigns, reigns') && Backed(reigns, log)
    ensures Backed(reigns', log)
  {
    forall p | 0 <= p < |log|
      ensures log[p].term in reigns' && log[..p + 1] <= reigns'[log[p].term].log
    {
      var t := log[p].term;
      assert log[..p + 1] <= reigns[t].log && ReignGrows(reigns[t], reigns'[t]);
    }
  }

  lemma KeptGrows(reigns: Reigns, reigns': Reigns, a: Accept, log: Log, bound: nat)
    requires ReignsGrow(reigns, reigns') && Kept(reigns, a, log, bound)
    ensures Kept(reigns', a, log, bound)
  {
    assert ReignGrows(reigns[a.term], reigns'[a.term]);
    assert AcceptedPrefix(reigns', a) == AcceptedPrefix(reigns, a);
    if Overruled(reigns, a, bound) {
      var t :| t in reigns && a.term < t < bound && Differ(AcceptedPrefix(reigns, a), reigns[t].log);
      assert ReignGrows(reigns[t], reigns'[t]);
      var p :| 0 <= p < a.index && p < |reigns[t].log| && AcceptedPrefix(reigns, a)[p] != reigns[t].log[p];
      assert reigns'[t].log[p] == reigns[t].log[p];
    }
  }

  lemma BackedPrefix(reigns: Reigns, log: Log, size: nat)
    requires Backed(reigns, log) && size <= |log|
    ensures Backed(reigns, log[..size])
  {
    forall p | 0 <= p < size
      ensures log[..size][p].term in reigns && log[..size][..p + 1] <= reigns[log[p].term].log
    {
      assert log[..size][..p + 1] == log[..p + 1];
    }
  }

  /** Log matching: two backed logs with the same term at a position agree up to that position. */
  lemma BackedLogsMatch(reigns: Reigns, a: Log, b: Log, p: nat)
    requires Backed(reigns, a) && Backed(reigns, b)
    requires p < |a| && p < |b| && a[p].term == b[p].term
    ensures a[..p + 1] == b[..p + 1]
  {
    var leader := reigns[a[p].term].log;
    assert a[..p + 1] <= leader && b[..p + 1] <= leader;
    assert a[..p + 1] == leader[..p + 1] == b[..p + 1];
  }

  /** Terms never decrease along a backed log. */
  lemma BackedIsSorted(reigns: Reigns, log: Log)
    requires Backed(reigns, log)
    requires forall t :: t in reigns ==> ReignLogOk(reigns, t)
    ensures Sorted(log)
  {
    forall p, q | 0 <= p < q < |log|
      ensures log[p].term <= log[q].term
    {
      var t := log[q].term;
      assert log[..q + 1] <= reigns[t].log && ReignLogOk(reigns, t);
      assert log[p] == reigns[t].log[p];
      assert p < |reigns[t].start| ==> reigns[t].log[p] == reigns[t].start[p];
    }
  }

  // ---------------------------------------------------------------- quorums

  /** Any two quorums of the same cluster share a node. */
  lemma QuorumsIntersect(cluster: set<Id>, a: set<Id>, b: set<Id>) returns (n: Id)
    requires a <= cluster && b <= cluster
    requires |a| >= Quorum(|cluster|) && |b| >= Quorum(|cluster|)
    ensures n in a && n in b
  {
    if a !! b {
      assert |a + b| == |a| + |b|;
      SubsetSize(a + b, cluster);
      assert false;
    }
    n :| n in a && n in b;
  }

  /** At most one candidate can have a quorum of votes in a term. */
  lemma OneWinnerPerTerm(nodes: Nodes, h: Hist, t: nat, candidate: Id, voters: set<Id>)
    requires HistOk(nodes, h)
    requires t in h.reigns
    requires voters <= nodes.Keys && |voters| >= Quorum(|nodes.Keys|)
    requires forall v :: v in voters ==> exists log :: Grant(v, t, candidate, log) in h.grants
    ensures h.reigns[t].leader == candidate
  {
    assert ReignOk(nodes, h, t);
    var v := QuorumsIntersect(nodes.Keys, voters, h.reigns[t].ballots.Keys);
    var log :| Grant(v, t, candidate, log) in h.grants;
    assert Grant(v, t, h.reigns[t].leader, h.reigns[t].ballots[v]) in h.grants;
  }
}

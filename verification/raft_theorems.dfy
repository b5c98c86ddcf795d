/** The safety theorems of the protocol, over whole runs of any length and in every mode. */
module RaftTheorems {
  import opened RaftHandlers
  import opened RaftHistory
  import opened RaftCompleteness
  import opened RaftProtocol
  import opened RaftInvariant
  import opened RaftSteps

  // ---------------------------------------------------------------- history only grows

  /** Only an election and a proposal touch reigns; every other step at most adds a vote or an
      acceptance. */
  lemma OtherStepGrows(mode: Mode, s: Sys, e: Event, s': Sys)
    requires Step(mode, s, e, s') && !e.BecomeLeader? && !e.Propose?
    ensures HistGrows(s.hist, s'.hist)
  {
  }

  lemma StepKeepsMembers(mode: Mode, s: Sys, e: Event, s': Sys)
    requires Step(mode, s, e, s')
    ensures s'.nodes.Keys == s.nodes.Keys
  {
  }

  lemma StepGrows(mode: Mode, s: Sys, e: Event, s': Sys)
    requires Inv(s) && Step(mode, s, e, s')
    ensures HistGrows(s.hist, s'.hist) && s'.nodes.Keys == s.nodes.Keys
  {
    StepKeepsMembers(mode, s, e, s');
    if e.BecomeLeader? {
      BecomeLeaderStep(s, e.n);
    } else if e.Propose? {
      ProposeStep(s, e.n, e.command);
    } else {
      OtherStepGrows(mode, s, e, s');
    }
  }

  lemma {:induction false} RunGrows(mode: Mode, states: seq<Sys>, events: seq<Event>, i: nat, j: nat)
    requires Run(mode, states, events) && i <= j < |states|
    ensures HistGrows(states[i].hist, states[j].hist) && states[j].nodes.Keys == states[i].nodes.Keys
    ensures Inv(states[i]) && Inv(states[j])
    decreases j
  {
    RunKeeps(mode, states, events, j);
    if i < j {
      RunGrows(mode, states, events, i, j - 1);
      assert Step(mode, states[j - 1], events[j - 1], states[j]);
      StepGrows(mode, states[j - 1], events[j - 1], states[j]);
      ReignsGrowTransitive(states[i].hist.reigns, states[j - 1].hist.reigns, states[j].hist.reigns);
    }
  }

  lemma ReignsGrowTransitive(a: Reigns, b: Reigns, c: Reigns)
    requires ReignsGrow(a, b) && ReignsGrow(b, c)
    ensures ReignsGrow(a, c)
  {
    forall t | t in a ensures t in c && ReignGrows(a[t], c[t]) {
      assert ReignGrows(a[t], b[t]) && ReignGrows(b[t], c[t]);
    }
  }

  // ---------------------------------------------------------------- election safety

  /** At most one node is ever leader in a term, over a whole run. */
  lemma ElectionSafety(mode: Mode, states: seq<Sys>, events: seq<Event>, i: nat, j: nat, n: Id, m: Id)
    requires Run(mode, states, events) && i <= j < |states|
    requires n in states[i].nodes && states[i].nodes[n].role.Leader?
    requires m in states[j].nodes && states[j].nodes[m].role.Leader?
    requires states[i].nodes[n].currentTerm == states[j].nodes[m].currentTerm
    ensures n == m
  {
    RunGrows(mode, states, events, i, j);
    var t := states[i].nodes[n].currentTerm;
    assert NodeOk(states[i].hist, n, states[i].nodes[n]) && NodeOk(states[j].hist, m, states[j].nodes[m]);
    assert ReignGrows(states[i].hist.reigns[t], states[j].hist.reigns[t]);
  }

  /** A node votes for at most one candidate in a term, itself included, over a whole run. */
  lemma VotesForOneCandidate(mode: Mode, states: seq<Sys>, events: seq<Event>, i: nat, j: nat, g: Grant, g': Grant)
    requires Run(mode, states, events) && i <= j < |states|
    requires g in states[i].hist.grants && g' in states[j].hist.grants
    requires g.voter == g'.voter && g.term == g'.term
    ensures g.candidate == g'.candidate
  {
    RunGrows(mode, states, events, i, j);
    assert g in states[j].hist.grants;
  }

  /** Every vote a node gives is recorded: the one for itself when it opens an election, and each one
      that a reply grants. */
  lemma VotesAreRecorded(mode: Mode, states: seq<Sys>, events: seq<Event>, i: nat)
    requires Run(mode, states, events) && i < |states|
    ensures forall r :: r in states[i].voting.voteReplies && r.resp.granted ==>
              Grant(r.voter, r.term, r.candidate, r.log) in states[i].hist.grants
    ensures i < |events| && events[i].Timeout? ==>
              var n, t := events[i].n, states[i + 1].nodes[events[i].n];
              t.votedFor == n && Grant(n, t.currentTerm, n, t.log) in states[i + 1].hist.grants
  {
    RunKeeps(mode, states, events, i);
    forall r | r in states[i].voting.voteReplies && r.resp.granted
      ensures Grant(r.voter, r.term, r.candidate, r.log) in states[i].hist.grants
    {
      assert VoteReplyOk(states[i].nodes, states[i].hist, r);
    }
    assert i < |events| ==> Step(mode, states[i], events[i], states[i + 1]);
  }

  /** Two nodes that know a leader in the same term know the same one, even at different times. */
  lemma KnownLeaderIsUnique(mode: Mode, states: seq<Sys>, events: seq<Event>, i: nat, j: nat, n: Id, m: Id)
    requires Run(mode, states, events) && i <= j < |states|
    requires n in states[i].nodes && m in states[j].nodes
    requires states[i].nodes[n].currentTerm == states[j].nodes[m].currentTerm
    requires states[i].nodes[n].leaderId != "" && states[j].nodes[m].leaderId != ""
    ensures states[i].nodes[n].leaderId == states[j].nodes[m].leaderId
  {
    RunGrows(mode, states, events, i, j);
    var t := states[i].nodes[n].currentTerm;
    assert NodeOk(states[i].hist, n, states[i].nodes[n]) && NodeOk(states[j].hist, m, states[j].nodes[m]);
    assert ReignGrows(states[i].hist.reigns[t], states[j].hist.reigns[t]);
  }

  // ---------------------------------------------------------------- logs

  /** Log matching: if two logs, of any two nodes at any two times, have the same term at a
      position, they are identical up to and including it. */
  lemma LogMatching(mode: Mode, states: seq<Sys>, events: seq<Event>, i: nat, j: nat, n: Id, m: Id, p: nat)
    requires Run(mode, states, events) && i <= j < |states|
    requires n in states[i].nodes && m in states[j].nodes
    requires p < |states[i].nodes[n].log| && p < |states[j].nodes[m].log|
    requires states[i].nodes[n].log[p].term == states[j].nodes[m].log[p].term
    ensures states[i].nodes[n].log[..p + 1] == states[j].nodes[m].log[..p + 1]
  {
    RunGrows(mode, states, events, i, j);
    assert NodeOk(states[i].hist, n, states[i].nodes[n]) && NodeOk(states[j].hist, m, states[j].nodes[m]);
    BackedGrows(states[i].hist.reigns, states[j].hist.reigns, states[i].nodes[n].log);
    BackedLogsMatch(states[j].hist.reigns, states[i].nodes[n].log, states[j].nodes[m].log, p);
  }

  /** Terms never decrease along a log and never exceed the node's current term. */
  lemma LogTermsOrdered(mode: Mode, states: seq<Sys>, events: seq<Event>, i: nat, n: Id)
    requires Run(mode, states, events) && i < |states| && n in states[i].nodes
    ensures Sorted(states[i].nodes[n].log) && AtMost(states[i].nodes[n].log, states[i].nodes[n].currentTerm)
  {
    RunKeeps(mode, states, events, i);
    assert NodeOk(states[i].hist, n, states[i].nodes[n]);
    ReignLogsOk(states[i].nodes, states[i].hist);
    BackedIsSorted(states[i].hist.reigns, states[i].nodes[n].log);
  }

  /** A leader's log only grows while it leads. */
  lemma LeaderAppendOnly(mode: Mode, states: seq<Sys>, events: seq<Event>, i: nat, j: nat, n: Id)
    requires Run(mode, states, events) && i <= j < |states|
    requires n in states[i].nodes && states[i].nodes[n].role.Leader?
    requires n in states[j].nodes && states[j].nodes[n].role.Leader?
    requires states[i].nodes[n].currentTerm == states[j].nodes[n].currentTerm
    ensures states[i].nodes[n].log <= states[j].nodes[n].log
  {
    RunGrows(mode, states, events, i, j);
    var t := states[i].nodes[n].currentTerm;
    assert NodeOk(states[i].hist, n, states[i].nodes[n]) && NodeOk(states[j].hist, n, states[j].nodes[n]);
    assert ReignGrows(states[i].hist.reigns[t], states[j].hist.reigns[t]);
  }

  // ---------------------------------------------------------------- leader completeness

  lemma CommittedGrows(nodes: Nodes, h: Hist, nodes': Nodes, h': Hist, term: nat, index: nat)
    requires Committed(nodes, h, term, index) && HistGrows(h, h') && nodes'.Keys == nodes.Keys
    ensures Committed(nodes', h', term, index)
  {
    var q :| AcceptedBy(nodes, h, q, term, index);
    assert AcceptedBy(nodes', h', q, term, index);
  }

  /** The reign of a later leader holds the entry, whichever of the two was observed first: `h` is a
      history that both the commit (in `hc`) and the leader (in `hl`) have grown into. */
  lemma LaterReignHolds(nodes: Nodes, h: Hist, nc: Nodes, hc: Hist, hl: Hist, term: nat, index: nat, u: nat)
    requires HistOk(nodes, h) && HistOk(nc, hc) && Committed(nc, hc, term, index)
    requires HistGrows(hc, h) && HistGrows(hl, h) && nodes.Keys == nc.Keys
    requires u in hl.reigns && u > term
    ensures term in hc.reigns && 1 <= index <= |hc.reigns[term].log|
    ensures CommittedPrefix(hc, term, index) <= h.reigns[u].start
  {
    CommittedGrows(nc, hc, nodes, h, term, index);
    CommittedEntryExists(nc, hc, term, index);
    assert ReignGrows(hl.reigns[u], h.reigns[u]) && ReignGrows(hc.reigns[term], h.reigns[term]);
    LeaderComplete(nodes, h, term, index, u);
  }

  /** If a quorum accepted an entry in the term that created it (by state `i`), then every node that
      is leader in a later term, at any time `j` of the run, holds that entry and everything before
      it in place. */
  lemma LeaderCompleteness(mode: Mode, states: seq<Sys>, events: seq<Event>, i: nat, term: nat, index: nat, j: nat,
                           n: Id)
    requires Run(mode, states, events) && i < |states| && j < |states|
    requires Committed(states[i].nodes, states[i].hist, term, index)
    requires n in states[j].nodes && states[j].nodes[n].role.Leader? && states[j].nodes[n].currentTerm > term
    ensures term in states[i].hist.reigns && 1 <= index <= |states[i].hist.reigns[term].log|
    ensures CommittedPrefix(states[i].hist, term, index) <= states[j].nodes[n].log
  {
    var k := if i < j then j else i;
    RunGrows(mode, states, events, i, k);
    RunGrows(mode, states, events, j, k);
    var u := states[j].nodes[n].currentTerm;
    assert NodeOk(states[j].hist, n, states[j].nodes[n]) && ReignOk(states[j].nodes, states[j].hist, u);
    LaterReignHolds(states[k].nodes, states[k].hist, states[i].nodes, states[i].hist, states[j].hist, term, index, u);
    assert ReignGrows(states[j].hist.reigns[u], states[k].hist.reigns[u]);
  }

  /** A node whose acceptance is known (in `ha`) still holds the entry, though the quorum may have
      formed later (in `hc`). */
  lemma AcceptorStillHolds(nodes: Nodes, h: Hist, nc: Nodes, hc: Hist, na: Nodes, ha: Hist, a: Accept)
    requires HistOk(nodes, h) && HistOk(nc, hc) && HistOk(na, ha) && Committed(nc, hc, a.term, a.index)
    requires HistGrows(hc, h) && HistGrows(ha, h) && nodes.Keys == nc.Keys && a in ha.accepts
    ensures a.term in hc.reigns && 1 <= a.index <= |hc.reigns[a.term].log|
    ensures a.node in na && CommittedPrefix(hc, a.term, a.index) <= na[a.node].log
  {
    var r, r' := ha.reigns, h.reigns;
    CommittedEntryExists(nc, hc, a.term, a.index);
    assert AcceptOk(na, ha, a);
    assert ReignGrows(hc.reigns[a.term], r'[a.term]) && ReignGrows(r[a.term], r'[a.term]);
    forall u | u in r && a.term < u ensures !Differ(AcceptedPrefix(r, a), r[u].log) {
      LaterReignHolds(nodes, h, nc, hc, ha, a.term, a.index, u);
      assert ReignGrows(r[u], r'[u]) && ReignOk(na, ha, u);
    }
  }

  /** No node that accepted such an entry ever loses it, at any time from its acceptance on. */
  lemma AcceptedEntryIsNeverLost(mode: Mode, states: seq<Sys>, events: seq<Event>, i: nat, term: nat, index: nat,
                                 j: nat, n: Id)
    requires Run(mode, states, events) && i < |states| && j < |states|
    requires Committed(states[i].nodes, states[i].hist, term, index)
    requires Accept(n, term, index) in states[j].hist.accepts
    ensures term in states[i].hist.reigns && 1 <= index <= |states[i].hist.reigns[term].log|
    ensures n in states[j].nodes && CommittedPrefix(states[i].hist, term, index) <= states[j].nodes[n].log
  {
    var k := if i < j then j else i;
    RunGrows(mode, states, events, i, k);
    RunGrows(mode, states, events, j, k);
    AcceptorStillHolds(states[k].nodes, states[k].hist, states[i].nodes, states[i].hist, states[j].nodes,
                       states[j].hist,
                       Accept(n, term, index));
  }

  // ---------------------------------------------------------------- proposals

  /** Acknowledgements counted by a proposal come from distinct nodes that accepted its entry. */
  lemma AcknowledgedMeansCommitted(s: Sys, p: Proposal)
    requires Inv(s) && Enabled(s, Commit(p))
    ensures Committed(s.nodes, s.hist, p.term, p.index)
  {
    assert TallyOk(s.nodes, s.hist, p, s.appending.waiting[p]);
    assert AcceptedBy(s.nodes, s.hist, s.appending.waiting[p].ackers, p.term, p.index);
  }

  /** A `Propose` that has gathered a quorum of acknowledgements finds exactly the entry it appended
      still in place and never reads past the log, even if the node has since been deposed and has
      taken entries from other leaders. */
  lemma ProposalCommitsItsEntry(mode: Mode, states: seq<Sys>, events: seq<Event>, i: nat, p: Proposal)
    requires Run(mode, states, events) && i < |states| && Enabled(states[i], Commit(p))
    ensures var t := states[i].nodes[p.leader];
            && CommitInBounds(t, p.index)
            && 1 <= p.index <= |t.log| && t.log[p.index - 1] == p.entry
    ensures var t, t' := states[i].nodes[p.leader], OnCommit(states[i].nodes[p.leader], p.index);
            t.lastApplied < p.index ==>
              Delivered(t, t') == t.log[t.lastApplied..p.index] && t'.lastApplied == t'.commitIndex == p.index
  {
    var s := states[i];
    RunKeeps(mode, states, events, i);
    RunDelivers(mode, states, events, i);
    assert s.applied[p.leader] == s.applied[p.leader];
    assert TallyOk(s.nodes, s.hist, p, s.appending.waiting[p]);
    AcknowledgedMeansCommitted(s, p);
    AcceptorKeeps(s.nodes, s.hist, p.term, p.index, p.leader);
  }

  // ---------------------------------------------------------------- apply delivery

  /** From `s` to `s'` every node either hands out nothing or hands out the entries that its log now
      holds at the next consecutive indices. */
  ghost predicate DeliversInOrder(s: Sys, s': Sys) {
    forall n {:trigger s'.applied[n]} :: n in s.nodes ==>
      && n in s.applied && n in s'.applied && n in s'.nodes
      && s.applied[n] <= s'.applied[n]
      && (s'.applied[n] != s.applied[n] ==>
            && |s'.applied[n]| <= |s'.nodes[n].log|
            && s'.applied[n][|s.applied[n]|..] == s'.nodes[n].log[|s.applied[n]|..|s'.applied[n]|])
  }

  /** The follower's commit rule never reads past its log, whatever the message says. */
  lemma DeliveryInBounds(rule: Rule, t: NodeState, req: AppendRequest)
    requires t.commitIndex <= t.lastApplied
    ensures var t' := OnAppendEntries(rule, t, req).0;
            && t'.commitIndex <= t'.lastApplied && t.lastApplied <= t'.lastApplied
            && (t.lastApplied < t'.lastApplied ==> t'.lastApplied <= |t'.log|)
            && |Delivered(t, t')| == t'.lastApplied - t.lastApplied
  {
    if req.term >= t.currentTerm && req.entries != [] {
      var t1 := Adopt(t, req.term, req.leader);
      if MatchPrev(t1.log, req.prevIndex, req.prevTerm) {
        ReconcileReaches(t1.log, req.prevIndex, req.entries);
      }
    }
  }

  lemma ReconcileReaches(log: Log, prev: nat, entries: Log)
    requires prev <= |log|
    ensures |Reconcile(log, prev, entries)| >= prev + |entries|
  {
  }

  lemma CommitInBoundsHere(s: Sys, p: Proposal)
    requires Inv(s) && Enabled(s, Commit(p))
    ensures p.index <= |s.nodes[p.leader].log|
  {
    assert TallyOk(s.nodes, s.hist, p, s.appending.waiting[p]);
    AcknowledgedMeansCommitted(s, p);
    AcceptorKeeps(s.nodes, s.hist, p.term, p.index, p.leader);
  }

  lemma OneNodeDelivers(s: Sys, n: Id, t': NodeState, s': Sys)
    requires AppliedOk(s) && n in s.nodes
    requires s'.nodes == s.nodes[n := t'] && s'.applied == s.applied[n := s.applied[n] + Delivered(s.nodes[n], t')]
    requires t'.commitIndex <= t'.lastApplied && s.nodes[n].lastApplied <= t'.lastApplied
    requires s.nodes[n].lastApplied < t'.lastApplied ==> t'.lastApplied <= |t'.log|
    ensures AppliedOk(s') && DeliversInOrder(s, s')
  {
    assert |s.applied[n]| == s.nodes[n].lastApplied;
  }

  lemma OtherStepLeavesCounters(mode: Mode, s: Sys, e: Event, s': Sys, n: Id)
    requires Step(mode, s, e, s') && !e.DeliverAppend? && !e.Commit? && n in s.nodes
    ensures n in s'.nodes
    ensures s'.nodes[n].lastApplied == s.nodes[n].lastApplied && s'.nodes[n].commitIndex == s.nodes[n].commitIndex
  {
  }

  lemma SameCountersDeliver(s: Sys, s': Sys)
    requires AppliedOk(s) && s'.applied == s.applied && s'.nodes.Keys == s.nodes.Keys
    requires forall n {:trigger s'.nodes[n]} :: n in s.nodes ==>
               s'.nodes[n].lastApplied == s.nodes[n].lastApplied && s'.nodes[n].commitIndex == s.nodes[n].commitIndex
    ensures AppliedOk(s') && DeliversInOrder(s, s')
  {
  }

  lemma OtherStepDelivers(mode: Mode, s: Sys, e: Event, s': Sys)
    requires AppliedOk(s) && Step(mode, s, e, s') && !e.DeliverAppend? && !e.Commit?
    ensures AppliedOk(s') && DeliversInOrder(s, s')
  {
    StepKeepsMembers(mode, s, e, s');
    forall n | n in s.nodes
      ensures s'.nodes[n].lastApplied == s.nodes[n].lastApplied && s'.nodes[n].commitIndex == s.nodes[n].commitIndex
    {
      OtherStepLeavesCounters(mode, s, e, s', n);
    }
    OtherStepAppliesNothing(mode, s, e, s');
    SameCountersDeliver(s, s');
  }

  lemma OtherStepAppliesNothing(mode: Mode, s: Sys, e: Event, s': Sys)
    requires Step(mode, s, e, s') && !e.DeliverAppend? && !e.Commit?
    ensures s'.applied == s.applied
  {
  }

  lemma StepDelivers(mode: Mode, s: Sys, e: Event, s': Sys)
    requires Inv(s) && AppliedOk(s) && Step(mode, s, e, s')
    ensures AppliedOk(s') && DeliversInOrder(s, s')
  {
    if e.DeliverAppend? {
      var n := e.msg.to;
      assert |s.applied[n]| == s.nodes[n].lastApplied;
      DeliveryInBounds(mode.rule, s.nodes[n], e.msg.req);
      OneNodeDelivers(s, n, OnAppendEntries(mode.rule, s.nodes[n], e.msg.req).0, s');
    } else if e.Commit? {
      var n := e.p.leader;
      assert |s.applied[n]| == s.nodes[n].lastApplied;
      CommitInBoundsHere(s, e.p);
      OneNodeDelivers(s, n, OnCommit(s.nodes[n], e.p.index), s');
    } else {
      OtherStepDelivers(mode, s, e, s');
    }
  }

  lemma {:induction false} RunApplies(mode: Mode, states: seq<Sys>, events: seq<Event>, i: nat)
    requires Run(mode, states, events) && i < |states|
    ensures AppliedOk(states[i])
  {
    if i > 0 {
      RunKeeps(mode, states, events, i - 1);
      RunApplies(mode, states, events, i - 1);
      assert Step(mode, states[i - 1], events[i - 1], states[i]);
      StepDelivers(mode, states[i - 1], events[i - 1], states[i]);
    }
  }

  /** Everything committed has been handed out, exactly once per index, in every reachable state. */
  lemma RunDelivers(mode: Mode, states: seq<Sys>, events: seq<Event>, i: nat)
    requires Run(mode, states, events) && i < |states|
    ensures Inv(states[i]) && AppliedOk(states[i])
    ensures i + 1 < |states| ==> DeliversInOrder(states[i], states[i + 1])
  {
    RunKeeps(mode, states, events, i);
    RunApplies(mode, states, events, i);
    if i + 1 < |states| {
      assert Step(mode, states[i], events[i], states[i + 1]);
      StepDelivers(mode, states[i], events[i], states[i + 1]);
    }
  }
}

/** Every step of the cluster keeps the invariant, in every mode. */
module RaftSteps {
  import opened RaftHandlers
  import opened RaftHistory
  import opened RaftPreservation
  import opened RaftProtocol
  import opened RaftInvariant

  lemma InitHolds(s: Sys)
    requires Init(s)
    ensures Inv(s)
  {
    forall n | n in s.nodes ensures NodeOk(s.hist, n, s.nodes[n]) {
    }
  }

  // ---------------------------------------------------------------- elections

  lemma TimeoutStep(s: Sys, n: Id)
    requires Inv(s) && Enabled(s, Timeout(n))
    ensures Inv(AfterTimeout(s, n))
  {
    var t, s' := OnTimeout(s.nodes[n], n), AfterTimeout(s, n);
    TimeoutKeeps(s.nodes, s.hist, n);
    assert s'.nodes.Keys == s.nodes.Keys;
    assert Advance(s.nodes, s.hist, s'.nodes, s'.hist, n);
    VotingAdvances(s.nodes, s.hist, s'.nodes, s'.hist, n, s.voting);
    AppendingAdvances(s.nodes, s.hist, s'.nodes, s'.hist, n, s.appending);
    FreshElectionOk(s'.nodes, s'.hist, n, s'.voting.elections[n]);
    AddElection(s'.nodes, s'.hist, s.voting, s'.voting, n);
  }

  lemma FreshElectionOk(nodes: Nodes, h: Hist, n: Id, el: Election)
    requires n in nodes && n != "" && Grant(n, el.term, n, nodes[n].log) in h.grants
    requires el == Election(nodes[n].currentTerm, 1, {}, map[n := nodes[n].log], false)
    ensures ElectionOk(nodes, h, n, el)
  {
    assert el.ballots.Keys == {n};
    assert BallotOk(nodes, h, n, n, el.term, el.ballots[n]);
  }

  lemma AddElection(nodes: Nodes, h: Hist, voting: Voting, voting': Voting, n: Id)
    requires VotingOk(nodes, h, voting) && n != "" && n in voting'.elections
    requires ElectionOk(nodes, h, n, voting'.elections[n])
    requires voting'.elections - {n} == voting.elections - {n}
    requires forall l :: l in voting'.launched ==> l in voting.launched || l == (n, voting'.elections[n].term)
    requires voting'.halves == voting.halves && voting'.voteMsgs == voting.voteMsgs
    requires voting'.voteReplies == voting.voteReplies
    ensures VotingOk(nodes, h, voting')
  {
    forall m | m in voting'.elections ensures ElectionOk(nodes, h, m, voting'.elections[m]) {
      if m != n {
        assert m in voting'.elections - {n};
        assert voting.elections[m] == voting'.elections[m];
      }
    }
  }

  lemma DropElection(nodes: Nodes, h: Hist, voting: Voting, n: Id)
    requires VotingOk(nodes, h, voting)
    ensures VotingOk(nodes, h, voting.(elections := voting.elections - {n}))
  {
    var voting' := voting.(elections := voting.elections - {n});
    forall m | m in voting'.elections ensures ElectionOk(nodes, h, m, voting'.elections[m]) {
      assert voting.elections[m] == voting'.elections[m];
    }
  }

  lemma ReadLastIndexStep(mode: Mode, s: Sys, n: Id, term: nat, peer: Id)
    requires Inv(s) && Enabled(s, ReadLastIndex(n, term, peer))
    ensures Inv(Next(mode, s, ReadLastIndex(n, term, peer)))
  {
    assert HalfOk(s.nodes, HalfRead(n, term, peer, |s.nodes[n].log|));
  }

  lemma SendVoteStep(mode: Mode, s: Sys, half: HalfRead)
    requires Inv(s) && Enabled(s, SendVote(half))
    ensures Inv(Next(mode, s, SendVote(half)))
  {
    assert HalfOk(s.nodes, half);
  }

  lemma DeliverVoteStep(s: Sys, m: VoteMsg)
    requires Inv(s) && Enabled(s, DeliverVote(m))
    ensures Inv(AfterDeliverVote(s, m))
  {
    var n, t := m.to, s.nodes[m.to];
    var (t', resp) := OnRequestVote(t, m.req);
    assert VoteMsgOk(s.nodes, m);
    var s' := AfterDeliverVote(s, m);
    if m.req.term < t.currentTerm {
      assert s.nodes[n := t] == s.nodes;
    } else {
      var t1 := Adopt(t, m.req.term, "");
      var nodes1 := s.nodes[n := t1];
      if m.req.term > t.currentTerm {
        StepDownKeeps(s.nodes, s.hist, n, m.req.term, "");
      } else {
        assert nodes1 == s.nodes;
      }
      if resp.granted {
        VoteKeeps(nodes1, s.hist, n, m.req.candidate);
        assert nodes1[n := t'] == s.nodes[n := t'];
      }
    }
    assert HistOk(s'.nodes, s'.hist);
    NodeChangeKeeps(s, n, t', s'.hist);
    var r := VoteReply(n, m.req.candidate, m.req.term, resp, t'.log);
    assert VoteReplyOk(s'.nodes, s'.hist, r);
  }

  lemma CountVoteStep(s: Sys, r: VoteReply)
    requires Inv(s) && Enabled(s, CountVote(r))
    ensures Inv(AfterCountVote(s, r))
  {
    var n, t, el := r.candidate, s.nodes[r.candidate], s.voting.elections[r.candidate];
    if r.resp.term > t.currentTerm {
      StepDownKeeps(s.nodes, s.hist, n, r.resp.term, "");
      NodeChangeKeeps(s, n, StepDown(t, r.resp.term, ""), s.hist);
      DropElection(AfterCountVote(s, r).nodes, s.hist, s.voting, n);
    } else if !t.role.Candidate? || t.currentTerm != el.term {
      DropElection(s.nodes, s.hist, s.voting, n);
    } else {
      CountedVoteIsReal(s, r);
      AddElection(s.nodes, s.hist, s.voting, AfterCountVote(s, r).voting, n);
    }
  }

  lemma CountedVoteIsReal(s: Sys, r: VoteReply)
    requires Inv(s) && Enabled(s, CountVote(r))
    requires s.nodes[r.candidate].role.Candidate? && s.nodes[r.candidate].currentTerm == r.term
    requires r.resp.term <= r.term
    ensures r.candidate in AfterCountVote(s, r).voting.elections
    ensures ElectionOk(s.nodes, s.hist, r.candidate, AfterCountVote(s, r).voting.elections[r.candidate])
  {
    var n, el, el' := r.candidate, s.voting.elections[r.candidate], AfterCountVote(s, r).voting.elections[r.candidate];
    assert ElectionOk(s.nodes, s.hist, n, el);
    if r.resp.granted {
      assert VoteReplyOk(s.nodes, s.hist, r);
      assert el'.ballots.Keys == el.ballots.Keys + {r.voter};
      forall v | v in el'.ballots ensures BallotOk(s.nodes, s.hist, v, n, el.term, el'.ballots[v]) {
        if v != r.voter {
          assert BallotOk(s.nodes, s.hist, v, n, el.term, el.ballots[v]);
        }
      }
    } else {
      forall v | v in el'.ballots ensures BallotOk(s.nodes, s.hist, v, n, el.term, el'.ballots[v]) {
        assert BallotOk(s.nodes, s.hist, v, n, el.term, el.ballots[v]);
      }
    }
  }

  /** Winning is safe although the source re-checks only the role: while this call is running no
      other call can have made the node a candidate of a different term. */
  lemma BecomeLeaderStep(s: Sys, n: Id)
    requires Inv(s) && Enabled(s, BecomeLeader(n))
    ensures Inv(AfterBecomeLeader(s, n)) && HistGrows(s.hist, AfterBecomeLeader(s, n).hist)
  {
    var t, t', el := s.nodes[n], OnBecomeLeader(s.nodes[n], n), s.voting.elections[n];
    var s' := AfterBecomeLeader(s, n);
    assert ElectionOk(s.nodes, s.hist, n, el);
    if t' == t {
      assert s.nodes[n := t] == s.nodes;
    } else {
      assert el.term == t.currentTerm;
      forall v | v in el.ballots
        ensures v in s.nodes && Grant(v, t.currentTerm, n, el.ballots[v]) in s.hist.grants
        ensures UpToDate(|t.log|, LastTerm(t.log), el.ballots[v])
      {
        assert BallotOk(s.nodes, s.hist, v, n, el.term, el.ballots[v]);
      }
      ElectionKeeps(s.nodes, s.hist, n, el.ballots);
      NodeChangeKeeps(s, n, t', s'.hist);
    }
    DropElection(s'.nodes, s'.hist, s.voting, n);
  }

  // ---------------------------------------------------------------- proposals

  lemma ProposeStep(s: Sys, n: Id, command: string)
    requires Inv(s) && Enabled(s, Propose(n, command))
    ensures Inv(AfterPropose(s, n, command)) && HistGrows(s.hist, AfterPropose(s, n, command).hist)
  {
    var t, t' := s.nodes[n], OnPropose(s.nodes[n], command);
    var s' := AfterPropose(s, n, command);
    assert NodeOk(s.hist, n, t);
    ProposeKeeps(s.nodes, s.hist, n, command);
    NodeChangeKeeps(s, n, t', s'.hist);
    var p := Proposal(n, t.currentTerm, |t.log| + 1, LastTerm(t.log), Entry(t.currentTerm, command), t.commitIndex);
    FreshProposalOk(s.nodes, s.hist, n, command, p);
    AddTally(s'.nodes, s'.hist, s.appending, s'.appending, p);
  }

  lemma FreshProposalOk(nodes: Nodes, h: Hist, n: Id, command: string, p: Proposal)
    requires n in nodes && nodes[n].role.Leader? && NodeOk(h, n, nodes[n])
    requires p == Proposal(n, nodes[n].currentTerm, |nodes[n].log| + 1, LastTerm(nodes[n].log),
                           Entry(nodes[n].currentTerm, command), nodes[n].commitIndex)
    ensures var t' := OnPropose(nodes[n], command);
            TallyOk(nodes[n := t'], Proposed(h, n, t'), p, Tally(1, {}, {n}))
  {
  }

  lemma AddTally(nodes: Nodes, h: Hist, appending: Appending, appending': Appending, p: Proposal)
    requires AppendingOk(nodes, h, appending) && p in appending'.waiting
    requires TallyOk(nodes, h, p, appending'.waiting[p])
    requires appending'.waiting - {p} == appending.waiting - {p}
    requires appending'.proposals <= appending.proposals + {p}
    requires appending'.beats == appending.beats && appending'.appendMsgs == appending.appendMsgs
    requires appending'.appendReplies == appending.appendReplies
    ensures AppendingOk(nodes, h, appending')
  {
    forall q | q in appending'.waiting ensures TallyOk(nodes, h, q, appending'.waiting[q]) {
      if q != p {
        assert q in appending'.waiting - {p};
        assert appending.waiting[q] == appending'.waiting[q];
      }
    }
  }

  lemma DropTally(nodes: Nodes, h: Hist, appending: Appending, p: Proposal)
    requires AppendingOk(nodes, h, appending)
    ensures AppendingOk(nodes, h, appending.(waiting := appending.waiting - {p}))
  {
    var appending' := appending.(waiting := appending.waiting - {p});
    forall q | q in appending'.waiting ensures TallyOk(nodes, h, q, appending'.waiting[q]) {
      assert appending.waiting[q] == appending'.waiting[q];
    }
  }

  lemma SendAppendStep(mode: Mode, s: Sys, p: Proposal, peer: Id)
    requires Inv(s) && Enabled(s, SendAppend(p, peer))
    ensures Inv(Next(mode, s, SendAppend(p, peer)))
  {
    assert ProposalOk(s.hist, p);
  }

  lemma SendBeatStep(mode: Mode, s: Sys, b: Beat, peer: Id)
    requires Inv(s) && Enabled(s, SendBeat(b, peer))
    ensures Inv(Next(mode, s, SendBeat(b, peer)))
  {
  }

  lemma HeartbeatStep(mode: Mode, s: Sys, n: Id)
    requires Inv(s) && Enabled(s, Heartbeat(n))
    ensures Inv(Next(mode, s, Heartbeat(n)))
  {
    assert NodeOk(s.hist, n, s.nodes[n]);
  }

  /** Hearing of a later term in a reply. */
  lemma AdoptStep(s: Sys, n: Id, term: nat)
    requires Inv(s) && n in s.nodes
    ensures Inv(s.(nodes := s.nodes[n := Adopt(s.nodes[n], term, "")]))
  {
    var t := s.nodes[n];
    if term > t.currentTerm {
      StepDownKeeps(s.nodes, s.hist, n, term, "");
      NodeChangeKeeps(s, n, StepDown(t, term, ""), s.hist);
    } else {
      assert s.nodes[n := t] == s.nodes;
    }
  }

  lemma CountAckStep(s: Sys, p: Proposal, from: Id, resp: AppendResponse)
    requires Inv(s) && Enabled(s, CountAck(p, from, resp))
    ensures Inv(AfterCountAck(s, p, from, resp))
  {
    var tally, s' := s.appending.waiting[p], AfterCountAck(s, p, from, resp);
    assert TallyOk(s.nodes, s.hist, p, tally);
    if resp.term > p.term {
      AdoptStep(s, p.leader, resp.term);
      DropTally(s'.nodes, s.hist, s.appending, p);
    } else {
      assert AppendReplyOk(s.hist, AppendReply(from, p.leader, p.term, p.index, resp));
      assert TallyOk(s.nodes, s.hist, p, s'.appending.waiting[p]);
      AddTally(s.nodes, s.hist, s.appending, s'.appending, p);
    }
  }

  lemma CommitStep(s: Sys, p: Proposal)
    requires Inv(s) && Enabled(s, Commit(p))
    ensures Inv(AfterCommit(s, p))
  {
    var t, s' := s.nodes[p.leader], AfterCommit(s, p);
    var t' := OnCommit(t, p.index);
    CountersKeep(s.nodes, s.hist, p.leader, t'.commitIndex, t'.lastApplied);
    NodeChangeKeeps(s, p.leader, t', s.hist);
    DropTally(s'.nodes, s.hist, s.appending, p);
  }

  // ---------------------------------------------------------------- followers

  /** Delivering an append request from the leader of the message's term keeps history, whatever
      becomes of the commit index. */
  lemma DeliveredAppendKeeps(rule: Rule, s: Sys, m: AppendMsg)
    requires Inv(s) && m.to in s.nodes && m.to in s.applied && AppendMsgOk(s.hist, m)
    ensures HistOk(AfterDeliverAppend(rule, s, m).nodes, AfterDeliverAppend(rule, s, m).hist)
  {
    var n, t, req := m.to, s.nodes[m.to], m.req;
    var (t', resp) := OnAppendEntries(rule, t, req);
    var s' := AfterDeliverAppend(rule, s, m);
    if req.term < t.currentTerm {
      assert s'.nodes == s.nodes;
    } else {
      var t1 := Adopt(t, req.term, req.leader);
      var nodes1 := s.nodes[n := t1];
      if req.term > t.currentTerm {
        StepDownKeeps(s.nodes, s.hist, n, req.term, req.leader);
      } else {
        assert nodes1 == s.nodes;
      }
      if resp.success {
        AcceptedAppendKeeps(rule, nodes1, s.hist, m, t');
        assert nodes1[n := t'] == s'.nodes;
      }
    }
  }

  lemma AcceptedAppendKeeps(rule: Rule, nodes: Nodes, h: Hist, m: AppendMsg, t': NodeState)
    requires HistOk(nodes, h) && AppendMsgOk(h, m) && m.to in nodes && nodes[m.to].currentTerm == m.req.term
    requires OnAppendEntries(rule, nodes[m.to], m.req) == (t', AppendResponse(m.req.term, true))
    ensures HistOk(nodes[m.to := t'],
                   if m.req.entries == [] then h
                   else h.(accepts := h.accepts + {Accept(m.to, m.req.term, AckIndex(m.req))}))
  {
    var n, t, req := m.to, nodes[m.to], m.req;
    var t2 := t.(log := t'.log, role := Follower, leaderId := req.leader);
    var nodes2 := nodes[n := t2];
    var h' := if req.entries == [] then h else h.(accepts := h.accepts + {Accept(n, req.term, AckIndex(req))});
    if req.entries == [] {
      FollowKeeps(nodes, h, n);
    } else {
      ReconcileSingle(t.log, req.prevIndex, req.entries[0]);
      assert req.entries == [req.entries[0]];
      AcceptKeeps(nodes, h, n, req.prevIndex + 1, req.prevTerm, req.entries[0], t2);
    }
    CountersKeep(nodes2, h', n, t'.commitIndex, t'.lastApplied);
    assert nodes2[n := t'] == nodes[n := t'];
  }

  lemma DeliverAppendStep(rule: Rule, s: Sys, m: AppendMsg)
    requires Inv(s) && Enabled(s, DeliverAppend(m))
    ensures Inv(AfterDeliverAppend(rule, s, m))
  {
    assert AppendMsgOk(s.hist, m);
    var n, t := m.to, s.nodes[m.to];
    var (t', resp) := OnAppendEntries(rule, t, m.req);
    var s' := AfterDeliverAppend(rule, s, m);
    DeliveredAppendKeeps(rule, s, m);
    NodeChangeKeeps(s, n, t', s'.hist);
    assert AppendReplyOk(s'.hist, AppendReply(n, m.req.leader, m.req.term, AckIndex(m.req), resp));
  }

  // ---------------------------------------------------------------- all steps, all runs

  ghost predicate IsVoting(e: Event) {
    e.Timeout? || e.ReadLastIndex? || e.SendVote? || e.DeliverVote? || e.CountVote? || e.EndElection? || e.BecomeLeader?
  }

  lemma VotingKeeps(mode: Mode, s: Sys, e: Event)
    requires Inv(s) && Enabled(s, e) && IsVoting(e)
    ensures Inv(Next(mode, s, e))
  {
    match e
    case Timeout(n) => TimeoutStep(s, n);
    case ReadLastIndex(n, term, peer) => ReadLastIndexStep(mode, s, n, term, peer);
    case SendVote(half) => SendVoteStep(mode, s, half);
    case DeliverVote(m) => DeliverVoteStep(s, m);
    case CountVote(r) => CountVoteStep(s, r);
    case EndElection(n) => DropElection(s.nodes, s.hist, s.voting, n);
    case BecomeLeader(n) => BecomeLeaderStep(s, n);
  }

  lemma AppendingKeeps(mode: Mode, s: Sys, e: Event)
    requires Inv(s) && Enabled(s, e) && !IsVoting(e)
    ensures Inv(Next(mode, s, e))
  {
    match e
    case Propose(n, command) => ProposeStep(s, n, command);
    case SendAppend(p, peer) => SendAppendStep(mode, s, p, peer);
    case DeliverAppend(m) => DeliverAppendStep(mode.rule, s, m);
    case CountAck(p, from, resp) => CountAckStep(s, p, from, resp);
    case Commit(p) => CommitStep(s, p);
    case EndPropose(p) => DropTally(s.nodes, s.hist, s.appending, p);
    case Heartbeat(n) => HeartbeatStep(mode, s, n);
    case SendBeat(b, peer) => SendBeatStep(mode, s, b, peer);
    case CountBeat(b, from, resp) =>
      if resp.term > b.term { AdoptStep(s, b.leader, resp.term); }
  }

  /** Every step keeps the invariant. */
  lemma StepKeeps(mode: Mode, s: Sys, e: Event, s': Sys)
    requires Inv(s) && Step(mode, s, e, s')
    ensures Inv(s')
  {
    if IsVoting(e) {
      VotingKeeps(mode, s, e);
    } else {
      AppendingKeeps(mode, s, e);
    }
  }

  lemma {:induction false} RunKeeps(mode: Mode, states: seq<Sys>, events: seq<Event>, i: nat)
    requires Run(mode, states, events) && i < |states|
    ensures Inv(states[i])
  {
    if i == 0 {
      InitHolds(states[0]);
    } else {
      RunKeeps(mode, states, events, i - 1);
      assert Step(mode, states[i - 1], events[i - 1], states[i]);
      StepKeeps(mode, states[i - 1], events[i - 1], states[i]);
    }
  }
}

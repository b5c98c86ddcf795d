/** What holds of messages in flight and of calls in progress, beside the history invariant, and how it
    survives as terms and history grow. */
module RaftInvariant {
  import opened RaftHandlers
  import opened RaftHistory
  import opened RaftPreservation
  import opened RaftProtocol

  // ---------------------------------------------------------------- messages and calls

  /** `n` is still the candidate it was when it opened the election of `term`. */
  ghost predicate StillCandidate(nodes: Nodes, n: Id, term: nat) {
    n in nodes && nodes[n].role.Candidate? && nodes[n].currentTerm == term
  }

  ghost predicate OpenedBy(nodes: Nodes, n: Id, term: nat) {
    n in nodes && n != "" && term <= nodes[n].currentTerm
  }

  ghost predicate HalfOk(nodes: Nodes, half: HalfRead) {
    && OpenedBy(nodes, half.candidate, half.term)
    && (StillCandidate(nodes, half.candidate, half.term) ==> half.lastIndex == |nodes[half.candidate].log|)
  }

  /** A vote request sent while its sender is still that candidate describes the sender's log. Once
      the candidacy is over the two reads may be torn or belong to another log altogether. */
  ghost predicate VoteMsgOk(nodes: Nodes, m: VoteMsg) {
    && OpenedBy(nodes, m.req.candidate, m.req.term)
    && (StillCandidate(nodes, m.req.candidate, m.req.term) ==>
          && m.req.lastIndex == |nodes[m.req.candidate].log|
          && m.req.lastTerm == LastTerm(nodes[m.req.candidate].log))
  }

  ghost predicate BallotOk(nodes: Nodes, h: Hist, voter: Id, candidate: Id, term: nat, log: Log) {
    && voter in nodes
    && Grant(voter, term, candidate, log) in h.grants
    && (StillCandidate(nodes, candidate, term) ==>
          UpToDate(|nodes[candidate].log|, LastTerm(nodes[candidate].log), log))
  }

  ghost predicate VoteReplyOk(nodes: Nodes, h: Hist, r: VoteReply) {
    OpenedBy(nodes, r.candidate, r.term) && (r.resp.granted ==> BallotOk(nodes, h, r.voter, r.candidate, r.term, r.log))
  }

  /** A running election: only its own candidacy can be current, and every counted vote is real. */
  ghost predicate ElectionOk(nodes: Nodes, h: Hist, n: Id, el: Election) {
    && OpenedBy(nodes, n, el.term)
    && (nodes[n].role.Candidate? ==> nodes[n].currentTerm == el.term)
    && el.votes == |el.ballots.Keys|
    && el.ballots.Keys <= el.answered + {n}
    && (forall v {:trigger BallotOk(nodes, h, v, n, el.term, el.ballots[v])} ::
          v in el.ballots ==> BallotOk(nodes, h, v, n, el.term, el.ballots[v]))
    && (el.won ==> el.votes >= Quorum(|nodes.Keys|))
  }

  ghost predicate ProposalOk(h: Hist, p: Proposal) {
    && Offered(h.reigns, p.term, p.index, p.prevTerm, p.entry)
    && h.reigns[p.term].leader == p.leader
    && Accept(p.leader, p.term, p.index) in h.accepts
  }

  ghost predicate TallyOk(nodes: Nodes, h: Hist, p: Proposal, tally: Tally) {
    && ProposalOk(h, p)
    && tally.acks == |tally.ackers|
    && tally.ackers <= tally.answered + {p.leader}
    && tally.ackers <= nodes.Keys
    && (forall v {:trigger Accept(v, p.term, p.index)} :: v in tally.ackers ==> Accept(v, p.term, p.index) in h.accepts)
  }

  ghost predicate SentByLeader(h: Hist, leader: Id, term: nat) {
    term in h.reigns && h.reigns[term].leader == leader
  }

  ghost predicate AppendMsgOk(h: Hist, m: AppendMsg) {
    && SentByLeader(h, m.req.leader, m.req.term)
    && m.to != m.req.leader
    && (m.req.entries != [] ==>
          |m.req.entries| == 1 && Offered(h.reigns, m.req.term, m.req.prevIndex + 1, m.req.prevTerm, m.req.entries[0]))
  }

  ghost predicate AppendReplyOk(h: Hist, r: AppendReply) {
    r.resp.success && r.index > 0 ==> Accept(r.from, r.term, r.index) in h.accepts
  }

  ghost predicate VotingOk(nodes: Nodes, h: Hist, voting: Voting) {
    && "" !in voting.elections
    && (forall n {:trigger voting.elections[n]} :: n in voting.elections ==>
          ElectionOk(nodes, h, n, voting.elections[n]))
    && (forall l {:trigger l in voting.launched} :: l in voting.launched ==> OpenedBy(nodes, l.0, l.1))
    && (forall x {:trigger HalfOk(nodes, x)} :: x in voting.halves ==> HalfOk(nodes, x))
    && (forall m {:trigger VoteMsgOk(nodes, m)} :: m in voting.voteMsgs ==> VoteMsgOk(nodes, m))
    && (forall r {:trigger VoteReplyOk(nodes, h, r)} :: r in voting.voteReplies ==> VoteReplyOk(nodes, h, r))
  }

  ghost predicate AppendingOk(nodes: Nodes, h: Hist, appending: Appending) {
    && (forall p {:trigger ProposalOk(h, p)} :: p in appending.proposals ==> ProposalOk(h, p))
    && (forall p {:trigger appending.waiting[p]} :: p in appending.waiting ==>
          TallyOk(nodes, h, p, appending.waiting[p]))
    && (forall b {:trigger b in appending.beats} :: b in appending.beats ==> SentByLeader(h, b.leader, b.term))
    && (forall m {:trigger AppendMsgOk(h, m)} :: m in appending.appendMsgs ==> AppendMsgOk(h, m))
    && (forall r {:trigger AppendReplyOk(h, r)} :: r in appending.appendReplies ==> AppendReplyOk(h, r))
  }

  ghost predicate AppliedOk(s: Sys) {
    && s.applied.Keys == s.nodes.Keys
    && (forall n {:trigger s.applied[n]} :: n in s.nodes ==>
          |s.applied[n]| == s.nodes[n].lastApplied && s.nodes[n].commitIndex <= s.nodes[n].lastApplied)
  }

  ghost predicate Inv(s: Sys) {
    && "" !in s.nodes
    && HistOk(s.nodes, s.hist)
    && VotingOk(s.nodes, s.hist, s.voting)
    && AppendingOk(s.nodes, s.hist, s.appending)
  }

  // ---------------------------------------------------------------- stability

  ghost predicate NodeAdvances(t: NodeState, t': NodeState) {
    && t.currentTerm <= t'.currentTerm
    && (t'.role.Candidate? ==> t.role.Candidate? && t'.currentTerm == t.currentTerm && t'.log == t.log)
  }

  /** Terms do not go back, history is only added to, and no node but `who` opens an election. */
  ghost predicate Advance(nodes: Nodes, h: Hist, nodes': Nodes, h': Hist, who: Id) {
    && nodes'.Keys == nodes.Keys
    && (forall n {:trigger nodes'[n]} :: n in nodes && n != who ==> NodeAdvances(nodes[n], nodes'[n]))
    && (who in nodes ==> nodes[who].currentTerm < nodes'[who].currentTerm)
    && HistGrows(h, h')
  }

  lemma BallotAdvances(nodes: Nodes, h: Hist, nodes': Nodes, h': Hist, who: Id, v: Id, n: Id, term: nat, log: Log)
    requires Advance(nodes, h, nodes', h', who) && OpenedBy(nodes, n, term) && BallotOk(nodes, h, v, n, term, log)
    ensures BallotOk(nodes', h', v, n, term, log)
  {
  }

  lemma ElectionAdvances(nodes: Nodes, h: Hist, nodes': Nodes, h': Hist, who: Id, n: Id, el: Election)
    requires Advance(nodes, h, nodes', h', who) && n != who && ElectionOk(nodes, h, n, el)
    ensures ElectionOk(nodes', h', n, el)
  {
    forall v | v in el.ballots ensures BallotOk(nodes', h', v, n, el.term, el.ballots[v]) {
      BallotAdvances(nodes, h, nodes', h', who, v, n, el.term, el.ballots[v]);
    }
  }

  lemma VotingAdvances(nodes: Nodes, h: Hist, nodes': Nodes, h': Hist, who: Id, voting: Voting)
    requires Advance(nodes, h, nodes', h', who) && VotingOk(nodes, h, voting) && who !in voting.elections
    ensures VotingOk(nodes', h', voting)
  {
    forall n | n in voting.elections ensures ElectionOk(nodes', h', n, voting.elections[n]) {
      ElectionAdvances(nodes, h, nodes', h', who, n, voting.elections[n]);
    }
    forall x | x in voting.halves ensures HalfOk(nodes', x) {
      assert HalfOk(nodes, x);
    }
    forall m | m in voting.voteMsgs ensures VoteMsgOk(nodes', m) {
      assert VoteMsgOk(nodes, m);
    }
    forall r | r in voting.voteReplies ensures VoteReplyOk(nodes', h', r) {
      assert VoteReplyOk(nodes, h, r);
    }
  }

  lemma OfferedGrows(reigns: Reigns, reigns': Reigns, t: nat, index: nat, prevTerm: nat, entry: Entry)
    requires ReignsGrow(reigns, reigns') && Offered(reigns, t, index, prevTerm, entry)
    ensures Offered(reigns', t, index, prevTerm, entry)
  {
    assert ReignGrows(reigns[t], reigns'[t]);
  }

  lemma AppendingAdvances(nodes: Nodes, h: Hist, nodes': Nodes, h': Hist, who: Id, appending: Appending)
    requires Advance(nodes, h, nodes', h', who) && AppendingOk(nodes, h, appending)
    ensures AppendingOk(nodes', h', appending)
  {
    forall p | p in appending.proposals ensures ProposalOk(h', p) {
      assert ProposalOk(h, p);
      OfferedGrows(h.reigns, h'.reigns, p.term, p.index, p.prevTerm, p.entry);
    }
    forall p | p in appending.waiting ensures TallyOk(nodes', h', p, appending.waiting[p]) {
      assert TallyOk(nodes, h, p, appending.waiting[p]);
      OfferedGrows(h.reigns, h'.reigns, p.term, p.index, p.prevTerm, p.entry);
    }
    forall m | m in appending.appendMsgs ensures AppendMsgOk(h', m) {
      assert AppendMsgOk(h, m);
      if m.req.entries != [] {
        OfferedGrows(h.reigns, h'.reigns, m.req.term, m.req.prevIndex + 1, m.req.prevTerm, m.req.entries[0]);
      }
    }
    forall r | r in appending.appendReplies ensures AppendReplyOk(h', r) {
      assert AppendReplyOk(h, r);
    }
  }

  /** Replacing one node and adding to history advances the cluster. */
  lemma OneNodeAdvances(nodes: Nodes, h: Hist, n: Id, t': NodeState, h': Hist)
    requires n in nodes && n != "" && NodeAdvances(nodes[n], t') && "" !in nodes
    requires HistGrows(h, h')
    ensures Advance(nodes, h, nodes[n := t'], h', "")
  {
    assert nodes[n := t'].Keys == nodes.Keys;
  }

  /** The invariant survives a change of one node that keeps history, for the network left as is. */
  lemma NodeChangeKeeps(s: Sys, n: Id, t': NodeState, h': Hist)
    requires Inv(s) && n in s.nodes && NodeAdvances(s.nodes[n], t')
    requires HistGrows(s.hist, h')
    requires HistOk(s.nodes[n := t'], h')
    ensures VotingOk(s.nodes[n := t'], h', s.voting) && AppendingOk(s.nodes[n := t'], h', s.appending)
    ensures "" !in s.nodes[n := t']
  {
    OneNodeAdvances(s.nodes, s.hist, n, t', h');
    VotingAdvances(s.nodes, s.hist, s.nodes[n := t'], h', "", s.voting);
    AppendingAdvances(s.nodes, s.hist, s.nodes[n := t'], h', "", s.appending);
  }
}

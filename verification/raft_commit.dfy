/** State machine safety: what nodes hand to their state machines is committed, and so agrees, on every
    run under both repairs of the commit rule. The first half, that every commit index is justified,
    needs only that leaders capture it with the term, or read it while still in that term. */
module RaftCommit {
  import opened Counting
  import opened RaftHandlers
  import opened RaftHistory
  import opened RaftPreservation
  import opened RaftCompleteness
  import opened RaftProtocol
  import opened RaftInvariant
  import opened RaftTheorems

  // ---------------------------------------------------------------- committed sequences

  /** `xs` is an initial part of what has been committed. */
  ghost predicate IsCommitted(nodes: Nodes, h: Hist, xs: Log) {
    xs == [] || exists t, i :: CommittedAt(nodes, h, t, i, xs)
  }

  ghost predicate CommittedAt(nodes: Nodes, h: Hist, t: nat, i: nat, xs: Log) {
    && Committed(nodes, h, t, i)
    && t in h.reigns && i <= |h.reigns[t].log|
    && xs <= CommittedPrefix(h, t, i)
  }

  /** A commit index is covered if the entry it names, or a later one, was committed by some leader
      no later than `term`. */
  ghost predicate Covered(nodes: Nodes, h: Hist, term: nat, commit: nat) {
    commit == 0 || exists t, i :: CoveredBy(nodes, h, term, commit, t, i)
  }

  ghost predicate CoveredBy(nodes: Nodes, h: Hist, term: nat, commit: nat, t: nat, i: nat) {
    t <= term && commit <= i && Committed(nodes, h, t, i)
  }

  lemma IsCommittedGrows(nodes: Nodes, h: Hist, nodes': Nodes, h': Hist, xs: Log)
    requires IsCommitted(nodes, h, xs) && HistGrows(h, h') && nodes'.Keys == nodes.Keys
    ensures IsCommitted(nodes', h', xs)
  {
    if xs != [] {
      var t: nat, i: nat :| CommittedAt(nodes, h, t, i, xs);
      CommittedGrows(nodes, h, nodes', h', t, i);
      assert ReignGrows(h.reigns[t], h'.reigns[t]);
      assert CommittedAt(nodes', h', t, i, xs);
    }
  }

  lemma CoveredGrows(nodes: Nodes, h: Hist, nodes': Nodes, h': Hist, term: nat, term': nat, commit: nat, commit': nat)
    requires Covered(nodes, h, term, commit) && HistGrows(h, h') && nodes'.Keys == nodes.Keys
    requires term <= term' && commit' <= commit
    ensures Covered(nodes', h', term', commit')
  {
    if commit != 0 {
      var t: nat, i: nat :| CoveredBy(nodes, h, term, commit, t, i);
      CommittedGrows(nodes, h, nodes', h', t, i);
      assert CoveredBy(nodes', h', term', commit', t, i);
    }
  }

  /** Two committed sequences agree: the shorter is a prefix of the longer. */
  lemma CommittedSequencesAgree(nodes: Nodes, h: Hist, xs: Log, ys: Log)
    requires HistOk(nodes, h) && IsCommitted(nodes, h, xs) && IsCommitted(nodes, h, ys) && |xs| <= |ys|
    ensures xs <= ys
  {
    if xs != [] {
      var t: nat, i: nat :| CommittedAt(nodes, h, t, i, xs);
      var u: nat, j: nat :| CommittedAt(nodes, h, u, j, ys);
      if i <= j {
        CommittedPrefixesAgree(nodes, h, t, i, u, j);
      } else {
        CommittedPrefixesAgree(nodes, h, u, j, t, i);
      }
    }
  }

  /** The log of a leader up to a commit index covered in its term is a committed sequence. */
  lemma CoveredPrefixIsCommitted(nodes: Nodes, h: Hist, term: nat, commit: nat)
    requires HistOk(nodes, h) && Covered(nodes, h, term, commit) && term in h.reigns
    ensures commit <= |h.reigns[term].log| && IsCommitted(nodes, h, h.reigns[term].log[..commit])
  {
    if commit != 0 {
      var t: nat, i: nat :| CoveredBy(nodes, h, term, commit, t, i);
      CommittedEntryExists(nodes, h, t, i);
      if t < term {
        LeaderComplete(nodes, h, t, i, term);
        assert ReignOk(nodes, h, term);
      }
      assert h.reigns[term].log[..commit] == CommittedPrefix(h, t, i)[..commit];
      assert CommittedAt(nodes, h, t, i, h.reigns[term].log[..commit]);
    }
  }

  // ---------------------------------------------------------------- justified commit indices

  /** The index and term that a heartbeat carries describe the leader's log. */
  ghost predicate PrevOk(h: Hist, term: nat, prevIndex: nat, prevTerm: nat) {
    && term in h.reigns
    && prevIndex <= |h.reigns[term].log|
    && (prevIndex > 0 ==> prevTerm == h.reigns[term].log[prevIndex - 1].term)
  }

  ghost predicate NodeCovered(s: Sys, n: Id) {
    n in s.nodes && Covered(s.nodes, s.hist, s.nodes[n].currentTerm, s.nodes[n].commitIndex)
  }

  ghost predicate ProposalCommitOk(s: Sys, p: Proposal) {
    Covered(s.nodes, s.hist, p.term, p.commit)
  }

  ghost predicate BeatCommitOk(s: Sys, b: Beat) {
    Covered(s.nodes, s.hist, b.term, b.commit) && PrevOk(s.hist, b.term, b.prevIndex, b.prevTerm)
  }

  ghost predicate MsgCommitOk(s: Sys, m: AppendMsg) {
    && Covered(s.nodes, s.hist, m.req.term, m.req.leaderCommit)
    && PrevOk(s.hist, m.req.term, m.req.prevIndex, m.req.prevTerm)
  }

  ghost predicate NodesCovered(s: Sys) {
    forall n {:trigger NodeCovered(s, n)} :: n in s.nodes ==> NodeCovered(s, n)
  }

  ghost predicate SentCommitOk(s: Sys) {
    && (forall p {:trigger ProposalCommitOk(s, p)} :: p in s.appending.proposals ==> ProposalCommitOk(s, p))
    && (forall b {:trigger BeatCommitOk(s, b)} :: b in s.appending.beats ==> BeatCommitOk(s, b))
    && (forall m {:trigger MsgCommitOk(s, m)} :: m in s.appending.appendMsgs ==> MsgCommitOk(s, m))
  }

  /** Every commit index, held by a node or carried by a message, is justified in its term. */
  ghost predicate CommitsCovered(s: Sys) {
    NodesCovered(s) && SentCommitOk(s)
  }

  lemma PrevGrows(h: Hist, h': Hist, term: nat, prevIndex: nat, prevTerm: nat)
    requires PrevOk(h, term, prevIndex, prevTerm) && HistGrows(h, h')
    ensures PrevOk(h', term, prevIndex, prevTerm)
  {
    assert ReignGrows(h.reigns[term], h'.reigns[term]);
  }

  /** What was sent stays justified as history grows. */
  lemma SentStaysOk(s: Sys, s': Sys, p: set<Proposal>, b: set<Beat>, m: set<AppendMsg>)
    requires SentCommitOk(s) && HistGrows(s.hist, s'.hist) && s'.nodes.Keys == s.nodes.Keys
    requires p <= s.appending.proposals && b <= s.appending.beats && m <= s.appending.appendMsgs
    ensures forall x :: x in p ==> ProposalCommitOk(s', x)
    ensures forall x :: x in b ==> BeatCommitOk(s', x)
    ensures forall x :: x in m ==> MsgCommitOk(s', x)
  {
    forall x | x in p ensures ProposalCommitOk(s', x) {
      assert ProposalCommitOk(s, x);
      CoveredGrows(s.nodes, s.hist, s'.nodes, s'.hist, x.term, x.term, x.commit, x.commit);
    }
    forall x | x in b ensures BeatCommitOk(s', x) {
      assert BeatCommitOk(s, x);
      CoveredGrows(s.nodes, s.hist, s'.nodes, s'.hist, x.term, x.term, x.commit, x.commit);
      PrevGrows(s.hist, s'.hist, x.term, x.prevIndex, x.prevTerm);
    }
    forall x | x in m ensures MsgCommitOk(s', x) {
      assert MsgCommitOk(s, x);
      CoveredGrows(s.nodes, s.hist, s'.nodes, s'.hist, x.req.term, x.req.term, x.req.leaderCommit, x.req.leaderCommit);
      PrevGrows(s.hist, s'.hist, x.req.term, x.req.prevIndex, x.req.prevTerm);
    }
  }

  lemma NodeStaysCovered(s: Sys, s': Sys, n: Id)
    requires NodeCovered(s, n) && HistGrows(s.hist, s'.hist) && s'.nodes.Keys == s.nodes.Keys
    requires s'.nodes[n].currentTerm >= s.nodes[n].currentTerm && s'.nodes[n].commitIndex == s.nodes[n].commitIndex
    ensures NodeCovered(s', n)
  {
    CoveredGrows(s.nodes, s.hist, s'.nodes, s'.hist, s.nodes[n].currentTerm, s'.nodes[n].currentTerm,
                 s.nodes[n].commitIndex, s.nodes[n].commitIndex);
  }

  /** Under either rule a follower moves its commit index no further than the message's, in its term. */
  lemma DeliveredCommit(rule: Rule, t: NodeState, req: AppendRequest)
    requires OnAppendEntries(rule, t, req).0.commitIndex != t.commitIndex
    ensures var t' := OnAppendEntries(rule, t, req).0; t'.commitIndex <= req.leaderCommit && t'.currentTerm == req.term
  {
  }

  lemma DeliveryIsCovered(s: Sys, m: AppendMsg, rule: Rule, s': Sys)
    requires MsgCommitOk(s, m) && HistGrows(s.hist, s'.hist) && s'.nodes.Keys == s.nodes.Keys && m.to in s.nodes
    requires s'.nodes[m.to] == OnAppendEntries(rule, s.nodes[m.to], m.req).0
    requires s'.nodes[m.to].commitIndex != s.nodes[m.to].commitIndex
    ensures NodeCovered(s', m.to)
  {
    DeliveredCommit(rule, s.nodes[m.to], m.req);
    CoveredGrows(s.nodes, s.hist, s'.nodes, s'.hist, m.req.term, m.req.term, m.req.leaderCommit,
                 s'.nodes[m.to].commitIndex);
  }

  /** An acknowledged proposal's entries are committed, in place, and covered in the leader's term. */
  lemma AcknowledgedIsCovered(s: Sys, p: Proposal)
    requires Inv(s) && Enabled(s, Commit(p))
    ensures var t := s.nodes[p.leader];
            && Covered(s.nodes, s.hist, t.currentTerm, p.index)
            && p.index <= |t.log| && IsCommitted(s.nodes, s.hist, t.log[..p.index])
  {
    var n, t := p.leader, s.nodes[p.leader];
    assert TallyOk(s.nodes, s.hist, p, s.appending.waiting[p]);
    AcknowledgedMeansCommitted(s, p);
    AcceptorKeeps(s.nodes, s.hist, p.term, p.index, n);
    assert AcceptOk(s.nodes, s.hist, Accept(n, p.term, p.index));
    assert CoveredBy(s.nodes, s.hist, t.currentTerm, p.index, p.term, p.index);
    assert CommittedAt(s.nodes, s.hist, p.term, p.index, t.log[..p.index]);
  }

  /** Only a delivery to a node and a commit by it move its commit index, and nothing is handed out
      without moving it. */
  lemma StepFrame(mode: Mode, s: Sys, e: Event, s': Sys, n: Id)
    requires Step(mode, s, e, s') && n in s.nodes && n in s.applied
    requires s.nodes[n].commitIndex <= s.nodes[n].lastApplied
    ensures n in s'.nodes && n in s'.applied && s'.nodes[n].currentTerm >= s.nodes[n].currentTerm
    ensures s'.nodes[n].commitIndex == s.nodes[n].commitIndex ==> s'.applied[n] == s.applied[n]
    ensures s'.nodes[n].commitIndex != s.nodes[n].commitIndex ==>
              (e.DeliverAppend? && n == e.msg.to) || (e.Commit? && n == e.p.leader)
  {
  }

  lemma CoveredNodeStays(mode: Mode, s: Sys, e: Event, s': Sys, n: Id)
    requires Inv(s) && AppliedOk(s) && CommitsCovered(s) && Step(mode, s, e, s') && n in s.nodes
    requires HistGrows(s.hist, s'.hist) && s'.nodes.Keys == s.nodes.Keys
    ensures NodeCovered(s', n)
  {
    assert NodeCovered(s, n);
    assert |s.applied[n]| == s.nodes[n].lastApplied;
    StepFrame(mode, s, e, s', n);
    if s'.nodes[n].commitIndex == s.nodes[n].commitIndex {
      NodeStaysCovered(s, s', n);
    } else if e.DeliverAppend? {
      assert MsgCommitOk(s, e.msg);
      DeliveryIsCovered(s, e.msg, mode.rule, s');
    } else {
      AcknowledgedIsCovered(s, e.p);
      CoveredGrows(s.nodes, s.hist, s'.nodes, s'.hist, s.nodes[n].currentTerm, s'.nodes[n].currentTerm, e.p.index,
                   e.p.index);
    }
  }

  lemma CoveredNodesStay(mode: Mode, s: Sys, e: Event, s': Sys)
    requires Inv(s) && AppliedOk(s) && CommitsCovered(s) && Step(mode, s, e, s')
    requires HistGrows(s.hist, s'.hist) && s'.nodes.Keys == s.nodes.Keys
    ensures NodesCovered(s')
  {
    forall n | n in s'.nodes ensures NodeCovered(s', n) {
      CoveredNodeStays(mode, s, e, s', n);
    }
  }

  /** What is sent was captured with the term, or is read while the sender is still in that term. */
  ghost predicate Prompt(mode: Mode, s: Sys, e: Event) {
    && (e.SendAppend? && mode.capture.Late? && e.p.leader in s.nodes ==> s.nodes[e.p.leader].currentTerm == e.p.term)
    && (e.SendBeat? && mode.capture.Late? && e.beat.leader in s.nodes ==>
          s.nodes[e.beat.leader].currentTerm == e.beat.term)
  }

  ghost predicate AlwaysPrompt(mode: Mode, states: seq<Sys>, events: seq<Event>)
    requires |states| == |events| + 1
  {
    forall i {:trigger Prompt(mode, states[i], events[i])} :: 0 <= i < |events| ==> Prompt(mode, states[i], events[i])
  }

  /** What a leader captures for a proposal or a heartbeat is justified. */
  lemma CapturedOk(s: Sys, n: Id)
    requires Inv(s) && NodesCovered(s) && n in s.nodes && s.nodes[n].role.Leader?
    ensures var t := s.nodes[n];
            && Covered(s.nodes, s.hist, t.currentTerm, t.commitIndex)
            && PrevOk(s.hist, t.currentTerm, |t.log|, LastTerm(t.log))
  {
    assert NodeCovered(s, n) && NodeOk(s.hist, n, s.nodes[n]);
  }

  lemma ProposeStaysCovered(mode: Mode, s: Sys, n: Id, command: string, s': Sys)
    requires Inv(s) && CommitsCovered(s) && Step(mode, s, Propose(n, command), s')
    requires HistGrows(s.hist, s'.hist) && s'.nodes.Keys == s.nodes.Keys
    ensures SentCommitOk(s')
  {
    SentStaysOk(s, s', s.appending.proposals, s.appending.beats, s.appending.appendMsgs);
    var t := s.nodes[n];
    CapturedOk(s, n);
    CoveredGrows(s.nodes, s.hist, s'.nodes, s'.hist, t.currentTerm, t.currentTerm, t.commitIndex, t.commitIndex);
  }

  lemma HeartbeatStaysCovered(mode: Mode, s: Sys, n: Id, s': Sys)
    requires Inv(s) && CommitsCovered(s) && Step(mode, s, Heartbeat(n), s')
    ensures SentCommitOk(s')
  {
    SentStaysOk(s, s', s.appending.proposals, s.appending.beats, s.appending.appendMsgs);
    CapturedOk(s, n);
  }

  lemma SendAppendStaysCovered(mode: Mode, s: Sys, p: Proposal, peer: Id, s': Sys)
    requires Inv(s) && CommitsCovered(s) && Step(mode, s, SendAppend(p, peer), s')
    requires Prompt(mode, s, SendAppend(p, peer))
    ensures SentCommitOk(s')
  {
    SentStaysOk(s, s', s.appending.proposals, s.appending.beats, s.appending.appendMsgs);
    assert ProposalCommitOk(s, p) && ProposalOk(s.hist, p) && NodeCovered(s, p.leader);
    assert MsgCommitOk(s', AppendMsg(peer, ProposalRequest(mode.capture, p, s.nodes[p.leader].commitIndex)));
  }

  /** The leader of a term leads for as long as it is in that term. */
  lemma LeaderInOffice(s: Sys, n: Id, term: nat)
    requires Inv(s) && SentByLeader(s.hist, n, term) && n in s.nodes && s.nodes[n].currentTerm == term
    ensures s.nodes[n].role.Leader?
  {
    assert ReignOk(s.nodes, s.hist, term);
  }

  lemma SendBeatStaysCovered(mode: Mode, s: Sys, b: Beat, peer: Id, s': Sys)
    requires Inv(s) && CommitsCovered(s) && Step(mode, s, SendBeat(b, peer), s')
    requires Prompt(mode, s, SendBeat(b, peer))
    ensures SentCommitOk(s')
  {
    SentStaysOk(s, s', s.appending.proposals, s.appending.beats, s.appending.appendMsgs);
    assert BeatCommitOk(s, b);
    if mode.capture.Late? {
      assert SentByLeader(s.hist, b.leader, b.term);
      LeaderInOffice(s, b.leader, b.term);
      CapturedOk(s, b.leader);
    }
    assert MsgCommitOk(s', AppendMsg(peer, BeatRequest(mode.capture, b, s.nodes[b.leader])));
  }

  lemma OtherStepSendsNothing(mode: Mode, s: Sys, e: Event, s': Sys)
    requires Step(mode, s, e, s') && !e.Propose? && !e.Heartbeat? && !e.SendAppend? && !e.SendBeat?
    ensures s'.appending.proposals == s.appending.proposals && s'.appending.beats == s.appending.beats
    ensures s'.appending.appendMsgs == s.appending.appendMsgs
  {
  }

  lemma SentStaysCovered(mode: Mode, s: Sys, e: Event, s': Sys)
    requires Prompt(mode, s, e) && Inv(s) && CommitsCovered(s) && Step(mode, s, e, s')
    requires HistGrows(s.hist, s'.hist) && s'.nodes.Keys == s.nodes.Keys
    ensures SentCommitOk(s')
  {
    if e.Propose? {
      ProposeStaysCovered(mode, s, e.n, e.command, s');
    } else if e.Heartbeat? {
      HeartbeatStaysCovered(mode, s, e.n, s');
    } else if e.SendAppend? {
      SendAppendStaysCovered(mode, s, e.p, e.peer, s');
    } else if e.SendBeat? {
      SendBeatStaysCovered(mode, s, e.beat, e.peer, s');
    } else {
      OtherStepSendsNothing(mode, s, e, s');
      SentStaysOk(s, s', s.appending.proposals, s.appending.beats, s.appending.appendMsgs);
    }
  }

  lemma InitIsCovered(s: Sys)
    requires Init(s)
    ensures CommitsCovered(s)
  {
  }

  /** When leaders capture the commit index with the term, or read it while still in that term, every
      commit index is justified, whichever rule the followers use and even if they have handed out what
      they should not. */
  lemma {:induction false} PromptRunOk(mode: Mode, states: seq<Sys>, events: seq<Event>, i: nat)
    requires Run(mode, states, events) && AlwaysPrompt(mode, states, events) && i < |states|
    ensures CommitsCovered(states[i])
  {
    if i == 0 {
      InitIsCovered(states[0]);
    } else {
      PromptRunOk(mode, states, events, i - 1);
      assert Prompt(mode, states[i - 1], events[i - 1]);
      CoveredNext(mode, states, events, i - 1);
    }
  }

  lemma CoveredNext(mode: Mode, states: seq<Sys>, events: seq<Event>, i: nat)
    requires Run(mode, states, events) && i < |events| && CommitsCovered(states[i])
    requires Prompt(mode, states[i], events[i])
    ensures CommitsCovered(states[i + 1])
  {
    RunDelivers(mode, states, events, i);
    assert Step(mode, states[i], events[i], states[i + 1]);
    StepStaysCovered(mode, states[i], events[i], states[i + 1]);
  }

  lemma StepStaysCovered(mode: Mode, s: Sys, e: Event, s': Sys)
    requires Prompt(mode, s, e) && Inv(s) && AppliedOk(s) && CommitsCovered(s) && Step(mode, s, e, s')
    ensures CommitsCovered(s')
  {
    StepGrows(mode, s, e, s');
    CoveredNodesStay(mode, s, e, s');
    SentStaysCovered(mode, s, e, s');
  }

  // ---------------------------------------------------------------- what is handed out

  /** Everything handed out so far is committed. */
  ghost predicate Sound(s: Sys) {
    forall n {:trigger s.applied[n]} :: n in s.applied ==> IsCommitted(s.nodes, s.hist, s.applied[n])
  }

  /** Delivering up to `commit` from a log that agrees there with committed entries extends what was
      applied to a longer committed sequence. */
  lemma DeliveryStaysCommitted(nodes: Nodes, h: Hist, applied: Log, log: Log, commit: nat)
    requires HistOk(nodes, h) && IsCommitted(nodes, h, applied)
    requires |applied| < commit <= |log| && IsCommitted(nodes, h, log[..commit])
    ensures applied + log[|applied|..commit] == log[..commit]
  {
    CommittedSequencesAgree(nodes, h, applied, log[..commit]);
  }

  /** After a guarded follower has matched the message, its log agrees with the leader's up to the
      last matched index. */
  lemma MatchedLogAgrees(nodes: Nodes, h: Hist, n: Id, m: AppendMsg)
    requires HistOk(nodes, h) && n in nodes && AppendMsgOk(h, m)
    requires PrevOk(h, m.req.term, m.req.prevIndex, m.req.prevTerm)
    requires MatchPrev(nodes[n].log, m.req.prevIndex, m.req.prevTerm)
    ensures var req := m.req;
            && req.prevIndex <= |nodes[n].log|
            && var log' := if req.entries == [] then nodes[n].log
                           else Reconcile(nodes[n].log, req.prevIndex, req.entries);
            && req.prevIndex + |req.entries| <= |h.reigns[req.term].log|
            && h.reigns[req.term].log[..req.prevIndex + |req.entries|] <= log'
  {
    var req, log := m.req, nodes[n].log;
    assert NodeOk(h, n, nodes[n]) && ReignOk(nodes, h, req.term);
    if req.entries == [] {
      MatchedPrevAgrees(h, log, req.term, req.prevIndex, req.prevTerm);
    } else {
      MatchedEntryAgrees(h, log, req);
    }
  }

  lemma MatchedPrevAgrees(h: Hist, log: Log, term: nat, prevIndex: nat, prevTerm: nat)
    requires PrevOk(h, term, prevIndex, prevTerm) && MatchPrev(log, prevIndex, prevTerm)
    requires Backed(h.reigns, log) && Backed(h.reigns, h.reigns[term].log)
    ensures prevIndex <= |log| && h.reigns[term].log[..prevIndex] <= log
  {
    if prevIndex > 0 {
      BackedLogsMatch(h.reigns, log, h.reigns[term].log, prevIndex - 1);
    }
  }

  lemma MatchedEntryAgrees(h: Hist, log: Log, req: AppendRequest)
    requires |req.entries| == 1 && Offered(h.reigns, req.term, req.prevIndex + 1, req.prevTerm, req.entries[0])
    requires MatchPrev(log, req.prevIndex, req.prevTerm)
    requires req.term in h.reigns && Backed(h.reigns, log) && Backed(h.reigns, h.reigns[req.term].log)
    ensures req.prevIndex <= |log| && req.prevIndex + |req.entries| <= |h.reigns[req.term].log|
    ensures h.reigns[req.term].log[..req.prevIndex + |req.entries|] <= Reconcile(log, req.prevIndex, req.entries)
  {
    ReconcileSingle(log, req.prevIndex, req.entries[0]);
    assert req.entries == [req.entries[0]];
    AcceptedLogAgrees(h.reigns, log, req.term, req.prevIndex + 1, req.prevTerm, req.entries[0]);
  }

  lemma OthersApplyNothing(mode: Mode, s: Sys, e: Event, s': Sys, n: Id)
    requires Step(mode, s, e, s') && n in s.applied
    requires !(e.DeliverAppend? && n == e.msg.to) && !(e.Commit? && n == e.p.leader)
    ensures n in s'.applied && s'.applied[n] == s.applied[n]
  {
  }

  /** A proposal that commits hands out committed entries. */
  lemma ProposalDeliveryOk(s: Sys, p: Proposal)
    requires Inv(s) && AppliedOk(s) && Enabled(s, Commit(p)) && IsCommitted(s.nodes, s.hist, s.applied[p.leader])
    ensures IsCommitted(s.nodes, s.hist, AfterCommit(s, p).applied[p.leader])
  {
    var n := p.leader;
    assert |s.applied[n]| == s.nodes[n].lastApplied;
    AcknowledgedIsCovered(s, p);
    assert s.applied[n] + [] == s.applied[n];
    if s.nodes[n].lastApplied < p.index {
      DeliveryStaysCommitted(s.nodes, s.hist, s.applied[n], s.nodes[n].log, p.index);
    }
  }

  lemma StepKeepsAppliers(mode: Mode, s: Sys, e: Event, s': Sys)
    requires Step(mode, s, e, s')
    ensures s'.applied.Keys == s.applied.Keys
  {
  }

  /** Soundness depends on deliveries alone: every other step keeps it, in every mode. */
  lemma SoundUnlessDelivered(mode: Mode, s: Sys, e: Event, s': Sys)
    requires Inv(s) && AppliedOk(s) && Sound(s) && Step(mode, s, e, s')
    requires HistGrows(s.hist, s'.hist) && s'.nodes.Keys == s.nodes.Keys
    requires e.DeliverAppend? ==> e.msg.to in s'.applied && IsCommitted(s'.nodes, s'.hist, s'.applied[e.msg.to])
    ensures Sound(s')
  {
    StepKeepsAppliers(mode, s, e, s');
    forall n | n in s'.applied ensures IsCommitted(s'.nodes, s'.hist, s'.applied[n]) {
      assert IsCommitted(s.nodes, s.hist, s.applied[n]);
      if e.Commit? && n == e.p.leader {
        ProposalDeliveryOk(s, e.p);
        IsCommittedGrows(s.nodes, s.hist, s'.nodes, s'.hist, s'.applied[n]);
      } else if !(e.DeliverAppend? && n == e.msg.to) {
        OthersApplyNothing(mode, s, e, s', n);
        IsCommittedGrows(s.nodes, s.hist, s'.nodes, s'.hist, s.applied[n]);
      }
    }
  }

  // ---------------------------------------------------------------- guarded runs

  /** What it takes for the guarded rule to move a follower's commit index. */
  lemma GuardedAdvance(t: NodeState, req: AppendRequest)
    requires OnAppendEntries(Checked, t, req).0.commitIndex != t.commitIndex
    ensures var t' := OnAppendEntries(Checked, t, req).0;
            && t'.currentTerm == req.term
            && MatchPrev(t.log, req.prevIndex, req.prevTerm)
            && t'.commitIndex == Min(req.leaderCommit, req.prevIndex + |req.entries|)
            && t'.log == (if req.entries == [] then t.log else Reconcile(t.log, req.prevIndex, req.entries))
            && t'.lastApplied == Max(t.lastApplied, t'.commitIndex)
  {
  }

  lemma MatchedPrefixIsCommitted(nodes: Nodes, h: Hist, n: Id, m: AppendMsg, c: nat)
    requires HistOk(nodes, h) && n in nodes && AppendMsgOk(h, m)
    requires PrevOk(h, m.req.term, m.req.prevIndex, m.req.prevTerm)
    requires MatchPrev(nodes[n].log, m.req.prevIndex, m.req.prevTerm)
    requires Covered(nodes, h, m.req.term, m.req.leaderCommit)
    requires c <= m.req.leaderCommit && c <= m.req.prevIndex + |m.req.entries|
    ensures m.req.prevIndex <= |nodes[n].log| && Covered(nodes, h, m.req.term, c)
    ensures var log' := if m.req.entries == [] then nodes[n].log
                        else Reconcile(nodes[n].log, m.req.prevIndex, m.req.entries);
            c <= |log'| && IsCommitted(nodes, h, log'[..c])
  {
    MatchedLogAgrees(nodes, h, n, m);
    CoveredGrows(nodes, h, nodes, h, m.req.term, m.req.term, m.req.leaderCommit, c);
    CoveredPrefixIsCommitted(nodes, h, m.req.term, c);
    var log' := if m.req.entries == [] then nodes[n].log else Reconcile(nodes[n].log, m.req.prevIndex, m.req.entries);
    assert log'[..c] == h.reigns[m.req.term].log[..c];
  }

  lemma AdvanceIsSound(nodes: Nodes, h: Hist, applied: Log, log: Log, c: nat)
    requires HistOk(nodes, h) && IsCommitted(nodes, h, applied) && c <= |log| && IsCommitted(nodes, h, log[..c])
    ensures IsCommitted(nodes, h, if |applied| < c then applied + log[|applied|..c] else applied)
  {
    if |applied| < c {
      DeliveryStaysCommitted(nodes, h, applied, log, c);
    }
  }

  /** Under the checked rule a delivery hands out committed entries, if the message's commit index is
      justified. */
  lemma GuardedDeliveryOk(s: Sys, m: AppendMsg)
    requires HistOk(s.nodes, s.hist) && m.to in s.nodes && m.to in s.applied
    requires AppendMsgOk(s.hist, m) && MsgCommitOk(s, m)
    requires |s.applied[m.to]| == s.nodes[m.to].lastApplied && s.nodes[m.to].commitIndex <= s.nodes[m.to].lastApplied
    requires IsCommitted(s.nodes, s.hist, s.applied[m.to])
    ensures IsCommitted(s.nodes, s.hist, AfterDeliverAppend(Checked, s, m).applied[m.to])
  {
    var n, t, t' := m.to, s.nodes[m.to], OnAppendEntries(Checked, s.nodes[m.to], m.req).0;
    assert s.applied[n] + [] == s.applied[n];
    if t'.commitIndex != t.commitIndex {
      GuardedAdvance(t, m.req);
      MatchedPrefixIsCommitted(s.nodes, s.hist, n, m, t'.commitIndex);
      AdvanceIsSound(s.nodes, s.hist, s.applied[n], t'.log, t'.commitIndex);
    }
  }

  /** What the invariants say of a message in flight and of its recipient. */
  lemma InFlight(s: Sys, m: AppendMsg)
    requires Inv(s) && AppliedOk(s) && CommitsCovered(s) && Sound(s) && Enabled(s, DeliverAppend(m))
    ensures AppendMsgOk(s.hist, m) && MsgCommitOk(s, m) && IsCommitted(s.nodes, s.hist, s.applied[m.to])
    ensures |s.applied[m.to]| == s.nodes[m.to].lastApplied && s.nodes[m.to].commitIndex <= s.nodes[m.to].lastApplied
  {
    assert MsgCommitOk(s, m);
  }

  lemma GuardedDeliveryStep(s: Sys, m: AppendMsg, s': Sys)
    requires Inv(s) && AppliedOk(s) && CommitsCovered(s) && Sound(s) && Enabled(s, DeliverAppend(m))
    requires s' == AfterDeliverAppend(Checked, s, m) && HistGrows(s.hist, s'.hist) && s'.nodes.Keys == s.nodes.Keys
    ensures m.to in s'.applied && IsCommitted(s'.nodes, s'.hist, s'.applied[m.to])
  {
    InFlight(s, m);
    GuardedDeliveryOk(s, m);
    IsCommittedGrows(s.nodes, s.hist, s'.nodes, s'.hist, s'.applied[m.to]);
  }

  lemma GuardedStepOk(mode: Mode, s: Sys, e: Event, s': Sys)
    requires mode.rule.Checked? && Inv(s) && AppliedOk(s) && CommitsCovered(s) && Sound(s) && Step(mode, s, e, s')
    ensures Sound(s')
  {
    StepGrows(mode, s, e, s');
    if e.DeliverAppend? {
      GuardedDeliveryStep(s, e.msg, s');
    }
    SoundUnlessDelivered(mode, s, e, s');
  }

  /** Under the checked rule, and with commit indices captured or read in time, everything handed out in
      any state of a run is committed. */
  lemma {:induction false} GuardedRunOk(mode: Mode, states: seq<Sys>, events: seq<Event>, i: nat)
    requires mode.rule.Checked? && Run(mode, states, events) && AlwaysPrompt(mode, states, events) && i < |states|
    ensures Sound(states[i])
  {
    if i > 0 {
      GuardedRunOk(mode, states, events, i - 1);
      PromptRunOk(mode, states, events, i - 1);
      RunDelivers(mode, states, events, i - 1);
      assert Step(mode, states[i - 1], events[i - 1], states[i]);
      GuardedStepOk(mode, states[i - 1], events[i - 1], states[i]);
    }
  }

  /** Committed sequences seen at two times agree wherever both are defined. */
  lemma AgreeAt(nodes: Nodes, h: Hist, nodes': Nodes, h': Hist, xs: Log, ys: Log, k: nat)
    requires HistOk(nodes', h') && HistGrows(h, h') && nodes'.Keys == nodes.Keys
    requires IsCommitted(nodes, h, xs) && IsCommitted(nodes', h', ys) && k < |xs| && k < |ys|
    ensures xs[k] == ys[k]
  {
    IsCommittedGrows(nodes, h, nodes', h', xs);
    if |xs| <= |ys| {
      CommittedSequencesAgree(nodes', h', xs, ys);
    } else {
      CommittedSequencesAgree(nodes', h', ys, xs);
    }
  }

  /** What sound states hand out agrees, at any two times of a run. */
  lemma SoundStatesAgree(mode: Mode, states: seq<Sys>, events: seq<Event>, i: nat, j: nat, n: Id, m: Id, k: nat)
    requires Run(mode, states, events) && i <= j < |states|
    requires n in states[i].applied && IsCommitted(states[i].nodes, states[i].hist, states[i].applied[n])
    requires m in states[j].applied && IsCommitted(states[j].nodes, states[j].hist, states[j].applied[m])
    requires k < |states[i].applied[n]| && k < |states[j].applied[m]|
    ensures states[i].applied[n][k] == states[j].applied[m][k]
  {
    RunGrows(mode, states, events, i, j);
    AgreeAt(states[i].nodes, states[i].hist, states[j].nodes, states[j].hist, states[i].applied[n],
            states[j].applied[m], k);
  }

  /** State machine safety under the checked rule, if commit indices are captured or every send happens
      while its sender is still in the term that it puts into the message: what any two nodes have handed
      to their state machines, at any two times, agrees at every index that both have reached. */
  lemma PromptRunAgrees(mode: Mode, states: seq<Sys>, events: seq<Event>, i: nat, j: nat, n: Id, m: Id, k: nat)
    requires mode.rule.Checked? && Run(mode, states, events) && AlwaysPrompt(mode, states, events) && i <= j < |states|
    requires n in states[i].applied && k < |states[i].applied[n]|
    requires m in states[j].applied && k < |states[j].applied[m]|
    ensures states[i].applied[n][k] == states[j].applied[m][k]
  {
    GuardedRunOk(mode, states, events, i);
    GuardedRunOk(mode, states, events, j);
    assert IsCommitted(states[i].nodes, states[i].hist, states[i].applied[n]);
    assert IsCommitted(states[j].nodes, states[j].hist, states[j].applied[m]);
    SoundStatesAgree(mode, states, events, i, j, n, m, k);
  }

  /** State machine safety on every run under both repairs. */
  lemma StateMachineSafety(states: seq<Sys>, events: seq<Event>, i: nat, j: nat, n: Id, m: Id, k: nat)
    requires Run(Mode(Checked, Captured), states, events) && i <= j < |states|
    requires n in states[i].applied && k < |states[i].applied[n]|
    requires m in states[j].applied && k < |states[j].applied[m]|
    ensures states[i].applied[n][k] == states[j].applied[m][k]
  {
    PromptRunAgrees(Mode(Checked, Captured), states, events, i, j, n, m, k);
  }
}

/** What the cluster does, beside what it never does: who can be elected, who is followed, and who steps
    down. */
module RaftProgress {
  import opened Counting
  import opened RaftHandlers
  import opened RaftHistory
  import opened RaftLaws
  import opened RaftCompleteness
  import opened RaftProtocol
  import opened RaftInvariant
  import opened RaftSteps

  // ---------------------------------------------------------------- who can be elected

  /** The log `a` is at least as up to date as `b`. */
  predicate Beats(a: Log, b: Log) {
    UpToDate(|a|, LastTerm(a), b)
  }

  /** Of any two logs one is up to date for the other, and being up to date is transitive. */
  lemma ComparisonIsTotal(a: Log, b: Log, c: Log)
    ensures Beats(a, b) || Beats(b, a)
    ensures Beats(a, b) && Beats(b, c) ==> Beats(a, c)
    ensures Beats(a, b) && Beats(b, a) <==> |a| == |b| && LastTerm(a) == LastTerm(b)
  {
  }

  /** The request of `n` for `term`, describing its own log. */
  function RequestOf(n: Id, s: NodeState, term: nat): VoteRequest {
    VoteRequest(term, n, |s.log|, LastTerm(s.log))
  }

  /** Every other member would grant `n` its vote. */
  ghost predicate Electable(nodes: Nodes, members: set<Id>, n: Id, term: nat)
    requires members <= nodes.Keys
  {
    n in members && forall m :: m in members && m != n ==>
      OnRequestVote(nodes[m], RequestOf(n, nodes[n], term)).1.granted
  }

  lemma {:induction false} MostUpToDate(nodes: Nodes, members: set<Id>) returns (n: Id)
    requires members != {} && members <= nodes.Keys
    ensures n in members && forall m :: m in members ==> Beats(nodes[n].log, nodes[m].log)
    decreases |members|
  {
    n :| n in members;
    var rest := members - {n};
    if rest != {} {
      var k := MostUpToDate(nodes, rest);
      if !Beats(nodes[n].log, nodes[k].log) {
        n := k;
      }
    }
  }

  /** No vote splits for good: in any state of the nodes, each non-empty set of them has a member that all the
      others vote for, if it asks in a term above theirs. */
  lemma SomeoneIsElectable(nodes: Nodes, members: set<Id>, term: nat) returns (n: Id)
    requires members != {} && members <= nodes.Keys
    requires forall m :: m in members ==> nodes[m].currentTerm < term
    ensures Electable(nodes, members, n, term)
  {
    n := MostUpToDate(nodes, members);
    var req := RequestOf(n, nodes[n], term);
    forall m | m in members && m != n ensures OnRequestVote(nodes[m], req).1.granted {
      VoteLaw(nodes[m], req, OnRequestVote(nodes[m], req).0, OnRequestVote(nodes[m], req).1);
    }
  }

  lemma ElectableHolds(nodes: Nodes, h: Hist, members: set<Id>, n: Id, term: nat, t: nat, i: nat)
    requires HistOk(nodes, h) && members <= nodes.Keys && |members| >= Quorum(|nodes.Keys|)
    requires (forall m :: m in members ==> nodes[m].currentTerm < term) && Electable(nodes, members, n, term)
    requires Committed(nodes, h, t, i)
    ensures t in h.reigns && i <= |h.reigns[t].log| && CommittedPrefix(h, t, i) <= nodes[n].log
  {
    CommittedEntryExists(nodes, h, t, i);
    var q :| AcceptedBy(nodes, h, q, t, i);
    var v := QuorumsIntersect(nodes.Keys, members, q);
    AcceptorKeeps(nodes, h, t, i, v);
    if v != n {
      assert NodeOk(h, n, nodes[n]) && NodeOk(h, v, nodes[v]);
      ReignLogsOk(nodes, h);
      BackedIsSorted(h.reigns, nodes[v].log);
      forall u | u in h.reigns && t < u <= LastTerm(nodes[n].log) ensures h.reigns[t].log[..i] <= h.reigns[u].start {
        LeaderComplete(nodes, h, t, i, u);
      }
      UpToDateLogHolds(h.reigns, nodes[n].log, nodes[v].log, t, i);
    }
  }

  /** `log` holds everything committed so far. */
  ghost predicate HoldsCommitted(nodes: Nodes, h: Hist, log: Log) {
    forall t: nat, i: nat {:trigger Committed(nodes, h, t, i)} :: Committed(nodes, h, t, i) ==>
      t in h.reigns && i <= |h.reigns[t].log| && CommittedPrefix(h, t, i) <= log
  }

  /** At any time of any run every quorum has a member that its other members vote for in a term above theirs,
      and whoever that is holds every entry committed so far. */
  lemma QuorumCanElect(mode: Mode, states: seq<Sys>, events: seq<Event>, k: nat, members: set<Id>, term: nat)
    requires Run(mode, states, events) && k < |states| && members <= states[k].nodes.Keys
    requires |members| >= Quorum(|states[k].nodes.Keys|)
    requires forall m :: m in members ==> states[k].nodes[m].currentTerm < term
    ensures exists n :: Electable(states[k].nodes, members, n, term)
    ensures forall n :: Electable(states[k].nodes, members, n, term) ==>
              HoldsCommitted(states[k].nodes, states[k].hist, states[k].nodes[n].log)
  {
    var nodes, h := states[k].nodes, states[k].hist;
    RunKeeps(mode, states, events, k);
    var someone := SomeoneIsElectable(nodes, members, term);
    forall n | Electable(nodes, members, n, term) ensures HoldsCommitted(nodes, h, nodes[n].log) {
      forall t: nat, i: nat | Committed(nodes, h, t, i)
        ensures t in h.reigns && i <= |h.reigns[t].log| && CommittedPrefix(h, t, i) <= nodes[n].log
      {
        ElectableHolds(nodes, h, members, n, term, t, i);
      }
    }
  }

  // ---------------------------------------------------------------- who is followed

  /** After every delivery of an append message that is not stale and not refused, a heartbeat in particular,
      the recipient follows the sender, which is the leader elected in that term, and says so in its reply. */
  lemma LeaderIsFollowed(mode: Mode, states: seq<Sys>, events: seq<Event>, i: nat, m: AppendMsg)
    requires Run(mode, states, events) && i < |events| && events[i] == DeliverAppend(m)
    requires m.to in states[i].nodes && m.req.term >= states[i].nodes[m.to].currentTerm
    requires m.req.entries == [] || HoldsAt(states[i].nodes[m.to].log, m.req.prevIndex, m.req.prevTerm)
    ensures m.to in states[i + 1].nodes
    ensures var s, t, t' := states[i + 1], states[i].nodes[m.to], states[i + 1].nodes[m.to];
            && t'.currentTerm == m.req.term && t'.role == Follower && t'.leaderId == m.req.leader
            && t'.votedFor == (if m.req.term > t.currentTerm then "" else t.votedFor)
            && (m.req.entries == [] ==> t'.log == t.log)
            && m.req.term in s.hist.reigns && s.hist.reigns[m.req.term].leader == t'.leaderId
            && AppendReply(m.to, m.req.leader, m.req.term, AckIndex(m.req), AppendResponse(m.req.term, true))
               in s.appending.appendReplies
  {
    RunKeeps(mode, states, events, i);
    assert Step(mode, states[i], events[i], states[i + 1]);
    assert AppendMsgOk(states[i].hist, m);
    var t := states[i].nodes[m.to];
    var (t', resp) := OnAppendEntries(mode.rule, t, m.req);
    AppendLaw(mode.rule, t, m.req, t', resp);
  }

  /** Every request that arrives is decided as its handler promises and answered, also if it is stale or refused,
      and no other node changes. */
  lemma RequestsAreAnswered(mode: Mode, s: Sys, e: Event, s': Sys)
    requires Step(mode, s, e, s')
    ensures e.DeliverVote? ==>
              var m := e.vote;
              && s'.nodes == s.nodes[m.to := s'.nodes[m.to]]
              && exists resp :: VoteDecided(s.nodes[m.to], m.req, s'.nodes[m.to], resp) &&
                                VoteReply(m.to, m.req.candidate, m.req.term, resp, s.nodes[m.to].log)
                                in s'.voting.voteReplies
    ensures e.DeliverAppend? ==>
              var m := e.msg;
              && s'.nodes == s.nodes[m.to := s'.nodes[m.to]]
              && exists resp :: AppendDecided(mode.rule, s.nodes[m.to], m.req, s'.nodes[m.to], resp) &&
                                AppendReply(m.to, m.req.leader, m.req.term, AckIndex(m.req), resp)
                                in s'.appending.appendReplies
  {
    if e.DeliverVote? {
      var (t', resp) := OnRequestVote(s.nodes[e.vote.to], e.vote.req);
      VoteLaw(s.nodes[e.vote.to], e.vote.req, t', resp);
    } else if e.DeliverAppend? {
      var (t', resp) := OnAppendEntries(mode.rule, s.nodes[e.msg.to], e.msg.req);
      AppendLaw(mode.rule, s.nodes[e.msg.to], e.msg.req, t', resp);
    }
  }

  // ---------------------------------------------------------------- who steps down

  /** In this event `n` hears a reply with a term later than that of its election, proposal or heartbeat. */
  ghost predicate HearsLater(s: Sys, e: Event, n: Id, term: nat) {
    match e
    case CountVote(r) => n == r.candidate && term == r.resp.term && term > r.term
    case CountAck(p, _, resp) => n == p.leader && term == resp.term && term > p.term
    case CountBeat(b, _, resp) => n == b.leader && term == resp.term && term > b.term
    case _ => false
  }

  /** Such a reply ends the call, and the node is in that term or a later one; unless it was there already it
      is a follower that has not voted and knows no leader. Its log and counters stay. */
  lemma LaterTermDeposes(mode: Mode, s: Sys, e: Event, s': Sys, n: Id, term: nat)
    requires Step(mode, s, e, s') && HearsLater(s, e, n, term)
    ensures n in s.nodes && n in s'.nodes
    ensures var t, t' := s.nodes[n], s'.nodes[n];
            && t'.currentTerm == Max(t.currentTerm, term)
            && (term > t.currentTerm ==> t'.role == Follower && t'.votedFor == "" && t'.leaderId == "")
            && (term <= t.currentTerm ==> t' == t)
            && t'.log == t.log && t'.commitIndex == t.commitIndex && t'.lastApplied == t.lastApplied
    ensures e.CountVote? ==> n !in s'.voting.elections
    ensures e.CountAck? ==> e.p !in s'.appending.waiting
  {
  }

  /** A granted reply counts exactly one vote for a candidate that is still one; it wins with a quorum. */
  lemma VoteIsCounted(mode: Mode, s: Sys, r: VoteReply, s': Sys)
    requires Step(mode, s, CountVote(r), s') && s.nodes[r.candidate].role.Candidate?
    requires s.nodes[r.candidate].currentTerm == r.term >= r.resp.term
    ensures s'.nodes == s.nodes && r.candidate in s'.voting.elections
    ensures var el, el' := s.voting.elections[r.candidate], s'.voting.elections[r.candidate];
            && el'.answered == el.answered + {r.voter} && el'.term == el.term
            && el'.votes == el.votes + (if r.resp.granted then 1 else 0)
            && (el'.won <==> r.resp.granted && el'.votes >= Quorum(|s.nodes.Keys|))
  {
  }

  /** A positive reply to a proposal counts exactly one acknowledgement, and with a quorum of them the proposal
      may commit; any other reply of its term counts as an answer only. */
  lemma AckIsCounted(mode: Mode, s: Sys, p: Proposal, from: Id, resp: AppendResponse, s': Sys)
    requires Step(mode, s, CountAck(p, from, resp), s') && resp.term <= p.term
    ensures s'.nodes == s.nodes && p in s'.appending.waiting
    ensures var tally, tally' := s.appending.waiting[p], s'.appending.waiting[p];
            && tally'.answered == tally.answered + {from}
            && tally'.acks == tally.acks + (if resp.success then 1 else 0)
            && (p.leader in s.applied ==> (Enabled(s', Commit(p)) <==> tally'.acks >= Quorum(|s.nodes.Keys|)))
  {
    assert from in s'.appending.waiting[p].answered;
  }
}

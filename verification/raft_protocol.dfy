/** A cluster of Raft nodes as a state machine. One step is one lock-held region of the source, one
    send by a goroutine, or one reply counted by a caller. Messages may be lost (never delivered),
    delayed, reordered and duplicated; a node that stops simply takes no more steps. */
module RaftProtocol {
  import opened RaftHandlers
  import opened RaftHistory
  import opened RaftPreservation

  /** A running `startElection` call: votes counted, peers that answered, and (recorded) the log
      each counted voter held when it voted. */
  datatype Election = Election(term: nat, votes: nat, answered: set<Id>, ballots: map<Id, Log>, won: bool)

  /** A vote-request goroutine between its two unsynchronised reads of the candidate's log. */
  datatype HalfRead = HalfRead(candidate: Id, term: nat, peer: Id, lastIndex: nat)

  datatype VoteMsg = VoteMsg(to: Id, req: VoteRequest)

  datatype VoteReply = VoteReply(voter: Id, candidate: Id, term: nat, resp: VoteResponse, log: Log)

  /** An entry appended by `Propose`, with what the locked region captured. */
  datatype Proposal = Proposal(leader: Id, term: nat, index: nat, prevTerm: nat, entry: Entry, commit: nat)

  /** A `Propose` call that is still counting acknowledgements. */
  datatype Tally = Tally(acks: nat, answered: set<Id>, ackers: set<Id>)

  /** What the locked region of `sendHeartbeats` captured or could have captured. */
  datatype Beat = Beat(leader: Id, term: nat, prevIndex: nat, prevTerm: nat, commit: nat)

  datatype AppendMsg = AppendMsg(to: Id, req: AppendRequest)

  /** `index` is the acknowledged entry, 0 for a heartbeat. */
  datatype AppendReply = AppendReply(from: Id, leader: Id, term: nat, index: nat, resp: AppendResponse)

  /** Elections: calls in progress, launched goroutines, and votes in flight. */
  datatype Voting = Voting(
    elections: map<Id, Election>,
    launched: set<(Id, nat)>,
    halves: set<HalfRead>,
    voteMsgs: set<VoteMsg>,
    voteReplies: set<VoteReply>
  )

  /** Replication: entries proposed, calls in progress, and messages in flight. */
  datatype Appending = Appending(
    proposals: set<Proposal>,
    waiting: map<Proposal, Tally>,
    beats: set<Beat>,
    appendMsgs: set<AppendMsg>,
    appendReplies: set<AppendReply>
  )

  /** `applied` is, per node, everything handed to the apply callback so far. */
  datatype Sys = Sys(nodes: Nodes, voting: Voting, appending: Appending, applied: map<Id, Log>, hist: Hist)

  datatype Event =
    | Timeout(n: Id)
    | ReadLastIndex(n: Id, term: nat, peer: Id)
    | SendVote(half: HalfRead)
    | DeliverVote(vote: VoteMsg)
    | CountVote(reply: VoteReply)
    | EndElection(n: Id)
    | BecomeLeader(n: Id)
    | Propose(n: Id, command: string)
    | SendAppend(p: Proposal, peer: Id)
    | DeliverAppend(msg: AppendMsg)
    | CountAck(p: Proposal, from: Id, resp: AppendResponse)
    | Commit(p: Proposal)
    | EndPropose(p: Proposal)
    | Heartbeat(n: Id)
    | SendBeat(beat: Beat, peer: Id)
    | CountBeat(beat: Beat, from: Id, resp: AppendResponse)

  ghost predicate Init(s: Sys) {
    && "" !in s.nodes
    && (forall n :: n in s.nodes ==> s.nodes[n] == INITIAL)
    && s.voting == Voting(map[], {}, {}, {}, {})
    && s.appending == Appending({}, map[], {}, {}, {})
    && s.applied.Keys == s.nodes.Keys
    && (forall n :: n in s.applied ==> s.applied[n] == [])
    && s.hist == Hist(map[], {}, {})
  }

  /** The index a message acknowledges: its last entry, or 0 for a heartbeat. */
  function AckIndex(req: AppendRequest): nat {
    if req.entries == [] then 0 else req.prevIndex + |req.entries|
  }

  function ProposalRequest(capture: Capture, p: Proposal, commit: nat): AppendRequest
    requires p.index >= 1
  {
    AppendRequest(p.term, p.leader, p.index - 1, p.prevTerm, [p.entry],
                  if capture.Captured? then p.commit else commit)
  }

  /** A late heartbeat reads index, term and commit index together, when it is sent. */
  function BeatRequest(capture: Capture, b: Beat, s: NodeState): AppendRequest {
    if capture.Captured? then AppendRequest(b.term, b.leader, b.prevIndex, b.prevTerm, [], b.commit)
    else AppendRequest(b.term, b.leader, |s.log|, LastTerm(s.log), [], s.commitIndex)
  }

  ghost predicate Enabled(s: Sys, e: Event) {
    match e
    case Timeout(n) =>
      n in s.nodes && n !in s.voting.elections && !s.nodes[n].role.Leader?
    case ReadLastIndex(n, term, peer) =>
      n in s.nodes && (n, term) in s.voting.launched && peer in s.nodes && peer != n
    case SendVote(half) =>
      half in s.voting.halves && half.candidate in s.nodes
    case DeliverVote(m) =>
      m in s.voting.voteMsgs && m.to in s.nodes
    case CountVote(r) =>
      && r.candidate in s.nodes && r.candidate in s.voting.elections
      && var el := s.voting.elections[r.candidate];
      && !el.won && r.term == el.term
      && r.voter in s.nodes && r.voter != r.candidate && r.voter !in el.answered
      && (r in s.voting.voteReplies || r.resp == VoteResponse(el.term, false))
    case EndElection(n) =>
      n in s.voting.elections && !s.voting.elections[n].won
    case BecomeLeader(n) =>
      n in s.nodes && n in s.voting.elections && s.voting.elections[n].won
    case Propose(n, _) =>
      n in s.nodes && s.nodes[n].role.Leader?
    case SendAppend(p, peer) =>
      p in s.appending.proposals && p.leader in s.nodes && p.index >= 1 && peer in s.nodes && peer != p.leader
    case DeliverAppend(m) =>
      m in s.appending.appendMsgs && m.to in s.nodes && m.to in s.applied
    case CountAck(p, from, resp) =>
      && p in s.appending.waiting && p.leader in s.nodes
      && s.appending.waiting[p].acks < Quorum(|s.nodes.Keys|)
      && from in s.nodes && from != p.leader && from !in s.appending.waiting[p].answered
      && (AppendReply(from, p.leader, p.term, p.index, resp) in s.appending.appendReplies
          || resp == AppendResponse(p.term, false))
    case Commit(p) =>
      && p in s.appending.waiting && p.leader in s.nodes && p.leader in s.applied
      && s.appending.waiting[p].answered != {} && s.appending.waiting[p].acks >= Quorum(|s.nodes.Keys|)
    case EndPropose(p) =>
      p in s.appending.waiting && s.appending.waiting[p].acks < Quorum(|s.nodes.Keys|)
    case Heartbeat(n) =>
      n in s.nodes && s.nodes[n].role.Leader?
    case SendBeat(b, peer) =>
      b in s.appending.beats && b.leader in s.nodes && peer in s.nodes && peer != b.leader
    case CountBeat(b, from, resp) =>
      && b in s.appending.beats && b.leader in s.nodes
      && AppendReply(from, b.leader, b.term, 0, resp) in s.appending.appendReplies
  }

  ghost function AfterTimeout(s: Sys, n: Id): Sys
    requires n in s.nodes
  {
    var t := OnTimeout(s.nodes[n], n);
    s.(nodes := s.nodes[n := t],
       voting := s.voting.(elections := s.voting.elections[n := Election(t.currentTerm, 1, {}, map[n := t.log], false)],
                     launched := s.voting.launched + {(n, t.currentTerm)}),
       hist := s.hist.(grants := s.hist.grants + {Grant(n, t.currentTerm, n, t.log)}))
  }

  ghost function AfterDeliverVote(s: Sys, m: VoteMsg): Sys
    requires m.to in s.nodes
  {
    var (t, resp) := OnRequestVote(s.nodes[m.to], m.req);
    s.(nodes := s.nodes[m.to := t],
       voting := s.voting.(voteReplies := s.voting.voteReplies +
                                          {VoteReply(m.to, m.req.candidate, m.req.term, resp, t.log)}),
       hist := if resp.granted then
                 s.hist.(grants := s.hist.grants + {Grant(m.to, t.currentTerm, m.req.candidate, t.log)})
               else s.hist)
  }

  ghost function AfterCountVote(s: Sys, r: VoteReply): Sys
    requires r.candidate in s.nodes && r.candidate in s.voting.elections
  {
    var n, t, el := r.candidate, s.nodes[r.candidate], s.voting.elections[r.candidate];
    if r.resp.term > t.currentTerm then
      s.(nodes := s.nodes[n := StepDown(t, r.resp.term, "")],
         voting := s.voting.(elections := s.voting.elections - {n}))
    else if !t.role.Candidate? || t.currentTerm != el.term then
      s.(voting := s.voting.(elections := s.voting.elections - {n}))
    else
      var heard := el.(answered := el.answered + {r.voter});
      var counted := if !r.resp.granted then heard else
        heard.(votes := heard.votes + 1, ballots := heard.ballots[r.voter := r.log],
               won := heard.votes + 1 >= Quorum(|s.nodes.Keys|));
      s.(voting := s.voting.(elections := s.voting.elections[n := counted]))
  }

  ghost function AfterBecomeLeader(s: Sys, n: Id): Sys
    requires n in s.nodes && n in s.voting.elections
  {
    var t, t' := s.nodes[n], OnBecomeLeader(s.nodes[n], n);
    s.(nodes := s.nodes[n := t'],
       voting := s.voting.(elections := s.voting.elections - {n}),
       hist := if t' == t then s.hist else Crowned(s.hist, n, t, s.voting.elections[n].ballots))
  }

  ghost function AfterPropose(s: Sys, n: Id, command: string): Sys
    requires n in s.nodes
  {
    var t, t' := s.nodes[n], OnPropose(s.nodes[n], command);
    var p := Proposal(n, t.currentTerm, |t.log| + 1, LastTerm(t.log), Entry(t.currentTerm, command), t.commitIndex);
    s.(nodes := s.nodes[n := t'],
       appending := s.appending.(proposals := s.appending.proposals + {p},
                                 waiting := s.appending.waiting[p := Tally(1, {}, {n})]),
       hist := if t'.currentTerm in s.hist.reigns then Proposed(s.hist, n, t') else s.hist)
  }

  ghost function AfterDeliverAppend(rule: Rule, s: Sys, m: AppendMsg): Sys
    requires m.to in s.nodes && m.to in s.applied
  {
    var t, (t', resp) := s.nodes[m.to], OnAppendEntries(rule, s.nodes[m.to], m.req);
    s.(nodes := s.nodes[m.to := t'],
       appending := s.appending.(appendReplies := s.appending.appendReplies +
                                                  {AppendReply(m.to, m.req.leader, m.req.term, AckIndex(m.req), resp)}),
       applied := s.applied[m.to := s.applied[m.to] + Delivered(t, t')],
       hist := if resp.success && m.req.entries != [] then
                 s.hist.(accepts := s.hist.accepts + {Accept(m.to, m.req.term, AckIndex(m.req))})
               else s.hist)
  }

  ghost function AfterCountAck(s: Sys, p: Proposal, from: Id, resp: AppendResponse): Sys
    requires p in s.appending.waiting && p.leader in s.nodes
  {
    var tally := s.appending.waiting[p];
    if resp.term > p.term then
      s.(nodes := s.nodes[p.leader := Adopt(s.nodes[p.leader], resp.term, "")],
         appending := s.appending.(waiting := s.appending.waiting - {p}))
    else
      var heard := tally.(answered := tally.answered + {from});
      var counted := if !resp.success then heard else heard.(acks := heard.acks + 1, ackers := heard.ackers + {from});
      s.(appending := s.appending.(waiting := s.appending.waiting[p := counted]))
  }

  ghost function AfterCommit(s: Sys, p: Proposal): Sys
    requires p.leader in s.nodes && p.leader in s.applied
  {
    var t, t' := s.nodes[p.leader], OnCommit(s.nodes[p.leader], p.index);
    s.(nodes := s.nodes[p.leader := t'],
       appending := s.appending.(waiting := s.appending.waiting - {p}),
       applied := s.applied[p.leader := s.applied[p.leader] + Delivered(t, t')])
  }

  ghost function Next(mode: Mode, s: Sys, e: Event): Sys
    requires Enabled(s, e)
  {
    match e
    case Timeout(n) => AfterTimeout(s, n)
    case ReadLastIndex(n, term, peer) =>
      s.(voting := s.voting.(halves := s.voting.halves + {HalfRead(n, term, peer, |s.nodes[n].log|)}))
    case SendVote(half) =>
      var req := VoteRequest(half.term, half.candidate, half.lastIndex, LastTerm(s.nodes[half.candidate].log));
      s.(voting := s.voting.(voteMsgs := s.voting.voteMsgs + {VoteMsg(half.peer, req)}))
    case DeliverVote(m) => AfterDeliverVote(s, m)
    case CountVote(r) => AfterCountVote(s, r)
    case EndElection(n) => s.(voting := s.voting.(elections := s.voting.elections - {n}))
    case BecomeLeader(n) => AfterBecomeLeader(s, n)
    case Propose(n, command) => AfterPropose(s, n, command)
    case SendAppend(p, peer) =>
      var msg := AppendMsg(peer, ProposalRequest(mode.capture, p, s.nodes[p.leader].commitIndex));
      s.(appending := s.appending.(appendMsgs := s.appending.appendMsgs + {msg}))
    case DeliverAppend(m) => AfterDeliverAppend(mode.rule, s, m)
    case CountAck(p, from, resp) => AfterCountAck(s, p, from, resp)
    case Commit(p) => AfterCommit(s, p)
    case EndPropose(p) => s.(appending := s.appending.(waiting := s.appending.waiting - {p}))
    case Heartbeat(n) =>
      var t := s.nodes[n];
      var b := Beat(n, t.currentTerm, |t.log|, LastTerm(t.log), t.commitIndex);
      s.(appending := s.appending.(beats := s.appending.beats + {b}))
    case SendBeat(b, peer) =>
      var msg := AppendMsg(peer, BeatRequest(mode.capture, b, s.nodes[b.leader]));
      s.(appending := s.appending.(appendMsgs := s.appending.appendMsgs + {msg}))
    case CountBeat(b, from, resp) =>
      if resp.term > b.term then s.(nodes := s.nodes[b.leader := Adopt(s.nodes[b.leader], resp.term, "")]) else s
  }

  ghost predicate Step(mode: Mode, s: Sys, e: Event, s': Sys) {
    Enabled(s, e) && s' == Next(mode, s, e)
  }

  /** A run: an initial state and any finite number of steps. */
  ghost predicate Run(mode: Mode, states: seq<Sys>, events: seq<Event>) {
    && |states| == |events| + 1
    && Init(states[0])
    && (forall i :: 0 <= i < |events| ==> Step(mode, states[i], events[i], states[i + 1]))
  }
}

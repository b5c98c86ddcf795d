/** Runs that show both repairs of the commit rule to be needed. Three nodes hand out different entries
    at index 1 under the unchecked rule, whenever the commit index is read. Five do so under the checked
    rule if the commit index is read late. */
module RaftWitness {
  import opened Sequences
  import opened RaftHandlers
  import opened RaftHistory
  import opened RaftProtocol

  /** A run, and the state it has reached. */
  ghost predicate Reaches(mode: Mode, s: Sys) {
    exists states, events :: Run(mode, states, events) && Last(states) == s
  }

  lemma Extend(mode: Mode, s: Sys, e: Event)
    requires Reaches(mode, s) && Enabled(s, e)
    ensures Reaches(mode, Next(mode, s, e))
  {
    var states, events :| Run(mode, states, events) && Last(states) == s;
    var states', events' := states + [Next(mode, s, e)], events + [e];
    forall i | 0 <= i < |events'| ensures Step(mode, states'[i], events'[i], states'[i + 1]) {
      StepOf(mode, states, events, s, e, i);
    }
    assert Run(mode, states', events') && Last(states') == Next(mode, s, e);
  }

  lemma StepOf(mode: Mode, states: seq<Sys>, events: seq<Event>, s: Sys, e: Event, i: nat)
    requires Run(mode, states, events) && Last(states) == s && Enabled(s, e) && i <= |events|
    ensures var states', events' := states + [Next(mode, s, e)], events + [e];
            Step(mode, states'[i], events'[i], states'[i + 1])
  {
    if i < |events| {
      assert Step(mode, states[i], events[i], states[i + 1]);
    }
  }

  // ---------------------------------------------------------------- elections

  /** An election that `c` has opened and not yet decided. */
  ghost predicate Canvassing(s: Sys, c: Id) {
    && c in s.nodes && c in s.voting.elections && s.nodes[c].role.Candidate?
    && s.nodes[c].currentTerm == s.voting.elections[c].term && s.nodes[c].leaderId != c
    && (c, s.nodes[c].currentTerm) in s.voting.launched
  }

  /** Nothing has changed but the election of `c` and, in the way given, the node `v`. */
  ghost predicate Only(s: Sys, s': Sys, v: Id, t': NodeState, c: Id) {
    && s'.nodes == s.nodes[v := t'] && s'.applied == s.applied && s'.appending == s.appending
    && s'.voting.elections - {c} == s.voting.elections - {c}
  }

  lemma Open(mode: Mode, s: Sys, c: Id) returns (s': Sys)
    requires Reaches(mode, s) && c in s.nodes && c !in s.voting.elections && !s.nodes[c].role.Leader? && c != ""
    ensures Reaches(mode, s') && Only(s, s', c, OnTimeout(s.nodes[c], c), c) && Canvassing(s', c)
    ensures var el := s'.voting.elections[c]; el.votes == 1 && el.answered == {} && !el.won
  {
    Extend(mode, s, Timeout(c));
    s' := Next(mode, s, Timeout(c));
  }

  /** The request of `c` reaches `v`, in an earlier term and with no newer log. */
  lemma Ask(mode: Mode, s: Sys, c: Id, v: Id) returns (s': Sys, m: VoteMsg)
    requires Reaches(mode, s) && Canvassing(s, c) && v in s.nodes && v != c
    ensures var t := s.nodes[c]; m == VoteMsg(v, VoteRequest(t.currentTerm, c, |t.log|, LastTerm(t.log)))
    ensures Reaches(mode, s') && m in s'.voting.voteMsgs
    ensures s'.voting.elections == s.voting.elections && Canvassing(s', c)
    ensures s'.nodes == s.nodes && s'.applied == s.applied && s'.appending == s.appending
  {
    var t := s.nodes[c];
    Extend(mode, s, ReadLastIndex(c, t.currentTerm, v));
    s' := Next(mode, s, ReadLastIndex(c, t.currentTerm, v));
    var half := HalfRead(c, t.currentTerm, v, |t.log|);
    Extend(mode, s', SendVote(half));
    s' := Next(mode, s', SendVote(half));
    m := VoteMsg(v, VoteRequest(t.currentTerm, c, |t.log|, LastTerm(t.log)));
  }

  /** `v` grants its vote and the reply is on its way. */
  lemma Grants(mode: Mode, s: Sys, c: Id, v: Id) returns (s': Sys, r: VoteReply)
    requires Reaches(mode, s) && Canvassing(s, c) && v in s.nodes && v != c
    requires s.nodes[v].currentTerm < s.nodes[c].currentTerm
    requires UpToDate(|s.nodes[c].log|, LastTerm(s.nodes[c].log), s.nodes[v].log)
    ensures var term := s.nodes[c].currentTerm; r == VoteReply(v, c, term, VoteResponse(term, true), s.nodes[v].log)
    ensures Reaches(mode, s') && r in s'.voting.voteReplies
    ensures s'.voting.elections == s.voting.elections && Canvassing(s', c)
    ensures s'.nodes == s.nodes[v := StepDown(s.nodes[v], s.nodes[c].currentTerm, "").(votedFor := c)]
    ensures s'.applied == s.applied && s'.appending == s.appending
  {
    var m;
    s', m := Ask(mode, s, c, v);
    Extend(mode, s', DeliverVote(m));
    s' := Next(mode, s', DeliverVote(m));
    r := VoteReply(v, c, s.nodes[c].currentTerm, VoteResponse(s.nodes[c].currentTerm, true), s.nodes[v].log);
  }

  lemma Count(mode: Mode, s: Sys, r: VoteReply) returns (s': Sys)
    requires Reaches(mode, s) && Canvassing(s, r.candidate) && r in s.voting.voteReplies && r.voter in s.nodes
    requires r.voter != r.candidate && r.term == s.nodes[r.candidate].currentTerm
    requires r.resp == VoteResponse(r.term, true)
    requires !s.voting.elections[r.candidate].won && r.voter !in s.voting.elections[r.candidate].answered
    ensures Reaches(mode, s') && s'.nodes == s.nodes && s'.applied == s.applied && s'.appending == s.appending
    ensures Canvassing(s', r.candidate) && s'.voting.elections - {r.candidate} == s.voting.elections - {r.candidate}
    ensures var el, el' := s.voting.elections[r.candidate], s'.voting.elections[r.candidate];
            && el'.votes == el.votes + 1 && el'.answered == el.answered + {r.voter}
            && el'.won == (el.votes + 1 >= Quorum(|s.nodes.Keys|))
  {
    Extend(mode, s, CountVote(r));
    s' := Next(mode, s, CountVote(r));
  }

  /** One more vote for `c`. */
  lemma Vote(mode: Mode, s: Sys, c: Id, v: Id) returns (s': Sys)
    requires Reaches(mode, s) && Canvassing(s, c) && v in s.nodes && v != c
    requires !s.voting.elections[c].won && v !in s.voting.elections[c].answered
    requires s.nodes[v].currentTerm < s.nodes[c].currentTerm
    requires UpToDate(|s.nodes[c].log|, LastTerm(s.nodes[c].log), s.nodes[v].log)
    ensures Reaches(mode, s') && Canvassing(s', c)
    ensures Only(s, s', v, StepDown(s.nodes[v], s.nodes[c].currentTerm, "").(votedFor := c), c)
    ensures var el, el' := s.voting.elections[c], s'.voting.elections[c];
            && el'.votes == el.votes + 1 && el'.answered == el.answered + {v}
            && el'.won == (el.votes + 1 >= Quorum(|s.nodes.Keys|))
  {
    var r;
    s', r := Grants(mode, s, c, v);
    assert s'.nodes.Keys == s.nodes.Keys;
    s' := Count(mode, s', r);
  }

  lemma TakeOffice(mode: Mode, s: Sys, c: Id) returns (s': Sys)
    requires Reaches(mode, s) && Canvassing(s, c) && s.voting.elections[c].won
    ensures Reaches(mode, s') && Only(s, s', c, s.nodes[c].(role := Leader, leaderId := c), c)
    ensures c !in s'.voting.elections && s.nodes[c].currentTerm in s'.hist.reigns
  {
    Extend(mode, s, BecomeLeader(c));
    s' := Next(mode, s, BecomeLeader(c));
  }

  ghost predicate Idle(s: Sys) {
    s.voting.elections == map[]
  }

  lemma NoneLeft(m: map<Id, Election>, c: Id)
    requires m - {c} == map[] - {c} && c !in m
    ensures m == map[]
  {
    var none: map<Id, Election> := map[];
    assert m - {c} == m && none - {c} == none;
  }

  /** An election that nobody answers only moves `c` to the next term. */
  lemma LonelyElection(mode: Mode, s: Sys, c: Id) returns (s': Sys)
    requires Reaches(mode, s) && Idle(s) && c in s.nodes && !s.nodes[c].role.Leader? && c != ""
    ensures Reaches(mode, s') && Idle(s')
    ensures s'.nodes == s.nodes[c := OnTimeout(s.nodes[c], c)] && s'.applied == s.applied && s'.appending == s.appending
  {
    s' := Open(mode, s, c);
    Extend(mode, s', EndElection(c));
    s' := Next(mode, s', EndElection(c));
    NoneLeft(s'.voting.elections, c);
  }

  function Elected(t: NodeState, c: Id): NodeState {
    t.(role := Leader, currentTerm := t.currentTerm + 1, votedFor := c, leaderId := c)
  }

  function Voter(t: NodeState, term: nat, c: Id): NodeState {
    StepDown(t, term, "").(votedFor := c)
  }

  ghost predicate CanVote(s: Sys, c: Id, v: Id) {
    && c in s.nodes && v in s.nodes && v != c && s.nodes[v].currentTerm <= s.nodes[c].currentTerm
    && UpToDate(|s.nodes[c].log|, LastTerm(s.nodes[c].log), s.nodes[v].log)
  }

  /** `c` wins an election among three with the vote of `v`. */
  lemma WinsWithOne(mode: Mode, s: Sys, c: Id, v: Id) returns (s': Sys)
    requires Reaches(mode, s) && Idle(s) && CanVote(s, c, v) && !s.nodes[c].role.Leader? && c != ""
    requires Quorum(|s.nodes.Keys|) == 2
    ensures Reaches(mode, s') && Idle(s') && s'.applied == s.applied && s'.appending == s.appending
    ensures s'.nodes == s.nodes[v := Voter(s.nodes[v], s.nodes[c].currentTerm + 1, c)][c := Elected(s.nodes[c], c)]
  {
    s' := Open(mode, s, c);
    assert s'.nodes.Keys == s.nodes.Keys;
    s' := Vote(mode, s', c, v);
    s' := TakeOffice(mode, s', c);
    NoneLeft(s'.voting.elections, c);
  }

  /** `c` wins an election among five with the votes of `v` and `w`. */
  lemma WinsWithTwo(mode: Mode, s: Sys, c: Id, v: Id, w: Id) returns (s': Sys)
    requires Reaches(mode, s) && Idle(s) && CanVote(s, c, v) && CanVote(s, c, w) && v != w
    requires !s.nodes[c].role.Leader? && c != "" && Quorum(|s.nodes.Keys|) == 3
    ensures Reaches(mode, s') && Idle(s') && s'.applied == s.applied && s'.appending == s.appending
    ensures var term := s.nodes[c].currentTerm + 1;
            s'.nodes == s.nodes[v := Voter(s.nodes[v], term, c)][w := Voter(s.nodes[w], term, c)]
                               [c := Elected(s.nodes[c], c)]
  {
    s' := HasOneVote(mode, s, c, v);
    assert s'.nodes.Keys == s.nodes.Keys;
    s' := Vote(mode, s', c, w);
    s' := TakeOffice(mode, s', c);
    NoneLeft(s'.voting.elections, c);
  }

  lemma HasOneVote(mode: Mode, s: Sys, c: Id, v: Id) returns (s': Sys)
    requires Reaches(mode, s) && Idle(s) && CanVote(s, c, v) && !s.nodes[c].role.Leader? && c != ""
    requires Quorum(|s.nodes.Keys|) == 3
    ensures Reaches(mode, s') && Canvassing(s', c) && s'.applied == s.applied && s'.appending == s.appending
    ensures s'.nodes == s.nodes[c := OnTimeout(s.nodes[c], c)][v := Voter(s.nodes[v], s.nodes[c].currentTerm + 1, c)]
    ensures s'.voting.elections - {c} == map[] - {c}
    ensures var el := s'.voting.elections[c]; el.votes == 2 && el.answered == {v} && !el.won
  {
    s' := Open(mode, s, c);
    assert s'.nodes.Keys == s.nodes.Keys;
    s' := Vote(mode, s', c, v);
  }

  // ---------------------------------------------------------------- replication

  function FirstProposal(s: Sys, n: Id, command: string): Proposal
    requires n in s.nodes
  {
    Proposal(n, s.nodes[n].currentTerm, 1, 0, Entry(s.nodes[n].currentTerm, command), 0)
  }

  /** The leader `n` appends its first entry. */
  lemma ProposeFirst(mode: Mode, s: Sys, n: Id, command: string) returns (s': Sys, p: Proposal)
    requires Reaches(mode, s) && n in s.nodes && s.nodes[n].role.Leader?
    requires s.nodes[n].log == [] && s.nodes[n].commitIndex == 0
    ensures p == FirstProposal(s, n, command) && Reaches(mode, s')
    ensures s'.nodes == s.nodes[n := s.nodes[n].(log := [p.entry])] && s'.applied == s.applied && s'.voting == s.voting
    ensures s'.appending.proposals == s.appending.proposals + {p}
    ensures p in s'.appending.waiting && s'.appending.waiting[p] == Tally(1, {}, {n})
  {
    Extend(mode, s, Propose(n, command));
    s' := Next(mode, s, Propose(n, command));
    p := FirstProposal(s, n, command);
    assert [] + [p.entry] == [p.entry];
  }

  /** A proposal of a first entry, to a node that has handed out nothing. */
  ghost predicate CanSend(s: Sys, p: Proposal, v: Id) {
    && p in s.appending.proposals && p.leader in s.nodes && p.index == 1 && p.prevTerm == 0 && p.commit == 0
    && v in s.nodes && v in s.applied && v != p.leader && s.applied[v] == []
    && s.nodes[v].commitIndex == 0 && s.nodes[v].lastApplied == 0
    && s.nodes[v].currentTerm <= p.term
  }

  /** The entry reaches `v`, which is in the proposal's term, with an empty log; nothing is committed. */
  lemma Accepts(mode: Mode, s: Sys, p: Proposal, v: Id) returns (s': Sys)
    requires Reaches(mode, s) && CanSend(s, p, v) && s.nodes[p.leader].commitIndex == 0
    requires s.nodes[v].currentTerm == p.term && s.nodes[v].log == []
    ensures Reaches(mode, s') && s'.applied == s.applied && s'.voting == s.voting
    ensures s'.nodes == s.nodes[v := s.nodes[v].(log := [p.entry], role := Follower, leaderId := p.leader)]
    ensures s'.appending.proposals == s.appending.proposals && s'.appending.waiting == s.appending.waiting
    ensures AppendReply(v, p.leader, p.term, 1, AppendResponse(p.term, true)) in s'.appending.appendReplies
  {
    var m := AppendMsg(v, AppendRequest(p.term, p.leader, 0, 0, [p.entry], 0));
    Extend(mode, s, SendAppend(p, v));
    s' := Next(mode, s, SendAppend(p, v));
    assert m in s'.appending.appendMsgs;
    Extend(mode, s', DeliverAppend(m));
    s' := Next(mode, s', DeliverAppend(m));
    EmptyLogTakes(mode.rule, s.nodes[v], m.req, p.entry);
    assert s.applied[v] + [] == s.applied[v];
    assert s.applied[v := s.applied[v]] == s.applied;
  }

  /** What either rule makes of a first entry without a commit index. */
  lemma EmptyLogTakes(rule: Rule, t: NodeState, req: AppendRequest, entry: Entry)
    requires t.log == [] && t.commitIndex == 0 && t.lastApplied == 0
    requires req == AppendRequest(t.currentTerm, req.leader, 0, 0, [entry], 0)
    ensures OnAppendEntries(rule, t, req).0 == t.(log := [entry], role := Follower, leaderId := req.leader)
    ensures OnAppendEntries(rule, t, req).1 == AppendResponse(t.currentTerm, true)
  {
    ReconcileSingle(t.log, 0, entry);
  }

  /** `v` accepts the entry and its acknowledgement is counted. */
  lemma Acknowledges(mode: Mode, s: Sys, p: Proposal, v: Id) returns (s': Sys)
    requires Reaches(mode, s) && CanSend(s, p, v) && s.nodes[p.leader].commitIndex == 0
    requires s.nodes[v].currentTerm == p.term && s.nodes[v].log == []
    requires p in s.appending.waiting && v !in s.appending.waiting[p].answered
    requires s.appending.waiting[p].acks < Quorum(|s.nodes.Keys|)
    ensures Reaches(mode, s') && s'.applied == s.applied && s'.voting == s.voting
    ensures s'.nodes == s.nodes[v := s.nodes[v].(log := [p.entry], role := Follower, leaderId := p.leader)]
    ensures s'.appending.proposals == s.appending.proposals && p in s'.appending.waiting
    ensures var y, y' := s.appending.waiting[p], s'.appending.waiting[p];
            y'.acks == y.acks + 1 && y'.answered == y.answered + {v}
  {
    s' := Accepts(mode, s, p, v);
    assert s'.nodes.Keys == s.nodes.Keys;
    var e := CountAck(p, v, AppendResponse(p.term, true));
    Extend(mode, s', e);
    s' := Next(mode, s', e);
  }

  lemma CommitsFirst(mode: Mode, s: Sys, p: Proposal) returns (s': Sys)
    requires Reaches(mode, s) && p in s.appending.waiting
    requires p.leader in s.nodes && p.leader in s.applied && p.index == 1
    requires s.appending.waiting[p].acks >= Quorum(|s.nodes.Keys|) && s.appending.waiting[p].answered != {}
    requires var t := s.nodes[p.leader]; t.log == [p.entry] && t.commitIndex == 0 && t.lastApplied == 0
    requires s.applied[p.leader] == []
    ensures Reaches(mode, s') && s'.voting == s.voting && s'.appending.proposals == s.appending.proposals
    ensures s'.nodes == s.nodes[p.leader := s.nodes[p.leader].(commitIndex := 1, lastApplied := 1)]
    ensures s'.applied == s.applied[p.leader := [p.entry]]
  {
    Extend(mode, s, Commit(p));
    s' := Next(mode, s, Commit(p));
    assert [] + [p.entry][0..1] == [p.entry];
  }

  // ---------------------------------------------------------------- the unchecked rule

  /** A heartbeat of the leader `n`, which has committed its first entry, reaches `v`, whose log holds
      another entry of an older term: `v` hands that entry to its state machine. */
  lemma Misleads(mode: Mode, s: Sys, n: Id, v: Id) returns (s': Sys)
    requires mode.rule.Unchecked? && Reaches(mode, s) && n in s.nodes && v in s.nodes && v in s.applied && n != v
    requires s.nodes[n].role.Leader? && s.nodes[n].commitIndex == 1
    requires var t := s.nodes[v];
             t.currentTerm < s.nodes[n].currentTerm && |t.log| == 1 && t.commitIndex == 0 && t.lastApplied == 0
    requires s.applied[v] == []
    ensures Reaches(mode, s') && s'.applied == s.applied[v := s.nodes[v].log]
  {
    var t := s.nodes[n];
    var b := Beat(n, t.currentTerm, |t.log|, LastTerm(t.log), 1);
    Extend(mode, s, Heartbeat(n));
    s' := Next(mode, s, Heartbeat(n));
    Extend(mode, s', SendBeat(b, v));
    s' := Next(mode, s', SendBeat(b, v));
    var m := AppendMsg(v, AppendRequest(t.currentTerm, n, |t.log|, LastTerm(t.log), [], 1));
    assert m in s'.appending.appendMsgs;
    Extend(mode, s', DeliverAppend(m));
    s' := Next(mode, s', DeliverAppend(m));
    assert [] + s.nodes[v].log[0..1] == s.nodes[v].log;
  }

  ghost predicate Three(a: Id, b: Id, c: Id) {
    a != b && a != c && b != c && "" !in {a, b, c}
  }

  /** Nobody has handed out anything. */
  ghost predicate NothingApplied(s: Sys, names: set<Id>) {
    s.applied.Keys == names && forall n {:trigger s.applied[n]} :: n in names ==> s.applied[n] == []
  }

  lemma Begins(mode: Mode, names: set<Id>) returns (s: Sys)
    requires "" !in names
    ensures Reaches(mode, s) && Idle(s) && s.nodes.Keys == names && NothingApplied(s, names)
    ensures forall n {:trigger s.nodes[n]} :: n in names ==> s.nodes[n] == INITIAL
  {
    s := Sys(map n | n in names :: INITIAL, Voting(map[], {}, {}, {}, {}), Appending({}, map[], {}, {}, {}),
             map n | n in names :: [], Hist(map[], {}, {}));
    var states: seq<Sys>, events: seq<Event> := [s], [];
    assert Run(mode, states, events) && Last(states) == s;
  }

  lemma SizeOfThree(a: Id, b: Id, c: Id)
    requires Three(a, b, c)
    ensures Quorum(|{a, b, c}|) == 2
  {
    assert {a, b, c} == {a} + {b} + {c};
  }

  /** `a` leads term 1 with the vote of `c`. */
  lemma ElectionOfThree(mode: Mode, a: Id, b: Id, c: Id) returns (s: Sys)
    requires Three(a, b, c)
    ensures Reaches(mode, s) && Idle(s) && s.nodes.Keys == {a, b, c} && NothingApplied(s, {a, b, c})
    ensures s.nodes[a] == NodeState(1, a, a, Leader, [], 0, 0) && s.nodes[b] == INITIAL
    ensures s.nodes[c] == NodeState(1, a, "", Follower, [], 0, 0)
  {
    s := Begins(mode, {a, b, c});
    SizeOfThree(a, b, c);
    s := WinsWithOne(mode, s, a, c);
  }

  /** `a` appends x alone, while `b` reaches term 1. */
  lemma FirstOfThree(mode: Mode, a: Id, b: Id, c: Id) returns (s: Sys)
    requires Three(a, b, c)
    ensures Reaches(mode, s) && Idle(s) && s.nodes.Keys == {a, b, c} && NothingApplied(s, {a, b, c})
    ensures s.nodes[a] == NodeState(1, a, a, Leader, [Entry(1, "x")], 0, 0)
    ensures s.nodes[b] == NodeState(1, b, "", Candidate, [], 0, 0)
    ensures s.nodes[c] == NodeState(1, a, "", Follower, [], 0, 0)
  {
    var p;
    s := ElectionOfThree(mode, a, b, c);
    s, p := ProposeFirst(mode, s, a, "x");
    s := LonelyElection(mode, s, b);
  }

  /** `b` leads term 2 with the vote of `c`, and proposes y. */
  lemma SecondOfThree(mode: Mode, a: Id, b: Id, c: Id) returns (s: Sys, y: Proposal)
    requires Three(a, b, c)
    ensures Reaches(mode, s) && s.nodes.Keys == {a, b, c} && NothingApplied(s, {a, b, c})
    ensures y == Proposal(b, 2, 1, 0, Entry(2, "y"), 0) && y in s.appending.proposals
    ensures y in s.appending.waiting && s.appending.waiting[y] == Tally(1, {}, {b})
    ensures s.nodes[a] == NodeState(1, a, a, Leader, [Entry(1, "x")], 0, 0)
    ensures s.nodes[b] == NodeState(2, b, b, Leader, [Entry(2, "y")], 0, 0)
    ensures s.nodes[c] == NodeState(2, b, "", Follower, [], 0, 0)
  {
    SizeOfThree(a, b, c);
    s := FirstOfThree(mode, a, b, c);
    s := WinsWithOne(mode, s, b, c);
    s, y := ProposeFirst(mode, s, b, "y");
  }

  /** `b` commits y with the acknowledgement of `c`. */
  lemma CommitOfThree(mode: Mode, a: Id, b: Id, c: Id) returns (s: Sys)
    requires Three(a, b, c)
    ensures Reaches(mode, s) && s.nodes.Keys == {a, b, c} && s.applied.Keys == {a, b, c}
    ensures s.applied[a] == [] && s.applied[b] == [Entry(2, "y")]
    ensures s.nodes[a] == NodeState(1, a, a, Leader, [Entry(1, "x")], 0, 0)
    ensures s.nodes[b] == NodeState(2, b, b, Leader, [Entry(2, "y")], 1, 1)
  {
    var y;
    SizeOfThree(a, b, c);
    s, y := SecondOfThree(mode, a, b, c);
    s := Acknowledges(mode, s, y, c);
    assert s.nodes.Keys == {a, b, c};
    s := CommitsFirst(mode, s, y);
  }

  /** State machine safety fails under the unchecked rule, whenever the commit index is read, in every
      cluster of three: `a` leads term 1 and appends x alone; `b` wins term 2 with `c` and commits y; then
      the heartbeat of `b` makes `a` hand out x. */
  lemma UncheckedIsUnsafe(mode: Mode, a: Id, b: Id, c: Id) returns (states: seq<Sys>, events: seq<Event>)
    requires mode.rule.Unchecked? && Three(a, b, c)
    ensures Run(mode, states, events)
    ensures var s := Last(states);
            a in s.applied && s.applied[a] == [Entry(1, "x")] && b in s.applied && s.applied[b] == [Entry(2, "y")]
  {
    var s := CommitOfThree(mode, a, b, c);
    s := Misleads(mode, s, b, a);
    states, events :| Run(mode, states, events) && Last(states) == s;
  }

  // ---------------------------------------------------------------- the late read

  /** The checked rule hands out a first entry that comes with a commit index, and replaces by it an
      entry of another term. */
  lemma CheckedTakes(t: NodeState, req: AppendRequest, entry: Entry)
    requires t.currentTerm <= req.term && t.commitIndex == 0 && t.lastApplied == 0
    requires t.log == [] || (|t.log| == 1 && t.log[0].term != entry.term)
    requires req == AppendRequest(req.term, req.leader, 0, 0, [entry], 1)
    ensures var t' := OnAppendEntries(Checked, t, req).0;
            && t'.currentTerm == req.term && t'.role == Follower && t'.leaderId == req.leader
            && t'.log == [entry] && t'.commitIndex == 1 && t'.lastApplied == 1
            && Delivered(t, t') == [entry]
  {
    ReconcileSingle(t.log, 0, entry);
    assert t.log == [] || t.log[..0] + [entry] == [entry];
  }

  /** A goroutine of the proposal `p` that sends to `v` only now reads the commit index that its node has
      now; `v` hands the entry out. */
  lemma SendsLate(s: Sys, p: Proposal, v: Id) returns (s': Sys)
    requires Reaches(Mode(Checked, Late), s) && CanSend(s, p, v) && s.nodes[p.leader].commitIndex == 1
    requires var log := s.nodes[v].log; log == [] || (|log| == 1 && log[0].term != p.entry.term)
    ensures Reaches(Mode(Checked, Late), s') && s'.applied == s.applied[v := [p.entry]]
    ensures s'.nodes.Keys == s.nodes.Keys && s'.nodes[v].commitIndex == 1
    ensures forall n :: n in s.nodes && n != v ==> s'.nodes[n] == s.nodes[n]
    ensures s'.appending.proposals == s.appending.proposals
  {
    var mode, m := Mode(Checked, Late), AppendMsg(v, AppendRequest(p.term, p.leader, 0, 0, [p.entry], 1));
    Extend(mode, s, SendAppend(p, v));
    s' := Next(mode, s, SendAppend(p, v));
    assert m in s'.appending.appendMsgs;
    Extend(mode, s', DeliverAppend(m));
    s' := Next(mode, s', DeliverAppend(m));
    CheckedTakes(s.nodes[v], m.req, p.entry);
    assert [] + [p.entry] == [p.entry];
  }

  ghost predicate Five(a: Id, b: Id, c: Id, d: Id, e: Id) {
    && a !in {b, c, d, e} && b !in {c, d, e} && c !in {d, e} && d != e
    && "" !in {a, b, c, d, e}
  }

  lemma SizeOfFive(a: Id, b: Id, c: Id, d: Id, e: Id)
    requires Five(a, b, c, d, e)
    ensures Quorum(|{a, b, c, d, e}|) == 3
  {
    assert {a, b, c, d, e} == {a} + {b} + {c} + {d} + {e};
  }

  /** `a` leads term 1 with the votes of `d` and `e`. */
  lemma ElectionOfFive(mode: Mode, a: Id, b: Id, c: Id, d: Id, e: Id) returns (s: Sys)
    requires Five(a, b, c, d, e)
    ensures Reaches(mode, s) && Idle(s) && s.nodes.Keys == {a, b, c, d, e} && NothingApplied(s, {a, b, c, d, e})
    ensures s.nodes[a] == NodeState(1, a, a, Leader, [], 0, 0) && s.nodes[b] == INITIAL && s.nodes[c] == INITIAL
    ensures s.nodes[d] == NodeState(1, a, "", Follower, [], 0, 0)
    ensures s.nodes[e] == NodeState(1, a, "", Follower, [], 0, 0)
  {
    s := Begins(mode, {a, b, c, d, e});
    SizeOfFive(a, b, c, d, e);
    s := WinsWithTwo(mode, s, a, d, e);
  }

  /** `a` appends x alone; `b` reaches term 1. */
  lemma FirstOfFive(mode: Mode, a: Id, b: Id, c: Id, d: Id, e: Id) returns (s: Sys, x: Proposal)
    requires Five(a, b, c, d, e)
    ensures Reaches(mode, s) && Idle(s) && s.nodes.Keys == {a, b, c, d, e} && NothingApplied(s, {a, b, c, d, e})
    ensures x == Proposal(a, 1, 1, 0, Entry(1, "x"), 0) && x in s.appending.proposals
    ensures s.nodes[a] == NodeState(1, a, a, Leader, [Entry(1, "x")], 0, 0)
    ensures s.nodes[b] == NodeState(1, b, "", Candidate, [], 0, 0) && s.nodes[c] == INITIAL
    ensures s.nodes[d] == NodeState(1, a, "", Follower, [], 0, 0)
    ensures s.nodes[e] == NodeState(1, a, "", Follower, [], 0, 0)
  {
    s := ElectionOfFive(mode, a, b, c, d, e);
    s, x := ProposeFirst(mode, s, a, "x");
    s := LonelyElection(mode, s, b);
  }

  /** `b` leads term 2 with the votes of `c` and `d`. */
  lemma NextElectionOfFive(mode: Mode, a: Id, b: Id, c: Id, d: Id, e: Id) returns (s: Sys, x: Proposal)
    requires Five(a, b, c, d, e)
    ensures Reaches(mode, s) && s.nodes.Keys == {a, b, c, d, e} && NothingApplied(s, {a, b, c, d, e})
    ensures x == Proposal(a, 1, 1, 0, Entry(1, "x"), 0) && x in s.appending.proposals
    ensures s.nodes[a] == NodeState(1, a, a, Leader, [Entry(1, "x")], 0, 0)
    ensures s.nodes[b] == NodeState(2, b, b, Leader, [], 0, 0)
    ensures s.nodes[c] == NodeState(2, b, "", Follower, [], 0, 0)
    ensures s.nodes[d] == NodeState(2, b, "", Follower, [], 0, 0)
    ensures s.nodes[e] == NodeState(1, a, "", Follower, [], 0, 0)
  {
    SizeOfFive(a, b, c, d, e);
    s, x := FirstOfFive(mode, a, b, c, d, e);
    s := WinsWithTwo(mode, s, b, c, d);
  }

  /** `b` proposes y and `c` acknowledges it. */
  lemma SecondOfFive(mode: Mode, a: Id, b: Id, c: Id, d: Id, e: Id) returns (s: Sys, x: Proposal, y: Proposal)
    requires Five(a, b, c, d, e)
    ensures Reaches(mode, s) && s.nodes.Keys == {a, b, c, d, e} && NothingApplied(s, {a, b, c, d, e})
    ensures x == Proposal(a, 1, 1, 0, Entry(1, "x"), 0) && y == Proposal(b, 2, 1, 0, Entry(2, "y"), 0)
    ensures x in s.appending.proposals && y in s.appending.proposals && y in s.appending.waiting
    ensures s.appending.waiting[y].acks == 2 && s.appending.waiting[y].answered == {c}
    ensures s.nodes[a] == NodeState(1, a, a, Leader, [Entry(1, "x")], 0, 0)
    ensures s.nodes[b] == NodeState(2, b, b, Leader, [Entry(2, "y")], 0, 0)
    ensures s.nodes[d] == NodeState(2, b, "", Follower, [], 0, 0)
    ensures s.nodes[e] == NodeState(1, a, "", Follower, [], 0, 0)
  {
    SizeOfFive(a, b, c, d, e);
    s, x := NextElectionOfFive(mode, a, b, c, d, e);
    s, y := ProposeFirst(mode, s, b, "y");
    assert s.nodes.Keys == {a, b, c, d, e};
    s := Acknowledges(mode, s, y, c);
  }

  /** `b` commits y once `d` has acknowledged it too. */
  lemma CommitOfFive(mode: Mode, a: Id, b: Id, c: Id, d: Id, e: Id) returns (s: Sys, x: Proposal, y: Proposal)
    requires Five(a, b, c, d, e)
    ensures Reaches(mode, s) && s.nodes.Keys == {a, b, c, d, e} && s.applied.Keys == {a, b, c, d, e}
    ensures s.applied[a] == [] && s.applied[b] == [Entry(2, "y")] && s.applied[e] == []
    ensures x == Proposal(a, 1, 1, 0, Entry(1, "x"), 0) && y == Proposal(b, 2, 1, 0, Entry(2, "y"), 0)
    ensures x in s.appending.proposals && y in s.appending.proposals
    ensures s.nodes[a] == NodeState(1, a, a, Leader, [Entry(1, "x")], 0, 0) && s.nodes[b].commitIndex == 1
    ensures s.nodes[e] == NodeState(1, a, "", Follower, [], 0, 0)
  {
    SizeOfFive(a, b, c, d, e);
    s, x, y := SecondOfFive(mode, a, b, c, d, e);
    s := Acknowledges(mode, s, y, d);
    assert s.nodes.Keys == {a, b, c, d, e};
    s := CommitsFirst(mode, s, y);
  }

  /** The checked rule alone does not help: in every cluster of five, `a` leads term 1 and appends x; `b`
      wins term 2, commits y and brings `a` to it; a goroutine of the proposal of x that sends to `e` only
      then reads the commit index that `a` has from term 2, and `e`, still in term 1, hands out x. */
  lemma LateReadIsUnsafe(a: Id, b: Id, c: Id, d: Id, e: Id) returns (states: seq<Sys>, events: seq<Event>)
    requires Five(a, b, c, d, e)
    ensures Run(Mode(Checked, Late), states, events)
    ensures var s := Last(states);
            a in s.applied && s.applied[a] == [Entry(2, "y")] && e in s.applied && s.applied[e] == [Entry(1, "x")]
  {
    var mode := Mode(Checked, Late);
    var s, x, y := CommitOfFive(mode, a, b, c, d, e);
    s := SendsLate(s, y, a);
    s := SendsLate(s, x, e);
    states, events :| Run(mode, states, events) && Last(states) == s;
  }
}

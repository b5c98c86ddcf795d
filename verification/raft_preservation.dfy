/** Each kind of change that a locked region can make to a node keeps the history invariant. */
module RaftPreservation {
  import opened RaftHandlers
  import opened RaftHistory

  // ---------------------------------------------------------------- one clause at a time

  /** From (`nodes`, `h`) to (`nodes[n := s']`, `h'`): one node changes, its term does not go back,
      history is only added to, and only a reign of `n` itself may grow. */
  ghost predicate Change(nodes: Nodes, h: Hist, n: Id, s': NodeState, h': Hist) {
    && n in nodes
    && nodes[n].currentTerm <= s'.currentTerm
    && HistGrows(h, h')
    && (forall t :: t in h.reigns && h.reigns[t].leader != n ==> h'.reigns[t] == h.reigns[t])
  }

  lemma NodesKept(nodes: Nodes, h: Hist, n: Id, s': NodeState, h': Hist)
    requires Change(nodes, h, n, s', h') && NodesOk(nodes, h) && NodeOk(h', n, s')
    ensures NodesOk(nodes[n := s'], h')
  {
    forall m | m in nodes && m != n ensures NodeOk(h', m, nodes[m]) {
      assert NodeOk(h, m, nodes[m]);
      BackedGrows(h.reigns, h'.reigns, nodes[m].log);
    }
  }

  /** A reign that this change leaves alone stays well-formed. */
  lemma ReignKept(nodes: Nodes, h: Hist, n: Id, s': NodeState, h': Hist, t: nat)
    requires Change(nodes, h, n, s', h') && t in h.reigns && ReignOk(nodes, h, t)
    requires h'.reigns[t] == h.reigns[t]
    requires h.reigns[t].leader == n && s'.currentTerm == t ==> s'.role.Leader?
    ensures t in h'.reigns && ReignOk(nodes[n := s'], h', t)
  {
    var nodes' := nodes[n := s'];
    assert nodes'.Keys == nodes.Keys;
    BackedGrows(h.reigns, h'.reigns, h.reigns[t].log);
    assert ReignLogOk(h'.reigns, t);
  }

  lemma GrantKept(nodes: Nodes, h: Hist, n: Id, s': NodeState, h': Hist, g: Grant)
    requires Change(nodes, h, n, s', h') && GrantOk(nodes, h, g)
    requires g.voter == n && g.term == s'.currentTerm ==> s'.votedFor == g.candidate
    ensures GrantOk(nodes[n := s'], h', g)
  {
    BackedGrows(h.reigns, h'.reigns, g.log);
  }

  /** Votes are kept when the vote of the current term is not taken back. */
  lemma GrantsKept(nodes: Nodes, h: Hist, n: Id, s': NodeState, h': Hist)
    requires Change(nodes, h, n, s', h') && GrantsOk(nodes, h)
    requires s'.currentTerm == nodes[n].currentTerm && s'.votedFor != nodes[n].votedFor ==> nodes[n].votedFor == ""
    requires forall g :: g in h'.grants && g !in h.grants ==> GrantOk(nodes[n := s'], h', g)
    ensures GrantsOk(nodes[n := s'], h')
  {
    forall g | g in h.grants ensures GrantOk(nodes[n := s'], h', g) {
      assert GrantOk(nodes, h, g);
      GrantKept(nodes, h, n, s', h', g);
    }
  }

  lemma KeptLater(reigns: Reigns, a: Accept, log: Log, bound: nat, bound': nat)
    requires Kept(reigns, a, log, bound) && bound <= bound'
    ensures Kept(reigns, a, log, bound')
  {
    if Overruled(reigns, a, bound) {
      var t :| t in reigns && a.term < t < bound && Differ(AcceptedPrefix(reigns, a), reigns[t].log);
      assert t < bound';
    }
  }

  lemma AcceptKept(nodes: Nodes, h: Hist, n: Id, s': NodeState, h': Hist, a: Accept)
    requires Change(nodes, h, n, s', h') && AcceptOk(nodes, h, a)
    requires a.node == n ==> Kept(h.reigns, a, s'.log, s'.currentTerm + 1)
    ensures AcceptOk(nodes[n := s'], h', a)
  {
    assert ReignGrows(h.reigns[a.term], h'.reigns[a.term]);
    var nodes' := nodes[n := s'];
    KeptGrows(h.reigns, h'.reigns, a, nodes'[a.node].log, nodes'[a.node].currentTerm + 1);
  }

  /** Acceptances are kept by a node whose log only grows. */
  lemma AcceptsKept(nodes: Nodes, h: Hist, n: Id, s': NodeState, h': Hist)
    requires Change(nodes, h, n, s', h') && AcceptsOk(nodes, h)
    requires nodes[n].log <= s'.log
    requires forall a :: a in h'.accepts && a !in h.accepts ==> AcceptOk(nodes[n := s'], h', a)
    ensures AcceptsOk(nodes[n := s'], h')
  {
    forall a | a in h.accepts ensures AcceptOk(nodes[n := s'], h', a) {
      assert AcceptOk(nodes, h, a);
      if a.node == n {
        LongerLogKeeps(h.reigns, a, nodes[n].log, s'.log, nodes[n].currentTerm + 1);
        KeptLater(h.reigns, a, s'.log, nodes[n].currentTerm + 1, s'.currentTerm + 1);
      }
      AcceptKept(nodes, h, n, s', h', a);
    }
  }

  lemma LongerLogKeeps(reigns: Reigns, a: Accept, log: Log, log': Log, bound: nat)
    requires Kept(reigns, a, log, bound) && log <= log'
    ensures Kept(reigns, a, log', bound)
  {
  }

  lemma GrantKeepsGrows(h: Hist, h': Hist, g: Grant)
    requires GrantKeeps(h, g) && ReignsGrow(h.reigns, h'.reigns) && h'.accepts == h.accepts
    ensures GrantKeeps(h', g)
  {
    forall a | a in h'.accepts && a.node == g.voter && a.term < g.term
      ensures Kept(h'.reigns, a, g.log, g.term + 1)
    {
      KeptGrows(h.reigns, h'.reigns, a, g.log, g.term + 1);
    }
  }

  lemma BallotsKeepGrows(h: Hist, h': Hist, t: nat)
    requires t in h.reigns && BallotsKeep(h, t)
    requires ReignsGrow(h.reigns, h'.reigns) && h'.accepts == h.accepts
    ensures t in h'.reigns && BallotsKeep(h', t)
  {
    assert ReignGrows(h.reigns[t], h'.reigns[t]);
    forall a | a in h'.accepts && a.node in h'.reigns[t].ballots && a.term < t
      ensures Kept(h'.reigns, a, h'.reigns[t].ballots[a.node], t)
    {
      KeptGrows(h.reigns, h'.reigns, a, h.reigns[t].ballots[a.node], t);
    }
  }

  lemma VotesKeepGrows(h: Hist, h': Hist)
    requires VotesKeep(h) && h'.grants == h.grants && h'.accepts == h.accepts
    requires ReignsGrow(h.reigns, h'.reigns) && h'.reigns.Keys == h.reigns.Keys
    ensures VotesKeep(h')
  {
    forall g | g in h'.grants ensures GrantKeeps(h', g) {
      assert GrantKeeps(h, g);
      GrantKeepsGrows(h, h', g);
    }
    forall u | u in h'.reigns ensures BallotsKeep(h', u) {
      assert BallotsKeep(h, u);
      BallotsKeepGrows(h, h', u);
    }
  }

  /** An acceptance in a node's current term concerns no vote of a later term. */
  lemma NewAcceptKeepsVotes(nodes: Nodes, h: Hist, a: Accept)
    requires HistOk(nodes, h) && a.node in nodes && a.term == nodes[a.node].currentTerm
    ensures VotesKeep(h.(accepts := h.accepts + {a}))
  {
    var h' := h.(accepts := h.accepts + {a});
    forall g | g in h'.grants ensures GrantKeeps(h', g) {
      assert GrantOk(nodes, h, g) && GrantKeeps(h, g);
    }
    forall t | t in h'.reigns ensures BallotsKeep(h', t) {
      assert ReignOk(nodes, h, t) && BallotsKeep(h, t);
      if a.node in h.reigns[t].ballots {
        var g := Grant(a.node, t, h.reigns[t].leader, h.reigns[t].ballots[a.node]);
        assert g in h.grants && GrantOk(nodes, h, g);
      }
    }
  }

  // ---------------------------------------------------------------- terms and votes

  /** A node keeps its log and its place in the history while its term may grow. */
  lemma QuietChange(nodes: Nodes, h: Hist, n: Id, s': NodeState)
    requires HistOk(nodes, h) && n in nodes
    requires s'.log == nodes[n].log && s'.currentTerm >= nodes[n].currentTerm
    requires s'.currentTerm == nodes[n].currentTerm ==>
               && (s'.role == nodes[n].role || (nodes[n].role.Candidate? && s'.role.Follower?))
               && s'.votedFor == nodes[n].votedFor
    requires s'.currentTerm > nodes[n].currentTerm ==> s'.role.Follower?
    requires s'.leaderId != "" ==>
               s'.currentTerm in h.reigns && h.reigns[s'.currentTerm].leader == s'.leaderId
    ensures HistOk(nodes[n := s'], h)
  {
    assert NodeOk(h, n, nodes[n]);
    assert NodeOk(h, n, s');
    NodesKept(nodes, h, n, s', h);
    forall t | t in h.reigns ensures ReignOk(nodes[n := s'], h, t) {
      assert ReignOk(nodes, h, t);
      ReignKept(nodes, h, n, s', h, t);
    }
    GrantsKept(nodes, h, n, s', h);
    AcceptsKept(nodes, h, n, s', h);
  }

  /** Moving to a later term as a follower. */
  lemma StepDownKeeps(nodes: Nodes, h: Hist, n: Id, term: nat, leader: Id)
    requires HistOk(nodes, h) && n in nodes && term > nodes[n].currentTerm
    requires leader != "" ==> term in h.reigns && h.reigns[term].leader == leader
    ensures HistOk(nodes[n := StepDown(nodes[n], term, leader)], h)
  {
    QuietChange(nodes, h, n, StepDown(nodes[n], term, leader));
  }

  /** Casting (or repeating) a vote in the current term. */
  lemma VoteKeeps(nodes: Nodes, h: Hist, n: Id, candidate: Id)
    requires HistOk(nodes, h) && n in nodes && candidate != ""
    requires nodes[n].votedFor == "" || nodes[n].votedFor == candidate
    ensures var s := nodes[n];
            HistOk(nodes[n := s.(votedFor := candidate)],
                   h.(grants := h.grants + {Grant(n, s.currentTerm, candidate, s.log)}))
  {
    var s, s' := nodes[n], nodes[n].(votedFor := candidate);
    var g := Grant(n, s.currentTerm, candidate, s.log);
    var h' := h.(grants := h.grants + {g});
    assert NodeOk(h, n, s);
    assert NodeOk(h', n, s');
    NodesKept(nodes, h, n, s', h');
    forall t | t in h'.reigns ensures ReignOk(nodes[n := s'], h', t) {
      assert ReignOk(nodes, h, t);
      ReignKept(nodes, h, n, s', h', t);
    }
    assert GrantOk(nodes[n := s'], h', g);
    GrantsKept(nodes, h, n, s', h');
    AcceptsKept(nodes, h, n, s', h');
    NewGrantIsConsistent(nodes, h, n, candidate);
  }

  lemma NewGrantIsConsistent(nodes: Nodes, h: Hist, n: Id, candidate: Id)
    requires HistOk(nodes, h) && n in nodes
    requires nodes[n].votedFor == "" || nodes[n].votedFor == candidate
    ensures var h' := h.(grants := h.grants + {Grant(n, nodes[n].currentTerm, candidate, nodes[n].log)});
            VotesOnce(h') && VotesKeep(h')
  {
    var s := nodes[n];
    var own := Grant(n, s.currentTerm, candidate, s.log);
    var h' := h.(grants := h.grants + {own});
    forall g | g in h.grants && g.voter == n && g.term == s.currentTerm
      ensures g.candidate == candidate
    {
      assert GrantOk(nodes, h, g);
    }
    forall g | g in h'.grants ensures GrantKeeps(h', g) {
      if g in h.grants {
        assert GrantKeeps(h, g);
        GrantKeepsGrows(h, h', g);
      } else {
        forall a | a in h.accepts && a.node == n && a.term < s.currentTerm
          ensures Kept(h.reigns, a, s.log, s.currentTerm + 1)
        {
          assert AcceptOk(nodes, h, a);
        }
      }
    }
    forall t | t in h'.reigns ensures BallotsKeep(h', t) {
      assert BallotsKeep(h, t);
      BallotsKeepGrows(h, h', t);
    }
  }

  /** A follower that has voted for itself in a term newer than its log may become a candidate. */
  lemma CandidacyKeeps(nodes: Nodes, h: Hist, n: Id)
    requires HistOk(nodes, h) && n in nodes
    requires nodes[n].role.Follower? && Below(nodes[n].log, nodes[n].currentTerm)
    requires Grant(n, nodes[n].currentTerm, n, nodes[n].log) in h.grants
    ensures HistOk(nodes[n := nodes[n].(role := Candidate)], h)
  {
    var s' := nodes[n].(role := Candidate);
    assert NodeOk(h, n, nodes[n]);
    NodesKept(nodes, h, n, s', h);
    forall t | t in h.reigns ensures ReignOk(nodes[n := s'], h, t) {
      assert ReignOk(nodes, h, t);
      ReignKept(nodes, h, n, s', h, t);
    }
    GrantsKept(nodes, h, n, s', h);
    AcceptsKept(nodes, h, n, s', h);
  }

  /** Opening an election: a new term, and a vote for oneself in it. */
  lemma TimeoutKeeps(nodes: Nodes, h: Hist, n: Id)
    requires HistOk(nodes, h) && n in nodes
    ensures var s' := OnTimeout(nodes[n], n);
            HistOk(nodes[n := s'], h.(grants := h.grants + {Grant(n, s'.currentTerm, n, s'.log)}))
  {
    var s := nodes[n];
    assert NodeOk(h, n, s);
    var nodes1 := nodes[n := StepDown(s, s.currentTerm + 1, "")];
    StepDownKeeps(nodes, h, n, s.currentTerm + 1, "");
    VoteKeeps(nodes1, h, n, n);
    var nodes2 := nodes1[n := nodes1[n].(votedFor := n)];
    var h' := h.(grants := h.grants + {Grant(n, s.currentTerm + 1, n, s.log)});
    CandidacyKeeps(nodes2, h', n);
    assert nodes[n := OnTimeout(s, n)] == nodes2[n := nodes2[n].(role := Candidate)];
  }

  // ---------------------------------------------------------------- winning an election

  /** A term already led by someone cannot be won again. */
  lemma TermIsFree(nodes: Nodes, h: Hist, n: Id, ballots: map<Id, Log>)
    requires HistOk(nodes, h) && n in nodes && nodes[n].role.Candidate?
    requires ballots.Keys <= nodes.Keys && |ballots.Keys| >= Quorum(|nodes.Keys|)
    requires forall v :: v in ballots ==> Grant(v, nodes[n].currentTerm, n, ballots[v]) in h.grants
    ensures nodes[n].currentTerm !in h.reigns
  {
    var t := nodes[n].currentTerm;
    if t in h.reigns {
      assert ReignOk(nodes, h, t);
      OneWinnerPerTerm(nodes, h, t, n, ballots.Keys);
    }
  }

  /** What a voter had accepted before it voted was still in its log, or had been overruled by a
      leader of an earlier term than the one it voted in (that term has no leader yet). */
  lemma NewBallotKeeps(nodes: Nodes, h: Hist, n: Id, log: Log, a: Accept)
    requires HistOk(nodes, h) && n in nodes && nodes[n].currentTerm !in h.reigns
    requires a in h.accepts && a.term < nodes[n].currentTerm
    requires Grant(a.node, nodes[n].currentTerm, n, log) in h.grants
    ensures Kept(h.reigns, a, log, nodes[n].currentTerm)
  {
    var t := nodes[n].currentTerm;
    var g := Grant(a.node, t, n, log);
    assert GrantKeeps(h, g);
    assert Kept(h.reigns, a, g.log, g.term + 1);
    if Overruled(h.reigns, a, t + 1) {
      var u :| u in h.reigns && a.term < u < t + 1 && Differ(AcceptedPrefix(h.reigns, a), h.reigns[u].log);
      assert u < t;
    }
  }

  ghost predicate Winning(nodes: Nodes, h: Hist, n: Id, ballots: map<Id, Log>) {
    && n in nodes
    && nodes[n].role.Candidate?
    && ballots.Keys <= nodes.Keys
    && |ballots.Keys| >= Quorum(|nodes.Keys|)
    && (forall v :: v in ballots ==>
          && Grant(v, nodes[n].currentTerm, n, ballots[v]) in h.grants
          && UpToDate(|nodes[n].log|, LastTerm(nodes[n].log), ballots[v]))
  }

  ghost function Crowned(h: Hist, n: Id, s: NodeState, ballots: map<Id, Log>): Hist {
    h.(reigns := h.reigns[s.currentTerm := Reign(n, s.log, s.log, ballots)])
  }

  /** A candidate with a quorum of votes, each from a voter whose log is no newer, takes office. */
  lemma ElectionKeeps(nodes: Nodes, h: Hist, n: Id, ballots: map<Id, Log>)
    requires HistOk(nodes, h) && Winning(nodes, h, n, ballots)
    ensures nodes[n].currentTerm !in h.reigns
    ensures ReignsGrow(h.reigns, Crowned(h, n, nodes[n], ballots).reigns)
    ensures HistOk(nodes[n := nodes[n].(role := Leader, leaderId := n)], Crowned(h, n, nodes[n], ballots))
  {
    var s, t := nodes[n], nodes[n].currentTerm;
    TermIsFree(nodes, h, n, ballots);
    var s' := s.(role := Leader, leaderId := n);
    var h' := Crowned(h, n, s, ballots);
    assert NodeOk(h, n, s);
    assert Change(nodes, h, n, s', h');
    BackedGrows(h.reigns, h'.reigns, s.log);
    assert NodeOk(h', n, s');
    NodesKept(nodes, h, n, s', h');
    assert nodes[n := s'].Keys == nodes.Keys;
    forall u | u in h'.reigns ensures ReignOk(nodes[n := s'], h', u) {
      if u == t {
        assert ReignLogOk(h'.reigns, t);
      } else {
        assert ReignOk(nodes, h, u);
        ReignKept(nodes, h, n, s', h', u);
      }
    }
    GrantsKept(nodes, h, n, s', h');
    AcceptsKept(nodes, h, n, s', h');
    NewReignKeepsVotes(nodes, h, n, ballots);
  }

  lemma NewReignKeepsVotes(nodes: Nodes, h: Hist, n: Id, ballots: map<Id, Log>)
    requires HistOk(nodes, h) && Winning(nodes, h, n, ballots) && nodes[n].currentTerm !in h.reigns
    ensures VotesKeep(Crowned(h, n, nodes[n], ballots))
  {
    var t, h' := nodes[n].currentTerm, Crowned(h, n, nodes[n], ballots);
    assert ReignsGrow(h.reigns, h'.reigns);
    forall g | g in h'.grants ensures GrantKeeps(h', g) {
      assert GrantKeeps(h, g);
      GrantKeepsGrows(h, h', g);
    }
    forall u | u in h'.reigns ensures BallotsKeep(h', u) {
      if u == t {
        forall a | a in h.accepts && a.node in ballots && a.term < t
          ensures Kept(h'.reigns, a, ballots[a.node], t)
        {
          NewBallotKeeps(nodes, h, n, ballots[a.node], a);
          KeptGrows(h.reigns, h'.reigns, a, ballots[a.node], t);
        }
      } else {
        assert BallotsKeep(h, u);
        BallotsKeepGrows(h, h', u);
      }
    }
  }

  // ---------------------------------------------------------------- appending as a leader

  ghost function Proposed(h: Hist, n: Id, s': NodeState): Hist
    requires s'.currentTerm in h.reigns
  {
    h.(reigns := h.reigns[s'.currentTerm := h.reigns[s'.currentTerm].(log := s'.log)],
       accepts := h.accepts + {Accept(n, s'.currentTerm, |s'.log|)})
  }

  /** A leader appends an entry of its own term, which it thereby accepts. */
  lemma ProposeKeeps(nodes: Nodes, h: Hist, n: Id, command: string)
    requires HistOk(nodes, h) && n in nodes && nodes[n].role.Leader?
    ensures nodes[n].currentTerm in h.reigns
    ensures ReignsGrow(h.reigns, Proposed(h, n, OnPropose(nodes[n], command)).reigns)
    ensures HistOk(nodes[n := OnPropose(nodes[n], command)], Proposed(h, n, OnPropose(nodes[n], command)))
  {
    var s := nodes[n];
    assert NodeOk(h, n, s);
    var t, s' := s.currentTerm, OnPropose(s, command);
    var h1 := h.(reigns := h.reigns[t := h.reigns[t].(log := s'.log)]);
    var own := Accept(n, t, |s'.log|);
    GrownReignKeeps(nodes, h, n, s', h1);
    var nodes' := nodes[n := s'];
    var h' := h1.(accepts := h1.accepts + {own});
    assert h' == Proposed(h, n, s');
    NewAcceptKeeps(nodes', h1, own);
  }

  lemma GrownReignKeeps(nodes: Nodes, h: Hist, n: Id, s': NodeState, h': Hist)
    requires HistOk(nodes, h) && n in nodes && nodes[n].role.Leader? && nodes[n].currentTerm in h.reigns
    requires |s'.log| == |nodes[n].log| + 1 && s' == nodes[n].(log := nodes[n].log + [s'.log[|nodes[n].log|]])
    requires s'.log[|nodes[n].log|].term == s'.currentTerm
    requires h' == h.(reigns := h.reigns[s'.currentTerm := h.reigns[s'.currentTerm].(log := s'.log)])
    ensures HistOk(nodes[n := s'], h')
  {
    var s := nodes[n];
    assert NodeOk(h, n, s);
    assert Change(nodes, h, n, s', h');
    ExtendedLogIsBacked(h.reigns, h'.reigns, s.log, s'.log);
    assert NodeOk(h', n, s');
    NodesKept(nodes, h, n, s', h');
    GrownReignsOk(nodes, h, n, s', h');
    GrantsKept(nodes, h, n, s', h');
    AcceptsKept(nodes, h, n, s', h');
    VotesKeepGrows(h, h');
  }

  lemma GrownReignsOk(nodes: Nodes, h: Hist, n: Id, s': NodeState, h': Hist)
    requires HistOk(nodes, h) && Change(nodes, h, n, s', h')
    requires nodes[n].role.Leader? && nodes[n].currentTerm in h.reigns
    requires |s'.log| == |nodes[n].log| + 1 && s' == nodes[n].(log := nodes[n].log + [s'.log[|nodes[n].log|]])
    requires s'.log[|nodes[n].log|].term == s'.currentTerm && Backed(h'.reigns, s'.log)
    requires h' == h.(reigns := h.reigns[s'.currentTerm := h.reigns[s'.currentTerm].(log := s'.log)])
    ensures forall u {:trigger ReignOk(nodes[n := s'], h', u)} :: u in h'.reigns ==> ReignOk(nodes[n := s'], h', u)
  {
    assert NodeOk(h, n, nodes[n]);
    forall u | u in h'.reigns ensures ReignOk(nodes[n := s'], h', u) {
      assert ReignOk(nodes, h, u);
      if u == s'.currentTerm {
        GrownReignOk(nodes, h, n, s', h');
      } else {
        ReignKept(nodes, h, n, s', h', u);
      }
    }
  }

  lemma GrownReignOk(nodes: Nodes, h: Hist, n: Id, s': NodeState, h': Hist)
    requires n in nodes && s'.role.Leader? && s'.currentTerm in h.reigns
    requires ReignOk(nodes, h, s'.currentTerm) && h.reigns[s'.currentTerm].leader == n
    requires h.reigns[s'.currentTerm].log <= s'.log && |s'.log| == |h.reigns[s'.currentTerm].log| + 1
    requires s'.log[|s'.log| - 1].term == s'.currentTerm
    requires h' == h.(reigns := h.reigns[s'.currentTerm := h.reigns[s'.currentTerm].(log := s'.log)])
    requires Backed(h'.reigns, s'.log)
    ensures ReignOk(nodes[n := s'], h', s'.currentTerm)
  {
    assert nodes[n := s'].Keys == nodes.Keys;
    assert ReignLogOk(h'.reigns, s'.currentTerm);
  }

  lemma ExtendedLogIsBacked(reigns: Reigns, reigns': Reigns, log: Log, log': Log)
    requires ReignsGrow(reigns, reigns') && Backed(reigns, log)
    requires |log'| == |log| + 1 && log <= log'
    requires log'[|log|].term in reigns' && log' <= reigns'[log'[|log|].term].log
    ensures Backed(reigns', log')
  {
    BackedGrows(reigns, reigns', log);
    forall p | 0 <= p < |log'|
      ensures log'[p].term in reigns' && log'[..p + 1] <= reigns'[log'[p].term].log
    {
      if p < |log| {
        assert log'[p] == log[p];
        assert log'[..p + 1] == log[..p + 1];
      } else {
        assert log'[..p + 1] == log';
      }
    }
  }

  /** Recording an acceptance that the node's log bears out. */
  lemma NewAcceptKeeps(nodes: Nodes, h: Hist, a: Accept)
    requires HistOk(nodes, h) && a.node in nodes
    requires a.term == nodes[a.node].currentTerm && a.term in h.reigns
    requires 1 <= a.index <= |h.reigns[a.term].log| && h.reigns[a.term].log[a.index - 1].term == a.term
    requires h.reigns[a.term].log[..a.index] <= nodes[a.node].log
    ensures HistOk(nodes, h.(accepts := h.accepts + {a}))
  {
    var n, s, h' := a.node, nodes[a.node], h.(accepts := h.accepts + {a});
    assert nodes[n := s] == nodes;
    assert NodeOk(h, n, s);
    assert NodeOk(h', n, s);
    assert Change(nodes, h, n, s, h');
    NodesKept(nodes, h, n, s, h');
    NewAcceptKeepsReigns(nodes, h, a, h');
    GrantsKept(nodes, h, n, s, h');
    assert AcceptOk(nodes, h', a);
    AcceptsKept(nodes, h, n, s, h');
    NewAcceptKeepsVotes(nodes, h, a);
  }

  lemma NewAcceptKeepsReigns(nodes: Nodes, h: Hist, a: Accept, h': Hist)
    requires HistOk(nodes, h) && a.node in nodes && h' == h.(accepts := h.accepts + {a})
    ensures forall t {:trigger ReignOk(nodes, h', t)} :: t in h'.reigns ==> ReignOk(nodes, h', t)
  {
    forall t | t in h'.reigns ensures ReignOk(nodes, h', t) {
      assert ReignOk(nodes, h, t);
    }
  }

  // ---------------------------------------------------------------- accepting an entry

  /** The entry that the leader of term `t` created at `index`, offered with the term before it. */
  ghost predicate Offered(reigns: Reigns, t: nat, index: nat, prevTerm: nat, entry: Entry) {
    && t in reigns
    && 1 <= index <= |reigns[t].log|
    && entry == reigns[t].log[index - 1]
    && entry.term == t
    && (index > 1 ==> prevTerm == reigns[t].log[index - 2].term)
  }

  /** After accepting, a follower's log agrees with the leader's up to the entry, everything in it
      is still backed, and it was cut only where it disagreed with the leader. */
  lemma AcceptedLogAgrees(reigns: Reigns, log: Log, t: nat, index: nat, prevTerm: nat, entry: Entry)
    requires Backed(reigns, log) && Offered(reigns, t, index, prevTerm, entry)
    requires Backed(reigns, reigns[t].log)
    requires MatchPrev(log, index - 1, prevTerm)
    ensures index - 1 <= |log|
    ensures var log' := ReconcileOne(log, index - 1, entry);
            && reigns[t].log[..index] <= log'
            && Backed(reigns, log')
            && (AtMost(log, t) ==> AtMost(log', t))
            && (log <= log' || CutAt(log, log', reigns[t].log, index))
  {
    var p, leader := index - 1, reigns[t].log;
    var log' := ReconcileOne(log, p, entry);
    if p > 0 {
      BackedLogsMatch(reigns, log, leader, p - 1);
    }
    assert log[..p] == leader[..p];
    if p < |log| && log[p].term == t {
      BackedLogsMatch(reigns, log, leader, p);
    } else {
      assert log' == leader[..index];
      BackedPrefix(reigns, leader, index);
    }
  }

  /** `log` disagrees with the leader at `index`; `log'` is the leader's log up to there. */
  ghost predicate CutAt(log: Log, log': Log, leader: Log, index: nat) {
    && 1 <= index <= |log| && index <= |leader|
    && log' == leader[..index]
    && log[..index - 1] == leader[..index - 1]
    && log[index - 1] != leader[index - 1]
  }

  /** Accepting from the leader of the current term loses no earlier acceptance unless that leader
      contradicts it. */
  lemma CutKeepsOrOverrules(reigns: Reigns, a: Accept, log: Log, log': Log, t: nat, index: nat)
    requires t in reigns && CutAt(log, log', reigns[t].log, index)
    requires Kept(reigns, a, log, t + 1) && a.term <= t
    ensures Kept(reigns, a, log', t + 1)
  {
    var prefix, leader := AcceptedPrefix(reigns, a), reigns[t].log;
    if prefix <= log {
      if |prefix| <= index - 1 {
        assert prefix == log[..index - 1][..|prefix|];
        assert prefix <= log';
      } else {
        assert prefix[index - 1] == log[index - 1] != leader[index - 1];
        assert Differ(prefix, leader);
        assert a.term != t;
      }
    }
  }

  lemma CutLogKeepsAccepts(nodes: Nodes, h: Hist, n: Id, s': NodeState, index: nat)
    requires HistOk(nodes, h) && n in nodes
    requires s'.currentTerm == nodes[n].currentTerm && s'.currentTerm in h.reigns
    requires CutAt(nodes[n].log, s'.log, h.reigns[s'.currentTerm].log, index)
    ensures AcceptsOk(nodes[n := s'], h)
  {
    forall a | a in h.accepts ensures AcceptOk(nodes[n := s'], h, a) {
      assert AcceptOk(nodes, h, a);
      if a.node == n {
        CutKeepsOrOverrules(h.reigns, a, nodes[n].log, s'.log, s'.currentTerm, index);
      }
      AcceptKept(nodes, h, n, s', h, a);
    }
  }

  /** A follower takes over an offered entry from the leader of its current term. */
  lemma TakeoverKeeps(nodes: Nodes, h: Hist, n: Id, index: nat, prevTerm: nat, entry: Entry, s': NodeState)
    requires HistOk(nodes, h) && n in nodes
    requires Offered(h.reigns, nodes[n].currentTerm, index, prevTerm, entry)
    requires n != h.reigns[nodes[n].currentTerm].leader
    requires MatchPrev(nodes[n].log, index - 1, prevTerm)
    requires s' == nodes[n].(log := ReconcileOne(nodes[n].log, index - 1, entry), role := Follower,
                             leaderId := h.reigns[nodes[n].currentTerm].leader)
    ensures HistOk(nodes[n := s'], h)
    ensures h.reigns[s'.currentTerm].log[..index] <= s'.log
  {
    var s, t := nodes[n], nodes[n].currentTerm;
    assert NodeOk(h, n, s) && ReignOk(nodes, h, t);
    AcceptedLogAgrees(h.reigns, s.log, t, index, prevTerm, entry);
    assert NodeOk(h, n, s');
    NodesKept(nodes, h, n, s', h);
    forall u | u in h.reigns ensures ReignOk(nodes[n := s'], h, u) {
      assert ReignOk(nodes, h, u);
      ReignKept(nodes, h, n, s', h, u);
    }
    GrantsKept(nodes, h, n, s', h);
    if s.log <= s'.log {
      AcceptsKept(nodes, h, n, s', h);
    } else {
      CutLogKeepsAccepts(nodes, h, n, s', index);
    }
  }

  /** A follower accepts an entry offered by the leader of its current term. */
  lemma AcceptKeeps(nodes: Nodes, h: Hist, n: Id, index: nat, prevTerm: nat, entry: Entry, s': NodeState)
    requires HistOk(nodes, h) && n in nodes
    requires Offered(h.reigns, nodes[n].currentTerm, index, prevTerm, entry)
    requires n != h.reigns[nodes[n].currentTerm].leader
    requires MatchPrev(nodes[n].log, index - 1, prevTerm)
    requires s' == nodes[n].(log := ReconcileOne(nodes[n].log, index - 1, entry), role := Follower,
                             leaderId := h.reigns[nodes[n].currentTerm].leader)
    ensures HistOk(nodes[n := s'], h.(accepts := h.accepts + {Accept(n, s'.currentTerm, index)}))
  {
    TakeoverKeeps(nodes, h, n, index, prevTerm, entry, s');
    NewAcceptKeeps(nodes[n := s'], h, Accept(n, s'.currentTerm, index));
  }

  /** A follower or candidate hears from the leader of its current term. */
  lemma FollowKeeps(nodes: Nodes, h: Hist, n: Id)
    requires HistOk(nodes, h) && n in nodes
    requires nodes[n].currentTerm in h.reigns && n != h.reigns[nodes[n].currentTerm].leader
    ensures HistOk(nodes[n := nodes[n].(role := Follower, leaderId := h.reigns[nodes[n].currentTerm].leader)], h)
  {
    assert NodeOk(h, n, nodes[n]);
    QuietChange(nodes, h, n, nodes[n].(role := Follower, leaderId := h.reigns[nodes[n].currentTerm].leader));
  }

  /** The invariant does not mention the commit and apply counters. */
  lemma CountersKeep(nodes: Nodes, h: Hist, n: Id, commit: nat, applied: nat)
    requires HistOk(nodes, h) && n in nodes
    ensures HistOk(nodes[n := nodes[n].(commitIndex := commit, lastApplied := applied)], h)
  {
    assert NodeOk(h, n, nodes[n]);
    QuietChange(nodes, h, n, nodes[n].(commitIndex := commit, lastApplied := applied));
  }
}

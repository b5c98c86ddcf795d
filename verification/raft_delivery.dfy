/** Exactly when what nodes hand out is committed, in every mode: per delivery and over whole runs. The
    condition compares the recipient's log with what the sender has itself handed out. */
module RaftDelivery {
  import opened Counting
  import opened RaftHandlers
  import opened RaftHistory
  import opened RaftCompleteness
  import opened RaftProtocol
  import opened RaftInvariant
  import opened RaftSteps
  import opened RaftTheorems
  import opened RaftCommit

  // ---------------------------------------------------------------- one delivery

  /** The delivery of `m` hands out entries. */
  ghost predicate HandsOut(rule: Rule, s: Sys, m: AppendMsg)
    requires m.to in s.nodes
  {
    s.nodes[m.to].lastApplied < OnAppendEntries(rule, s.nodes[m.to], m.req).0.lastApplied
  }

  /** The recipient's log after the delivery, and its commit index. */
  function NewLog(rule: Rule, s: Sys, m: AppendMsg): Log
    requires m.to in s.nodes
  {
    OnAppendEntries(rule, s.nodes[m.to], m.req).0.log
  }

  function NewIndex(rule: Rule, s: Sys, m: AppendMsg): nat
    requires m.to in s.nodes
  {
    OnAppendEntries(rule, s.nodes[m.to], m.req).0.commitIndex
  }

  /** Some leader has committed an entry of this term at this index. */
  ghost predicate CommittedTermAt(nodes: Nodes, h: Hist, index: nat, term: nat) {
    exists t, i :: CommittedTermBy(nodes, h, index, term, t, i)
  }

  ghost predicate CommittedTermBy(nodes: Nodes, h: Hist, index: nat, term: nat, t: nat, i: nat) {
    && Committed(nodes, h, t, i) && t in h.reigns
    && 1 <= index <= i <= |h.reigns[t].log| && h.reigns[t].log[index - 1].term == term
  }

  /** Delivering up to `c` hands out committed entries if and only if the entry there has the term that
      was committed there. */
  lemma SafeIffTermIsCommitted(nodes: Nodes, h: Hist, applied: Log, log: Log, c: nat)
    requires HistOk(nodes, h) && Backed(h.reigns, log) && IsCommitted(nodes, h, applied) && |applied| < c <= |log|
    ensures IsCommitted(nodes, h, applied + log[|applied|..c]) <==> CommittedTermAt(nodes, h, c, log[c - 1].term)
  {
    var applied' := applied + log[|applied|..c];
    if IsCommitted(nodes, h, applied') {
      var t: nat, i: nat :| CommittedAt(nodes, h, t, i, applied');
      assert applied'[c - 1] == log[c - 1] && applied'[c - 1] == h.reigns[t].log[c - 1];
      assert CommittedTermBy(nodes, h, c, log[c - 1].term, t, i);
    }
    if CommittedTermAt(nodes, h, c, log[c - 1].term) {
      var t: nat, i: nat :| CommittedTermBy(nodes, h, c, log[c - 1].term, t, i);
      assert ReignOk(nodes, h, t);
      BackedLogsMatch(h.reigns, log, h.reigns[t].log, c - 1);
      assert CommittedAt(nodes, h, t, i, log[..c]);
      DeliveryStaysCommitted(nodes, h, applied, log, c);
    }
  }

  lemma SafeIffTermIsCommittedLater(s: Sys, s': Sys, applied: Log, log: Log, c: nat)
    requires HistGrows(s.hist, s'.hist) && s'.nodes.Keys == s.nodes.Keys && HistOk(s'.nodes, s'.hist)
    requires Backed(s'.hist.reigns, log) && IsCommitted(s.nodes, s.hist, applied) && |applied| < c <= |log|
    ensures IsCommitted(s'.nodes, s'.hist, applied + log[|applied|..c]) <==>
            CommittedTermAt(s'.nodes, s'.hist, c, log[c - 1].term)
  {
    IsCommittedGrows(s.nodes, s.hist, s'.nodes, s'.hist, applied);
    SafeIffTermIsCommitted(s'.nodes, s'.hist, applied, log, c);
  }

  /** What it takes to hand anything out: the commit index has moved, and no further than the message's. */
  lemma Advances(rule: Rule, t: NodeState, req: AppendRequest)
    requires t.commitIndex <= t.lastApplied < OnAppendEntries(rule, t, req).0.lastApplied
    ensures var t' := OnAppendEntries(rule, t, req).0;
            && t'.commitIndex == t'.lastApplied <= Min(req.leaderCommit, |t'.log|)
            && (rule.Unchecked? ==> t'.commitIndex == Min(req.leaderCommit, |t'.log|))
            && Delivered(t, t') == t'.log[t.lastApplied..t'.commitIndex]
  {
    DeliveryInBounds(rule, t, req);
  }

  lemma AfterDelivery(rule: Rule, s: Sys, m: AppendMsg)
    requires Inv(s) && Enabled(s, DeliverAppend(m))
    ensures var s' := AfterDeliverAppend(rule, s, m);
            && HistOk(s'.nodes, s'.hist) && Backed(s'.hist.reigns, NewLog(rule, s, m))
            && HistGrows(s.hist, s'.hist) && s'.nodes.Keys == s.nodes.Keys
  {
    var s' := AfterDeliverAppend(rule, s, m);
    DeliveredAppendKeeps(rule, s, m);
    StepGrows(Mode(rule, Late), s, DeliverAppend(m), s');
    assert NodeOk(s'.hist, m.to, s'.nodes[m.to]);
  }

  /** What a delivery that hands out entries leaves applied. */
  lemma HandedOut(rule: Rule, s: Sys, m: AppendMsg)
    requires Inv(s) && AppliedOk(s) && Enabled(s, DeliverAppend(m)) && HandsOut(rule, s, m)
    ensures var applied, log, c := s.applied[m.to], NewLog(rule, s, m), NewIndex(rule, s, m);
            && |applied| < c <= |log| && c <= m.req.leaderCommit
            && AfterDeliverAppend(rule, s, m).applied[m.to] == applied + log[|applied|..c]
  {
    assert |s.applied[m.to]| == s.nodes[m.to].lastApplied && s.nodes[m.to].commitIndex <= s.nodes[m.to].lastApplied;
    Advances(rule, s.nodes[m.to], m.req);
  }

  /** After the delivery everything handed out to the recipient is committed. */
  ghost predicate SafeAfter(rule: Rule, s: Sys, m: AppendMsg)
    requires m.to in s.nodes && m.to in s.applied
  {
    var s' := AfterDeliverAppend(rule, s, m);
    IsCommitted(s'.nodes, s'.hist, s'.applied[m.to])
  }

  /** The recipient's entry at the commit index it takes has the term that was committed there. */
  ghost predicate Vouched(rule: Rule, s: Sys, m: AppendMsg)
    requires m.to in s.nodes && m.to in s.applied
  {
    var s', log, c := AfterDeliverAppend(rule, s, m), NewLog(rule, s, m), NewIndex(rule, s, m);
    1 <= c <= |log| && CommittedTermAt(s'.nodes, s'.hist, c, log[c - 1].term)
  }

  /** That is exactly when a delivery is safe, under either rule. The source never makes this comparison:
      a heartbeat skips the check of the preceding entry, and the end of the log takes the place of the
      last entry known to match. */
  lemma DeliverySafeIffVouched(rule: Rule, s: Sys, m: AppendMsg)
    requires Inv(s) && AppliedOk(s) && Enabled(s, DeliverAppend(m)) && HandsOut(rule, s, m)
    requires IsCommitted(s.nodes, s.hist, s.applied[m.to])
    ensures SafeAfter(rule, s, m) <==> Vouched(rule, s, m)
  {
    var s', log, c := AfterDeliverAppend(rule, s, m), NewLog(rule, s, m), NewIndex(rule, s, m);
    assert |s.applied[m.to]| < c <= |log| && s'.applied[m.to] == s.applied[m.to] + log[|s.applied[m.to]|..c] by {
      HandedOut(rule, s, m);
    }
    assert IsCommitted(s'.nodes, s'.hist, s.applied[m.to] + log[|s.applied[m.to]|..c]) <==>
           CommittedTermAt(s'.nodes, s'.hist, c, log[c - 1].term) by {
      AfterDelivery(rule, s, m);
      SafeIffTermIsCommittedLater(s, s', s.applied[m.to], log, c);
    }
  }

  // ---------------------------------------------------------------- comparing with the sender

  /** The recipient's new log has, at the commit index it takes, the term of the entry that the sender
      has itself handed out there. Both nodes have what is compared: one its log, the other what it gave
      to its own state machine. */
  ghost predicate SenderAgrees(rule: Rule, s: Sys, m: AppendMsg)
    requires m.to in s.nodes
  {
    var log, c := NewLog(rule, s, m), NewIndex(rule, s, m);
    && m.req.leader in s.applied && 1 <= c <= |log| && c <= |s.applied[m.req.leader]|
    && log[c - 1].term == s.applied[m.req.leader][c - 1].term
  }

  lemma SameCommittedTerm(nodes: Nodes, h: Hist, c: nat, t: nat, i: nat, u: nat, j: nat)
    requires HistOk(nodes, h) && Committed(nodes, h, t, i) && Committed(nodes, h, u, j) && 1 <= c <= i && c <= j
    ensures t in h.reigns && u in h.reigns && c <= |h.reigns[t].log| && c <= |h.reigns[u].log|
    ensures h.reigns[t].log[c - 1] == h.reigns[u].log[c - 1]
  {
    if i <= j {
      CommittedPrefixesAgree(nodes, h, t, i, u, j);
      assert CommittedPrefix(h, t, i)[c - 1] == CommittedPrefix(h, u, j)[c - 1];
    } else {
      CommittedPrefixesAgree(nodes, h, u, j, t, i);
      assert CommittedPrefix(h, t, i)[c - 1] == CommittedPrefix(h, u, j)[c - 1];
    }
  }

  /** A committed sequence shows which term was committed at each of its indices. */
  lemma CommittedTermIsKnown(nodes: Nodes, h: Hist, xs: Log, c: nat, x: nat)
    requires HistOk(nodes, h) && IsCommitted(nodes, h, xs) && 1 <= c <= |xs|
    ensures CommittedTermAt(nodes, h, c, x) <==> xs[c - 1].term == x
  {
    var t: nat, i: nat :| CommittedAt(nodes, h, t, i, xs);
    assert xs[c - 1] == h.reigns[t].log[c - 1];
    assert CommittedTermBy(nodes, h, c, xs[c - 1].term, t, i);
    if CommittedTermAt(nodes, h, c, x) {
      var u: nat, j: nat :| CommittedTermBy(nodes, h, c, x, u, j);
      SameCommittedTerm(nodes, h, c, t, i, u, j);
    }
  }

  lemma TermIsKnownLater(s: Sys, s': Sys, xs: Log, c: nat, x: nat)
    requires HistGrows(s.hist, s'.hist) && s'.nodes.Keys == s.nodes.Keys && HistOk(s'.nodes, s'.hist)
    requires IsCommitted(s.nodes, s.hist, xs) && 1 <= c <= |xs|
    ensures CommittedTermAt(s'.nodes, s'.hist, c, x) <==> xs[c - 1].term == x
  {
    IsCommittedGrows(s.nodes, s.hist, s'.nodes, s'.hist, xs);
    CommittedTermIsKnown(s'.nodes, s'.hist, xs, c, x);
  }

  /** A sender has handed out as many entries as its message's commit index says. */
  ghost predicate HasApplied(s: Sys, leader: Id, commit: nat) {
    leader in s.applied && commit <= |s.applied[leader]|
  }

  lemma TermIsKnownAfter(rule: Rule, s: Sys, m: AppendMsg, xs: Log, c: nat, x: nat)
    requires Inv(s) && Enabled(s, DeliverAppend(m)) && IsCommitted(s.nodes, s.hist, xs) && 1 <= c <= |xs|
    ensures var s' := AfterDeliverAppend(rule, s, m);
            CommittedTermAt(s'.nodes, s'.hist, c, x) <==> xs[c - 1].term == x
  {
    AfterDelivery(rule, s, m);
    TermIsKnownLater(s, AfterDeliverAppend(rule, s, m), xs, c, x);
  }

  lemma VouchedIffSenderAgrees(rule: Rule, s: Sys, m: AppendMsg)
    requires Inv(s) && AppliedOk(s) && Enabled(s, DeliverAppend(m)) && HandsOut(rule, s, m)
    requires HasApplied(s, m.req.leader, m.req.leaderCommit) && IsCommitted(s.nodes, s.hist, s.applied[m.req.leader])
    ensures Vouched(rule, s, m) <==> SenderAgrees(rule, s, m)
  {
    var log, c := NewLog(rule, s, m), NewIndex(rule, s, m);
    HandedOut(rule, s, m);
    TermIsKnownAfter(rule, s, m, s.applied[m.req.leader], c, log[c - 1].term);
  }

  /** A delivery is safe, under either rule, if and only if recipient and sender agree on the term at the
      commit index that the recipient takes. */
  lemma DeliverySafeIffSenderAgrees(rule: Rule, s: Sys, m: AppendMsg)
    requires Inv(s) && AppliedOk(s) && Enabled(s, DeliverAppend(m)) && HandsOut(rule, s, m)
    requires HasApplied(s, m.req.leader, m.req.leaderCommit)
    requires IsCommitted(s.nodes, s.hist, s.applied[m.to]) && IsCommitted(s.nodes, s.hist, s.applied[m.req.leader])
    ensures SafeAfter(rule, s, m) <==> SenderAgrees(rule, s, m)
  {
    DeliverySafeIffVouched(rule, s, m);
    VouchedIffSenderAgrees(rule, s, m);
  }

  // ---------------------------------------------------------------- senders hand out first

  ghost predicate ProposalApplied(s: Sys, p: Proposal) {
    HasApplied(s, p.leader, p.commit)
  }

  ghost predicate BeatApplied(s: Sys, b: Beat) {
    HasApplied(s, b.leader, b.commit)
  }

  ghost predicate MsgApplied(s: Sys, m: AppendMsg) {
    HasApplied(s, m.req.leader, m.req.leaderCommit)
  }

  /** No commit index, captured or sent, exceeds what its sender has handed out. */
  ghost predicate SentApplied(s: Sys) {
    && (forall p {:trigger ProposalApplied(s, p)} :: p in s.appending.proposals ==> ProposalApplied(s, p))
    && (forall b {:trigger BeatApplied(s, b)} :: b in s.appending.beats ==> BeatApplied(s, b))
    && (forall m {:trigger MsgApplied(s, m)} :: m in s.appending.appendMsgs ==> MsgApplied(s, m))
  }

  lemma AppliedGrows(s: Sys, s': Sys, n: Id, commit: nat)
    requires AppliedOk(s) && DeliversInOrder(s, s') && s'.applied.Keys == s.applied.Keys && HasApplied(s, n, commit)
    ensures HasApplied(s', n, commit)
  {
    assert s.applied[n] <= s'.applied[n];
  }

  lemma SentStaysApplied(s: Sys, s': Sys)
    requires SentApplied(s) && AppliedOk(s) && DeliversInOrder(s, s') && s'.applied.Keys == s.applied.Keys
    ensures forall p :: p in s.appending.proposals ==> ProposalApplied(s', p)
    ensures forall b :: b in s.appending.beats ==> BeatApplied(s', b)
    ensures forall m :: m in s.appending.appendMsgs ==> MsgApplied(s', m)
  {
    forall p | p in s.appending.proposals ensures ProposalApplied(s', p) {
      assert ProposalApplied(s, p);
      AppliedGrows(s, s', p.leader, p.commit);
    }
    forall b | b in s.appending.beats ensures BeatApplied(s', b) {
      assert BeatApplied(s, b);
      AppliedGrows(s, s', b.leader, b.commit);
    }
    forall m | m in s.appending.appendMsgs ensures MsgApplied(s', m) {
      assert MsgApplied(s, m);
      AppliedGrows(s, s', m.req.leader, m.req.leaderCommit);
    }
  }

  /** What a node reads as its commit index it has handed out. */
  lemma OwnIndexIsApplied(s: Sys, n: Id)
    requires AppliedOk(s) && n in s.nodes
    ensures HasApplied(s, n, s.nodes[n].commitIndex)
  {
    assert |s.applied[n]| == s.nodes[n].lastApplied;
  }

  lemma CaptureIsApplied(mode: Mode, s: Sys, e: Event, s': Sys)
    requires SentApplied(s) && AppliedOk(s) && Step(mode, s, e, s') && (e.Propose? || e.Heartbeat?)
    requires DeliversInOrder(s, s') && s'.applied.Keys == s.applied.Keys
    ensures SentApplied(s')
  {
    SentStaysApplied(s, s');
    OwnIndexIsApplied(s, e.n);
  }

  lemma SendIsApplied(mode: Mode, s: Sys, e: Event, s': Sys)
    requires SentApplied(s) && AppliedOk(s) && Step(mode, s, e, s') && (e.SendAppend? || e.SendBeat?)
    requires DeliversInOrder(s, s') && s'.applied.Keys == s.applied.Keys
    ensures SentApplied(s')
  {
    SentStaysApplied(s, s');
    if e.SendAppend? {
      OwnIndexIsApplied(s, e.p.leader);
      assert ProposalApplied(s, e.p);
    } else {
      OwnIndexIsApplied(s, e.beat.leader);
      assert BeatApplied(s, e.beat);
    }
  }

  lemma StepStaysApplied(mode: Mode, s: Sys, e: Event, s': Sys)
    requires SentApplied(s) && AppliedOk(s) && DeliversInOrder(s, s') && Step(mode, s, e, s')
    ensures SentApplied(s')
  {
    StepKeepsAppliers(mode, s, e, s');
    if e.Propose? || e.Heartbeat? {
      CaptureIsApplied(mode, s, e, s');
    } else if e.SendAppend? || e.SendBeat? {
      SendIsApplied(mode, s, e, s');
    } else {
      OtherStepSendsNothing(mode, s, e, s');
      SentStaysApplied(s, s');
    }
  }

  lemma {:induction false} SendersHandOutFirst(mode: Mode, states: seq<Sys>, events: seq<Event>, i: nat)
    requires Run(mode, states, events) && i < |states|
    ensures SentApplied(states[i])
  {
    if i > 0 {
      SendersHandOutFirst(mode, states, events, i - 1);
      RunDelivers(mode, states, events, i - 1);
      assert Step(mode, states[i - 1], events[i - 1], states[i]);
      StepStaysApplied(mode, states[i - 1], events[i - 1], states[i]);
    }
  }

  // ---------------------------------------------------------------- whole runs

  /** The event is a delivery that hands out entries. */
  ghost predicate Hands(rule: Rule, s: Sys, e: Event) {
    e.DeliverAppend? && e.msg.to in s.nodes && e.msg.to in s.applied && HandsOut(rule, s, e.msg)
  }

  /** Such a delivery hands out committed entries. */
  ghost predicate SafeDelivery(rule: Rule, s: Sys, e: Event) {
    Hands(rule, s, e) ==> SafeAfter(rule, s, e.msg)
  }

  /** Such a delivery passes the comparison with the sender. */
  ghost predicate Confirmed(rule: Rule, s: Sys, e: Event) {
    Hands(rule, s, e) ==> SenderAgrees(rule, s, e.msg)
  }

  lemma ConfirmedIffSafe(rule: Rule, s: Sys, e: Event)
    requires Inv(s) && AppliedOk(s) && Enabled(s, e) && Sound(s) && SentApplied(s)
    ensures Confirmed(rule, s, e) <==> SafeDelivery(rule, s, e)
  {
    if Hands(rule, s, e) {
      assert MsgApplied(s, e.msg);
      assert IsCommitted(s.nodes, s.hist, s.applied[e.msg.to]);
      assert IsCommitted(s.nodes, s.hist, s.applied[e.msg.req.leader]);
      DeliverySafeIffSenderAgrees(rule, s, e.msg);
    }
  }

  lemma QuietDeliveryIsSafe(rule: Rule, s: Sys, m: AppendMsg)
    requires Inv(s) && Enabled(s, DeliverAppend(m)) && !HandsOut(rule, s, m)
    requires IsCommitted(s.nodes, s.hist, s.applied[m.to])
    ensures SafeAfter(rule, s, m)
  {
    var s' := AfterDeliverAppend(rule, s, m);
    assert s.applied[m.to] + [] == s.applied[m.to];
    AfterDelivery(rule, s, m);
    IsCommittedGrows(s.nodes, s.hist, s'.nodes, s'.hist, s.applied[m.to]);
  }

  lemma SafeStepIsSound(mode: Mode, s: Sys, e: Event, s': Sys)
    requires Inv(s) && AppliedOk(s) && Sound(s) && Step(mode, s, e, s') && SafeDelivery(mode.rule, s, e)
    ensures Sound(s')
  {
    StepGrows(mode, s, e, s');
    if e.DeliverAppend? {
      assert IsCommitted(s.nodes, s.hist, s.applied[e.msg.to]);
      if !HandsOut(mode.rule, s, e.msg) { QuietDeliveryIsSafe(mode.rule, s, e.msg); }
    }
    SoundUnlessDelivered(mode, s, e, s');
  }

  ghost predicate AlwaysSound(states: seq<Sys>) {
    forall i {:trigger Sound(states[i])} :: 0 <= i < |states| ==> Sound(states[i])
  }

  ghost predicate AlwaysConfirmed(rule: Rule, states: seq<Sys>, events: seq<Event>)
    requires |states| == |events| + 1
  {
    forall i {:trigger Confirmed(rule, states[i], events[i])} ::
      0 <= i < |events| ==> Confirmed(rule, states[i], events[i])
  }

  /** Before the first unsafe delivery the comparison says what is safe. */
  lemma ConfirmedHere(mode: Mode, states: seq<Sys>, events: seq<Event>, i: nat)
    requires Run(mode, states, events) && i < |events| && Sound(states[i])
    ensures Confirmed(mode.rule, states[i], events[i]) <==> SafeDelivery(mode.rule, states[i], events[i])
  {
    RunDelivers(mode, states, events, i);
    SendersHandOutFirst(mode, states, events, i);
    assert Step(mode, states[i], events[i], states[i + 1]);
    ConfirmedIffSafe(mode.rule, states[i], events[i]);
  }

  lemma SoundNext(mode: Mode, states: seq<Sys>, events: seq<Event>, i: nat)
    requires Run(mode, states, events) && i < |events|
    requires Sound(states[i]) && SafeDelivery(mode.rule, states[i], events[i])
    ensures Sound(states[i + 1])
  {
    RunDelivers(mode, states, events, i);
    assert Step(mode, states[i], events[i], states[i + 1]);
    SafeStepIsSound(mode, states[i], events[i], states[i + 1]);
  }

  lemma SoundStatesAreSafe(mode: Mode, states: seq<Sys>, events: seq<Event>, i: nat)
    requires Run(mode, states, events) && i < |events| && Sound(states[i + 1])
    ensures SafeDelivery(mode.rule, states[i], events[i])
  {
    assert Step(mode, states[i], events[i], states[i + 1]);
    if Hands(mode.rule, states[i], events[i]) {
      var n := events[i].msg.to;
      assert IsCommitted(states[i + 1].nodes, states[i + 1].hist, states[i + 1].applied[n]);
    }
  }

  lemma {:induction false} ConfirmedRunIsSound(mode: Mode, states: seq<Sys>, events: seq<Event>, i: nat)
    requires Run(mode, states, events) && i < |states| && AlwaysConfirmed(mode.rule, states, events)
    ensures Sound(states[i])
  {
    if i > 0 {
      ConfirmedRunIsSound(mode, states, events, i - 1);
      assert Confirmed(mode.rule, states[i - 1], events[i - 1]);
      ConfirmedHere(mode, states, events, i - 1);
      SoundNext(mode, states, events, i - 1);
    } else {
      assert Sound(states[0]);
    }
  }

  /** In every mode, the source's and the repaired ones: a run hands out only committed entries, at all
      times and on all nodes, if and only if at every delivery that hands out entries the recipient's log
      has, at the commit index it takes, the term that the sender has handed out there. */
  lemma RunSafeIff(mode: Mode, states: seq<Sys>, events: seq<Event>)
    requires Run(mode, states, events)
    ensures AlwaysSound(states) <==> AlwaysConfirmed(mode.rule, states, events)
  {
    if AlwaysConfirmed(mode.rule, states, events) {
      forall i | 0 <= i < |states| ensures Sound(states[i]) {
        ConfirmedRunIsSound(mode, states, events, i);
      }
    }
    if AlwaysSound(states) {
      forall i | 0 <= i < |events| ensures Confirmed(mode.rule, states[i], events[i]) {
        assert Sound(states[i]) && Sound(states[i + 1]);
        SoundStatesAreSafe(mode, states, events, i);
        ConfirmedHere(mode, states, events, i);
      }
    }
  }

  /** On runs that pass the comparison, what any two nodes have handed out agrees at every index. */
  lemma ConfirmedRunAgrees(mode: Mode, states: seq<Sys>, events: seq<Event>, i: nat, j: nat, n: Id, m: Id, k: nat)
    requires Run(mode, states, events) && i <= j < |states| && AlwaysConfirmed(mode.rule, states, events)
    requires n in states[i].applied && k < |states[i].applied[n]|
    requires m in states[j].applied && k < |states[j].applied[m]|
    ensures states[i].applied[n][k] == states[j].applied[m][k]
  {
    ConfirmedRunIsSound(mode, states, events, i);
    ConfirmedRunIsSound(mode, states, events, j);
    assert IsCommitted(states[i].nodes, states[i].hist, states[i].applied[n]);
    assert IsCommitted(states[j].nodes, states[j].hist, states[j].applied[m]);
    SoundStatesAgree(mode, states, events, i, j, n, m, k);
  }
}

/** What the handlers promise their callers, field by field and over the log itself: relations between a
    request, the states before and after, and the reply. Each is met by exactly one outcome, the one that the
    functions of `RaftHandlers` compute. */
module RaftLaws {
  import opened RaftHandlers

  // ---------------------------------------------------------------- logs

  /** A log that ends at (`index`, `term`) is no earlier than `log`: a later last term, or the same with no
      fewer entries. An empty log counts as ending in term 0. */
  predicate NoEarlier(index: nat, term: nat, log: Log) {
    var last := if |log| == 0 then 0 else log[|log| - 1].term;
    term > last || (term == last && index >= |log|)
  }

  /** The log holds an entry of `term` at `index`; index 0 precedes every log. */
  predicate HoldsAt(log: Log, index: nat, term: nat) {
    index == 0 || (index <= |log| && log[index - 1].term == term)
  }

  /** Position `i` of the log survives the batch: no entry of the batch up to there has another term. */
  ghost predicate Survives(log: Log, prev: nat, entries: Log, i: nat) {
    i < |log| && forall j :: 0 <= j < |entries| && prev + j <= i ==> log[prev + j].term == entries[j].term
  }

  /** `after` is the log with the batch written after position `prev`: what survives is kept, the rest is the
      batch's, and the tail past the batch is dropped if anything was overwritten. */
  ghost predicate Written(log: Log, prev: nat, entries: Log, after: Log) {
    && prev <= |log| && prev + |entries| <= |after|
    && (forall i :: prev + |entries| <= i ==> (i < |after| <==> Survives(log, prev, entries, i)))
    && (forall i :: 0 <= i < |after| ==>
          after[i] == if i < prev || Survives(log, prev, entries, i) then log[i] else entries[i - prev])
  }

  lemma SurvivesUpTo(log: Log, prev: nat, entries: Log, i: nat)
    requires prev <= |log|
    ensures Survives(log, prev, entries, i) <==>
            i < |log| && (FirstConflict(log, prev, entries, 0) == |entries| ||
                          i < prev + FirstConflict(log, prev, entries, 0))
  {
    var k := FirstConflict(log, prev, entries, 0);
    if Survives(log, prev, entries, i) && k < |entries| {
      assert ConflictAt(log, prev, entries, k);
    }
    if i < |log| && (k == |entries| || i < prev + k) {
      forall j | 0 <= j < |entries| && prev + j <= i ensures log[prev + j].term == entries[j].term {
        assert !ConflictAt(log, prev, entries, j);
      }
    }
  }

  lemma ReconcileIsWritten(log: Log, prev: nat, entries: Log)
    requires prev <= |log|
    ensures Written(log, prev, entries, Reconcile(log, prev, entries))
  {
    var k, after := FirstConflict(log, prev, entries, 0), Reconcile(log, prev, entries);
    forall i | prev + |entries| <= i ensures i < |after| <==> Survives(log, prev, entries, i) {
      SurvivesUpTo(log, prev, entries, i);
    }
    forall i | 0 <= i < |after|
      ensures after[i] == if i < prev || Survives(log, prev, entries, i) then log[i] else entries[i - prev]
    {
      SurvivesUpTo(log, prev, entries, i);
    }
  }

  lemma WrittenIsUnique(log: Log, prev: nat, entries: Log, a: Log, b: Log)
    requires Written(log, prev, entries, a) && Written(log, prev, entries, b)
    ensures a == b
  {
    assert !Survives(log, prev, entries, |a|) && !Survives(log, prev, entries, |b|);
  }

  /** The append loop is the only way to write a batch. */
  lemma ReconcileLaw(log: Log, prev: nat, entries: Log, after: Log)
    requires prev <= |log|
    ensures Written(log, prev, entries, after) <==> after == Reconcile(log, prev, entries)
  {
    ReconcileIsWritten(log, prev, entries);
    if Written(log, prev, entries, after) {
      WrittenIsUnique(log, prev, entries, after, Reconcile(log, prev, entries));
    }
  }

  // ---------------------------------------------------------------- votes

  /** What becomes of a vote request. The vote is granted exactly if the request is not stale, the candidate's
      log is no earlier, and the node has not voted for another in that term. A later term is adopted whether
      or not the vote is granted. Nothing else changes. */
  predicate VoteDecided(s: NodeState, req: VoteRequest, s': NodeState, resp: VoteResponse) {
    var later := req.term > s.currentTerm;
    && (resp.granted <==>
          && req.term >= s.currentTerm && NoEarlier(req.lastIndex, req.lastTerm, s.log)
          && (later || s.votedFor == "" || s.votedFor == req.candidate))
    && s'.currentTerm == resp.term == (if later then req.term else s.currentTerm)
    && s'.votedFor == (if resp.granted then req.candidate else if later then "" else s.votedFor)
    && s'.role == (if later then Follower else s.role)
    && s'.leaderId == (if later then "" else s.leaderId)
    && s'.log == s.log && s'.commitIndex == s.commitIndex && s'.lastApplied == s.lastApplied
  }

  lemma VoteLaw(s: NodeState, req: VoteRequest, s': NodeState, resp: VoteResponse)
    ensures VoteDecided(s, req, s', resp) <==> (s', resp) == OnRequestVote(s, req)
  {
  }

  // ---------------------------------------------------------------- appends

  /** The commit index that a follower takes from a message it did not reject. */
  predicate CommitTaken(rule: Rule, s: NodeState, req: AppendRequest, log: Log, commit: nat) {
    match rule
    case Unchecked =>
      && (req.leaderCommit <= s.commitIndex ==> commit == s.commitIndex)
      && (req.leaderCommit > s.commitIndex ==>
            commit <= req.leaderCommit && commit <= |log| && (commit == req.leaderCommit || commit == |log|))
    case Checked =>
      var known := if HoldsAt(s.log, req.prevIndex, req.prevTerm) then req.prevIndex + |req.entries| else 0;
      && s.commitIndex <= commit && (commit > s.commitIndex ==> commit <= req.leaderCommit && commit <= known)
      && (commit >= req.leaderCommit || commit >= known)
  }

  /** A message of an earlier term is refused and changes nothing. Any other sets the term and forgets the vote
      if the term is new. If it has entries that do not follow on the log it is refused; a leader of a new term
      is followed all the same. Otherwise, and so for every heartbeat, the node follows the sender, has the
      entries written, takes the commit index and hands out what is committed. */
  ghost predicate AppendDecided(rule: Rule, s: NodeState, req: AppendRequest, s': NodeState, resp: AppendResponse) {
    if req.term < s.currentTerm then s' == s && resp == AppendResponse(s.currentTerm, false)
    else
      var later := req.term > s.currentTerm;
      && s'.currentTerm == resp.term == req.term
      && s'.votedFor == (if later then "" else s.votedFor)
      && (resp.success <==> req.entries == [] || HoldsAt(s.log, req.prevIndex, req.prevTerm))
      && s'.role == (if resp.success || later then Follower else s.role)
      && s'.leaderId == (if resp.success || later then req.leader else s.leaderId)
      && (if resp.success && req.entries != [] then Written(s.log, req.prevIndex, req.entries, s'.log)
          else s'.log == s.log)
      && (if resp.success then CommitTaken(rule, s, req, s'.log, s'.commitIndex)
          else s'.commitIndex == s.commitIndex)
      && s'.lastApplied >= s.lastApplied && (resp.success ==> s'.lastApplied >= s'.commitIndex)
      && (s'.lastApplied == s.lastApplied || (resp.success && s'.lastApplied == s'.commitIndex))
  }

  lemma AppendLaw(rule: Rule, s: NodeState, req: AppendRequest, s': NodeState, resp: AppendResponse)
    ensures AppendDecided(rule, s, req, s', resp) <==> (s', resp) == OnAppendEntries(rule, s, req)
  {
    if req.entries != [] && HoldsAt(s.log, req.prevIndex, req.prevTerm) {
      ReconcileLaw(s.log, req.prevIndex, req.entries, s'.log);
      ReconcileLaw(s.log, req.prevIndex, req.entries, OnAppendEntries(rule, s, req).0.log);
    }
  }

  /** Every heartbeat that is not stale is answered with success and leaves the node following its sender, with
      its log untouched and its vote kept unless the term is new. */
  lemma HeartbeatLaw(rule: Rule, s: NodeState, req: AppendRequest)
    requires req.term >= s.currentTerm && req.entries == []
    ensures var (s', resp) := OnAppendEntries(rule, s, req);
            && resp == AppendResponse(req.term, true)
            && s'.currentTerm == req.term && s'.role == Follower && s'.leaderId == req.leader && s'.log == s.log
            && s'.votedFor == (if req.term > s.currentTerm then "" else s.votedFor)
  {
    var (s', resp) := OnAppendEntries(rule, s, req);
    AppendLaw(rule, s, req, s', resp);
  }
}

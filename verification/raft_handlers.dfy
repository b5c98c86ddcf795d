/** The data and the lock-held regions of the coordinator's Raft node, as functions on values.
    Every region that the Go code runs under the node's mutex is one function from the old
    node state to the new one; `RaftNode` proves that the imperative code computes them and
    `RaftProtocol` uses them as the atomic steps of a cluster. */
module RaftHandlers {
  import opened Counting

  /** A node identifier; the empty string stands for "none", as in the source. */
  type Id = string

  datatype Role = Follower | Candidate | Leader

  datatype Entry = Entry(term: nat, command: string)

  type Log = seq<Entry>

  datatype NodeState = NodeState(
    currentTerm: nat,
    votedFor: Id,
    leaderId: Id,
    role: Role,
    log: Log,
    commitIndex: nat,
    lastApplied: nat
  )

  datatype VoteRequest = VoteRequest(term: nat, candidate: Id, lastIndex: nat, lastTerm: nat)

  datatype VoteResponse = VoteResponse(term: nat, granted: bool)

  datatype AppendRequest = AppendRequest(
    term: nat,
    leader: Id,
    prevIndex: nat,
    prevTerm: nat,
    entries: Log,
    leaderCommit: nat
  )

  datatype AppendResponse = AppendResponse(term: nat, success: bool)

  /** How a follower turns a leader's commit index into its own. `Unchecked` is the source: no check of
      the preceding entry on a heartbeat, and a cap at the end of the log. `Checked` advances only after
      the check and no further than the last entry known to match. */
  datatype Rule = Unchecked | Checked

  /** When a leader reads its commit index for a message. `Late` is the source: in the sending goroutine,
      without the lock. `Captured` is under the lock, together with the term. */
  datatype Capture = Late | Captured

  /** The source is `Mode(Unchecked, Late)`. State machine safety needs both repairs. */
  datatype Mode = Mode(rule: Rule, capture: Capture)

  const INITIAL := NodeState(0, "", "", Follower, [], 0, 0)

  function LastTerm(log: Log): nat {
    if |log| == 0 then 0 else log[|log| - 1].term
  }

  /** A majority of a cluster of `size` nodes, the local node included. */
  function Quorum(size: nat): nat {
    size / 2 + 1
  }

  /** Is a candidate whose last entry is (`index`, `term`) at least as up to date as `log`? */
  predicate UpToDate(index: nat, term: nat, log: Log) {
    if term != LastTerm(log) then term > LastTerm(log) else index >= |log|
  }

  predicate MatchPrev(log: Log, prevIndex: nat, prevTerm: nat) {
    prevIndex == 0 || (prevIndex <= |log| && log[prevIndex - 1].term == prevTerm)
  }

  function StepDown(s: NodeState, term: nat, leader: Id): NodeState {
    s.(currentTerm := Max(s.currentTerm, term), votedFor := "", role := Follower, leaderId := leader)
  }

  function Adopt(s: NodeState, term: nat, leader: Id): NodeState {
    if term > s.currentTerm then StepDown(s, term, leader) else s
  }

  // ---------------------------------------------------------------- log reconciliation

  /** The batch `entries`, placed after position `prev`, disagrees with the log at its k-th entry. */
  predicate ConflictAt(log: Log, prev: nat, entries: Log, k: nat) {
    k < |entries| && prev + k < |log| && log[prev + k].term != entries[k].term
  }

  /** The first disagreement at or after the `from`-th entry of the batch, or the batch's length. */
  function FirstConflict(log: Log, prev: nat, entries: Log, from: nat): (k: nat)
    requires from <= |entries|
    ensures from <= k <= |entries|
    ensures k < |entries| ==> ConflictAt(log, prev, entries, k)
    ensures forall j :: from <= j < k ==> !ConflictAt(log, prev, entries, j)
    decreases |entries| - from
  {
    if from == |entries| || ConflictAt(log, prev, entries, from) then from
    else FirstConflict(log, prev, entries, from + 1)
  }

  /** What a follower's log must become: untouched where it agrees with the batch, extended when
      the batch reaches further, and cut at the first disagreement otherwise. */
  function Reconcile(log: Log, prev: nat, entries: Log): Log
    requires prev <= |log|
  {
    var k := FirstConflict(log, prev, entries, 0);
    if k < |entries| then log[..prev + k] + entries[k..]
    else if prev + |entries| <= |log| then log
    else log + entries[|log| - prev..]
  }

  /** One turn of the source's loop. */
  function ReconcileOne(log: Log, index: nat, entry: Entry): Log
    requires index <= |log|
  {
    if index < |log| then
      if log[index].term != entry.term then log[..index] + [entry] else log
    else log + [entry]
  }

  /** Handling one more entry after a batch is handling the longer batch. */
  lemma ReconcileSnoc(log: Log, prev: nat, entries: Log, entry: Entry)
    requires prev <= |log|
    ensures prev + |entries| <= |Reconcile(log, prev, entries)|
    ensures Reconcile(log, prev, entries + [entry])
         == ReconcileOne(Reconcile(log, prev, entries), prev + |entries|, entry)
  {
    var all := entries + [entry];
    var k, k' := FirstConflict(log, prev, entries, 0), FirstConflict(log, prev, all, 0);
    assert forall j :: 0 <= j < |entries| ==> ConflictAt(log, prev, all, j) == ConflictAt(log, prev, entries, j);
    if k < |entries| {
      assert ConflictAt(log, prev, all, k);
      assert k' == k;
      assert all[k..] == entries[k..] + [entry];
    } else {
      assert k' >= |entries|;
      assert prev + |entries| < |log| ==>
               (ConflictAt(log, prev, all, |entries|) <==> log[prev + |entries|].term != entry.term);
      if prev + |entries| >= |log| {
        assert all[|log| - prev..] == entries[|log| - prev..] + [entry];
      } else if k' == |entries| {
        assert all[k'..] == [entry];
      }
    }
  }

  lemma ReconcileSingle(log: Log, prev: nat, entry: Entry)
    requires prev <= |log|
    ensures Reconcile(log, prev, [entry]) == ReconcileOne(log, prev, entry)
  {
    ReconcileSnoc(log, prev, [], entry);
    assert [] + [entry] == [entry];
  }

  /** Redelivering the batch just handled changes nothing. */
  lemma ReconcileIdempotent(log: Log, prev: nat, entries: Log)
    requires prev <= |log|
    ensures prev <= |Reconcile(log, prev, entries)|
    ensures Reconcile(Reconcile(log, prev, entries), prev, entries) == Reconcile(log, prev, entries)
  {
    var k := FirstConflict(log, prev, entries, 0);
    var once := Reconcile(log, prev, entries);
    forall j | 0 <= j < |entries|
      ensures !ConflictAt(once, prev, entries, j)
    {
      if j < k { assert !ConflictAt(log, prev, entries, j); }
    }
    var k' := FirstConflict(once, prev, entries, 0);
    assert k' == |entries|;
  }

  /** Redelivering any batch of a leader's log, however old, never shortens a follower log that is
      a prefix of that leader's log; it is extended exactly when the batch reaches further. */
  lemma ReconcileKeepsMatchingLog(leader: Log, size: nat, prev: nat, upto: nat)
    requires size <= |leader| && prev <= upto <= |leader| && prev <= size
    ensures Reconcile(leader[..size], prev, leader[prev..upto]) == leader[..Max(size, upto)]
  {
    var log, entries := leader[..size], leader[prev..upto];
    forall j | 0 <= j < |entries|
      ensures !ConflictAt(log, prev, entries, j)
    {
    }
    var k := FirstConflict(log, prev, entries, 0);
    assert k == |entries|;
    if upto > size {
      assert entries[|log| - prev..] == leader[size..upto];
    }
  }

  // ---------------------------------------------------------------- RPC handlers

  function OnRequestVote(s: NodeState, req: VoteRequest): (NodeState, VoteResponse) {
    if req.term < s.currentTerm then (s, VoteResponse(s.currentTerm, false))
    else
      var s1 := Adopt(s, req.term, "");
      if !UpToDate(req.lastIndex, req.lastTerm, s1.log) then (s1, VoteResponse(s1.currentTerm, false))
      else if s1.votedFor == "" || s1.votedFor == req.candidate then
        (s1.(votedFor := req.candidate), VoteResponse(s1.currentTerm, true))
      else (s1, VoteResponse(s1.currentTerm, false))
  }

  /** The commit index after a message that was not rejected; `s` already holds the new entries. */
  function NewCommit(rule: Rule, s: NodeState, req: AppendRequest, matched: bool): nat {
    match rule
    case Unchecked =>
      if req.leaderCommit > s.commitIndex then Min(req.leaderCommit, |s.log|) else s.commitIndex
    case Checked =>
      if matched then Max(s.commitIndex, Min(req.leaderCommit, req.prevIndex + |req.entries|))
      else s.commitIndex
  }

  function OnAppendEntries(rule: Rule, s: NodeState, req: AppendRequest): (NodeState, AppendResponse) {
    if req.term < s.currentTerm then (s, AppendResponse(s.currentTerm, false))
    else
      var s1 := Adopt(s, req.term, req.leader);
      var matched := MatchPrev(s1.log, req.prevIndex, req.prevTerm);
      if req.entries != [] && !matched then (s1, AppendResponse(s1.currentTerm, false))
      else
        var s2 := if req.entries == [] then s1 else s1.(log := Reconcile(s1.log, req.prevIndex, req.entries));
        var commit := NewCommit(rule, s2, req, matched);
        (s2.(commitIndex := commit, lastApplied := Max(s2.lastApplied, commit),
             role := Follower, leaderId := req.leader),
         AppendResponse(s2.currentTerm, true))
  }

  // ---------------------------------------------------------------- elections and proposals

  function OnTimeout(s: NodeState, self: Id): NodeState {
    s.(role := Candidate, currentTerm := s.currentTerm + 1, votedFor := self, leaderId := "")
  }

  function OnBecomeLeader(s: NodeState, self: Id): NodeState {
    if s.role != Candidate || s.leaderId == self then s else s.(role := Leader, leaderId := self)
  }

  function OnPropose(s: NodeState, command: string): NodeState {
    if s.role != Leader then s else s.(log := s.log + [Entry(s.currentTerm, command)])
  }

  /** Would the commit of a proposal at `index` read past the end of the log (a Go panic)? */
  predicate CommitInBounds(s: NodeState, index: nat) {
    s.commitIndex < index && s.lastApplied < index ==> index <= |s.log|
  }

  function OnCommit(s: NodeState, index: nat): NodeState {
    if s.commitIndex < index then s.(commitIndex := index, lastApplied := Max(s.lastApplied, index)) else s
  }

  /** The entries handed to the apply callback by a step from `s` to `t`. */
  function Delivered(s: NodeState, t: NodeState): Log {
    if s.lastApplied < t.lastApplied <= |t.log| then t.log[s.lastApplied..t.lastApplied] else []
  }
}

/** The Raft node as the source has it: an object whose methods update its fields while they hold
    the node's mutex. Each method states its outcome field by field, and is proved to compute the function
    of `RaftHandlers` that the protocol proofs use, for every request, well-formed or not. */
module RaftNode {
  import opened Counting
  import opened RaftHandlers
  import opened RaftLaws

  class Node {
    const id: Id
    const peers: seq<Id>
    var currentTerm: nat
    var votedFor: Id
    var leaderId: Id
    var role: Role
    var log: Log
    var commitIndex: nat
    var lastApplied: nat

    /** Everything committed has been handed out. This is what keeps the apply loop in bounds even
        after a truncation has left `commitIndex` beyond the end of the log. */
    ghost predicate Valid()
      reads this
    {
      commitIndex <= lastApplied
    }

    ghost function View(): (s: NodeState)
      reads this
    {
      NodeState(currentTerm, votedFor, leaderId, role, log, commitIndex, lastApplied)
    }

    constructor (id: Id, peers: seq<Id>)
      ensures this.id == id && this.peers == peers
      ensures Valid() && View() == INITIAL
    {
      this.id, this.peers := id, peers;
      currentTerm, votedFor, leaderId, role, log, commitIndex, lastApplied := 0, "", "", Follower, [], 0, 0;
    }

    /** A majority of this node and its peers: any two quorums of the same cluster overlap. */
    method QuorumSize() returns (needed: nat)
      ensures needed == Quorum(|peers| + 1)
      ensures 2 * needed > |peers| + 1 && 2 * (needed - 1) <= |peers| + 1
    {
      needed := (|peers| + 1) / 2 + 1;
    }

    method StepDownLocked(term: nat, leader: Id)
      modifies this
      ensures View() == StepDown(old(View()), term, leader)
      ensures currentTerm == Max(term, old(currentTerm))
      ensures role == Follower && votedFor == "" && leaderId == leader
      ensures log == old(log) && commitIndex == old(commitIndex) && lastApplied == old(lastApplied)
    {
      if term > currentTerm {
        currentTerm := term;
      }
      votedFor := "";
      role := Follower;
      leaderId := leader;
    }

    method LastLogTerm() returns (term: nat)
      ensures term == LastTerm(log)
    {
      if |log| == 0 {
        return 0;
      }
      term := log[|log| - 1].term;
    }

    method IsLogUpToDate(candidateIndex: nat, candidateTerm: nat) returns (ok: bool)
      ensures ok == UpToDate(candidateIndex, candidateTerm, log) == NoEarlier(candidateIndex, candidateTerm, log)
    {
      var localTerm := LastLogTerm();
      if candidateTerm != localTerm {
        return candidateTerm > localTerm;
      }
      ok := candidateIndex >= |log|;
    }

    method MatchPrevLog(prevIndex: nat, prevTerm: nat) returns (ok: bool)
      ensures ok == MatchPrev(log, prevIndex, prevTerm) == HoldsAt(log, prevIndex, prevTerm)
    {
      if prevIndex == 0 {
        return true;
      }
      if prevIndex > |log| {
        return false;
      }
      ok := log[prevIndex - 1].term == prevTerm;
    }

    /** The truncate-and-append loop computes the first-conflict rule, and so writes the batch. */
    method AppendToLog(prevIndex: nat, entries: Log)
      requires prevIndex <= |log|
      modifies this`log
      ensures log == Reconcile(old(log), prevIndex, entries) && Written(old(log), prevIndex, entries, log)
    {
      ghost var before := log;
      for i := 0 to |entries|
        invariant prevIndex + i <= |log|
        invariant log == Reconcile(before, prevIndex, entries[..i])
      {
        ReconcileSnoc(before, prevIndex, entries[..i], entries[i]);
        assert entries[..i + 1] == entries[..i] + [entries[i]];
        var index := prevIndex + i;
        if index < |log| {
          if log[index].term != entries[i].term {
            log := log[..index];
            log := log + [entries[i]];
          }
        } else {
          log := log + [entries[i]];
        }
      }
      assert entries[..|entries|] == entries;
      ReconcileIsWritten(before, prevIndex, entries);
    }

    /** Hands out the entries between `lastApplied` and `commitIndex`, each index once, in order. */
    method CollectCommittedLocked() returns (batch: Log)
      requires commitIndex <= lastApplied || commitIndex <= |log|
      modifies this`lastApplied
      ensures Valid()
      ensures lastApplied == Max(old(lastApplied), commitIndex)
      ensures batch == if old(lastApplied) < commitIndex then log[old(lastApplied)..commitIndex] else []
    {
      batch := [];
      if lastApplied >= commitIndex {
        return;
      }
      ghost var first := lastApplied;
      while lastApplied < commitIndex
        invariant first <= lastApplied <= commitIndex <= |log|
        invariant batch == log[first..lastApplied]
      {
        batch := batch + [log[lastApplied]];
        lastApplied := lastApplied + 1;
      }
    }

    /** The follower's commit rule, followed by the apply loop: in bounds whatever the request says. */
    method AdvanceCommitLocked(leaderCommit: nat) returns (batch: Log)
      requires Valid()
      modifies this`commitIndex, this`lastApplied
      ensures Valid()
      ensures commitIndex == if leaderCommit > old(commitIndex) then Min(leaderCommit, |log|) else old(commitIndex)
      ensures lastApplied == Max(old(lastApplied), commitIndex)
      ensures batch == if old(lastApplied) < lastApplied <= |log| then log[old(lastApplied)..lastApplied] else []
      ensures |batch| == lastApplied - old(lastApplied)
    {
      if leaderCommit > commitIndex {
        var lastIndex := |log|;
        if leaderCommit < lastIndex {
          commitIndex := leaderCommit;
        } else {
          commitIndex := lastIndex;
        }
      }
      batch := CollectCommittedLocked();
    }

    method HandleRequestVote(req: VoteRequest) returns (resp: VoteResponse)
      modifies this
      ensures (View(), resp) == OnRequestVote(old(View()), req) && VoteDecided(old(View()), req, View(), resp)
      ensures old(Valid()) ==> Valid()
    {
      if req.term < currentTerm {
        return VoteResponse(currentTerm, false);
      }
      if req.term > currentTerm {
        StepDownLocked(req.term, "");
      }
      var ok := IsLogUpToDate(req.lastIndex, req.lastTerm);
      if !ok {
        return VoteResponse(currentTerm, false);
      }
      var grant := votedFor == "" || votedFor == req.candidate;
      if grant {
        votedFor := req.candidate;
      }
      resp := VoteResponse(currentTerm, grant);
    }

    /** The rest of the handler, for a request of the node's term that is not rejected. */
    method TakeAppendLocked(req: AppendRequest) returns (batch: Log)
      requires Valid() && req.term == currentTerm && (req.entries == [] || MatchPrev(log, req.prevIndex, req.prevTerm))
      modifies this
      ensures Valid()
      ensures (View(), AppendResponse(currentTerm, true)) == OnAppendEntries(Unchecked, old(View()), req)
      ensures batch == Delivered(old(View()), View())
      ensures |batch| == lastApplied - old(lastApplied)
    {
      if |req.entries| > 0 {
        AppendToLog(req.prevIndex, req.entries);
      }
      batch := AdvanceCommitLocked(req.leaderCommit);
      role := Follower;
      leaderId := req.leader;
    }

    /** Stays within the log's bounds for arbitrary requests, and hands out exactly the entries of
        the new log between the old and the new `lastApplied`. */
    method HandleAppendEntries(req: AppendRequest) returns (resp: AppendResponse, batch: Log)
      requires Valid()
      modifies this
      ensures Valid()
      ensures (View(), resp) == OnAppendEntries(Unchecked, old(View()), req)
      ensures AppendDecided(Unchecked, old(View()), req, View(), resp)
      ensures batch == Delivered(old(View()), View())
      ensures |batch| == lastApplied - old(lastApplied)
    {
      ghost var outcome := OnAppendEntries(Unchecked, View(), req);
      AppendLaw(Unchecked, View(), req, outcome.0, outcome.1);
      batch := [];
      if req.term < currentTerm {
        return AppendResponse(currentTerm, false), [];
      }
      if req.term > currentTerm {
        StepDownLocked(req.term, req.leader);
      }
      var matched := MatchPrevLog(req.prevIndex, req.prevTerm);
      if |req.entries| > 0 && !matched {
        return AppendResponse(currentTerm, false), [];
      }
      batch := TakeAppendLocked(req);
      resp := AppendResponse(currentTerm, true);
    }

    /** The locked region that opens an election. */
    method StartElectionLocked() returns (term: nat)
      modifies this
      ensures View() == OnTimeout(old(View()), id)
      ensures role == Candidate && term == currentTerm == old(currentTerm) + 1 && votedFor == id && leaderId == ""
      ensures log == old(log) && commitIndex == old(commitIndex) && lastApplied == old(lastApplied)
      ensures old(Valid()) ==> Valid()
    {
      role := Candidate;
      currentTerm := currentTerm + 1;
      term := currentTerm;
      votedFor := id;
      leaderId := "";
    }

    method BecomeLeaderLocked()
      modifies this
      ensures View() == OnBecomeLeader(old(View()), id)
      ensures old(role == Candidate && leaderId != id) ==>
                role == Leader && leaderId == id && View() == old(View()).(role := Leader, leaderId := id)
      ensures old(role != Candidate || leaderId == id) ==> View() == old(View())
      ensures old(Valid()) ==> Valid()
    {
      if role != Candidate {
        return;
      }
      if leaderId == id {
        return;
      }
      role := Leader;
      leaderId := id;
    }

    /** The locked region that opens a proposal: on a leader it appends the command and reports the
        entry's index together with the index and term that precede it; elsewhere it refuses. */
    method ProposeLocked(command: string) returns (ok: bool, prevIndex: nat, prevTerm: nat, newIndex: nat)
      modifies this
      ensures View() == OnPropose(old(View()), command)
      ensures ok == old(role == Leader)
      ensures View() == if ok then old(View()).(log := old(log) + [Entry(currentTerm, command)]) else old(View())
      ensures ok ==> newIndex == |log| == prevIndex + 1 && log[newIndex - 1] == Entry(currentTerm, command)
      ensures ok ==> prevIndex == |old(log)| && prevTerm == LastTerm(old(log)) && MatchPrev(log, prevIndex, prevTerm)
      ensures old(Valid()) ==> Valid()
    {
      prevIndex, prevTerm, newIndex := 0, 0, 0;
      if role != Leader {
        return false, 0, 0, 0;
      }
      prevIndex := |log|;
      prevTerm := LastLogTerm();
      log := log + [Entry(currentTerm, command)];
      newIndex := |log|;
      ok := true;
    }

    /** The locked region that closes a proposal. That its precondition holds whenever the source
        gets here is `RaftTheorems.ProposalCommitsItsEntry`. */
    method CommitLocked(newIndex: nat) returns (batch: Log)
      requires Valid() && CommitInBounds(View(), newIndex)
      modifies this
      ensures Valid()
      ensures View() == OnCommit(old(View()), newIndex)
      ensures commitIndex == Max(old(commitIndex), newIndex) && lastApplied == Max(old(lastApplied), commitIndex)
      ensures View() == old(View()).(commitIndex := commitIndex, lastApplied := lastApplied)
      ensures batch == Delivered(old(View()), View())
      ensures |batch| == lastApplied - old(lastApplied)
    {
      batch := [];
      if commitIndex < newIndex {
        commitIndex := newIndex;
        batch := CollectCommittedLocked();
      }
    }
  }
}

/** Leader completeness (sections 5.4.1 and 5.4.3 of the Raft paper), for any state that satisfies
    the history invariant. */
module RaftCompleteness {
  import opened RaftHandlers
  import opened RaftHistory

  /** Every node of `q`, a quorum, accepted entry `index` of the leader of `term` in that term. */
  ghost predicate AcceptedBy(nodes: Nodes, h: Hist, q: set<Id>, term: nat, index: nat) {
    && q <= nodes.Keys
    && |q| >= Quorum(|nodes.Keys|)
    && (forall n :: n in q ==> Accept(n, term, index) in h.accepts)
  }

  ghost predicate Committed(nodes: Nodes, h: Hist, term: nat, index: nat) {
    exists q :: AcceptedBy(nodes, h, q, term, index)
  }

  lemma CommittedEntryExists(nodes: Nodes, h: Hist, term: nat, index: nat)
    requires HistOk(nodes, h) && Committed(nodes, h, term, index)
    ensures term in h.reigns && 1 <= index <= |h.reigns[term].log|
    ensures h.reigns[term].log[index - 1].term == term
  {
    var q :| AcceptedBy(nodes, h, q, term, index);
    var n := QuorumsIntersect(nodes.Keys, q, q);
    assert AcceptOk(nodes, h, Accept(n, term, index));
  }

  /** A log that is at least as up to date as `voter`, and backed by leaders that all hold
      `prefix`, holds `prefix` too. */
  lemma UpToDateLogHolds(reigns: Reigns, start: Log, voter: Log, term: nat, index: nat)
    requires Backed(reigns, start) && Backed(reigns, voter) && Sorted(voter)
    requires forall t :: t in reigns ==> ReignLogOk(reigns, t)
    requires term in reigns && 1 <= index <= |reigns[term].log|
    requires reigns[term].log[index - 1].term == term
    requires reigns[term].log[..index] <= voter
    requires UpToDate(|start|, LastTerm(start), voter)
    requires forall t :: t in reigns && term < t <= LastTerm(start) ==> reigns[term].log[..index] <= reigns[t].start
    ensures reigns[term].log[..index] <= start
  {
    var prefix := reigns[term].log[..index];
    assert voter[index - 1] == prefix[index - 1];
    assert LastTerm(voter) >= term;
    assert |start| > 0;
    var last := LastTerm(start);
    var leader := reigns[last].log;
    assert start[..|start|] == start && start <= leader;
    if last == LastTerm(voter) {
      assert voter[..|voter|] == voter && voter <= leader;
      assert voter == leader[..|voter|] && start == leader[..|start|];
    } else {
      assert ReignLogOk(reigns, last);
      assert prefix <= reigns[last].start <= leader;
      assert |start| > |reigns[last].start|;
      assert prefix == leader[..index] && start == leader[..|start|];
    }
  }

  /** Leader completeness: an entry accepted by a quorum in the term that created it is in the log
      of every leader of every later term, from the moment of its election. */
  lemma {:induction false} LeaderComplete(nodes: Nodes, h: Hist, term: nat, index: nat, later: nat)
    requires HistOk(nodes, h) && Committed(nodes, h, term, index)
    requires later in h.reigns && term < later
    ensures term in h.reigns && 1 <= index <= |h.reigns[term].log|
    ensures h.reigns[term].log[..index] <= h.reigns[later].start
    decreases later
  {
    CommittedEntryExists(nodes, h, term, index);
    var q :| AcceptedBy(nodes, h, q, term, index);
    var r := h.reigns[later];
    assert ReignOk(nodes, h, later) && BallotsKeep(h, later);
    var n := QuorumsIntersect(nodes.Keys, q, r.ballots.Keys);
    var a := Accept(n, term, index);
    assert a in h.accepts;
    assert Kept(h.reigns, a, r.ballots[n], later);
    forall t | t in h.reigns && term < t < later
      ensures AcceptedPrefix(h.reigns, a) <= h.reigns[t].start
      ensures !Differ(AcceptedPrefix(h.reigns, a), h.reigns[t].log)
    {
      LeaderComplete(nodes, h, term, index, t);
      assert ReignOk(nodes, h, t);
    }
    WinnerHoldsWhatItsVoterHolds(nodes, h, term, index, later, n);
  }

  lemma WinnerHoldsWhatItsVoterHolds(nodes: Nodes, h: Hist, term: nat, index: nat, later: nat, n: Id)
    requires HistOk(nodes, h)
    requires term in h.reigns && 1 <= index <= |h.reigns[term].log| && h.reigns[term].log[index - 1].term == term
    requires later in h.reigns && n in h.reigns[later].ballots
    requires h.reigns[term].log[..index] <= h.reigns[later].ballots[n]
    requires forall t :: t in h.reigns && term < t < later ==> h.reigns[term].log[..index] <= h.reigns[t].start
    ensures h.reigns[term].log[..index] <= h.reigns[later].start
  {
    var r := h.reigns[later];
    assert ReignOk(nodes, h, later);
    assert GrantOk(nodes, h, Grant(n, later, r.leader, r.ballots[n]));
    ReignLogsOk(nodes, h);
    BackedIsSorted(h.reigns, r.ballots[n]);
    BackedPrefix(h.reigns, r.log, |r.start|);
    UpToDateLogHolds(h.reigns, r.start, r.ballots[n], term, index);
  }

  lemma ReignLogsOk(nodes: Nodes, h: Hist)
    requires HistOk(nodes, h)
    ensures forall t :: t in h.reigns ==> ReignLogOk(h.reigns, t)
  {
    forall t | t in h.reigns ensures ReignLogOk(h.reigns, t) {
      assert ReignOk(nodes, h, t);
    }
  }

  /** A node that accepted a committed entry never loses it: its log still starts with the leader's
      log up to that entry. */
  lemma AcceptorKeeps(nodes: Nodes, h: Hist, term: nat, index: nat, n: Id)
    requires HistOk(nodes, h) && Committed(nodes, h, term, index)
    requires Accept(n, term, index) in h.accepts
    ensures n in nodes && term in h.reigns && 1 <= index <= |h.reigns[term].log|
    ensures h.reigns[term].log[..index] <= nodes[n].log
  {
    var a := Accept(n, term, index);
    assert AcceptOk(nodes, h, a);
    forall t | t in h.reigns && term < t
      ensures !Differ(AcceptedPrefix(h.reigns, a), h.reigns[t].log)
    {
      LeaderComplete(nodes, h, term, index, t);
      assert ReignOk(nodes, h, t);
    }
  }

  /** The log of a leader up to a committed entry. */
  ghost function CommittedPrefix(h: Hist, term: nat, index: nat): (log: Log)
    requires term in h.reigns && index <= |h.reigns[term].log|
  {
    h.reigns[term].log[..index]
  }

  /** Any two committed prefixes agree: one extends the other. */
  lemma CommittedPrefixesAgree(nodes: Nodes, h: Hist, t: nat, i: nat, u: nat, j: nat)
    requires HistOk(nodes, h) && Committed(nodes, h, t, i) && Committed(nodes, h, u, j)
    requires i <= j
    ensures t in h.reigns && i <= |h.reigns[t].log| && u in h.reigns && j <= |h.reigns[u].log|
    ensures CommittedPrefix(h, t, i) <= CommittedPrefix(h, u, j)
  {
    CommittedEntryExists(nodes, h, t, i);
    CommittedEntryExists(nodes, h, u, j);
    ReignLogsOk(nodes, h);
    if t < u {
      LeaderComplete(nodes, h, t, i, u);
    } else if u < t {
      LeaderComplete(nodes, h, u, j, t);
    }
  }
}

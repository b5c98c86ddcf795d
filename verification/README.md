# A verified model of edgesim-p2p

This project models, in Dafny, the three protocols at the core of the edge sensor simulator, and proves
what they guarantee: the Raft coordinator cluster (`pkg/raft`), the Kademlia distributed hash table
(`pkg/dht`), and the epidemic broadcast (`pkg/gossip` and the gossip handlers of `cmd/node`).
`dafny verify dfyconfig.toml` checks all of it.

**Raft.** `RaftHandlers` gives every region that a node runs under its mutex as a function on values, and
`RaftLaws` what the two request handlers promise, as relations over the fields and the log that exactly one
outcome meets. `RaftNode.Node` is the node as the source has it, fields updated in place and loops over the log,
each method proved to keep those promises and to compute one of those functions. `RaftProtocol` is the cluster
as a state machine whose steps are those regions, the sends of the goroutines (the two unsynchronised reads of a
vote request as separate steps; a late heartbeat makes its reads in one) and the counting of replies; messages
are lost, delayed, reordered and duplicated at will, and a node may stop for good. `RaftHistory` records
elections won, votes and acceptances; `RaftPreservation`, `RaftInvariant` and `RaftSteps` prove an invariant of
all steps; `RaftCompleteness` derives leader completeness from it, and `RaftTheorems`, `RaftProgress`,
`RaftCommit` and `RaftDelivery` state the results over whole runs of any length.

State machine safety is *false* of the source, for two independent reasons. A heartbeat carries no entries, so
the check of the preceding entry is skipped, and a follower caps the leader's commit index at the end of its
own log instead of the last entry known to match (the follower's rule, `Rule`). And the sending goroutine
reads the commit index without the lock, so a deposed leader may send one from a later term (the capture,
`Capture`). `RaftCommit.StateMachineSafety` proves safety on every run under both repairs, and
`RaftCommit.PromptRunAgrees` that the late read is harmless as long as senders are still in the term that they
put into the message. `RaftWitness.UncheckedIsUnsafe` and `RaftWitness.LateReadIsUnsafe` are runs of three and
five nodes that show neither repair to suffice alone. `RaftDelivery.RunSafeIff` says exactly which runs are safe,
in the source's mode and in every other: a run hands out only committed entries if and only if at every delivery
that hands out entries the recipient's new log has, at its new commit index, the term of the entry that the
sender has itself handed to its state machine there. The other Raft theorems hold in every mode.

**DHT.** Identifiers are 20 bytes, distances are the integers their exclusive or denotes. `DhtBuckets` proves
the bucket arithmetic, `DhtTable` and `DhtRouting` the LRU buckets and the routing table, `DhtOrder` that the
sorted order is unique, whatever the sort and the map iteration do with equal elements. `DhtLookup` has the
iterative lookup as loops, proved to compute one function of their inputs; `DhtSearch` proves what that
function returns for arbitrary answers and `DhtFindNode` gives the lookup with these promises. For complete
static networks `DhtNetwork` proves that the lookup converges on the nearest live node, `DhtNearest` that it
returns exactly the k nearest when it runs out of peers to ask, and `DhtStore` where a stored value ends up and
that it is found; `DhtJoin` proves how tables become complete.

**Gossip.** `GossipPropagation` has the simulator, with random choice as nondeterministic choice; `GossipNode` a
node's gossip state and handlers; `GossipFlood` the flood of any number of messages over a lossy network as a
state machine, with the readings that nodes take themselves; `GossipTheorems` its bounds and its coverage,
`GossipReadings` that readings get where their message does; `GossipCoverage` the exact TTLs with which a flood
among N nodes is sure to reach every node near enough.

Where documentation and code disagree the model follows the code. The package comment of `pkg/raft/doc.go`
says that log replication is omitted; the code has it. `docs/design.md:990` calls the TTL the maximum number of
hops; the code delivers up to TTL + 1 hops from the origin. The comment on `bucketIndex` speaks of the highest
differing bit; the numbering is by byte first, so bucket numbers do not grow with distance
(`DhtBuckets.Exponent` is the exact relation).

Assumptions taken from how the source is wired: a node's peers are the other members of the cluster, each
once, with non-empty identifiers (`cmd/coordinator/main.go:395-404`); a Raft node that crashes does not come
back, since term, vote and log are in memory only; a sensor node's own readings carry its own identifier
(`cmd/node/main.go:28-31`, `cmd/node/main.go:73`). Terms, indices and counters are unbounded integers. Parsing,
hashing of keys, RPC answers and random choices are parameters or nondeterministic.

## Model

| member | source | states |
|---|---|---|
| `RaftHandlers.FirstConflict` | pkg/raft/node.go:506-513 | The first entry of a batch whose term disagrees with the log; none before it does. |
| `RaftHandlers.ReconcileSnoc` | pkg/raft/node.go:505-517 | One more turn of the append loop turns the first-conflict result for a batch into that for the longer batch. |
| `RaftHandlers.ReconcileIdempotent` | pkg/raft/node.go:505-517 | Redelivering the batch just handled changes nothing, for every log and batch. |
| `RaftHandlers.ReconcileKeepsMatchingLog` | pkg/raft/node.go:505-517 | Redelivering any part of a leader's log, however old, never shortens a follower log that matches it, and extends it exactly as far as the batch reaches. |
| `RaftLaws.ReconcileLaw` | pkg/raft/node.go:505-517 | The append loop gives the one log in which each position is kept unless an entry of the batch up to there has another term, is the batch's otherwise, and ends with the batch if anything was overwritten. |
| `RaftLaws.VoteLaw` | pkg/raft/node.go:124-150 | The handler's outcome is the only one in which the vote is granted exactly to a request that is not stale, from a candidate whose last term, or for equal terms length, is no less, if no other has the vote of that term; later terms are adopted either way and nothing else changes. |
| `RaftLaws.AppendLaw` | pkg/raft/node.go:153-197 | The handler's outcome is the only one in which stale messages change nothing, entries that do not follow on the log are refused, and everything else, every heartbeat included, is answered with success, has its entries written and its commit index taken, and makes the node a follower of the sender. |
| `RaftLaws.HeartbeatLaw` | pkg/raft/node.go:188-193 | A heartbeat that is not stale succeeds: the node follows its sender in its term, with its log untouched and its vote kept unless the term is new. |
| `RaftNode.Node.constructor` | pkg/raft/node.go:87-99 | A new node is a follower in term 0 with an empty log. |
| `RaftNode.Node.QuorumSize` | pkg/raft/node.go:541-543 | The quorum is the least strict majority of the node and its peers. |
| `RaftNode.Node.StepDownLocked` | pkg/raft/node.go:467-474 | Term never lowered, vote forgotten, follower of the given leader; log and counters kept. |
| `RaftNode.Node.IsLogUpToDate` | pkg/raft/node.go:487-493 | True exactly for a later last term, or the same with no fewer entries; an empty log ends in term 0. |
| `RaftNode.Node.MatchPrevLog` | pkg/raft/node.go:495-503 | Accepts index 0, rejects an index past the log, otherwise compares terms. |
| `RaftNode.Node.AppendToLog` | pkg/raft/node.go:505-517 | The truncate-and-append loop computes the first-conflict rule and writes the batch: kept where terms agree, extended where the batch is longer, cut at the first conflict. |
| `RaftNode.Node.CollectCommittedLocked` | pkg/raft/node.go:519-530 | Hands out exactly the entries from `lastApplied` to `commitIndex`, in order, and leaves nothing committed unapplied. |
| `RaftNode.Node.AdvanceCommitLocked` | pkg/raft/node.go:176-186 | The commit rule followed by the apply loop stays inside the log for any leader commit index, also after a truncation below `commitIndex`. |
| `RaftNode.Node.HandleRequestVote` | pkg/raft/node.go:124-150 | Decides every request as `RaftLaws.VoteDecided` promises, granted or refused, and is the vote step of the protocol. |
| `RaftNode.Node.HandleAppendEntries` | pkg/raft/node.go:153-197 | Decides every request, heartbeats included, as `RaftLaws.AppendDecided` promises, is the append step of the protocol, never indexes past the log, and hands out as many entries as `lastApplied` moves. |
| `RaftNode.Node.StartElectionLocked` | pkg/raft/node.go:255-262 | Opens an election: new term, candidate, vote for itself. |
| `RaftNode.Node.BecomeLeaderLocked` | pkg/raft/node.go:328-342 | A candidate that does not yet lead becomes leader; anyone else is unchanged. |
| `RaftNode.Node.ProposeLocked` | pkg/raft/node.go:353-364 | A leader appends the command with its term and reports the index and term before it, which match its own log; others refuse and do not change. |
| `RaftNode.Node.CommitLocked` | pkg/raft/node.go:411-418 | Advances to the proposal's index and hands out the entries up to it. |
| `RaftHistory.QuorumsIntersect` | pkg/raft/node.go:541-543 | Any two quorums of a cluster, of odd or even size, share a node. |
| `RaftHistory.OneWinnerPerTerm` | pkg/raft/node.go:317-321 | A candidate with a quorum of votes in a term that has a leader is that leader. |
| `RaftHistory.BackedLogsMatch` | pkg/raft/node.go:166-174 | Logs that come from leaders' logs and share a term at a position are identical up to it. |
| `RaftPreservation.VoteKeeps` | pkg/raft/node.go:136-149 | Granting a vote, or repeating it to the same candidate, keeps the history invariant. |
| `RaftPreservation.ElectionKeeps` | pkg/raft/node.go:317-342 | A candidate with a quorum of up-to-date votes takes a term that has had no leader, and the invariant holds with it as leader. |
| `RaftPreservation.ProposeKeeps` | pkg/raft/node.go:353-364 | Appending in the leader's term extends only that leader's reign and keeps the invariant. |
| `RaftPreservation.AcceptKeeps` | pkg/raft/node.go:162-174 | A follower that accepts an entry, possibly truncating, keeps every earlier acceptance or has it overruled by a leader that contradicts it. |
| `RaftCompleteness.UpToDateLogHolds` | pkg/raft/node.go:487-493 | The up-to-date comparison transfers a committed prefix from voter to candidate. |
| `RaftCompleteness.LeaderComplete` | pkg/raft/node.go:132-142 | In any state of the invariant an entry accepted by a quorum in its own term is in every later leader's log from its election on. |
| `RaftCompleteness.AcceptorKeeps` | pkg/raft/node.go:495-517 | A node that accepted a committed entry still has the leader's log up to that entry. |
| `RaftCompleteness.CommittedPrefixesAgree` | pkg/raft/node.go:408-415 | Any two committed prefixes agree: the shorter starts the longer. |
| `RaftSteps.CountVoteStep` | pkg/raft/node.go:301-324 | Counting a reply, stale, refused or granted, keeps the invariant; only real votes of distinct nodes are counted. |
| `RaftSteps.BecomeLeaderStep` | pkg/raft/node.go:328-342 | Taking office is safe although only the role and not the term is checked again. |
| `RaftSteps.DeliverAppendStep` | pkg/raft/node.go:153-197 | Delivering any append message in flight, under either rule, keeps the invariant. |
| `RaftSteps.CountAckStep` | pkg/raft/node.go:398-410 | Counting an acknowledgement keeps the invariant: only acceptances of distinct nodes are counted. |
| `RaftSteps.StepKeeps` | pkg/raft/node.go:105-465 | Every step of the protocol keeps the invariant. |
| `RaftSteps.RunKeeps` | pkg/raft/node.go:105-465 | The invariant holds in every state of every run. |
| `RaftTheorems.RunGrows` | pkg/raft/node.go:105-465 | Over a run elections, votes and acceptances are never undone and leaders' logs only grow. |
| `RaftTheorems.ElectionSafety` | pkg/raft/node.go:304-342 | At most one node is ever leader in a term, over whole runs. |
| `RaftTheorems.VotesForOneCandidate` | pkg/raft/node.go:128-149 | A node votes for at most one candidate per term, its votes for itself included, over whole runs. |
| `RaftTheorems.VotesAreRecorded` | pkg/raft/node.go:255-262 | Every vote granted in a reply, and the vote for itself of a node that opens an election, is among the votes that this ranges over. |
| `RaftTheorems.KnownLeaderIsUnique` | pkg/raft/node.go:188-189 | Nodes that name a leader in the same term name the same one, even at different times. |
| `RaftTheorems.LogMatching` | pkg/raft/node.go:162-174 | Logs of any two nodes at any two times that share a term at a position are identical up to it. |
| `RaftTheorems.LogTermsOrdered` | pkg/raft/node.go:353-364 | Terms never decrease along a log and never exceed the node's current term. |
| `RaftTheorems.LeaderAppendOnly` | pkg/raft/node.go:353-364 | A leader's log only grows while it leads. |
| `RaftTheorems.LeaderCompleteness` | pkg/raft/node.go:132-142 | Once a quorum has accepted an entry in its own term, every leader of a later term at any time of the run holds it and all before it in place. |
| `RaftTheorems.AcceptedEntryIsNeverLost` | pkg/raft/node.go:505-517 | No node that accepted such an entry loses it, at any time from its acceptance on. |
| `RaftTheorems.AcknowledgedMeansCommitted` | pkg/raft/node.go:408-415 | The acknowledgements that let a proposal commit come from a quorum that accepted its entry. |
| `RaftTheorems.ProposalCommitsItsEntry` | pkg/raft/node.go:359-419 | A proposal with a quorum finds exactly its entry in place and stays in bounds, even if the node was deposed and took other leaders' entries meanwhile; it hands out everything up to that entry. |
| `RaftTheorems.DeliveryInBounds` | pkg/raft/node.go:172-186 | For arbitrary requests and either rule the apply loop stays in the log and leaves `lastApplied` at or above `commitIndex`. |
| `RaftTheorems.StepDelivers` | pkg/raft/node.go:519-530 | Each step hands out, per node, nothing or the entries at the next consecutive indices. |
| `RaftTheorems.RunDelivers` | pkg/raft/node.go:519-530 | Over every interleaving the batches concatenate without gap or repeat, and everything committed has been handed out. |
| `RaftProgress.ComparisonIsTotal` | pkg/raft/node.go:487-493 | The comparison of logs is a total preorder: of any two logs one is up to date for the other, and it is transitive. |
| `RaftProgress.SomeoneIsElectable` | pkg/raft/node.go:124-150 | In any state each non-empty set of nodes has a member that all the others vote for if it asks, with its own log, in a term above theirs. |
| `RaftProgress.QuorumCanElect` | pkg/raft/node.go:124-150 | At any time of any run every quorum can elect one of its members, and whoever it can elect holds every entry committed so far. |
| `RaftProgress.LeaderIsFollowed` | pkg/raft/node.go:188-193 | After every delivery in a run of a heartbeat, or of entries that follow on the log, that is not stale, the recipient follows the sender, names it, and it is the leader elected in that term. |
| `RaftProgress.RequestsAreAnswered` | pkg/raft/node.go:124-197 | Every vote or append request that arrives is decided as its handler promises and answered, stale and refused ones included, and no other node changes. |
| `RaftProgress.LaterTermDeposes` | pkg/raft/node.go:400-406 | A reply of a later term, to a vote request, a proposal or a heartbeat, leaves the node in at least that term, a follower without vote or leader unless it was there already, and ends the call. |
| `RaftProgress.VoteIsCounted` | pkg/raft/node.go:304-324 | A candidate counts each granted reply once and wins exactly with a quorum. |
| `RaftProgress.AckIsCounted` | pkg/raft/node.go:407-411 | A proposal counts each positive reply once and may commit exactly with a quorum. |
| `RaftCommit.CoveredPrefixIsCommitted` | pkg/raft/node.go:411-418 | A leader's log up to a commit index justified no later than its term is a committed sequence. |
| `RaftCommit.PromptRunOk` | pkg/raft/node.go:376-383 | When leaders capture the commit index with the term, or read it while still in that term, every commit index held or sent is justified in its term, under either follower's rule and on unsound runs too. |
| `RaftCommit.GuardedDeliveryOk` | pkg/raft/node.go:166-186 | Under the checked rule a delivery with a justified commit index leaves only committed entries applied. |
| `RaftCommit.ProposalDeliveryOk` | pkg/raft/node.go:408-418 | A proposal that commits leaves only committed entries applied. |
| `RaftCommit.SoundUnlessDelivered` | pkg/raft/node.go:105-465 | In every mode only a delivery to a follower can make what was applied unsound. |
| `RaftCommit.GuardedRunOk` | pkg/raft/node.go:166-186 | Under the checked rule, with commit indices captured or read in time, everything applied in every state of every run is committed. |
| `RaftCommit.PromptRunAgrees` | pkg/raft/node.go:376-383 | Under the checked rule the late read is harmless if every send happens while the sender is in the term of its message: what any two nodes applied, at any two times, agrees at every index. |
| `RaftCommit.StateMachineSafety` | pkg/raft/node.go:166-186 | On every run under both repairs what any two nodes applied, at any two times, agrees at every index. |
| `RaftDelivery.DeliverySafeIffVouched` | pkg/raft/node.go:166-186 | Under either rule a delivery that hands out entries hands out only committed ones if and only if the follower's entry at its new commit index has the term committed there. |
| `RaftDelivery.SendersHandOutFirst` | pkg/raft/node.go:411-418 | In every mode and every state of every run no commit index, captured or in flight, exceeds what its sender has handed out. |
| `RaftDelivery.DeliverySafeIffSenderAgrees` | pkg/raft/node.go:166-186 | Hence the delivery is safe if and only if the follower's entry at its new commit index has the term of the one that the sender has handed out there. |
| `RaftDelivery.RunSafeIff` | pkg/raft/node.go:166-186 | In every mode, the source's included, a run applies only committed entries at all times if and only if this comparison of follower and sender succeeds at each delivery that hands out entries. |
| `RaftDelivery.ConfirmedRunAgrees` | pkg/raft/node.go:166-186 | On runs that pass the comparison any two nodes' applied entries agree at every index. |
| `RaftWitness.UncheckedIsUnsafe` | pkg/raft/node.go:166-186 | In every cluster of three, whenever the commit index is read, a run under the rule as written after which one node has applied x and another y at index 1. |
| `RaftWitness.LateReadIsUnsafe` | pkg/raft/node.go:376-383 | In every cluster of five, a run with the checked rule and the late read after which one node has applied y and another x at index 1. |
| `DhtIds.DistanceInjective` | pkg/dht/routing.go:146-152 | Two identifiers at the same distance from a third are equal. |
| `DhtIds.DistanceSymmetric` | pkg/dht/routing.go:146-152 | The distance is symmetric. |
| `DhtIds.DistanceZero` | pkg/dht/routing.go:146-152 | The distance is zero exactly between equal identifiers. |
| `DhtIds.CloseMeansAgree` | pkg/dht/routing.go:146-152 | A distance below 2^e means exactly that all bits of weight 2^e and above agree. |
| `DhtBuckets.ExponentIsInvolution` | pkg/dht/routing.go:133-137 | The relation of bucket numbers and powers of two is a bijection on 0..159, its own inverse. |
| `DhtBuckets.BucketArithmetic` | pkg/dht/routing.go:127-138 | A peer is in bucket j if and only if its distance is from 2^e to below 2^(e+1), with e the exponent of j. |
| `DhtBuckets.ComputeBucketIndex` | pkg/dht/routing.go:127-138 | The byte loop returns the bucket of that range, and bucket 159 for the local identifier. |
| `DhtBuckets.ComputeDistance` | pkg/dht/routing.go:146-152 | The byte loop computes the distance as a big-endian integer. |
| `DhtBuckets.HopHalves` | pkg/dht/routing.go:127-152 | Any peer at least as near the target as someone in the goal's bucket shares the goal's next bit and is nearer the target. |
| `DhtTable.Bucket.constructor` | pkg/dht/bucket.go:18-23 | Empty, with capacity 20 unless a positive one is given. |
| `DhtTable.Bucket.IndexOf` | pkg/dht/bucket.go:76-83 | The first position of an identifier, negative exactly if it is absent. |
| `DhtTable.Bucket.MoveToEnd` | pkg/dht/bucket.go:85-93 | Moves one entry to the end and shifts the others; out of range it does nothing. |
| `DhtTable.Bucket.Add` | pkg/dht/bucket.go:26-44 | The peer becomes the most recent; exactly when it is new and the bucket is full the oldest is evicted and returned. |
| `DhtTable.Bucket.Remove` | pkg/dht/bucket.go:46-58 | Removes the identifier if present and says whether it was. |
| `DhtTable.LruLaw` | pkg/dht/bucket.go:26-44 | After any trace of additions a bucket is the last k distinct identifiers, with their latest records, in order of latest addition. |
| `DhtTable.SmallerBucketIsSuffix` | pkg/dht/bucket.go:36-43 | After the same trace a smaller bucket is a suffix of a larger one. |
| `DhtRouting.TableInvariant` | pkg/dht/routing.go:48-80 | After any additions and removals each identifier is stored at most once, in its own bucket, never the local or zero one, within capacity. |
| `DhtRouting.TableLru` | pkg/dht/routing.go:48-69 | After any additions each bucket holds the last distinct peers it heard from, up to its capacity. |
| `DhtRouting.RoutingTable.constructor` | pkg/dht/routing.go:30-46 | 160 empty buckets of the given or default capacity. |
| `DhtRouting.RoutingTable.AddPeer` | pkg/dht/routing.go:49-69 | Rejects peers without address, with the zero identifier, or itself, and then changes nothing; otherwise touches exactly the peer's bucket, which then has the peer. |
| `DhtRouting.RoutingTable.RemovePeer` | pkg/dht/routing.go:72-80 | Removes from the identifier's bucket; the table then has every other peer it had and no peer of that identifier. |
| `DhtRouting.RoutingTable.GetClosestPeers` | pkg/dht/routing.go:83-119 | The k stored peers nearest the target, in order; nothing for a non-positive k. |
| `DhtOrder.SortByDistance` | pkg/dht/lookup.go:150-165 | A permutation in order of distance. |
| `DhtOrder.SortedIsUnique` | pkg/dht/lookup.go:150-165 | Any sort of distinct identifiers gives the same list, so an unstable sort cannot matter. |
| `DhtLookup.DefaultTo` | pkg/dht/lookup.go:78-92 | A positive option is kept, any other is replaced by its default. |
| `DhtLookup.CandidateLimit` | pkg/dht/lookup.go:138-148 | The greater of 4k and two batches, and so never below k. |
| `DhtLookup.MergePeers` | pkg/dht/lookup.go:108-129 | Whatever the order of map iteration, the result has each identifier once: those in the answer with its last record, all others with the record they had; the zero identifier in an answer is ignored. |
| `DhtLookup.NextUnqueried` | pkg/dht/lookup.go:94-106 | Everyone not queried in an initial part of the shortlist, in order; that part is the whole shortlist unless the batch has alpha peers. |
| `DhtLookup.NextBatchLaw` | pkg/dht/lookup.go:94-106 | So a peer that was not queried is left out only if the batch is full and everyone in it comes first. |
| `DhtLookup.SearchLoop` | pkg/dht/lookup.go:50-73 | The loop computes one function of its inputs, or stops because it was cancelled. |
| `DhtSearch.Unrolled` | pkg/dht/lookup.go:50-73 | A lookup goes through at most its rounds and ends early only with nobody left to ask. |
| `DhtSearch.LookupReturnsNearest` | pkg/dht/lookup.go:62-75 | Although the shortlist is cut every round, the result is exactly the k nearest of the initial shortlist and everything learnt. |
| `DhtSearch.PoolIsWhatWasLearnt` | pkg/dht/lookup.go:62-69 | What was learnt is the initial identifiers and the non-zero identifiers in successful answers to the queries made. |
| `DhtSearch.LookupDiscipline` | pkg/dht/lookup.go:48-75 | No identifier is queried twice, and a lookup with nobody left to ask has queried every peer on its shortlist. |
| `DhtSearch.LookupSchedule` | pkg/dht/lookup.go:50-73 | Exactly whom a lookup asks and in which order: each round, of the nearest candidates of all learnt so far, the first alpha not asked before, until the rounds are used up or nobody is left. |
| `DhtSearch.RoundSize` | pkg/dht/lookup.go:57-61 | Each round asks as many peers as alpha and the candidates not yet asked allow. |
| `DhtFindNode.LookupKeepsItsPromise` | pkg/dht/lookup.go:40-75 | For the lookup with the source's own parameters: the k nearest of all it has learnt, asked in rounds of alpha among the max(4k, 2 alpha) nearest, no identifier queried twice, and all of them queried if nobody is left to ask. |
| `DhtFindNode.IterativeFindNode` | pkg/dht/lookup.go:32-76 | With a deterministic requester the result and the queries are unique and keep those promises; it fails exactly for an empty table or a cancellation. |
| `DhtNetwork.Hop` | pkg/dht/routing.go:83-138 | The best peer in a complete node's answer is nearer the target and one bit nearer the globally nearest node. |
| `DhtNetwork.RoundCloses` | pkg/dht/lookup.go:57-72 | Each round clears the top bit of the remaining distance, whatever else is asked in the round. |
| `DhtNetwork.HeadConverges` | pkg/dht/lookup.go:50-75 | After 159 rounds, or with nobody left to ask, the head of the shortlist is the globally nearest live node. |
| `DhtNetwork.RunsOut` | pkg/dht/lookup.go:50-60 | A lookup with as many rounds as there are live nodes (cmd/dhtsim has 20 of both) ends with nobody left to ask. |
| `DhtNetwork.LookupConverges` | pkg/dht/lookup.go:42-90 | In a complete static network a lookup from any node for any target has the nearest live node first, one round inside the default of 160, or with as many rounds as live nodes. |
| `DhtNearest.NearestHoldClose` | pkg/dht/lookup.go:62-75 | If a list holds the m nearest of a pool, m at least k, and x is one of the k nearest live nodes, then the list has someone as close to x, up to a power of two, as anyone in the pool. |
| `DhtNearest.AnswerHoldsClose` | pkg/dht/routing.go:83-138 | The answer of a complete node, cut to at least k peers, names someone one bit nearer to any of the k nearest live nodes. |
| `DhtNearest.LearntItself` | pkg/dht/lookup.go:50-75 | A lookup with nobody left to ask has learnt of each of the k nearest live nodes. |
| `DhtNearest.LookupFindsAllNearest` | pkg/dht/lookup.go:42-90 | In a complete static network with answers of at least k peers, a lookup that ends with nobody left to ask returns exactly the k live nodes nearest the target, although tables may know one peer per bucket. |
| `DhtJoin.HearingAllCompletesTables` | pkg/dht/routing.go:49-69 | Once every node has added every other, in any order and with any bucket size, the tables are complete in the sense that convergence needs, although full buckets evict. |
| `DhtStore.Node.constructor` | pkg/dht/store.go:19-26 | An empty store and an empty routing table. |
| `DhtStore.Node.StoreLocal` | pkg/dht/store.go:37-44 | Sets the key and leaves every other key alone. |
| `DhtStore.Node.FindValueLocal` | pkg/dht/store.go:47-58 | The stored value, or nothing exactly if the key is absent. |
| `DhtStore.Node.HandleFindValue` | pkg/dht/store.go:83-97 | The value if stored here, otherwise the k nearest known peers. |
| `DhtStore.IterativeFindValue` | pkg/dht/store.go:108-156 | Returns the value, the nearest peers or the error of one function of its inputs, or stops because it was cancelled. |
| `DhtStore.FirstValueIsFirst` | pkg/dht/store.go:134-146 | Of a batch the first holder's value is taken, and none only if nobody in the batch holds one. |
| `DhtStore.NotFoundMeansNoHolder` | pkg/dht/store.go:121-155 | A value lookup that finds nothing is a node lookup that asked no holder. |
| `DhtStore.ValueLookupLaw` | pkg/dht/store.go:108-156 | A value lookup returns the value of the first holder that the node lookup with the same parameters would ask, or, if that asks none, what it returns. |
| `DhtStore.StoreAtEach` | pkg/dht/store.go:176-182 | Stores at each of the nearest peers in turn, up to the first that refuses and not beyond. |
| `DhtStore.StoreAllAt` | pkg/dht/store.go:176-180 | Exactly the told nodes hold the value afterwards, and no other key or node changes. |
| `DhtStore.IterativeStore` | pkg/dht/store.go:159-183 | Stores at the peers that the node lookup returns, or reports the error of the lookup or of the first refusal; it is stopped only by a cancellation. |
| `DhtStore.FindValueSucceeds` | pkg/dht/store.go:108-156 | Once the live node nearest the key has a value, a value lookup from any node returns one that a live node holds under that key, within the default rounds or as many as there are live nodes. |
| `DhtStore.StoredAtAllNearest` | pkg/dht/store.go:159-183 | A store whose lookup has nobody left to ask changes exactly the k live nodes nearest the key, and there only that key. |
| `DhtStore.StoredIsFound` | pkg/dht/store.go:108-183 | Store, then find: what one node stores under a key with no other value, any node finds, within the default 160 rounds or as many as there are live nodes. |
| `GossipGraph.BallIsPaths` | pkg/gossip/gossip.go:61-76 | The ball of radius s is exactly what paths of at most s hops lead to. |
| `GossipPropagation.LastListingCounts` | pkg/gossip/gossip.go:50-53 | Of nodes listed under one identifier the last counts. |
| `GossipPropagation.Perm` | pkg/gossip/gossip.go:99-99 | Some permutation of the indices. |
| `GossipPropagation.SelectRandomPeers` | pkg/gossip/gossip.go:89-105 | As many entries as fanout and peers allow, none twice. |
| `GossipPropagation.Spread` | pkg/gossip/gossip.go:62-76 | One step infects exactly what the infected nodes chose. |
| `GossipPropagation.SpreadChoice` | pkg/gossip/gossip.go:64-72 | In a step every infected node infects as many entries of its peer list as the fanout allows. |
| `GossipPropagation.SimulatePropagation` | pkg/gossip/gossip.go:33-87 | Each error exactly on its condition; otherwise a run of the process and its steps, reached count, ratio and total, reported at the first step whose count is at least the target times the number of nodes, or after all steps if there is none. |
| `GossipPropagation.InfectionGrows` | pkg/gossip/gossip.go:74-76 | The infected set never shrinks. |
| `GossipPropagation.InfectionInBall` | pkg/gossip/gossip.go:61-76 | After s steps it is inside the ball of radius s. |
| `GossipPropagation.InfectionCount` | pkg/gossip/gossip.go:61-76 | After s steps it has at most (1 + fanout)^s members. |
| `GossipPropagation.FullFanoutFillsBall` | pkg/gossip/gossip.go:89-105 | With a fanout no smaller than any peer list it is the ball. |
| `GossipPropagation.FullFanoutIsDeterministic` | pkg/gossip/gossip.go:61-83 | Then any two simulations that reach the target are the same. |
| `GossipPropagation.ReachedAreNodes` | pkg/gossip/gossip.go:78-81 | If every listed peer is a node, the reached count never exceeds the number of nodes. |
| `GossipNode.NodeState.constructor` | cmd/node/state.go:17-23 | A node that has heard nothing. |
| `GossipNode.NodeState.UpsertPeer` | cmd/node/state.go:25-34 | Records a peer by address; a peer without address is ignored. |
| `GossipNode.NodeState.PeerAddrs` | cmd/node/state.go:36-47 | The own address and each known address once, in order. |
| `GossipNode.NodeState.SetReading` | cmd/node/state.go:56-64 | Replaces the reading of its node and no other. |
| `GossipNode.NodeState.ShouldProcessGossip` | cmd/node/state.go:66-78 | True exactly the first time, and remembered. |
| `GossipNode.NodeState.SelectGossipTargets` | cmd/node/gossip.go:100-128 | A choice of at most fanout candidates: peers and coordinator, without the node itself. |
| `GossipNode.ChosenBounds` | cmd/node/gossip.go:100-128 | As many frames as fanout and links allow, only along links, never to itself, and along all links if the fanout exceeds the number of peers. |
| `GossipNode.NodeState.GossipBroadcast` | cmd/node/gossip.go:21-45 | Marks the message seen and sends it to a choice of targets, or does nothing if the reading cannot be encoded. |
| `GossipNode.NodeState.Publish` | cmd/node/main.go:77-89 | A turn of the sensor loop keeps the node's own reading whether or not it can be encoded and broadcast. |
| `GossipNode.NodeState.Process` | cmd/node/gossip.go:53-85 | The verdict on a frame and its effect on the node: every frame is remembered; the reading of a new one with a hop counter not negative that can be decoded is stored under its node, and no other. |
| `GossipNode.NodeState.HandleGossipMessage` | cmd/node/gossip.go:47-98 | Malformed frames change nothing; otherwise the frame is remembered, exactly an accepted reading is stored, and it is forwarded with one hop less exactly if accepted with hops left. |
| `GossipFlood.StepKeeps` | cmd/node/gossip.go:21-98 | Every broadcast, delivery, loss, new peer and own reading keeps the flood invariant. |
| `GossipFlood.RunKeeps` | cmd/node/gossip.go:21-98 | The flood invariant holds in every state of every run. |
| `GossipTheorems.FloodIsBounded` | cmd/node/gossip.go:28-42 | A message costs at most fanout frames per node on every run, every delivery uses one up, and with all used up none is in flight. |
| `GossipTheorems.TakenUpOnce` | cmd/node/state.go:66-78 | Each node takes up each message at most once and has seen exactly those it took up. |
| `GossipTheorems.FrameBounds` | cmd/node/gossip.go:83-97 | Each frame carries the broadcast body; its TTL is between 0 and the initial one and bounds its recipient's distance from the origin. |
| `GossipTheorems.HopLimit` | cmd/node/gossip.go:83-97 | No node more than TTL + 1 hops from the origin takes up the message. |
| `GossipTheorems.ReadingsAreGenuine` | cmd/node/gossip.go:64-76 | Every stored reading is filed under its node and was either taken by the node itself or broadcast in a message it has seen; of other nodes it has only the latter. |
| `GossipTheorems.FloodReachesAll` | cmd/node/gossip.go:47-98 | Without losses, with a fanout above every number of peers and a TTL of at least the number of nodes less two, a finished flood has reached exactly the nodes connected to the origin. |
| `GossipTheorems.NeighboursAreReached` | cmd/node/gossip.go:31-42 | Whatever the TTL, a finished flood without losses and with such a fanout has reached the origin's own links. |
| `GossipReadings.DeliveryStores` | cmd/node/gossip.go:64-76 | Right after a first delivery with a hop counter not negative and a body that can be decoded the recipient holds that reading; no other delivery changes any reading. |
| `GossipReadings.ReadingsAreNeverLost` | cmd/node/state.go:56-64 | Over a run a node that has a reading of another keeps having one. |
| `GossipReadings.SeenIsStored` | cmd/node/gossip.go:53-76 | On every run, lossy or not, a node that has seen another's message that can be decoded, with a TTL not negative, has a reading of the node that the message is about. |
| `GossipReadings.FloodDeliversReading` | cmd/node/gossip.go:47-98 | A finished flood as in `FloodReachesAll` leaves every node connected to the origin with a reading of the node that the message is about, the one broadcast if no other was. |
| `GossipCoverage.FloodMayMissNearNode` | cmd/node/gossip.go:53-56 | For every number n of nodes and every TTL from 1 to n - 3 there is such a flood that misses a node two hops away, because deduplication keeps the frame that came the long way. |
| `GossipCoverage.FloodIsReliableIff` | cmd/node/gossip.go:47-98 | On all networks of n nodes all such floods reach every node within TTL + 1 hops if and only if the TTL is at most 0 or at least n - 2. |

## Left out

- RaftCommit.PromptRunAgrees: a late heartbeat reads index, term and commit index in one step, although the source reads them one after the other; under the source's own rule only the commit index of a heartbeat is looked at, so nothing is lost there.
- DhtNetwork.LookupConverges: of a lookup that stops for want of rounds only the head of the result is claimed; `DhtNearest.LookupFindsAllNearest` has the whole result where answers have room for k peers and nobody is left to ask.
- DhtStore.StoredIsFound: nodes that hold an older value for the key may answer first, so all holders are required to hold the value stored; without that `DhtStore.FindValueSucceeds` gives some held value.
- GossipPropagation.SimulatePropagation: ratios are real numbers, without floating-point rounding.
- DhtOrder.SortByDistance: the library sort is modelled by an insertion sort of which only order and permutation are promised.
- DhtTable.Bucket.MoveToEnd: slices are sequences that are reassigned, so aliasing of backing arrays is not captured.
- GossipFlood.StepKeeps: a delivery is one step, although the handler takes the node's lock three times, to remember the message, to store the reading and to list the peers; what other handlers do in between is not captured.
- Timers, tickers, RPC timeouts and randomised election timeouts: a timeout is a step that may happen at any time, and no progress or failover time is claimed.
- Restart and recovery of Raft nodes, catch-up of followers with gaps, and clusters of one node, for which the source has no code or makes no progress.
- The order of apply callbacks of concurrent proposals: entries are applied outside the lock, so the model records the order in which they are collected.
- `LastSeen` and heartbeat times, logging, and nil arguments.
- Context cancellation, except as an early return of the two lookups and the store.
- SHA-256 of keys and message identifiers, base64, JSON and the splitting of frames into fields: parsing is a parameter of the handlers.
- TCP, HTTP, metrics, configuration and bootstrap in `cmd/coordinator` and `cmd/node`, and the coordinator's own handling of gossip, which does not forward.
- Sensor geometry, averages and generation in `pkg/sensor`.

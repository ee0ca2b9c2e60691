# ZanRedisDB in Dafny

ZanRedisDB is a Redis-compatible store that replicates every partition with Raft. This project
models the parts of it that everything else rests on, and proves what they promise:

* **Replication** (`raft/`). One replica is a state machine over messages, with the handlers of
  `raft/raft.go` for a fixed set of voters: elections, pre-vote, leases, leader transfer, replication with flow control, heartbeats, the commit
  rule and read-index reads. A cluster is any number of such replicas over a network that may lose, duplicate, delay and
  reorder messages, with replicas that may stop and restart at any point. State-machine safety, leader completeness, log
  matching, election safety, soundness of the leader's Match and absence of panics hold in every state of every run, and no log holds data that nobody proposed.
  No run gets stuck for good: from any of its states a node that is not behind a free majority can be elected, with or without
  pre-vote, a leader can bring any peer up to date, and it can commit whatever it is handed.
  Read-index safety does not: a read request delivered twice can release another read too early. It holds in every
  run whose leaders turn such a request away, no weaker guard of this kind is safe, and the run that fails is part of the project.
* **The log of one node** (`raft/storage.go`, `raft/log_unstable.go`, `raft/log.go`, `raft/node.go`). Storage, the unstable tail
  and a pending snapshot together stand for one log; every operation is specified on that log, and over
  any run the application is handed every committed entry once and in order.
* **The apply path** (`node/node.go`, `node/state_machine.go`, `node/raft_internal.pb.go`). With write batching every request
  has the fate it earns on the store left by the successful ones before it; replies differ from applying one request at a time
  exactly when a command aborts a batch in which others wait, or a write fails. Overlapping batches apply each entry once, and the wire form of a
  request batch is the one its `.proto` file describes and reads back as it was.
* **Keys** (`rockredis/`). The memory-comparable codec sorts encoded tuples exactly as the tuples, reads them back, and has
  one encoding per value; where a float breaks this, the exact condition is proved.

## How the files fit together

| files | content |
|---|---|
| `raft_types.dfy`, `size_limit.dfy` | entries, messages, logs as values, majorities, size-limited batches |
| `raft_node.dfy`, `raft_machine.dfy` | one replica: as functions from a node and a message to a node and messages, and as the object with mutable fields and loops that the source has, proved equal |
| `protocol.dfy`, `protocol_actions.dfy`, `protocol_replication.dfy` | an abstract protocol with history (logs by term, votes, acknowledgements) and the invariant that its actions keep |
| `refinement.dfy`, `cluster.dfy` | every `Step` of a replica is a sequence of protocol actions; runs of a cluster |
| `safety.dfy`, `read_index.dfy`, `flow_control.dfy` | the safety theorems over runs |
| `proposals.dfy`, `elections.dfy`, `read_answers.dfy`, `leadership.dfy` | what single steps amount to, stated on nodes and messages only, and what follows over runs: where entries come from, who stands for election |
| `electability.dfy`, `catch_up.dfy` | how a run can go on from any of its states: elections, transfers, catching up, committing |
| `stale_read.dfy` | the run of three voters in which a duplicated read request breaks read-index safety, and the exact guard |
| `raft_log.dfy`, `delivery.dfy` | the stored log of one node, Ready and Advance, delivery to the application |
| `commit_index.dfy`, `inflights.dfy`, `read_only.dfy`, `message_queue.dfy` | data structures of a replica, each proved to stand for a simpler one |
| `raft_parts.dfy` | the log, window and read-queue objects in the handlers that use them |
| `apply_batch.dfy`, `wire.dfy`, `wire_schema.dfy` | the request loop with write batching; the wire format and its schema |
| `memcmp_bytes.dfy`, `memcmp_numbers.dfy`, `memcmp_tuples.dfy` | the key codec |

`dafny verify dfyconfig.toml` covers all of them.

## How to read the model

* Sections of "In Search of an Understandable Consensus Algorithm (Extended Version)" are cited by number.
* A panic of the source is an outcome of the functions in `RaftNode` and a precondition of the classes.
  `Safety.NoPanic` shows that no run reaches one.
* The network of a cluster is the set of all messages ever sent; any of them may be delivered at any time, any number
  of times, or never. Timers are local messages that may fire at any time, which allows every
  timing the source could produce. A step and the saving of the state it leaves are one atomic action, as the Ready contract
  demands of the application before messages leave; a restart keeps term, vote, log and commit index.
* Integers are unbounded in the Raft part; in the codecs and on the wire 32- and 64-bit widths are explicit.
* Go slices are sequences: two slices that share an array are two values. Where sharing is the point (the message queue, in-place
  byte reversal, the inflight ring, the marshal buffer) arrays are used.
* A read request is a message and may be delivered to the leader twice. If it is still waiting, or was never asked about in this term,
  or nothing is waiting, the second delivery is harmless. If it has been released since and another read is waiting, it
  joins the queue again, and an old confirmation of its first round releases the other read with it: unique contexts
  (`raft/read_only.go:23-26`) do not help. `ReadIndex.Harmless` names the condition on what the leader has asked about and what waits,
  `ReadIndex.ReadIndexSafety` holds of every run that keeps to it, `StaleRead.StaleRelease` is the run that fails without it, and
  `StaleRead.ExactGuard` shows that no weaker condition of this kind is safe.
* When a follower forwards a leader-transfer request, `send` overwrites its sender with the forwarding follower
  (`raft/raft.go:1310-1319`), so the leader transfers to the forwarder; the model does the same.
* A pre-vote grant carries no trace of the request it answers. A grant that answers an earlier request, of this term or the one
  before, counts as well (`raft/raft.go:880-887`), so `Elections.StandsWithMajority` compares the granter's log with the log the candidate
  had when it asked, which need not be the one it stands with.
* A comment at `raft/storage.go:99` says that `ents[i]` has position `i+snapshot.Metadata.Index`. After
  `CreateSnapshot` without `Compact` it has position `i+ents[0].Index`; the model follows the code.
* `FloatToCmp` of a NaN without sign bit collides with a number that is not negative, and -0.0 reads back as 0.0; the codec
  results say exactly when a value comes back and when an encoding is the only one (`NumberCodec.FloatRoundTrip`,
  `NumberCodec.FloatCanonical`, `NumberCodec.NaNCollides`).
* `CutOne` does not check what it cuts. `TupleCodec.CutDisagrees` says on which bytes it differs from `DecodeOne`: a string whose
  last group has a marker below 247 or a pad that is not zero is cut, and a number of fewer than eight bytes is cut past its end.
  `TupleCodec.CutIsLenient` gives such inputs.

## Model

| member | source | states |
|---|---|---|
| `Safety.StateMachineSafety` | raft/raft.go:638-653 | In every run, any two nodes that have committed position k, at the same or different moments and across restarts, hold the same entry there (section 5.4.3). |
| `Safety.LeaderCompleteness` | raft/raft.go:859-1002 | Whatever a node has committed is a prefix of the log of every leader of that node's term or a later one, from then on (section 5.4.3). |
| `Safety.LogMatching` | raft/log.go:87-138 | Two logs anywhere in a run with the same term at a position are identical up to it (section 5.3). |
| `Safety.ElectionSafety` | raft/raft.go:739-857 | A term has at most one leader in a whole run, with pre-vote, leader transfer, stale responses and restarts present (section 5.2). |
| `Safety.OneVotePerTerm` | raft/raft.go:955-992 | Once a node has voted in a term its vote in that term never changes. |
| `Safety.VotesAgree` | raft/raft.go:962-987 | Two granted vote responses of one node in one term name the same candidate. |
| `Safety.MatchSoundness` | raft/raft.go:1093-1131 | A leader's Match for a node bounds a prefix on which both logs agree, if the node has not gone to a later term; one that has still agrees up to the smaller of Match and commit index, if the leader's entry there is of its own term. |
| `Safety.NoPanic` | raft/log.go:87-114 | In every state of every run Step handles every deliverable message without panicking: no conflict with a committed entry, no commit index out of range, no impossible role change. |
| `Safety.Monotonicity` | raft/log.go:202-210 | Neither the term nor the commit index of a node ever decreases in a run. |
| `Safety.RunMirrors` | raft/raft.go:859-1002 | Every run of the cluster is mirrored, state by state, by states of the abstract protocol whose invariant holds and whose history only grows. |
| `ReadIndex.ReadIndexSafety` | raft/raft.go:1050-1064 | In every run whose leaders add a read only where it is harmless, every read state a node ever holds has an index at least as large as everything committed anywhere before the leader had asked for its confirmation. |
| `ReadIndex.ReadIndexRespSafety` | raft/raft.go:1163-1177 | The same for every answer a leader sends to another node. |
| `StaleRead.StaleRelease` | raft/raft.go:1050-1072 | Under any guard that lets through new reads and a read released before, there is a run of three voters, with unique contexts and one request delivered twice, in which an old leader releases a read below what was committed when it was issued. |
| `StaleRead.ExactGuard` | raft/read_only.go:23-26 | Among the guards that let every new read through, the safe ones are exactly those that refuse a read asked about in this term, released since, while another waits. |
| `ReadIndex.SingleVoterRead` | raft/raft.go:1073-1081 | With a single voter a read is released at once at an index that covers everything the run committed so far. |
| `ReadIndex.LeaderKnowsCommitted` | raft/raft.go:1051-1055 | A leader that committed an entry of its term knows everything committed anywhere, unless a majority has already left its term. |
| `Proposals.LeaderTakesProposal` | raft/raft.go:1019-1049 | A leader that is not handing over appends exactly the data proposed, in order, at the next positions and in its term; otherwise nothing happens. |
| `Proposals.OthersForwardProposal` | raft/raft.go:1285-1297 | A follower passes a proposal on unchanged to the leader it knows; without one, and as a candidate, a node drops it. |
| `Proposals.StepClean` | raft/raft.go:859-1002 | No step brings entries into a log or an append other than those it was sent, those of the proposal it handles, and empty ones. |
| `Proposals.Validity` | raft/raft.go:679-689 | In every run every entry of every log is a boot entry, an empty entry, or holds data that a client proposed earlier in that run. |
| `Elections.PreVoteAsks` | raft/raft.go:803-840 | With pre-vote a node keeps term, vote and log and asks every other voter for the next term, with how far its log goes. |
| `Elections.CampaignStands` | raft/raft.go:803-840 | A candidate stands in the next term with its own vote and log and asks every other voter, saying whether this is a transfer. |
| `Elections.LoneVoterLeads` | raft/raft.go:813-822 | The only voter leads at once. |
| `Elections.TimeoutNowStands` | raft/raft.go:1320-1329 | A leader transfer lets its target stand at once, even with pre-vote. |
| `Elections.PreVoteAnswered` | raft/raft.go:955-992 | A pre-vote request is granted for its term exactly if the asker's log is not behind in last term and length; in a lease there is no answer, a node further on refuses in its own term, and the node never changes. |
| `Elections.VoteAnswered` | raft/raft.go:955-992 | Outside a lease or in a transfer a node moves to the candidate's term and votes for it exactly if the candidate's log is not behind. |
| `Elections.LeaseIgnores` | raft/raft.go:868-879 | In a lease vote and pre-vote requests have no effect. |
| `Elections.PreVoteCounted` | raft/raft.go:1261-1276 | A pre-candidate stands with a majority of grants, gives up with a majority of refusals and otherwise waits. |
| `Elections.VoteCounted` | raft/raft.go:1261-1276 | A candidate leads with a majority, its log extended by an empty entry; it gives up with a majority of refusals. |
| `Elections.WinnerAnnounces` | raft/raft.go:769-801 | A new leader probes every peer from the end of its old log and sends it its first entry. |
| `Elections.StandsWithMajority` | raft/raft.go:1261-1276 | In every run with pre-vote, a pre-candidate that stands, unless its leader told it to, has the grants of a majority, none of whose logs was ahead of the one it asked with. |
| `Electability.CanBeElected` | raft/raft.go:803-857 | Any run can go on so that a node leads the next term, if a majority is not further, not in a lease and not ahead of it. |
| `Electability.CanTransfer` | raft/raft.go:1201-1231 | Any run can go on so that a follower that has its leader's whole log takes over by transfer, leases notwithstanding. |
| `Electability.FirstLeader` | raft/node.go:233-269 | In any cluster of two voters or more any voter can become the first leader. |
| `CatchUp.AppendAnswered` | raft/raft.go:1350-1364 | A follower answers an append with what it has committed, with a refusal and the end of its log, or with how far it now agrees, and commits up to there. |
| `CatchUp.RespSends` | raft/raft.go:1147-1159 | A confirmation from a probed peer that is behind sends it an append right after what is known. |
| `CatchUp.RejectionProbes` | raft/raft.go:1096-1106 | A refused probe goes back to where the peer's log can match. |
| `CatchUp.AckAdvances` | raft/raft.go:1107-1126 | An acknowledgement moves Match and Next of its sender forward and lets it replicate; no other peer changes. |
| `CatchUp.AckCommits` | raft/raft.go:638-653 | The acknowledgement that completes a majority at the end of a log of the leader's term commits all of it. |
| `CatchUp.Round` | raft/raft.go:1093-1146 | One round of heartbeat, append and answer brings the Match of a peer up or the guess of its next position closer. |
| `CatchUp.CanCatchUp` | raft/progress.go:136-162 | Any run can go on so that a peer that is not further than its leader has the leader's whole log. |
| `CatchUp.CanCommit` | raft/raft.go:1019-1049 | Any run can go on so that data handed to a leader is committed by every member of a majority within reach. |
| `CatchUp.AnythingCanCommit` | raft/node.go:233-269 | In any cluster of two voters or more, any data can be proposed to any voter and be committed by a majority. |
| `ReadAnswers.FollowerForwardsRead` | raft/raft.go:1330-1339 | A follower passes a read on to the leader it knows. |
| `ReadAnswers.FollowerTakesAnswer` | raft/raft.go:1340-1345 | The answer to a forwarded read is appended to the read states, and nothing else changes. |
| `ReadAnswers.LeaderAsks` | raft/raft.go:1050-1064 | A new read is queued at the commit index and every other voter is asked to confirm it. |
| `ReadAnswers.FollowerConfirms` | raft/raft.go:1366-1369 | A heartbeat is confirmed with its context, and its commit index is taken over. |
| `ReadAnswers.ConfirmationReleases` | raft/raft.go:1163-1177 | The confirmation that completes a majority answers the read it names and all before it: local ones as read states in queue order, each other by one message to its requester; until then it is only counted. |
| `ReadAnswers.StrayConfirmation` | raft/raft.go:1160-1167 | A confirmation that names no waiting read answers nothing. |
| `ReadAnswers.AnsweredAtOnce` | raft/raft.go:1065-1083 | With a lease, or as the only voter, a leader answers at once at its commit index. |
| `Leadership.SendRecords` | raft/raft.go:566-583 | Every append sent with entries is recorded: in the window behind those in flight, with Next past it, or by pausing the probe. |
| `Leadership.SendsUnlessPaused` | raft/raft.go:522-583 | An append goes out exactly if the peer is not paused and there is something to say, with what comes next in the log. |
| `Leadership.ProposalIsSent` | raft/raft.go:1047-1048 | A proposal is sent at once to every peer that is not paused. |
| `Leadership.AckDrains` | raft/raft.go:1133-1140 | After an acknowledgement that is news the leader sends on until the window is full or nothing is left. |
| `Leadership.CommitIsAnnounced` | raft/raft.go:1126-1128 | What is newly committed is announced to every peer that is not paused. |
| `Leadership.StepsDownWhenAlone` | raft/raft.go:1013-1018 | A leader that has not heard from a majority since the last check steps down; one that has starts counting again. |
| `Leadership.TransferBegins` | raft/raft.go:1201-1231 | A transfer request is remembered; a peer that has everything is told to stand at once, any other is sent what it lacks. |
| `Leadership.TransfereeIsTold` | raft/raft.go:1141-1145 | A transfer's target is told to stand once it is known to have everything. |
| `Leadership.OldTermIgnored` | raft/raft.go:898-925 | A message of an old term changes nothing; an old leader is told of the new term with check-quorum or pre-vote. |
| `FlowControl.WindowNeverOverfull` | raft/progress.go:217-232 | In every state of every run no inflight window holds more than its limit. |
| `Refinement.StepMoves` | raft/raft.go:859-1002 | One Step of a replica in any reachable situation never panics and is a sequence of protocol actions that keeps the invariant and sends only messages the protocol allows. |
| `Refinement.MaybeCommitMoves` | raft/raft.go:638-653 | The commit rule only commits an entry of the leader's own term that a majority has acknowledged. |
| `Refinement.HandleAppendMoves` | raft/raft.go:1350-1364 | Accepting, refusing or ignoring an append keeps the invariant; no committed entry is cut off. |
| `Refinement.HandleHeartbeatMoves` | raft/raft.go:1366-1369 | A heartbeat never carries a commit index beyond what the follower shares with the leader. |
| `Refinement.HandleVoteMoves` | raft/raft.go:955-992 | Granting or refusing a vote keeps the invariant: a vote goes only to a log that holds everything the voter acknowledged. |
| `Refinement.CampaignMoves` | raft/raft.go:803-840 | A campaign of any kind, including one that wins alone, is a sequence of protocol actions. |
| `Refinement.AppRespMoves` | raft/raft.go:1093-1146 | Handling an append response, accepted or rejected, with the burst of sends it triggers, keeps the invariant. |
| `Cluster.InitMirrors` | raft/node.go:233-269 | The initial cluster, with any bootstrap log of term 1, satisfies the invariant. |
| `Cluster.NextMirrors` | raft/raft.go:380-386 | Every step of the cluster (delivery, tick, restart) keeps the invariant, lets history only grow and lowers no commit index. |
| `ProtocolActions.UpToDateKeeps` | raft/log.go:282-284 | A log that is up to date in the voting rule's sense holds everything the voter has acknowledged that can still be chosen. |
| `ProtocolActions.ElectKeepsInv` | raft/raft.go:769-801 | An elected leader's log holds every entry that may still be committed in an earlier term. |
| `ProtocolReplication.AppendKeepsInv` | raft/raft.go:1350-1364 | A follower that merges an append and acknowledges it keeps the invariant. |
| `ProtocolReplication.NoConflictWithCommitted` | raft/log.go:90-94 | An append sent by a leader never conflicts with an entry the receiver has committed. |
| `ProtocolReplication.HeartbeatInRange` | raft/raft.go:585-603 | The commit index in a heartbeat lies within the receiver's log. |
| `ProtocolReplication.LeaderCommitKeepsInv` | raft/log.go:294-300 | Moving the commit index to an own-term entry on a majority commits it for good. |
| `ProtocolReplication.MergedKeeps` | raft/log.go:87-103 | A merge ends in agreement with the leader up to the last entry sent and gives up no agreement it had. |
| `Quorums.QuorumsIntersect` | raft/raft.go:413 | Any two majorities of one voter set share a member. |
| `RaftNode.QuorumIndexUnique` | raft/raft.go:638-653 | There is at most one index that a quorum has reached and no quorum has passed. |
| `RaftNode.QuorumIndexExists` | raft/raft.go:638-653 | With at least one voter there is such an index. |
| `RaftNode.FindRead` | raft/read_only.go:88-107 | Finds the first pending request with a context, or the end of the queue. |
| `RaftMachine.Raft.constructor` | raft/raft.go:348-398 | A new or restarted replica is a follower with its persisted term, vote, log and commit index and fresh progress for every voter. |
| `RaftMachine.Raft.MaybeSendAppend` | raft/raft.go:522-582 | Sends exactly when SendAppend says so and leaves the progress, window and messages it says. |
| `RaftMachine.Raft.SendWhilePossible` | raft/raft.go:1138-1139 | The burst loop ends and has sent what SendAll says. |
| `RaftMachine.Raft.BcastAppends` | raft/raft.go:607-614 | Visiting the progress map in any order gives the one result BcastAppend defines. |
| `RaftMachine.Raft.BcastHeartbeats` | raft/raft.go:626-633 | Visiting the progress map in any order sends the same heartbeats, each with min(Match, committed). |
| `RaftMachine.Raft.MaybeCommit` | raft/raft.go:638-653 | Moves the commit index exactly to the quorum index, exactly when that is a newer entry of the current term. |
| `RaftMachine.Raft.AppendEntry` | raft/raft.go:679-689 | Appends entries numbered and termed by the leader and counts its own copy. |
| `RaftMachine.Raft.Reset` | raft/raft.go:655-677 | Resets every field the source resets; the vote survives exactly when the term stays. |
| `RaftMachine.Raft.BecomeFollower` | raft/raft.go:730-737 | The follower state of the given term and leader. |
| `RaftMachine.Raft.BecomeCandidate` | raft/raft.go:739-750 | The candidate state of the next term, with a vote for itself. |
| `RaftMachine.Raft.BecomePreCandidate` | raft/raft.go:752-767 | The pre-candidate state: neither term nor vote changes. |
| `RaftMachine.Raft.BecomeLeader` | raft/raft.go:769-801 | The leader state, with an empty entry of the new term appended. |
| `RaftMachine.Raft.Poll` | raft/raft.go:842-857 | Only the first answer of a voter counts, and the count is the number of granted votes. |
| `RaftMachine.Raft.Campaign` | raft/raft.go:803-840 | Asks every other voter, for the next term in a pre-election, or moves on at once when one vote is a quorum. |
| `RaftMachine.Raft.HandleAppend` | raft/raft.go:1350-1364 | New state and answer of an append, in all of its branches. |
| `RaftMachine.Raft.HandleHeartbeat` | raft/raft.go:1366-1369 | New state and answer of a heartbeat. |
| `RaftMachine.Raft.HandleVotes` | raft/raft.go:955-992 | New state and answer of a vote or pre-vote request. |
| `RaftMachine.Raft.LeaderAppResp` | raft/raft.go:1093-1146 | New state and messages after an append response. |
| `RaftMachine.Raft.LeaderHeartbeatResp` | raft/raft.go:1147-1177 | New state and messages after a heartbeat response, with the reads it releases. |
| `RaftMachine.Raft.LeaderReadIndex` | raft/raft.go:1050-1083 | New state and messages after a read-index request. |
| `RaftMachine.Raft.LeaderTransfer` | raft/raft.go:1201-1231 | New state and messages after a transfer request. |
| `RaftMachine.Raft.CheckQuorumActive` | raft/raft.go:1583-1598 | Says whether a quorum was recently active and marks every peer inactive, whatever the visiting order. |
| `RaftMachine.Raft.StepLeader` | raft/raft.go:1007-1234 | Every message a leader handles leaves the state and messages that StepLeader defines. |
| `RaftMachine.Raft.StepCandidate` | raft/raft.go:1238-1281 | The same for a candidate or pre-candidate. |
| `RaftMachine.Raft.StepFollower` | raft/raft.go:1283-1348 | The same for a follower. |
| `RaftMachine.Raft.Step` | raft/raft.go:859-1002 | From any state and with any messages already waiting, Step leaves exactly the state and messages of RaftNode.Step, so the theorems over runs hold of the object. |
| `RaftMachine.RestartIsConstruction` | raft/raft.go:380-386 | The restart step of a run is construction from what was persisted. |
| `CommitIndex.Committer.QuorumMatch` | raft/raft.go:638-653 | Filling the reused buffer, sorting it and picking one position yields the quorum index. |
| `CommitIndex.Committer.Collect` | raft/raft.go:641-649 | The buffer holds the match indexes in some order: for every k as many reach k as peers do. |
| `CommitIndex.PickedIsReached` | raft/raft.go:650-651 | In a sorted sequence at least q elements reach the q-th from the end and fewer than q exceed it. |
| `InflightWindow.Inflights.Add` | raft/progress.go:217-247 | Adding to the ring, growing its buffer if need be, appends to the queue it stands for. |
| `InflightWindow.Inflights.GrowBuf` | raft/progress.go:234-247 | Growing the buffer does not change the queue and makes room. |
| `InflightWindow.Inflights.FreeTo` | raft/progress.go:249-276 | The loop over the ring drops from the queue what FreeTo drops. |
| `InflightWindow.Inflights.FreeFirstOne` | raft/progress.go:278 | Frees everything at or below the first element. |
| `InflightWindow.Inflights.Reset` | raft/progress.go:285-289 | Leaves the empty queue. |
| `InflightWindow.FreesLongestPrefix` | raft/progress.go:249-276 | FreeTo drops exactly the longest prefix at or below its argument. |
| `ReadOnlyQueue.ReadOnly.AddRequest` | raft/read_only.go:59-69 | A new context joins the end of the queue; a known one changes nothing. |
| `ReadOnlyQueue.ReadOnly.RecvAck` | raft/read_only.go:71-83 | Records the acknowledgement for its request and returns their number with the leader's own, or 0. |
| `ReadOnlyQueue.ReadOnly.Advance` | raft/read_only.go:85-132 | Dequeues exactly the requests up to the given context, in order, from queue and map; nothing if it is unknown. |
| `ReadOnlyQueue.ReadOnly.LastPendingRequestCtx` | raft/read_only.go:134-141 | The context of the newest pending request, or the empty one. |
| `MessageQueues.MessageQueue.Add` | raft/message_queue.go:87-103 | Accepts exactly when there is room and the queue is open; the batch handed out last stays intact. |
| `MessageQueues.MessageQueue.AddSnapshot` | raft/message_queue.go:105-117 | Accepts a snapshot exactly when the queue is open. |
| `MessageQueues.MessageQueue.Get` | raft/message_queue.go:134-151 | Hands out exactly what was accepted and not yet taken, snapshots first, each kind in arrival order, and keeps that batch intact under lazy clearing until the next Get. |
| `Logs.ConflictIsFirst` | raft/log.go:116-138 | Everything before the reported conflict is in the log with its term and the conflict is not; 0 means everything is. |
| `RaftLogs.MemoryStorage.Entries` | raft/storage.go:166-184 | The affordable prefix of the requested range, or the error the source gives. |
| `RaftLogs.MemoryStorage.Term` | raft/storage.go:186-198 | The term at a position of the log, or which error outside it. |
| `RaftLogs.MemoryStorage.ApplySnapshot` | raft/storage.go:229-245 | Replaces the log exactly when the snapshot is newer than the last one. |
| `RaftLogs.MemoryStorage.CreateSnapshot` | raft/storage.go:247-270 | Records index and term of a position without changing the log. |
| `RaftLogs.MemoryStorage.Compact` | raft/storage.go:272-293 | Sums up everything to the position and keeps every later entry, or refuses an old one. |
| `RaftLogs.MemoryStorage.Append` | raft/storage.go:295-330 | Cuts at the first new position and appends; what was compacted stays compacted. |
| `RaftLogs.Unstable.MaybeTerm` | raft/log_unstable.go:54-75 | Knows exactly the terms of its entries and of its snapshot's last position. |
| `RaftLogs.Unstable.StableTo` | raft/log_unstable.go:77-90 | Gives up entries exactly when position and term match an unstable entry. |
| `RaftLogs.Unstable.TruncateAndAppend` | raft/log_unstable.go:123-143 | All three cases are one: cut at the first new position, then append. |
| `RaftLogs.RaftLog.constructor` | raft/log.go:53-79 | A new log stands for its storage, committed and applied to the last compaction. |
| `RaftLogs.RaftLog.FirstIndex` | raft/log.go:180-189 | First position of the represented log. |
| `RaftLogs.RaftLog.LastIndex` | raft/log.go:191-200 | Last position of the represented log. |
| `RaftLogs.RaftLog.Term` | raft/log.go:234-254 | Term in the represented log, never an error. |
| `RaftLogs.RaftLog.FindConflict` | raft/log.go:127-138 | The loop finds the first entry whose term the represented log does not have. |
| `RaftLogs.RaftLog.Append` | raft/log.go:105-114 | The represented log is cut at the first new position and extended; nothing else changes. |
| `RaftLogs.RaftLog.MaybeAppend` | raft/log.go:85-103 | Refuses exactly when the previous entry does not match; otherwise the represented log is the merge and the commit index a maximum. |
| `RaftLogs.RaftLog.MaybeCommit` | raft/log.go:294-300 | Commits exactly a newer position of the given term. |
| `RaftLogs.RaftLog.CommitTo` | raft/log.go:202-210 | Never lowers the commit index and changes nothing else. |
| `RaftLogs.RaftLog.Restore` | raft/log.go:302-306 | The represented log becomes the snapshot. |
| `RaftLogs.RaftLog.MaybeRestore` | raft/raft.go:1386-1411 | An old snapshot changes nothing, one the log already contains only moves the commit index, any other replaces the log. |
| `RaftLogs.RaftLog.Compact` | raft/storage.go:272-293 | Compacting what was applied sums up the represented log and changes nothing above. |
| `RaftLogs.RaftLog.Slice` | raft/log.go:308-347 | The size-limited prefix of the represented range, wherever storage ends in it. |
| `RaftLogs.RaftLog.NextEnts` | raft/log.go:147-160 | The committed entries above both the applied index and the snapshot, cut to size. |
| `RaftLogs.JoinedAppends` | raft/log_unstable.go:123-143 | Cutting and appending in the unstable part is cutting and appending in the whole log. |
| `RaftLogs.JoinedSlices` | raft/log.go:317-346 | A range of the log is its stored part followed by its unstable part. |
| `RaftLogs.MergedHolds` | raft/log.go:87-103 | After a merge the log holds every entry that was sent. |
| `RaftLogs.MergeAgain` | raft/log.go:87-103 | Delivering an append again changes nothing, and an append changes the log exactly when it brings something new. |
| `RaftParts.HandleAppend` | raft/raft.go:1350-1364 | The handler on the log object, compacted or not, leaves it holding the log that RaftNode.HandleAppend gives and sends its reply. |
| `RaftParts.SendAppend` | raft/raft.go:522-633 | Sending an append on the ring-buffer window leaves it holding the inflight indexes of RaftNode.SendAppend. |
| `RaftParts.OnHeartbeatResp` | raft/raft.go:1147-1159 | The same for a heartbeat response, which may free a place and use it. |
| `RaftParts.AckRead` | raft/raft.go:1163-1177 | Acknowledging on the read-queue object leaves and releases the reads that RaftNode.LeaderAckRead does. |
| `RaftParts.SameMerge` | raft/log.go:87-103 | Merging an append into a compacted log is merging it into the whole log. |
| `SizeLimit.Limit` | raft/util.go:113-126 | The loop computes the size-limited prefix. |
| `SizeLimit.LimitSizeIsLongest` | raft/util.go:113-126 | That prefix is the longest within the budget, and never empty. |
| `SizeLimit.LimitOfPrefix` | raft/log.go:328-331 | A cut that falls inside the stored part is the cut of the whole range. |
| `Delivery.Node.NewReady` | raft/node.go:769-796 | A Ready holds the unstable entries, the pending snapshot and, if asked for, the next batch. |
| `Delivery.Node.Save` | node/raft.go:1039-1051 | Saving a Ready changes nothing observable and leaves storage standing for the whole log. |
| `Delivery.Node.Advance` | raft/node.go:477-508 | The applied index moves to the last position handed out, nothing is unstable any more, and the represented log is unchanged. |
| `Delivery.Node.Stabilise` | raft/log.go:222-224 | After saving, stableTo and stableSnapTo leave the represented log unchanged and nothing unstable. |
| `Delivery.CursorIsLast` | raft/node.go:120-131 | The cursor of a Ready is the last position it hands out. |
| `Delivery.NextOfRange` | raft/log.go:147-160 | A batch starts right after what is done, has no gap, stops at the commit index and is empty only if nothing is left. |
| `Delivery.HandedOnceInOrder` | raft/node.go:350-404 | Over every run of appends, commits, snapshots, compactions and Ready cycles, what is handed out leads step by step to the applied index, and each entry is the one the log holds. |
| `Delivery.NeverTwice` | raft/node.go:120-131 | No position is handed out twice or out of order. |
| `Delivery.NeverSkipped` | raft/log.go:147-160 | Every position up to the applied index is handed out or covered by an installed snapshot. |
| `Delivery.MergeGrows` | raft/log.go:87-103 | An accepted append changes nothing at or below the commit index, which never decreases. |
| `Delivery.MaybeRestoreSteps` | raft/raft.go:1386-1411 | What MaybeRestore does to the log is a step of such a run: a newer snapshot replaces the log exactly when the log does not contain it. |
| `Delivery.CompactSteps` | raft/storage.go:273-293 | What Compact does to the log is a compaction step of such a run, or nothing observable. |
| `Delivery.AdvanceHands` | raft/node.go:477-508 | A confirmed Ready is one delivery step of such a run. |
| `Delivery.Progress.ApplyEntries` | node/node.go:1224-1276 | Applies exactly the entries of a batch beyond the applied position, and ends at the larger of that and the batch's last; a batch that starts beyond the next position changes nothing. |
| `Delivery.Progress.ApplyAll` | node/node.go:1224-1276 | Batch after batch, the same. |
| `Delivery.AppliedOnceInOrder` | node/node.go:1228-1276 | However batches overlap, repeat or fail to connect, what is applied is exactly the stretch of the log between the old and the new position, once and in order. |
| `Delivery.ConnectedReachesAll` | node/node.go:1228-1243 | If each batch starts at most one past the position reached, the final position is the furthest last one of all. |
| `ApplyBatch.Applier.ApplyAll` | node/state_machine.go:670-819 | Every request has the fate it earns on the store left by the successful ones before it, that store is the result, and each request gets exactly the answer of its fate, successes in order. A command that would have succeeded is lost only to a failed write or to a later command of its batch. While no write fails, the replies are those of one request at a time exactly if no command spoils a batch. |
| `ApplyBatch.Applier.ApplyOne` | node/state_machine.go:670-794 | One round of the request loop keeps that for every kind of request; answers once given stay, and only waiting requests change their fate. |
| `ApplyBatch.Applier.ApplyBatched` | node/state_machine.go:727-757 | A batched command waits with its response, fails alone, or fails and takes everything that waits with it; the store is left alone. |
| `ApplyBatch.Applier.ApplySingle` | node/state_machine.go:724-771 | An unbatched command takes effect at once and is answered, or does nothing and is answered with its own error or that of the failed write. |
| `ApplyBatch.Applier.CommitBatch` | node/state_machine.go:170-198 | If the write succeeds the whole batch is in the store and answered with its responses in order; otherwise the store is unchanged and all of it is answered with the error. |
| `ApplyBatch.Applier.AbortBatchForError` | node/state_machine.go:152-168 | The write batch is dropped, the store is unchanged, and everything that waits is lost and answered with the error. |
| `ApplyBatch.Applier.AnswerBatch` | node/state_machine.go:181-188 | The waiting requests are answered once each, in order, with their responses or with the error. |
| `ApplyBatch.Applier.Refuse` | node/state_machine.go:680-683 | What is not a supported command is answered with an error, and nothing else changes. |
| `ApplyBatch.Applier.Handle` | rockredis/rockredis.go:983-990 | A handler reads the store, not the write batch, and writes at once unless batching. |
| `ApplyBatch.NoneLostIsOneByOne` | node/state_machine.go:670-819 | Fates, and with them store and answers, are those of one request at a time exactly if nothing is lost. |
| `ApplyBatch.LossShows` | node/state_machine.go:152-168 | If anything is lost, the replies differ from one request at a time. |
| `ApplyBatch.NoAbortNoSpoil` | node/state_machine.go:738-747 | If no request fails with an aborting error, no batch is spoiled. |
| `ApplyBatch.SecondSpoilsFirst` | node/state_machine.go:738-747 | Two commands of one batch of which the second aborts the first. |
| `ApplyBatch.SameEffect` | node/state_machine.go:138-150 | Because a batch never holds a key twice, a batched command does what it would do one at a time. |
| `ApplyBatch.StoreWaits` | node/state_machine.go:138-150 | A batched command adds to the write batch what it would write one at a time. |
| `ApplyBatch.AfterOneReads` | rockredis/rockredis.go:976-1005 | A successful command sets its own key to what it wrote, and no other. |
| `ApplyBatch.StoreCommits` | rockredis/rockredis.go:992-1000 | Writing the batch equals applying its commands one at a time. |
| `Varints.EncodeVarint` | node/raft_internal.pb.go:453-461 | Writes exactly the varint at the offset and nothing else. |
| `Varints.VarintSize` | node/raft_internal.pb.go:552-561 | The number of bytes of the varint. |
| `Varints.DecodeVarint` | node/raft_internal.pb.go:599-612 | Reads at most ten bytes and fails on overflow or end of input. |
| `Varints.VarintRoundTrip` | node/raft_internal.pb.go:453-461 | A 64-bit varint followed by anything reads back. |
| `Varints.NegativeTakesTen` | node/raft_internal.pb.go:307-311 | A negative field takes ten bytes. |
| `Varints.SignedRoundTrip` | node/raft_internal.pb.go:617-631 | A signed field survives extension to 64 bits and cutting back. |
| `Wire.Size` | node/raft_internal.pb.go:495-530 | The number of bytes of the encoding. |
| `Wire.MarshalTo` | node/raft_internal.pb.go:362-416 | Writes exactly the encoding at the start of the buffer, leaves the rest of it alone and returns its length. |
| `Wire.MarshalRequest` | node/raft_internal.pb.go:330-350 | Writes exactly the encoding of one request at an offset and nothing else. |
| `Wire.MarshalHeader` | node/raft_internal.pb.go:297-318 | Writes exactly the encoding of a header at an offset and nothing else. |
| `Wire.Marshal` | node/raft_internal.pb.go:352-360 | A buffer of Size bytes is filled exactly. |
| `Wire.Unmarshal` | node/raft_internal.pb.go:795-1027 | The loop over fields computes the parse of a batch, unknown fields skipped. |
| `Wire.UnmarshalRequest` | node/raft_internal.pb.go:675-794 | The loop over fields computes the parse of a request. |
| `Wire.UnmarshalHeader` | node/raft_internal.pb.go:565-674 | The loop over fields computes the parse of a header. |
| `Wire.BatchRoundTrip` | node/raft_internal.pb.go:795-1027 | Parsing the encoding of any batch into a fresh value gives the batch back. |
| `Wire.UnknownIsIgnored` | node/raft_internal.pb.go:1004-1020 | A field of any unknown number, up to the largest one, and of any wire type but a group is skipped and changes nothing. |
| `WireSchema.VarintForm` | node/raft_internal.pb.go:453-461 | A varint is seven-bit groups, lowest first, with the continuation bit on all but the last and no group wasted. |
| `WireSchema.VarintReads` | node/raft_internal.pb.go:599-612 | It is read up to the first byte without that bit, at most ten bytes; anything else is an error. |
| `WireSchema.BatchSchema` | node/raft_internal.proto:28-38 | The encoding of a batch is its fields in the order of their numbers, defaults left out. |
| `WireSchema.RequestSchema` | node/raft_internal.proto:23-26 | The same for a request, whose header is always there. |
| `WireSchema.HeaderSchema` | node/raft_internal.proto:17-21 | The same for a header. |
| `WireSchema.BatchReadsFields` | node/raft_internal.pb.go:795-1027 | Fields in any order and number: each sets what its number says, the last one counts, requests add up, unknown ones are ignored, a wrong wire type is an error. |
| `WireSchema.RequestReadsFields` | node/raft_internal.pb.go:675-794 | The same for a request. |
| `WireSchema.HeaderReadsFields` | node/raft_internal.pb.go:565-674 | The same for a header. |
| `Wire.RequestRoundTrip` | node/raft_internal.pb.go:675-794 | The same for a request. |
| `Wire.HeaderRoundTrip` | node/raft_internal.pb.go:565-674 | The same for a header. |
| `ByteOrder.FastReverseBytes` | rockredis/bytes.go:141-154 | Complementing word by word and then the rest complements every byte. |
| `ByteOrder.SafeReverseBytes` | rockredis/bytes.go:156-160 | Complements every byte. |
| `BytesCodec.EncodeBytes` | rockredis/bytes.go:45-68 | Appends the encoding to the buffer. |
| `BytesCodec.EncodeBytesDesc` | rockredis/bytes.go:124-129 | Appends the complement of the encoding. |
| `BytesCodec.EncodedDiffer` | rockredis/bytes.go:34-68 | Encodings of different strings differ first at a byte that orders them as the strings; none is a prefix of another. |
| `BytesCodec.EncodedOrder` | rockredis/bytes.go:34-68 | Encodings sort as the strings do, whatever follows them. |
| `BytesCodec.DescendingOrder` | rockredis/bytes.go:122-129 | Complemented encodings sort the other way round, whatever follows them. |
| `BytesCodec.LaysOut` | rockredis/bytes.go:34-68 | Byte l of a string is byte l % 8 of group l / 8, missing bytes are zero, and markers say 255 or 247 plus the number of bytes. |
| `BytesCodec.DecodeBytes` | rockredis/bytes.go:70-114 | The loop decodes, in reverse mode as if the input were complemented. |
| `BytesCodec.RoundTrip` | rockredis/bytes.go:116-120 | An encoding followed by anything decodes to the string and the rest. |
| `BytesCodec.DescendingRoundTrip` | rockredis/bytes.go:131-135 | The same for the descending form. |
| `BytesCodec.Canonical` | rockredis/bytes.go:70-114 | Whatever decodes is the encoding of the result followed by the rest. |
| `BytesCodec.DescendingCanonical` | rockredis/bytes.go:131-135 | The same for the descending form. |
| `BytesCodec.DecodesUnlessBad` | rockredis/bytes.go:70-114 | A string decodes exactly if its first group that is not full has a marker of at least 247 and zero pads. |
| `BytesCodec.PeekBytes` | rockredis/memcmp_codec.go:178-198 | The loop finds the end of the first group that is not full. |
| `BytesCodec.PeekFindsEnd` | rockredis/memcmp_codec.go:178-198 | Wherever decoding succeeds, peeking stops at the same place. |
| `NumberCodec.WordOrder` | rockredis/number.go:76-90 | Words sort as their values and complemented words the other way round, whatever follows. |
| `NumberCodec.WordNot` | rockredis/number.go:84-90 | The descending form of a word is the complement of the ascending one. |
| `NumberCodec.WordRoundTrip` | rockredis/number.go:92-102 | A word followed by anything reads back. |
| `NumberCodec.WordCanonical` | rockredis/number.go:92-102 | A word that decodes is the encoding of its value. |
| `NumberCodec.IntCmp` | rockredis/number.go:24-30 | The sign flip keeps the order of 64-bit integers and is undone in both directions. |
| `NumberCodec.FloatCmp` | rockredis/number.go:117-125 | Doubles that are numbers sort by numeric value, infinities included, and only the two zeros coincide. |
| `NumberCodec.FloatRoundTrip` | rockredis/number.go:127-134 | A double comes back exactly unless it is -0.0 or a NaN without sign bit; -0.0 comes back as 0.0. |
| `NumberCodec.FloatCanonical` | rockredis/number.go:127-134 | A word is the encoding of the double it decodes to, except in those two cases. |
| `NumberCodec.NaNCollides` | rockredis/number.go:117-125 | A NaN shares its encoding with a number exactly if it has no sign bit; that number is not negative. |
| `NumberCodec.IntDescOrder` | rockredis/number.go:41-48 | Of two integers in the descending form the larger sorts first, whatever follows. |
| `NumberCodec.IntDescRoundTrip` | rockredis/number.go:63-74 | Descending integers read back, and what reads is the only encoding of its value. |
| `NumberCodec.FloatDescOrder` | rockredis/number.go:149-154 | Of two doubles in the descending form the larger sorts first, and only the two zeros coincide. |
| `NumberCodec.FloatDescRoundTrip` | rockredis/number.go:156-160 | A descending double reads back, and is the only encoding of its value, with the two exceptions of the ascending form. |
| `TupleCodec.MemcmpEncode` | rockredis/memcmp_codec.go:30-62 | Appends the encodings of the values in order, or fails exactly when a type is not supported. |
| `TupleCodec.TupleOrder` | rockredis/memcmp_codec.go:76-80 | Keys sort exactly as the tuples: field by field, nil before strings before integers before floats and then by value, a prefix first. |
| `TupleCodec.ValuesDiffer` | rockredis/memcmp_codec.go:30-62 | Encodings of different values differ first at a byte that orders them. |
| `TupleCodec.ScanBounds` | rockredis/memcmp_codec.go:82-90 | The maximum key sorts after every key, and the not-null minimum separates keys that start with nil. |
| `TupleCodec.StoredForm` | rockredis/memcmp_codec.go:20-74 | What is on disk byte by byte: the kind as 0, 1, 3 or 5, strings in groups of nine, integers moved up by 2^63, doubles with the sign or all bits flipped. |
| `TupleCodec.KindByFirstByte` | rockredis/memcmp_codec.go:117-144 | The first byte alone decides the kind that is read. |
| `TupleCodec.Decode` | rockredis/memcmp_codec.go:95-115 | Decodes value by value; an empty key is an error. |
| `TupleCodec.OneRoundTrip` | rockredis/memcmp_codec.go:117-144 | A value followed by anything is read back, unchanged exactly when it is not one of the two lossy floats. |
| `TupleCodec.OneCanonical` | rockredis/memcmp_codec.go:117-144 | What decodes is the encoding of the value and the rest, exactly when the value is not a lossy float. |
| `TupleCodec.TupleRoundTrip` | rockredis/memcmp_codec.go:95-115 | A whole key is read back. |
| `TupleCodec.CutOne` | rockredis/memcmp_codec.go:146-176 | Cuts where the flag and the markers say, or reports an error or a cut past the end. |
| `TupleCodec.CutsWhereDecodeStops` | rockredis/memcmp_codec.go:146-176 | Wherever DecodeOne succeeds, CutOne stops at the same place and the piece decodes by itself. |
| `TupleCodec.CutDecodesWithPiece` | rockredis/memcmp_codec.go:146-176 | DecodeOne succeeds exactly when CutOne does and the piece decodes. |
| `TupleCodec.CutDisagrees` | rockredis/memcmp_codec.go:146-198 | On the bytes: CutOne cuts what DecodeOne refuses exactly for a string whose last group has a marker below 247 or a pad that is not zero, and cuts past the end exactly for a number of fewer than eight bytes. |
| `TupleCodec.CutIsLenient` | rockredis/memcmp_codec.go:154-176 | Inputs that CutOne cuts, or overruns, and DecodeOne refuses. |

## Left out

- Membership changes, learners and `pendingConf`: the voters are fixed, so conf-change entries, the pending-conf check before a campaign and learner progress do not occur.
- Snapshots and compaction between nodes: at cluster level logs are never compacted, so `MsgSnap`, `MsgSnapStatus` and the snapshot progress state do not occur. On one node they are modelled in `RaftLogs` and `Delivery`.
- Saving is atomic with a step: a crash between a step and the saving of its Ready, WAL files and snapshot transfer are not modelled.
- Liveness: elections and commitment are shown to be possible from every state, not to happen in time. Tick counters other than the election clock are not modelled; timers may fire at any time.
- Lease-based reads (`ReadOnlyLeaseBased`): modelled as handlers, but their safety rests on clocks and is not claimed.
- RaftMachine.Raft.Step: does not model the dropped-message error return, group ids, logging or random timeouts; the order of messages is not part of its contract, only their set.
- Safety.MatchSoundness: of a peer in a later term nothing is claimed for entries that the leader inherited from earlier terms, only for those of its own term.
- RaftMachine.Raft.HandleAppend: merges by the function `Merged`; `RaftParts.HandleAppend` does the same on the log object, with compaction.
- Delivery.Node.NewReady: messages, hard state, soft state and read states of a Ready are not modelled.
- Delivery.Node.Advance: only the log; the hard and soft state it remembers are not modelled.
- Delivery.Progress.ApplyEntries: configuration changes, the stop signal and the forced backup are not modelled.
- Delivery.Node.Save: takes it that the storage's own snapshot is older than an incoming one, which holds while the application snapshots no further than it applied.
- SizeLimit.Limit: entry sizes are an arbitrary function and their sum does not wrap around.
- CommitIndex.Committer.QuorumMatch: the library sort is an insertion sort on values.
- MessageQueues.MessageQueue.Add: locking and the notification channel are not modelled; every call is atomic. The proposal queue has the same shape and is left out.
- ReadOnlyQueue.ReadOnly.Advance: the reuse of the queue's backing array is not modelled.
- ApplyBatch.Applier.ApplyAll: commands touch the one key they name; table counters, multi-key `del`, the conflict check for requests from the cluster syncer, custom and schema requests, and the crash on a full disk are left out.
- Wire.Unmarshal: which error is reported is not modelled, only that there is one. Schema-change messages are left out. Groups are skipped as the source does, but nothing is claimed about them.
- ByteOrder.FastReverseBytes: a machine word is eight bytes complemented together; the pointer cast is not modelled.
- RocksDB and Badger storage, the Redis commands, the cluster manager, HTTP and metrics: not modelled.

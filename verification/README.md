# Verified models of the 6.824 labs

A Dafny 4.11 model of five components of the repository under `labs/src`, with proofs of what each of
them is for. `dafny verify dfyconfig.toml` checks everything.

| component | files | main results |
|---|---|---|
| Raft (`raft/raft.go`) | `Raft*.dfy` | over every run with elections, lost, delayed and reordered messages, snapshots, crashes and restarts: State Machine Safety, Leader Completeness, Election Safety, Log Matching with trimmed logs, no log read outside the retained window; what is committed is on the disks of a majority; exactly when a peer votes twice in a term; every log keeps the order in which its commands were proposed; the rules for servers as laws of the handlers; a follower is found after a bounded number of refusals |
| Porcupine (`porcupine/checker.go`, `bitset.go`, `models/kv.go`) | `Linearizability`, `Entries`, `Bitset`, `DancingLinks`, `LinkedEntries`, `Search`, `Checker`, `KvModel`, `CheckOperations` | the search stops, answers true exactly when a linearization exists, records the longest partial ones, and a history over many keys passes exactly when it is linearizable against the whole store |
| Shard controller (`shardctrler/server.go`) | `Rebalance`, `ShardCtrl`, `ShardCtrlLog`, `ShardCtrlServer` | what every request does and answers over every log, each operation executed once; exact partition over every admissible log, balance, minimal movement, one result whatever order Go runs through maps, in every state the program survives |
| Sharded KV (`shardkv/server.go`) | `ShardGroup`, `ShardSystem`, `ShardOnce` | at most one owner of a shard; moving shards is invisible to one logical map; exactly when a move loses a shard; exactly when a repeated command runs again, and exactly-once across moves for clients that keep their turn |
| shared | `IdLists`, `MapIteration`, `Lexicographic`, `Sorting`, `Shards` | lists that stand for sets; Go's unordered `range` over a map; the order of strings; sorting; the number of shards |
| KV service and MapReduce (`kvraft/server.go`, `mr/worker.go`, `main/mrsequential.go`) | `KvServer`, `KvService`, `KvHistories`, `KvClients`, `MapReduce`, `MapReduceWorker` | exactly-once execution against the sequential store, by the server fed from a Raft run through crashes and restarts; over every run what all clients are told is linearizable in the sense that Porcupine checks; bucketed output equals the sequential output up to order |

How the models are built:

- Raft is a transition system. A handler is a function in `RaftNode`, an atomic locked region of the source. The
  class `RaftPeer.Peer` is the server's own code, fields and loops, and each of its methods is proved equal to
  the function. `RaftCluster` adds the network, durable copies, crashes and history variables. The network is a
  set of messages; any message may be lost or wait for ever. A vote request or reply is delivered at most once,
  as `labrpc` does; append and install traffic may even be delivered again, which allows more runs than the
  source has. A snapshot's data is the list of commands it stands for, and saving state and snapshot is atomic.
  A turn of the applier is atomic. The number of peers is odd and at least three. A handler's `requires` is what
  keeps the Go code from an out-of-range access, and `RunsNeverPanic` shows that no run ever gets there.
- In the other components a mutable struct is a class whose methods are proved against functions of its state,
  and the theorems are about those functions. A Go `range` over a map takes any key not yet visited.
- Where the code departs from its description, the model follows the code and says exactly how far it departs:
  - Raft: a candidate that meets its term's leader forgets its vote. `SecondVoteIff` says when a peer grants a second
    candidate of a term, `TwoVotes` and `OwnVoteCameFirst` what two votes imply, and `WinningQuorumIsFrozen` why
    elections are safe all the same. `InstalledSnapshotIsVolatile`: InstallSnapshot does not persist.
    `RuleIsSoundIffOdd`: the commit rule is wrong for an even number of peers. `PassedOverOnlyIf`: when a leader backs up it
    may pass over one index at which the logs agree, and `PassesOver` is a pair of logs where it does.
  - Shard hand-off: `RemovalLosesIff` (a removal loses its shards exactly when the target is no group or has already
    received that list under that number; both happen, `RemovalToNobodyLoses` and `StaleRemovalLoses`). A command that
    reaches a group again is executed again exactly when the group serves the shard and the last thing it has learnt
    about the client, by executing or from a parcel, is not that command (`RunsIff`). `RunsTwiceWhen` lists the three ways
    in which taking a parcel over leaves it unrecognised, `OneAppendTwice` and `OvertakenAppendTwice` are runs. Commands
    are executed once, across all moves, for a client whose numbers start at 1 and which has no request applied once a
    later one has been executed (`OnceAcrossMoves`); the clerk starts at 0 and cannot recall a delayed request.
  - Shard controller: `OpValidIff` (a group that joins twice or is listed twice in a leave loses its shards, a move to an
    unknown group breaks the allocation), `OpSaneIff` (the requests at which the program ends itself), and `QueryAnswered`
    (a query beyond the latest configuration returns the latest, although the comments promise that only for -1).
  - KV service: `OnceIffOrderly` for the recognition of duplicates (`LateRepeat` is a log that doubles an append), and
    `AcceptedIff` for the answer of `waitApplyL`, which a client also takes for its own when another client's get came out
    of the log at its index and found no key. `StrangersAnswer` is a run in which a client is told so although no log
    holds its command. `ServiceIsLinearizable` therefore asks that an answer be about the operation itself, which
    `WaitTellsIff` makes exact. `shardkv` compares in the same way (`shardkv/server.go:229`).

## Model

| member | source | states |
|---|---|---|
| `RaftSafety.StateMachineSafety` | labs/src/raft/raft.go:361-683 | State Machine Safety: what any two peers have handed to their services, at any two moments of a run, agrees at every index both have reached |
| `RaftSafety.LeaderCompleteness` | labs/src/raft/raft.go:371-398 | what a peer holds committed at a moment is in the log or under the snapshot of every leader of that or a later term at every later moment |
| `RaftSafety.ElectionSafety` | labs/src/raft/raft.go:724-803 | two leaders of one term, at any two moments of a run, are the same peer |
| `RaftSafety.LogMatchingTheorem` | labs/src/raft/raft.go:437-505 | peers that retain an index with the same term agree on every entry above both bases up to it and on what their snapshots hide |
| `RaftSafety.VotesAreDistinct` | labs/src/raft/raft.go:780-803 | a candidate's vote counter is the number of distinct peers that granted it a vote in its term |
| `RaftSafety.EveryStepIsSafe` | labs/src/raft/raft.go:312-332 | in a state satisfying the invariant every enabled step reads and cuts the log inside its retained window |
| `RaftSafety.StepInv` | labs/src/raft/raft.go:361-976 | every step of the protocol keeps the inductive invariant |
| `RaftSafety.RunInv` | labs/src/raft/raft.go:361-976 | the invariant holds at every state of every run |
| `RaftSafety.RunsNeverPanic` | labs/src/raft/raft.go:312-332 | every enabled action extends every run: no reachable access is out of range |
| `RaftSafety.DeliveryMovesForward` | labs/src/raft/raft.go:619-683 | between any two moments of a run without a crash of the peer between them, lastApplied does not fall and what the service has absorbed only grows, as a prefix |
| `RaftSafety.NothingIsSkipped` | labs/src/raft/raft.go:619-683 | a turn of the applier delivers the command right after those applied, or a snapshot that goes beyond them |
| `RaftSafety.ServiceFollowsLog` | labs/src/raft/raft.go:548-615 | the service has absorbed a prefix of the peer's content; log[0] matches the snapshot's index and term, in memory and on disk |
| `RaftHistory.QuorumsMeet` | labs/src/raft/raft.go:780-803 | two majorities share a peer |
| `RaftHistory.LogMatching` | labs/src/raft/raft.go:437-505 | equal terms at an index mean equal full logs up to it |
| `RaftHistory.CommittedInLeader` | labs/src/raft/raft.go:926-940 | a committed prefix is in the log of every leader from its term on |
| `RaftHistory.CommittedComparable` | labs/src/raft/raft.go:926-940 | any two committed prefixes lie on one line |
| `RaftElection.UpToDateCovers` | labs/src/raft/raft.go:382-398 | a candidate that passes the up-to-date check holds every choosable prefix the voter has acknowledged |
| `RaftElection.TimeoutInv` | labs/src/raft/raft.go:735-752 | starting an election keeps the invariant |
| `RaftElection.StepDownInv` | labs/src/raft/raft.go:724-733 | stepping down, which may forget a vote, keeps the invariant |
| `RaftVoting.VoteRequestInv` | labs/src/raft/raft.go:361-399 | answering a vote request keeps the invariant |
| `RaftVoting.FirstWinner` | labs/src/raft/raft.go:780-803 | a candidate with a majority is the first winner of its term, although peers may vote twice in a term |
| `RaftVoting.VoteResponseInv` | labs/src/raft/raft.go:780-803 | counting a vote and becoming leader keep the invariant |
| `RaftReplication.MergeFull` | labs/src/raft/raft.go:437-472 | on the full log AppendEntries keeps what already extends the shipped prefix and otherwise adopts it, although it sees only the window |
| `RaftReplication.TrimFull` | labs/src/raft/raft.go:328-332 | trimming changes the window but not the full log |
| `RaftAppend.AppendRequestInv` | labs/src/raft/raft.go:410-505 | handling AppendEntries keeps the invariant |
| `RaftInstall.InstallFull` | labs/src/raft/raft.go:544-561 | on the full log installing a snapshot is adopting the prefix it stands for |
| `RaftInstall.InstallRequestInv` | labs/src/raft/raft.go:516-561 | handling InstallSnapshot, which does not persist, keeps the invariant |
| `RaftLeading.SortedPosition` | labs/src/raft/raft.go:926-940 | at least n - k of the match indices reach the k-th smallest |
| `RaftLeading.CommitQuorum` | labs/src/raft/raft.go:926-940 | for odd n the followers that reach matchIndex[n/2+1], with the leader whose slot is 0, are a majority |
| `RaftLeading.CommitReadInWindow` | labs/src/raft/raft.go:926-940 | reading the candidate's entry stays inside the retained window |
| `RaftLeading.CommitRuleSound` | labs/src/raft/raft.go:926-940 | what the commit rule accepts is committed |
| `RaftLeading.AppendResponseInv` | labs/src/raft/raft.go:876-940 | handling an append reply keeps the invariant |
| `RaftProposing.AppendArgsMade` | labs/src/raft/raft.go:865-874 | an append request carries the leader's whole tail |
| `RaftProposing.SendInv` | labs/src/raft/raft.go:834-874 | sending append and install requests keeps the invariant |
| `RaftProposing.NewEntryDead` | labs/src/raft/raft.go:153-179 | a new entry of an overtaken leader can no longer be chosen |
| `RaftProposing.ProposeInv` | labs/src/raft/raft.go:153-179 | starting a command keeps the invariant |
| `RaftProposing.InstallResponseInv` | labs/src/raft/raft.go:961-976 | handling an install reply keeps the invariant |
| `RaftDelivery.CompactInv` | labs/src/raft/raft.go:196-209 | taking a snapshot and trimming keep the invariant |
| `RaftDelivery.CommandProgress` | labs/src/raft/raft.go:619-659 | a delivered command is the next entry of the committed log, or the applier stops |
| `RaftDelivery.SnapshotProgress` | labs/src/raft/raft.go:661-683 | a snapshot is delivered only forward and stands for the committed prefix it names |
| `RaftDelivery.RestartPeer` | labs/src/raft/raft.go:591-615 | restarting from disk loses nothing that was acknowledged |
| `RaftGuarantees.SecondVoteIff` | labs/src/raft/raft.go:390-398 | a peer that has granted d in its term grants another up-to-date candidate of the term exactly when d is itself and votedFor is empty or that candidate; the term then has a leader already |
| `RaftGuarantees.TwoVotes` | labs/src/raft/raft.go:390-398 | two votes of a peer in one term: one was for itself, and another peer leads the term |
| `RaftGuarantees.OwnVoteCameFirst` | labs/src/raft/raft.go:735-746 | a peer that ever votes for itself in a term did so before any other vote it gives in that term |
| `RaftGuarantees.WinningQuorumIsFrozen` | labs/src/raft/raft.go:361-399 | once a term has a leader, no member of the majority that elected it has granted or ever grants another candidate in that term |
| `RaftGuarantees.ClampNeverBites` | labs/src/raft/raft.go:467-469 | in every run, whenever handling an append request in the network succeeds, the clamp of its commit index to the new last index changes nothing |
| `RaftGuarantees.CommittedIsDurable` | labs/src/raft/raft.go:548-586 | in every run, what any peer holds committed is held by a majority of the peers on their disks, in the saved snapshot followed by the saved log |
| `RaftRules.VoteTerms` | labs/src/raft/raft.go:361-399 | a vote request of a later term makes the peer a follower of that term, one of an earlier term is refused and changes nothing; the log is never touched |
| `RaftRules.AppendTerms` | labs/src/raft/raft.go:410-435 | the same for append requests, which also make a candidate of the same term a follower |
| `RaftRules.InstallTerms` | labs/src/raft/raft.go:516-544 | the same for snapshots |
| `RaftRules.LaterAnswersDepose` | labs/src/raft/raft.go:724-733 | a candidate or leader that is answered with a later term becomes a follower of it with no vote |
| `RaftRules.VoteIff` | labs/src/raft/raft.go:371-398 | a vote is granted exactly when the term is not behind, the peer has no vote in it or this candidate has it, and the candidate's last entry is of a later term, or of the same with an index no smaller; the vote is then saved |
| `RaftRules.OneIsElectable` | labs/src/raft/raft.go:371-392 | of any two peers at least one gets the other's vote in a term new to both |
| `RaftRules.StandsForNext` | labs/src/raft/raft.go:735-752 | a candidate stands for the next term with its own vote, and its request tells of its last entry |
| `RaftRules.MajorityWins` | labs/src/raft/raft.go:780-803 | in every run a granted vote makes its candidate leader exactly when it completes a majority of distinct peers |
| `RaftRules.LeaderBegins` | labs/src/raft/raft.go:805-820 | a new leader has every nextIndex past its last entry and every matchIndex at zero |
| `RaftRules.AppendIff` | labs/src/raft/raft.go:437-505 | an append request succeeds exactly when its term is not behind and the follower retains the entry before it with its term; else the log stays |
| `RaftRules.AcceptedLog` | labs/src/raft/raft.go:457-466 | after an accepted request the log is as before up to its entries and has them with their terms; it ends with them exactly if one was new, and is then saved |
| `RaftRules.AcceptedCommit` | labs/src/raft/raft.go:467-472 | the commit index follows the leader's as far as the log reaches and never falls |
| `RaftRules.RequestMade` | labs/src/raft/raft.go:865-874 | a request names the entry before nextIndex and carries every entry after it, the term and the commit index |
| `RaftRules.StartAppends` | labs/src/raft/raft.go:153-179 | a command becomes the last entry, of the leader's term, and is saved |
| `RaftRules.InstallIff` | labs/src/raft/raft.go:516-561 | a snapshot is taken over exactly when its term is not behind and it goes beyond the base: it is the new base, entries after a matching one stay and all others go, and it is due for delivery |
| `RaftRules.SnapshotTrims` | labs/src/raft/raft.go:196-209 | taking a snapshot moves the base up to it, keeps what follows and saves both; one not beyond the base changes nothing |
| `RaftRules.StopsIff` | labs/src/raft/raft.go:619-659 | the applier delivers the next command, and stops exactly when that entry has been trimmed away |
| `RaftRules.SnapshotDeliveredIff` | labs/src/raft/raft.go:661-683 | a snapshot is delivered exactly when it goes beyond what was applied, and then counts as applied |
| `RaftRules.RestartRemembers` | labs/src/raft/raft.go:591-615 | a restart depends on what was saved alone, and saves nothing new |
| `RaftRules.InstallAcknowledged` | labs/src/raft/raft.go:961-976 | an acknowledged snapshot counts as entries the follower has; nothing known of others changes |
| `RaftRules.CandidateReaches` | labs/src/raft/raft.go:926-940 | for odd n the index that the rule tries reaches k exactly when a majority is known to have k |
| `RaftRules.AcknowledgedCommits` | labs/src/raft/raft.go:876-940 | in every run an acknowledged request counts as entries the follower has, and the commit index becomes the greatest index of the leader's term on a majority, if that is greater |
| `RaftBackup.RefusalIs` | labs/src/raft/raft.go:479-505 | what a refusal tells: the follower's last index or base, or the term of its entry and where its run of that term begins |
| `RaftBackup.RefusalGuides` | labs/src/raft/raft.go:905-924 | a refused request of the leader's term: the next one asks about the follower's last entry or base if its log is shorter or trimmed beyond, else about an earlier entry than before; it passes over no index above the base where the logs agree, but for the new nextIndex itself |
| `RaftBackup.PassedOverOnlyIf` | labs/src/raft/raft.go:905-924 | the logs can agree at the new nextIndex only if the leader has no entry of the refused term in the follower's run of it |
| `RaftBackup.PassesOver` | labs/src/raft/raft.go:905-924 | and then they can: two logs that agree at an index the leader does not ask about |
| `RaftBackup.Exchange` | labs/src/raft/raft.go:834-940 | one exchange of request and reply: accepted exactly where the logs agree; otherwise nextIndex falls, or jumps to the follower's base if that has been trimmed beyond |
| `RaftBackup.FollowerIsFound` | labs/src/raft/raft.go:834-940 | in every run, from every moment, a leader talking to a follower of no later term has a request accepted or turns to a snapshot within as many requests as it has entries, and three |
| `RaftOrigin.DeliveredWereProposed` | labs/src/raft/raft.go:153-179 | in every run, what a service has absorbed is a part of the commands proposed before, in the order of their proposals |
| `RaftOrigin.NewComesAfter` | labs/src/raft/raft.go:153-179 | a command first proposed after a moment is delivered by any peer, if at all, beyond everything that any peer had delivered by then |
| `RaftOverwrite.OverwrittenProposal` | labs/src/raft/raft.go:437-472 | for all commands x and y, a run of three peers in which a leader gives out index 1 for x and, without a crash, delivers y there, x being in no log |
| `RaftDepartures.CandidateVotesAgain` | labs/src/raft/raft.go:422-424 | a candidate that meets its term's leader forgets its vote and grants the next up-to-date request of the term |
| `RaftDepartures.InstalledSnapshotIsVolatile` | labs/src/raft/raft.go:548-560 | a crash after InstallSnapshot restores the state from before it |
| `RaftDepartures.RuleIsSoundIffOdd` | labs/src/raft/raft.go:926-940 | every index the commit rule may pick is on a majority if and only if n is odd |
| `RaftDepartures.EvenIsNot` | labs/src/raft/raft.go:926-940 | for every even n, match indices for which the rule picks an index held by half the peers only |
| `RaftPeer.Peer.constructor` | labs/src/raft/raft.go:591-615 | boots from the saved state as Restart does |
| `RaftPeer.Peer.BecomeFollowerL` | labs/src/raft/raft.go:724-733 | new state is that of the handler function |
| `RaftPeer.Peer.BecomeCandidateL` | labs/src/raft/raft.go:735-752 | new state and request are those of the handler functions |
| `RaftPeer.Peer.BecomeLeaderL` | labs/src/raft/raft.go:805-820 | new state is that of the handler function: nextIndex all past the last index, matchIndex all zero |
| `RaftPeer.Peer.HandleRequestVote` | labs/src/raft/raft.go:361-399 | new state and reply are those of the handler function, which `RaftRules.VoteIff` characterises |
| `RaftPeer.Peer.ProcessRequestReplyL` | labs/src/raft/raft.go:780-803 | new state is that of the handler function |
| `RaftPeer.Peer.PrevLogConflictL` | labs/src/raft/raft.go:479-505 | finds whether there is a conflict, its term and the first index of that term still retained |
| `RaftPeer.Peer.MergeEntriesL` | labs/src/raft/raft.go:457-466 | cuts at the first conflict only, and appends what is missing |
| `RaftPeer.Peer.ProcessAppendEntriesL` | labs/src/raft/raft.go:437-477 | new state and reply are those of the handler function |
| `RaftPeer.Peer.HandleAppendEntries` | labs/src/raft/raft.go:410-435 | new state and reply are those of the handler function |
| `RaftPeer.Peer.MakeAppendArgsL` | labs/src/raft/raft.go:865-874 | the request is that of the handler function |
| `RaftPeer.Peer.UpdateMatchAndNextL` | labs/src/raft/raft.go:269-278 | new state is that of the handler function |
| `RaftPeer.Peer.SetCommitIndexL` | labs/src/raft/raft.go:926-942 | new state is that of the handler function |
| `RaftPeer.Peer.ProcessPrevLogConflictL` | labs/src/raft/raft.go:905-924 | new nextIndex is that of the handler function, which `RaftBackup.RefusalGuides` characterises |
| `RaftPeer.Peer.ProcessAppendReplyL` | labs/src/raft/raft.go:876-903 | new state is that of the handler function |
| `RaftPeer.Peer.HandleInstallSnapshot` | labs/src/raft/raft.go:516-561 | new state and reply are those of the handler function |
| `RaftPeer.Peer.ProcessInstallReplyL` | labs/src/raft/raft.go:961-976 | new state is that of the handler function |
| `RaftPeer.Peer.StartCommand` | labs/src/raft/raft.go:153-179 | new state is that of the handler function; index, term and leadership as returned |
| `RaftPeer.Peer.SnapshotL` | labs/src/raft/raft.go:196-209 | new state is that of the handler function |
| `RaftPeer.Peer.ApplySnapshotL` | labs/src/raft/raft.go:661-683 | new state and delivery are those of the handler function |
| `RaftPeer.Peer.ApplyCommandL` | labs/src/raft/raft.go:619-659 | new state and delivery are those of the handler function |
| `Linearizability.CompletePartial` | labs/src/porcupine/checker.go:244-252 | an order is a linearization exactly when it is a partial one that contains every operation |
| `Linearizability.LinearizableByStages` | labs/src/porcupine/checker.go:188-252 | the textbook definition holds exactly when the operations can be taken one at a time, each callable before every outstanding return |
| `Linearizability.EqualCanFinish` | labs/src/porcupine/model.go:37-42 | states that `Equal` identifies can finish the same operations |
| `Linearizability.FinishFirst` | labs/src/porcupine/checker.go:194-213 | the rest can be finished exactly when it is empty or some operation can be taken with the others still finishing |
| `KvModel.OneKeyIsLawful` | labs/src/models/kv.go:40-54 | the single-key model's equality is an equivalence that its step respects |
| `KvModel.Renamed` | labs/src/porcupine/checker.go:48-60 | linearizability does not depend on how operations are numbered |
| `KvModel.Project` | labs/src/models/kv.go:18-54 | a linearization of everything gives one of every key's part |
| `KvModel.Merge` | labs/src/models/kv.go:18-54 | linearizations of all keys' parts can be merged into one of everything |
| `KvModel.Locality` | labs/src/models/kv.go:18-54 | a history is linearizable against the whole store exactly when every key's part is linearizable against the single-key model |
| `KvModel.SortedKeys` | labs/src/models/kv.go:24-28 | in any order of iteration, the keys of the map, each once, in increasing order |
| `KvModel.Partition` | labs/src/models/kv.go:18-34 | one part for every key, in sorted order of the keys and each in the order of the history; all parts are linearizable exactly when the history is |
| `Entries.PairedSize` | labs/src/porcupine/checker.go:180-181 | a well-formed list has two entries for every id |
| `Entries.SortedEntriesStand` | labs/src/porcupine/checker.go:39-60 | however ties are broken, a sorted list is well-formed and orders calls and returns exactly as their times do |
| `Entries.MakeEntries` | labs/src/porcupine/checker.go:48-60 | the result is a sorted arrangement of all calls and returns that stands for the history |
| `Entries.Renumber` | labs/src/porcupine/checker.go:92-106 | the same events with distinct ids replaced one for one by 0, 1, ...; paired events become a well-formed list |
| `Entries.ConvertEntries` | labs/src/porcupine/checker.go:108-119 | entries of the events in order, timed by position |
| `Bitset.AddedSet` | labs/src/porcupine/bitset.go:29-33 | setting a bit adds that id to the set the words stand for, and no other |
| `Bitset.RemovedSet` | labs/src/porcupine/bitset.go:35-39 | clearing a bit removes that id and no other |
| `Bitset.SameSetSameWords` | labs/src/porcupine/bitset.go:62-72 | words of one length are equal exactly when they stand for the same set |
| `Bitset.NewBitset` | labs/src/porcupine/bitset.go:10-17 | fresh words for n ids, fewer than 64 to spare, standing for the empty set |
| `Bitset.Clone` | labs/src/porcupine/bitset.go:19-23 | a fresh copy |
| `Bitset.Set` | labs/src/porcupine/bitset.go:29-33 | in place, adds exactly one id |
| `Bitset.Clear` | labs/src/porcupine/bitset.go:35-39 | in place, removes exactly one id |
| `Bitset.Get` | labs/src/porcupine/bitset.go:41-44 | membership |
| `Bitset.Popcnt` | labs/src/porcupine/bitset.go:46-52 | the size of the set |
| `Bitset.Hash` | labs/src/porcupine/bitset.go:54-60 | equal sets of one length have equal hashes |
| `Bitset.Equals` | labs/src/porcupine/bitset.go:62-72 | true exactly for the same length and the same set |
| `DancingLinks.RemoveRestore` | labs/src/porcupine/checker.go:159-177 | taking a node out leaves the list of the others, and putting it back restores every link |
| `DancingLinks.LiftUnlift` | labs/src/porcupine/checker.go:159-177 | lift leaves the list without the pair, adjacent or not, and unlift exactly undoes it |
| `DancingLinks.WalkIsLive` | labs/src/porcupine/checker.go:83-90 | following next meets exactly the live positions, once each, in the order of the history |
| `LinkedEntries.InsertBefore` | labs/src/porcupine/checker.go:70-81 | the node stands between the mark and what was before it |
| `LinkedEntries.Lift` | labs/src/porcupine/checker.go:159-167 | the heap's links become those of the list without the pair |
| `LinkedEntries.Unlift` | labs/src/porcupine/checker.go:169-177 | the heap's links become those before lift |
| `LinkedEntries.MakeLinkedEntries` | labs/src/porcupine/checker.go:121-138 | a doubly linked chain of all entries in order, every call with its own return as match |
| `LinkedEntries.Length` | labs/src/porcupine/checker.go:83-90 | the number of entries |
| `Search.HeapLinked` | labs/src/porcupine/checker.go:194-242 | the list is always the history minus the pairs on the stack |
| `Search.HeapPush` | labs/src/porcupine/checker.go:203-207 | lifting and unlifting move one step up and down the same chain of heaps |
| `Search.CallMinimal` | labs/src/porcupine/checker.go:194-213 | a call with only calls before it in the list may come next |
| `Search.CachedIsDead` | labs/src/porcupine/checker.go:145-152 | a cached pair with the child's set and an equal state was searched in vain, so pruning loses nothing |
| `Search.TopIsDead` | labs/src/porcupine/checker.go:214-217 | when the search reaches a return, the operations left cannot be finished |
| `Search.TopIsClosed` | labs/src/porcupine/checker.go:208-216 | when the search reaches a return, the cache knows every way on from the stack's top |
| `Search.KnowsNext` | labs/src/porcupine/checker.go:208-213 | moving past a futile call keeps what the search knows |
| `Search.KnowsPush` | labs/src/porcupine/checker.go:200-207 | taking a call keeps what the search knows |
| `Search.KnowsPop` | labs/src/porcupine/checker.go:235-241 | giving up the top of the stack keeps what the search knows |
| `Search.StackIsLinearization` | labs/src/porcupine/checker.go:244-252 | when the list is empty the stack is a linearization |
| `Search.NoLinearization` | labs/src/porcupine/checker.go:215-217 | when the empty stack has reached a return there is no linearization |
| `Search.AllExplored` | labs/src/porcupine/checker.go:194-241 | when the search ends in vain, the cache holds every beginning of a possible linearization, up to order and equal states |
| `Checker.CacheContains` | labs/src/porcupine/checker.go:145-152 | finds exactly the cached pairs with the same set and an equal state, looking only at one hash |
| `Checker.CacheAdd` | labs/src/porcupine/checker.go:201-202 | the pair joins the cache under its hash and nothing leaves |
| `Checker.VisitOneMore` | labs/src/porcupine/checker.go:190-243 | every push makes the stack a sequence never visited, so pushes run out |
| `Checker.RecordLongest` | labs/src/porcupine/checker.go:218-234 | every operation on the stack remembers the stack if it is longer than what it remembers, no other changes |
| `Checker.RecordedAll` | labs/src/porcupine/checker.go:185-234 | then every operation remembers an order as long as any partial linearization that includes it |
| `Checker.Searcher.constructor` | labs/src/porcupine/checker.go:180-189 | the search starts with the whole list and knows nothing |
| `Checker.Searcher.Consider` | labs/src/porcupine/checker.go:194-213 | a call entry: the invariant holds again and either a new sequence is visited or the search moves forward |
| `Checker.Searcher.TakeCall` | labs/src/porcupine/checker.go:200-207 | cache, stack, bitset and list all record the call; the invariant holds |
| `Checker.Searcher.NextEntry` | labs/src/porcupine/checker.go:208-213 | the next live entry; the invariant holds |
| `Checker.Searcher.BackUp` | labs/src/porcupine/checker.go:235-241 | stack, bitset and list lose the last call; the invariant holds |
| `Checker.CheckSingle` | labs/src/porcupine/checker.go:179-253 | stops on every well-formed history; true exactly when a linearization exists, and then gives one; every recorded order replays legally as a partial linearization that includes its operation, and when partial results are asked for it is the longest such order |
| `CheckOperations.CheckPart` | labs/src/porcupine/checker.go:365-373 | one partition, from its operations to the verdict |
| `CheckOperations.CheckKv` | labs/src/porcupine/checker.go:365-373 | true exactly when the whole history is linearizable against the key-value store |
| `Rebalance.ShiftFalls` | labs/src/shardctrler/server.go:356-368 | every move of a shard lowers the sum of squared sizes |
| `Rebalance.RebalancedKeeps` | labs/src/shardctrler/server.go:356-368 | rebalancing ends with sizes within one, with the same groups, the same shards held, and no shard doubled |
| `Rebalance.NeverGives` | labs/src/shardctrler/server.go:356-368 | a group within one of the smallest never gives a shard away |
| `Rebalance.NeverReceives` | labs/src/shardctrler/server.go:356-368 | a group within one of the largest never receives one |
| `Rebalance.OneWay` | labs/src/shardctrler/server.go:356-368 | no group that received a shard later gives one away, nor the reverse: each list only grows or only shrinks |
| `ShardCtrl.JoinValidIff` | labs/src/shardctrler/server.go:262-285 | a join leaves sizes within one, and keeps the partition exactly when some group exists afterwards and no group that joins already holds shards |
| `ShardCtrl.LeaveValidIff` | labs/src/shardctrler/server.go:287-316 | a leave leaves sizes within one, and keeps the partition exactly when all groups leave or no group with shards is listed twice |
| `ShardCtrl.MoveValidIff` | labs/src/shardctrler/server.go:318-335 | a move keeps the partition exactly when its target is a group |
| `ShardCtrl.JoinLoses` | labs/src/shardctrler/server.go:270-273 | a group with shards that joins again leaves some shard without a group |
| `ShardCtrl.LeaveLoses` | labs/src/shardctrler/server.go:291-295 | a group with shards that is listed twice leaves some shard without a group |
| `ShardCtrl.OpValidIff` | labs/src/shardctrler/server.go:225-260 | an applied operation keeps the invariant exactly when it is a duplicate or admissible |
| `ShardCtrl.JoinSane` | labs/src/shardctrler/server.go:262-285 | a join keeps shards undoubled and the groups of both sides equal exactly when some group exists afterwards, even if a present group joins again |
| `ShardCtrl.LeaveSane` | labs/src/shardctrler/server.go:287-316 | every leave, even one that loses shards, keeps shards undoubled and the groups of both sides equal |
| `ShardCtrl.MoveSane` | labs/src/shardctrler/server.go:318-335 | the same for a move, survived exactly when its target is a group |
| `ShardCtrl.OpSaneIff` | labs/src/shardctrler/server.go:225-260 | shards never doubled, gidShards and the latest configuration over the same groups: kept exactly when the operation is a duplicate or one the program survives, and exactly when its own test of the two group counts passes |
| `ShardCtrl.JoinMovesToJoining` | labs/src/shardctrler/server.go:262-285 | from sizes within one, a join moves shards only to groups that join |
| `ShardCtrl.LeaveTakesNothing` | labs/src/shardctrler/server.go:287-316 | from sizes within one, a leave takes no shard from a group that stays |
| `ShardCtrl.LogKeepsPartition` | labs/src/shardctrler/server.go:225-375 | over every admissible log gidShards is an exact partition that agrees with the latest configuration |
| `ShardCtrl.ConfigsNeverChange` | labs/src/shardctrler/server.go:342-351 | over every log the program survives, the configurations after a part of it are a prefix of those after all of it |
| `ShardCtrlLog.JoinHas` | labs/src/shardctrler/server.go:262-285 | a join makes one more configuration with the groups that join and their servers; sizes within one; all shards held if there was no group, else all but those of groups that join again; the configuration agrees with the allocation |
| `ShardCtrlLog.FirstJoin` | labs/src/shardctrler/server.go:274-281 | of the first groups the one with the least gid keeps the first shards, in order |
| `ShardCtrlLog.LeaveHas` | labs/src/shardctrler/server.go:287-316 | a leave makes one more configuration with the groups that stay, each with its servers; sizes within one; all shards held but those of a group listed twice; none assigned if no group stays |
| `ShardCtrlLog.MoveHas` | labs/src/shardctrler/server.go:318-335 | a move makes one more configuration with the same groups in which the target has the shard and every other shard its group, in the allocation as well |
| `ShardCtrlLog.OpHas` | labs/src/shardctrler/server.go:225-260 | an operation has the effect of its request, is remembered with its answer and answered, unless the remembered one of its client has its number; then nothing changes |
| `ShardCtrlLog.RemembersLast` | labs/src/shardctrler/server.go:225-260 | over every log the controller remembers of each client its last operation and of no other client any |
| `ShardCtrlLog.IgnoredIff` | labs/src/shardctrler/server.go:227-258 | over every log an operation is answered as a duplicate and ignored exactly when the last operation of its client before it has its number, and has the effect and answer of its request otherwise |
| `ShardCtrlLog.MoveMoves` | labs/src/shardctrler/server.go:318-335 | after any log, a move that is no repeat gives the shard to its target in configuration and allocation, keeps every other shard and all groups with their servers |
| `ShardCtrlLog.ConfigsCounted` | labs/src/shardctrler/server.go:342-351 | the number of the latest configuration is the count of joins, leaves and moves executed |
| `ShardCtrlLog.QueryAnswered` | labs/src/shardctrler/server.go:241-247 | after any log, a query that is no repeat is answered with the configuration of its number, and for -1 and every number beyond with the latest, whose number is the count of changes |
| `ShardCtrlLog.PastIsFixed` | labs/src/shardctrler/server.go:241-247 | two queries for a number that existed at the first, at any two places of a log, get the same configuration, which bears that number |
| `ShardCtrlLog.ExactlyOnce` | labs/src/shardctrler/server.go:225-260 | in a log where only the same operation of its client stands between two occurrences of one, configurations and allocation are those of executing each first occurrence once |
| `ShardCtrlLog.OnceIffOrderly` | labs/src/shardctrler/server.go:225-260 | repeats are recognised at every place of a log if and only if the log is of that kind |
| `ShardCtrlLog.RepeatIsTold` | labs/src/shardctrler/server.go:132-139 | a repeat of a client's last operation is told, from memory, what its execution answered |
| `ShardCtrlServer.FindMinMaxGid` | labs/src/shardctrler/server.go:383-403 | in any order of iteration, the least gid of smallest size and the greatest gid of largest size |
| `ShardCtrlServer.Assign` | labs/src/shardctrler/server.go:369-374 | in any order of iteration, every held shard gets its owner and every other keeps its value |
| `ShardCtrlServer.Collect` | labs/src/shardctrler/server.go:305-308 | in any order of iteration, every removed shard once |
| `ShardCtrlServer.SortedAreFreed` | labs/src/shardctrler/server.go:305-309 | the sorted list is a function of the allocation and the leaving groups alone |
| `ShardCtrlServer.TakeOut` | labs/src/shardctrler/server.go:320-329 | in any order of iteration, the shard leaves the one group that holds it |
| `ShardCtrlServer.ShardCtrler.constructor` | labs/src/shardctrler/server.go:474-497 | one empty configuration, no groups |
| `ShardCtrlServer.ShardCtrler.RebalanceL` | labs/src/shardctrler/server.go:356-375 | stops with the rebalanced allocation and its assignment |
| `ShardCtrlServer.ShardCtrler.MakeNewConfigL` | labs/src/shardctrler/server.go:342-351 | the latest configuration under the next number |
| `ShardCtrlServer.ShardCtrler.ApplyJoinL` | labs/src/shardctrler/server.go:262-285 | from every state the program runs in, new state is that of the join function, whatever the order of iteration |
| `ShardCtrlServer.ShardCtrler.ApplyLeaveL` | labs/src/shardctrler/server.go:287-316 | from every state the program runs in, new state is that of the leave function, whatever the order of iteration |
| `ShardCtrlServer.ShardCtrler.ApplyMoveL` | labs/src/shardctrler/server.go:318-335 | from every state the program runs in, new state is that of the move function, whatever the order of iteration, with the effect that `ShardCtrlLog.MoveHas` states |
| `ShardCtrlServer.ShardCtrler.LogGidShardsL` | labs/src/shardctrler/server.go:423-434 | true exactly when the program ends itself: the latest configuration and gidShards have different numbers of groups |
| `ShardCtrlServer.ShardCtrler.ProcessOpL` | labs/src/shardctrler/server.go:132-139 | answers from memory exactly when the remembered operation of the client has the number, with what is remembered |
| `ShardCtrlServer.ShardCtrler.ApplyOpL` | labs/src/shardctrler/server.go:225-260 | from every state the program runs in, new state, result and whether the program ends itself are functions of the old state and the operation alone, those that `ShardCtrlLog.OpHas` and `IgnoredIff` characterise |
| `ShardGroup.RecognisedAfterMove` | labs/src/shardkv/server.go:368-371 | which operations a group takes for duplicates after taking over any parcel it had not received, from what both sides remember |
| `ShardGroup.RepeatAfterMoveIff` | labs/src/shardkv/server.go:305-371 | a command applied right after its shard was taken over, whatever the sender did between executing it and sending, leaves the store alone exactly when the sender's last operation of the client has a greater id than the receiver's and is this one, or it has not and the receiver's own is this one; else it is executed |
| `ShardGroup.AppendOnceIff` | labs/src/shardkv/server.go:305-371 | an append that is in the value handed over is in the receiver's value once exactly under that condition and once more exactly otherwise |
| `ShardGroup.RunsTwiceWhen` | labs/src/shardkv/server.go:368-371 | the three ways to run again: a different operation of the client at the sender is taken over; the sender's is number 0 and the receiver has not heard of the client; the receiver's own is no earlier and a different one |
| `ShardGroup.ShardIff` | labs/src/shardkv/client.go:26-33 | a key's shard is the one congruent to its first byte, and every shard has keys |
| `ShardGroup.ExecuteIsModel` | labs/src/shardkv/server.go:321-332 | a command changes the store and answers as the sequential model of the whole store allows; "no key" exactly for a get of nothing |
| `ShardGroup.Server.constructor` | labs/src/shardkv/server.go:570-586 | serves exactly the shards the first configuration gives the group |
| `ShardGroup.Server.NotNewShardsL` | labs/src/shardkv/server.go:478-485 | true exactly when the list was received under that configuration number |
| `ShardGroup.Server.Removed` | labs/src/shardkv/server.go:400-407 | true exactly when some listed shard is not held |
| `ShardGroup.Server.OverlayL` | labs/src/shardkv/server.go:363-367 | incoming values for the listed shards win, all else stays |
| `ShardGroup.Server.MergeLastOpsL` | labs/src/shardkv/server.go:368-371 | a client's entry is replaced exactly when the incoming op id is greater, absent counting as 0 |
| `ShardGroup.Server.ApplyAddShardsL` | labs/src/shardkv/server.go:352-386 | new state is that of the function: nothing if already received, else all of validity, values and last operations at once |
| `ShardGroup.Server.ApplyRemoveShardsL` | labs/src/shardkv/server.go:388-398 | new state is that of the function: all listed shards or none |
| `ShardGroup.Server.ApplyOpL` | labs/src/shardkv/server.go:305-350 | new state and result are those of the function |
| `ShardSystem.InitInv` | labs/src/shardkv/server.go:570-586 | the groups start in the invariant and stand for the empty map |
| `ShardSystem.WriteKeeps` | labs/src/shardkv/server.go:321-332 | a write to a served shard is that write to the logical map |
| `ShardSystem.AcceptedParcel` | labs/src/shardkv/server.go:352-386 | a parcel that is still new carries its sender's present values of shards that no group serves |
| `ShardSystem.TakeStores` | labs/src/shardkv/server.go:359-367 | after taking shards over the receiver has the sender's keys and values for them and no others |
| `ShardSystem.TakeKeeps` | labs/src/shardkv/server.go:352-386 | taking shards over leaves the logical map as it is and keeps the invariant |
| `ShardSystem.QuietKeeps` | labs/src/shardkv/server.go:388-398 | giving shards up leaves the logical map as it is and keeps the invariant |
| `ShardSystem.SendKeeps` | labs/src/shardkv/server.go:617-629 | sending a pending hand-off leaves the logical map as it is and keeps the invariant |
| `ShardSystem.StepKeeps` | labs/src/shardkv/server.go:305-653 | every step acts on the logical map as the commands it executes act on the sequential store |
| `ShardSystem.GroupsRefineOneMap` | labs/src/shardkv/server.go:305-653 | after every run the groups together stand for the sequential store after the commands executed |
| `ShardSystem.OneOwner` | labs/src/shardkv/server.go:352-398 | no two groups ever hold a shard valid |
| `ShardSystem.AnswersAreSequential` | labs/src/shardkv/server.go:305-350 | an executed command gets the sequential store's answer, which the key-value model accepts; any other request is told its own last answer or the wrong group, and executes nothing |
| `ShardSystem.RemovalLosesIff` | labs/src/shardkv/server.go:388-398 | a shard given up has no owner and no hand-off that a group would still take exactly when the target is no group or has already received the same list under the same number |
| `ShardSystem.LostForGood` | labs/src/shardkv/server.go:352-398 | a lost shard stays lost after every step |
| `ShardSystem.NeverServedAgain` | labs/src/shardkv/server.go:352-398 | in every run, a shard once lost is never served by any group again |
| `ShardSystem.StaleRemovalLoses` | labs/src/shardkv/server.go:352-398 | from every start with two groups, a run that moves a shard there and back and then applies the first removal again loses it |
| `ShardSystem.RemovalToNobodyLoses` | labs/src/shardkv/server.go:606-613 | from every start, a removal towards a gid that is no group loses the shard |
| `ShardOnce.LearnStep` | labs/src/shardkv/server.go:305-371 | what a step makes a group remember of a client: the operation it applies, or one of a parcel with a greater id than its own |
| `ShardOnce.RemembersLearnt` | labs/src/shardkv/server.go:305-371 | after every run, a group remembers of a client exactly the last thing it has learnt about it |
| `ShardOnce.RunsIff` | labs/src/shardkv/server.go:305-350 | after every run, a command that reaches a group is executed exactly when the group serves the shard and the last thing it has learnt about the client is not this operation |
| `ShardOnce.ParcelIsSnapshot` | labs/src/shardkv/server.go:617-629 | a request carries what its sender held at the moment of sending, which is what its receiver may learn |
| `ShardOnce.ReceivedIff` | labs/src/shardkv/server.go:352-386 | in every run, a list counts as received under a number exactly when a parcel with both has been applied |
| `ShardOnce.TakenIffFirst` | labs/src/shardkv/server.go:352-386 | in every run, a parcel that a group applies brings its shards and their values exactly when no parcel with the same list and number was applied there before; else it changes neither store nor served shards |
| `ShardOnce.StillRemembered` | labs/src/shardkv/server.go:305-398 | the home of the shard, and every request that can still move it, remember the client's last command and its answer: kept by every step that executes no command of the client |
| `ShardOnce.NewlyRemembered` | labs/src/shardkv/server.go:321-341 | and established by executing a command with a greater number than all before |
| `ShardOnce.OnceAcrossMoves` | labs/src/shardkv/server.go:305-398 | in every run, a client whose numbers start at 1 and of which no request is applied once a later command has been executed has no command executed twice, wherever its shards move |
| `ShardOnce.RepeatIsTold` | labs/src/shardkv/server.go:305-350 | such a client's repeat, at whatever group then serves the shard, executes nothing and is told what the execution told |
| `ShardOnce.OneAppendTwice` | labs/src/shardkv/server.go:305-371 | a run from the start in which one append, its client's number 0, is executed by two groups |
| `ShardOnce.OvertakenAppendTwice` | labs/src/shardkv/server.go:305-371 | a run from the start in which an append with any number is executed by two groups, a get with the next number having been executed before the move |
| `KvServer.DuplicateIffRepeat` | labs/src/kvraft/server.go:195-231 | in an orderly log an operation is taken for a duplicate exactly when it has occurred before |
| `KvServer.InOrderIsOrderly` | labs/src/kvraft/server.go:195-231 | a log in which each client's op ids never go back is orderly |
| `KvServer.ExactlyOnce` | labs/src/kvraft/server.go:195-231 | the store is the sequential model's after the log with repeats removed |
| `KvServer.OnceIffOrderly` | labs/src/kvraft/server.go:195-231 | comparing with the client's last operation recognises repeats correctly at every place if and only if no other operation of the client stands between two occurrences of one |
| `KvServer.RepeatSeesFirst` | labs/src/kvraft/server.go:97-104 | the value remembered for a repeat is the one its first execution found in the sequential store |
| `KvServer.AnswersAreSequential` | labs/src/kvraft/server.go:195-231 | after an orderly log: "duplicate" exactly for an operation the log has, else a get is told what the sequential store has or that there is no key, and a write that it is done |
| `KvServer.AcceptedIff` | labs/src/kvraft/server.go:124-152 | a client takes the answer for its operation exactly when that operation is executed at its index, or another's get comes out there and finds no key |
| `KvServer.SnapshotAndReplay` | labs/src/kvraft/server.go:235-269 | restoring a snapshot of a part of the log and replaying the rest equals applying the whole log |
| `KvServer.KVServer.constructor` | labs/src/kvraft/server.go:59-73 | the state of the empty log |
| `KvServer.KVServer.ProcessOpL` | labs/src/kvraft/server.go:97-107 | answers from memory exactly when the operation is the client's last |
| `KvServer.KVServer.ApplyOpL` | labs/src/kvraft/server.go:195-231 | new state and result are those of the function |
| `KvServer.KVServer.SnapshotL` | labs/src/kvraft/server.go:235-248 | the snapshot is the whole state |
| `KvServer.KVServer.ReadSnapshotL` | labs/src/kvraft/server.go:250-269 | the state becomes the snapshot |
| `KvServer.KVServer.ReceiveApplyMsgs` | labs/src/kvraft/server.go:159-193 | started in the state of any part of a log and fed with its further commands and jumps to snapshots of it, the server ends in the state of the log so far |
| `KvService.PeerDelivers` | labs/src/raft/raft.go:619-683 | in every run, what a peer delivers between two moments without a crash is the rest of what its service has absorbed: the next command, or a jump forward to a snapshot of it |
| `KvService.StartServer` | labs/src/kvraft/server.go:324-349 | a server started on a disk has the state of the commands its snapshot stands for |
| `KvService.RunServer` | labs/src/kvraft/server.go:159-193 | the server object, fed with what its Raft peer delivers between two moments without a crash, goes from the replica state of the first to that of the second |
| `KvService.CrashRestores` | labs/src/kvraft/server.go:250-269 | a crash puts the peer's service back to the snapshot on disk, which is what the server starts from |
| `KvService.ReplicasAgree` | labs/src/kvraft/server.go:159-193 | in every Raft run, for any two replicas at any two moments, replaying the missing operations brings the one behind to the state of the one ahead |
| `KvService.ReplicasAreSequential` | labs/src/kvraft/server.go:159-231 | in every Raft run with clients in order, every replica's store is the sequential one with each operation counted once |
| `KvHistories.ToldIsFound` | labs/src/kvraft/server.go:195-231 | a server that remembers an operation has executed it, and a get's remembered value is what it found in the sequential store at its first place in the log |
| `KvHistories.ServerTells` | labs/src/kvraft/server.go:97-117 | an answer from memory, and the answer of executing the operation, are what the server remembers of it |
| `KvHistories.WaitTellsIff` | labs/src/kvraft/server.go:124-152 | the answer of a waiting request is right exactly when its own operation came out, or another client's did and the server remembered the operation before |
| `KvHistories.LogLinearizable` | labs/src/models/kv.go:18-54 | if every answer is what a server of one orderly log remembers, the calls have a completion that is linearizable against the whole store |
| `KvHistories.AppendNotSeenOnce` | labs/src/models/kv.go:40-54 | an answered append and a later get of its key that finds anything else are not linearizable |
| `KvHistories.LateRepeat` | labs/src/kvraft/server.go:195-231 | an append repeated after another operation of its client is executed twice, and a get tells so |
| `KvClients.ServiceIsLinearizable` | labs/src/kvraft/server.go:97-231 | in every Raft run, for clients that hand their operations over in turn and answers that are what some server remembers of that very operation, all calls and answers together are linearizable against one store, pending calls being completed or dropped |
| `KvClients.StrangersAnswer` | labs/src/kvraft/server.go:124-152 | a run in which a client takes another's "no key" for its own answer although no log holds its command |
| `MapReduce.SortedIsGrouped` | labs/src/mr/worker.go:27-30 | sorting by key puts equal keys together |
| `MapReduce.ValuesArranged` | labs/src/mr/worker.go:180-181 | the values of a key are the same up to order however an unstable sort arranges the pairs |
| `MapReduce.BucketHolds` | labs/src/mr/worker.go:135-141 | a bucket holds all pairs of the keys that hash to it, in order, and no other |
| `MapReduce.OutcomeUnique` | labs/src/mr/worker.go:188-201 | the lines for a list of pairs are determined up to order |
| `MapReduce.BucketsEqualSequential` | labs/src/main/mrsequential.go:38-84 | the lines of all buckets are a permutation of the sequential program's, and each key is in exactly one bucket |
| `MapReduceWorker.WriteIntermediateFile` | labs/src/mr/worker.go:123-152 | file r holds the pairs whose key hashes to r, in order |
| `MapReduceWorker.SortByKey` | labs/src/mr/worker.go:180-181 | a sorted arrangement of the same pairs |
| `MapReduceWorker.ReduceGroups` | labs/src/mr/worker.go:188-201 | one line for every key with the reduction of all its values |
| `MapReduceWorker.FindFiles` | labs/src/mr/worker.go:161-164 | the bucket's files in any order; they hold the same pairs |
| `MapReduceWorker.ReduceTask` | labs/src/mr/worker.go:157-205 | the outcome for all pairs read, whatever order they were read and sorted in |
| `MapReduceWorker.SequentialProgram` | labs/src/main/mrsequential.go:25-87 | the outcome for all pairs mapped from all inputs |
| `MapReduceWorker.DistributedProgram` | labs/src/mr/worker.go:106-205 | all map and reduce tasks together write a permutation of the sequential program's lines, in whatever order each reduce task finds its files |

## Left out

- Liveness: timers, tickers, election timeouts, sleeps, retry loops, `Kill` and goroutine scheduling are not modelled; only safety is claimed, and the Raft applier may stop for good.
- Raft clusters of even size: the commit rule is wrong for them (`RuleIsSoundIffOdd`), so runs have an odd number of peers.
- `labrpc`, `labgob` and the persister's byte encoding: the network is a set of messages, encodings are the identity, saving state and snapshot is one atomic step.
- Raft's leaderId, logging, and the unlocking of the applier while it hands a message over: a turn of the applier is one step.
- Waiting for results in the services (`resultChans`, timeouts, the goroutines of requests): the model covers what applying answers, what `waitApplyL` makes of it and which answers a client accepts.
- `checkParallel`: its goroutines, kill flag and timeout, and its waiting for ever when there are no partitions; partitions are checked one after another. HTML and JSON output of the visualizer is not modelled.
- shardkv `HandOffDone` clean-up: pending hand-offs may be dropped at any time or kept for ever. Which shards `pollConfig` decides to give up is arbitrary, however stale, so the model allows more runs than the source.
- Exactly-once across shard moves in shardkv for all clients: it is false, as `OneAppendTwice` and `OvertakenAppendTwice` show; `RunsIff` says when a command runs again and `OnceAcrossMoves` for which clients none does.
- The MapReduce coordinator: a repeated report returns a completed task to idle, so its counters are not an invariant; file names and JSON are not modelled: a file is the sequence of its pairs, which holds for keys and values in valid UTF-8, `encoding/json` replacing anything else.
- Strings are sequences of characters, each standing for one byte of a Go string.
- Library sorts (`sort.Sort`, `sort.Ints`): insertion sorts with the library's contract (`Sorting`) stand for them; the theorems hold for every sorted arrangement.
- Client-side clerks, testers, logging and the MapReduce applications.

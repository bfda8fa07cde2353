# BonsaiGrid in Dafny

A model of the parts of BonsaiGrid whose correctness is not visible in one function, and proofs about whole runs of them.

- **Raft** (`RaftLog`, `RaftNode`, `RaftSystem`): the consensus core as values and a system of any number of nodes over a network that loses, duplicates, delays and reorders. `RaftHistory`, `RaftSafety` and `RaftSteps` carry the inductive invariant, `RaftRuns` the safety theorems over runs, `RaftReplies` and `RaftProposals` what the answers of the handlers mean, `RaftProgress` and `RaftElections` that no reachable state is a dead end, `RaftMachine` the node and log as objects updated in place, `RaftCompaction` the folded log of one node; `RaftMoves` and `RaftFolding` carry the theorems over to groups that fold, which is how the server runs them, and `RaftGap` shows what their condition is for.
- **CP machines** (`CpModel`, `CpObjects`, `CpRuns`, `CpHolds`, `CpConvergence`, `CpFolding`, `CpClients`, `CpGroup`, `CpStale`): fenced locks and sessions, over command histories and on top of Raft runs, and which client is answered with which reply.
- **Membership and migration** (`Membership`, `Migration`, `Cluster`): ring ownership, backups, the migration plan and sequences of cluster changes.
- **Persistence** (`Bytes`, `Wal`, `WalFormat`, `Recovery`, `Persistence`, `StoreContents`, `WalMachine`, `RecoverMachine`): record frames byte by byte, fuzzy snapshots, and the roll, snapshot, prune and restart cycle, each restart carrying on from whatever it recovered.
- **Streaming** (`WindowModel`, `WindowBatch`, `SessionModel`, `SessionBatch`, `SessionOrder`, `WindowMarks`, `WindowMachine`, `JoinModel`, `JoinBatch`, `JoinMachine`): tumbling, sliding and session windows and the keyed join, against batch definitions.
- **Queries** (`FieldValues`, `Indexing`, `IndexPlanning`, `IndexMachine`, `Aggregation`, `AggregationFloats`, `PartialWire`, `AggregationMachine`): index planning against full scans, two-phase aggregation and its wire format.
- **Protocol** (`Frames`, `FrameWalk`, `Reassembly`): the frame envelope and fragment reassembly.

Code that updates state in place is a class or a loop proved equal to a value-level function; the theorems are about those functions. Where a promise does not hold of the code, the condition under which it does is proved together with an input that breaks it: `FoldingSafety` with `GapAfterCompaction` (one way, since a message sent too late may never arrive), and as if-and-only-ifs `SendsRightIff`, `OwnReplyIff` with `StaleAnswer`, `HolderIsLiveIff` with `HoldingNeedsNoSession`, `RecoversIff` with `ReachIsNeeded` and `NeverHad`, `StreamIsBatchIff` with `LateEventsSplit`, `SessionsAreRunsIff` with `BridgesDoNotMerge` and `TheEdgeIsCut`, `PlannedQueries` with `WidthsAreLost` and `ZerosAreLost`, `PanicsIff` with `RangesPanic`, `MessageRoundTrip` with `EarlyFinalCuts`, and `ForwardAgrees` and `BackwardTurns` with `NeverStops`. `Basics` and `Sets` hold what the modules share.

Parameters stand for what the code cannot decide by itself: a timer either fires or not, the network picks any packet, a hash map yields its keys in any order, the checksum is any function, a stored value's fields are any function of its bytes, a float's eight bytes are any encoding it survives, and a CP command decodes by any function.

`dafny verify dfyconfig.toml` checks everything.

## Model

| member | source | states |
|---|---|---|
| `RaftRuns.StateMachineSafety` | crates/raft/src/lib.rs:353-519 | over every run of any number of nodes on a network that loses, duplicates, delays and reorders messages, with crashes of durable nodes and without folding, no two applications at one index, by any nodes at any times, carry different commands (sections 5.4.1 and 5.4.2 of the Raft paper) |
| `RaftElections.NeverStuck` | crates/raft/src/lib.rs:191-487 | no run ends where the group cannot go on: whatever was lost, delayed or restarted, from every reachable state of a group of any size there is a continuation in which every member applies a given command, all at one index |
| `RaftElections.AlwaysElectable` | crates/raft/src/lib.rs:230-399 | from every reachable state a leader nobody is ahead of in term can be elected: the member with the best log stands in a later term than anyone, unseating an old leader if need be, and everyone grants |
| `RaftProgress.LeaderGetsThrough` | crates/raft/src/lib.rs:191-487 | a leader nobody is ahead of can get any command appended, replicated, committed and applied by every member |
| `RaftProgress.Repair` | crates/raft/src/lib.rs:402-487 | however far a member's log has diverged, rounds of append and answer end with it holding the leader's whole log, and the leader knowing |
| `RaftProgress.Round` | crates/raft/src/lib.rs:402-487 | in one round a member takes the leader's whole log and its commit index, or the leader's next index for it goes down; nobody else moves |
| `RaftProgress.AllHeldIsCommitted` | crates/raft/src/lib.rs:491-508 | once every member holds a log that ends in the leader's term, the leader has committed all of it |
| `RaftReplies.LeaderOnlyAdds` | crates/raft/src/lib.rs:191-487 | leader append-only: between two moments of one term a leader's log has only been added to and its record of what each peer holds has only grown |
| `RaftReplies.VoteGrantedIff` | crates/raft/src/lib.rs:353-382 | in every run a vote is granted exactly when the voter's term is not ahead, it has cast no ballot of that term for another, and the log the candidate stood with is at least as recent; the answer carries the voter's term |
| `RaftReplies.StaleIsTold` | crates/raft/src/lib.rs:353-458 | a message of an older term changes nothing; a request is refused with the newer term, a response dropped |
| `RaftReplies.OldLeaderLearns` | crates/raft/src/lib.rs:402-487 | a leader that sends to a member of a newer term becomes a follower of that term on the answer |
| `RaftReplies.NewerTermWins` | crates/raft/src/lib.rs:314-351 | a response of a newer term makes anyone a follower of it without vote or leader, log and cursors untouched |
| `RaftProposals.ProposalFiled` | crates/raft/src/lib.rs:191-206 | a leader answers with the index at which the new log holds the command, in its term, as the last entry, all before it unchanged; anyone else answers nothing and does nothing |
| `RaftProposals.ProposalKept` | crates/raft/src/lib.rs:191-205 | over every run, once a proposal was answered with i, any node's log at any later moment holds that very entry at i if and only if its term there is the term the proposer was in |
| `RaftProposals.DrainsProposed` | crates/raft/src/lib.rs:510-519 | so what any node drains at i while that holds is the proposed command |
| `RaftProposals.FoldingDrainsProposed` | crates/raft/src/lib.rs:191-205 | the same over runs with compactions in which every leader reaches back to what its peers need |
| `RaftRuns.CommittedStays` | crates/raft/src/lib.rs:353-399 | leader completeness over time: what a node regards as committed at one moment is in the log of every leader of that or a later term from then on |
| `RaftRuns.CommittedAgreeOverTime` | crates/raft/src/lib.rs:491-508 | committed prefixes of any two nodes at any two moments of a run agree entry by entry |
| `RaftRuns.ElectionSafety` | crates/raft/src/lib.rs:230-285 | a term has at most one leader over a whole run, duplicated and late vote replies included |
| `RaftRuns.LogsMatch` | crates/raft/src/lib.rs:402-458 | in every reachable state, two logs with the same term at an index are equal up to that index |
| `RaftRuns.MatchIndexIsShared` | crates/raft/src/lib.rs:461-487 | the replicated prefix a leader has recorded for a peer is what that peer's log began with at some moment of the run in the leader's term, and begins with now if the peer is still in that term |
| `RaftRuns.FollowerCommitRule` | crates/raft/src/lib.rs:429-448 | an AppendEntries in flight never names a commit index beyond the entries it carries, so capping by the last index commits nothing that was not checked against the leader |
| `RaftRuns.CursorsInOrder` | crates/raft/src/lib.rs:510-519 | in every reachable state the apply cursor is at most the commit index and that at most the end of the log |
| `RaftRuns.NothingIsStuck` | crates/raft/src/lib.rs:314-351 | every packet of a reachable network can be delivered and every timer can fire: no handler's precondition is ever broken |
| `RaftRuns.ApplyKeeps` | crates/raft/src/lib.rs:191-553 | every action of the system (timer, delivery, proposal, drain, crash) keeps the whole inductive invariant and extends its history |
| `RaftSafety.LeaderCompleteness` | crates/raft/src/lib.rs:353-399 | a quorum that acknowledged an entry of the leader's own term forces every later leader to have it |
| `RaftSafety.LogMatching` | crates/raft/src/lib.rs:402-458 | logs that are prefixes of their leaders' logs and share a term at an index share everything below it |
| `RaftSteps.TermIsFree` | crates/raft/src/lib.rs:385-399 | the term a candidate wins has no leader yet, because two majorities share a voter and a voter has one ballot per term |
| `RaftSteps.SharedVoter` | crates/raft/src/lib.rs:385-399 | whoever collected a majority of votes in an elected term is its leader |
| `RaftSteps.Overlay` | crates/raft/src/lib.rs:429-444 | accepting entries one by one (skip if equal, truncate on conflict, append) leaves the old log if it already extends the new entries and otherwise exactly the leader's prefix plus those entries |
| `RaftSteps.CommitRule` | crates/raft/src/lib.rs:491-508 | the highest index counted on a majority in the current term is backed by a quorum of acknowledgements recorded in the history |
| `RaftNodes.HighestCommittable` | crates/raft/src/lib.rs:491-508 | the chosen index is committable and no index above it is |
| `RaftMachine.RaftNode.BecomeFollower` | crates/raft/src/lib.rs:179-187 | the object follows the value model: the term rises, the vote is cleared and both are persisted |
| `RaftMachine.RaftNode.Propose` | crates/raft/src/lib.rs:191-206 | the object proposes as the value model does, whose answer `ProposalFiled` and `ProposalKept` explain |
| `RaftMachine.RaftNode.Tick` | crates/raft/src/lib.rs:209-228 | a firing timer starts an election on a non-leader and a heartbeat round on a leader, messages included |
| `RaftMachine.RaftNode.StartElection` | crates/raft/src/lib.rs:230-256 | term, self-vote, persisted state and the vote requests to every peer, in order, as in the value model |
| `RaftMachine.RaftNode.MaybeBecomeLeader` | crates/raft/src/lib.rs:258-285 | leads exactly when the granted votes are a majority, with reset progress and a first broadcast |
| `RaftMachine.RaftNode.BroadcastAppend` | crates/raft/src/lib.rs:287-293 | one AppendEntries to every other member, in member order |
| `RaftMachine.RaftNode.SendAppend` | crates/raft/src/lib.rs:295-311 | the message carries the whole suffix from the peer's next index and the term just before it |
| `RaftMachine.RaftNode.Step` | crates/raft/src/lib.rs:314-351 | handles any message of any term as the value model, catching up to a newer term first |
| `RaftMachine.RaftNode.OnRequestVote` | crates/raft/src/lib.rs:353-383 | grants exactly when not yet promised elsewhere and the candidate is at least as recent, persisting the vote before replying |
| `RaftMachine.RaftNode.OnVoteResp` | crates/raft/src/lib.rs:385-399 | counts a vote only as a candidate of that term, once per voter |
| `RaftMachine.RaftNode.OnAppend` | crates/raft/src/lib.rs:402-459 | accepts exactly on a matching previous entry; new log, commit index and acknowledgement as in the value model |
| `RaftMachine.RaftNode.OnAppendResp` | crates/raft/src/lib.rs:461-487 | success raises match and next index and may commit; failure steps next index back but not below 1 |
| `RaftMachine.RaftNode.AdvanceCommit` | crates/raft/src/lib.rs:491-507 | the counting loop finds the same index as the declarative definition over quorums of replicas |
| `RaftMachine.RaftNode.TakeCommitted` | crates/raft/src/lib.rs:510-519 | drains exactly the commands after the cursor up to the commit index, in order, and moves the cursor there |
| `RaftMachine.RaftNode.MaybeCompact` | crates/raft/src/lib.rs:547-553 | the object folds its log as the value model does |
| `RaftMachine.RaftNode.constructor` | crates/raft/src/lib.rs:99-123 | a new node is a follower with the persisted term and vote, no leader and the cursors at zero |
| `RaftMachine.RaftLog.Append` | crates/raft/src/log.rs:145-160 | the vector grows by the entry and every lookup follows |
| `RaftMachine.RaftLog.TruncateFrom` | crates/raft/src/log.rs:163-176 | everything from the index on is gone and everything before it is untouched |
| `RaftMachine.RaftLog.Compact` | crates/raft/src/log.rs:133-142 | the folded prefix is remembered by its last index and term |
| `RaftMachine.RaftLog.PersistTermVote` | crates/raft/src/log.rs:188-196 | term and vote change together and the entries do not |
| `RaftCompaction.CompactionRefines` | crates/raft/src/log.rs:82-176 | after any sequence of appends, allowed truncations, drains and compactions, every read above the snapshot equals a full log's, and the drained commands are indices 1 to the cursor, in order, once each |
| `RaftCompaction.ReadsAgree` | crates/raft/src/log.rs:108-116 | terms, commands and suffixes read from a folded log equal those of the full log from the snapshot on |
| `RaftCompaction.SendsRightIff` | crates/raft/src/lib.rs:295-311 | a compacted leader sends a peer the message the uncompacted leader would if and only if the peer's next index is above the snapshot |
| `RaftFolding.FoldingSafety` | crates/raft/src/lib.rs:353-553 | state machine safety of groups that fold: over every run with compactions of any node at any time, in which every leader's log always begins at or below what each other peer is to get next, no two applications at one index carry different commands |
| `RaftFolding.FoldingRefines` | crates/raft/src/lib.rs:191-553 | such a run is the run of the same actions without compactions, but for the folded prefixes: same messages, same applications, same terms, votes, cursors and roles |
| `RaftFolding.AcceptAllMirrors` | crates/raft/src/lib.rs:429-444 | entries at or below a follower's snapshot change neither the folded log nor the full one, and the others change both alike |
| `RaftGap.GapAfterCompaction` | crates/raft/src/lib.rs:531-553 | for every number of entries kept, a run of a three-node in-memory group, from its start through elections, commits, a follower's compaction and its own election, in which a leader does not reach back to what a peer needs and two nodes apply different commands at index 1 |
| `RaftCompaction.FoldsOnlyApplied` | crates/raft/src/lib.rs:531-553 | a node folds only what it has applied, and a leader only what every peer has confirmed besides; a follower folds without asking |
| `RaftCompaction.FoldsAllItMay` | crates/raft/src/lib.rs:547-553 | a node with an in-memory log of more than the kept number of entries folds everything it has applied and, leading, every peer has confirmed; any other node folds nothing |
| `CpRuns.FencesIncrease` | crates/raft/src/fencedlock.rs:100-125 | over any command history, a fence handed out for a free lock is above every fence returned before it, across all lock names |
| `CpRuns.HoldStart` | crates/raft/src/fencedlock.rs:100-143 | a held lock goes back to the one command that took it free; owner and fence have not changed since, and the fence is that command's reply |
| `CpHolds.HeldIff` | crates/raft/src/fencedlock.rs:100-143 | after any history a lock is held if and only if some command took it free and since then its taker's unlocks have not evened out its locks, its session has not been closed and no tick was its lease's thirtieth |
| `CpHolds.HeldCount` | crates/raft/src/fencedlock.rs:100-138 | the count of a held lock is the number of its holder's lock commands since the one that took it, less the number of its unlock commands, counted in the history |
| `CpHolds.UnlockMeans` | crates/raft/src/fencedlock.rs:127-138 | an unlock is answered true exactly when its sender holds the lock, then frees it exactly when those two numbers become equal, and changes no other lock |
| `CpHolds.LockMeans` | crates/raft/src/fencedlock.rs:100-124 | a lock is answered with one more than the number of grants so far when free, with the fence held when its sender holds it, and otherwise with 0 and no change at all |
| `CpHolds.Replies` | crates/raft/src/cp.rs:165-188 | session and thread ids are handed out 1, 2, 3 and so on, a close says whether the session was live by the reference lease, and the rest is not answered |
| `CpRuns.ReentryKeepsFence` | crates/raft/src/fencedlock.rs:100-124 | re-entering returns the fence of the acquisition the holder still has |
| `CpRuns.SessionLife` | crates/raft/src/session.rs:82-118 | after any history a session is live if and only if a reference lease, counting ticks since its last renewal, still runs |
| `CpRuns.SessionEnds` | crates/raft/src/cp.rs:165-188 | a session ends by a close or at exactly the 30th tick since its last renewal, and no lock of that session outlives that command |
| `CpRuns.HolderIsLiveIff` | crates/raft/src/cp.rs:165-188 | the holder of a lock taken at command j has a live session if and only if it had one just before j or was created since |
| `CpRuns.HoldingNeedsNoSession` | crates/raft/src/fencedlock.rs:100-124 | a lock can be held by a session that never existed, so holding alone does not imply a live session |
| `CpRuns.EndedStaysEnded` | crates/raft/src/session.rs:82-87 | an ended session never lives again: ids are not reused |
| `CpModel.ReleaseOrderIrrelevant` | crates/raft/src/session.rs:105-118 | releasing a set of expired sessions gives the same locks in every order |
| `CpObjects.FencedLockSm.Acquire` | crates/raft/src/fencedlock.rs:100-124 | free: new fence, count 1; own: count up, same fence; other's: refused; all other locks untouched |
| `CpObjects.FencedLockSm.Release` | crates/raft/src/fencedlock.rs:127-138 | the object releases as the value model does, which `UnlockMeans` and `HeldCount` read off the history |
| `CpObjects.FencedLockSm.ReleaseSession` | crates/raft/src/fencedlock.rs:141-143 | exactly the locks of that session go |
| `CpObjects.SessionSm.Tick` | crates/raft/src/session.rs:105-118 | exactly the sessions whose deadline has come are removed and returned, each listed once, in whatever order the map yields them |
| `CpObjects.SessionSm.Create` | crates/raft/src/session.rs:82-87 | a fresh id with a full lease |
| `CpObjects.SessionSm.Heartbeat` | crates/raft/src/session.rs:90-97 | renews a live session and only reports failure otherwise |
| `CpObjects.SessionSm.Close` | crates/raft/src/session.rs:100-102 | removes the session if it lives |
| `CpObjects.CpSm.Apply` | crates/raft/src/cp.rs:121-139 | one committed command has the effect and reply of the value model |
| `CpObjects.CpSm.ApplyTick` | crates/raft/src/cp.rs:165-188 | whatever order the expired sessions come in, a tick leaves the state of the value model |
| `CpConvergence.ReplicaIsLogPrefix` | crates/raft/src/cp.rs:348-359 | over every Raft run a node's machine has applied exactly the commands of its log up to its cursor |
| `CpConvergence.ReplicasConverge` | crates/raft/src/cp.rs:121-189 | of two replicas the less advanced is in a state the other went through |
| `CpConvergence.EqualProgressEqualState` | crates/raft/src/cp.rs:348-359 | replicas that applied equally many commands are in the same state |
| `CpClients.OwnReplyIff` | crates/raft/src/cp.rs:269-293 | over every run, whoever is answered had its command proposed here and answered with the index now applied; the entry applied there is that proposal if and only if it is of the term the proposer was in, and then the reply is that of the client's own command in its place |
| `CpClients.AnsweredIff` | crates/raft/src/cp.rs:348-359 | draining answers exactly the clients filed under the indices it applies, each with the reply the log's operation at that index has in its place |
| `CpStale.StaleAnswer` | crates/raft/src/cp.rs:348-359 | a run in which a client is answered with the reply to whatever command the next leader committed at the index its own, lost one was filed under: the table does not keep the term |
| `CpGroups.CpGroup.ApplyCommitted` | crates/raft/src/cp.rs:348-359 | the loop gives the answers, the machine and the table of the value model |
| `CpGroups.CpGroup.Await` | crates/raft/src/cp.rs:276-279 | a client is filed under the index its proposal was answered with, if it was |
| `CpFolding.FoldingIsUnseen` | crates/raft/src/cp.rs:336-359 | over runs with compactions in which every leader reaches back to what its peers need, a node's machine is in the state it has without them |
| `CpFolding.FoldingReplicasConverge` | crates/raft/src/cp.rs:336-359 | of two replicas of such a group the less advanced is in a state the other went through |
| `CpFolding.FoldingEqualState` | crates/raft/src/cp.rs:336-359 | replicas of such a group that applied equally many commands are in the same state |
| `Membership.Owner` | crates/server/src/membership.rs:112-122 | with n members, the result is at (p + j) mod n for the least j that meets a live member, and at p mod n if nobody lives |
| `Membership.BackupsOf` | crates/server/src/membership.rs:126-140 | the holders after the owner on the live ring, exactly the smaller of K and the other live members, in ring order |
| `Membership.HoldersByPosition` | crates/server/src/membership.rs:112-140 | by positions alone: owner and backups of p are at (p + j) mod n for the first K + 1 steps j that meet a live member, in that order, and at p mod n when nobody lives |
| `Membership.EveryoneAlive` | crates/server/src/membership.rs:112-140 | with everybody alive, position (p + k) mod n is the k-th holder of p, so a member owns the partitions congruent to its position |
| `Membership.HoldersAreLive` | crates/server/src/membership.rs:112-140 | owner and backups are distinct live members |
| `Membership.AfterOwner` | crates/server/src/membership.rs:126-140 | the live ring of a partition starts with its owner |
| `Migration.FailoverLandsOnData` | crates/server/src/membership.rs:112-152 | after deaths only, if some old holder survives, the new owner is the first surviving old holder |
| `Migration.FewDeathsSpare` | crates/server/src/membership.rs:112-152 | no more deaths than there are backups leave every partition a surviving holder, if anyone is alive |
| `Migration.OwnerIsSender` | crates/server/src/migration.rs:61-69 | with unique ids, after deaths only, the member that plans the sends of a partition is its new owner |
| `Migration.SurvivingOwnerStays` | crates/server/src/membership.rs:112-152 | deaths never move a partition off a surviving owner |
| `Migration.Plan` | crates/server/src/migration.rs:56-80 | a member plans (p, target) if and only if it is the one sender of p and target is a new holder that lacked it; no pair twice |
| `Migration.PlanPartition` | crates/server/src/migration.rs:56-80 | one partition's sends: exactly the new holders lacking it, if this member is the first old holder still alive |
| `Migration.OneSender` | crates/server/src/migration.rs:61-69 | over all members' plans, a holder that lacks p gets it from some member if and only if an old holder is alive, and then from exactly one, which is alive and held it |
| `Migration.MigrationPopulates` | crates/server/src/migration.rs:34-80 | with one surviving old holder, delivering all plans leaves every new owner and backup of the partition with the data |
| `ClusterChanges.PartitionIsNeverLost` | crates/server/src/migration.rs:34-80 | over any sequence of joins, revivals and deaths, with plans delivered, a partition one of whose holders survives each single change ends with its data on every current owner and backup |
| `ClusterChanges.DataIsNeverLost` | crates/server/src/migration.rs:34-80 | so if no change kills more members than there are backups, nor the last member, every partition keeps its data |
| `ClusterChanges.FailoverOverTime` | crates/server/src/membership.rs:112-152 | after any sequence of changes from members with unique ids, deaths that spare a holder of a partition make an old holder its new owner, and that owner the one member that sends it |
| `ClusterChanges.Cluster.AddMember` | crates/server/src/membership.rs:168-185 | a known live member is left alone, a known dead one is revived in place with its old join id, an unknown one is appended, with a fresh join id if its own is zero or taken |
| `ClusterChanges.Cluster.RemoveMember` | crates/server/src/membership.rs:143-152 | a live member with that id is tombstoned in place and nobody else moves; otherwise nothing changes |
| `ClusterChanges.Cluster.SetView` | crates/server/src/membership.rs:190-205 | the view is replaced if and only if its generation is newer |
| `ClusterChanges.NextKeepsUnique` | crates/server/src/membership.rs:143-185 | changes keep member ids unique |
| `ClusterChanges.JoinMeans` | crates/server/src/membership.rs:168-185 | with unique ids, a join is refused exactly to a live member; else that member and nobody else becomes live, everyone keeps their place, a known one gets its old join id back and a new one comes last with the id it asked for or one above the highest |
| `ClusterChanges.RemoveIsDeath` | crates/server/src/membership.rs:143-152 | removing a member is its death alone, and says whether it was live |
| `ClusterChanges.RemovalsAreDeaths` | crates/server/src/membership.rs:143-152 | removing members one by one, in any order, is their death at once, which the migration theorems are about |
| `ClusterChanges.DeathMeans` | crates/server/src/membership.rs:143-152 | deaths leave everyone at their place and exactly the others live |
| `Persistence.EveryCrashRecovers` | crates/server/src/persist_thread.rs:65-116 | at every point of every run through rolls, fuzzy snapshots, prunes and restarts at any unsynced byte: the live store is what the last restart recovered plus the mutations since; whatever byte the next crash leaves, synced records survive, the restart rebuilds exactly the store after the last survivor if those reach the newest snapshot's capture, and in any case each slot comes back as it was then or as captured |
| `StoreContents.SyncedEntryComesBack` | crates/persistence/src/lib.rs:92-128 | at every point of every run and for every cut a crash may make, a map entry whose last mutation is synced comes back with the bytes and stamp that put carried, or is gone if it was a remove, as in the live store |
| `StoreContents.SyncedStateComesBack` | crates/persistence/src/lib.rs:92-128 | the same of a structure whose last installed state is synced |
| `StoreContents.UntouchedComesBack` | crates/persistence/src/lib.rs:92-128 | an entry not touched since the last restart comes back as that restart found it |
| `StoreContents.EntryHolds` | crates/persistence/src/lib.rs:107-117 | after any mutations a map entry holds the bytes and stamp of its last put, nothing if its last mutation is a remove, and what it held at first if it has none |
| `StoreContents.StateHolds` | crates/persistence/src/lib.rs:118-122 | after any mutations another structure is in the state last installed for it |
| `Persistence.SinceRestart` | crates/server/src/persist_thread.rs:54-64 | the base of a life is what its restart recovered from whatever the crash left, and its history every mutation since |
| `Persistence.WholeLife` | crates/server/src/persist_thread.rs:54-116 | through restarts that all leave the newest snapshot's capture whole, the live store is the effect of every mutation not lost, in order, from an empty store |
| `Persistence.RestartIsGood` | crates/server/src/persist_thread.rs:54-64 | a start on any disk whatever is sound: it opens a generation above every file and what it recovered is its base |
| `Persistence.StepKeeps` | crates/server/src/persist_thread.rs:65-116 | mutating, draining, syncing, rolling, installing a snapshot, dropping any older file and crashing at any unsynced byte all keep: the files, replayed, give the base or a capture of the history, and hold the history from there on without a gap |
| `Persistence.CrashRecovers` | crates/persistence/src/lib.rs:92-128 | recovery after a cut gives the store after the last surviving record whenever survivors reach the snapshot's capture |
| `Persistence.CrashKeepsSlots` | crates/persistence/src/lib.rs:92-128 | without that condition every slot still has the value after the last survivor or the captured one |
| `Recovery.FuzzyReplay` | crates/persistence/src/lib.rs:92-128 | a snapshot whose slots were captured at different moments, replayed in order past the last of them, equals the store; puts merge by stamp, removes are unconditional |
| `Recovery.RecoversIff` | crates/persistence/src/lib.rs:92-128 | exactly when one slot of a snapshot captured after the cut still comes back as it was at the cut |
| `Recovery.ReachIsNeeded` | crates/persistence/src/lib.rs:92-128 | for every cut before the end of the capture some history recovers to something else: the condition is exact |
| `Persistence.NeverHad` | crates/persistence/src/lib.rs:92-128 | a run (roll, two puts, a snapshot that sees only the second, a crash before either record is written) after whose restart the store is one the system never had |
| `Wal.CutSegment` | crates/persistence/src/wal.rs:55-80 | a segment cut at any byte reads back as exactly the records that lie whole before the cut |
| `Wal.WholeSegment` | crates/persistence/src/wal.rs:29-80 | an uncut segment reads back as exactly what was appended |
| `Wal.ReadSegment` | crates/persistence/src/wal.rs:55-80 | the loop returns the records before the first frame that does not decode |
| `Wal.FrameRoundTrip` | crates/persistence/src/record.rs:188-214 | a framed record decodes to itself whatever follows and whatever the checksum function |
| `Wal.TornFrame` | crates/persistence/src/record.rs:188-214 | no proper prefix of a frame decodes |
| `Wal.PayloadRoundTrip` | crates/persistence/src/record.rs:81-185 | put, remove and state payloads parse back to the mutation they were made from |
| `WalFormat.DecodeIff` | crates/persistence/src/record.rs:188-214 | bytes decode to a record if and only if they begin with that record's frame, checksum included |
| `WalFormat.TornIsFinal` | crates/persistence/src/record.rs:188-214 | what is torn stays torn whatever is written after it, and a length below two is torn |
| `WalFormat.CutAsksForMore` | crates/persistence/src/record.rs:188-214 | a frame not yet all there asks for more |
| `WalFormat.GarbageEnds` | crates/persistence/src/wal.rs:55-80 | after whole records, anything that does not decode ends the segment and nothing before it is lost |
| `WalFormat.LowByteFirst` | crates/persistence/src/record.rs:61-64 | numbers are written low byte first |
| `WalFormat.PutOnDisk` | crates/persistence/src/record.rs:49-97 | a put on disk byte for byte: length, checksum of the rest, type 1, stamp, time to live, map, key and value, low bytes first |
| `WalFormat.RemoveOnDisk` | crates/persistence/src/record.rs:99-105 | a remove on disk byte for byte, type 2 |
| `WalFormat.StateOnDisk` | crates/persistence/src/record.rs:126-132 | an installed state on disk byte for byte, type 3 |
| `WalMachine.EncodeRecord` | crates/persistence/src/record.rs:49-58 | placeholder, body and patched checksum add exactly the frame to the buffer |
| `WalMachine.WalSegment.Append` | crates/persistence/src/wal.rs:29-33 | a file holding the frames of some records then holds those of one more, and its byte count follows |
| `RecoverMachine.Recover` | crates/persistence/src/lib.rs:92-128 | the loop over files gives the store of the declarative definition (newest snapshot, then every segment not older), whose contents `SyncedEntryComesBack` states |
| `RecoverMachine.LatestOnDisk` | crates/persistence/src/lib.rs:67-77 | the result bounds every file of either kind |
| `RecoverMachine.PruneBelow` | crates/persistence/src/lib.rs:80-88 | exactly the files below the kept generation go, the others unchanged |
| `RecoverMachine.ReplaySegment` | crates/persistence/src/lib.rs:103-126 | unparsable payloads are skipped and the rest replay in order |
| `WindowBatch.StreamIsBatch` | crates/jet/src/window.rs:188-264 | when no event is older than an earlier watermark, a run ending in Done reports each non-empty window and key exactly once with the aggregate of exactly its events, and nothing stays open |
| `WindowBatch.StreamIsBatchIff` | crates/jet/src/window.rs:188-264 | for any stream, a window is reported as the batch would if and only if no watermark that shuts it comes between two of its events |
| `WindowBatch.LateEventsSplit` | crates/jet/src/window.rs:188-264 | an event, a watermark that shuts its window and a late event in it: the window is not reported as the batch would |
| `WindowBatch.RunStands` | crates/jet/src/window.rs:142-264 | for any stream, late events included, a window has reported exactly its finished groups of values, in order, and holds exactly the open one |
| `WindowBatch.GroupsPartition` | crates/jet/src/window.rs:142-232 | the groups of a window partition its values in order of arrival |
| `WindowBatch.Conserved` | crates/jet/src/window.rs:44-66 | sums and counts reported plus those still open equal what the events contributed to all their windows |
| `WindowBatch.TumblingConserves` | crates/jet/src/window.rs:142-150 | a finished tumbling run reports the count or sum of all events however late |
| `WindowBatch.StartsAre` | crates/jet/src/window.rs:151-162 | an event is folded, once each, into exactly the windows that contain it |
| `WindowBatch.TumblingHasOne` | crates/jet/src/window.rs:144-150 | a tumbling window is the one sliding window containing the event |
| `WindowBatch.AccMeans` | crates/jet/src/window.rs:44-66 | the accumulator is the sum, count, least and greatest of its values |
| `WindowBatch.GetMeans` | crates/jet/src/window.rs:56-65 | what the accumulator reports is the sum, the number, the least, the greatest or the mean rounded toward zero of its values |
| `WindowBatch.GetIsFigure` | crates/jet/src/window.rs:56-65 | there is exactly one such figure of given values, and it is the one reported |
| `WindowMarks.ResultsArePrompt` | crates/jet/src/window.rs:241-263 | without late events no result of a fixed window follows a watermark at or past the window's end |
| `WindowMarks.FixedMarks` | crates/jet/src/window.rs:241-263 | fixed windows pass watermarks and the end on as they came, in order, and nothing else but results |
| `WindowMarks.SessionMarks` | crates/jet/src/window.rs:241-263 | session windows pass watermarks and the end on as they came, in order |
| `WindowMarks.FixedTidy` | crates/jet/src/window.rs:188-232 | results reported together come by start and then by key bytes, and a mark ends each group of them |
| `WindowMarks.SessionTidy` | crates/jet/src/window.rs:208-230 | and so do the results of session windows |
| `SessionBatch.ReportIs` | crates/jet/src/window.rs:221-228 | what is reported of a session is its run's least timestamp, its greatest plus one, and the figure of its values |
| `SessionBatch.SessionsAreRuns` | crates/jet/src/window.rs:163-230 | for per-key non-decreasing timestamps above all earlier watermarks, a finished run reports per key, in order, one result per maximal run of its events: from the least to just past the greatest timestamp, with the figure of the run's values |
| `SessionBatch.RunTold` | crates/jet/src/window.rs:163-230 | at every moment of such a run, reported and open sessions of a key together are its sessions so far |
| `SessionBatch.RunsAreMaximal` | crates/jet/src/window.rs:163-183 | the batch runs cut the events in order, no step inside exceeds the gap and every step between does |
| `SessionOrder.SessionsAreRunsIff` | crates/jet/src/window.rs:163-230 | for any stream ending in Done, in any order, the results reported for a key are, as a multiset, one per maximal run of its time-sorted events (least timestamp, greatest plus one, figure of the values) if and only if every event of the key, on arrival, was within the gap of at most one open session and of none already reported; otherwise more sessions are reported than there are runs |
| `SessionOrder.RunStands` | crates/jet/src/window.rs:163-230 | at every moment of any run, the sessions reported and open are those of the runs so far, or more in number once an event was not so placed |
| `SessionOrder.RunsAbsorb` | crates/jet/src/window.rs:163-183 | one more event, wherever its time falls, joins the run near it, joins two runs near it into one, or is a run by itself |
| `SessionOrder.InTimeIs` | crates/jet/src/window.rs:163-183 | the events in order of time are the same events, in order of time |
| `SessionOrder.BridgesDoNotMerge` | crates/jet/src/window.rs:163-183 | a run of events at 0, 20 and then 10 with gap 10 reports more sessions than there are runs |
| `SessionOrder.TheEdgeIsCut` | crates/jet/src/window.rs:208-218 | a run of an event at 0, a watermark at 10 and an event at 10 with gap 10 reports more sessions than there are runs |
| `WindowMachine.WindowProcessor.Process` | crates/jet/src/window.rs:241-263 | draining any inbox has the state and output of the value model, for fixed and session windows |
| `WindowMachine.WindowProcessor.CloseFixed` | crates/jet/src/window.rs:188-232 | exactly the complete windows are reported and dropped, in order of start and key |
| `WindowMachine.WindowProcessor.CloseSessions` | crates/jet/src/window.rs:208-230 | exactly the sessions that are over are reported and dropped as in the value model, whatever order the map yields keys; `SessionsAreRuns` says what is reported |
| `WindowMachine.WindowProcessor.AddSliding` | crates/jet/src/window.rs:151-162 | the downward loop folds the event into every window of the value model |
| `WindowMachine.InsertEvent` | crates/jet/src/window.rs:163-183 | the first session near the event is extended on either side, else one is added |
| `WindowMachine.Sorted` | crates/jet/src/window.rs:188-230 | the elements of a set in strictly increasing order of start, key and position |
| `JoinBatch.JoinIsExact` | crates/jet/src/join.rs:94-129 | over every interleaving, the joined outputs are the key, left payload and right payload of the pairs that meet, in order of arrival, and no others |
| `JoinBatch.PairListed` | crates/jet/src/join.rs:86-129 | a pair is listed if and only if it has opposite sides and equal keys and no watermark between the arrivals evicts the earlier record |
| `JoinBatch.PairsDistinct` | crates/jet/src/join.rs:94-129 | no pair is listed twice |
| `JoinBatch.UnboundedIsProduct` | crates/jet/src/join.rs:74-76 | with unbounded retention the pairs are the full per-key product |
| `JoinBatch.RunHolds` | crates/jet/src/join.rs:86-124 | the buffers hold, per side and key, exactly the records not evicted, in order of arrival |
| `JoinBatch.MarksPass` | crates/jet/src/join.rs:95-129 | watermarks and the end come through as they came, in order, and nothing else but joined records |
| `JoinMachine.JoinProcessor.Process` | crates/jet/src/join.rs:95-129 | draining any inbox has the buffers and output of the value model |
| `JoinMachine.EvictBelow` | crates/jet/src/join.rs:86-91 | exactly the entries older than the cutoff go, and the keys left with none |
| `IndexPlanning.PlannedFinds` | crates/store/src/lib.rs:584-652 | after any history of puts, deletes, clears and added indexes, a planned query returns nothing a full scan would not, and every satisfying entry the answering index is not blind to |
| `IndexPlanning.PlannedQueries` | crates/store/src/lib.rs:617-652 | after any history without a clear, a planned query equals the full scan if and only if the answering index is blind to no satisfying entry |
| `IndexPlanning.StaleKeyIsFound` | crates/store/src/lib.rs:584-598 | a clear leaves the indexes as they are: a key filed before it and put again in the other width is still found, though the index is blind to its value |
| `IndexPlanning.PlanIff` | crates/query/src/index.rs:151-194 | whenever the planner answers, a satisfying key is among its keys if the answering part is not blind to it, and only if, where nothing but entries is filed |
| `IndexPlanning.QueryIff` | crates/query/src/index.rs:76-127 | a satisfying entry is read if its zero does not have the other sign (Eq, Le, Ge) nor, on a hash index, its integer the other width; and only if, where nothing but entries is filed |
| `IndexPlanning.QueryReturns` | crates/query/src/index.rs:76-127 | a lookup or range over a mirroring index reads, among comparable values, exactly the satisfying entries it is not blind to and opposite zeros under a strict comparison |
| `IndexPlanning.OverreadsIff` | crates/query/src/index.rs:76-127 | a comparable value that does not satisfy the comparison is read exactly for opposite zeros under a strict comparison or one number in two widths under inequality |
| `IndexPlanning.BetweenIff` | crates/query/src/index.rs:135-146 | a satisfying entry is read if no bound is the zero of the other sign on its side, and only if, where nothing but entries is filed |
| `IndexPlanning.InIff` | crates/query/src/index.rs:174-182 | in a mirroring index a key is read if and only if some listed value equal to its field is visible to the index, or its field is a listed not-a-number on a sorted index |
| `IndexPlanning.TameIsSeen` | crates/query/src/eval.rs:54-144 | without negative zeros, and with one integer width on hash indexes, nothing is lost |
| `IndexPlanning.WidthsAreLost` | crates/serialization/src/compact.rs:81-93 | one number stored in the other width satisfies the predicate and is lost on a hash index |
| `IndexPlanning.ZerosAreLost` | crates/serialization/src/compact.rs:32-60 | the zero of the other sign satisfies equality and is lost on either kind of index |
| `IndexPlanning.PanicsIff` | crates/query/src/index.rs:135-146 | the planner panics if and only if the first conjunct an index answers is a range with inverted bounds on a sorted index that ever held a key, however deep in conjunctions |
| `IndexPlanning.RangesPanic` | crates/query/src/index.rs:135-146 | a range from 1 to 0 over a sorted index of one entry panics where a scan finds nothing |
| `IndexPlanning.InvertedRangePanics` | crates/query/src/index.rs:135-146 | where the planner panics, a scan would find something only if the bounds of such a range are the two zeros |
| `Indexing.FollowMirrors` | crates/store/src/lib.rs:158-190 | replacing or deleting an entry keeps every entry findable with buckets apart, and a mirror a mirror: every filed key genuine |
| `FieldValues.SortedSplits` | crates/serialization/src/compact.rs:63-75 | the total order and predicate equality disagree exactly on the two zeros, and on null and a not-a-number against themselves |
| `FieldValues.CompareMeans` | crates/serialization/src/compact.rs:63-75 | the predicates' comparison: smaller number of either integer width or of floats, false before true, byte order of strings; and none across kinds, for null or for a not-a-number |
| `FieldValues.CmpMeans` | crates/serialization/src/compact.rs:33-59 | the total order is that comparison wherever it exists, but for negative zero just below zero; kinds come null, booleans, integers, floats, strings, and not-a-numbers lie outside the numbers on the side of their sign |
| `FieldValues.CmpIsOrder` | crates/serialization/src/compact.rs:33-59 | it is an order: turned round it flips, and it is transitive |
| `IndexPlanning.SatisfiesMeans` | crates/query/src/eval.rs:54-144 | what each of the six comparisons asks of two comparable values; incomparable values satisfy none |
| `IndexPlanning.ScanMeans` | crates/query/src/eval.rs:54-144 | a scan for a negation is the complement, for a disjunction the union and for a conjunction the intersection of the scans of its parts, the empty ones included |
| `IndexPlanning.PlansFirstIndexable` | crates/query/src/index.rs:151-194 | however conjunctions are nested, the planner answers from the first conjunct whose field has an index that can answer it, and has no answer exactly when there is none |
| `FieldValues.HashSplits` | crates/serialization/src/compact.rs:81-93 | hashing and predicate equality disagree exactly on the two zeros, on one number in two widths, and on null against itself |
| `IndexMachine.ValueIndex.Insert` | crates/query/src/index.rs:43-52 | the key joins the bucket a lookup of the value finds, or a new one |
| `IndexMachine.ValueIndex.Remove` | crates/query/src/index.rs:54-73 | the key leaves the bucket found, which goes with its last key |
| `IndexMachine.ValueIndex.Query` | crates/query/src/index.rs:76-132 | the union of exactly the buckets whose value passes the comparison of that kind of index |
| `IndexMachine.ValueIndex.QueryBetween` | crates/query/src/index.rs:135-146 | the union of the buckets within the bounds, nothing on a hash index, and a panic on inverted bounds once a key was ever filed |
| `IndexMachine.ValueIndex.Build` | crates/store/src/lib.rs:192-226 | filing every entry in any order gives a mirror of the entries |
| `IndexMachine.ValueIndex.Update` | crates/store/src/lib.rs:158-190 | out with the old value, in with the new, nulls never filed |
| `PartialWire.ScatterGather` | crates/query/src/distributed.rs:318-390 | for any split of the rows over members and any order, partials written to the wire in any group order, read back and merged are the partial of all rows on one member |
| `Aggregation.MergeIsLocal` | crates/query/src/distributed.rs:375-390 | for any split and any permutation of the rows, merging the local partials gives one local partial over all rows, rows in several groups included |
| `Aggregation.LocalSums` | crates/query/src/distributed.rs:318-372 | a group is present exactly if it has rows, with the aggregate of exactly those rows, once per window they fall in |
| `Aggregation.AccMeans` | crates/query/src/distributed.rs:37-47 | an accumulator counts its rows, counts and sums their numbers and holds the least and greatest of them |
| `Aggregation.AccConcat` | crates/query/src/distributed.rs:37-64 | folding is a homomorphism from concatenation of rows to merging of accumulators |
| `Aggregation.OrderIrrelevant` | crates/query/src/distributed.rs:37-64 | an accumulator depends only on the multiset of its rows |
| `AggregationFloats.FloatSumsAreExact` | crates/query/src/distributed.rs:37-64 | with any float addition that is exact on whole results of magnitude at most 2^53, whole numbers whose sizes add up to at most 2^53 give, in any split and order, the sum of the one-member partial |
| `PartialWire.WireRoundTrip` | crates/query/src/distributed.rs:111-194 | a partial comes back from the wire as it was sent, in whatever order its groups are written |
| `PartialWire.PartialOnTheWire` | crates/query/src/distributed.rs:111-130 | a partial on the wire: each count in four bytes, then the cells of a group, then its accumulators |
| `PartialWire.AccOnTheWire` | crates/query/src/distributed.rs:120-127 | an accumulator on the wire byte for byte: rows, sum, number of values, least, greatest and whether any, in that order |
| `PartialWire.CellOnTheWire` | crates/query/src/distributed.rs:99-108 | a cell on the wire byte for byte: absent, or present with its length |
| `PartialWire.BadAddsNothing` | crates/server/src/member_thread.rs:490-500 | a message that does not decode adds nothing to the merge |
| `AggregationMachine.LocalPartial` | crates/query/src/distributed.rs:318-372 | the loops over rows, windows and columns give the value model's partial |
| `AggregationMachine.MergePartials` | crates/query/src/distributed.rs:375-390 | the loops give the value model's merge whatever order the maps yield groups |
| `AggregationMachine.HopWindows` | crates/query/src/sql.rs:103-120 | exactly the windows containing the timestamp, in increasing order, each with its end |
| `Reassembly.EveryMessageWhole` | crates/protocol/src/fragment.rs:30-54 | for every interleaving of messages with distinct ids in flight, the push of a last fragment returns exactly its own message's bytes and every other push nothing |
| `Reassembly.DeliveredReads` | crates/protocol/src/frame.rs:75-94 | a delivered message reads back as its frames, consuming all its bytes |
| `Reassembly.PushPart` | crates/protocol/src/fragment.rs:30-54 | pushing a fragment's bytes adds its own frames, without final marks, under its own id, whether or not its last frame came marked |
| `Reassembly.PushOdd` | crates/protocol/src/fragment.rs:30-54 | bytes that are not yet a message change nothing; a message whose first frame is too short for an id, and no other, panics |
| `Reassembly.DeliveredIsOriginal` | crates/protocol/src/fragment.rs:30-54 | when only the very last frame may be marked, the bytes delivered are those of the message before it was split |
| `Reassembly.Reassembler.Push` | crates/protocol/src/fragment.rs:30-54 | the object follows the value model on any bytes, incomplete and malformed ones included |
| `Frames.MessageRoundTrip` | crates/protocol/src/frame.rs:36-94 | a written message followed by anything reads back whole, taking exactly its own bytes, if and only if no frame before the last carries the final mark |
| `Frames.EarlyFinalCuts` | crates/protocol/src/frame.rs:75-94 | a frame marked final before the last cuts the message short |
| `Frames.MessageOnTheWire` | crates/protocol/src/frame.rs:36-55 | a message on the wire byte for byte: lengths counting their own six bytes, flags with the final mark 0x2000 on the last frame, contents; the end mark is 0x4000 |
| `Frames.CutMessage` | crates/protocol/src/frame.rs:75-94 | a message not yet all there is not read |
| `Frames.MessageLen` | crates/protocol/src/frame.rs:56-72 | agrees with the reader on whether a message is complete and on the bytes consumed, a length with the sign bit set counting as incomplete |
| `FrameWalk.ForwardAgrees` | crates/protocol/src/frame.rs:56-72 | with 64-bit wrapping offsets, the walk over headers ends with the reader's answer as long as no length takes the offset back |
| `FrameWalk.BackwardTurns` | crates/protocol/src/frame.rs:56-72 | otherwise the walk comes to a header whose length takes the offset back |
| `FrameWalk.NeverStops` | crates/protocol/src/frame.rs:56-72 | an input on which the walk turns back for ever |
| `Frames.ParseMessage` | crates/protocol/src/frame.rs:75-94 | the loop returns the frames up to the first final one, or nothing yet |
| `Frames.SerializeMessage` | crates/protocol/src/frame.rs:36-52 | the loop writes every frame and marks only the last one final |

## Left out

- Raft read lease: its safety rests on timing the code does not enforce.
- Raft torn log files: a crash keeps term, vote and log of a durable node whole; the log's own file format is not modelled.
- RaftRuns.StateMachineSafety: its runs have no compaction; `FoldingSafety` has, under the condition that leaders reach back far enough.
- CpConvergence.ReplicaIsLogPrefix: the same; `FoldingIsUnseen` carries it over.
- CpConvergence.ReplicasConverge: the same; see `FoldingReplicasConverge`.
- CpConvergence.EqualProgressEqualState: the same; see `FoldingEqualState`.
- Restarts of in-memory Raft nodes: such a node comes back with an empty log and no vote, so it could vote twice in a term; only durable nodes restart in the model.
- RaftElections.NeverStuck: there is a continuation; that timers and the network bring one about is not modelled. Its runs have no compaction, with which `GapAfterCompaction` can happen.
- CpClients.OwnReplyIff: its runs have no compaction; `FoldingDrainsProposed` carries its core over. A command forwarded to another member is the client's from the moment it is proposed there.
- Agreement on membership views between nodes: migration is stated over a shared old and new view.
- Partition table and quorum of the membership view: they add only easy members.
- Other CP objects (atomics, latch, semaphore, map) and the command and message codecs: small cases and routine round trips.
- CpObjects.CpSm.Apply: commands of those other objects have no effect and no reply.
- Persistence.EveryCrashRecovers: puts to one slot are assumed to carry increasing stamps, above the recovered one; the store takes the stamp before its shard lock, so racing puts to one slot may be logged in the other order.
- Expiry times in the store and in recovery: entries are modelled without a time to live.
- Records dropped by a full persistence queue and failed writes, syncs or renames: every mutation reaches the queue and every file operation succeeds.
- Snapshot file format: a snapshot is installed whole and loads as the entries it captured.
- UTF-8 checks on names: names are byte strings.
- Overflow of 64-bit timestamps, sums and counters: integers are unbounded; `InRange` and `InReach` bound timestamps where the end of time is compared.
- Frames.MessageLen: a length with the sign bit set counts as incomplete, as it does on a first frame; `ForwardAgrees` says when the wrapped offset of a later one makes no difference.
- Frames.ParseMessage: the same; where the walk would turn back, the reader panics on its slice.
- Aggregation.MergeIsLocal: sums are exact reals; `FloatSumsAreExact` bounds where floats agree, beyond which their rounding depends on an order the code does not fix.
- PartialWire.ScatterGather: the same.
- Aggregation.OrderIrrelevant: the same.
- FieldValues.HashSplits: a lookup of the zero of the other sign is taken to miss; where the tags of two hashes collide the table compares with equality and finds it.
- Finalizing rows (formatting, ordering, limits, DISTINCT) and equality with the single-node executor.
- Patterns and wrappers in predicates: any boolean function of the stored value.
- Store layout (slab, shards, eviction), schema layout, SQL parser, transports, security, jobs and transactions.
- Reassembly.EveryMessageWhole: frames fit a signed 32-bit length and only the last of a fragment may carry the final mark, as a reader of frames delivers them.
- SessionBatch.SessionsAreRuns: says in which order the sessions come, for orderly streams; `SessionsAreRunsIff` covers every stream.
- SessionBatch.RunTold: the same; `SessionOrder.RunStands` covers every stream.
- IndexPlanning.PlannedQueries: only without clears, after which stale filings can answer; `PlannedFinds` covers every history.

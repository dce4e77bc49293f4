# Domino server: verified model

A Dafny model of the domino server's replicated core and its in-memory services, with proofs of what
they promise.

* **Raft node** (`Wire`, `GameFsm`, `FsmCodec`, `LocalFsm`, `SnapshotFile`, `RaftSpec`, `RaftStorage`,
  `RaftNode`, `NodeRuns`, `CommitRules`, `CrashRecovery`, `Restarts`, `DurableVotes`, `Membership`).
  `RaftSpec` describes every operation over a log that is never compacted; the class `RaftNode` keeps the
  compacted log, the indices and the files as the server does and is proved to do exactly that, through a
  ghost full history.
  Crashes may fall between any two file writes.
* **Raft cluster** (`Cluster`, `ElectionSafety`, `LogMatching`, `HonestSnapshots`, `ElectionRestriction`,
  `CatchUp`, `ClusterRuns`, `ClusterFailures`, `ClusterWitness`). Nodes and everything ever sent; messages may be lost, delayed,
  repeated and reordered.
* **Domino match** (`DominoRules`, `DominoSession`, `DominoBoard`, `DominoTiles`, `DominoOutcome`,
  `DominoTermination`, `DominoRuns`, `DominoTurns`, `DominoScores`, `DominoRematch`). The
  session is a class updated in place, proved against the rules.
* **Services** (`RateLimit`, `SessionCache`, `HubRules`, `Hub`, `Elo`).

Where the code departs from the Raft paper (Ongaro and Ousterhout, extended version), the code is modelled
as it is. What follows from that:

* Following a leader's message clears the vote of the same term (`pkg/consensus/raft_node.go:302-307`).
  Election safety (section 5.2) therefore holds in runs in which nobody that has followed gives a second
  candidate its vote, and `ClusterFailures.AlwaysSafeIff` says from which size on there are runs outside them.
* `AppendEntries` cuts the log after PrevLogIndex whenever entries are present
  (`pkg/consensus/raft_node.go:328-330`). Log matching (section 5.3) survives this while terms have one
  leader each; applied entries survive it exactly for the messages named in `NodeRuns.AppendConsistentIff`,
  and the node itself exactly for those not named in `NodeRuns.AppendPanicsIff`. The commit index can go
  back with the log, in exactly the case `CommitRules.FollowerCommitRule` names.
* `InstallSnapshot` keeps the local tail unchecked (`pkg/consensus/raft_node.go:394-408`);
  `LogMatching.InstallKeepsMatchingIff` gives the exact condition, the check of section 7.
* A restart treats the whole persisted log as committed (`pkg/consensus/raft_node.go:1420-1423`), and a
  granted vote is not persisted (`DurableVotes.VoteForgottenIff`).
* During a membership change votes of the new peers are counted against the old majority
  (`Membership.JointElectionsMeetIff`).

Other places where code and comments or expectations differ, and the code is followed: the session cache
calls itself least-recently-used but evicts in insertion order (`SessionCache.RefreshedEntryIsEvicted`);
a play puts down the tile as the client submitted it, matched by id alone (`DominoTiles.TurnConservesIff`);
player ids may repeat, and then a match need not end (`DominoRuns.SetupEndsInTimeIff`); an
abandonment event of an old timer is taken for the current one (`HubRules.GraceEndsByOwnTimerIff`); a client
that the janitor forgets too early is served more than its limit (`RateLimit.WindowBoundIff`); a leader that
has compacted past nextIndex sends that peer snapshots for ever (`CatchUp.CatchesUpIff`).

Time, the choices of the shuffle's generator, the room left in a socket's channel, and message delivery are
parameters. Indices, terms and counters of the Raft node are unbounded natural numbers; token counts and
ratings are reals, and the Elo power of ten is any positive function that turns a change of sign into an
inverse; where the favourite is concerned it also grows, and where odds are named it takes 1 to 10.

`dafny verify dfyconfig.toml` checks the project.

## Model

| member | source | states |
|---|---|---|
| FsmCodec.DecodeInvertsEncode | pkg/consensus/fsm.go:308-405 | decoding the snapshot of any match map whose ids and statuses fit 16-bit lengths gives the map back, counters cut to 32 bits, whatever order the map was iterated in |
| FsmCodec.RoundTripExactIff | pkg/consensus/fsm.go:308-405 | the map comes back unchanged exactly when every counter fits a signed 32-bit field |
| FsmCodec.StrictPrefixRejected | pkg/consensus/fsm.go:347-405 | every strict prefix of a valid encoding is rejected |
| FsmCodec.EncodingLayout | pkg/consensus/fsm.go:308-319 | an encoding begins with the bytes of GFSM, version 1 and the number of records |
| FsmCodec.TrailingBytesIgnored | pkg/consensus/fsm.go:347-405 | bytes after the last record change nothing |
| Wire.BigEndianAt | pkg/consensus/fsm.go:320-342 | byte i of a k-byte field is the one of weight 256^(k-1-i) |
| LocalFsm.EncodeLocalFSMSnapshot | pkg/consensus/fsm.go:308-345 | the encoder fails exactly when an id or status is too long, and otherwise writes the header and one record per match in some iteration order |
| LocalFsm.DecodeLocalFSMSnapshot | pkg/consensus/fsm.go:347-405 | the reading loop accepts and returns what the format defines |
| LocalFsm.LocalGameFSM.Apply | pkg/consensus/fsm.go:78-116 | one command changes the match map as replay does, and reports rejections |
| LocalFsm.LocalGameFSM.Restore | pkg/consensus/fsm.go:131-145 | a decodable snapshot replaces the map, anything else leaves it alone |
| LocalFsm.ReplayCommands | pkg/consensus/fsm.go:288-296 | succeeds exactly when no command of the sequence is rejected, and then ends with the replay of all of them |
| LocalFsm.AcceptedIff | pkg/consensus/fsm.go:78-116 | after any entries exactly no-ops, starts, and turns of a match that has been started are accepted |
| GameFsm.ReplayCountsTurns | pkg/consensus/fsm.go:78-116 | after any entries a match is known exactly when it has been started, and counts the turns since it last was |
| LocalFsm.SnapshotRestoresReplay | pkg/consensus/fsm.go:119-145 | a snapshot of the state reached by fewer than 2^31 entries restores exactly the replay of those entries |
| SnapshotFile.SnapshotFileRoundTrip | pkg/database/storage.go:213-255 | a written snapshot file reads back as its record, and cut short anywhere it is rejected |
| SnapshotFile.FileLayout | pkg/database/storage.go:213-226 | the file is the bytes of GMSN, version 1, index, term, length and payload, each at its offset |
| SnapshotFile.TrailingBytesIgnored | pkg/database/storage.go:228-255 | bytes after the payload change nothing |
| SnapshotFile.PutBigEndian | pkg/database/storage.go:219-223 | the number's bytes, most significant first, fill their place; the rest of the buffer is untouched |
| SnapshotFile.WriteSnapshotFile | pkg/database/storage.go:213-226 | the buffer filled field by field is the file the format defines; oversized payloads are refused |
| SnapshotFile.ReadSnapshotFile | pkg/database/storage.go:228-255 | the record filled field by field is what the format defines; short or foreign input is refused |
| RaftNode.RaftNode.Offsets | pkg/consensus/raft_node.go:1304-1309 | position o of the compacted log holds the entry of the full history with index snapshotIndex + o, the sentinel's term being the snapshot's |
| RaftNode.RaftNode.RequestVote | pkg/consensus/raft_node.go:253-283 | refines the vote rule over the full history: term catch-up, one vote, up-to-date log |
| RaftNode.RaftNode.AppendEntries | pkg/consensus/raft_node.go:286-349 | refines the full-history handler, writes the files in the stated order, and panics exactly when compaction would read past a cut log |
| RaftNode.RaftNode.AcceptEntries | pkg/consensus/raft_node.go:327-342 | cutting the compacted log after PrevLogIndex and appending is cutting and extending the full history |
| RaftNode.RaftNode.InstallSnapshot | pkg/consensus/raft_node.go:352-421 | refines the full-history handler: the image replaces what it covers, the local tail is kept unchecked; an undecodable image only adopts the term |
| RaftNode.RaftNode.BecomeFollowerLocked | pkg/consensus/raft_node.go:423-430 | a follower of the term without vote or bookkeeping |
| RaftNode.RaftNode.StartElectionLocked | pkg/consensus/raft_node.go:485-523 | term raised, own vote cast, and the majority counted against the old configuration during a transition |
| RaftNode.RaftNode.PromoteToLeader | pkg/consensus/raft_node.go:561-592 | only a candidate of that very term leads; all peers start at last index + 1 and 0 |
| RaftNode.RaftNode.CollectReplicationTasks | pkg/consensus/raft_node.go:638-682 | one task per other peer, each what the full history prescribes, and no log access out of range |
| RaftNode.RaftNode.HandleAppendEntriesReply | pkg/consensus/raft_node.go:711-738 | refines the full-history reply handler, including when a snapshot is asked for and which files a compaction writes |
| RaftNode.RaftNode.AdvanceCommitIndexLocked | pkg/consensus/raft_node.go:740-755 | the commit index becomes the largest committable index of the current term above it, found by the downward loop |
| RaftNode.RaftNode.QuorumMetForIndex | pkg/consensus/raft_node.go:757-772 | during a transition both configurations must agree |
| RaftNode.RaftNode.ActiveVotersInConfig | pkg/consensus/raft_node.go:774-783 | the loop counts exactly the peers that are not pending |
| RaftNode.RaftNode.ReplicationCountInConfig | pkg/consensus/raft_node.go:798-813 | the loop counts exactly the non-pending peers holding the index, itself included |
| RaftNode.RaftNode.Propose | pkg/consensus/raft_node.go:824-851 | only a leader appends, at last index + 1 in its term, and persists it |
| RaftNode.RaftNode.ApplyMembershipLocked | pkg/consensus/raft_node.go:1175-1261 | refines the three membership commands over the full history's node |
| RaftNode.RaftNode.ReplayCommittedLocked | pkg/consensus/raft_node.go:1341-1358 | the loop applies the log up to the commit index or its end, membership and state machine alike |
| RaftNode.RaftNode.MaybeCompactLocked | pkg/consensus/raft_node.go:1461-1523 | compaction keeps the full history, snapshots the replay of what was applied, and writes snapshot, log and meta in that order |
| RaftNode.RaftNode.TruncateLogInMemory | pkg/consensus/raft_node.go:1487-1496 | the log behind its new sentinel still is the history's tail |
| RaftNode.RaftNode.PersistDurableState | pkg/consensus/raft_node.go:1540-1570 | the log file receives the uncompacted tail, then the meta file the indices |
| RaftNode.RaftNode.BootstrapFromStorage | pkg/consensus/raft_node.go:1369-1459 | the node rebuilt from any well-formed files is the full-history recovery of them |
| RaftStorage.RaftStorage.PersistSnapshot | pkg/database/storage.go:102-117 | the snapshot file is replaced in one step; no other file changes |
| RaftStorage.RaftStorage.PersistLog | pkg/database/storage.go:136-157 | the log file is replaced before the meta file, each in one step |
| RaftSpec.TopCommit | pkg/consensus/raft_node.go:740-755 | the largest committable index in range, or the commit index itself: it never moves back and skips nothing |
| RaftSpec.ApplyLoopRunsAhead | pkg/consensus/raft_node.go:1341-1358 | applying feeds exactly the entries between lastApplied and the lesser of commit index and last index |
| NodeRuns.AppendConsistentIff | pkg/consensus/raft_node.go:311-342 | after AppendEntries the applied entries are a prefix of the log exactly when the message covers and agrees with them |
| NodeRuns.HarmlessNeverPanics | pkg/consensus/raft_node.go:1480-1480 | such a message never makes compaction read past the log |
| NodeRuns.AppendPanicsIff | pkg/consensus/raft_node.go:1341-1358 | a message brings the node down exactly when it is accepted, cuts the log below what was applied, and leaves enough entries for a compaction that can be encoded |
| NodeRuns.StepKeepsSound | pkg/consensus/raft_node.go:286-421 | every operation, term notices and undecodable snapshots included, keeps: snapshot within applied within log, indices consecutive, state machine the replay, leader bookkeeping in range |
| NodeRuns.After | pkg/consensus/raft_node.go:1341-1367 | the same after any run of any length |
| NodeRuns.TasksAreInRange | pkg/consensus/raft_node.go:638-682 | in every run each message built lies within the log and has LeaderCommit at most PrevLogIndex plus its entries |
| CommitRules.LeaderCommitRule | pkg/consensus/raft_node.go:740-755 | outside a transition a leader's commit index moves to the last uncompacted index of its own term that more than half of a non-empty set of peers hold, and stays if there is none above it |
| CommitRules.ReplyCommitRule | pkg/consensus/raft_node.go:711-738 | with each acknowledgement of its own term a leader commits at once all that its books then allow and applies it; other replies of no later term change nothing |
| CommitRules.LeadersCommitOwnTerm | pkg/consensus/raft_node.go:740-755 | in every run, whenever a leader raises its commit index the entry there is of its own term (section 5.4.2 of the Raft paper), transitions included |
| CommitRules.FreshLeader | pkg/consensus/raft_node.go:581-592 | a new leader tracks exactly the other peers; its first message to each is a heartbeat at the end of its log, and before any reply it can commit only in a cluster of one |
| CommitRules.PromotedIff | pkg/consensus/raft_node.go:561-592 | votes counted in one term promote nobody in another, and nobody who is not standing |
| CommitRules.ProposedIff | pkg/consensus/raft_node.go:824-851 | leaders alone take commands, each as one entry of their term at the end of their log |
| CommitRules.FollowerCommitRule | pkg/consensus/raft_node.go:332-341 | every accepted message, heartbeats included, brings the commit index up to the leader's as far as the log reaches and applies all of it; it goes back exactly where the message cuts the log below it and commits beyond it |
| CommitRules.RejectedCommitsNothing | pkg/consensus/raft_node.go:292-325 | a message that is not accepted changes neither log, commit index nor state machine |
| CommitRules.StoredInOrderIff | pkg/consensus/raft_node.go:327-331 | the entries stored are those sent, and are numbered in order exactly when each was sent with its number or with none |
| CommitRules.SnapshotTakenIff | pkg/consensus/raft_node.go:1461-1523 | a snapshot of all that is applied is taken exactly when the log has reached the threshold, something new is applied, and it can be encoded |
| CommitRules.InstallMovesIndices | pkg/consensus/raft_node.go:394-408 | what installing does to commit index and applied index, and exactly when each falls back |
| NodeRuns.StaleAppendUndoesApplied | pkg/consensus/raft_node.go:328-330 | a delayed copy of an earlier message of the same leader cuts an applied entry |
| NodeRuns.StaleAppendPanics | pkg/consensus/raft_node.go:1480-1480 | with compaction due, that same message brings the node down |
| CrashRecovery.RestartReplaysEverything | pkg/consensus/raft_node.go:1369-1459 | a restart applies the whole recovered log, up to the last index on disk, whatever was committed |
| CrashRecovery.RecoversPrefixIff | pkg/consensus/raft_node.go:1376-1418 | the recovered log is a prefix of a history exactly when the log file agrees with it beyond the snapshot |
| CrashRecovery.AppendCrash | pkg/consensus/raft_node.go:335-347 | what each crash point of AppendEntries leaves on disk and what is rebuilt from it: the new log, or the old tail behind the new snapshot |
| CrashRecovery.ProposeCrash | pkg/consensus/raft_node.go:824-851 | a crash during Propose leaves the old or the new log |
| CrashRecovery.InstallCrash | pkg/consensus/raft_node.go:410-421 | a crash during InstallSnapshot recovers the image followed by what the files still hold beyond it |
| CrashRecovery.StepCrash | pkg/consensus/raft_node.go:1481-1521 | at every write of every operation the files stay well formed and recover all that the log held before and holds after it; at the last write, exactly the log |
| CrashRecovery.EveryRunSynced | pkg/database/storage.go:102-157 | after any run the files recover exactly the log in memory |
| Restarts.RestartIsSound | pkg/consensus/raft_node.go:1369-1459 | whatever a crash leaves, the restarted node has snapshot, state machine and log in step, in step with the files, and nothing committed it has not applied |
| Restarts.SoundAfterAnyCrashes | pkg/consensus/raft_node.go:1369-1459 | after any number of lives, each cut short between any two writes, and any further run, the node is sound and its files recover exactly its log |
| Restarts.NothingKeptIsLost | pkg/database/storage.go:102-156 | no acknowledged entry is lost: what the log held before an operation and holds after it, a node that crashes in between has applied after the restart, whatever crashes went before |
| Restarts.NothingAppliedIsLost | pkg/consensus/raft_node.go:1369-1459 | in particular all it had applied, unless the crash fell into InstallSnapshot |
| CrashRecovery.CutEntriesRevived | pkg/consensus/raft_node.go:1481-1521 | a crash between the snapshot and the log write of a rewritten log revives the entries that had been cut |
| DurableVotes.NoVoteForAnotherOnFile | pkg/consensus/raft_node.go:253-283 | after any crashes, at any write, the files of a node with a name hold no vote or its own, never one given to another |
| DurableVotes.RestartedVotesIff | pkg/consensus/raft_node.go:1408-1418 | a restarted node votes for a candidate with an up-to-date log exactly when its metadata name no later term and no other vote of that term |
| DurableVotes.VoteForgottenIff | pkg/consensus/raft_node.go:268-283 | a node that crashes after voting gives the same term's vote to another up-to-date candidate exactly when its files do not hold its own candidacy of that term |
| DurableVotes.FilesTellLastWrite | pkg/consensus/raft_node.go:1540-1570 | after any run the metadata on file are the indices, term and vote the node had after its last operation that wrote, or the files are as they were |
| DurableVotes.RestartedWhereLastWritten | pkg/consensus/raft_node.go:1369-1418 | so a restarted node is in the term, and with the vote, of that operation |
| Membership.RunsKeepConfig | pkg/consensus/raft_node.go:1175-1261 | in every run, also one whose appends cut applied entries, a transition's peers are its new configuration, which differs from the old by exactly one peer |
| Membership.ChangeBeginsIff | pkg/consensus/raft_node.go:1175-1217 | a change is taken up exactly outside a transition, if it adds a new named peer with an address or removes a present one, and has no effect otherwise |
| Membership.ChangeTakesHold | pkg/consensus/raft_node.go:1175-1217 | from then on, whatever else is applied, peers are the new configuration, the transition holds both, and a leader tracks old peers as before, the new one from the end of its log, and the removed one no more |
| Membership.WholeChange | pkg/consensus/raft_node.go:1175-1228 | a change, anything but COMMIT_CONFIG in between, and COMMIT_CONFIG leave exactly the configuration asked for, with no transition, and a leader that tracks it |
| Membership.CommitKeepsPeers | pkg/consensus/raft_node.go:1219-1226 | COMMIT_CONFIG never changes who the peers are |
| Membership.CommitForgetsOthers | pkg/consensus/raft_node.go:1219-1226 | after it nobody outside the configuration is tracked, whatever late replies had put there |
| Membership.AddingQuorumIff | pkg/consensus/raft_node.go:757-813 | while a peer is added, an index is committed by most of the old configuration alone as long as the new peer has acknowledged nothing, and by most of both from then on |
| Membership.RemovingQuorumIff | pkg/consensus/raft_node.go:757-813 | while one is removed, by most of both |
| Membership.JointQuorum | pkg/consensus/raft_node.go:757-813 | a commit quorum of a transition contains a strict majority of the old configuration, pending peers or not |
| Membership.CommitQuorumsMeetIff | pkg/consensus/raft_node.go:757-813 | commit quorums anywhere before, during and after a change of one peer always share a peer exactly when neither configuration is empty |
| Membership.EmptyConfigurationCommitsAlone | pkg/consensus/raft_node.go:765-772 | an emptied configuration commits with no acknowledgement at all |
| Membership.JointElectionsMeetIff | pkg/consensus/raft_node.go:499-545 | elections counted against the old majority, the candidate's own vote and those of the new peers included, always share a voter exactly when stated: adding to an even number of peers, or removing, even if the removed one stands |
| Membership.ElectionCountsOldMajority | pkg/consensus/raft_node.go:815-822 | during a transition an election is won by the old configuration's majority of votes |
| Cluster.AppendEffect | pkg/consensus/raft_node.go:286-349 | what AppendEntries may do to a node: follow or ignore, keep or cut its log, keep or advance its snapshot |
| ElectionRestriction.UpToDateIff | pkg/consensus/raft_node.go:1311-1319 | for logs made of leaders' entries, terms not decreasing along the candidate's, the comparison of last term and index passes exactly if the candidate's log ends in a later term or contains the whole of the voter's |
| ElectionRestriction.ShorterIsRefused | pkg/consensus/raft_node.go:1311-1319 | a proper part of the voter's own log is always refused |
| ElectionRestriction.LongerIsAccepted | pkg/consensus/raft_node.go:1311-1319 | a log that contains the voter's is never refused for its length or last term |
| ElectionRestriction.VotersCompareLogs | pkg/consensus/raft_node.go:253-283 | in every run with one leader per term and fitting snapshots terms never decrease along a log, every vote request delivered describes its candidate's log at the time, and a granted vote means that log ends in a later term or contains the voter's (section 5.4.1 of the Raft paper) |
| ElectionRestriction.MatchingIsNotEnough | pkg/consensus/raft_node.go:1311-1319 | two ordered logs that match and end in the same term can both lack the other's entries, so the comparison needs more than matching |
| ElectionRestriction.VoteGivenOnce | pkg/consensus/raft_node.go:253-283 | a request that is repeated is granted again and changes nothing, no other candidate of the term gets the vote, and in a later term the log alone decides |
| ElectionSafety.StepKeeps | pkg/consensus/raft_node.go:253-283 | every event keeps the cluster invariant: votes remembered until their node follows, leaders elected by majorities, whoever voted twice has followed |
| ElectionSafety.RunKeepsInv | pkg/consensus/raft_node.go:485-570 | the invariant holds after every run with fixed peers, messages lost, repeated and reordered at will |
| ElectionSafety.RunStaysWorkable | pkg/consensus/raft_node.go:581-592 | in every such run the bookkeeping bounds that events rely on hold, so no event is ruled out for want of them |
| ElectionSafety.SecondLeaderNeedsRevote | pkg/consensus/raft_node.go:302-307 | two nodes promoted in one term were both voted for by a node that had followed a leader of that term |
| ElectionSafety.OneVotePerTermIff | pkg/consensus/raft_node.go:268-283 | every node votes at most once in a term exactly in the runs in which none that has followed gives a second candidate its vote |
| ElectionSafety.ElectionSafetyHolds | pkg/consensus/raft_node.go:561-570 | in those runs at most one node is promoted per term |
| ClusterFailures.AlwaysSafeIff | pkg/consensus/raft_node.go:253-307 | with no hypothesis on votes, all runs of a fresh cluster are safe exactly when it has at most two nodes |
| ElectionSafety.OneActingLeader | pkg/consensus/raft_node.go:561-570 | so no two nodes act as leaders of one term |
| LogMatching.MergedIsLeaderPrefix | pkg/consensus/raft_node.go:311-339 | accepting a leader's message makes the follower's log, up to the message's end, that leader's log |
| LogMatching.LogMatchingHolds | pkg/consensus/raft_node.go:311-339 | in every run with one leader per term and fitting snapshots, compaction included, logs with an entry of equal index and term are equal up to it |
| LogMatching.DisciplinedLogsMatch | pkg/consensus/raft_node.go:311-339 | so in every run in which no node that has followed gives a second candidate its vote |
| HonestSnapshots.HarmlessLogsMatch | pkg/consensus/raft_node.go:352-421 | in every run with one leader per term whose appends cut nothing applied, snapshots stand for their senders' logs, so that the check of section 7 on the tails kept is all that log matching needs of them; state machines stay in step |
| LogMatching.InstallKeepsMatchingIff | pkg/consensus/raft_node.go:394-408 | installing a snapshot keeps that property, with the leaders' logs and with another node's copy of the log it replaces, exactly when the kept tail's predecessor has the snapshot's last term, the check the code leaves out |
| ClusterWitness.ALeaderCanBeElected | pkg/consensus/raft_node.go:485-579 | the hypotheses can be met: in a fresh cluster of any size a disciplined run elects any node |
| ClusterFailures.TwoLeadersInOneTerm | pkg/consensus/raft_node.go:302-307 | in every fresh cluster of three nodes or more cleared votes can be given again and any two nodes lead one term |
| ClusterFailures.LogsDiverge | pkg/consensus/raft_node.go:824-851 | and then log matching fails: the two leaders take a command each at the same index |
| CatchUp.CatchesUp | pkg/consensus/raft_node.go:638-738 | past both snapshots a leader with a steady log needs at most nextIndex rounds, its own snapshot delivered where it has nothing earlier to offer, to make its log a prefix of the follower's and know it, and the follower has then applied all the leader has committed |
| CatchUp.HeartbeatInforms | pkg/consensus/raft_node.go:638-738 | a follower that has caught up has applied, one heartbeat later, all that the leader has committed |
| CatchUp.StaysBehind | pkg/consensus/raft_node.go:638-738 | once nextIndex is at or below the later of the two snapshots no number of rounds helps |
| CatchUp.CatchesUpIff | pkg/consensus/raft_node.go:638-738 | some number of rounds catches the follower up exactly when nextIndex lies past the leader's snapshot and the follower's |
| DominoSession.GameSession.PlayTile | pkg/models/game_methods.go:284-345 | a play is refused without effect or removes the first held tile with the submitted id, puts the submitted one down, and clears the pass flag |
| DominoSession.GameSession.PlaceOnBoard | pkg/models/game_methods.go:318-339 | the first tile sets both ends; a later one is turned to face the chain |
| DominoSession.GameSession.DrawFromBoneyard | pkg/models/game_methods.go:363-387 | the top tile goes to the player's hand; without a hand it is gone |
| DominoSession.GameSession.PassTurn | pkg/models/game_methods.go:390-409 | the pass is noted and the next player is up |
| DominoSession.GameSession.RotateTurn | pkg/models/game_methods.go:412-434 | the player after the first occurrence of the current one, or the first player |
| DominoSession.GameSession.ProcessGameTurn | pkg/models/game_methods.go:82-141 | the whole turn: refusal, action, start of the match, evaluation, lock, rotation |
| DominoSession.GameSession.ResetForSetup | pkg/models/game_methods.go:205-217 | tiles, pass flags, board and ends cleared; abandonment kept |
| DominoSession.GameSession.ShuffleBoneyardDeterministic | pkg/models/game_methods.go:194-202 | the in-place exchange loop is the shuffle by those choices |
| DominoSession.GameSession.DealHands | pkg/models/game_methods.go:348-360 | hand i receives the i-th block of tiles, or nothing changes |
| DominoSession.GameSession.StartMatch | pkg/engine/replicated.go:49-74 | seating, reset, deck, shuffle and deal of a committed START_MATCH |
| DominoSession.GameSession.HandlePlayerAbandoned | pkg/engine/abandonment.go:13-39 | the hand is marked, the turn passed on if it was theirs, the match evaluated unless locked |
| DominoSession.StandardDoubleSixDeck | pkg/models/game_methods.go:70-78 | the nested loops build the deck |
| DominoSession.EvaluateMatch | pkg/models/evaluation.go:4-39 | the loops decide and name what the evaluation rule does |
| DominoSession.ComputeHandScores | pkg/models/evaluation.go:41-51 | the loops sum the pips of every hand |
| DominoSession.AllActivePlayersPassed | pkg/models/evaluation.go:63-76 | true exactly when someone is in play and everyone in play has passed |
| DominoSession.LowestPips | pkg/models/evaluation.go:78-93 | the running minimum is the rule's |
| DominoTiles.DeckIsDoubleSix | pkg/models/game_methods.go:70-78 | 28 tiles, each pair of pips from 0 to 6 exactly once, all ids different |
| DominoTiles.ShuffleIsPermutation | pkg/models/game_methods.go:194-202 | for every in-range choice the shuffle only rearranges |
| DominoTiles.ShuffleReachesAll | pkg/models/game_methods.go:194-202 | every arrangement is the outcome of some choices |
| DominoTiles.DealLosesOnlyHeld | pkg/models/game_methods.go:348-360 | a deal succeeds exactly with enough tiles, and loses only what hands held before |
| DominoTiles.TurnConservesIff | pkg/models/game_methods.go:284-387 | a turn keeps the count of every tile id unless it draws for a player without a hand, and keeps the pips too exactly when the submitted pips are those of the tile given up |
| DominoTiles.AbandonmentConserves | pkg/engine/abandonment.go:13-34 | abandonment moves no tile |
| DominoTiles.SetupDealsTheDeck | pkg/engine/replicated.go:59-71 | setup leaves exactly the double-six set on the table, failed deal or not |
| DominoRematch.SetupForgets | pkg/engine/replicated.go:59-71 | what a setup makes of a session depends only on its id, its seats, who has left and who is up, on nothing played before |
| DominoRematch.NewSessionInOrder | pkg/models/game_methods.go:144-164 | a new session waits for its first turn, its empty table in order, a hand for each player, and any tile playable |
| DominoRematch.Rematch | pkg/engine/replicated.go:30-75 | however a match went and whoever is named for the next, setting its session up again deals what a new session of the same players would be dealt; whoever left stays away and whoever was up begins |
| DominoRuns.TilesAreConserved | pkg/models/game_methods.go:82-136 | from any setup, after any turns and abandonments, the tiles on the table are the double-six set; after a failed deal, if no draw is made in nobody's name |
| DominoRuns.NeverLosesATileIff | pkg/models/game_methods.go:363-386 | with such draws let through, tiles are conserved in every run exactly when the deal succeeds or nobody is a player |
| DominoRuns.CarriedOutIff | pkg/models/game_methods.go:82-116 | a turn is carried out exactly when the match is open, the player is up and holds what the action needs, and a play extends the real chain |
| DominoTurns.WhoIsUpNext | pkg/models/game_methods.go:98-136 | after a draw that is carried out and does not end the match the same player is up, after a play or a pass the one listed next, wrapping round |
| DominoTurns.FirstActionActivates | pkg/models/game_methods.go:120-134 | the first action carried out makes a waiting match active; no other that does not end it changes status or lock |
| DominoTurns.WhoIsUpAfterLeaving | pkg/engine/abandonment.go:13-34 | whoever leaves during its own turn hands it on; nobody else's leaving moves it |
| DominoTurns.DrawerPlaysOn | pkg/models/game_methods.go:98-136 | right after a draw the player may pass, and may play the tile drawn exactly where it extends the chain |
| DominoTurns.DrawnInShuffledOrder | pkg/models/game_methods.go:363-387 | from any setup on the boneyard is drawn from the top, in the order of the shuffle |
| DominoTurns.PassFlagsTellLastTurn | pkg/models/game_methods.go:284-409 | from a successful deal to different players on, a pass flag is up exactly if that player's last turn carried out was a pass |
| DominoTurns.ClosedOnceDecided | pkg/models/game_methods.go:82-141 | in every run a match is decided at most once, and is locked and completed exactly when it has been |
| DominoTurns.ClosedExactlyWhenOver | pkg/models/game_methods.go:98-136 | from a successful deal to two or more players on, a match is open exactly as long as it is not over: the turn or departure that ends it closes it |
| DominoRuns.OverIsOver | pkg/models/game_methods.go:83-85 | once locked, no tile moves again |
| DominoRuns.BoardStaysInOrder | pkg/models/game_methods.go:318-339 | from any setup, over any run without negative pips, the board is a chain and the cache its ends |
| DominoRuns.MatchOutcomeIsRight | pkg/models/evaluation.go:4-93 | whenever a match of distinct, named players is over, the winner is in play with the fewest pips and the scores are exact |
| DominoScores.PipsAddUp | pkg/models/evaluation.go:41-51 | in every run of honest plays the pips in the hands, the boneyard and the board make 168 |
| DominoScores.ScoresAccountForThePips | pkg/models/evaluation.go:41-51 | whenever such a match is over the scores of its players add up to 168 less what was played and what was left in the boneyard |
| DominoBoard.CanPlayIff | pkg/models/game_methods.go:270-280 | the cached values decide exactly whether some way round the tile extends the chain at that end |
| DominoBoard.PutDownKeepsIff | pkg/models/game_methods.go:318-339 | a playable tile extends the chain and its cache, which stays sound exactly for non-negative pips |
| DominoBoard.ClosedEndsBreakTheChain | pkg/models/game_methods.go:272-274 | a tile showing -1 twice makes the ends look closed, and the chain can be broken |
| DominoOutcome.EndsIff | pkg/models/evaluation.go:4-39 | a match is over exactly when a hand in play is empty, one player is left, or the boneyard is empty and all have passed |
| DominoOutcome.ReasonIff | pkg/models/evaluation.go:4-39 | an empty hand in play comes before a forfeit, and a forfeit before a block |
| DominoOutcome.ScoresAreExact | pkg/models/evaluation.go:41-51 | for distinct players the scores are the pip sums, one per player |
| DominoOutcome.LowestPipPlayerIff | pkg/models/evaluation.go:78-93 | the first lightest hand is named exactly when it is not that of a nameless player with someone in play after it |
| DominoOutcome.NamelessWinnerOverlooked | pkg/models/evaluation.go:78-93 | the lightest hand of a nameless player loses to the other |
| DominoOutcome.OutcomeIsRight | pkg/models/evaluation.go:4-93 | winner, scores and match id of every outcome, the first lightest hand on a block |
| DominoTermination.TurnLowersRank | pkg/models/game_methods.go:98-133 | carrying out a turn with an empty boneyard lowers tiles in hand, or the distance to the last waiting player |
| DominoTermination.MatchEndsInTime | pkg/models/game_methods.go:82-136 | with an empty boneyard, n distinct players and T tiles in hand a match ends within n * (T + 1) turns, abandonments notwithstanding |
| DominoTermination.PassIsCarriedOut | pkg/models/game_methods.go:390-409 | the player who is up can always pass |
| DominoTermination.EndsInTimeIff | pkg/models/game_methods.go:412-434 | a match under way whose repeated hands have yet to pass ends within n * (T + 1) turns exactly when the boneyard is empty and no player is listed twice; otherwise passing goes on for any number of turns |
| DominoRuns.SetupEndsInTimeIff | pkg/engine/replicated.go:30-75 | for every shuffle of a setup of two or more players, the match is sure to end, within n * 29 turns, exactly when the deal leaves no tile to draw and the players are all different |
| RateLimit.TokenBucketLimiter.Allow | pkg/telemetry/ratelimit.go:41-73 | refill, cap, decide and take, per client |
| RateLimit.TokenBucketLimiter.Sweep | pkg/telemetry/ratelimit.go:100-108 | deleting in any order removes exactly the stale buckets |
| RateLimit.TransparentIff | pkg/telemetry/ratelimit.go:41-108 | no run can tell the evicting limiter from one that never evicts exactly when a bucket holds at least one token and fills up within the time to live |
| RateLimit.WindowBoundIff | pkg/telemetry/ratelimit.go:41-108 | in any window of any run a client's allowed requests number at most the burst plus rate times elapsed time, exactly when a bucket holds at least one token and fills up within the time to live |
| RateLimit.RefusedIff | pkg/telemetry/ratelimit.go:41-73 | when a bucket holds at least one token and fills up within the time to live, a request is refused exactly when some stretch of time up to now has no room for it under that bound: nothing is refused without need, and a refused request costs nothing |
| RateLimit.RememberedIff | pkg/telemetry/ratelimit.go:100-108 | for any limits a sweep leaves exactly the clients that asked within the time to live, allowed or not |
| SessionCache.Itoa | pkg/gateway/session_cache.go:79-91 | the loop stays within the 20-byte buffer and leaves the decimal digits of any 64-bit number |
| SessionCache.DigitsParseBack | pkg/gateway/session_cache.go:79-91 | the digits read back as the number |
| SessionCache.KeyIsInjective | pkg/gateway/session_cache.go:30-32 | different pairs have different keys, colons in client ids notwithstanding |
| SessionCache.SessionCache.Put | pkg/gateway/session_cache.go:49-67 | stores, and evicts the oldest insertion when over capacity |
| SessionCache.SessionCache.Get | pkg/gateway/session_cache.go:35-46 | finds the entry of the pair's key |
| SessionCache.CacheHoldsLatestInsertions | pkg/gateway/session_cache.go:49-67 | in every run the order is duplicate-free, at most capacity long, names exactly the keys held, and is the list of the latest insertions; every key holds its latest response |
| SessionCache.FoundIff | pkg/gateway/session_cache.go:35-67 | a pair is found, with its latest response, exactly when fewer than capacity other keys were inserted since its own insertion |
| SessionCache.RefreshedEntryIsEvicted | pkg/gateway/session_cache.go:58-66 | putting a pair again does not keep it longer |
| Hub.Hub.RegisterClient | pkg/ws/hub.go:199-231 | replaces and closes an existing socket, clears a grace period, flushes what waits |
| Hub.Hub.UnregisterClient | pkg/ws/hub.go:233-264 | a stale client is ignored; the live one goes, is closed, and a grace period starts |
| Hub.Hub.CancelReconnectTimer | pkg/ws/hub.go:321-332 | a running timer is stopped; one that has fired leaves its event behind |
| Hub.Hub.ScheduleReconnectTimer | pkg/ws/hub.go:334-337 | the player's timer is stopped and a new one started |
| Hub.Hub.TimerFires | pkg/ws/hub.go:338-344 | the event that names the player is queued, or dropped when the queue is full |
| Hub.Hub.HandleAbandonment | pkg/ws/hub.go:274-295 | only a disconnected player is given up and reported |
| Hub.Hub.DeliverOrBufferStats | pkg/ws/hub.go:573-593 | sent at once if there is a live socket with room, kept otherwise |
| Hub.Hub.HandleStatsBroadcast | pkg/ws/hub.go:535-571 | each update in turn |
| Hub.Hub.FlushPendingStats | pkg/ws/hub.go:595-627 | the loop sends until the channel is full, and empties the buffer only if all went out |
| HubRules.HubStaysOrderly | pkg/ws/hub.go:199-345 | for every order of events a player is live exactly when connected, has a timer exactly when disconnected, live channels are open, and none is closed twice |
| HubRules.NeverReportedWhileConnected | pkg/ws/hub.go:274-284 | an abandonment event changes nothing for a connected player |
| HubRules.ReturnStopsTimer | pkg/ws/hub.go:321-332 | in every run, whoever returns stops its timer for good: its event never comes, unless it had fired already |
| HubRules.EventComesOnce | pkg/ws/hub.go:274-345 | an event handled or dropped is gone, and its timer never fires again |
| HubRules.GraceEndsByOwnTimerIff | pkg/ws/hub.go:233-345 | in every run, the grace period that begins when a live socket goes can be ended by no timer but its own exactly when no earlier timer of the player is running or has an event due |
| HubRules.LeftoverEventEndsGrace | pkg/ws/hub.go:321-345 | a run in which it is ended by another: a timer fires just before its player reconnects, and its event ends the next grace period |
| HubRules.RegisterConservesIff | pkg/ws/hub.go:595-627 | registering never loses an update and repeats some exactly when the flush stops half-way |
| HubRules.UpdatesAreConservedIff | pkg/ws/hub.go:573-627 | in every run no update is lost, and each is handed over or kept exactly once exactly when no flush stops half-way |
| HubRules.UpdatesComeInOrder | pkg/ws/hub.go:535-627 | while every channel has room for what comes and waits, a player's updates come in the order they were sent, at once while connected and on returning otherwise |
| HubRules.NeverMoreThanRoom | pkg/ws/hub.go:573-627 | in no run is more handed to a player's channels than they have room for |
| Elo.ExpectedScore | pkg/rating/elo.go:86-101 | the map loop averages the pairwise expectations, in any order; one half for a player alone |
| Elo.ComputeMatch | pkg/rating/elo.go:40-84 | one result per named player, the last of a name counting, with the prescribed change; nothing without winner or players |
| Elo.ExpectationsAddUp | pkg/rating/elo.go:86-101 | the expectations of a field add up to half its size |
| Elo.DriftIsExact | pkg/rating/elo.go:61-81 | with equal factors the changes add up to K * (1 - n / 2), nothing for two players |
| Elo.ResultsDriftExactly | pkg/rating/elo.go:61-84 | the results returned add up to the same |
| Elo.ChangesAreBounded | pkg/rating/elo.go:68-71 | a winner gains between 0 and K, a loser loses between 0 and K, for every factor |
| Elo.OddsArePower | pkg/rating/elo.go:86-101 | the chances of two sides are as one to the power of their difference in units of 400, ten to one for one unit |
| Elo.FavouriteExpectsHalf | pkg/rating/elo.go:86-101 | the higher rated of two players expects at least one half, for every power that grows |
| Elo.HigherRatedExpectsMore | pkg/rating/elo.go:61-101 | in a field of any size the higher rated player expects at least as much, and with equal factors gains no more by winning |
| Elo.FactorHalvesOnce | pkg/rating/elo.go:103-108 | the factor halves from 32 to 16 at the thirtieth match and nowhere else |
| Elo.ResultsFollowTheList | pkg/rating/elo.go:40-84 | each player's result starts from the rating last listed, or 1500, counts one match more and moves the rating up for the winner and down for everyone else by less than its factor |

## Left out

- Transport, RPC timeouts, tickers, goroutines and locks: messages are delivered, or not, in any order; every handler is one step.
- Write failures of the storage layer: a write happens or the node crashes before it; failed writes that leave the node running, and the directory handling around the atomic replace, are not modelled.
- JSON, gob and base64 encodings, including command payloads: a payload is the command it decodes to, or undecodable.
- The managed game state machine's own snapshot envelope (`pkg/consensus/fsm.go:407-467`) and its link to the game engine.
- Apply results, waiters and notifications (`pkg/consensus/raft_node.go:921-972`), leader redirects, and linearizable reads with their leadership probes as seen by the reader; the probes themselves are events of the cluster model.
- 64-bit wrap-around of indices and terms.
- Restarts within the cluster model: recovery is proved for a single node, and the configuration it is started with is the one it had first.
- Unconditional election safety, leader completeness and state machine safety, which the departures listed above make false, and elections during a membership change within the cluster model.
- Recovery of the configuration from a snapshot: snapshots carry the match map only.
- RaftNode.RaftNode.AppendEntries: states its result for messages that number their entries consecutively after PrevLogIndex, as every leader builds them; the code stores other numberings as they come.
- RaftNode.RaftNode.AcceptEntries: the same numbering as AppendEntries.
- RaftNode.RaftNode.InstallSnapshot: states its result for decodable data that is the replay of as many entries as it says, as every leader sends; other data replaces the match map by states no log accounts for.
- RaftNode.RaftNode.BootstrapFromStorage: states its result for well-formed files (consecutive log entries starting no later than the snapshot ends, meta file not ahead of the snapshot file), which every crash point leaves; the corrections for other files are dead branches here.
- LocalFsm.SnapshotRestoresReplay: the replay is shorter than 2^31 entries, so that no counter exceeds its 32-bit field; FsmCodec.RoundTripExactIff says what happens otherwise.
- ElectionSafety.ElectionSafetyHolds: sufficient for a single run: a vote given twice need not make a second leader; SecondLeaderNeedsRevote and ClusterFailures.AlwaysSafeIff say what a second leader takes.
- DurableVotes.NoVoteForAnotherOnFile: for nodes with a non-empty id; the empty id stands for no vote.
- Restarts.NothingAppliedIsLost: excludes a crash inside InstallSnapshot, whose image may be an older state than what was applied; Restarts.NothingKeptIsLost includes it.
- DominoRuns.TilesAreConserved: after a failed deal it leaves out draws in nobody's name, which pkg/ws/handler.go, pkg/consensus/commands.go and pkg/gateway/match_gateway.go refuse; NeverLosesATileIff says what they do.
- DominoSession.GameSession.DealHands: for sessions with no more hands than players, as every setup builds them; with more, the code may slice past the tiles that are left.
- DominoSession.GameSession.StartMatch: the same, for the session it finds.
- DominoSession.GameSession.HandlePlayerAbandoned: marks the hand and evaluates the match in one step, where the code releases the session in between.
- DominoTermination.MatchEndsInTime: evaluation directly follows each abandonment; a second abandonment slipping in between the two locked steps can leave nobody in play and the match open.
- Database identifiers, the raw JSON fields and ready flags of a session, and the cryptographic shuffle, which has the same shape as the seeded one.
- The seed of the shuffle (FNV and math/rand): every in-range choice is covered.
- State snapshots, session deltas and match-end frames of the hub, which only pass through to live sockets; inbound routing. Abandonment events may arrive in any order and any of them may find the queue full.
- Float rounding in the rate limiter, and negative refill rates or times to live.
- Nil receivers of the session cache, its locks, and rounding in Elo.
- Database repositories, HTTP handlers, gateways, workers, the dead-letter queue, the front end, logging and metrics, which mostly orchestrate calls.

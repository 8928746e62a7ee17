# Verified model of the event log engine

A Dafny model of the two cores of the engine, and proofs about every run of them.

**The Raft cluster.** A cluster of any number of servers is a step relation (`RaftCluster.Next`): a server times out,
answers a vote request, counts a vote, takes a proposal, sends a suffix of its log, answers an append, takes an answer
in, applies one entry, or crashes and restarts from what it last saved. Messages are never removed from the network, so
they arrive late, out of order, repeatedly or never; an answer carries the request it belongs to. What a server does in
each critical section is a function on its state (`RaftHandlers`), and the class `RaftNode.Raft` does the same in place,
with the loops of the source, proved equal to those functions. A history (votes, bids, acknowledgements, elections,
commits, deliveries) is recorded beside the cluster and never influences it (`RaftSafety.HistoryIsOnlyARecord`).

**The crash-safe segmented log.** A log file is a sequence of bytes of which a prefix is known to be on disk. Any number
of writers reserve records and commit them through the shared fsync; a crash leaves any longer prefix of the file, and of
the index, which is never fsynced, slots that hold what was written or zeros, and perhaps a torn tail
(`WalSystem.Next`). On top of it, the segment manager rolls, routes reads, detaches and closes old segments while reads
and commits are under way, and reopens what a crash leaves (`Segments.Next`). The classes of `WalFiles`, `WalWriter`,
`SegmentObjects` and `SegmentManager` do the same in place: a manager owns segments with disjoint files, each with its own
writer and reader, and each of its methods is proved to simulate one step of the model.

The files follow the program: `Raft*` for consensus, `Bytes`, `WalFormat`, `CheckpointIndex`, `WalRecovery`,
`WalReading`, `WalLog`, `Wal*` for one log file, `Segment*` for the manager, retention and the cursor. In each part the
invariant stands in its own file (`RaftInvariant`, `WalSystem`, `SegmentInvariant`), the proof that each kind of step
keeps it in `*Steps`, and what follows for whole runs in `RaftSafety`, `RaftLag`, `RaftBackup`, `RaftProgress`,
`RaftRequests` and `RaftOrigins`, in `WalSafety`, `WalProgress` and `WalWalks`, and in `SegmentReads`, `SegmentList`,
`SegmentGaps`, `SegmentDurability`, `SegmentRetention`, `SegmentSizes` and `SegmentCursor`. `WalIntegrity` is about files
of arbitrary bytes, and `SegmentExamples` holds the runs in which a promise fails.

Assumptions. Saving and loading a node's state succeed and are atomic, and a crash ends everything the node had under
way. Each server's peers are the other servers, without duplicates. A checksum is any function with results of one
fixed width; nothing is assumed about collisions. A file cannot grow past the largest 64-bit file position: there the
write fails. A segment rolls at a size of at least one byte, as the defaults ensure.

Where comments and code of the source disagree, the model follows the code. Each case has an input or a run on which the
promise fails, and the exact condition under which it holds:
- Every change of term is said to be persisted before a reply (`internal/raft/raft.go:186-188`), but the step-down in
  lines 447-450 is not. `RaftLag.LagExample` is a run in which a restart then falls back a term;
  `RaftLag.LagsExactlyWhenDeposed` says when. The safety results hold all the same.
- Reopening is said to verify checksums (`internal/segment/manager.go:113`), but recovery follows length fields only:
  `WalIntegrity.OpenReadsLengths`. `WalIntegrity.WrongChecksumOpens` gives files with wrong checksums that open, and whose
  reads report the corruption; `WalIntegrity.OpenFailsIff` says when opening fails.
- A checkpoint at or past the end of the file is said to be discarded (`internal/wal/wal_writer.go:291-295`). It is, unless
  adding the header size to its position overflows 64 bits, where opening fails: `WalProgress.CheckpointPastEnd` and
  `WalProgress.CheckpointAtLimit`.
- A read is said to walk over at most a checkpoint interval of records (`internal/wal/wal_reader.go:21-24`). In a log's first
  session it does (`WalSafety.ShortWalks`); after many short sessions it does not (`WalWalks.LongWalkExample`), and
  `WalWalks.WalksAreShortIff` says when it does.
- An end-of-log answer is said to mean at or beyond the head (`internal/segment/manager.go:270`). It is also the answer in a
  gap between two segments: `SegmentGaps.EofIff`. A crash leaves gaps by taking bytes of a sealed segment, which rolling
  does not fsync (`SegmentExamples.LostTailExample`), or by undoing the removal of an older segment but not that of a younger
  one (`SegmentExamples.LostRemovalExample`). `SegmentGaps.EofAfterCrash` gives the exact condition. A cursor in a gap
  waits there without being told: `SegmentCursor.CursorWaitsInGap`.
- Nothing after a segment within the retention window is said to be older (`internal/segment/manager.go:357-358`). A crash
  that tears a sealed segment dates it later than its successors, since the time is taken after the torn record is cut off
  (`internal/segment/segment.go:75-90`); a pass then keeps an expired segment: `SegmentExamples.TornTailShieldsExpired`.
  `SegmentRetention.PassIsExactIff` gives the exact condition.
- A segment under commit is said to be safe from retention (`internal/segment/manager.go:221-224`). It is so exactly while
  it is active or within the window: `SegmentRetention.CommitIsSparedIff`; `SegmentExamples.DetachedUnderCommit` is a run in
  which it is detached, and acknowledged afterwards.

## Model

| member | source | states |
|---|---|---|
| RaftSafety.NextKeepsInv | internal/raft/raft.go:222-486 | every step of every server, in any order, with crashes, keeps the invariant that ties each server's state and each message in flight to the history |
| RaftSafety.ElectionSafety | internal/raft/raft.go:332-395 | at most one server is ever leader in a term, over a whole run and all incarnations |
| RaftSafety.OneVotePerTerm | internal/raft/rpc.go:49-75 | two votes granted by one server in one term, with any restarts in between, went to the same candidate |
| RaftSafety.LogMatchingInRuns | internal/raft/rpc.go:99-133 | logs of any servers at any times that have the same term at an index are identical up to it; terms along a log never decrease |
| RaftSafety.LogMatchingInFlight | internal/raft/raft.go:412-436 | the same between any log and any append request ever sent |
| RaftSafety.LeaderCompleteness | internal/raft/raft.go:469-486 | when a leader's commit index rises, its log up to there is in the log of every leader of every later term, whenever it leads |
| RaftCompleteness.LaterLeaderStartsWith | internal/raft/rpc.go:152-158 | the induction behind it: a committed entry is in the log with which every later leader starts, by the up-to-date check |
| RaftCompleteness.CommitsAgree | internal/raft/raft.go:469-486 | any two commits agree on every index both cover |
| RaftSafety.StateMachineSafety | internal/raft/raft.go:303-330 | any two deliveries at one index, by any servers in any incarnations, deliver the same command, and none runs off the log |
| RaftSafety.IndexOrder | internal/raft/raft.go:316-321 | lastApplied <= commitIndex <= last index on every server in every reachable state |
| RaftSafety.CommittedStays | internal/raft/rpc.go:125-140 | a commit index never falls within an incarnation, and no step, a crash included, changes an entry at or below it |
| RaftSafety.FollowerTakesLeaderCommit | internal/raft/rpc.go:136-140 | the follower's minimum never binds: a successful append leaves the larger of the two commit indexes |
| RaftSafety.DurableState | internal/raft/raft.go:168-198 | what a restart would load has the log in memory, and the term and vote in memory or, for a follower without a vote, an older term |
| RaftLag.LagsExactlyWhenDeposed | internal/raft/raft.go:442-450 | that term is older if and only if the node, as a leader, was deposed by the answer to an append request of its term, and has neither saved its state nor crashed since |
| RaftLag.LagExample | internal/raft/raft.go:447-450 | a run of two servers in which a leader is deposed with the old term on disk, and a crash takes it back there |
| RaftSafety.VoteSurvivesRestart | internal/raft/rpc.go:71-73 | a vote ever granted is in the durable state, or the durable term is later |
| RaftSafety.AckSurvivesRestart | internal/raft/rpc.go:142-146 | an entry of the request's term ever acknowledged is in the durable log, or the durable term is later |
| RaftSafety.NoOutOfRangeSlice | internal/raft/raft.go:418-426 | a leader's next index for each peer lies in 1..last+1, so the slice it sends is always in range |
| RaftSafety.RejectionNamesIndex | internal/raft/rpc.go:102-121 | every rejection in the request's term has 1 <= conflict index <= previous index |
| RaftSafety.HistoryIsOnlyARecord | internal/raft/raft.go:222-486 | servers and messages evolve the same whatever the history holds |
| RaftBackup.RejectionsInside | internal/raft/rpc.go:109-121 | each rejection of a probe inside the follower's log uses up one of its terms |
| RaftBackup.FewRejections | internal/raft/raft.go:454-462 | at most one rejection because the log is too short, plus one per distinct term in it |
| RaftBackup.AcceptedRound | internal/raft/raft.go:442-463 | an accepted round leaves the follower with the leader's whole log as a prefix, its term and at least its commit index, and the leader knowing it |
| RaftBackup.RoundIsEvents | internal/raft/raft.go:412-463 | a round of probe and answer is three events of the cluster, which leave every other server alone |
| RaftBackup.FastBackup | internal/raft/raft.go:412-463 | from any reachable state, the run in which a leader and one follower exchange appends ends, after at most that many rounds, with the follower at the leader's log, term and commit index, and the leader's match and next index for it at the end of its log |
| RaftProgress.AppliedCounts | internal/raft/raft.go:303-330 | within an incarnation lastApplied moves by one at each delivery and at nothing else, stepping down included |
| RaftProgress.DeliveriesInOrder | internal/raft/raft.go:302-330 | the deliveries of one incarnation are at indexes 1, 2, 3 and so on, each once, whatever the node learns in between |
| RaftProgress.CommittedIsDelivered | internal/raft/raft.go:303-330 | from any reachable state a node can deliver, one by one, everything up to its commit index |
| RaftProgress.MajorityIffQuorum | internal/raft/raft.go:249-250 | the number counted to is reached by a set of servers if and only if the set is more than half of them |
| RaftProgress.ElectedAtQuorum | internal/raft/raft.go:358-374 | an event makes a node leader if and only if it is a granting answer of the node's current election, with which the voters, itself included, are a quorum |
| RaftProgress.VotersAreCounted | internal/raft/raft.go:345-371 | the voters of a candidate are itself and those whose granting answers it took in since it stood |
| RaftProgress.CommitsAtQuorum | internal/raft/raft.go:451-486 | after an accepting answer the leader's commit index is the highest index of its term that a quorum holds, if that is higher than before, and no higher index is on one |
| RaftRequests.VoteGrantedIff | internal/raft/rpc.go:49-75 | a vote is granted if and only if the request is not of an old term, the voter has voted for nobody else in that term, and the log the candidate stood with is as up to date as the voter's; term, role and vote after it |
| RaftRequests.AppendAcceptedIff | internal/raft/rpc.go:79-147 | a request is accepted if and only if it is not of an old term and the log has its previous entry; the log after it, left alone exactly if it had all entries and otherwise ending with them; term, role, vote and commit index after it |
| RaftRequests.VoteAnswerTakenIn | internal/raft/raft.go:358-370 | only a candidate of the term asked in takes an answer in; a higher term deposes it, a refusal changes nothing |
| RaftRequests.AppendAnswerTakenIn | internal/raft/raft.go:442-462 | only the leader of the request's term takes an answer in; a higher term deposes it, a rejection moves the next index of that peer to the one named and nothing else |
| RaftRequests.SendIsSnapshot | internal/raft/raft.go:412-436 | a leader sends its log from the peer's next index on, with the entry before it, its term and its commit index at that moment; nobody else sends |
| RaftRequests.FirstProbe | internal/raft/raft.go:387-393 | the first probe of a new leader is at its last index, without entries, for every peer |
| RaftOrigins.EveryEntryWasProposed | internal/raft/raft.go:222-233 | every entry of every log was proposed to the leader of its term, by an earlier event, at the same index |
| RaftOrigins.DeliveredWasProposed | internal/raft/raft.go:303-330 | every command delivered was proposed to a leader before, which took it in at the index of the delivery |
| RaftOrigins.ProposalIsKept | internal/raft/raft.go:219-221 | the index and term a client is given belong to its command for good: any log with an entry of that term there has the command |
| RaftOrigins.StartProposes | internal/raft/raft.go:222-233 | a command given to a leader is in its log past the old end, in memory and on disk; given to anyone else it changes nothing |
| RaftNode.MemoryStorage.Save | internal/raft/storage.go:40-47 | the saved state is the one given |
| RaftNode.MemoryStorage.Load | internal/raft/storage.go:49-58 | gives back what was last saved, or says that nothing was |
| RaftNode.Raft.constructor | internal/raft/raft.go:128-184 | a follower with whatever the storage holds: the restart of the cluster model |
| RaftNode.Raft.PersistLocked | internal/raft/raft.go:189-198 | makes term, vote and log durable and changes nothing else |
| RaftNode.Raft.BecomeFollowerLocked | internal/raft/raft.go:261-267 | steps down to a term in memory only |
| RaftNode.Raft.StartElection | internal/raft/raft.go:332-352 | a durable vote for itself in the next term and the request it sends |
| RaftNode.Raft.HandleVoteReply | internal/raft/raft.go:354-375 | counts one answer to an election, if still current, and wins with a majority |
| RaftNode.Raft.BecomeLeaderLocked | internal/raft/raft.go:381-395 | a candidate gets the next index past the log and no match for each peer; anyone else stays as it is |
| RaftNode.Raft.ForEachPeer | internal/raft/raft.go:387-393 | the loop gives every peer, and nobody else, the same index |
| RaftNode.Raft.RequestVote | internal/raft/rpc.go:49-75 | the vote granted, the state and what was persisted, as in the cluster model |
| RaftNode.Raft.Start | internal/raft/raft.go:222-233 | a leader's log grows by the command, durably, and its index is returned; others change nothing |
| RaftNode.Raft.AppendEntries | internal/raft/rpc.go:79-147 | all rejections, the merge, the commit index and what was persisted, as in the cluster model |
| RaftNode.Raft.ConflictStart | internal/raft/rpc.go:111-116 | the loop stops at the first index of the run of the conflicting term |
| RaftNode.Raft.Overwrite | internal/raft/rpc.go:125-133 | the loop cuts the log only at the first entry that is missing or conflicts |
| RaftNode.Raft.PrepareAppend | internal/raft/raft.go:412-436 | the whole suffix from the peer's next index on |
| RaftNode.Raft.HandleAppendReply | internal/raft/raft.go:442-463 | match and next index, or the back-up, or the step-down that is not persisted |
| RaftNode.Raft.AdvanceCommitLocked | internal/raft/raft.go:469-486 | the loop finds the highest index of the current term that a majority matches |
| RaftNode.Raft.ApplyOne | internal/raft/raft.go:316-329 | hands out the next committed entry and counts it |
| Bytes.U64RoundTrip | internal/inmemorystore/store.go:168-170 | big-endian 64-bit integers read back |
| Bytes.PutU64IsBigEndian | internal/inmemorystore/store.go:168-170 | the bytes written are the digits of the number to the base 256, the most significant first |
| WalFormat.RecordLayout | internal/wal/wal_writer.go:148-157 | the length of the payload, the most significant byte first, the checksum over length and payload, the payload |
| WalFormat.RecordReadsBack | internal/wal/wal_writer.go:148-157 | length, checksum and payload of every whole record in any surviving prefix read back as written |
| WalRecovery.ScanFindsWhole | internal/wal/wal_writer.go:302-338 | on any surviving prefix, from any boundary left in it, the scan finds exactly the whole records and never reports corruption |
| WalRecovery.TailScanIsFullScan | internal/wal/wal_writer.go:296-338 | scanning from any boundary gives the same head and size as from byte 0 |
| WalRecovery.WholeIsUnique | internal/wal/wal_writer.go:302-338 | the number of whole records in a prefix is determined |
| CheckpointIndex.EntryRoundTrip | internal/inmemorystore/store.go:168-170 | an index entry read back is the one written |
| CheckpointIndex.EntryLayout | internal/inmemorystore/store.go:168-170 | the offset first and the position second, eight bytes each, the most significant byte first |
| CheckpointIndex.LoadKeepsLongest | internal/inmemorystore/store.go:75-110 | on arbitrary bytes, a prefix of the whole slots strictly rises if and only if it is no longer than what loading keeps |
| CheckpointIndex.HealIsIdempotent | internal/inmemorystore/store.go:112-119 | loading the healed file keeps the same checkpoints and leaves the file alone |
| CheckpointIndex.HealedIsEncoding | internal/inmemorystore/store.go:112-119 | the healed file is exactly the encoding of the checkpoints kept |
| CheckpointIndex.LoadEncoded | internal/inmemorystore/store.go:75-121 | an index written in a healthy run loads back whole |
| CheckpointIndex.LoadAfterCrash | internal/inmemorystore/store.go:96-109 | with slots as written or zeros, every checkpoint kept was written, or is the first slot read as record 0 at byte 0 |
| CheckpointIndex.FloorIsGreatest | internal/inmemorystore/store.go:127-137 | the checkpoint with the greatest offset at or below the target, or none exists |
| WalReading.SparseReadIsLookup | internal/wal/wal_reader.go:60-103 | with any correct checkpoints, however few, a read by offset is a lookup in the list of records: the payload or the end, never corruption |
| WalReading.WalkIsShort | internal/wal/wal_reader.go:66-102 | with a checkpoint at every nth record a read walks over fewer than nth others |
| WalIntegrity.OpenReadsLengths | internal/wal/wal_writer.go:296-338 | two files of one size that agree on the length fields the scan reads open alike, whatever payloads and checksums they hold |
| WalIntegrity.OpenFailsIff | internal/wal/wal_writer.go:296-334 | on arbitrary bytes opening fails if and only if the trusted checkpoint lies outside the file or the scan comes to a length no writer produces |
| WalIntegrity.WrongChecksumOpens | internal/wal/wal_reader.go:82-97 | a record with any payload and any wrong checksum is opened, and reading it reports corruption |
| WalIntegrity.ReadDataIff | internal/wal/wal_reader.go:60-103 | on arbitrary file bytes and any index, a read gives payload p if and only if the length fields from the checkpoint on lead to a byte where the length of p, the checksum of that length and p, and p are |
| WalIntegrity.ReadCorruptionIff | internal/wal/wal_reader.go:76-98 | it reports corruption, and where, if and only if they lead to a length no writer produces, or to a target whose checksum is not its own |
| WalIntegrity.ReadEofIff | internal/wal/wal_reader.go:68-74 | it reports the end if and only if they lead to a byte behind which no header fits |
| WalIntegrity.DamageIsCaught | internal/wal/wal_reader.go:82-97 | payload and checksum of any one record of any log replaced: a read of it reports corruption where it starts, unless the checksum is right for the payload, and every other read is unchanged |
| WalIntegrity.ScanHeadIff | internal/wal/wal_writer.go:302-338 | on arbitrary bytes the scan finds n records in so many bytes if and only if n length fields lead there and no whole record follows |
| WalSteps.NextKeepsInv | internal/wal/wal_writer.go:140-339 | every step of any number of writers, with failing fsyncs, crashes and restarts, keeps the invariant of the log |
| WalSteps.OpenRecovers | internal/wal/wal_writer.go:280-339 | opening what a crash leaves succeeds with exactly the whole records, whatever is left of the index |
| WalSafety.OneSyncInFlight | internal/wal/wal_writer.go:200-211 | at most one fsync is in flight |
| WalSafety.NoLostWakeup | internal/wal/wal_writer.go:200-202 | a writer waits only while an fsync is in flight that will wake it |
| WalSafety.PendingIsUnsyncedRun | internal/wal/wal_writer.go:166-170 | the queue is exactly the ascending run of tickets after the synced one, with true offsets and positions |
| WalSafety.CommitMeansDurable | internal/wal/wal_writer.go:192-199 | Commit returns without error only if the record lies in the fsynced bytes |
| WalSafety.TwoSyncsSuffice | internal/wal/wal_writer.go:192-236 | once two fsyncs have completed since a call began, its record is synced or the error is set |
| WalSafety.RecoveryIsExact | internal/wal/wal_writer.go:280-339 | from any reachable state and any crash: the head is the number of whole records, the last checkpoint passes the guard, and the tail scan equals a full scan |
| WalSafety.WriteAhead | internal/wal/wal_writer.go:221-232 | checkpoints ascend, and every one names the true start of a record that lies whole in the fsynced bytes |
| WalSafety.AcknowledgedReadsBack | internal/wal/wal_writer.go:117-180 | a record whose Commit returned without error is read back at its offset at every later moment, after any crashes and restarts |
| WalSafety.ReadIsLookup | internal/wal/wal_reader.go:60-103 | in every reachable state a read by offset is a lookup in the list of records |
| WalSafety.ReserveHandsOutNext | internal/wal/wal_writer.go:164-170 | offset and ticket belong together: the next offset, and the ticket whose commit acknowledges it |
| WalSafety.ShortWalks | internal/inmemorystore/store.go:158-178 | in a log's first session a read of any synced record walks over fewer than nth others; for nth below 4, while the index file can still grow |
| WalProgress.ReserveRefusesIff | internal/wal/wal_writer.go:140-162 | a record is refused if and only if it is over the limit or takes the file past the largest position, and then nothing changes |
| WalProgress.TurnOutcome | internal/wal/wal_writer.go:192-209 | a turn of Commit ends with the error exactly if it is set, else without if the ticket is synced, else waits exactly if some call runs the fsync, else runs it for all that is in the file |
| WalProgress.FailureSticks | internal/wal/wal_writer.go:194-216 | after a failed fsync, until the log is reopened, nothing more is acknowledged, fsynced or checkpointed |
| WalProgress.RecoveryScansTail | internal/wal/wal_writer.go:296-300 | after any crash the scan starts at the last checkpoint that loads |
| WalProgress.CheckpointPastEnd | internal/wal/wal_writer.go:291-300 | on arbitrary bytes a last checkpoint behind which no header fits is ignored: the log opens as without an index |
| WalProgress.CheckpointAtLimit | internal/wal/wal_writer.go:298-300 | unless adding the header size overflows: then opening fails |
| WalProgress.CleanRestartKeepsAll | internal/wal/wal_writer.go:252-273 | a clean restart loses no record and no checkpoint; without a failed fsync all is durable and every waiting checkpoint is noted |
| WalProgress.CloseKeepsSpacing | internal/wal/wal_writer.go:261-271 | closing a log in its first session leaves a checkpoint at every nth record, the unsynced ones included |
| WalProgress.ShortWalksAfterClose | internal/wal/wal_writer.go:257-273 | so after closing and opening again a read of any record walks over fewer than nth others |
| WalWalks.WalksAreShortIff | internal/wal/wal_reader.go:60-102 | every read walks over fewer than nth others if and only if no two neighbours in the index are further apart |
| WalWalks.LongWalkExample | internal/inmemorystore/store.go:162-166 | for every number of records, a run of sessions of one record each after which a read walks over all of them |
| WalFiles.InMemoryStore.LoadCheckpoints | internal/inmemorystore/store.go:75-121 | memory and file after loading arbitrary index bytes |
| WalFiles.InMemoryStore.Floor | internal/inmemorystore/store.go:127-137 | the binary search returns the last checkpoint at or below the offset |
| WalFiles.InMemoryStore.Get | internal/inmemorystore/store.go:141-146 | the position noted last for the offset, or that there is none |
| WalFiles.InMemoryStore.AddCheckpoint | internal/inmemorystore/store.go:158-178 | every nth call adds the checkpoint, whatever it is, to memory and file, or fails and forgets it when the file is full; the others only count |
| WalWriter.WALWriter.Reserve | internal/wal/wal_writer.go:140-171 | the file, counters and queue after a reservation, or the refusal |
| WalWriter.WALWriter.TakeTurn | internal/wal/wal_writer.go:193-208 | one turn of the commit loop up to the fsync: return, wait or lead |
| WalWriter.WALWriter.FinishSync | internal/wal/wal_writer.go:210-233 | what becomes synced, checkpointed and drained after the fsync, or the sticky error |
| WalWriter.WALWriter.Drain | internal/wal/wal_writer.go:227-232 | the loop notes exactly the waiting checkpoints the fsync covers, ignoring those that cannot be written |
| WalWriter.WALWriter.CommitAlone | internal/wal/wal_writer.go:176-236 | the whole commit loop of a lone writer ends with its record synced or the error |
| WalWriter.WALWriter.Close | internal/wal/wal_writer.go:257-273 | everything synced and checkpointed, unless an fsync failed before; if the final fsync fails, an error and nothing changed |
| WalWriter.WALWriter.Recover | internal/wal/wal_writer.go:280-339 | opening of arbitrary file and index bytes, its failures included |
| WalWriter.WALWriter.ScanTail | internal/wal/wal_writer.go:302-338 | the loop computes the scan and cuts the file there |
| WalWriter.WALReader.Verify | internal/wal/wal_reader.go:83-97 | the payload if its checksum is the stored one, else the error |
| WalWriter.WALReader.ReadAt | internal/wal/wal_reader.go:60-103 | floor, walk and checksum on arbitrary bytes |
| WalWriter.WALReader.Read | internal/wal/wal_reader.go:107-115 | the record at the cursor, which moves on by one exactly when there is one |
| WalWriter.WALReader.Seek | internal/wal/wal_reader.go:118-120 | the cursor is where it was told to be |
| SegmentSteps.NextKeepsCore | internal/segment/manager.go:116-398 | every append, commit, read, detachment, closing and crash keeps segments ordered, apart and sound, and readers counted and served |
| SegmentReads.RouteIndexIsLast | internal/segment/manager.go:281-294 | routing takes the last segment whose base is at or below the offset |
| SegmentReads.ReadsAcrossCrashes | internal/segment/manager.go:249-274 | in every reachable state a read returns the record of the live segment that contains the offset; if none does, it is out of retention below the earliest offset and the end elsewhere |
| SegmentReads.SegmentsNeverOverlap | internal/segment/manager.go:147-158 | in every reachable state, crashes included, segments ascend and do not overlap |
| SegmentList.ReadsAreLookups | internal/segment/manager.go:249-274 | in every reachable state, crashes included, a read is a lookup: out of retention exactly below the earliest offset, else the payload accepted there and not lost since, else the end |
| SegmentList.ReadsLikeAList | internal/segment/manager.go:199-294 | in every reachable state with contiguous segments: every offset from the earliest to the head holds its payload, and a read finds the end exactly at or past the head |
| SegmentList.ContiguousStays | internal/segment/manager.go:233-241 | a fresh log is contiguous, and contiguous segments stay so through any appends, rolls, reads, commits and retention until a crash |
| SegmentList.OffsetsAreDense | internal/segment/manager.go:199-229 | in every reachable state an append is given the offset at the head, and everything on record lies below it |
| SegmentDurability.AcknowledgedStays | internal/segment/manager.go:199-229 | after any crashes an acknowledged record is read back at its global offset, unless retention detached its segment, and then never as another record; every offset assigned later is larger |
| SegmentDurability.NextKeepsPromise | internal/segment/manager.go:116-398 | the step behind it: an acknowledged record stays held, or its segment was detached and nothing takes its offsets |
| SegmentGaps.EofIff | internal/segment/manager.go:249-294 | in every reachable state a read finds the end if and only if the offset is at or past the head or in a gap between two segments |
| SegmentGaps.EofMeansHeadIff | internal/segment/manager.go:262-271 | the end-of-log answer means at or past the head if and only if the segments are contiguous |
| SegmentGaps.EofAfterCrash | internal/segment/manager.go:116-165 | after a crash it does if and only if the files left were contiguous and every one but the last kept all its bytes |
| SegmentExamples.LostTailExample | internal/segment/manager.go:233-241 | a run in which a crash tears the record of a sealed segment, and reading its offset finds the end of the log below the head |
| SegmentExamples.LostRemovalExample | internal/segment/manager.go:378-390 | a run in which a crash undoes one removal of two and loses no byte, with the same result |
| SegmentRetention.NoReadIsCutOff | internal/segment/manager.go:249-274 | every routed read finds its segment open, live or detached, and gets the record at its offset |
| SegmentRetention.RoutedReadIsLookup | internal/segment/segment.go:155-161 | that record is the one on record at the offset |
| SegmentRetention.DetachedNeverGains | internal/segment/manager.go:371-375 | a detached segment never gains a reader |
| SegmentRetention.ClosedWithoutReaders | internal/segment/manager.go:378-385 | a segment is closed only while nobody reads it |
| SegmentRetention.VictimsAre | internal/segment/manager.go:353-370 | a pass takes expired segments from the first on, never the active one, and stops only at the active, at an unexpired one or at the limit |
| SegmentRetention.DetachKeepsReads | internal/segment/manager.go:371-375 | from any reachable state a pass leaves the head and all reads from the new earliest offset on; below it reads are out of retention |
| SegmentRetention.PassSpares | internal/segment/manager.go:353-370 | from any reachable state, whatever limit and clock, a pass never takes the active segment or one whose last append is after the cutoff |
| SegmentRetention.PassIsExactIff | internal/segment/manager.go:353-370 | a pass without a limit takes exactly the expired segments but the active if and only if no unexpired one stands before an expired one |
| SegmentRetention.DetachedAreOld | internal/segment/manager.go:347-376 | in every run, crashes included, whose clock does not go back and whose crashes date no file before its records: all records of a detached segment are at or before the cutoff |
| SegmentRetention.RetentionIsExact | internal/segment/manager.go:347-376 | in every run, crashes included, whose clock does not go back and whose crashes leave modification times in order: a pass without a limit takes exactly the expired segments but the active |
| SegmentSizes.SegmentsStaySmall | internal/segment/manager.go:204-211 | in every reachable state, crashes included, every segment without its last record is below the size to roll, so none exceeds it by more than one record |
| SegmentSizes.SealedSegmentsAreFull | internal/segment/manager.go:204-211 | in every run without a crash every segment but the active one has reached that size |
| SegmentSizes.RollsExactlyWhenFull | internal/segment/manager.go:199-219 | an append begins a new segment if and only if the active one has reached that size, at the offset where it ends |
| SegmentSizes.LastAppendIsLastRecord | internal/segment/segment.go:131-140 | in every run without a crash the time retention goes by is that of the segment's last record |
| SegmentExamples.TornTailShieldsExpired | internal/segment/segment.go:75-90 | a run in which a torn record leaves them out of order, and a pass keeps an expired segment that is not active |
| SegmentRetention.CommitIsSparedIff | internal/segment/manager.go:221-228 | in such runs a pass without a limit keeps a segment with a commit under way if and only if it is active or its last append is after the cutoff |
| SegmentExamples.DetachedUnderCommit | internal/segment/manager.go:221-228 | for every retention period, a run in which a segment is detached under a commit that then returns without error |
| SegmentCursor.CursorHearsEverything | internal/segment/reader.go:35-43 | from any reachable state, while nothing crashes, a consumer calling Next at any moments hears exactly the records between where its cursor started and where it is |
| SegmentCursor.CursorKeepsUp | internal/segment/reader.go:35-43 | a consumer behind the head of a contiguous log and within retention hears a record, and moves on by one, at every call |
| SegmentCursor.CursorWaitsInGap | internal/segment/reader.go:35-43 | a cursor in a gap stays there and hears the end of the log until retention passes it, it seeks or the log is reopened |
| SegmentObjects.Segment.constructor | internal/segment/segment.go:66-100 | new files, a writer and a reader over them: an empty segment |
| SegmentObjects.Segment.Reopen | internal/segment/segment.go:66-100 | what recovery of arbitrary files gives, or that it failed; the last append is the file's time |
| SegmentObjects.Segment.Reserve | internal/segment/segment.go:131-140 | the writer's reservation, and the last append is now if it was accepted |
| SegmentObjects.Segment.TakeTurn | internal/segment/segment.go:143-143 | the writer's turn of the commit loop up to the fsync |
| SegmentObjects.Segment.FinishSync | internal/segment/segment.go:143-143 | the writer's state after the fsync |
| SegmentObjects.Segment.ReadAt | internal/segment/segment.go:155-161 | an error below the base, otherwise the reader's answer at the local offset |
| SegmentObjects.Segment.AcquireRead | internal/segment/segment.go:151-151 | one more reader, and nothing else |
| SegmentObjects.Segment.ReleaseRead | internal/segment/segment.go:153-153 | one reader fewer, and nothing else |
| SegmentObjects.Segment.Close | internal/segment/segment.go:169-180 | the writer closed, or its error |
| SegmentManager.Manager.constructor | internal/segment/manager.go:140-146 | a fresh directory: one empty segment at offset 0 |
| SegmentManager.OpenSegments | internal/segment/manager.go:147-158 | the loop opens every segment of a directory with arbitrary contents, with files disjoint, or fails if one cannot be recovered |
| SegmentManager.OpenAfterCrash | internal/segment/manager.go:116-165 | on the files a crash leaves it succeeds, and the manager holds exactly the state after the crash step |
| SegmentManager.Manager.Roll | internal/segment/manager.go:233-241 | an empty segment at the next global offset becomes active |
| SegmentManager.Manager.Append | internal/segment/manager.go:199-219 | rolls first if full, then reserves with the active segment's writer: the append step, and the global offset assigned |
| SegmentManager.Manager.Search | internal/segment/manager.go:283-285 | the binary search finds the last segment whose base is at or below the offset |
| SegmentManager.Manager.SegmentFor | internal/segment/manager.go:281-294 | the segment that owns the offset, if one does |
| SegmentManager.Manager.StartRead | internal/segment/manager.go:249-271 | routes and takes the reference in one step |
| SegmentManager.Manager.FinishRead | internal/segment/manager.go:272-273 | gives the reference to a live segment back |
| SegmentManager.Manager.FinishDetachedRead | internal/segment/manager.go:272-273 | gives the reference to a segment detached meanwhile back |
| SegmentManager.Manager.ReadAt | internal/segment/manager.go:249-274 | takes the reference, reads with the segment's reader and gives it back: the answer of an uninterrupted read, and the state as before |
| SegmentManager.Manager.TakeTurn | internal/segment/manager.go:225-225 | a commit on one segment up to the fsync: the step of the model, other segments untouched |
| SegmentManager.Manager.FinishSync | internal/segment/manager.go:225-225 | the same commit after its fsync |
| SegmentManager.Manager.NextOffset | internal/segment/manager.go:298-302 | the end of the active segment |
| SegmentManager.Manager.EarliestOffset | internal/segment/manager.go:306-310 | the base of the first segment |
| SegmentManager.Manager.CountExpired | internal/segment/manager.go:353-370 | the loop counts exactly the segments the pass chooses |
| SegmentManager.Manager.DetachExpired | internal/segment/manager.go:351-375 | the pass detaches exactly the chosen prefix: the detach step |
| SegmentManager.Manager.CloseDetached | internal/segment/manager.go:378-390 | the closing step, once the readers are gone, with the victim's writer closed |
| SegmentManager.Reader.constructor | internal/segment/reader.go:18-20 | a cursor at the earliest offset |
| SegmentManager.Reader.Next | internal/segment/reader.go:35-43 | the answer at the cursor, which moves on by one exactly when a record was read |
| SegmentManager.Reader.ResetToEarliest | internal/segment/reader.go:48-52 | the cursor and the result are the earliest offset |
| SegmentManager.Reader.Seek | internal/segment/reader.go:56-58 | the cursor is where it was told to be |

## Left out

- SegmentManager.Manager.Append: covers the part under the manager's lock; the commit that follows is `SegmentManager.Manager.TakeTurn` and `SegmentManager.Manager.FinishSync`.
- SegmentManager.Manager.ReadAt: states the answer when nothing comes between routing and reading; the interleaved read is `StartRead`, `SegmentRetention.NoReadIsCutOff` and `FinishRead`.
- SegmentManager.OpenSegments: takes the files in order of base offset; the directory listing, the parsing of file names and the library sort are not modelled, nor is closing the segments opened before a failure.
- SegmentManager.Manager.CloseDetached: waiting for readers is a precondition, removing the files is the closing step of the model, and commits still under way on a segment when it is closed are not modelled.
- WalWriter.WALWriter.CommitAlone: the commit loop when nobody else commits; waiting and being woken are steps of `WalSystem`, for any number of writers.
- RaftNode.Raft.BecomeLeaderLocked: does not send the first heartbeat; sending is a step of its own.
- TCP server, client, frame codec, consumer offsets, metrics, `cmd` and reports: transport and presentation.
- Timers, election deadlines, scheduling and liveness: a timeout is a step that may happen at any time.
- I/O failures other than a failed fsync or a write past the largest file: failed Save, Load, Truncate or Remove.
- `FileStorage` and its encoding and rename: saving is atomic replacement.
- Concrete checksum algorithms.
- `Manager.Close` and clean restarts of the manager; clean restarts of one log file are modelled.
- The `leaderID` hint, and wrap-around of 64-bit terms, indexes, tickets and global offsets; offsets and positions in the index file are wrapped as in the source.
- That a leader's match index for a peer only rises: it is overwritten, and no result depends on it.

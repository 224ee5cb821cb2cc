# StreamForge: a model of the broker and its guarantees

StreamForge is a single-node, Kafka-like broker. This project models, in Dafny, the four parts of it that carry its
guarantees, and proves those guarantees for all inputs, all interleavings and all crash points.

- **The partition log** (`Crc32`, `CrcPolynomial`, `RecordCodec`, `LogFile`, `OffsetIndex`, `Disk`, `SegmentModel`,
  `LogSegment`, `Layout`, `PartitionModel`, `AppendSafety`, `Recovery`, `Damage`, `Retention`, `PartitionRuns`,
  `Budget`, `Summaries`, `PartitionExample`, `Reading`, `PartitionStore`, `IndexDensity`, `FetchHandler`). A directory
  is a map from file names to bytes, and every operation is given both as a change of memory and as the list of file
  writes that it makes. A process crash keeps a prefix of those writes and possibly a torn last one. The main result is
  `PartitionRuns.CrashRefinement`: over every run of batches, rolls, retention passes, file removals, crashes (also
  crashes during recovery) and restarts, a partition that serves holds exactly the flat sequence of acknowledged
  records, from a segment boundary on that only retention passes have ever moved. The classes `LogSegment` and
  `PartitionLog` are proved equal to the value model, including the exact trace of writes, and `PartitionLog.Read` is
  proved to return the page of the flat log that it should.
- **The consumer groups** (`Text`, `Assignor`, `GroupModel`, `Coordinator`, `Ownership`, `GroupRuns`, `GroupLife`,
  `GroupExample`, `OffsetKeys`, `OffsetStore`, `Restarts`, `ConsumerModel`, `ConsumerRuns`, `ConsumerSafety`,
  `ConsumerExample`). Each coordinator operation is one atomic step under the group lock; the class `GroupCoordinator`
  is proved to take exactly these steps. Over all runs: fencing, exclusive and balanced ownership, membership and
  answers as the calls themselves say, departed members staying out, and committed offsets within the log. What a
  restart does to offsets is derived from the crash results of the partition log (`Restarts`). Together with any number
  of `consume-group` client loops: when committed offsets can go backwards, and what below them can have been skipped.
- **The request pipeline** (`Pipeline`, `PipelineRuns`, `PipelineLife`, `TcpServer`). One I/O thread and N workers share
  two queues. Over all interleavings, every connection gets its responses in request order, and goes exactly when it
  should.
- **The wire** (`Frames`, `Protocol`, `BodyIo`, `Messages`). Frames survive any chunking, and the parsers and printers
  of all messages undo each other exactly.

Six promises turn out not to hold as they stand. Each has a lemma that shows the failure and one that says exactly when it
occurs or when the promise does hold:

- Two members can own the same partition when a join names a topic twice, but only under the round-robin strategy and with at
  least two members (`Ownership.OneOwnerExactly`, `GroupRuns.UnfenceableCommits`, `GroupExample.TwoOwnersReached`).
- A committed offset can go backwards when a commit request outlives the client's patience: the client reconnects, rejoins
  under the same generation, commits further on, and then the old request is served (`ConsumerExample.LateCommitGoesBack`).
  It goes down exactly at an accepted commit that names a lower offset, and only on a partition where such a late request has
  landed in that epoch (`ConsumerSafety.LateLowersExactly`, `ConsumerSafety.CommitLowersExactly`); while no client gives up on
  a commit, it never does (`ConsumerSafety.PatientNeverBackwards`).
- A record below a committed offset can be in the log and yet never have been processed: retention drops segments from memory
  first and removes their files later, and a crash in between brings them back (`ConsumerExample.DroppedComesBack`,
  `ConsumerSafety.CameBackExactly`, `ConsumerSafety.AtLeastOnceOrDeleted`). Which crashes do is exact for each partition
  (`PartitionRuns.ComesBackExactly`, `PartitionExample.DroppedReturns`).
- A quick and a full start do not agree on all they know: a crash within the write of a marker makes every later quick start
  forget count, last offset and newest timestamp of that segment, so that age retention keeps it, and all that follow, however
  old they are (`Summaries.ModesAgreeExactly`, `Summaries.AgePassExactly`, `PartitionExample.OldSegmentStays`).
- Offsets committed for a group id that is empty or holds a pipe cannot be recovered, and recovery then fails as a whole
  (`OffsetKeys.KeyRoundTrip`, `OffsetStore.BatchReadable`). Standalone commits can use such ids
  (`OffsetStore.StandaloneSpoils`), members cannot (`Restarts.MemberLogReadable`).
- The record decoder reads past its buffer when the key length wraps a 32-bit bound, although the checksum is right
  (`RecordCodec.OverreadHappens`, `RecordCodec.OverreadExactlyOnWrap`), and so does a scan or a recovery that reaches such a
  record (`LogFile.OverrunsExactly`). Nothing that the broker wrote itself, torn or whole, is of that kind
  (`LogFile.TornTailStops`, `Recovery.RecoverStops`).

Where the design documents and the code disagree (a sticky assignor, a five-state group machine, other header and index
layouts), the model follows the code.

## Model

| member | source | states |
|---|---|---|
| Crc32.BuildTable | src/Crc32.cpp:5-22 | every table entry is the register of the bit-at-a-time CRC-32 (section 8 of RFC 1952) after eight shifts of its index |
| Crc32.Update | src/Crc32.cpp:24-32 | the table-driven loop equals feeding the bytes bit by bit |
| Crc32.Calculate | src/Crc32.cpp:34-37 | the result is the RFC 1952 checksum of the bytes |
| CrcPolynomial.ChecksumIsRemainder | src/Crc32.cpp:5-37 | the checksum is the remainder of the message polynomial, times x^32 and with ones added to its first 32 coefficients, by the CRC-32 generator 0x04C11DB7 in normal order; mirrored and complemented |
| Crc32.FeedConcat | src/LogSegment.cpp:148 | chained updates equal one update over the concatenation, so a running checksum is that of the whole log |
| Crc32.FeedInjective | src/Crc32.cpp:24-32 | different registers stay different whatever bytes follow |
| Crc32.BurstDetected | src/RecordCodec.cpp:88-95 | any change confined to four neighbouring bytes changes the checksum |
| RecordCodec.EncodeRecord | src/RecordCodec.cpp:49-72 | filling the buffer field by field gives the record's encoding |
| RecordCodec.DecodeRecord | src/RecordCodec.cpp:74-118 | the branching decoder computes the decoding function on every buffer |
| RecordCodec.DecodesExactlyEncodings | src/RecordCodec.cpp:49-118 | a buffer decodes to a record if and only if it begins with that record's encoding |
| RecordCodec.TornPrefixRejected | src/RecordCodec.cpp:74-86 | every proper prefix of an encoding is rejected by its length alone |
| RecordCodec.OverreadExactlyOnWrap | src/RecordCodec.cpp:97-105 | the decoder runs past the buffer if and only if all checks pass and 24 plus the key length wraps |
| RecordCodec.OverreadHappens | src/RecordCodec.cpp:97-105 | a concrete buffer on which that happens |
| RecordCodec.DamageDetected | src/RecordCodec.cpp:88-95 | any change within the checksum field, or within four neighbouring bytes of the body that the checksum covers, makes the decoder return Corrupt |
| LogFile.ScanKeepsPrefix | src/LogSegment.cpp:217-288 | for every file content, the records that successive decodes reach are encoded at the start of the file, and the decoder returns no record for the bytes after them |
| LogFile.ScanIsLongest | src/LogSegment.cpp:217-288 | no longer sequence of records is encoded at the start of the file |
| LogFile.ScanIdempotent | src/LogSegment.cpp:217-288 | scanning the kept prefix again gives the same records |
| LogFile.OverrunsExactly | src/LogSegment.cpp:217-288 | on the bytes after those records the decoder runs past its buffer if and only if they pass every header check and announce a key length of 2^32 - 24 or more; in all other files the scan stops there |
| LogFile.OverrunHappens | src/RecordCodec.cpp:97-105 | after any records there can be bytes on which a scan runs past its buffer |
| LogFile.TornTailStops | src/LogSegment.cpp:226-256 | no file of whole records and a torn tail makes a scan run past its buffer |
| LogFile.ScanDropsTornTail | src/LogSegment.cpp:226-256 | a torn record after whole ones is dropped and nothing else |
| OffsetIndex.FindPosition | src/OffsetIndex.cpp:11-29 | the binary search loop computes the lookup function |
| OffsetIndex.LookupStartsBefore | src/OffsetIndex.cpp:11-29 | over a sound index the lookup returns the start of a record at or before the target |
| OffsetIndex.LoadEntries | src/OffsetIndex.cpp:31-49 | loading reads every whole entry of the file |
| OffsetIndex.SaveEntries | src/OffsetIndex.cpp:59-69 | rewriting writes eight bytes an entry, in order |
| OffsetIndex.LoadCut | src/OffsetIndex.cpp:31-57 | an index file cut at byte n loads to exactly its first n / 8 entries |
| OffsetIndex.SoundAdd | src/LogSegment.cpp:158-166 | a new entry keeps the index strictly rising, starting at (0,0), and naming true record starts |
| IndexDensity.RebuiltDense | src/LogSegment.cpp:260-273 | neighbouring entries of a rebuilt index are at least the interval, and at most one record more, apart |
| IndexDensity.LifeDense | src/LogSegment.cpp:158-166 | over a segment's life, recovered or new and through any appends, they are at least the interval, and at most two records more, apart |
| SegmentModel.MarkerRoundTrip | src/LogSegment.cpp:70-108 | a sealed marker parses to what was written, and no proper prefix of it parses |
| SegmentModel.AppendTracks | src/LogSegment.cpp:114-173 | an append keeps size, checksum, count, last offset, newest timestamp and index describing exactly the records of the log |
| SegmentModel.RebuiltTracks | src/LogSegment.cpp:217-288 | a rebuild from any scanned records describes exactly those records |
| SegmentModel.LookupLands | src/LogSegment.cpp:199-205 | the lookup position is the start of the nearest indexed record at or before the target offset |
| SegmentModel.RecordAtStart | src/LogSegment.cpp:175-197 | reading at a record's position returns that record |
| SegmentModel.IntactPassesQuickCheck | src/LogSegment.cpp:290-335 | an intact sealed segment passes the quick check |
| Damage.RecordAtExactly | src/LogSegment.cpp:175-197 | a guarded read at any position of any file is the decoding of all the bytes from there on |
| Damage.QuickExactly | src/LogSegment.cpp:290-335 | on every segment state and file: the quick check passes if and only if the size is 0, or it is at least 28, no index entry points at or past it, and a record decodes at position 0 and at the last looked-up position; it runs past a buffer exactly if the decoder does at the first of these that is no record; else it fails |
| Damage.QuickFindsExactly | src/LogSegment.cpp:308-332 | after damage within four neighbouring body bytes, or the checksum, of one record of a serving segment, the quick check fails if and only if that record is the first one or the last one in the index, and else passes |
| Damage.FullFinds | src/LogSegment.cpp:337-414 | a full scan finds such damage in any record, and keeps the records before it |
| LogSegment.LogSegment.Open | src/LogSegment.cpp:27-63 | opening creates missing files, loads index and marker, and writes nothing else |
| LogSegment.LogSegment.Append | src/LogSegment.cpp:114-173 | refuses sealed segments and oversized records without a write; otherwise makes exactly the modelled writes, log before index, and reaches the modelled state |
| LogSegment.LogSegment.ReadRecordAt | src/LogSegment.cpp:175-197 | equals the value model on every position and file content, including the outcome that the decoder runs past its buffer |
| LogSegment.LogSegment.LookupFilePosition | src/LogSegment.cpp:199-205 | equals the value model |
| LogSegment.LogSegment.RecoverAndRebuildIndex | src/LogSegment.cpp:217-288 | reports a decoder past its buffer exactly on the log files that overrun; on all others the state and the writes of a rebuild from the scanned records, and the next offset |
| LogSegment.LogSegment.VerifyAndRebuildFull | src/LogSegment.cpp:337-414 | overruns on the same files as recovery; on all others it reaches the same state, and counts one corruption exactly when it truncates |
| LogSegment.LogSegment.VerifyQuick | src/LogSegment.cpp:290-335 | passes, fails or runs past a buffer as the quick check does, on every marker and file |
| LogSegment.LogSegment.WriteSealedMarker | src/LogSegment.cpp:70-90 | writes exactly the marker of the segment's size, count, last offset, timestamp and checksum |
| AppendSafety.ManyGood | src/Partition.cpp:203-261 | a batch, with all its rolls, leaves memory and disk in agreement on the old records followed by the new ones |
| AppendSafety.RollsExactly | src/Partition.cpp:166-201 | an append adds a segment if and only if the last one has records and its bytes and the new record exceed the limit |
| AppendSafety.ManyPacked | src/Partition.cpp:203-261 | the segments after a batch are the greedy packing of its records: each goes into the last segment unless that has records and would exceed the limit |
| AppendSafety.ManyCrash | src/Partition.cpp:131-157 | a crash at any write of a batch, torn anywhere, leaves the old records and a prefix of the batch |
| Recovery.RecoverGood | src/Partition.cpp:15-124 | from every disk a crash can leave, in either scan mode: the same records, all served, the next offset following on, nothing degraded, and every segment's count, last offset and newest timestamp right or, where its marker is cut, lost |
| Recovery.RecoverCrash | src/Partition.cpp:15-124 | a crash at any write of a recovery loses nothing |
| Recovery.RecoverStops | src/Partition.cpp:15-124 | from no disk that a crash can leave does a recovery, in either scan mode, run past a buffer |
| Damage.DegradedExactly | src/Partition.cpp:43-97 | for every directory: a start marks the partition degraded if and only if, in some segment but the last that has a marker, the full scan does not reach the end of the file, or the quick check does not pass |
| Damage.DamageDegrades | src/Partition.cpp:55-97 | one damaged record in a sealed segment makes a full start mark the partition degraded if and only if the segment has its marker, and a quick start if and only if moreover the record is the first or the last indexed one |
| Summaries.RecoverKnown | src/LogSegment.cpp:51-60 | after a start from every such disk, the count, last offset and newest timestamp of a segment are those of its records, except that a quick start has zeros exactly where a marker is cut; cut markers stay cut, so that every later quick start has zeros again |
| Summaries.ModesAgreeExactly | src/Partition.cpp:55-97 | quick and full start agree on count, last offset and newest timestamp of a sealed segment if and only if its marker is whole or absent |
| Summaries.CutMarkerLeft | src/LogSegment.cpp:70-90 | every crash within the write of a marker leaves a disk on which the two starts disagree |
| Retention.DropCountExact | src/Partition.cpp:361-432 | a pass spares the last segment, ends within the byte budget or at one segment, ends at the first segment not expired, and drops nothing that neither rule requires |
| Budget.TotalIsBytes | src/Partition.cpp:388-393 | under the invariant, the bytes counted from any segment on are those of its records and all later ones, and the sizes of their log files |
| Summaries.ExpiredExactly | src/Partition.cpp:376-386 | a segment counts as expired if and only if all its records are older than the limit, one of them has a positive timestamp, and its newest timestamp is not lost to a cut marker |
| Retention.DropGood | src/Partition.cpp:434-440 | dropping segments leaves the others and the next offset as they were |
| Retention.RemoveFirst | src/Partition.cpp:441-456 | removing the files of the first dropped segment keeps a recoverable disk |
| PartitionRuns.StepInv | src/Partition.cpp:15-261 | every single write, acknowledgement, retention pass, removal, crash and recovery step keeps the invariant; the acknowledged log only grows; and only a retention pass moves the bound on where the log may begin |
| PartitionRuns.ReadyInv | src/Partition.cpp:15-124 | a finished recovery holds the acknowledged log and a prefix of the append that was cut off, and its next offset is the log's length |
| PartitionRuns.CrashRefinement | src/Partition.cpp:15-261 | over every run: a serving partition serves every record ever acknowledged from its earliest offset on, in order, not degraded; that offset is at most the highest one up to which a retention pass has ever dropped segments (0 if there was none), so nothing else is ever lost; segments over the size limit hold one record |
| PartitionRuns.EarliestSteady | src/Partition.cpp:361-456 | between retention passes, through crashes, recoveries and file removals, the earliest offset never rises, and it stays the same if no dropped segment still had its files |
| PartitionRuns.ComesBackExactly | src/Partition.cpp:434-456 | after a crash and until the next retention pass a partition begins at the first log file that was dropped and not yet removed, so that its earliest offset falls if and only if there was one |
| PartitionRuns.NextGrows | src/Partition.cpp:15-261 | the next offset never falls, over any run |
| Summaries.AgeCountOld | src/Partition.cpp:376-386 | over every run, what the age rule takes holds no record younger than the limit |
| Summaries.AgePassExactly | src/Partition.cpp:361-440 | over every run, a pass by age drops only records older than the limit, and drops anything if and only if there are two segments, the first is wholly older than the limit, one of its records has a positive timestamp, and its newest timestamp is not lost |
| Budget.BudgetExactly | src/Partition.cpp:388-405 | over every run, a pass by size leaves the log within the budget or in one segment, drops only segments that have, with all later ones, more bytes than the budget, and drops anything if and only if there are two segments and the log has more bytes than the budget |
| PartitionExample.OldSegmentStays | src/LogSegment.cpp:51-60 | two concrete runs with the same crash, clock and limit: the old segment goes after a full start and stays after a quick one |
| PartitionExample.DroppedReturns | src/Partition.cpp:434-456 | a concrete run in which a segment that retention has dropped is served again after a crash |
| Reading.PageUnique | src/Partition.cpp:263-329 | the page that a read must return is determined by the log and the limits |
| Reading.PageGrows | src/Partition.cpp:263-329 | while the log grows a page only grows, and a full page never changes |
| PartitionStore.PartitionLog.Roll | src/Partition.cpp:131-157 | creates the next segment, then seals and marks the old one, with exactly the modelled writes |
| PartitionStore.PartitionLog.AppendWithTimestamp | src/Partition.cpp:166-201 | one record: refused without a trace exactly if it takes more than 1,048,576 bytes, or appended as modelled with the next offset, in the segment that the packing says |
| PartitionStore.PartitionLog.AppendBatch | src/Partition.cpp:203-261 | nothing is written exactly if the batch is empty or some record takes more than 1,048,576 bytes; otherwise all records with consecutive offsets, as modelled, packed greedily into segments |
| PartitionStore.PartitionLog.Read | src/Partition.cpp:263-329 | out of range exactly outside earliest and next offset; otherwise the shortest non-empty full page of the flat log from the start offset, or all the rest |
| PartitionStore.PartitionLog.PageThrough | src/Partition.cpp:263-329 | reading on from the last offset plus one, with any limits, ends and returns every record of the flat log once, in order |
| PartitionStore.PartitionLog.OpenAndRecover | src/Partition.cpp:15-124 | reports a decoder past its buffer exactly on the directories that overrun; on all others the state and the writes of the modelled recovery; on every directory a crash can leave it does not overrun, and memory and disk agree |
| PartitionStore.PartitionLog.ScanAndDrop | src/Partition.cpp:361-440 | drops exactly the modelled number of segments, or none on a dry run; the flat log becomes its own tail from the new earliest offset, the next offset stays, and every read at or above the new earliest offset returns the page that it returned before; with a budget, the bytes left are within it or in one segment; and every dropped segment had expired or had, with all later ones, more bytes than the budget |
| PartitionStore.SortedLogs | src/Partition.cpp:17-32 | lists the base offsets of all log files in ascending order |
| FetchHandler.HandleFetch | src/MessageHandler.cpp:160-217 | argument and range errors, and otherwise the page for the client's own byte limit, or for 1,048,500 bytes if that is more, with next offset, watermark and earliest offset |
| FetchHandler.ReplyBounds | src/MessageHandler.cpp:192-213 | a reply has at most 37,447 records, so that its 16-bit count is exact and it decodes to itself, and fewer than 26 + 1,048,500 + 1,048,576 bytes |
| Text.MemberIdsDiffer | src/GroupCoordinator.cpp:43-50 | ids of one group differ if they were issued at different counts, whatever the random part, or with different random parts |
| Text.SortedNames | src/GroupCoordinator.cpp:58-63 | the members in dictionary order, each once |
| Assignor.AssignRange | src/Assignor.cpp:6-39 | every member gets, per topic, the contiguous slice at its rank |
| Assignor.AssignRoundRobin | src/Assignor.cpp:41-75 | the partitions of all topics, sorted, are dealt in turn |
| Assignor.RangeHolds | src/Assignor.cpp:6-39 | under Range the members together hold every partition exactly as often as it is listed |
| Assignor.RoundRobinHolds | src/Assignor.cpp:41-75 | the same under round robin |
| Assignor.RangeBalanced | src/Assignor.cpp:20-35 | slices of one topic differ by at most one partition, and earlier members are never behind |
| Assignor.RoundRobinBalanced | src/Assignor.cpp:60-72 | total loads differ by at most one |
| Assignor.ExclusiveIffDistinct | src/GroupCoordinator.cpp:515-534 | an assignment that loses and adds nothing is exclusive if and only if no topic is listed twice |
| Coordinator.GroupCoordinator.Join | src/GroupCoordinator.cpp:86-220 | takes the modelled step: all refusals in order, creation, takeover of an empty group, new member with rebalance, rejoin |
| Coordinator.GroupCoordinator.Heartbeat | src/GroupCoordinator.cpp:222-257 | refreshes a member of the current generation, and nothing else |
| Coordinator.GroupCoordinator.Leave | src/GroupCoordinator.cpp:259-294 | removes the member, moves to the next generation and rebalances |
| Coordinator.GroupCoordinator.ExpireGroup | src/GroupCoordinator.cpp:307-331 | removes exactly the members silent for longer than their timeout, in one new generation |
| Coordinator.GroupCoordinator.Commit | src/GroupCoordinator.cpp:336-449 | all refusals in order; otherwise the offsets are stored in order |
| Coordinator.GroupCoordinator.FetchOffsets | src/GroupCoordinator.cpp:451-463 | the last committed offset of every query, or -1 |
| Coordinator.Rebalance | src/GroupCoordinator.cpp:52-84 | every member holds its share under the group's strategy, and nothing else of it changes |
| Coordinator.DebugCheckInvariants | src/GroupCoordinator.cpp:501-546 | the executable check returns true exactly if every subscribed partition is held once and nothing unknown is held |
| Coordinator.DebugCheckMeaning | src/GroupCoordinator.cpp:501-546 | in every group that keeps the invariant, that check passes if and only if no topic is named twice |
| GroupModel.GroupExclusive | src/GroupCoordinator.cpp:52-84 | ownership in a group is exclusive and complete if and only if its subscription names no topic twice |
| Ownership.RangeOneOwner | src/Assignor.cpp:6-39 | under Range a partition determines its owner even when a topic is named twice |
| Ownership.RoundRobinTwoOwners | src/Assignor.cpp:41-75 | under round robin with two members, a topic named twice has a partition with two owners |
| Ownership.OneOwnerExactly | src/GroupCoordinator.cpp:120-132 | no partition of a group has two owners if and only if it uses Range, or names no topic twice, or has at most one member |
| Ownership.GroupBalanced | src/Assignor.cpp:6-75 | in every group that keeps the invariant two members differ by at most one partition: in total under round robin, and per topic under Range (once for each time the topic is named) |
| Ownership.ExclusiveExactly | src/GroupCoordinator.cpp:501-546 | in every such group with members, every subscribed partition has exactly one owner and nothing else is owned if and only if no topic is named twice |
| GroupRuns.StepKeeps | src/GroupCoordinator.cpp:86-449 | every operation, crash and restart keeps: valid assignments, generation counting membership changes, ids issued, departed members out, commits by owners, offsets within the log |
| GroupRuns.ReachableGroups | src/GroupCoordinator.cpp:52-84 | in every reachable state: a group is empty exactly in the Empty state; ownership is exclusive and complete if and only if no topic is named twice; no partition has two owners if and only if the group is fenceable; loads are balanced as in `Ownership.GroupBalanced`; the generation is the number of membership changes modulo 2^32 |
| GroupLife.MembersExactly | src/GroupCoordinator.cpp:86-334 | in every run the members of a group are exactly those whose latest accepted join, rejoin or heartbeat has not been followed by an accepted leave, an expiry after longer silence than the timeout, or a restart; and the coordinator holds the time of that call and the timeout and subscription of the latest join |
| GroupLife.LastCallIsLatest | src/GroupCoordinator.cpp:200-257 | that call is the latest accepted one, and no restart and no accepted leave came after it |
| GroupLife.ExpiresExactly | src/GroupCoordinator.cpp:307-331 | in every run an expiry sends a member away if and only if its latest accepted join, rejoin or heartbeat is longer ago than its latest timeout |
| GroupLife.PunctualStays | src/GroupCoordinator.cpp:222-331 | a member that calls at least once per timeout is never sent away |
| GroupLife.JoinExactly | src/GroupCoordinator.cpp:86-220 | in every run a join is accepted if and only if it is well formed, its group exists or there is room for one more, all present members asked for the same topics and strategy, and it comes from a member, or from nobody yet and there is room for one more |
| GroupLife.JoinReply | src/GroupCoordinator.cpp:180-220 | the caller of an accepted join is a member, with the generation and partitions of the reply, and its heartbeat interval is a third of its timeout |
| GroupLife.HeartbeatExactly | src/GroupCoordinator.cpp:222-257 | in every run a heartbeat is answered by the code that its being a member, and in the present generation, determines |
| GroupLife.LeaveExactly | src/GroupCoordinator.cpp:259-294 | in every run a leave is accepted if and only if it comes from a member, which then is none |
| GroupLife.CommitExactly | src/GroupCoordinator.cpp:336-449 | in every run a commit is accepted if and only if the offsets log takes it, every entry names an offset within an existing partition that is not reserved, and it comes from a member in the present generation that owns all of them, or from nobody while the group has no members |
| GroupLife.LimitsHold | src/GroupCoordinator.cpp:100-185 | in every run the limits on groups, on members of a group and on session timeouts hold |
| GroupRuns.Fencing | src/GroupCoordinator.cpp:386-418 | two member commits for the same group, generation and partition in one coordinator lifetime came from the same member, unless 2^32 membership changes lie between them or the group is not fenceable |
| GroupRuns.UnfenceableCommits | src/GroupCoordinator.cpp:404-417 | in every reachable group that is not fenceable, two members can commit the same partition under the current generation |
| GroupExample.TwoOwnersReached | src/GroupCoordinator.cpp:120-132 | a concrete run of two joins that leads to a group in which two members own, and may commit, the same partition |
| GroupRuns.GoneForGood | src/GroupCoordinator.cpp:283-330 | once a member has left or expired, no rejoin, heartbeat, leave or commit in its name succeeds in that lifetime |
| GroupRuns.DepartureRecorded | src/GroupCoordinator.cpp:259-334 | leaving and expiry are the only ways out of a group |
| GroupRuns.CommittedWithinLog | src/GroupCoordinator.cpp:420-439 | every committed offset stays at most its partition's next offset, through appends, commits, crashes and restarts (that a restart keeps offsets and watermarks is `Restarts.CommittedSurvives` and `Restarts.RestartBounds`) |
| OffsetKeys.KeyRoundTrip | src/OffsetStore.cpp:11-36 | a key parses back to its group, topic and partition if and only if group and topic are non-empty and free of pipes, and otherwise not at all |
| OffsetKeys.KeysDiffer | src/OffsetStore.cpp:11-13 | keys of pipe-free topics are never confused, whatever the group ids |
| OffsetStore.OffsetStore.Commit | src/OffsetStore.cpp:98-150 | the batch is appended and the cache updated so that the cache stays the replay of the log; a refused batch changes nothing |
| OffsetStore.OffsetStore.OpenAndRecover | src/OffsetStore.cpp:56-96 | the paged loop ends, succeeds exactly if every record is readable, and then the cache is the last-write-wins replay of the whole log |
| OffsetStore.OffsetStore.Get | src/OffsetStore.cpp:152-160 | the offset in the last record of the offsets log that writes this group, topic and partition, or -1 if none does |
| OffsetStore.ValueRoundTrip | src/OffsetStore.cpp:75-87 | offset and timestamp are read back from the sixteen bytes of a value |
| OffsetStore.ReplayBatch | src/OffsetStore.cpp:135-147 | replaying the log with a commit's batch equals updating the cache item by item |
| OffsetStore.LastWritten | src/OffsetStore.cpp:69-94 | the replay of a log holds, for every key, what the last record that writes it says |
| OffsetStore.BatchReadable | src/OffsetStore.cpp:69-77 | a log with a commit's batch can be recovered if and only if the rest can and every key of the batch is plain |
| OffsetStore.StandaloneSpoils | src/GroupCoordinator.cpp:362-449 | the coordinator accepts a standalone commit for a group id with a pipe, and no log that holds it can be recovered |
| OffsetStore.CommitRefines | src/GroupCoordinator.cpp:431-444 | a commit through the store is the commit of the group model |
| OffsetStore.GetRefines | src/GroupCoordinator.cpp:456-459 | what the store returns is what the group model reads |
| Restarts.MemberLogReadable | src/GroupCoordinator.cpp:90-98 | whatever commit of a member the coordinator accepts in a reachable state, a readable offsets log stays readable with its records |
| Restarts.CutCommit | src/OffsetStore.cpp:98-150 | a log with the first m records of a commit holds the offsets of the first m entries of that commit |
| Restarts.CommittedSurvives | src/OffsetStore.cpp:56-96 | when the offsets log comes back after a crash, what is committed is what was committed before and a prefix of the commit that was cut off |
| Restarts.RestartBounds | src/Partition.cpp:15-124 | across crashes and restarts without a retention pass, no next offset falls and no earliest offset rises, and none falls either if no dropped segment still had its files |
| ConsumerRuns.MoveKeeps | src/cli_main.cpp:1119-1489 | every step of every client loop (also one whose topic description fails), of the coordinator and of crashes, also crashes that bring dropped segments back, keeps: positions within the log, one loop per id, no commit beyond the positions of the current owner |
| ConsumerRuns.ResetKeeps | src/cli_main.cpp:1400-1418 | a reset after an out-of-range fetch keeps the invariant |
| ConsumerRuns.ResetClient | src/cli_main.cpp:1400-1418 | a reset only ever moves a position forward |
| ConsumerRuns.AcceptedIsCurrent | src/GroupCoordinator.cpp:386-402 | a client whose commit passes is in the group's present epoch and coordinator lifetime |
| ConsumerSafety.NeverBackwards | src/cli_main.cpp:1182-1311 | in every history a committed offset stays, and goes down only if, in the same epoch and on the same partition, a commit has landed whose client had given up on it |
| ConsumerSafety.LateLowersExactly | src/cli_main.cpp:1274-1311 | a late commit lowers a committed offset if and only if the coordinator accepts it, the offsets log takes it, and its last entry for that partition is lower |
| ConsumerSafety.CommitLowersExactly | src/cli_main.cpp:1274-1311 | a commit whose client waits lowers a committed offset if and only if the coordinator accepts it, the offsets log takes it, and it names a lower one; and then a late commit has landed before on that partition in that epoch |
| ConsumerSafety.PatientNeverBackwards | src/cli_main.cpp:1274-1311 | in every history in which no client gives up on a commit, no committed offset ever goes down |
| ConsumerSafety.AtLeastOnce | src/cli_main.cpp:1201-1442 | with clients that start from the earliest record, every record below a committed offset was processed by a member or was dropped by a retention pass at some time, in every history |
| ConsumerSafety.AtLeastOnceOrDeleted | src/Partition.cpp:434-456 | in every history in which no crash comes between a retention pass and the removal of its files, every such record was processed or is deleted for good |
| ConsumerSafety.CameBackExactly | src/Partition.cpp:434-456 | such a record is neither processed nor deleted if and only if it was never processed and is among the records that retention dropped and a restart brought back |
| ConsumerExample.LateCommitGoesBack | src/cli_main.cpp:1274-1311 | a concrete history in which a committed offset goes from 2 to 1 |
| ConsumerExample.DroppedComesBack | src/Partition.cpp:434-456 | a concrete history in which a record below a committed offset was never processed and is in the log again after a restart |
| Frames.TakesExactlyEncodings | src/FrameAssembler.cpp:11-45 | a frame is taken if and only if the unread bytes begin with the encoding of a frame within the limit |
| Frames.DrainConcat | src/FrameAssembler.cpp:6-45 | draining early and going on equals draining late |
| Frames.DrainConserves | src/FrameAssembler.cpp:11-45 | the frames taken, encoded again, and the rest make up the stream |
| Frames.ErrorPersists | src/FrameAssembler.cpp:17-23 | a length error stays whatever is pushed after it |
| Frames.ChunkIndependence | src/FrameAssembler.cpp:6-68 | however the encoding of legal frames is cut, draining after each chunk yields those frames and leaves nothing |
| Frames.FrameAssembler.PushBytes | src/FrameAssembler.cpp:6-9 | the bytes join the unread ones |
| Frames.FrameAssembler.ExtractNextFrame | src/FrameAssembler.cpp:11-45 | takes what the unread bytes begin with, and leaves the rest |
| Frames.FrameAssembler.CompactIfNeeded | src/FrameAssembler.cpp:60-68 | compaction never changes the unread bytes |
| Frames.FrameAssembler.TakeAll | src/TcpServer.cpp:367-388 | the extraction loop takes all frames that are there |
| Frames.ErrorFrameRoundTrip | src/FrameCodec.cpp:43-81 | a frame parses as an error with a code and message if and only if it was made from them |
| PipelineRuns.EmitConserves | src/TcpServer.cpp:164-188 | what the socket takes and what then waits are what waited before and the response, in order |
| PipelineRuns.StepKeeps | src/TcpServer.cpp:90-413 | every step of the I/O thread and of any worker keeps the pipeline invariant |
| PipelineRuns.OneInFlight | include/streamforge/TaskQueue.hpp:24-27 | in every interleaving a connection id has at most one request in task queue, worker and completion queue together; one exactly when a live connection is in flight; none waits otherwise |
| PipelineRuns.ResponsesInOrder | src/TcpServer.cpp:135-200 | bytes sent and waiting on a connection are the responses to its first requests, in request order, in every interleaving |
| PipelineRuns.PeerSeesOrder | src/ThreadPool.cpp:37-63 | the frames in the bytes a peer has been sent are the first responses, and the i-th carries the id of the i-th request |
| PipelineRuns.ClosedForGood | src/TcpServer.cpp:135-146 | a closed connection stays closed, its id is not issued again, and a late completion sends nothing |
| PipelineLife.EndsExactly | src/TcpServer.cpp:135-200 | in every interleaving a live connection goes if and only if it is closed, a send on it fails, or a response comes with which the bytes answered and not yet sent exceed the limit |
| PipelineLife.AnswerGoesOut | src/TcpServer.cpp:164-188 | when a response comes and the connection stays, the bytes sent and waiting are exactly all its answers, this one included |
| PipelineLife.SentExactly | src/TcpServer.cpp:164-338 | a connection that stays has been sent exactly what its socket took |
| PipelineLife.ConnectionLimit | src/TcpServer.cpp:102-132 | there are never more connections than the limit, and a new one is refused if and only if there are as many |
| TcpServer.TaskQueue.Pop | include/streamforge/TaskQueue.hpp:37-46 | takes the oldest task, or stops when the queue is stopped and empty |
| TcpServer.CompletionQueue.PopAll | include/streamforge/TaskQueue.hpp:76-85 | takes everything, in order |
| TcpServer.TcpServer.AcceptOne | src/TcpServer.cpp:102-132 | a new id within the connection limit |
| TcpServer.TcpServer.Dispatch | src/TcpServer.cpp:380-387 | a frame is dispatched, or waits while another is in flight |
| TcpServer.TcpServer.SendOutput | src/TcpServer.cpp:318-338 | waiting output goes out from where it stopped |
| TcpServer.TcpServer.HandleCompletion | src/TcpServer.cpp:137-199 | one completion: dropped, refused by the buffer limit, or sent and buffered, then the next request is dispatched |
| TcpServer.TcpServer.ProcessCompletions | src/TcpServer.cpp:135-200 | the whole completion queue, one completion after the other |
| TcpServer.TcpServer.CloseConnection | src/TcpServer.cpp:69-76 | the connection is gone and nothing else changes |
| Protocol.BodiesExactly | include/streamforge/BodyReaderWriter.hpp:22-150 | for any message layout whose count guards ask for no more than its rows take: a body is accepted with some values if and only if they are in range and the body is their print |
| BodyIo.BodyReader.ReadNumber | include/streamforge/BodyReaderWriter.hpp:31-72 | reads a number at the cursor, or fails without moving |
| BodyIo.BodyReader.ReadData | include/streamforge/BodyReaderWriter.hpp:74-90 | reads a length and that many bytes, or fails |
| BodyIo.BodyReader.ReadRows | include/streamforge/ProtocolMessages.hpp:58-61 | the row loop equals parsing the rows |
| BodyIo.BodyReader.Decode | include/streamforge/ProtocolMessages.hpp:53-63 | reading all fields and requiring the end equals parsing the whole body |
| BodyIo.BodyWriter.WriteData | include/streamforge/BodyReaderWriter.hpp:133-143 | a length cut to its width, and the bytes |
| BodyIo.BodyWriter.Encode | include/streamforge/ProtocolMessages.hpp:65-73 | an encoder appends the print of its values |
| Messages.MessageBodies | include/streamforge/ProtocolMessages.hpp:45-591 | for fifteen message layouts: in-range messages decode to themselves, accepted bodies encode to the same bytes, and no guard rejects a valid body |
| Messages.CreateTopicExactly | include/streamforge/ProtocolMessages.hpp:12-38 | the same for the request with optional retention |
| Messages.DecodeCreateTopic | include/streamforge/ProtocolMessages.hpp:19-28 | the decoder equals the parser |
| Messages.DescriptionExactly | include/streamforge/ProtocolMessages.hpp:229-271 | a topic description is accepted if and only if it is in one of three layouts (long rows and trailer, long rows, short rows), which are told apart correctly |
| Messages.DecodeDescription | include/streamforge/ProtocolMessages.hpp:250-270 | the decoder equals the parser |

## Left out

- Power loss, write-back order, failing writes and failed removals: the crash model is that of a process, in which written
  bytes stay.
- Log files of 4 GiB and more: recovery of a partition is modelled for files whose size fits the 32-bit size field.
- Offsets from 2^64 on: appends are modelled while the next offset fits 64 bits.
- Winsock, polling, `Socket`, `Connection`, `FileHandle`, the wakeup channel and real files: a send accepts a non-empty part,
  would block, or fails; a file is a byte sequence; which socket is ready is any choice.
- The framing-error reply and the SHUTDOWN reply of `TcpServer`: they bypass the output buffer, so the order of responses is
  stated for connections before them. Read stalls and the final flush at shutdown are closings like any other.
- Topic creation and lookup, partitioning of produced records, the retention thread, logging, and the other commands of the
  command line: they would only add easy members.
- The member counter of the coordinator is unbounded in the model, and so are clocks.
- A group is created and joined in one step. In between, the code publishes it without members, which no other operation can
  tell from an absent group except by its count toward the limit.
- RecordCodec.DamageDetected: says nothing of changes that reach from the checksum field into the body, since the stored
  checksum and the body can then change together.
- LogSegment.LogSegment.RecoverAndRebuildIndex: what memory the decoder reads past its buffer, and what happens then, is not
  modelled; the same goes for the other methods that can report it.
- Restarts.MemberLogReadable: takes topic names to be non-empty, which topic creation sees to.
- ConsumerSafety.NeverBackwards: assumes that no group changes its membership 2^32 times, that offsets stay below 2^63, that
  no member id of an earlier coordinator lifetime is issued again (its random part has 16 bits), that no standalone commits
  are made, and that clients start without a given member id.
- ConsumerSafety.AtLeastOnce: has the same assumptions, and a client whose offset read failed does not fetch before it has
  joined again, since the failure closes its connection.
- PipelineRuns.PeerSeesOrder: needs the peer's frame limit to admit the responses; the command-line client has none below
  2^32, while a FETCH reply can exceed the 1 MiB limit of the server's own assembler.
- OffsetStore.OffsetStore.OpenAndRecover: begins after the offsets partition itself has been found and recovered.
- FetchHandler.HandleFetch: begins after topic and partition have been found, and reads watermark and log in one step.
- Coordinator.GroupCoordinator.Commit: takes from its caller whether the offsets log accepted the batch; `OffsetStore` models
  that log.
- IndexDensity.LifeDense: is stated for indexes built in memory, not for index files that a sealed segment loads.

# animus-db: durability and metadata mirroring

A Dafny model of how an animus-db node keeps its Raft state through crashes,
full disks and compactions, and of how its metadata reaches the engine and the
watchers that mirror it.

- `MarkerRule`, `Format`: newline-delimited, checksummed WAL lines. A sync
  marker at offset N proves everything before N was synced; the one-pass
  decoder tells a torn tail from mid-file corruption by such proofs.
- `WalFile`, `CrashRecovery`, `RecoveredPrefix`, `WalRuns`, `WalWriter`: one WAL
  file over its whole life, with rounds, failures, rewrites, restarts, crashes and
  recoveries in any order. The writer and its marker state are classes that
  refine the life cycle. `Reframe` is the re-framing to version 1.
- `WalRecords`, `CrashedLogs`: the records, their replay, the minimal image,
  the contiguity check, demultiplexing a log shared by tablets, and what each
  recovers from a crashed file.
- `PersistRound`, `RoundRuns`, `PersistLoop`: numbered persist rounds. Messages that claim
  durability are held until the round that covers their step is on disk, while
  the consensus loop, compaction and suspect recovery all drain the same core.
  `PersistLoop` adds the control plane's own guards on who may write when.
  `CrashedRounds` ties messages to the bytes a crash leaves.
- `FairLock`: the ticketed lock that serialises the file's writers.
- `StagedRewrite`, `StagedFile`, `StagedRounds`: compaction that writes its image
  aside while rounds keep landing and failing, the tail that carries those rounds
  over, and the messages released on the strength of the live file.
- `MetadataModel`, `MetaCommands`, `KeyWrites`, `Mirror`, `MirrorTask`,
  `MirrorDerive`: metadata commands, the key writes each implies, installing
  them on a copy, and rebuilding from the last-writer-wins engine.
- `DeltaRing`, `Watch`, `CommandHistory`: the byte-bounded ring of recent
  writes, replicas that publish a batch piece by piece, requests that read the
  pieces one at a time, watchers that install the replies, and the whole path
  from commands to watchers and rebuilt nodes.
- `CivilDate`: the calendar arithmetic behind the SigV4 date.

## Assumptions

- The checksum is any function from bytes to 32 bits. A crash keeps the synced
  bytes, may cut and overwrite the rest, and forges no framed line: a line of the
  un-synced region that checks out is one the writer put at that offset. The
  simulator's limit of one overwritten byte is a corollary, not an assumption.
- JSON is a codec that loses nothing, whose text holds no newline and does not
  start like a sync marker. System-keyspace keys are datatype values, so their
  byte encoding is taken to be injective.
- Disk outcomes, free-space probes, teardown, wall-clock stamps, placement
  decisions, schema validation and the catalog walks behind backups are
  parameters or steps. Polls and lock holds are indivisible.
- Term and vote only move forward, as in Raft; the rest of Raft is any step that
  emits log records.

## Where the code and its documentation differ

The model follows the code, and the difference is a result of its own.

- A staged rewrite is described as leaving the live WAL with every acknowledged
  record until the swap (`crates/animus-cp-data/src/lib.rs:12979-12982`). A
  truncation counts from the core's new snapshot base, so one recorded before
  the swap, or after a rewrite put off for lack of space, cuts the live log too
  short. An acknowledged entry can then be lost; it is kept exactly when no such
  truncation was recorded (`StagedRounds.SentMessageIsRecoveredIff`).
- `InstallSnapshotResp` is said to wait until the image would survive a restart
  (`crates/animus-control/src/persist_round.rs:586-587`). In the control plane an
  install emits no record, so no round covers it: the reply leaves at once, or
  with the round in flight, and either way its step is on disk exactly when the
  install is (`RoundRuns.EverySentMessageIsOnDisk`).
- A suspect WAL is said to be rewritten by the consensus loop
  (`crates/animus-control/src/node.rs:2574-2577`). While an install owes a rewrite
  the loop does not start, and compaction does not rewrite a suspect file, so with
  no persist future running neither acts (`PersistLoop.StuckForever`); in every
  other state messages get out (`PersistLoop.Progress`).
- A full watch reply is described as the answering node's metadata at its
  watermark (`crates/animus-node/src/control_handle.rs:344-347`). The metadata is
  read before the watermark, so the copy can be older or newer than it says. The
  copy is right exactly when every row changed between the two reads has been
  written again since (`Watch.WatcherAgreesIff`).
- The decoder's account of torn tails does not mention that empty lines are
  skipped wherever they are, so a line overwritten by newlines leaves a gap and
  no error (`RecoveredPrefix.NoGapIffHoleFree`).
- The hard state is documented as checkpointed at the end of every entry point
  (`crates/animus-control/src/raft.rs:3486-3487`); only a drain does it.

## Model

| member | source | states |
|---|---|---|
| `CivilDate.YearOfEraBrackets` | `crates/animus-bench/src/client.rs:285-286` | the year-of-era division lands in the one year whose first and last day enclose the day, for every day of an era |
| `CivilDate.MarchFromDaysIsExact` | `crates/animus-bench/src/client.rs:282-286` | era, year and day of year add up to the day counted from, and are in range, for every day |
| `CivilDate.CivilFromMarchSteps` | `crates/animus-bench/src/client.rs:287-290` | one day later in March years is the next Gregorian date, across month ends, leap days, year ends and eras |
| `CivilDate.CivilFromDaysCountsDays` | `crates/animus-bench/src/client.rs:282-290` | for every day count, the date is valid and is the one reached by stepping that many days from 1970-01-01 |
| `CivilDate.PadReadsBack` | `crates/animus-bench/src/client.rs:291-292` | a zero-padded field reads back as its number |
| `CivilDate.TimeOfDayIsExact` | `crates/animus-bench/src/client.rs:293-295` | hours, minutes and seconds are in range and add up to the second of the day |
| `CivilDate.AmzDateNamesTheInstant` | `crates/animus-bench/src/client.rs:278-297` | for every `u64` second, the text parses back to the date and time of day of that instant, and distinct parts are where the format puts them |
| `FairLock.FairMutex.Release` | `crates/animus-control/src/fair_lock.rs:150-158` | releasing hands the lock to the head of the queue and wakes it, unless it is reserved already |
| `FairLock.FairMutex.Poll` | `crates/animus-control/src/fair_lock.rs:169-199` | a first poll takes a free lock or queues; a later one claims its reservation or refreshes its waker in place |
| `FairLock.FairMutex.Cancel` | `crates/animus-control/src/fair_lock.rs:205-216` | a cancelled waiter leaves the queue, or passes its reservation on |
| `FairLock.InvNext` | `crates/animus-control/src/fair_lock.rs:142-228` | every call, poll, spurious poll, cancellation and guard drop keeps the lock's invariant |
| `FairLock.EveryRunIsSafe` | `crates/animus-control/src/fair_lock.rs:149-228` | in every run: at most one live guard, never held and reserved at once, and a non-empty queue means held or reserved for a live, woken waiter |
| `FairLock.AheadShrinks` | `crates/animus-control/src/fair_lock.rs:142-199` | no step lets anyone in front of a waiter, and every grant before its own is to someone ahead of it |
| `FairLock.TicketsAreNotReissued` | `crates/animus-control/src/fair_lock.rs:177-181` | a waiter that is gone never waits again under the same ticket |
| `FairLock.NoOvertaking` | `crates/animus-control/src/fair_lock.rs:142-217` | before a waiter's grant, all grants go to earlier tickets in ticket order, and number at most those ahead of it |
| `FairLock.Progress` | `crates/animus-control/src/fair_lock.rs:149-228` | from any reachable state there is a run, no longer than the distance to a waiter, that gives it the lock |
| `WalRecords.Replay` | `crates/animus-control/src/persist.rs:442-474` | the replay loop is the left fold of the record effects |
| `WalRecords.ReplayAppend` | `crates/animus-control/src/persist.rs:442-474` | replaying a concatenation is replaying its parts in turn |
| `WalRecords.ImageIsExact` | `crates/animus-control/src/raft.rs:2096-2113` | the minimal image replays to the state it was taken from if and only if that state's snapshot covers something |
| `WalRecords.ImageThenSuffix` | `crates/animus-control/src/raft.rs:2096-2113` | replacing a log by its image preserves the replay of every possible later suffix |
| `WalRecords.CheckLogContiguous` | `crates/animus-control/src/persist.rs:488-501` | accepts exactly the logs whose entry at every position carries base + position + 1, and otherwise names the first that does not |
| `WalRecords.EveryPrefixIsContiguous` | `crates/animus-control/src/persist.rs:476-501` | a stream whose appends carry base + length + 1 passes the check wherever it is cut |
| `WalRecords.ReplayMultiplexed` | `crates/animus-control/src/persist.rs:663-672` | a tablet is present exactly when it has a line, with the replay of its own records in file order |
| `WalRecords.TornSharedLog` | `crates/animus-control/src/persist.rs:622-631` | however the shared file is cut, each tablet keeps a prefix of its own stream |
| `WalRecords.ImageDemultiplexes` | `crates/animus-control/src/persist.rs:682-696` | demultiplexing a whole-file image gives each tablet its own records back, and an absent tablet none |
| `MarkerRule.ScanLines` | `crates/animus-control/src/format.rs:454-520` | the one-pass scan gives the verdict of the declarative rule, on every byte string |
| `MarkerRule.DecidesIsFunctional` | `crates/animus-control/src/format.rs:400-451` | the rule has at most one verdict for a file |
| `MarkerRule.CorruptionIffBadBeforeMarker` | `crates/animus-control/src/format.rs:427-451` | with no line refused by name, the verdict is corruption exactly when a marker lies beyond the first bad line, and it names the first bad offset and the greatest marker |
| `MarkerRule.ProvedBytesAreFramed` | `crates/animus-control/src/format.rs:427-451` | in a file that decodes, every line before a marker is well framed |
| `Format.DecodeLinesExtent` | `crates/animus-control/src/format.rs:454-520` | the decoder of framed lines gives the rule's verdict under the format's own line reader |
| `Format.ReadersAreCoherent` | `crates/animus-control/src/format.rs:325-380` | framing does not depend on the side of the first bad line, and an accepted marker sits where it claims |
| `Format.WrittenLineIsFramed` | `crates/animus-control/src/format.rs:232-243` | a line's framing checks out and yields its body, whatever the checksum function |
| `Format.WrittenRecordReadsBack` | `crates/animus-control/src/format.rs:232-243` | a written record reads back as its payload, and is skipped past a bad line |
| `Format.WrittenMarkerReadsBack` | `crates/animus-control/src/format.rs:264-266` | a written marker is a proof at the offset it claims and a named error anywhere else |
| `Reframe.ReframeToV1` | `crates/animus-control/src/format.rs:304-312` | for every file: the decoder's error, or version-1 bytes that decode to the same payloads, with no marker, under the current tag and under version 1 |
| `Reframe.OldImageDecodes` | `crates/animus-control/src/format.rs:295-312` | version-1 lines decode alike for the current and the version-1 reader |
| `WalFile.LinesOfRender` | `crates/animus-control/src/format.rs:462-472` | a file that starts with laid-out items has exactly their lines first, blank ones skipped |
| `WalFile.ItemLinesReadClean` | `crates/animus-control/src/format.rs:473-506` | laid-out lines read clean, and the records come out in order |
| `CrashRecovery.Walk` | `crates/animus-control/src/persist.rs:281-291` | damage to the un-synced tail that forges no framed line leaves the synced items, then surviving items at their own offsets, up to the first bad line |
| `CrashRecovery.DamagedLineIsHarmless` | `crates/animus-control/src/format.rs:418-425` | past the first bad line of a crashed file no marker proves anything beyond it |
| `CrashRecovery.TornRecovery` | `crates/animus-control/src/format.rs:315-321` | a torn file decodes to the survivors' records and is cut back to exactly their bytes |
| `CrashRecovery.EndedRecovers` | `crates/animus-control/src/persist.rs:565-576` | whatever the damage, the verdict is Ok and the repaired bytes are a writer's file again |
| `RecoveredPrefix.NoGapIffHoleFree` | `crates/animus-control/src/format.rs:470-472` | the un-synced lines recovery keeps are an initial run of the written ones if and only if, in the crashed bytes up to the first bad line, no empty line precedes a non-empty one |
| `RecoveredPrefix.RecoveredRecords` | `crates/animus-control/src/persist.rs:565-576` | every synced record survives, and without a hole the survivors are a prefix of what was written |
| `RecoveredPrefix.OneByteDamageIsHoleFree` | `crates/animus-sim/src/lib.rs:1873-1915` | a tear with one overwritten byte can leave no hole |
| `WalRuns.InvNext` | `crates/animus-control/src/persist.rs:321-351` | appending, syncing, failing, replacing, restarting and crashing keep a file in which an un-synced marker only leads the un-synced tail |
| `WalRuns.EveryCrashRecovers` | `crates/animus-control/src/persist.rs:565-576` | any crash at any point of any run decodes without error, with every synced record, and is repaired to a writer's file; it keeps an initial run of the un-synced lines if and only if the damage left no hole, and then a prefix of the records |
| `WalRuns.OneByteCrashRecoversPrefix` | `crates/animus-control/src/persist.rs:565-576` | under the simulator's crash the recovered records are a prefix of those written that holds every synced one |
| `WalRuns.SyncedRecordsStay` | `crates/animus-control/src/persist.rs:321-351` | between replacements of the file, no synced record is lost through any crashes and recoveries |
| `WalRuns.WipedLineIsSkipped` | `crates/animus-control/src/format.rs:470-472` | a run whose crash overwrites a line wholly by newlines: it is skipped without error while a later one is kept, so the recovered records are no prefix |
| `WalWriter.FormatIsFaithful` | `crates/animus-control/src/format.rs:232-266` | the line format, for any checksum function and any valid tag, is a writer the crash results apply to |
| `WalWriter.FramedCrashRecovers` | `crates/animus-control/src/persist.rs:542-576` | the same for the framed format itself, whatever the checksum: any crash, any damage that forges no framed line |
| `WalWriter.FramedCrashRecoversPrefix` | `crates/animus-control/src/persist.rs:542-576` | under the simulator's crash the framed log has no hole, so it decodes to a prefix with every synced record |
| `WalWriter.DecodeWithExtent` | `crates/animus-control/src/persist.rs:549-556` | the records of the decoded lines, the decoder's own error, or a malformed payload, and never past the file's end |
| `WalWriter.RecordLinesRender` | `crates/animus-control/src/persist.rs:509-512` | appending record lines to a file lays the records out after its items |
| `WalWriter.SyncMarkerState.TakeMarker` | `crates/animus-control/src/persist.rs:329-337` | the marker for the file's length, only after a known-good sync and a readable length; the flag is forgotten |
| `WalWriter.WalFileWriter.AppendRound` | `crates/animus-control/src/node.rs:3818-3830` | one append of marker and records is one step of the file's life cycle, and the bytes are those of its layout |
| `WalWriter.WalFileWriter.FinishRound` | `crates/animus-control/src/node.rs:3826-3859` | a sync makes the round durable and arms the next marker; a failed one leaves the file suspect |
| `WalWriter.WalFileWriter.ReplaceWith` | `crates/animus-control/src/node.rs:2620-2643` | a rewrite holds record lines only and drops the pending marker, whether or not it lands |
| `WalWriter.WalFileWriter.Recover` | `crates/animus-control/src/persist.rs:565-576` | after any crash, recovery returns the surviving records and leaves the repaired file, never an error |
| `CrashedLogs.CrashKeepsRecords` | `crates/animus-control/src/persist.rs:549-576` | after any crash of any run, the records recovered start with every synced one, and are the first ones written if the damage left no hole, which is exactly when no un-synced line is skipped |
| `CrashedLogs.NodeRecoversItsLog` | `crates/animus-control/src/persist.rs:442-501` | after any crash of any run, a node recovers a state that extends the replay of everything synced; without a hole it is the state of a prefix and passes the contiguity check |
| `CrashedLogs.TabletsRecoverTheirStreams` | `crates/animus-control/src/persist.rs:631-672` | after any crash of any run, each tablet of a shared log keeps everything of its own stream that was synced, and without a hole a prefix of that stream |
| `CrashedLogs.OneByteCrashKeepsRecords` | `crates/animus-sim/src/lib.rs:1873-1915` | under the simulator's crash there is no hole, so the records recovered are a prefix with every synced one |
| `StagedFile.StagedRewriter.Landed` | `crates/animus-control/src/fair_lock.rs:76-84` | a round that lands meanwhile is added to what the staged file will hold |
| `StagedFile.StagedRewriter.CatchUp` | `crates/animus-cp-data/src/lib.rs:12997-13006` | draining the tail early changes nothing about the result |
| `StagedFile.StagedRewriter.Commit` | `crates/animus-cp-data/src/lib.rs:13007-13021` | the swapped-in bytes decode to the image and every round since, with no marker to be misplaced |
| `StagedFile.RecordLinesDecode` | `crates/animus-control/src/format.rs:119-125` | record lines alone decode to exactly their payloads |
| `StagedFile.CopiedMarkerIsRefused` | `crates/animus-control/src/format.rs:119-125` | a marker copied behind the image would make recovery refuse the file by name |
| `StagedRewrite.StagedFileIsExact` | `crates/animus-cp-data/src/lib.rs:12959-13021` | in every interleaving of landed rounds with a staged rewrite, at a moved base or an unmoved one, the staged file and its tail replay to the core's state |
| `StagedRewrite.LiveFileAgreesIff` | `crates/animus-control/src/raft.rs:3473-3484` | in every run the live file recovers to the core's log if and only if no truncation was recorded between a capture and the swap or snapshot record that closes it |
| `StagedRewrite.TruncationBeforeSwapLosesTheLog` | `crates/animus-control/src/raft.rs:5024-5033` | a conflicting entry between capture and swap leaves a live file that replays to a log recovery refuses |
| `StagedRounds.GroupInvNext` | `crates/animus-cp-data/src/lib.rs:12702-12736` | every protocol step, capture, failed round, catch-up, swap and abandoned rewrite keeps the group's invariant |
| `StagedRounds.SwapInstallsTheDurableState` | `crates/animus-cp-data/src/lib.rs:13007-13021` | in every run, with rounds landing and failing meanwhile, a swap installs exactly what the rounds landed so far add up to |
| `StagedRounds.LiveFileAgreesIff` | `crates/animus-cp-data/src/lib.rs:12979-12982` | in every run, cut anywhere in the records in flight, the live file recovers to the log promised if and only if no truncation was recorded while its base was behind; otherwise entries promised are missing from its end |
| `StagedRounds.SentMessageIsRecoveredIff` | `crates/animus-cp-data/src/lib.rs:8914-8921` | for every message that has left a group that rewrites outside the lock: its step has landed, and a crash recovers the log at or after it if and only if no truncation was recorded while the live file's base was behind |
| `StagedRounds.AcknowledgedEntryIsLost` | `crates/animus-cp-data/src/lib.rs:12983-13025` | a run in which an acknowledgement has left and a crash recovers a log that recovery refuses |
| `StagedRounds.UnguardedRecoveryIsUndoneBySwap` | `crates/animus-control/src/persist_round.rs:393-398` | recovering a suspect file while a rewrite is staging would be undone by the swap, unless nothing was added since |
| `StagedRounds.RoundFailsWhileStaging` | `crates/animus-control/src/persist_round.rs:393-398` | a run in which a round fails while a rewrite is staging, after which such a recovery would be undone |
| `CrashedRounds.CrashedLiveFileAgreesIff` | `crates/animus-cp-data/src/lib.rs:12979-12982` | the same after any crash of the live file's bytes, without a hole |
| `PersistRound.GatedOuts.Push` | `crates/animus-control/src/persist_round.rs:447-456` | the batch goes to the end, empty ones are dropped, and order by round is kept |
| `PersistRound.GatedOuts.Release` | `crates/animus-control/src/persist_round.rs:470-478` | what leaves and what stays make up what was held, in arrival order, and exactly the rounds up to the watermark leave |
| `PersistRound.DrainIsComplete` | `crates/animus-control/src/raft.rs:2063-2085` | a drain yields something exactly when the core is dirty, and brings what was drained up to the core's state |
| `PersistRound.Core.DrainPersist` | `crates/animus-control/src/raft.rs:2063-2066` | the drained records replay the last drained state to the current one |
| `PersistRound.Core.WalImage` | `crates/animus-control/src/raft.rs:2096-2113` | the image loop builds the minimal image, which replays to the current state |
| `PersistRound.DrainForRound` | `crates/animus-control/src/persist_round.rs:274-285` | records taken are numbered, in one step, and an empty drain takes no number |
| `PersistRound.RecoverSuspectWal` | `crates/animus-control/src/persist_round.rs:354-421` | only a written whole image moves the watermark; it replays to the core at capture, and what was emitted meanwhile waits for the next round |
| `RoundRuns.InvNext` | `crates/animus-control/src/persist_round.rs:36-80` | every core step, drain, I/O outcome and release keeps the protocol's invariant |
| `RoundRuns.EverySentMessageIsOnDisk` | `crates/animus-control/src/node.rs:1995-2062` | in every run, for every message that claims durability, shipped at once or released: once it has left, its step is on disk if and only if the unrecorded install it owes is, so always if it owes none; a crash that cuts the records in flight anywhere then recovers a state at or after that step |
| `RoundRuns.CrashMayKeepOnlyTheDisk` | `crates/animus-control/src/node.rs:1995-2062` | otherwise a crash can recover the older state that is on disk |
| `RoundRuns.OwedAreInstalls` | `crates/animus-control/src/raft.rs:5472-5501` | whatever a message owes is the version of an unrecorded install of the run |
| `RoundRuns.NothingIsStranded` | `crates/animus-control/src/persist_round.rs:447-478` | every batch waits on a round taken, or on the next one with records pending; with nothing pending, in flight or suspect a release empties the queue |
| `RoundRuns.GatesNeverGoBack` | `crates/animus-control/src/persist_round.rs:447-456` | gates along a run never decrease, so the ordering assertion on the queue always holds |
| `RoundRuns.ReleasesKeepArrivalOrder` | `crates/animus-control/src/persist_round.rs:470-478` | releases in sequence, then what is held, are all held messages in arrival order |
| `RoundRuns.ShippedAtOnceIff` | `crates/animus-control/src/persist_round.rs:247-256` | a message shipped at once is covered by the disk if and only if no installed snapshot that was never recorded is still off it |
| `RoundRuns.RecordedInstallsExemptNothing` | `crates/animus-control/src/raft.rs:5472-5501` | where every install is recorded and rewrites are made under the lock, every message that has left is on disk |
| `CrashedRounds.CrashedFileKeepsSentMessage` | `crates/animus-control/src/persist.rs:442-474` | after any crash of the file's bytes, what is recovered is the version on disk and what is left of the records in flight; without a hole it is at or after the step of every message that has left and owes nothing |
| `RoundRuns.InstallReplyLeavesEarly` | `crates/animus-control/src/raft.rs:5488-5493` | in the control plane the reply to a completed install leaves at once, and a crash then recovers the state before it |
| `RoundRuns.HeldReplyLeavesEarly` | `crates/animus-control/src/raft.rs:5488-5493` | made while a round is in flight, the reply is held for that round and leaves when it lands, still before the install is on disk |
| `PersistLoop.LoopInvNext` | `crates/animus-control/src/node.rs:3778-3859` | an append or a recovery is always the loop's own persist future |
| `PersistLoop.Progress` | `crates/animus-control/src/node.rs:1851-1866` | from every state of every run that is not stuck, the loop's and compaction's own guards lead, with a disk that works, to an empty queue within five steps |
| `PersistLoop.StuckForever` | `crates/animus-control/src/node.rs:2574-2580` | once the file is suspect and an install owes a rewrite with no persist future running, no round ever lands and nothing waiting leaves, while the persist arm is always ready |
| `PersistLoop.InstallDuringFailedRewriteIsStuck` | `crates/animus-control/src/node.rs:2620-2650` | a run into that state: an install arrives during a rewrite that runs out of space |
| `PersistLoop.TheArmDoesNotSleepOnWork` | `crates/animus-control/src/persist_round.rs:526-552` | with messages held and nobody writing, the persist arm is ready, the loop starts a round, or compaction owes a rewrite it may make |
| `DeltaRing.DeltaRing.EvictOverBudget` | `crates/animus-control/src/delta_ring.rs:107-117` | the oldest go only while over budget, and the last one stays |
| `DeltaRing.DeltaRing.Push` | `crates/animus-control/src/delta_ring.rs:99-117` | the window is the end of the history, its bytes are counted exactly, and it is within budget or a single entry |
| `DeltaRing.DeltaRing.WritesSince` | `crates/animus-control/src/delta_ring.rs:132-153` | answers exactly when the range is empty or covered, with the writes of every command ever pushed in the range, in order |
| `DeltaRing.CoveredRangeIsWhole` | `crates/animus-control/src/delta_ring.rs:119-153` | a covered range of the window is that range of the whole history |
| `MetadataModel.WriteSetsItsKey` | `crates/animus-control/src/mirror.rs:834-1092` | an installed write sets its own key's row and no other |
| `MetadataModel.SameRowsSameMetadata` | `crates/animus-control/src/mirror.rs:45-62` | metadata is determined by its rows |
| `KeyWrites.CarriesFolds` | `crates/animus-control/src/mirror.rs:834-839` | writes that state new rows and cover every change fold the old metadata to the new, in any order and with any repetition |
| `KeyWrites.RebuildIsFold` | `crates/animus-control/src/mirror.rs:786-794` | rebuilding from the last-writer-wins engine, in any scan order, is folding the whole stream, if no counter is removed |
| `KeyWrites.RemovedCounterDiffers` | `crates/animus-control/src/mirror.rs:998-1003` | a removed counter tells the two apart |
| `KeyWrites.RebuildFromEngine` | `crates/animus-control/src/mirror.rs:751-783` | empty rebuilds to the default, no version row is pre-baseline, version 1 is folded, any other is refused by name |
| `Mirror.CutoverCovers` | `crates/animus-control/src/mirror.rs:292-329` | a cutover's writes cover every row it changes: the parent's, both children's, their lineage, policies and placements |
| `Mirror.DropTableTabletsCovers` | `crates/animus-control/src/mirror.rs:343-354` | a table drop's writes cover the tablets, policies, backfill rows and placements that go, found before apply |
| `Mirror.DropTableIndexCovers` | `crates/animus-control/src/mirror.rs:355-365` | an index drop's writes cover the schema and this table's backfill rows only |
| `Mirror.DeleteBackupCovers` | `crates/animus-control/src/mirror.rs:591-599` | a backup delete's writes cover the backup, its progress rows and its tag |
| `Mirror.RemoveMemberCovers` | `crates/animus-control/src/mirror.rs:450-459` | a member removal's writes cover everything recorded of the node |
| `Mirror.RegisterNodeCovers` | `crates/animus-control/src/mirror.rs:485-508` | a registration's writes cover the claim, the member row if there is one, and the capacity it filled |
| `Mirror.ExpireStreamShardsCovers` | `crates/animus-control/src/mirror.rs:515-536` | an expiry's writes cover every shard marked or removed |
| `Mirror.ConvertTableToGlobalCovers` | `crates/animus-control/src/mirror.rs:401-415` | a conversion's writes cover the schema and the pinned policy of every tablet of the table |
| `Mirror.BeginRestoreCovers` | `crates/animus-control/src/mirror.rs:618-632` | a restore's writes cover the minted tablet, the moved counter and its own row |
| `Mirror.BeginImportCovers` | `crates/animus-control/src/mirror.rs:652-664` | an import's writes cover the minted tablet, the moved counter and its own row |
| `Mirror.CommandCovers` | `crates/animus-control/src/mirror.rs:167-692` | for every modelled command, every changed row is written |
| `Mirror.DerivedCarries` | `crates/animus-control/src/mirror.rs:167-692` | for every modelled command, each derived write states a new row, none removes a counter, and every change is covered |
| `MirrorTask.CommandKeepsIds` | `crates/animus-control/src/meta.rs:4195-4498` | no command reuses a tablet id, live, reserved for a split, or retired by one; every command that mints ids is modelled |
| `MirrorTask.CutoverReadsLiveTabletsIff` | `crates/animus-control/src/mirror.rs:309-316` | mirroring a cutover finds the tablet of every lineage row it reads if and only if every earlier row naming the parent is of a live tablet |
| `MirrorTask.ReusedParentIdBreaksTheMirror` | `crates/animus-control/src/mirror.rs:309-316` | a lineage row left by an earlier tablet of the parent's id would leave it without a tablet to read |
| `MirrorTask.FreshCutoverHasTwoChildren` | `crates/animus-control/src/mirror.rs:293-300` | where ids are never reused, the rows read are exactly the two children's, and live |
| `MirrorDerive.MirrorChildren` | `crates/animus-control/src/mirror.rs:309-329` | the rows of every child, each read from a live tablet |
| `MirrorDerive.MirrorShards` | `crates/animus-control/src/mirror.rs:515-536` | marked shards are put and removed ones tombstoned |
| `MirrorDerive.MirrorPolicies` | `crates/animus-control/src/mirror.rs:410-414` | the policy of every tablet of the table that has one |
| `MirrorDerive.DeriveWrites` | `crates/animus-control/src/mirror.rs:167-692` | the pushed writes are exactly the derived ones |
| `MirrorDerive.MirroredMetadata.ApplyAndDerive` | `crates/animus-control/src/mirror.rs:167-692` | the metadata is applied in place, folding the derived writes onto the old one gives it, and a rejected or no-op command derives none |
| `MirrorDerive.MirroredMetadata.Install` | `crates/animus-control/src/mirror.rs:834-839` | a received write changes its own row and no other; removing a counter or naming a format version changes nothing |
| `Watch.RingAnswersAreTruthful` | `crates/animus-control/src/node.rs:1007-1021` | whatever a ring answers, even one fed or cleared after the index was read, is that range of the common history |
| `Watch.RemoteMirror.Observe` | `crates/animus-node/src/control_handle.rs:362-389` | a full reply is installed only if it is no older, as the watcher's step says |
| `Watch.RemoteMirror.ObserveDelta` | `crates/animus-node/src/control_handle.rs:416-452` | a delta is installed write by write only onto the state it was asked for, as the watcher's step says |
| `Watch.InvNext` | `crates/animus-control/src/node.rs:2437-2453` | commits, each of the four publications of a batch, evictions, installs, restarts, each read of a request, and late, repeated or lost replies keep the copy equal to the one last read with every write since its watermark |
| `Watch.FoldsMeetIff` | `crates/animus-control/src/mirror.rs:834-839` | the same writes bring two metadata values together if and only if they write every row in which the two differ |
| `Watch.WatcherAgreesIff` | `crates/animusd/src/schema.rs:117-123` | after any run the copy is the metadata at the watcher's own mark if and only if every row changed between the two reads of the last full reply installed has been written again since |
| `Watch.WatcherAgrees` | `crates/animusd/src/schema.rs:117-123` | so it is whenever both reads fell on the same applied index |
| `Watch.NewerCopyHeals` | `crates/animus-control/src/node.rs:2437-2453` | a copy published ahead of its watermark is exact once the mark has reached it, after any run |
| `Watch.CommandBetweenReadsIsMissed` | `crates/animusd/src/schema.rs:117-123` | a run of one replica in which a command lands between the two reads and leaves the watcher at an index whose metadata it does not have |
| `CommandHistory.AfterAllIdsFresh` | `crates/animus-control/src/meta.rs:4195-4498` | along any list of commands no tablet id is used twice |
| `CommandHistory.HistoryCutoverReadsLiveTablets` | `crates/animus-control/src/mirror.rs:309-316` | so wherever in a history a cutover is applied, the tablets its mirror looks up are its two children, and live |
| `CommandHistory.HistoryIsMetadata` | `crates/animus-control/src/node.rs:2386-2404` | folding the pushed writes up to an index is applying the commands up to it |
| `CommandHistory.WatcherHoldsLeaderMetadata` | `crates/animus-control/src/node.rs:2370-2455` | a watcher of any command history holds the leader's own metadata at its mark if and only if what the commands between the two reads changed has been written again since, and so whenever both reads fell on one index |
| `CommandHistory.RebuildHoldsLeaderMetadata` | `crates/animus-control/src/mirror.rs:751-794` | whatever batches the apply task merged, each closed by the version row, and whatever the scan order, the version dispatch answers with the metadata of the whole command history |
| `CommandHistory.SeedMetadata` | `crates/animus-control/src/node.rs:2174-2207` | a restarted node seeds its metadata with that of the whole command history, without error |
| `CommandHistory.UnversionedEngineIsRefused` | `crates/animus-control/src/mirror.rs:757-776` | the same rows without the version row are refused as pre-baseline |

## Left out

- Raft's own rules: elections, replication, commit and the choice of what to send; a core step is any emission of log records.
- Failures tolerated while a node is being torn down: the round they belong to would be completed by a later one, and nothing is shipped by then.
- The holding back of a snapshot install until the engine has it, and the engine's own durability; the round protocol sees an install only as an unrecorded change.
- Wakers, the async runtime and memory orderings: the lock keeps which task would be woken, nothing more.
- Byte encodings of keys and rows, and the JSON text of records.
- The remaining metadata commands (repair settling, retargeting, schema replacement, per-table settings, multi-region replicas, the end of restores and imports, exports, credentials, PITR segments, version finalisation): each writes rows the command or its own row names, or one policy per tablet, as modelled arms do, and none mints a tablet id.
- The growth-node overlay, which makes a node answer watchers with metadata it mirrors itself.
- The tablet index, placement revision and rebalance cache, which metadata equality ignores.
- The shared WAL's own writer task and its error handling; its file is covered as a framed log of tagged records.
- Directory-entry durability of a file created by append and never synced.
- `crates/animus-cli`, the rest of `animus-bench`, the failure detector, the website and the fuzz harness: plumbing, or too small to carry a hard property.
- StagedRewrite.LiveFileAgreesIff: has no failed rounds, which StagedRounds.LiveFileAgreesIff has; it compares log entries, indexes, term and vote, not the snapshot's membership, which an older base states less of.
- KeyWrites.RebuildIsFold: for streams that remove no counter; removing one is ignored by the copy and not by the engine, and no command does it.
- FairLock.Progress: gives a run to every waiter's grant, not that the scheduler takes it.
- PersistLoop.StuckForever: `flush`, called on a graceful shutdown, is not among the steps; it would recover the file.
- PersistLoop.Progress: gives a run with a disk that works, not that the scheduler takes it.
- StagedRewrite.StagedFileIsExact: has no failed rounds; StagedRounds.SwapInstallsTheDurableState has them.
- StagedRounds.LiveFileAgreesIff: compares log entries, indexes, term and vote, not the snapshot's membership, which an older base states less of.
- StagedRounds.SentMessageIsRecoveredIff: the same comparison of logs.
- CommandHistory.RebuildHoldsLeaderMetadata: the applied-index row of each batch, which a rebuild ignores, is not among the engine's rows.

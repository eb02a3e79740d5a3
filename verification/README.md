# A verified model of the concurrent key-value store

This project models the durable storage engine of the key-value store: the write-ahead
log with its checksummed binary format and group commit, the snapshot file, the store of
64 shards, its background checkpoints, saves and compactions, and recovery after a crash.
It is written for Dafny 4.11; `dafny verify dfyconfig.toml` checks all of it.

The layers, each stated in terms of the one before:

- **Bytes.** `Bytes`, `Crc`, `Record`, `Replay`, `ReplayLaws`, `ReplayLoop`: little-endian
  fields, CRC-32, headers, frames patched in place, the record parser, and the replay loop
  over arbitrary bytes. `LegacyLog` and `BadTails` say what replay makes of version 2 logs and
  of every kind of bad frame behind a good log; `Formats` writes the formats out byte by byte.
- **Objects.** `Wal` (the class `WriteAheadLog`), `Opening`, `Snapshot` (the class
  `SnapshotFile`), `Recovery`, `Checkpoints`, `ShardedStore` (the class `KVStore`): what each
  method does to file, memory and counters, with I/O failures as parameters. `RefusedCuts`
  follows the log object past a truncation that it refuses, and `CommandLine` the objects
  through the start of the program.
- **Protocols.** `GroupCommit`: submitters and the ordered writer as a step system.
  `Engine`: every foreground call, the writer, checkpoints, saves, compactions, process
  deaths and power losses as one step system; `EngineInv`, `EngineCalls`, `EngineWriter` and
  `EngineRestart` prove its invariant event by event, over the histories of `Histories`.
  `Refinement` and `Restarts` tie the objects to the step systems. `Deadlock`, `LockProgress`
  and `LockUse` treat the locks of the whole system, and `LockOwners` those of `Engine`.
- **Promises.** `Durability`, `Guarantees`, `GuardedRuns`, `Captures`, `Linearizability` and
  `Provenance` state what every run promises; `Limits`, with the runs of `Scenarios` and the
  byte-level laws of `OldLogs`, shows that the conditions in them cannot be dropped, and
  `Explanations` which recovered maps a history explains.
  `TakenBack` says what a power loss may take back, and `SeenReads`, on `OrderlyRuns` and
  `Vouching`, when what a read has returned stays.

## Results

The main theorem is `Guarantees.RecoveryRebuildsHistory`. Take any interleaving of Set and
Delete calls, background checkpoints, saves, compactions and log failures (captures after
a failure or on an unsynced truncation included), over any number of earlier process deaths
and power losses in any order, and crash at any step: inside a frame, between two steps of
publishing a snapshot, or between publishing and truncating. Recovery from whatever the two
files then hold succeeds. It rebuilds the map of a set of requests of one history, applied in
the order of that history. Every acknowledged request, hence every call that returned, is in
that set; no request is in the history twice; and each is a call that some thread really began
(`Provenance.HistoryIsGenuine`). `Guarantees.RealTimeOrder` adds that the order never changes
again and respects real time.

Two conditions stand in these statements. Both are checks on the two files found at a restart:

- The theorem has one condition, on one kind of crash. If a power loss undoes a truncation and
  brings back the old log under a snapshot of the log that followed it, the snapshot's offset
  must be the end of a record of the old log, or nothing must be read there
  (`Guarantees.Clear`). `Limits.ValueReadAsRequest` is a run of the code, from an empty store and
  without a failed write, after which the offset falls inside an old value and recovery applies
  a Set that no call made. `Explanations.BroughtBackIsRightIff` is the exact condition, wherever
  the offset falls: the last operation read on each key is that of a request of the history
  that no acknowledged one on the key follows, or a deletion where none is acknowledged.
  `OldLogs.HarmlessIffNoFrame` says exactly when an offset inside a value is harmless for every
  value of that size, whatever records follow; `OldLogs.HarmlessIffNoRoom` is the case of the
  last value, and `OldLogs.ReadAsRecord` says that any operation whose frame fits is applied for
  some value.
- A run goes on after a restart only if the snapshot's offset lies within the log found, where
  a record ends (`Engine.Aligned`). The recovery itself is right also where this check fails,
  beyond the end of the log; only what is logged after an unchecked restart can be lost.
  `Recovery.RestartCheckIsExact` shows that the check is exactly what is needed there, and
  `Limits.UncheckedRestartLosesWrite` is a run of the code in which an acknowledged write is
  lost without it. Only a power loss can make the check fail
  (`GuardedRuns.ProcessDeathAligned`).

`GuardedRuns.GuardedRecovery` removes both at the source: in every run whose saves and
checkpoints find the log synced to its end (compactions need no guard, nor does the
Buffered policy), every crash is recovered from with no further condition.
`GuardedRuns.GuardedAfterWrite` shows that the guard holds by itself once a write has been
acknowledged since the last restart and the log has not failed, and
`GuardedRuns.UnguardedIsUnsafe` that without it some power loss leaves files that fail the
check.

`Linearizability.Linearizable` says that the running store, reads included, answers like one
map on which every write acts at its acknowledgement and every read where it looks; restarts
keep every acknowledged write. `Linearizability.ReturnedActedOnce` says that every call that
returned acted exactly once; `Linearizability.ActsWithinCall` and
`Linearizability.DeletionAnswers` place each write inside its call and give Delete's answer.

Reads are outside that durability: a read may return a write that was never acknowledged and
that the next power loss takes back. `Limits.ReadAndTakenBack` is such a run: a write reaches
the file, the process dies, the restarted store holds it, and a power loss that passes the
restart check leaves nothing. The cause is that opening a log syncs its directory and not the
file. `TakenBack.KeptIffSafe` is the exact condition, for every state, snapshot and record:
every power loss on the current log keeps the record if and only if it is past the snapshot's
offset and within the synced length, or the snapshot holds it and the log has no older record
on its key past that offset. `TakenBack.SettledByWrite` adds that one acknowledged write after
the restart, the condition under which `GuardedRuns.GuardedAfterWrite` finds captures guarded,
settles it for every record of the log, and `TakenBack.KeptIffSafeFromAll` extends the condition
to truncated logs that may come back. `SeenReads.ReadsStay` is the durability of reads: if
every read finds the records in effect synced and no rename or truncation pending, and no
power loss brings a truncated log back under a later snapshot, then all that was in effect at
a read is in effect after every later restart; and by `SeenReads.SeenStays` a read at such a
point is safe whatever happens afterwards. Conversely, where a record in effect is not safe,
some power loss takes it back (`TakenBack.UnsafeIsTakenBack`, `SeenReads.SettledIsSafe`).

`LockProgress.NeverStuck` is deadlock freedom: in every reachable state with an unfinished
operation some thread or the log's writer can move, waits for an acknowledgement under a shard
lock included. `LockUse.NeverTogether` is what the same locks achieve: a write, from before its
append until memory has changed, is never at work together with anything that looks at or
changes the same shard, and no two operations on the snapshot file are.

Other places where the code does less than one might expect. The model follows the code, and
the exact condition is proved where one is named:

- Replay that starts inside a file accepts any nonzero first sequence.
  `ReplayLaws.ReplayFromBoundary` says exactly when this differs from a replay from 0.
- A power loss may take back requests that were never acknowledged, even if an earlier
  restart after a process death had found them in the log and reads have returned them
  (`Limits.ReadAndTakenBack`; exactly when: `TakenBack.KeptIffSafe`).
- After a write that failed part-way, saves and checkpoints throw, because the log's stream
  is bad; compactions go through (`Engine.CouldCopy`, `Limits.TornOffset`).
- Saving accepts fields up to 4 GiB but loading refuses fields over 64 MiB:
  `Snapshot.LoadSaved` is an exact case split. `Snapshot.LoggedStateFits` shows that states
  built from logged writes never meet the limit.
- `TruncateTo` at an offset that is not a record boundary throws only after it has cut the
  file; `Wal.AcceptedCutsAreBoundaries` says which offsets are accepted. The log then goes on
  acknowledging appends behind the torn frame. `RefusedCuts.CutThenAppend` shows that they are
  not replayed if they do not fill the gap.
- The command line program recovers without truncating a bad tail, after which appends are
  refused. `CommandLine.StartThenSet` says exactly when: on a log that was cut anywhere but
  where a record ends. In `Engine` a restart truncates, as `ReplayFromAndTruncate` does.
- `LoadSnapshot` with no snapshot file empties the store (`ShardedStore.KVStore.LoadSnapshot`).
- A snapshot that is there but cannot be loaded stops the start of the store, whatever the log
  holds; one of fewer than four bytes counts as absent (`Snapshot.TornSnapshot`,
  `ShardedStore.KVStore.Startup`).
- A checkpoint request that a save or compaction cancels before it fails is made again only if
  the count of writes was still below 1000 (`Checkpoints.CancelledRequest`).
- A version 2 log cut within its first four bytes is refused if those bytes happen to start the
  version 3 magic; every other cut is read (`LegacyLog.TornLegacyLog`).

## Model

| member | source | states |
|---|---|---|
| Bytes.DecodeEncode | src/persistence/wal.cpp:77-99 | Decoding the encoding of any number that fits the width gives the number back. |
| Bytes.EncodeDecode | src/persistence/wal.cpp:77-99 | Encoding what was decoded from any bytes gives the identical bytes back. |
| Bytes.AppendLE | src/persistence/wal.cpp:77-87 | The shifting loop appends exactly the little-endian bytes of the value. |
| Bytes.PatchLE | src/persistence/wal.cpp:412-418 | Patching a field in place replaces exactly its bytes and leaves every other byte of the buffer alone. |
| Bytes.ConsumeLE | src/persistence/wal.cpp:89-99 | A field is read, and the cursor moves, exactly when the whole field is there. |
| Bytes.ConsumeBytes | include/persistence/binary_io.h:138-146 | A byte range is read, and the cursor moves, exactly when all of it is there. |
| Crc.Crc32IsBitSerial | src/persistence/wal.cpp:101-122 | The byte-wise checksum equals the bit-at-a-time CRC of section 8 of RFC 1952 on every byte sequence; the two definitions share nothing. |
| Crc.CrcResidue | src/persistence/wal.cpp:116-122 | Any bytes followed by their own checksum have the checksum 0x2144DF1C. |
| Crc.CrcOfDigits | src/persistence/wal.cpp:116-122 | The checksum of the digits 1 to 9 is 0xCBF43926. |
| Crc.MakeTable | src/persistence/wal.cpp:101-112 | The nested loops build the table whose entry i is i shifted eight times through the reflected polynomial. |
| Crc.TableCrc | src/persistence/wal.cpp:116-122 | With that table, the table-driven loop computes that checksum of any byte sequence. |
| Crc.BurstChangesCrc | src/persistence/wal.cpp:116-122 | Any change confined to four consecutive bytes of a sequence of any length changes its checksum. |
| Crc.OneByteChangesCrc | src/persistence/wal.cpp:116-122 | Changing any one byte of a sequence of any length changes its checksum. |
| Record.ParseRecordBytes | src/persistence/wal.cpp:201-269 | The cursor walk returns what the parser specification says for all bytes, including every malformed case. |
| Record.ParsePrinted | src/persistence/wal.cpp:201-269 | Parsing a printed record gives back the operation and its sequence, for every bounded operation. |
| Record.PrintParsed | src/persistence/wal.cpp:201-269 | Whatever record the parser accepts, printing the result gives the identical bytes. |
| Record.ParseLegacyPrinted | src/persistence/wal.cpp:201-269 | A version 2 payload parses to its operation, with sequence 0. |
| Record.PrintLegacyParsed | src/persistence/wal.cpp:201-269 | Whatever is accepted as a version 2 record is the payload of what was parsed. |
| Record.BuildPayload | src/persistence/wal.cpp:564-595 | An operation is refused exactly when its record would exceed 64 MiB; otherwise the payload is its printed form. |
| Record.PrepareFrame | src/persistence/wal.cpp:389-404 | The prepared frame is length, zeroed checksum and sequence, payload. |
| Record.FinalizeFrame | src/persistence/wal.cpp:406-419 | Patching sequence and checksum in place turns a prepared frame into the frame of its operation. |
| Record.ApplyAppend | src/persistence/wal.cpp:271-279 | Applying two runs of records one after the other is applying their concatenation. |
| Record.ReplayAbsorbs | src/persistence/wal.cpp:271-279 | Replaying a log over a map that already contains its first part gives the same map; replaying all of it again is a no-op. |
| Replay.HeaderReadsBack | src/persistence/wal.cpp:124-152 | A file that starts with a printed header passes the header check with its generation. |
| Replay.HeaderWritesBack | src/persistence/wal.cpp:124-152 | Whatever header passes the check is the printed header of the generation it carries. |
| Replay.ScanShared | src/persistence/wal.cpp:772-836 | Two files that agree up to a record boundary replay the same records up to it. |
| Replay.ScanTruncated | src/persistence/wal.cpp:772-836 | Cutting where a scan stopped and scanning again gives the same records with a clean end. |
| Replay.AcceptedIsPrinted | src/persistence/wal.cpp:772-836 | The bytes of whatever frames replay accepts are exactly what the writer prints for them. |
| ReplayLaws.TornWrite | src/persistence/wal.cpp:725-839 | A written log cut at any byte replays exactly its whole frames, stops at the last boundary, and reports CleanEof, InvalidHeader or PartialRecord by where the cut lies. |
| ReplayLaws.TornReplay | src/persistence/wal.cpp:725-839 | The same for replay from any record boundary of the cut log. |
| ReplayLaws.FrameAt | src/persistence/wal.cpp:406-429 | The (i+1)-th record of a log is the frame with sequence i+1 between its two boundaries. |
| ReplayLaws.WholeLog | src/persistence/wal.cpp:725-839 | An uncut log replays to all its operations, with its generation, and with last sequence equal to their number. |
| ReplayLaws.GoodPrefix | src/persistence/wal.cpp:725-839 | For arbitrary bytes with a valid header, the prefix replay accepted is a written log of the operations it reported. |
| ReplayLaws.CleanIffWritten | src/persistence/wal.cpp:725-839 | A nonempty version 3 file replays cleanly if and only if it is a log that the writer could have produced. |
| ReplayLaws.TruncationFixedPoint | src/persistence/wal.cpp:841-850 | For arbitrary bytes, cutting at the last good offset and replaying again gives the same operations with CleanEof. |
| ReplayLaws.AppendAfterTruncation | src/persistence/wal.cpp:841-850 | After truncation, later appends replay as the good prefix followed by the new operations. |
| ReplayLaws.BurstCorruption | src/persistence/wal.cpp:790-809 | Any change confined to four consecutive bytes of a frame's checksum, or of its record, leaves exactly the earlier records and reports ChecksumMismatch at that frame. |
| ReplayLaws.OneByteCorruption | src/persistence/wal.cpp:790-809 | Changing any one byte of a frame's checksum or record leaves exactly the earlier records and reports ChecksumMismatch at that frame. |
| ReplayLaws.ReplayFromBoundary | src/persistence/wal.cpp:772-836 | Replay from the k-th boundary is the rest of the full replay if and only if the record there is not out of sequence. |
| LegacyLog.TornLegacyLog | src/persistence/wal.cpp:725-839 | A version 2 log cut at any byte and replayed from 0 or any boundary gives exactly the whole frames from there on, cleanly exactly if the cut is a boundary, unless the cut leaves the start of the version 3 magic. |
| LegacyLog.WholeLegacyLog | src/persistence/wal.cpp:725-839 | A whole version 2 log replays to exactly its operations, with a clean end. |
| LegacyLog.CleanIffLegacy | src/persistence/wal.cpp:725-839 | A file that does not start like version 3 replays cleanly if and only if it is a version 2 log of what is replayed. |
| BadTails.AfterGoodLog | src/persistence/wal.cpp:772-836 | Replay of a file that starts with a written log applies the log and then whatever the scan makes of the rest. |
| BadTails.BadLength | src/persistence/wal.cpp:784-788 | A length of zero or above the limit behind a good log stops replay there with InvalidLength, whatever follows. |
| BadTails.BadOpcode | src/persistence/wal.cpp:219-222 | A well-framed record with another opcode stops it with InvalidOpcode. |
| BadTails.ExtraBytes | src/persistence/wal.cpp:251-266 | A well-framed record with bytes behind its end stops it with InvalidPayload. |
| BadTails.MissingBytes | src/persistence/wal.cpp:207-250 | A well-framed record cut at any byte stops it with PartialPayload. |
| BadTails.OutOfSequence | src/persistence/wal.cpp:820-829 | A whole frame with any other sequence than the next stops it with InvalidSequence. |
| BadTails.BadHeader | src/persistence/wal.cpp:750-758 | A file with the magic and any header but the printed one of its generation gives InvalidHeader from every offset, with nothing applied and the generation as found. |
| BadTails.InsideHeader | src/persistence/wal.cpp:750-758 | An offset inside the header is refused on every log. |
| BadTails.PastTheEnd | src/persistence/wal.cpp:766-786 | From its end on a log replays nothing and ends cleanly at the offset. |
| Formats.HeaderBytes | src/persistence/wal.cpp:124-131 | The header of a log, byte by byte. |
| Formats.SetBytes | src/persistence/wal.cpp:564-581 | The record of a Set, byte by byte. |
| Formats.DeleteBytes | src/persistence/wal.cpp:583-595 | The record of a Delete, byte by byte. |
| Formats.FrameBytes | src/persistence/wal.cpp:389-419 | The frame of a Delete, with its length and checksum, byte by byte. |
| Formats.OneEntryBytes | src/persistence/snapshot.cpp:126-146 | A snapshot file, byte by byte. |
| Formats.RecordLimit | src/persistence/wal.cpp:154-161 | The log accepts exactly the operations whose record, sequence included, has at most 67108864 bytes. |
| Formats.FieldLimits | src/persistence/snapshot.cpp:73-119 | A snapshot is loaded with fields of up to 67108864 bytes and saved with fields below 4294967296. |
| ReplayLoop.ParseHeader | src/persistence/wal.cpp:133-152 | The header reader accepts exactly the valid headers and returns their generation. |
| ReplayLoop.ReadFrameBytes | src/persistence/wal.cpp:772-818 | Reading one frame classifies arbitrary bytes as the specification does. |
| ReplayLoop.ReplayRecords | src/persistence/wal.cpp:772-836 | The replay loop applies exactly the accepted records to the map, in order, and stops where the specification stops. |
| ReplayLoop.ReplayFromDetailed | src/persistence/wal.cpp:725-839 | Replay from any offset of any file returns the specified report and map, and throws exactly for offsets beyond the stream limit. |
| Wal.CountBatch | src/persistence/wal.cpp:480-513 | Counting a batch adds one to the number of batches and its size to the number of records in the histogram. |
| Wal.OpenedOk | src/persistence/wal.cpp:283-332 | What an open derives from arbitrary bytes is a consistent description of them. |
| Wal.RecutOk | src/persistence/wal.cpp:689-704 | What a truncation derives from the cut file is a consistent description of it. |
| Wal.PartialEmission | src/persistence/wal.cpp:421-429 | Whatever part of a batch reaches the file, the acknowledged frames are intact before it. |
| Wal.ReopenRebuilds | src/persistence/wal.cpp:283-332 | Reopening a log that has not failed finds its operations, its next sequence and, unless the file is empty, its generation; an empty file starts again at generation 1. |
| Opening.OpenedCut | src/persistence/wal.cpp:296-332 | What an open makes of a version 3 log cut at any byte: start over, refuse, or go on behind the last whole record once the rest is cut off. |
| Opening.CurrentIff | src/persistence/wal.cpp:296-332 | A version 3 log cut at any byte can be appended to as it is found if and only if nothing is left or the cut is where a record ends. |
| Opening.OpenedWhole | src/persistence/wal.cpp:296-332 | A log closed properly is taken up where it was left. |
| Opening.OpenedLegacy | src/persistence/wal.cpp:325-331 | A version 2 log opens as such and needs recovery exactly if it was cut inside a record. |
| Wal.WriteAheadLog.constructor | src/persistence/wal.cpp:283-332 | Opening any file rebuilds generation, next sequence and the recovery flags so that the object invariant holds. |
| Wal.WriteAheadLog.Open | src/persistence/wal.cpp:283-350 | An open is refused exactly for a bad batch limit or exhausted sequences. |
| Wal.WriteAheadLog.FinalizeBatch | src/persistence/wal.cpp:497-505 | The frames of a batch get consecutive sequences in batch order; it fails exactly when sequences run out. |
| Wal.WriteAheadLog.Emit | src/persistence/wal.cpp:380-387 | Header if owed, then the frames; a device that stops short leaves a prefix of exactly those bytes. |
| Wal.WriteAheadLog.Put | src/persistence/wal.cpp:492-513 | The file grows by a prefix of the batch's bytes, by all of them exactly if the device takes them; it is synced exactly if the sync is reached and succeeds. |
| Wal.WriteAheadLog.Commit | src/persistence/wal.cpp:492-525 | A batch succeeds exactly when write, fault points and sync do; then it is on the log, synced if the policy syncs, and counted. Otherwise the log is failed for good. |
| Wal.WriteAheadLog.Append | src/persistence/wal.cpp:431-452 | An append succeeds exactly under the stated conditions; then the file is the log of all acknowledged operations. Refused appends change nothing. |
| Wal.WriteAheadLog.ResetStats | src/persistence/wal.cpp:542-546 | Counters return to zero and balance again. |
| Wal.WriteAheadLog.Rotate | src/persistence/wal.cpp:617-656 | Rotation empties the file and starts the next generation at sequence 1; failure before the truncation changes nothing. |
| Wal.WriteAheadLog.TruncateTo | src/persistence/wal.cpp:658-707 | The file is cut, and the object is consistent afterwards, exactly when the cut is accepted; a refused cut past the end leaves the bytes. |
| Wal.WriteAheadLog.ReplayFromAndTruncate | src/persistence/wal.cpp:841-850 | Recovery returns the replayed map, says whether it truncated, and leaves the file cut where the replay from that offset stopped, with the object's view of it; from offset 0 the cut is never refused and leaves a file that replays cleanly to the same operations. |
| Wal.GoodOffsetAccepted | src/persistence/wal.cpp:658-707 | The last good offset of a replay from 0 is always accepted as a truncation point. |
| Wal.AcceptedCutsAreBoundaries | src/persistence/wal.cpp:658-707 | On a written log the accepted truncation points are exactly the record boundaries. |
| RefusedCuts.CutThenAppend | src/persistence/wal.cpp:431-452 | After a truncation inside a record of a clean log has been refused, an append still goes through exactly when the device lets it, and is synced; if its frame does not fill the gap, replay stops before the torn record. |
| RefusedCuts.GapStops | src/persistence/wal.cpp:784-795 | Whatever bytes stand behind a torn frame without filling it, replay gives exactly the records before it and reports PartialRecord. |
| GroupCommit.FormBatch | src/persistence/wal.cpp:480-490 | Every batch is nonempty, within the count and byte limits, and as large as they allow. |
| GroupCommit.BatchIsUnique | src/persistence/wal.cpp:480-490 | The limits leave the writer no choice of how many requests to take. |
| GroupCommit.StepInv | src/persistence/wal.cpp:453-535 | Every action of a submitter or the writer keeps: file order is acceptance order, completions are decided by place in that order, and acknowledged frames are in the synced prefix. |
| GroupCommit.OpenedInv | src/persistence/wal.cpp:283-332 | A log opened on a clean file starts in that invariant. |
| GroupCommit.RunInv | src/persistence/wal.cpp:453-535 | Every run keeps it. |
| GroupCommit.AcknowledgedIsInPlace | src/persistence/wal.cpp:453-535 | In every run, the i-th accepted request, once acknowledged, is the i-th frame of the file with sequence i+1, wholly within the synced prefix if the policy syncs. |
| GroupCommit.UnacknowledgedIsSuffix | src/persistence/wal.cpp:514-533 | Acknowledged requests are a prefix of the accepted ones, so written but unacknowledged records are a suffix. |
| GroupCommit.FailureIsFinal | src/persistence/wal.cpp:456-466 | After the first error no run accepts, writes or acknowledges anything more. |
| GroupCommit.NoneStranded | src/persistence/wal.cpp:514-533 | After a failure the writer can complete every request, and each one that was not acknowledged completes with the error. |
| Snapshot.LoadSaved | src/persistence/snapshot.cpp:73-119 | For every map and iteration order, loading what was saved returns the map and offset, or throws, exactly by whether all fields are within the load limit. |
| Snapshot.TornSnapshot | src/persistence/snapshot.cpp:194-234 | A saved file cut at any byte counts as absent below four bytes and throws otherwise; it never loads. |
| Snapshot.LoggedStateFits | src/persistence/snapshot.cpp:84-119 | Every state built from operations that the log accepts is within the load limit. |
| Snapshot.OtherVersion | src/persistence/snapshot.cpp:208-215 | A snapshot of another version throws, whatever follows. |
| Snapshot.AnnouncedCount | src/persistence/snapshot.cpp:222-233 | The announced count decides: bytes behind the last announced entry are ignored, and too few entries throw. |
| Snapshot.LoadLegacy | src/persistence/snapshot.cpp:216-233 | A snapshot without metadata loads as its entries at offset 0, or throws, exactly by whether all fields are within the load limit. |
| Snapshot.TornLegacy | src/persistence/snapshot.cpp:194-234 | Cut short it counts as absent below four bytes and throws otherwise. |
| Snapshot.DamagedThrows | src/persistence/snapshot.cpp:194-234 | Every saved file that is cut, has another version or a field above the limit throws. |
| Snapshot.Print | src/persistence/snapshot.cpp:126-146 | The writing loop prints the map in some iteration order, or throws exactly when it cannot be encoded. |
| Snapshot.LoadBytes | src/persistence/snapshot.cpp:194-234 | The loading loop returns what the specification says for arbitrary bytes, and replaces the target only on success. |
| Snapshot.SnapshotFile.Save | src/persistence/snapshot.cpp:126-164 | The published file is the old one until the rename and a complete new one after it, whatever step fails, the one after the directory sync included. |
| Snapshot.SnapshotFile.Load | src/persistence/snapshot.cpp:194-234 | Loading leaves the target untouched unless the whole file is good. |
| Snapshot.SnapshotFile.Verify | src/persistence/snapshot.cpp:175-183 | Verification succeeds exactly when the file loads as the given map, count and offset. |
| Snapshot.SnapshotFile.SaveVerified | src/persistence/snapshot.cpp:166-173 | It succeeds exactly when every step does and every field is loadable; then the published file loads as the saved map. |
| Recovery.RecoverTorn | src/main.cpp:33-41 | A snapshot of the first records at offset 0 or the boundary after them, with the log cut anywhere after that boundary, recovers exactly the surviving records. |
| Recovery.DamagedStopsRecovery | src/main.cpp:33-41 | A snapshot that cannot be loaded stops recovery, whatever the log holds. |
| Recovery.NoSnapshotReplaysAll | src/main.cpp:33-41 | Without a snapshot, or with fewer than four bytes of one, all of the log is replayed over an empty map. |
| Recovery.LegacyReplaysAll | src/main.cpp:33-41 | A snapshot without metadata is followed by all of the log. |
| Recovery.RestartCheckIsExact | src/main.cpp:33-41 | For a snapshot at a record boundary and a log cut to its first k records: recovery is right after every further batch of appends if and only if the offset lies within the cut log. |
| Recovery.AcknowledgedWriteSkipped | src/main.cpp:33-41 | Two concrete files for which the log holds two writes and recovery misses the first of them. |
| ShardedStore.MergedAt | src/store/kv_store.cpp:13-44 | A key is in the collected map exactly when it is in its own shard, with that value. |
| ShardedStore.MergedUpdate | src/store/kv_store.cpp:199-235 | Changing a key in its shard changes exactly that key of the collected map. |
| ShardedStore.LowBits | src/store/kv_store.cpp:13-15 | A key's shard is given by the low six bits of its hash. |
| Checkpoints.RequestedIffDue | src/store/kv_store.cpp:207-210 | Over a run of writes a checkpoint is requested at the end if and only if one was at the start or the count passed 1000 on the way. |
| Checkpoints.RequestedAfterCapture | src/store/kv_store.cpp:207-210 | From a capture on: if and only if one was, or there were at least 1000 writes. |
| Checkpoints.CancelledRequest | src/store/kv_store.cpp:138-142 | A cancelled request is made again if and only if the count was below 1000 and reaches it. |
| Checkpoints.RequestsAreEarned | src/store/kv_store.cpp:132-188 | In every run a request comes from a write that completed a count of 1000. |
| Checkpoints.EpochsGrow | src/store/kv_store.cpp:138-142 | Over every run the epoch never goes back, and a cancellation anywhere leaves it larger for good, so that an earlier pass does nothing. |
| Checkpoints.ErrorsStay | src/store/kv_store.cpp:177-181 | The error of a pass is kept over every run. |
| ShardedStore.BackedRecovers | src/main.cpp:33-41 | When log, snapshot and memory belong together, recovery gives exactly the contents of memory. |
| ShardedStore.RestartFindsContents | src/main.cpp:33-41 | The same for the store object: a restart finds what memory holds. |
| ShardedStore.KVStore.constructor | src/store/kv_store.cpp:46-51 | A new store is empty. |
| ShardedStore.KVStore.Get | src/store/kv_store.cpp:214-220 | It returns the value in the one map that the shards hold together, or nothing. |
| ShardedStore.KVStore.Contains | src/store/kv_store.cpp:239-243 | It says whether the key is in that map. |
| ShardedStore.KVStore.Size | src/store/kv_store.cpp:245-252 | The sum of the shard sizes is the size of that map. |
| ShardedStore.KVStore.CollectDataLocked | src/store/kv_store.cpp:31-37 | Collecting gives that map. |
| ShardedStore.KVStore.Mutate | src/store/kv_store.cpp:206-206 | A change in the key's shard is the change of that map. |
| ShardedStore.KVStore.Write | src/store/kv_store.cpp:199-237 | A write goes through exactly if no checkpoint has failed and the log admits it; then log, map and counter change, a checkpoint is requested exactly by the thousandth write, and memory stays recoverable. Otherwise map and counter stay. |
| ShardedStore.KVStore.Set | src/store/kv_store.cpp:199-212 | The map is updated and the write counted if it goes through, and both are unchanged otherwise; recovery would still rebuild the map. |
| ShardedStore.KVStore.Delete | src/store/kv_store.cpp:222-237 | The deletion is logged, the key is gone, and the result says whether it was there; unchanged if the append throws. |
| ShardedStore.KVStore.ClearShards | src/store/kv_store.cpp:40-40 | Every shard is emptied. |
| ShardedStore.KVStore.Clear | src/store/kv_store.cpp:254-259 | Memory is emptied, nothing is logged, and the counter restarts. |
| ShardedStore.KVStore.ReplaceDataLocked | src/store/kv_store.cpp:39-44 | After distributing a map over the shards, collecting gives it back. |
| ShardedStore.KVStore.SaveSnapshot | src/store/kv_store.cpp:271-285 | On success the file loads as the map with the log's end offset, a pending checkpoint is cancelled, and memory stays recoverable. |
| ShardedStore.KVStore.TakeRequest | src/store/kv_store.cpp:146-156 | The checkpoint thread takes up a request exactly if there is one, and notes the epoch. |
| ShardedStore.KVStore.RunCheckpoint | src/store/kv_store.cpp:157-187 | A cancelled request does nothing, a failure is recorded, and success publishes the map with the log's end offset. |
| ShardedStore.KVStore.CompactPersistence | src/store/kv_store.cpp:287-301 | A failed save leaves the log untouched; after a good save memory is recoverable whether or not the rotation succeeds. A pending checkpoint is cancelled in every outcome, and the count restarts exactly on success. |
| ShardedStore.KVStore.LoadSnapshot | src/store/kv_store.cpp:303-313 | Memory becomes the snapshot, or empty without one, or stays if loading throws. |
| ShardedStore.KVStore.ReplayFromWal | src/store/kv_store.cpp:315-323 | Memory becomes the replay over what it held, and the count is the number of records applied. |
| ShardedStore.KVStore.Startup | src/main.cpp:33-41 | Loading and then replaying from the snapshot's offset computes the recovered map; a damaged snapshot stops the start and leaves memory alone, whatever the log; an absent one is followed by the whole log. |
| CommandLine.StartThenSet | src/main.cpp:27-44 | Opening a log cut at any byte, loading and replaying succeeds exactly if recovery does; the first Set then goes through exactly if the log was empty or ended with a record, the device permitting, and otherwise the recovered map stays. |
| Histories.ReplayOver | src/persistence/wal.cpp:271-279 | Replaying records over the map of any saved part of the history, even one that overlaps or skips them, gives the map of a set of requests in the order of the history. |
| EngineInv.QuietWhenHeld | src/store/kv_store.cpp:169-174 | While one thread holds every shard, no request is in flight and memory misses nothing acknowledged, whether or not the log has failed. |
| EngineInv.SaveBoundary | src/persistence/wal.cpp:597-615 | The offset that a save then records is the boundary after every whole record in the file, and after the last acknowledged one if the log has not failed. |
| EngineInv.CopyAllInv | src/store/kv_store.cpp:168-175 | Capturing map and offset keeps the engine's invariant, also after a log failure. |
| EngineInv.RenameInv | src/persistence/snapshot.cpp:152-163 | Making a snapshot visible keeps it. |
| EngineInv.SyncDirectoryInv | src/persistence/snapshot.cpp:152-163 | Making the rename durable keeps it. |
| EngineCalls.BeginInv | src/store/kv_store.cpp:199-204 | Taking the shard lock keeps it. |
| EngineCalls.AppendInv | src/persistence/wal.cpp:431-467 | Submitting, or being refused, keeps it. |
| EngineCalls.WakeInv | src/persistence/wal.cpp:464-466 | Returning from the append keeps it. |
| EngineCalls.MutateInv | src/store/kv_store.cpp:205-206 | Changing memory after the append keeps it. |
| EngineCalls.MutateMemory | src/store/kv_store.cpp:205-206 | Applying a logged operation to memory late gives the same map as applying it in log order. |
| EngineCalls.ReturnInv | src/store/kv_store.cpp:207-212 | Giving the shard lock back keeps it. |
| EngineWriter.WriterInv | src/persistence/wal.cpp:469-535 | Every action of the log's writer keeps it. |
| EngineWriter.WriterOrdered | src/store/kv_store.cpp:203-206 | No record follows one of the same shard that is still missing from memory. |
| EngineRestart.TruncateInv | src/store/kv_store.cpp:295-301 | Rotating the log after a verified snapshot keeps it, also for a failed log. |
| EngineRestart.WholeIffBoundary | src/persistence/wal.cpp:658-707 | The offsets at which a log file ends whole are exactly those at which one of its records ends. |
| EngineRestart.LeftArePaired | src/main.cpp:33-41 | Any log and any snapshot that a crash of either kind leaves belong together if they pass the restart check. |
| EngineRestart.PairRecovers | src/main.cpp:33-41 | Recovery from a log and a snapshot that belong together gives the map of exactly the requests saved or replayed, in the order of the history, also where an undone truncation makes the log overlap the snapshot. |
| EngineRestart.SureSurvive | src/main.cpp:33-41 | Among them is every acknowledged request. |
| EngineRestart.CrashInv | src/main.cpp:33-41 | A process death or power loss followed by recovery keeps the invariant, with what is synced carried over, so that runs go on through any sequence of crashes. |
| Durability.StepInv | src/store/kv_store.cpp:144-323 | Every event of the engine keeps its invariant. |
| Durability.RunInv | src/store/kv_store.cpp:144-323 | Every run keeps it. |
| Durability.InitialInv | src/store/kv_store.cpp:46-51 | A store on an empty disk satisfies it. |
| Durability.EffectsStep | src/store/kv_store.cpp:199-237 | Only the acknowledgement of a request changes the abstract map while the store runs, by that request alone; a crash keeps every acknowledged one. |
| Durability.EffectsRun | src/store/kv_store.cpp:144-323 | Over every run the order of the history and the set of acknowledged requests only grow. |
| Guarantees.RecoveryRebuildsHistory | src/main.cpp:33-41 | The crash theorem described above, also for a snapshot offset beyond the end of the log. |
| Guarantees.RecoveryNeverThrows | src/main.cpp:33-41 | Recovery succeeds on every pair of files a crash may leave. |
| Guarantees.RealTimeOrder | src/store/kv_store.cpp:199-237 | An acknowledged request keeps its place for ever, and calls that begin later come after it, also across crashes. |
| Guarantees.ReadsSeeEffects | src/store/kv_store.cpp:214-220 | A read of a key whose shard no writer holds sees every acknowledged write and no other, also after a log failure. |
| Guarantees.WritesSeeEarlierEffects | src/store/kv_store.cpp:222-237 | A write finds under its key what the effects before its own left, so a deletion reports presence in the abstract map. |
| Guarantees.AllShardsFree | src/store/kv_store.cpp:245-252 | With no shard held by a writer, memory is the abstract map. |
| Guarantees.PublishedOffsetIsBoundary | src/store/kv_store.cpp:158-176 | In every reachable state every snapshot a crash may leave holds the map of a part of the history, its offset is 0 or a record boundary of the current log generation, and whatever acknowledged request it lacks is in the log. |
| GuardedRuns.GuardedRunsAreSafe | src/store/kv_store.cpp:144-323 | If every save and checkpoint finds the log synced to its end, every restart of the run passes its check. |
| GuardedRuns.GuardedRecovery | src/main.cpp:33-41 | In every such run from an empty store every crash, of either kind, is recovered from and keeps every acknowledged request, with no other condition. |
| GuardedRuns.ProcessDeathAligned | src/main.cpp:33-41 | In every reachable state a process death leaves files that pass the restart check. |
| GuardedRuns.GuardedAfterWrite | src/store/kv_store.cpp:169-174 | A capture finds the log synced to its end whenever a write has been acknowledged since the restart and the log has not failed. |
| GuardedRuns.UnguardedIsUnsafe | src/store/kv_store.cpp:271-285 | With a snapshot on stable storage at the end of a log that is not synced to its end, some power loss leaves files that fail the restart check, and a restart on the records left does not always recover what is logged after it. |
| TakenBack.LossReplays | src/main.cpp:33-41 | After any power loss on the current log recovery gives the map of the snapshot's requests with the records from its offset to the last whole one replayed over it; nothing is replayed where the offset lies beyond the log. |
| TakenBack.LeftIff | src/main.cpp:33-41 | A record is in effect after a given power loss if and only if it is replayed, or was saved and no older record on its key is replayed. |
| TakenBack.KeptIffSafe | src/persistence/wal.cpp:333-346 | Every power loss keeps a record, and every one that passes the restart check does, if and only if it is past the snapshot's offset and synced, or was saved and the log has no older record on its key past the offset. |
| TakenBack.BroughtBackLeaves | src/main.cpp:33-41 | A truncated log brought back under a snapshot that fits it leaves a request in effect if and only if it replays it, or the snapshot holds it and not all that it replays on the key is older. |
| TakenBack.KeptIffSafeFromAll | src/persistence/wal.cpp:617-656 | Every power loss after which the restart goes ahead, undone truncations included, keeps a record if and only if it is safe and outlives every log that may come back and fits. |
| TakenBack.UnsafeIsTakenBack | src/persistence/wal.cpp:333-346 | In every reachable state some power loss after which the restart goes ahead takes back a record that is not safe. |
| TakenBack.SettledByWrite | src/persistence/wal.cpp:492-525 | Once a write has been acknowledged since the restart, every power loss keeps an acknowledged or found record if and only if it is past the snapshot's offset or saved. |
| OrderlyRuns.StepOrderly | src/store/kv_store.cpp:144-323 | Every event but a power loss that brings a truncated log back under a later snapshot keeps: the snapshot in place and the log behind its offset hold all that is in effect, and no older record can override it. |
| SeenReads.SettledAfterWrite | src/persistence/wal.cpp:492-525 | After an acknowledged write since the restart the store is settled once no rename is pending. |
| SeenReads.SeenStays | src/store/kv_store.cpp:214-220 | Everything in effect when a read looks at a settled store is in effect after every later restart, whatever happens in between. |
| SeenReads.SettledIsSafe | src/store/kv_store.cpp:214-220 | At a settled point every record in effect is safe from every power loss. |
| SeenReads.ReadsStay | src/store/kv_store.cpp:214-252 | In a run all of whose reads find a settled store no restart takes back what was in effect at an earlier read. |
| SeenReads.ReadsStayFromStart | src/store/kv_store.cpp:214-252 | The same for every run from an empty store. |
| Captures.CaptureIsReplay | src/store/kv_store.cpp:169-174 | In every state that no log failure has marred, a capture copies the replay of exactly the log file's bytes, its offset is their end, and it is what recovery would give from any snapshot a crash may leave. |
| Captures.FailureFree | src/store/kv_store.cpp:144-323 | Runs without a failed write, and in which no truncated log comes back under a later snapshot, stay in those states. |
| Linearizability.Linearizable | src/store/kv_store.cpp:199-252 | The answers of all calls of any run, reads and restarts included, are those of one map acted on one operation at a time. |
| Linearizability.ActsOnce | src/store/kv_store.cpp:199-237 | Over any run a request acts once if it is acknowledged in it, and otherwise never. |
| Linearizability.ReturnedActedOnce | src/store/kv_store.cpp:199-237 | Every call that returned, in a run from an empty store, acted exactly once, through one request. |
| Linearizability.ActsWithinCall | src/store/kv_store.cpp:199-237 | A write acts while its call is waiting for the log, between begin and return. |
| Linearizability.AnswerIsFixed | src/store/kv_store.cpp:222-237 | From its acknowledgement to its change of memory, nothing else changes what memory holds under the key of a write. |
| Linearizability.DeletionAnswers | src/store/kv_store.cpp:222-237 | So a deletion, whenever it looks, answers whether its key was in the one map when it acted. |
| Limits.UncheckedRestartLosesWrite | src/store/kv_store.cpp:271-285 | A run from any empty synced store, event by event: a write lost with its process, a save, a power loss that fails the restart check, and then an acknowledged write that recovery misses. |
| Limits.ReadAndTakenBack | src/persistence/wal.cpp:333-346 | A run from any empty synced store: a write that a restart has found, in a store without locks held, is gone after a power loss that passes the restart check. |
| Limits.TornOffset | src/persistence/wal.cpp:597-615 | The end of a cut log is a record boundary exactly if it replays cleanly; otherwise the last whole record ends before it. |
| Limits.ValueReadAsRequest | src/store/kv_store.cpp:271-301 | A run from any empty synced store, event by event and without a failed write: a write, a compaction whose truncation is not synced, a second write, a save; and a power loss after which recovery gives a map of no set of requests of the history, with a Set that no call made. |
| Limits.ForeignIsWrong | src/main.cpp:33-41 | In every reachable state, if what recovery reads from the log leaves a key that no request of the history writes, the recovered map is the map of no set of requests. |
| Explanations.ExplainedIff | src/main.cpp:33-41 | A map is that of a set of requests of the history with given ones among them if and only if each key is explained by itself: by a request that decides it and comes after all given ones there, or by nothing given where it is absent. |
| Explanations.BroughtBackIsRightIff | src/main.cpp:33-41 | Recovery from a truncated log that is brought back, from any offset, gives the map of a set of requests with all acknowledged ones if and only if the last operation read on each key is accounted for. |
| OldLogs.ReadAsRecord | src/persistence/wal.cpp:772-836 | For every offset inside a value and every operation whose frame fits in the rest of it, some value of that size makes replay from the offset apply that operation. |
| OldLogs.HarmlessIffNoFrame | src/persistence/wal.cpp:772-836 | Replay from an offset inside any value of a log applies nothing for any value of that size if and only if no frame can begin there, within the rest of the value or going on with the bytes behind it. |
| OldLogs.HarmlessIffNoRoom | src/persistence/wal.cpp:772-836 | Replay from an offset inside the last value of a log applies nothing for any value of that size if and only if the smallest frame does not fit behind the offset. |
| Refinement.StepSimulated | src/store/kv_store.cpp:199-237 | Every step of the engine on its one map is a step on 64 shards, and a call changes only the shard that its thread has locked. |
| Refinement.RunSimulated | src/store/kv_store.cpp:13-44 | Over every run the 64 shards together are the one map, and each key is found in its own shard. |
| Refinement.CommitRefines | src/persistence/wal.cpp:492-535 | Committing a batch on the log object, whatever the device does, is a run of the group-commit machine: take, number, write, flush or sync, acknowledge each; or one that fails after any part of that, the sync included. File, synced length, generation and failure agree at its end. |
| Restarts.RestartRefines | src/persistence/wal.cpp:841-850 | Opening the log object on any files a crash may leave that pass the restart check, replaying from the snapshot's offset and truncating, gives exactly the engine's memory and log after the restart: file, synced length, generation, next sequence, operations. |
| Restarts.RotateRefines | src/persistence/wal.cpp:617-656 | Rotating the log object is the engine's rotation. |
| Provenance.HistoryIsGenuine | src/store/kv_store.cpp:199-237 | Every request of the history is a call that was begun, with the same thread and operation. |
| Deadlock.OperationsAreOrdered | src/store/kv_store.cpp:17-29 | Every operation takes locks in one ascending order and waits for the log without holding a lock its writer needs. |
| LockProgress.StepInv | src/persistence/wal.cpp:431-535 | Every step of any thread or the writer keeps that order and accounts for every waiting request. |
| LockProgress.NeverStuck | src/store/kv_store.cpp:132-188 | In every reachable state with an unfinished operation some thread or the writer can move. |
| LockProgress.RunsEnd | src/store/kv_store.cpp:261-301 | Without new operations, every schedule ends after a bounded number of steps. |
| LockProgress.QuietIsFinished | src/store/kv_store.cpp:261-301 | Where no step is possible every operation has finished, all locks are free and no request is waiting. |
| LockProgress.LocksExclude | src/store/kv_store.cpp:17-29 | Over every run a lock held exclusively is held by nobody else. |
| LockUse.OperationsAreGuarded | src/store/kv_store.cpp:132-323 | Every operation holds, at each point of its work, the locks that the work needs: its shard exclusively for a write, in some mode for a read, all shards for whole-store work, the snapshot lock for work on the snapshot file. |
| LockUse.OperationsDoTheirWork | src/store/kv_store.cpp:132-323 | Every operation does its tasks in the source's order: the log before memory, the offset before the copy or after it, the snapshot before the rotation. |
| LockUse.HeldAtWork | src/store/kv_store.cpp:132-323 | So in every state of every run, whatever the interleaving. |
| LockUse.NeverTogether | src/store/kv_store.cpp:199-237 | In every run no write is at work together with another access to its shard or with whole-store work, and no two operations on the snapshot file are at work together. |
| LockUse.OwnersStep | src/store/kv_store.cpp:17-29 | Every step of a thread changes the owners of the shards exactly as the steps of `Engine` do: taking one exclusively gives it an owner, giving it back takes it away, and nothing else changes them. |
| LockOwners.LocksAreExact | src/store/kv_store.cpp:158-237 | In every reachable state of `Engine` a thread holds exactly the locks that its call has taken and not given back; a thread at rest holds none. |

## Left out

- The legacy version 2 log is modelled for replay, opening and truncation, in little-endian order; appending to it is not.
- System calls, file descriptors and retries. A file is a byte sequence with a synced length; power loss keeps a prefix at least that long and does not reorder inside the file.
- Power loss is considered for the Sync and GroupCommit policies; the Buffered policy promises nothing then.
- `ClearPersistence` and in-memory `Clear` are not events of `Engine`: the first is not atomic under a crash and the second is not logged.
- The batching window: when the writer forms a batch is a free choice in the model.
- `WaitForCheckpoints`, and whether a requested checkpoint eventually happens. `RunCheckpoint` models one pass of the loop; waiting on the condition variable is not modelled.
- Wrap-around of the write counter and of the checkpoint epoch.
- Restarts.RestartRefines: excludes restarts that fail the check `Engine.Aligned`, and batch limits above 4096, which an open refuses.
- ShardedStore.KVStore.Write: excludes a store over a legacy version 2 log, and models one thread at a time; interleavings are in `Engine`, which keeps memory as one map and the shards as locks.
- Wal.WriteAheadLog.Append: excludes the legacy version 2 log, which the code appends to, and a log whose truncation was refused inside a record, where the object invariant is gone (`RefusedCuts.CutThenAppend` follows such a log, for cuts past the length field and a frame that does not fill the gap); with GroupCommit it models a batch of one, and queueing and batching are in `GroupCommit`.
- Wal.WriteAheadLog.Open: does not model a file that cannot be opened, inspected or synced.
- Wal.WriteAheadLog.Rotate: does not model a failure to truncate or to reopen the stream; a failing sync afterwards is modelled.
- Wal.WriteAheadLog.TruncateTo: does not model a failure to inspect, resize or reopen the file.
- ShardedStore.KVStore.constructor: excludes a store over a legacy version 2 log.
- ShardedStore.KVStore.Set: excludes a store over a legacy version 2 log.
- ShardedStore.KVStore.Delete: excludes a store over a legacy version 2 log.
- Linearizability.Linearizable: a read is one step under its shard locks; waiting for those locks is in `LockProgress`. A restart may drop an unacknowledged write that a read has returned; `SeenReads.ReadsStay` says when it does not.
- Guarantees.RecoveryRebuildsHistory: for a truncated log that is brought back it requires `Clear`, because recovery can be wrong without it; `Explanations.BroughtBackIsRightIff` is the exact condition there.
- RefusedCuts.CutThenAppend: excludes cuts inside the length field and frames that fill the gap, where the bytes decide what is read.
- CommandLine.StartThenSet: excludes legacy version 2 logs, files that were never a log, and batch limits that an open refuses.
- EngineRestart.CrashInv: excludes going on after a restart that fails the check `Engine.Aligned`, because acknowledged writes can be lost after it.
- Durability.StepInv: excludes the same restarts.
- Durability.RunInv: excludes the same restarts.
- SeenReads.ReadsStay: excludes reads that find a rename or truncation pending or an unsynced record in effect, and the return of a truncated log under a later snapshot.
- Captures.FailureFree: excludes the return of a truncated log under a later snapshot, after which memory is not a replay of the log.
- Copying and moving stores, destructors, fault hooks beyond "the call may throw here", CPU pinning, the command line, parser, benchmarks and scripts.

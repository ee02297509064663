# Verified model of an LSM key-value engine

This project models the storage engine under `kv/` (a log-structured merge tree in the LevelDB design) in Dafny and
proves what it is built to guarantee. Nothing is executed; every statement below is a proof over all inputs, runs or
reachable states. Files are verified together: `dafny verify dfyconfig.toml`.

## How the model is laid out

* **The database as a state machine.** `Database.dfy` has one predicate per atomic step: the steps of group commit
  (log append, each memtable insertion, publishing), the memtable switch, flush and compaction split at the point where
  the manifest is written and the mutex released, trivial moves, snapshots, readers that hold memtables and versions,
  file deletion, crash at any moment, recovery and failed recovery. The reference is `History.dfy`: the list of writes;
  write number n has sequence number n. `DatabaseInvariant.dfy` states the invariant, `DatabaseWrites`,
  `DatabaseVersions` and `DatabaseRecovery` prove that each step keeps it, `DatabaseSafety` draws the conclusions for
  whole runs. `SnapshotReads` says what snapshots and readers see over time; `Progress` shows, with the paths of `Runs`,
  that a group can always be written, memtables flushed, files nobody needs removed, and a crashed database opened
  again. `Faithful.dfy` says what it means that a version gives the right answers from a sequence number on.
* **The code behind the steps.** `Selection`, `Picking` (input selection), `InputStreams` (merging the inputs),
  `CompactionWork` and `OutputCuts` (the compaction loop, its cursors and where it cuts), `VersionBuilder`,
  `Edits` (applying and replaying edits), `Lookup`, `Versions` (reads), and `Background`, where these methods are shown
  to meet the guards of the machine's steps. `Counterexamples`, `DeletedKeyRun`, `ManualGaps` and `Examples` show where
  the code does less than it should.
* **Iterators.** `Merger`, `TwoLevel`, `DbIter`, `BlockIter`: stateful cursors, each proved to move along a plain sorted
  sequence in both directions.
* **Formats.** `Log`, `LogReader`, `TornLog`; `Coding`, `FixedArrays`, `Checksum`, `CrcDetects`, `WriteBatch`,
  `ManifestRecord`, `ManifestReads`;
  `BlockFormat`, `BlockBuilder`, `Block`; `Bloom`, `FilterBlock`, `Separators`, `Table`, `TableBuilder`,
  `Concatenation`, `EngineComparator`; `DiskBytes` puts log, batch and edit formats under the machine's logs and
  manifest. Where a proof does not depend on how an item is encoded, the codec is a function-valued parameter
  with a stated law, and the real codec is shown to satisfy the law.
* **Linked structures and the writer queue.** `SkipList` and `SkipListReaders`, `Rings`, `Snapshots`, `HandleTable`,
  `Cache`, `GroupCommit`, `GroupCommitLimits`.

A user key is a real number that stands for its place in the comparator's total order; `UserKeys.RankOrder` embeds the
bytewise order of byte strings. The engine only compares user keys, except where it shortens them, and there
(`Separators`) they are byte strings. File contents are sequences of entries, except in the format modules, where they
are bytes; `Byte` is an integer below 256. Sizes that only steer heuristics are parameters.

## What turned out not to hold

* **A deleted key can come back.** `SetupOtherInputs` closes the input level at user-key boundaries but not the output
  level (kv/db/version_set.cpp:1642-1690), while `IsBaseLevelForKey` starts two levels down
  (kv/db/version_set.cpp:1790-1814). If the output level is split inside a user key, between a tombstone and the older
  value it hides, a compaction can take the file with the tombstone alone, drop it and leave the value.
  `DeletedKeyRun.ReachableExposes` is a run from an empty database to a state in which the selection code picks such
  inputs (`Counterexamples.PickExposes`), and `Counterexamples.DeletedKeyReturns` what follows;
  `Compactions.DropPreservesReads` and `Faithfulness.FaithfulInstall` give the exact condition, and
  `Compactions.BoundaryGuards` a sufficient one that can be checked on files. The machine's compaction step has the
  exact condition as a guard.
* **A manual compaction can break level order.** `CompactRange` may select files with gaps between them
  (kv/db/version_set.cpp:1708-1744). A memtable flushed into such a gap at the output level while the compaction runs
  can end up inside its output: `ManualGaps.GapHappens` puts the code together and `ManualGaps.GappedHappens` gives a
  version. `ManualGaps.FlushFits` is the exact condition, on the inputs and the table: order survives if and only if the
  compaction does not keep entries on both sides of the table. For automatic compactions the inputs are proved gap-free
  (`Picking.PickCompaction`) and the flush harmless (`Compactions.GapFreeApart`); for manual ones the machine's flush
  step has the exact condition as a guard.
* **`VersionEdit::DecodeFrom` on a used edit** keeps the old compaction pointers (kv/db/version_edit.cpp:23-36); the exact
  condition is in `ManifestRecords.EditRoundTrip`, and `ManifestRecords.UsedEdit` is a case.
* **A null batch can ride along** in another call's write group and return OK without the memtable switch it asks for
  (kv/db/db_impl.cpp:1510-1535): `GroupCommitLimits.NullRidesAlong` is such a run, `GroupCommitLimits.NullCallForces` the
  exact condition for all runs.
* **A group whose log write fails uses up its sequence numbers** (kv/db/db_impl.cpp:1457):
  `GroupCommitLimits.NumberIsLost` is such a run; `GroupCommitLimits.NumberApplied` and `NoNumberLost` say exactly which
  numbers are never applied.

The model follows the code where a comment says something else: kv/db/db_iter.cpp:24-33 has the internal iterator, when
moving backwards, just before all entries of the current key; `DbIter.DBIter.Before` has it before them, past nothing
visible.

## Model

| member | source | states |
|---|---|---|
| `DatabaseSafety.ReadsAreCorrect` | kv/db/db_impl.cpp:1292-1349 | In every reachable open state, seven well-formed levels (above 0 sorted and disjoint), shallower entries newer than deeper ones, and a read of any key at LastSequence or at any live snapshot, through memtable, immutable memtable and version, equals the newest write at or below that sequence number |
| `DatabaseSafety.ReadersAreCorrect` | kv/db/db_impl.cpp:1292-1349 | A read in flight, through the memtables and the version it captured, still returns its snapshot after any steps of writers, flushes, compactions, installs and file deletions, and every table of its version is on disk |
| `DatabaseSafety.WritesAreDurable` | kv/db/db_impl.cpp:322-560 | Along every run, crashes, failed recoveries and recoveries included, the acknowledged writes of a state are a prefix of those of every later state |
| `DatabaseSafety.GroupsAreAtomic` | kv/db/db_impl.cpp:1420-1458 | A step changes the history by nothing or by exactly the group in flight, whole; a finished recovery opens with exactly the history the crash left and LastSequence equal to its length |
| `DatabaseSafety.NoTableIsMissing` | kv/db/db_impl.cpp:248-320 | In every reachable state all tables the manifest or the current version names exist |
| `SnapshotReads.SnapshotTaken` | kv/db/db_impl.cpp:1373-1377 | In every run GetSnapshot adds one holder of the number of the last acknowledged write and changes the multiplicity of no other |
| `SnapshotReads.SnapshotSeesItsTime` | kv/db/db_impl.cpp:1292-1377 | In every run, in every later open state in which the number is still held, Get of any key at a snapshot, through memtable, immutable memtable and version, returns what the writes acknowledged when it was taken say |
| `SnapshotReads.SnapshotReleased` | kv/db/db_impl.cpp:1379-1383 | ReleaseSnapshot takes away exactly one holder of its number and changes the multiplicity of no other |
| `SnapshotReads.OthersReadOn` | kv/db/db_impl.cpp:1379-1383 | Every snapshot still held after a release, of the same number or another, reads as it did before |
| `SnapshotReads.SnapshotsStay` | kv/db/db_impl.cpp:1373-1383 | No other step of an open database changes the snapshots held |
| `SnapshotReads.ReadStarted` | kv/db/db_impl.cpp:1292-1315 | A read starts at the number of the last acknowledged write or at a held snapshot, captures the memtables and the current version, and leaves every other read as it is |
| `SnapshotReads.ReadFinished` | kv/db/db_impl.cpp:1341-1349 | When a read completes exactly its own references go, also if another read captured the same |
| `SnapshotReads.ReadsGoOn` | kv/db/db_impl.cpp:1292-1349 | No other step of an open database ends a read |
| `SnapshotReads.ReaderSeesItsTime` | kv/db/db_impl.cpp:1292-1349 | Whenever a read completes, what it captured gives what the writes acknowledged when it started say |
| `Progress.GroupCanBeWritten` | kv/db/db_impl.cpp:1396-1482 | From every reachable open state without a group in flight, any group the sequence numbers allow can be written, and is then the end of the history |
| `Progress.ObsoleteCanGo` | kv/db/db_impl.cpp:248-320 | From every reachable open state with no edit half written, removing obsolete files leaves exactly the tables that the current version, a reader or a pending output names, and the logs from log_number on |
| `Progress.ComesToRest` | kv/db/db_impl.cpp:608-644 | From every reachable open state without a group in flight or an edit half written, also during a compaction, switching and flushing the memtable and removing obsolete files lead to a state with the same history whose only log is that of the empty memtable, whose tables are exactly the live ones (pending outputs only with a compaction running), and whose version alone answers every read |
| `Progress.OnlyRunningPends` | kv/db/db_impl.cpp:907-926 | In every run, without a running compaction or a result being installed there are no pending outputs |
| `Progress.DatabaseReopens` | kv/db/db_impl.cpp:322-560 | From the disk of every reachable crashed state recovery can begin, read all logs and finish, with exactly the history the crash left |
| `Progress.CrashAndReopen` | kv/db/db_impl.cpp:1728-1786 | From every reachable open state a crash and a recovery lead to an open state with every acknowledged write, and with the group in flight exactly if its record was complete |
| `DatabaseSafety.StepKeeps` | kv/db/db_impl.cpp:807-905 | Every step of the machine keeps the whole invariant and never shortens the history |
| `DatabaseSafety.RunInvariant` | kv/db/version_set.cpp:920-1018 | The invariant holds in every state of every run from NewDB |
| `DatabaseSafety.InitOk` | kv/db/db_impl.cpp:197-233 | The empty database NewDB writes satisfies the invariant |
| `DatabaseWrites.LogGroupKeeps` | kv/db/db_impl.cpp:1429-1431 | Appending the group's record keeps the invariant: the live logs are a gap-free chain of records covering exactly the writes after the flushed ones |
| `DatabaseWrites.ApplyOneKeeps` | kv/db/write_batch.cpp:143-162 | Inserting one operation of the group, with the mutex released, keeps the invariant; running readers do not see it |
| `DatabaseWrites.PublishKeeps` | kv/db/db_impl.cpp:1457-1458 | SetLastSequence makes the whole group visible at once and keeps the invariant |
| `DatabaseWrites.SwitchMemTableKeeps` | kv/db/db_impl.cpp:1592-1616 | Switching to a new log and memtable keeps the invariant: the old log holds exactly the immutable memtable |
| `DatabaseWrites.RemoveObsoleteKeeps` | kv/db/db_impl.cpp:248-320 | Deleting logs below log_number and tables that no version, reader or pending output names keeps the invariant |
| `DatabaseWrites.TakeSnapshotKeeps` | kv/db/db_impl.cpp:1373-1377 | A new snapshot keeps the invariant; what it sees is SnapshotReads.SnapshotSeesItsTime |
| `DatabaseWrites.ReleaseSnapshotKeeps` | kv/db/db_impl.cpp:1379-1383 | Releasing a snapshot keeps the invariant |
| `DatabaseVersions.FlushWriteKeeps` | kv/db/db_impl.cpp:608-644 | Writing the flushed table and its edit to the manifest keeps the invariant, also while a compaction runs: the running job stays installable and exposes nothing; a table that enters the output level of a manual compaction between two kept entries, where order does break (ManualGaps.FlushFits), is excluded |
| `DatabaseVersions.FlushInstallKeeps` | kv/db/db_impl.cpp:626-637 | Installing the flushed version and releasing imm_ keeps the invariant |
| `DatabaseVersions.CompactStartKeeps` | kv/db/db_impl.cpp:1038-1055 | Starting a compaction at its horizon keeps the invariant; one that exposes a key, whose result does give a wrong answer (Faithfulness.FaithfulInstall), is excluded |
| `DatabaseVersions.CompactWriteKeeps` | kv/db/db_impl.cpp:1012-1029 | Writing a compaction's edit keeps the invariant: the new version is faithful from the horizon on, the manifest still replays to it |
| `DatabaseVersions.MoveWriteKeeps` | kv/db/db_impl.cpp:843-860 | A trivial move keeps every read and the invariant |
| `DatabaseRecovery.CrashKeeps` | kv/db/db_impl.cpp:1429-1447 | Whatever moment a crash hits, the disk alone determines the acknowledged writes plus the group in flight if its record was complete |
| `DatabaseRecovery.StartRecoveryKeeps` | kv/db/version_set.cpp:1020-1172 | Replaying the manifest through one builder rebuilds the last written version; the sorted live logs continue it without a gap |
| `DatabaseRecovery.RecoverTableKeeps` | kv/db/db_impl.cpp:425-560 | Each run of log records becomes a level-0 table that extends the faithful version by exactly those writes |
| `DatabaseRecovery.FinishRecoveryKeeps` | kv/db/db_impl.cpp:1737-1786 | Opening with a fresh log and a manifest made of a snapshot record and the new tables keeps the invariant |
| `DatabaseRecovery.FailRecoveryKeeps` | kv/db/db_impl.cpp:322-423 | A recovery that dies before its manifest is current leaves a disk that recovers to the same history |
| `Compactions.DropPreservesReads` | kv/db/db_impl.cpp:1103-1131 | The drop rules leave every read of every key at or above smallest_snapshot unchanged if and only if no key is exposed: no dropped tombstone was the newest entry of a key whose next older entry, in a file that stays, is a value |
| `Compactions.KeptExactly` | kv/db/db_impl.cpp:1103-1131 | Nothing is kept in vain: an input entry is kept if and only if it is newer than the horizon, or is the newest input entry of its key at or below it and not a tombstone with nothing of the key deeper |
| `Compactions.ExposedChangesRead` | kv/db/db_impl.cpp:1117-1131 | For an exposed key the read at the horizon was "not found" before and is a value after |
| `Compactions.BoundaryGuards` | kv/db/version_set.cpp:1642-1651 | If no unselected file of the output level holds an older entry of an input's user key, no key is exposed |
| `Compactions.InstallKeepsShape` | kv/db/version_set.cpp:798-869 | Installing outputs made of a compaction's inputs keeps all level and age invariants if every unselected file of the output level has them on one side |
| `Compactions.ReadyInstalls` | kv/db/version_set.cpp:1642-1690 | which holds of any outputs of a compaction whose inputs were just selected |
| `Compactions.InstallEntries` | kv/db/db_impl.cpp:1012-1029 | Before and after an install the version holds exactly inputs plus rest, and outputs plus rest |
| `Compactions.FlushKeepsShape` | kv/db/db_impl.cpp:562-606 | Adding a table of newer entries at a level clear of it keeps all level and age invariants |
| `Compactions.GapFreeApart` | kv/db/db_impl.cpp:1067-1079 | A table clear of the inputs of a gap-free compaction has all of them on one side |
| `Compactions.FlushKeepsInstallable` | kv/db/db_impl.cpp:1067-1079 | A table flushed while a compaction runs, to any level picked clear of it, leaves the compaction installable unless it enters the output level between two entries that are kept |
| `Compactions.FlushExposesNothing` | kv/db/db_impl.cpp:1067-1079 | A table flushed while a compaction runs exposes no key |
| `Faithfulness.FaithfulInstall` | kv/db/db_impl.cpp:1031-1220 | A compaction's result gives the history's answers from the horizon on if and only if no key is exposed |
| `Faithfulness.FaithfulMove` | kv/db/db_impl.cpp:843-860 | Moving a table, or recutting inputs without dropping, keeps all answers |
| `Faithfulness.FaithfulFlush` | kv/db/db_impl.cpp:562-606 | A flushed table of the next writes at a clear level extends the version's answers by exactly those writes |
| `Faithfulness.LayersRead` | kv/db/db_impl.cpp:1292-1349 | Memtable, then immutable memtable, then version reads as the history |
| `CompactionWork.DoCompactionWork` | kv/db/db_impl.cpp:1031-1175 | For every sorted input stream the loop writes valid, ordered, disjoint files under fresh numbers holding exactly the entries the drop rules keep; every file records its own size, would have been below the limit with fewer entries, and holds no entry across a point where ShouldStopBefore says stop; every file but the last ended because it was full, or because the grandparent limit stops at the next entry that matters |
| `OutputCuts.OutputOverlap` | kv/db/version_set.cpp:1816-1844 | For grandparents in order, those wholly between the first and the last key of any one output total at most max_overlap |
| `OutputCuts.OutputReach` | kv/db/version_set.cpp:1816-1844 | An output holds no two entries between which more than max_overlap bytes of grandparents end |
| `OutputCuts.EndedFull` | kv/db/db_impl.cpp:1163-1164 | Without grandparents an output is only ended when it is full |
| `CompactionWork.Cursor.IsBaseLevelForKey` | kv/db/version_set.cpp:1790-1814 | With keys arriving in order the moving level_ptrs_ decide exactly what a full scan of the deeper levels would |
| `CompactionWork.Cursor.ShouldStopBefore` | kv/db/version_set.cpp:1816-1844 | Advances over exactly the grandparents that end before the key, counts their bytes once a key was seen, and stops exactly when the limit is exceeded |
| `CompactionWork.HiddenByPrevious` | kv/db/db_impl.cpp:1090-1116 | Remembering only the previous entry's sequence number decides whether any newer input entry of the key is at or below the horizon |
| `CompactionWork.ShouldDrop` | kv/db/db_impl.cpp:1103-1131 | The test of one iteration is exactly the drop rule |
| `InputStreams.MakeInputIterator` | kv/db/version_set.cpp:1445-1483 | The merging iterator ranges over exactly the input files' entries, each once and in internal-key order, with one child per file at level 0 and one per level below |
| `InputStreams.ReadInput` | kv/db/db_impl.cpp:1058-1175 | Reading the iterator from its first entry until it is not valid gives the whole sorted union |
| `InputStreams.SelectedStreamable` | kv/db/version_set.cpp:1642-1690 | Whatever inputs selection settles on, no entry is in two of them, and those above level 0 are in key order |
| `InputStreams.ChildrenMerge` | kv/db/version_set.cpp:1453-1479 | The children have a sorted union, share no entry, and that union is the stream the compaction loop is proved for |
| `InputStreams.LevelSorted` | kv/db/version_set.cpp:1472-1476 | The tables of a level above 0 one after the other read as one sorted run |
| `Selection.GetOverlappingInputs` | kv/db/version_set.cpp:589-642 | Terminates despite restarts and returns exactly the files overlapping the final range; at level 0 no chosen file sticks out of that range, and every key between the given range and the final one is covered by a chosen file |
| `Selection.AddBoundaryInputs` | kv/db/version_set.cpp:1611-1640 | Terminates and closes a set of files: no file of the level starts a user key that the set's largest key splits, and every file added continues the user key of the largest file before it |
| `Selection.FindLargestKey` | kv/db/version_set.cpp:1551-1569 | The largest key among the files, if there are any |
| `Selection.FindSmallestBoundaryFile` | kv/db/version_set.cpp:1573-1595 | The first file that continues the user key of the largest key, if there is one |
| `Picking.CloseLevel` | kv/db/version_set.cpp:1611-1651 | For every contiguous or overlap-closed choice, no unselected file of the level holds an older entry of a selected file's user key |
| `Picking.GetRange` | kv/db/version_set.cpp:1405-1443 | The smallest and largest internal keys of the files |
| `Picking.SetupOtherInputs` | kv/db/version_set.cpp:1642-1706 | The compaction is ready: inputs within its range, unselected output-level files outside it, the input level closed; output-level inputs are exactly those overlapping the input level's range; with output-level inputs the input level is expanded exactly when that adds files, stays below the size limit and adds no output-level file; a seed without gaps stays without gaps; the grandparents are those overlapping the whole range |
| `Picking.PickCompaction` | kv/db/version_set.cpp:1485-1547 | From any file of any level the automatic compaction is ready, contains the file, and its inputs' user-key ranges form one gap-free interval |
| `Picking.CompactRange` | kv/db/version_set.cpp:1708-1744 | None exactly if no file overlaps the range, otherwise a ready compaction that contains the files chosen by the range and the size limit |
| `Picking.RangeInputs` | kv/db/version_set.cpp:1708-1735 | Empty exactly if no file overlaps the range; overlap-closed at level 0; above it the overlapping files up to the one with which the total reaches the limit |
| `Picking.FirstAfterPointer` | kv/db/version_set.cpp:1500-1516 | The first file past the compaction pointer, or the first file when none is |
| `Picking.PickLevelForMemTableOutput` | kv/db/version_set.cpp:555-586 | The unique largest level up to 2 such that level 0 is free of overlap and every step down to it has no overlap one level down and at most ten file sizes of overlap two levels down; 0 if level 0 overlaps |
| `Picking.TrivialMoveSteps` | kv/db/version_set.cpp:1768-1777 | A selected compaction of one input-level file is a trivial move if and only if a table of that range could step down a level: no overlap below, and at most ten file sizes of overlap two levels below |
| `Lookup.FindFile` | kv/db/version_set.cpp:96-119 | The binary search finds the first file whose largest key is at or after the key |
| `Lookup.SomeFileOverlapsRange` | kv/db/version_set.cpp:137-180 | True exactly if some file overlaps, scanning or searching, with open ends |
| `Versions.Get` | kv/db/version_set.cpp:335-473 | Level 0 newest file first, then one file per level, finds the newest entry of the key at or below the snapshot in the whole version, or none if there is none |
| `Versions.GetLevelZero` | kv/db/version_set.cpp:335-361 | The newest visible entry of level 0 |
| `Versions.GetDisjointLevel` | kv/db/version_set.cpp:363-388 | One binary search and one table lookup find the newest visible entry of a level |
| `Versions.LevelGetNewest` | kv/db/version_set.cpp:363-388 | also when neighbouring files share the user key |
| `Counterexamples.PickExposes` | kv/db/version_set.cpp:1642-1690 | PickCompaction itself exposes a key whenever the output level is split inside that key between a tombstone and the value it hides |
| `Counterexamples.DeletedKeyReturns` | kv/db/db_impl.cpp:1117-1131 | Installing such a compaction turns a faithful version into one that returns a deleted key |
| `Counterexamples.SplitFaithful` | kv/db/version_set.cpp:1642-1690 | A concrete version of this kind that gives every read its right answer |
| `DeletedKeyRun.RunToSplit` | kv/db/db_impl.cpp:1031-1220 | A run of the machine from NewDB reaches this version: a snapshot between the value and its tombstone, a compaction whose outputs are cut between the two, and the snapshot released |
| `DeletedKeyRun.ReachableExposes` | kv/db/version_set.cpp:1642-1690 | In that reachable state PickCompaction, at the horizon DoCompactionWork uses, selects ready inputs that expose the deleted key |
| `ManualGaps.FlushFits` | kv/db/version_set.cpp:1708-1744 | For every ready compaction and every table flushed meanwhile to its output level, clear of all files there and above: the level stays in order, wherever the outputs are cut, if and only if the compaction does not keep entries on both sides of the table |
| `ManualGaps.PickedBoth` | kv/db/version_set.cpp:1708-1744 | CompactRange over everything takes both of two files with a gap between them |
| `ManualGaps.PickedBetween` | kv/db/version_set.cpp:555-586 | PickLevelForMemTableOutput sends a table in the gap to the level below them |
| `ManualGaps.RunInGap` | kv/db/db_impl.cpp:1064-1175 | The compaction loop then writes one output that reaches over the table |
| `ManualGaps.GapHappens` | kv/db/version_set.cpp:920-960 | Selection, flush, loop and two calls of LogAndApply, put together: level 2 of the version installed is out of order |
| `ManualGaps.GappedHappens` | kv/db/version_set.cpp:856-867 | and so it is from a concrete version |
| `ManualGaps.AroundKept` | kv/db/db_impl.cpp:1103-1131 | There nothing is dropped, and the entries kept are on both sides of the table |
| `VersionBuilder.Builder.Apply` | kv/db/version_set.cpp:750-795 | Deletions then additions, level by level |
| `VersionBuilder.Builder.SaveTo` | kv/db/version_set.cpp:798-849 | Every level holds exactly the base and added files that are not deleted, in order |
| `VersionBuilder.SaveLevel` | kv/db/version_set.cpp:804-869 | The merge of the two ordered lists is ordered and complete |
| `VersionBuilder.EditLevel` | kv/db/version_set.cpp:750-795 | What one edit leaves deleted and added at a level |
| `VersionBuilder.ReplayRebuilds` | kv/db/version_set.cpp:1066-1160 | One builder over all edits and one SaveTo give the lists that applying and saving them one at a time gave, if no level is given a number it ever had |
| `VersionBuilder.ListedUnique` | kv/db/version_set.cpp:684-696 | A list in builder order is determined by its members |
| `Edits.CompactionEditInstalls` | kv/db/db_impl.cpp:1012-1029 | The compaction edit replaces the inputs by the outputs, and nothing else |
| `Edits.FlushEditAdds` | kv/db/db_impl.cpp:562-606 | The flush edit adds the table at its level, and nothing else |
| `Background.LogAndApply` | kv/db/version_set.cpp:920-960 | A builder on the current version makes the edited version |
| `Background.StartCompaction` | kv/db/db_impl.cpp:807-842 | PickCompaction on the current version at the oldest snapshot is ready and mergeable, and meets the machine's start guard unless a key is exposed |
| `Background.StartManualCompaction` | kv/db/db_impl.cpp:818-822 | The same of CompactRange and the guard for manual compactions; none exactly if no file overlaps the range |
| `Background.MoveFile` | kv/db/db_impl.cpp:843-860 | Moving the one input of a ready compaction by an edit meets the machine's move guard, exposed key or not |
| `Background.FinishCompaction` | kv/db/db_impl.cpp:1031-1220 | For every compaction that was started, what merging its inputs, the loop and LogAndApply produce meets the machine's install guard |
| `Background.InstallOutputs` | kv/db/db_impl.cpp:1012-1029 | However their numbers were taken while the loop ran, outputs that are pending and hold what the drop rules keep meet the machine's install guard |
| `Background.CreatedOneByOne` | kv/db/db_impl.cpp:928-953 | The outputs are created by one machine step each |
| `Background.Flush` | kv/db/db_impl.cpp:562-644 | The level PickLevelForMemTableOutput gives meets the machine's flush guard, also during a compaction; for a manual one unless it is the output level and entries kept are on both sides of the table |
| `Background.Get` | kv/db/db_impl.cpp:1292-1349 | Returns what the three layers read as |
| `Background.GetIsCorrect` | kv/db/db_impl.cpp:1292-1349 | In every reachable state, at LastSequence or any live snapshot, returns the newest write at or below it |
| `Background.MemGetNewest` | kv/db/memtable.cpp:103-142 | One seek in the memtable finds the newest visible entry of the key |
| `Wal.ChainReplay` | kv/db/db_impl.cpp:470-545 | Replaying a chain of records inserts exactly the writes it covers |
| `Wal.ChainSplit` | kv/db/db_impl.cpp:470-545 | A chain can be cut after any record |
| `Wal.ChainAppend` | kv/db/db_impl.cpp:1420-1431 | A group's record continues the chain |
| `GroupCommit.BuildBatchGroup` | kv/db/db_impl.cpp:1486-1538 | The group is a prefix of the queue, holds no sync writer behind a non-sync leader, keeps the size limit, is maximal, and its batch is the writers' operations in order |
| `GroupCommit.GroupCommitIsCorrect` | kv/db/db_impl.cpp:1396-1482 | In every interleaving: calls complete in arrival order, none twice or lost; the memtable holds exactly the operations of calls that returned OK, in that order; the numbers of every call follow those of the call before it, up to LastSequence; a reader at LastSequence sees nothing of the group in flight; a sync call that returned OK was in a synced group |
| `GroupCommit.GroupIsPrefix` | kv/db/db_impl.cpp:1460-1473 | The writers woken by a leader are exactly its group, whatever arrived meanwhile |
| `GroupCommit.StepKeeps` | kv/db/db_impl.cpp:1396-1482 | Every step of any writer keeps the queue invariant |
| `GroupCommitLimits.NullCallForces` | kv/db/db_impl.cpp:1414-1418 | In every run, a null call that returned OK forced a memtable switch if and only if no leader's group reached it before it was at the front |
| `GroupCommitLimits.AloneForces` | kv/db/db_impl.cpp:1405-1418 | A null call that found the queue empty and returned OK has forced one |
| `GroupCommitLimits.NullRidesAlong` | kv/db/db_impl.cpp:1510-1535 | A run in which a null call returns OK and no switch is forced |
| `GroupCommitLimits.SwitchesCounted` | kv/db/db_impl.cpp:1414-1418 | The memtable is switched on demand as often as calls forced it |
| `GroupCommitLimits.NumberApplied` | kv/db/db_impl.cpp:1420-1458 | A sequence number given to a call is in the memtable if and only if the call returned OK |
| `GroupCommitLimits.NoNumberLost` | kv/db/db_impl.cpp:1457-1458 | All numbers up to LastSequence are in the memtable if and only if no group with operations has failed |
| `GroupCommitLimits.NumberIsLost` | kv/db/db_impl.cpp:1429-1458 | A run in which the log write fails and LastSequence still advances |
| `DbIter.LiveIsRead` | kv/db/db_iter.cpp:191-228 | The entries the iterator may show are exactly the values reads at the snapshot return, one per user key |
| `DbIter.DBIter.FindNextUserEntry` | kv/db/db_iter.cpp:191-228 | Stops at the first live entry from here, past the key to skip |
| `DbIter.DBIter.FindPrevUserEntry` | kv/db/db_iter.cpp:262-314 | Stops at the last live entry up to here, or knows there is none |
| `DbIter.DBIter.Show` | kv/db/db_iter.cpp:52-61 | Standing at a live entry, key and value are those of the entry, whichever way the iterator moved |
| `DbIter.DBIter.Next` | kv/db/db_iter.cpp:146-189 | From any live entry, whichever way it moved before, shows the next live entry |
| `DbIter.DBIter.Prev` | kv/db/db_iter.cpp:230-260 | From any live entry, whichever way it moved before, shows the previous live entry with its value |
| `DbIter.DBIter.Seek` | kv/db/db_iter.cpp:316-332 | Shows the first live entry at or after the target |
| `DbIter.DBIter.SeekToFirst` | kv/db/db_iter.cpp:334-347 | Shows the first live entry |
| `DbIter.DBIter.SeekToLast` | kv/db/db_iter.cpp:349-355 | Shows the last live entry |
| `Merger.MergingIterator.Seek` | kv/table/merger.cpp:51-59 | With distinct keys, stands at the first entry of the sorted union at or after the target |
| `Merger.MergingIterator.Next` | kv/table/merger.cpp:61-90 | Moves to the successor in the sorted union, also after moving backwards |
| `Merger.MergingIterator.Prev` | kv/table/merger.cpp:92-126 | Moves to the predecessor in the sorted union, also after moving forwards |
| `Merger.MergingIterator.SeekToFirst` | kv/table/merger.cpp:31-39 | Stands at the first entry of the union |
| `Merger.MergingIterator.SeekToLast` | kv/table/merger.cpp:41-49 | Stands at the last entry of the union |
| `Merger.MergingIterator.FindSmallest` | kv/table/merger.cpp:172-191 | The child with the smallest current key |
| `Merger.MergingIterator.FindLargest` | kv/table/merger.cpp:193-212 | The child with the largest current key |
| `TwoLevelIterators.TwoLevelIterator.Seek` | kv/table/two_level_iterator.cpp:89-96 | Lands on the first entry of the concatenation at or after the target |
| `TwoLevelIterators.TwoLevelIterator.Next` | kv/table/two_level_iterator.cpp:116-121 | The successor in the concatenation, over any run of empty blocks |
| `TwoLevelIterators.TwoLevelIterator.Prev` | kv/table/two_level_iterator.cpp:123-128 | The predecessor in the concatenation, over any run of empty blocks |
| `TwoLevelIterators.TwoLevelIterator.SeekToFirst` | kv/table/two_level_iterator.cpp:98-105 | The first entry, wherever it is |
| `TwoLevelIterators.TwoLevelIterator.SeekToLast` | kv/table/two_level_iterator.cpp:107-114 | The last entry, wherever it is |
| `TwoLevelIterators.TwoLevelIterator.SkipEmptyDataBlocksForward` | kv/table/two_level_iterator.cpp:130-145 | Stops at the next entry of the concatenation or knows there is none |
| `TwoLevelIterators.TwoLevelIterator.SkipEmptyDataBlocksBackward` | kv/table/two_level_iterator.cpp:147-162 | Stops at the previous entry of the concatenation or knows there is none |
| `TwoLevelIterators.SeekPlace` | kv/table/two_level_iterator.cpp:89-96 | Seeking in the index and then in its block is seeking in the concatenation |
| `Log.Writer.AddRecord` | kv/db/log_writer.cpp:34-91 | Appends exactly the record's layout: trailers, headers and fragments, none crossing a block |
| `Log.Writer.EmitPhysicalRecord` | kv/db/log_writer.cpp:93-122 | Appends checksum, length, type and payload of one fragment within the block |
| `LogReader.Reader.ReadPhysicalRecord` | kv/db/log_reader.cpp:218-315 | For every file, the buffered reader yields the record, the damage report or the end that reading by position yields |
| `LogReader.Reader.ReadRecord` | kv/db/log_reader.cpp:58-200 | For every file, joins fragments exactly as the reassembly machine does over the whole list of physical records, and reports as often |
| `LogReader.Reader.ReadRecords` | kv/db/db_impl.cpp:470-479 | The reading loop returns all records and counts all reports |
| `TornLog.TruncatedLog` | kv/db/log_reader.cpp:58-315 | A log cut off at any byte reads as exactly the records that were complete before the cut, in order, with no corruption reported |
| `TornLog.LogRoundTrip` | kv/db/log_reader.cpp:58-315 | An intact log reads as everything written |
| `TornLog.CompleteIsLongest` | kv/db/log_writer.cpp:34-91 | The complete records are the longest run whose log fits into the bytes left |
| `TornLog.WriteCutRead` | kv/db/log_writer.cpp:34-122 | The writer, a cut, and the reader with checksums on or off, put together |
| `TornLog.CrcReadsBack` | kv/db/log_reader.cpp:251-315 | With the format's masked CRC, a whole physical record parses to itself and a cut one at the end of the file is the end |
| `DiskBytes.CutLogIsChain` | kv/db/db_impl.cpp:425-560 | The bytes of a log whose records form a chain of writes, cut off anywhere, decode to the complete records, and these replay to exactly the first of these writes |
| `DiskBytes.CutManifestIsPrefix` | kv/db/version_set.cpp:1066-1118 | The bytes of a manifest, cut off anywhere, decode to the edits whose records were complete, and uncut to all of them |
| `Checksum.ExtendConcat` | kv/util/crc32c.h:10-15 | The checksum of a concatenation can be computed in two steps |
| `Checksum.UnmaskMask` | kv/util/crc32c.h:24-35 | Unmasking undoes masking |
| `CrcDetects.ByteDetected` | kv/util/crc32c.cpp:263-371 | Two strings that differ in exactly one byte have different checksums |
| `CrcDetects.DamageNoticed` | kv/db/log_reader.cpp:284-297 | With checksums on, a physical record whose type or one payload byte was changed is reported as damaged, never returned |
| `CrcDetects.TableStep` | kv/util/crc32c.cpp:269-275 | The source's byte step, a table entry for the low byte combined with the other three bytes, is eight steps of polynomial division |
| `CrcDetects.TableEntry` | kv/util/crc32c.cpp:16-59 | Entry 2^k of the table is the polynomial divided on for 7 - k steps |
| `CrcDetects.TableEntries` | kv/util/crc32c.cpp:16-59 | Entries 0x80, 0x40, 0x20 and 0x10 are the table's numbers |
| `CrcDetects.MaskRotates` | kv/util/crc32c.h:24-28 | Masking multiplies by 2^17 modulo 2^32 - 1 and adds the constant |
| `Coding.FixedRoundTrip` | kv/util/coding.h:47-100 | A fixed-width number decodes to itself exactly if it fits |
| `Coding.FixedDigit` | kv/util/coding.h:47-79 | Byte i of the encoding is digit i to the base 256 |
| `Coding.VarintDigit` | kv/util/coding.cpp:19-75 | Byte i of the encoding is digit i to the base 128, with the high bit set except in the last byte |
| `Coding.Varint32Unrolled` | kv/util/coding.cpp:19-55 | The unrolled encoder writes the general varint |
| `Coding.EncodeVarint64` | kv/util/coding.cpp:64-75 | The loop writes the varint |
| `Coding.VarintLength` | kv/util/coding.cpp:90-99 | The exact length of the encoding |
| `Coding.VarintSize` | kv/util/coding.cpp:90-99 | n bytes suffice exactly for numbers below 128^n |
| `Coding.VarintRoundTrip` | kv/util/coding.cpp:101-160 | A varint decodes to the number and stops right after it, whatever follows |
| `Coding.GetVarint` | kv/util/coding.cpp:101-160 | The decoding loop, for every input: failure, or the value modulo the word size and the bytes used |
| `Coding.Varint32RoundTrip` | kv/util/coding.cpp:124-138 | leaving the suffix untouched |
| `Coding.Varint64RoundTrip` | kv/util/coding.cpp:162-176 | leaving the suffix untouched |
| `Coding.PrefixedRoundTrip` | kv/util/coding.cpp:84-204 | A length-prefixed string comes back, suffix untouched, exactly if its length fits into 32 bits |
| `WriteBatches.WriteBatch.Put` | kv/db/write_batch.cpp:115-121 | The batch stands for one more update; the count is right |
| `WriteBatches.WriteBatch.Delete` | kv/db/write_batch.cpp:123-128 | The batch stands for one more deletion; the count is right |
| `WriteBatches.WriteBatch.Append` | kv/db/write_batch.cpp:170-175 | The batch stands for its updates followed by the other batch's |
| `WriteBatches.WriteBatch.SetSequence` | kv/db/write_batch.cpp:110-113 | Only the sequence number changes |
| `WriteBatches.WriteBatch.Iterate` | kv/db/write_batch.cpp:42-93 | For every representation: the updates, or corruption when too short, malformed or miscounted |
| `WriteBatches.ReplayRep` | kv/db/write_batch.cpp:42-93 | A batch replays exactly its updates, in order |
| `WriteBatches.BuildAndReplay` | kv/db/write_batch.cpp:34-175 | Built by Put and Delete, appended, numbered, and replayed |
| `ManifestRecords.EncodeTo` | kv/db/version_edit.cpp:38-81 | Writes the fields in the format's order |
| `ManifestRecords.DecodeFrom` | kv/db/version_edit.cpp:102-200 | For every input: the assignments of its fields, or corruption |
| `ManifestRecords.EditRoundTrip` | kv/db/version_edit.cpp:23-200 | A record decodes to the edit it was written from if and only if the receiving edit has no compaction pointers, since Clear keeps them |
| `ManifestReads.ReadEditOk` | kv/db/version_edit.cpp:102-200 | Whatever bytes decode, damaged or not, the edit has only levels below kNumLevels, no empty internal keys, and its deletions in the order of the set |
| `ManifestReads.ReadWriteRead` | kv/db/version_edit.cpp:38-200 | For all bytes that decode, writing the edit and reading it again gives the same edit |
| `ManifestRecords.UsedEdit` | kv/db/version_edit.cpp:23-36 | Decoding into an edit with a compaction pointer does not give the edit written |
| `ManifestRecords.FieldsRoundTrip` | kv/db/version_edit.cpp:102-200 | for any way of writing items that reads back |
| `ManifestRecords.ManifestIsSound` | kv/db/version_edit.cpp:83-100 | The manifest's own items read back |
| `SkipLists.PublishKeepsShape` | kv/db/skiplist.h:387-395 | After each single link every level is sorted, linked and contained in the levels below |
| `SkipLists.PrivateKeepsShape` | kv/db/skiplist.h:389-393 | Preparing the new node's link changes nothing for a search |
| `SkipLists.SkipList.FindGreaterOrEqual` | kv/db/skiplist.h:259-287 | The first node at or after the key at the bottom, and at every level the last node before it; terminates by level and remaining nodes |
| `SkipLists.SkipList.FindLessThan` | kv/db/skiplist.h:291-316 | The last node before the key, or the head |
| `SkipLists.SkipList.FindLast` | kv/db/skiplist.h:319-344 | The last node, or the head |
| `SkipLists.SkipList.Contains` | kv/db/skiplist.h:399-410 | Whether a node has the key |
| `SkipLists.SkipList.LinkOne` | kv/db/skiplist.h:387-395 | One turn of Insert's loop: the two link writes, the list in shape after each of them, the node in its place at this level |
| `SkipLists.SkipList.Insert` | kv/db/skiplist.h:361-396 | The new node is in its place at each of its levels, the others unchanged; the list is in shape after every turn of the loop, whatever the node's memory held |
| `SkipListReaders.SearchesAreCorrect` | kv/db/skiplist.h:259-287 | In every interleaving of loads and link writes, a search that returns returns the first node at or after its target in the bottom list of that moment |
| `SkipListReaders.LoadsAreDefined` | kv/db/skiplist.h:361-396 | No search ever follows a link that has not been written |
| `SkipListReaders.StepKeeps` | kv/db/skiplist.h:361-396 | Every link write and every load keeps the shape and every reader's place |
| `BlockBuilders.BlockBuilder.Add` | kv/table/block_builder.cpp:72-111 | The block holds the pairs so far and the new one; exactly every interval-th entry is a restart and shares nothing, every other shares the longest common prefix with the key before |
| `BlockBuilders.BlockBuilder.CommonPrefix` | kv/table/block_builder.cpp:81-89 | The longest common prefix with the last key |
| `BlockBuilders.BlockBuilder.Finish` | kv/table/block_builder.cpp:60-70 | Entries, restart array, number of restarts |
| `BlockFormats.EntryRoundTrip` | kv/table/block.cpp:52-81 | An encoded entry decodes to its parts, whatever follows |
| `BlockFormats.FastPath` | kv/table/block.cpp:57-75 | The one-byte fast path reads what the varints would |
| `BlockFormats.OneByte` | kv/util/coding.h:105-118 | A single-byte varint is its byte |
| `BlockIterators.Iter.ParseNextKey` | kv/table/block.cpp:257-290 | Moves onto the next entry with its whole key, value and restart region, or past the end |
| `BlockIterators.Iter.Next` | kv/table/block.cpp:152-156 | The exact successor |
| `BlockIterators.Iter.Prev` | kv/table/block.cpp:158-181 | The exact predecessor, whichever restart region it is in |
| `BlockIterators.Iter.Seek` | kv/table/block.cpp:183-230 | The first key at or after the target, for any transitive order that sorts the keys |
| `BlockIterators.Iter.SeekToFirst` | kv/table/block.cpp:232-236 | The first entry |
| `BlockIterators.Iter.SeekToLast` | kv/table/block.cpp:238-245 | The last entry |
| `BlockIterators.Iter.FindRegion` | kv/table/block.cpp:185-216 | The binary search over restart points skips only entries before the target, and the next restart point is not before it |
| `Blocks.OpensFinished` | kv/table/block.cpp:20-42 | A finished block opens to its entries' end and its restart array |
| `Blocks.BlockDecodes` | kv/table/block.cpp:52-81 | Every entry added decodes at its offset |
| `Blocks.RoundTrip` | kv/table/block_builder.cpp:60-111 | Iterating over a finished block yields exactly the added pairs, for every restart interval |
| `TableBuilders.TableBuilder.Add` | kv/table/table_builder.cpp:95-130 | The block is cut exactly if it is full with this entry; exactly a pending index entry is written, as the separator of the last key and this one, and it lies between its block and the next key; the key is in the filter of its block's offset |
| `TableBuilders.TableBuilder.Flush` | kv/table/table_builder.cpp:132-151 | A block that is not empty is closed at its offset, which is the size of the blocks before it, its index entry left pending and the filter of the next block started |
| `TableBuilders.TableBuilder.Finish` | kv/table/table_builder.cpp:211-251 | The table holds what was added; its index ends with the successor of the last key and is sound; below 4 GiB of filters, so is its filter block |
| `TableBuilders.BuildAndGet` | kv/table/table_builder.cpp:95-251 | A lookup in a table built from any sorted entries agrees with searching them, however they are cut into blocks, as long as the filter block is below 4 GiB |
| `TableBuilders.BuildTable` | kv/db/builder.cpp:31-45 | The table holds exactly the entries; every block starts where the one before ends; no block is full without its last entry and every block but the last is full; index keys separate its blocks; no key of a block is turned away at the block's offset |
| `TableBuilders.FiltersSound` | kv/table/table_builder.cpp:132-151 | Filters made while the blocks were written turn away no key of any block |
| `Tables.InternalGet` | kv/table/table.cpp:250-285 | Reports an entry for the looked-up user key exactly if the first entry at or after the key is one, and then that entry; whatever the filter block, it misses the entry exactly if the filter of the deciding block turns the key away |
| `Tables.OneBlockDecides` | kv/table/table.cpp:254-276 | The block the shortened index points at decides for the whole table |
| `FilterBlocks.FilterBlockBuilder.StartBlock` | kv/table/filter_block.cpp:16-24 | Closes the waiting keys as one group, adds empty groups up to the number of this offset; from here keys go to its filter |
| `FilterBlocks.FilterBlockBuilder.AddKey` | kv/table/filter_block.cpp:26-31 | The key joins the waiting group, and no other changes |
| `FilterBlocks.FilterBlockBuilder.GenerateFilter` | kv/table/filter_block.cpp:52-79 | One filter more, made for exactly the waiting keys, which are recovered from their flattened form |
| `FilterBlocks.FilterBlockBuilder.Finish` | kv/table/filter_block.cpp:33-50 | The block is the filters of all groups, the array of their offsets, the array's offset and the base |
| `FilterBlocks.KeyMayMatch` | kv/table/filter_block.cpp:81-116 | For any contents: whether the filter found under the offset, if one is, matches the key |
| `FilterBlocks.ReadsBack` | kv/table/filter_block.cpp:81-111 | The reader finds in a finished block exactly the filters laid out, under their numbers, if they stay below 4 GiB |
| `FilterBlocks.LayoutMatches` | kv/table/filter_block.cpp:97-116 | A finished block turns a key away exactly if the filter of the block offset exists and turns it away |
| `FilterBlocks.NeverRejected` | kv/table/filter_block.cpp:16-116 | A key added while the filter of a block offset was waiting is never turned away at that offset |
| `Bloom.CreateFilter` | kv/util/bloom.cpp:29-59 | Appends a filter of max(64, keys * bits_per_key) bits rounded up to bytes, and the number of probes; bit p is set if and only if p == (h + j * delta) % 2^32 % bits for the hash h of some key and some j below the number of probes, with delta = h / 2^17 + h % 2^17 * 2^15 |
| `Bloom.AddHash` | kv/util/bloom.cpp:50-57 | Sets exactly the bits the hash probes, for any filter size |
| `Bloom.SetAtSets` | kv/util/bloom.cpp:55 | Setting one bit of the byte array leaves all others |
| `Bloom.FilterOfMatches` | kv/util/bloom.cpp:29-90 | Every key a filter is made for matches it, for every hash function |
| `Bloom.KeyMayMatch` | kv/util/bloom.cpp:61-90 | False if and only if the filter has less than two bytes, or its last byte is at most 30 and one of the bits (h + j * delta) % 2^32 % bits is clear |
| `Bloom.Rejects` | kv/util/bloom.cpp:29-90 | A key whose first bit, its hash modulo the number of bits, is probed by no key added is turned away |
| `Bloom.BitValue` | kv/util/bloom.cpp:55 | Bit i of a byte is its quotient by 2^i, modulo 2 |
| `Bloom.CreateThenMatch` | kv/util/bloom.cpp:29-90 | No false negatives |
| `Separators.FindShortestSeparator` | kv/util/comparator.cpp:31-58 | At the first difference the byte goes up by one and the rest is cut off if that stays below the limit; so the string itself, or one strictly between and no longer |
| `Separators.FindShortSuccessor` | kv/util/comparator.cpp:60-75 | The first byte that can go up does and the rest is cut off; so the string itself, or a larger one no longer |
| `Separators.InternalSeparator` | kv/db/dbformat.cpp:71-90 | The key itself, or one with a user key strictly between; in internal key order not before start and before limit |
| `Separators.InternalSuccessor` | kv/db/dbformat.cpp:92-107 | Not before the key |
| `EngineComparator.EngineIsComparator` | kv/db/dbformat.cpp:71-107 | The engine's separator and successor satisfy what table building and lookup require of a comparator |
| `UserKeys.RankOrder` | kv/include/slice.h:92-104 | Bytewise comparison of strings is comparison of their ranks among the reals |
| `UserKeys.RankInjective` | kv/include/slice.h:92-104 | Different strings have different ranks |
| `Caches.FIFOCache.Insert` | kv/util/cache.cpp:284-326 | The caller holds a reference to the new handle, cached unless capacity is 0; besides a handle with the same key exactly the oldest unused handles left, and no more of them than needed: with the last one evicted still in, usage exceeded the capacity; nothing is evicted when everything fits; usage is within capacity or everything cached is in use |
| `Caches.FIFOCache.Lookup` | kv/util/cache.cpp:267-276 | Finds the cached handle with the key, if there is one, and takes a reference |
| `Caches.FIFOCache.Release` | kv/util/cache.cpp:278-282 | Gives one reference back; the handle is freed or becomes evictable |
| `Caches.FIFOCache.Erase` | kv/util/cache.cpp:343-347 | The cached entries are those before without the one with the key; clients keep theirs |
| `Caches.FIFOCache.Prune` | kv/util/cache.cpp:349-362 | What is cached afterwards is exactly what was in use |
| `Caches.FIFOCache.FinishErase` | kv/util/cache.cpp:330-341 | The handle leaves its list, the charge and the cache's references |
| `Caches.RefKeeps` | kv/util/cache.cpp:225-233 | References, lists, usage and the freed list stay right |
| `Caches.ReleaseKeeps` | kv/util/cache.cpp:235-251 | References, lists, usage and the freed list stay right; a handle is freed once, at zero references |
| `Caches.EraseKeeps` | kv/util/cache.cpp:330-341 | and the cached entries are those before without this one |
| `Caches.AddKeeps` | kv/util/cache.cpp:291-309 | References, lists, usage and the freed list stay right |
| `Caches.KeysAreUnique` | kv/util/cache.cpp:71-86 | No two cached handles have the same key |
| `HandleTables.HandleTable.Lookup` | kv/util/cache.cpp:66-69 | Whatever is in the table under a key is found, nothing else |
| `HandleTables.HandleTable.Insert` | kv/util/cache.cpp:71-86 | The handle is in, in the place of one with the same key, which is returned; the table grows exactly if it has more handles than buckets |
| `HandleTables.HandleTable.Remove` | kv/util/cache.cpp:88-98 | The handle with the key is out and returned |
| `HandleTables.HandleTable.Resize` | kv/util/cache.cpp:120-148 | Every handle stays reachable in its new bucket; the new length is the smallest power of two, from 4 on, with a bucket for every handle |
| `HandleTables.MaskIsRemainder` | kv/util/cache.cpp:110-118 | With a power of two as the length, which the table keeps, hash & (length - 1) is the remainder |
| `Rings.Append` | kv/util/cache.cpp:259-265 | A circular list with the node at its end |
| `Rings.Remove` | kv/util/cache.cpp:253-257 | The circular list without the node |
| `Rings.AppendKeepsRing` | kv/util/cache.cpp:259-265 | Joining last, new and head nodes both ways extends the ring |
| `Rings.RemoveKeepsRing` | kv/util/cache.cpp:253-257 | Joining the neighbours both ways closes the ring |
| `Snapshots.SnapshotList.Oldest` | kv/db/snapshot.h:44-48 | The smallest live sequence number |
| `Snapshots.SnapshotList.SmallestSnapshot` | kv/db/db_impl.cpp:1044-1051 | The smallest live sequence number, or LastSequence if there is none |
| `Snapshots.SnapshotList.New` | kv/db/snapshot.h:56-68 | Appended; the list stays ordered |
| `Snapshots.SnapshotList.Delete` | kv/db/snapshot.h:77-83 | Exactly this snapshot is gone |

## Left out

- Background errors, `paranoid_checks`, failed appends, syncs and table writes inside the state machine: a step either happens or the process crashes; `GroupCommit` has failed groups.
- Corrupt internal keys, blocks and logs beyond what the reader's contracts say for every file: the compaction loop's and `DBIter`'s branches for unparsable keys, `initial_offset` and resynchronisation, the error status of block iterators.
- Database.CompactStartStep: requires that no key is exposed, because the code does not establish it (see above).
- Database.FlushWriteStep: requires a table flushed to the output level of a running manual compaction not to have kept entries on both sides, because the code does not establish it (see above).
- When to compact: scores, seek charging, read sampling, the compaction pointer's update; the choice of level and file is arbitrary in the model.
- InputStreams.ReadInput: reads the whole input before the compaction loop consumes it, where the code alternates; the input files do not change meanwhile.
- Background.MemGetNewest: takes the memtable as its sorted entries, not as encoded records in a skip list; the skip list's search is `SkipLists.SkipList.FindGreaterOrEqual`.
- Reference counts of memtables and versions: readers of the machine keep what they captured.
- `reuse_logs` and manifest reuse; the descriptor's file names and CURRENT; log and table caches.
- BlockFormats.DecodeEntry: does not model the 32-bit overflow of non_shared + value_length, which only a corrupt block can cause.
- Bloom.CreateFilter: takes any hash function in the place of the engine's own, which no property depends on.
- TableBuilders.BuildAndGet: requires a filter block below 4 GiB, because its offsets are cut to 32 bits; a table without a filter policy is one whose filter block is empty.
- Tables.InternalGet: takes the index as the list of its keys; that a block's iterator seeks as assumed is `BlockIterators.Iter.Seek`.
- CrcDetects.TableStep: models the byte-at-a-time step; the 16-byte strides with their four tables are not part of this model.
- CrcDetects.TableEntries: pins four of the table's numbers; the others follow from linearity over the same recurrence.
- HandleTables.HandleTable.Resize: models a chain as a sequence, not through next_hash pointers.
- Caches.FIFOCache.Insert: models the two circular lists as sequences of handle numbers; `Rings.Append` and `Rings.Remove` show what the pointer operations do to such lists.
- Merger.MergingIterator.Seek: children are sorted sequences with a position; that each real child behaves so is proved for blocks, tables and the skip list separately.
- Memory orders, the arena, random heights (any height), compression, the block cache's sharding, `Env`, `Status` texts.
- `http_server/`, `conf/`, `error/`: configuration and socket plumbing, which would only add easy members.

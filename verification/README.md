# The storage engine and the message codec, verified

This project models the two libraries that carry the application's data and proves what they are
for: **leveldb**, the LSM-tree storage engine (`Code/Pods/leveldb-library`), and **nanopb**, the
schema-driven Protocol Buffers codec (`Code/Pods/nanopb`).

## How it is organised

*The engine as a state machine.* `Engine` defines the program's state (memtables, version, logs,
manifest, snapshots, writer queue), its steps and recovery from disk; beside it runs the plain list
of committed writes. `EngineInv` states the invariant part by part, `EngineSteps`, `EngineFiles`,
`ManifestSteps` and `Recovery` prove that each step keeps it, and `Runs` draws the conclusions for
whole runs. `DbImpl` is the database object: each of its methods is one atomic section of the program
and is proved to take exactly the step it is named after. Levels are searched, picked, merged and
rebuilt in `FileSearch`, `Picking`, `Reading`, `CompactionWork`, `Builder` and `Reopen`.

*What one compaction means.* `Survivors` says which entries are written out, `Compaction` and
`Install` what the new version holds, and `Meaning` when reads survive. The program closes only the
upper inputs of a compaction under shared boundary keys, so preservation is not unconditional: it
holds if and only if the compaction *exposes* nothing (`Meaning.Exposed`). The compaction step of the
runs carries that as its precondition; the database object compacts any job and says which it was.
`Boundary` shows that closing the lower inputs too would guarantee it, and `Resurfacing` gives a run
that ends where a compaction brings a deleted key back.

*User keys* are named by their rank in the comparator's order, a real number, so that every
comparison of the engine is a comparison of ranks. `Bytewise.RankIsOrder` shows that the default
comparator has such ranks, and `InternalKeys.EncodedOrder` that encoded keys compare alike.

*Bytes on disk.* `Log`, `LogReader` and `LogCrash` are the log format and its reader; `WriteBatches`
puts batches into it; `VersionEdits` and `ManifestBytes` are the manifest; `ByteRecovery` recovers
from the bytes of both. `LogSound` and `LogRecords` say what the reader makes of any file, damaged or
not. `Block*`, `Table*`, `Bloom` and `FilterBlock` are the table format, filter included, and
`TableTrip` is the whole way there and back; `Coding` the encodings they share. `Digits`, `Tokens`,
`DiskFormat`, `TableLayout` and `Checksums` spell the formats out byte by byte, without the functions
that write them.

*Iterators* are classes proved to be cursors: `Merger` over a sorted union, `DbIter` over the live
pairs, `TwoLevel` over blocks, `BlockReading.Iter` over one block. `Scan` ties them to the history,
and `Pins` shows that an open one stays good while the engine runs on.

*In memory:* `SkipList`, `HandleTables`, `LruCache`; `CacheRuns` and `CacheOrder` are whole runs of a
cache.

*nanopb:* `PbWire` is the field table, the messages it admits and the wire format; `PbFormat` reads
what is written by the encoding rules alone. `PbDecode` is the decoding function; `PbItems` and
`PbEvolution` say what a reader makes of messages of another schema, and `PbRoundTrip` is the case of
the same one; `PbSound` takes arbitrary bytes. `PbEncode` and `PbStream` are the encoder and decoder
as they run over streams, proved against the two functions.

A program loop or in-place update is a Dafny method or class; it is proved against a specification
function or predicate, and the properties are lemmas about those.

Where code and comments differ the code is followed: `VersionEdit::Clear` leaves the compaction
pointers (`VersionEdits.IdentityIff`).

## Model

| member | source | states |
|---|---|---|
| `Runs.EveryReadIsSpec` | Code/Pods/leveldb-library/db/db_impl.cc:1100-1145 | In every state of every run (write groups, memtable switches, flushes, moves, compactions that expose nothing, snapshots, collection, crashes) a read at a live snapshot or at the latest sequence number answers exactly what the list of committed writes says, also while a group is half inserted |
| `Runs.SnapshotStable` | Code/Pods/leveldb-library/db/snapshot.h:46-86 | From when a snapshot is taken until it is itself released, or the process dies, it answers what the database answered when it was taken |
| `Runs.SnapshotsFollow` | Code/Pods/leveldb-library/db/db_impl.cc:1166-1174 | Over every run the list of snapshots gains exactly the number of committed writes when one is taken, loses exactly the one released, and is otherwise left alone |
| `Runs.CrashKeepsHistory` | Code/Pods/leveldb-library/db/db_impl.cc:280-489 | A crash after any step and the recovery that follows lose no committed write; the group already in the log survives whole |
| `Runs.GroupCommit` | Code/Pods/leveldb-library/db/db_impl.cc:1185-1306 | Over every run the writers that arrived are, in order, those served and those still queued; the history is the landed batches, each once and whole; only a crash leaves a served writer untold; an acknowledged writer's batch landed, and one that asked for a sync was served by a leader that synced |
| `Runs.VersionsStaySound` | Code/Pods/leveldb-library/db/version_set.cc:801-884 | Every reachable version keeps deeper levels disjoint and newer entries of a key shallower (level 0: in larger file numbers), and the manifest replays to it |
| `Runs.RunInv` | Code/Pods/leveldb-library/db/db_impl.cc:688-767 | The engine's invariant (memtables, logs, manifest, version, snapshots, queue) holds in every state of every run |
| `Runs.HistoryGrows` | Code/Pods/leveldb-library/db/db_impl.cc:1185-1256 | The committed history only grows, across crashes too, and what became of a writer is never revised |
| `Runs.StepKeeps` | Code/Pods/leveldb-library/db/db_impl.cc:688-767 | Each single step keeps the invariant |
| `Recovery.CrashKeeps` | Code/Pods/leveldb-library/db/db_impl.cc:280-489 | What is rebuilt from disk after a crash satisfies the whole invariant for the history including the group in the log, for every way the replayed memtables may be cut |
| `Recovery.FlushLogsInv` | Code/Pods/leveldb-library/db/db_impl.cc:371-489 | Replaying the logs in order into level-0 tables keeps the version sound and covers every write up to the end of the logs |
| `Scan.ScanIsSpec` | Code/Pods/leveldb-library/db/db_impl.cc:1062-1157 | The pairs an iterator over memtables and files shows at a sequence number are exactly the history's content there, in key order |
| `Meaning.PreservesReadsIff` | Code/Pods/leveldb-library/db/db_impl.cc:878-1036 | A finished compaction preserves every read at or above the oldest snapshot if and only if it exposes nothing: no dropped deletion is what that snapshot reads while an older value of the key stays in an untouched file of the output level |
| `Meaning.ExposedBreaks` | Code/Pods/leveldb-library/db/db_impl.cc:946-971 | Where something is exposed the oldest snapshot read nothing before and reads the older value after |
| `Boundary.LowerClosedExposesNothing` | Code/Pods/leveldb-library/db/version_set.cc:1403-1462 | If no output-level file after an input starts with the user key the input ends with, nothing is exposed |
| `Resurfacing.DeletedKeyComesBack` | Code/Pods/leveldb-library/db/version_set.cc:1403-1410 | A run from a new database to a state where a key is deleted and reads so, and a compaction of the program's form there after which the same read answers the old value |
| `Resurfacing.PickSample` | Code/Pods/leveldb-library/db/version_set.cc:1403-1462 | That compaction's job is exactly what the program makes of picking that file, expanded or not |
| `Resurfacing.PlaceSample` | Code/Pods/leveldb-library/db/version_set.cc:491-516 | Its flushes go to the level the program picks |
| `Boundary.DeletedKeyRead` | Code/Pods/leveldb-library/db/db_impl.cc:946-971 | Before it the oldest snapshot reads nothing for the key, after it the older value |
| `Survivors.KeptMembers` | Code/Pods/leveldb-library/db/db_impl.cc:930-987 | The loop's positional rule keeps exactly the entries with no newer entry visible to the oldest snapshot that are not obsolete deletions |
| `CompactionWork.Compaction.DoCompactionWork` | Code/Pods/leveldb-library/db/db_impl.cc:878-1036 | The loop over the merged input writes exactly the surviving entries, in order, whatever decides where output files are cut |
| `CompactionWork.Compaction.IsBaseLevelForKey` | Code/Pods/leveldb-library/db/version_set.cc:1533-1552 | For keys asked in increasing order the forward-only level pointers answer as a scan of all deeper files would |
| `CompactionWork.Compaction.AdvanceLevel` | Code/Pods/leveldb-library/db/version_set.cc:1537-1549 | One level's pointer passes only files that end before the key and tells whether a file's range holds it |
| `Install.MergedSound` | Code/Pods/leveldb-library/db/version_set.cc:801-884 | Swapping the inputs of a compaction for its outputs leaves a sound version |
| `Placement.PlacedSound` | Code/Pods/leveldb-library/db/version_set.cc:491-516 | A memtable's table placed at the chosen level leaves a sound version |
| `Upkeep.Compact` | Code/Pods/leveldb-library/db/db_impl.cc:860-876 | A compaction that exposes nothing keeps the version telling the history's truth from the oldest snapshot on |
| `Upkeep.Move` | Code/Pods/leveldb-library/db/db_impl.cc:718-733 | A trivial move changes no read |
| `Upkeep.Flush` | Code/Pods/leveldb-library/db/db_impl.cc:491-533 | A flush makes the files answer for all the memtable's writes |
| `FileSearch.FindFile` | Code/Pods/leveldb-library/db/version_set.cc:88-106 | Binary search finds the first file whose largest key is not before the target |
| `FileSearch.SomeFileOverlapsRange` | Code/Pods/leveldb-library/db/version_set.cc:122-157 | True exactly when some file meets the user-key range, also by binary search on disjoint files |
| `FileSearch.GetOverlappingInputs` | Code/Pods/leveldb-library/db/version_set.cc:519-559 | Terminates despite its restarts; at level 0 it returns exactly the files meeting the least range around the request that is closed under file overlap, elsewhere exactly the files meeting the request |
| `Picking.AddBoundaryInputs` | Code/Pods/leveldb-library/db/version_set.cc:1378-1401 | No file continues the last user key of the inputs any more, a run without gaps stays one, sorted inputs stay sorted |
| `Picking.FindLargestKey` | Code/Pods/leveldb-library/db/version_set.cc:1326-1340 | The largest key of the files |
| `Picking.FindSmallestBoundaryFile` | Code/Pods/leveldb-library/db/version_set.cc:1344-1362 | The first file that continues a user key, if any does |
| `Picking.GetRange` | Code/Pods/leveldb-library/db/version_set.cc:1205-1222 | The least range of keys around the files |
| `Picking.SetupOtherInputs` | Code/Pods/leveldb-library/db/version_set.cc:1403-1462 | Any pick becomes a job that holds the pick, whose upper inputs are closed under shared boundary keys and whose lower inputs are exactly the files meeting their range, in the order the merge needs |
| `Picking.PickLevelForMemTableOutput` | Code/Pods/leveldb-library/db/version_set.cc:491-516 | Below level 0 the table meets no file of its level or of any level above; it stops short of level 2 only where the next level meets it or the one after is too heavy |
| `Reading.Get` | Code/Pods/leveldb-library/db/version_set.cc:326-421 | The first level that answers gives the newest visible entry of the whole version |
| `Reading.SearchLevelZero` | Code/Pods/leveldb-library/db/version_set.cc:348-366 | Level 0 searched newest file first finds the newest visible entry of all its files |
| `Reading.SearchSortedLevel` | Code/Pods/leveldb-library/db/version_set.cc:366-381 | One file found by binary search decides for a sorted level |
| `Builder.SaveTo` | Code/Pods/leveldb-library/db/version_set.cc:695-754 | Merging base and added files in order yields exactly the undeleted ones, still in order |
| `Builder.OrderAdded` | Code/Pods/leveldb-library/db/version_set.cc:650-692 | Added files end up ordered by smallest key and number |
| `Builder.ApplyEdit` | Code/Pods/leveldb-library/db/version_set.cc:650-754 | The new file lists are, as sets, the version with the edit applied, and are in order |
| `Manifest.RebuildIsFold` | Code/Pods/leveldb-library/db/version_set.cc:886-1011 | One builder over all edits, saved once, equals applying and saving edit by edit, when no level adds a number twice |
| `DbImpl.BuildBatchGroup` | Code/Pods/leveldb-library/db/db_impl.cc:1260-1306 | The group is as long as it can be: it holds no writer that wants a sync its leader does not, stays within 128 KiB beyond a small first batch or 1 MiB, and the next writer would break one of the two; its writes are the batches in order |
| `DbImpl.DBImpl.constructor` | Code/Pods/leveldb-library/db/db_impl.cc:1474-1515 | Opening a new database yields the initial state of the runs |
| `DbImpl.DBImpl.Restart` | Code/Pods/leveldb-library/db/db_impl.cc:280-489 | Recovery from disk takes exactly the crash step |
| `DbImpl.DBImpl.Enqueue` | Code/Pods/leveldb-library/db/db_impl.cc:1185-1198 | A writer joins the queue |
| `DbImpl.DBImpl.StartGroup` | Code/Pods/leveldb-library/db/db_impl.cc:1202-1222 | The leader logs its group under the next sequence numbers |
| `DbImpl.DBImpl.InsertOne` | Code/Pods/leveldb-library/db/write_batch.cc:116-129 | One write of the group enters the memtable under its own sequence number |
| `DbImpl.DBImpl.Publish` | Code/Pods/leveldb-library/db/db_impl.cc:1233-1256 | The last sequence number moves past the group and its writers are done |
| `DbImpl.DBImpl.FinishForced` | Code/Pods/leveldb-library/db/db_impl.cc:1201-1205 | A writer without a batch is done after the switch it asked for |
| `DbImpl.DBImpl.SwitchMemTable` | Code/Pods/leveldb-library/db/db_impl.cc:1345-1367 | A new log and memtable, only while no immutable memtable exists |
| `DbImpl.DBImpl.GetSnapshot` | Code/Pods/leveldb-library/db/db_impl.cc:1166-1169 | The number of committed writes joins the list and is handed out |
| `DbImpl.DBImpl.ReleaseSnapshot` | Code/Pods/leveldb-library/db/db_impl.cc:1171-1174 | Exactly the snapshot released leaves the list |
| `DbImpl.DBImpl.Get` | Code/Pods/leveldb-library/db/db_impl.cc:1100-1145 | Returns what the history says for the key at the sequence number |
| `DbImpl.DBImpl.NewIterator` | Code/Pods/leveldb-library/db/db_impl.cc:1147-1157 | A fresh cursor over exactly the history's pairs at the sequence number, in key order |
| `Pins.PinnedScan` | Code/Pods/leveldb-library/db/version_set.cc:1167-1177 | Over every run in which collections spare the versions iterators refer to, an open iterator shows the history's content at its sequence number, in key order, through all later writes, flushes, compactions and collections |
| `DbImpl.DBImpl.CompactMemTable` | Code/Pods/leveldb-library/db/db_impl.cc:535-566 | Takes the flush step: the table is added and its log retired by one manifest record |
| `DbImpl.DBImpl.TrivialMove` | Code/Pods/leveldb-library/db/db_impl.cc:718-733 | Takes the move step |
| `DbImpl.DBImpl.CompactFiles` | Code/Pods/leveldb-library/db/db_impl.cc:860-1036 | For every job: merges, filters and installs a compaction of the program's form; it is the compaction step of the runs unless it exposes a deleted key |
| `DbImpl.DBImpl.BackgroundCompaction` | Code/Pods/leveldb-library/db/db_impl.cc:688-767 | From any pick: a flush if a memtable waits, else a move of the picked file or a compaction of a job around the pick; a step of the runs unless it is a compaction that exposes a deleted key |
| `DbImpl.DBImpl.DeleteObsoleteFiles` | Code/Pods/leveldb-library/db/db_impl.cc:223-278 | Takes the collection step: exactly the dead tables nobody keeps and the retired logs go |
| `DbImpl.AddLiveFiles` | Code/Pods/leveldb-library/db/version_set.cc:1167-1177 | Exactly the numbers of the version's files |
| `DbImpl.InputSources` | Code/Pods/leveldb-library/db/version_set.cc:1237-1268 | The sources of a compaction hold exactly the entries of its inputs and share no key |
| `Iterators.AddIterators` | Code/Pods/leveldb-library/db/version_set.cc:230-246 | The sources of a version hold exactly its entries and share no key |
| `Sources.ConcatSorted` | Code/Pods/leveldb-library/db/version_set.cc:223-228 | The tables of disjoint files in order form one sorted table |
| `Reopen.RecoverLogFile` | Code/Pods/leveldb-library/db/db_impl.cc:371-489 | The loop over a log's records writes the tables, file numbers and sequence number that replaying the records in parts gives |
| `Reopen.RecoverLogs` | Code/Pods/leveldb-library/db/db_impl.cc:323-366 | Every log numbered at or above the manifest's is replayed, in order |
| `Reopen.RebuildFiles` | Code/Pods/leveldb-library/db/version_set.cc:886-1011 | The file lists rebuilt from the edits, in order |
| `Reopen.RecoverDisk` | Code/Pods/leveldb-library/db/db_impl.cc:280-369 | All of recovery equals the function the crash step is defined by |
| `History.TableOfEntries` | Code/Pods/leveldb-library/db/memtable.cc:75-98 | A memtable filled in commit order is sorted and holds exactly those writes |
| `Keys.FindNewest` | Code/Pods/leveldb-library/db/memtable.cc:100-134 | One seek finds the newest visible entry of a user key, if there is one |
| `Merger.MergingIterator.SeekToFirst` | Code/Pods/leveldb-library/table/merger.cc:31-37 | The cursor stands on the first entry of the sorted union |
| `Merger.MergingIterator.SeekToLast` | Code/Pods/leveldb-library/table/merger.cc:39-45 | The cursor stands on the last entry of the sorted union |
| `Merger.MergingIterator.Seek` | Code/Pods/leveldb-library/table/merger.cc:47-53 | The cursor stands on the first entry of the union at or after the target |
| `Merger.MergingIterator.Next` | Code/Pods/leveldb-library/table/merger.cc:55-79 | The next entry of the union, also right after moving backward |
| `Merger.MergingIterator.Prev` | Code/Pods/leveldb-library/table/merger.cc:81-108 | The previous entry of the union, also right after moving forward |
| `Merger.MergingIterator.FindSmallest` | Code/Pods/leveldb-library/table/merger.cc:148-161 | The child chosen holds the union's next entry |
| `Merger.MergingIterator.FindLargest` | Code/Pods/leveldb-library/table/merger.cc:163-176 | The child chosen holds the union's previous entry |
| `Merger.CutNext` | Code/Pods/leveldb-library/table/merger.cc:55-79 | Passing one entry of the union moves exactly the child that holds it |
| `DbIter.DBIter.Next` | Code/Pods/leveldb-library/db/db_iter.cc:141-166 | The next live pair in the list, from either direction |
| `DbIter.DBIter.Prev` | Code/Pods/leveldb-library/db/db_iter.cc:200-225 | The previous live pair in the list, from either direction |
| `DbIter.DBIter.Seek` | Code/Pods/leveldb-library/db/db_iter.cc:269-281 | The first live pair whose user key is not before the target |
| `DbIter.DBIter.SeekToFirst` | Code/Pods/leveldb-library/db/db_iter.cc:283-292 | The first live pair |
| `DbIter.DBIter.SeekToLast` | Code/Pods/leveldb-library/db/db_iter.cc:294-299 | The last live pair |
| `DbIter.DBIter.FindNextUserEntry` | Code/Pods/leveldb-library/db/db_iter.cc:168-198 | The first shown entry after the skipped user key, passing no other |
| `DbIter.DBIter.FindPrevUserEntry` | Code/Pods/leveldb-library/db/db_iter.cc:227-267 | The last shown entry before the start, left in the state a later Next needs |
| `DbIter.PairsAreReads` | Code/Pods/leveldb-library/db/db_iter.cc:34-38 | The list holds exactly what point reads at its sequence number find |
| `DbIter.PairsSorted` | Code/Pods/leveldb-library/db/db_iter.cc:34-38 | The list is in strictly increasing order of user keys |
| `TwoLevel.TwoLevelIterator.Seek` | Code/Pods/leveldb-library/table/two_level_iterator.cc:82-87 | The first entry of all blocks at or after the target, whether blocks are empty or not |
| `TwoLevel.IndexBrackets` | Code/Pods/leveldb-library/table/table_builder.cc:94-139 | The shortened index keys of a table builder separate the blocks as that search needs |
| `TwoLevel.TwoLevelIterator.Next` | Code/Pods/leveldb-library/table/two_level_iterator.cc:103-107 | The next entry of all blocks, over empty ones |
| `TwoLevel.TwoLevelIterator.Prev` | Code/Pods/leveldb-library/table/two_level_iterator.cc:109-113 | The previous entry of all blocks, over empty ones |
| `TwoLevel.TwoLevelIterator.SkipEmptyDataBlocksForward` | Code/Pods/leveldb-library/table/two_level_iterator.cc:115-126 | Lands on the next entry, however many blocks are empty |
| `TwoLevel.TwoLevelIterator.SkipEmptyDataBlocksBackward` | Code/Pods/leveldb-library/table/two_level_iterator.cc:128-139 | Lands on the previous entry, however many blocks are empty |
| `LogCrash.CrashPrefix` | Code/Pods/leveldb-library/db/log_reader.cc:56-174 | Reading any byte prefix of what the writer produced returns exactly the records wholly contained in it, in order, and reports no corruption |
| `LogCrash.LogRoundTrip` | Code/Pods/leveldb-library/db/log_reader.cc:56-174 | The uncut file gives all records back |
| `LogCrash.FramesRead` | Code/Pods/leveldb-library/db/log_reader.cc:71-173 | The fragments of one record, across trailers and empty fragments, reassemble to it, or to end of file when cut |
| `LogCrash.PhysicalRead` | Code/Pods/leveldb-library/db/log_reader.cc:189-271 | A physical record is read where it was written, or end of file when it is not all there |
| `Log.Writer.AddRecord` | Code/Pods/leveldb-library/db/log_writer.cc:34-82 | Appends the framing the position demands; the file is the framing of all records added |
| `Log.Writer.EmitPhysicalRecord` | Code/Pods/leveldb-library/db/log_writer.cc:82-108 | Appends header and payload |
| `LogReader.Reader.ReadRecord` | Code/Pods/leveldb-library/db/log_reader.cc:56-174 | Computes the reading function, for every file, corrupt ones included |
| `LogSound.PhysicalSound` | Code/Pods/leveldb-library/db/log_reader.cc:189-271 | On every file, each physical read gives what the rest of the block calls for: a fragment exactly if a writer's bytes for that type and data stand there, a report of the whole rest if a complete header with type or length does not match its bytes, the end where the file is cut; and it goes on right behind |
| `LogSound.ChecksumMeans` | Code/Pods/leveldb-library/db/log_reader.cc:243-256 | A complete record passes the checksum exactly if it is what a writer emits for its type and data |
| `LogRecords.RecordsAreGroups` | Code/Pods/leveldb-library/db/log_reader.cc:56-174 | On every file the records returned are exactly those whose parts stand one right after the other; every payload byte is in a record, or reported as dropped, or in the record still open at the end; what cannot be read is reported |
| `LogRecords.FileFollows` | Code/Pods/leveldb-library/db/log_reader.cc:189-271 | The physical records read from a file are what its bytes call for, place after place |
| `LogRecords.OnlyWritten` | Code/Pods/leveldb-library/db/log_reader.cc:56-174 | A record returned from any file is the concatenation of parts a writer put there one after the other, each with its own checksum |
| `RecordFiles.NothingLost` | Code/Pods/leveldb-library/db/db_impl.cc:374-440 | A file that recovery accepts has nothing unreadable in it, and all its payload is in its records or in the one still open at its end |
| `LogReader.Reader.ReadPhysicalRecord` | Code/Pods/leveldb-library/db/log_reader.cc:189-271 | Returns what the parsing function says, for every file |
| `LogCrash.ReadLog` | Code/Pods/leveldb-library/db/db_impl.cc:412-453 | The records and reports of a whole file |
| `WriteBatches.TornLogReplays` | Code/Pods/leveldb-library/db/db_impl.cc:371-452 | A log of batches cut at any byte replays exactly the batches wholly written, each with its sequence number and writes |
| `ByteRecovery.TornGroup` | Code/Pods/leveldb-library/db/db_impl.cc:371-489 | A crash at any byte of the record the leader is appending: what recovery reads from the files' bytes is the disk of a crash right before or right after the append, so no committed write is lost and of the group all or nothing is there |
| `ByteRecovery.TornInstall` | Code/Pods/leveldb-library/db/version_set.cc:801-884 | A crash at any byte of the manifest record that a flush, move or compaction is appending, its tables already written: the database of a crash right before or right after the record |
| `ManifestBytes.TornManifest` | Code/Pods/leveldb-library/db/version_set.cc:886-1011 | A manifest that ends inside the edit being appended reads as the edits before it or with it |
| `ManifestBytes.WholeManifest` | Code/Pods/leveldb-library/db/version_set.cc:886-1011 | The manifest's bytes read back as the engine's edits |
| `ManifestBytes.KeyOfEncoded` | Code/Pods/leveldb-library/db/dbformat.h:165-175 | The bounds of files are the engine's keys |
| `RecordFiles.CutFile` | Code/Pods/leveldb-library/db/log_reader.cc:56-174 | A file of records cut at any byte gives exactly the records wholly in it, each understood |
| `RecordFiles.TornFile` | Code/Pods/leveldb-library/db/log_reader.cc:56-174 | Cut inside the last record it gives all records or all but that one |
| `ByteRecovery.RecoverFromBytes` | Code/Pods/leveldb-library/db/db_impl.cc:280-489 | A crash at any other time: recovery from the bytes of manifest and logs is the crash step |
| `ByteRecovery.CutLogFile` | Code/Pods/leveldb-library/db/db_impl.cc:412-453 | A log file cut at any byte gives exactly the engine's records wholly in it, without a corruption report |
| `ByteRecovery.FilesKept` | Code/Pods/leveldb-library/db/db_impl.cc:1209-1214 | Every step of a run can be followed in the bytes of manifest and log files |
| `ByteRecovery.OpOfInjective` | Code/Pods/leveldb-library/db/write_batch.cc:42-80 | Different writes stay different when keys are named by rank |
| `WriteBatches.BatchRoundTrip` | Code/Pods/leveldb-library/db/write_batch.cc:42-80 | Iterating a batch yields the writes put into it, and the count matches |
| `WriteBatches.WriteBatch.AddWrite` | Code/Pods/leveldb-library/db/write_batch.cc:98-109 | The count goes up by one and the record is appended |
| `WriteBatches.WriteBatch.Append` | Code/Pods/leveldb-library/db/write_batch.cc:144-148 | The writes of one batch followed by those of the other |
| `WriteBatches.WriteBatch.SetSequence` | Code/Pods/leveldb-library/db/write_batch.cc:94-96 | Only the sequence number changes |
| `VersionEdits.EditRoundTrip` | Code/Pods/leveldb-library/db/version_edit.cc:41-205 | Decoding an encoded edit gives it back behind the compaction pointers the target already had |
| `VersionEdits.IdentityIff` | Code/Pods/leveldb-library/db/version_edit.cc:26-39 | The round trip is the identity exactly when the edit decoded into has no compaction pointers, which Clear does not remove |
| `VersionEdits.ReusedEditKeepsPointer` | Code/Pods/leveldb-library/db/version_edit.cc:26-39 | A reused edit with a pointer does not decode to the edit written |
| `VersionEdits.EncodeTo` | Code/Pods/leveldb-library/db/version_edit.cc:41-85 | Writes the items of the edit in order |
| `VersionEdits.DecodeFrom` | Code/Pods/leveldb-library/db/version_edit.cc:107-205 | The loop over tagged items, none for a corrupt record |
| `Coding.VarintRoundTrip` | Code/Pods/leveldb-library/util/coding.cc:142-157 | Decoding an encoded number gives it back with the bytes it took |
| `Coding.GetVarint` | Code/Pods/leveldb-library/util/coding.cc:112-128 | The shift loop computes the varint, cut to its width |
| `Coding.PutVarint` | Code/Pods/leveldb-library/util/coding.cc:81-90 | The loop writes the varint |
| `Coding.VarintLength` | Code/Pods/leveldb-library/util/coding.cc:103-110 | A number takes at most n bytes exactly when it is below 128 to the n |
| `Coding.SliceRoundTrip` | Code/Pods/leveldb-library/util/coding.cc:171-179 | A length-prefixed slice is cut off its input exactly |
| `Coding.Fixed64RoundTrip` | Code/Pods/leveldb-library/util/coding.cc:20-33 | Fixed-width numbers come back |
| `Coding.MaskBijective` | Code/Pods/leveldb-library/util/crc32c.h:29-38 | Mask and Unmask are inverse bijections of the 32-bit words |
| `Coding.ExtendConcat` | Code/Pods/leveldb-library/util/crc32c.h:14-21 | The checksum of a concatenation can be computed in parts |
| `Checksums.CheckValue` | Code/Pods/leveldb-library/util/crc32c.cc:276-379 | The checksum of the digits 1 to 9 is the check value of CRC-32C |
| `Checksums.MaskRotates` | Code/Pods/leveldb-library/util/crc32c.h:22-40 | Masking rotates right by 15 bits and adds 0xa282ead8 |
| `Digits.Fixed64Is` | Code/Pods/leveldb-library/util/coding.cc:20-33 | Byte i of a fixed-width number is its i-th base-256 digit |
| `Digits.VarintIs` | Code/Pods/leveldb-library/util/coding.cc:81-90 | A varint is its base-128 digits, the lowest first |
| `TableLayout.RecordLayout` | Code/Pods/leveldb-library/db/log_writer.cc:82-108 | A log record is the masked checksum of type and data, the length, the type and the data, byte by byte |
| `TableLayout.BlockRule` | Code/Pods/leveldb-library/db/log_writer.cc:34-79 | Log records stay inside blocks of 32768 bytes and fill them before they are split |
| `DiskFormat.BatchIff` | Code/Pods/leveldb-library/db/write_batch.cc:42-81 | Of arbitrary bytes exactly those are a batch whose records spell writes, as many as the header counts |
| `DiskFormat.BatchSpells` | Code/Pods/leveldb-library/db/write_batch.cc:82-109 | A batch is written as sequence number, count and tagged records, byte by byte |
| `DiskFormat.RecordIff` | Code/Pods/leveldb-library/db/version_edit.cc:107-203 | Of arbitrary bytes exactly those are a manifest record that spell tagged items with levels the engine has, and the edit is what they describe |
| `DiskFormat.RecordSpells` | Code/Pods/leveldb-library/db/version_edit.cc:41-85 | The items of an edit are written each under its tag |
| `TableLayout.StoredIff` | Code/Pods/leveldb-library/table/format.cc:64-139 | A block is read exactly where a stored block stands; other contents, type or checksum are refused |
| `TableLayout.RawLayout` | Code/Pods/leveldb-library/table/table_builder.cc:177-202 | A stored block ends with its type and the masked checksum of both |
| `TableLayout.FooterIff` | Code/Pods/leveldb-library/table/format.cc:42-62 | Of 48 bytes exactly those are a footer that begin with two handles and end with the magic number |
| `TableLayout.EntryLayout` | Code/Pods/leveldb-library/table/block_builder.cc:72-105 | An entry is three lengths, the unshared part of the key and the value |
| `TableLayout.SharedMost` | Code/Pods/leveldb-library/table/block_builder.cc:77-89 | Keys share as much as they have in common with the one before, and nothing at restart points |
| `TableLayout.BlockLayout` | Code/Pods/leveldb-library/table/block_builder.cc:62-70 | A block ends with its restart offsets and their count |
| `TableLayout.RestartIs` | Code/Pods/leveldb-library/table/block_builder.cc:77-89 | Restart point j is where entry j times the interval starts |
| `TableLayout.FilterLayout` | Code/Pods/leveldb-library/table/filter_block.cc:35-49 | A filter block ends with the filters' offsets, the end of the filters and the base-2 logarithm 11 |
| `TableLayout.KeyLayout` | Code/Pods/leveldb-library/db/dbformat.cc:15-23 | An internal key ends with its sequence number and type in eight bytes |
| `Bytewise.FindShortestSeparator` | Code/Pods/leveldb-library/util/comparator.cc:29-50 | At or after start, and before the limit whenever start was; it is cut at the first difference and grown by one there exactly if the bytes leave room, and then no string between the two is shorter |
| `Bytewise.FindShortSuccessor` | Code/Pods/leveldb-library/util/comparator.cc:52-64 | The least of the shortest strings after the key; the key itself exactly if it is all 0xff |
| `Bytewise.RankIsOrder` | Code/Pods/leveldb-library/util/comparator.cc:25-27 | Ranks are ordered and equal exactly as the strings they stand for, so the engine's ranks lose nothing |
| `InternalKeys.FindShortestSeparator` | Code/Pods/leveldb-library/db/dbformat.cc:69-86 | A key at or after start and before limit; shortened exactly when the user keys leave room and something is saved, then with a user key strictly between and the largest tag |
| `InternalKeys.FindShortSuccessor` | Code/Pods/leveldb-library/db/dbformat.cc:88-101 | Not longer than the key and not before it; shortened exactly when a byte before the last of the user key can grow |
| `InternalKeys.EncodedOrder` | Code/Pods/leveldb-library/db/dbformat.cc:51-67 | Encoded keys compare exactly as the engine's keys do |
| `InternalKeys.ParseEncode` | Code/Pods/leveldb-library/db/dbformat.h:165-175 | Parsing an encoded key gives user key, sequence number and type back |
| `BlockBuilding.BlockBuilder.Add` | Code/Pods/leveldb-library/table/block_builder.cc:72-106 | The entry is appended, prefix-compressed except at restart points |
| `BlockBuilding.BlockBuilder.Finish` | Code/Pods/leveldb-library/table/block_builder.cc:62-70 | The block of exactly the entries added |
| `BlockBuilding.RestartsAppend` | Code/Pods/leveldb-library/table/block_builder.cc:72-106 | A restart point appears with every interval-th entry and no other |
| `BlockReading.Iter.ParseNextKey` | Code/Pods/leveldb-library/table/block.cc:224-251 | Decodes the entry that follows, for every entry of a finished block |
| `BlockReading.Iter.Next` | Code/Pods/leveldb-library/table/block.cc:137-140 | The next entry of the list |
| `BlockReading.Iter.Prev` | Code/Pods/leveldb-library/table/block.cc:142-161 | The previous entry of the list |
| `BlockReading.Iter.Seek` | Code/Pods/leveldb-library/table/block.cc:163-201 | The first entry at or after the target, as a linear scan finds it |
| `BlockReading.Iter.SeekToFirst` | Code/Pods/leveldb-library/table/block.cc:203-206 | The first entry |
| `BlockReading.Iter.SeekToLast` | Code/Pods/leveldb-library/table/block.cc:208-213 | The last entry |
| `BlockReading.DecodeRoundTrip` | Code/Pods/leveldb-library/table/block.cc:54-74 | The entry header decodes to what was encoded, by the fast and the slow path alike |
| `BlockReading.EntryIs` | Code/Pods/leveldb-library/table/block.cc:54-74 | Decoding at an entry's offset gives that entry and the next offset |
| `BlockTrip.ReadForward` | Code/Pods/leveldb-library/table/block.cc:137-140 | A forward pass over a block returns exactly the list it was built from |
| `BlockTrip.ReadBackward` | Code/Pods/leveldb-library/table/block.cc:142-161 | A backward pass returns the list in reverse |
| `BlockTrip.Build` | Code/Pods/leveldb-library/table/block_builder.cc:61-106 | Adding a list entry by entry and finishing gives its block |
| `TableSearch.IndexedGetIsLinear` | Code/Pods/leveldb-library/table/table.cc:216-244 | Index search, one block and the user-key check answer as a linear search of the whole list |
| `TableTrip.BuildAndGet` | Code/Pods/leveldb-library/table/table.cc:216-244 | For every strictly increasing list, every choice of where blocks end, with or without filters: building the file and looking a key up in its bytes finds what a linear search of the list finds |
| `TableTrip.Build` | Code/Pods/leveldb-library/table/table_builder.cc:94-253 | Adding the list entry by entry and finishing gives a table of exactly the list |
| `TableFile.InternalGet` | Code/Pods/leveldb-library/table/table.cc:216-244 | On the bytes of a finished file, and with any filter that never misses, exactly what a linear search of the entries finds |
| `TableFile.Get` | Code/Pods/leveldb-library/table/table.cc:38-82 | A table opened from its bytes, with or without a policy, answers with its own stored filter exactly what a linear search of the entries finds |
| `TableFile.ReadMeta` | Code/Pods/leveldb-library/table/table.cc:84-131 | Finds the filter block exactly if the table was written with a policy of that name, and then it answers for every key of the table |
| `TableFile.TableBuilder.Add` | Code/Pods/leveldb-library/table/table_builder.cc:94-123 | Adds the entry, before the first key of a block the separator of the block before, and hands the key to the filter block under the offset of its data block |
| `TableFile.TableBuilder.Flush` | Code/Pods/leveldb-library/table/table_builder.cc:125-139 | The block is stored, its index entry becomes pending, and the filter block moves on to the next offset |
| `TableFile.TableBuilder.Finish` | Code/Pods/leveldb-library/table/table_builder.cc:198-253 | The file is a table of exactly the entries added; with a policy its stored filter block rules out no key for its block, without one it has none |
| `TableParts.IndexSorted` | Code/Pods/leveldb-library/table/table_builder.cc:102-109 | Index keys increase strictly |
| `TableFilters.InternalNeverMisses` | Code/Pods/leveldb-library/db/dbformat.cc:103-119 | The policy on internal keys never misses when the user's does, and asks by user key only |
| `TableFilters.BloomTables` | Code/Pods/leveldb-library/util/bloom.cc:28-80 | Bloom filters on internal keys are such a policy |
| `TableFilters.BloomCost` | Code/Pods/leveldb-library/util/bloom.cc:28-54 | Their filters cost at most bits-per-key plus nine bytes a key |
| `TableFormat.StoredRoundTrip` | Code/Pods/leveldb-library/table/format.cc:64-139 | A stored block is read back wherever it is in the file |
| `TableFormat.FooterRoundTrip` | Code/Pods/leveldb-library/table/format.cc:31-62 | The footer gives both handles back |
| `TableFormat.HandleRoundTrip` | Code/Pods/leveldb-library/table/format.cc:15-29 | A block handle comes back with the rest of the input |
| `Bloom.NoFalseNegatives` | Code/Pods/leveldb-library/util/bloom.cc:28-80 | Every key a filter was made from matches it, for every hash function |
| `Bloom.MatchesExactly` | Code/Pods/leveldb-library/util/bloom.cc:56-80 | A key passes a filter exactly if each of its double-hashing probes is a probe of some key the filter was made from |
| `Bloom.FilterBits` | Code/Pods/leveldb-library/util/bloom.cc:28-54 | Bit b of byte i is set exactly if 8 i + b is a probe of some key; the last byte is the number of probes |
| `Bloom.FilterSize` | Code/Pods/leveldb-library/util/bloom.cc:28-40 | The least number of whole bytes that holds the bits asked for, at least 64 |
| `Bloom.KeyMayMatch` | Code/Pods/leveldb-library/util/bloom.cc:56-80 | The probing loop computes the matching predicate |
| `Bloom.CreateFilter` | Code/Pods/leveldb-library/util/bloom.cc:28-54 | The nested loops set exactly the probed bits |
| `Bloom.SetBitBits` | Code/Pods/leveldb-library/util/bloom.cc:50-53 | Setting a bit sets that bit and no other |
| `FilterBlock.FilterBlockBuilder.Finish` | Code/Pods/leveldb-library/table/filter_block.cc:35-49 | A key added under an offset may match at that offset in the finished block |
| `FilterBlock.BuildFilter` | Code/Pods/leveldb-library/table/filter_block.cc:21-104 | For every schedule of nondecreasing block offsets whose filters stay below 2^32 bytes: a key added while a block was open may match at that block's offset |
| `FilterBlock.FilterBlockBuilder.StartBlock` | Code/Pods/leveldb-library/table/filter_block.cc:21-27 | Filters are generated up to the offset's index, the first from the waiting keys; no added key is lost |
| `FilterBlock.FilterBlockBuilder.GenerateFilter` | Code/Pods/leveldb-library/table/filter_block.cc:51-75 | One more filter for the waiting keys |
| `FilterBlock.FilterBlockBuilder.AddKey` | Code/Pods/leveldb-library/table/filter_block.cc:29-33 | The key is the last of those waiting for the filter of the open block |
| `FilterBlock.GroupMatches` | Code/Pods/leveldb-library/table/filter_block.cc:90-104 | The reader finds the filter of an offset, the last one through the shared trailing offset |
| `FilterBlock.FilterDecides` | Code/Pods/leveldb-library/table/filter_block.cc:90-104 | In a finished filter block the filter made for the offset's two kilobytes decides alone |
| `FilterBlock.BloomNeverMisses` | Code/Pods/leveldb-library/util/bloom.cc:28-80 | Bloom filters are a policy that never misses |
| `SkipList.SkipList.Insert` | Code/Pods/leveldb-library/db/skiplist.h:337-368 | The key is added at its place; after every single link store each level is a sorted sublist of the one below |
| `SkipList.SkipList.LinkLevel` | Code/Pods/leveldb-library/db/skiplist.h:362-367 | The two stores on one level, each keeping the levels valid |
| `SkipList.SkipList.FindGreaterOrEqual` | Code/Pods/leveldb-library/db/skiplist.h:262-281 | The first node of the lowest list not before the key, and on every level the last node before it |
| `SkipList.SkipList.FindLessThan` | Code/Pods/leveldb-library/db/skiplist.h:285-302 | The last node of the lowest list before the key, or the head |
| `SkipList.SkipList.FindLast` | Code/Pods/leveldb-library/db/skiplist.h:305-322 | The last node of the lowest list, or the head |
| `SkipList.SkipList.Contains` | Code/Pods/leveldb-library/db/skiplist.h:371-378 | Whether the key is in the list |
| `SkipList.Publish` | Code/Pods/leveldb-library/db/skiplist.h:362-367 | The store that makes a node visible keeps every level sorted and a sublist |
| `HandleTables.HandleTable.Lookup` | Code/Pods/leveldb-library/util/cache.cc:74-76 | What the map says |
| `HandleTables.HandleTable.Insert` | Code/Pods/leveldb-library/util/cache.cc:78-92 | The map with the name set, and what was there; never more entries than chains |
| `HandleTables.HandleTable.Remove` | Code/Pods/leveldb-library/util/cache.cc:94-102 | The map without the name, and what was there |
| `HandleTables.HandleTable.Resize` | Code/Pods/leveldb-library/util/cache.cc:122-146 | The same map in at least as many chains as entries |
| `HandleTables.Rebuilt` | Code/Pods/leveldb-library/util/cache.cc:128-145 | Moving every item to its new chain loses, duplicates and changes none |
| `CacheRuns.FreedExactly` | Code/Pods/leveldb-library/util/cache.cc:217-237 | Over every run of a cache: a handle lives exactly while a client refers to it or the table names it, its count is the number of those references, and it is freed exactly when it was created and none is left |
| `CacheRuns.FreedForever` | Code/Pods/leveldb-library/util/cache.cc:225-237 | Freed handles stay freed, and a handle keeps name and charge while it lives |
| `CacheRuns.UsageFits` | Code/Pods/leveldb-library/util/cache.cc:293-300 | Usage is the sum of the cached charges, and after an insertion it is within capacity or nothing idle is left |
| `CacheOrder.IdleOrder` | Code/Pods/leveldb-library/util/cache.cc:225-250 | Over every run, of two idle handles the one nearer to eviction lost its last client reference earlier |
| `CacheOrder.LongestIdleFirst` | Code/Pods/leveldb-library/util/cache.cc:293-300 | Of two idle handles, if an insertion evicts one and not the other, it is the one idle for longer |
| `CacheOrder.InsertEvicts` | Code/Pods/leveldb-library/util/cache.cc:280-300 | An insertion evicts the handles idle longest, and with any fewer the cache would not fit |
| `CacheOrder.NamesFollow` | Code/Pods/leveldb-library/util/cache.cc:252-333 | Over every run a name stands for the handle last inserted under it until it is inserted again or erased, or the handle goes while no client has it, by pruning or because the cache would be over capacity |
| `CacheRuns.Perform` | Code/Pods/leveldb-library/util/cache.cc:252-333 | Each operation of the cache object is the step of the runs it is named after |
| `CacheRuns.Drive` | Code/Pods/leveldb-library/util/cache.cc:252-333 | The runs are the histories of a cache object |
| `LruCache.LRUCache.Lookup` | Code/Pods/leveldb-library/util/cache.cc:252-259 | The handle under the name with one more reference, moved to the in-use list if it was idle |
| `LruCache.LRUCache.Release` | Code/Pods/leveldb-library/util/cache.cc:261-264 | One reference less; freed exactly when it was the last; idle from now on if it was the clients' last (`CacheOrder.IdleOrder`) |
| `LruCache.LRUCache.Insert` | Code/Pods/leveldb-library/util/cache.cc:266-303 | A new handle has the name, the one it replaces is no longer cached, usage is within capacity or nothing idle is left, and clients keep every reference they have |
| `LruCache.LRUCache.Erase` | Code/Pods/leveldb-library/util/cache.cc:318-321 | The name is gone; its handle is freed if no client has it and else stays for its clients |
| `LruCache.LRUCache.Prune` | Code/Pods/leveldb-library/util/cache.cc:323-333 | No idle handle is left; clients keep every reference they have |
| `LruCache.LRUCache.FinishErase` | Code/Pods/leveldb-library/util/cache.cc:307-316 | Off its list, out of the cache, one reference less |
| `LruCache.LRUCache.Evict` | Code/Pods/leveldb-library/util/cache.cc:293-300 | The oldest idle handles, and only those, go until the cache fits; what is left of the idle list is its youngest part |
| `LruCache.EvictedOldestFirst` | Code/Pods/leveldb-library/util/cache.cc:293-300 | Eviction leaves the youngest idle handles and stops once the usage fits |
| `LruCache.InsertedUndisturbs` | Code/Pods/leveldb-library/util/cache.cc:266-303 | From the new handle's creation on, exactly handles no client has are freed and no client gains or loses a reference |
| `LruCache.EvictedUndisturbs` | Code/Pods/leveldb-library/util/cache.cc:293-300 | The same of eviction |
| `LruCache.ErasedKeeps` | Code/Pods/leveldb-library/util/cache.cc:307-316 | Erasing keeps the invariant: table, lists, usage and reference counts agree |
| `LruCache.CreatedKeeps` | Code/Pods/leveldb-library/util/cache.cc:266-303 | Inserting keeps the invariant up to the replaced handle, which is on its way out |
| `LruCache.ReleasedKeeps` | Code/Pods/leveldb-library/util/cache.cc:225-237 | Releasing keeps the invariant |
| `LruCache.ReferencedKeeps` | Code/Pods/leveldb-library/util/cache.cc:217-223 | Referencing keeps the invariant |
| `PbRoundTrip.MessageRoundTrip` | Code/Pods/nanopb/pb_decode.c:901-1063 | For every schema with distinct field numbers and every message of it, through submessages, packed and unpacked arrays, oneofs and left-out defaults: decoding the encoding gives the message back when every string written leaves room for its NUL, and fails otherwise |
| `PbEvolution.SchemasEvolve` | Code/Pods/nanopb/pb_decode.c:901-1063 | Reader and writer with different schemas that agree where they share a field number, at every depth: decoding gives exactly the reader's part of the message, with defaults for what was not written; it is refused exactly when that part has no room or one of the first 64 required fields is missing; unknown fields of every wire type leave no trace |
| `PbEvolution.MessagesMerge` | Code/Pods/nanopb/pb_decode.c:401-475 | Messages one after the other decode as one: the last single value counts, submessages are merged, arrays are joined as far as there is room, the last choice of a oneof stays, and required fields may be in any of them |
| `PbEvolution.ZeroEnds` | Code/Pods/nanopb/pb_decode.c:272-314 | A zero where a tag is due ends the message, whatever follows |
| `PbEvolution.ValReads` | Code/Pods/nanopb/pb_decode.c:1240-1508 | Each value decodes from its encoding into a field of another size, leaving the rest of the input, or is refused exactly when there is no room |
| `PbEvolution.SlotRead` | Code/Pods/nanopb/pb_decode.c:401-475 | The bytes of a known field turn what the reader holds into its part and touch no other field |
| `PbEvolution.SlotSkipped` | Code/Pods/nanopb/pb_decode.c:316-326 | The bytes of an unknown field of any kind change nothing |
| `PbItems.NumRoundTrip` | Code/Pods/nanopb/pb_decode.c:1240-1389 | A number is read into a field of any width: kept if it fits, refused if not; a plain varint is first cut to 32 bits unless its field has 64 |
| `PbItems.PackedRoundTrip` | Code/Pods/nanopb/pb_decode.c:419-448 | A packed array decodes item by item onto what the array holds, as far as it has room |
| `PbItems.Varint32RoundTrip` | Code/Pods/nanopb/pb_decode.c:182-247 | The 32-bit varint decoder, with its overflow checks, accepts every encoded 32-bit number |
| `PbSound.DecodedFits` | Code/Pods/nanopb/pb_decode.c:901-1063 | Whatever the bytes, a message that is decoded at all fits its struct: numbers their width, arrays and strings their size, at every depth |
| `PbSound.SkipIsTake` | Code/Pods/nanopb/pb_decode.c:272-326 | On every input an unknown field ends where the encoding rules say, and a wire type they do not have is refused |
| `PbSound.NumIsTake` | Code/Pods/nanopb/pb_decode.c:1240-1389 | On every input a number is decoded from exactly the payload the encoding rules take for its type, and to its value there |
| `PbSound.Varint32Iff` | Code/Pods/nanopb/pb_decode.c:182-247 | The 32-bit decoder keeps what fits 32 bits, cuts what only extends the sign beyond them, and refuses every other 64-bit number |
| `PbSound.Varint64Iff` | Code/Pods/nanopb/pb_decode.c:250-270 | On every input the 64-bit decoder takes at most ten digits and cuts them to 64 bits |
| `PbFormat.WrittenInFormat` | Code/Pods/nanopb/pb_encode.c:494-516 | Without the schema, by the rules of the Protocol Buffers encoding alone, the bytes of every message split into exactly its fields: number, wire type 0, 1, 2 or 5, and the payload digit by digit, submessages and packed arrays likewise |
| `PbRoundTrip.FullStringRefused` | Code/Pods/nanopb/pb_decode.c:1428-1461 | The encoder writes a string that fills its array, which the decoder refuses |
| `PbWire.ZeroIsDefault` | Code/Pods/nanopb/pb_encode.c:215-303 | The encoder leaves out exactly what the decoder starts with, recursively, if the type holds nothing that is always written |
| `PbWire.UnZigZagZigZag` | Code/Pods/nanopb/pb_encode.c:596-605 | Zigzag comes back for every integer |
| `PbTrip.Copy` | Code/Pods/nanopb/pb_encode.c:533-542 | A buffer of the size the counting pass announces takes the message, and decoding it gives the message back, or fails exactly when a string in it fills its array |
| `PbEncode.OStream.Write` | Code/Pods/nanopb/pb_encode.c:101-119 | Accepts exactly what fits, and counts only on a sizing stream |
| `PbEncode.EncodeMessage` | Code/Pods/nanopb/pb_encode.c:494-516 | Succeeds exactly when all counts and byte lengths are within the field table's bounds and the wire bytes fit, and then writes them, or counts them on a sizing stream |
| `PbEncode.EncodeSubmessage` | Code/Pods/nanopb/pb_encode.c:682-730 | Length from the counting pass, then the message; the two passes always agree |
| `PbEncode.EncodeSlot` | Code/Pods/nanopb/pb_encode.c:307-392 | One field by its rule: required, optional, implicit, repeated, oneof; an array that exceeds its bound is refused |
| `PbEncode.EncodePacked` | Code/Pods/nanopb/pb_encode.c:126-179 | Tag, counted length and items of a packed array |
| `PbEncode.EncodeUnpacked` | Code/Pods/nanopb/pb_encode.c:183-208 | One tag per item |
| `PbEncode.EncodeVal` | Code/Pods/nanopb/pb_encode.c:810-868 | One value; bytes that exceed their array are refused |
| `PbEncode.EncodeChars` | Code/Pods/nanopb/pb_encode.c:831-855 | A string is written up to its first NUL, or to the end of its array when there is none |
| `PbEncode.PackedSize` | Code/Pods/nanopb/pb_encode.c:146-167 | The size of the packed items, by multiplication or a counting pass |
| `PbEncode.EncodeVarint` | Code/Pods/nanopb/pb_encode.c:574-594 | Writes the varint |
| `PbEncode.GetEncodedSize` | Code/Pods/nanopb/pb_encode.c:533-542 | The number of bytes encoding will write; fails exactly on messages that exceed their bounds |
| `PbStream.DecodeMessage` | Code/Pods/nanopb/pb_decode.c:901-1049 | The loop over fields computes what the decoding function says, for every input, malformed ones included |
| `PbStream.DecodeInto` | Code/Pods/nanopb/pb_decode.c:1051-1063 | Decodes into the defaults |
| `PbStream.DecodeField` | Code/Pods/nanopb/pb_decode.c:401-475 | One field by its rule |
| `PbStream.DecodeSubmessage` | Code/Pods/nanopb/pb_decode.c:1463-1485 | A substream of the announced length |
| `PbStream.DecodeItems` | Code/Pods/nanopb/pb_decode.c:424-443 | The loop over a packed array, which fails when it does not fit |
| `PbStream.DecodeScalar` | Code/Pods/nanopb/pb_decode.c:1240-1389 | Numbers with their width checks |
| `PbStream.DecodeBlob` | Code/Pods/nanopb/pb_decode.c:1391-1508 | Bytes, strings and fixed-length bytes with their size checks |
| `PbStream.DecodeVarint32` | Code/Pods/nanopb/pb_decode.c:182-247 | The loop computes the 32-bit varint function |
| `PbStream.DecodeVarint` | Code/Pods/nanopb/pb_decode.c:250-270 | The loop computes the 64-bit varint function |
| `PbStream.FindField` | Code/Pods/nanopb/pb_common.c:78-97 | Searching once around the table from anywhere finds the only field with the number; an empty table's terminator answers to number 0 |
| `PbStream.SkipField` | Code/Pods/nanopb/pb_decode.c:316-326 | Skips exactly one unknown field |
| `PbStream.CheckRequired` | Code/Pods/nanopb/pb_decode.c:1006-1046 | Whether all of the first 64 required fields were seen |

## Left out

- A memtable flush inside a running compaction (`db/db_impl.cc:908`): flush and compaction are separate atomic steps here.
- I/O errors and the background error they set: every append and sync is durable once it returns.
- Sequence numbers beyond 2^56 - 1, which the program asserts never to reach: a group that would is not started.
- Corrupt block contents and internal keys: blocks are those a builder finished; stored blocks, footers, log files, manifest records, write batches and messages are read as arbitrary bytes.
- PbSound.SkipIsTake: of lengths it speaks only if they take at most four bytes; the decoder cuts longer ones to 32 bits.
- When to compact and which files (scores, seek counts, sizes, throttling): these choices are parameters of the steps, so every choice is covered.
- `reuse_logs` (appending to an old log after recovery), manual compaction ranges, properties and size estimates.
- Log reading from a nonzero initial offset.
- CRC-32C tables and striding: the checksum is computed bit by bit; the hash function and Snappy are not modelled (the hash is any function to 32-bit words, blocks are stored uncompressed).
- The block cache inside table reads, the table cache and the sharding of the LRU cache.
- Pointers, arenas and memory barriers: skip-list nodes, cache handles and their links are numbers and sequences; each link store is one atomic step.
- The tables' bytes inside recovery: their format is proved on its own (`TableTrip`); manifest and logs are followed as bytes through a crash.
- Recovery of damaged logs with paranoid checks off: with them on, as modelled, a corruption or a bad batch makes it fail.
- Level-0 file order inside `SaveTo` is by smallest key as in the program; that newer files win is read from their numbers.
- Meaning.PreservesReadsIff: the condition speaks of the entries of the input and output levels; a condition on file bounds alone (`Boundary.LowerClosed`) is sufficient, not necessary.
- TableFile.TableBuilder.Finish: demands that no block and not the index outgrow their 32-bit offsets, which the program leaves unchecked; `TableTrip.Build` says what that means for a list.
- FilterBlock.FilterBlockBuilder.Finish: demands that the filters stay below 2^32 bytes, for the same reason.
- The index iterator inside a two-level iterator is a position; that a block iterator finds it is `BlockReading.Iter.Seek`.
- nanopb callbacks, extensions, pointer fields, fixed-count arrays (repeated fields without a count), compiled default values other than zero, and the wrap-around of the 8-bit bit counter after 36 varint bytes.
- MemTable byte encoding, `LookupKey` buffers, repair, dump tools, C bindings, histograms.
- The application's own Swift code and the Objective-C headers: user interface and declarations.

# Verification of the LevelDB, Metis and NPB IS cores

A Dafny model of three programs of the repository, and proofs about it.

- **LevelDB**: versions and compactions, the store as a state machine, the skip list, the iterators, the log, blocks and tables
  with filters, write batches and the writer queue, recovery, version edits and the manifest, garbage collection of tables, and
  the block cache.
- **Metis**: the B+tree and the spin barrier.
- **NPB IS**: the random number generator with its jump to a rank's seed, and the distributed bucket sort (the IS benchmark of
  NAS Technical Report 95-020).

`dafny verify dfyconfig.toml` checks all of it. One module is one file. The modules build on each other roughly in this order:

| part | modules |
|---|---|
| keys, numbers, bytes | Keys, Arithmetic, Coding, Comparators, Cursors, Rings |
| versions and compactions | Versions, Inputs, Compactions, LevelSets, LevelReads, CompactionSafety, Flushes, UncutLevels, Interleavings, BoundaryFiles, Database, Snapshots, CompactionRuns, GapFlushes |
| memtable and iterators | SkipLists, Mergers, DbIterators, Scans |
| log, batches, recovery | Logs, WriteBatches, GroupCommits, Recoveries |
| tables | Blocks, BlockIterators, Blooms, FilterBlocks, Tables, TableBuilders, TableLookups |
| manifest and files | VersionEdits, Builders, Manifests, FileCollections |
| cache | HandleTables, LruCaches |
| Metis | BTrees, BTreeRows, BTreeShapes, BTreeSplits, BTreeLeaves, BTreeInserts, Barriers |
| NPB IS | Randoms, BucketSorts, DistributedSorts |

How things are modelled: user keys are reals where only their order matters (`Keys.RankOrders` embeds byte strings in that order,
and `TableLookups` ties the encoded tables to the abstract ones) and byte strings where the code looks inside. Linked structures
are fields as maps from entry numbers, so that a link that changes is an assignment to a map. Concurrent code is a state machine
whose steps are the loads, the stores or the stretches under the mutex. Integers are unbounded except where a width matters, which
is then written out.

## Findings

Properties that the code does not have for every input, with the input and the exact condition.

- Compaction can change reads. Outputs are cut by size, also between two versions of one user key
  (`code/apps/leveldb/db/db_impl.cc:960-972`), and a later compaction may pick only one of the two files. Then a deleted value can
  come back: `BoundaryFiles.SplitKeyResurrects` drops the deletion and leaves the value. And an overwritten value can come back:
  `BoundaryFiles.OverwrittenValueReturns` hands the newer version down past the older one, where Version::Get, which stops at the
  first level that has the key, no longer sees it first. `CompactionSafety.WorkReadsExactly`: Version::Get answers every read from
  the bound on as before if and only if the inputs uncover nothing (`Uncovers`) and none of them is overtaken (`Overtakes`), both
  conditions on version, inputs and bound. `Database.UncutReadsFollowHistory`: no run has the problem if outputs are never cut
  inside a user key and flushes keep out of the gaps of the next point.
- A memtable flushed while a compaction runs may be put between the inputs at the output level, because the level is picked by
  looking at the current version only. `GapFlushes.GapReadIsLost` is the input, with the version that is installed out of order and
  the flushed key no longer found. `GapFlushes.SafeCutsExactly`: the installed level is disjoint, however the outputs are cut, if
  and only if what the compaction writes lies on one side of the new table. `Interleavings.OneInputHasNoGap`: with one upper input
  the problem cannot arise.
- A flushed table is neither pending nor in a version while its edit is being logged. `FileCollections.UnprotectedExactly`: a
  collection would take it exactly then; it is safe because only the thread that flushes collects.
- find_my_seed jumps by the largest power of two that is not above the part size. `Randoms.OddPartsGoWrong` is the input (six
  numbers, two ranks). `Randoms.SeedIsRight`: a rank starts in the right place if and only if it is rank 0 or the part size is a
  power of two.

## Model

| member | source | states |
|---|---|---|
| `Versions.Get` | code/apps/leveldb/db/version_set.cc:323-420 | Answers from the first level that has a version of the key the snapshot may see, with the newest one there, and with nothing exactly when there is none or it is a deletion; level 0 is searched newest file first, each deeper level in one file. Where shallower data is newer, that is the newest of everything the version holds. |
| `Versions.FindFile` | code/apps/leveldb/db/version_set.cc:77-96 | Where the binary search ends in any list; where the largest keys ascend, the first file whose largest key is not before the target. |
| `Versions.ProbeIsNewest` | code/apps/leveldb/db/version_set.cc:259-272 | In a sorted table the first entry at or after the lookup key is the newest visible version, and none of the key there means none is visible. |
| `Inputs.GetOverlappingInputs` | code/apps/leveldb/db/version_set.cc:522-563 | Stops despite its restarts; at level 0 lists exactly the files of the least overlap-closed range around the request, elsewhere exactly the overlapping files. |
| `Inputs.SetupOtherInputs` | code/apps/leveldb/db/version_set.cc:1297-1362 | With or without growing, the inputs leave only files that lie on one side of all of them and share no user key with the upper ones; growing keeps the first choice and changes no lower input, and it happens exactly when it adds files, stays within the byte limit and picks no more lower files. |
| `Inputs.GetRange` | code/apps/leveldb/db/version_set.cc:1176-1199 | The least internal key range that covers all the files. |
| `Compactions.Compaction.IsBaseLevelForKey` | code/apps/leveldb/db/version_set.cc:1434-1453 | With pointers that only ever advance, says yes exactly when no file below the output level has the key in its range. |
| `Compactions.DoCompactionWork` | code/apps/leveldb/db/db_impl.cc:868-976 | Writes exactly the entries of the merged inputs that neither drop rule takes, in order, however the outputs are cut. |
| `Compactions.SurvivorsAre` | code/apps/leveldb/db/db_impl.cc:906-940 | What is written is sorted, and is every input entry that no newer version hides from all readers and that is not an obsolete deletion. |
| `LevelSets.ReadsKeptExactly` | code/apps/leveldb/db/db_impl.cc:868-976 | Over the set of all entries, not level by level: the newest visible entry of every key stays the same from the bound on if and only if no dropped deletion exposes a value left behind. |
| `LevelSets.NextIsLayered` | code/apps/leveldb/db/version_set.cc:656-763 | After the install shallower data is newer if and only if what stays at the upper level is newer than what moved below it. |
| `LevelReads.FirstIsNewest` | code/apps/leveldb/db/version_set.cc:323-420 | Where shallower data is newer, reading level by level gives the newest visible version of all. |
| `LevelReads.FirstKeptExactly` | code/apps/leveldb/db/db_impl.cc:868-976 | On levels as sets, read level by level: a compaction keeps every read from the bound on if and only if no dropped deletion exposes a value left behind and nothing moved down is overtaken by an older version left above it. |
| `CompactionSafety.CompactionKeepsOk` | code/apps/leveldb/db/db_impl.cc:834-853 | If nothing older than an input of its key stays behind, the whole version invariant holds again: levels sorted and disjoint, level 0 numbered by age, shallower newer. |
| `CompactionSafety.CompactionKeepsReads` | code/apps/leveldb/db/db_impl.cc:868-976 | Under the same hypothesis every read at a snapshot from the bound on answers alike before and after, over all entries and as Version::Get reads. |
| `CompactionSafety.CompactionKeepsLevels` | code/apps/leveldb/db/db_impl.cc:834-853 | Without the hypothesis: each level for itself is in order again, so that the installed version can be read. |
| `CompactionSafety.WorkReadsExactly` | code/apps/leveldb/db/db_impl.cc:868-976 | For what DoCompactionWork writes and LogAndApply installs: Version::Get answers every read from the bound on as before if and only if the inputs uncover nothing and none of them is overtaken, two conditions on the version, the inputs and the bound before the work starts. |
| `CompactionSafety.CompactionFirstExactly` | code/apps/leveldb/db/db_impl.cc:868-976 | The same for any result that drops only hidden versions and obsolete deletions, with the first condition on what was kept. |
| `CompactionSafety.MoveReadsExactly` | code/apps/leveldb/db/db_impl.cc:686-705 | A trivial move keeps every read of Version::Get if and only if what it moves is not overtaken by an older version left at its level. |
| `CompactionSafety.CompactionReadsExactly` | code/apps/leveldb/db/db_impl.cc:868-976 | For any such result, over the set of all entries and not level by level: the newest visible entries stay the same if and only if no dropped deletion exposes a value left behind. |
| `CompactionSafety.OutputLevelDisjoint` | code/apps/leveldb/db/version_set.cc:1297-1362 | Replacing both input sets by any cut of what was kept leaves the output level sorted and disjoint in internal keys. |
| `CompactionRuns.Compact` | code/apps/leveldb/db/db_impl.cc:834-976 | Choosing inputs, merging them, dropping, cutting and installing, in one method: a compaction in the sense of the theorems, after which Version::Get answers as before exactly when its inputs uncover nothing and none of them is overtaken. |
| `CompactionRuns.FlushTable` | code/apps/leveldb/db/db_impl.cc:457-501 | Writes the memtable as a table and adds it at a level that PickLevelForMemTableOutput allows. |
| `Flushes.SomeFileOverlapsRange` | code/apps/leveldb/db/version_set.cc:112-148 | Scan or binary search, it finds an overlap exactly when there is one. |
| `Flushes.PickLevelForMemTableOutput` | code/apps/leveldb/db/version_set.cc:493-520 | A level below 0 is picked only if nothing from level 0 down to it overlaps the new table, and the pick stops short of level 2 only for an overlap or for too many bytes two levels down. |
| `Flushes.FlushKeepsOk` | code/apps/leveldb/db/db_impl.cc:503-534 | A flush to an allowed level keeps the version invariant and adds exactly the entries of the memtable. |
| `UncutLevels.ChosenLeavesNothingOlder` | code/apps/leveldb/db/version_set.cc:1297-1362 | Where no file boundary splits a user key, every choice of inputs leaves nothing older behind; at level 0 the choice itself sees to that. |
| `UncutLevels.CompactionKeepsUncut` | code/apps/leveldb/db/db_impl.cc:960-972 | Outputs that are not cut inside a user key keep the levels free of split user keys. |
| `UncutLevels.FlushKeepsUncut` | code/apps/leveldb/db/version_set.cc:493-520 | So does a flush. |
| `Interleavings.FlushKeepsNoOlder` | code/apps/leveldb/db/db_impl.cc:886-896 | A flush inside a running compaction leaves nothing older behind than an input. |
| `Interleavings.FlushKeepsFit` | code/apps/leveldb/db/db_impl.cc:886-896 | The inputs of the running compaction stay fit if the new table is not between them at the output level. |
| `Interleavings.FlushKeepsBase` | code/apps/leveldb/db/version_set.cc:1434-1453 | Deletions found obsolete against the version at the start are obsolete in the version at the end. |
| `Interleavings.OneInputHasNoGap` | code/apps/leveldb/db/version_set.cc:493-520 | With a single upper input every level that PickLevelForMemTableOutput allows is beside the compaction. |
| `GapFlushes.InstalledExactly` | code/apps/leveldb/db/db_impl.cc:834-853 | After a flush to the output level of a running compaction, the level that is installed is disjoint if and only if no output runs into the new table. |
| `GapFlushes.SafeCutsExactly` | code/apps/leveldb/db/db_impl.cc:886-896 | However DoCompactionWork cuts its outputs the installed output level is disjoint, if and only if the entries it writes lie on one side of the new table. |
| `GapFlushes.GapReadIsLost` | code/apps/leveldb/db/version_set.cc:493-520 | The input that breaks it: two inputs with a gap and an allowed flush into it. The installed level is not disjoint, and a read of the flushed key probes the one output and never the table that has the key. |
| `BoundaryFiles.SplitKeyResurrects` | code/apps/leveldb/db/db_impl.cc:960-972 | An input for which a compaction changes a read: a user key split between two files, of which the one with the deletion is picked, and Version::Get finds the deleted value again. |
| `BoundaryFiles.OverwrittenValueReturns` | code/apps/leveldb/db/db_impl.cc:686-705 | And one for which a trivial move does: of a user key split between two files the newer one is handed down, nothing is uncovered, and Version::Get finds the overwritten value. |
| `Database.Get` | code/apps/leveldb/db/db_impl.cc:1077-1122 | Memtable, immutable memtable and files together answer from the newest visible version of all the store holds. |
| `Database.NextKeeps` | code/apps/leveldb/db/db_impl.cc:655-735 | Every step (write, switch, flush, start and end of a compaction, trivial move, snapshot taken or released) keeps the invariant, if compaction inputs leave nothing older behind. |
| `Database.ReadsFollowHistory` | code/apps/leveldb/db/db_impl.cc:1077-1122 | In every state of every run whose compactions leave nothing older behind, a read at a live snapshot or at the latest number answers from the newest of all writes ever made that it may see. |
| `Database.UncutReadsFollowHistory` | code/apps/leveldb/db/db_impl.cc:960-972 | The same in every run whose outputs are not cut inside a user key, whatever inputs are picked; as there, a flush during a running compaction goes to the output level only beside its inputs. |
| `Database.SnapshotsStayCovered` | code/apps/leveldb/db/snapshot.h:37-57 | No compaction, running or finished, used a bound above a snapshot that is live during or after it. |
| `Database.ReadLive` | code/apps/leveldb/db/db_impl.cc:1077-1122 | What Get computes in a reachable state is the answer of the write history. |
| `Snapshots.SnapshotList.New` | code/apps/leveldb/db/snapshot.h:41-50 | The linked list becomes the old list of numbers with the new one at its end. |
| `Snapshots.SnapshotList.Delete` | code/apps/leveldb/db/snapshot.h:52-57 | Unlinking a snapshot anywhere removes just its number. |
| `Snapshots.SnapshotList.SmallestSnapshot` | code/apps/leveldb/db/db_impl.cc:868-872 | The head of the list, or the latest number; with numbers taken in order it is below every live one. |
| `SkipLists.LevelsAlwaysSorted` | code/apps/leveldb/db/skiplist.h:336-370 | Between any two pointer stores of any run each level spells out an ascending list and thins the one below. |
| `SkipLists.SearchesLinearize` | code/apps/leveldb/db/skiplist.h:261-322 | FindGreaterOrEqual, FindLessThan and FindLast, interleaved with any insert steps and started at a stale height, return the exact answer for the level-0 list at their last load. |
| `SkipLists.InsertTakesEffectOnce` | code/apps/leveldb/db/skiplist.h:336-370 | The keys a reader can find change at one store of an insert only, by exactly the new key. |
| `SkipLists.NextKeeps` | code/apps/leveldb/db/skiplist.h:261-370 | Every load and every store of writer and readers keeps the invariant. |
| `DbIterators.ShowsTheMap` | code/apps/leveldb/db/db_iter.cc:146-304 | The pairs shown ascend, and a pair is shown exactly when a read of its key at the iterator's sequence number finds its value. |
| `DbIterators.DBIter.Next` | code/apps/leveldb/db/db_iter.cc:146-171 | Moves from any entry and either direction to the next pair shown. |
| `DbIterators.DBIter.Prev` | code/apps/leveldb/db/db_iter.cc:205-230 | Moves from any entry and either direction to the previous pair shown. |
| `DbIterators.DBIter.Seek` | code/apps/leveldb/db/db_iter.cc:274-286 | Lands on the first pair shown at or after the target. |
| `DbIterators.ApplyAll` | code/apps/leveldb/db/db_iter.cc:146-304 | Any legal sequence of calls leaves the iterator where a cursor over the shown pairs is. |
| `Mergers.UnionIsUnion` | code/apps/leveldb/table/merger.cc:35-112 | The merge of sorted children without common keys is their sorted union. |
| `Mergers.MergingIterator.FindSmallest` | code/apps/leveldb/table/merger.cc:155-168 | Picks a child with the least current key, and none exactly when all are done. |
| `Mergers.MergingIterator.FindLargest` | code/apps/leveldb/table/merger.cc:170-183 | Picks a child with the greatest current key. |
| `Mergers.MergingIterator.Next` | code/apps/leveldb/table/merger.cc:59-83 | One place on in the union, after putting every other child on the right side when the direction turns. |
| `Mergers.MergingIterator.Prev` | code/apps/leveldb/table/merger.cc:85-112 | One place back in the union, likewise. |
| `Mergers.ApplyAll` | code/apps/leveldb/table/merger.cc:35-112 | Any legal sequence of calls leaves the iterator where a cursor over the union is. |
| `Mergers.Drain` | code/apps/leveldb/db/version_set.cc:1210-1241 | Walking it from its first entry gives the whole union in order. |
| `Scans.UnionIsStock` | code/apps/leveldb/db/db_impl.cc:1035-1064 | The internal iterator over memtables, level-0 tables and deeper levels runs over exactly what the store holds, sorted and each version once. |
| `Scans.ScanShowsHistory` | code/apps/leveldb/db/db_impl.cc:1124-1135 | In every state of every run whose compactions leave nothing older behind, a scan at a live snapshot or at the latest number shows each user key once, ascending, with exactly the value that the newest write it may see has put. |
| `Scans.Scan` | code/apps/leveldb/db/db_impl.cc:1124-1135 | DBIter over the merging iterator over all of it: any legal sequence of calls in a reachable state leaves it where a cursor over those pairs is. |
| `Logs.Writer.AddRecord` | code/apps/leveldb/db/log_writer.cc:27-100 | The file is the rendering of all records added so far, cut into fragments that never straddle a block. |
| `Logs.Reader.ReadPhysicalRecord` | code/apps/leveldb/db/log_reader.cc:181-263 | On any file; where a fragment of the writer follows it is returned if it is whole, and otherwise the end is reached, with nothing reported. |
| `Logs.Reader.ReadRecord` | code/apps/leveldb/db/log_reader.cc:59-164 | On any file; where a record of the writer follows it is returned if its last fragment is whole, and otherwise the end is reached, with nothing reported. |
| `Logs.ReadAll` | code/apps/leveldb/db/log_reader.cc:59-263 | A log written from empty and cut at any byte gives back exactly the records wholly before the cut, in order, with no corruption reported. |
| `Logs.WholeLog` | code/apps/leveldb/db/log_writer.cc:27-100 | Of the layout of an uncut log: every record is wholly in it. With ReadAll this makes the reader return all of them. |
| `Logs.WholePrefix` | code/apps/leveldb/db/log_writer.cc:27-100 | Of the layout of a cut log: what is wholly in it is a prefix of the records. |
| `Coding.Fixed32RoundTrip` | code/apps/leveldb/util/coding.cc:9-39 | Decoding a fixed 32-bit number gives back the number. |
| `Coding.Fixed64RoundTrip` | code/apps/leveldb/util/coding.cc:20-45 | Decoding a fixed 64-bit number gives back the number. |
| `Coding.Varint32RoundTrip` | code/apps/leveldb/util/coding.cc:47-141 | Reading a 32-bit varint gives back the number and the rest of the input. |
| `Coding.Varint64RoundTrip` | code/apps/leveldb/util/coding.cc:81-170 | Reading a 64-bit varint gives back the number and the rest of the input. |
| `Coding.LengthPrefixedRoundTrip` | code/apps/leveldb/util/coding.cc:98-192 | Reading a length-prefixed string gives back the string and the rest of the input. |
| `Coding.EncodeVarint32` | code/apps/leveldb/util/coding.cc:47-73 | The unrolled encoder writes the varint. |
| `Coding.MaskRoundTrip` | code/apps/leveldb/util/crc32c.h:31-40 | Mask and Unmask undo each other. |
| `Coding.ExtendConcat` | code/apps/leveldb/util/crc32c.h:14-22 | Extending a checksum over two strings is extending it over their concatenation. |
| `Blocks.BlockBuilder.Add` | code/apps/leveldb/table/block_builder.cc:73-107 | The buffer is the prefix-compressed layout of the entries added, with a restart point at every interval-th of them. |
| `Blocks.BlockBuilder.Finish` | code/apps/leveldb/table/block_builder.cc:63-71 | The block is that layout followed by the restart array and its length. |
| `BlockIterators.OpenRoundTrip` | code/apps/leveldb/table/block.cc:18-38 | A finished block opens as what it was built from. |
| `BlockIterators.Iter.ParseNextKey` | code/apps/leveldb/table/block.cc:226-253 | On any block; in a built one it steps to the next entry with its full key and value, and ends only after the last. |
| `BlockIterators.Iter.SearchRestarts` | code/apps/leveldb/table/block.cc:165-191 | On any block it ends; in a built one at the last restart point whose key is before the target (the key of the next one is not), or at the first. |
| `BlockIterators.Iter.Seek` | code/apps/leveldb/table/block.cc:165-203 | In a built block, lands on the first entry at or after the target. |
| `BlockIterators.Iter.Prev` | code/apps/leveldb/table/block.cc:144-163 | In a built block, lands on the predecessor from every entry. |
| `BlockIterators.Iter.SeekToLast` | code/apps/leveldb/table/block.cc:210-215 | In a built block, lands on the last entry. |
| `BlockIterators.Build` | code/apps/leveldb/table/block_builder.cc:63-107 | The block is built exactly when its offsets fit 32 bits, with restart points at every interval-th entry. |
| `BlockIterators.BuildAndRead` | code/apps/leveldb/table/block.cc:76-253 | A built block read back under any legal sequence of calls is a cursor over the entries; only a block that does not fit 32 bits is refused. |
| `Comparators.ShortestSeparator` | code/apps/leveldb/util/comparator.cc:29-52 | No longer than the start, not before it, and before the limit if the start was. |
| `Comparators.ShortSuccessor` | code/apps/leveldb/util/comparator.cc:54-65 | No longer than the key and not before it. |
| `Comparators.OrderIsComparator` | code/apps/leveldb/db/dbformat.cc:50-66 | The order of encoded internal keys is user key ascending and then packed trailer descending. |
| `Comparators.InternalSeparator` | code/apps/leveldb/db/dbformat.cc:68-85 | Separates two internal keys, and nothing past the first but not past it has the user key of the second. |
| `Comparators.InternalSuccessor` | code/apps/leveldb/db/dbformat.cc:87-99 | Not before the key, and no longer. |
| `Blooms.CreateFilter` | code/apps/leveldb/util/bloom.cc:35-63 | Every key that goes in matches the filter. |
| `Blooms.KeyMayMatch` | code/apps/leveldb/util/bloom.cc:65-87 | For any filter bytes, true exactly if the filter is readable and all the probes of the key hit, or its probe count is reserved. |
| `FilterBlocks.FilterBlockBuilder.StartBlock` | code/apps/leveldb/table/filter_block.cc:22-28 | Ready for the keys of the block at the offset, with every earlier key filed under the filter of its own block. |
| `FilterBlocks.FilterBlockBuilder.Finish` | code/apps/leveldb/table/filter_block.cc:36-50 | The filters, their offsets and the spacing, with every key in the filter of its block. |
| `FilterBlocks.NeverDenied` | code/apps/leveldb/table/filter_block.cc:78-109 | A key that was added for a block is never denied at the offset of that block, nor is any key with the same user key. |
| `TableBuilders.TableBuilder.Add` | code/apps/leveldb/table/table_builder.cc:92-121 | Keeps the invariant of the half-written table: blocks in the file, separators in the index, keys in the filter; the open block stays within its size, and a block that reaches it is written. |
| `TableBuilders.TableBuilder.Flush` | code/apps/leveldb/table/table_builder.cc:123-137 | Writes the open block and keeps the invariant. |
| `TableBuilders.TableBuilder.Finish` | code/apps/leveldb/table/table_builder.cc:199-239 | The finished table holds every entry added, in order, with an index and a filter that meet the conditions of the lookup. |
| `Tables.BlockDecides` | code/apps/leveldb/table/table.cc:226-255 | The block that the index selects holds the first entry from the key on, or that entry has another user key. |
| `Tables.InternalGet` | code/apps/leveldb/table/table.cc:226-255 | Hands over an entry of the sought user key if and only if the first entry of the whole table from the key on is one, and then that entry. |
| `TableLookups.BuildTable` | code/apps/leveldb/table/table_builder.cc:92-239 | Builds a table of any list of entries, for any block size, restart interval and filter policy, as long as every block, the index and the filter fit 32 bits and the file 64. |
| `TableLookups.LookUp` | code/apps/leveldb/table/table.cc:226-255 | Finds exactly what the probe of the version model finds. |
| `WriteBatches.OpsRoundTrip` | code/apps/leveldb/db/write_batch.cc:42-80 | The operations of a batch read back are the operations put in. |
| `WriteBatches.Iterate` | code/apps/leveldb/db/write_batch.cc:42-80 | For any bytes: hands over the operations before the first that cannot be read, and tells which error it was. |
| `WriteBatches.InsertInto` | code/apps/leveldb/db/write_batch.cc:112-134 | A batch gives back its operations with consecutive numbers from its header on. |
| `WriteBatches.WriteBatch.Put` | code/apps/leveldb/db/write_batch.cc:98-103 | The representation is the encoding of the operations with the new one at the end. |
| `WriteBatches.WriteBatch.Append` | code/apps/leveldb/db/write_batch.cc:141-145 | The representation is the encoding of both lists of operations. |
| `GroupCommits.BuildBatchGroup` | code/apps/leveldb/db/db_impl.cc:1237-1282 | The group is the longest run from the front that the sync rule and the size limit allow, and its record holds the operations of all its batches in queue order. |
| `GroupCommits.NextKeeps` | code/apps/leveldb/db/db_impl.cc:1162-1233 | Every step of writers and leader keeps the invariant. |
| `GroupCommits.FirstComeFirstServed` | code/apps/leveldb/db/db_impl.cc:1162-1233 | In every run: writers are let go in the order they arrived, each batch enters log and memtable once, and operations are numbered from 1 on without gaps; no sync writer is served by a leader that did not sync. |
| `GroupCommits.NeverStuck` | code/apps/leveldb/db/db_impl.cc:1162-1233 | While somebody waits the leader can move on. |
| `GroupCommits.WriteAtFront` | code/apps/leveldb/db/db_impl.cc:1162-1233 | The leader's code takes the steps of the protocol, and lets go exactly the writers it grouped. |
| `Recoveries.ReplayRecords` | code/apps/leveldb/db/db_impl.cc:362-455 | Replaying the records of some groups gives their operations with the numbers they were written with. |
| `Recoveries.RecoverAfterCrash` | code/apps/leveldb/db/db_impl.cc:362-455 | After a crash in any state of any run, with the log cut at any byte, exactly the groups whose record is whole come back, whole and in order. |
| `FileCollections.NextKeeps` | code/apps/leveldb/db/db_impl.cc:655-771 | Every step of readers and the background thread keeps the invariant. |
| `FileCollections.NothingLiveIsDeleted` | code/apps/leveldb/db/db_impl.cc:218-272 | In every state of every run a held or current version is there with all its tables on disk, and so are inputs and outputs of the running compaction. |
| `FileCollections.CollectsGarbage` | code/apps/leveldb/db/db_impl.cc:218-272 | A collection keeps a table if and only if a version lists it or it is a pending output. |
| `FileCollections.UnprotectedExactly` | code/apps/leveldb/db/db_impl.cc:457-534 | A collection by another thread would lose a table it must not exactly in the states between the end of a flush and its installation. |
| `FileCollections.AddLiveFiles` | code/apps/leveldb/db/version_set.cc:1137-1148 | Adds exactly the files that some version in the list has. |
| `FileCollections.DeleteObsoleteFiles` | code/apps/leveldb/db/db_impl.cc:218-272 | What is left of the directory: exactly the tables and temporary files in use, the logs and manifests still needed, and all files of other kinds; nothing goes after an error. |
| `VersionEdits.EditRoundTrip` | code/apps/leveldb/db/version_edit.cc:41-210 | Decoding an encoded edit gives back the edit. |
| `VersionEdits.EncodeTo` | code/apps/leveldb/db/version_edit.cc:41-86 | Writes the fields of the edit in their order. |
| `VersionEdits.DecodeFrom` | code/apps/leveldb/db/version_edit.cc:109-210 | For any bytes: reads fields up to the first that cannot be read, which is an error. |
| `Builders.SaveLevel` | code/apps/leveldb/db/version_set.cc:702-738 | If no added file is equivalent to one of the base, the merged level is in order and is both lists without the deleted files. |
| `Builders.AppliedIs` | code/apps/leveldb/db/version_set.cc:656-700 | After an edit a level has alive what the edit adds and what was alive and is not deleted. |
| `Manifests.ApplyEdit` | code/apps/leveldb/db/version_set.cc:811-840 | The next version has exactly the files that the edit leaves and adds, in order. |
| `Manifests.VersionSet.LogAndApply` | code/apps/leveldb/db/version_set.cc:811-894 | The manifest always tells how the current version and its log numbers came about, from a snapshot record on. |
| `Manifests.SnapshotSteps` | code/apps/leveldb/db/version_set.cc:1054-1082 | The snapshot edit leads from no files to the version. |
| `Manifests.ReplayIsChain` | code/apps/leveldb/db/version_set.cc:930-1006 | All edits through one builder give the same ordered file lists as one version after another. |
| `Manifests.Recover` | code/apps/leveldb/db/version_set.cc:896-1009 | From a manifest cut at any byte: the version and the numbers that were current after the edits still whole, or a failure exactly when a number is missing. |
| `HandleTables.HandleTable.FindPointer` | code/apps/leveldb/util/cache.cc:98-105 | The slot of the entry for the key, or the end of its chain. |
| `HandleTables.HandleTable.Insert` | code/apps/leveldb/util/cache.cc:62-76 | The entry is in, the old one for its key out, all others as they were; buckets grow when there are more entries than buckets. |
| `HandleTables.HandleTable.Remove` | code/apps/leveldb/util/cache.cc:78-86 | The entry for the key is out and all others are as they were. |
| `HandleTables.HandleTable.Resize` | code/apps/leveldb/util/cache.cc:107-131 | A power of two of buckets, no fewer than entries, with the same entries. |
| `HandleTables.MaskIsRemainder` | code/apps/leveldb/util/cache.cc:98-105 | Masking with a power of two less one is the remainder. |
| `LruCaches.LRUCache.Lookup` | code/apps/leveldb/util/cache.cc:209-218 | The entry for the key, with one more handle and now the newest, or nothing. |
| `LruCaches.LRUCache.Insert` | code/apps/leveldb/util/cache.cc:225-256 | Afterwards the usage is within the capacity or nothing is cached; the returned handle and all handles that were out lead to their values. |
| `LruCaches.LRUCache.Release` | code/apps/leveldb/util/cache.cc:220-223 | One handle less, and the entry is deleted with its last reference. |
| `LruCaches.LRUCache.Erase` | code/apps/leveldb/util/cache.cc:258-265 | The entry for the key leaves table and list. |
| `LruCaches.LRUCache.Destroy` | code/apps/leveldb/util/cache.cc:177-184 | With no handle out, every entry ever made has been deleted once. |
| `LruCaches.EvictedFits` | code/apps/leveldb/util/cache.cc:248-253 | Only the oldest entries go, only until the rest fits, and none with a handle out is deleted. |
| `LruCaches.DidKeeps` | code/apps/leveldb/util/cache.cc:186-265 | Every call keeps the invariant: references are handles plus one if cached, and the usage is the charge of all entries not deleted. |
| `LruCaches.HandlesStayGood` | code/apps/leveldb/util/cache.cc:186-265 | In every run a handle leads to the value its entry was made with, and a deleted entry is neither cached nor held nor deleted again. |
| `LruCaches.ApplyAll` | code/apps/leveldb/util/cache.cc:170-265 | Any calls on a new cache and then its end: every entry made is deleted, and once. |
| `BTrees.LowerBound` | code/apps/Metis/lib/bsearch.hh:26-48 | Where the key is or would go among distinct sorted keys. |
| `BTrees.UpperBound` | code/apps/Metis/lib/bsearch.hh:50-55 | How many of the keys are at most the given one. |
| `BTrees.PutIsUpdate` | code/apps/Metis/lib/btree.hh:316-331 | Applying a value keeps the list of pairs sorted, changes just that key, and adds it if it was not there. |
| `BTreeInserts.BTree.GetLeaf` | code/apps/Metis/lib/btree.hh:301-313 | The leaf that the key fits. |
| `BTreeInserts.BTree.MapInsert` | code/apps/Metis/lib/btree.hh:316-331 | The tree keeps its shape (depth, occupancy, separators, parent pointers, leaf chain) and holds the old pairs with the value applied. |
| `BTreeInserts.BTree.InsertInternal` | code/apps/Metis/lib/btree.hh:268-299 | However far the splits cascade, the tree is whole again and its leaves are untouched. |
| `BTreeInserts.BTree.FixParents` | code/apps/Metis/lib/btree.hh:289-298 | The children of a new node point to it and nothing else changes. |
| `BTreeSplits.RootGrown` | code/apps/Metis/lib/btree.hh:268-280 | A split root gets a new root above it with the two halves as its children. |
| `BTreeSplits.NodeSplit` | code/apps/Metis/lib/btree.hh:118-124 | Splitting a full inner node leaves its new half pending one level up. |
| `BTreeLeaves.LeafSplit` | code/apps/Metis/lib/btree.hh:61-70 | Splitting a full leaf leaves its new half pending, and the tree holds what it did. |
| `BTreeInserts.BTree.Copy` | code/apps/Metis/lib/btree.hh:389-406 | Walking the leaf chain gives every pair once, in order. |
| `BTreeInserts.InsertAll` | code/apps/Metis/lib/btree.hh:316-331 | After any sequence of insertions: each key once, in order, with all the values applied to it. |
| `Barriers.NobodyLeavesEarly` | code/apps/Metis/lib/psrs.hh:75-99 | In every run no thread leaves a round before all have entered it. |
| `Barriers.NoStaleFlag` | code/apps/Metis/lib/psrs.hh:75-99 | In every run a wait ends only on a flag of its own round. |
| `Barriers.NeverStuck` | code/apps/Metis/lib/psrs.hh:75-99 | Until all are through all rounds some thread can take a step that is not a failed test. |
| `Barriers.StepsAreWork` | code/apps/Metis/lib/psrs.hh:75-99 | Every such step brings the end nearer. |
| `Barriers.RunsEnd` | code/apps/Metis/lib/psrs.hh:75-99 | A run without failed tests is no longer than the work it starts with. |
| `Randoms.Randlc` | code/apps/NPB3.4-MPI/IS/is.c:408-465 | The split arithmetic gives the product modulo 2^46 with every intermediate an integer that a double holds and every truncation an int. |
| `Randoms.FindMySeed` | code/apps/NPB3.4-MPI/IS/is.c:483-526 | The seed times the multiplier to the power of the rank times the largest power of two that is not above the part size. |
| `Randoms.Jump` | code/apps/NPB3.4-MPI/IS/is.c:509-524 | Repeated squaring gives the power, within its bound of rounds. |
| `Randoms.SeedIsRight` | code/apps/NPB3.4-MPI/IS/is.c:483-526 | A rank starts at its own part of the serial sequence if and only if it is rank 0 or the part size is a power of two. |
| `Randoms.OddPartsGoWrong` | code/apps/NPB3.4-MPI/IS/is.c:483-526 | The input that shows it: six numbers on two ranks. |
| `Randoms.NoShortCycle` | code/apps/NPB3.4-MPI/IS/is.c:408-465 | An odd seed and a multiplier that is 5 modulo 8 do not come back to a number within 2^44 steps. |
| `Randoms.CreateAll` | code/apps/NPB3.4-MPI/IS/is.c:535-551 | What all ranks create is the serial sequence of keys, if each takes a power of two of random numbers. |
| `BucketSorts.Scatter` | code/apps/NPB3.4-MPI/IS/is.c:678-689 | The buffer is the lists of the buckets, end to end, and holds exactly the keys. |
| `BucketSorts.CountingSort` | code/apps/NPB3.4-MPI/IS/is.c:814-833 | A sorted permutation of the keys. |
| `BucketSorts.NeverTooMany` | code/apps/NPB3.4-MPI/IS/is.c:721-751 | Dealing out the buckets never indexes past the last rank, for every number of keys that ranks of the program have; with no keys it would hold just for no more buckets than ranks. |
| `BucketSorts.NoneLeftOver` | code/apps/NPB3.4-MPI/IS/is.c:721-751 | Every bucket that holds a key is dealt out. |
| `BucketSorts.Deal` | code/apps/NPB3.4-MPI/IS/is.c:721-751 | The loop over the buckets gives every rank its run of buckets, its count and its displacement, and ranks past the last end nothing. |
| `BucketSorts.CountBuckets` | code/apps/NPB3.4-MPI/IS/is.c:673-675 | The size of every bucket. |
| `DistributedSorts.Receive` | code/apps/NPB3.4-MPI/IS/is.c:756-781 | What a rank receives is what all ranks have in its buckets. |
| `DistributedSorts.SortShare` | code/apps/NPB3.4-MPI/IS/is.c:786-833 | On its own keys a rank ends up with a sorted list of exactly the keys of its buckets. |
| `DistributedSorts.SortAll` | code/apps/NPB3.4-MPI/IS/is.c:673-833 | For any keys in range with the same number on every rank, what the ranks hold in the end is, put together, a sorted permutation of what they held. |

## Left out

- CompactionSafety.CompactionKeepsReads: assumes that nothing left behind is older than an input of its key, which the source does not check; `WorkReadsExactly` has the exact condition without that hypothesis.
- CompactionSafety.CompactionKeepsOk: makes the same assumption, since the age order of levels fails with it.
- Database.ReadsFollowHistory: makes that assumption for every compaction and trivial move of the run; `UncutReadsFollowHistory` replaces it by outputs that are not cut inside a user key.
- Database.NextKeeps: a flush inside a running compaction goes to the output level only beside the inputs; `GapFlushes` says what happens otherwise.
- Database.UncutReadsFollowHistory: keeps that restriction on flushes.
- Scans.UnionIsStock: a child of the merging iterator is a list, for a deeper level its tables end to end; opening them one by one is not modelled.
- Scans.ScanShowsHistory: makes the assumptions of `Database.ReadsFollowHistory`.
- TableBuilders.TableBuilder.Add: the open block, the index and the lengths of an entry stay below 4 GB and the file below 2^64 bytes, beyond which the offsets and varints of the source overflow; an entry is counted with up to 40 bytes more than its key and value.
- TableLookups.BuildTable: bounds the index by one entry for every full block that the entries can fill.
- WriteBatches.WriteBatch.Put: lengths below 4 GB and fewer than 2^31 operations in a batch, beyond which the 32-bit fields of the source overflow.
- Builders.SaveLevel: says nothing where an added file is equivalent to one of the base, which then appears twice.
- Manifests.VersionSet.LogAndApply: assumes that a file number always carries the same metadata and is not added to a level that holds it; compaction pointers are encoded and decoded but not followed.
- Manifests.Recover: marking the log numbers as used and the reports of corruption while reading are not followed.
- SkipLists.SearchesLinearize: loads and stores are sequentially consistent; weak memory ordering is not modelled.
- Barriers.NeverStuck: loads and stores are sequentially consistent here too.
- Compactions.DoCompactionWork: all keys parse; the branch that keeps a key that does not is not modelled.
- DbIterators.ApplyAll: keys parse; the branch for a key that does not, and the branch of Next that no state reaches, are not modelled.
- Logs.Reader.ReadRecord: the initial offset is 0 and the offset of the last record is not tracked.
- BlockIterators.Iter.ParseNextKey: the 32-bit sum of lengths in a corrupt block does not wrap around.
- Randoms.CreateAll: keys are scaled exactly; the scale is a power of two, so that the double product is exact as well.
- DistributedSorts.SortAll: MPI collectives are pure functions over all ranks; int widths, the altered keys of each iteration and the partial verification are not modelled.
- BTreeInserts.BTree.MapInsert: nodes are addressed by number, and shifts within a node are insertions into a sequence.
- Choice of what to compact and when: scores, seek counts, size limits for cuts and file sizes are parameters.
- Compression, the footer and the meta-index block of a table, block cache use of tables, and checksums of blocks on reading.
- Failed writes: a log that cannot be written, a table that cannot be built (only that collection stops afterwards), and background errors in the writer queue.
- Checksums: any fold over bytes stands for CRC-32C (section 12.1 of RFC 3720), and any function of the key for the hash.
- psrs sorting: divide passes a length that is one short of its range, and its output is not claimed to be sorted.
- shallow_free, `insert(PAIR*)` and the iterators of the B+tree, sharding of the cache, and the C bindings would only add easy members.
- The environment, repair, benchmarks, MADbench2, the other NPB codes, the Metis applications, the tracing library and the scripts.

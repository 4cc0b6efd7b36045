# Strata: a verified model of the storage engine

Strata is a log-structured merge-tree key-value store. Writes go to a log and to an in-memory skip
list; full memtables become immutable tables on level 0; a background thread merges tables downward
through seven levels; a manifest of version edits records which tables are live; after a crash the
manifest and the logs are replayed. This project models that machinery in Dafny, from the bytes of a
record up to the engine as a whole, and proves that the database behaves like a plain map.

`dafny verify dfyconfig.toml` checks everything.

## How the model is laid out

| layer | files |
|---|---|
| Keys, entries, the reference map | `Keys`, `Entries`, `History`, `Recency` |
| Skip list and memtable | `SkipLists` (store by store, with a concurrent reader), `Memtables` (as objects) |
| Encodings | `Coding`, `Checksums`, `ChecksumValues`, `EditCodec`, `Records`, `Wal`, `ManifestLog` |
| Table files | `Blocks`, `BlockSearch`, `Bloom`, `Tables`, `TableReaders`, `TwoLevelIterators`, `TableLimits`, `Caches` |
| Versions and the manifest | `Versions`, `Edits`, `Manifest`, `ManifestReplay`, `VersionBuilding` |
| Merging and compaction | `Merging`, `Compactions`, `CompactionMeaning`, `CompactionCorrect`, `CompactionTermination` |
| The engine as a state machine | `Engine`, `EngineInvariant`, `EngineCommit`, `EngineSteps`, `EngineTables`, `EngineCompact`, `EngineFinish`, `EngineRecover`, `EngineTheorems`, `EngineSnapshots`, `EngineReads`, `EngineIterator`, `EngineBackground`, `EngineReopen`, `EngineRecovered`, `EngineFlush` |
| The engine's files as bytes | `EngineLimits`, `EngineLogFiles`, `EngineFiles`, `EngineDirectory`, `EngineExample` |
| The engine as an object, the user iterator, the threads | `Database`, `DBIterators`, `IteratorRuns`, `Threads` |

The reference is a list of writes, the *history*, and the map it denotes (`History.MapOf`). A read looks
through a *stack* of sources from newest to oldest: active memtable, immutable memtable, the level 0
tables, the deeper levels. A stack *represents* a history (`Recency.Represents`) when every stored entry
is one of the writes, the newest version of a key never gets newer going down, and of every key the last
write is stored, or is a delete with nothing of the key left. The engine's invariant says that the
sources in memory, and independently the manifest plus the live logs on disk, represent the history.

The state machine of `Engine` has one step for every point at which a crash or another thread can
intervene: the log append and the acknowledgement are two steps, a flush and a compaction are several
(tables written, manifest created, edit logged, each input unlinked), and so is recovery (each log
replayed, committed, unlinked). `Crash` is enabled between any two of them, also inside recovery.

The writers of logs, manifests and tables check no sizes, and the readers refuse anything over 64 MB. A
run of the engine is therefore one in which every put, every manifest record and every table stays
within what the readers accept (`Engine.Enabled`); replay stops at a record that does not. What that
means in bytes is proved (`EngineLogFiles`, `EngineFiles`, `EngineDirectory`), and so is what happens to
a put that is too large. `EngineExample` has options with exactly the limits of the code, and runs made
under them.

## Main results

- In every reachable state in which the process serves, `Get` returns what the map holds
  (`EngineTheorems.GetIsMap`), also when each table is read one block at a time as the reader does
  (`EngineReads.BlockGetIsMap`). The object `Database.DBImpl`, whose methods run the steps, keeps that
  promise call by call.
- What is read in any later state, after any crashes at any points, is the map of the earlier writes and
  of the writes completed since: those acknowledged, and at most the one in flight at a crash
  (`EngineTheorems.Durable`, `EngineTheorems.AcknowledgedStays`). Reopening a directory left behind by a
  crash brings up that map, and succeeds exactly when every table it replays a log into, the snapshot
  and every edit are within the readers' limits (`Database.DBImpl.Recover`).
- The directory that any state of any run leaves behind, with the last append to a log or to the manifest
  cut off anywhere, reads byte for byte as the disk of a crash of the engine, and from there the map
  comes back, with at most the write in flight added (`EngineDirectory.DirectoryRecovers`). Such a
  directory is written by the writers of the code in `EngineExample.FlushedDirectory`.
- Compaction preserves meaning and keeps every level valid, for every well-formed version
  (`CompactionCorrect.CompactionKeepsMeaning`, `CompactionCorrect.CompactionKeepsValid`). From every
  reachable idle state the background loop, as long as what it writes fits the readers, comes to rest
  with nothing to flush, nothing to compact and the map unchanged (`EngineBackground.Rest`,
  `Database.DBImpl.BackgroundThread`, `Threads.Rested`).
- Readers without a lock see the map as it was when they captured it, whatever happens meanwhile
  (`EngineSnapshots.SnapshotStable`). An iterator does so through any operations, with inserts between
  any two turns of any of its loops, up to sequence number 2^56 - 1
  (`IteratorRuns.RunsAsList`, `EngineIterator.IteratorRunIsMap`).
- A skip-list search is exact at its last load under any interleaving with the stores of an inserter
  (`SkipLists.SearchIsExact`).
- A table built from any entries is cut into blocks exactly as the block size prescribes, and opens and
  iterates to exactly those entries, through index, filter and cache (`TwoLevelIterators.WriteTable`,
  `TwoLevelIterators.ReadTable`).
- Logs and manifests cut off at any byte read as the complete records and then a clean end
  (`Wal.TornTail`, `ManifestLog.RecoverTorn`); damage within four adjacent bytes of a payload is found.

Some properties fail in general; for each there is an input that shows it and the exact condition.

- `SSTableReader::Get` searches one data block and misses a visible version behind a block boundary
  (`BlockSearch.OneBlockIff`; a table with one-entry blocks in `TableLimits.CutOffTable`). The engine
  never reads that way, because no table holds anything newer than the read's sequence number
  (`EngineReads.ServingCurrent`, `EngineReads.TableReadsAgree`).
- `FlushMemTable` overwrites an immutable memtable that is still waiting. A key then reads as it should
  exactly when the active memtable has it, or the overwritten one does not, or the tables give the same
  answer (`EngineFlush.FlushReadsIff`). A crash before the flush is committed still recovers everything
  (`EngineFlush.CrashBeforeCommit`); after it, any restart gives those same answers, so what only the
  overwritten memtable held is lost for good (`EngineFlush.FlushDurableIff`). Two short puts of different
  keys in a new database are enough, under the limits of the code (`EngineExample.CodeLosesWrite`).
- A memtable iterator seeks a key with sequence number 2^56 - 1 and passes over larger ones
  (`Memtables.SeekKeyIff`). The user iterator's seek lands right exactly when nothing that is passed over
  is shown (`DBIterators.SeekIff`, `DBIterators.SeekMisses`); for iterators numbered up to 2^56 - 1 that is
  always so (`DBIterators.LowSees`).
- The log writer accepts records that the reader refuses. Record i of a log comes back exactly when no
  record up to it has a payload over 64 MB (`Wal.ReadBackIff`, `Wal.OversizedExample`); a put over the
  limit takes every later write of its log with it (`EngineLogFiles.OversizedForgotten`).
- A table opens exactly when its index and its filter are at most 64 MB (`TableReaders.Open`,
  `TableLimits.FilterTooLarge`), and is served exactly when its blocks are too (`TableLimits.FitsIff`). A
  put can fit the log and not a block (`TableLimits.LogButNoTable`).
- An edit decodes to itself exactly when its numbers and lengths fit their encoded widths
  (`EditCodec.RoundTrip`).

Where the repository's documentation and its code disagree the model follows the code: log files are
unlinked by recovery only, blocks have no prefix compression, checksums cover the payload and not the
header, and the table magic number is 0x5354524154413031.

## Model

| member | source | states |
|---|---|---|
| `Keys.Less` | include/strata/slice.h:42-53 | Byte strings compare as their base-257 fractions do, so the order is a strict total order and equal ranks mean equal keys |
| `Keys.LessIff` | include/strata/slice.h:42-53 | One key is less than another exactly when it has the smaller byte at the first position where they differ, or ends there |
| `Entries.VisibleIsNewest` | src/format.h:28-41 | In internal-key order the first version of a key numbered at most the read sequence is the newest such version |
| `History.MapHoldsNewest` | src/db_impl.cc:205-233 | The map after a list of puts and deletes holds, for each key, the value of its last write if that is a put |
| `Recency.ReadsLastWrite` | src/db_impl.cc:249-263 | The first hit in a stack that represents a history is the value the map holds, tombstones reading as "not found" |
| `Recency.VisibleIgnoresNewer` | src/memtable.cc:27-51 | A lookup at a sequence number does not see entries added later with larger numbers |
| `Recency.RepresentsWrite` | src/db_impl.cc:210-217 | A new write that lands in the top source makes the stack represent the history extended by it |
| `Versions.Get` | src/version_set.cc:197-268 | For any cutting of the tables into blocks, the lookup gives the first hit among the blocks it searches, newest source first; when nothing stored of the key is newer than the read, that is the first hit of the whole tables |
| `Versions.SearchLevel0` | src/version_set.cc:202-223 | Trying the level 0 files in order gives the first that answers; a key outside a file's range is not looked up |
| `Versions.FindFile` | src/version_set.cc:229-244 | The binary search over disjoint files finds the only file whose range can hold the key, or reports that there is none |
| `Versions.SearchDeeper` | src/version_set.cc:225-265 | Searching one file per deeper level gives what the files of the levels answer together |
| `Versions.CurrentVersion` | src/version_set.cc:197-268 | A read at or above every stored version of the key gets from one block per file what the whole version holds |
| `Edits.SortInOrder` | src/version_set.cc:363-375 | Sorting a level's files puts them in the level's order whenever they are pairwise comparable |
| `Edits.OrderUnique` | src/version_set.cc:363-375 | Only one order of a set of files is valid, so any sorting algorithm gives the same result |
| `Coding.FixedRoundTrip` | src/coding.h:9-51 | Decoding a fixed-width integer gives it back exactly when it fits the width |
| `Coding.FixedByte` | src/coding.h:9-51 | Byte i of an encoded number is its i-th digit to the base 256, least significant first |
| `Coding.ValueRoundTrip` | src/coding.h:23-51 | Every byte string is the encoding of the number it decodes to |
| `Coding.EncodeFixed64` | src/coding.h:31-36 | The shifting loop writes the eight low bytes, least significant first |
| `Coding.DecodeFixed64` | src/coding.h:44-51 | The accumulating loop computes the little-endian value |
| `Checksums.GetCrcTable` | src/crc32.cc:5-19 | Entry i of the table is i shifted eight times through the polynomial |
| `Checksums.PolyIsStandard` | src/crc32.cc:5-19 | The polynomial is that of clause 3.2.9 of IEEE 802.3, x^32 + x^26 + x^23 + x^22 + x^16 + x^12 + x^11 + x^10 + x^8 + x^7 + x^5 + x^4 + x^2 + x + 1, bit-reversed |
| `Checksums.Crc32` | src/crc32.cc:21-29 | The table-driven loop computes the bit-serial CRC-32, continued from the seed; which CRC that is say `PolyIsStandard` and `CheckValue` |
| `ChecksumValues.CheckValue` | src/crc32.cc:21-29 | The checksum of the digits "123456789" is 0xCBF43926, the published check value of CRC-32 |
| `Checksums.LookupIsSteps` | src/crc32.cc:25-27 | One table lookup equals feeding eight message bits to the shift register |
| `Checksums.SerialIsSteps` | src/crc32.cc:21-29 | The register after any message is the message, read as one number, divided by the polynomial: mixing all bytes first and shifting afterwards gives the same |
| `Checksums.CrcChains` | src/crc32.cc:21-29 | The CRC of a concatenation is the CRC of the second part seeded with that of the first |
| `Checksums.CrcSeparates` | src/crc32.cc:21-29 | Equal-length messages that differ only within four adjacent bytes have different CRCs |
| `EditCodec.EncodeTo` | src/version_set.cc:73-106 | For every edit the bytes written are those of its counters, its deleted files in some order and its new files in theirs, in that sequence; each takes its bytes once, which gives the size; when numbers and lengths fit, the bytes encode the edit |
| `EditCodec.FieldLayout` | src/version_set.cc:73-184 | Each field is a tag byte, 1 to 6, and its parts at fixed offsets |
| `EditCodec.DecodeFrom` | src/version_set.cc:108-184 | Decoding succeeds exactly on lists of well-formed fields, with the edit they add up to; anything truncated or with an unknown tag is a Corruption |
| `EditCodec.FieldRoundTrip` | src/version_set.cc:73-184 | Reading a written field gives it back and leaves exactly the bytes that follow |
| `EditCodec.EncodesOne` | src/version_set.cc:108-184 | No bytes stand for two different edits |
| `EditCodec.RoundTrip` | src/version_set.cc:73-184 | Decoding what was encoded gives the edit back, readers erased, exactly when its numbers and lengths fit their widths |
| `Manifest.ReplayStepAgrees` | src/version_set.cc:344-375 | Replaying one more record gives the same files per level, in the same order, as applying the edit in memory |
| `Manifest.SnapshotAgrees` | src/version_set.cc:315-331 | A manifest holding just a snapshot replays to the version it was taken of |
| `Manifest.RecoveredCounters` | src/version_set.cc:433-503 | Whatever records a manifest holds, recovery starts from the largest sequence number in them, the last log number, and the largest file number they call for, or 2 if they call for none |
| `Manifest.SortPermuted` | src/version_set.cc:474-486 | Whatever order replay collects the files in, sorting gives the one valid order |
| `VersionBuilding.BuildVersion` | src/version_set.cc:344-375 | The loops of LogAndApply build the version that the edit denotes |
| `VersionBuilding.BuildSnapshot` | src/version_set.cc:315-331 | The snapshot lists every file of every level and the counters |
| `ManifestReplay.ReplayAgrees` | src/version_set.cc:333-506 | For every life of a version set from the creation of its manifest, replay gives the same files per level, log number and last sequence number as memory has, and a next file number above every live table |
| `ManifestReplay.EditReplays` | src/version_set.cc:333-410 | One more logged edit keeps that agreement |
| `ManifestLog.AppendEdit` | src/version_set.cc:396-402 | Logging an edit appends one frame whose value has the size computed from the edit and, if the edit fits, encodes it |
| `ManifestLog.ReplayRecord` | src/version_set.cc:444-471 | One turn of the replay loop takes maxima of the counters, filters every level and appends the new files |
| `ManifestLog.Recover` | src/version_set.cc:412-506 | Recovery from the manifest's bytes gives the replay of exactly the edits its readable records hold, and fails exactly when a record is no edit |
| `ManifestLog.RecoverTorn` | src/version_set.cc:437-472 | A manifest cut off after any number of bytes recovers as the edits whose records are complete |
| `Wal.WalWriter.AppendRecord` | src/wal.cc:29-87 | The file grows by one frame: checksum, length, payload |
| `Wal.FrameLayout` | src/wal.cc:29-87 | Where in a frame each byte of checksum, length, kind (0 for a delete, 1 for a put), sequence number, key and value lies |
| `Wal.WalReader.ReadRecord` | src/wal.cc:127-235 | Result and position are those of reading one frame from the rest of the file, including every end-of-file and Corruption case |
| `Wal.WalReader.Replay` | src/db_impl.cc:122-125 | The replay loop collects all records up to the first result that is not one |
| `Wal.FrameRoundTrip` | src/wal.cc:29-235 | A written frame is read back whatever follows it |
| `Wal.ReadBackIff` | src/db_impl.cc:122-125 | Replay of any written log gives a prefix of its records; record i is in it exactly when no record up to i has a payload over 64 MB |
| `Wal.OversizedStops` | src/wal.cc:170-179 | A record over the limit is read as Corruption, whatever follows it |
| `Wal.OversizedExample` | src/wal.cc:170-179 | A put of a 64 MB value can be written, and replay returns only the records before it |
| `Wal.WholeLog` | src/wal.cc:127-235 | A log of records within the limit reads back whole |
| `Wal.CompleteIsMost` | src/wal.cc:36-80 | The number of complete frames in a prefix is the largest number of records whose frames fit |
| `Wal.TornTail` | src/wal.cc:134-234 | For every list of records and every byte count, the truncated log reads as exactly the complete records and then NotFound |
| `Wal.TornAppend` | src/wal.cc:54-80 | A crash during an append leaves a log that reads as before the append, or as after it when every byte arrived |
| `Wal.DamageFound` | src/wal.cc:200-210 | A frame whose checksum field, or whose payload within four adjacent bytes, was changed never reads as a record: Corruption in the middle of a log, NotFound at its end |
| `Wal.DamageStops` | src/wal.cc:200-210 | A log with one such frame reads as the records before it and then that result |
| `SkipLists.WriterStepKeeps` | src/skiplist.h:41-60 | Every single store of an insert, for any height, leaves every level a sorted sublist of the level below, and nodes are only added |
| `SkipLists.PublishKeeps` | src/skiplist.h:56-59 | Publishing a node on a level inserts it at its place in that level's list |
| `SkipLists.NextKeeps` | src/skiplist.h:41-186 | Any interleaving of one inserter's stores and one reader's loads keeps the lists well formed and the reader's position consistent |
| `SkipLists.ExecutionKeeps` | src/skiplist.h:41-186 | That holds in every state of every execution |
| `SkipLists.SearchIsExact` | src/skiplist.h:168-186 | However its loads interleave with inserts, a search returns the first node not before the target in the list as it is at its last load |
| `Memtables.SkipList.FindGreaterOrEqual` | src/skiplist.h:168-186 | The search returns the first node not before the target, and on every level the last node before it |
| `Memtables.SkipList.Insert` | src/skiplist.h:41-60 | The contents become the old contents with the entry at its sorted place |
| `Memtables.SkipList.FindLessThan` | src/skiplist.h:188-204 | The last node before the target, or the head |
| `Memtables.SkipList.FindLast` | src/skiplist.h:206-221 | The last node, or the head of an empty list |
| `Memtables.Iterator.Seek` | src/skiplist.h:91-93 | Lands on the first entry that is not before the target |
| `Memtables.Iterator.SeekKey` | src/memtable.cc:78-83 | Lands on the first entry not before the key with sequence number 2^56 - 1, which is the first entry of a key at or after the target exactly when no version of the target has a larger number |
| `Memtables.SeekKeyIff` | src/memtable.cc:78-83 | Seeking with a sequence number does so exactly when no version of the target has a larger one |
| `Memtables.Iterator.Next` | src/skiplist.h:78-81 | Moves to the next entry of the contents |
| `Memtables.Iterator.Prev` | src/skiplist.h:83-89 | Moves to the entry before, and becomes invalid before the first |
| `Memtables.Iterator.SeekToLast` | src/skiplist.h:99-104 | Lands on the last entry, or is invalid when there is none |
| `Memtables.Memtable.Add` | src/memtable.cc:10-25 | The contents become the old contents with the entry at its sorted place, and stay sorted |
| `Memtables.Memtable.Get` | src/memtable.cc:27-51 | The answer is that of the newest version numbered at most the read sequence |
| `Memtables.SeekVisible` | src/memtable.cc:29-36 | The first entry not before (key, sequence) is the visible version of the key, if there is one |
| `Blocks.BlockBuilder.Add` | src/block.cc:18-33 | The builder holds the old entries and the new one, with the offset of every interval-th entry as a restart point |
| `Blocks.BlockBuilder.Finish` | src/block.cc:35-42 | The bytes are a block of exactly the added entries, of the estimated size |
| `Blocks.BlockParse` | src/block.cc:78-112 | Parsing at the offset of an entry gives that entry and the offset of the next, and nothing at the end |
| `Blocks.Iter.ParseEntryAt` | src/block.cc:78-112 | The iterator takes over the entry parsed at the offset; a truncated one is flagged and leaves it invalid |
| `Blocks.Iter.Seek` | src/block.cc:137-172 | For non-decreasing keys, duplicates included, and any restart points, lands on the first entry with a key at or after the target |
| `Blocks.Iter.Prev` | src/block.cc:179-209 | Lands on the entry just before, and becomes invalid before the first |
| `Blocks.Iter.SeekToLast` | src/block.cc:122-135 | Lands on the last entry, and terminates |
| `Blocks.Iter.Next` | src/block.cc:174-177 | Moves to the next entry |
| `Bloom.CreateFilter` | src/bloom_filter.cc:50-79 | The bits set are exactly the probe positions of the keys |
| `Bloom.PositionIs` | src/bloom_filter.cc:68-76 | Probe j falls on the hash plus j times its spacing, on 32 bits, modulo the number of bits |
| `Bloom.DeltaRotates` | src/bloom_filter.cc:69-70 | The spacing is the hash rotated right by 17 bits |
| `Bloom.ProbesAre` | src/bloom_filter.cc:60-62 | The number of probes is 0.69 times the bits per key rounded down, but from 1 to 30 |
| `Bloom.FilterBytesAre` | src/bloom_filter.cc:52-58 | The filter has the fewest whole bytes that hold 64 bits and the bits asked for |
| `Bloom.KeyMayMatch` | src/bloom_filter.cc:81-104 | On a built filter a key matches exactly when all its probe positions belong to keys of the build set |
| `Bloom.NoFalseNegatives` | src/bloom_filter.cc:50-104 | For any hash, no key of the build set is rejected |
| `Caches.BlockCache.Lookup` | src/block_cache.cc:12-22 | A hit returns the block and moves it to the front; nothing else changes |
| `Caches.BlockCache.Insert` | src/block_cache.cc:24-47 | The new entry comes first, followed by the longest prefix of the others that leaves room; table and list stay in bijection and the charge stays within the capacity unless one entry remains |
| `Caches.BlockCache.Erase` | src/block_cache.cc:49-58 | The entry and its charge are gone, the rest keeps its order |
| `Caches.BlockCache.Clear` | src/block_cache.cc:60-65 | Nothing is left, and the charge is zero |
| `Caches.FittingIsLongest` | src/block_cache.cc:36-42 | Eviction removes exactly the least recently used suffix: one entry more would not fit |
| `Caches.FaithfulInsert` | src/block_cache.cc:24-47 | A cache of what is on disk stays one, whatever is evicted |
| `Tables.SSTableBuilder.Add` | src/sstable_builder.cc:39-58 | The builder holds the old entries and the new one, cut into blocks exactly where the size estimate reaches the block size, with smallest key, largest key and filter keys up to date |
| `Tables.SSTableBuilder.FlushBlock` | src/sstable_builder.cc:60-72 | The pending block, if there is one, becomes the last block of the file, with its checksum and its index entry |
| `Tables.SSTableBuilder.WriteRawBlock` | src/sstable_builder.cc:74-110 | The bytes and their checksum lie at the offset the handle names |
| `Tables.SSTableBuilder.Finish` | src/sstable_builder.cc:112-166 | The file is a table whose blocks are the prescribed cutting of exactly the entries added, and every part, the whole file and the reported file size have the size computed from the entries |
| `Tables.CutInto` | src/sstable_builder.cc:53-58 | However the entries are cut, no block is empty and the blocks in order are the entries |
| `Tables.BlocksEnd` | src/sstable_builder.cc:53-58 | Every block but the last has reached the block size, and none had reached it before its last entry |
| `Tables.DataBlockSize` | src/block.cc:18-42 | A data block takes 17 bytes, the key and the value of each entry, four for every started sixteen entries, and four |
| `Tables.IndexBlockSize` | src/block.cc:18-42 | The index has a restart point for every entry |
| `Tables.FooterLayout` | src/sstable_builder.cc:112-166 | The footer is 48 bytes: the handles of filter and index at 0 and 16, padding, and the magic number in the last eight |
| `Tables.SSTableBuilder.FileSize` | src/sstable_builder.h:34 | The size of the file so far is that of the complete blocks of the entries added |
| `TableReaders.Open` | src/sstable_reader.cc:190-266 | Given the true size of a built table, it opens exactly when its index and its filter are at most 64 MB, and the reader then serves that table; a recorded size beyond the file or below a footer fails |
| `TableReaders.StoredReads` | src/sstable_reader.cc:268-297 | A stored block reads back exactly when it is at most 64 MB |
| `TableReaders.DamagedBlockRefused` | src/sstable_reader.cc:288-292 | A block with up to four adjacent bytes changed is refused |
| `TableReaders.IndexFinds` | src/sstable_reader.cc:306-310 | The index leads to the block in which the first key at or after the target lies |
| `TableReaders.IndexIsNumber` | src/sstable_reader.cc:306-310 | Searching the index gives the first block whose last key reaches the target |
| `TableReaders.SSTableReader.LoadBlock` | src/sstable_reader.cc:312-334 | The block behind an index entry is the stored one, whatever the cache holds, and the cache stays faithful |
| `TableReaders.SSTableReader.Get` | src/sstable_reader.cc:299-357 | Through filter, index and cache, the answer is that of the newest visible version within the block the index names |
| `BlockSearch.OneBlockIff` | src/sstable_reader.cc:306-357 | Searching one block is searching the whole table, except exactly when the block ends in too new versions of the key and a visible one follows |
| `BlockSearch.CurrentReadsAgree` | src/sstable_reader.cc:306-357 | A read at or above the key's newest sequence in the table agrees with a scan of the table |
| `TableLimits.CutOffExample` | src/sstable_reader.cc:306-357 | Two versions that the builder cuts into two blocks: at the older one's number the searched block shows nothing |
| `TableLimits.CutOffTable` | src/sstable_reader.cc:306-357 | Written, opened and read, that table misses the older version |
| `TableLimits.FitsIff` | src/sstable_reader.cc:190-297 | The table of any entries is one that the reader serves exactly when its blocks, index and filter, as computed from the entries, are at most 64 MB |
| `TableLimits.BlocksBounded` | src/sstable_builder.cc:50-58 | A block exceeds the block size by less than its last entry and its restart words |
| `TableLimits.LogButNoTable` | src/sstable_reader.cc:268-273 | A put whose record is within eight bytes of the log's limit is read back from the log and makes a block that is refused |
| `TableLimits.FilterTooLarge` | src/sstable_reader.cc:243-249 | A table whose filter passes 64 MB is written and cannot be opened |
| `TwoLevelIterators.TwoLevelIterator.InitDataBlock` | src/sstable_reader.cc:101-136 | Opens exactly the block the index iterator is on, or none past the last |
| `TwoLevelIterators.TwoLevelIterator.SkipEmptyDataBlocksForward` | src/sstable_reader.cc:138-151 | From the end of a block on to the entry that follows in the table |
| `TwoLevelIterators.TwoLevelIterator.SkipEmptyDataBlocksBackward` | src/sstable_reader.cc:153-166 | From before a block back to the entry that precedes it in the table |
| `TwoLevelIterators.TwoLevelIterator.SeekToFirst` | src/sstable_reader.cc:33-40 | Lands on the table's first entry |
| `TwoLevelIterators.TwoLevelIterator.SeekToLast` | src/sstable_reader.cc:42-49 | Lands on the table's last entry |
| `TwoLevelIterators.TwoLevelIterator.Seek` | src/sstable_reader.cc:51-58 | Lands on the first entry of the table with a key at or after the target |
| `TwoLevelIterators.TwoLevelIterator.Next` | src/sstable_reader.cc:60-64 | Moves one entry forward in the table, across blocks |
| `TwoLevelIterators.TwoLevelIterator.Prev` | src/sstable_reader.cc:66-70 | Moves one entry back in the table, across blocks, and becomes invalid before the first |
| `TwoLevelIterators.WriteTable` | src/sstable_builder.cc:39-166 | Adding any entries and finishing gives a table of those entries, for every block size, with the prescribed blocks and sizes |
| `TwoLevelIterators.ReadTable` | src/sstable_reader.cc:33-266 | Opening a table with its true size and iterating from the first entry yields its entries, whatever is cached |
| `Merging.MergedIsUnion` | src/merging_iterator.cc:23-72 | Repeated Next yields the multiset union of the children |
| `Merging.MergedAscends` | src/merging_iterator.cc:6-33 | Merging sorted children yields a sorted sequence |
| `Merging.MergedOrder` | src/merging_iterator.cc:6-33 | In the merged sequence keys ascend, versions of a key come newest first, and of equal numbers puts before deletes |
| `Merging.SeekIsSuffix` | src/merging_iterator.cc:61-66 | Seeking every child by key and merging is merging everything and then seeking |
| `Merging.SoughtRest` | src/memtable.cc:78-83 | What is left of a child after a seek: the entries at or after the key, of a memtable without the versions of the target beyond 2^56 - 1 |
| `Merging.MergingIterator.FindSmallest` | src/merging_iterator.cc:23-33 | The current child is the first with a smallest entry |
| `Merging.MergingIterator.Seek` | src/merging_iterator.cc:61-66 | Every child is sought in its own way, and unless a memtable has a version of the target beyond its probe what remains is the merged sequence from the first key at or after the target |
| `Merging.MergingIterator.Next` | src/merging_iterator.cc:68-72 | What remains loses its first entry |
| `DBIterators.LiveMember` | src/db_iterator.cc:17-40 | A pair is shown exactly when the newest visible entry of its key is a put of its value |
| `DBIterators.LiveAscends` | src/db_iterator.cc:17-80 | The shown keys are strictly ascending |
| `DBIterators.LiveIgnoresNewer` | src/db_iterator.cc:19-23 | Entries numbered above the iterator's sequence do not change what it shows |
| `DBIterators.LiveIsMap` | src/db_iterator.cc:17-80 | Over sources that represent a history the shown pairs are the bindings of the map that reads see |
| `DBIterators.DBIterator.FindNextUserEntry` | src/db_iterator.cc:17-40 | Lands on the next live pair of what the merging iterator still has, or ends with it exhausted |
| `DBIterators.DBIterator.SeekToFirst` | src/db_iterator.cc:42-46 | The cursor is on the first live pair, or invalid when there is none |
| `DBIterators.DBIterator.Seek` | src/db_iterator.cc:67-71 | The cursor is on the first live key at or after the target, unless the memtables' probes pass over a version that is shown |
| `DBIterators.SeekIff` | src/db_iterator.cc:67-71 | What is shown after a seek is what is shown from the target on exactly when leaving out the versions of the target beyond the memtables' probe does not change what is shown of it |
| `DBIterators.LowSees` | src/memtable.cc:78-83 | For a sequence number up to 2^56 - 1 it never does |
| `DBIterators.SeekMisses` | src/memtable.cc:78-83 | One put numbered 2^56: it is shown from the first entry on, and seeking its key misses it |
| `DBIterators.DBIterator.Next` | src/db_iterator.cc:73-80 | From live pair i to i + 1, also right after Prev or SeekToLast |
| `DBIterators.DBIterator.Prev` | src/db_iterator.cc:82-101 | From live pair i to i - 1, and invalid from the first |
| `DBIterators.DBIterator.SeekToLast` | src/db_iterator.cc:48-65 | The cursor is on the last live pair |
| `DBIterators.InsertKeepsCursor` | src/db_iterator.cc:17-101 | An insert into a memtable that a cursor iterates over, wherever it falls, leaves the cursor where it is and everything it will show unchanged |
| `IteratorRuns.TurnKeeps` | src/db_iterator.cc:17-101 | Every turn of every loop, from any loop state, keeps the operation on its way to the pair it should end at |
| `IteratorRuns.InsertKeeps` | src/db_iterator.cc:17-101 | An insert between any two turns does not change where the operation will end |
| `IteratorRuns.RunsAsList` | src/db_iterator.cc:17-101 | For any sequence of operations and any inserts between their turns, as long as no seek is led astray by a memtable's probe, the cursor shows what a cursor over the list of live pairs would show, and is invalid when that one is |
| `IteratorRuns.LowIsSighted` | src/memtable.cc:78-83 | Up to sequence number 2^56 - 1 no seek is led astray |
| `Compactions.PickCompaction` | src/compaction.cc:28-77 | The scan of the levels picks what is due: all of level 0 from the trigger on, otherwise the first file of the least of levels 1 to 5 that holds more than 1, 4, 16, 64 or 256 MB, otherwise nothing; and with it exactly the files of the next level in its key range |
| `Compactions.PickedIsDue` | src/compaction.cc:28-77 | The same of the function that the engine's steps use |
| `Compactions.PickedIsWell` | src/compaction.cc:28-77 | What is picked is well formed: all of level 0 or the first file of a deeper level, and exactly the files overlapping its hull |
| `Compactions.CollectOverlap` | src/compaction.cc:41-53 | The files of the next level that overlap the hull of the inputs |
| `Compactions.HullBounds` | src/compaction.cc:41-46 | The hull is the least key range around all inputs |
| `Compactions.IsBaseLevelForKey` | src/compaction.cc:15-26 | True exactly when no file deeper than the output level has the key in its range |
| `Compactions.DoCompaction` | src/compaction.cc:141-180 | The merge loop writes the outputs: the survivors of the merged inputs, in files; what survives say `SurviveMember` and `TombstoneKept`, where files end says `OutputsCut` |
| `CompactionCorrect.SurviveMember` | src/compaction.cc:151-162 | What survives is, of every key, its newest input entry, unless that is a delete at the key's base level |
| `CompactionCorrect.SplitParts` | src/compaction.cc:162-180 | Cutting into files loses nothing; each file has the bounds of its entries and the next number |
| `CompactionCorrect.OutputsHold` | src/compaction.cc:141-180 | The outputs hold exactly the survivors, with strictly increasing keys |
| `CompactionCorrect.OutputsCut` | src/compaction.cc:162-180 | Every output file but the last has reached the size limit, and none had reached it before its last entry |
| `CompactionCorrect.OutputsSized` | src/compaction.cc:118-136 | Every output is recorded with the size of the table of its entries and with its first and last key |
| `CompactionCorrect.TombstoneKept` | src/compaction.cc:15-26 | A delete that is the newest of its key in the inputs is in the outputs exactly when a file more than one level down has the key in its range; otherwise nothing of the key is |
| `CompactionCorrect.OneSide` | src/compaction.cc:41-72 | All inputs lie on one side of every file of the output level that was not picked |
| `CompactionCorrect.OutputLevel` | src/compaction.cc:186-198 | After the edit the output level is sorted with disjoint ranges and holds the untouched files and the outputs |
| `CompactionCorrect.CompactionKeepsValid` | src/compaction.cc:79-211 | Every picked compaction leaves a version with levels 1-6 sorted and disjoint and level 0 newest first |
| `CompactionMeaning.Plan.KeepsOrder` | src/compaction.cc:141-198 | Moving entries down keeps the newest version of a key from getting newer going down |
| `CompactionMeaning.Plan.KeepsCover` | src/compaction.cc:151-162 | Dropping older versions and base-level tombstones keeps every key's last write, or leaves nothing of a deleted key |
| `CompactionCorrect.CompactionKeepsMeaning` | src/compaction.cc:79-211 | Under whatever lies above it, the version after a picked compaction represents the same history |
| `CompactionTermination.CompactionLightens` | src/compaction.cc:28-77 | Every picked compaction lowers the sum over stored entries of the levels below them, or keeps it and empties level 0 of empty files |
| `CompactionTermination.Settle` | src/db_impl.cc:332-346 | Under whatever lies above the version, compacting as long as something is picked comes to rest, with the meaning unchanged |
| `EngineTheorems.InitHolds` | src/db_impl.cc:82-89 | The state of a new database satisfies the invariant |
| `EngineTheorems.StepKeeps` | src/db_impl.cc:63-390 | Every step of writing, rotating, flushing, compacting, crashing and recovering keeps the invariant |
| `EngineTheorems.RunKeeps` | src/db_impl.cc:63-390 | The invariant holds in every state of every run |
| `EngineTheorems.HistoryIs` | src/db_impl.cc:205-233 | From any state of a run to any later one the history grows by exactly the writes acknowledged in between and those in flight at a crash that their record survived, computed from the steps |
| `EngineTheorems.Durable` | src/db_impl.cc:95-149 | What is read in any later serving state, crashes and recoveries in between, is the map of the earlier history and the writes completed since |
| `EngineTheorems.AcknowledgedStays` | src/db_impl.cc:205-233 | An acknowledged write is what is read of its key, through crashes and recoveries, until a later write to that key completes |
| `EngineTheorems.GetIsMap` | src/db_impl.cc:235-266 | In every reachable state in which the process serves, Get of any key returns what the map holds |
| `EngineReads.BlockGetIsMap` | src/db_impl.cc:235-266 | The same with every table read one block at a time, however it is cut |
| `EngineReads.ServingCurrent` | src/db_impl.cc:241-263 | No live table holds a version newer than the sequence number a read captures |
| `EngineReads.TableReadsAgree` | src/sstable_reader.cc:299-357 | For every live table, cut into any blocks, the one block that is searched answers as the whole table does |
| `EngineSteps.AppendKeeps` | src/db_impl.cc:210-212 | Appending a log record keeps the invariant |
| `EngineSteps.AcknowledgeKeeps` | src/db_impl.cc:214-217 | Inserting into the memtable and advancing the sequence number keeps the invariant |
| `EngineSteps.RotateKeeps` | src/db_impl.cc:192-200 | Rotating the memtable keeps the invariant, because the new log's number is above all others |
| `EngineTables.BeginFlushKeeps` | src/db_impl.cc:348-356 | Writing the table of an immutable memtable and preparing its edit keeps the invariant |
| `EngineTables.ReplayLogKeeps` | src/db_impl.cc:112-133 | Replaying a log into a table during recovery keeps the invariant |
| `EngineCompact.BeginCompactionKeeps` | src/compaction.cc:79-196 | Writing the outputs of a compaction and preparing its edit keeps the invariant |
| `EngineCommit.LoggedDisk` | src/version_set.cc:396-410 | Logging a ready edit makes the disk denote exactly the version set that memory installs |
| `EngineCommit.RestartedDisk` | src/version_set.cc:379-394 | A fresh manifest denotes the version set it was written from |
| `EngineFinish.FlushDoneKeeps` | src/db_impl.cc:354-360 | Committing a flush keeps the invariant: the flushed log is no longer needed |
| `EngineFinish.CompactDoneKeeps` | src/compaction.cc:185-199 | Committing a compaction keeps the invariant |
| `EngineFinish.LogReplayedKeeps` | src/db_impl.cc:127-135 | Committing a replayed log keeps the invariant although the log is still there to be replayed again |
| `EngineFinish.ReopenedKeeps` | src/db_impl.cc:141-149 | Installing the new log at the end of recovery keeps the invariant |
| `EngineRecover.UnlinkLogKeeps` | src/db_impl.cc:137 | Unlinking a replayed log keeps the invariant |
| `EngineRecover.UnlinkInputKeeps` | src/compaction.cc:201-207 | Unlinking a compaction input keeps the invariant |
| `EngineRecover.RemoveObsoleteKeeps` | src/db_impl.cc:372-390 | Unlinking a table that is not live keeps the invariant |
| `EngineRecover.CrashKeeps` | src/db_impl.cc:63-155 | A crash at any point, with any set of half-written tables and the in-flight record kept or lost, keeps the invariant |
| `EngineRecover.OpenKeeps` | src/db_impl.cc:90-110 | Reading the manifest and listing the logs keeps the invariant |
| `EngineLimits.RunWithin` | src/compaction.cc:118-136 | In every reachable state the manifest records passed the limits when they were written, and so did the live tables, each of them recorded with the size of its table and its first and last key |
| `EngineLogFiles.LogReads` | src/wal.cc:127-235 | In every reachable state the bytes of every log read back as exactly its records |
| `EngineLogFiles.CrashLeaves` | src/db_impl.cc:112-125 | Wherever the last append was interrupted, reading the log files gives the logs that a crash step leaves |
| `EngineLogFiles.OversizedForgotten` | src/db_impl.cc:122-137 | A write over the limit, put or delete, and whatever follows it in its log is not in what replay returns: recovery brings back, for every key, the map of the moment before it |
| `EngineFiles.WriteManifest` | src/version_set.cc:396-402 | Logging any edits that fit gives a manifest whose records hold them, each of its computed size |
| `EngineFiles.ManifestReads` | src/version_set.cc:437-472 | In every reachable state the manifest's bytes read back as exactly its records |
| `EngineFiles.ManifestTorn` | src/version_set.cc:396-402 | Wherever the append of an edit was interrupted, the manifest holds the records before that step or after it |
| `EngineFiles.TableServes` | src/sstable_reader.cc:190-357 | The size recorded for a live table is the size of its file; with that size the file is accepted by its reader, and the searched block answers for the table |
| `EngineFiles.ShortPutsFit` | src/sstable_builder.cc:50-58 | When every record written leaves room for one block size, no block of a table of anything the process holds passes 64 MB |
| `EngineDirectory.DirectoryRecovers` | src/db_impl.cc:63-155 | The directory left by any state of any run, torn appends included, reads as the disk of a crash of the engine, every live table opened with its recorded size, and its logs and tables give back the map, with at most the write in flight added |
| `EngineExample.CodeOptionsLimits` | src/sstable_reader.cc:268-273 | Options that let through exactly what the readers take satisfy every limit the theorems ask for |
| `EngineExample.RecordedSize` | src/db_impl.cc:157-185 | Under those options the recorded size of a table is the size of the file its builder writes |
| `EngineExample.FlushedDirectory` | src/db_impl.cc:205-218 | Under those options a new database with one put flushed exists, and the writers of the code make its directory |
| `EngineExample.CodeLosesWrite` | src/db_impl.cc:299-318 | Under those options any two short puts of different keys lose the first one through FlushMemTable and a restart |
| `EngineSnapshots.SnapshotStable` | src/db_impl.cc:241-263 | A reader that captured its sources in one state and looks into the memtables in later states gets what the map held at capture time |
| `EngineReads.BlockSnapshotStable` | src/db_impl.cc:241-263 | The same with every table read one block at a time |
| `EngineSnapshots.SnapshotShape` | src/db_impl.cc:241-263 | In every reachable state the levels are sorted and disjoint, sequence numbers of a key never increase from memtable to level 6, and nothing captured is newer than the captured sequence |
| `EngineBackground.CanFlushIff` | src/db_impl.cc:348-360 | A flush is possible exactly when its table and its edit are within the limits |
| `EngineBackground.CanCompactIff` | src/compaction.cc:141-199 | So is a compaction that is due |
| `EngineBackground.Turn` | src/db_impl.cc:348-370 | One turn of the background thread, the removal of obsolete tables included, leaves nothing to flush and the map unchanged |
| `EngineBackground.IdleLightens` | src/db_impl.cc:363-366 | From every idle state a picked compaction lowers the weight of the version |
| `EngineBackground.AtRestIff` | src/db_impl.cc:332-346 | There is nothing to do exactly when no memtable waits, level 0 is empty or below its trigger, and below it none of levels 1 to 5 holds more than 1, 4, 16, 64 or 256 MB |
| `EngineBackground.Rest` | src/db_impl.cc:332-346 | From every idle state, as long as what is written fits the readers, turn after turn leads to one with nothing to flush and nothing to compact, with the map unchanged |
| `EngineReopen.Finish` | src/db_impl.cc:112-149 | Replaying the pending logs and installing the new log, as far as everything fits, ends in an idle process with the same history |
| `EngineReopen.CanRecoverIff` | src/db_impl.cc:90-149 | Whether recovery succeeds is decided by the one list of live logs and what is written for each |
| `EngineRecovered.StateRecovers` | src/db_impl.cc:95-137 | In every state without a record in flight, manifest, tables and replayed logs read as the map of the history |
| `EngineIterator.IteratorIsMap` | src/db_impl.cc:268-297 | An iterator created in one state runs, whenever it is positioned later, over exactly the bindings of the map in that state, in ascending order |
| `EngineIterator.AddIterators` | src/version_set.cc:270-291 | One child iterator per table, level by level |
| `EngineIterator.IteratorRunIsMap` | src/db_iterator.cc:17-101 | An iterator created in any serving state up to sequence number 2^56 - 1, or whose seeks are not led astray, shows after any operations with inserts at any point the binding of that state's map that a cursor over the sorted bindings would show |
| `EngineIterator.AcknowledgeInserts` | src/db_impl.cc:214-217 | The memtable insert of an acknowledged write is such an insert for every iterator created before |
| `EngineFlush.FlushRotationKnowsLogs` | src/db_impl.cc:305-311 | After the rotation in FlushMemTable the two memtable slots still cover every log with unflushed writes exactly when no immutable memtable was waiting; what that means for reads is `FlushReadsIff` |
| `EngineFlush.FlushRotationIsRotation` | src/db_impl.cc:305-311 | When no immutable memtable is waiting, the rotation in FlushMemTable is the ordinary one |
| `EngineFlush.FlushReadsIff` | src/db_impl.cc:305-311 | When one is waiting, a key reads as the map has it exactly when the active memtable has the key, or the overwritten one does not, or the tables give the same answer |
| `EngineFlush.FlushDurableIff` | src/db_impl.cc:348-360 | After the flush that follows, any crash and the recovery, the same keys read right and the others wrong |
| `EngineFlush.CrashBeforeCommit` | src/db_impl.cc:299-318 | A crash after the rotation or while the flush table is written still recovers the whole map, the overwritten memtable included |
| `EngineFlush.FlushMemTableLosesWrite` | src/db_impl.cc:299-318 | In a new database, as soon as the limits leave room for the table of the second put and a few edits: a put, a rotation, another put, FlushMemTable, a flush and a reopening, and the first put is gone although it was acknowledged |
| `Database.DBImpl.Get` | src/db_impl.cc:235-266 | Returns the map's value, or "not found" |
| `Database.DBImpl.NewIterator` | src/db_impl.cc:268-297 | The cursor runs over exactly the map's bindings, in ascending key order, and up to 2^56 - 1 writes every seek lands right |
| `Database.DBImpl.Put` | src/db_impl.cc:205-218 | Succeeds exactly when the record is readable and a turn of the background thread, if room has to be made, is within the limits; then the map binds the key to the value and nothing else changes |
| `Database.DBImpl.Delete` | src/db_impl.cc:220-233 | Succeeds under the same condition; then the map loses the key and nothing else changes |
| `Database.DBImpl.MakeRoomForWrite` | src/db_impl.cc:187-203 | Succeeds exactly when no turn is needed or the turn is within the limits; then the map is unchanged, and a full memtable has been replaced by an empty one |
| `Database.DBImpl.BackgroundThread` | src/db_impl.cc:332-346 | Succeeds exactly when every turn on the way is within the limits; then the loop ends with nothing to flush and nothing to compact, and the map is unchanged |
| `Database.DBImpl.BackgroundCompaction` | src/db_impl.cc:348-370 | Succeeds exactly when the flush and the compaction are within the limits; the state is then that after one turn: nothing waits to be flushed, only live tables remain on disk, and the map is unchanged |
| `Database.DBImpl.RunCompaction` | src/compaction.cc:79-211 | Succeeds exactly when its tables and its edit are within the limits; then the version becomes the compacted one and the map is unchanged |
| `Database.DBImpl.RemoveObsoleteFiles` | src/db_impl.cc:372-390 | Exactly the tables that the current version does not have are unlinked |
| `Database.DBImpl.LogAndApply` | src/version_set.cc:333-410 | The edit is logged and installed, and the invariant holds afterwards |
| `Database.DBImpl.Recover` | src/db_impl.cc:63-155 | Opening a directory left behind by a crash at any point succeeds exactly when every replayed table, the snapshot and every edit are within the limits, and then brings up exactly the map of its history |
| `Database.ReadRecords` | src/db_impl.cc:122-125 | The replay loop sorts the records before the first that is refused and finds their largest sequence number |
| `Database.AddLiveFiles` | src/version_set.cc:307-313 | The numbers of exactly the files of the version |
| `Threads.StepKeeps` | src/db_impl.cc:187-360 | No step of a writer or of the background thread breaks the engine's invariant or the one that nobody sleeps while there is something to wait for or to do |
| `Threads.SleepsWhen` | src/db_impl.cc:187-203 | A writer falls asleep exactly when it finds the active memtable at its limit and another one waiting, and has then changed nothing |
| `Threads.RotatesWhen` | src/db_impl.cc:187-203 | The active memtable is replaced exactly when a writer finds it at its limit and none waiting; it then waits to be flushed, the background thread is awake, and the write is done |
| `Threads.WritesWhen` | src/db_impl.cc:187-203 | Below the limit a writer writes at once, and memtables, other writers and background thread stay as they are |
| `Threads.UsageBounded` | src/db_impl.cc:187-203 | In every state of every run the active memtable exceeds its limit by less than its last write |
| `Threads.RotationNeverOverwrites` | src/db_impl.cc:192-200 | In every reachable state every rotated memtable is waiting to be flushed or has been flushed |
| `Threads.ReadsAreMap` | src/db_impl.cc:187-370 | In every state of every interleaving of writers and background thread a read returns what the map holds |
| `Threads.WaiterHasHelp` | src/db_impl.cc:192-194 | A writer waiting on the condition variable coexists with a background thread that holds the mutex or is about to take it |
| `Threads.Rested` | src/db_impl.cc:332-360 | Left to itself the background thread flushes and compacts until nothing is left of either and goes to sleep, with every waiting writer awake and the map unchanged |
| `Threads.WaiterGetsThrough` | src/db_impl.cc:187-218 | A writer that was waiting then completes its write when it next takes the mutex |

## Left out

- POSIX calls, short reads and writes, `fsync`, `flock` and directory scans: files are byte sequences, the directory is a map from number to content, and completed writes survive a crash.
- I/O errors and the branches that handle them, including the lazy opening of readers: several of these branches do not keep the invariant.
- Manifest creation and the switch of CURRENT are one step; a crash between them is not modelled.
- The arena's bookkeeping: what a write adds to a memtable's memory usage is a parameter of the write in `Threads`, and whether the memtable is full one of the calls of `Database.DBImpl`.
- The engine's theorems hold for any functions from entries to table sizes; those of the code are the options of `EngineExample`, and theorems about bytes require them (`EngineFiles.TrueSizes`).
- `std::sort` is insertion sort; `Edits.OrderUnique` says why any other gives the same.
- C++ memory orders: the skip list's loads and stores are sequentially consistent single-pointer steps, with one inserter and one reader.
- MurmurHash3, the distribution of node heights and the false-positive rate: the hash is any function and the height any value from 1 to 16. The probe count is computed with exact decimals instead of doubles.
- `MergingIterator::Prev` and `SeekToLast`, which no caller uses, and an iterator without children.
- Block iterators over bytes that no builder produced: `Blocks.Iter` promises positions for built blocks only, and the branches of `Seek`, `Prev` and `SeekToLast` for a missing restart table are not taken there.
- Sums of lengths are unbounded where the source adds 32-bit or 64-bit numbers that could wrap for bytes that no writer produced.
- Levels decoded from a manifest stay unsigned.
- The merging iterator's `Seek` and `SeekToFirst` position all children in one step; inserts arrive before and after.
- `CompactRange`, a single compaction under the mutex, and the destructor's shutdown handshake.
- The wait at the end of `FlushMemTable`, which is that of a writer.
- `Status` texts, options parsing, file naming, benchmarks and tests.
- TableReaders.SSTableReader.Get: for tables whose blocks the reader accepts and whose entries are puts and deletes; `TableLimits.FitsIff` says which tables these are.
- ManifestLog.ReplayRecord: a file for a level that does not exist is dropped where the source would index out of bounds; no edit the engine writes has one.
- Wal.ReadBackIff: for records of less than 4 GiB with 64-bit sequence numbers; the source truncates the length of a larger one.
- Database.DBImpl.Put: what the source does after something over a reader's limit has been written is not modelled; the result is then false. The same holds of the other methods of `DBImpl` that return a result.
- IteratorRuns.RunsAsList: seeks beyond the memtables' probe are covered only as far as `DBIterators.SeekIff` allows, because the source passes over those versions.
- Threads.StepKeeps: a turn of the background thread that would write something over a reader's limit is not a step.

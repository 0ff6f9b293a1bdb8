# KipDB in Dafny

KipDB is a leveled log-structured key-value store with multi-version concurrency control. This
project models its hard parts and proves what they promise: the memtable and transactions under
every interleaving, the levels of a version and their compaction, the file cleaner's protocol, the
merging and level iterators, sorted-string tables down to their bytes, the block cache's linked
list, the log's framing, the version statistics and the table filter.

`dafny verify dfyconfig.toml` checks everything.

## How the modules fit together

| module | subject |
|---|---|
| `Keys`, `Rows`, `Search`, `Arith`, `Fixed` | byte-string order, sorted lists of rows, binary search, division, fixed-width integers |
| `MemTable`, `Mvcc` | versioned map, range scan, swap; the step machine of writers, transactions, swap and version install |
| `Reads`, `Writes`, `Commits`, `Store` | whole runs: what transactions and the store read, what their writes come to, when commits keep their promise, the machine together with the files |
| `Merging`, `Transaction` | k-way merge with priority; reads, writes, commit and range iteration of one transaction |
| `Sharding`, `Levels`, `Compaction`, `CompactionRound`, `InsertionPoint`, `CompactionCode`, `CompactionRuns` | cutting rows into tables; lookup in levels; one compaction round, with any shards and with the code's; what a wrong insertion point costs; runs of flushes and rounds |
| `Cleaner`, `CleanerProgress`, `FilesOnDisk` | reference drops and tags in a queue that decide when a file may go, when it does go, and the protocol together with the versions' levels |
| `Statistics`, `StatisticsRounds` | edit batches, counters, log replay |
| `Block`, `Codec`, `SsTable`, `Bloom`, `TableBuild` | prefix-compressed blocks, their bytes, tables with index and filter |
| `BlockCursor`, `TableCursor`, `LevelCursor`, `DiskCursors` | the three nested cursors, and range iteration over files |
| `Lru` | the cache on the heap and its recency-ordered specification |
| `Log` | fragments, blocks, resuming |

Keys are byte strings compared through `Rank`, a real number whose order is proved to be the
lexicographic one. A version's tables are a map from gen to sorted rows, so `Levels.Query` is a
function of levels and tables; the rows are those the table's file gives back. A tombstone is `Some(None)`, a miss is `None`.

`Mvcc` takes every piece the source does under the memtable lock as one step and everything else
apart: counting a transaction, capturing its version, taking its sequence, the check, the sequence
and the insert of a commit, the two checks of a swap, the move, and the install of a flushed table.
`Reads` and `Commits` are about whole runs of that machine. In it a version is its answers; `Store`
runs it together with the files of `CompactionRuns`, so that every view is what some files answer.

## What turned out to need a condition

- A commit checks, takes its sequence and inserts in three steps. Two overlapping transactions can both commit a key (`LostUpdate`): exactly if each checks before the other inserts and no third write intervenes (`CheckPassesIff`, `PassesIffBeforeInsert`). A live reader's answer can change (`MovingSnapshot`): exactly by an insert whose sequence the reader had passed (`SameVersionIff`, `ReadsAgreeIff`). Without such crossings the promises hold (`FirstCommitterWins`, `SnapshotStability`).
- A round's insertion point (`first_index.unwrap_or(0)`) is right exactly if a table of the next level meets the fused scope or the whole level lies above it. Only then does the level stay sorted, and only then does binary search find all its keys (`CodeRound`, `RoundSearchIff`, `LevelsSortedIff`).
- A level-0 round keeps an answer exactly if a chosen newest holder has the newest left-behind value (`LeftBehindWinsIff`, `OlderTableResurfaces`); tables chosen by scope are not closed over older overlapping ones.
- A round over merged rows without a byte drops them, since sharding makes no shard for them: the empty key keeps its answer exactly if a level above holds it or the levels below agree (`BytelessPreservesQuery`, `TombstoneLost`).
- Range iteration skips the last level, and the whole disk for an unbounded minimum; it agrees with point reads exactly when those hold nothing new for the key (`IterationAgreesWithGet`, `IterationMisses`).
- An empty value reads back from a file as a tombstone (`EmptyValuesAreLost`, `EmptyValueTable`). So a read is the newest write exactly if the memtable still holds that write or it is not an empty value (`ReadIsSnapshot`, `SnapshotStability`, `StoreGetIsLinearizable`, `GetIsSnapshot`); `EmptyValueLost` is a run in which it is not.
- An empty log record is written as nothing (`NonEmptyIsIdentity`).
- A record cut off between two of its fragments is read back short, as if complete; only a cut inside a fragment is noticed (`ReadTorn`).
- The block cursor computes `old_offset - 1 / restart_interval` on unsigned numbers: at a restart interval of 1 the move away from offset 0 underflows, and only that one (`OffsetMove`, `FirstNext`). Checked arithmetic panics there; unchecked arithmetic wraps to a number unequal to any group and goes on correctly.
- A block cursor's prev undoes next unless the cursor had already run off the end (`NextThenPrev`).

## Model

| member | source | states |
|---|---|---|
| `Keys.RankIsLexicographic` | src/kernel/lsm/mem_table.rs:48-54 | The numeric rank used to compare keys orders byte strings exactly as the lexicographic order does |
| `Keys.UpsertFind` | src/kernel/lsm/mvcc.rs:82-85 | Putting a key into the ordered write buffer changes the answer for that key and for no other |
| `Search.SearchCorrect` | src/kernel/lsm/version/mod.rs:282-286 | On an ascending list the search reports an equal element exactly if there is one, and otherwise the insertion point |
| `Search.OneGoesAstray` | src/kernel/lsm/version/mod.rs:282-286 | On a list with smaller elements behind larger ones, of two probes for either kind binary search sends one to the wrong side |
| `MemTable.InsertMembers` | src/kernel/lsm/mem_table.rs:238-251 | Inserting adds exactly the one record and replaces only a record of the same key and sequence |
| `MemTable.InsertBatchMembers` | src/kernel/lsm/mem_table.rs:254-274 | A batch of distinct keys adds exactly its rows, all at one sequence |
| `MemTable.FindIsNewest` | src/kernel/lsm/mem_table.rs:358-365 | The neighbour lookup returns the newest version at or below the sequence, and misses exactly if there is none |
| `MemTable.HasNewerIsComplete` | src/kernel/lsm/mem_table.rs:217-233 | Looking at the next record alone finds a newer version of the key exactly if one exists |
| `MemTable.PaddedBounds` | src/kernel/lsm/mem_table.rs:373-395 | Bounds padded with the smallest or largest sequence select exactly the user keys in range |
| `MemTable.RangeIsLexicographic` | src/kernel/lsm/mem_table.rs:373-395 | The tests a scan makes select exactly the keys strictly between the bounds in lexicographic order and those at an included bound; none below the minimum, above the maximum or at an excluded bound |
| `MemTable.RangeItemsFind` | src/kernel/lsm/mem_table.rs:404-408 | The first item of a key in the filtered reverse scan is what the point lookup returns |
| `MemTable.PushKeeps` | src/kernel/lsm/mem_table.rs:453-460 | Comparing with the last pushed key alone suppresses every duplicate of a descending stream |
| `MemTable.MergeReverse` | src/kernel/lsm/mem_table.rs:406-445 | The two-way merge consumes both sides, stays strictly descending and keeps, for every key, the live map over the frozen one |
| `MemTable.RangeScan` | src/kernel/lsm/mem_table.rs:367-451 | Strictly ascending output with exactly the in-range keys that have a visible version, each with the value of the point lookup; an included bound is in range, an excluded one is not, by the lexicographic order and not only by the scan's own test |
| `MemTable.FlushIsNewest` | src/kernel/lsm/mem_table.rs:289-329 | The rows a swap hands over are sorted and hold exactly the newest version of every key of the frozen map |
| `MemTable.MemTable.InsertData` | src/kernel/lsm/mem_table.rs:238-251 | Afterwards the live map holds the new record and all others but one of the same key and sequence |
| `MemTable.MemTable.InsertBatchData` | src/kernel/lsm/mem_table.rs:254-274 | The loop inserts the whole batch at one sequence |
| `MemTable.MemTable.CheckKeyConflict` | src/kernel/lsm/mem_table.rs:217-233 | True exactly if some row has a version in the live map with a sequence above the given one |
| `MemTable.MemTable.Swap` | src/kernel/lsm/mem_table.rs:289-329 | Blocked exactly while transactions are counted; otherwise the live map is frozen, emptied and handed over deduplicated |
| `MemTable.MemTable.FindWithSequenceId` | src/kernel/lsm/mem_table.rs:345-356 | The newest version at or below the sequence in the live map, else in the frozen one; nothing exactly if neither has a version that old |
| `Mvcc.InitInv` | src/kernel/lsm/mem_table.rs:181-215 | A freshly opened store satisfies the invariant |
| `Mvcc.WriteKeeps` | src/kernel/lsm/mem_table.rs:238-274 | Records inserted at any sequence of the live stretch, also late ones, leave every captured version, the store and every other transaction intact |
| `Mvcc.StoreWriteInv` | src/kernel/lsm/storage.rs:183-193 | A direct write keeps the invariant |
| `Mvcc.CommitCheckInv` | src/kernel/lsm/mvcc.rs:100-109 | The check, alone under the lock, keeps the invariant |
| `Mvcc.CommitSeqInv` | src/kernel/lsm/mvcc.rs:111-114 | Taking the commit sequence outside the lock keeps the invariant; no two commits hold the same one |
| `Mvcc.CommitInsertInv` | src/kernel/lsm/mem_table.rs:254-274 | The insert, however much later, still lands in the live map and keeps the invariant |
| `Mvcc.NoConflictMeansUntouched` | src/kernel/lsm/mem_table.rs:217-233 | Checking the live map alone is complete: it reports a conflict exactly if any write to one of the keys, anywhere in history, is newer than the transaction |
| `Mvcc.BeginInv` | src/kernel/lsm/mvcc.rs:43-55 | Counting, capturing the version and taking a sequence, in separate steps, each keep the invariant |
| `Mvcc.DropInv` | src/kernel/lsm/mvcc.rs:188-197 | Dropping a transaction keeps the invariant and the count never underflows |
| `Mvcc.SwapCheckInv` | src/kernel/lsm/mem_table.rs:292-301 | The second check under the lock sees no transaction, so nobody depends on the maps about to move |
| `Mvcc.SwapMoveInv` | src/kernel/lsm/mem_table.rs:303-327 | Freezing the live map keeps every snapshot that begins after it readable |
| `Mvcc.InstallInv` | src/kernel/lsm/version/status.rs:88-112 | Installing the flushed rows as their file gives them back makes a version that answers as of the freeze, an empty value as a tombstone |
| `Mvcc.NextInv` | src/kernel/lsm/mvcc.rs:43-126 | Every step of every actor keeps the invariant, the three steps of a commit interleaved with all others |
| `Mvcc.RunInv` | src/kernel/lsm/mvcc.rs:43-126 | Every state of every interleaving satisfies the invariant |
| `Mvcc.MemFindIsNewest` | src/kernel/lsm/mem_table.rs:345-356 | In a state of the machine, live map before frozen map answers with the newest write at or below the sequence among those still in memory |
| `Mvcc.ReadIsSnapshot` | src/kernel/lsm/mvcc.rs:65-80 | A read of an unwritten key is the newest write with a sequence at most the reader's, whichever of live map, frozen map and captured version holds it, exactly if the memtable holds that write or it is not an empty value; otherwise it is a tombstone |
| `Mvcc.LateInsertVisibility` | src/kernel/lsm/mvcc.rs:102-114 | A record inserted late changes what a lookup sees exactly when its sequence is not above the reader's and no version in between hides it |
| `Reads.StepInserts` | src/kernel/lsm/mem_table.rs:238-274 | A step makes visible exactly the records of its insert, changes nothing recorded and nothing below the live stretch |
| `Reads.LateStep` | src/kernel/lsm/mvcc.rs:111-114 | What a reader sees of a key changes by a step exactly if the step inserts a commit whose sequence the reader has passed, unhidden; then it sees the commit's value |
| `Reads.SameVersionIff` | src/kernel/lsm/mvcc.rs:65-80 | In every run a live transaction reads the same version of an unwritten key at two moments exactly if no such insert happens in between, and then, from a moment when the memtable lock is free, the same answer |
| `Reads.ReadsAgreeIff` | src/kernel/lsm/mvcc.rs:65-80 | If one happens, the answer is the last such commit's value, and the two answers agree exactly if that equals the first |
| `Reads.SnapshotStability` | src/kernel/lsm/mvcc.rs:43-79 | In every run where no transaction takes its sequence between another's sequence and insert, a live transaction reads the same answer for an unwritten key at any two moments when the memtable lock is free: the newest write up to its sequence exactly if the memtable holds that write or it is not an empty value |
| `Reads.StoreGetIsLinearizable` | src/kernel/lsm/storage.rs:131-142 | In every run a store read, with the version asked any time after a miss in the memtable, answers with what the store held at one moment between the two looks, exactly unless that was an empty value on a miss, which it answers as a tombstone |
| `Commits.HistoryIs` | src/kernel/lsm/mvcc.rs:111-114 | What is visible at a moment is what was recovered plus what earlier steps inserted |
| `Commits.CheckPassesIff` | src/kernel/lsm/mvcc.rs:102-109 | In every run a check passes exactly if every write of the whole run to one of its keys at a sequence above the transaction's is inserted after the check |
| `Commits.PassesIffBeforeInsert` | src/kernel/lsm/mvcc.rs:102-114 | A transaction sharing a key with a commit of a later sequence passes only before that commit's insert, and exactly then unless a third write stops it |
| `Commits.SharedKeyNeedsCrossing` | src/kernel/lsm/mvcc.rs:102-114 | In every run two overlapping commits share a key only if each checks before the other inserts |
| `Commits.FirstCommitterWins` | src/kernel/lsm/mvcc.rs:96-126 | In every run whose windows from check to insert do not cross, two overlapping commits share no key |
| `Commits.AtomicApart` | src/kernel/lsm/mvcc.rs:102-114 | Commits that nothing interrupts have windows that do not cross |
| `Commits.AtomicBegins` | src/kernel/lsm/mvcc.rs:102-114 | Nor does anybody take a sequence inside them |
| `Commits.CrossingBothCommit` | src/kernel/lsm/mvcc.rs:102-114 | From every reachable state with two transactions that would pass now, both commit, overlapping, if each checks before the other inserts |
| `Commits.SerialRejects` | src/kernel/lsm/mvcc.rs:102-114 | From every such state with a common key the second is rejected if it checks after the first has committed |
| `Commits.LostUpdate` | src/kernel/lsm/mvcc.rs:102-114 | A run, from every opening state and for every key, in which two overlapping transactions both commit that key |
| `Commits.MovingSnapshot` | src/kernel/lsm/mvcc.rs:111-114 | A run, from every opening state and for every key, in which a live reader's answer changes to a commit's value |
| `Commits.EmptyValueLost` | src/kernel/lsm/table/ss_table/block.rs:140-164 | A run, from every opening state and for every key, that sets an empty value and flushes twice: the store holds the value and a read answers that the key was removed |
| `Store.NextInv` | src/kernel/lsm/version/status.rs:88-112 | Flushes, with the rows as the file gives them back, and the rounds that keep every answer keep the installed version and every captured one answering as their files do |
| `Store.MemoryRun` | src/kernel/lsm/version/status.rs:88-112 | The memtable's part of every such run is a run of the memtable machine, so all results about those apply |
| `Store.GetIsSnapshot` | src/kernel/lsm/mvcc.rs:65-80 | In every run of memtable steps, flushes and such rounds, a transaction's read through its captured files is the newest write up to its sequence exactly if the memtable holds that write or it is not an empty value |
| `Writes.WriteThenRead` | src/kernel/lsm/mvcc.rs:57-85 | After a transaction's write the key reads as written and every other key as before |
| `Writes.RowsAreLastWrites` | src/kernel/lsm/mvcc.rs:57-85 | In every run the rows a transaction carries, buffered or on their way through its commit, answer each key with its last write to that key since it began |
| `Writes.OwnReads` | src/kernel/lsm/mvcc.rs:65-80 | In every run a live transaction reads its own last write to a key and, where it has none, what a reader at its sequence sees |
| `Writes.CommitInsertsLastWrites` | src/kernel/lsm/mvcc.rs:111-114 | In every run a commit inserts, in one step and at one sequence, exactly the keys its transaction has written, each with its last write |
| `Writes.RecordValue` | src/kernel/lsm/mem_table.rs:238-274 | In every run a record has, ever after, the value its store write was given or the last write of its transaction to the key |
| `Transaction.Transaction.constructor` | src/kernel/lsm/mvcc.rs:43-55 | The transaction is counted and starts with no write buffer |
| `Transaction.Transaction.Get` | src/kernel/lsm/mvcc.rs:65-80 | Write buffer before memtable before captured version: a value exactly if the first of them that has the key has a value, nothing for a tombstone or an absent key |
| `Transaction.Transaction.Set` | src/kernel/lsm/mvcc.rs:82-85 | Afterwards the key resolves to the value and every other key as before |
| `Transaction.Transaction.Remove` | src/kernel/lsm/mvcc.rs:87-94 | Fails exactly on a key without a value; otherwise that key resolves to a tombstone and no other key changes |
| `Transaction.Session` | src/kernel/lsm/mvcc.rs:65-94 | Over every sequence of gets, sets and removes of one transaction each call replies by the last set or remove of its key before it, else by what the transaction saw at first; a remove fails exactly without a value |
| `Transaction.SetThenRemove` | src/kernel/lsm/mvcc.rs:65-94 | A get after a set gives the value, a get after a remove gives nothing, and a second remove fails |
| `Transaction.Transaction.Commit` | src/kernel/lsm/mvcc.rs:96-126 | Rejected exactly if a buffered key was written since the begin; otherwise the live map gains the whole buffer at one sequence |
| `Transaction.DiskLayersFind` | src/kernel/lsm/version/iter.rs:24-39 | The layered iterators answer like the version without its last level |
| `Transaction.IterationAgreesWithGet` | src/kernel/lsm/mvcc.rs:138-185 | Iteration and point reads agree on a key exactly when a visited layer holds it or no unvisited one does: the last level, and with an unbounded minimum the whole version |
| `Transaction.IterationMisses` | src/kernel/lsm/version/iter.rs:32-36 | Versions with one table whose key a point read finds and iteration misses: in the last level with any bounds, in any level with an unbounded minimum |
| `Transaction.TransactionIter.Skip` | src/kernel/lsm/mvcc.rs:213-245 | Skipping stops at the first row not below the minimum and loses none in range |
| `Transaction.TransactionIter.TryNext` | src/kernel/lsm/mvcc.rs:213-245 | Yields the next row in range; nothing more only when the range is complete |
| `Transaction.Iterate` | src/kernel/lsm/mvcc.rs:138-185 | A whole iteration is strictly ascending and has exactly the in-range keys some visited layer holds, each with the value or tombstone of the first such layer; the bounds are those of the lexicographic order, an included one in range and an excluded one not |
| `Merging.FirstIsLeast` | src/kernel/lsm/iterator/merging_iter.rs:22-28 | The first buffered key is the least of all remaining rows and belongs to the lowest-numbered input that still holds it |
| `Merging.MergingIter.constructor` | src/kernel/lsm/iterator/merging_iter.rs:49-64 | A new merge has produced nothing and is ready to produce the least key |
| `Merging.MergingIter.Seek` | src/kernel/lsm/iterator/merging_iter.rs:163-185 | The merge starts over on the moved inputs; after seeking the last element nothing is left to produce |
| `Merging.MergingIter.TryNext` | src/kernel/lsm/iterator/merging_iter.rs:123-140 | Each row comes after all smaller keys, with the value of the lowest-numbered input; nothing is returned only when every key has been produced |
| `Merging.Merge` | src/kernel/lsm/iterator/merging_iter.rs:111-140 | For any number of sorted inputs the merge terminates with the strictly ascending union, each key with the value of the first input that holds it |
| `Levels.MeetIsOverlap` | src/kernel/lsm/table/scope.rs:93-99 | The four-way test holds exactly if the two ranges share a key |
| `Levels.Fusion` | src/kernel/lsm/table/scope.rs:80-91 | The fused scope is the smallest range around all scopes |
| `Levels.QueryVersion` | src/kernel/lsm/version/mod.rs:233-280 | The loops compute level 0 from the newest table down, then one table per level |
| `Levels.OnlyTableForKey` | src/kernel/lsm/version/mod.rs:282-286 | In a sorted level the table picked by binary search is the only one whose range has the key |
| `Levels.QueryLevelIsScan` | src/kernel/lsm/version/mod.rs:282-286 | A sorted level answers as if every table were tried |
| `Levels.QueryIsScan` | src/kernel/lsm/version/mod.rs:233-261 | A well-formed version answers as a scan of all tables, upper levels first |
| `Sharding.DataSharding` | src/kernel/lsm/mod.rs:24-53 | The shards are in order with ascending gens, none is empty, each holds at most the file size plus one row, and they concatenate to the input exactly when the input is empty or has bytes |
| `Compaction.RetainIsLeftBehind` | src/kernel/lsm/version/mod.rs:124-129 | Deleting the gens of the chosen tables leaves exactly the others |
| `Compaction.SortByGenIsSort` | src/kernel/lsm/version/mod.rs:132-136 | The scopes of one edit go in by ascending gen, the same ones |
| `Compaction.MergedFind` | src/kernel/lsm/compactor.rs:245-283 | The merged rows answer every key from the upper tables in gen order, then from the lower ones |
| `Compaction.ShardScan` | src/kernel/lsm/compactor.rs:149-163 | The tables made from the shards answer exactly like the merged rows |
| `Compaction.ShardShape` | src/kernel/lsm/table/scope.rs:123-133 | Scopes of the shards of sorted rows are sorted and disjoint |
| `CompactionRound.NextLevelSorted` | src/kernel/lsm/version/mod.rs:208-230 | With a right insertion point the next level stays sorted and disjoint |
| `CompactionRound.NextLevelUnsorted` | src/kernel/lsm/version/mod.rs:229-229 | With a wrong one it does not |
| `CompactionRound.LeftBehindWinsIff` | src/kernel/lsm/compactor.rs:214-220 | At level 0 a key keeps its answer exactly if a chosen table that is its newest holder has the value of the newest left-behind table that also holds it |
| `CompactionRound.OlderShareNoKeyWins` | src/kernel/lsm/compactor.rs:214-220 | For that it is enough that no older left-behind table shares a key with a newer chosen one |
| `InsertionPoint.KeyLost` | src/kernel/lsm/version/mod.rs:282-286 | New tables in front of smaller ones: some key has a row in the level that the search does not find |
| `InsertionPoint.RoundSearchIff` | src/kernel/lsm/version/mod.rs:229-229 | After every round with bytes, binary search in the next level finds what its tables hold, for every key, exactly if the insertion point was right |
| `CompactionCode.PlanRound` | src/kernel/lsm/compactor.rs:192-283 | On any levels, sorted or not, the shards the code cuts hold all merged rows, under fresh gens, each at most the file size plus one row, if the rows have bytes; otherwise there are none |
| `CompactionCode.CutKeepsNumbers` | src/kernel/lsm/compactor.rs:159-169 | After such a round every scope still describes its table and gens identify the tables of a level, wherever the round inserted |
| `CompactionCode.BytelessPreservesQuery` | src/kernel/lsm/mod.rs:24-53 | A round over merged rows without a byte keeps an answer exactly if the key is not the empty one, or a level above holds it, or the levels below give it the dropped value |
| `CompactionCode.TombstoneLost` | src/kernel/lsm/mod.rs:24-53 | A tombstone of the empty key over an older value two levels down: the round brings the old value back |
| `CompactionCode.CodeRound` | src/kernel/lsm/compactor.rs:159-169 | After the edits of a round on a well-formed version the version is well formed, and the next level searchable for every key, exactly if the rows have no bytes or the insertion point was right; then each answer is kept exactly where the round is harmless for the key |
| `CompactionCode.MajorRound` | src/kernel/lsm/compactor.rs:123-283 | One whole round: planning, merging, cutting and applying, with that result for every well-formed version, level and range |
| `CompactionRuns.FlushQuery` | src/kernel/lsm/compactor.rs:80-115 | A flush puts its rows, empty values as tombstones, over every earlier answer |
| `CompactionRuns.RunNumbered` | src/kernel/lsm/version/mod.rs:118-147 | In every run of flushes and of rounds as the code makes them, whatever these do, scopes describe their tables and gens identify them |
| `CompactionRuns.LevelsSortedIff` | src/kernel/lsm/version/mod.rs:208-230 | Every state of a run has sorted and disjoint lower levels exactly if every round of the run inserts nothing or at a right insertion point |
| `CompactionRuns.LevelsStaySorted` | src/kernel/lsm/version/mod.rs:118-147 | While that holds, each lower level is sorted and disjoint and the table binary search picks is the only candidate for a key, whatever the rounds do to the answers |
| `CompactionRuns.VersionIsNewestFlushed` | src/kernel/lsm/version/mod.rs:233-261 | In every run of such rounds every state answers each key with its newest flushed row as the file gives it back exactly if every round is harmless for every key |
| `CompactionRuns.RunNormal` | src/kernel/lsm/table/ss_table/block.rs:140-164 | In every run no table has an empty value, so the rows a round writes read back unchanged |
| `CompactionRuns.MinorBatch` | src/kernel/lsm/compactor.rs:80-107 | One batch with the new table and a round planned before it has the effect of the round followed by the flush |
| `CompactionRuns.OlderTableResurfaces` | src/kernel/lsm/compactor.rs:214-220 | A chosen newer table sinking below an older one that shares a key keeps the answer exactly when both hold the same value |
| `CompactionRuns.ResurfacingTables` | src/kernel/lsm/compactor.rs:214-220 | Concrete tables for which that answer changes |
| `Cleaner.Cleaner.FindIndex` | src/kernel/lsm/version/cleaner.rs:91-97 | The first pending entry of the version |
| `Cleaner.Cleaner.CleanVer` | src/kernel/lsm/version/cleaner.rs:68-89 | The oldest entry's files are deleted; any other entry's are handed to the entry before it |
| `Cleaner.Cleaner.Listen` | src/kernel/lsm/version/cleaner.rs:38-66 | All tags in order and, once the channel is closed, everything still pending |
| `Cleaner.CleanConserves` | src/kernel/lsm/version/cleaner.rs:68-89 | Cleaning loses and duplicates no file |
| `Cleaner.ListenedConserves` | src/kernel/lsm/version/cleaner.rs:38-66 | A channel closed at any time leaves nothing pending: every announced file has been deleted, once |
| `Cleaner.NextInv` | src/kernel/lsm/version/mod.rs:118-158 | Apply, capture, drop, delivery and shutdown keep the protocol's invariant |
| `Cleaner.RunInv` | src/kernel/lsm/version/mod.rs:319-325 | Every state of every run satisfies it |
| `Cleaner.CleanerSafety` | src/kernel/lsm/version/cleaner.rs:38-89 | No deleted file belongs to a version that somebody can still read |
| `Cleaner.CleanerConservation` | src/kernel/lsm/version/cleaner.rs:38-89 | Pending plus deleted files are always exactly those of the delivered add tags |
| `Cleaner.CleanerCompleteness` | src/kernel/lsm/version/cleaner.rs:38-66 | Once all versions are dropped and the channel is drained, every superseded file has been deleted exactly once and nothing else has |
| `CleanerProgress.DeletedIff` | src/kernel/lsm/version/cleaner.rs:68-89 | In every state of every run a file announced by the delivered add of a version is deleted exactly if the clean tags of all versions up to that one have been delivered, and pending otherwise |
| `CleanerProgress.DeletedWhenUnused` | src/kernel/lsm/version/cleaner.rs:38-89 | With the channel drained a superseded file is gone exactly if nobody holds the version that superseded it or an older one |
| `CleanerProgress.RefsAreReaders` | src/kernel/lsm/version/mod.rs:319-325 | In every run a version's references are the readers that took it and have not given it back, and the store while it is current |
| `Statistics.SortTypesSum` | src/kernel/lsm/version/edit.rs:18-43 | Sorting moves the additions to the front and changes neither total |
| `Statistics.VersionMeta.StatisticalProcess` | src/kernel/lsm/version/meta.rs:15-34 | No counter runs below zero on the way exactly if the totals do not; then the counters end at old plus additions minus removals |
| `Statistics.SortedSucceeds` | src/kernel/lsm/version/meta.rs:19-31 | Processing the sorted list succeeds exactly if the totals allow it, and ends where any order that succeeds ends |
| `Statistics.SortingMatters` | src/kernel/lsm/version/meta.rs:19-20 | Processing in the log's own order can run below zero where the sorted order does not |
| `Statistics.ListedSum` | src/kernel/lsm/version/mod.rs:124-129 | Gens listed once and present once weigh what they weigh in the level |
| `Statistics.EditStatistics` | src/kernel/lsm/version/mod.rs:118-147 | An edit that carries the recorded statistics of its tables changes the sums over all levels by exactly those |
| `Statistics.LogStatistics` | src/kernel/lsm/version/mod.rs:118-158 | Over every such log no counter underflows and the counters end as the sums over the tables of all levels |
| `Statistics.ReplayInOneApply` | src/kernel/lsm/version/mod.rs:89-109 | One apply of two batches gives the levels and counters of two applies |
| `Statistics.Version.Apply` | src/kernel/lsm/version/mod.rs:118-158 | Levels are edited in order, statistics processed once, the number grows by one and the tag lists exactly the deleted gens |
| `Statistics.TagIsRemoved` | src/kernel/lsm/version/mod.rs:118-158 | For every honest batch the gens a version announces as superseded are exactly those that some edit of the batch took out of a level |
| `Statistics.LoadFromLog` | src/kernel/lsm/version/mod.rs:89-109 | The whole log in one apply never underflows and gives exact counters |
| `Statistics.VersionStatus.LogAndApply` | src/kernel/lsm/version/status.rs:88-112 | The batch is logged, a new version installed, and the installed version is still what the log replays to; earlier versions do not change |
| `Statistics.VersionStatus.Reload` | src/kernel/lsm/version/status.rs:32-81 | Reloading rebuilds the levels and counters that the batches gave one by one |
| `StatisticsRounds.FlushIsHonest` | src/kernel/lsm/compactor.rs:80-107 | The edit of every flush carries its table's statistics and adds a gen the level does not have |
| `StatisticsRounds.RoundIsHonest` | src/kernel/lsm/compactor.rs:159-169 | The edits of every compaction round do too, wherever it inserts and with or without bytes: deleted tables are there once, new ones are not |
| `StatisticsRounds.RunIsHonest` | src/kernel/lsm/version/status.rs:88-112 | Every run of flushes and rounds, with no condition on the rounds, logs edits that replay to its levels |
| `StatisticsRounds.RunStatistics` | src/kernel/lsm/version/meta.rs:15-34 | In every such run the counters never run below zero and are the sums over the tables of all levels |
| `FilesOnDisk.TagOfStep` | src/kernel/lsm/version/mod.rs:118-158 | What a flush or round announces is what its edits delete |
| `FilesOnDisk.CompactEnabled` | src/kernel/lsm/version/status.rs:88-112 | While the store is open every flush and every round the code can make is an apply step of the cleaner's protocol: it announces gens of the current version, each once, and adds unused ones |
| `FilesOnDisk.HeldTablesAreThere` | src/kernel/lsm/version/cleaner.rs:38-89 | In every run of flushes, rounds, captures, releases and deliveries no table of a version that the store or a reader holds has been deleted |
| `Block.SharedLenIsLongest` | src/kernel/lsm/table/ss_table/block.rs:596-613 | The group's shared length is a common prefix of all its keys and none is longer |
| `Block.IsCommonPrefix` | src/kernel/lsm/table/ss_table/block.rs:635-646 | True exactly if all keys agree on that many bytes |
| `Block.LongestSharedLen` | src/kernel/lsm/table/ss_table/block.rs:615-633 | Binary search on the length finds the group's longest shared prefix |
| `Block.FullKeyRestores` | src/kernel/lsm/table/ss_table/block.rs:467-493 | Every key of a block is its restart key's prefix followed by its stored suffix |
| `Block.SuffixNotEmpty` | src/kernel/lsm/table/ss_table/block.rs:467-493 | In a strictly sorted block a non-restart entry never compresses to nothing |
| `Block.EntryCompareIsFull` | src/kernel/lsm/table/ss_table/block.rs:504-517 | Comparing prefix and suffix separately compares full keys, for every probe, also one shorter than the prefix |
| `Block.SearchBlockCorrect` | src/kernel/lsm/table/ss_table/block.rs:504-517 | The search on compressed entries returns what a search over full keys returns: the index if present, else the insertion point |
| `Codec.VarintRoundTrip` | src/kernel/lsm/table/ss_table/block.rs:59-66 | Variable-length integers decode to what was encoded, whatever follows |
| `Codec.VarintBytes` | src/kernel/lsm/table/ss_table/block.rs:59-66 | Seven bits a byte, lowest first, the high bit set on all but the last byte, no byte wasted |
| `Codec.ValueRoundTrip` | src/kernel/lsm/table/ss_table/block.rs:140-164 | A value decodes to itself, except that the empty value decodes to a tombstone |
| `Codec.IndexRoundTrip` | src/kernel/lsm/table/ss_table/block.rs:167-184 | Index entries round-trip |
| `Codec.EntriesRoundTrip` | src/kernel/lsm/table/ss_table/block.rs:59-94 | A written list of entries decodes to the list |
| `SsTable.BlockBuilder.Add` | src/kernel/lsm/table/ss_table/block.rs:357-364 | The row is added behind all earlier rows; the buffer becomes a block exactly if its bytes reach the block size |
| `SsTable.BlockBuilder.Flush` | src/kernel/lsm/table/ss_table/block.rs:373-381 | The buffer becomes a block, nothing is lost and no block is empty |
| `SsTable.Build` | src/kernel/lsm/table/ss_table/block.rs:383-407 | The loop writes the blocks one after the other and an index entry with last key, offset and length for each |
| `SsTable.IndexTiles` | src/kernel/lsm/table/ss_table/block.rs:383-407 | Index offsets and lengths tile the data bytes: first at zero, each behind the one before, the last ending with the data |
| `SsTable.DataReadsBack` | src/kernel/lsm/table/ss_table/mod.rs:139-147 | Every data block reads back through its index entry |
| `SsTable.IndexReadsBack` | src/kernel/lsm/table/ss_table/mod.rs:149-170 | The index block reads back |
| `SsTable.IndexPicks` | src/kernel/lsm/table/ss_table/block.rs:496-502 | The block the index picks for a key is the only one that can hold it |
| `SsTable.TableQueryIsFind` | src/kernel/lsm/table/ss_table/mod.rs:190-209 | For every key the query returns the row's value, an empty one as a tombstone, and nothing for absent keys |
| `SsTable.EmptyValuesAreLost` | src/kernel/lsm/table/ss_table/block.rs:140-164 | A lookup in a written table is the lookup in its rows exactly where the value is not the empty string |
| `SsTable.EmptyValueTable` | src/kernel/lsm/table/ss_table/block.rs:140-164 | A table of one row with an empty value answers that its key was removed |
| `TableBuild.FeedRows` | src/kernel/lsm/table/ss_table/mod.rs:64-68 | Every row is in exactly one block, in order, and every key passes the filter |
| `TableBuild.NewTable` | src/kernel/lsm/table/ss_table/mod.rs:44-101 | If its lengths fit 32 bits, the built file together with its filter answers every lookup like the input rows |
| `TableBuild.ReloadedAnswers` | src/kernel/lsm/table/ss_table/mod.rs:106-137 | A filter loaded with further bytes behind it does not change any lookup |
| `BlockCursor.PrefixCompletes` | src/kernel/lsm/table/ss_table/block.rs:451-459 | The cached prefix is never cut from too short a key and completes every suffix |
| `BlockCursor.BlockIter.Item` | src/kernel/lsm/table/ss_table/block_iter.rs:32-42 | The current pair, rebuilt from the cached prefix |
| `BlockCursor.BlockIter.OffsetMove` | src/kernel/lsm/table/ss_table/block_iter.rs:44-61 | Underflows exactly at an interval of 1 on a move from offset 0 to an entry; otherwise no stale prefix is ever read |
| `BlockCursor.BlockIter.TryNext` | src/kernel/lsm/table/ss_table/block_iter.rs:81-85 | Yields the original pairs one by one and then nothing; fails exactly at an interval of 1 from offset 0 |
| `BlockCursor.BlockIter.TryPrev` | src/kernel/lsm/table/ss_table/block_iter.rs:68-72 | Yields the pair before the current one, at every interval |
| `BlockCursor.BlockIter.Seek` | src/kernel/lsm/table/ss_table/block_iter.rs:96-108 | Stops before the first key not below the probe; a probe above every key leaves the cursor where it was; fails exactly at an interval of 1 if it has to leave offset 0 |
| `BlockCursor.FirstNext` | src/kernel/lsm/table/ss_table/block_iter.rs:54-54 | The first move on any block fails exactly at an interval of 1 |
| `BlockCursor.NextThenPrev` | src/kernel/lsm/table/ss_table/block_iter.rs:68-85 | Prev undoes next exactly unless the cursor had already run off the end |
| `BlockCursor.Collect` | src/kernel/lsm/table/ss_table/block_iter.rs:64-90 | A full pass, whatever was cached before, rebuilds the original pairs at every interval but 1 |
| `TableCursor.DataIterInit` | src/kernel/lsm/table/ss_table/iter.rs:29-45 | The block an index entry points to is a cursor over the rows of its chunk |
| `TableCursor.OpenTable` | src/kernel/lsm/table/ss_table/iter.rs:17-27 | A new cursor still has all rows to yield; opening fails exactly at an index interval of 1 |
| `TableCursor.SsTableIter.TryNext` | src/kernel/lsm/table/ss_table/iter.rs:78-94 | Yields the remaining rows one by one across blocks; fails exactly at a data interval of 1 with rows left |
| `TableCursor.SsTableIter.Seek` | src/kernel/lsm/table/ss_table/iter.rs:102-113 | A backward seek leaves a tail of the table that has every key from the probe on; first leaves all rows, last none; fails exactly at a data interval of 1 if the tail would begin inside a block |
| `LevelCursor.OpenLevel` | src/kernel/lsm/iterator/level_iter.rs:21-33 | A new cursor still has the rows of all tables of the level; there is none exactly for an empty level or a first file with an index interval of 1 |
| `LevelCursor.LevelIter.ChildIterSeek` | src/kernel/lsm/iterator/level_iter.rs:35-45 | A new cursor on the named table, positioned by the seek; past the last table the old one stays; fails exactly if that table's cursor does |
| `LevelCursor.LevelIter.TryNext` | src/kernel/lsm/iterator/level_iter.rs:60-68 | Yields the rows of the level one by one across tables; fails exactly if the next row's file has an interval of 1 |
| `LevelCursor.LevelIter.SeekWard` | src/kernel/lsm/iterator/level_iter.rs:47-54 | Unsupported on level 0; below it leaves a tail of the level that has every key from the probe on, on the table binary search picks |
| `LevelCursor.LevelIter.Seek` | src/kernel/lsm/iterator/level_iter.rs:78-84 | First leaves all rows, last none, backward what seek_ward leaves; fails exactly if the picked table's cursor does |
| `DiskCursors.SeekDisk` | src/kernel/lsm/version/iter.rs:24-39 | Cursors over the files of level 0, newest first, and of the levels below except the last, each left on a tail that has every key from the probe on; read to the end they fail exactly if one meets a file with an interval of 1 |
| `DiskCursors.IterateFiles` | src/kernel/lsm/mvcc.rs:138-185 | Range iteration from the bytes of the files up: strictly ascending, none outside the bounds, exactly what the visited layers hold; with a bounded minimum and an empty last level, for every key between the bounds what a point read resolves |
| `Lru.NewCache` | src/kernel/utils/lru_cache.rs:188-200 | An error exactly for a capacity below 1, otherwise an empty cache |
| `Lru.LruCache.Detach` | src/kernel/utils/lru_cache.rs:203-225 | The list stays a doubly linked list and loses exactly the node |
| `Lru.LruCache.Attach` | src/kernel/utils/lru_cache.rs:228-247 | The list stays a doubly linked list with the node in front |
| `Lru.LruCache.Expulsion` | src/kernel/utils/lru_cache.rs:250-257 | At capacity exactly the least recent entry leaves list and map |
| `Lru.LruCache.Put` | src/kernel/utils/lru_cache.rs:260-273 | List and map change as the recency-ordered list does, and the replaced value is returned |
| `Lru.LruCache.Get` | src/kernel/utils/lru_cache.rs:288-297 | Returns what the recency-ordered list holds and leaves the entry at its front |
| `Lru.LruCache.Remove` | src/kernel/utils/lru_cache.rs:300-308 | Removes and returns exactly the entry of the key |
| `Lru.LruCache.GetOrInsert` | src/kernel/utils/lru_cache.rs:310-331 | A hit is promoted, a miss is loaded and stored, both to the front, and a failing load changes nothing |
| `Lru.Perform` | src/kernel/utils/lru_cache.rs:186-340 | Under every sequence of operations the cache is the recency-ordered list and every operation returns what it returns on that list |
| `Lru.StepOwn` | src/kernel/utils/lru_cache.rs:260-331 | What each operation leaves under its own key: put its value, get and a hit the old one, remove nothing, a miss what was loaded |
| `Lru.StepOthers` | src/kernel/utils/lru_cache.rs:250-273 | No operation changes another key, except that storing a new key in a full cache drops the last entry |
| `Lru.RunKeeps` | src/kernel/utils/lru_cache.rs:250-273 | Under every sequence keys stay unique and the size within the capacity |
| `Lru.KeptWhileRecent` | src/kernel/utils/lru_cache.rs:250-257 | An entry survives every run that touches fewer than the capacity of other keys |
| `Lru.KeptAfterUse` | src/kernel/utils/lru_cache.rs:260-331 | After a key is stored or read, every run that touches fewer than the capacity of other keys, and not this one, keeps it with its value |
| `Log.LogWriter.constructor` | src/kernel/lsm/log.rs:131-135 | A resumed writer stands at the length modulo the block size |
| `Log.LogWriter.EmitRecord` | src/kernel/lsm/log.rs:179-192 | Header and data are appended and the block offset advances by both |
| `Log.LogWriter.AddRecord` | src/kernel/lsm/log.rs:141-177 | The loop writes exactly the record's fragments, padding where no header fits |
| `Log.BlocksAreFilled` | src/kernel/lsm/log.rs:141-177 | A fragment that does not end its record ends its block; padding is zeros, shorter than a header, to the end of the block |
| `Log.LogReader.ReadRecord` | src/kernel/lsm/log.rs:219-266 | One read is one step of the reading function on any bytes at all, faulty ones included |
| `Log.ReadBack` | src/kernel/lsm/log.rs:141-266 | Reading a written record gives it back, from any block offset, and leaves reader and writer at the same offset |
| `Log.ReadAltered` | src/kernel/lsm/log.rs:256-258 | Reading a record whose data was altered on disk reports the checksum exactly if some fragment's checksum tells; otherwise it gives the altered data |
| `Log.ReadTorn` | src/kernel/lsm/log.rs:225-262 | Reading a record of which only a first part was written: cut between fragments it comes back short as if complete, cut in a header the reader spins, cut in data it fails |
| `Log.LogRoundTrip` | src/kernel/lsm/log.rs:62-80 | For every block size above the header size, reading a written log gives exactly its non-empty records, in order, and then nothing |
| `Log.NonEmptyIsIdentity` | src/kernel/lsm/log.rs:145-145 | That is the identity exactly when no record is empty |
| `Log.ReadEnd` | src/kernel/lsm/log.rs:235-238 | At the end of the log every further read gives nothing |
| `Log.Resume` | src/kernel/lsm/log.rs:131-135 | A writer resumed at the written length continues as if never stopped, also on an exactly full block |
| `Bloom.BitAfterSet` | src/kernel/utils/bloom_filter.rs:123-136 | Setting a bit sets that bit and no other |
| `Bloom.BitVector.SetBit` | src/kernel/utils/bloom_filter.rs:123-132 | The shifted one is or-ed into the bit's group |
| `Bloom.BitVector.GetBit` | src/kernel/utils/bloom_filter.rs:134-136 | Shifting and masking reads exactly the bit |
| `Bloom.PositionIsWalk` | src/kernel/utils/bloom_filter.rs:55-57 | The positions of a key are the first hash value advanced by the second, in 64 bits, modulo the number of bits |
| `Bloom.BloomFilter.Insert` | src/kernel/utils/bloom_filter.rs:32-42 | Marks exactly the positions of the key |
| `Bloom.BloomFilter.Check` | src/kernel/utils/bloom_filter.rs:44-53 | True exactly if all positions of the key are marked |
| `Bloom.NoFalseNegatives` | src/kernel/utils/bloom_filter.rs:32-57 | Keys whose positions make up the marked set all test positive |
| `Bloom.InsertAll` | src/kernel/utils/bloom_filter.rs:32-57 | After any sequence of inserts a key tests positive exactly if the inserted keys cover its positions, so every inserted key does |
| `Bloom.BloomFilter.ToRaw` | src/kernel/utils/bloom_filter.rs:83-90 | The written bytes are the header and one byte per group |
| `Bloom.RawRoundTrip` | src/kernel/utils/bloom_filter.rs:92-106 | A filter read back, with any bytes behind it, answers every test like the one written |
| `Fixed.RoundTrip` | src/kernel/utils/bloom_filter.rs:83-106 | A fixed-width integer decodes to its value modulo the width |
| `Fixed.ByteIsDigit` | src/kernel/utils/bloom_filter.rs:83-106 | Fixed-width integers are little endian |

## Left out

- Files, paths, lock file, timestamps, channels' threads and the gRPC server, client and command line: files are byte sequences, channels are queues, gens and sequences are counters given as parameters.
- Checksums, LZ4 and hash functions: parameters, LZ4 with the law that decompression undoes compression; the checksum comparison when a block is read is not modelled.
- bincode encoding of edits and of log records' contents.
- Reopening a log without restoring the block offset, as the memtable and the version log do; resuming is modelled with `new_with_off`.
- Snapshots of the version log through `to_vec_edit`, which re-sort levels by gen and drop counters when level 0 is empty.
- Two concurrent `log_and_apply` calls: the clone is taken before the write lock, but only the compactor calls it.
- Spinning of `swap` while transactions live: modelled as the result `Blocked`.
- A panic of an ordered map's `range` on inverted bounds: modelled as an empty range.
- Thresholds and triggers of compaction, seek-miss counters, display code, and in-memory level tables.
- `SSTableIter::try_prev` and the position it leaves, which nothing outside tests uses; `MemMapIter`, likewise.
- `ShardingLruCache`: shard selection by hash and the division of the capacity add nothing to the single cache; freeing of detached nodes.
- Filter sizing and false-positive rates.
- 64-bit limits of counters, offsets and lengths, except where the format truncates to 32 bits or the hash arithmetic wraps.
- Search: models the standard library's binary search by its halving of the interval; on strictly ascending lists the result does not depend on the probing order, but `RoundSearchIff` is about unsorted levels and about this order.
- Merging.MergingIter.Seek: takes the moved inputs as given; that the cursors move as required is `SsTableIter.Seek` and `LevelIter.Seek`.
- Transaction.Iterate: takes the rows the disk cursors have left after their seek as a parameter; `DiskCursors.IterateFiles` supplies them. A merge reads its children as lists, where the source pulls rows on demand.
- SsTable.TableQueryIsFind: requires every key, value, offset and length of the file to fit 32 bits, which the format assumes.
- Log.LogRoundTrip: requires every fragment to be shorter than 2^32 bytes, the width of its length field.
- DiskCursors.SeekDisk: reads every cursor to its end after the seek, so its fault condition counts files that a bounded iteration may never reach.
- DiskCursors.IterateFiles: reads every disk cursor to its end, where the source stops at the maximum, so a file with a restart interval of 1 behind the maximum is a fault here and is not reached there.

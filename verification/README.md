# Verified model of Benji's core

Benji is a block-based, deduplicating backup engine. A version of a volume is a table of block
rows; a row names the object that holds the block's data, or stands for zeros. This project models
the algorithms on which the integrity of backups rests, as Dafny classes, methods and functions,
and proves what they are for.

* `Arithmetic`, `Images`: block arithmetic, and images as the concatenation of their blocks.
* `Tables`, `VersionTable`: the sparse row table of a version and the dense block array it stands for;
  the windowed iteration, `create_blocks`, `set_block`, and the database object.
* `Clone`, `Hints`, `Plan`, `Backup`: differential backup. `Plan` says block by block what a backup
  makes of a base, a source and hints; `Backup` is the operation, with reads and writes completing
  in any order.
* `Restore`, `RestoreMarks`: the target of a restore; the restore itself, with what it leaves on the
  target and in the tables whatever its reads bring; the round trip through a backup.
* `Nbd`, `NbdSessions`: the copy-on-write store behind the NBD server, as a refinement of byte arrays.
* `Collector`, `Leaks`: backups, removals and clean-ups of any number of processes as interleaved
  steps, and the objects that such runs lose.
* `Cleanup`: `Version.remove` and the clean-up loop over candidate rows.
* `Validity`, `Scrub`, `Operations`: validity flags, version status, scrub, deep scrub and the shared
  history, and runs of whole operations.
* `Unfinished`: versions that become valid although nothing has finished them.
* `Usage`, `RowSizes`, `BlockSizes`: the storage usage report, the agreement of rows on sizes that it
  rests on, and the versions whose blocks do not make up their size.
* `RbdAio`, `RbdAioWrites`: the asynchronous queues of the RBD module, with callbacks that read a
  shared variable late.
* `JobExecutor`: the executor and its bounded semaphore in both modes.
* `Calendar`, `Retention`, `RetentionRuns`: the retention filter, in one run and over schedules of runs.
* `KeyWrap`: AES key wrap as defined in RFC 3394.
* `Transforms`, `Digest`, `Metadata`, `BlockStorage`: transform stack, object metadata with digest,
  block objects and the read cache.
* `TokenBucket`: bandwidth limiting.

`dafny verify dfyconfig.toml` checks everything.

Database methods are transactions. Objects of all storages form one map from storage and uid to
bytes. Clocks, randomness, the network, the order in which asynchronous jobs complete and what
foreign code answers are parameters or nondeterministic choices. The block hash is a function that
has no collisions among the byte strings a backup compares. Time zones have a fixed offset.

## Where the code and its intent part ways

* `create_blocks` drops a row that `update_version` prepared for a reread when the block is
  full-sized and has no uid (`src/benji/database.py:577-580`, `src/benji/benji.py:166-171`). A base's
  short last block that grows to a full block is therefore lost unless the hints touch it.
  `Plan.FaithfulUnlessTailLost` gives the exact condition, `Plan.GrownTailCounterexample` a case.
* With hints, a backup can keep a full last block of a base whose image ends inside that block, as
  fixating an NBD session can leave it, and take over what the block holds beyond that end.
  `Plan.FaithfulUnlessTailLost` gives the exact condition, `Plan.OverhangCounterexample` a case.
* A short last block without uid is restored as a full block of zeros (`src/benji/benji.py:670`), which
  overwrites or extends the target past the version's size; so does a full last block that the image
  ends in. `RestoreMarks.Restore` states exactly what it leaves there.
  A backup that succeeds never leaves such a block, provided its base has none; one that gives up does,
  and a restore does not ask for the status: `Restore.PreparedHasBareTail`, `Restore.BareTailOverwrites`.
* The NBD store copies a short block without uid as a full block (`src/benji/benji.py:1562`), so that
  the fixated version is not well-sized. `Nbd.FixedContent` states this as an equivalence,
  `Unfinished.ValidBareTail` gives a base that is valid and has such a block. Over any run of operations
  this is the only way to a version whose blocks do not have their sizes: `BlockSizes.RunWellSizedIff`.
* For such a version the usage report takes more for stored than the version's size
  (`src/benji/database.py:820-822`): what it reports as sparse is too small, and can be negative.
  `Usage.StorageUsage` and `RowSizes.Report` say exactly when, `BlockSizes.NegativeReport` gives a case.
* A clone of such a version loses its last block (`src/benji/benji.py:162-171`). An NBD session on it still
  reads that block from the base, but copies and keeps zeros. `Nbd.ReadsWhatItKeepsIff` says exactly when
  the image that a session reads is the one that it keeps.
* When the row of a copied block cannot be set, fixating an NBD session removes the object again, keeps
  the base's block, and makes the version valid all the same (`src/benji/benji.py:1606-1618`); the copy is
  gone by then. `Nbd.BenjiStore.Fixate` says when the version still holds the session's image,
  `Nbd.LostCopyCase` gives a session that does not.
* A version that a backup has not finished can become valid: a uid that is found invalid makes unfinished
  versions invalid too (`src/benji/database.py:662-665`), and a deep scrub takes invalid versions
  (`src/benji/database.py:105-106`) and approves them. `Unfinished.RunFinishesIff` gives the exact
  condition, `Unfinished.UnfinishedApproved` a case.
* A deep scrub skips a uid that its history has seen even if the uid has been marked invalid since,
  and then gives the version the status valid. `Scrub.DeepScrub` states the exact condition,
  `Scrub.StaleHistoryBreaks` a case. After a source mismatch the log says that the version was
  marked invalid, but its status is left alone (`src/benji/benji.py:536-545,581`).
* `get_unused_block_uids` applies the age limit only without a storage id, takes a storage id of zero
  for none, and drops the candidate rows of a uid in all storages (`src/benji/database.py:986-993,1018-1026`).
* A restore that gets a `KeyError` or `ValueError` from the storage marks the block that its loop
  variable still holds (`src/benji/benji.py:755-756`): that of the last read that delivered data, or
  the last block of the version, left over from the loop at line 696. `RestoreMarks` says exactly
  which block that is, when it is the right one, and when nothing is marked at all.
* Fixating an NBD session makes its version valid even if a block that it did not copy was marked
  invalid meanwhile (`src/benji/benji.py:1618`). `Operations.FixateStep` gives the condition,
  `Operations.InvalidBlockFixated` a case.
* A backup that gives up unlocks its version while writes are in flight (`src/benji/benji.py:1078-1081`);
  the objects of these, and those written without row, stay for good:
  `Leaks.AbortLeaksStored`, `Leaks.AbortLeaksQueued`.
* An iteration over completed jobs covers the jobs there were when it started. Jobs submitted
  meanwhile can take all permits with results that it does not yield. `JobExecutor.CanGetStuckIff` says
  exactly when an iteration can get stuck, `JobExecutor.StuckIff` which states are stuck,
  `JobExecutor.LateSubmitsDeadlock` gives a run for every number of workers.
* Nothing separates keys and values in the text that the digest of metadata is made of, so that
  different dictionaries have the same digest: `Metadata.MovedCharacterVerifies`.
* A clean-up that runs while a cloned row is not decided yet can drop the only candidate of an
  object that then stays for good. `Leaks.LeaksExactly` gives the exact condition,
  `Leaks.InterleavedCleanupLeaks` a case.
* Unwrapping a key ignores one to seven trailing bytes: `KeyWrap.TrailingBytesAccepted`.
* With weeks and months in one retention policy the oldest version of a month can be dismissed:
  `RetentionRuns.MixedRulesDismissOldest`.
* `create_version` calls `Version.create` with arguments that it does not take, and the retention filter
  reads a date that the table no longer has. Row creation and dates are modelled by what they are for.

## Model

| member | source | states |
|---|---|---|
| `Images.BlocksCountIsCeiling` | src/benji/database.py:713-715 | the number of blocks, defined by counting, is the size divided by the block size, rounded up |
| `Images.JoinIs` | src/benji/benji.py:757-766 | an image is the join of its blocks exactly when each block is that slice of the image, short last block included |
| `Tables.WithBlockIsPointUpdate` | src/benji/database.py:591-615 | `set_block` on the sparse table is a point update of the dense block array, with full blocks without uid turning sparse |
| `Tables.SizesSumToVersionSize` | src/benji/database.py:574-589 | the sizes of a version's blocks, stored and synthesised, add up to the version's size |
| `Tables.ContentIs` | src/benji/benji.py:692-696 | a version holds an image exactly when every block, sparse or stored, holds its slice of the image |
| `VersionTable.Blocks` | src/benji/database.py:684-711 | for every window size the iteration yields each index once, in order, with the block a lookup by index gives |
| `VersionTable.SparseBlocksCount` | src/benji/database.py:717-725 | the count is the number of dense blocks without uid |
| `VersionTable.Database.CreateBlocks` | src/benji/database.py:574-589 | a batch inserts exactly its rows that have a uid or are short, and nothing else changes |
| `VersionTable.Database.SetBlock` | src/benji/database.py:591-615 | the four branches together set, replace or delete one row; all other rows and versions stay |
| `Clone.PreparedBlock` | src/benji/benji.py:140-188 | the dense block of a prepared version is the base's, unless its size changes; a full block prepared for a reread comes out sparse and valid |
| `Clone.PreparedWellSized` | src/benji/benji.py:162-171 | for any base and any new size, every block of a prepared version has the size its index demands |
| `Clone.UpdateVersion` | src/benji/benji.py:88-196 | success exactly with acceptable sizes and base, sizes defaulting to those of the base; then the version is the prepared one for every work package size, otherwise the tables are untouched; which error is which |
| `Hints.BlocksFromHints` | src/benji/benji.py:848-869 | a block is to be read exactly if a hint with data touches it or it is a partly covered end of a discarding hint; it is sparse exactly if a discarding hint touches it |
| `Hints.UntouchedBlock` | src/benji/benji.py:848-869 | no byte of a block in neither set lies in any hint |
| `Hints.DiscardedBlock` | src/benji/benji.py:856-867 | every byte of a block that is only in the sparse set lies in a discarding hint |
| `Plan.FaithfulUnlessTailLost` | src/benji/benji.py:138-188 | with truthful hints and a base that has its data, well-sized or with a full last block beyond its end, what is read, discarded and kept reproduces the source if and only if no short last block of the base with data grows to a full block untouched by all hints, and no kept block brings in other bytes than zeros from beyond the end of the base |
| `Plan.FaithfulWithoutHints` | src/benji/benji.py:919-921 | without hints the source is reproduced unconditionally |
| `Plan.GrownTailCounterexample` | src/benji/database.py:577-580 | a concrete base, source and truthful hints for which the backup differs from the source |
| `Plan.OverhangCounterexample` | src/benji/benji.py:162-171 | a concrete base that holds a byte beyond its end, which comes into the backup although all hints are truthful |
| `Plan.WellSizedFills` | src/benji/benji.py:162-171 | the second case needs a base that is not well-sized |
| `Backup.GetBlockByChecksum` | src/benji/database.py:742-744 | a valid row of the same storage with the checksum is found if and only if there is one |
| `Backup.CheckSample` | src/benji/benji.py:923-963 | for every order of reads the check passes exactly if every sampled block outside the hints, with uid and valid, can be read and has the checksum that the base recorded; which of mismatch and failed read it reports is justified |
| `Backup.PromisesPassCheck` | src/benji/benji.py:923-963 | a source that keeps what the hints promise passes the check, whatever the sample, unless a kept block brings in bytes from beyond the end of the base |
| `Backup.PrepareBackup` | src/benji/benji.py:899-963 | success exactly for a usable base, fitting hints and a sample that can be read and agrees; otherwise the tables are unchanged, the version is prepared, or it is removed with its uids recorded as candidates |
| `Backup.QueueReads` | src/benji/benji.py:971-997 | after queueing, the blocks left to read are exactly those the hints or their flags demand, and every other block is settled as planned |
| `Backup.HandleRead` | src/benji/benji.py:1026-1064 | whichever of sparse, known and new applies, the block just read is settled or its write is queued, and rows get only minted or known uids |
| `Backup.CompleteWrite` | src/benji/benji.py:1007-1024 | an object is stored before the row that references it, and the block is settled |
| `Backup.GiveUp` | src/benji/benji.py:1078-1084 | after a failed read or write, any writes in flight may still be stored; each block has the row that was prepared or its final one |
| `Backup.Drain` | src/benji/benji.py:1026-1082 | for every order of read and write completions all blocks end up settled, unless a read or write fails; then it ends with each block settled or as prepared |
| `Backup.Backup` | src/benji/benji.py:871-1115 | success needs a usable base, fitting hints, a readable and agreeing sample and no failing read, and these suffice if no write fails either; then, whatever valid base there was, the version's content equals the source without hints; with truthful hints and a base that has its data it does if and only if no grown tail is lost and nothing from beyond the base's end is kept; all blocks are valid, well-sized, stored, and every row with a uid is newly minted or a copy of a valid row of the storage; no object is overwritten; a backup that gives up leaves the version incomplete, well-sized, each row as prepared or final; on other failures objects are as before and the tables exactly as the failed stage left them |
| `Restore.TargetBlock` | src/benji/benji.py:757-766 | once writes of at most a block each are done in any order, a block that was written holds its data, and one that was not is as before |
| `Restore.PreparedHasBareTail` | src/benji/benji.py:646-670 | a version that was prepared without a base can be restored, and has a short last block without uid exactly if blocks do not make up its size |
| `Restore.SizedTail` | src/benji/benji.py:696-706 | of a well-sized version only a short last block without uid writes past the version's size: zeros, to the end of its block, and only if the restore is not sparse |
| `Restore.BareTailOverwrites` | src/benji/benji.py:670-706 | restoring such a version sets the byte past its end to zero |
| `RestoreMarks.CompleteReads` | src/benji/benji.py:750-784 | for every order of the reads and whatever each brings: the tables after the marks of each read, the target with what was read, written whether it fits or not, an interruption at the first other exception, and consistency throughout |
| `RestoreMarks.Restore` | src/benji/benji.py:646-801 | for every order of completions the target holds what was read, zeros for blocks without uid unless sparse, and is as before elsewhere; if all data is delivered it holds the version's content up to the version's size, on any target or, if sparse, on a zeroed one; past that, exactly what the last block's write has there and what was there before; and if checksums fit the tables are as before |
| `RestoreMarks.FailedReadKeepsTarget` | src/benji/benji.py:750-769 | a block whose read failed is on the target as it was before, one whose read delivered data holds that data |
| `RestoreMarks.BackupAndRestore` | src/benji/benji.py:646-1115 | backing up a source and restoring it reproduces the source without hints, and with truthful hints under exactly the condition of the backup, for every base, size, block size and order; it marks nothing, and leaves the rest of the target alone unless the base had a short block without uid that the version still has, which writes zeros to the end of that block |
| `RestoreMarks.HeldIs` | src/benji/benji.py:696-706 | the block that the loop's variable holds is the last of the version, or one whose read has delivered data |
| `RestoreMarks.FailureMarksItself` | src/benji/benji.py:750-757 | a failed read invalidates the block its variable holds; among blocks of different uids that is its own exactly if it is the last block of the version and no read has delivered data |
| `RestoreMarks.FailureInvalidates` | src/benji/benji.py:750-757 | a failed read makes the restored version invalid if and only if the held block has a uid or some short block of the version has none |
| `RestoreMarks.WrongBlockMarked` | src/benji/benji.py:755-757 | a concrete restore whose second read fails marks the first block and leaves the second valid |
| `RestoreMarks.FailureUnnoticed` | src/benji/benji.py:755-757 | a concrete restore whose only read fails marks nothing, and the version stays valid |
| `Nbd.BlockList` | src/benji/benji.py:1445-1473 | the chunks of a range inside the image lie in blocks, follow each other without gap and cover exactly the range |
| `Nbd.ViewWrite` | src/benji/benji.py:1561-1571 | a patched copy of one block in the store is a write to that part of the session's image |
| `Nbd.BenjiStore.Read` | src/benji/benji.py:1475-1525 | a read returns that slice of the byte array that version and copies stand for, from copies, cache, storage or zeros alike, for a well-sized version or one with a full last block beyond its end |
| `Nbd.BenjiStore.Write` | src/benji/benji.py:1538-1578 | a write of any length changes the session's byte array exactly there; all other sessions keep their rows, files and presence; tables and objects stay |
| `Nbd.BenjiStore.CreateCowVersion` | src/benji/benji.py:1527-1536 | a session can be opened exactly on a valid base of the same storage; its version then has each block of the base that has its proper size, and zeros for any other, so that it starts with the base's image if that is well-sized; otherwise nothing changes |
| `Nbd.BenjiStore.Fixate` | src/benji/benji.py:1583-1621 | the fixated version is valid, and its rows are those of the copies whose row could be set and of the base; it holds the session's byte array if and only if no short block without uid was copied and all copies that are lost hold what the base holds; base, other versions and other sessions are unchanged |
| `Nbd.FixedContent` | src/benji/benji.py:1590-1611 | a version with all copies set is well-sized if and only if no short block without uid was copied, and its content is the session's image under exactly the same condition |
| `Nbd.ReadsWhatItKeepsIff` | src/benji/benji.py:1475-1578 | the image that a session reads, from its base and its copies, is the one that it keeps when it is fixated if and only if blocks that the clone has lost and that are not copied are zeros |
| `Nbd.LostCopyCase` | src/benji/benji.py:1606-1615 | a session that has overwritten its only block keeps the old one if the row cannot be set |
| `Nbd.LostCopies` | src/benji/benji.py:1606-1615 | losing some copies leaves the session's image as it is if and only if they hold what the base holds |
| `Nbd.OtherSession` | src/benji/benji.py:1415-1431 | another session keeps its copies, and so its image, when one session writes or is fixated |
| `NbdSessions.ServeAll` | src/benji/benji.py:1475-1578 | for any sequence of reads and writes of any number of sessions the replies are those of plain byte arrays, and each session stands for its array afterwards |
| `NbdSessions.OthersSurviveFixate` | src/benji/benji.py:1583-1621 | fixating one session leaves every other one with its image |
| `Collector.StepKeeps` | src/benji/benji.py:126-196 | every step of clone, clone under the lock of an NBD session, failed clone, backup, abort with writes in flight, late write, fixation with a write taken back, lock and unlock, removal and clean-up keeps the invariant on rows, objects, locks, buffers, open blocks, orphaned writes and hits |
| `Collector.RunKeeps` | src/benji/benji.py:1046-1061 | every interleaving of steps of any number of processes keeps the invariant |
| `Collector.NoDanglingReference` | src/benji/database.py:978-1030 | in every run from an empty database, every uid in a row has its object in the storage of the row's version |
| `Collector.DeadForever` | src/benji/database.py:1004-1015 | a uid that no row references and that no writer still has to set is never referenced again, in any run |
| `Collector.HitsAreDead` | src/benji/database.py:1013-1015 | whatever a clean-up has found unreferenced is dead until it is deleted |
| `Collector.ReferencedObjectKept` | src/benji/benji.py:1151-1165 | no step deletes or rewrites an object that a row references |
| `Leaks.StepTracks` | src/benji/database.py:537-557 | after every step, an object is known to a row, candidate, clean-up or backup if and only if it was or has just been stored, and the step did not overwrite its last row, give up its block, or store it unattended |
| `Leaks.LeaksExactly` | src/benji/database.py:978-1036 | after every run, the objects that nothing knows of are exactly those of which some step dropped the last trace |
| `Leaks.UntrackedForever` | src/benji/database.py:1004-1015 | an object that nothing knows of stays, and stays unknown, in every run |
| `Leaks.AbortLeaksStored` | src/benji/benji.py:1078-1084 | a backup that gives up leaves behind every object it has written without row |
| `Leaks.AbortLeaksQueued` | src/benji/benji.py:1078-1084 | and every object whose write is still in flight, once it gets there |
| `Leaks.InTurnNeverLeaks` | src/benji/benji.py:1145-1170 | if candidates are checked only while nothing is cloned or backed up, and no backup gives up, nothing is ever lost, and at rest every object is referenced, a candidate, or a hit |
| `Leaks.InterleavedCleanupLeaks` | src/benji/database.py:1011-1021 | a concrete run with all operations over, after which an object is left that nothing knows of |
| `Cleanup.Remove` | src/benji/database.py:537-557 | the version and its rows go; for each uid as many candidates appear as rows referenced it, and none else |
| `Cleanup.Query` | src/benji/database.py:986-995 | a batch holds matching candidates only, all of them for a storage or up to 250 old enough, and is empty only if none matches |
| `Cleanup.Cleanup` | src/benji/database.py:978-1036 | the loop ends; candidate rows of exactly the selected uids are deleted; exactly the selected uids that no row references are yielded, each in one round; yielded objects and no others are deleted |
| `Validity.MarkKeeps` | src/benji/database.py:646-676 | marking a uid valid or invalid keeps rows of a uid in agreement and keeps invalid rows out of valid versions |
| `Validity.AgreeIsPairwise` | src/benji/database.py:655 | the flags follow from a set of bad uids if and only if any two rows that share a uid share its flag |
| `Validity.ApproveKeeps` | src/benji/benji.py:569-575 | giving a version the status valid keeps rows in agreement, and keeps consistent tables consistent if and only if none of its uids is marked invalid |
| `Validity.RunKeeps` | src/benji/benji.py:341-593 | over every sequence of row-level events, where approval needs valid rows, rows of a uid agree and valid versions hold no invalid uid; whole operations are the subject of `Operations` |
| `Validity.BackUpConsistently` | src/benji/benji.py:871-1115 | the modelled backup operation keeps the tables consistent, whether it succeeds, fails or gives up after a failed read or write |
| `Validity.MarkBareKeeps` | src/benji/database.py:646-676 | marking rows without uid keeps the tables consistent |
| `Scrub.SetBlockValid` | src/benji/database.py:646-676 | all rows of the uid are marked, versions that use it become invalid if it is, and exactly those are reported |
| `Scrub.ScrubVersion` | src/benji/benji.py:384-458 | outcome by the verdicts alone; exactly the uids found invalid join the bad ones, exactly the versions that use them become invalid, the history gains exactly the uids that passed, rows of a uid stay in agreement and consistent tables stay consistent, for every order of reads |
| `Scrub.DeepScrub` | src/benji/benji.py:460-593 | outcome by the verdicts alone, for every order of reads; a uid not read keeps its flag, one that always passed is valid, one that never passed is invalid; versions using a condemned uid become invalid; only a full scrub approves; rows of a uid stay in agreement; consistent tables stay consistent if and only if the version is not approved with a skipped uid marked invalid; with steady verdicts the history never holds an invalid uid |
| `Scrub.BatchDeepScrub` | src/benji/benji.py:595-630 | deep scrubs of any versions in any order with one history keep rows in agreement and consistent tables consistent, if a uid gets one verdict throughout |
| `Scrub.StaleHistoryBreaks` | src/benji/blockuidhistory.py:22-29 | a uid marked invalid between two deep scrubs with one history leads to a valid version with an invalid block |
| `Operations.OperationKeepsIff` | src/benji/benji.py:341-832 | each operation, by the effect its method promises, backups that give up included, keeps the tables consistent if and only if it is no deep scrub that approves with a skipped uid marked invalid, and no fixation that keeps a block marked invalid |
| `Operations.RunConsistentIff` | src/benji/benji.py:341-832 | over every sequence of backups, scrubs, deep scrubs with one history, restores, removals, opened sessions and fixations, rows of a uid agree and valid versions hold no invalid uid all the time, if and only if no operation is of that kind |
| `Operations.RunKeepsPairwise` | src/benji/database.py:655 | over every such sequence rows of a uid agree on its validity, also where an operation has broken consistency |
| `Operations.FixateStep` | src/benji/benji.py:1613-1618 | fixating keeps the tables consistent if and only if every block that the session did not copy is valid |
| `Operations.InvalidBlockFixated` | src/benji/benji.py:1613-1618 | a concrete session on a clone whose block was found invalid makes the clone valid with that block |
| `Operations.Engine.StaysConsistentIff` | src/benji/benji.py:341-832 | on one database, after any operations performed by the methods below, the tables have been consistent all along if and only if none of these operations broke them |
| `Operations.Engine.BackUp` | src/benji/benji.py:871-1115 | the backup method, on any tables that operations have led to, whether it succeeds, fails or gives up, has the effect that runs are made of, and keeps consistent tables consistent |
| `Operations.Engine.ScrubOnce` | src/benji/benji.py:384-458 | so has the scrub method, with the history of the batch |
| `Operations.Engine.DeepScrubOnce` | src/benji/benji.py:460-593 | so has the deep scrub method, and it keeps the tables consistent exactly under the condition above |
| `Operations.Engine.Restore` | src/benji/benji.py:646-784 | so has the restore |
| `Operations.Engine.Remove` | src/benji/database.py:537-557 | so has the removal |
| `Operations.Engine.OpenSession` | src/benji/benji.py:1527-1536 | so has opening a session |
| `Operations.Engine.Fixate` | src/benji/benji.py:1583-1621 | so has the fixation, which keeps the tables consistent exactly under the condition above |
| `Unfinished.OperationFinishesIff` | src/benji/benji.py:460-593 | an operation leaves only finished versions valid if and only if it is no deep scrub that approves a version that neither a backup nor a fixation has finished |
| `Unfinished.RunFinishesIff` | src/benji/benji.py:341-1115 | over every sequence of operations versions are valid only once a backup or a fixation has finished them, if and only if no deep scrub approves one that nothing has finished |
| `Unfinished.ApprovedWasInvalid` | src/benji/database.py:105-106 | a version that is approved although unfinished has become invalid before |
| `Unfinished.MarksInvalidate` | src/benji/database.py:646-676 | only scrubs, deep scrubs and restores make an incomplete version invalid |
| `Unfinished.UnfinishedApproved` | src/benji/benji.py:569-575 | a concrete run in which a backup gives up, a scrub of its base finds a shared block invalid, and a deep scrub then makes the unfinished version valid |
| `Unfinished.ValidBareTail` | src/benji/benji.py:1554-1571 | that valid version can be restored or served, has a short last block without uid, and a write to that block copies it as a full one |
| `Usage.CountsDecide` | src/benji/database.py:797-817 | the two share counts are equal if and only if the uid becomes unreferenced when exactly the selected versions are removed |
| `Usage.Regroup` | src/benji/database.py:804-820 | adding up sizes by group of uid and size is adding up the sizes of all referencing rows |
| `Usage.GroupDecides` | src/benji/database.py:797-817 | a group has as many selected rows as its uid has rows at all exactly if the removal frees the uid and all its rows have that size |
| `Usage.FreedByUid` | src/benji/database.py:797-817 | where rows of a uid agree on its size, the freed groups are the freed uids with their sizes |
| `Usage.StorageUsage` | src/benji/database.py:772-824 | for all tables: exclusive, shared and deduplicated-exclusive are the sums over freed and other groups, virtual is the sum of the parts; sparse is what the rows with a uid leave of the versions' sizes, which is the size of all blocks without uid if and only if the sizes of all blocks add up to those of the versions, and negative if and only if the blocks with uid alone are more; where last blocks are proper or full ones it is right exactly if all blocks of the selected versions have their proper sizes; where rows of a uid agree on its size, which they do after every run of operations, deduplicated-exclusive is the size of all objects unreferenced after removing the selection |
| `Usage.TruthfulSizes` | src/benji/database.py:804-810 | in tables whose valid rows describe their objects, sizes on which rows agree are those of the objects, for all uids of which some row is valid; rows that are all valid agree |
| `RowSizes.OperationKeepsSizes` | src/benji/benji.py:341-1115 | every operation keeps all rows of a uid, invalid ones included, in agreement on its size, also where it breaks the consistency of flags |
| `RowSizes.RunKeepsSizes` | src/benji/benji.py:341-1115 | over every sequence of operations, all rows of a uid always agree on its size |
| `RowSizes.RecordedIsObjectSize` | src/benji/database.py:804-810 | the size that the rows of a uid record is that of its object, if some row of the uid is valid |
| `RowSizes.Report` | src/benji/database.py:772-824 | after every run of operations, for any selection of versions, deduplicated-exclusive is the recorded size of all objects that become unreferenced when exactly these versions are removed, with no condition on flags or sizes; sparse is never more than the size of all blocks without uid, and equal to it if and only if none of the selected versions has been left, by a fixation with a copied bare tail, with a block of other than its proper size |
| `BlockSizes.OperationSizes` | src/benji/benji.py:341-1621 | after every operation, the versions with a block of other than its proper size are those from before, less the one that was removed, prepared or filled, plus the one that was fixated with a copied bare tail |
| `BlockSizes.RunSizes` | src/benji/benji.py:341-1621 | so the set of these versions follows from the sequence of operations; and all blocks stay proper or full ones |
| `BlockSizes.RunWellSizedIff` | src/benji/benji.py:1561-1611 | over every sequence of operations that starts with well-sized versions, all are well-sized all the time if and only if no session is fixated that has copied a short block without uid, and no version is created with another size than its blocks have |
| `BlockSizes.ValidVersionsFill` | src/benji/benji.py:88-102 | in all tables that operations lead to, as long as they are consistent, every valid version has its data and can be a base as the backup and session results ask for |
| `BlockSizes.SessionRuns` | src/benji/benji.py:1527-1621 | a run that continues the one of the unfinished version, in which a session on it copies the short last block and is fixated |
| `BlockSizes.NegativeReport` | src/benji/database.py:820-822 | for that version the report has -1 for blocks without uid, of which there are none, or 1 for one of size 2, if the copy is zeros |
| `RbdAio.CallbackKeeps` | src/benji/io/rbdaio.py:160-163 | a callback that reads its cell late still reports the block whose range was read |
| `RbdAio.SharedCellMispairs` | src/benji/io/rbdaio.py:155-166 | two requests issued by one call would both be reported for the second one's block |
| `RbdAio.Reads.Submit` | src/benji/io/rbdaio.py:154-166 | a call issues at most one request, and blocks wait afterwards only if the limit is outstanding; no block is lost |
| `RbdAio.Reads.Read` | src/benji/io/rbdaio.py:168-170 | exactly the queued block joins the pending ones |
| `RbdAio.Reads.GetCompleted` | src/benji/io/rbdaio.py:189-227 | it finishes exactly when nothing is pending and never waits in vain; whether a block is yielded follows from how its own read ended, and a yielded block carries all bytes of its own range |
| `RbdAio.Reads.Drain` | src/benji/io/rbdaio.py:192-227 | iteration ends with every pending block fetched exactly once, unless an I/O error ends it, each with the result of its own read |
| `RbdAioWrites.AcquireKeeps` | src/benji/io/rbdaio.py:233-247 | whenever fewer requests than the limit are outstanding the semaphore has a free permit, so that acquiring never blocks |
| `RbdAioWrites.ReleaseKeeps` | src/benji/io/rbdaio.py:239-242 | a callback's release never exceeds the semaphore's bound, and permits stay balanced |
| `RbdAioWrites.Writes.Submit` | src/benji/io/rbdaio.py:233-249 | as for reads, with the semaphore acquired without waiting |
| `RbdAioWrites.Writes.Write` | src/benji/io/rbdaio.py:251-254 | exactly the queued block and data join the pending ones |
| `RbdAioWrites.Writes.GetCompleted` | src/benji/io/rbdaio.py:270-295 | whether a block is yielded follows from how its own write ended, and the data of a yielded block has reached the image at its offset; waiting never is in vain |
| `RbdAioWrites.Writes.Drain` | src/benji/io/rbdaio.py:270-295 | every pending write is fetched exactly once, unless an I/O error ends the iteration |
| `JobExecutor.StepKeeps` | src/benji/jobexecutor.py:18-59 | in both modes every step keeps free permits plus holders equal to twice the workers plus one; no release overflows |
| `JobExecutor.RunKeeps` | src/benji/jobexecutor.py:18-59 | the invariant holds after every run |
| `JobExecutor.ResultsBounded` | src/benji/jobexecutor.py:14-17 | without blocking submit at most twice the workers plus one results are held |
| `JobExecutor.QueueBounded` | src/benji/jobexecutor.py:11-13 | with blocking submit at most twice the workers plus one jobs are queued |
| `JobExecutor.NoDeadlock` | src/benji/jobexecutor.py:48-59 | while some job is not yielded, a worker can go on or some job's result can be collected, cancelled jobs or not |
| `JobExecutor.IterationProgress` | src/benji/jobexecutor.py:48-59 | an iteration over the jobs there were when it started never gets stuck, if submitting blocks or nothing was submitted since |
| `JobExecutor.StuckIff` | src/benji/jobexecutor.py:40-53 | an iteration is stuck if and only if no permit is free, all are held by finished jobs that it does not yield, it waits for no cancelled job, and no worker is free for a queued one |
| `JobExecutor.StarvedForever` | src/benji/jobexecutor.py:40-53 | such an iteration has nothing to yield any more, whatever workers do and whatever else is submitted |
| `JobExecutor.CanGetStuckIff` | src/benji/jobexecutor.py:27-59 | for either mode and every number of workers, some run gets an iteration stuck if and only if submitting does not block and jobs are submitted while the iteration goes on; if jobs are started in the order of submission it also takes two workers |
| `JobExecutor.NextInLine` | src/benji/jobexecutor.py:40-44 | where a worker can go on, one can go on in the order of submission |
| `JobExecutor.LateSubmitsDeadlock` | src/benji/jobexecutor.py:40-53 | for every number of workers, a run in which jobs submitted during an iteration overtake one of its jobs and get it stuck |
| `JobExecutor.DrainEnds` | src/benji/jobexecutor.py:61-73 | without submissions runs are bounded, and one that cannot go on has yielded each job once and freed all permits, except those of cancelled jobs with blocking submit |
| `JobExecutor.BlockedSubmitIsServed` | src/benji/jobexecutor.py:29-38 | a submit that waits for a permit can count on a worker, as long as no job was cancelled |
| `JobExecutor.Executor.SubmitJob` | src/benji/jobexecutor.py:27-44 | the job is added, after waiting for a permit that comes |
| `JobExecutor.Executor.YieldNext` | src/benji/jobexecutor.py:48-59 | a step of an iteration yields a job of its snapshot that has ended, each once; it times out only under a time limit |
| `JobExecutor.Executor.GetCompleted` | src/benji/jobexecutor.py:48-59 | it ends with every job yielded exactly once |
| `JobExecutor.Executor.Shutdown` | src/benji/jobexecutor.py:61-75 | it ends with no job queued or running; all permits are free, except those of cancelled jobs with blocking submit |
| `Calendar.UnitMono` | src/benji/retentionfilter.py:180-200 | hour, day, week, month and year indices never decrease with time |
| `Calendar.RefinesUnits` | src/benji/retentionfilter.py:150-168 | hours lie within days, days within weeks and months, months within years |
| `Retention.RuleMonotone` | src/benji/retentionfilter.py:127-132 | the older a version, the later the rule it falls under |
| `Retention.SortSorts` | src/benji/retentionfilter.py:107-108 | sorting orders from youngest to oldest |
| `Retention.KeptMembers` | src/benji/retentionfilter.py:138-143 | of each bucket exactly the last version is kept, of the future all, of those too old none |
| `Retention.KeepsOldest` | src/benji/retentionfilter.py:138-143 | of each occupied bucket exactly one version is kept, and none of the bucket is older |
| `Retention.RerunKeepsAll` | src/benji/retentionfilter.py:93-145 | filtering the survivors again at the same reference time dismisses nothing |
| `Retention.Filter` | src/benji/retentionfilter.py:93-145 | dismissed versions and survivors make up the input; the latest are the youngest; what remains of each occupied bucket is its kept version |
| `RetentionRuns.NestedUnlessWeeks` | src/benji/retentionfilter.py:65-70 | the rules of a policy are nested if and only if weeks are not followed by a coarser category |
| `RetentionRuns.OldestSurvivesIff` | src/benji/retentionfilter.py:93-145 | under any rules a run keeps the oldest date of a coarsest unit if and only if it is among the latest, or not too old and not in a week bucket with an older version |
| `RetentionRuns.OldestSurvivesSchedule` | src/benji/retentionfilter.py:93-145 | under nested rules the oldest date of a coarsest unit survives every schedule of runs until its age exceeds the coarsest count |
| `RetentionRuns.MixedRulesDismissOldest` | src/benji/retentionfilter.py:127-143 | weeks and months in one policy dismiss the oldest version of a month that is not too old |
| `KeyWrap.WrapKey` | src/benji/aes_keywrap.py:48-58 | the index-based loops compute the shift-register definition of section 2.2.1 of RFC 3394, for every length and cipher |
| `KeyWrap.UnwrapKeyAndIv` | src/benji/aes_keywrap.py:22-34 | the loops counting down compute the definition of section 2.2.2; fewer than eight bytes are an error |
| `KeyWrap.UnwrapKey` | src/benji/aes_keywrap.py:37-45 | the result is the key, an integrity failure or an error, by the recovered initial value |
| `KeyWrap.UnwrapUndoesWrap` | src/benji/aes_keywrap.py:22-58 | unwrapping a wrapped key gives key and initial value back, for every key that is a multiple of eight bytes |
| `KeyWrap.WrapUndoesUnwrap` | src/benji/aes_keywrap.py:22-58 | wrapping what was unwrapped gives the input back, up to an incomplete half at its end |
| `KeyWrap.AcceptsWrappings` | src/benji/aes_keywrap.py:37-45 | an input is accepted as a key if and only if its whole halves are that key wrapped with the initial value |
| `KeyWrap.AcceptsExactlyOutputs` | src/benji/aes_keywrap.py:37-45 | an input is an output of wrapping if and only if it is accepted and a multiple of eight bytes long |
| `KeyWrap.TrailingBytesAccepted` | src/benji/aes_keywrap.py:23-26 | a wrapped key with one to seven further bytes is accepted although it is no output |
| `Transforms.Encapsulate` | src/benji/storage/base.py:441-456 | for any invertible transforms, any of which may decline or yield nothing, all others are applied in order and recorded, and undoing the record gives the data back |
| `Transforms.Decapsulate` | src/benji/storage/base.py:458-471 | the loop undoes the record from its end; unknown transforms and module mismatches are errors |
| `Metadata.VerifyAdded` | src/benji/storage/dicthmac.py:43-74 | for every hash, adding and verifying a digest restores the dictionary if and only if it had no digest entry before |
| `Digest.Traverse` | src/benji/storage/dicthmac.py:28-39 | the recursion feeds keys in sorted order, each followed by its value, and the items of lists, to the running digest |
| `Digest.SortKeys` | src/benji/storage/dicthmac.py:30 | the keys come out in the one order by code points |
| `Metadata.VerifyDigest` | src/benji/storage/dicthmac.py:52-74 | every error of a missing or malformed entry, and the comparison with the hash of what the rest feeds |
| `Metadata.VerifiesIff` | src/benji/storage/dicthmac.py:71-74 | a dictionary verifies exactly if its entry records the hash of what the rest of it feeds |
| `Metadata.OtherVerifiesIff` | src/benji/storage/dicthmac.py:71-74 | another dictionary verifies under the same digest if both feed the same text and, without collisions of the hash, only then |
| `Digest.SameFeed` | src/benji/storage/dicthmac.py:28-39 | moving a character from a value into its key leaves the text as it is |
| `Metadata.MovedCharacterVerifies` | src/benji/storage/dicthmac.py:28-39 | under every hash, two different dictionaries verify under one digest |
| `Digest.FeedDetermines` | src/benji/storage/dicthmac.py:28-39 | with the same keys and values of the same lengths, the text is the same if and only if every value feeds the same |
| `Metadata.SameLengthsVerifyIff` | src/benji/storage/dicthmac.py:71-74 | so among such dictionaries only one whose values feed the same verifies, if the hash has no collisions |
| `Metadata.DecodeBuilt` | src/benji/storage/base.py:120-169 | built metadata decodes to what was recorded if and only if the object has the recorded length, and a digest was added if one is demanded |
| `BlockStorage.BuiltHolds` | src/benji/storage/base.py:182-271 | objects as written can be read back, data and metadata, unless the block came without a checksum |
| `BlockStorage.CachedStorage.Write` | src/benji/storage/base.py:182-216 | a write under a new uid, with or without check, succeeds and stores exactly that block; if an object cannot be written nothing is left behind |
| `BlockStorage.CachedStorage.Read` | src/benji/storage/base.py:537-557 | any mix of cached, uncached and metadata-only reads of a stored block gives the data that was written and metadata that fits |
| `BlockStorage.CachedStorage.Remove` | src/benji/storage/base.py:309-321 | the objects go, an unknown uid is an error |
| `TokenBucket.TokenBucket.ConsumeTokens` | src/benji/utils.py:184-202 | after every call: the wait brings the level back to zero and is no longer than that takes; since the rate was set, the tokens taken after any earlier call stay within the rate up to the end of the wait, plus one bucket; the level is exactly the least that this allows; without a rate nothing is limited |
| `TokenBucket.LevelAtMost` | src/benji/utils.py:186-202 | after any calls the level is at most what a full bucket at any earlier call would have left |
| `TokenBucket.LevelIsLeast` | src/benji/utils.py:186-202 | the level is exactly the least of these bounds |
| `TokenBucket.GrantsBounded` | src/benji/utils.py:168-202 | tokens granted after a call are at most the rate times the time to a later call's end of wait, plus one full bucket |

## Left out

- The REST API, services, tasks, command line, notifications, Kubernetes tools and migrations.
- File, S3, B2, iSCSI and plain RBD drivers; the NBD handshake; the filter expression parser.
- SQL sessions, timed commits, rollback, errors of the database, and crashes between two steps.
- Locks outside `Collector`, lock override, and metadata import, which brings in uids minted elsewhere.
- Backup.Backup: which blocks are sampled, and which reads and writes fail, are parameters; whether a write that fails is needed depends on the order of reads; statistics are left out.
- RestoreMarks.Restore: opening the target, and writes to it that fail, are left out; where data longer than a block spills into the next one, what the target holds is not stated.
- Nbd.BenjiStore.CreateCowVersion: blocks of the base whose data is missing are left out.
- Nbd.BenjiStore.Read: restricted to ranges that start and end inside the version; a range past a short last block makes the chunk length negative.
- Nbd.BenjiStore.Write: restricted to ranges that start and end inside the version, as for reads.
- Nbd.BenjiStore.Fixate: a row that cannot be set leaves the rows set before alone; rollbacks are left out.
- Operations.RunConsistentIff: operations are atomic; a uid marked invalid while a backup runs is overruled by the backup's last step.
- Scrub.DeepScrub: which blocks a percentage leaves out is a parameter, and a read's verdict is one too.
- Usage.StorageUsage: one storage at a time.
- RowSizes.RecordedIsObjectSize: a uid all of whose rows are invalid may have lost its object, so that only its recorded size is known.
- KeyWrap.WrapKey: step counters are taken modulo two to the 64th, which no key in memory reaches.
- Digest.Traverse: fractions are modelled by the text that is shown for them; the hash is an arbitrary function of the text.
- TokenBucket.GrantsBounded: for rates that are not negative, over real numbers in place of floating point.
- Retention.Filter: parsing of policies; policies are modelled as ordered rules. Daylight-saving time zones.
- Schedule windows, hash collisions, and the mathematics of AES, zstd and elliptic curves.

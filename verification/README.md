# Verified models of the LSMoVe storage code

Dafny models of the algorithms in LSMoVe whose correctness depends on more than
one function, and proofs of what they are for. Check everything with
`dafny verify dfyconfig.toml`.

## What is modelled

**Pager with nested transactions** (`bt_pager.c`). `Pager.BtPager` has the
fields of the program's pager (chained hash, LRU list, dirty list, per-page and
per-savepoint undo lists, header) and one method per function. Its specification
is `SnapshotStack`: a client sees a stack of whole-database snapshots.
`Pager.BtPager.Run` says that every run of the pager is a run of that stack;
`RollbackUndoesRun`, `RollbackUndoesTransaction`, `CommitThenRollback`,
`CommitPersists` and `FlaggedHeaderSurvives` say what the stack promises. `HeldPages` does the same for
clients that keep page references over begins, commits and rollbacks. `UndoList` and `PagerState` hold
the state and what each step keeps; `PagerAbs` connects the two levels.

**Free lists and blocks** (`bt_pager.c`). `FreeListPages` is the byte layout of
a trunk page and the chain of trunks read as a stack; `Space` says who owns each
page of the file; `Allocator` runs the program's allocation on the pager itself,
so the free lists are covered by rollback. `Sessions` mixes allocation, writes
and nested transactions in any order.

**Locks, reader slots, recovery** (`bt_lock.c`). `Locks` is the lock table of
several processes over an abstract OS lock; `LockFile` the procedure;
`Readers` and `Recovery` are state machines whose steps interleave in any order.
`SharedGranted` and `ExclGranted` say when a lock is granted, `QueryAnswer` what a
query of the slots returns, `AttachedAfterRecovery` that recovery takes place.

**Sampler** (`analyze.c`). `Sampler` gives a push as a function and proves the
counting bound, the choice of samples and their order; `Stat3Accum` is the
procedure on the array.

**Checksum hierarchy** (`lsmtest5.c`). `OrderedStore`, `DecimalKeys`,
`ByteOrder` and `ChecksumKeys` are the ordered store and its formatted keys;
`ChecksumTree` the reads and writes.

**Varint codec** (`bt_varint.c`): `Varint`.
**Simulated power failure** (`lsmtest_tdb3.c`): `CrashModel`, `CrashEnv`.
**Parse-tree fixer** (`attach.c`): `FixNames`, `ParseTreeFixer`.
**Glob matcher** (`lsmtest_main.c`): `Glob`.
**Debugging allocator** (`lsmtest_mem.c`): `OomSchedule`, `TmAllocator`.

## Where the code and its documentation differ

- `bt.h:68-71` calls Rollback a no-op when the level is already `iLevel`. The
  code rolls that level back (`bt_pager.c:820-833`), as the example in
  `bt.h:73-80` needs; that example writes Rollback(5) where level 4 is meant.
  `SnapshotStack.RollbackNoOp` says exactly when nothing happens,
  `RollbackAtLevel` is a case in which something does. What `bt.h:64-66` says of
  Commit is true: `CommitNoOp`.
- A header change that is not flagged dirty is lost at commit when no page is
  dirty: there is then no commit frame (`bt_pager.c:632-640`).
  `SnapshotStack.CommitPersists` gives the exact condition, `HeaderLost` a case.
- `sqlite4BtLockDisconnect` unlinks the connection before it takes and drops
  locks. Other connections of the process then no longer count it, so they may
  be granted a slot it holds, or give up the process's OS lock it relies on.
  `Locks.UnlinkedExclusion` says for each lock operation exactly when that
  happens, `HistoryExclusion` that nothing else endangers exclusion in any
  history; `DisconnectRace`, `UnlockRace` and `SharedRace` are one case of each.
- `sqlite4BtLockReaderQuery` can upgrade, and so give up, a slot its own
  connection holds (`bt_lock.c:623`). `Readers.OwnSlotUpgraded` and
  `QueryKeepsOwnSlot` say exactly when, `OwnSlotLost` is a run.
- A read of the checksum test skips a level whose checksum comes out as 0
  (`lsmtest5.c:194`). `ChecksumTree.StoredByteDetected` says which changes of
  one byte go unnoticed, `ZeroUndetected` is one.
- The varint encoder moves to eight bytes at 2^47 although seven bytes reach
  2^48: `Varint.ShortestIff`.

## Model

| member | source | states |
|---|---|---|
| `UndoList.AddImageOk` | LSMoVe/src/bt_pager.c:362-407 | saving an image keeps the page's undo list in descending level order, and the bytes each level would restore |
| `UndoList.CloseImageOk` | LSMoVe/src/bt_pager.c:442-475 | closing one image, by rollback or by re-levelling, keeps the order and what every outer level would restore |
| `PageHash.PushKeepsTable` | LSMoVe/src/bt_pager.c:158-163 | adding a page leaves every page in its own bucket once |
| `PageHash.DropKeepsTable` | LSMoVe/src/bt_pager.c:171-177 | removing a page takes that page out of the table and no other |
| `PageHash.ShiftKeeps` | LSMoVe/src/bt_pager.c:144-152 | moving one entry to the bigger table loses and duplicates nothing |
| `SnapshotStack.RunKeepsOuter` | LSMoVe/src/bt.h:43-83 | while a level stays open no operation reaches the snapshots of the levels up to it, or the committed database |
| `SnapshotStack.RollbackUndoesRun` | LSMoVe/src/bt.h:68-80 | after any run inside level L >= 3, Rollback(L) restores header and every page as they were when L was opened, and leaves L open |
| `SnapshotStack.RollbackUndoesTransaction` | LSMoVe/src/bt.h:68-80 | after any run inside a write transaction, rolling back to level 2 or below leaves the committed database |
| `SnapshotStack.CommitThenRollback` | LSMoVe/src/bt.h:64-66 | a nested commit keeps the content; whatever is done afterwards inside level j, rolling back to j restores what a rollback instead of the commit would have restored |
| `SnapshotStack.CommitNoOp` | LSMoVe/src/bt.h:64-66 | Commit to the present or a higher level does nothing |
| `SnapshotStack.RollbackNoOp` | LSMoVe/src/bt_pager.c:816-845 | Rollback(L) does nothing exactly if the level is below L, or is L and there is nothing to undo in it |
| `SnapshotStack.RollbackAtLevel` | LSMoVe/src/bt_pager.c:828-832 | a page changed at level 3 is changed back by Rollback at level 3 |
| `SnapshotStack.StepTrimmed` | LSMoVe/src/bt_pager.c:756-845 | the present database, the committed one and every snapshot go on ending where their headers say |
| `SnapshotStack.CommitPersists` | LSMoVe/src/bt_pager.c:622-654 | the outermost commit persists every page, and the header exactly if a page is dirty, the header is flagged, or it did not change |
| `SnapshotStack.HeaderLost` | LSMoVe/src/bt_pager.c:632-640 | an unflagged header change with no dirty page does not survive the commit |
| `SnapshotStack.CallLevels` | LSMoVe/src/bt_pager.c:756-845 | Begin(L) ends at level L or above, Commit(L) and Rollback(L) at L or below, from any level; a rollback keeps the header flag and the committed database |
| `SnapshotStack.BeginOpens` | LSMoVe/src/bt_pager.c:319-343 | Begin changes nothing a reader sees, keeps the outer snapshots, and each level it opens is to be rolled back to the present content |
| `SnapshotStack.CommitEndsWrites` | LSMoVe/src/bt_pager.c:622-654 | after a commit to level 0 or 1 nothing is dirty, flagged or saved, and pages read and pages committed are the same |
| `SnapshotStack.WriteReadsBack` | LSMoVe/src/bt_pager.c:893-955 | a page written reads back; every other page, the header and all snapshots stay |
| `SnapshotStack.FlaggedHeaderSurvives` | LSMoVe/src/bt_pager.c:610-617 | flag a header change, do anything inside the write transaction, commit it: the header as it then is gets committed and page 1 encodes it; the other pages are committed as they are |
| `PagerState.AddToSavepointKeeps` | LSMoVe/src/bt_pager.c:362-407 | the pager invariant, and every snapshot, survive btAddToSavepoint |
| `PagerState.PageWriteKeeps` | LSMoVe/src/bt_pager.c:940-955 | the same for the two steps of PageWrite, after which the page may be changed |
| `PagerState.SetDataKeeps` | LSMoVe/src/bt_pager.c:940-955 | changing the bytes of a page made writable at the current level changes no snapshot and no other page |
| `PagerState.EvictKeeps` | LSMoVe/src/bt_pager.c:678-701 | dropping the LRU head changes no content: a clean page can be read back |
| `PagerState.LoadKeeps` | LSMoVe/src/bt_pager.c:905-926 | a page loaded on a miss is what the client last wrote |
| `PagerState.CloseStepKeeps` | LSMoVe/src/bt_pager.c:442-475 | every round of the inner loop of btCloseSavepoints keeps the half-closed invariant |
| `PagerState.CloseStepViews` | LSMoVe/src/bt_pager.c:442-475 | every level that stays open would restore what it would have restored before the round, and a round of a commit changes no content |
| `PagerState.PopSavepointKeeps` | LSMoVe/src/bt_pager.c:477-480 | an emptied savepoint can be dropped: contents and outer snapshots stay |
| `PagerState.CommitStepKeeps` | LSMoVe/src/bt_pager.c:632-640 | logging a dirty page keeps the invariant: it becomes clean, equals the store, and joins the LRU list if unreferenced |
| `PagerState.RollbackStepKeeps` | LSMoVe/src/bt_pager.c:735-745 | dropping or reloading a dirty page keeps the invariant |
| `PagerState.AllClean` | LSMoVe/src/bt_pager.c:641 | with an empty dirty list every page, and what any level would restore, equals the store |
| `PagerAbs.ClosedRollback` | LSMoVe/src/bt_pager.c:419-484 | closing savepoints by rollback restores header and pages of the outermost level closed |
| `PagerAbs.ClosedCommit` | LSMoVe/src/bt_pager.c:419-484 | closing several savepoints at once by commit keeps contents and the snapshots of the levels left |
| `PagerAbs.AbsWellFormed` | LSMoVe/src/bt_pager.c:319-484 | a valid pager state is a well-formed snapshot stack |
| `Pager.BtPager.HashSearch` | LSMoVe/src/bt_pager.c:183-190 | finds a page exactly if it is cached |
| `Pager.BtPager.HashGrow` | LSMoVe/src/bt_pager.c:134-156 | resizing keeps the pages in the table and doubles the buckets |
| `Pager.BtPager.HashAdd` | LSMoVe/src/bt_pager.c:131-166 | the table holds one page more, at a load of at most one half |
| `Pager.BtPager.HashRemove` | LSMoVe/src/bt_pager.c:171-177 | the table holds that page no longer |
| `Pager.BtPager.AllocatePage` | LSMoVe/src/bt_pager.c:674-720 | at the cache limit evicts exactly the head of the LRU list, if there is one, otherwise nothing; contents and snapshots stay |
| `Pager.BtPager.LruRemove` | LSMoVe/src/bt_pager.c:237-254 | takes exactly that page out of the LRU list and keeps the order of the others |
| `Pager.BtPager.PageGet` | LSMoVe/src/bt_pager.c:893-938 | the reference returned is to the latest content of the page; referenced and dirty pages stay |
| `Pager.BtPager.PageRelease` | LSMoVe/src/bt_pager.c:1088-1103 | one reference less; contents and snapshots stay |
| `Pager.BtPager.PageReference` | LSMoVe/src/bt_pager.c:1105-1109 | one reference more; contents and snapshots stay |
| `Pager.BtPager.AddToSavepoint` | LSMoVe/src/bt_pager.c:362-407 | the procedure computes the step PagerState.AddToSavepointKeeps is about |
| `Pager.BtPager.PageWrite` | LSMoVe/src/bt_pager.c:940-955 | the page is writable at the current level, no content and no snapshot changed |
| `Pager.BtPager.UpdatePage` | LSMoVe/src/bt_pager.c:893-955 | get, write, change, release: exactly that page changes, and no snapshot |
| `Pager.BtPager.OpenSavepoints` | LSMoVe/src/bt_pager.c:319-343 | the new levels would restore the present content |
| `Pager.BtPager.CloseSavepoints` | LSMoVe/src/bt_pager.c:419-484 | both loops: levels above the new one closed, each page restored or re-levelled once |
| `Pager.BtPager.Begin` | LSMoVe/src/bt_pager.c:756-784 | is SnapshotStack.Begin; the level afterwards is the greater of the old one and the one asked for |
| `Pager.BtPager.LogDirtyPages` | LSMoVe/src/bt_pager.c:632-641 | appends one frame per dirty page with its bytes, in list order, the page count on the last only; nothing is dirty afterwards |
| `Pager.FramesOfCommit` | LSMoVe/src/bt_pager.c:632-640 | each dirty page has exactly one frame, with its bytes, no other page has one, and the page count stands on the last frame alone |
| `Pager.BtPager.CommitTransaction` | LSMoVe/src/bt_pager.c:622-654 | dirty and savepoint lists are empty, and the store is the content if anything was dirty |
| `Pager.BtPager.Commit` | LSMoVe/src/bt_pager.c:789-808 | is SnapshotStack.Commit; the level afterwards is the lesser of the two |
| `Pager.BtPager.RollbackTransaction` | LSMoVe/src/bt_pager.c:725-750 | content and header are the store's again |
| `Pager.BtPager.RollbackSavepoint` | LSMoVe/src/bt_pager.c:829-832 | the content is that of the level rolled back to, which stays open |
| `Pager.BtPager.Rollback` | LSMoVe/src/bt_pager.c:816-845 | is SnapshotStack.Rollback; the level afterwards is the lesser of the two |
| `Pager.BtPager.Run` | LSMoVe/src/bt_pager.c:756-845 | every sequence of begins, commits, rollbacks, page writes and header changes is the same run of the snapshot stack |
| `HeldPages.RunProjects` | LSMoVe/src/bt_pager.c:756-955 | what a client that holds references does to the database is a run of the snapshot stack |
| `HeldPages.Read` | LSMoVe/src/bt_pager.c:1195-1197 | whoever holds a reference, since before any number of transaction calls, sees the current content of the page |
| `HeldPages.DoPut` | LSMoVe/src/bt_pager.c:940-955 | changing a held page in place, after PageWrite since the last transaction call, is a write of the snapshot stack |
| `HeldPages.DoAll` | LSMoVe/src/bt_pager.c:756-1109 | any run of gets, releases, page writes, changes and transaction calls keeps the references, the right to write and the database as the model says |
| `FreeListPages.AddEntry` | LSMoVe/src/bt_pager.c:982-990 | an entry put on the head trunk is the new top of the stack |
| `FreeListPages.AddTrunk` | LSMoVe/src/bt_pager.c:1006-1011 | a page made the first trunk keeps the stack, itself on top for the page list; all other trunks are full |
| `FreeListPages.TakeEntry` | LSMoVe/src/bt_pager.c:1045-1048 | taking the last entry pops the stack |
| `FreeListPages.TakeTrunk` | LSMoVe/src/bt_pager.c:1049-1060 | taking an empty trunk off keeps the rest, and the next trunk is full |
| `FreeListPages.StackSize` | LSMoVe/src/bt_pager.c:961-1020 | how many entries a chain of trunks holds when all but the head are full |
| `FreeListPages.EntriesFit` | LSMoVe/src/bt_pager.c:978 | a trunk has as many entries as fit behind its two header fields |
| `FreeListPages.TrunkExample` | LSMoVe/src/bt_pager.c:961-1011 | the bytes of a trunk with one entry: count, next trunk, entry, each big-endian, the rest of the page as before |
| `Space.NextBlock` | LSMoVe/src/bt_pager.c:1162-1169 | a carved block starts past the end of the file, after a gap of less than a block |
| `Space.BlockSize` | LSMoVe/src/bt_pager.c:1150 | a block has as many whole pages as fit in blksz bytes |
| `Space.MoveNewBlock` | LSMoVe/src/bt_pager.c:1161-1169 | its pages had no owner, and the partition of the longer file includes it |
| `Space.OneOwner` | LSMoVe/src/bt_pager.c:961-1183 | every page of the file belongs to the client, the free list, the block trunks or one block, to exactly one of them, and no page past the end to any |
| `Space.PageComesBack` | LSMoVe/src/bt_pager.c:961-1068 | a page freed is the next one allocated, and list and owners are restored |
| `Space.BlockComesBack` | LSMoVe/src/bt_pager.c:961-1068 | the same for blocks |
| `Space.ClientWrite` | LSMoVe/src/bt_pager.c:940-955 | a client that writes its own pages disturbs no list and no owner |
| `Allocator.FreePage` | LSMoVe/src/bt_pager.c:961-1020 | pushes the page, owners stay a partition, no page past the end changes, and the header is flagged exactly if it was or a list head moved |
| `Allocator.TakePage` | LSMoVe/src/bt_pager.c:1025-1068 | pops the last page freed, or 0 exactly if the list is empty; the header is flagged exactly if it was or a list head moved |
| `Allocator.PageAllocate` | LSMoVe/src/bt_pager.c:1114-1145 | a page nobody owned: the top of the list, or one past the end of the file; the caller holds it writable |
| `Allocator.TrimPage` | LSMoVe/src/bt_pager.c:1084-1086 | the page is on top of the free stack |
| `Allocator.FreeBlock` | LSMoVe/src/bt_pager.c:961-1020 | pushes the block; at most one page became a trunk; the recursion ends because the new trunk has room |
| `Allocator.AddTrunkPage` | LSMoVe/src/bt_pager.c:997-1014 | a full block list gets a trunk from the free pages or the end of the file |
| `Allocator.DropTrunk` | LSMoVe/src/bt_pager.c:1049-1060 | an empty block trunk becomes a free page, and the new list head is flagged |
| `Allocator.TakeBlock` | LSMoVe/src/bt_pager.c:1025-1068 | pops the last block freed, or 0 exactly if there is none |
| `Allocator.BlockAllocateOne` | LSMoVe/src/bt_pager.c:1158-1172 | the top of the block list, or a block past the end with the whole gap on the free page list |
| `Allocator.BlockAllocate` | LSMoVe/src/bt_pager.c:1147-1176 | nBlk different blocks none of which was in use; every page keeps exactly one owner |
| `Allocator.BlockTrim` | LSMoVe/src/bt_pager.c:1181-1183 | the block is on top of the free block stack |
| `Allocator.TrimThenAllocate` | LSMoVe/src/bt_pager.c:1084-1145 | on the pager: the page trimmed is the page allocated next, both lists as before |
| `Allocator.TrimThenAllocateBlock` | LSMoVe/src/bt_pager.c:1147-1183 | on the pager: the block trimmed is the block allocated next |
| `Space.NoFreeLists` | LSMoVe/src/bt_pager.c:961-1068 | a file without free lists meets the space invariant, every page being the client's |
| `Sessions.Serve` | LSMoVe/src/bt_pager.c:1084-1183 | one request: granted exactly when it can be; a page that was not held, or as many new blocks as asked for; the client owns exactly what it holds |
| `Sessions.OuterBooks` | LSMoVe/src/bt_pager.c:756-845 | while a level stays open, what the client held when the outer levels were opened stays on record |
| `Sessions.RollbackReturnsHoldings` | LSMoVe/src/bt_pager.c:816-845 | after a rollback the client holds what it held when the level was opened, whatever was granted and given back inside |
| `Sessions.Session.Do` | LSMoVe/src/bt_pager.c:756-1183 | one request, savepoint, commit or rollback keeps one owner per page in the present database, in every snapshot and in the committed one |
| `Sessions.Session.DoAll` | LSMoVe/src/bt_pager.c:756-1183 | the same over any sequence of them; the committed database does not change |
| `Sessions.Session.Finish` | LSMoVe/src/bt_pager.c:622-654 | the commit of any session: if a list head moved in it, page 1 encodes the final header; every other page is committed as it was |
| `Allocator.RollbackReturnsBlocks` | LSMoVe/src/bt_pager.c:816-845 | blocks allocated inside a savepoint are free again after its rollback: database, lists and owners are as before |
| `Locks.LockopKeeps` | LSMoVe/src/bt_lock.c:110-193 | every lock operation of a listed connection keeps exclusion, whatever the OS answers, in one or many processes |
| `Locks.InvExclusive` | LSMoVe/src/bt_lock.c:98-193 | no two listed connections of any processes hold a slot in conflict |
| `Locks.HolderAlone` | LSMoVe/src/bt_lock.c:133-148 | who holds a slot EXCL finds no competitor |
| `Locks.SharedGranted` | LSMoVe/src/bt_lock.c:110-193 | SHARED answers OK exactly if the lock is held already, or no other connection of the process holds EXCL and one holds SHARED, or there is one process only, or no other process holds EXCL and the OS call does not fail |
| `Locks.ExclGranted` | LSMoVe/src/bt_lock.c:110-193 | EXCL answers OK exactly if the lock is held already, or no other connection of the process holds the slot and there is one process only, or no other process holds it and the OS call does not fail |
| `Locks.LockLeaves` | LSMoVe/src/bt_lock.c:150-193 | what the caller holds after each answer: the lock asked for after OK, nothing after Unlock or a refused SHARED, what it held after a refused EXCL |
| `Locks.LockLeavesRest` | LSMoVe/src/bt_lock.c:150-193 | no other slot, connection or lock of another process changes |
| `Locks.OsFollows` | LSMoVe/src/bt_lock.c:150-193 | the process takes the OS lock with the first of its locks on a slot and gives it up with the last |
| `Locks.LinkKeeps` | LSMoVe/src/bt_lock.c:272-363 | a new connection keeps the invariant |
| `Locks.UnlinkKeeps` | LSMoVe/src/bt_lock.c:416-419 | unlinking keeps it for the connections left |
| `Locks.UnbrokenKeeps` | LSMoVe/src/bt_lock.c:110-193 | every lock operation not over the head of an unlinked holder keeps the invariant over all connections |
| `Locks.UnlinkedExclusion` | LSMoVe/src/bt_lock.c:405-449 | for each operation of any connection: the invariant over all connections survives exactly if it is not one of three kinds over the head of an unlinked holder of the process: Unlock giving up the OS lock of a SHARED holder, SHARED against an EXCL holder, EXCL against any holder; exclusion itself survives in the same cases and after Unlock |
| `Locks.HistoryExclusion` | LSMoVe/src/bt_lock.c:272-449 | over any history of connects, disconnects and lock operations the invariant holds throughout exactly if no operation is of those kinds |
| `Locks.UnlockRace` | LSMoVe/src/bt_lock.c:416-437 | of two disconnecting connections one drops the OS lock the other relies on, and a third, of another process, gets the slot EXCL |
| `Locks.SharedRace` | LSMoVe/src/bt_lock.c:416-437 | a connection gets a slot SHARED that an unlinked one holds EXCL |
| `Locks.DisconnectRace` | LSMoVe/src/bt_lock.c:416-421 | two connections of one process both get DMS1 EXCL, one of them disconnecting |
| `LockFile.BtShared.CountHolders` | LSMoVe/src/bt_lock.c:133-148 | counts the other holders; the assertions in and after the loop hold |
| `LockFile.BtShared.Lockop` | LSMoVe/src/bt_lock.c:110-193 | masks, result and xLock call are those of the step LockopKeeps is about |
| `LockFile.LockopInSystem` | LSMoVe/src/bt_lock.c:98-193 | the procedure on the objects of several processes is the step Locks.Lockop of the system they stand for |
| `LockFile.BtShared.Link` | LSMoVe/src/bt_lock.c:272-363 | linking a connection without locks keeps the list consistent |
| `Readers.StepKeeps` | LSMoVe/src/bt_lock.c:467-643 | every step of every connection keeps the slot invariant |
| `Readers.SlotProtected` | LSMoVe/src/bt_lock.c:467-563 | a slot's values do not change while another connection holds it SHARED |
| `Readers.ReaderHolds` | LSMoVe/src/bt_lock.c:540-556 | a successful LockReader holds a slot whose first and last frames are in the log and no later than requested |
| `Readers.ExclRefused` | LSMoVe/src/bt_lock.c:175-185 | EXCL is refused on a slot another connection holds SHARED, in the same process or not |
| `Readers.ExclProtected` | LSMoVe/src/bt_lock.c:523-533 | a slot's values do not change while another connection holds it EXCL |
| `Readers.ReaderWrites` | LSMoVe/src/bt_lock.c:523-533 | a reader that took a slot EXCL leaves its own two values there, and touches no other slot |
| `Readers.ReaderSucceeds` | LSMoVe/src/bt_lock.c:519-556 | a reader that comes to a slot nobody holds can go on to hold it SHARED with exactly the frames it asked for |
| `Readers.FrameToIdxIsPosition` | LSMoVe/src/bt_log.c:1715-1732 | the index of a frame is its first position in the list of the frames of the three regions, or -1 exactly if it is not there |
| `Readers.RunProtects` | LSMoVe/src/bt_lock.c:467-643 | over any run in which a reader keeps its slot, the slot's values stay |
| `Readers.QueryRespectsReader` | LSMoVe/src/bt_lock.c:592-643 | a query that runs while a reader keeps its slot returns a non-zero frame in the log, at or before the one in the reader's slot and the one the reader asked for |
| `Readers.QueryAnswer` | LSMoVe/src/bt_lock.c:615-640 | over any run of a query, with any other connections moving in between: a non-zero answer was read from a slot during the query and the EXCL attempt on that slot was then refused; it is in the log, and no other value so refused is earlier; without an answer none of them was in the log |
| `Readers.OwnSlotUpgraded` | LSMoVe/src/bt_lock.c:617-631 | a query that comes to its own connection's slot loses it exactly if no other connection of the process shares the slot and the OS grants EXCL |
| `Readers.QueryKeepsOwnSlot` | LSMoVe/src/bt_lock.c:592-643 | over any run of a query the connection has its slot back at the end exactly if every such attempt was refused |
| `Readers.OwnSlotLost` | LSMoVe/src/bt_lock.c:592-643 | a run in which a lone reader loses its slot to its own query |
| `Recovery.StepKeeps` | LSMoVe/src/bt_lock.c:365-385 | every step of every connect, xRecover answering OK, BUSY or an error, keeps the locks in step with the place reached |
| `Recovery.RecoversAlone` | LSMoVe/src/bt_lock.c:365-377 | xRecover runs under DMS1, DMS2_RW and DMS2_RO exclusively, with every other connection waiting to start or failed |
| `Recovery.AttachedHolds` | LSMoVe/src/bt_lock.c:378-385 | a successful connect holds DMS2_RW SHARED and has released DMS1 |
| `Recovery.NoLaterRecovery` | LSMoVe/src/bt_lock.c:365-385 | in any run, once a connection is attached no other one recovers |
| `Recovery.AttachedAfterRecovery` | LSMoVe/src/bt_lock.c:365-385 | in any run a connection that started there attaches only if it ran xRecover itself or was answered BUSY; the step after recovery is reached with OK only by running it |
| `Recovery.BothAttach` | LSMoVe/src/bt_lock.c:365-385 | a run of two connections of a process: the first recovers and attaches, the second finds DMS2_RW in use and attaches without |
| `Sampler.PeriodicBound` | LSMoVe/src/analyze.c:297-300 | contiguous groups of total T bring at most T / period periodic samples |
| `Sampler.PeriodicIff` | LSMoVe/src/analyze.c:298 | a group is periodic exactly if a multiple of the period lies among its rows |
| `Sampler.PeriodChoice` | LSMoVe/src/analyze.c:250 | with the period stat3Init chooses that is at most mxSample / 3 |
| `Sampler.PeriodLeast` | LSMoVe/src/analyze.c:250 | the period is the least for which nRow rows give no more than mxSample / 3 periodic samples |
| `Sampler.PeriodicsKept` | LSMoVe/src/analyze.c:297-360 | over any scan no periodic sample is evicted, and a full sampler always has a non-periodic minimum |
| `Sampler.MinIdxOk` | LSMoVe/src/analyze.c:337-360 | the minimum is a non-periodic sample of least (nEq, hash), found exactly if there is one |
| `Sampler.TopSamples` | LSMoVe/src/analyze.c:297-360 | over any scan the kept non-periodic samples outrank everything lost, and kept plus lost is what was pushed |
| `Sampler.MostFrequentKept` | LSMoVe/src/analyze.c:297-360 | no group lost is more frequent than a non-periodic sample kept; of equally frequent ones those with the greater hash are kept |
| `Sampler.SamplesAreGroups` | LSMoVe/src/analyze.c:276-335 | every sample has key, counts, kind and hash of a group that was pushed |
| `Sampler.EveryGroupSampled` | LSMoVe/src/analyze.c:276-335 | until the samples are full every group with rows has its sample |
| `Sampler.SamplesOrdered` | LSMoVe/src/analyze.c:307-335 | over any scan the samples stay in table order |
| `Sampler.SumBelowLast` | LSMoVe/src/analyze.c:970-974 | the rows of samples in table order do not exceed the end of the last |
| `Sampler.SumEqAppend` | LSMoVe/src/analyze.c:970-974 | the sum counts every sample once |
| `Stat3Accum.Accum.Push` | LSMoVe/src/analyze.c:276-361 | the array holds what Sampler.Push says, the minimum is up to date |
| `Stat3Accum.Accum.CloseGap` | LSMoVe/src/analyze.c:308-313 | the memmove takes out exactly one sample |
| `Stat3Accum.Accum.FindMin` | LSMoVe/src/analyze.c:337-360 | the search stays inside the array and finds the minimum |
| `Stat3Accum.Scan` | LSMoVe/src/analyze.c:227-361 | a whole scan computes Sampler.Run; the assertion of line 344 never fails |
| `Stat3Accum.AvgEq` | LSMoVe/src/analyze.c:970-976 | the subtraction does not wrap, and avgEq is at least 1 |
| `ByteOrder.BetweenPrefix` | LSMoVe/lsm-test/lsmtest5.c:163-170 | what sorts between two keys with a common prefix has that prefix |
| `DecimalKeys.DigitsOrder` | LSMoVe/lsm-test/lsmtest5.c:79-93 | zero-padded numbers sort as the numbers |
| `DecimalKeys.DottedInjective` | LSMoVe/lsm-test/lsmtest5.c:79-93 | a level in a key can be read back, however many digits it has |
| `OrderedStore.PutSorted` | LSMoVe/lsm-test/lsmtest5.c:204-238 | writes keep the store in key order |
| `OrderedStore.ScanIsRange` | LSMoVe/lsm-test/lsmtest5.c:163-170 | a scan is exactly the entries of the range |
| `ChecksumKeys.MaxLevel` | LSMoVe/lsm-test/lsmtest5.c:108-115 | the least level whose span covers the key space |
| `ChecksumKeys.FormatKey` | LSMoVe/lsm-test/lsmtest5.c:79-93 | the key of the entry of that level whose block holds the number |
| `ChecksumKeys.KeyInjective` | LSMoVe/lsm-test/lsmtest5.c:79-93 | keys are equal exactly for the same level and block |
| `ChecksumKeys.KeyExamples` | LSMoVe/lsm-test/lsmtest5.c:79-93 | the bytes of the key of pair 45 and, at a fan-out of 10, of its level-1 checksum |
| `ChecksumKeys.RangeIsBlock` | LSMoVe/lsm-test/lsmtest5.c:142-174 | the key range scanned for a checksum holds the entries of the level below in its block, and no key of any other level |
| `ChecksumTree.Cksum` | LSMoVe/lsm-test/lsmtest5.c:117-135 | folds the bytes of a value into a 32-bit checksum |
| `ChecksumTree.MixIsLinear` | LSMoVe/lsm-test/lsmtest5.c:117-135 | one byte takes a checksum c to 9c plus the byte, modulo 2^32 |
| `ChecksumTree.LevelUp` | LSMoVe/lsm-test/lsmtest5.c:227-235 | refreshing one checksum leaves only the one above it stale |
| `ChecksumTree.WriteKeepsChecksums` | LSMoVe/lsm-test/lsmtest5.c:204-238 | after a write every stored checksum is right and a block without one is empty |
| `ChecksumTree.RunOk` | LSMoVe/lsm-test/lsmtest5.c:204-238 | the same after any sequence of writes, from the empty database |
| `ChecksumTree.EveryReadPasses` | LSMoVe/lsm-test/lsmtest5.c:176-202 | after any sequence of writes every read of every key succeeds |
| `ChecksumTree.BlockEntries` | LSMoVe/lsm-test/lsmtest5.c:142-174 | which entries a checksum covers |
| `ChecksumTree.PairsKept` | LSMoVe/lsm-test/lsmtest5.c:204-238 | after any sequence of writes each key holds what was last written to it |
| `ChecksumTree.ChecksumDetected` | LSMoVe/lsm-test/lsmtest5.c:176-202 | after any run, a stored checksum of any level replaced by anything else makes every read below it fail, unless the checksum is 0 |
| `ChecksumTree.StoredByteDetected` | LSMoVe/lsm-test/lsmtest5.c:176-202 | after any run, one changed byte of a pair or of a checksum of any level makes the read fail, exactly unless the checksums recomputed on its level and on the next are 0 |
| `ChecksumTree.OneByteDetected` | LSMoVe/lsm-test/lsmtest5.c:176-202 | after any run, one changed byte of a stored value makes the read fail, exactly unless the new level-1 checksum is 0 |
| `ChecksumTree.ZeroUndetected` | LSMoVe/lsm-test/lsmtest5.c:193-199 | a one-byte value changed to 0, alone in its block, passes the read |
| `ChecksumTree.TestDatabase.ComputeCksum` | LSMoVe/lsm-test/lsmtest5.c:142-174 | the checksum of the block |
| `ChecksumTree.TestDatabase.ReadOperation` | LSMoVe/lsm-test/lsmtest5.c:176-202 | succeeds exactly if every level's check passes |
| `ChecksumTree.TestDatabase.WriteOperation` | LSMoVe/lsm-test/lsmtest5.c:204-238 | performs the write WriteKeepsChecksums is about, or nothing if busy |
| `Varint.RoundTrip` | LSMoVe/src/bt_varint.c:26-139 | decoding an encoding, whatever follows it, gives value and length; the first byte predicts the length |
| `Varint.ListRoundTrip` | LSMoVe/src/bt_varint.c:26-139 | a concatenation of encodings decodes to the list |
| `Varint.EncodingsSort` | LSMoVe/src/bt_varint.c:81-139 | encodings sort bytewise exactly as the numbers |
| `Varint.GetIsValue` | LSMoVe/src/bt_varint.c:40-63 | the long forms read a big-endian number of as many bytes as the prefix says |
| `Varint.DecodeUsesSize` | LSMoVe/src/bt_varint.c:192-196 | on any bytes the decoder uses as many as VarintSize says of the first, and its result depends on no others |
| `Varint.Write32` | LSMoVe/src/bt_varint.c:69-74 | writes four big-endian bytes and no others |
| `Varint.PutVarint64` | LSMoVe/src/bt_varint.c:81-139 | writes the encoding, its length, and no other byte |
| `Varint.SignedRoundTrip` | LSMoVe/src/bt_varint.c:145-151 | the signed 64-bit wrappers round-trip, negatives included |
| `Varint.Get32Truncates` | LSMoVe/src/bt_varint.c:157-181 | on any bytes the 32-bit reader is the 64-bit reader cut to an int |
| `Varint.IntRoundTrip` | LSMoVe/src/bt_varint.c:153-181 | the 32-bit wrappers round-trip, negatives included |
| `Varint.VarintLen32` | LSMoVe/src/bt_varint.c:183-186 | the length of the encoding |
| `Varint.NegativeIsLong` | LSMoVe/src/bt_varint.c:145-155 | a negative number takes nine bytes |
| `Varint.ShortestIff` | LSMoVe/src/bt_varint.c:120-133 | an encoding is the shortest the decoder accepts exactly if the number is not in [2^47, 2^48) |
| `Varint.FormatExamples` | LSMoVe/src/bt_varint.c:81-139 | the encodings on either side of the limits of the one-, two- and three-byte forms |
| `CrashModel.QuietSinceSync` | LSMoVe/lsm-test/lsmtest_tdb3.c:190-291 | a sector not written since a sync of its file still holds the bytes of that sync, and is not among those a crash may change |
| `CrashModel.UntouchedSector` | LSMoVe/lsm-test/lsmtest_tdb3.c:203-204 | a write changes no sector outside iFirst to iLast |
| `CrashModel.TouchedIff` | LSMoVe/lsm-test/lsmtest_tdb3.c:203-204 | a sector is among iFirst to iLast exactly if a byte of the write lies in it |
| `CrashModel.OutcomesExtreme` | LSMoVe/lsm-test/lsmtest_tdb3.c:394-417 | a crash whose random values are all 0 modulo 3 changes nothing; if all are 2 the file is as last synced |
| `CrashEnv.FileData.Grow` | LSMoVe/lsm-test/lsmtest_tdb3.c:206-216 | the array grows to the next multiple of 64 sectors if it is too short, the images staying where they are |
| `CrashEnv.FileData.CrashSector` | LSMoVe/lsm-test/lsmtest_tdb3.c:396-415 | the random value modulo 3 decides between the new bytes, garbage over the old ones, and the old ones; garbage uses a second seed |
| `CrashEnv.FileData.SaveSectors` | LSMoVe/lsm-test/lsmtest_tdb3.c:197-227 | exactly the sectors touched for the first time get an image of their bytes, the array growing as needed |
| `CrashEnv.FileData.Write` | LSMoVe/lsm-test/lsmtest_tdb3.c:190-246 | images are kept for exactly the sectors written since the last sync, with their synced bytes |
| `CrashEnv.FileData.SyncFile` | LSMoVe/lsm-test/lsmtest_tdb3.c:268-290 | no image is left |
| `CrashEnv.FileData.Crash` | LSMoVe/lsm-test/lsmtest_tdb3.c:394-417 | each sector of a file is left as the random value of its seed says, the seeds counted through the sectors written; so it holds what it may hold after a crash |
| `CrashEnv.LsmDb.EnvSync` | LSMoVe/lsm-test/lsmtest_tdb3.c:250-291 | syncs the file, or crashes both files when the countdown ends |
| `CrashEnv.LsmDb.Run` | LSMoVe/lsm-test/lsmtest_tdb3.c:190-422 | over any sequence of writes and syncs of two files the crash comes at the nAutoCrash-th sync, and then each sector not written since its file's last sync holds its synced bytes, each other one its synced, its pending or the garbled bytes |
| `FixNames.FixMeans` | LSMoVe/src/attach.c:422-436 | the pass succeeds exactly if no reference names another database; it names exactly the unnamed ones before the first that does, and changes no name |
| `FixNames.SecondPassIsNoOp` | LSMoVe/src/attach.c:398-411 | after success every reference names the fixed database, and a second pass changes nothing |
| `FixNames.FixAppend` | LSMoVe/src/attach.c:412-512 | walking two parts one after the other, stopping at the first failure, is one pass |
| `FixNames.SameNameMeans` | LSMoVe/src/attach.c:425 | names are the same exactly if they are equal up to the case of A to Z |
| `ParseTreeFixer.RefsArePaths` | LSMoVe/src/attach.c:412-512 | the references of a tree are exactly those a path through the fields the walk follows leads to |
| `ParseTreeFixer.RefsInOrder` | LSMoVe/src/attach.c:412-512 | they come in the order of the tree: an item's own first, then those of each field followed, field by field |
| `ParseTreeFixer.DbFixer.FixSrcList` | LSMoVe/src/attach.c:412-437 | is the pass over the references of the list, in order |
| `ParseTreeFixer.DbFixer.FixSelect` | LSMoVe/src/attach.c:439-459 | is the pass over the references of a compound SELECT |
| `ParseTreeFixer.DbFixer.FixExpr` | LSMoVe/src/attach.c:460-477 | is the pass over the references of an expression |
| `ParseTreeFixer.DbFixer.FixExprList` | LSMoVe/src/attach.c:478-491 | is the pass over the references of an expression list |
| `ParseTreeFixer.DbFixer.FixTriggerStep` | LSMoVe/src/attach.c:495-512 | is the pass over the references of a list of trigger steps |
| `Glob.GlobMatch` | LSMoVe/lsm-test/lsmtest_main.c:441-465 | true exactly if the string can be cut into pieces that fit the characters of the pattern; terminates |
| `Glob.RunStep` | LSMoVe/lsm-test/lsmtest_main.c:448-453 | a star matches exactly if the rest of the pattern matches some suffix |
| `Glob.OneStep` | LSMoVe/lsm-test/lsmtest_main.c:455-461 | any other character takes one character of the string |
| `Glob.PatternChar` | LSMoVe/lsm-test/lsmtest_main.c:441-465 | a one-character pattern: star and percent match anything, a question mark one character, anything else itself |
| `Glob.PatternConcat` | LSMoVe/lsm-test/lsmtest_main.c:441-465 | two patterns in a row match exactly the strings that can be cut into a match of each |
| `OomSchedule.WhichFail` | LSMoVe/lsm-test/lsmtest_mem.c:117-129 | armed with n, attempt k fails exactly if k is n, or is later and the failure persists |
| `OomSchedule.Conserved` | LSMoVe/lsm-test/lsmtest_mem.c:106-226 | over any run live blocks and bytes are those before, plus handed out, less given back |
| `TmAllocator.TmGlobal.LinkFirst` | LSMoVe/lsm-test/lsmtest_mem.c:132-137 | the doubly linked list has the block in front |
| `TmAllocator.TmGlobal.Unlink` | LSMoVe/lsm-test/lsmtest_mem.c:190-200 | the list is without the block, links and order otherwise as before |
| `TmAllocator.TmGlobal.Malloc` | LSMoVe/lsm-test/lsmtest_mem.c:106-178 | fails exactly when the schedule says; else a new guarded block heads the list and no block changes |
| `TmAllocator.TmGlobal.Free` | LSMoVe/lsm-test/lsmtest_mem.c:180-212 | the list holds the other blocks unchanged, the freed one lost its guard; the assertions hold |
| `TmAllocator.TmGlobal.Realloc` | LSMoVe/lsm-test/lsmtest_mem.c:214-226 | on success the common prefix is copied and the old block freed; on failure the old block stays as it was |
| `TmAllocator.TmGlobal.MallocOom` | LSMoVe/lsm-test/lsmtest_mem.c:228-242 | arms the schedule |
| `TmAllocator.TmGlobal.MallocCheck` | LSMoVe/lsm-test/lsmtest_mem.c:251-268 | reports the number and the bytes of the blocks on the list |
| `TmAllocator.TmGlobal.Run` | LSMoVe/lsm-test/lsmtest_mem.c:106-268 | after any sequence of calls list and leak report are those of a list of sizes |

## Left out

- Out of memory and I/O errors of the pager: the theorems are about calls that succeed. Locks, recovery and reader slots include I/O errors.
- Pager objects: a BtPage is a record in a map by page number, and the hash chains, LRU list, dirty list and undo lists are sequences of page numbers; the C pointers that link them, and memory, are not modelled.
- The log: a sequence of frames and the header of the last commit frame. The extra copy of page 1 inside bt_log.c, checkpoints, log wrap-around and checksums are not modelled.
- Several connections to one database file at the pager level: the cache purge at the end of a read transaction is commented out (bt_pager.c:598-600), so coherence is stated for one connection. sqlite4BtPagerRawWrite bypasses the cache and is not modelled.
- sqlite4BtPagerRevert, cookies, header dump, configuration, automatic checkpoints.
- Pager.BtPager.Begin: like Commit and Rollback it asks that pages past the end of the file read as zeros; SnapshotStack.StepTrimmed shows that runs keep this.
- HeldPages.DoPut: asks for PageWrite since the last Begin, Commit or Rollback. The code would also accept a page made writable at a level that a nested commit has returned to.
- Sessions.Serve: requests to return or write what the client does not hold are skipped, where the program would corrupt its lists.
- Sessions.Session.DoAll: inside one write transaction; its final commit is Pager.BtPager.Commit.
- Pager.BtPager.UpdatePage: a client may change a page only after PageWrite at the current level; that discipline is part of the method.
- Allocator.Peek: reads a trunk page and releases it before the change, where the code holds the reference in between.
- Allocator.PageAllocate: page numbers stay below 2^32, as a precondition; so for blocks.
- Allocator.FreeBlock: btFreelistAdd and btFreelistAlloc are one method for pages and one for blocks, split on bBlock. A page holds at least 12 bytes, without which the code's recursion would not end.
- Locks.LockopKeeps: lock masks are sets of slots; the OS grants a lock if no other process tolerates it less; retries and delays of btLockLockop are repeated steps.
- sqlite4BtLockDisconnect after the unlink: its lock operations are those of Locks.UnlinkedExclusion, in any order; the checkpoint and the deletion of files are not modelled.
- Readers.StepKeeps: the search for a suitable slot may return any slot, since it reads without a lock; the number of attempts is not counted, a reader may give up at any retry. The log's extent is fixed during a run.
- Readers.FrameToIdxIsPosition: is about logs whose regions do not end before they start.
- Recovery.NoLaterRecovery: connections that connect later in a run start at the first step; shared-memory mapping is a step that succeeds or fails.
- Stat3Accum.Accum.Push: counts are unbounded, keys are values and not buffers that are reused, mxSample is at least 1; the table read back by stat3Get is the array.
- ChecksumTree.TestDatabase.ReadOperation: transactions, delays and error codes of the store; spans are assumed to fit an int, so that no key overflows its digits.
- Varint.GetVarint64: reads of bytes past the end of a truncated varint, which the C code performs, are excluded by requiring the bytes the prefix promises.
- CrashEnv.FileData.Write: file length and truncation, write hooks, empty writes; testPrngValue and testPrngArray are arbitrary functions.
- The variant of the crash simulator in lsmtest_tdb4.c, which saves a sector again at every write.
- ParseTreeFixer.DbFixer.FixSelect: only the fields the walk visits are modelled, null lists are empty lists, and error text is left out.
- TmAllocator.TmGlobal.Malloc: the out-of-memory hook, backtrace tables, mutex and the bytes of freed blocks.
- alter.c, auth.c, the LSM core, the tokenizer and the remaining test drivers: not modelled.

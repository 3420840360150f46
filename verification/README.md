# redbx verification

A Dafny model of redbx, an embedded copy-on-write B-tree store with snapshot readers, savepoints,
non-durable commits, a buddy page allocator and a two-slot commit header, and proofs about it.

`dafny verify dfyconfig.toml` checks the whole project.

## What is modelled

- **Page-lifetime protocol** (`Tracker`, `Store*`, `FreedTables`): a state machine over the steps
  of readers, savepoints, the writer, commits, aborts, failed restores and crashes. A commit is the set
  of pages its roots reach and the contents of its system tables. `StoreProof` and `StoreCommit` keep
  what does not depend on stored savepoints being registered, `StoreExact` adds exact accounting while
  they are, and `StoreSafety` gives every page a birth and keeps savepoints safe when they are not.
  The loops that fill and drain those tables are methods proved against the set operations of the
  state machine.
- **Commit header** (`Header`, `HeaderRuns`): two slots with ideal checksums and one atomic byte; a
  crash keeps any mixture of the unflushed writes, and slots may be torn. Opening a file is a sequence
  of header writes that a further crash may interrupt.
- **B-tree** (`Btree*`): insertion, deletion, splitting and merging on trees of pages, refined to
  lists of entries and from there to maps; the double-ended iterator; extraction; page accounting.
  `Layers` shows that an edit of a tree is a step of the page-lifetime protocol.
- **Leaf bytes** (`Leaf*`): the layout of a leaf page, its in-place editor and its builder over
  byte arrays.
- **Encrypted pages** (`EncryptedPage`): what a leaf is after it has been written and read back.
- **Multimap** (`Multimap`): inline leaves and subtrees as sets of values.
- **Page cache** (`Lru`, `PageCache`): second-chance eviction, write buffer and striped read cache.
- **Allocator** (`Bits`, `Bitmap*`, `Buddy*`, `Regions`): summary bitmaps, the buddy index, and the
  growth and shrinking of the file.

## Where the code does not do what is said of it

For each there is an instance that shows it and, for all inputs, the condition under which the code does it.

- A leaf page is stored encrypted in one 4096-byte block of which 4068 bytes are content
  (`src/tree_store/page_store/file_backend/encrypted.rs:327-336`). What lies past that is dropped
  and reads back as zeros. Only the decision to split a leaf observes a limit
  (`src/tree_store/btree_base.rs:684-692`); the test for an insertion in place does not, a leaf
  with a single pair is never split, and of a leaf larger than a page only the first block is
  written. `EncryptedPage.LeafSurvivesIff`, `LargeLeafComesBack`,
  `OnlyThePrefixIsStored`, `AcceptedAndLost`, `LostLeaf`, `LostLargeLeaf`.
- Restoring a savepoint unregisters the later ones at once
  (`src/transactions.rs:1162-1170`), and an abort does not bring them back although they are still
  stored. Pages allocated after that are not tracked for them, and a restore after reopening leaves
  such pages in use and in no place until the next repair. `StoreRestore.AbortKeepsRowsIff`,
  `AbortedRestoreForgets`, `ForgottenSavepointLeaks`, `RestoreAccountsIff`,
  `StoreTimeline.ForgottenSavepointLeaksInARun`. Nothing a reader or a savepoint needs is freed all
  the same: the theorems about safety are about careful runs, in which any transaction may be aborted;
  `EveryPageInOnePlace` is about those of them in which each restore finds its allocation entries, and
  what a restore gives back exactly is about orderly runs.
- A non-durable transaction may not delete stored savepoints, so restoring a savepoint with a later
  one stored fails in it, but only after tree, freed table and queue have been changed and the later
  ones unregistered (`src/transactions.rs:1010-1013`, `1162-1170`). `StoreRestore.AttemptKeepsRowsIff`,
  `HalfRestoreForgets`. Aborting such a transaction is safe. Committing it is not: the later
  savepoints are then on another timeline, and restoring one of them takes pages from earlier ones.
  `StoreTimeline.CommittedHalfRestoreLoses`, `HalfRestoreLosesInARun`. A careful run is one in which
  that does not happen.
- A second restore in one transaction queues the pages allocated after its savepoint again
  (`src/transactions.rs:1144-1160`), and nothing removes repeats before the queue is written to the
  freed table (`src/transactions.rs:1437-1466`). `FreedTables.QueueAllocatedSince`, `QueueTwice`,
  `QueuedTwice`. In `Store` there is at most one attempt to restore for each transaction.
- Opening a file writes its header back with fresh checksums for both slots, a torn one included
  (`src/tree_store/page_store/page_manager.rs:254-260`). A one-phase commit is then not safe against a
  crash that writes only the byte naming the primary, and a crash of the opening itself may bring the
  torn slot back. `Header.OnePhaseSafeIff`, `SecondCrashIff`, `TornSlotComesBack`,
  `HeaderRuns.RewriteSafeIff`, `TornSlotRevived`. In `HeaderRuns` a commit, and a crash before the
  header is marked clean, is a step only where these conditions hold.
- The queue of the second-chance cache is said not to grow without bound
  (`src/tree_store/page_store/lru_cache.rs:37-47`); it can, because a removal shortens it
  only when one of two elements is stale. `Lru.RemoveShortensIff`, `QueueGrows`,
  `QueueGrowsFromNothing`. Without evictions it cannot with at most two keys cached at a time,
  `TwoKeysBounded`; with evictions it can with two, `TwoKeysGrowFromNothing`, and cannot with one,
  `OneKeyBounded`.
- A page asked for with `overwrite` is said to be initialized to zero
  (`src/tree_store/page_store/cached_file.rs:417`); a page that is cached or buffered comes with its
  old bytes. `PageCache.PagedCachedFile.Write`, `WriteTwice`.

## Model

| member | source | states |
|---|---|---|
| `StoreTheorems.RunInv` | src/transactions.rs:1382-1435 | every state of every orderly run, that is of every run of readers, savepoints, writers, durable and non-durable commits, aborts and crashes in which the tracker forgets no stored savepoint, satisfies the whole invariant |
| `StoreTheorems.KeepStep` | src/transactions.rs:1382-1435 | each kind of step that leaves the stored savepoints registered, taken from any state that satisfies the invariant, leads to one that does, and no reference is given back that was not counted |
| `StoreTheorems.InitialInv` | src/db.rs:857-939 | a new database satisfies the invariant |
| `StoreTheorems.EveryPageInOnePlace` | src/transactions.rs:838-939 | in every state of every careful run in which each restore finds an allocation entry for every page it supersedes, whatever is aborted, fails or is forgotten, the pages in use are the disjoint union of data tree, system tree, the two freed tables, the two queues and the pages freed after the commit, and no table lists a page twice |
| `StoreTheorems.ExactStep` | src/transactions.rs:1382-1435 | a step from an exactly accounted state loses no page, an abort that forgets stored savepoints included, unless it is a restore with a superseded page that has no allocation entry |
| `StoreTheorems.OrderlyIsTraced` | src/transactions.rs:1144-1160 | while the tracker forgets no stored savepoint every restore finds its entries, so orderly runs are among them |
| `StoreTheorems.RunSound` | src/transactions.rs:1382-1435 | every state of every careful run, in which restores may be aborted or fail and the tracker may forget stored savepoints but no transaction commits after its own restore has failed, satisfies the invariant of births |
| `StoreTheorems.SoundStep` | src/transactions.rs:1382-1435 | each of the nineteen kinds of step, an abort of any transaction and a failed restore included, keeps it |
| `StoreTheorems.OrderlyIsCareful` | src/transactions.rs:1162-1170 | an orderly run is a careful one |
| `StoreTheorems.NoPageInTwoPlaces` | src/transactions.rs:838-939 | in every state of every careful run trees, tables and queues are disjoint and in use and no table lists a page twice |
| `StoreTheorems.NothingNeededIsFree` | src/transactions.rs:1749-1787 | in every state of every careful run every page of every live reader, every savepoint, registered or only stored, the latest commit and the last durable commit is in use |
| `StoreTheorems.SnapshotIsolation` | src/db.rs:982-991 | in every careful run, for as long as a reader lives its snapshot is the same, its pages stay in use, and no step hands one of them out again |
| `StoreTheorems.SavepointIsolation` | src/transactions.rs:1028-1084 | the same for a savepoint for as long as it exists, through commits, aborts, failed restores and crashes |
| `StoreTheorems.DurableCommitSurvives` | src/transactions.rs:1550-1623 | in every careful run, between two durable commits no page of the first is freed or handed out, whatever non-durable commits come between |
| `StoreTheorems.CrashRecovers` | src/db.rs:805-847 | in every careful run, after a crash the trees and stored savepoints are those of the last durable commit, every stored savepoint is registered with all its pages in use, and the pages marked by repair are exactly its trees and freed tables, each once |
| `StoreProof.CoreMutate` | src/tree_store/page_store/page_manager.rs:932-944 | replacing data pages keeps everything that does not depend on stored savepoints being registered |
| `StoreProof.CoreRewind` | src/transactions.rs:1121-1160 | so does going back to a savepoint, all the way or half way, when what it queues is in the tree or freed since and not its own; exact accounting stays exact when every superseded page has an allocation entry |
| `StoreCommit.CoreProcessDurable` | src/transactions.rs:1749-1787 | so does freeing everything up to the oldest referenced transaction |
| `StoreCommit.CoreProcessNonDurable` | src/transactions.rs:1868-1886 | so does freeing what no durable commit has reached |
| `StoreCommit.CoreCommit` | src/transactions.rs:1603-1620 | so does publishing the new roots |
| `StoreCommit.CoreAbort` | src/transactions.rs:1523-1548 | so does an abort of any transaction |
| `StoreCommit.CoreCrash` | src/db.rs:857-939 | so does reopening |
| `StoreSafety.RemembersRestore` | src/transactions.rs:1121-1160 | a savepoint older than the restored one still holds exactly the pages born before it that were not freed before it |
| `StoreSafety.RemembersReclaim` | src/transactions.rs:1868-1886 | what a non-durable commit reclaims is older than any allocation entry a savepoint could still need, and in no savepoint |
| `StoreSafety.RemembersPrepare` | src/transactions.rs:1437-1512 | writing the tables moves no page across a savepoint, and the allocation entries kept are births |
| `StoreSafety.SoundRestore` | src/transactions.rs:1089-1173 | restoring a registered savepoint is safe though the tracker may have forgotten others |
| `StoreSafety.SoundRestoreFails` | src/transactions.rs:1162-1170 | a restore that fails leaves a transaction that can be aborted safely |
| `StoreSafety.SoundAbort` | src/transactions.rs:1523-1548 | an abort is safe whatever it leaves unregistered |
| `StoreSafety.SoundCrash` | src/db.rs:857-939 | reopening registers every stored savepoint, forgotten or not, and is safe |
| `StoreExact.KeepMutate` | src/tree_store/page_store/page_manager.rs:932-944 | replacing data pages keeps the invariant when uncommitted pages are freed at once and committed ones queued |
| `StoreExact.KeepCreatePersistent` | src/transactions.rs:949-976 | storing a savepoint keeps the invariant |
| `StoreExact.KeepRestore` | src/transactions.rs:1089-1173 | restoring a valid savepoint keeps the invariant |
| `StoreProof.AccountRestore` | src/transactions.rs:1121-1160 | a restore moves pages between the tree, the freed table and the queue and doubles none; it loses none when every superseded page has an allocation entry |
| `StoreExact.RestorableRestore` | src/transactions.rs:1121-1160 | a savepoint older than the restored one stays restorable |
| `StoreCommit.FreedBeforeWatched` | src/transactions.rs:1550-1555 | an entry a durable commit frees was freed no later than any snapshot still referenced, so none of them can reach it |
| `StoreCommit.ReclaimedBefore` | src/transactions.rs:1626-1641 | an entry a non-durable commit looks at is no later than any referenced non-durable commit |
| `StoreExact.KeepPrepare` | src/transactions.rs:1437-1512 | writing the queued pages and the tracked allocations to their tables keeps the invariant |
| `StoreExact.KeepProcessDurable` | src/transactions.rs:1749-1787 | freeing everything up to the oldest referenced transaction keeps the invariant |
| `StoreExact.KeepProcessNonDurable` | src/transactions.rs:1868-1886 | freeing what no durable commit has reached keeps the invariant |
| `StoreExact.KeepCommit` | src/transactions.rs:1603-1620 | publishing the new roots, durable or not, keeps the invariant |
| `StoreExact.KeepFinish` | src/transactions.rs:1399-1407 | freeing superseded system pages and releasing deleted savepoints after the commit keeps the invariant |
| `StoreExact.KeepAbort` | src/transactions.rs:1523-1548 | an abort that leaves no stored savepoint unregistered keeps the exact invariant |
| `StoreExact.KeepCrash` | src/db.rs:857-939 | reopening from the last durable commit gives a state that satisfies the invariant |
| `StoreRestore.RestoreGivesBack` | src/transactions.rs:1089-1173 | while every stored savepoint is registered: the data tree is the savepoint's; exactly the pages of the tree or freed since that are not the savepoint's are queued, each once; exactly the later savepoints become invalid and none of them is of an older transaction |
| `StoreRestore.RestoreTakesNothingElse` | src/transactions.rs:1089-1173 | in any careful run: the data tree is the savepoint's and only superseded pages are queued, none of them the savepoint's |
| `StoreRestore.RestoreAccountsIff` | src/transactions.rs:1144-1160 | a restore keeps every page in exactly one place if and only if every superseded page has an allocation entry of a later transaction |
| `StoreRestore.RestoredAndCommitted` | src/transactions.rs:1089-1173 | once the restore is committed all its pages are in use and none is in a freed table |
| `StoreRestore.ReclaimsEverything` | src/transactions.rs:1550-1555 | with nothing referenced a durable commit reclaims every page freed by an earlier transaction |
| `StoreRestore.AbortKeepsRowsIff` | src/transactions.rs:1523-1548 | after an abort every stored savepoint is registered if and only if no savepoint was restored or no stored one is later than it |
| `StoreRestore.AbortedRestoreForgets` | src/transactions.rs:1162-1170 | a run in which savepoint 2 is stored, savepoint 1 is restored and the transaction aborted: 2 is still stored but no longer registered |
| `StoreRestore.ForgottenSavepointLeaks` | src/transactions.rs:1468-1512 | a stored savepoint that is not registered, one more committed page, a crash and the restore of that savepoint: the page is in use and in no tree, table or queue |
| `StoreTimeline.ForgottenSavepointLeaksInARun` | src/transactions.rs:1162-1170 | so some run of a new database, with an aborted restore, ends with a page in use and in no tree, table or queue |
| `StoreRestore.AttemptKeepsRowsIff` | src/transactions.rs:1162-1170 | after an attempt to restore every stored savepoint is registered if and only if the transaction is durable or no stored savepoint is later |
| `StoreRestore.HalfRestoreForgets` | src/transactions.rs:1010-1013 | a run in which savepoint 2 is stored and a non-durable transaction tries to restore savepoint 1: the error comes after the restore, and 2 stays stored but not registered whether the transaction is aborted or committed |
| `StoreTimeline.CommittedHalfRestoreLoses` | src/transactions.rs:1162-1170 | from every state with two stored savepoints, the earlier holding a page the later does not: committing a failed restore of the earlier, reopening, and restoring the later leads to a state in which the earlier is still stored and that page is free |
| `StoreTimeline.HalfRestoreLosesInARun` | src/transactions.rs:1162-1170 | so some run of a new database, no reference missing in any of its states, ends with a stored savepoint one of whose pages is not in use |
| `StoreTimeline.OtherTimelineLoses` | src/transactions.rs:1121-1160 | restoring a savepoint of another timeline drops the pages that only that timeline and earlier savepoints hold |
| `Tracker.TrackerState.OldestLiveRead` | src/transaction_tracker.rs:276-286 | the least referenced transaction, None exactly when there is none |
| `Tracker.TrackerState.OldestLiveReadNonDurable` | src/transaction_tracker.rs:288-296 | the least referenced transaction that is a pending non-durable commit |
| `Tracker.TrackerState.OldestSavepoint` | src/transaction_tracker.rs:267-274 | the transaction of the savepoint with the lowest id |
| `Tracker.ReleaseAllRefs` | src/transaction_tracker.rs:136-149 | giving back one reference for each entry of a map lowers every count by the number of entries for it |
| `Tracker.SameRefs` | src/transaction_tracker.rs:220-227 | the counts determine the map they are kept in |
| `Tracker.TransactionTracker.ClearPendingNonDurableCommits` | src/transaction_tracker.rs:136-149 | the loop gives back exactly one reference for each pending commit, in whatever order |
| `Tracker.TransactionTracker.RegisterNonDurableCommit` | src/transaction_tracker.rs:170-185 | the commit is pending and unprocessed and its durable ancestor has one reference more |
| `Tracker.TransactionTracker.DeallocateReadTransaction` | src/transaction_tracker.rs:220-227 | one reference less, and no entry once none is left |
| `Tracker.TransactionTracker.DeallocateSavepoint` | src/transaction_tracker.rs:242-249 | the savepoint goes, with the reference it holds |
| `Tracker.TransactionTracker.AcquireRead` | src/transaction_tracker.rs:205-218 | one reference more on the transaction |
| `Tracker.TransactionTracker.RegisterPersistentSavepoint` | src/transaction_tracker.rs:193-203 | the savepoint is valid and holds one reference |
| `FreedTables.StorePages` | src/transactions.rs:1437-1466 | the chunked table lists the old entries and each given page once under the transaction, in chunks without a gap and no longer than the chunk size |
| `FreedTables.ProcessFreed` | src/transactions.rs:1749-1787 | exactly the pages of earlier transactions are freed, each once, and exactly their entries go |
| `FreedTables.ReclaimChunk` | src/transactions.rs:1828-1853 | the pages of one chunk no durable commit has reached are freed and leave the table, nothing else |
| `FreedTables.ReclaimTransaction` | src/transactions.rs:1822-1857 | the same over all chunks of a transaction, up to the first missing pagination id |
| `FreedTables.ProcessFreedNonDurable` | src/transactions.rs:1789-1860 | the loops free exactly the reclaimable entries, whatever transaction is met more than once, and leave the chunks of every transaction still unprocessed without a gap |
| `FreedTables.SweepAll` | src/transactions.rs:1822-1857 | sweeping a list of transactions frees exactly their reclaimable entries, however often each is named |
| `FreedTables.QueueAllocatedSince` | src/transactions.rs:1144-1160 | every page of a later allocation entry is queued, each once, after what was queued; the queue is without repeats if and only if it was before and held none of those pages |
| `FreedTables.QueueTwice` | src/transactions.rs:1144-1160 | after two restores in one transaction, the second to the same or an older savepoint, the queue is without repeats if and only if nothing was allocated after the first |
| `FreedTables.QueuedTwice` | src/transactions.rs:1144-1160 | a concrete page queued twice |
| `FreedTables.StoreSystemFreed` | src/transactions.rs:1888-1930 | superseded system pages are stored, except those no durable commit has reached, which are set aside |
| `FreedTables.Memory.FreeIfUnpersisted` | src/tree_store/page_store/page_manager.rs:918-930 | a page is freed if and only if no durable commit has reached it |
| `FreedTables.Memory.FreeAll` | src/transactions.rs:1763-1766 | every page of a chunk is freed, each once |
| `FreedTables.Memory.FreeUnpersisted` | src/transactions.rs:1832-1841 | the pages a durable commit has reached are kept in their order, the others freed |
| `FreedTables.Candidates` | src/transactions.rs:1811-1821 | exactly the unprocessed transactions with an entry before the limit |
| `Header.CrashRecovers` | src/tree_store/page_store/header.rs:199-237 | at every moment of a commit, whatever subset of the unflushed writes reached the disk and however the slots are torn, opening finds the last commit or the one in flight |
| `HeaderRuns.StepSafe` | src/tree_store/page_store/page_manager.rs:597-673 | no step of a commit or of an opening, a crash in either included, ends in an unusable file, loses the last commit or mixes two |
| `HeaderRuns.RunSafe` | src/tree_store/page_store/page_manager.rs:597-673 | the same over any history of one- and two-phase commits, openings, and crashes in the middle of either |
| `HeaderRuns.OpensToWhatWasThere` | src/db.rs:877-910 | however often opening is interrupted by crashes, the commit it gives in the end has the trees of the last commit or of the one in flight before the first crash |
| `HeaderRuns.CrashWhileOpening` | src/db.rs:877-910 | a crash at any step of an opening (header rewritten, chosen, marked clean, committed again, switched, armed) leaves a file that opens to one of the commits that were there |
| `HeaderRuns.RewriteSafeIff` | src/tree_store/page_store/page_manager.rs:254-260 | a crash while the header is rewritten is harmless if and only if the content of the torn slot is one of the commits that were there, does not verify, or is not newer |
| `HeaderRuns.TornSlotRevived` | src/tree_store/page_store/page_manager.rs:254-260 | a concrete history: one-phase commit 6 is torn, opening picks 5 and seals the torn slot, and after a second crash the next opening takes a commit that never was |
| `HeaderRuns.CleanHeaderSafe` | src/tree_store/page_store/page_manager.rs:414-422 | once the repaired header is marked clean, a crash at any moment of the commit that follows, its swap and the arming included, opens to the same trees |
| `HeaderRuns.CrashFound` | src/tree_store/page_store/header.rs:199-237 | every crash of a commit leaves a file on which an opening may start |
| `HeaderRuns.NewDatabaseHolds` | src/tree_store/page_store/page_manager.rs:216-232 | a new database is a state such a history may start from |
| `HeaderRuns.Recover` | src/db.rs:877-910 | the code of an opening ends with the chosen commit primary, the header armed and on disk, and each state between two writes is one of the steps above |
| `HeaderRuns.ReadHeader` | src/tree_store/page_store/page_manager.rs:234-260 | a slot is chosen and the header written back unless it was clean |
| `HeaderRuns.CommitAgain` | src/db.rs:898-906 | the verified roots are committed again in two phases while the header is clean |
| `Header.OnePhaseSafeIff` | src/tree_store/page_store/page_manager.rs:623-643 | a one-phase commit survives every crash if and only if the slot it overwrites is older than the primary, equal to it, or the new commit itself |
| `Header.SecondCrashIff` | src/tree_store/page_store/page_manager.rs:254-260 | a header rewritten on opening reopens to the same commit if and only if the other slot is not newer or its trees do not verify |
| `Header.TornSlotComesBack` | src/tree_store/page_store/page_manager.rs:254-260 | a concrete history: a torn slot is sealed with a fresh checksum when the file is opened and is taken for the newest commit after the next crash |
| `Header.DatabaseHeader.SwapPrimarySlot` | src/tree_store/page_store/header.rs:191-193 | primary and secondary change places, the flags stay |
| `Header.DatabaseHeader.PickPrimaryForRepair` | src/tree_store/page_store/header.rs:199-237 | the slot picked is the specified one; on an error nothing is changed |
| `Header.TransactionalMemory.CommitInner` | src/tree_store/page_store/page_manager.rs:597-673 | the new commit is primary and on disk, the old one secondary, and each state between two writes is safe against a crash |
| `Header.TransactionalMemory.DoRepair` | src/db.rs:769-847 | falls back to the other slot when the trees of the primary do not verify, and never after a two-phase commit |
| `Btree.BtreeMut.Insert` | src/tree_store/btree_mutator.rs:157-217 | binds the key, returns the old value, keeps the tree well formed and its length exact, accounts for every page once, and writes no page that was committed |
| `Btree.BtreeMut.Delete` | src/tree_store/btree_mutator.rs:111-155 | removes the key, returns its value, and keeps all the same; an absent key changes nothing at all |
| `Btree.BtreeMut.Get` | src/tree_store/btree.rs:862-891 | finds what the list of entries binds the key to |
| `BtreeSpec.LookupUpsert` | src/tree_store/btree_mutator.rs:157-217 | after an upsert or a removal every key is bound as the map update or removal says |
| `BtreeSpec.LookupHolds` | src/tree_store/btree.rs:871-891 | in a sorted list the value found is the one the key is bound to |
| `BtreeSpec.EditLength` | src/tree_store/btree_mutator.rs:178-205 | the number of entries changes by one exactly when the key was absent or present |
| `BtreeSpec.TreeSorted` | src/tree_store/btree_base.rs:462-484 | a well-formed tree lists its entries in strict key order |
| `BtreeInsert.InsertHelper` | src/tree_store/btree_mutator.rs:219-524 | insertion below a node gives one or two well-formed trees of the same height within the same bounds, with every page accounted for |
| `BtreeInsert.InsertLeaf` | src/tree_store/btree_mutator.rs:228-419 | the same for a leaf, in place, rebuilt, split, or beside a single large value |
| `BtreeInsert.BuildLeaves` | src/tree_store/btree_base.rs:684-744 | one leaf or two side by side, two exactly when the pairs are too many bytes |
| `BtreeInsert.BuildBranches` | src/tree_store/btree_base.rs:1463-1521 | one branch or two side by side over the same children |
| `BtreeDelete.DeleteHelper` | src/tree_store/btree_mutator.rs:987-999 | deletion below a node removes the key and nothing else, and says what is left to its parent |
| `BtreeDelete.DeleteLeaf` | src/tree_store/btree_mutator.rs:570-654 | the same for a leaf: unchanged, gone, too small, or rebuilt |
| `BtreeDelete.DeleteBranch` | src/tree_store/btree_mutator.rs:678-985 | the same for a branch, with the child replaced, taken out, or merged with a sibling |
| `BtreeDelete.MergeLeaf` | src/tree_store/btree_mutator.rs:754-852 | a leaf too small is merged with its sibling and split again if needed; entries, bounds and pages are kept |
| `BtreeDelete.MergeBranch` | src/tree_store/btree_mutator.rs:853-975 | the same for a branch or for the one child left of it |
| `BtreeDelete.FinalizeBranch` | src/tree_store/btree_mutator.rs:656-676 | a lone child replaces the branch; otherwise a new branch holds the same children and is partial exactly when it is under a third of a page |
| `BtreeNodes.Position` | src/tree_store/btree_base.rs:462-484 | the binary search splits the leaf at the key |
| `BtreeNodes.ChildForKey` | src/tree_store/btree_base.rs:1284-1304 | the binary search finds the one child that can hold the key |
| `BtreeNodes.SplitPoint` | src/tree_store/btree_base.rs:694-708 | the shortest proper prefix with half of the bytes, or all pairs but the last |
| `BtreeNodes.ReplaceMerged` | src/tree_store/btree_mutator.rs:797-841 | children and separators with two neighbours replaced by one or two trees |
| `BtreeNodes.ReplaceChild` | src/tree_store/btree_mutator.rs:449-490 | children and separators with one child replaced by one or two trees |
| `BtreeNodes.RemoveChild` | src/tree_store/btree_mutator.rs:730-753 | children and separators without one child |
| `BtreeInsert.InsertBranch` | src/tree_store/btree_mutator.rs:420-520 | insertion through a branch, which is updated in place, rebuilt or split |
| `BtreeInsert.InsertBeside` | src/tree_store/btree_mutator.rs:232-272 | beside a single large value the new pair gets a leaf of its own and the old leaf is untouched |
| `BtreeDelete.RebuildBesideLarge` | src/tree_store/btree_mutator.rs:773-795 | next to a single large value nothing is merged |
| `BtreeDelete.ReplaceSubtree` | src/tree_store/btree_mutator.rs:693-715 | the branch with its child replaced, in place or copied |
| `Btree.GetHelper` | src/tree_store/btree.rs:871-891 | descends to the one leaf that can hold the key |
| `BtreePages.PageManager.Allocate` | src/tree_store/page_store/page_manager.rs:1135-1145 | a page that was not in use, with room for the bytes |
| `BtreePages.PageManager.ConditionalFree` | src/tree_store/btree_mutator.rs:100-109 | freed at once if it was never committed and may be modified, otherwise queued |
| `Layers.EditIsMutate` | src/tree_store/btree_mutator.rs:100-109 | what an edit of one tree does to pages is the data-tree step of the page-lifetime protocol, set for set |
| `Layers.EditKeepsProtocol` | src/tree_store/btree_mutator.rs:100-109 | so every such edit keeps what every run of the protocol keeps, the invariant of births, and the exact invariant where it holds |
| `Layers.SameSize` | src/tree_store/btree_base.rs:635-642 | the size the tree computes for a leaf is the length of its byte layout |
| `Layers.SameSpaceTest` | src/tree_store/btree_base.rs:960-993 | the tree decides for an edit in place exactly when the byte-level test does |
| `BtreeRangeIter.BtreeRangeIter.constructor` | src/tree_store/btree_iters.rs:394-477 | what remains at first is exactly the entries within the bounds, for every kind of bound |
| `BtreeRangeIter.BtreeRangeIter.Next` | src/tree_store/btree_iters.rs:488-547 | takes the first remaining entry; once exhausted it stays so |
| `BtreeRangeIter.BtreeRangeIter.NextBack` | src/tree_store/btree_iters.rs:549-606 | takes the last remaining entry; once exhausted it stays so |
| `BtreeRangeIter.BtreeRangeIter.Interleave` | src/tree_store/btree_iters.rs:488-606 | for every sequence of calls from both ends, what came from the front, what remains and what came from the back reversed make up the range |
| `BtreeRangeIter.SelectedIs` | src/tree_store/btree_iters.rs:371-392 | the entries selected by two bounds are the slice between the two cuts |
| `BtreeIter.ForwardNext` | src/tree_store/btree_iters.rs:41-125 | a step forward from a cursor before entry x of the whole tree stands before the next one |
| `BtreeIter.BackwardNext` | src/tree_store/btree_iters.rs:41-125 | a step backward likewise |
| `BtreeLocate.SamePage` | src/tree_store/btree_iters.rs:489-506 | two entries on one page are as far apart there as in the tree, which is what the end test of the iterator compares |
| `BtreeRange.FindLeft` | src/tree_store/btree_iters.rs:655-701 | the search for a lower bound ends where the entries split at it |
| `BtreeRange.FindRight` | src/tree_store/btree_iters.rs:703-749 | the search for an upper bound likewise |
| `BtreeRange.FindFirst` | src/tree_store/btree_iters.rs:609-653 | a cursor before the first entry |
| `BtreeRange.FindLast` | src/tree_store/btree_iters.rs:609-653 | a cursor after the last entry |
| `BtreeRange.LandingMonotone` | src/tree_store/btree_iters.rs:703-749 | a later key lands no earlier, so the two cursors do not cross |
| `BtreeExtract.BtreeExtractIf.Next` | src/tree_store/btree_iters.rs:290-317 | the next wanted entry is removed from the tree and no page of the snapshot being iterated is written |
| `BtreeExtract.BtreeExtractIf.NextBack` | src/tree_store/btree_iters.rs:319-346 | the same from the back |
| `BtreeExtract.BtreeExtractIf.Erase` | src/tree_store/btree_mutator.rs:82-98 | deletes an entry known to be there through a mutator that changes no page of the snapshot |
| `BtreeExtract.RetainIn` | src/tree_store/btree.rs:641-674 | afterwards a key is bound to its old value if it is outside the range or kept, and unbound otherwise; no node of the old tree is overwritten, no committed page is released, and only committed pages are queued |
| `BtreeExtract.PurgedMeans` | src/tree_store/btree.rs:659-664 | deleting the unwanted entries of a range one by one is the filtered map, key by key |
| `BtreeExtract.Adopt` | src/tree_store/btree.rs:665-671 | each superseded page is freed at once if it never was committed and queued otherwise, and what belongs to others is left alone |
| `BtreeExtract.Extract` | src/tree_store/btree.rs:613-639 | an extraction starts from exactly the entries of the range, on a copy that modifies no page of the tree |
| `BtreeExtract.Close` | src/tree_store/btree_iters.rs:345-358 | when it ends the tree is what was left, no node of the old tree has been overwritten, and each superseded page is freed or queued once |
| `LeafEditor.Insert` | src/tree_store/btree_base.rs:996-1126 | the page that held the list holds, byte for byte, the layout of the list with the pair put in, for every mix of fixed and variable widths |
| `LeafOverwrite.Overwrite` | src/tree_store/btree_base.rs:996-1126 | the same with the value replaced, whether it grows or shrinks |
| `LeafRemove.Remove` | src/tree_store/btree_base.rs:1128-1206 | the same with the pair taken out |
| `LeafBuilder.Build` | src/tree_store/btree_base.rs:746-765 | a page built pair by pair holds the list |
| `LeafBuilder.RawLeafBuilder.Append` | src/tree_store/btree_base.rs:884-925 | the pairs written so far and the one appended are in place |
| `LeafBuilder.RawLeafBuilder.Finished` | src/tree_store/btree_base.rs:928-938 | once all pairs are appended and the key bytes are as announced, the page holds them |
| `LeafBuilder.RawLeafBuilder.constructor` | src/tree_store/btree_base.rs:812-843 | type and count are written and no pair yet |
| `LeafEditor.StartsRead` | src/tree_store/btree_base.rs:503-556 | the accessor finds where a pair starts and where the last one ends |
| `LeafBuilder.OneList` | src/tree_store/btree_base.rs:491-560 | a page holds one list at most, so an edited page decodes as a rebuilt one does |
| `LeafOverwrite.EntryRead` | src/tree_store/btree_base.rs:603-617 | the ranges the accessor computes are the bytes of the key and of the value |
| `LeafLayout.EndsRead` | src/tree_store/btree_base.rs:503-556 | the end offsets read back are where each key and value ends |
| `LeafEditor.UpdateTable` | src/tree_store/btree_base.rs:1208-1240 | one end offset moves by the given delta, and no other byte changes |
| `LeafEditor.OpenGaps` | src/tree_store/btree_base.rs:1065-1125 | the four right-to-left moves open four gaps and lose nothing |
| `LeafRemove.CloseGaps` | src/tree_store/btree_base.rs:1161-1205 | the four left-to-right moves close four gaps |
| `LeafOverwrite.SpaceExact` | src/tree_store/btree_base.rs:960-993 | the test for space is true if and only if the layout of the edited list fits the page, but for the rule that a large page only takes appends |
| `EncryptedPage.LeafComesBack` | src/tree_store/page_store/file_backend/encrypted.rs:315-357 | a one-page leaf written and read back is its first 4068 bytes and zeros |
| `EncryptedPage.LeafSurvivesIff` | src/tree_store/page_store/file_backend/encrypted.rs:315-357 | a leaf of any size written and read back holds the same pairs if and only if the bytes of their layout between offsets 4068 and 4096 are zero and, for a leaf longer than a block, what the old file shows after the first block is the rest of the layout |
| `EncryptedPage.LargeLeafComesBack` | src/tree_store/page_store/file_backend/encrypted.rs:315-357 | a leaf longer than a block comes back as its first 4068 bytes, zeros, and whatever the file held after that block, read block by block |
| `EncryptedPage.LostLargeLeaf` | src/tree_store/page_store/file_backend/encrypted.rs:327-336 | a concrete leaf on two pages whose second page is lost |
| `EncryptedPage.OnlyThePrefixIsStored` | src/tree_store/page_store/file_backend/encrypted.rs:327-336 | two leaves of any size that agree on the first 4068 bytes are stored as the same bytes |
| `EncryptedPage.AcceptedAndLost` | src/tree_store/btree_base.rs:979-992 | the in-place test admits every insertion that fits 4096 bytes; with a last byte that is not zero the pairs survive if and only if the layout is at most 4068 bytes |
| `EncryptedPage.LostLeaf` | src/tree_store/page_store/file_backend/encrypted.rs:327-336 | two concrete pairs that the test admits and that do not survive |
| `EncryptedPage.OtherPageComesBack` | src/tree_store/page_store/file_backend/encrypted.rs:422-460 | a page of another type comes back whole when no 4096-byte piece of it starts with the leaf type |
| `EncryptedPage.EncryptedFileBackend.EncryptAndWrite` | src/tree_store/page_store/file_backend/encrypted.rs:315-357 | exactly the stored form is written at the offset |
| `EncryptedPage.EncryptedFileBackend.ReadAndDecrypt` | src/tree_store/page_store/file_backend/encrypted.rs:359-465 | the buffer gets what the specification reads back, for buffers shorter than, equal to or longer than a page |
| `Multimap.MultimapTable.Insert` | src/multimap_table.rs:1005-1168 | the set of pairs gains exactly the given one, the result says whether it was there, the count is exact and pages are accounted for |
| `Multimap.MultimapTable.Remove` | src/multimap_table.rs:1173-1302 | the set of pairs loses exactly the given one; likewise |
| `Multimap.MultimapTable.RemoveAll` | src/multimap_table.rs:1307-1345 | the key goes with all its values, and every page of its subtree is released |
| `Multimap.AddTo` | src/multimap_table.rs:1028-1122 | an inline set stays inline exactly while it is under half a page and becomes a subtree otherwise; the set gains exactly the value |
| `Multimap.Convert` | src/multimap_table.rs:1078-1103 | the inline leaf becomes the root of a tree, nothing is lost, and the result is a subtree |
| `Multimap.RemoveFrom` | src/multimap_table.rs:1185-1293 | the set loses exactly the value; the last value leaves no collection, and what is left of a subtree is inline exactly if it is one small leaf |
| `Multimap.RemoveFromTree` | src/multimap_table.rs:1233-1293 | a subtree reduced to one small leaf is inlined again and its page released, any other stays a subtree |
| `Multimap.First` | src/multimap_table.rs:1124-1161 | the first value of a key, inline or as a tree by its size |
| `Multimap.FreeTree` | src/multimap_table.rs:1309-1324 | every page of a subtree is released once |
| `Multimap.CountsPairs` | src/multimap_table.rs:1370-1373 | the count is the number of pairs, and no key is without a value |
| `PageCache.PagedCachedFile.Read` | src/tree_store/page_store/cached_file.rs:328-383 | returns the bytes last written there, through whichever cache, and keeps the byte counter exact |
| `PageCache.PagedCachedFile.Write` | src/tree_store/page_store/cached_file.rs:419-483 | lends zeros if the page is to be overwritten and neither cache holds it, and the bytes readers see otherwise, evicting without changing what readers see |
| `PageCache.PagedCachedFile.WriteTwice` | src/tree_store/page_store/cached_file.rs:419-483 | a page asked for to be overwritten, given back with any bytes and asked for to be overwritten again comes with those bytes |
| `PageCache.PagedCachedFile.Return` | src/tree_store/page_store/cached_file.rs:27-34 | readers see the returned bytes at that place and the old ones elsewhere |
| `PageCache.PagedCachedFile.FlushWriteBuffer` | src/tree_store/page_store/cached_file.rs:266-296 | the file is what readers see, the buffer is empty |
| `PageCache.PagedCachedFile.CancelPendingWrite` | src/tree_store/page_store/cached_file.rs:386-392 | readers see the file again at that place |
| `PageCache.PagedCachedFile.MakeRoom` | src/tree_store/page_store/cached_file.rs:364-380 | eviction ends, and either enough bytes are gone or the stripe is empty |
| `PageCache.PagedCachedFile.FlushSome` | src/tree_store/page_store/cached_file.rs:445-467 | pages written back leave the buffer and the view alone |
| `PageCache.PagedCachedFile.InvalidateCacheAll` | src/tree_store/page_store/cached_file.rs:407-415 | the read cache is empty and its counter zero |
| `PageCache.PagedCachedFile.InvalidateCache` | src/tree_store/page_store/cached_file.rs:397-405 | the page is no longer cached |
| `PageCache.PagedCachedFile.constructor` | src/tree_store/page_store/cached_file.rs:212-238 | an empty cache shows the file |
| `PageCache.PagedCachedFile.Resize` | src/tree_store/page_store/cached_file.rs:299-304 | the view is cut off or extended with zeros |
| `PageCache.PopWritable` | src/tree_store/page_store/cached_file.rs:90-104 | a page that is lent out is never evicted; with no page to evict nothing is lost |
| `Lru.PopMeaning` | src/tree_store/page_store/lru_cache.rs:80-95 | eviction takes out one cached entry, and finds none only when nothing is cached |
| `Lru.LRUCache.PopLowestPriority` | src/tree_store/page_store/lru_cache.rs:80-95 | the loop ends and evicts the first queued entry without a second chance |
| `Lru.LRUCache.Remove` | src/tree_store/page_store/lru_cache.rs:35-52 | the entry goes, every other stays queued |
| `Lru.LRUCache.Insert` | src/tree_store/page_store/lru_cache.rs:24-34 | the entry is cached and queued, the replaced value returned |
| `Lru.LRUCache.Get` | src/tree_store/page_store/lru_cache.rs:54-61 | the cached value, which gets its second chance |
| `Lru.LRUCache.Clear` | src/tree_store/page_store/lru_cache.rs:97-102 | nothing is cached |
| `Lru.ApplyValid` | src/tree_store/page_store/lru_cache.rs:24-95 | through any run of insertions, removals, uses and evictions every cached key stays queued |
| `Lru.RemoveShortensIff` | src/tree_store/page_store/lru_cache.rs:35-52 | a removal shortens the queue if and only if the queue is over twice the cache and one of its two front elements is stale |
| `Lru.QueueGrows` | src/tree_store/page_store/lru_cache.rs:37-47 | with three keys cached, some run of removals and insertions makes the queue longer than any given number |
| `Lru.QueueGrowsFromNothing` | src/tree_store/page_store/lru_cache.rs:37-47 | the same from an empty cache |
| `Lru.TwoKeysBounded` | src/tree_store/page_store/lru_cache.rs:24-61 | through any run without evictions, with at most two keys cached at a time, the queue has at most four elements |
| `Lru.TwoKeysGrowFromNothing` | src/tree_store/page_store/lru_cache.rs:24-95 | with evictions two keys cached at a time are enough: some run from an empty cache makes the queue longer than any given number |
| `Lru.OneKeyBounded` | src/tree_store/page_store/lru_cache.rs:24-95 | through any run, evictions included, with at most one key cached at a time, nothing but that key is queued |
| `BuddySpace.Canonical` | src/tree_store/page_store/buddy_allocator.rs:278-316 | two valid indexes with the same free pages agree on every bit |
| `BuddyAllocator.SameFreePagesSameState` | src/db.rs:535-549 | the same of two allocators, as the integrity check relies on |
| `BuddyAllocator.RebuildInAnyOrder` | src/db.rs:535-549 | recording the same blocks in any order gives the same bits |
| `BuddyAllocator.RecordAll` | src/tree_store/page_store/page_manager.rs:396-403 | recording a list of disjoint blocks removes exactly their pages |
| `BuddyAllocator.BuddyAllocator.FreeInner` | src/tree_store/page_store/buddy_allocator.rs:416-432 | the index stays canonical and gains exactly the pages of the block |
| `BuddyAllocator.BuddyAllocator.RecordAllocInner` | src/tree_store/page_store/buddy_allocator.rs:388-407 | the index loses exactly the pages of the block |
| `BuddyAllocator.BuddyAllocator.AllocInner` | src/tree_store/page_store/buddy_allocator.rs:361-380 | a wholly free block is taken, the lowest of the lowest order that serves; None exactly when there is no free block of the order |
| `BuddyAllocator.BuddyAllocator.AllocLowest` | src/tree_store/page_store/buddy_allocator.rs:320-355 | the free block of the order with the lowest address, through all trial allocations; None exactly when there is none |
| `BuddyAllocator.BuddyAllocator.TrailingFreePages` | src/tree_store/page_store/buddy_allocator.rs:168-184 | the length of the longest free tail |
| `BuddyAllocator.BuddyAllocator.FindFreeOrder` | src/tree_store/page_store/buddy_allocator.rs:158-166 | finds an order exactly when the page is free |
| `BuddyAllocator.BuddyAllocator.CountFreePages` | src/tree_store/page_store/buddy_allocator.rs:146-152 | the number of free pages |
| `BuddyAllocator.BuddyAllocator.HighestFreeOrder` | src/tree_store/page_store/buddy_allocator.rs:136-140 | an order with a recorded block, and no larger block is free |
| `BuddyAllocator.BuddyAllocator.Grow` | src/tree_store/page_store/buddy_allocator.rs:209-239 | the added pages are free and the index canonical |
| `BuddyAllocator.BuddyAllocator.Shrink` | src/tree_store/page_store/buddy_allocator.rs:240-275 | the dropped pages go and no other |
| `BuddyAllocator.BuddyAllocator.constructor` | src/tree_store/page_store/buddy_allocator.rs:37-67 | all pages free, canonical |
| `BuddyAllocator.FreeUndoesAlloc` | src/tree_store/page_store/buddy_allocator.rs:357-432 | freeing a block just allocated restores every bit |
| `Bitmap.BtreeBitmap.FindFirstUnset` | src/tree_store/page_store/bitmap.rs:35-52 | the least clear bit of all, at any height |
| `Bitmap.BtreeBitmap.UpdateToRoot` | src/tree_store/page_store/bitmap.rs:170-191 | one stale bit is brought up to date on every level, and the bits below stay |
| `Bitmap.BtreeBitmap.Set` | src/tree_store/page_store/bitmap.rs:153-156 | exactly the bit is set and the summaries are right |
| `Bitmap.BtreeBitmap.Clear` | src/tree_store/page_store/bitmap.rs:158-161 | exactly the bit is cleared and the summaries are right |
| `Bitmap.BtreeBitmap.Alloc` | src/tree_store/page_store/bitmap.rs:147-151 | the least clear bit is returned and set |
| `Bitmap.BtreeBitmap.Resize` | src/tree_store/page_store/bitmap.rs:138-145 | the clear bits stay, new bits are set, the summaries are right |
| `Bitmap.BtreeBitmap.constructor` | src/tree_store/page_store/bitmap.rs:119-136 | all bits set on every level |
| `Bitmap.FirstUnset` | src/tree_store/page_store/bitmap.rs:277-291 | the first clear bit of a group |
| `Bitmap.BtreeBitmap.Get` | src/tree_store/page_store/bitmap.rs:27-29 | true exactly when the bit is set |
| `BitmapCodec.ToVec` | src/tree_store/page_store/bitmap.rs:71-91 | the bytes encode every level behind the table of ends |
| `BitmapCodec.FromVec` | src/tree_store/page_store/bitmap.rs:93-117 | what is read back is every level, less its reserve words |
| `BitmapCodec.Reloaded` | src/tree_store/page_store/bitmap.rs:71-117 | the bitmap read back is a summary bitmap with the same bits |
| `BitmapCodec.LevelRead` | src/tree_store/page_store/bitmap.rs:234-259 | one level read back is the level without its reserve words |
| `Regions.Allocators.Allocate` | src/tree_store/page_store/page_manager.rs:954-1023 | a block of any order up to the maximum is always found, growing the file if need be; it was free or is new, it is free no longer, and no other page changes |
| `Regions.Allocators.Retry` | src/tree_store/page_store/page_manager.rs:1025-1053 | the loop ends; a block found is taken from a region that exists, and None means that no region the tracker named had one |
| `Regions.Allocators.Grow` | src/tree_store/page_store/page_manager.rs:1085-1133 | afterwards a region the tracker names holds an aligned free block of the order |
| `Regions.NextLayout` | src/tree_store/page_store/page_manager.rs:1085-1120 | with a power-of-two capacity the new layout keeps what there is and has room for an aligned block |
| `Regions.TailHoldsBlock` | src/tree_store/page_store/page_manager.rs:1085-1120 | a free tail long enough, or cut at a multiple of the block size, holds an aligned block |
| `Regions.Allocators.GrowTo` | src/tree_store/page_store/region.rs:139-202 | the regions are those of the new layout, old pages keep their state and new ones are free and named |
| `Regions.Allocators.TryShrink` | src/tree_store/page_store/page_manager.rs:1055-1083 | only free pages at the end are given up |
| `Regions.Allocators.constructor` | src/tree_store/page_store/region.rs:108-127 | a region for each of the layout, all free |
| `Regions.Allocators.AddRegion` | src/tree_store/page_store/region.rs:187-199 | one region more, all free, and named for what it holds |
| `Regions.RegionTracker.Resize` | src/tree_store/page_store/region.rs:91-95 | room for more regions, none of them named |
| `Regions.Allocators.ReduceLast` | src/tree_store/page_store/layout.rs:94-112 | the last region is shorter by the given pages |
| `Regions.RegionTracker.MarkFree` | src/tree_store/page_store/region.rs:76-81 | the region is named for this order and every lower one |
| `Regions.RegionTracker.MarkFull` | src/tree_store/page_store/region.rs:83-89 | the region is struck out for this order and every higher one |
| `Regions.RegionTracker.FindFree` | src/tree_store/page_store/region.rs:72-74 | the lowest region named for the order, None exactly when there is none |

## Left out

- AES-GCM, key derivation, passwords and salts: the cipher is a pair of functions with a round trip.
- Checksums are ideal: a torn slot is noticed, and a tree verifies exactly when its pages are there.
- I/O errors, file locks, read-only opening and the other file backends.
- Threads: every lock-protected operation is one step, and beginning a read takes id and root in one step.
- Keys are their ranks in a total order whose equality is equality of bytes; value codecs, type names and the table catalogue are not modelled.
- Errors for keys and values that are too long.
- Branch pages and the header as bytes; only leaf pages are modelled byte by byte.
- In-place value guards (get_mut, insert_reserve), statistics, compaction and page relocation.
- Saving and loading the allocator state for quick repair, beyond what it means for the choice of slot.
- Iterating over the values of a multimap, and the multimap's own outer tree as pages: the table is the map that the B-tree is shown to refine.
- LeafEditor.Insert: asks for fewer than 65535 pairs and a layout below four gigabytes, which the two- and four-byte fields need and the code does not establish for repeated appends to large pages.
- Regions.Allocators.Retry: does not say that None means no region has space, because the tracker is a hint and freeing marks only the order of the freed block.
- Regions.Allocators.Allocate: asks for a power-of-two region capacity, as the default layout has.
- Bitmap.BtreeBitmap.Resize: only with new bits set, the one way it is called, and a shrink only of bits that are set.
- EncryptedPage.OtherPageComesBack: one direction only; a piece that does start with the leaf type is decrypted, and what an arbitrary cipher makes of it is not determined.
- PageCache.PagedCachedFile.FlushWriteBuffer: the file under the cache is taken to give back the bytes written to it, which `EncryptedPage` qualifies for leaf pages.
- PageCache.PagedCachedFile.Read: no clean-hinted read of a buffered page and no read of a page that is lent out or overlaps another one, as its callers promise.
- PageCache.PopWritable: does not say that some page is found whenever one could be evicted; an entry with a second chance may be passed over.
- StoreTheorems.RunSound: at most one attempt to restore for each write transaction, before any table is opened.
- HeaderRuns.RunSafe: while a file is being opened the same trees verify after each crash, because no page is written then.
- HeaderRuns.StepSafe: an opening picks a slot and rewrites the header only when recovery is required; the code also does so when the length of the file differs from the layout.

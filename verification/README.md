# A verified model of the FUSE library core

This project models the parts of a FUSE user-space library (the C sources under `lib/`) in which
several functions, lists, counters and locks have to agree, and proves what they keep over every
run. `dafny verify dfyconfig.toml` checks all of it.

## What is modelled

* **Path locks and the node cache** (`lib/fuse.c`). A call that needs a path read-locks every
  directory from its own up to the root and may write-lock one child; nothing in the C state says
  who holds what, only an integer per node. The modules `NodeTree`, `TreeLock`, `NodeLife`,
  `PathLock`, `NodeOps`, `TreeOps` and `PathQueue` give the meaning of that integer, of the
  reference counts and of the wait queue; `Machine` makes every critical section of `f->lock` one
  step of a machine; `QueueSafety`, `MachineRuns`, `Theorems`, `QueueTheorems`, `Awake`, `Answers`,
  `Lookups`, `LostLocks`, `LostLockRun` and `PathTheorems` prove what holds in every run. `Fuse` is
  the same code as an object updated in place, loop by loop, and each of its methods is proved to be
  exactly one step of the machine.
* **Path strings and node numbers** (`PathText`, `NodeIds`, `Handles`).
* **The two linear hash tables** (`LinearTable`) and **the slab allocator** (`Slab`).
* **Record locks** (`RecordLocks`).
* **Requests and interrupts** of `lib/fuse_lowlevel.c` (`Interrupts`, `Marking`, `LateCalls`,
  `Session`).
* **Directory streams** (`DirStream`).
* **Scatter/gather copying** of `lib/buffer.c` (`BufCopy`, with `Memcpy`).
* **Option strings, templates and argument vectors** of `lib/fuse_opt.c` (`Options`,
  `OptionTable`, `Templates`, `ParseTwice`, `ParseStable`, `ParseExamples`, `OptionParser`).

Concurrency is modelled by interleaving critical sections: the lock is held throughout a step, and
between two steps anything that is enabled may happen. Failing allocations are non-deterministic
(`enough`) in the methods and a parameter (`oom`) in the specifications. How far each read or
write gets in `BufCopy` is a script of answers, and everything is proved for every script.

## What the kernel and the request handlers are taken to promise

These are the conditions in `Machine.Enabled` and `Interrupts.Enabled`:

* A call names a directory that the kernel has looked up and not forgotten, or that the call has
  pinned; while the call waits in the queue the kernel does not forget that directory. A child that
  is to be write-locked has been looked up and not forgotten.
* FORGET never counts more lookups than were made. Names are single path components.
* remove, rename and exchange run under the locks their request handlers take; the target of a
  rename that hides a file needs none but that of its directory.
* At most 2^30 - 1 calls are under way at once (then no `treelock` can overflow), and not all
  2^32 - 2 node numbers are in use.
* Request numbers in flight are distinct, and a request's own thread does one thing at a time.

## Where the code does less than one might expect

* A call waiting for two paths that fails for want of memory can be woken again before its thread
  runs. It may then take one path and still report the old error; that path is never released
  (`LostLockRun.LockGetsLost`, `LostLockRun.LostForEver`). `QueueTheorems.StaleErrorIff` says
  exactly which wakeup does it, `LostLockRun.BecomesLostIff` which step loses the lock, and
  `LostLocks.NoLostLocks` that it takes a failed allocation.
* `fuse_buf_copy` leaves the destination cursor behind iff the source is used up and had something
  left in its last buffer (`BufCopy.Copy`, for memory and files alike; `BufCopy.LagExample`).
* When both sides are file descriptors and the write is short, bytes already read from a stream
  source are gone: the stream stands beyond the source cursor (`BufCopy.OverreadExample`; by
  exactly how much in `BufCopy.FdToFd` and `BufCopy.Copy`).
* `fuse_buf_size` adds the sizes that follow an unknown one to `SIZE_MAX`, so the sum wraps around
  (`BufCopy.BufSize`).
* Empty options at the front of a printed list are lost (`Options.RoundTripIff`); a trailing `--`
  is kept when options were printed (`OptionTable.TrailingSeparatorIff`,
  `ParseExamples.SeparatorExample`).
* Parsing twice need not be parsing once. An option is added once for every template that keeps it,
  so it can double with every parse (`ParseExamples.TwiceExample`); an option joined with an empty
  next argument asks for another one, and the second parse fails (`ParseExamples.JoinExample`).
  `ParseStable.StableIff` says exactly which vectors a parse leaves alone and
  `ParseStable.ParseIdempotentIff` so for the result of a parse, whatever was joined;
  `ParseStable.OrdinaryIff` puts it simply for tables in which an option matches one template.
* `fuse_free_req` does not stop a callback that another thread has already picked up
  (`LateCalls.CalledAfterFree`; exactly when in `LateCalls.LateCallIff`); unregistering first does
  (`Interrupts.UnregisterEnds`).
* A directory record whose length wraps an unsigned int does not end the reply but shortens it
  (`DirStream.WrapExample`, `DirStream.WrapCuts`; `DirStream.NoWrap` is the exact condition under
  which `DirStream.DirHandle.FillFromList` replies with the page).
* A hash table whose doubling has failed does not try again before a merge, and does after one
  (`LinearTable.Table.Rehash`, `LinearTable.Table.Remerge`).
* The loop that looks for a larger path buffer never ends if the path does not fit an unsigned int
  (`PathText.GrowthEndsIff`).
* A lock range that ends right before its start turns into one up to the end of the file
  (`RecordLocks.RangeSurvivesIff`).

## Model

| member | source | states |
|---|---|---|
| `NodeTree.WalkUnique` | lib/fuse.c:1046-1064 | following parent pointers from a node can be done in one way only |
| `NodeTree.WalkDistinct` | lib/fuse.c:1046-1064 | no node occurs twice on the way up, so each is locked once |
| `NodeTree.LinkWellFormed` | lib/fuse.c:802-826 | hanging a node under a parent off its own subtree keeps the tree free of loops and of duplicate names |
| `NodeTree.DropWellFormed` | lib/fuse.c:828-840 | deleting a node without children keeps the tree well formed |
| `TreeLock.LockFaithful` | lib/fuse.c:1030-1064 | taking a path keeps every treelock the exact encoding of its readers and writer |
| `TreeLock.UnlockFaithful` | lib/fuse.c:984-1003 | giving a path back keeps the encoding exact |
| `TreeLock.MarkFaithful` | lib/fuse.c:1034-1040 | a waiting mark keeps the encoding exact |
| `TreeLock.HeldEncoding` | lib/fuse.c:984-1003 | on a held path none of the asserts of unlock_path can fail |
| `TreeLock.WriterExcludes` | lib/fuse.c:1030-1064 | a write lock excludes all readers and all other writers |
| `TreeLock.UnlockUndoesLock` | lib/fuse.c:984-1085 | the way out of a failed attempt restores every treelock |
| `TreeLock.UnlockUndoesMarkedLock` | lib/fuse.c:984-1085 | also when a waiting mark was added in between, save for that mark |
| `NodeLife.UnreferencedUnlocked` | lib/fuse.c:828-848 | a node without references has treelock zero: the assert of delete_node |
| `NodeLife.UnrefSettles` | lib/fuse.c:745-770 | giving up one reference makes all counters exact, deletes exactly the nodes left without references up the parent chain, and touches no locked path |
| `PathLock.GrantedIff` | lib/fuse.c:1005-1085 | a path is granted iff the way up reaches the root, no node on it has a writer or a waiting writer, and the child to be written is free |
| `PathLock.GrantSound` | lib/fuse.c:1005-1085 | a granted path adds exactly its own hold |
| `PathLock.FailureSound` | lib/fuse.c:1005-1085 | a failed attempt leaves every hold as it was |
| `PathLock.GiveBackSound` | lib/fuse.c:984-1003 | releasing a call removes exactly its holds |
| `PathLock.BrokenIsEnoent` | lib/fuse.c:1046-1050 | where the way to the root is broken the answer is ENOENT and never EAGAIN, because nobody holds a lock below the break |
| `NodeOps.UnhashSound` | lib/fuse.c:745-770 | taking a name out of the table keeps counters exact and locked paths intact |
| `NodeOps.HashSound` | lib/fuse.c:802-826 | entering a name keeps counters exact and locked paths intact |
| `NodeOps.IncLookupSound` | lib/fuse.c:875-880 | a lookup adds one reference for the first one only; that it counts one lookup is in `Lookups.StepLookups` |
| `NodeOps.ForgottenSound` | lib/fuse.c:1418-1454 | a FORGET that need not wait settles the counters without touching a lock |
| `NodeOps.PinnedSound` | lib/fuse.c:2705-2722 | the pin of a lookup of "." is counted |
| `NodeOps.UnpinnedSound` | lib/fuse.c:2742-2746 | giving the pin up settles the counters |
| `TreeOps.RemovedSound` | lib/fuse.c:1465-1474 | exactly the entry goes, the node stays, every path lock stays intact |
| `TreeOps.RenamedSound` | lib/fuse.c:1476-1510 | the links change as specified, no directory loop arises, every path lock stays intact, with and without memory |
| `TreeOps.RenameMoves` | lib/fuse.c:1476-1510 | afterwards the new name leads to the node, the old one to nothing, all other links are as before |
| `TreeOps.RenameFails` | lib/fuse.c:1476-1510 | a missing entry, or an existing one that must not be replaced, leaves all links alone; without memory neither name leads anywhere and all other links are as before |
| `TreeOps.ExchangedSound` | lib/fuse.c:1512-1541 | likewise for two entries that trade places |
| `TreeOps.ExchangeSwaps` | lib/fuse.c:1512-1541 | each name leads to the node the other one led to, all other links are as before |
| `TreeOps.ExchangeFails` | lib/fuse.c:1512-1541 | without memory for the first new name both names lead nowhere; without memory for the second only the new one leads to the first node |
| `QueueSafety.WakeupDisciplined` | lib/fuse.c:1103-1157 | after a wakeup only the head may hold one of two paths, a call behind it holds nothing unless it is done without error, and such a call holds all it asked for |
| `QueueSafety.WakeupInv` | lib/fuse.c:1103-1157 | a wakeup keeps the invariant of the machine |
| `QueueSafety.WakeAllInv` | lib/fuse.c:1159-1165 | so does waking the whole queue |
| `PathQueue.WakeupOnly` | lib/fuse.c:1103-1157 | a wakeup changes no link, no counter but treelocks, and no other call |
| `Machine.FoundSound` | lib/fuse.c:882-919 | finding or creating a node keeps counters and locks and loses nobody who is kept alive |
| `MachineRuns.GetOneInv` | lib/fuse.c:1221-1242 | the first attempt of a one-path call keeps the invariant, whether it succeeds, waits or fails |
| `MachineRuns.GetTwoInv` | lib/fuse.c:1319-1386 | likewise for two paths: both or neither |
| `MachineRuns.FreeInv` | lib/fuse.c:1388-1416 | ending a call and waking the others keeps the invariant |
| `MachineRuns.NextInv` | lib/fuse.c:984-1541 | every critical section keeps the invariant |
| `Theorems.RunInv` | lib/fuse.c:984-1541 | the invariant holds in every reachable state |
| `Theorems.TreelockMeans` | lib/fuse.c:984-1085 | in every reachable state the integer tells who holds the node: nobody, one writer, or so many readers, with a waiting mark only while there are readers |
| `Theorems.ReleaseWalksGrantedChain` | lib/fuse.c:984-1003 | the release walk visits exactly the nodes locked at the grant, and its asserts hold on each |
| `Theorems.EnoentFinal` | lib/fuse.c:1046-1050 | once the way from a node to the root is broken no step mends it |
| `Theorems.DeletedWereUnlocked` | lib/fuse.c:828-848 | no node is deleted while its treelock is not zero |
| `QueueTheorems.FailureRestores` | lib/fuse.c:1319-1338 | a failed try_get_path2 leaves readers and writers as they were, adding at most a waiting mark on a node with readers |
| `QueueTheorems.WriterGoesFirst` | lib/fuse.c:1034-1040 | a request to write what others read is told to wait and marks that node alone, and from then on nobody gets a path through it |
| `QueueTheorems.ForgetWaitsIff` | lib/fuse.c:1418-1440 | a FORGET waits iff it would take the last lookups of a node that some call reads or writes |
| `QueueTheorems.WakeupGrantsIff` | lib/fuse.c:1103-1157 | if all nodes are free one wakeup grants a waiting call iff its paths reach the root and do not collide |
| `Awake.WakeupFinishesIff` | lib/fuse.c:1103-1157 | whatever is locked: if no allocation fails a wakeup finishes a waiting call iff the paths it still lacks can be taken, one after the other |
| `Awake.AskingAgain` | lib/fuse.c:1319-1338 | for a call with empty hands that is what try_get_path or try_get_path2 would answer now |
| `Awake.WakeupTightens` | lib/fuse.c:1103-1157 | a wakeup behind the head, granted or not, leaves no node easier to lock |
| `Awake.CouldNotFinish` | lib/fuse.c:1103-1157 | a call that is not done after its wakeup could not have had its paths |
| `Awake.WakeFromShuts` | lib/fuse.c:1159-1165 | once the whole queue has been gone through no waiting call, wherever it stands, could have the paths it lacks |
| `Awake.NobodyLeftAsleep` | lib/fuse.c:1388-1416 | after every free_path, with or without failing allocations, no call is left asleep whose paths can be taken |
| `Answers.OneAnswer` | lib/fuse.c:1221-1242 | ENOMEM iff an allocation fails, else ENOENT iff the way to the root is broken, else OK iff the path can be taken, else EAGAIN; the call runs iff OK and is queued iff EAGAIN |
| `Answers.TwoAnswer` | lib/fuse.c:1319-1386 | likewise for two paths, the second judged with the first one taken |
| `Lookups.StepLookups` | lib/fuse.c:875-919 | a step counts one lookup for the node it answers a lookup with, takes off what it forgets, and changes no other count |
| `Lookups.LookupsCounted` | lib/fuse.c:875-919 | in every run the count of a node is the number of lookups answered with it, less the lookups forgotten |
| `Lookups.ForgottenGone` | lib/fuse.c:1418-1454 | in every run a node whose lookups are all forgotten is cached only as the parent of a cached node or while a lookup of "." pins it |
| `QueueTheorems.StaleErrorIff` | lib/fuse.c:1103-1157 | a call already done with an error ends up with an error and a path iff it is the head, asked for two paths, nothing fails for want of memory, and one of the paths reaches the root through free nodes while the other is blocked |
| `LostLocks.RunClean` | lib/fuse.c:1103-1157 | without allocation failures a waiting call that is done with an error holds nothing and really has no way to the root |
| `LostLocks.NoLostLocks` | lib/fuse.c:1087-1242 | without allocation failures every hold belongs to a call that runs or waits |
| `LostLocks.HoldConstant` | lib/fuse.c:984-1085 | from grant to release a hold names the same directory, chain and child, and its chain is the way to the root throughout |
| `PathTheorems.LinkStable` | lib/fuse.c:1456-1541 | no step changes parent or name of a node that somebody has read-locked |
| `PathTheorems.PathStable` | lib/fuse.c:984-1085 | the path string of a held directory is the same before and after every step |
| `PathTheorems.PathConstant` | lib/fuse.c:984-1085 | from grant to release the path string built at the grant stays the right one |
| `LostLockRun.LockGetsLost` | lib/fuse.c:1103-1157 | a run of nine critical sections, with a link request as fuse_lib_link makes it, that ends with a node read-locked by a call that is gone |
| `LostLockRun.LostForEver` | lib/fuse.c:1087-1165 | such a hold stays, unchanged, in every later state of every run |
| `LostLockRun.BecomesLostIff` | lib/fuse.c:1208-1219 | a step loses a hold iff it lets a waiting call go on with an error while that call holds the path |
| `FuseObject.Fuse.constructor` | lib/fuse.c:4989-5010 | the cache starts with the root, looked up once |
| `FuseObject.Fuse.UnlockPath` | lib/fuse.c:984-1003 | the loop releases exactly the nodes of the walk up to its end and the written child; the asserts hold |
| `FuseObject.Fuse.TryGetPath` | lib/fuse.c:1005-1085 | the walk up with rollback does what the specification says in all four outcomes, and a granted path comes with its string |
| `FuseObject.Fuse.LockWalk` | lib/fuse.c:1046-1078 | the loop locks node after node; every way out leaves the tree locks as specified |
| `FuseObject.Fuse.QueueElementUnlock` | lib/fuse.c:1087-1101 | gives back whatever the element holds, first path first |
| `FuseObject.Fuse.QueueElementWakeup` | lib/fuse.c:1103-1157 | is exactly one wakeup of the specification |
| `FuseObject.Fuse.WakeUpQueued` | lib/fuse.c:1159-1165 | wakes the elements in queue order, every one of them: afterwards no waiting call could have the paths it lacks |
| `FuseObject.Fuse.DequeuePath` | lib/fuse.c:1199-1206 | the search finds the element and removes it alone |
| `FuseObject.Fuse.WaitPathEnd` | lib/fuse.c:1208-1219 | the waiting thread goes on with its paths, or with the error of its element |
| `FuseObject.Fuse.GetPathCommon` | lib/fuse.c:1221-1242 | is exactly one step of the machine; the answer is exactly the one the tree and its locks call for; the call runs iff OK and is queued iff EAGAIN; a path handed out is the path of the request |
| `FuseObject.Fuse.TryGetPath2` | lib/fuse.c:1319-1338 | both paths or neither |
| `FuseObject.Fuse.GetPath2` | lib/fuse.c:1340-1386 | the same for two paths, without the FreeBSD loop check |
| `FuseObject.Fuse.FreePathWrlock` | lib/fuse.c:1388-1397 | ends the call and wakes the queue: one step of the machine, after which nobody sleeps whose paths can be taken |
| `FuseObject.Fuse.FreePath2` | lib/fuse.c:1405-1416 | likewise for two paths |
| `FuseObject.Fuse.UnrefNode` | lib/fuse.c:842-848 | one reference less; the cascade of deletions ends as specified, and its asserts hold |
| `FuseObject.Fuse.DeleteNode` | lib/fuse.c:828-840 | unhashes, gives up the parent, then drops the node; the result is that of dropping it first |
| `FuseObject.Fuse.UnhashName` | lib/fuse.c:745-770 | takes the name out and gives up the parent |
| `FuseObject.Fuse.HashName` | lib/fuse.c:802-826 | enters the name and counts the parent; fails only for names of 32 bytes or more, without effect |
| `FuseObject.Fuse.ForgetNode` | lib/fuse.c:1418-1454 | waits iff these are the last lookups of a locked node, else forgets; the root is never forgotten |
| `FuseObject.Fuse.ForgetEnd` | lib/fuse.c:1438-1454 | after the wait the lookups are forgotten: one step of the machine |
| `FuseObject.Fuse.FindNode` | lib/fuse.c:882-919 | finds the cached node or makes one with a free number; no memory, no effect; one step of the machine, so that `Lookups.StepLookups` tells its lookup count |
| `FuseObject.Fuse.RemoveNode` | lib/fuse.c:1465-1474 | is exactly one step of the machine |
| `FuseObject.Fuse.RenameNode` | lib/fuse.c:1476-1510 | is exactly one step of the machine; busy iff hiding onto an existing entry, and then nothing changes |
| `FuseObject.Fuse.ExchangeNode` | lib/fuse.c:1512-1541 | is exactly one step of the machine |
| `FuseObject.Fuse.PinDot` | lib/fuse.c:2705-2722 | pins the directory, or reports that it is stale |
| `FuseObject.Fuse.UnpinDot` | lib/fuse.c:2742-2746 | gives the pin up: one step of the machine |
| `FuseObject.Fuse.LookupPathInCache` | lib/fuse.c:921-949 | follows the components of a path from the root: the node if the cache has it, ENOENT only if it does not, or no memory |
| `PathText.PathBuffer.GrownSize` | lib/fuse.c:957-966 | doubling stops at a size that fits and never exceeds an unsigned int |
| `PathText.GrowthEndsIff` | lib/fuse.c:960-965 | the loop for a new buffer size ends iff what is needed fits an unsigned int |
| `PathText.PathBuffer.AddName` | lib/fuse.c:951-982 | puts the component in front; if realloc fails the string is unchanged |
| `PathText.PathRoundTrip` | lib/fuse.c:921-949 | looking up the printed path of a node finds that node, and of an entry whatever the cache has under its name |
| `NodeIds.NextId` | lib/fuse.c:850-859 | the first free number after the counter in cyclic order, with a new generation iff it wrapped |
| `NodeIds.DrawIsFree` | lib/fuse.c:850-859 | the number drawn is no node's and is neither 0 nor the unknown one |
| `NodeIds.DrawIsFirst` | lib/fuse.c:850-859 | no free number is passed over, and the generation is a new one iff the count went around |
| `NodeIds.DrawIsLater` | lib/fuse.c:850-859 | number and generation together grow with every draw unless the generation itself wraps |
| `Handles.CreatedFree` | lib/fuse.c:882-919 | a created node gets a free number, which becomes the counter |
| `Handles.HandlesIncrease` | lib/fuse.c:850-919 | in every run the handles given out grow, so no two nodes ever get the same number and generation, while the generation does not wrap |
| `NodeIds.FreeIdExists` | lib/fuse.c:850-859 | the search ends unless all 2^32 - 2 numbers are in use |
| `LinearTable.ComputeNameHash` | lib/fuse.c:700-708 | the loop computes the 64-bit hash |
| `LinearTable.NameHashIs` | lib/fuse.c:700-708 | that hash is the parent's number followed by the characters as digits in base 31, modulo 2^64 |
| `LinearTable.SlotSplit` | lib/fuse.c:660-687 | splitting a bucket moves only its own elements and only to its upper half |
| `LinearTable.SlotDouble` | lib/fuse.c:586-658 | doubling or halving the table moves nothing |
| `LinearTable.UpperEmpty` | lib/fuse.c:525-534 | the buckets at or above size/2 + split are empty |
| `LinearTable.SplitPlaced` | lib/fuse.c:660-687 | after a split every element is in the bucket its hash asks for, once |
| `LinearTable.MergePlaced` | lib/fuse.c:602-626 | likewise after a merge |
| `LinearTable.DoublePlaced` | lib/fuse.c:643-658 | likewise after doubling |
| `LinearTable.HalvePlaced` | lib/fuse.c:586-600 | likewise after halving |
| `LinearTable.Table.constructor` | lib/fuse.c:4839-4851 | an empty table |
| `LinearTable.InChain` | lib/fuse.c:536-546 | a key is in the map iff its node is in the chain of the bucket its hash asks for |
| `LinearTable.Table.Find` | lib/fuse.c:536-546 | yields the node of the key, or nothing iff the table has none |
| `LinearTable.Table.Insert` | lib/fuse.c:689-698 | adds exactly that key with its node; one more bucket is in use afterwards iff the load asks for it and no doubling has failed, and unless one has there are at least as many buckets in use as elements |
| `LinearTable.Table.Rehash` | lib/fuse.c:660-687 | splits one bucket and tries to double the table iff that was the last one; contents unchanged; with all buckets split nothing is tried |
| `LinearTable.Table.SplitBucket` | lib/fuse.c:668-684 | the chain is taken apart in place into the elements that stay and those that move |
| `LinearTable.Table.Resize` | lib/fuse.c:643-658 | doubles the table or leaves it alone; contents unchanged |
| `LinearTable.Table.Remove` | lib/fuse.c:628-641 | removes exactly that node and reports whether it was there; if few are left one to eight buckets fewer are in use unless the table is at its minimum; a merge ends the state after a failed doubling |
| `LinearTable.Table.Reduce` | lib/fuse.c:586-600 | halves the table unless it is at its minimum; contents unchanged |
| `LinearTable.Table.Remerge` | lib/fuse.c:602-626 | undoes one to eight splits unless the table is at its minimum, and stops at the first with elements to move; contents unchanged; afterwards a bucket is left to be split, so that doubling will be tried again |
| `LinearTable.Table.MergeBucket` | lib/fuse.c:610-624 | the last bucket in use joins the one it was split from; reports whether anything moved |
| `SlabAllocator.SlotInPage` | lib/fuse.c:425-458 | a node lies behind the slab header, inside its page, and masks back to it |
| `SlabAllocator.LiveApart` | lib/fuse.c:430-511 | nodes in use overlap neither each other nor a slab header |
| `SlabAllocator.AllFreed` | lib/fuse.c:5089-5100 | when all nodes are freed both slab lists are empty |
| `SlabAllocator.TakenValid` | lib/fuse.c:462-483 | taking a node keeps used plus free equal to the capacity and a page on the partial list iff it has a free node |
| `SlabAllocator.GivenValid` | lib/fuse.c:496-511 | so does giving one back; an empty page disappears |
| `SlabAllocator.Slabs.AllocSlab` | lib/fuse.c:430-460 | a new page has all its nodes free, in order |
| `SlabAllocator.Slabs.AllocNode` | lib/fuse.c:462-483 | yields a node that was not in use, or nothing |
| `SlabAllocator.Slabs.FreeNode` | lib/fuse.c:496-511 | exactly that node is no longer in use |
| `RecordLocks.LockList.Insert` | lib/fuse.c:3988-4060 | the requested range of the requesting owner gets the requested kind and no other byte or owner changes; each entry afterwards names the process of the entry it is a part of, or of the request; the list stays sorted, disjoint and merged; the spare record is used at most once; without memory nothing changes |
| `RecordLocks.Canonical` | lib/fuse.c:3988-4060 | two lists that give an owner the same bytes have the same entries for that owner |
| `RecordLocks.TrimStep` | lib/fuse.c:4023-4043 | cutting a request out of an entry of another kind keeps the meaning |
| `RecordLocks.MergeStep` | lib/fuse.c:4011-4022 | joining a touching entry of the same kind keeps the meaning |
| `RecordLocks.LockList.Conflict` | lib/fuse.c:3962-3973 | returns an entry iff some byte is held incompatibly by another owner, and then the first such entry |
| `RecordLocks.ConflictIsClash` | lib/fuse.c:3962-3973 | overlapping entries conflict iff some byte clashes |
| `RecordLocks.CompatibleIff` | lib/fuse.c:3962-4060 | a granted request keeps the locks compatible iff it unlocks or does not clash |
| `RecordLocks.CompatibleRun` | lib/fuse.c:3962-4060 | if every request was granted after a clear check, no write lock ever overlaps another owner's lock |
| `RecordLocks.RangeSurvivesIff` | lib/fuse_lowlevel.c:1681-1692 | the last byte of a range survives the conversion to a struct flock iff it is not the one right before the start, or the range ends at OFFSET_MAX; proper ranges come back whole and without 63-bit overflow |
| `Interrupts.NextAlive` | lib/fuse_lowlevel.c:186-201 | a request's counter counts its owner and the threads interrupting it; nothing freed is used |
| `Interrupts.NextGuarded` | lib/fuse_lowlevel.c:2474-2484 | the request mutex has one holder, and a callback that is due is about to be called by it |
| `Interrupts.NextNumbered` | lib/fuse_lowlevel.c:1819-1839 | requests in flight and early interrupts all have different numbers |
| `Interrupts.NextAccounted` | lib/fuse_lowlevel.c:1800-1839 | every INTERRUPT is in exactly one place: early, marking its target, or done with |
| `Interrupts.RunInv` | lib/fuse_lowlevel.c:1762-1839 | all of this holds in every reachable state of every interleaving |
| `Interrupts.ExistsIffUsed` | lib/fuse_lowlevel.c:186-201 | a request exists exactly as long as its owner or an interrupting thread uses it, and is freed once |
| `Interrupts.NotMissed` | lib/fuse_lowlevel.c:2474-2484 | when nobody is at work on a marked request its callback has been called, whichever came first; that the mark is made is in `Marking.InterruptMarks` and `Marking.EarlyMarks` |
| `Interrupts.UnregisterEnds` | lib/fuse_lowlevel.c:2474-2484 | when the registration of another callback or of none returns, the former callback can no longer be called |
| `Interrupts.NeverAgain` | lib/fuse_lowlevel.c:1762-1798 | and it is not called in any later state unless registered again |
| `Marking.InterruptMarks` | lib/fuse_lowlevel.c:1762-1817 | in every run: once an INTERRUPT for a request in flight has been dealt with, that request is marked and stays so |
| `Marking.EarlyMarks` | lib/fuse_lowlevel.c:1819-1839 | in every run: a request whose INTERRUPT came first is marked as soon as it arrives, and stays so |
| `Marking.NextArrivalMarks` | lib/fuse_lowlevel.c:1800-1839 | in every run: an INTERRUPT that finds no request waits, and if its request is the next one to arrive that is marked and stays so |
| `Marking.AnsweredIff` | lib/fuse_lowlevel.c:1832-1836 | a waiting INTERRUPT is sent back with EAGAIN iff it is the oldest and a request arrives for which none waits |
| `Marking.CallbackNotMissed` | lib/fuse_lowlevel.c:1762-1798 | in every run: once an INTERRUPT has been dealt with and nobody is at work on its request, the registered callback has been called, also if registered later |
| `Marking.MarkedOnlyBy` | lib/fuse_lowlevel.c:1762-1839 | in every run: a request is marked only if an INTERRUPT for its number has come |
| `Marking.CalledOnlyBy` | lib/fuse_lowlevel.c:1762-1798 | in every run: a callback is called only if an INTERRUPT for the number of its request has come |
| `LateCalls.LateCallIff` | lib/fuse_lowlevel.c:186-201 | in every run: a callback is called after fuse_free_req of its request iff a thread had picked it up by then and goes on |
| `LateCalls.LateCallPickedUp` | lib/fuse_lowlevel.c:1775-1790 | any such call is made by a thread that already held the callback at the time of the free |
| `LateCalls.CallsAre` | lib/fuse_lowlevel.c:1775-1790 | a callback counts as called after a step iff it did before or the step calls it |
| `LateCalls.CalledAfterFree` | lib/fuse_lowlevel.c:186-201 | a run in which that happens |
| `LateCalls.FateConstant` | lib/fuse_lowlevel.c:1800-1839 | what has become of an INTERRUPT never changes afterwards |
| `SessionObject.Session.CheckInterrupt` | lib/fuse_lowlevel.c:1819-1839 | the early interrupt for this request marks it, or else the oldest early one is bounced |
| `SessionObject.Session.Receive` | lib/fuse_lowlevel.c:2668-2676 | is exactly one step of the machine; a bounced interrupt is answered EAGAIN |
| `SessionObject.Session.DoInterrupt` | lib/fuse_lowlevel.c:1762-1817 | references its target, or is dropped as a duplicate, or waits |
| `SessionObject.Session.Reference` | lib/fuse_lowlevel.c:1770-1776 | the target counts one more user |
| `SessionObject.Session.MarkInterrupted` | lib/fuse_lowlevel.c:1775-1780 | marks the request and picks up its callback in one step of the machine |
| `SessionObject.Session.LeaveInterrupted` | lib/fuse_lowlevel.c:1785-1790 | one user less; the last one frees the request |
| `SessionObject.Session.StoreFunc` | lib/fuse_lowlevel.c:2474-2480 | is exactly one step of the machine |
| `SessionObject.Session.CheckFunc` | lib/fuse_lowlevel.c:2481-2483 | calls the callback iff the request is already interrupted |
| `SessionObject.Session.FreeReq` | lib/fuse_lowlevel.c:186-201 | is exactly one step of the machine; frees the request iff nobody else uses it |
| `DirStream.DecodeEncoded` | lib/fuse_lowlevel.c:336-360 | reading a record gives back the entry and its offset |
| `DirStream.DecodePage` | lib/fuse.c:3677-3719 | a page stays within the requested size, is 8-byte aligned, and decodes to its entries |
| `DirStream.ReadsInOrder` | lib/fuse.c:3677-3719 | reading on from the last offset, with pages of any sizes, yields consecutive entries, each once and in order |
| `DirStream.ReadsAll` | lib/fuse.c:3677-3719 | with room for the next entry on every page the reader sees them all |
| `DirStream.AddDirentry` | lib/fuse_lowlevel.c:336-360 | returns the padded length and writes the record iff it fits, nothing else |
| `DirStream.DirHandle.ExtendContents` | lib/fuse.c:3431-3454 | room for the requested size, or no change |
| `DirStream.DirHandle.AppendEntry` | lib/fuse.c:3694-3717 | writes the record iff it fits, and goes on iff the 32-bit length does |
| `DirStream.DirHandle.FillFromList` | lib/fuse.c:3677-3719 | length and memory of the reply for all sizes and names, also where lengths wrap; the reply is exactly the page at that offset if all records fit or the first that does not takes the 32-bit sum beyond the size |
| `DirStream.FilledUpTo` | lib/fuse.c:3694-3717 | the loop arrives at the first record that does not fit with exactly the page |
| `DirStream.FilledIsPage` | lib/fuse.c:3694-3717 | when nothing wraps the reply is as long as the page |
| `DirStream.SmallNeverWraps` | lib/fuse.c:3694-3717 | nothing wraps if the size and any one record together fit an unsigned int |
| `DirStream.WrapCuts` | lib/fuse.c:3712-3715 | if the last record is the first that does not fit, the reply is as long as the page iff its length does not wrap, and shorter if it does |
| `DirStream.WrapExample` | lib/fuse.c:3712-3715 | two records of 2^31 bytes and the largest size: the reply is empty, the page is not |
| `BufCopy.BufSize` | lib/buffer.c:24-37 | the sum modulo 2^64 of everything after the last unknown size, plus SIZE_MAX if there is one |
| `BufCopy.FdWrite` | lib/buffer.c:44-76 | however short the writes, the bytes counted have arrived, and no others; with FD_RETRY fewer than asked iff the kernel refused, without it one call is made |
| `BufCopy.FdRead` | lib/buffer.c:78-110 | likewise for reads; a stream moves by exactly the bytes counted; the same for FD_RETRY |
| `BufCopy.TransferredFull` | lib/buffer.c:49-73 | for every script of answers: with FD_RETRY the transfer falls short iff one of the answers used is zero or a failure |
| `BufCopy.TransferredOnce` | lib/buffer.c:49-73 | without FD_RETRY the transfer is the answer to one call |
| `BufCopy.CrossedFull` | lib/buffer.c:112-160 | from descriptor to descriptor with FD_RETRY on both: short iff an answer used is zero or a failure |
| `BufCopy.FdToFd` | lib/buffer.c:112-160 | likewise through a buffer of 4096 bytes; a stream ends at its old position plus the bytes counted plus what the last read brought and the last write did not take |
| `BufCopy.CopyOne` | lib/buffer.c:229-257 | one transfer, for each combination of memory and files, and where it leaves a stream |
| `BufCopy.BufVec.Advance` | lib/buffer.c:267-281 | the cursor moves by exactly that much and the asserts hold |
| `BufCopy.Step` | lib/buffer.c:290-319 | is exactly one turn; streams stand at the cursor, the current one beyond it by what was read and not written |
| `BufCopy.TurnedMoves` | lib/buffer.c:314-315 | in a turn the destination cursor stays behind exactly when the source comes to its end |
| `BufCopy.TurnsMove` | lib/buffer.c:283-323 | for every script: the source cursor moves by exactly what is counted; the destination cursor lags iff the source is used up and had something left in its last buffer |
| `BufCopy.TurnsMemory` | lib/buffer.c:283-323 | between memory buffers the count is the minimum of what is left, and the destination cursor is exact iff the source has more left or nothing in its last buffer |
| `BufCopy.TurnsFull` | lib/buffer.c:283-323 | with FD_RETRY on every descriptor exactly the minimum of what is left on both sides is copied unless the kernel refuses |
| `BufCopy.Copy` | lib/buffer.c:283-323 | terminates with exactly the outcome of the turns; the destination receives exactly the bytes counted; the destination cursor lags iff the source is used up and had something left in its last buffer; every source stream stands at the cursor, the current one beyond it by what the last read brought and the last write did not take; with FD_RETRY on every descriptor the minimum of what is left on both sides is copied unless the kernel refuses |
| `BufCopy.LagExample` | lib/buffer.c:314-315 | one byte copied into one byte of room leaves the destination cursor at zero |
| `BufCopy.OverreadExample` | lib/buffer.c:127-152 | two bytes read and one written leave the cursor at one and the stream at two |
| `Options.RoundTripIff` | lib/fuse_opt.c:115-137 | splitting what was printed gives the options back iff the first is not empty or is the only one; in general without the empty ones at the front |
| `Options.PrintStripped` | lib/fuse_opt.c:115-137 | printing again what was split changes nothing |
| `Options.OctalUnit` | lib/fuse_opt.c:312-322 | the octal escape of any byte is read as that byte, and reading goes on behind it |
| `Options.OctalGroup` | lib/fuse_opt.c:294-332 | an option written in octal escapes throughout, commas and backslashes included, comes back as the only option of its group |
| `OptionTable.IndexOfIs` | lib/fuse_opt.c:174-175 | the search of strchr ends at the first occurrence, or at the end if there is none |
| `OptionTable.Match` | lib/fuse_opt.c:171-190 | a match with a parameter has its separator inside the template and the argument |
| `Templates.EqualsTemplate` | lib/fuse_opt.c:171-190 | a template "name=" with or without a format matches exactly the arguments that begin with it, and what follows is the parameter |
| `Templates.SpaceTemplate` | lib/fuse_opt.c:171-190 | a template "name " with or without a format matches exactly the arguments that begin with the name; what follows is the parameter, and the next argument is asked for iff nothing follows |
| `Templates.PlainTemplate` | lib/fuse_opt.c:171-190 | any other template matches exactly the argument that is the same |
| `Templates.KeptForEach` | lib/fuse_opt.c:274-292 | an option is put out once for each matching template that says KEEP and never for one that says DISCARD |
| `Templates.WordsOnly` | lib/fuse_opt.c:348-369 | behind a separator, and as long as nothing begins with a dash, every argument goes to the callback as a word: the kept ones are put out in order, and the parse fails iff one is refused |
| `Templates.PlainWords` | lib/fuse_opt.c:371-396 | so for a whole vector of words |
| `OptionTable.FindOpt` | lib/fuse_opt.c:192-199 | the first template from there on that matches, and none before it does |
| `OptionTable.TrailingSeparatorIff` | lib/fuse_opt.c:382-393 | a separator at the end is removed iff no options were printed |
| `ParseTwice.GoptAccepted` | lib/fuse_opt.c:274-292 | an option taken without the next argument is added once for each template that keeps it, and so wherever it comes again |
| `ParseTwice.GoptEmits` | lib/fuse_opt.c:250-292 | whatever is put out for an option, joined or not, would be kept again by a template |
| `ParseTwice.RunGood` | lib/fuse_opt.c:348-380 | whatever a parse puts out would be kept again, and taken alone if nothing was joined |
| `ParseTwice.PrintMultiplied` | lib/fuse_opt.c:115-137 | the printed options stay the same iff each is kept once, or there is nothing but an empty one |
| `ParseTwice.FinishedAgain` | lib/fuse_opt.c:371-396 | if each option of the result is taken alone, parsing it again changes nothing iff each is kept once |
| `ParseTwice.UnjoinedIff` | lib/fuse_opt.c:371-396 | which is always so after a parse that joined no option with the next argument |
| `ParseStable.CanonicalStable` | lib/fuse_opt.c:371-396 | for every table: a vector in which every option is taken alone and kept once, every word kept and the list printed as a parse prints it is left alone |
| `ParseStable.StableUnjoined` | lib/fuse_opt.c:250-292 | a vector without arguments that two templates can keep is left alone only if nothing in it is joined, because a join uses up an argument |
| `ParseStable.StableIff` | lib/fuse_opt.c:371-396 | a parse leaves a vector alone iff it is canonical, for every vector in which no argument matches two keeping templates or no option asks for the next argument |
| `ParseStable.ParseIdempotentIff` | lib/fuse_opt.c:371-396 | parsing twice is parsing once iff the result is canonical, whatever the first parse joined, under the same proviso for the result |
| `ParseStable.UnjoinedNeverAsks` | lib/fuse_opt.c:250-272 | the result of a parse that joined nothing always meets the proviso |
| `ParseStable.OrdinaryIff` | lib/fuse_opt.c:371-396 | if no option matches two templates and none takes a lone dash, parsing twice is parsing once iff no option of the result asks for the next argument, whatever was joined |
| `ParseStable.ParseIdempotent` | lib/fuse_opt.c:371-396 | so it never changes anything if no option is kept by two templates and no template ends in a space |
| `ParseStable.NoTemplates` | lib/fuse_opt.c:371-396 | in particular without templates, whatever the callback decides |
| `ParseStable.NeverJoins` | lib/fuse_opt.c:250-272 | a vector whose options do not ask is read without joins |
| `ParseExamples.TwiceExample` | lib/fuse_opt.c:274-292 | an option that two templates keep: once, then twice, then four times |
| `ParseExamples.JoinExample` | lib/fuse_opt.c:250-272 | an option joined with any next argument is stable iff that is not empty; after an empty one the second parse fails |
| `ParseExamples.DashExample` | lib/fuse_opt.c:362-366 | a joined option that reads as a separator, and stays |
| `ParseExamples.SwallowExample` | lib/fuse_opt.c:274-292 | an option that asks and one kept twice: a vector that is left alone without being canonical |
| `ParseExamples.SeparatorExample` | lib/fuse_opt.c:382-393 | a separator at the end goes away, but stays behind printed options |
| `OptionParserObject.AppendEscaped` | lib/fuse_opt.c:128-134 | the loop appends the escaped option |
| `OptionParserObject.Parser.AddOptEscaped` | lib/fuse_opt.c:115-137 | prints what the specification says, or no memory and no effect |
| `OptionParserObject.Parser.CallProc` | lib/fuse_opt.c:154-169 | keeps, drops or fails as the key and the callback say |
| `OptionParserObject.Parser.ProcessOpt` | lib/fuse_opt.c:207-248 | stores a parameter, or hands the option on to the callback |
| `OptionParserObject.Parser.ProcessOptSepArg` | lib/fuse_opt.c:250-272 | joins the option with the next argument; fails if there is none |
| `OptionParserObject.Parser.Find` | lib/fuse_opt.c:192-199 | the search finds the first template that matches |
| `OptionParserObject.Parser.ProcessGopt` | lib/fuse_opt.c:274-292 | offers the option to every template that matches, in order, and else to the callback |
| `OptionParserObject.Parser.ReadUnit` | lib/fuse_opt.c:312-328 | reads an escape, an octal escape as the byte it stands for (`Options.OctalUnit`), or a plain character |
| `OptionParserObject.Parser.ProcessGroup` | lib/fuse_opt.c:294-332 | unescaping in place never overtakes the read position and yields exactly the options of the group |
| `OptionParserObject.Parser.ProcessOptionGroup` | lib/fuse_opt.c:334-346 | the group is read from a copy, or memory ran out |
| `OptionParserObject.Parser.ProcessOne` | lib/fuse_opt.c:348-369 | uses as many arguments as specified; fails for a missing argument |
| `OptionParserObject.Parser.OptParse` | lib/fuse_opt.c:371-396 | the output is that of the specification, or an error iff it has none or memory ran out |

## Left out

- The list of nodes kept for a while after FORGET (`remember`), which depends on the clock: the model is that of `remember == 0`.
- `check_dir_loop`, compiled on FreeBSD only; that renames create no loops follows here from the locks, since a target inside the moved subtree would need the moved node both read-locked and write-locked.
- The `fuse_fs_*` wrappers and most `fuse_lib_*` handlers, which pass a request on to the file system; `MayChange` states the locks they take.
- Splice, pipes, mounting, signals and the session loops: system calls.
- The negotiation in `do_init`: one independent branch per flag.
- `lib/finesse.c` and the message passing of finesse: wrappers over a server that is not part of this model.
- Overlapping memory in `fuse_buf_copy`: the two vectors share nothing, so memcpy and memmove are alike.
- `fuse_buf_copy` on one and the same vector, which only returns `BufCopy.BufSize`.
- What `process_opt` stores in the caller's data; whether `sscanf` takes a parameter is a function of format and parameter. The callback decides by the argument and key alone; one that keeps state or changes the output itself is not modelled.
- ParseStable.ParseIdempotentIff: for a result in which one option asks for the next argument and another matches two keeping templates it is only proved that a canonical one is stable; the converse is false there (`ParseExamples.SwallowExample`).
- The hash tables inside `FuseObject.Fuse`: there the id and name tables are maps; `LinearTable` proves on its own that such a table behaves like a map from keys to nodes.
- Wake-ups of condition variables: a waiting thread may go on as soon as its condition holds.
- The string of a path granted while waiting in the queue is not stored in the element; `PathTheorems.PathConstant` says that it is the string of the hold from the grant on.
- FuseObject.Fuse.TryGetPath: requires that the path fits an unsigned int; a longer one makes the loop of add_name spin for ever (`PathText.GrowthEndsIff`).
- PathText.PathBuffer.AddName: the same bound.
- Handles.HandlesIncrease: up to a wrap of the 32-bit generation counter.
- SlabAllocator.Slabs.AllocSlab: the mask of node_to_slab is modelled as a remainder, the same for page sizes that are powers of two.
- Releasing the channel reference of a dropped INTERRUPT message.

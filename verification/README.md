# A verified model of rkt's coordination, storage and search code

rkt coordinates independent processes through directory renames, `flock` and ordered disk writes. This
project models those protocols, the B+tree that its database rests on, and the arithmetic and codecs
around them, in Dafny 4.11, and proves what they are meant to guarantee.

`dafny verify dfyconfig.toml` checks all files together.

## The parts

- **B+tree** (`BTree*.dfy`). Pages are objects with fixed arrays that are shifted in place, linked by
  pointers; a separator is a pointer to the leftmost data page of the subtree on its right. `BTreePages`
  has the pages and their array writes, `BTreeHeap` the pages of one tree in the heap, `BTreeShape` and
  `BTreeInv` the tree they represent and what each restructuring step keeps of it, `BTreeLeaf` the chain
  of data pages, `BTreeFind` and `BTreeWalk` the way down, `BTreeSteps` and `BTreeFill` what the page
  writes of a step amount to, `BTreeOrder` the reference map, and `BTree` the tree itself. The half
  capacities `kx >= 2` and `kd >= 1` are symbolic, keys and values are opaque, and the collating function
  is any total preorder. The structure says: even height, children and separators as above, no page
  twice, `first`, `last`, `n` and `p` chain the leaves; index pages other than the root hold kx-1 to
  2kx+1 separators, data pages other than the root kd to 2kd entries.
- **Key locks** (`KeyLock.dfy`). Every KeyLock object is an agent; every system call of `lock`,
  `NewKeyLock` and `CleanKeyLocks` is a step, agents may die at any step, and a run is any interleaving.
  Locks belong to open files, flock leaves a lock of the mode asked for alone and otherwise first gives up
  the old one, and an inode number may be used again once its file has neither name nor descriptor.
- **Pods** (`Pods.dfy`). The life of one pod directory under any number of handles of any processes,
  each acting on the flags it cached. Pods never share paths, so one uuid is followed. Renames are
  atomic, the lock follows the inode, and reading one directory is one step.
- **Image store** (`ImageStore.dfy`). Imports and removals of any number of keys by any number of
  processes that may die at any step, at most one at a time on a key.
- **Tree cache** (`TreeStore.dfy`, `TreeHash.dfy`). Whatever was written since the last sync may be
  anything after a crash. The methods record every state the disk goes through. The hash covers what
  the walk writes, with the JSON header taken to be self-delimiting.
- **Arithmetic** (`IntMath.dfy`, `FullCycle.dfy`, `FC32.dfy`, `Permute.dfy`, `Arithmetic.dfy`).
- **Codecs** (`QuoteExec.dfy`, `EnvFile.dfy`, `Filelist.dfy`, `Backup.dfy`).

`Options.dfy` has the option type that they share.

## Where the code departs from what it says

- Promoting or demoting a key lock is not atomic, contrary to the comments in `pkg/lock/keylock.go`: `flock`
  gives up the old lock first. `KeyLock.PromotionIsNotAtomic` and `KeyLock.KeepsLockIffSameMode` state exactly
  when another agent can come in between; a call for the mode already held is idempotent, as promised.
- `TreeStore.Remove` overwrites the error of unlinking the flag, and skips the sync when an earlier
  process was killed between the unlink and the sync. `TreeStore.Tree.Remove` states exactly when
  removing is safe, and `TreeStore.CrashLoses` what is lost otherwise.
- `DoTx` drops the error of Commit; a removal goes on although its row stays
  (`ImageStore.LostRemovalBreaks`). Importing an image again truncates its manifest in place, so a
  process that dies there leaves a row with half a manifest (`ImageStore.FullStep`).
- The tree hash does not cover extended attributes: the header that the walker hashes is made of an
  `os.FileInfo`, and nothing fills in its attributes (`TreeHash.XattrsDoNotCount`). For a header that has some,
  `FileInfoFromHeader` lists an empty name per attribute besides the attributes (`TreeHash.ListXattrs`).
- `rm` cannot remove a pod in exited-garbage/: an earlier case takes it for an exited one
  (`Pods.RmLeavesExitedGarbage`).
- `walkPods` does not leave out pods that it finds exited in run/, whatever directory it walks
  (`Pods.PassesOn`). The walks that delete are saved by the order of the directories
  (`Pods.PassesStrangerIff`, `Pods.NeverPanics`).
- `FC32.Seek` does not set the position to `|pos| % Cycle` for the least 64-bit integer.
- The ModPow functions do not panic for m == 0 when e == 0 and b is not 0: they return 1.
- A variable kept by one run of diagexec and missing in a later one stays in the environment file
  (`EnvFile.Lingers`; `EnvFile.KeptAgain` states exactly when the last run decides).
- `GenerateFilelist` accepts items that its parser does not give back (`Filelist.RoundTrip`), and `quoteExec`
  a first word with a space (`QuoteExec.SharedLine`, `QuoteExec.SpaceIsAmbiguous`).
- `parseList` panics on a negative count and on one that is too large a capacity for `make`.

## Model

| member | source | states |
|---|---|---|
| `BTreePages.ViewInsert` | Godeps/_workspace/src/github.com/cznic/ql/btree.go:105-117 | the array writes of x.insert put the separator at i and the child at i+1 and keep all others in order |
| `BTreePages.ViewExtract` | Godeps/_workspace/src/github.com/cznic/ql/btree.go:95-103 | the array writes of x.extract drop separator i and one child: child i, or the last one when i is the last separator |
| `BTreePages.ViewDropChs` | Godeps/_workspace/src/github.com/cznic/ql/btree.go:189-199 | catX drops child pi+1 of the parent |
| `BTreePages.ViewDropSeps` | Godeps/_workspace/src/github.com/cznic/ql/btree.go:189-199 | catX drops separator pi of the parent |
| `BTreePages.ViewAbsorb` | Godeps/_workspace/src/github.com/cznic/ql/btree.go:185-188 | catX joins the children and separators of two pages around the parent separator |
| `BTreePages.ViewPushFront` | Godeps/_workspace/src/github.com/cznic/ql/btree.go:581-585 | underflowX puts a child and a separator in front of a page |
| `BTreePages.ViewPopFront` | Godeps/_workspace/src/github.com/cznic/ql/btree.go:597-602 | underflowX takes the first child and separator off a page |
| `BTreePages.ViewHalves` | Godeps/_workspace/src/github.com/cznic/ql/btree.go:532-534 | splitX leaves the lower half and moves the upper half; the separator between them is in neither |
| `BTreePages.XPage.constructor` | Godeps/_workspace/src/github.com/cznic/ql/btree.go:89-93 | a page with one child |
| `BTreePages.XPage.Insert` | Godeps/_workspace/src/github.com/cznic/ql/btree.go:105-117 | separator and child inserted in the arrays in place |
| `BTreePages.XPage.Extract` | Godeps/_workspace/src/github.com/cznic/ql/btree.go:95-103 | separator and child taken out of the arrays in place |
| `BTreePages.XPage.Drop` | Godeps/_workspace/src/github.com/cznic/ql/btree.go:189-199 | separator pi and child pi+1 taken out of the arrays in place |
| `BTreePages.XPage.Absorb` | Godeps/_workspace/src/github.com/cznic/ql/btree.go:185-188 | the children and separators of the right page appended in place |
| `BTreePages.XPage.MoveUpper` | Godeps/_workspace/src/github.com/cznic/ql/btree.go:532-534 | the upper half moved to a new page |
| `BTreePages.XPage.PushFront` | Godeps/_workspace/src/github.com/cznic/ql/btree.go:581-585 | child and separator put in front in place |
| `BTreePages.XPage.PopFront` | Godeps/_workspace/src/github.com/cznic/ql/btree.go:597-602 | first child and separator taken off in place |
| `BTreePages.XPage.PushBack` | Godeps/_workspace/src/github.com/cznic/ql/btree.go:593-595 | child and separator appended in place |
| `BTreePages.XPage.PopBack` | Godeps/_workspace/src/github.com/cznic/ql/btree.go:586-588 | last child and separator taken off |
| `BTreePages.DPage.MvL` | Godeps/_workspace/src/github.com/cznic/ql/btree.go:133-138 | moves exactly the first c entries of r behind those of l |
| `BTreePages.DPage.MvR` | Godeps/_workspace/src/github.com/cznic/ql/btree.go:140-145 | moves exactly the last c entries of l in front of those of r |
| `BTreePages.DPage.Insert` | Godeps/_workspace/src/github.com/cznic/ql/btree.go:349-360 | one entry more, at i, the others in order |
| `BTreePages.DPage.Extract` | Godeps/_workspace/src/github.com/cznic/ql/btree.go:264-274 | one entry less, at i, the others in order |
| `BTreePages.DPage.MoveUpper` | Godeps/_workspace/src/github.com/cznic/ql/btree.go:509-514 | the upper half of the entries moved to a new page |
| `BTreeInv.SplitKeeps` | Godeps/_workspace/src/github.com/cznic/ql/btree.go:528-548 | splitting an index page keeps the whole structure (even height, each separator the leftmost data page of its right subtree, no page twice, chained leaves) and the leaves in order |
| `BTreeInv.ShiftKeeps` | Godeps/_workspace/src/github.com/cznic/ql/btree.go:580-604 | dealing the children of two neighbouring index pages out anew keeps the structure and the leaves in order |
| `BTreeInv.MergeKeeps` | Godeps/_workspace/src/github.com/cznic/ql/btree.go:183-203 | merging two neighbouring index pages keeps the structure and the leaves in order |
| `BTreeInv.GrowKeeps` | Godeps/_workspace/src/github.com/cznic/ql/btree.go:515-519 | a new root above the old one keeps the structure |
| `BTreeInv.ShrinkKeeps` | Godeps/_workspace/src/github.com/cznic/ql/btree.go:189-202 | giving up a root with one child keeps the structure |
| `BTreeLeaf.LeafSplitKeeps` | Godeps/_workspace/src/github.com/cznic/ql/btree.go:499-519 | a data page linked in behind q and entered in p keeps the structure, with first, last, n and p correct |
| `BTreeLeaf.LeafJoinKeeps` | Godeps/_workspace/src/github.com/cznic/ql/btree.go:166-181 | a data page taken out of the chain and out of p keeps the structure, with first, last, n and p correct |
| `BTreeLeaf.LinkInKeeps` | Godeps/_workspace/src/github.com/cznic/ql/btree.go:499-507 | n and p chain the leaves with the new one behind q, and last is right |
| `BTreeLeaf.LinkOutKeeps` | Godeps/_workspace/src/github.com/cznic/ql/btree.go:169-174 | n and p chain the leaves without r, and last is right |
| `BTreeFind.Descend` | Godeps/_workspace/src/github.com/cznic/ql/btree.go:276-310 | between two neighbouring separators around k, everything before the child is below k and everything after it above |
| `BTreeWalk.SepsAscend` | Godeps/_workspace/src/github.com/cznic/ql/btree.go:276-310 | separator keys ascend, because each is the first key of a later subtree |
| `BTreeWalk.StepOnto` | Godeps/_workspace/src/github.com/cznic/ql/btree.go:225-233 | Delete may go on to the subtree that starts with k |
| `BTreeWalk.SameSpot` | Godeps/_workspace/src/github.com/cznic/ql/btree.go:474-479 | restructuring that keeps the leaves keeps what lies before and after the subtree in hand |
| `BTree.Tree.constructor` | Godeps/_workspace/src/github.com/cznic/ql/btree.go:151-153 | a new tree is valid and empty |
| `BTree.Tree.FindX` | Godeps/_workspace/src/github.com/cznic/ql/btree.go:276-310 | a separator equal to k, or the place between the neighbours of k |
| `BTree.Tree.FindD` | Godeps/_workspace/src/github.com/cznic/ql/btree.go:276-310 | an entry equal to k, or the place between the neighbours of k |
| `BTree.Tree.Siblings` | Godeps/_workspace/src/github.com/cznic/ql/btree.go:119-129 | the neighbouring data pages, exactly when there are any |
| `BTree.Tree.Grow` | Godeps/_workspace/src/github.com/cznic/ql/btree.go:537-539 | a new root above the old one; leaves kept |
| `BTree.Tree.BorrowLeft` | Godeps/_workspace/src/github.com/cznic/ql/btree.go:580-590 | the last subtree of the left sibling moves to q with the right separators; leaves kept |
| `BTree.Tree.BorrowRight` | Godeps/_workspace/src/github.com/cznic/ql/btree.go:592-604 | the first subtree of the right sibling moves to q with the right separators; leaves kept |
| `BTree.Tree.InsertD` | Godeps/_workspace/src/github.com/cznic/ql/btree.go:349-360 | the contents gain one entry at its place, and the count one |
| `BTree.Tree.ExtractD` | Godeps/_workspace/src/github.com/cznic/ql/btree.go:264-274 | the contents lose one entry, and the count one |
| `BTree.Tree.LinkNew` | Godeps/_workspace/src/github.com/cznic/ql/btree.go:499-507 | a new data page is chained in behind q |
| `BTree.Tree.Unlink` | Godeps/_workspace/src/github.com/cznic/ql/btree.go:168-175 | the entries of r move to q and r leaves the chain |
| `BTree.Tree.SplitD` | Godeps/_workspace/src/github.com/cznic/ql/btree.go:499-519 | the upper half of a full data page moves to a new one that p has entered |
| `BTree.Tree.SpillLeft` | Godeps/_workspace/src/github.com/cznic/ql/btree.go:381-385 | one entry moves to the left sibling and the new entry gets its place; occupancy kept |
| `BTree.Tree.SpillRight` | Godeps/_workspace/src/github.com/cznic/ql/btree.go:387-395 | one entry moves to the right sibling, or the new one goes there; occupancy kept |
| `BTree.Tree.ShiftRight` | Godeps/_workspace/src/github.com/cznic/ql/btree.go:554-555 | an entry moves in from the left sibling: contents kept, occupancy restored |
| `BTree.Tree.ShiftLeft` | Godeps/_workspace/src/github.com/cznic/ql/btree.go:556-558 | an entry moves in from the right sibling: contents kept, occupancy restored |
| `BTree.Tree.SplitX` | Godeps/_workspace/src/github.com/cznic/ql/btree.go:528-548 | keeps the structure, the occupancy bounds, the contents and the subtree that Set goes on to, also at the root |
| `BTree.Tree.CatX` | Godeps/_workspace/src/github.com/cznic/ql/btree.go:183-203 | keeps the structure, the occupancy bounds and the contents, also when the root goes |
| `BTree.Tree.UnderflowX` | Godeps/_workspace/src/github.com/cznic/ql/btree.go:566-614 | in all four branches: structure, occupancy and contents kept, the page refilled, and the subtree that Delete goes on to |
| `BTree.Tree.Split` | Godeps/_workspace/src/github.com/cznic/ql/btree.go:497-526 | the contents gain the new entry at its place; structure and occupancy kept, also at the root |
| `BTree.Tree.Overflow` | Godeps/_workspace/src/github.com/cznic/ql/btree.go:377-398 | in all four branches the contents gain the new entry at its place; structure and occupancy kept |
| `BTree.Tree.Cat` | Godeps/_workspace/src/github.com/cznic/ql/btree.go:166-181 | contents unchanged, structure and occupancy kept, also when the root goes |
| `BTree.Tree.Underflow` | Godeps/_workspace/src/github.com/cznic/ql/btree.go:550-564 | in all four branches contents unchanged and the occupancy bounds restored |
| `BTree.Tree.Get` | Godeps/_workspace/src/github.com/cznic/ql/btree.go:324-347 | finds what the reference map finds |
| `BTree.Tree.Replace` | Godeps/_workspace/src/github.com/cznic/ql/btree.go:462-470 | replacing the entry found is Set on the reference map |
| `BTree.Tree.AddAt` | Godeps/_workspace/src/github.com/cznic/ql/btree.go:480-487 | adding at the place found is Set on the reference map |
| `BTree.Tree.DescendSet` | Godeps/_workspace/src/github.com/cznic/ql/btree.go:473-479 | splitting a full page on the way down keeps the contents and the place of k, and leaves room in the parent |
| `BTree.Tree.AddFirst` | Godeps/_workspace/src/github.com/cznic/ql/btree.go:492-493 | the first entry of an empty tree |
| `BTree.Tree.SetD` | Godeps/_workspace/src/github.com/cznic/ql/btree.go:466-487 | at a data page, replacing or adding is Set on the reference map |
| `BTree.Tree.Set` | Godeps/_workspace/src/github.com/cznic/ql/btree.go:455-495 | keeps the valid B+tree, and the contents become those of the reference map after the same Set |
| `BTree.Tree.DescendDelete` | Godeps/_workspace/src/github.com/cznic/ql/btree.go:225-233 | refilling a low page on the way down keeps the contents and the place of k, and leaves the parent one to spare |
| `BTree.Tree.RemoveAt` | Godeps/_workspace/src/github.com/cznic/ql/btree.go:235-245 | removing the entry found is Delete on the reference map, also when it was the last |
| `BTree.Tree.DeleteD` | Godeps/_workspace/src/github.com/cznic/ql/btree.go:235-259 | at a data page, removing what is found, or nothing, is Delete on the reference map |
| `BTree.Tree.Delete` | Godeps/_workspace/src/github.com/cznic/ql/btree.go:207-262 | keeps the valid B+tree, the contents become those of the reference map after the same Delete, and ok says whether the key was there |
| `BTree.Tree.Clear` | Godeps/_workspace/src/github.com/cznic/ql/btree.go:156-164 | a valid, empty tree |
| `BTree.Tree.First` | Godeps/_workspace/src/github.com/cznic/ql/btree.go:314-320 | the first entry in collating order, if any |
| `BTree.Tree.Last` | Godeps/_workspace/src/github.com/cznic/ql/btree.go:364-370 | the last entry in collating order, if any |
| `BTree.Replay` | Godeps/_workspace/src/github.com/cznic/ql/btree.go:207-262 | after every sequence of Set and Delete on a new tree, Get yields the last write of the key |
| `BTreeOrder.KeepsSorted` | Godeps/_workspace/src/github.com/cznic/ql/btree.go:455-495 | the reference map keeps the entries in strictly ascending key order |
| `BTreeOrder.MapLaws` | Godeps/_workspace/src/github.com/cznic/ql/btree.go:324-347 | the reference map finds what was set under that key and no other, and nothing that was removed |
| `BTreeOrder.RunIsFiniteMap` | Godeps/_workspace/src/github.com/cznic/ql/btree.go:207-262 | a run of the reference map yields for every key the last write |
| `KeyLock.SeesItself` | pkg/lock/keylock.go:195-215 | equal inode numbers of two open files mean one file, however numbers are reused |
| `KeyLock.KeepsInv` | pkg/lock/keylock.go:167-232 | every step of a locker or cleaner keeps: known files, distinct numbers of live files, compatible locks, and that what an agent learnt about the path is still true |
| `KeyLock.RunKeepsInv` | pkg/lock/keylock.go:167-232 | every run keeps the same |
| `KeyLock.MutualExclusion` | pkg/lock/keylock.go:167-232 | in every run a validated exclusive holder excludes every other validated holder of the key, and validated holders have locked the file the path names |
| `KeyLock.UnlinkIsSafe` | pkg/lock/keylock.go:246-274 | CleanKeyLocks unlinks exactly the file it has locked, while nobody else has a lock on it or holds the key |
| `KeyLock.CleanRemoves` | pkg/lock/keylock.go:246-274 | in every reachable state an idle cleaner can by its own steps unlink a lock file that nobody has locked, and no other |
| `KeyLock.DirOnlyUnlinked` | pkg/lock/keylock.go:246-274 | no other step changes what an existing path names |
| `KeyLock.HoldIsStable` | pkg/lock/keylock.go:167-232 | whatever others do, a holder keeps its lock and the path keeps naming its file |
| `KeyLock.BoundedRetries` | pkg/lock/keylock.go:167-230 | in every run, between the first flock of a lock call and its return the call starts over at most three times, always for the mode asked for, and it gives up only after exactly three |
| `KeyLock.RestartSucceeds` | pkg/lock/keylock.go:218-230 | in every run, a lock call that finds its file replaced after at most two restarts can by its own steps alone come to hold the key in the mode asked for, unless others have locked the file that the path names now |
| `KeyLock.LockSucceeds` | pkg/lock/keylock.go:167-232 | in every reachable state an idle agent can by its own steps come to hold k in any mode that the locks of others allow, whether or not the file is there |
| `KeyLock.LocksIff` | pkg/lock/keylock.go:167-232 | it can if and only if every lock of others on the file that k names is shared and so is the mode |
| `KeyLock.TryFails` | pkg/lock/keylock.go:189-191 | a call can also be refused, and then has no lock |
| `KeyLock.ReturnEndsCall` | pkg/lock/keylock.go:167-232 | once a call has returned, the next one counts its restarts anew |
| `KeyLock.Releases` | pkg/lock/keylock.go:234-241 | unlocking, closing or dying gives up the lock and touches nobody else |
| `KeyLock.FailsLocked` | pkg/lock/keylock.go:205-220 | a call that gives up, or finds no file under its path, fails with its lock still on the replaced file |
| `KeyLock.RetriesNeedUnlinks` | pkg/lock/keylock.go:188-230 | a lock call starts over at most once for each unlink of its key by a cleaner during the call, and once more if the file it had open was unlinked before |
| `KeyLock.FlockAloneRaces` | pkg/lock/keylock.go:153-166 | without the check of the path two agents lock one key exclusively |
| `KeyLock.PromotionIsNotAtomic` | pkg/lock/keylock.go:95-101 | in every reachable state in which a holds k and calls for mode m: an idle agent can on its own come to hold k exclusively during the call if and only if m is not the mode held and nobody but a has a lock on the file; with the help of agents other than a if and only if m is not the mode held |
| `KeyLock.KeepsLockIffSameMode` | pkg/lock/keylock.go:95-101 | in every reachable state a lock call by a holder keeps a lock on the named file throughout if and only if it asks for the mode already held |
| `KeyLock.StaysUndisturbed` | pkg/lock/keylock.go:95-101 | a call for the mode already held cannot fail, whatever the others do: the idempotence that the comments promise |
| `KeyLock.NameStays` | pkg/lock/keylock.go:167-232 | any lock on the named file, validated or not, keeps the name in place whatever the others do |
| `Primes.ProdDivides` | Godeps/_workspace/src/github.com/cznic/mathutil/rnd.go:30-35 | a number divisible by each of several distinct primes is divisible by their product |
| `FullCycle.SumInjective` | Godeps/_workspace/src/github.com/cznic/mathutil/rnd.go:115-129 | different residues select different sums of factors: the factors are shuffled digits of a mixed-radix number |
| `FullCycle.PositionsDiffer` | Godeps/_workspace/src/github.com/cznic/mathutil/rnd.go:143-171 | positions less than a cycle apart have different residues (the Chinese remainder theorem) |
| `FullCycle.SumBound` | Godeps/_workspace/src/github.com/cznic/mathutil/rnd.go:115-129 | the sum of selected factors is below the product of the primes |
| `CycleRun.OutsDistinct` | Godeps/_workspace/src/github.com/cznic/mathutil/rnd.go:143-171 | within one cycle no value is returned twice |
| `CycleRun.MoreToCome` | Godeps/_workspace/src/github.com/cznic/mathutil/rnd.go:143-171 | until every value was returned another one comes within the cycle |
| `CycleRun.AllOuts` | Godeps/_workspace/src/github.com/cznic/mathutil/rnd.go:143-171 | delta+1 values returned within one cycle are all the values, each once |
| `CycleRun.ValSurjective` | Godeps/_workspace/src/github.com/cznic/mathutil/rnd.go:143-171 | every inner value comes up within one cycle |
| `CycleRun.MovedIsAt` | Godeps/_workspace/src/github.com/cznic/mathutil/rnd.go:155-166 | the switch that moves a stored residue, even one out of range, is one step modulo the prime |
| `FC32.Delete` | Godeps/_workspace/src/github.com/cznic/mathutil/rnd.go:173-180 | drops the element at i and no other |
| `FC32.Rol` | Godeps/_workspace/src/github.com/cznic/mathutil/rnd.go:192-198 | doubles a 64-bit word modulo 2^64 - 1, and is 0, or all ones, only for that word itself |
| `FC32.OneRotation` | Godeps/_workspace/src/github.com/cznic/mathutil/rnd.go:192-198 | that makes the word rotated k places unique |
| `FC32.MixedPermutes` | Godeps/_workspace/src/github.com/cznic/mathutil/rnd.go:182-190 | mix yields a permutation, whatever the seed |
| `FC32.MixedPicks` | Godeps/_workspace/src/github.com/cznic/mathutil/rnd.go:182-190 | output j is the element at index w % (n - j) of the inputs not yet taken, in input order, with w the seed rotated j + 1 places; the seed is left rotated n places |
| `FC32.OneMix` | Godeps/_workspace/src/github.com/cznic/mathutil/rnd.go:182-190 | that determines the output |
| `FC32.Mix` | Godeps/_workspace/src/github.com/cznic/mathutil/rnd.go:182-190 | the loop yields what MixedPicks says, a permutation, and the rotated seed |
| `FC32.MakeFactors` | Godeps/_workspace/src/github.com/cznic/mathutil/rnd.go:118-128 | factor i is the multiples of the i-th magnitude, mixed with the seed rotated on from where the factor before left it |
| `FC32.Generator.constructor` | Godeps/_workspace/src/github.com/cznic/mathutil/rnd.go:79-88 | a generator at position 0, seeded with 1, with the full cycle property |
| `FC32.Generator.Seed` | Godeps/_workspace/src/github.com/cznic/mathutil/rnd.go:115-129 | any seed yields a generator with the full cycle property; the primes are mixed first, then the factors one after the other, with the seed rotating on through all of them |
| `FC32.Generator.Seek` | Godeps/_workspace/src/github.com/cznic/mathutil/rnd.go:132-141 | Pos becomes the absolute value modulo Cycle exactly when 64-bit negation does not overflow or the cycle divides 2^63, otherwise -(2^63 % Cycle); without overflow the residues match it |
| `FC32.Generator.Advance` | Godeps/_workspace/src/github.com/cznic/mathutil/rnd.go:145-166 | position and residues move one step, stay matched, and the sum of the selected factors is returned |
| `FC32.Generator.Step` | Godeps/_workspace/src/github.com/cznic/mathutil/rnd.go:143-171 | the loop ends, at the first inner value up to delta |
| `FC32.Generator.Next` | Godeps/_workspace/src/github.com/cznic/mathutil/rnd.go:98-100 | the first value up to delta ahead |
| `FC32.Generator.Prev` | Godeps/_workspace/src/github.com/cznic/mathutil/rnd.go:108-110 | the first value up to delta behind |
| `FC32.Generator.NextThenPrev` | Godeps/_workspace/src/github.com/cznic/mathutil/rnd.go:108-110 | Prev takes Next back |
| `FC32.Generator.Sweep` | Godeps/_workspace/src/github.com/cznic/mathutil/rnd.go:143-171 | from any state, hi-lo+1 calls of Next, or of Prev, return each integer of [lo, hi] exactly once |
| `FC32.Primorial` | Godeps/_workspace/src/github.com/cznic/mathutil/rnd.go:48-59 | from 2, or from 3 with hq, ascending primes whose product first exceeds delta, none twice the one before, without overflow of int64 |
| `FC32.NextStage` | Godeps/_workspace/src/github.com/cznic/mathutil/rnd.go:51-59 | up to the widest range the product reaches few enough primes that each next prime is below twice the one before |
| `FC32.FitsInt64` | Godeps/_workspace/src/github.com/cznic/mathutil/rnd.go:48-59 | the product of the primes is below 2^63 |
| `FC32.Shrink` | Godeps/_workspace/src/github.com/cznic/mathutil/rnd.go:64-78 | drops at most one prime; the product still exceeds delta and is at most the first prime times the period |
| `FC32.New` | Godeps/_workspace/src/github.com/cznic/mathutil/rnd.go:37-89 | fails exactly for an empty or too wide range; otherwise a generator at position 0 whose cycle is at most twice the period, three times with hq |
| `Pods.Forward` | rkt/pods.go:336-485 | every rename moves a pod on in the order in which getPod and listPods look |
| `Pods.KeepsInv` | rkt/pods.go:152-283 | every step of any process keeps what each handle knows about the pod, despite stale flags |
| `Pods.RunKeepsInv` | rkt/pods.go:152-283 | every run keeps the same |
| `Pods.ExitsAfterRelease` | rkt/pods.go:437-459 | a rename from run/ to exited-garbage/ succeeds only after the handle that moved the pod into run/ was closed |
| `Pods.AbortsAfterDeath` | rkt/pods.go:462-485 | a rename from prepare/ to garbage/ succeeds only once the handle of the creator is gone |
| `Pods.LockedInPlace` | rkt/pods.go:336-434 | a pod being prepared or run is exclusively locked by its creator or mover, and a running pod stays in run/ |
| `Pods.RunsOnce` | rkt/pods.go:403-434 | a pod enters run/ at most once, and a pod in garbage/ never did |
| `Pods.RemovesOnlyGarbage` | rkt/gc.go:182-238 | contents and directory are removed only in the two garbage directories, by the only holder of a lock |
| `Pods.DeleteIsGarbage` | rkt/rm.go:91-136 | the callers of deletePod pass only handles whose flags say garbage |
| `Pods.NeverPanics` | rkt/gc.go:164-185 | in every run deletePod does not panic, and its path is where the pod is |
| `Pods.GcDeletes` | rkt/gc.go:97-178 | in every reachable state emptyExitedGarbage and emptyGarbage can by their own steps get rid of a pod in their directory that nobody has locked |
| `Pods.GcInterrupted` | rkt/gc.go:164-238 | a gc that dies half way leaves the pod without contents in its garbage directory, unlocked, for the next one |
| `Pods.GcMoves` | rkt/gc.go:81-161 | in every reachable state renameExited, renameAborted and renameExpired can by their own steps move an unlocked pod to the directory they name |
| `Pods.RmDeletes` | rkt/rm.go:91-136 | in every reachable state rm can by its own steps get rid of a prepared, aborted, exited or garbage pod that nobody has locked |
| `Pods.RmLeavesBusy` | rkt/rm.go:91-103 | a pod that rm finds locked it neither moves nor deletes |
| `Pods.RmLeavesExitedGarbage` | rkt/rm.go:119-126 | a pod that rm finds in exited-garbage/ stays there, because an earlier case takes it for an exited one |
| `Pods.CreatorRuns` | rkt/pods.go:336-434 | in every reachable state without the pod, its creator can by its own steps bring it to prepared/, unlocked, and then to run/, locked |
| `Pods.ContentsIntact` | rkt/gc.go:182-238 | in every reachable state a pod that has not come to a garbage directory has its contents |
| `Pods.WaiterSeesExit` | rkt/pods.go:653-676 | waitExited on a running pod comes to see that it has exited once nobody has it locked |
| `Pods.WaitsForExit` | rkt/pods.go:653-676 | its shared lock is not to be had while a handle that runs the pod is open |
| `Pods.FlagsTell` | rkt/pods.go:194-283 | the cached flags tell the directory and, where a lock means something, whether there is one |
| `Pods.PassesOn` | rkt/pods.go:129-140 | in every reachable state a walk over d passes on exactly the pods found in d and those found exited in run/, and the latter only if d comes before run/ |
| `Pods.PassesStrangerIff` | rkt/pods.go:129-140 | a gc walk over d can pass on a pod found in another directory if and only if d comes before run/ |
| `Pods.GetPodComplete` | rkt/pods.go:194-235 | getPod misses a pod that existed at its start only if the pod is deleted by the end |
| `Pods.ListPodsComplete` | rkt/pods.go:495-541 | listPods lists every pod that stays inside the included directories throughout |
| `ImageStore.KeepsInv` | store/store.go:280-395 | every step of an import or removal, or its death, keeps every row backed, unless a removal loses its Commit |
| `ImageStore.RunKeepsInv` | store/store.go:280-395 | every run keeps the same |
| `ImageStore.RowsAreBacked` | store/store.go:306-337 | after any concurrent run stopped anywhere, in which no removal lost its Commit, every row has its complete blob and a manifest file |
| `ImageStore.ImportSucceeds` | store/store.go:306-337 | in every reachable state an import that nobody is in the way of ends with blob, manifest and row, and leaves other keys alone |
| `ImageStore.RemovalSucceeds` | store/store.go:350-395 | in every reachable state the removal of an image with a row that nobody is in the way of ends with neither row nor blob nor manifest, and leaves other keys alone |
| `ImageStore.RemovalFindsNothing` | store/store.go:350-395 | a removal without a row changes nothing |
| `ImageStore.RowsByCommit` | store/db.go:101-114 | a row comes only by the commit of an import and goes only by the commit of a removal of its key |
| `ImageStore.FilesByOwner` | store/store.go:306-395 | a blob or manifest changes only by the import or a successful erase of the process that has its key |
| `ImageStore.DeathKeeps` | store/store.go:306-395 | a process that dies leaves files and rows as they are |
| `ImageStore.LostRemovalBreaks` | store/db.go:101-114 | a removal whose Commit error is dropped erases the blob of a row that stays |
| `ImageStore.BackedIffCommitted` | store/store.go:350-395 | from every good state, a step leaves rows that stay backed whatever follows, short of a further lost Commit, if and only if it is not a removal that loses its Commit |
| `ImageStore.FullStep` | store/store.go:316-325 | a step keeps every manifest of a row complete exactly when it does not rewrite the manifest of an image that has a row |
| `ImageStore.RowsAreFullyBacked` | store/store.go:316-337 | rows keep complete manifests in every run without such a rewrite |
| `TreeStore.CrashSafe` | store/tree.go:52-134 | after a crash a surviving flag implies the complete tree and its hash |
| `TreeStore.CrashLoses` | store/tree.go:118-131 | from an unsafe state with the hash file gone some crash leaves the flag beside an incomplete tree |
| `TreeStore.KilledBeforeSync` | store/tree.go:117-131 | a process killed between unlinking the flag and syncing leaves a state in which the next Remove skips the sync |
| `TreeStore.SyncNeeded` | store/tree.go:77-85 | with any file not yet certain on disk, the flag and a sync of the directory alone leave an unsafe state |
| `TreeStore.Tree.Remove` | store/tree.go:100-134 | succeeds when nothing fails; crash-safe at every step when the flag is certainly off the disk before anything else goes; a removal that succeeds ends crash-safe exactly then |
| `TreeStore.Tree.RemoveAll` | store/tree.go:133 | entries go in any order; succeeds if and only if no entry is stuck and the directory can be removed; safe at every step if the flag was certainly gone |
| `TreeStore.Tree.Render` | store/tree.go:65-68 | files are written in any order, without the flag; succeeds if and only if all can be written |
| `TreeStore.Tree.Seal` | store/tree.go:69-96 | the flag is written only once tree and hash are certainly on disk; success means complete tree, hash and flag on disk |
| `TreeStore.Tree.Write` | store/tree.go:52-97 | succeeds when nothing fails and there is no directory, and changes nothing when there is; from a crash-safe state crash-safe at every step; success means complete tree, hash and flag on disk |
| `TreeStore.Tree.RenderTreeStore` | store/store.go:401-431 | succeeds when nothing fails, and success means the complete tree with hash and flag; crash-safe at every step if nothing is removed or removing is safe, and for a call that succeeds only then |
| `TreeStore.Tree.Check` | store/tree.go:185-199 | succeeds exactly when the hash file holds the digest of the tree, so on every complete tree |
| `TreeHash.XattrOrder` | store/tree.go:239-250 | the listed attributes do not depend on the order of ranging over the map |
| `TreeHash.ListXattrs` | store/tree.go:239-250 | an empty name for every attribute and then the attributes in order, so the list is that of the attributes if and only if there are none |
| `TreeHash.KeysAre` | store/tree.go:239-243 | sort.Strings leaves one empty string per attribute in front of the sorted names |
| `TreeHash.OneSorting` | store/tree.go:239-250 | a multiset of strings has one sorted listing |
| `TreeHash.SkippedDoNotCount` | store/tree.go:266-273 | manifest, hash, rendered and sockets may come and go without changing what is hashed |
| `TreeHash.OrderDoesNotCount` | store/tree.go:227-251 | what FileInfoFromHeader makes of a header does not depend on the order of ranging over its attributes |
| `TreeHash.XattrsDoNotCount` | store/tree.go:299-307 | trees alike but for the extended attributes of their files are hashed alike: the walker leaves the attributes of a header empty |
| `TreeHash.ItemsSized` | store/tree.go:299-318 | every header that is hashed has the size of the body that follows |
| `TreeHash.StreamDecodes` | store/tree.go:331-351 | the hashed stream determines every header and every body |
| `TreeHash.EqualItems` | store/tree.go:255-321 | two walks add the same to the hash if and only if they found the same files |
| `TreeHash.EqualStreams` | store/tree.go:255-321 | two walks write the same stream if and only if the files that are not left out agree pairwise in path, mode, uid, gid and device numbers, the same positions are hard links to the same positions, and kind, target and data agree wherever an inode first comes up |
| `TreeHash.EveryFileCounts` | store/tree.go:266-321 | for walks without sockets and without manifest, hash and rendered at the top, the streams are equal if and only if the files are the same |
| `TreeHash.AddsNothingIff` | store/tree.go:269-279 | a file adds nothing to the stream if and only if it is manifest, hash or rendered at the top, or a socket |
| `TreeHash.HeaderSays` | store/tree.go:299-318 | name, mode, owner, type, link target, size and device of the header of every kind of file |
| `TreeHash.Walker.Visit` | store/tree.go:299-318 | one file adds its header and body once; a known inode becomes a hard link without body |
| `TreeHash.HashStream` | store/tree.go:168-181 | the whole walk writes the stream of the tree |
| `TreeHash.CheckAfterWrite` | store/tree.go:185-199 | Check right after Write finds the digest that Write stored |
| `Permute.FallingIsLast` | Godeps/_workspace/src/github.com/cznic/mathutil/permute.go:20-39 | a falling sequence is the last arrangement of its elements |
| `Permute.NextPermutes` | Godeps/_workspace/src/github.com/cznic/mathutil/permute.go:20-39 | swapping and reversing the tail yields a permutation |
| `Permute.NextIsLater` | Godeps/_workspace/src/github.com/cznic/mathutil/permute.go:20-39 | it comes later in the order |
| `Permute.NextIsLeast` | Godeps/_workspace/src/github.com/cznic/mathutil/permute.go:20-39 | no arrangement lies between a sequence and its next permutation, duplicates included |
| `Permute.PermutationNext` | Godeps/_workspace/src/github.com/cznic/mathutil/permute.go:20-39 | false and unchanged exactly when no greater arrangement exists; otherwise the least greater permutation |
| `Sqrt.ThroughNext` | Godeps/_workspace/src/github.com/cznic/mathutil/mathutil.go:117-123 | one below a square, the iteration never steps past the value above the root, so it enters the two-cycle there |
| `Sqrt.RootUnique` | Godeps/_workspace/src/github.com/cznic/mathutil/mathutil.go:109-126 | the floor of the square root is the only number with that property |
| `Sqrt.Iterate` | Godeps/_workspace/src/github.com/cznic/mathutil/mathutil.go:117-125 | the loop ends within the word and returns the floor of the square root |
| `Sqrt.ISqrt` | Godeps/_workspace/src/github.com/cznic/mathutil/mathutil.go:109-126 | floor of the square root of every uint32 |
| `Sqrt.SqrtUint64` | Godeps/_workspace/src/github.com/cznic/mathutil/mathutil.go:129-146 | floor of the square root of every uint64 |
| `Wide.Add` | Godeps/_workspace/src/github.com/cznic/mathutil/mathutil.go:358-364 | carry and wrapped sum make up the sum |
| `Wide.Mul` | Godeps/_workspace/src/github.com/cznic/mathutil/mathutil.go:367-387 | hi * 2^64 + lo is the product, for all uint64 |
| `ModPow.ModPow` | Godeps/_workspace/src/github.com/cznic/mathutil/mathutil.go:242-296 | b^e mod m without overflow, and exactly when it panics |
| `ModPow.Turn` | Godeps/_workspace/src/github.com/cznic/mathutil/mathutil.go:252-256 | one turn of the loop keeps r * b^e modulo m |
| `QuoteExec.FourStepsIsEscape` | stage1/init/pod.go:123-126 | the four replacements equal one escape per character |
| `QuoteExec.Quote` | stage1/init/pod.go:110-132 | the first word as it is, then every argument escaped and quoted; a panic for the empty vector |
| `QuoteExec.ReadArgsBack` | stage1/init/pod.go:122-128 | the quoted arguments are read back, whatever is in them |
| `QuoteExec.ReadBack` | stage1/init/pod.go:110-132 | the line gives the vector back if and only if its first word has no space |
| `QuoteExec.SpaceIsAmbiguous` | stage1/init/pod.go:117-118 | with a space in the first word two vectors share a line |
| `QuoteExec.SharedLine` | stage1/init/pod.go:110-132 | two different vectors share a line if and only if the first word of one is the first word of the other followed by some of its quoted arguments, and the remaining arguments agree |
| `QuoteExec.NeverInside` | stage1/init/pod.go:122-128 | the rest of a line from inside a quoted argument is never a list of quoted arguments |
| `EnvFile.Write` | stage1/init/pod.go:338-349 | the defaults that the app does not set, then the variables of the app |
| `EnvFile.Append` | stage1/diagexec/diagexec.c:151-175 | adds the kept variables that the process has |
| `EnvFile.NextVar` | stage1/diagexec/diagexec.c:201-209 | one entry of the buffer, cut at its first = in place |
| `EnvFile.Load` | stage1/diagexec/diagexec.c:190-211 | reads every file, malformed ones included, as the format says |
| `EnvFile.ReadWritten` | stage1/diagexec/diagexec.c:190-211 | reading written variables with good names and values sets exactly those, in order |
| `EnvFile.ReadIsGood` | stage1/diagexec/diagexec.c:190-211 | whatever the file, only good names and values are loaded |
| `EnvFile.MalformedIsRefused` | stage1/diagexec/diagexec.c:201-209 | a file is refused as a whole if, behind any good entries, one has no = or starts with it |
| `EnvFile.BackIffGood` | stage1/init/pod.go:338-349 | variables of different names come back if and only if names are not empty and have no =, and neither names nor values have a NUL |
| `EnvFile.DefaultsOverridden` | stage1/init/pod.go:338-349 | whatever the order of the defaults, the file stands for the defaults overridden by the environment of the app |
| `EnvFile.KeptAgain` | stage1/diagexec/diagexec.c:151-175 | after any number of runs the environment is what the last run alone would have made of it if and only if every kept variable that the last run lacks has, from the latest run that had it, the value that it would have anyway |
| `EnvFile.AllKeptAt` | stage1/diagexec/diagexec.c:151-175 | after any runs a kept variable has its value of the latest run that had it, and all else is as before |
| `EnvFile.Lingers` | stage1/diagexec/diagexec.c:151-175 | a variable of the first run stays when the second run has none |
| `EnvFile.SameAgain` | stage1/diagexec/diagexec.c:151-175 | runs with one environment leave nothing behind |
| `EnvFile.WriteAndLoad` | stage1/diagexec/diagexec.c:182-211 | after any number of runs the file stands for the defaults, overridden by the app, overridden by what each run kept; good variables are loaded as that, and as what the last run alone would have made of it if and only if nothing lingers |
| `Filelist.LinesDropped` | tools/common/filelist/filelist.go:86-110 | lines without a newline come back from the scanner without their final carriage returns, whatever text follows |
| `Filelist.CountBack` | tools/common/filelist/filelist.go:135-145 | a written count is read back, up to the largest int |
| `Filelist.NegativeRead` | tools/common/filelist/filelist.go:135-145 | a negative count is read as one, down to the least int |
| `Filelist.CountRefused` | tools/common/filelist/filelist.go:135-145 | a count without its parentheses, or beyond int, is refused |
| `Filelist.Generate` | tools/common/filelist/filelist.go:163-187 | the text of the three blocks |
| `Filelist.WriteBlock` | tools/common/filelist/filelist.go:166-183 | the text of one block, also of an empty list |
| `Filelist.Parser.ParseHeader` | tools/common/filelist/filelist.go:117-146 | kind and count, the end of the file, or an error |
| `Filelist.Parser.ParseList` | tools/common/filelist/filelist.go:86-110 | accepts exactly count items ended by an empty line; panics if and only if the count is negative or above the largest capacity that make takes, before any line is read |
| `Filelist.Parser.Parse` | tools/common/filelist/filelist.go:61-82 | the lists that the blocks assign, an error or a panic |
| `Filelist.UnknownKind` | tools/common/filelist/filelist.go:71-74 | a block of a kind that is none of the three is an error |
| `Filelist.CountMustMatch` | tools/common/filelist/filelist.go:86-110 | a block of items ended by an empty line is assigned to the list of its kind if its count is the number of its items, and is an error otherwise |
| `Filelist.CutOff` | tools/common/filelist/filelist.go:86-110 | a list that the end of the file cuts off is an error |
| `Filelist.BackIffPlain` | tools/common/filelist/filelist.go:61-187 | the same round trip on the text, whatever the receiving lists held before |
| `Filelist.RoundTrip` | tools/common/filelist/filelist.go:61-187 | whatever the receiving lists held before, generating and parsing restores the lists if and only if no item is empty, has a newline or ends in a carriage return |
| `Backup.Backups.Prune` | store/backup.go:59-80 | removes exactly the entries whose name is a number from limit on, in any spelling |
| `Backup.Backups.Shift` | store/backup.go:84-96 | moves the numbers up to oldest one place up and nothing else |
| `Backup.Backups.Create` | store/backup.go:35-55 | the new copy at 0, old i at i+1 up to limit-2, nothing numbered limit or more |
| `Backup.Rotate` | store/backup.go:35-55 | after n backups the newest min(n, limit) snapshots, newest first |

## Left out

- Network fetch, OpenPGP, JSON, SQL, D-Bus, netlink, mounts and exec: effects and libraries outside the modelled files.
- The variant of the B+tree in cznic/b, enumerators, and the version counter that only they read.
- Clearing of unused array slots for the garbage collector in the B+tree, and `clr` zeroing dropped pages.
- BTree.Tree.SplitX: at the root the model makes the new root first and splits then; the source splits first. The outcome is the same.
- BTree.Tree.Split: as SplitX.
- FC32.New: `NextPrime` is a parameter, with what it promises as a precondition: the least prime above p, for p below the largest prime under 2^32.
- The FCBig generator, PermutationFirst, prime tables, log2 and popcount tables, ModPowUint64 and the big.Int variants.
- Permute.PermutationNext: elements are integers that stand for their place in the order of Less.
- Power loss in the image store: blobs and manifests are not synced by the source, so only the death of processes is modelled there.
- Copying an image across devices in diskv's Import, which the model takes to be a rename, and the Remote rows of the database.
- TreeHash.EqualStreams: filepath.Walk visits each path once, which is a precondition; the tree is on one device, and errors of reading files are not modelled.
- TreeHash.StreamDecodes: SHA-512 and the JSON encoding are parameters; the encoding is taken to be self-delimiting.
- TreeStore.Tree.Render: rendering writes each file once, in any order; acirenderer is not part of this model.
- The path on which NewLock fails in newPod, after which it removes the empty embryo directory.
- The nil pod that runRm passes on to removePod after getPod failed.
- What waitExited returns, and its nap in prepared/; handles may take and release shared locks and refresh their flags at any time.
- Pods.RemovesOnlyGarbage: stage1's own garbage collection and the unmounts before RemoveAll are not modelled.
- KeyLock.SeesItself: device numbers are not compared; the lock directory is on one device.
- Backup.Backups.Create: a directory tmp that an earlier crash left behind, and failing renames, are not modelled.
- The 64 KiB line limit of bufio.Scanner in the file lists.
- Filelist.Parser.ParseList: the largest capacity is a constant of unknown value; running out of memory below it is not modelled.
- QuoteExec.ReadBack: the reader covers quotes, $ and systemd's escapes by one letter, not its numeric escapes, % specifiers or line breaks in unit files.

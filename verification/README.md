# Linux library code in user space, verified

The repository ports library code of Linux 4.14.43 to user space. This project models four parts of it in Dafny and
proves what their comments and documentation promise:

* **Red-black trees** (`rbtree.c`, `rbtree_augmented.h`, `rbtree.h`, `myrbtree.h`). Nodes are objects with parent,
  child and colour fields, as in C. A ghost tree and ghost snapshots of memory say what they hold. Insertion, erasure
  and replacement are the C code store by store; `log` has memory after every store to a child pointer, none left out:
  from one recorded state to the next a single child pointer changes, or the root. No recorded state has a loop of child
  pointers, which is the claim that lockless readers rely on.
* **Radix trees** (`radix-tree.c`, `radix-tree.h`): growing, shrinking, freeing, aggregated tags, the chunked iterator
  and the search for a free id. Nodes are objects with 64 slots and three tag words; the ghost fields `items` and
  `tagged` are the map and the tag sets that the tree stands for. Allocations may fail, and `RxNeed` says how many it
  takes, so that -ENOMEM is exact.
* **Lock-less lists** (`llist.c`, `llist.h`), as a step machine: every load, store, cmpxchg and xchg of every thread
  is one step, and a run is any interleaving of them.
* **Bitmaps, bit counting and heapsort** (`bitmap.c`, `find_bit.c`, `hweight.c`, `asm-generic/bitops`, `sort.c`), on
  arrays of 64-bit words and of bytes, in place where the C code works in place.

## Layout

| files | contents |
|---|---|
| `RbModel`, `RbHeap` | trees with a hole (contexts), colours, folds; memory snapshots, what it means that memory holds a tree, loops |
| `RbRotate`, `RbInsert`, `RbUnlink`, `RbSuccessor`, `RbEraseColor`, `RbErase`, `RbReplace` | the operations that change a tree |
| `RbWalk`, `RbOrder`, `RbSearch`, `RbAugmented`, `RbRun` | traversals, search order and height, search and insertion by key, insertion with callbacks, whole runs |
| `RxModel`, `RxHeap`, `RxSteps`, `RxShape`, `RxShrink`, `RxSnug`, `RxNeed` | radix tree memory, its invariants, and what each kind of change does to them; the canonical form; how many nodes an index needs |
| `RxTree`, `RxInsert`, `RxTags`, `RxDelete`, `RxRun` | lookup and extension, insertion, tags, deletion, whole runs |
| `RxIter`, `RxWalk`, `RxIdr`, `RxIdrRun` | next chunk and next slot, the loops and gang lookups, free ids and runs of taking them |
| `Llist`, `LlistReverse` | the step machine and its refinement of an atomic stack, in-place reversal |
| `Sort`, `SortHeap` | heapsort on bytes, and the theory of the heap |
| `BitWord`, `FindBit`, `Hweight`, `Weight` | words and their bits, searches, population count, rank and select |
| `Arith`, `Powers`, `CTypes`, `Compare`, `Seqs` | remainders, powers of two, unsigned long, comparison functions, sequences without repetitions |
| `ZeroArea`, `Region`, `RegionRun`, `SetRange`, `Remap`, `Shift`, `Binary`, `Parse` | the bitmap operations |

`dafny verify dfyconfig.toml` checks everything.

## Where a promise fails, or holds under a condition

* `bitmap_find_next_zero_area_off` is first fit for `nr > 0`. For `nr = 0` it returns the alignment of the first clear
  bit, not the first aligned index; `ZeroArea.NothingWanted` says exactly when these agree, `ZeroArea.NotFirstFit` is
  an input on which they do not.
* The comment at `bitmap.c:74-77` says that no operation sets unused bits of the last word when its inputs have none
  set. `__bitmap_shift_left` does: `Shift.LeftClean` says exactly when, `Shift.LeftUnclean` is an input.
* `idr_get_free_cmn` looks for the lowest free id in `[start, max]`. When no id from `start` to `ULONG_MAX` is free,
  `next_index` may wrap to 0, which the test `start > max` does not notice. The search then goes on past the last id: it
  climbs to the top node, allocates a subtree in slot 16 of it, the slot of index 2^64, and returns a slot in there.
  `RxIdr.Slips` says exactly when, in terms of the ids in use, `start` and `max`: no id from `start` on is free, and the
  search does not stop at an index in `(max, ULONG_MAX]`. It looks first at the end of the largest aligned block of used
  ids around `start`, and from there on only at the ends of nodes, so the last such index is all that matters. With
  `max = ULONG_MAX` that is whenever no id is free (`RxIdr.SlipsAtMax`). In all other cases `RxIdr.GetFree` and
  `RxIdr.Take` do what they are for. When the search slips, it finds the first free index from 2^64 on (`RxIdr.Lost`),
  stores the entry there, where no id leads, and returns that index minus 2^64, or -ENOSPC if that is above `max`.
  Only a slip takes such an index, and the next slip takes a later one (`RxIdr.LostMoves`): ids 0, 1, 2 and so on
  are handed out that way. `RxIdr.LastIdTwice` is a run that does so, for requests of ULONG_MAX while id 0 is in use;
  `RxIdrRun.SlipShows` says how a caller can notice.
* `rb_insert_color_cached` keeps the cached leftmost node right exactly when the caller's flag is truthful.
* `myrbtree.h:89-96` calls the loops over `rb_first` and `rb_next` pre-order; they go in order.
* The table at `llist.h:24-32` demands a lock for some combinations. `Llist.DelFirstNeedsLock` and
  `Llist.DelAllNeedsLock` are runs without it, from an empty list, that lose a node.

## Model

| member | source | states |
|---|---|---|
| `RbModel.PlugInorder` | `rbtree.h:36-50` | the order of a tree is what is before a hole, the order of the subtree in it, and what is after: the fact by which every local change of shape is shown to keep the order |
| `RbModel.PlugApart` | `rbtree.h:36-50` | no node occurs twice in a tree exactly when that holds of subtree and context and they share none |
| `RbModel.PlugRB` | `rbtree.c:34-47` | a context that lacks h black nodes and a subtree that has h on every path make a red-black tree, unless both meet in red |
| `RbModel.UnplugRB` | `rbtree.c:34-47` | conversely, every subtree of a red-black tree fits its context at one black height |
| `RbHeap.PlugRep` | `rbtree.h:36-50` | memory holds a tree exactly when it holds the context and the subtree, with all parent links, for every way to cut the tree |
| `RbHeap.NearLoopless` | `rbtree.c:54-76` | memory whose child pointers are those of a tree, except for some that point down in rank, has no endless descent from any node, whether in the tree or on its way out |
| `RbHeap.BesideLoopless` | `rbtree.c:54-76` | a node that has been taken out, but still points into the tree, adds no endless descent: readers that stand on it get out |
| `RbHeap.StepsStore` | `rbtree.c:54-76` | a snapshot after each store to one child pointer, or the root, keeps the log complete: neighbours in it differ in at most that one place, and the last one is memory as it is |
| `RbInsert.LinkNode` | `rbtree.h:107-114` | a red node hung at any empty child position makes exactly the tree with the node at that hole, by one store to a child pointer, which makes no loop |
| `RbInsert.FlipColors` | `rbtree.c:140-159` | Case 1: after flipping colours the clash is two levels up, one black height higher, with the same order, nodes and folds |
| `RbInsert.RotateParent` | `rbtree.c:162-187` | Case 2: rotating at the parent gives memory in which Case 3 applies, with the same order and right augmented values, and no store makes a loop |
| `RbInsert.Rebalance` | `rbtree.c:104-243` | the loop of `__rb_insert`: from one possible red-red clash it ends, because each turn climbs two levels, in a red-black tree with the same order, nodes, and right augmented values; its stores to child pointers are in the log one at a time, and no state between two of them has a loop |
| `RbInsert.Insert` | `rbtree.c:104-243` | `__rb_insert` turns a red-black tree with one new red node at any position into a red-black tree with the same order, keeps every augmented value the fold of its subtree, and sets the leftmost cache just when told to; every store to a child pointer is in the log, none made together with another |
| `RbUnlink.PropagateStops` | `rbtree_augmented.h:78-92` | if recomputing a node's value changes nothing, every value above it is right already, so `_propagate` may stop early |
| `RbUnlink.PropagateGoesOn` | `rbtree_augmented.h:78-92` | otherwise storing it moves the possible error up by one node |
| `RbUnlink.Propagate` | `rbtree_augmented.h:78-92` | `_propagate` makes all augmented values right up to the stop node, and touches no others |
| `RbUnlink.SpliceRB` | `rbtree_augmented.h:179-202` | a node with at most one child: its lone child takes its place and colour and the tree stays red-black; without a child, a black node leaves exactly one black too few |
| `RbUnlink.UnlinkRight` | `rbtree_augmented.h:179-195` | Case 1 of the unlinking, no left child: the right subtree takes the node's place, and the result tells whether and where a black node is missing |
| `RbUnlink.UnlinkLeft` | `rbtree_augmented.h:196-202` | Case 1, only a left child: the same with nothing missing |
| `RbSuccessor.FindSuccessor` | `rbtree_augmented.h:236-241` | the descent finds the leftmost node of the right subtree, its parent and its right child |
| `RbSuccessor.UnlinkTwo` | `rbtree_augmented.h:203-270` | Cases 2 and 3: the successor ends up in the node's place with its colour, its own subtree moves up, all augmented values are right again after copy and two propagations, no intermediate state has a loop, and the result tells where a black node is missing |
| `RbEraseColor.RedSiblingRB` | `rbtree.c:265-283` | Case 1 of the recolouring: a red sibling has a black parent and a black near child, and rotating gives a black sibling without changing the deficit |
| `RbEraseColor.FlipSiblingRB` | `rbtree.c:285-313` | Case 2: with two black nephews, a red sibling moves the deficit up, or ends it at a red parent or the root |
| `RbEraseColor.LiftSiblingRB` | `rbtree.c:353-373` | Case 4: the red far nephew pays for the missing black node, and the tree is red-black |
| `RbEraseColor.LiftNephew` | `rbtree.c:315-351` | Case 3: rotating at the sibling makes the near nephew the sibling, with the same order and right augmented values, and no store makes a loop |
| `RbEraseColor.EraseColor` | `rbtree.c:250-430` | `____rb_erase_color` ends, by climbing, in a red-black tree with the same order and nodes, right augmented values, and no loop in any intermediate state |
| `RbErase.DoomedOrder` | `rbtree_augmented.h:166-272` | joining what is left and right of a node takes exactly that node out of the order |
| `RbErase.UnlinkNode` | `rbtree_augmented.h:166-272` | `__rb_erase_augmented`: memory holds a tree whose order is the old one without the node, red-black but for one missing black node at the place returned |
| `RbErase.EraseAugmented` | `rbtree_augmented.h:274-282` | erasing any node of any red-black tree gives a red-black tree with that node taken out of the order, every augmented value the fold of its subtree, and a right leftmost cache; no state from the first store to the last has an endless descent, neither from a node of the tree nor from the erased one; these states are all there are: from each to the next one child pointer, or the root, changes |
| `RbErase.Erase` | `rbtree.c:463-470` | `rb_erase`: a red-black tree whose order is the old one without the node, and no endless descent on the way, not even from the node itself |
| `RbErase.EraseCached` | `rbtree.c:481-488` | `rb_erase_cached`: besides, the cached node is the first in order again |
| `RbErase.InsertColor` | `rbtree.c:457-460` | `rb_insert_color`: a red-black tree in the order in which the node was linked |
| `RbErase.InsertColorCached` | `rbtree.c:473-478` | the cached node is the first in order afterwards if and only if the caller's flag says truly whether the new node comes first |
| `RbErase.FirstWithout` | `rbtree_augmented.h:176-177` | the leftmost cache after an erasure: the node's successor if the node was first, and unchanged otherwise |
| `RbReplace.ReplaceNode` | `rbtree.c:596-610` | `rb_replace_node` puts the new node in the victim's place in order and colours, keeps the tree red-black, and makes no loop on the way; every store to a child pointer is recorded |
| `RbWalk.First` | `rbtree.c:509-519` | `rb_first` returns the first node in order, or NULL |
| `RbWalk.Last` | `rbtree.c:522-532` | `rb_last` returns the last node in order, or NULL |
| `RbWalk.Next` | `rbtree.c:535-564` | `rb_next` returns the node that follows in order, or NULL after the last |
| `RbWalk.Prev` | `rbtree.c:567-593` | `rb_prev` returns the node that precedes in order, or NULL before the first |
| `RbWalk.FollowsPrecedes` | `rbtree.c:535-593` | without repetitions, y follows x exactly when x precedes y: `rb_prev` undoes `rb_next` |
| `RbWalk.ForEach` | `myrbtree.h:92-96` | the loops that go from `rb_first` on with `rb_next`, which `myrbtree.h` calls pre-order, visit every node once, in order |
| `RbWalk.ForEachReverse` | `rbtree.c:522-593` | starting at `rb_last` and going on with `rb_prev` visits every node once, in reverse order |
| `RbWalk.FirstPostorder` | `rbtree.c:666-672` | `rb_first_postorder` returns the first node of the post-order |
| `RbWalk.NextPostorder` | `rbtree.c:647-663` | `rb_next_postorder` returns the node that follows in post-order |
| `RbWalk.NextFrom` | `rbtree.c:647-663` | `rb_next_postorder` goes on rightly even if all nodes that the walk has left have been overwritten: it reads only nodes that are still to come |
| `RbWalk.ForEachPostorder` | `rbtree.h:131-151` | `rbtree_postorder_for_each_entry_safe` visits every node once, in post-order, whatever the loop body does to each node it is given |
| `RbWalk.PostorderNoDup` | `rbtree.c:635-672` | the post-order has every node of the tree once |
| `RbWalk.ChildrenFirst` | `rbtree.c:635-672` | in post-order every node comes after both of its children |
| `RbOrder.PlacedEquals` | `myrbtree.h:47-65` | a new node goes behind all nodes with an equal key |
| `RbOrder.RunOrder` | `myrbtree.h:47-65` | after any run of inserts and erases keys never rise along the order, and nodes with equal keys are in the order of their insertion |
| `RbOrder.BlackHeight` | `rbtree.c:44-47` | h black nodes on every path mean at least 2^h - 1 nodes and a height of at most 2h + 1 |
| `RbOrder.HeightBound` | `rbtree.c:44-47` | the height of a red-black tree of n nodes is at most 2 log2(n + 1) |
| `RbSearch.Find` | `myrbtree.h:67-83` | `MY_RB_TREE_FIND` fails exactly when no node has the key, returns a node with that key otherwise, and compares with at most 2 log2(n + 1) nodes |
| `RbSearch.InsertNode` | `myrbtree.h:47-65` | `MY_RB_TREE_INSERT` puts the node behind all nodes that are not smaller, keeps the tree red-black, and compares with at most 2 log2(n + 1) nodes |
| `RbSearch.ForEachSorted` | `myrbtree.h:108-115` | the loop that `myrbtree.h` calls sort order visits every node once and keys never fall |
| `RbSearch.InsertNodeCached` | `rbtree.c:473-478` | insertion by key with a cached leftmost node: the cache is the first in order again |
| `RbAugmented.AggIsFold` | `rbtree_augmented.h:78-92` | for an associative callback the value of a tree's root is the fold of its nodes' values in order, whatever its shape |
| `RbAugmented.LinkAugmented` | `rbtree_augmented.h:50-76` | linking a node, making the values above it right with `_propagate`, and `rb_insert_augmented` (or the cached form) give a red-black tree with the node in its place and every augmented value the fold of its subtree |
| `RbAugmented.InsertAugmented` | `rbtree_augmented.h:50-76` | the same after a search by key: the node goes behind all nodes that are not smaller, all folds are right, and the cached node is the first in order |
| `RbRun.Run` | `myrbtree.h:47-65` | any run of inserts and erases on an empty tree ends in a red-black tree whose order is the one of `RbOrder.RunOrder`, with no loop in any intermediate state |
| `RbRun.RunCached` | `rbtree.c:473-488` | after any run of cached inserts and erases the cached node is the first of the order of `RbOrder.RunOrder`, which is what `rb_first` returns |
| `RbRun.RunAugmented` | `rbtree_augmented.h:50-112` | after any run of augmented inserts and erases on a cached tree every node stores the fold of its subtree, the root stores the fold of all values in the order of `RbOrder.RunOrder`, and the cached node is the first of it |
| `Llist.PushStep` | `llist.c:45-55` | a successful cmpxchg in `llist_add_batch` puts the whole batch in front of the list, whatever the other threads are doing, and the list was empty just when the pointer it replaced is NULL |
| `Llist.PopStep` | `llist.c:72-88` | a successful cmpxchg in `llist_del_first` still sees the next pointer that it had read, and takes exactly the first node off |
| `Llist.PopExact` | `llist.c:60-70` | the new first pointer is right if and only if it is what the first node still points at |
| `Llist.StepRefines` | `llist.h:6-39` | every step of every thread is invisible, or is one operation of an atomic stack with the same result |
| `Llist.Refines` | `llist.h:24-39` | in every interleaving that keeps to the table, the events are those of an atomic stack, and memory holds that stack after each of them |
| `Llist.CallEnds` | `llist.c:45-88` | a call ends only with its answer: `llist_add_batch` by the cmpxchg that puts its batch in front, `llist_del_first` with the entry that it has taken or having found the list empty; every other step is invisible and goes on with the same call |
| `Llist.AloneReturns` | `llist.c:45-88` | from any point of a call, whatever the other threads have done before, a thread that runs alone returns after exactly `Needs` steps, which are at most 5 in `llist_add_batch` and 4 in `llist_del_first`, and then has put its batch in front of the list, taken the first entry, or found the list empty |
| `Llist.RunReturns` | `llist.c:45-88` | so it does at any point of any interleaving that keeps to the table |
| `Llist.OnePlace` | `llist.h:24-39` | every node is in exactly one place: in the list, in the batch of one thread that is adding it, or loose in the hands of one thread |
| `Llist.NodesMove` | `llist.h:24-39` | a node changes place only by a call that takes it up, a cmpxchg that pushes or pops it, or an xchg that takes it, and each of these finds it in the place before: no step loses a node or makes one up |
| `Llist.AddReturns` | `llist.h:212-225` | `llist_add` returns true exactly when it turns an empty list into a non-empty one |
| `Llist.DelAllReturns` | `llist.h:227-238` | `llist_del_all` hands the whole list over, newest entry first, to the caller alone |
| `Llist.DelFirstNeedsLock` | `llist.h:12-23` | a run from an empty list of two unlocked `llist_del_first` callers in which a cmpxchg succeeds and a node is lost |
| `Llist.DelAllNeedsLock` | `llist.h:12-31` | the same with an unlocked `llist_del_all` beside `llist_del_first` |
| `LlistReverse.ReverseOrder` | `llist.c:98-110` | `llist_reverse_order` leaves the same nodes linked in the opposite order |
| `LlistReverse.ReversedAt` | `llist.c:90-97` | element k of the reversed chain is element n - 1 - k of the chain |
| `LlistReverse.ReversedTwice` | `llist.c:90-110` | reversing twice gives the chain back |
| `Sort.HasChildExact` | `sort.c:85-86` | within int range the product in the loop test may wrap around, and the test still says exactly whether there is a child |
| `Sort.SwapRecords` | `sort.c:40-49` | exchanging the bytes of two records exchanges the records and changes nothing else |
| `Sort.SiftDown` | `sort.c:86-94` | the inner loop repairs a heap with one element out of place, with at most 2 log2 comparisons, and only permutes records |
| `Sort.Heapify` | `sort.c:84-95` | the first phase makes a heap of the records |
| `SortHeap.RootLargest` | `sort.c:97-99` | the root of a heap is not smaller than any element |
| `SortHeap.Extract` | `sort.c:97-109` | moving the root behind the heap extends the sorted tail and leaves one element out of place |
| `Sort.Sort` | `sort.c:68-110` | for any total preorder the records end up sorted; for any comparison function they are permuted, bytes past them are as before, and there are at most 2(n/2 + n - 1) log2 n comparisons |
| `RxModel.ShrShl` | `radix-tree.c:277-292` | an index is below a number shifted left exactly when its leading digits are below that number: the fact by which digits and ranges are exchanged |
| `RxTree.LookupSlot` | `radix-tree.c:1046-1076` | `__radix_tree_lookup` returns the entry of the index in the map, and the slot that holds it, exactly when the index is in range |
| `RxTree.Lookup` | `radix-tree.c:1114-1117` | `radix_tree_lookup` returns what the map has for the index, or NULL |
| `RxTree.Extend` | `radix-tree.c:635-689` | `radix_tree_extend` changes no entry and no tag, also when it runs out of memory half-way, and on success makes the index reachable with as few levels as that takes |
| `RxShape.GrownGood` | `radix-tree.c:645-686` | a new top level over an ordinary tree keeps map and tags, the root's tags having moved to slot 0 |
| `RxShape.GrownIdr` | `radix-tree.c:657-663` | a new top level over an IDR keeps the set of free ids, all new ids being free |
| `RxInsert.Create` | `radix-tree.c:827-876` | `__radix_tree_create` ends at the slot of the index, having allocated just the missing nodes, or with -ENOMEM, if and only if fewer are left than are missing; either way no entry and no tag has changed, and at most 21 nodes were allocated |
| `RxInsert.Insert` | `radix-tree.c:1001-1029` | `radix_tree_insert` adds the entry; it returns -EEXIST exactly when the index is present, and changes nothing; it returns -ENOMEM exactly when the index is absent and fewer nodes are left than it is missing, and changes no lookup; it allocates just the missing nodes, at most 21, and keeps the canonical form |
| `RxInsert.PresentMissing` | `radix-tree.c:851-871` | for an index in use no node is missing |
| `RxNeed.SlotMissing` | `radix-tree.c:851-871` | no node is missing either once a bottom node covers the index, or for index 0 in an empty tree |
| `RxNeed.GrownMissing` | `radix-tree.c:645-686` | a new top level is one missing node less |
| `RxNeed.SproutedMissing` | `radix-tree.c:851-871` | so is a new node on the way down to the index |
| `RxNeed.MissingWanted` | `radix-tree.c:635-876` | in a canonical tree as many nodes are missing for an index as the canonical tree with that index has besides |
| `RxNeed.NewAll` | `radix-tree.c:635-876` | those are all: every node that the larger set of indices wants and the smaller one does not |
| `RxSnug.SnugCounts` | `radix-tree.c:695-808` | in a canonical tree no node is empty and `radix_tree_shrink` has nothing to do |
| `RxSnug.SnugLoneZero` | `radix-tree.c:695-767` | a lone index 0 is stored in the root itself, and there is no node |
| `RxSnug.TrimSnug` | `radix-tree.c:695-808` | if no node is in vain, that is without an index in use below it, and `radix_tree_shrink` has nothing to do, a tree is canonical, and so is an IDR, unless its only entry is a NULL under id 0 in a bottom node |
| `RxSnug.TrimEmpty` | `radix-tree.h:139-142` | a tree or IDR without entries has no node then, and `radix_tree_empty` says so |
| `RxSnug.SameShape` | `radix-tree.c:695-808` | two canonical trees with the same indices have the same shape, whatever their histories |
| `RxShrink.PrunedGood` | `radix-tree.c:769-808` | unlinking a node without entries keeps map, counts and tags |
| `RxShrink.ShrunkGood` | `radix-tree.c:695-767` | removing a top level with one entry in slot 0 keeps map, counts and tags |
| `RxDelete.Shrink` | `radix-tree.c:695-767` | `radix_tree_shrink` changes no entry and no tag, takes off every top node that has a lone entry or child in its first slot, in trees and IDRs, and stops there; no node becomes one in vain |
| `RxDelete.DeleteNode` | `radix-tree.c:769-808` | `delete_node` changes no entry and no tag; after one entry has gone from a bottom node it frees all nodes above that have become empty, in trees and IDRs, so that no node is in vain, and restores the canonical form |
| `RxDelete.DeleteItem` | `radix-tree.c:2053-2073` | `radix_tree_delete_item` removes the entry, with its tags, exactly if the index is present and the item matches or is not given, returns it, and otherwise changes nothing; no node is in vain afterwards if none was before |
| `RxDelete.Delete` | `radix-tree.c:2085-2088` | `radix_tree_delete` returns the old entry and removes it and its tags; in an IDR the id is free again; the canonical form is kept, and in an IDR no node is in vain afterwards if none was before |
| `RxTags.TagSet` | `radix-tree.c:1440-1465` | `radix_tree_tag_set` adds exactly this index to the tag's set; all bits at all levels and at the root agree with the sets again |
| `RxTags.TagClear` | `radix-tree.c:1514-1536` | `radix_tree_tag_clear` removes exactly this index from the tag's set; bits above are cleared just where no other item carries the tag |
| `RxTags.TagGet` | `radix-tree.c:1566-1592` | `radix_tree_tag_get` says whether the index carries the tag |
| `RxTags.IsTagged` | `radix-tree.c:2109-2112` | `radix_tree_tagged` says whether any item carries the tag; in an IDR, whether any id that the tree covers does |
| `RxSteps.TagBitUp` | `radix-tree.c:1480-1498` | one step up in clearing: the levels below agree with the new set, those above with the old one |
| `RxSteps.TagBitDown` | `radix-tree.c:1440-1465` | one step down in setting: the levels above agree with the new set, those below with the old one |
| `RxRun.Run` | `radix-tree.c:635-1029` | in any run of inserts, lookups, deletes and tag operations, with any allocator, every call returns what a map with tag sets would, and the tree stands for what the calls add up to; only insertions can be lost, with -ENOMEM, and none with memory enough, when the tree is canonical too |
| `RxRun.TwoHistories` | `radix-tree.c:635-808` | two runs that end in the same set of indices, with memory enough, end in trees of the same shape |
| `RxIter.SlotIndexIs` | `radix-tree.c:287-292` | `next_index` gives the first index of a later slot, and 0 exactly when that is past ULONG_MAX |
| `RxIter.NextChunk` | `radix-tree.c:1729-1817` | `radix_tree_next_chunk` stands at the first index to visit from `next_index` on, or says that there is none, also after a wrap past ULONG_MAX |
| `RxWalk.NextSlot` | `radix-tree.h:550-592` | `radix_tree_next_slot` goes to the next index to visit within the chunk, or ends the chunk, having passed over none |
| `RxWalk.ForEach` | `radix-tree.c:1729-1817` | `radix_tree_for_each_slot` and `radix_tree_for_each_tagged` visit exactly the present or tagged indices from the start on, ascending, once each, up to and including ULONG_MAX; in an IDR, without tags, exactly the ids in use whose entry is not NULL |
| `RxIter.AllShown` | `radix-tree.h:595-607` | in an ordinary tree there is an entry to see for every index in use, so that iteration misses none |
| `RxWalk.GangLookup` | `radix-tree.c:1840-1864` | the gang lookups return the entries of the first max_items of those indices |
| `RxIdr.NextFree` | `radix-tree.c:2200-2205` | from a slot without free ids on, the next slot that has one, no free index coming before; start is what an unsigned long has of the index reached, so 0 for 2^64, also when the search is past the last id already |
| `RxIdr.StopOn` | `radix-tree.c:2193-2216` | from an index at which the search stops, in a slot without free ids, it goes on to the end of that slot, and the last index below 2^64 at which it will stop is the same from there |
| `RxIdr.SlipsAtMax` | `radix-tree.c:2159-2228` | with ULONG_MAX as maximum the search slips if and only if no id from start on is free |
| `RxIdr.GetFree` | `radix-tree.c:2159-2228` | `idr_get_free_cmn` returns the slot of the lowest free id in [start, max], or -ENOSPC exactly if there is none, or -ENOMEM; but if and only if `Slips` holds of the used ids, start and max, it makes a slot for the first free index from 2^64 on and returns that index minus 2^64 as the id, or -ENOSPC if that is above max; -ENOMEM means that the index aimed at is missing more nodes than are left, and otherwise just the missing ones are taken; it ends, and changes no entry |
| `RxIdr.Take` | `radix-tree.c:1258-1263` | taking an id stores the entry under the lowest id that was free in the range; if and only if the search slips, it stores the entry past the last id, at the index that is 2^64 more than the id it returns; it fails with -ENOMEM if and only if that index is missing more nodes than are left; otherwise no node is in vain afterwards if none was before |
| `RxIdr.FullRoot` | `radix-tree.c:732-734` | when exactly the ids below a power of 64 are in use, as after any others have been given back, the root is not tagged as having free ids |
| `RxIdr.FewRoomy` | `radix-tree.c:2193-2216` | with fewer than 2^60 entries there is a free index from 2^64 on that the search can reach |
| `RxIdr.LostMoves` | `radix-tree.c:2193-2216` | an entry at the first free index from 2^64 on makes that index later, and an entry anywhere else leaves it as it is: no two slips take the same one |
| `RxIdr.LastIdTwice` | `radix-tree.c:2159-2228` | an input for which the search slips twice: ids 0 and ULONG_MAX are taken, then ULONG_MAX is asked for twice more, and ids 0 and 1 are returned, out of range; id 0 is in use and finds the first item, id 1 finds nothing |
| `RxIdrRun.Run` | `radix-tree.c:2159-2228` | in any run of taking, finding and giving back ids, with any allocator, every id handed out was free and the lowest in its range, or came from a search that slipped and is the one that `RxIdr.GetFree` tells; -ENOSPC means that no id was free, and the IDR has exactly the entries that the calls add up to; unless an allocation has failed, no node is in vain, and an IDR without entries has none |
| `RxIdrRun.SlipShows` | `radix-tree.c:2159-2228` | a search has slipped if and only if the id returned is below start or was in use |
| `RxIdrRun.LiveDistinct` | `radix-tree.c:2159-2228` | by searches that do not slip the same id is handed out twice only if it was given back in between |
| `FindBit.Ffs` | `asm-generic/bitops/__ffs.h:15-44` | the halving of `__ffs` finds the lowest set bit of a word that is not 0 |
| `FindBit.FindNext` | `find_bit.c:39-62` | `_find_next_bit` returns the first bit from start on that is set, or clear if inverted, and nbits if there is none |
| `FindBit.FindNextZeroBit` | `find_bit.c:78-82` | `find_next_zero_bit` returns the first clear bit from offset on, or size |
| `FindBit.FindFirstBit` | `find_bit.c:90-100` | `find_first_bit` returns the first set bit, or size |
| `Hweight.Hweight64Counts` | `hweight.c:56-76` | both variants of `__sw_hweight64` return the number of set bits |
| `Hweight.Hweight32Counts` | `hweight.c:20-34` | both variants of `__sw_hweight32` return the number of set bits |
| `Hweight.GatherIs` | `hweight.c:62-66` | the multiplication adds up the eight bytes |
| `Weight.BitmapWeight` | `bitmap.c:276-288` | `__bitmap_weight` counts the set bits below `bits`, whatever the unused bits of the last word are |
| `Weight.PosToOrd` | `bitmap.c:716-722` | `bitmap_pos_to_ord` returns the ordinal of a set bit, and -1 exactly for other positions |
| `Weight.OrdToPos` | `bitmap.c:742-752` | `bitmap_ord_to_pos` returns the position of the set bit with the given ordinal, and nbits exactly if the ordinal is not below the weight |
| `Weight.OrdUnique` | `bitmap.c:716-752` | an ordinal has one position only: with `Weight.OrdRange`, rank and select are inverse |
| `Weight.OrdRange` | `bitmap.c:716-752` | the ordinals that have a position are exactly those below the weight |
| `Remap.Remap` | `bitmap.c:786-805` | `bitmap_remap` sets exactly the images of the set bits of src, also when dst is one of the maps; with dst = src nothing changes |
| `Remap.BitRemap` | `bitmap.c:834-843` | `bitmap_bitremap` returns the image of one bit; negative and unmapped positions stay |
| `Remap.RoundTrip` | `bitmap.c:755-785` | remapping there and back between maps of equal weight restores every bitmap that lies within the domain |
| `Remap.BitmapOnto` | `bitmap.c:952-978` | `bitmap_onto` sets bit q exactly when q is the m-th set bit of relmap for an m that is set in orig |
| `Remap.BitmapFold` | `bitmap.c:992-1003` | `bitmap_fold` sets bit q exactly when orig has a bit p with q = p mod sz |
| `Remap.FoldOnto` | `bitmap.c:866-950` | folding by the weight of relmap and mapping onto it takes bit m to the (m mod weight)-th set bit of relmap |
| `ZeroArea.AlignRounds` | `bitmap.c:355-358` | rounding up gives the next index that is aligned, even where adding the offset wraps past 2^64 |
| `ZeroArea.Find` | `bitmap.c:346-369` | `bitmap_find_next_zero_area_off` returns the first aligned index from start on with nr clear bits, and a value above size exactly if there is none |
| `ZeroArea.NothingWanted` | `bitmap.c:346-369` | for nr = 0 the result is the first aligned index if and only if a clear bit, or the end, comes no later, or, with start past the end, nothing in between is aligned |
| `ZeroArea.NotFirstFit` | `bitmap.c:346-369` | an input with nr = 0 on which it is not |
| `Region.RegMaskBit` | `bitmap.c:1046-1057` | the mask of `__reg_op` has exactly the bits of the region, also for a whole word |
| `Region.IsFree` | `bitmap.c:1060-1065` | REG_OP_ISFREE says whether all bits of the region are clear |
| `Region.Paint` | `bitmap.c:1068-1076` | REG_OP_ALLOC and REG_OP_RELEASE set and clear exactly the bits of the region |
| `Region.FindFreeRegion` | `bitmap.c:1096-1107` | `bitmap_find_free_region` takes the first free aligned region of the size, and fails exactly if there is none |
| `Region.AllocateRegion` | `bitmap.c:1138-1143` | `bitmap_allocate_region` takes the region if it is free, and else returns -EBUSY and changes nothing |
| `Region.ReleaseRegion` | `bitmap.c:1121-1124` | `bitmap_release_region` clears exactly the bits of the region |
| `RegionRun.RunKeeps` | `bitmap.c:1096-1143` | over any run, live regions are aligned and disjoint, the set bits are exactly theirs, and as many as their sizes add up to |
| `RegionRun.FailsOnlyFull` | `bitmap.c:1096-1107` | when a search fails, every region of that size overlaps a live one |
| `SetRange.SetBits` | `bitmap.c:291-330` | `__bitmap_set` and `__bitmap_clear` set and clear exactly the bits of the run |
| `Shift.ShiftRight` | `bitmap.c:122-151` | `__bitmap_shift_right` moves bit i + shift to bit i, zeros coming in from nbits, also in place; it never leaves unused bits set |
| `Shift.ShiftLeft` | `bitmap.c:167-189` | `__bitmap_shift_left` moves bit i to bit i + shift, zeros coming in from below, also in place |
| `Shift.LeftRight` | `bitmap.c:110-189` | left and back right restores all bits that were not shifted off the top |
| `Shift.LeftClean` | `bitmap.c:74-77` | a left shift leaves unused bits clear if and only if no bit of the source moves there |
| `Shift.LeftUnclean` | `bitmap.c:74-77` | an input without unused bits set, and a result with one |
| `Binary.Fls` | `asm-generic/bitops/fls.h:13-40` | `fls` returns the number r with 2^(r-1) <= x < 2^r, and 0 for 0 |
| `Binary.ShiftValue` | `bitmap.c:456-459` | moving all bits up by k multiplies the number by 2^k |
| `Parse.ReadChunk` | `bitmap.c:413-450` | the inner loop reads one group of digits into a 32-bit number; or it stops at the first character that cannot stand there with -EINVAL, or at the first digit that the group has no room for with -EOVERFLOW, whichever comes first |
| `Parse.Parse` | `bitmap.c:397-465` | `__bitmap_parse` succeeds if and only if the text is well formed and no part of it needs more than 32 bits in a group or nmaskbits in all; then the bitmap denotes the number that the digits denote, which is below 2^nmaskbits; else the return value is that of the error met first: -EINVAL where a character cannot stand, or where a group or the text ends without a digit, -EOVERFLOW at the digit too much, or at the end of the group that makes the number too large |
| `Parse.OneVerdict` | `bitmap.c:413-464` | by that there is one return value for every text and size |

## Left out

- Mirrored left and right branches are one piece of code with a `Side` parameter. Colour and parent, and root tags and
  `gfp_mask`, are separate fields where C packs them into one word.
- An erased node leaves the ghost tree's memory before the recolouring starts; `RbErase.LeavesReaders` looks at every
  later state with that node beside it. Its own fields do not change any more.
- RbReplace.ReplaceNode: says nothing about augmented values, which `rb_replace_node` leaves to its caller.
- `rb_replace_node_rcu`, `rb_link_node_rcu` and `rb_erase_augmented_cached` as entry points: the same code with other
  names or weaker stores. Memory barriers and the order in which other processors see stores.
- The first, comparison-free forms of `MY_RB_TREE_INSERT` and `MY_RB_TREE_FIND`, which are the same with `<` on keys.
- Lock-less lists: memory is sequentially consistent and every access is one step. `llist_for_each` and the like.
- Radix trees: multi-order entries, exceptional counters, RCU readers and retry entries, per-CPU preload pools,
  `update_node` callbacks, `radix_tree_iter_resume`, deletion during iteration, the contiguous-chunk flag, `ida`.
  A node from the allocator is zeroed, as `radix_tree_node_ctor` says. Allocation may fail at any call; that is the
  budget of an `Allocator`.
- RxTags.TagSet: for an index that is present; for others the C code stops with BUG_ON.
- RxRun.Run: an index is looked up before it is tagged, as the C code stops on others with BUG_ON.
- RxIdr.GetFree: while some index in [2^64, 2^64 + 2^60) is free, as one is with fewer than 2^60 entries. Beyond that
  the search would come to the next slot of the top node, which is not part of this model.
- RxIdr.Take: the same, and for a tree in which no bottom node is empty, which `RxIdr.Take` and `RxDelete.Delete` keep;
  tags 1 and 2 are not used in an IDR.
- RxIdrRun.Run: for runs of at most 2^60 calls, for the same reason.
- RbAugmented.LinkAugmented: the comment at `rbtree_augmented.h:53-60` leaves it to the caller to update the values on
  the path before linking the node. That is done here by `_propagate` after linking; other ways are not modelled.
- RxWalk.ForEach: the tree does not change during the loop. An IDR is not gone through by tags, which there stand for
  the free ids.
- Sort.Sort: with num * size within int range, as offsets are ints; a size of 0 loops for ever in C. A swap function of
  the caller's is not modelled; `u32_swap` and `u64_swap` move the same bytes as `generic_swap`.
- The default build of the bitmap code: 64-bit words. Counters that C keeps in unsigned or int are unbounded here, so
  sizes are assumed to fit them; bitmaps are in memory and far smaller.
- ZeroArea.Find: `x & ~mask` is written as a remainder, for masks that are one less than a power of two, as required.
  size + align_mask + nr must fit an unsigned long; align_offset may be anything.
- Region.FindFreeRegion: any order and size; in C the order is at most 30 and positions fit an int.
- Region.Paint: for regions aligned to their size; in C the loops of other regions write outside them.
- Shift.ShiftRight: the words to be zeroed must lie in the bitmap; in C a larger shift writes before it.
- Remap.BitmapFold: a size of 0 is allowed only without bits to fold, as C divides by it.
- Parse.Parse: the text is in kernel space and ASCII, and nmaskbits is positive; `__bitmap_parselist` is left out.
- `find_first_zero_bit`, `find_last_bit`, `__bitmap_and` and the other word-by-word operations, u32 array copies,
  big-endian variants: the same techniques on simpler loops.
- `list.h`, `rculist.h`, `hashtable.h`, `hash.h`, `log2.h`: short straight-line code that would add only easy members.
- `mm_porting.c`, `main.c`, `gfp.h`, compiler headers: allocation, the program's own test driver, flags.

# Verified models of the ordered indexes

HydraList is measured against several concurrent ordered indexes. This project models the algorithms of
those indexes in Dafny and proves what they promise: that every run keeps a search structure intact, that
structural changes do not change the stored map, that fast searches agree with plain ones, and that
memory is not freed under a reader. `dafny verify dfyconfig.toml` checks everything.

## What is modelled

* **B+tree with optimistic lock coupling** (`Olc*.dfy`). `OlcNodeClass` has the two node classes with
  their arrays changed in place, proved against the values of `OlcNode`. `OlcProtocol` is the concurrent
  tree as a step system: any number of inserts, lookups and one-leaf scans, each a program counter over
  version locks. A read of a node that is not validated later may return anything, a failed validation
  or upgrade restarts the call. `OlcSpec` says what linearizable means, `OlcInvariant`, `OlcRely`,
  `OlcTree` and `OlcSteps` prove the invariant, `OlcTheorems` draws the conclusions for all runs.
  `OlcIndex` is the range scan that stitches one-leaf scans together and `OlcSolo` the termination
  argument for a call without interference.
* **masstree leaf list** (`LeafLink*.dfy`). `link_split` and `unlink` interleaved step by step, with mark
  bits as edge locks; the list they are meant to maintain is an auxiliary variable, changed at one step
  of each call.
* **Bw-tree** (`Bw*.dfy`). `BwChain` has leaf delta chains as values with their meaning (`Replay`);
  `BwSearch` the searches with index shortcuts and the deltas they post; `BwCollect` and `BwConsolidate`
  consolidation, as a function and as the in-place program with its small sorted set, Bloom filter and
  output leaf; `BwTable` the mapping table as a step system with stale snapshots, failed CASes, splits,
  removes, merges and help-along, and `BwInvariant`, `BwSteps`, `BwTheorems` its invariant and theorems.
  `BwInner`, `BwInnerList`, `BwInnerBuild` and `BwInnerLeft` do the same for inner delta chains: routing,
  exact search, the index deltas posted, consolidation and the left-sibling search.
* **Epoch reclamation** (`Epoch*.dfy`). One step system for both schemes, 32-slot labels that keep only
  their latest epoch and first-in-first-out chains, with the non-atomic load-then-store on entry.
* **Adaptive radix tree** (`Art*.dfy`). `ArtTree` has insert and remove with path compression over eleven
  stored prefix bytes, `ArtInsert` and `ArtRemove` prove them, `ArtMap` wraps them in an object and proves
  the optimistic lookup, `ArtLayouts` has the four node layouts with their arrays.
* **AtomicStack** (`FreeIdStack.dfy`). One pusher, any number of poppers, a versioned top pointer.
* **Chunk allocator** (`ChunkChain.dfy`). Concurrent allocations from a chain of chunks that grows by CAS.
* **masstree permuter** (`Nibbles.dfy`, `Kpermuter.dfy`, `KpermuterClass.dfy`). The bit-packed permutation
  with its free list. Words are sequences of nibbles; lemmas on their integer value justify that reading.
* **btree-rtm** (`Rtm*.dfy`). `RtmNode` has the node with its slots and the packed word that orders them,
  proved against sequences of items; `RtmTree` and `RtmSmo` the tree as a map from IDs to nodes with the
  splits and merges, `RtmDescent` the descent that makes them, and `RtmMap` the four operations as methods of
  an object.

`Entries.dfy` has what the ordered indexes share: sorted runs of entries and lower bounds.

Memory is sequentially consistent, each atomic access is one step, keys are integers (or byte strings of
one length in the radix tree), and version and epoch counters do not wrap.

These results say where the code does not do what one would expect:

* `OlcIndex.Scan` is exact if and only if the 64-bit key does not wrap on the way; `OlcIndex.WrapExample`
  is an input on which it does.
* `BwCollect.SplitOverMerge`: a split delta over a merge delta would be lost by consolidation unless there
  is nothing to cut, so the step system needs (and the code has) splits on base leaves only.
* The comment over `FindSplitPoint` speaks of duplicate keys; in the unique-key build the result is always
  the middle (`BwTable.FindSplitPoint`).
* `Kpermuter.RotateDocumented`: rotate turns all positions up to the width, so it matches its documentation
  if and only if nothing turns or no element is free; `Kpermuter.InsertSelectedOk` likewise gives the exact
  condition for insert_selected, and `Kpermuter.InsertSelectedExample` an input.
* `RtmMap.BTree.Remove`: the assertion that the leaf is not empty can fail on a tree that is not empty
  (`RtmMap.RemoveFails`), but only for a key that is not stored; `RtmDescent.DescendedEmpty` says exactly when.

## Model

| member | source | states |
|---|---|---|
| `OlcTheorems.RunsLinearizable` | BTreeOLC/BTreeOLC_child_layout.h:248-406 | in every interleaving of any number of inserts, lookups and one-leaf scans, with torn optimistic reads and restarts, each call answers as if it took effect at one instant between its invocation and its response, and a finished call took effect exactly once |
| `OlcTheorems.MemoryIsTheMap` | BTreeOLC/BTreeOLC_child_layout.h:25-79 | in every reachable state a plain descent from the root finds, for every key, the value of its last committed insert and nothing else |
| `OlcTheorems.OnlyWritesChangeTheMap` | BTreeOLC/BTreeOLC_child_layout.h:345-356 | a step changes the stored map only if it is the leaf write of an insert, and then by exactly that insert; splits never do |
| `OlcTheorems.CapacityHolds` | BTreeOLC/BTreeOLC_child_layout.h:125-126 | the capacity asserts of leaf and inner insert never fire in any run, and the leaf written is the one whose key range covers the key |
| `OlcTheorems.NeverStuck` | BTreeOLC/BTreeOLC_child_layout.h:248-356 | every unfinished call can take its next step, touches allocated nodes only, and every node-type cast it relies on is right |
| `OlcTheorems.LocksBalanced` | BTreeOLC/BTreeOLC_child_layout.h:25-79 | a locked node has exactly one holder, and when all calls are done no lock is left |
| `OlcTheorems.RunInv` | BTreeOLC/BTreeOLC_child_layout.h:248-458 | the tree, call and trace invariant holds in every state of every run |
| `OlcTheorems.SeekFinds` | BTreeOLC/BTreeOLC_child_layout.h:358-395 | descent through inner nodes by lower bound agrees with the map the tree stands for |
| `OlcSteps.StepKeepsInv` | BTreeOLC/BTreeOLC_child_layout.h:248-458 | every enabled step of every call keeps the invariant |
| `OlcTree.TreeWrite` | BTreeOLC/BTreeOLC_child_layout.h:125-143 | writing a covered key into a leaf with room turns the tree of a map into the tree of the updated map |
| `OlcTree.TreeSplitUnder` | BTreeOLC/BTreeOLC_child_layout.h:283-296 | an eager split under a locked parent keeps the search tree and the map it stands for |
| `OlcTree.TreeSplitTop` | BTreeOLC/BTreeOLC_child_layout.h:232-239 | a root split with a new root keeps the search tree and the map it stands for |
| `OlcTree.HalvesOk` | BTreeOLC/BTreeOLC_child_layout.h:145-154 | both halves of a split node are well formed over the two halves of its key range |
| `OlcTree.SpliceOk` | BTreeOLC/BTreeOLC_child_layout.h:210-219 | inserting the separator and the right half into the parent keeps every child under its own key range |
| `OlcRely.Frame` | BTreeOLC/BTreeOLC_child_layout.h:25-79 | what a call has read and not invalidated stays true while any other call takes a step |
| `Entries.LeafPutGet` | BTreeOLC/BTreeOLC_child_layout.h:125-143 | leaf insert changes the answer for its key and for no other |
| `OlcNode.LeafCutGet` | BTreeOLC/BTreeOLC_child_layout.h:145-154 | cutting a sorted leaf keeps every lookup on its side of the cut |
| `Entries.InsertKeySorted` | BTreeOLC/BTreeOLC_child_layout.h:210-219 | inserting a new separator keeps an inner node sorted and adds exactly that key |
| `OlcNodeClass.BTreeLeaf.LowerBound` | BTreeOLC/BTreeOLC_child_layout.h:106-123 | the do-while binary search gives the lower bound on a non-empty leaf; on an empty one it reads a stale slot and answers 0 or 1 |
| `OlcNodeClass.BTreeLeaf.Insert` | BTreeOLC/BTreeOLC_child_layout.h:125-143 | the in-place insert leaves exactly the sorted contents with the key put in or overwritten |
| `OlcNodeClass.BTreeLeaf.Get` | BTreeOLC/BTreeOLC_child_layout.h:391-398 | a leaf lookup returns the value stored under the key, or none |
| `OlcNodeClass.BTreeLeaf.Collect` | BTreeOLC/BTreeOLC_child_layout.h:441-449 | a one-leaf scan copies at most `range` payloads from the lower bound on |
| `OlcNodeClass.BTreeLeaf.Split` | BTreeOLC/BTreeOLC_child_layout.h:145-154 | the split moves the upper half to a fresh leaf and returns the last key kept as separator |
| `OlcNodeClass.BTreeInner.LowerBound` | BTreeOLC/BTreeOLC_child_layout.h:184-198 | the binary search gives the lower bound of the key |
| `OlcNodeClass.BTreeInner.Insert` | BTreeOLC/BTreeOLC_child_layout.h:210-219 | shift, store and swap leave the separator at its lower bound and the new child to its right |
| `OlcNodeClass.BTreeInner.Split` | BTreeOLC/BTreeOLC_child_layout.h:200-208 | keys and children are divided around the separator, which stays in neither half |
| `OlcNodeClass.BTreeInner.MakeRoot` | BTreeOLC/BTreeOLC_child_layout.h:232-239 | the new root has one separator and the two halves as children |
| `OlcIndex.Scan` | index.h:417-433 | the stitching loop returns exactly the first `range` payloads from the key in key order, if and only if it is not the case that the greatest 64-bit key is stored and fewer than `range` entries lie at or above the start |
| `OlcIndex.StitchedOk` | index.h:417-433 | from any gap-free prefix on, the pieces that are appended give the exact result or not as the condition says |
| `OlcIndex.WrapExample` | index.h:414-433 | on a well-formed tree with the keys 0 and 2^64 - 1 the range scan from 2^64 - 1 returns the payload of key 0 as its second result, which is not exact |
| `OlcIndex.ScanFromOk` | BTreeOLC/BTreeOLC_child_layout.h:408-458 | a one-leaf scan returns a gap-free run of entries from the key on, empty only if no key at or above it is stored |
| `OlcIndex.TreeScan` | BTreeOLC/BTreeOLC_child_layout.h:408-458 | the scan of the whole tree has that property for the stored map |
| `OlcSolo.SoloStep` | BTreeOLC/BTreeOLC_child_layout.h:248-356 | each step of a call that runs alone lowers a rank, although a split can fill the parent and force another restart |
| `OlcSolo.SoloBounded` | BTreeOLC/BTreeOLC_child_layout.h:248-356 | a call that runs alone takes at most as many steps as its rank says |
| `OlcSolo.SoloFinishes` | BTreeOLC/BTreeOLC_child_layout.h:248-356 | from every reachable state a call that runs alone finishes |
| `OlcSolo.HalfLoad` | BTreeOLC/BTreeOLC_child_layout.h:200-208 | both halves of a full node are far from full, so the path of the key becomes lighter |
| `OlcSolo.PathAbove` | BTreeOLC/BTreeOLC_child_layout.h:283-296 | a split under a parent makes the whole path lighter even if it fills the parent |
| `LeafLinkTheorems.RunInv` | masstree/btree_leaflink.hh:32-96 | the list invariant holds in every state of every interleaving of link_split and unlink |
| `LeafLinkTheorems.WalkReachesAll` | masstree/btree_leaflink.hh:61-96 | in every state a walk along next pointers from the head, marks stripped, ends and reaches every listed node whose publication is not pending, by way of unlinked nodes at most |
| `LeafLinkTheorems.AtRest` | masstree/btree_leaflink.hh:61-96 | once all calls have returned, next holds exactly the list in split order, unmarked, and prev is its mirror |
| `LeafLinkTheorems.EachCallEditsOnce` | masstree/btree_leaflink.hh:61-96 | each link_split inserts its node right of its neighbour exactly once, each unlink removes its node exactly once, and no other step changes the list |
| `LeafLinkTheorems.NeverStuck` | masstree/btree_leaflink.hh:38-96 | no operation follows a pointer that is not a node |
| `LeafLinkTheorems.NoDeadlock` | masstree/btree_leaflink.hh:38-96 | as long as a call is unfinished some unfinished call does not wait for a mark |
| `LeafLink.InsertChain` | masstree/btree_leaflink.hh:61-70 | inserting after a node keeps the successor map the list |
| `LeafLink.RemoveChain` | masstree/btree_leaflink.hh:81-96 | removing a node keeps the successor map the list |
| `BwChain.CountExact` | BwTree/bwtree.h:1664-1863 | the item count carried by the deltas is the size of the map the chain stands for |
| `BwChain.ReplayInRange` | BwTree/bwtree.h:1664-1863 | a well-formed chain holds keys of its own range only |
| `BwChain.BranchesApart` | BwTree/bwtree.h:1800-1863 | the two branches of a merge share no key |
| `BwSearch.Navigate` | BwTree/bwtree.h:5419-5693 | search with the index shortcuts returns the key's value in the replayed chain, and the index pair is the lower bound in that branch's base leaf with presence |
| `BwSearch.CollectValues` | BwTree/bwtree.h:5125-5398 | the value list of a key is what a lookup in the replayed chain returns |
| `BwSearch.PostKeeps` | BwTree/bwtree.h:8518-8580 | posting the delta built from the search keeps the chain well formed and performs the operation on its map |
| `BwSearch.Prepare` | BwTree/bwtree.h:8650-8732 | one round of insert, upsert or delete up to its CAS returns the result the map operation gives and the chain that performs it |
| `BwCollect.ConsolidatedOk` | BwTree/bwtree.h:5913-6284 | consolidating a well-formed chain gives a sorted leaf over the same range that stands for the same map and fills its allocation exactly |
| `BwCollect.CollectOk` | BwTree/bwtree.h:5975-6284 | collecting a branch under pending deltas lists its range with the newest delta on each key applied, and passes the other deltas on |
| `BwCollect.SplitOverMerge` | BwTree/bwtree.h:6053-6262 | a split delta over a merge delta would be consolidated correctly if and only if there is nothing to cut |
| `BwConsolidate.Consolidate` | BwTree/bwtree.h:5913-5973 | the imperative consolidation with small sorted set, Bloom filter and in-place leaf computes that leaf and never overruns its arrays |
| `BwConsolidate.CollectAll` | BwTree/bwtree.h:5975-6284 | the recursive collection appends exactly what the specification lists and uses at most `depth` slots |
| `BwConsolidate.MergeAtBase` | BwTree/bwtree.h:6053-6168 | the merge loop over a base leaf writes base entries with pending deltas over them, in order |
| `BwConsolidate.SortedSmallSet.InsertNoDedup` | BwTree/sorted_small_set.h:88-101 | the in-place insertion puts a delta behind all that are not greater |
| `BwConsolidate.SortedSmallSet.Insert` | BwTree/sorted_small_set.h:49-78 | keeps the set sorted without equal keys, where the first delta on a key wins |
| `BwConsolidate.SortedSmallSet.PopFront` | BwTree/sorted_small_set.h:129-133 | hands out the smallest pending delta and leaves the others in order |
| `BwConsolidate.BloomFilter.Insert` | BwTree/bloom_filter.h:137-158 | adds a key to the filter, and no bit is ever cleared |
| `BwConsolidate.BloomFilter.Exists` | BwTree/bloom_filter.h:160-197 | answers exactly whether the key was inserted |
| `BwTable.FindSplitPoint` | BwTree/bwtree.h:3200-3243 | the split point separates two different keys and leaves both halves above the merge threshold; with unique keys it is the middle |
| `BwTheorems.RunInv` | BwTree/bwtree.h:7046-7145 | every reachable state of the leaf step system satisfies the invariant for some walk |
| `BwTheorems.RunsPartition` | BwTree/bwtree.h:7594-7773 | in every reachable state the leaves along the next links from node 2 partition the key space: first low and last high key are infinite and each high key is the low key of its successor |
| `BwTheorems.RunsHaveWalk` | BwTree/bwtree.h:7046-7145 | the walk along next links always exists, and the leaves on it hold together exactly the stored map |
| `BwTheorems.OnlyPostsChangeTheMap` | BwTree/bwtree.h:8518-8580 | a step changes the stored map only if it posts a data delta, and then by exactly that operation; split, consolidate, remove and merge steps and failed CASes change nothing |
| `BwTheorems.AnswersLegal` | BwTree/bwtree.h:8518-8732 | a finished request answers as the map stood at some instant between its begin and its reply, stale snapshots included |
| `BwTheorems.LowKeysFixed` | BwTree/bwtree.h:7594-7773 | the low key of a node ID never changes, and a removed node stays as it is |
| `BwTheorems.UnionIs` | BwTree/bwtree.h:1664-1863 | the leaves of the walk hold together exactly the current map |
| `BwInvariant.WalkUnique` | BwTree/bwtree.h:7046-7145 | there is only one walk |
| `BwSteps.SplitStep` | BwTree/bwtree.h:7594-7773 | posting a split delta over an installed sibling keeps the invariant with the sibling spliced into the walk |
| `BwSteps.ConsolidateStep` | BwTree/bwtree.h:7457-7475 | replacing a chain by its consolidation keeps the invariant |
| `BwSteps.PostStep` | BwTree/bwtree.h:8518-8580 | posting a data delta keeps the invariant for the updated map |
| `BwSteps.RemoveStep` | BwTree/bwtree.h:7690-7773 | posting a remove delta keeps the invariant |
| `BwSteps.MergeStep` | BwTree/bwtree.h:8477-8510 | posting a merge delta on the left sibling keeps the invariant with the removed node off the walk |
| `BwSteps.StepKeepsInv` | BwTree/bwtree.h:7046-7145 | every enabled step keeps the invariant |
| `BwSteps.SiblingOk` | BwTree/bwtree.h:3272-3330 | the new sibling and the split delta are well formed and stand for the two halves of the leaf's map |
| `BwInner.Navigate` | BwTree/bwtree.h:4401-4589 | search on an inner chain with early exits, location narrowing and merge reset picks the child of the last separator not above the key in the consolidated list |
| `BwInner.AddAnswers` | BwTree/bwtree.h:4463-4490 | an insert delta answers rightly for keys between its own and the next separator |
| `BwInner.DropAnswers` | BwTree/bwtree.h:4491-4535 | a delete delta answers rightly for keys between the neighbours of the deleted separator |
| `BwInner.Passes` | BwTree/bwtree.h:4401-4589 | a delta that does not answer leaves the route to the chain below it, on the branch whose range holds the key |
| `BwInner.LocateAt` | BwTree/bwtree.h:4321-4340 | the binary search over the narrowed window finds the child the whole node would give |
| `BwInner.RouteUnique` | BwTree/bwtree.h:4401-4589 | the child for a key is unique |
| `BwInnerList.FindItem` | BwTree/bwtree.h:8058-8182 | exact search on a snapshot finds the separator equal to the key, if there is one, and its place among the base items |
| `BwInnerList.ConsolidatedOk` | BwTree/bwtree.h:4741-5092 | consolidating an inner chain gives a sorted node with the same range, first child and separators |
| `BwInnerList.GatherOk` | BwTree/bwtree.h:4808-5092 | collecting the separators of a branch under pending deltas lists its range with the newest delta on each key applied |
| `BwInnerBuild.Consolidate` | BwTree/bwtree.h:4741-4808 | the program with the small sorted set on a stack array of the chain's depth computes the consolidated node, overruns neither the array nor the node, and fills the node exactly |
| `BwInnerBuild.GatherAll` | BwTree/bwtree.h:4820-5092 | the recursive collection appends exactly the separators of its branch and inserts at most as many deltas as the branch is deep, through merge deltas too |
| `BwInnerBuild.MergeItems` | BwTree/bwtree.h:4836-5005 | the merge loop writes base items and pending deltas below the high key in key order and leaves the other deltas pending |
| `BwInnerList.PostAdd` | BwTree/bwtree.h:6885-6920 | posting an index insert with its true right neighbour keeps the chain good and adds exactly that separator, or finds the key there |
| `BwInnerList.PostDrop` | BwTree/bwtree.h:6949-6970 | posting an index delete with its true neighbours keeps the chain good and removes exactly that separator, or finds the key gone |
| `BwInnerList.ChildKnowsNext` | BwTree/bwtree.h:7234-7262 | the high key of a split child is the right neighbour of the new separator in its parent |
| `BwInnerList.KeyMergedOk` | BwTree/bwtree.h:4836-5005 | the merge of base items and deltas by key is sorted and lets a delta replace or remove an equal separator |
| `BwInnerLeft.FindLeft` | BwTree/bwtree.h:8204-8434 | the left-sibling search returns the child of the last separator below the key in the consolidated list, or the first child, also across merge deltas, and its stack array of the chain's depth is never overrun |
| `BwInnerLeft.TakeTwo` | BwTree/bwtree.h:8245-8342 | taking two logical items off the high end of base items and deltas ends at the left neighbour |
| `BwInnerLeft.LeftIsRoute` | BwTree/bwtree.h:8204-8434 | the left neighbour is where a key just below the separator is routed |
| `EpochSafety.NoUseAfterFree` | ARTOLC/Epoche.cpp:68-114 | in every run, for both reclamation schemes, a freed node is held by no thread: nobody who entered before the unlink is still inside |
| `EpochSafety.RunSafe` | BwTree/bwtree.h:10794-10869 | the safety invariant holds in every state of every run, non-atomic entry included |
| `EpochSafety.StepSafe` | BwTree/bwtree.h:691-783 | every step of entering, unlinking, retiring, scanning and sweeping keeps the invariant |
| `EpochSafety.AddOk` | ARTOLC/Epoche.cpp:41-62 | a label that keeps only its latest epoch still bounds every node in it |
| `EpochLists.FreedOnce` | ARTOLC/Epoche.cpp:98-112 | a sweep frees no node twice |
| `EpochLists.RunOnce` | BwTree/bwtree.h:9509-9534 | in every run each unlinked node is held by exactly one list or freed |
| `EpochLists.DeletionList.Add` | ARTOLC/Epoche.cpp:41-62 | adds the node to the head label while it has room, else to a new one |
| `EpochLists.DeletionList.Remove` | ARTOLC/Epoche.cpp:28-39 | unlinks one label and adjusts the counters |
| `EpochLists.DeletionList.Sweep` | ARTOLC/Epoche.cpp:98-112 | keeps exactly the labels not older than the oldest epoch and frees exactly the nodes of the others |
| `EpochLists.GarbageChain.Add` | BwTree/bwtree.h:10794-10819 | the node becomes the last to be freed, stamps stay in order if the epoch has not gone back, and a sweep leaves the node in the chain as long as an epoch not later than its stamp is in use |
| `EpochLists.GarbageChain.Perform` | BwTree/bwtree.h:10832-10869 | frees from the front and stops at the first node that may be in use; with stamps in order that frees every node that may be freed |
| `ArtMap.HistoryOk` | ARTOLC/Tree.cpp:351-555 | every sequence of inserts and removes leaves a well-formed tree that represents exactly the finite map the operations define |
| `ArtMap.DoOk` | ARTOLC/Tree.cpp:351-555 | one operation on a tree of a map gives the tree of the changed map |
| `ArtMap.Tree.Lookup` | ARTOLC/Tree.cpp:32-89 | the optimistic lookup finds a tuple if and only if one with that key is stored, and then that one |
| `ArtMap.Tree.LookupLeaf` | ARTOLC/Tree.cpp:46-88 | the loop of lookup ends in the tuple the descent gives, and where it skips the final comparison the tuple has the key |
| `ArtMap.Tree.Insert` | ARTOLC/Tree.cpp:351-458 | insert or upsert stores the tuple under its key and changes nothing else |
| `ArtMap.Tree.Remove` | ARTOLC/Tree.cpp:460-555 | remove takes the tuple out if the descent for the key ends in it, and nothing else |
| `ArtMap.CheckPrefixLoop` | ARTOLC/Tree.cpp:557-574 | the byte loop decides the optimistic prefix comparison |
| `ArtMap.ComparePessimistic` | ARTOLC/Tree.cpp:576-609 | the byte loop decides the full prefix comparison, loading a key below for the bytes that are not stored |
| `ArtMap.CommonLength` | ARTOLC/Tree.cpp:442-446 | the loop measures how far two different keys agree |
| `ArtInsert.InsertOk` | ARTOLC/Tree.cpp:351-458 | insert keeps the tree well formed, stored prefixes included, and adds exactly the tuple |
| `ArtInsert.SplitPrefixOk` | ARTOLC/Tree.cpp:376-406 | a prefix split keeps in every node the first min(11, length) bytes of its logical prefix |
| `ArtInsert.SplitLeafOk` | ARTOLC/Tree.cpp:428-453 | a leaf split builds a node over both tuples with the bytes they share |
| `ArtInsert.AddKidOk` | ARTOLC/N.cpp:92-149 | adding a child, growing the layout if it is full, keeps the occupancy bounds of every layout |
| `ArtRemove.RemoveOk` | ARTOLC/Tree.cpp:460-555 | remove keeps the tree well formed and takes out exactly the tuple the descent ends in |
| `ArtRemove.DescendOk` | ARTOLC/Tree.cpp:32-89 | a descent that skips unstored prefix bytes ends in the tuple with the key whenever there is one |
| `ArtRemove.AddPrefixOk` | ARTOLC/N.cpp:319-328 | the bytes put before a prefix make it the prefix of the longer path |
| `ArtRemove.DissolveOk` | ARTOLC/Tree.cpp:505-543 | a node with two children, one removed, is replaced by the other with its prefix extended |
| `ArtRemove.TwoKids` | ARTOLC/N.cpp:343-354 | the collapse of a node whose stored count is two only ever meets a four-slot node |
| `ArtRemove.DropOk` | ARTOLC/N.cpp:204-261 | removing a child, shrinking the layout if it is underfull, keeps the occupancy bounds of every layout |
| `ArtLayouts.N4.Insert` | ARTOLC/N4.cpp:22-30 | the sorted insert adds exactly one byte to the byte-to-child map |
| `ArtLayouts.N4.SecondChild` | ARTOLC/N4.cpp:82-89 | returns the other of two children |
| `ArtLayouts.N16.Find` | ARTOLC/N16.cpp:42-51 | finds the slot of a byte, or none |
| `ArtLayouts.N16.Place` | ARTOLC/N16.cpp:16-25 | the signed comparison of flipped bytes finds the insertion point in unsigned order |
| `ArtLayouts.N48.FindSlot` | ARTOLC/N48.cpp:15-23 | the free-slot search ends inside the array |
| `ArtLayouts.FreeSlot` | ARTOLC/N48.cpp:15-23 | a node with fewer than 48 children has a free slot |
| `ArtLayouts.FlipOrder` | ARTOLC/N16.cpp:16-25 | flipping the sign bit turns signed into unsigned order and is its own inverse |
| `ArtLayouts.Grow4` | ARTOLC/N.cpp:92-149 | growing from four to sixteen slots carries the byte-to-child map over and adds the new child |
| `ArtLayouts.Grow16` | ARTOLC/N.cpp:92-149 | growing from sixteen to forty-eight slots carries the byte-to-child map over and adds the new child |
| `ArtLayouts.Grow48` | ARTOLC/N.cpp:92-149 | growing from forty-eight to 256 slots carries the byte-to-child map over and adds the new child |
| `ArtLayouts.Shrink16` | ARTOLC/N.cpp:204-261 | shrinking from sixteen to four slots carries the byte-to-child map over without the removed child |
| `ArtLayouts.Shrink48` | ARTOLC/N.cpp:204-261 | shrinking from forty-eight to sixteen slots carries the byte-to-child map over without the removed child |
| `ArtLayouts.Shrink256` | ARTOLC/N.cpp:204-261 | shrinking from 256 to forty-eight slots carries the byte-to-child map over without the removed child |
| `FreeIdStack.RunInv` | BwTree/atomic_stack.h:209-363 | the stack invariant holds in every state of every run of one pusher and any number of poppers |
| `FreeIdStack.Refines` | BwTree/atomic_stack.h:260-363 | every step is a step of an abstract stack: commit pushes the batch, a successful pop takes the top, nothing else changes it, and a pop that finds the pointer below the array finds an empty stack |
| `FreeIdStack.PopIsTop` | BwTree/atomic_stack.h:312-363 | the value read before a successful CAS is the top at the CAS |
| `FreeIdStack.Conserved` | BwTree/atomic_stack.h:260-363 | what was pushed is what was popped and what is on the stack, so no item is popped twice |
| `FreeIdStack.VersionsGrow` | BwTree/atomic_stack.h:209-296 | the version of the top pointer grows with every change |
| `FreeIdStack.NeverRecurs` | BwTree/atomic_stack.h:312-363 | if the top pointer has the same value in two states it had no other value in between |
| `Kpermuter.RunOk` | masstree/kpermuter.hh:72-253 | over any run of operations under their documented preconditions the packed word holds a permutation of 0 .. width - 1 and each step is the list operation it stands for, up to the first insert_selected whose target lies above its source, which is not |
| `Kpermuter.DoOk` | masstree/kpermuter.hh:128-253 | an operation under its documented precondition refines its operation on the list of elements and keeps the permutation, if and only if it is not an insert_selected with its target above its source |
| `Kpermuter.InsertFromBackOk` | masstree/kpermuter.hh:128-137 | the last free element is allocated and put at the position, the elements from there on move up, and the size grows |
| `Kpermuter.InsertSelectedOk` | masstree/kpermuter.hh:138-155 | the chosen free element moves to the position if and only if the position does not lie above it; the documented precondition admits more |
| `Kpermuter.InsertSelectedExample` | masstree/kpermuter.hh:138-155 | in an empty permuter of width 15, insert_selected(1, 0) overlays two elements and loses the permutation |
| `Kpermuter.RemoveOk` | masstree/kpermuter.hh:156-188 | the element becomes the first free one, the elements in use after it move down |
| `Kpermuter.RemoveToBackOk` | masstree/kpermuter.hh:189-216 | the element goes to the very end, all elements after it move down |
| `Kpermuter.RotateOk` | masstree/kpermuter.hh:217-239 | as coded, all elements from position i to the width turn by j - i |
| `Kpermuter.RotateDocumented` | masstree/kpermuter.hh:217-239 | rotate does what its documentation says if and only if i = j or no element is free |
| `Kpermuter.RotateExample` | masstree/kpermuter.hh:217-239 | a permuter with three elements in use on which rotate brings a free element into use |
| `Kpermuter.ExchangeOk` | masstree/kpermuter.hh:241-244 | the two elements change places |
| `Kpermuter.ExchangeValuesOk` | masstree/kpermuter.hh:246-253 | the two values change places wherever they are, and the permutation is kept |
| `Kpermuter.MakeEmptyOk` | masstree/kpermuter.hh:72-75 | an empty permuter holds every element, to be allocated in order |
| `Kpermuter.MakeSortedOk` | masstree/kpermuter.hh:76-86 | 0 .. n - 1 are in use in order and the others are free, to be allocated in order |
| `Kpermuter.Constants` | masstree/kpermuter.hh:36-52 | the initial and full words are the constants of the three storage sizes |
| `KpermuterClass.Permuter.InsertFromBack` | masstree/kpermuter.hh:128-137 | changes the field to the word after the insertion and returns the allocated element |
| `KpermuterClass.Permuter.Remove` | masstree/kpermuter.hh:156-188 | changes the field to the word after the removal |
| `KpermuterClass.Permuter.RemoveToBack` | masstree/kpermuter.hh:189-216 | changes the field to the word after the removal to the end |
| `KpermuterClass.Permuter.InsertSelected` | masstree/kpermuter.hh:138-155 | changes the field to the word with the chosen element at its target, if and only if the target does not lie above it |
| `KpermuterClass.Permuter.Rotate` | masstree/kpermuter.hh:217-239 | changes the field to the turned word |
| `KpermuterClass.Permuter.Exchange` | masstree/kpermuter.hh:241-244 | changes the field to the word with two elements exchanged |
| `KpermuterClass.Permuter.ExchangeValues` | masstree/kpermuter.hh:246-253 | the loop that gathers differences nibble by nibble exchanges the two values |
| `Nibbles.ValueInc` | masstree/kpermuter.hh:128-137 | adding one to the lowest nibble of a word adds one to its integer where nothing is carried |
| `Nibbles.ValueShl` | masstree/kpermuter.hh:128-137 | a left shift by nibbles multiplies what stays in the word by a power of sixteen |
| `Nibbles.ValueDec` | masstree/kpermuter.hh:173-188 | subtracting one from the lowest nibble takes one from the integer where nothing is borrowed |
| `Nibbles.ValueShr` | masstree/kpermuter.hh:91-100 | a right shift by nibbles divides by a power of sixteen |
| `Nibbles.ValueAndLow` | masstree/kpermuter.hh:128-137 | a mask of the low nibbles takes the remainder by a power of sixteen |
| `Nibbles.ValueCut` | masstree/kpermuter.hh:91-100 | the integer of a word is its low nibbles and a power of sixteen times the rest |
| `ChunkChain.RunInv` | BwTree/bwtree.h:2181-2320 | the chain, chunk and call invariant holds in every state of every interleaving of allocations |
| `ChunkChain.BlocksApart` | BwTree/bwtree.h:2215-2233 | blocks that were returned lie inside their chunks and do not overlap |
| `ChunkChain.SuccessorStays` | BwTree/bwtree.h:2246-2283 | a chunk that has a successor keeps it: at most one is ever linked |
| `ChunkChain.NeverStuck` | BwTree/bwtree.h:2246-2283 | no call touches a chunk that was given back, and every unfinished call can go on |
| `ChunkChain.SoloFinishes` | BwTree/bwtree.h:2298-2320 | from every reachable state a request that fits into a chunk is served if its call runs alone |
| `ChunkChain.SoloBounded` | BwTree/bwtree.h:2298-2320 | it takes at most as many steps as its rank says, which counts the chunks left in the chain |
| `ChunkChain.TooLarge` | BwTree/bwtree.h:2298-2320 | a request larger than a chunk is never served, however long it runs |
| `RtmNode.BtNode.Lb` | btree-rtm/btree.c:58-66 | the search with the mid-point shortcut finds the first item not below the key, the placeholder of an inner node left out |
| `RtmNode.BtNode.Ub` | btree-rtm/btree.c:69-74 | finds the first separator above the key, the placeholder left out |
| `RtmNode.BtNode.StartIndex` | btree-rtm/btree.h:48-53 | the search may start in the middle only if every earlier key is below |
| `RtmNode.BtNode.Insert` | btree-rtm/btree.c:77-88 | the entry takes the next slot and its nibble goes to its place in the word, so that the listed items are the old ones with the entry at its lower bound; an equal key is refused |
| `RtmNode.BtNode.RemoveAt` | btree-rtm/btree.c:91-112 | the slot is closed up and the word rebuilt: the listed items are the old ones without one |
| `RtmNode.BtNode.Split` | btree-rtm/btree.c:124-148 | both halves of the listed items, in order, in two nodes with words in order |
| `RtmNode.BtNode.Merge` | btree-rtm/btree.c:152-173 | the listed items of the right node follow those of the left one |
| `RtmNode.InsertListed` | btree-rtm/btree.c:77-88 | the nibble arithmetic of the insertion lists the items with the new one spliced in |
| `RtmNode.DroppedListed` | btree-rtm/btree.c:91-112 | closing up a slot and its number in the word lists the items without it |
| `RtmMap.LbUnique` | btree-rtm/btree.c:58-66 | the lower bound a node finds is the one the tree uses |
| `RtmMap.UbUnique` | btree-rtm/btree.c:69-74 | the upper bound a node finds is the one the tree uses |
| `RtmTree.SoleParent` | btree-rtm/btree.c:177-213 | every node has one parent at most |
| `RtmTree.UbKid` | btree-rtm/btree.c:217-230 | the kid just before the upper bound is the one whose key range holds the key |
| `RtmSmo.SplitUnderOk` | btree-rtm/btree.c:177-191 | a split under a parent with room keeps the tree, its levels and its map; off the left edge every first separator stays the lower end of its node's range |
| `RtmSmo.SplitTopOk` | btree-rtm/btree.c:179-191 | a root split keeps the tree and its map although the first separator of the new root is a placeholder |
| `RtmSmo.MergeOk` | btree-rtm/btree.c:192-212 | a merge of two neighbours that fit keeps the tree, its levels and its map |
| `RtmSmo.WriteOk` | btree-rtm/btree.c:232-256 | changing one key of a leaf changes that key of the map and nothing else |
| `RtmMap.BTree.Smo` | btree-rtm/btree.c:177-213 | does to the tree what the adjustment of one node says, in a tree for the same map |
| `RtmDescent.AdjustOk` | btree-rtm/btree.c:177-213 | the node to go on with has the same level, holds the key and has room, in a well-formed tree |
| `RtmDescent.AdjustHolds` | btree-rtm/btree.c:177-213 | adjusting a node does not change the map |
| `RtmDescent.DownOk` | btree-rtm/btree.c:217-230 | the kid before the upper bound holds the key and is one level lower |
| `RtmDescent.ArriveLeaves` | btree-rtm/btree.c:217-230 | splits and merges of inner nodes on the way down do not touch a leaf |
| `RtmDescent.DescendedEmpty` | btree-rtm/btree.c:217-230 | a descent ends in an empty leaf if and only if the leaf for the key is empty to begin with and is not merged with a neighbour that has entries, the left one being tried first |
| `RtmMap.BTree.FindLeaf` | btree-rtm/btree.c:217-230 | computes the descent, keeps the map, and returns the leaf for the key with room for one more entry |
| `RtmMap.BTree.Find` | btree-rtm/btree.c:240-245 | returns the value the map holds for the key, or none, and keeps the map |
| `RtmMap.BTree.Insert` | btree-rtm/btree.c:232-234 | inserts a new key and refuses one that is there |
| `RtmMap.BTree.Upsert` | btree-rtm/btree.c:248-256 | sets the value and says whether the key was new |
| `RtmMap.BTree.Remove` | btree-rtm/btree.c:236-238 | removes the key if it is there; the assertion on the leaf fails if and only if, in the tree before the call, the leaf for the key is empty and no neighbour refills it on the way down |
| `RtmMap.LopsidedExample` | btree-rtm/btree.c:114-121 | a tree with sixteen entries and an empty leaf next to a full one: the descent for a key of the empty leaf changes nothing and ends there |
| `RtmMap.RemoveFails` | btree-rtm/btree.c:114-121 | remove on that tree fails the assertion although the tree is not empty |
| `BwInnerList.CountExact` | BwTree/bwtree.h:1928-2088 | the item count carried by inner deltas is one more than the number of separators |
| `BwInnerList.FillsExactly` | BwTree/bwtree.h:4750-4806 | consolidation of an inner chain fills exactly the node allocated for its item count |

## Left out

- `lookup` in the B+tree leaves `success` uninitialised (BTreeOLC/BTreeOLC_child_layout.h:393); the model takes the intended false.
- Weak-memory effects, pauses and yields, and the wrap-around of version, epoch and stack-version counters.
- The obsolete bit of the B+tree locks, which no operation sets.
- A B+tree split and the insertion of its separator are one step: both nodes are locked and an unvalidated read may return anything in between.
- `BTreeOLC/BTreeOLC.h` (the split-array layout of the same protocol) and the string keys of `incKey`.
- OlcNodeClass.BTreeInner.Split: leaves out what the copy of one extra key puts behind the counted keys of the new node, because nothing reads it.
- The Bw-tree's inner levels in the step system: a traversal may start at any linked leaf whose low key is not above its key, which covers whatever an inner search returns. Inner searches are proved on chains separately.
- A CAS in the Bw-tree model compares immutable chains by value and may fail at any time; the source compares pointers, so the model has every behaviour of the source.
- Node IDs of the Bw-tree are not reused in the step system; AtomicStack, which recycles them, is proved on its own.
- The Bw-tree's left-most check is modelled as the node not being node 2.
- BwInnerLeft.FindLeft: the set of deltas is kept in ascending order and read from its end; the source keeps it descending and reads from its front.
- Inner splits, inner merges and the InnerAbort handshake as steps, the iterators, the old epoch manager, non-unique keys and the debug paths of the Bw-tree.
- The radix tree's updates in place, its locks and restarts: insert and remove are modelled on tree values, so aliasing and interleaving are not captured. Keys have one length, and a tuple ID is positive and below 2^63.
- ArtMap.Tree.Remove: for a key that is not the one of the tuple it only says that the tuple goes if the descent ends in it, because the code does not compare keys.
- `lookupRange` and `getChildren` of the radix tree.
- Freeing all nodes of one label is one step in the epoch model, and the thresholds that decide when to sweep are left to chance.
- EpochLists.DeletionList.Add: the labels are a sequence; the links between labels and the reuse of freed labels are not modelled.
- EpochLists.DeletionList.Remove: takes a label out of a sequence by its position; unlinking through the previous label and the list of free labels are not modelled.
- EpochLists.DeletionList.Sweep: walks a sequence of labels and not a linked list.
- EpochLists.GarbageChain.Perform: the chain is a sequence; its header, last pointer and node count are not modelled.
- AtomicStack: the capacity check, which is compiled in debug builds only.
- Carries and borrows in the permuter's words: the size nibble is below its width when one is added and above zero when one is taken, so none occur.
- The permuter's text output, and words of other sizes than a multiple of four bits: all its shifts and masks end at nibbles.
- The tree of btree-rtm holds its nodes as values in a map from IDs to nodes; that the values behave like the nodes in memory is what `RtmNode` proves. Sibling pointers, which the build leaves out, and the string comparator are not modelled.
- The statistics and the destruction of the chunk chain; that a tail pointer does not wrap around below zero.
- Workload drivers, wrappers of libraries that are not part of the repository, command-line handling and I/O.

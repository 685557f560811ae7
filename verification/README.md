# Kernel data structures, verified

Models of the parts of the kernel in which state and arithmetic are hardest to get right, with
proofs of what they promise.

**The kernel heap** (`vmalloc/vmbest.c`, `vmalloc/vmhdr.h`, `vmalloc/vmprivate.c`, `malloc.c`). An
arena of boundary-tagged blocks is measured in units of 8 bytes; on i386 headers, alignments and
sizes are multiples of a unit, so nothing is lost. Memory is a value of field maps (`VmMemory.Mem`):
the header with its three bits, and the words LINK, LEFT, RIGHT, SEG and SELF. `VmBest.Region` is
the region with its fields, and its methods are the allocator's functions, which write these words
step by step. The author's DEBUG checkers become the invariant `ArenaSound.Sound`: blocks tile each
segment; PFREE is set exactly behind free blocks; every free block is the wild block or is on the
one tiny list, chain or tree node of its size, and a free block at the end of the first segment is
the wild block; every junk block is the last-freed block or on a delayed list whose class is the
block's own; the tree is ordered by size. `Valid()` is this invariant between calls. It holds after
every call of bestalloc, bestfree, bestresize and bestalign, with two exact exceptions:

- A *bunch* (`vmalloc/vmbest.c:554-567`) is assumed to be an exact fit. When the block obtained is
  one unit larger, the last piece sits on the list of the wrong class. And vmextend may have put the
  old wild block on that very list meanwhile (`vmalloc/vmprivate.c:146-160`); `*cache = tp` then
  loses it. `BestAlloc` reports the bunch it has made, and the region is in order afterwards if and
  only if the report is regular: the block fits exactly and the list was still empty. A request that
  finds its list filled makes no bunch. When nothing is delayed, what will happen can be told before
  the call: the region is spoilt if and only if `Spoils` holds, that is, if the least sufficient
  tree block has one unit too many, or if there is none and the wild block has, or if that is too
  small, has the very size asked for, and loses its place to a new segment. When only larger blocks
  are delayed the same holds of the state their coalescing leads to. `Spoilt.SpoiltRun` is a run of
  two calls from the empty heap, malloc of 953 units and then of 8 bytes, whose second call spoils
  the region.
- An *aligned* block is cut from one with room for two steps of the alignment, and the sum of these and
  the request wraps around at 2^32 bytes (`vmalloc/vmbest.c:1066`). The call goes on whatever it has
  got. It serves the request if and only if the block obtained has room for it from the aligned address
  on (`HasRoom`). That is so whenever the sum does not wrap around. When it does, it is never so for
  steps of less than 2^28 - 2 units: the block is then shorter than the request. For larger steps it
  depends on where the block lies, and which block that is follows from the state before the call
  (`VmBest.Region.BestAlign`, `VmBest.AlignFits`). `Spoilt.ShortRun` is an aligned request for 100
  units that gets at most 95, and `Spoilt.LuckyRun` one that wraps around and is served all the same.
  The address is a multiple of the alignment unless 8 times the alignment wraps around as well; for odd
  alignments it then never is (`VmBest.AlignMissed`).

Which block a request gets follows from the state before it (`VmBest.Answers`): the cached block of its
size that was delayed last; or the last-freed block if that is large enough and less than twice as
large; or the least sufficient tree block, after reclaiming no more of the delayed lists than it
takes to find one; or, with everything coalesced, the wild block, or new memory. A block is resized
where it is if and only if nothing in use and no end of a segment is in the way of the new size, or
nothing in use is behind it and its segment may grow (`VmBest.InPlace`). The kernel's own heap stays inside
its pool in every run (`KernelHeap.HeldInPool`), and what is freed last of a small size is what the
next request of that size gets (`KernelHeap.FreedThenUsed`).

Memory is refused only when nothing is left to coalesce, neither the tree nor the wild block has a
block large enough, and the discipline gives no more (`NoMemory`). The lists of *tiny* blocks are
never searched. So a request of at most 7 units may fail although a tiny free block is large enough:
every free block is smaller if and only if none of those lists has a block large enough
(`VmBest.Leftovers`). `Spoilt.TinyRun` is a run of five calls from the empty heap, the last of which
is refused 7 units although a free block has exactly 7.

**The AVL index** (`avl.c`, `avl.h`). `Avl.Index` is the tree with its link and skew fields;
insertion rebalances in place. Its contents are a map from keys to the first node added under each.
The comparison may be any total order, and the repository's own `strcmp` is shown to be one.

**Threads and the keyboard monitor** (`thread.c`, `mutex.c`, `condvar.c`, `list.h`, `queue.c`,
`keyboard.c`). `Sched.Kernel` works on intrusive circular lists, pointer by pointer: in every state
that its methods lead to, a live thread is asleep or on exactly one list, once. A thread gets a full
quantum only when it has nothing left, so between two fillings it runs THREAD_INITIAL_QUANTUM ticks
(`Sched.FairShare`). `CharQueue` is the ring buffer. `Monitor` is the abstract system: threads with
program counters, the idle thread among them, and actions that are the atomic steps. A step is a try
on the spin lock, or an IRQL_DISPATCH section together with the switch that follows it. Between any
two of them the running thread may be preempted, or a keyboard interrupt may start its handler on
top of whatever the thread is doing; the handler enqueues the characters of one key, and the next
key waits until it has ended. `Keyboard.Driver` runs the concrete lists and queue, and each of its
steps is proved to be the abstract one. A call of keyboard_read that has ended has stored exactly as
many characters as it asked for (`Monitor.StoresAsked`), and what is enqueued is what was typed, in
order (`Monitor.AllTyped`). Things the code does that a reader may not expect:

- The try on the mutex (`mutex.c:13`) lies outside the section that joins those who wait
  (`mutex.c:16`). A thread comes to wait for a free mutex exactly by joining when the mutex is free
  (`Monitor.JoinsFree`), which takes a release since its failed try; `Monitor.WaitsInVain` is such a
  run. When no thread is preempted or interrupted in that gap, none ever waits for a free mutex
  (`Monitor.NoneWaitsInVain`).
- The interrupt handler locks the mutex on whatever thread it interrupts. If that thread is the
  holder (`Monitor.StuckRun`), it comes to wait for itself, and from then on no character is ever
  enqueued or taken. This is the only action that leads there (`Monitor.StuckBy`), and there is no way
  back (`Monitor.StuckForever`).
- The idle thread, interrupted, may block, and so the last runnable thread may come to wait: the
  scheduler then takes the head of an empty queue, and the model stops (`Monitor.StopsBy`,
  `Monitor.RunsDry`). It does not come to that in any run in which no interrupt is taken on the idle
  thread, nor in any in which no thread is preempted or interrupted in the gap above
  (`Monitor.NeverDry`).
- `thread_sleep` and `thread_returned` on the running thread call `thread_schedule` when the next
  thread is already at the head of the run queue, so that one is passed over for a turn
  (`Sched.Kernel.Sleep`, `Sched.Kernel.Returned`).
- A zero byte ends the reader's loop without being stored. Hence bytes read and bytes queued are the
  bytes enqueued exactly as long as no zero has been taken (`Monitor.FirstInFirstOut`).
- A full queue panics; the model then stops.

**Smaller pieces**: pfsort of the profiler, vmstat, pool regions, `strtol`/`strtoul` and `itoa`, and
the Internet checksum of sections 1 and 2 of RFC 1071 and section 3.1 of RFC 791.

Modules follow the source files; the allocator is layered as follows. `FreeTree`, `Splay`, `Extract`
(the tree and its chains), `Index` (tree, tiny lists and waiting list together), `Arena`, `Steps`,
`ArenaSound` (tiling, bits, and agreement with the index), `Delayed` (junk and the delayed lists),
`Carve` (cutting, growing, moving, new segments), `Bunch`, `VmBest`, `KernelHeap`, `VmStat`.

Sizes enter the allocator in whole units: a request of n bytes is a request of (n + 7) / 8 units,
and of one unit when n is 0. The memory discipline is a parameter: `offer` may refuse or name any
address range that overlaps no segment, `grows` may let a segment grow where it is. `KernelHeap` takes
the kernel's own `memoryf`.

## Model

| member | source | states |
|---|---|---|
| VmMemory.SizeWordOrder | vmalloc/vmhdr.h:92-112 | size words with bits compare as the sizes do, whatever the bits, so the source may compare before clearing them |
| FreeTree.RepFrame | vmalloc/vmbest.c:75-97 | a tree is left as it is by all writes that spare the links of its nodes |
| Splay.RotateRightRep | vmalloc/vmbest.c:210 | RROTATE of a represented tree gives the rotated tree, with the same keys in order |
| Splay.RotateLeftRep | vmalloc/vmbest.c:211 | LROTATE likewise |
| Splay.LinkRight | vmalloc/vmbest.c:212 | RLINK hangs a node with its upper subtree below the right part |
| Splay.LinkLeft | vmalloc/vmbest.c:213 | LLINK hangs a node with its lower subtree below the left part |
| Splay.DescentZigZagRight | vmalloc/vmbest.c:271-275 | the double link of the zig-zag case keeps the three parts of the descent apart, ordered and complete |
| Splay.DescentZigZagLeft | vmalloc/vmbest.c:286-290 | likewise, mirrored |
| Splay.Close | vmalloc/vmbest.c:295-302 | closing the two open ends turns left and right parts into ordered trees with exactly their keys |
| Extract.FinishPromote | vmalloc/vmbest.c:311-315 | the second block of a chain replaces its tree node: all other sizes and blocks stay, the tree is strictly ordered |
| Extract.FinishGraft | vmalloc/vmbest.c:316-323 | grafting the lower tree under the least node of the upper one yields an ordered tree of exactly the other sizes |
| VmBest.Region.MinToRoot | vmalloc/vmbest.c:305-306 | the rotations end with the least node as root, the same sizes and an ordered tree |
| VmBest.Region.Descend | vmalloc/vmbest.c:257-293 | the top-down pass ends, and leaves what is below the size, what is above it, and the subtree of that size if there is one |
| VmBest.Region.SearchTree | vmalloc/vmbest.c:254-327 | a block of the least size not below the request is removed, or none and nothing when all are smaller; all other blocks, chains included, stay; the tree is strictly ordered by size |
| VmBest.Region.Replant | vmalloc/vmbest.c:311-323 | the pieces of the search become one ordered tree without the block found |
| VmBest.Region.TakeTiniest | vmalloc/vmbest.c:229-252 | a wanted tiniest block leaves its list and its SEG word names the containing segment again |
| VmBest.Region.BestSearch | vmalloc/vmbest.c:217-327 | a wanted block is the one returned, otherwise the best fit; exactly that block leaves the index, which stays in order; a tiniest block gets its SEG word back |
| VmBest.Region.Unlink | vmalloc/vmhdr.h:296-298 | element k of a doubly linked list is taken out: the links on both sides or the list head change, nothing else |
| VmBest.Region.Remove | vmalloc/vmhdr.h:309-311 | the named free block leaves whichever list, chain, tree node or waiting list holds it; the order of the others is kept; a tiniest block gets its SEG word back |
| Index.UnlinkIndex | vmalloc/vmhdr.h:296-298 | unlinking element k of one list keeps tree, tiny lists and chains in order |
| Index.InsertIndex | vmalloc/vmbest.c:431-456 | inserting a new block into the list of its size keeps the whole index in order |
| Index.GrowRep | vmalloc/vmbest.c:473-495 | hanging a block under the node where the descent ends adds a leaf with its size to the represented tree |
| VmBest.Region.ToTinyList | vmalloc/vmbest.c:431-447 | a tiny free block becomes the first of the list of its size |
| VmBest.Region.ToWaitingList | vmalloc/vmbest.c:449-455 | a large merged block becomes the first of those waiting for the tree |
| VmBest.Region.JoinNode | vmalloc/vmbest.c:496-505 | a block joins the chain of the tree node of its size, directly behind it |
| VmBest.Region.ToTree | vmalloc/vmbest.c:467-506 | a block joins the tree as a leaf or in the chain of its size, and the index holds exactly one block more |
| Arena.ScanSegments | vmalloc/vmbest.c:381-384 | scanning the segment list stops at the one segment that contains the address |
| Arena.NextUnique | vmalloc/vmhdr.h:291 | no two blocks have the same successor |
| Steps.AbsorbTiled | vmalloc/vmbest.c:398-415 | a block that takes in its successor leaves a tiling with exactly that successor gone |
| ArenaSound.AbsorbSound | vmalloc/vmbest.c:398-415 | one forward merge keeps the arena invariant and every live block |
| ArenaSound.AnnounceSound | vmalloc/vmbest.c:420-422 | setting PFREE and SELF for a merged block keeps the invariant |
| ArenaSound.ReleaseWild | vmalloc/vmbest.c:424-428 | a merged block at the very end of the first segment becomes the wild block |
| ArenaSound.FreeWhere | vmalloc/vmbest.c:50-71 | a free block is the wild block or held by the index, the wild block if it ends the first segment; it is never junk, and neither neighbour is free |
| ArenaSound.FreeBefore | vmalloc/vmbest.c:390-391 | when PFREE is set, LAST is the free block that ends right there |
| VmBest.Region.MergeNext | vmalloc/vmbest.c:399-413 | one round takes in exactly the next block unless that is live, keeps live blocks, and lowers c exactly to the class of a junk block taken in |
| VmBest.Region.MergeAll | vmalloc/vmbest.c:398-414 | the merge ends at a live block with the invariant kept and no other block touched; c goes down only to the class of a junk block taken in |
| VmBest.Region.MergeBack | vmalloc/vmbest.c:390-396 | an entry merges with its free predecessor if PFREE is set, and the entry is then no block any more |
| VmBest.Region.Release | vmalloc/vmbest.c:420-456 | a merged block is announced and becomes the wild block exactly if it ends the first segment; otherwise it is the first of the tiny list of its size, or of the blocks waiting for the tree |
| VmBest.Region.MergeOn | vmalloc/vmbest.c:398-456 | a block taken from a list is merged up to the next live block and then released, or left for the caller if it is the wanted one; no other block is touched |
| VmBest.Region.Collect | vmalloc/vmbest.c:374-456 | one list entry is freed, or skipped because an earlier merge has swallowed it; every other free block stays as it was; the invariant, with all classes at or above c drained, is kept |
| VmBest.Region.DrainList | vmalloc/vmbest.c:355-457 | the list is scanned once, every entry counted once, and is empty afterwards |
| VmBest.Region.DrainLists | vmalloc/vmbest.c:354-458 | exactly the lists from the final c up are drained, and the count is the number of their entries |
| VmBest.Region.PlantAll | vmalloc/vmbest.c:459-507 | all waiting blocks end up in the tree, headers untouched |
| VmBest.Region.DelayLast | vmalloc/vmbest.c:347-350 | the last-freed block joins the list for the larger sizes |
| VmBest.Region.Reclaim | vmalloc/vmbest.c:331-511 | the lists from the final c, at most the given one, are drained and no list holds a swallowed entry; c goes below the given class only where a junk block of that class was taken in; every free block is an old one untouched or ends at a live block; a wanted block is left for the caller; live blocks keep size and words; the count is that of the entries |
| VmBest.Region.ReclaimFrom | vmalloc/vmbest.c:331-511 | with no block wanted: nothing in use changes, and all of the above; with nothing delayed nothing changes at all |
| Delayed.SoundDrained | vmalloc/vmbest.c:354-415 | when all lists from c up are empty, no entry below c is stale: the invariant holds for all classes again |
| Delayed.PopAbsorb | vmalloc/vmbest.c:390-396 | taking an entry off its list and merging it into its free predecessor keeps the invariant |
| Delayed.DropStale | vmalloc/vmbest.c:377-379 | an entry that is no junk any more can be dropped |
| Delayed.JunkLeft | vmalloc/vmbest.c:354-411 | junk that is left over after a reclaim down to c has a class below c |
| Carve.AllCoalesced | vmalloc/vmbest.c:331-511 | with nothing delayed there is no junk, and of two neighbours at least one is live |
| Carve.InUseApart | vmalloc/vmbest.c:114-205 | a block in use lies inside one segment and overlaps no other block in use |
| Carve.EmptySound | vmalloc/vmbest.c:1195-1222 | a region without memory is in order |
| Carve.NewSegment | vmalloc/vmprivate.c:101-140 | a new segment in its place in the list keeps the invariant, its block in transit |
| Carve.TameWild | vmalloc/vmprivate.c:146-160 | a wild block that is no longer in the first segment becomes junk on the list of its class |
| Carve.GrowTop | vmalloc/vmprivate.c:75-99 | growing the first segment in place keeps the invariant, the new space in transit |
| Carve.Found | vmalloc/vmbest.c:604-609 | the block found is of least sufficient size among those on offer, its neighbours are live, and it is in transit |
| Carve.NoneFound | vmalloc/vmbest.c:604-609 | a search that fails leaves the region in order, and nothing on offer is large enough |
| VmBest.Region.constructor | vmalloc/vmbest.c:1195-1222 | the heap before the first call: in order, nothing in use |
| VmBest.Region.Search | vmalloc/vmbest.c:607-608 | either no tree block is large enough and nothing has changed but the shape of the tree, or the block is the least of those large enough |
| VmBest.Region.FindFit | vmalloc/vmbest.c:605-613 | a tree block of least sufficient size, found after reclaiming down to the first list at which one is on offer, the rounds before having left none; or none: then everything is coalesced and only the wild block may be large enough |
| VmBest.Region.ReuseLast | vmalloc/vmbest.c:581-602 | the last-freed block serves the request if and only if it is large enough but less than twice as large; otherwise it joins the list for the rest and nothing else changes |
| VmBest.Region.CutLast | vmalloc/vmbest.c:588-599 | the last-freed block becomes live; if two units or more are left over they are the new last-freed block, and nothing else changes |
| VmBest.Region.CutRest | vmalloc/vmbest.c:640-653 | what is not needed becomes the last-freed block, or the wild block exactly if it ends the first segment and the tree is not empty |
| VmBest.Region.Use | vmalloc/vmbest.c:630-656 | the block becomes live with the size asked for, or whole if less than two units would remain; no other live block changes |
| VmBest.Region.Place | vmalloc/vmprivate.c:104-136 | alignment and place of a new segment in the list, highest address first |
| VmBest.SegmentInside | vmalloc/vmprivate.c:103-118 | a new segment lies inside the memory offered, and takes all of it but for less than three units that alignment costs |
| VmBest.Region.HandOver | vmalloc/vmprivate.c:145-160 | a wild block covered by a new segment becomes junk of its class |
| VmBest.Region.AddSegment | vmalloc/vmprivate.c:101-162 | a new segment of n units in its place in the list yields a block of at least n - 8 units in transit, the rest of the region in order |
| VmBest.Region.ExtendTop | vmalloc/vmprivate.c:75-99 | the first segment grows by exactly that much, and its last block with it if that is free |
| VmBest.Region.Need | vmalloc/vmprivate.c:34-66 | how much is asked for: whole pages for the request and its segment, less the whole pages of the wild block when the first segment grows; nothing when that wraps around |
| VmBest.RequestedIs | vmalloc/vmprivate.c:34-40 | whole pages that hold the request and what the segment takes, by less than a page more; none when the sum comes within a page of 2^32 bytes |
| VmBest.SpareIs | vmalloc/vmprivate.c:46-53 | the whole pages of the wild block, by less than a page less |
| VmBest.Region.Extend | vmalloc/vmprivate.c:34-162 | memory is asked for only when nothing fits after full coalescing; the result is none, and nothing has changed, if and only if the size is out of range or the discipline refuses exactly the amount computed; otherwise it is large enough, and it is the grown end of the first segment or the block of a new segment of that amount |
| VmBest.Region.UseWildBlock | vmalloc/vmbest.c:612-617 | the wild block is in transit and there is none any more |
| VmBest.Region.Obtain | vmalloc/vmbest.c:605-628 | a block large enough is in transit and nothing in use has changed, or there is no memory; which block it is: the one that the search finds, or with everything coalesced and none on offer the wild block, or else new memory; at most one segment has been added or has grown, as the discipline allowed |
| VmBest.Leftovers | vmalloc/vmbest.c:605-628 | when neither tree nor wild block is large enough, every free block is smaller than the request if and only if no list of tiny blocks holds one that is not |
| VmBest.Region.AllocRest | vmalloc/vmbest.c:581-656 | exactly one block becomes live, of the requested size or one unit more, disjoint from all others; or none, and then nothing in use has changed, full coalescing has left no tree block and no wild block large enough, and the discipline gives no more; it is the last-freed block exactly if that is large enough but less than twice as large, or else the block that the search finds, or else with everything coalesced the wild block, or else what vmextend gives, kept whole if less than two units would remain |
| Bunch.CutPiece | vmalloc/vmbest.c:560-565 | cutting one junk piece off a block in use keeps the invariant and the pieces' list |
| Bunch.CuttingEnd | vmalloc/vmbest.c:559-567 | with an exact fit on an empty list the pieces are the list of their class and the region is in order |
| Bunch.CuttingBroken | vmalloc/vmbest.c:559-567 | without, the delayed lists are wrong once the first piece is used |
| VmBest.Region.CutPieces | vmalloc/vmbest.c:560-565 | 31 pieces of the size are cut off side by side and linked in address order |
| VmBest.Region.CutBunch | vmalloc/vmbest.c:556-569 | the 32 pieces, side by side, replace the list and no other; the region is in order if the bunch is regular, and otherwise wrong |
| VmBest.Region.MakeBunch | vmalloc/vmbest.c:550-572 | a bunch of 32 blocks side by side, cut from the block that a request for all of them gets once the larger delayed blocks are reclaimed, or none for lack of memory; when no small block is delayed, the bunch is regular unless the settled region is one that it spoils |
| VmBest.ServedSpoils | vmalloc/vmbest.c:554-567 | with nothing delayed, the block that serves a bunch fits exactly and the list of its class is empty if and only if the region is not one that the bunch spoils |
| VmBest.Region.PopCache | vmalloc/vmbest.c:574-578 | the head of a list of small blocks is no junk any more |
| VmBest.Region.TakeCached | vmalloc/vmbest.c:574-578 | the head of the list becomes live, the list loses exactly that, and nothing else changes; the region is in order if and only if the bunch was regular |
| VmBest.Region.BestAlloc | vmalloc/vmbest.c:514-666 | which block is returned (`Answers`): the head of the list of its size if that is not empty, nothing else changing; else for a small size the first of a new bunch, whose other 31 blocks are the list; else the last-freed block, the block that the search finds, the wild block or new memory, in this order. The region is in order again if and only if the bunch made, if any, was regular; with nothing delayed, or nothing but larger blocks, that is decided by the state before the call; then exactly one block of the size or one unit more becomes live and no other block in use changes, or there is none and no memory to be had |
| Spoilt.PageSpoils | vmalloc/vmbest.c:554-567 | in every region in order that is one page with a block of 953 units in use at its start, and nothing delayed, a bunch of 1-unit blocks spoils the region |
| Spoilt.SpoiltRun | vmalloc/vmbest.c:514-666 | from the empty heap and a pool on an 8-byte boundary, malloc of 953 units and then of 1: the run stops after the first call and the region is out of order |
| Spoilt.TinyRun | vmalloc/vmbest.c:605-628 | from the empty heap: 7 and 1009 units allocated in the one page given, the 7 given back, a request for 2000 refused; then a request for 7 units is refused, although a free block has 7 units |
| Spoilt.ShortRun | vmalloc/vmbest.c:1066-1106 | from the empty heap, an aligned request for 100 units whose sum wraps around obtains a block of less than 100, which ends before the aligned address and 100 units |
| Spoilt.LuckyRun | vmalloc/vmbest.c:1066-1106 | with an alignment of 2^31 bytes the sum wraps around too, but the block obtained from a pool 40 bytes below that address is aligned and large enough, and the call is served |
| VmBest.Region.BestFree | vmalloc/vmbest.c:727-778 | exactly the named block is no longer in use; it is the first of the list of its size, or the last-freed block if there was none, or the first of the list for the rest, and a page or more is reclaimed at once; the region stays in order; a null pointer changes nothing |
| VmBest.Region.TakeNext | vmalloc/vmbest.c:832-847 | the successor of a block in use leaves the place where it is kept, unless it is in use too, and nothing in use changes |
| VmBest.Region.MergeUsed | vmalloc/vmbest.c:831-852 | a block in use takes in its successor unless that is in use too, and no other block in use changes |
| VmBest.ClearBehind | vmalloc/vmbest.c:828-862 | a block that has taken in its successors until it was large enough or the next one was live is large enough if and only if no block in use and no end of a segment was in the way; if it is not, it ends its segment if and only if nothing in use was behind it there |
| VmBest.Region.GrowUsedTo | vmalloc/vmbest.c:828-853 | the size is reached if and only if, in the state before, no block in use and no end of a segment is in the way; nothing else in use changes |
| VmBest.Region.CutUsed | vmalloc/vmbest.c:875-898 | what is not needed is cut off and freed, and the larger delayed blocks are reclaimed |
| VmBest.Region.GrowSegment | vmalloc/vmbest.c:855-870 | a segment grows under its last block, which is in use, if and only if that block ends the segment, the size exceeds the increment and the discipline lets the segment grow; the block is large enough then, and nothing else in use changes |
| Carve.GrowUnder | vmalloc/vmbest.c:855-870 | growing any segment under its last block, which is in use, keeps the invariant and every block in use |
| VmBest.Region.Delay | vmalloc/vmbest.c:893-898 | a junk block goes to the list for the rest, and that list is reclaimed: no larger block is delayed afterwards |
| VmBest.Region.MoveUsed | vmalloc/vmbest.c:884-899 | a new block, the one that bestalloc gives, holds the old block's data if that was asked for, and the old block is freed; only when there is no memory does the old block stay in use, with its data |
| VmBest.Region.CopyWords | vmalloc/vmbest.c:891 | memcpy between blocks that do not overlap |
| VmBest.Region.ZeroWords | vmalloc/vmbest.c:906-907 | memset with zero of exactly that range |
| VmBest.Region.ResizeUsed | vmalloc/vmbest.c:824-900 | the block stays where it is if and only if, in the state before, nothing is in the way of the new size, or nothing in use is behind it and its segment may grow, whatever the flags; it is then cut to less than a full block too much, and a block that was large enough is changed only by that cut; otherwise it is moved if that is allowed, to the block that bestalloc gives, and left in use too small only for lack of memory or when it is not to be moved; copied data are the old ones |
| VmBest.Region.BestResize | vmalloc/vmbest.c:781-912 | in place if and only if nothing is in the way, or the segment may grow, in the state before; on success the first min(old, new) units are kept if the block is copied or stays in place, and with VM_RSZERO all units from the old to the new size are zero; other data never change; it fails only where the block cannot stay in place, and then only for lack of memory or when it may not be moved, and the old block stays in use with its data; size 0 frees, a null pointer allocates |
| VmBest.Region.CutLeft | vmalloc/vmbest.c:1083-1090 | the part before the aligned address becomes junk of its class |
| VmBest.Region.CutRight | vmalloc/vmbest.c:1094-1104 | the part behind the size becomes junk of its class |
| VmBest.Region.CoalesceAll | vmalloc/vmbest.c:1063-1064 | afterwards no junk is left and no two neighbours are both out of use |
| VmBest.AlignStep | vmalloc/vmbest.c:1073-1081 | one alignment step more always suffices for a full block on the left |
| VmBest.AlignedFirst | vmalloc/vmbest.c:1070-1081 | the aligned address is the first multiple with nothing or a full block before it |
| VmBest.AlignBytes | vmalloc/vmhdr.h:65 | a multiple of MULTIPLE(alignment, 8) is a multiple of the alignment |
| VmBest.Region.AlignWithin | vmalloc/vmbest.c:1070-1106 | where the block has room from the aligned address on, the kept block starts there and has the size, or all that is left if that is less than three units more; nothing delayed is left |
| VmBest.AlignFits | vmalloc/vmbest.c:1066-1082 | a block obtained for the sum has room for the request whenever the sum does not wrap around; when it does and the step is less than 2^28 - 2 units, the block is shorter than the request |
| VmBest.AlignMissed | vmalloc/vmhdr.h:65 | when 8 times an odd alignment wraps around, no address below 2^32 that is a multiple of 8 is a multiple of the alignment |
| VmBest.Region.BestAlign | vmalloc/vmbest.c:1024-1117 | for every size and alignment: the address is the aligned one in the block that serves the wrapped-around sum once everything is coalesced; a block begins there that has the size, or all that is left if that is less than three units more, if and only if that block has room, and otherwise the result is too short; an address is a multiple of the alignment if the product with 8 does not wrap around; no address only for size 0, alignment 0 or lack of memory; the region is in order if and only if a bunch made was regular |
| KernelHeap.PoolHonest | malloc.c:14-39 | what memoryf hands out from the kernel's pool never overlaps a segment |
| KernelHeap.GivenInPool | malloc.c:11-39 | whatever memory a call obtains, all segments lie in the pool, which is handed out from its start without gaps |
| KernelHeap.HeldInPool | malloc.c:11-39 | in every moment of a run whatever is held, headers included, lies in the pool |
| KernelHeap.TooLarge | malloc.c:31-39 | a request for as much as the pool or more never gets a block |
| KernelHeap.HoldingApart | vmalloc/vmbest.c:114-205 | whatever callers hold lies inside a segment and overlaps nothing else that is held |
| KernelHeap.ResizedInPlace | vmalloc/vmbest.c:828-882 | in a run a block keeps its address and gets the new size if and only if no other block in use and no end of a segment is in the way, whatever the flags; without VM_RSMOVE and VM_RSCOPY it keeps its address in any case |
| KernelHeap.FreedThenUsed | vmalloc/vmbest.c:574-599 | a small block freed is the one that the next request of its size gets; so is a larger one when it becomes the last-freed block, for requests of more than half of it |
| KernelHeap.PerformMalloc | vmalloc/vmbest.c:514-666 | either one more block is held, new and large enough by less than three units, or there is no memory: nothing delayed is left, neither tree nor wild block is large enough and the pool gives no more; which block it is |
| KernelHeap.PerformRealloc | vmalloc/vmbest.c:781-912 | the named block is resized in place exactly if nothing is in the way, or else moved if that is allowed, or kept because moving is not allowed or there is no memory; all others stay; the data are kept, copied and zeroed as the flags ask |
| KernelHeap.PerformMemalign | vmalloc/vmbest.c:1024-1117 | likewise with the aligned address in a block that has room for it; or the block obtained has none, and the call stops the model with that block in use |
| KernelHeap.Perform | vmalloc/vmbest.c:514-1117 | one call has the effect its arguments ask for, on the blocks and on the clients' data, the held addresses are exactly those of the blocks in use, and the segments stay in the pool; the region is in order unless a bunch was irregular; an aligned request stops the model only when its sum wraps around and the block obtained has no room |
| KernelHeap.Run | vmalloc/vmbest.c:514-1117 | in every run of calls each call has its effect on blocks, held addresses and data, and every state on the way is in order, with all segments in the pool; the run only stops early when an irregular bunch has spoilt the region, or when the block obtained for an aligned request has no room for it at the aligned address |
| VmStat.Stat | vmalloc/vmstat.c:49-77 | the walk counts exactly the blocks in use and the others, with total and greatest sizes; busy and free units and one header per block add up to the usable units |
| VmPool.NextElement | vmalloc/vmpool.c:66-75 | the next element carved is a new one, and all elements stay accounted for |
| VmPool.ElementsApart | vmalloc/vmpool.c:42-81 | two elements never overlap |
| VmPool.Capacity | vmalloc/vmstat.c:80-85 | a segment's units divided by the element size count the carved elements and those its rest can hold |
| VmPool.Region.constructor | vmalloc/vmpool.c:5-12 | a pool before its first call |
| VmPool.Region.PoolAlloc | vmalloc/vmpool.c:15-90 | exactly one new element becomes live, unless the size is 0 or not the pool's, or no element and no memory is left, and then only the element size may have been set; it is the element freed last, or else the next of the first segment with a rest, or else the first of a new segment, which is added only when nothing is left |
| VmPool.Region.FromRest | vmalloc/vmpool.c:49-54 | the first segment with a rest gives its next element, and there is none if and only if no segment has a rest |
| VmPool.Region.Carve | vmalloc/vmpool.c:66-81 | the first element is taken; a remainder of at most one unit more than an element becomes elements on the free list, a larger one the rest of the segment; no other segment changes |
| VmPool.Region.PoolFree | vmalloc/vmpool.c:142-179 | a live element joins the front of the free list |
| VmPool.Region.CountSegments | vmalloc/vmstat.c:41-86 | counted are all elements that the segments have room for, and less the free ones they are those ever carved less those counted free before |
| VmPool.Region.Stat | vmalloc/vmstat.c:34-95 | n_busy is the number of elements allocated and not freed, s_busy their bytes, and with n_free they are all that the segments have room for |
| PfSort.CmpOpposite | vmalloc/vmprofile.c:253-266 | of two different records exactly one comes first |
| PfSort.CmpTransitive | vmalloc/vmprofile.c:253-266 | the order of records is transitive |
| PfSort.Profile.Partition | vmalloc/vmprofile.c:235-248 | two lists of nearly equal length with all the nodes |
| PfSort.Profile.Take | vmalloc/vmprofile.c:268-288 | the smaller head goes to the end of the merged part, which stays sorted and below all the rest |
| PfSort.Profile.Merge | vmalloc/vmprofile.c:253-289 | merging two sorted lists gives a sorted list of all their nodes |
| PfSort.Profile.Sort | vmalloc/vmprofile.c:223-290 | sorting ends with a sorted permutation of the list, and touches no other node |
| PfSort.FilesTogether | vmalloc/vmprofile.c:396-408 | in the result the records of one file are contiguous, and those of line 0 come first |
| PfSort.LinesAscend | vmalloc/vmprofile.c:253-266 | the lines of one file ascend, and the regions of one line |
| Avl.RotateOrder | avl.c:34-48 | a single rotation keeps the in-order sequence |
| Avl.LiftLeft | avl.c:53-55 | the single rotation restores balance and skew, at the height before the insertion |
| Avl.LiftLeftInner | avl.c:56-75 | the double rotation does, with all three cases of the inner skew |
| Avl.LiftRight | avl.c:95-97 | the single rotation, mirrored |
| Avl.LiftRightInner | avl.c:98-117 | the double rotation, mirrored |
| Avl.Index.constructor | avl.h:35-41 | an empty index |
| Avl.Index.GrownLeft | avl.c:50-86 | after the left subtree has grown the tree is balanced again, with the same sequence; AVL_BALANCE if and only if it is higher than before |
| Avl.Index.GrownRight | avl.c:88-124 | the mirror image |
| Avl.Index.AddBelow | avl.c:15-32 | insertion into a subtree: sorted, balanced, one node more unless the key is there, AVL_BALANCE if and only if the height grew |
| Avl.Index.AddLeft | avl.c:22-24 | the case of a smaller key |
| Avl.Index.AddRight | avl.c:25-27 | the case of a greater key |
| Avl.Index.Add | avl.c:15-32 | the contents gain the node under its key, unless the key is there already, in which case nothing changes; AVL_BALANCE if and only if the height grew |
| Avl.Index.Find | avl.h:44-60 | exactly the node the contents hold under the key, in n steps with 2 to the power n / 2 at most one more than the number of entries |
| Avl.FewestNodes | avl.c:15-124 | a tree of height h has at least Fib(h + 2) - 1 nodes |
| Strcmp.StrCmp | libc.c:1011-1023 | the loop computes the order in which the terminator is lowest and other characters descend |
| Strcmp.FirstDifference | libc.c:1011-1023 | at the first difference the string that ends there is the lesser, and otherwise the one with the greater character, by their difference |
| Strcmp.OrderZero | libc.c:1011-1023 | zero exactly for equal strings |
| Strcmp.OrderTransitive | libc.c:1011-1023 | the order of strings is transitive |
| Strcmp.StringsOrdered | avl.h:73-82 | string keys are totally ordered, as the index requires |
| Strcmp.NumbersOrdered | avl.h:62-71 | so are numeric keys |
| Strcmp.AddAll | avl.h:39-41 | after any number of additions the contents are the first node added under every name |
| Lists.NewRing | list.h:25-30 | a new head is an empty list, apart from all others |
| Lists.AddRing | list.h:38-69 | list_add_tail appends to a well-formed circular list |
| Lists.DelRing | list.h:78-91 | list_del removes exactly that element |
| Lists.AddRings | list.h:67-69 | appending to one list keeps all lists well-formed and apart |
| Lists.DelRings | list.h:89-91 | so does deleting |
| Sched.Kernel.constructor | thread.c:82-86 | the kernel with its first thread |
| Sched.Kernel.Delete | list.h:89-91 | an element leaves its list and is on none |
| Sched.Kernel.AddTail | list.h:67-69 | a loose element becomes the last of a list |
| Sched.Kernel.Dispatch | thread.c:36-40 | the head of the run queue runs; it gets a full quantum if and only if it has nothing left, and what is left to all others stays |
| Sched.Kernel.SchedulePreempted | thread.c:28-46 | the running thread goes to the end of the list named, and the next one runs; quanta as in Dispatch |
| Sched.Kernel.Schedule | thread.c:24-26 | the run queue is rotated by one; quanta as in Dispatch |
| Sched.Kernel.TimerHook | thread.c:51-66 | the running thread has one tick less and goes on while its quantum lasts; then the queue is rotated, and only a thread with nothing left gets a full quantum |
| Sched.Kernel.Create | thread.c:101-127 | a new thread joins the end of the run queue with a full quantum; no other quantum changes |
| Sched.Kernel.Wake | thread.c:140-146 | a thread that is asleep joins the end of the run queue |
| Sched.Kernel.TakeOff | thread.c:130-134 | the first section: a runnable thread leaves the run queue and is asleep |
| Sched.Kernel.SleepRest | thread.c:136-137 | the second section, whatever has happened since the first: if the thread is the running one the run queue is rotated, even though its head is another thread by then |
| Sched.Kernel.Retire | thread.c:88-96 | the first section: the running thread is a live thread no more and on no list; thread_schedule follows |
| Sched.Kernel.ReleaseAll | mutex.c:31-35 | all waiting threads join the run queue in their order |
| Sched.Kernel.TryLock | mutex.c:13-14 | the lock is taken if and only if it is free |
| Sched.Kernel.Join | mutex.c:16 | the running thread joins those that wait, whether or not the mutex is still locked, and another runs |
| Sched.Kernel.Unlock | mutex.c:26-42 | the lock is free and nobody waits for it any more |
| Sched.Kernel.Signal | condvar.c:11-24 | the first waiting thread, if any, becomes runnable |
| Sched.Kernel.Broadcast | condvar.c:26-38 | all of them do |
| Sched.Kernel.Park | condvar.c:40-60 | the mutex is released and the thread parked in one step; quanta as in Dispatch |
| Sched.Kernel.RoundRobin | thread.c:24-46 | as many calls of thread_schedule as there are runnable threads run each of them once, in order, and restore the queue; whoever has time left keeps it |
| Sched.OneList | list.h:38-91 | a live thread is asleep if and only if it is on no list; otherwise it is in exactly one place of one list |
| Sched.EachOnce | thread.c:24-46 | round robin reaches every runnable thread and none twice |
| Sched.FairShare | thread.c:39-66 | between two fillings of its quantum a thread runs THREAD_INITIAL_QUANTUM ticks at most, and is filled again exactly when it has run them all |
| Sched.InTurn | mutex.c:31-35 | threads released run behind all that are runnable, in the order in which they came |
| CharQueue.Queue.constructor | queue.c:5-22 | an empty queue |
| CharQueue.Queue.Empty | queue.c:50-52 | true exactly for the empty queue |
| CharQueue.Queue.Enqueue | queue.c:11-22 | the character becomes the last, or the queue is full and nothing changes |
| CharQueue.Queue.Dequeue | queue.c:31-41 | the first character is taken, or 0 from the empty queue |
| Monitor.StepKeeps | keyboard.c:98-155 | every atomic step of readers and of the interrupt handler keeps the invariant |
| Monitor.Keeps | keyboard.c:98-155 | so do preemption, new calls of the running thread, and keyboard interrupts on any thread, the idle one and the holder of the mutex included |
| Monitor.Always | keyboard.c:98-155 | the invariant holds after every interleaving of these: every thread is on one list, at most one thread is in a critical section, no character is lost or out of order, and what a call has stored and what it still wants make up what it asked for |
| Monitor.NoLostWakeUp | condvar.c:26-65 | a reader is parked while characters are queued only while a producer is between enqueue and broadcast |
| Monitor.JoinsFree | mutex.c:13-16 | while no thread waits for a free mutex, an action makes one do so if and only if it is the running thread joining those that wait, not as the last runnable one, when the mutex is free |
| Monitor.OvertakenWaits | mutex.c:13-16 | in every reachable state whoever waits for a free mutex was overtaken by a release after its last try |
| Monitor.NoneWaitsInVain | mutex.c:11-42 | in every run without preemption or interrupt between a failed try and joining, nobody waits for a free mutex |
| Monitor.WaitsInVain | mutex.c:13-16 | a run of nine actions after which thread 2 waits for a free mutex |
| Monitor.HolderRuns | keyboard.c:98-155 | in every reachable state the holder is runnable, unless it was interrupted inside its critical section and waits for itself |
| Monitor.StuckBy | keyboard.c:98-114 | an action leads to that if and only if it is a keyboard interrupt that takes effect on the holder |
| Monitor.StuckForever | keyboard.c:98-155 | from such a state every run keeps the mutex locked by the same thread, and no character is enqueued or taken |
| Monitor.StuckRun | keyboard.c:98-155 | a run of three actions after which the holder of the mutex is interrupted |
| Monitor.StuckWaits | mutex.c:11-20 | such a holder, given two steps, waits on the list of the mutex it holds |
| Monitor.NeverStuck | keyboard.c:98-155 | a run gets there if and only if some keyboard interrupt in it takes effect on the holder |
| Monitor.StopsBy | thread.c:28-46 | an action stops the system if and only if it is the running thread joining those that wait as the last runnable one, or enqueueing into a full queue |
| Monitor.Stops | thread.c:28-46 | a run has stopped if and only if it has come by such a step |
| Monitor.LastRunnable | thread.c:28-46 | a thread that must wait is the last runnable one only if it is the idle thread or that is waiting, and then the handler runs on the idle thread |
| Monitor.TightRuns | thread.c:28-46 | while threads wait only for a locked mutex, no thread that must wait is the last runnable one |
| Monitor.NeverDry | thread.c:28-46 | no run comes to that in which no interrupt is taken on the idle thread, and none without preemption or interrupt between a failed try and joining |
| Monitor.RunsDry | thread.c:28-46 | a run of eight actions that ends with the last runnable thread joining those that wait |
| Monitor.FirstInFirstOut | keyboard.c:138-155 | with one reader, bytes read followed by bytes queued are the bytes enqueued, exactly as long as no zero was taken |
| Monitor.StoresAsked | keyboard.c:138-155 | after every run a call of keyboard_read that has ended has stored exactly as many characters as it asked for, and one that goes on lacks as many as it still wants |
| Monitor.AllTyped | keyboard.c:98-136 | after every run what has been enqueued, followed by what the handler has yet to enqueue, is what was typed, in the order of the interrupts |
| Monitor.TakesAll | keyboard.c:147-152 | a reader about to take characters, with enough of them queued, takes what it wants, in order, lets go of the mutex and ends its call |
| Monitor.ReadsAll | keyboard.c:138-155 | so does one that tries for the free mutex |
| Monitor.ParksEmpty | keyboard.c:143-144 | with nothing queued it parks, and whoever waits for the mutex is runnable |
| Monitor.ZeroTaken | keyboard.c:147-152 | a zero is taken and not stored, and the reader starts again with what it still wants |
| Monitor.EnqueuesAll | keyboard.c:98-105 | the handler, with the mutex free and room in the queue, enqueues the characters of its key in order and ends, and all that were parked or waiting are runnable |
| Keyboard.Driver.constructor | keyboard.c:68-85 | the system at rest |
| Keyboard.Driver.TryRound | mutex.c:13-14 | a try on the concrete lock is the abstract one |
| Keyboard.Driver.JoinRound | mutex.c:16 | so is joining those that wait |
| Keyboard.Driver.Check | keyboard.c:143-144 | the test of the queue, and the wait if it is empty, are the abstract step |
| Keyboard.Driver.Drain | keyboard.c:147-149 | taking a character is the abstract step: it is stored and one is wanted less, or the taking ends |
| Keyboard.Driver.UnlockAs | mutex.c:26-42 | unlocking is the abstract release |
| Keyboard.Driver.FinishIrq | keyboard.c:104-105 | the end of keyboard_enqueue is the abstract step, to the next character of the key or out of the handler |
| Keyboard.Driver.Enqueue | keyboard.c:98-101 | enqueueing is the abstract step, a full queue included |
| Keyboard.Driver.BroadcastAll | keyboard.c:103 | broadcasting is the abstract step |
| Keyboard.Driver.RunStep | keyboard.c:98-155 | any step of the running thread refines the abstract step and keeps the invariant |
| Keyboard.Driver.PreemptStep | thread.c:51-66 | preemption refines the abstract one |
| Keyboard.Driver.Call | keyboard.c:138-142 | a new call refines the abstract one |
| Keyboard.Driver.Key | keyboard.c:111-136 | a keyboard interrupt on the running thread is the abstract one |
| Numbers.Overflow | libc_strtol.c:137-139 | the overflow test by cutoff and cutoff digit is exact for every base |
| Numbers.BlankNames | ctype.c:29-31 | the blanks skipped are the space, the new line and the tab |
| Numbers.DigitNames | libc_strtol.c:115-123 | the digits in the order of their values, letters in either case |
| Numbers.SkipLead | libc_strtol.c:66-105 | sign, base and start of the digits, and where an empty number ends |
| Numbers.ReadDigit | libc_strtol.c:115-123 | the digit's value for letters and digits; everything else is too large for any base |
| Numbers.Accumulate | libc_strtol.c:134-148 | the number saturates: it is the exact value or ULONG_MAX from the first overflow on |
| Numbers.ScanDigits | libc_strtol.c:114-150 | the longest run of digits, its saturated value, and the sign forgotten when an unsigned number overflows |
| Numbers.StrToL | libc_strtol.c:55-168 | the clamped or wrapped value of the text, and where it ends |
| Numbers.Strtol | libc_strtol.c:175-178 | the exact integer clamped to the 32-bit signed range |
| Numbers.Strtoul | libc_strtol.c:170-173 | ULONG_MAX on overflow, otherwise the value, its negation wrapped |
| Itoa.Reads | libc_strtol.c:66-150 | for all texts of blanks, sign, prefix of the base, digits and a remainder the value read is what the digits spell, and reading ends behind them |
| Itoa.WriteDigits | libc.c:83-95 | the loop writes the digits in reverse and nothing else |
| Itoa.TurnAround | libc.c:97-109 | the loop reverses exactly that range |
| Itoa.Itoa | libc.c:67-110 | the buffer holds the text and its terminator, the rest is untouched |
| Itoa.TextLength | libc.c:67-110 | eleven characters and the terminator always suffice |
| Itoa.Letters | libc.c:67-110 | what itoa writes is a string: no terminator inside |
| Itoa.TextNamed | libc.c:83-95 | besides the sign the text consists of digits of its base, letters in lower case, without a leading zero |
| Itoa.SignedRoundTrip | libc.c:67-110 | strtol in base 10 or 0 reads back every int that itoa writes with 'd', the least one included |
| Itoa.HexRoundTrip | libc.c:79-80 | strtoul in base 16 reads back every int written with 'x' |
| Itoa.UnsignedRoundTrip | libc.c:67-110 | and in base 10 every int written with any other letter |
| Checksum.SumStands | net/checksum.c:3-15 | the one's complement sum is the residue of the sum, with zero only for all zeros |
| Checksum.IpSumCalc | net/checksum.c:3-15 | for up to 65535 words the deferred carries give the complement of the one's complement sum, and 32 bits never overflow |
| Checksum.IpChecksum | net/checksum.c:17-20 | the header with the checksum put in, all else unchanged, sums to all ones |
| Checksum.SealedChecks | net/checksum.c:17-20 | summing again after the checksum is in place gives 0 |
| Checksum.OneWordChanged | net/checksum.c:3-20 | a change of one word goes unseen exactly when it exchanges the two forms of zero in a header not zero throughout |
| Checksum.OrderIndependent | net/checksum.c:7-9 | the order of the words does not matter |
| Checksum.ByteOrderIndependent | net/checksum.c:7-9 | exchanging the bytes of all words exchanges the bytes of the sum |

## Left out

- After an irregular bunch nothing is claimed: the model stops there, as the source's own checkers would.
- VmBest.Region.BestAlloc: sizes of 2^29 units and more are excluded. From 2^32 - 7 bytes on ROUND wraps around to 0 behind the test of TINYSIZE; 0 is less than MAXCACHE, and INDEX(0) is far outside the array of lists.
- VmBest.Region.BestAlign: sizes of 2^29 units and more are excluded. Where the block obtained has no room, the source goes on to write outside of it; the model stops there. Addresses are not bounded by 2^32: an aligned address beyond that counts as no room.
- VmBest.Region.GrowSegment: an increment that wraps around to 0 is taken as refused; the source then writes the end marker that is there.
- The words LINK, LEFT, RIGHT, SEG and SELF of a block are separate fields, so their overlap inside blocks of less than a full body is not modelled; clients' data are a map of their own. That the allocator writes into no live block is proved of the link words (Kept, Untouched in the contracts).
- In the forward merge the size word is written in every round, not once behind the loop; in bestresize the bits of the resized block stay in its header, where the source clears and restores them.
- bestcompact and vmtruncate: they only act when memory can be given back, which memoryf refuses.
- Locking, tracing, VM_AGAIN and the exception handler: the kernel heap is trusted and has no handler.
- bestaddr, bestsize and the checks of addresses in untrusted regions.
- hmalloc panics when its pool is full; here memory is refused.
- VmStat.Stat: the extent of segments is not summed; the debug and profile variants of block sizes are left out.
- VmPool.Region.PoolAlloc: segments are never extended in place, which this kernel's memoryf refuses, and only trusted regions are modelled; poolresize, poolalign and pooladdr are left out.
- PfSort.Profile.Sort: requires a non-empty list, as the source reads its first node at once; the hash table and the counters of the profiler are left out.
- The mount tree, whose comparison never reports equality.
- Sched.Kernel: the context switch is the change of the running thread, and nothing happens between the end of a section and the switch behind it. That another thread is runnable is required of Join, Park, TakeOff and Retire. The methods Sleep and Returned are the two sections with no interrupt between them; the sections by themselves require nothing of the sort.
- Monitor: tries on the lock and sections at IRQL_DISPATCH are atomic; readers run keyboard_read only, not thread_sleep; a second keyboard interrupt before the first is acknowledged, scancodes and key maps, and readers of several devices are left out. Where a thread that must wait is the last runnable one, and where the queue is full, the model stops.
- char_queue_free, which reports one place more than can be used.
- The node fields of trees and lists are maps from addresses, so that aliasing is explicit.
- Numbers.StrToL: errno is compiled out in the source; characters are signed.
- Checksum.IpSumCalc: more than 65535 words, for which the 16-bit index never ends the loop, and icmp_checksum, which sums 136 bytes from a structure of 84.
- Devices, paging, file systems, shell and screen: input and output with easier claims.

# Pilevisor: a Dafny model and its proofs

Pilevisor runs one guest over several machines. The guest's memory is shared between the machines
by a page-based coherence protocol; the machines exchange requests, replies and invalidates over
Ethernet. This project models the protocol and the parts of the hypervisor it rests on, and proves
what they promise for every run and every input. The protocol modules hold for any number of nodes;
the code behind them records at most four (`VsmNarrow` says exactly what that costs), and eight
processors per node (`MsgRouting`).

`dafny verify dfyconfig.toml` checks everything.

## How the model is laid out

**Coherence protocol (core/vsm.c).** One page, any number of nodes, one of them its manager.
`VsmHandlers` holds the fault handlers and servers as functions of one node's view. `VsmProtocol`
puts them into a state machine: page-table entries, who waits, requests to and from the manager,
replies, invalidates. Page contents are named by a version, the position of the write that made
them in the order of all writes. `VsmInvariant` states the inductive invariant with a ledger that no
single node has: the chain of nodes ownership will travel along, and where each outstanding request
is. `VsmBoxes`, `VsmGrants`, `VsmShapes`, `VsmSteps` and `VsmSafety` prove that each step keeps it;
`VsmRuns`, `VsmLiveness` and `VsmLimits` draw the conclusions about runs; `VsmWrites` ties the order of
writes to what guests write, and shows that a fault is served. `VsmWaitQueue` adds the wait queue
of each node and shows that this system refines the protocol; `VsmDrain` that it drains. `VsmOrder`
says which orders of delivery are harmless, `VsmNarrow` how many nodes the four-bit copyset field
allows.

Three facts shape the statements. Invalidation is not acknowledged, so a writer and an out-of-date
reader can coexist for a while (`VsmLimits.StaleReaderIsReachable`); what holds in every state is that
such a reader has an invalidate on its way. The manager's record of the owner is not updated when
the manager itself takes the page, so it means something only while the manager is not the owner.
And of the requests the manager sends to one node, a write must be served last: reads may overtake
each other freely, and a request behind a write can end in a panic (`VsmOrder.HarmlessOrders`).

**One node in place.** `Stage2Pte` has the bit operations on a 64-bit stage-2 entry and the record
they implement; `VsmNode` the handlers as methods that update the entry word, the owner field and
the frame, each proved equal to its function in `VsmHandlers`.

**Page lock and wait queue.** `PageLock` interleaves any number of activations of the request
interrupt and of the fault handlers step by step, with spurious trylock failure; `WaitQueue` is the
linked queue. `VsmMachine` puts the two together: the interleaved lock and drain steps of every node,
with the protocol's handlers as the requests they accept and serve, refine the system of
`VsmWaitQueue`, where accepting and processing a request are single steps. `VsmPaths` is the other
direction: the machine can do what the system can.

**Page tables.** `PageTable`: the radix tree against a flat map from page number to leaf entry.

**Virtqueue.** `VirtqRing`, `VirtqTable`, `Virtqueue`: the driver side of the split virtqueue
(section 2.6 of VIRTIO 1.1) with a device that finishes chains in any order.

**Allocators.** `PageBlocks` and `PageAllocator`: the splitting page allocator; `BootMemory`: how it
is filled; `HeapBlocks` and `Malloc`: the size-class allocator.

**Device tree.** `DeviceTree`: linked nodes and the stackless pre-order walk; `DeviceTreeBuild`: what
allocation in document order leaves in memory; `Fdt`: the parser, from bytes (section 5.4 of the
Devicetree Specification); `FdtAccepts`: which blocks it accepts, and the tokens in bytes.

**Messages and guest memory.** `MsgRouting`: how a reply finds the CPU that asked; `GuestCopy`:
copying across page boundaries.

`Wrappers`, `Sums`, `Counting` and `Units` are helpers.

## Model

| member | source | states |
|---|---|---|
| `VsmInvariant.InitialInv` | core/vsm.c:916-935 | the state node initialisation leaves, for any number of nodes, satisfies the invariant |
| `VsmInvariant.ChainPlaces` | core/vsm.c:592-679 | a node in the ownership chain that is not its head waits for write access with its request forwarded; one that is idle is the head and owns the page |
| `VsmSafety.StepKeepsInv` | core/vsm.c:460-875 | every enabled fault, guest access, served request, delivered reply or processed invalidate keeps the invariant and does not panic |
| `VsmRuns.NeverPanics` | core/vsm.c:771-875 | with copysets as sets, no run of any length on any number of nodes reaches the "unreachable" or "req_nodeid == p_owner" panics, or maps a page over one in use |
| `VsmRuns.OwnershipChain` | core/vsm.c:642-655 | in every reachable state the outstanding write requests form an acyclic chain from the ownership holder to the node on the manager's record: every node whose write request is past the manager is in it, each node of it has the next one's write request last in its box, the last node has none, no other node has requests to serve; a manager that may send a fetch never has itself on record |
| `VsmRuns.OneToken` | core/vsm.c:460-482 | with copysets as sets, owner entries and write replies in flight add up to exactly one in every reachable state |
| `VsmRuns.CopiesAreCovered` | core/vsm.c:434-482 | ownership carries the last version written; every other copy, and every read reply in flight, is that version and in the copyset, or has an invalidate pending |
| `VsmRuns.QuiescentCoherence` | core/vsm.c:516-679 | with nothing in flight there is one owner, every readable copy holds the last page in the order of writes (which is what guests wrote: `VsmWrites.HistoryIsWrites`) and is in the copyset, and a read-write owner is the only node with access |
| `VsmRuns.WriterAlone` | core/vsm.c:434-458 | with messages in flight, a writer is the only node with access if and only if no invalidate is pending for a node that has the page |
| `VsmRuns.StepMonotone` | core/vsm.c:592-679 | no step takes a write out of the order of writes or takes back what a guest has seen |
| `VsmRuns.ReadsNeverGoBack` | core/vsm.c:516-571 | over any run, no guest reads a version older than one it has read or written, and a writer always has the newest |
| `VsmWrites.StepWrites` | core/vsm.c:666-673 | each step extends the order of writes by exactly the page its event writes: a guest's own store to a writable page, or the store of a write fault when it gets access; the writer then holds that version read-write; what a guest has seen changes only by its own accesses |
| `VsmWrites.HistoryIsWrites` | core/vsm.c:592-679 | after any run the order of writes is what it was before, followed by the pages the events of the run write, in order |
| `VsmWrites.ReadersSeeTheLastWrite` | core/vsm.c:516-679 | whenever a run has come to rest, every readable copy at every node is the page written last by an event of the run, or the initial page if none wrote |
| `VsmWrites.FaultIsServed` | core/vsm.c:516-679 | at rest any node may fault, for reading or writing, and the protocol's own steps lead to rest again with that node having the access it asked for and no page written |
| `VsmWrites.WriteThenRead` | core/vsm.c:516-679 | from rest, for any two nodes and any page: a write fault and store at one and a read fault at the other is a run at whose end the other reads exactly that page |
| `VsmLiveness.InternalStepsDecrease` | core/vsm.c:771-875 | every step the protocol takes by itself decreases the weighted count of requests, forwards, replies, copyset entries and invalidates |
| `VsmLiveness.SomeStepEnabled` | core/vsm.c:516-571 | until nothing is outstanding, one of those steps is enabled |
| `VsmLiveness.RunsAreBounded` | core/vsm.c:771-875 | a run of such steps is no longer than the measure at its start |
| `VsmLiveness.EveryRunDrains` | core/vsm.c:592-679 | from any reachable state such a run ends, and where it cannot go on every waiting node has been served |
| `VsmLimits.StaleReaderIsReachable` | core/vsm.c:434-458 | a run in which one node writes while another still reads the previous value: single-writer is not a state invariant |
| `VsmLimits.ReorderingPanics` | core/vsm.c:798-812 | a reachable state in which swapping two requests from the manager to one node makes that node panic; `VsmOrder.HarmlessOrders` is the exact condition |
| `VsmOrder.ShuffledInv` | core/vsm.c:798-812 | putting the requests at any nodes in another order keeps the invariant if each write stays last in its box |
| `VsmOrder.OrderThatMatters` | core/vsm.c:783-812 | in a reachable state, an idle node gets through its box in a given order if and only if no request is behind a write |
| `VsmOrder.HarmlessOrders` | core/vsm.c:771-875 | from a reachable state with the requests at every node in any other order, no run panics if and only if no box has a request behind a write |
| `VsmOrder.LooseRunsNeverPanic` | core/vsm.c:771-875 | reordering that leaves each write last is harmless at any time and any number of times during a run |
| `VsmNarrow.FourNodesAreEnough` | include/s2mm.h:67-70 | with the copyset field as wide as it is and at most four nodes, every run is a run of the protocol, and no step panics |
| `VsmNarrow.FifthNodeLosesIt` | core/vsm.c:783-797 | on every cluster of five or more nodes a run reaches a state without any ownership token |
| `VsmNarrow.FifthNodePanics` | core/vsm.c:857-874 | on every cluster of five or more nodes a run panics |
| `VsmNarrow.CopysetWidthDecides` | include/s2mm.h:67-70 | the code keeps one ownership token and never panics, in all runs, if and only if there are at most four nodes |
| `VsmWaitQueue.CommitCommutes` | core/vsm.c:268-296 | what a handler sends goes behind everything already queued, in the network or at a node |
| `VsmWaitQueue.ProcessFetchIsStep` | core/vsm.c:877-895 | processing a queued fetch request is the protocol step that serves it |
| `VsmWaitQueue.ProcessInvalidateIsStep` | core/vsm.c:897-914 | processing a queued invalidate is the protocol step of that invalidate |
| `VsmWaitQueue.StepRefines` | core/vsm.c:877-914 | each step of the system with wait queues is a step of the protocol or leaves its state as it is, and never panics |
| `VsmWaitQueue.SystemRefinesProtocol` | core/vsm.c:298-354 | every run of the system with wait queues ends in a state the protocol reaches |
| `VsmDrain.HappeningsDecrease` | core/vsm.c:298-354 | an arrival leaves fewer messages in the network and the protocol state alone; anything else decreases the protocol's measure |
| `VsmDrain.SomethingPossible` | core/vsm.c:877-914 | until nothing is outstanding, something can happen in the system with wait queues |
| `VsmDrain.EverySystemRunDrains` | core/vsm.c:298-354 | such runs are bounded, and where one cannot go on all queues are empty and no node waits |
| `VsmNode.PageView.AtManager` | core/vsm.c:916-935 | the manager starts as read-write owner with an empty copyset and itself on record |
| `VsmNode.PageView.OwnerTest` | core/vsm.c:783-784 | the test on the entry word recognises exactly the owner states |
| `VsmNode.PageView.SendInvalidates` | core/vsm.c:434-458 | one invalidate to each node of the copyset but this one, in ascending order |
| `VsmNode.PageView.RaiseReadFault` | core/vsm.c:516-551 | the read fault up to its wait does what `VsmHandlers.ReadFault` says |
| `VsmNode.PageView.RaiseWriteFault` | core/vsm.c:592-655 | the write fault up to its wait, or to its end for an owner, does what `VsmHandlers.WriteFault` says |
| `VsmNode.PageView.TakeWriteAccess` | core/vsm.c:662-673 | afterwards the entry is read-write with an empty copyset and everyone else in the old copyset is sent an invalidate |
| `VsmNode.PageView.DropPage` | core/s2mm.c:214-227 | entry and frame go together |
| `VsmNode.PageView.FinishReadFault` | core/vsm.c:553-565 | mapping the reply of a read fetch does what `VsmHandlers.Deliver` says |
| `VsmNode.PageView.FinishWriteFault` | core/vsm.c:657-673 | mapping the reply of a write fetch and taking access does what `VsmHandlers.Deliver` says |
| `VsmNode.PageView.ReadServerProcess` | core/vsm.c:771-813 | the read server on the entry word does what `VsmHandlers.NarrowReadServer` says, in all four branches and for all node numbers below NODE_MAX |
| `VsmNode.PageView.WriteServerProcess` | core/vsm.c:816-875 | the write server on the entry word does what `VsmHandlers.WriteServer` says, in all four branches and for all node numbers below NODE_MAX |
| `VsmNode.PageView.InvalidateServerProcess` | core/vsm.c:460-482 | an owner and a node without a copy ignore the invalidate, a reader loses its copy |
| `VsmNode.OwnershipSurvivesReading` | core/vsm.c:783-789 | an owner that answers a read request is still recognised as owner if and only if the requester's number is below 4 or another copy was recorded |
| `Stage2Pte.InvalidateView` | include/s2mm.h:149-151 | only the accessible field changes; every bit but bit 10 stays |
| `Stage2Pte.ReadOnlyView` | include/s2mm.h:153-156 | only the permission changes, to read-only from anything; every bit but bits 7-6 stays |
| `Stage2Pte.ReadWriteView` | include/s2mm.h:158-160 | only the permission changes, to read-write from anything; every bit but bits 7-6 stays |
| `Stage2Pte.ClearCopysetView` | include/s2mm.h:170-172 | only the copyset changes, to empty; every bit but bits 58-55 stays |
| `Stage2Pte.AddToCopysetView` | include/s2mm.h:166-168 | only the copyset changes; the node joins it if and only if its number is below 4 |
| `Stage2Pte.AddToCopysetOutside` | include/s2mm.h:166-168 | every bit but bits 58-55 stays |
| `Stage2Pte.ViewIsWhole` | include/s2mm.h:145-172 | the record has every bit of the word: two words with the same record are equal |
| `Stage2Pte.MapView` | core/s2mm.c:169-173 | a new mapping has the given page and copyset and no permission, the valid bits and normal-memory attributes and no other bit, whatever the entry held before |
| `Stage2Pte.EntryLayout` | include/s2mm.h:52-70 | the two kinds of new entry as words |
| `Stage2Pte.SetEntryIsValid` | include/mm.h:186-188 | a new entry has bits 1-0 set and the access flag, the memory attributes of the flags, and the address given |
| `Stage2Pte.TestsView` | core/s2mm.c:175-212 | the three tests on the word are the tests on the fields |
| `PageLock.StepKeepsInv` | core/vsm.c:134-226 | each atomic step of each activation keeps mutual exclusion of both locks, the lock word and the order of requests |
| `PageLock.StepConserves` | core/vsm.c:268-296 | no step loses or duplicates a request |
| `PageLock.StepDecreases` | core/vsm.c:298-354 | each step decreases a weighted count of the work left |
| `PageLock.SomeoneCanStep` | core/vsm.c:187-226 | while one activation is not done, some activation can move |
| `PageLock.LockSafety` | core/vsm.c:134-226 | in every interleaving at most one activation holds the page lock and one the queue lock, the queue lock implies the page lock, requests are served in the order they were accepted, and while the queue is not empty some activation holds the page lock and takes no step that releases it |
| `PageLock.EveryRequestServed` | core/vsm.c:298-354 | every interleaving ends with both locks free, the queue empty and each request served exactly once |
| `PageLock.AcceptJoins` | core/vsm.c:268-296 | a request that gets the lock or the queue joins those waiting, last |
| `PageLock.ServeTakesFirst` | core/vsm.c:298-319 | a request is served only while no fault handler has the page, and it is the one accepted first |
| `PageLock.FaultsBeginAndEnd` | core/vsm.c:155-172 | a fault handler has the page from taking the lock until it turns to the queue |
| `PageLock.LockByte` | core/vsm.c:134-226 | the lock byte is the taker's processor number plus one, 1 once someone has taken the queue lock, and cleared only at the end of a drain |
| `VsmMachine.MachineRefines` | core/vsm.c:877-914 | every atomic step of every activation at every node is exactly what the system with wait queues sees of it: the arrival of the message accepted, the processing of the first request, the fault that begins, the guest access or reply, or nothing; none panics |
| `VsmMachine.MachineRefinesProtocol` | core/vsm.c:298-354 | every run of that machine, on any number of nodes, activations and processors, ends in a state the protocol reaches |
| `VsmPaths.AcceptedWhenFree` | core/vsm.c:877-914 | any message that can arrive in the system is accepted in two steps of a new activation at a node whose page lock is free |
| `VsmPaths.AcceptedWhenHeld` | core/vsm.c:268-296 | while the page lock is held, by whomever, the activation of such a message queues it and ends in five steps without waiting for the page |
| `VsmPaths.FaultBegins` | core/vsm.c:155-172 | at a node whose page lock is free any fault can begin |
| `VsmPaths.HappensElsewhere` | core/vsm.c:516-571 | guest accesses and replies happen whatever the locks are doing |
| `VsmPaths.Drains` | core/vsm.c:298-354 | the activation that has the page, moving alone while no handler waits for a reply, serves every request accepted at the node, releases both locks and ends |
| `WaitQueue.Queue.Enqueue` | core/vsm.c:283-289 | the proc is appended to the linked queue |
| `WaitQueue.Queue.TakeAll` | core/vsm.c:304-307 | the whole queue is detached, in order |
| `WaitQueue.Drain` | core/vsm.c:313-319 | every detached proc is run once, in order |
| `PageTable.SpanSplits` | include/mm.h:64 | two page numbers agree below a level exactly when they agree on its index and, above the last level, below the next level |
| `PageTable.IndexIsPidx` | include/mm.h:64 | at each of the four levels the index is the nine bits of the address from bit 39 - 9 * level up |
| `PageTable.SplitAt` | include/mm.h:52-62 | the indices are the base-512 digits of the page number, the last level's with weight one |
| `PageTable.WalkFollowsAddress` | core/mm.c:79-98 | from a root at level 1 the walk ends in a slot if and only if bits 38-30 and 29-21 lead to its table and bits 20-12 are its number |
| `PageTable.WalkFollowsWideAddress` | core/mm.c:79-98 | the same from a root at level 0, with bits 47-39 first |
| `PageTable.WalksMeet` | core/mm.c:79-98 | walks that end in one slot were for the same page: no two pages share a slot |
| `PageTable.SamePage` | core/mm.c:79-98 | the slot depends only on the part of the page number the root spans |
| `PageTable.WalkEnds` | core/mm.c:79-98 | a walk that succeeds ends in a table of the last level |
| `PageTable.GrowKeepsTree` | include/mm.h:194-196 | hanging in a new table keeps the tables a tree of distinct pages |
| `PageTable.GrowKeepsLookups` | core/mm.c:85-90 | hanging in a new table changes no translation |
| `PageTable.LeafKeepsTree` | include/mm.h:186-188 | writing a leaf entry keeps the tree |
| `PageTable.LeafChangesOnePage` | core/mm.c:100-112 | writing the slot of a page changes the translation of that page and of no other |
| `PageTable.Tables.AddTable` | core/mm.c:86-90 | a new table, all other translations and tables as before |
| `PageTable.Tables.Descend` | core/mm.c:80-95 | one level down: the next table on the path, existing or new; it fails exactly where the walk cannot go on |
| `PageTable.Tables.PageWalk` | core/mm.c:79-98 | the slot of the page, which is where the bits of the address lead (`PageTable.WalkFollowsAddress`), with missing tables created on demand; no translation changes; nothing at all changes without create or when the tables exist; at most one page per level is taken, in order |
| `PageTable.Tables.SetLeaf` | include/mm.h:186-188 | the flat map changes at this page only, and at page numbers that differ from it by the span of the root |
| `PageTable.Tables.MapOne` | core/mm.c:106-110 | reports an entry in use if and only if it was; else maps the page unless no page is left for a table it needs; only pages that share the entry change |
| `PageTable.Tables.MapPages` | core/mm.c:100-112 | for any range, also one that wraps around the span of the root: it panics at a page if and only if its entry is in use, by an earlier mapping or an earlier page of the range; the pages before are mapped to consecutive frames, every other translation is unchanged |
| `PageTable.OverlayInSpan` | core/mm.c:100-112 | inside the span of the root that is exactly the pages of the range, each on its own frame |
| `PageTable.OverlayInUse` | core/mm.c:107-108 | an entry is in use afterwards exactly if it was before or a page of the range has it |
| `PageTable.Tables.Invalidate` | core/s2mm.c:214-227 | panics exactly when the page has no table; else the access flag of its entry is cleared, nothing else changes, and the frame of the entry is freed, which is frame 0 for an entry never written |
| `VirtqRing.Publish` | drivers/virtio/virtq.c:62-64 | with fewer than 256 entries unread, the next slot holds none of them, and the wrapping index still names the right slot |
| `VirtqRing.Consume` | drivers/virtio/virtq.c:69-83 | the reader's wrapping index names the oldest unread entry |
| `VirtqRing.NothingPending` | drivers/virtio/virtq.c:69-72 | the wrapped indices are equal if and only if nothing is unread, over runs of any length |
| `VirtqRing.Ring.Put` | drivers/virtio/virtq.c:62-64 | the entry is appended to the unread ones, which stay intact |
| `VirtqRing.Ring.Next` | drivers/virtio/virtq.c:69-83 | the oldest unread entry, or nothing exactly when there is none |
| `VirtqTable.EachDescriptorOnce` | drivers/virtio/virtq.c:22-65 | each of the 256 descriptors is in the free list or in exactly one chain in flight, and the free list has no repetition |
| `VirtqTable.EnqueueDescriptors` | drivers/virtio/virtq.c:41-60 | turning the head of the free list into a chain keeps the partition, and every chain in flight as the device sees it |
| `VirtqTable.ReleaseDescriptors` | drivers/virtio/virtq.c:22-31 | giving a chain back keeps the partition and every other chain in flight |
| `VirtqTable.Table.constructor` | drivers/virtio/virtq.c:104-113 | all 256 descriptors on the free list, none in flight |
| `VirtqTable.Table.WriteChain` | drivers/virtio/virtq.c:41-56 | the first descriptors of the free list get the buffers and flags; it fails if and only if there are too few, and then only free descriptors were written |
| `VirtqTable.Table.Claim` | drivers/virtio/virtq.c:33-60 | for at least one buffer: the chain is in flight with its cookie, the rest of the list is still free |
| `VirtqTable.Table.ClaimNothing` | drivers/virtio/virtq.c:40-60 | for no buffer: a cookie is stored for a descriptor that stays free, which breaks the table, or outside the table when none is free |
| `VirtqTable.Table.FreeChain` | drivers/virtio/virtq.c:22-31 | the chain is walked to its end and put in front of the free list |
| `VirtqTable.Table.Reclaim` | drivers/virtio/virtq.c:78-88 | the cookie that was enqueued with this head, which is always there |
| `Virtqueue.HeadOffered` | drivers/virtio/virtq.c:62-62 | chains waiting for the device are never as many as the ring has slots |
| `Virtqueue.Queue.constructor` | drivers/virtio/virtq.c:92-119 | an empty queue |
| `Virtqueue.Queue.Enqueue` | drivers/virtio/virtq.c:33-66 | panics if and only if there are too few free descriptors; with a buffer the chain is in flight, offered last, and nothing else changes; an empty list offers the device a descriptor that is still free, and the queue is no longer valid |
| `Virtqueue.Queue.Dequeue` | drivers/virtio/virtq.c:68-90 | nothing exactly when the device has finished nothing; else the cookie and length of the oldest finished chain, whose descriptors are free again |
| `PageBlocks.AlignedIsMultiple` | core/allocpage.c:134-135 | the recursive notion of alignment is divisibility by the block size |
| `PageBlocks.HalvesAligned` | core/allocpage.c:64-76 | both halves of an aligned block are aligned to the next order |
| `PageBlocks.BlocksAreDisjoint` | core/allocpage.c:56-123 | two blocks, free or live, share no page |
| `PageBlocks.EveryPageHasABlock` | core/allocpage.c:56-123 | the managed pages are exactly those in some block |
| `PageBlocks.BlocksAreAligned` | core/allocpage.c:56-123 | each block is aligned to its order and on a free list exactly when it is free |
| `PageBlocks.PopSound` | core/allocpage.c:85-87 | taking the head of a list keeps the partition |
| `PageBlocks.PushSound` | core/allocpage.c:56-62 | putting a live block on the list of its order keeps the partition |
| `PageBlocks.HalveSound` | core/allocpage.c:67-75 | splitting a block keeps the partition and the set of managed pages |
| `PageBlocks.GrowSound` | core/allocpage.c:144-149 | adding a block none of whose pages is managed keeps the partition |
| `PageAllocator.Zone.FreelistAdd` | core/allocpage.c:56-62 | the block is the new head, and nfree is still the length of the list |
| `PageAllocator.Zone.Expand` | core/allocpage.c:64-76 | the block in hand is cut down to the order asked for, one right half on each list in between, no page lost |
| `PageAllocator.Zone.AllocPages` | core/allocpage.c:78-96 | fails if and only if every list of sufficient order is empty; else the head of the first list that is not empty is handed out, and exactly the lists up to it change |
| `PageAllocator.Zone.FreePages` | core/allocpage.c:116-142 | the block is free again, every other live block stays live, and the order and alignment checks cannot fail |
| `PageAllocator.FreeThenAlloc` | core/allocpage.c:78-123 | freeing a block and allocating its order again gives the same block and all lists as they were |
| `PageAllocator.Zone.AddPages` | core/allocpage.c:144-149 | exactly the pages of the new block become managed, and it heads the list of its order |
| `PageAllocator.Zone.ClientStore` | core/allocpage.c:98-114 | whatever the holder of a block stores in it, the free lists stay intact |
| `BootMemory.WholeBlock` | core/memory.c:31-40 | a rounded range contains all of a 2 MiB block or none of it |
| `BootMemory.BlocksOf` | core/allocpage.c:209-221 | for any slots, the addresses the two loops pass to init_free_pages are the list `Taken` |
| `BootMemory.TakenHas` | core/allocpage.c:213-217 | from slots with 2 MiB-aligned starts, a block is taken exactly when it starts in one of them and is not reserved |
| `BootMemory.TakenOnce` | core/allocpage.c:209-221 | from slots with 2 MiB-aligned starts, no block is taken twice if and only if no two of them share a block outside the reserved ranges |
| `BootMemory.BlockTakenTwice` | core/allocpage.c:209-221 | an input on which a block is taken twice |
| `BootMemory.ReservedBlockTakenOnce` | core/allocpage.c:214-215 | the same slots with the shared block reserved: no block is taken twice |
| `BootMemory.TakenInside` | core/allocpage.c:213-217 | for a slot with a 2 MiB-aligned start, every block taken lies inside it if and only if the slot is empty, ends on a 2 MiB boundary, or ends in a reserved block |
| `BootMemory.TakenAligned` | core/allocpage.c:213-217 | the blocks taken from a slot are aligned to their order if and only if the slot starts so, or gives none |
| `BootMemory.Reservations.Reserve` | core/memory.c:31-40 | the range is recorded, rounded outwards to 2 MiB |
| `BootMemory.Reservations.IsReserved` | core/memory.c:42-54 | true exactly for addresses in some recorded range |
| `BootMemory.EarlyInit` | core/allocpage.c:178-202 | exactly the pages of the 8 MiB behind the image become managed, each once, and go on the list of order 0 in ascending order |
| `BootMemory.Populate` | core/allocpage.c:204-221 | exactly the pages of the blocks `Taken` are added, none twice, wherever the slots end and whatever reserved blocks they share; the blocks go on the list of the largest order one after the other |
| `BootMemory.Boot` | core/init.c:70-87 | after boot the managed pages are the early ones and those of the blocks `Taken` with image and early memory reserved, and every free list is known; no page of the image is managed |
| `HeapBlocks.BlockFits` | core/malloc.c:58-62 | a block is 8-byte aligned and lies in its page behind the header |
| `HeapBlocks.ClassSizes` | core/malloc.c:12-14 | the small classes double from 16; the next three are the largest multiples of 8 of which 16, 8 and 4 blocks fit; of the last class two blocks would end exactly at the end of the page, and the strict comparison leaves one |
| `HeapBlocks.LiveBlocksDisjoint` | core/malloc.c:69-95 | different live blocks never overlap, whatever their classes |
| `HeapBlocks.TakeSound` | core/malloc.c:78-82 | taking a block makes that block live and no other |
| `HeapBlocks.GiveSound` | core/malloc.c:131-133 | giving a block back makes that block free and no other |
| `HeapBlocks.GiveThenTake` | core/malloc.c:121-136 | the block given back last is the next its frame hands out, and the heap is as it was |
| `HeapBlocks.ExtendSound` | core/malloc.c:48-67 | a new frame adds only free blocks, at least one |
| `Malloc.GetOrder` | core/malloc.c:36-46 | the smallest class whose blocks are large enough |
| `Malloc.Allocator.MallocFrame` | core/malloc.c:48-67 | the page is cut into as many blocks as fit, all on its free list; no other page is written |
| `Malloc.Allocator.FindFrame` | core/malloc.c:77-84 | the first frame of the class with a free block, or nothing exactly when every frame of the class is full |
| `Malloc.Allocator.AddFrame` | core/malloc.c:86-92 | a new frame at the head of its class, unless there is no page |
| `Malloc.Allocator.Malloc` | core/malloc.c:69-119 | a block of the right class that was not live and now is, nothing else changing hands: the head of the first frame with a free block, or of a new frame, and a page is taken exactly in that case; null if and only if the class is full and no page is left; the retry loop ends |
| `Malloc.Allocator.Free` | core/malloc.c:121-136 | the block goes back to the frame it came from and is free, nothing else changes hands |
| `Malloc.Allocator.ClientStore` | core/malloc.c:121-136 | whatever the holder of a block stores in it, the heap stays intact |
| `DeviceTree.NextNode` | core/device.c:17-34 | the method with the climbing loop computes `Next`, and the climb ends |
| `DeviceTree.WalkSiblings` | core/device.c:21-33 | below a parent the walk goes through the siblings and all below them in pre-order, then climbs |
| `DeviceTree.WholeWalk` | core/device.c:17-34 | the walk from the root is its pre-order and then ends, if and only if the root has a child; a root alone makes next_node follow a null pointer |
| `DeviceTree.NoNodeTwice` | core/device.c:17-34 | a walk that ends meets no node twice |
| `DeviceTree.PreOrderNames` | core/device.c:17-34 | the nodes the walk meets carry the names of the tree in pre-order |
| `DeviceTree.NextMatch` | core/device.c:429-443 | the first matching node after the given one in pre-order; without one, nothing if the root has a child and a null pointer dereference if it has not |
| `DeviceTreeBuild.LayoutReads` | core/device.c:36-63 | siblings allocated one after the other read back last first |
| `DeviceTreeBuild.TreeReads` | core/device.c:36-63 | the memory of a whole tree reads as the tree with children and properties reversed at every node |
| `DeviceTreeBuild.TakeTree` | core/fdt.c:28-89 | the tokens of a tree add exactly its nodes below the current node, which is current again afterwards |
| `DeviceTreeBuild.NopsDoNothing` | core/fdt.c:82-84 | NOPs anywhere change nothing |
| `Fdt.DecodeEncoded` | core/fdt.c:28-87 | reading an encoded token, padded to four bytes, gives the token and the position behind it |
| `Fdt.Parse` | core/fdt.c:18-95 | the parsing loop computes `Run`, panics included |
| `Fdt.ParseFlattened` | core/fdt.c:18-95 | parsing the flattening of any tree, NOPs anywhere, gives its mirror image and leaves the cursor on FDT_END |
| `Fdt.ParsedTreeIsWalked` | core/device.c:17-63 | after parsing a tree whose root has a child, the walk meets every node the parser allocated exactly once |
| `Fdt.WordsOf` | core/fdt.c:77-77 | padding to words in 32 bits: lengths are rounded up, the three largest to nothing |
| `FdtAccepts.Marks` | include/fdt.h:76-80 | the words 1, 2, 3, 4 and 9 begin a node, end it, give a property, do nothing and end the block; any other word is an error |
| `FdtAccepts.TokenBytes` | include/fdt.h:36-46 | tokens byte by byte, big-endian and padded |
| `FdtAccepts.NoNul` | core/fdt.c:41-41 | strlen finds no end if and only if no NUL follows |
| `FdtAccepts.TakesBalanced` | core/fdt.c:29-92 | tokens are taken without a panic and leave no node open if and only if they are balanced and properties are inside nodes |
| `FdtAccepts.AcceptsBalanced` | core/fdt.c:18-95 | the parser accepts a block of any bytes if and only if it reads as tokens up to an end mark and they are balanced |
| `GuestCopy.StoreChunk` | core/s2mm.c:264-272 | one memcpy to consecutive host addresses is as many byte stores |
| `GuestCopy.HostsChunk` | core/s2mm.c:247-272 | from where the range enters a page to its end, the bytes go to consecutive host addresses |
| `GuestCopy.RoundTrip` | core/s2mm.c:247-292 | bytes copied to the guest are copied back unchanged if and only if no host byte stands for two bytes of the range that differ, whatever is mapped |
| `GuestCopy.MappedRoundTrip` | core/s2mm.c:247-292 | over a mapped range with distinct backing pages they always are |
| `GuestCopy.GetElsewhere` | core/s2mm.c:247-292 | between mapped ranges that do not overlap, a copy from one does not see a copy to the other |
| `GuestCopy.PutSpares` | core/s2mm.c:247-274 | a host byte that stands for no byte of the range does not change |
| `GuestCopy.PutPlaces` | core/s2mm.c:247-303 | over a mapped range with distinct backing pages, byte k is afterwards at the offset of its guest address in the page the table gives for it |
| `GuestCopy.GetReads` | core/s2mm.c:276-303 | byte k of a copy from the guest is the one at that place, for every mapped page of the range |
| `GuestCopy.GetReadsUnmapped` | core/s2mm.c:276-303 | without an entry the bytes come from the first host page, counted from where the range enters the guest page |
| `GuestCopy.Guest.CopyTo` | core/s2mm.c:247-274 | the page-by-page copy equals the byte-by-byte one, mapped or not; over a mapped range with distinct pages each byte is behind its guest address in the page of the table |
| `GuestCopy.Guest.CopyFrom` | core/s2mm.c:276-292 | the page-by-page copy equals the byte-by-byte one, mapped or not; each byte of a mapped page is the one behind its guest address in the page of the table |
| `MsgRouting.CpuSurvives` | core/msg.c:235-247 | the CPU number survives in a connection id, whatever the counter, if and only if it is below 8; the rest is the low 29 bits of the counter |
| `MsgRouting.SameConnection` | core/msg.c:235-247 | two ids are equal if and only if the counters agree in 29 bits and the CPUs in three |
| `MsgRouting.CountersCount` | core/msg.c:236-242 | over any run a node's counter counts the messages it sends, modulo 2^32 |
| `MsgRouting.StepKeepsInv` | core/msg.c:121-125 | each send, forward, answer, delivery and collection keeps one message per waiting CPU and request numbers apart, and no delivery finds a reply buffer in use |
| `MsgRouting.PassedOn` | core/vsm.c:714-768 | any request on its way can be passed on or answered by any node; the message then stays for the same CPU and request, and nothing else changes |
| `MsgRouting.DeliverKeeps` | core/msg.c:121-125 | any reply on its way can be delivered: the CPU it is routed to is waiting for exactly that reply, has it in its buffer afterwards, and no other CPU and no other message changes |
| `MsgRouting.RepliesFindTheirCpu` | core/vsm.c:714-768 | in every run, however often a request is forwarded and counters wrap, each reply is routed to the one CPU that sent the request it answers and finds that CPU waiting with an empty buffer; every waiting CPU has exactly one message on its way |
| `MsgRouting.CollectKeeps` | core/msg.c:308-317 | a CPU that takes its reply is idle again, and nothing else changes |
| `MsgRouting.TakenIsSent` | core/msg.c:279-319 | in every run, for every CPU: what it had outstanding and what it sends is what it takes followed by what it has outstanding, in order |
| `MsgRouting.EveryRequestReplied` | core/msg.c:279-319 | in every run from the start, a CPU that is idle has taken the replies to exactly the requests it sent, each once and in order; one that waits misses the last only |
| `MsgRouting.CallReturns` | core/vsm.c:714-768 | an idle CPU can send, any nodes can pass its request on any number of times, any node can answer, and the reply comes back to that CPU with everything else as before |

## Left out

- Timeouts, usleep and wfi loops, TLB and cache maintenance, barriers: taken as immediate; there is no clock.
- Weak memory and exclusive monitors inside the lock assembly: each acquire and release is one atomic step; trylock may fail spuriously.
- Lazy allocation of the wait queue (core/vsm.c:272-275): the queue is taken as present.
- core/emul.c and immediate accesses: a write fault may carry a store. The source drops that store when the page is read-write already (core/vsm.c:610-613), and so does the model; the only caller is commented out. Immediate reads are not modelled.
- VsmMachine.MachineRefines: messages of one channel are accepted in the order they were sent; a node's receive path runs on one processor. The lock of each node serves the one page modelled.
- Several pages at once: pages do not interact in the protocol, so one page is modelled. Node discovery is taken as given: each page has one manager.
- VsmNode.PageView.ReadServerProcess: the page contents sent are named by their version, not copied byte by byte.
- Huge-page mappings, early boot tables and unmapping of tables: one-off setup. Page tables only grow.
- PageTable.Tables.MapPages: addresses are unbounded; wrap-around at 64 bits is not modelled.
- VirtqTable.Table.Claim: at least one buffer; `VirtqTable.Table.ClaimNothing` is the other case, and `Virtqueue.Queue.Enqueue` covers both. What the store at index 0xffff overwrites is not modelled. Notification, interrupts and device registration are hardware I/O.
- PageAllocator.Zone.FreePages: the block is one that was handed out, with its order. Contents of pages, and so the zeroing of pages, are not modelled; virtual addresses are page numbers.
- BootMemory.Populate: slots start on 2 MiB boundaries and no block is taken twice; `BootMemory.TakenAligned` and `BootMemory.TakenOnce` say when that holds. What a block on a free list twice does to the lists is not modelled. The table of 16 reserved ranges has no overflow check in the source and must not be full.
- Malloc.Allocator.Malloc: sizes from 1 to 2040. The source panics on 0, and reads past its table of sizes for more. Zeroing of blocks is not modelled.
- Fdt.Parse: reading past the end of the block is an outcome of the model; the source has no length check. The cached device_type and phandle fields are not modelled, nor is the strings block: a property keeps the offset of its name.
- Property lookup by name, bus address translation and path lookup: plain searches and string matching.
- GuestCopy.Guest.CopyTo: the allocation branch is not modelled: its test for a null host address cannot hold, since address 0 is translated before it is tested.
- MsgRouting.StepKeepsInv: the linked receive queue of each CPU counts as part of the network; handlers of other message types are not modelled.
- Interrupt controller, vPSCI, MMIO dispatch, device drivers other than the virtqueue, boot assembly, logging: register I/O or plumbing.

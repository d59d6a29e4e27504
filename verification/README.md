# A model of the wfspan allocator core

wfspan is a wait-free memory allocator in which memory is cut into 64 KiB spans of equal
blocks. Threads own spans privately, free each other's blocks through a per-span remote list,
hand full spans to each other through public span-lists and a bounded helping protocol, and
carve fresh spans, large runs and huge slots from one fixed region. This project models the
concurrent protocols at the heart of that design and proves what they keep over every run.

## How the model is built

The concurrent protocols are state machines: one step is one atomic action of one thread,
threads and steps interleave freely, and the theorems are about every index of every run
(`IsRun`), for any number of threads, lists, spans, blocks and slots.

| module | what it models |
|---|---|
| `Carve` | the pool cursor, fetch-and-add plus one rollback CAS, as a protocol and as the object it is |
| `Spmc` | the public span-lists, with torn head loads, spurious CAS2 failures and recycled nodes |
| `Helping` | the bounded helping acquisition over help records and public lists |
| `HelpRecord` | the one-word encoding of a help record |
| `Composed` | `Helping` run on the lists of `Spmc` access by access, and the proof that it is still `Helping` |
| `AcquireLoop` | the same acquisition as the loop it is, each action proved to be its step in `Helping` |
| `SpanLife` | one small span: local and remote frees, refill, discard, claim, publish, acquire |
| `SpanAlone` | what a free, an allocation and an acquisition of that span achieve when undisturbed |
| `PublicSpan` | one span in `SpanLife` and `Helping` at once: what OWNER_PUBLIC means |
| `RemoteRefill` | the absorb, refill and rotation loops, with producers running all the while |
| `HugeArena` | the huge slot directory on top of `Carve` |
| `HugeAlone` | what a huge allocation and free achieve when undisturbed |
| `LocalSpanList` | the intrusive list of private spans, as a class |
| `Wrappers`, `Chain` | the optional value, and blocks chained by their own memory |
| `Align`, `Placement` | mask arithmetic, size classes and the placement of all three tiers |

The loops and the in-place structures are classes and methods: `Carve.FixedSpanPool`,
`AcquireLoop.Caller`, `RemoteRefill.Span` and `LocalSpanList.SpanList`. In the first three,
`Interfere` and `Producers` stand for the other threads and act, arbitrarily often, between any two
atomic actions of the method; on an object marked `calm` they do not, and the contracts then say
exactly what the operation does.

Safety over all interleavings and service are stated separately. The run theorems say what no
interleaving can break. The `Alone` lemmas and the `calm` clauses say what each operation achieves
from any reachable state when the other threads, stalled wherever they are, do not move.

Assumptions, all of them explicit in the modules:

- Interleavings are sequentially consistent. The discard handshake stores `owner` and then
  reads the count again (src/allocator.rs:759-763); its argument needs these two in order.
- Head versions and the pool cursor do not wrap. Phases do: they are taken modulo 2^63.
- `Spmc` splits a pop as the code does: winning CAS2, load of `next.span`, hand-off of the
  outgoing dummy. Its results are for runs in which no enqueue stores a span into a node that a
  winner is still about to read (`Spmc.Guarded`). The code does not enforce this:
  `Spmc.UnguardedStoreIsReachable` gives a run that reaches such a store, and
  `Spmc.StoreIsSafeIff` shows the condition is exactly what is needed.
- `Helping` and `AcquireLoop` take a pop as one step that removes the front, reports Empty or
  fails. `Composed.StepRefines` proves this sound: with every pop and enqueue spread over its
  separate accesses, each access is a step of `Helping` or none. Empty may be reported for a list
  that is not empty, because a slow consumer can read the `next` of a recycled node
  (src/spmc_span_list.rs:131-133): `Spmc.WrongEmptyIsReachable` is such a run, and
  `Spmc.CurrentEmptyIsExact` shows the report is right whenever the snapshot is still current.
- A local free-list is a sequence of blocks. `SpanLife` follows one span; the list it is in is a
  history variable there, which `PublicSpan` ties to the lists and records of `Helping`.

Where code and documentation differ the code is followed:

- The comment on `acquire_raw_run` bounds the skipped tail per exhaustion race
  (src/pagemap.rs:61-66); in fact at most one rollback below the end can lose over the pool's
  whole lifetime (`Carve.CarveLossBound`).
- The comment on `refill_from_remote` bounds it by twice the blocks of a span
  (src/allocator.rs:679); it never scans more than the blocks of a span
  (`RemoteRefill.Span.RefillFromRemote`).
- The branches of `acquire_from_lists` that return a held span directly
  (src/acquire.rs:220-225, src/acquire.rs:247-250) are never taken
  (`Helping.RecordDiscipline`).

## Model

| member | source | states |
|---|---|---|
| `Carve.NextKeepsInv` | src/pagemap.rs:48-87 | every fetch-and-add and every rollback CAS, in any interleaving, keeps the carving invariant |
| `Carve.RunKeepsInv` | src/pagemap.rs:48-87 | the carving invariant holds in every state of every run and the pool's size never changes |
| `Carve.CarveTiling` | src/pagemap.rs:48-87 | the ranges handed out tile [0, f): an index below f is in exactly one grant, none at or above f is in any, and f never passes the end |
| `Carve.RollbackIsSafe` | src/pagemap.rs:76-84 | at most one rollback owed targets an index below the end, its target is f, nothing is handed out while it is owed, and if it wins the cursor is f again |
| `Carve.LossFreezes` | src/pagemap.rs:61-84 | after a rollback below the end has lost, no later step hands anything out or loses again |
| `Carve.CarveLossBound` | src/pagemap.rs:61-86 | at most one rollback below the end ever loses; the skipped tail is non-empty, frozen and shorter than that one request; without a loss nothing is skipped |
| `Carve.ServedIffItFits` | src/pagemap.rs:48-87 | in every state of every run a span or run is handed out at the cursor if and only if it fits, a run larger than the pool touches nothing, any other refusal owes exactly one rollback, and the rollback restores the cursor if and only if nobody moved it |
| `Carve.TailIsServed` | src/pagemap.rs:48-87 | while no tail is lost and no rollback to it is owed, every request that fits in what was never handed out gets its beginning |
| `Carve.FixedSpanPool.AcquireRawSpan` | src/pagemap.rs:48-55 | what it returns is a new grant of the pool; undisturbed, the span at the cursor if there is one |
| `Carve.FixedSpanPool.AcquireRawRun` | src/pagemap.rs:68-87 | what it returns is a new grant; a run larger than the pool changes nothing; undisturbed, a run that fits is handed out at the cursor and one that does not leaves the cursor where it was |
| `Carve.GrantBelowFrontier` | src/pagemap.rs:74-86 | earlier grants end before later ones begin and all end at or below the frontier |
| `Spmc.StepKeepsInv` | src/spmc_span_list.rs:102-151 | every guarded atomic action of producers and consumers keeps the chains, the snapshots' validity and the placement of all nodes and spans |
| `Spmc.RunKeepsInv` | src/spmc_span_list.rs:102-151 | the invariant holds in every state of every guarded run |
| `Spmc.FifoRefinement` | src/spmc_span_list.rs:102-151 | walking `next` from the head finds exactly the spans enqueued and not popped, in order; every pop has read, or has a winner about to read, the span of its place; with no winner in between, popped then linked is enqueued |
| `Spmc.WalkFinds` | src/verify.rs:191-230 | the quiescent checker's walk from any linked node finds the remaining spans in enqueue order |
| `Spmc.VersionCountsPops` | src/spmc_span_list.rs:136-143 | a list's version is the number of CAS2 attempts on it that succeeded |
| `Spmc.PublishAppends` | src/spmc_span_list.rs:102-118 | publishing appends the span to what the links from the head spell, and to the abstract queue of that list |
| `Spmc.PopTakesFront` | src/spmc_span_list.rs:122-151 | a winning CAS2, however stale its snapshot could have been, takes the front of what the links spell, and of the abstract queue, and leaves with that span |
| `Spmc.OthersKeepQueues` | src/spmc_span_list.rs:102-151 | no other action changes any abstract queue |
| `Spmc.OthersKeepWalks` | src/spmc_span_list.rs:102-151 | nor does any, by clearing or reusing nodes, change what the links from a head spell |
| `Spmc.CurrentEmptyIsExact` | src/spmc_span_list.rs:122-134 | a pop whose snapshot is still the head reports Empty if and only if the list is empty |
| `Spmc.WrongEmptyIsReachable` | src/spmc_span_list.rs:131-133 | a concrete guarded run in which a stale consumer reads the cleared link of a recycled dummy and reports Empty while a span is queued |
| `Spmc.EverythingInOnePlace` | src/spmc_span_list.rs:102-151 | every node is in exactly one chain position, span, enqueue or winner's hands, every span in exactly one place, and a winner never finds a null span |
| `Spmc.PopAlone` | src/spmc_span_list.rs:122-151 | a pop by itself takes the front span and gives it the old dummy, or reports an empty list and changes nothing |
| `Spmc.EnqueueAlone` | src/spmc_span_list.rs:102-118 | an enqueue by itself, guarded, appends its span and uses up its node |
| `Spmc.StoreIsSafeIff` | src/spmc_span_list.rs:102-118 | the store into a reused node keeps the invariant if and only if no winner still has to read that node |
| `Spmc.OverwrittenWinnerMisreads` | src/spmc_span_list.rs:143-145 | otherwise the winner can leave with a span that is still entering a list, and the one it popped is in no other place: nobody has it |
| `Spmc.UnguardedStoreIsReachable` | src/spmc_span_list.rs:102-151 | a concrete run of two consumers, every earlier store guarded, reaches a store that breaks the invariant, after which one load gives a consumer a span that is still entering a list |
| `Helping.StepKeepsThreads` | src/acquire.rs:131-251 | every action keeps what each control point knows about its own record, its held span and its counters |
| `Helping.StepKeepsCustody` | src/acquire.rs:131-271 | every action leaves each span in exactly one place |
| `Helping.RunKeepsInv` | src/acquire.rs:120-271 | both hold in every state of every run, for any H and any number of threads |
| `Helping.SpanCustody` | src/acquire.rs:120-271 | each span is in exactly one of a public list (once), a completed record, a held slot, a value being returned, or a caller's hands |
| `Helping.RecordDiscipline` | src/acquire.rs:140-271 | the publish and stash stores only overwrite an empty record, no record is pending and nothing is held between calls, and the direct-return branches are never taken |
| `Helping.OnlyOwnersSwapEmpties` | src/help_record.rs:141-152 | a completed record changes only by its owner's swap, which empties it and takes its span out to be returned |
| `Helping.OthersOnlyComplete` | src/help_record.rs:164-210 | over any stretch of steps of other threads, one's own record is unchanged or its pending request has been completed |
| `Helping.WaitFreeBound` | src/acquire.rs:162-251 | in every environment help and query steps together are at most H + n, query steps at most n, CAS2, CAS and swap counts stay within their bounds, and a call makes at most 11(H + n) + 6 atomic accesses to records, lists and nodes, the loads, CAS2 and stores of each pop and the phase counter included |
| `Helping.NeverBlocked` | src/acquire.rs:120-251 | a thread inside a call can always take its next action |
| `Helping.CallReturnsSoon` | src/acquire.rs:162-251 | from its beginning to any later point a call has taken at most 11(H + n) + 6 actions of its own, whatever the others did: it returns |
| `Helping.ActKeepsOutside` | src/acquire.rs:131-271 | an action takes no span from a caller, and one that gives a caller a span ends the call |
| `Composed.StepRefines` | src/spmc_span_list.rs:102-151 | with pops and enqueues spread over their accesses, each access is the step of `Helping` it stands for (the winning CAS2 is the pop, the link store the enqueue) or changes nothing there |
| `Composed.StepKeepsInv` | src/help_record.rs:164-210 | every access keeps the invariants of both and their agreement on who is popping and publishing |
| `Composed.RunRefines` | src/acquire.rs:120-271 | every run of the two together is, seen through the abstraction, a run of `Helping` |
| `Composed.SpanCustodyInMemory` | src/acquire.rs:120-271 | in every such run each span is in exactly one place, and the lists are what the links in memory spell |
| `Composed.WaitFreeInMemory` | src/acquire.rs:162-251 | in every such run a thread inside a call, also inside a pop, can make its next access, and its counters are within their bounds |
| `HelpRecord.PendingKeepsLowBits` | src/help_record.rs:28-30 | the shift keeps exactly the low 63 bits of the phase, and the result decodes to a pending record |
| `HelpRecord.DecodeEncode` | src/help_record.rs:24-51 | decoding an encoded record gives it back |
| `HelpRecord.EncodeDecode` | src/help_record.rs:24-51 | every 64-bit word is the encoding of exactly what it decodes to |
| `HelpRecord.WordsCompareAsRecords` | src/help_record.rs:197-203 | comparing words, as the CASes do, is comparing records; the low bit is set exactly for pending ones |
| `AcquireLoop.Lane.Interfere` | src/acquire.rs:162-251 | other threads take any steps of theirs; the caller's locals stay and its record is left alone or completed |
| `AcquireLoop.Lane.HelpFinishingReq` | src/help_record.rs:164-210 | at most one pop and one CAS, each the caller's step in `Helping`; a null-list report means nothing was or is held; if a span stays held after helping oneself the own record is completed; undisturbed, it completes a pending record with the list's front or reports the list empty |
| `AcquireLoop.Lane.ReclaimRequest` | src/help_record.rs:141-152 | empties the own record and returns the span of the record it took out, which is the one at entry or its completion |
| `AcquireLoop.Lane.TryPopHeadOnce` | src/spmc_span_list.rs:122-151 | one attempt; a span it gets is the front of the list as it finds it; undisturbed it takes the front, or reports Empty exactly when the list is empty |
| `AcquireLoop.Lane.CompleteRequest` | src/help_record.rs:197-207 | the CAS succeeds exactly if the record is pending with that phase, and then holds the span |
| `AcquireLoop.Lane.Custody` | src/acquire.rs:120-271 | in every state the records and lists can be in, each span is in exactly one place, and a thread between calls holds none |
| `AcquireLoop.CallUndisturbed` | src/acquire.rs:162-213 | an undisturbed helping call either passes one more empty list or completes the caller's own request from the first non-empty one, and leaves other records alone |
| `AcquireLoop.HelpedOne` | src/acquire.rs:167-180 | an undisturbed iteration that counts a request leaves it and all counted before not pending |
| `AcquireLoop.RoundCoversAll` | src/acquire.rs:183-231 | n empty lists in cyclic order are all the lists |
| `AcquireLoop.Caller.HelpOthers` | src/acquire.rs:156-181 | the helping loop, step by step that of `Helping`: at most H requests and n lists, and nothing is held when the query budget is spent; undisturbed, it ends with the first H requests from `helping_pos` not pending or with all n lists empty |
| `AcquireLoop.Caller.FinishOwn` | src/acquire.rs:183-231 | the query loop, step by step that of `Helping`: no direct return, a second span is stashed, and undisturbed it is served by the first non-empty list or has seen all n empty |
| `AcquireLoop.Caller.FinishWith` | src/acquire.rs:257-271 | a held span is stashed in the empty record and the other one returned |
| `AcquireLoop.Caller.GiveUp` | src/acquire.rs:233-251 | the request is withdrawn or a completion that came first is taken and returned; the record ends empty |
| `AcquireLoop.Caller.AcquireFromLists` | src/acquire.rs:120-251 | whatever the others do: the call continues a run of `Helping`, afterwards every span is in exactly one place and this thread holds none, counts within bounds, record not left pending, null leaves it empty, the result is what a swap took out of the caller's own record, an earlier stash is returned at once; run alone with nothing pending: the front of the first non-empty list from `cur_query`, null exactly when all n lists are empty, wherever `helping_pos` points |
| `AcquireLoop.BoundsMeetAssertions` | src/stats.rs:61-87 | these bounds and the scan bound imply every assertion of `assert_bounds` |
| `SpanLife.StepKeepsInv` | src/allocator.rs:600-781 | each of the 28 kinds of atomic action keeps partition, accounting, chains and ownership |
| `SpanLife.RunKeepsInv` | src/allocator.rs:600-781 | they hold in every state of every run |
| `SpanLife.BlockAccounting` | src/allocator.rs:642-736 | each block is in exactly one of in use, local list, live chain, pending chain and the chain being absorbed; g is chained plus absorbed-not-subtracted minus swapped-not-counted |
| `SpanLife.FullTest` | src/allocator.rs:612-615 | q + g = m holds at the test if and only if no block is in use and no producer is between its SWAP and its FAA |
| `SpanLife.PublishSoundness` | src/allocator.rs:609-631 | the same over all runs; and while a span is being published, public or just acquired, all its blocks are free, the first local pop will succeed and no thread is freeing one of its blocks |
| `SpanAlone.PublishesIffFull` | src/allocator.rs:612-629 | in every state of every run, the test takes a surplus span out of its list to publish it if and only if no block is in use and no producer is uncounted; otherwise the thread is done and the span stays |
| `SpanAlone.LocalFreeAlone` | src/allocator.rs:600-635 | a free by the owner, alone, puts the block at the front of the local list and publishes the span if and only if that filled it and the list is in surplus |
| `SpanAlone.RemoteFreeAlone` | src/allocator.rs:642-675 | a free by anybody else, alone, puts the block, linked and counted, at the head of the remote chain and claims the span if and only if it is ownerless with no free counted before |
| `SpanAlone.AbsorbAlone` | src/remote_mpsc.rs:84-113 | the absorb loop, alone, moves exactly the blocks before the first UNLINKED one, in order |
| `SpanAlone.AllocAlone` | src/allocator.rs:438-472 | an allocation from the span, alone, hands out the front of the local list, or refills from the pending and then the live chain as far as they are resolved and hands out the last block absorbed, or discards the span exactly if no chain is pending and no free is counted, or keeps it |
| `SpanAlone.AcquireAlone` | src/allocator.rs:481-494 | a thread that gets the span from the public lists, alone, owns it, has it in its list and hands out its first block |
| `SpanLife.NoStrandedSpan` | src/allocator.rs:747-781 | an ownerless span with g >= 1 has a claimer or a re-checking discarder; with nothing in flight an ownerless span has g = 0, empty lists and all blocks in use |
| `SpanLife.OwnershipMatchesMembership` | src/allocator.rs:438-503 | owner word and list membership agree in both directions and no two threads act as owner |
| `PublicSpan.StepKeepsInv` | src/allocator.rs:609-631 | publishing and acquiring, as one step in the header and in the lists, and every other step keep both invariants and their link |
| `PublicSpan.NeitherBlocks` | src/allocator.rs:476-494 | a publisher can always enqueue, and the thread to which an acquisition returns the span can always take it over |
| `PublicSpan.PublicMeansInProtocol` | src/allocator.rs:438-503 | a span is public if and only if it is in exactly one public list, record, held slot or return value, and then its owner word is PUBLIC, its blocks are free and nobody is freeing one; the word says PUBLIC otherwise only in the hands of its publisher or acquirer |
| `SpanLife.StalledProducersLoseNothing` | src/remote_mpsc.rs:84-113 | chains are in SWAP order with each link resolved or left to its stalled producer; an iteration moves exactly the front block, or stops exactly at the end or at an UNLINKED front |
| `SpanLife.LimitNeverReached` | src/remote_mpsc.rs:93-112 | the block-count limit is never why the loop stops |
| `RemoteRefill.Span.ProducerSwap` | src/remote_mpsc.rs:33-37 | a swapped-in block becomes the head of the live chain, leaves use, and disturbs no resolved link |
| `RemoteRefill.Span.ProducerLink` | src/remote_mpsc.rs:44-48 | a link store resolves a link to the SWAP-order predecessor and disturbs no other |
| `RemoteRefill.Span.Producers` | src/remote_mpsc.rs:33-61 | any number of producer actions keep the span's accounting and only resolve links of detached chains |
| `RemoteRefill.Span.AppendRemoteToLocalBounded` | src/remote_mpsc.rs:84-113 | moves exactly a prefix of the chain, in order, to the front of the local list; what is left starts with an UNLINKED block or is empty; blocks scanned are those moved plus the one it stopped at |
| `RemoteRefill.Span.RefillFromRemote` | src/allocator.rs:683-736 | a prefix of the pending chain is absorbed and, only if that was all of it, a prefix of the live list as it then is (the one at entry, with blocks freed since before it); the rest is the one pending chain, blocked by an UNLINKED block; nothing absorbed and nothing pending means both chains were empty; at most m blocks are scanned, at most one if none is absorbed; undisturbed, exactly the resolved blocks are absorbed |
| `RemoteRefill.Span.AllocFromLocal` | src/span.rs:211-227 | takes the front of the local list, which was not in use, or reports it empty |
| `RemoteRefill.Span.AllocOrRefill` | src/allocator.rs:445-455 | a failed attempt leaves an empty local list, has scanned at most one block and found both chains empty or blocked; a successful one scans at most m, none if the list was not empty, and its block was not in use when it was taken; undisturbed it succeeds exactly if a local block or a resolved one is there |
| `RemoteRefill.Span.TryDiscard` | src/allocator.rs:747-781 | the span is gone exactly if it is no longer the caller's: claimed, or ownerless with no free visible after the owner word was cleared; undisturbed, exactly if no free is visible |
| `RemoteRefill.Rotate` | src/allocator.rs:438-472 | a local block at the front is handed out at once; on failure the front span goes to the back if it is still the caller's and leaves the list if not, the others keep their order |
| `RemoteRefill.RotateThrough` | src/allocator.rs:438-472 | the rotation fails only after each of the first min(K + 1, length) spans was tried and left without a local block |
| `RemoteRefill.AllocSmall` | src/allocator.rs:438-519 | one small allocation scans at most m + K + 1 blocks whatever the producers do, hands out the front span's local block at once if it has one, goes to the acquired span only after the rotation gave nothing and to a fresh one only after both did, hands out a block that was free when taken, keeps every span's accounting, and returns null only if the pool gave no span either |
| `Chain.MovedNext` | src/remote_mpsc.rs:97-110 | pushing the head of what is left extends the moved prefix by one block, in reverse order |
| `HugeArena.NextKeepsInv` | src/huge.rs:158-293 | every claim, carve, rollback, hand-back, base store and free keeps the directory's invariant |
| `HugeArena.RunKeepsInv` | src/huge.rs:158-293 | it holds in every state of every run |
| `HugeArena.BaseIsSetOnce` | src/huge.rs:176-214 | a slot's base, once set, never changes |
| `HugeArena.HugePayloadsApart` | src/huge.rs:230-250 | a live payload is aligned, inside its slot, and apart from every other live payload and every range the pool gave to anyone else |
| `HugeArena.FreeFindsItsSlot` | src/huge.rs:262-293 | the address scan of a free matches exactly the slot that served the pointer and never comes up empty |
| `HugeArena.NoSlotIsLost` | src/huge.rs:158-226 | a slot is allocated exactly when it is a user's or one thread's, never both, never two threads' |
| `HugeAlone.AllocAlone` | src/huge.rs:158-226 | a huge allocation, alone, is served by the first slot in scan order that is free, or empty with its run still in the pool, carved then; null exactly if there is none, and then nothing has changed |
| `HugeAlone.NoRoomAlone` | src/huge.rs:199-209 | a claim whose run does not fit puts cursor and slot back as they were |
| `HugeAlone.FreeAlone` | src/huge.rs:262-293 | a huge free, alone, makes exactly the slot that served the pointer free again |
| `LocalSpanList.SpanList.PushFront` | src/heap.rs:42-52 | the list refines a duplicate-free sequence; pushing prepends |
| `LocalSpanList.SpanList.PushBack` | src/heap.rs:55-71 | appends |
| `LocalSpanList.SpanList.PopFront` | src/heap.rs:75-88 | removes and returns the first, or null from an empty list |
| `LocalSpanList.SpanList.RemoveBounded` | src/heap.rs:95-123 | removes the span exactly when it is among the first `limit` entries: then it is gone, every other span stays, and they stay in order |
| `LocalSpanList.SpanList.Unlink` | src/heap.rs:105-116 | the pointer stores that take one entry out of the chain |
| `Align.RoundUpIsLeast` | src/align.rs:4-7 | the masked sum is the least multiple not below x |
| `Align.RoundDownIsGreatest` | src/align.rs:10-13 | the mask gives the greatest multiple not above x |
| `Align.IsAlignedIsMultiple` | src/align.rs:16-19 | the mask test is divisibility |
| `Placement.SmallClassIsLeast` | src/size_class.rs:46-60 | the least class whose block covers size and alignment, none exactly when the larger of the two exceeds the largest block |
| `Placement.FirstBlock` | src/size_class.rs:64-71 | the first block follows the header reserve by less than a block and is naturally aligned |
| `Placement.BlockInSpan` | src/span.rs:86-90 | every block lies between header and end of its span, naturally aligned, and masking any address in it gives the span back |
| `Placement.SpanIsFilled` | src/size_class.rs:64-71 | the blocks leave no room for another one |
| `Placement.SmallPlacement` | src/span.rs:136-150 | every small layout fits, aligned as asked, in every block of its class, and blocks do not overlap |
| `Placement.RunClassIsLeast` | src/large.rs:86-100 | the least power-of-two run covering reserve, hidden header, size and alignment slack, none exactly when the need exceeds the largest run |
| `Placement.LargePlacement` | src/large.rs:108-134 | the payload is aligned, its hidden header lies past the header reserve, aligned, and it ends inside the run, for the class asked for or any larger one |
| `Placement.HugeClassIsLeast` | src/huge.rs:139-148 | the least huge class covering the need, none exactly when no class does or the need overflows |
| `Placement.HugePlacement` | src/huge.rs:230-250 | in every slot of that class or a larger one the payload is aligned and inside the slot |
| `Placement.HugeNeedIsTight` | src/huge.rs:139-148 | the slack is exactly what the worst slot needs |
| `Placement.DispatchIsExact` | src/allocator.rs:350-355 | a layout goes to the small tier exactly if size and alignment are at most the block of the last class, and then to the least class holding both; of the others exactly those of at least one granule go to the huge tier |
| `Placement.TierPlacement` | src/allocator.rs:350-355 | one statement over the dispatch: whichever tier a layout goes to, the payload is aligned and inside its span, run or slot, clear of the header reserve where there is one |
| `Placement.RegionHoldsSpans` | src/pagemap.rs:38-45 | every span of the installed region is aligned and inside the caller's memory, and as many as fit are used, also where `ptr + len` saturates |
| `Placement.RegionStartsInside` | src/pagemap.rs:38-45 | the region starts inside the caller's memory if and only if rounding its first address up does not wrap |
| `Placement.InitSpan` | src/span.rs:98-155 | the free-list of a fresh span runs through all its blocks in address order, first to last |
| `Placement.BuildChain` | src/span.rs:140-150 | the loop that links them, from the last block down |

## Left out

- src/global.rs: thread-local tokens, spin locks, the system fallback and shard growth are glue around the core.
- src/atomic_backend.rs: only the contract of the double-word CAS is used (one attempt, may fail spuriously, a load may tear).
- `Carve`, `Spmc`, `Helping`, `Composed`, `SpanLife`, `PublicSpan` and `HugeArena` are step relations over values, not classes: the actions of one operation interleave with those of other threads, so no method body runs alone. Aliasing is captured through the identities of nodes, spans, blocks and slots.
- Weak memory: reorderings below sequential consistency are not modelled.
- src/local_list.rs and src/block.rs: a local free-list is a sequence of blocks, a block is its address.
- Metadata construction, src/region.rs and src/thread.rs: set-up only.
- AllocatorStats, the advisory `state` field and `theoretical_extra_bound`: numbers that decide nothing. The `acquired` counter is also bumped when a null is returned (src/acquire.rs:188-194), so nothing is claimed about it.
- Null only when memory is exhausted: not promised under contention, after a failed pop, or when a local list holds more than K + 1 spans.
- The life of a large run outside the acquisition protocol and its placement (its local list, its transfer to the freeing thread): a simpler case of what `SpanLife` covers.
- src/verify.rs: only the walk of a public list is modelled; the other quiescent checks follow from the run theorems.
- Spmc.FifoRefinement: stated for runs in which every reuse of a node is guarded, because the code does not enforce the guard and the claim fails without it (`Spmc.UnguardedStoreIsReachable`).
- AcquireLoop.Caller.HelpOthers: how much it helps is stated for an undisturbed loop; under contention a request may be left pending.
- RemoteRefill.AllocSmall: the span acquired from the public lists and the one fresh from the pool are parameters; how they are got is in `AcquireLoop` and `Carve`.
- Placement.RegionHoldsSpans: for regions that do not begin in the last span of the address space, where the rounding wraps and the region starts at 0 (`Placement.RegionStartsInside`).
- Helping.WaitFreeBound: the caller's own `cur_query` and `helping_pos` words and the statistics counters are not counted.
- Placement.HugePlacement: for sizes of at least one granule, which is when the dispatch uses this tier; smaller sizes with a giant alignment go to the large tier.
- The step counts of the large and huge paths (`assert_large_bounds`, `assert_huge_bounds`) are not modelled.

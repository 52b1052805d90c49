# Verified models of GPU protocols, kernels, pools and tools

This project models, in Dafny, the parts of the repository that are hard to get right: protocols between
processes and device queues, kernels that compute in tiles or lanes what a simple formula says, allocators
whose slots must have one owner, and tools that rewrite files. Each module states what the code is for and
proves it for all inputs, all runs, or all schedules.

`dafny verify dfyconfig.toml` checks everything.

| file | what it is about |
|---|---|
| `PushAllReduce.dfy` | two processes push payloads into each other's scratch slots, meet at a sense-reversing barrier and launch asynchronous kernels; all interleavings, over any number of calls |
| `CopyRing.dfy` | a host, a copy queue and a compute queue share ring buffers, ordered by markers and cross-queue barriers; any ring size, any number of jobs |
| `ChainDecode.dfy` | speculative decoding with a chain of drafts: mask, acceptance, and whole generations |
| `GroupedMatmul.dfy` | a grouped matrix product in tiles, with pair-interleaved weights and tail rows |
| `SlotPools.dfy` | request slots, mamba slots, ping-pong buffers and donated slots |
| `TreeFold.dfy`, `TreeRecurrence.dfy`, `TreeGrid.dfy` | the gated delta rule over a tree of draft tokens, with cached parent states, row tiles, and whole launches of programs |
| `CheckpointMerge.dfy`, `GdnRequant.dfy`, `Bf16.dfy` | a two-pass rewrite of a checkpoint shard, the quantiser it is run with, and the format of its scales |
| `ConvWindow.dfy` | convolution windows that share columns, and the guard that decides when they may |
| `Offload.dfy` | chunked offload and reload of rows and index pages |
| `ExpertPlan.dfy` | the plan that groups positions by expert, and its interpreter |
| `AllGather.dfy` | an all-gather made of an all-reduce |
| `BraceMatch.dfy` | brace matching over comments, strings and characters |
| `RowReductions.dfy` | strided lanes, a halving tree, top-1, and int8 quantisation |
| `Slots.dfy`, `Grid.dfy` | ring positions and addresses, without products and remainders in the proofs |
| `Options.dfy`, `Collections.dfy` | optional values; sequences without repetition and small sets |

## How things are modelled

- A device queue is a log of operations and a position. Operations run word by word, in any order, so a torn
  copy or a half finished kernel is a state of its own. Every host statement on shared memory is a step.
- Numbers are reals or integers; rounding is not modelled, but for the scales of a checkpoint, which are rounded to
  bf16. `exp`, the square root, the language model, and the two-argument rounded sum are parameters, and so are the
  bytes of a value where the format does not matter.
- Lambdas in `RowReductions` and `ExpertPlan` called `schedule` or lists called `order` are the orders in which a
  device runs its threads or tiles; the results hold for every such order.
- Failed assertions and raised exceptions are results (`Failed`, `None`, `ConversionFailed`, ...), and the contracts
  say exactly when they occur.

## Findings

- One scratch slot, no wait for the push, or a queue that is not in order makes the push all-reduce wrong: `OneSlotFails`,
  `NoWaitFails` and `NoOrderFails` give the runs, `PushAllReduce.SafeExactly` says that two or more slots, the wait and
  the order are exactly what is needed.
- The copy ring needs its fence, its poll, and at least as many marker cells as slots: `NoFenceFails`, `NoPollFails` and
  `FewCellsFail` give the runs, for every ring, and `CopyRing.SafeExactly` says that they are exactly what is needed.
- A batch allocation that runs out of mamba slots fails after all its requests have got their request slots. `Alloc`
  says what is left: the free list is shorter by what the batch needed, so it is unchanged exactly if the batch needed
  none or the assertion on reuse failed; requests before the one that could not be served have all their mamba slots,
  those behind it what they had, and no mapping row is written. All slots still have one owner, but the rows of the
  batch need not be right. Those of requests that gained nothing stay right, so the pool is valid exactly if the old
  rows happen to fit the requests that gained something: after `ShortageBreaksRows`, one mamba slot for two requests,
  they fit only if that slot is slot 0.
  An empty batch fails as well, since nothing can be stacked, and changes nothing.
- `free_mamba_cache` with a bad place to keep fails after the active slot has been freed (`FreeMambaCache`,
  `KeepBeyondBuffer`). In the eager mode it frees a place that holds -1 as if it were a slot; the pool stays in order
  exactly if no such place is freed (`FreeMambaCache`, `EmptyPlaceIsFreed`).
- The merge loses a tensor if the source already has one named like the scale of a converted weight:
  `AllThereExactly` and `TilesExactly` say that this is exactly when, `ClashLosesScale` is a shard of two tensors.
- The comment that the last end is the contiguous total holds exactly when the last entry in the sorted order ends
  where the sizes add up to (`TotalStaysRight`); `GapMiscounts` is a shard whose total comes out two bytes short.
- A served weight is off by less than one scale of its row if that scale is at least the smallest normal bf16 value;
  below that the scale can be written as zero, which happens exactly up to half a step of the format, and the row is
  lost (`ServedByBf16`, `StoredZero`, `TinyRowIsLost`).
- The pattern for converted weights also matches a name that ends in a newline; its scale then gets a name with a second
  dot (`NewlineName`). Scale names stay different from each other and from weights (`ScaleNames`).
- A reload passes its assertions with fewer indices than were saved, if they end with a chunk (`CopyIn`,
  `ShortReloadPasses`).
- The shared convolution columns can be read back exactly if overlapping windows agree (`StoreAll`), and where the
  drafts of a channel all differ that is so only for a chain (`OnlyChainsConsistent`). The guard `topk <= 1` is exact:
  it allows the shared layout if and only if every tree with at most that many children a node is a chain
  (`DedupExactly`, with the tree of `BranchBreaks` beyond it).

## Model

| member | source | states |
|---|---|---|
| PushAllReduce.StepInv | kernels/xpu_push_ar_fused_rmsnorm.cpp:178-268 | every step of every actor keeps the invariant of barrier, queues, slots and results |
| PushAllReduce.BarrierTogether | kernels/xpu_push_ar_fused_rmsnorm.cpp:178-184 | no rank leaves a round before both entered it; completed rounds differ by at most one; a rank that arrives finds the counter reset, or one if its peer spins in the same round |
| PushAllReduce.NoOverwrite | kernels/xpu_push_ar_fused_rmsnorm.cpp:203-206 | a push never writes a slot of the peer that an unfinished kernel of the peer still has to read |
| PushAllReduce.KernelReadsItsCall | kernels/xpu_push_ar_fused_rmsnorm.cpp:243-288 | the kernel of call n reads the peer's payload of call n |
| PushAllReduce.SafeIsCorrect | kernels/xpu_push_ar_fused_rmsnorm.cpp:203-331 | with two or more slots, the wait and queues in order the finished kernels of every reachable state hold the true sums, and a retired kernel has left in every word of `x`, until the next fill, that row of the sums normalised, at its own column |
| PushAllReduce.RanksAgree | kernels/xpu_push_ar_fused_rmsnorm.cpp:288-300 | both ranks end up with the same sum for every call they have finished |
| PushAllReduce.NoDeadlock | kernels/xpu_push_ar_fused_rmsnorm.cpp:178-184 | in every reachable state something can step, or all calls are finished |
| PushAllReduce.RunsEnd | kernels/xpu_push_ar_fused_rmsnorm.cpp:178-268 | runs have bounded length, and one that cannot go on has finished all calls |
| PushAllReduce.OneSlotFails | kernels/xpu_push_ar_fused_rmsnorm.cpp:57-57 | with one slot there are calls and a run that end with a wrong sum |
| PushAllReduce.NoWaitFails | kernels/xpu_push_ar_fused_rmsnorm.cpp:258-261 | without the wait there are calls and a run that end with a wrong sum, for any number of slots |
| PushAllReduce.NoOrderFails | kernels/xpu_push_ar_fused_rmsnorm.cpp:235-235 | on a queue that is not in order a push can run before its payload is there, for any number of slots, with or without the wait |
| PushAllReduce.SafeExactly | kernels/xpu_push_ar_fused_rmsnorm.cpp:203-206 | the protocol is correct, in sums and results, for all payloads and schedules if and only if there are two slots or more, the host waits for its push, and the queues are in order |
| Slots.SlotIsRemainder | kernels/xpu_push_ar_fused_rmsnorm.cpp:243-243 | the slot of a call is its number modulo the ring |
| Slots.SlotLayout | kernels/xpu_push_ar_fused_rmsnorm.cpp:61-65 | payloads stay in their slot, behind the scratch memory and inside the allocation; calls in turn do not overlap |
| Grid.RowIsQuotient | kernels/prefill_grouped_f16_esimd_v1.hpp:57-59 | the row-by-row division that all address proofs use is `/` and `%` |
| CopyRing.StepInv | kernels/copy_engine_prefill52_harness_v1.cpp:68-98 | every step keeps the invariant of queues, markers and bytes |
| CopyRing.ExpireInv | kernels/copy_engine_prefill52_harness_v1.cpp:70-74 | a poll that times out, at any moment, even as its marker arrives, breaks nothing the queues rely on, so no consumer ever sees foreign bytes |
| CopyRing.ConsumersSeeTheirJob | kernels/copy_engine_prefill52_harness_v1.cpp:90-97 | in every schedule every byte a consumer reads is its own job's |
| CopyRing.HostSlotSafe | kernels/copy_engine_prefill52_harness_v1.cpp:71-76 | the host writes a slot only when no copy may still read it |
| CopyRing.DeviceSlotSafe | kernels/copy_engine_prefill52_harness_v1.cpp:77-78 | a copy writes a device slot only when no consumer may still use it |
| CopyRing.CellSafe | kernels/copy_engine_prefill52_harness_v1.cpp:79-83 | a marker's source cell is written only when no marker copy may still read it, for as many cells as slots or more |
| CopyRing.FinalMarkers | kernels/copy_engine_prefill52_harness_v1.cpp:98-104 | at the end every marker is the last sequence number of its slot |
| CopyRing.NoDeadlock | kernels/copy_engine_prefill52_harness_v1.cpp:68-99 | every reachable state can step without the clock, or is finished, or the poll has timed out and both queues have drained |
| CopyRing.RunsEnd | kernels/copy_engine_prefill52_harness_v1.cpp:68-99 | runs have bounded length; one that cannot go on is finished, unless a poll timed out: then the queues have done all that was submitted |
| CopyRing.NoPollFails | kernels/copy_engine_prefill52_harness_v1.cpp:71-76 | without the poll there is a run in which a consumer reads the bytes of another job, for any ring |
| CopyRing.NoFenceFails | kernels/copy_engine_prefill52_harness_v1.cpp:77-78 | without the fence there is a run in which a copy overwrites bytes that a consumer still has to read, for any ring |
| CopyRing.FewCellsFail | kernels/copy_engine_prefill52_harness_v1.cpp:81-83 | with fewer marker cells than slots there is a run that ends with a wrong marker |
| CopyRing.SafeExactly | kernels/copy_engine_prefill52_harness_v1.cpp:68-104 | every schedule of every configuration is right if and only if the fence, the poll and at least as many cells as slots are there |
| ChainDecode.FullMaskSize | sglang/patches/mtp_tree_xpu.py:73-75 | the declared size is the size of the mask when the declared sum is the sum of the lengths |
| ChainDecode.FullMaskAt | sglang/patches/mtp_tree_xpu.py:66-84 | entry (b, i, key) of the flat mask is true exactly if key <= length of b plus i |
| ChainDecode.FullMaskUnique | sglang/patches/mtp_tree_xpu.py:66-84 | different entries have different places; the regions of the batch do not overlap |
| ChainDecode.FillFullMask | sglang/patches/mtp_tree_xpu.py:76-84 | the nested loops over the advancing offset fill exactly that mask |
| ChainDecode.FillBatch | sglang/patches/mtp_tree_xpu.py:78-84 | one request's rows, everything else unchanged |
| ChainDecode.QueryMaskAt | sglang/patches/mtp_tree_xpu.py:58-65 | the query-only mask is true exactly on and below the diagonal |
| ChainDecode.PositionsAt | sglang/patches/mtp_tree_xpu.py:48-48 | node i of request b has position length of b plus i |
| ChainDecode.SumOfProducts | sglang/patches/mtp_tree_xpu.py:118-122 | the sum of the running products is the length of the leading run of matches |
| ChainDecode.AcceptedIsRun | sglang/patches/mtp_tree_xpu.py:117-123 | that many drafts match and the next one, if any, does not |
| ChainDecode.Verify | sglang/patches/mtp_tree_xpu.py:110-140 | accepted counts, front-filled indices, and predictions written at accepted nodes only |
| ChainDecode.ChainWalk | sglang/patches/mtp_tree_xpu.py:50-54 | a walk over the next-token and next-sibling graph of a chain accepts the leading run |
| ChainDecode.ScanIsWalk | sglang/patches/mtp_tree_xpu.py:50-54 | the scan and the general tree walk accept the same nodes |
| ChainDecode.ChainIsGreedy | sglang/patches/mtp_tree_xpu.py:117-137 | what a round emits is what greedy decoding emits from the same prefix |
| ChainDecode.RoundIsGreedy | sglang/patches/mtp_tree_xpu.py:117-137 | the same for every request of a batch, with at least one token |
| ChainDecode.Round | sglang/patches/mtp_tree_xpu.py:18-140 | build, forward on bonus tokens and drafts, verify and emit: every request continues greedily by one token or more |
| ChainDecode.GreedySplit | sglang/patches/mtp_tree_xpu.py:3-9 | greedy decoding in pieces is greedy decoding |
| ChainDecode.Generate | sglang/patches/mtp_tree_xpu.py:3-9 | any number of rounds with any drafts emits the greedy sequence, at least one token a round |
| GroupedMatmul.TileInGroup | kernels/prefill_grouped_f16_esimd_v1.hpp:42-46 | the tile of a cell lies in the number range of its group |
| GroupedMatmul.TileOwns | kernels/prefill_grouped_f16_esimd_v1.hpp:57-59 | a tile covers a cell exactly if it is the cell's tile |
| GroupedMatmul.SelectGroup | kernels/prefill_grouped_f16_esimd_v1.hpp:52-56 | the search finds the one group whose range holds the tile |
| GroupedMatmul.PairedUnique | kernels/prefill_grouped_f16_esimd_v1.hpp:77-78 | the pair-interleaved places of different weights differ |
| GroupedMatmul.BlockDotIs | kernels/prefill_grouped_f16_esimd_v1.hpp:77-82 | a block product adds, term by term, `a[16 r + t] * b[32 (t / 2) + 2 c + t % 2]` |
| GroupedMatmul.LoadRight | kernels/prefill_grouped_f16_esimd_v1.hpp:73-79 | the interleaved block holds every weight at its pair-interleaved place |
| GroupedMatmul.LoadLeft | kernels/prefill_grouped_f16_esimd_v1.hpp:65-71 | the left block holds the rows that exist and zeros |
| GroupedMatmul.DotIs | kernels/prefill_grouped_f16_esimd_v1.hpp:61-83 | the dot product of row m and column c starts at zero and adds, term by term, `x[k m + t] * w[k c + t]` |
| GroupedMatmul.BlockAdds | kernels/prefill_grouped_f16_esimd_v1.hpp:61-83 | an interleaved 16-wide block adds the next 16 terms of the dot product |
| GroupedMatmul.CellIsProduct | kernels/prefill_grouped_f16_esimd_v1.hpp:82-90 | a cell that holds the dot product is, at `y[n m + c]`, the sum of the k products of its two rows |
| GroupedMatmul.Accumulate | kernels/prefill_grouped_f16_esimd_v1.hpp:60-83 | the accumulator ends as the plain dot products of the tile |
| GroupedMatmul.StoreRows | kernels/prefill_grouped_f16_esimd_v1.hpp:85-91 | rows that exist are stored, padded ones are not |
| GroupedMatmul.RunTile | kernels/prefill_grouped_f16_esimd_v1.hpp:56-91 | a tile writes its cells' dot products and nothing else |
| GroupedMatmul.OtherGroup | kernels/prefill_grouped_f16_esimd_v1.hpp:42-46 | a tile of one group owns no cell of another |
| GroupedMatmul.AllTiles | kernels/prefill_grouped_f16_esimd_v1.hpp:50-59 | the tiles cover every cell |
| GroupedMatmul.RunGrid | kernels/prefill_grouped_f16_esimd_v1.hpp:50-92 | in any tile order every `y[n m + c]` is the sum of the products of row m of `x` and row c of `w`, everything past the outputs is untouched |
| GroupedMatmul.Number | kernels/prefill_grouped_f16_esimd_v1.hpp:35-47 | the running total numbers the tiles of consecutive groups, or stops exactly if a group has a bad row count or a null or misaligned pointer |
| GroupedMatmul.Launch | kernels/prefill_grouped_f16_esimd_v1.hpp:27-92 | refuses exactly what the source refuses (queue order, null tables, group count, shape, rows, pointers), before any output changes, and otherwise leaves in every `y[n m + c]` the sum of the products |
| SlotPools.NoDoubleOwner | sglang/patches/memory_pool.py:885-1075 | no mamba slot has two holders: requests, places of a buffer, or the free set |
| SlotPools.MambaConserved | sglang/patches/memory_pool.py:885-1075 | free, held and lent mamba slots add up to the pool |
| SlotPools.SlotsConserved | sglang/patches/memory_pool.py:261-302 | free and held request slots add up to the pool |
| SlotPools.NoSharedSlot | sglang/patches/memory_pool.py:259-302 | a held request slot is in 1..size, not free, and no other request's |
| SlotPools.AllSlotsAt | sglang/patches/memory_pool.py:261-261 | the free list starts as 1, 2, ... up to the size |
| SlotPools.TakeSlotKeeps | sglang/patches/memory_pool.py:287-292 | taking the first free slot keeps the ownership of request slots |
| SlotPools.ReturnSlotKeeps | sglang/patches/memory_pool.py:296-299 | returning a slot keeps it |
| SlotPools.HandOutKeeps | sglang/patches/memory_pool.py:901-905 | handing out free mamba slots keeps one owner for every slot |
| SlotPools.TakeBackKeeps | sglang/patches/memory_pool.py:1027-1029 | taking slots back keeps it |
| SlotPools.ActivateKeeps | sglang/patches/memory_pool.py:905-905 | giving a request its active slot keeps it |
| SlotPools.AttachKeeps | sglang/patches/memory_pool.py:963-987 | giving a request a new buffer keeps it |
| SlotPools.DetachKeeps | sglang/patches/memory_pool.py:1068-1075 | dropping a buffer keeps it |
| SlotPools.SwapKeeps | sglang/patches/memory_pool.py:989-1022 | changing one place of a buffer keeps it and puts the old slot outside |
| SlotPools.HybridPool.constructor | sglang/patches/memory_pool.py:240-261 | an empty pool, with all slots free and rows of zeros, is in order |
| SlotPools.HybridPool.Adopt | sglang/patches/memory_pool.py:893-894 | a slot of the cache becomes a request's active one, which a later allocation leaves alone |
| SlotPools.HybridPool.AllocTrack | sglang/patches/memory_pool.py:963-987 | a buffer whose places, or in the lazy mode the first, are different slots that were free and are not any more, and whose other places are -1; fails exactly if there are too few |
| SlotPools.HybridPool.Advance | sglang/patches/memory_pool.py:947-961 | the next place to track moves on, in the eager mode to the other one; what would be kept is then what was tracked last |
| SlotPools.HybridPool.SetTrackSlot | sglang/patches/memory_pool.py:989-999 | buffer and mapping row change together, to a slot or to -1, in a valid pool |
| SlotPools.HybridPool.DonateTrackSlot | sglang/patches/memory_pool.py:1001-1022 | the slot of the latest state, in the eager mode the place not tracked next, goes outside, the new one takes its place; fails exactly if there is none, changing nothing |
| SlotPools.HybridPool.FreeMamba | sglang/patches/memory_pool.py:1029-1029 | slots in the caller's hands become free again, in an owned pool |
| SlotPools.HybridPool.Free | sglang/patches/memory_pool.py:296-299 | the slot goes to the end of the free list, in a valid pool |
| SlotPools.ToFreeIs | sglang/patches/memory_pool.py:1031-1062 | the row without the place to keep, and exactly when there is such a place |
| SlotPools.HybridPool.FreeMambaCache | sglang/patches/memory_pool.py:1024-1075 | succeeds exactly if there is an active slot and the place to keep, if any, is in the buffer; the active slot and the places not kept become free, the kept one stays outside; what the failures leave, and when the pool stays in order |
| SlotPools.LeavesFree | sglang/patches/memory_pool.py:1024-1075 | free afterwards is what was free, the active slot, and the places of the buffer but the kept one (and, in the lazy mode, but those that hold -1); the kept one is outside |
| SlotPools.KeepBeyondBuffer | sglang/patches/memory_pool.py:1027-1056 | with one place in a buffer any other place to keep fails, when the active slot is free already |
| SlotPools.EmptyPlaceIsFreed | sglang/patches/memory_pool.py:1063-1069 | in the eager mode a place that holds -1 gets -1 into the free slots |
| SlotPools.HybridPool.GrantSlots | sglang/patches/memory_pool.py:283-293 | request slots for a batch from the front of the free list |
| SlotPools.GrantsInOrder | sglang/patches/memory_pool.py:283-293 | the k-th request without a slot gets the k-th free one |
| SlotPools.GrantsFrame | sglang/patches/memory_pool.py:283-293 | nothing else about any request changes |
| SlotPools.HybridPool.AllocSlots | sglang/patches/memory_pool.py:269-294 | the outcomes of the base allocation and the exact condition of each, the assertion on reuse included |
| SlotPools.HybridPool.EquipAll | sglang/patches/memory_pool.py:892-915 | mamba slots and buffers for a batch; succeeds exactly if there are as many free as the batch lacks, and otherwise says at which request it stopped and what each request has, with the slots of every new buffer |
| SlotPools.LeftAreHeld | sglang/patches/memory_pool.py:892-915 | every slot that has left the free slots is held by a request of the batch, as its active one or in its buffer |
| SlotPools.HybridPool.WriteRows | sglang/patches/memory_pool.py:923-929 | the mapping rows of the batch are its own, and those of other requests stay right |
| SlotPools.HybridPool.Alloc | sglang/patches/memory_pool.py:885-930 | the whole allocation: when it is done, out of slots or failed, the new state after each with the slots in every new buffer, what a shortage of mamba slots leaves, when a failed call leaves the free list as it was, and when it leaves the pool valid |
| SlotPools.ShortageBreaksRows | sglang/patches/memory_pool.py:892-927 | a call with one mamba slot for two requests: it fails, the request slots are gone, and a request's row is its own only if the slot is 0 |
| SlotPools.HybridPool.Clear | sglang/patches/memory_pool.py:1077-1089 | all slots are free, all mapping rows are zero, and the pool is in order if no request holds any |
| TreeFold.TreeIsPath | sglang/patches/fused_recurrent.py:919-980 | the single pass has at every node the state of the plain recurrence along its root path |
| TreeFold.PathGoesDown | sglang/patches/fused_recurrent.py:811-824 | a root path starts at the root and goes from parent to child |
| TreeFold.ChainIsSequential | sglang/patches/fused_recurrent.py:919-980 | a chain of parents gives the plain recurrence |
| TreeFold.PickLaneIs | sglang/patches/fused_recurrent.py:925-927 | the one-hot sum picks the parent of the step |
| TreeFold.UpdateLoop | sglang/patches/fused_recurrent.py:919-1001 | outputs, cached states and the final state are those of the tree; nothing else is written; without a cache the parents are ignored |
| TreeFold.RunAll | sglang/patches/fused_recurrent.py:919-1001 | programs that share no place, one after another in any order: each leaves what it leaves alone, and every other place of pool, cache and outputs is as it was |
| TreeFold.ForwardLoop | sglang/patches/fused_recurrent.py:80-121 | the plain kernel's loop computes the plain recurrence |
| TreeRecurrence.WideStep | sglang/patches/fused_recurrent.py:58-106 | lanes beyond the key size hold zeros and do not change the step |
| TreeRecurrence.WideRead | sglang/patches/fused_recurrent.py:105-107 | nor the output |
| TreeRecurrence.StepIs | sglang/patches/fused_recurrent.py:944-957 | every lane of a step in plain arithmetic: the exponential of its gate times the lane, and the key, normalised or not, times beta times what the prediction misses of the value |
| TreeRecurrence.ReadIs | sglang/patches/fused_recurrent.py:944-960 | the output is the sum over the lanes of the new state times the query, normalised or not, times the scale |
| TreeRecurrence.RegistersHold | sglang/patches/fused_recurrent.py:874-961 | a tile's registers hold every row's own recurrence, padded |
| TreeRecurrence.RegistersLeave | sglang/patches/fused_recurrent.py:959-978 | what a tile stores are its rows and outputs, and the cache loses nothing |
| TreeRecurrence.OutAlongPath | sglang/patches/fused_recurrent.py:811-824 | every output is that of the plain recurrence along the node's path |
| TreeRecurrence.ChainIsPlain | sglang/patches/fused_recurrent.py:919-980 | a chain of parents gives what the pass without parents gives |
| TreeRecurrence.UpdateTile | sglang/patches/fused_recurrent.py:919-1001 | the tree kernel on a tile stores the tree recurrence's rows, outputs and last state |
| TreeRecurrence.ForwardTile | sglang/patches/fused_recurrent.py:76-121 | the plain kernel on a tile |
| TreeRecurrence.OneTilePerRow | sglang/patches/fused_recurrent.py:1025-1026 | every row is in exactly one tile |
| TreeGrid.BlockUnique | sglang/patches/fused_recurrent.py:904-937 | different programs of a launch have different blocks |
| TreeGrid.BlockIs | sglang/patches/fused_recurrent.py:904-937 | blocks in plain numbers: tiles times (heads times place plus head) plus tile, with as many tiles as cover the rows |
| TreeGrid.ProgramsApart | sglang/patches/fused_recurrent.py:861-937 | programs of different sequences, heads or tiles share no place, if sequences share none |
| TreeGrid.UpdateGrid | sglang/patches/fused_recurrent.py:861-1001 | in any order of the programs every row of every head of every sequence has the outputs, cached states and last state of its own recurrence, and blocks and outputs of no program keep what they hold |
| CheckpointMerge.Plan | models/gdn_int8_requant.py:176-197 | the first pass drafts header, plan and size, or fails exactly if a conversion does |
| CheckpointMerge.CopyStretch | models/gdn_int8_requant.py:212-219 | the chunked copy is the stretch, or a short read exactly if the file ends inside it |
| CheckpointMerge.WriteAll | models/gdn_int8_requant.py:204-220 | the second pass writes the plan in order |
| CheckpointMerge.PlanWritesBody | models/gdn_int8_requant.py:180-220 | carrying out the plan gives the parts of all entries in order, exactly if the file holds all copied data |
| CheckpointMerge.BodyAt | models/gdn_int8_requant.py:187-197 | every part is where its offsets say |
| CheckpointMerge.MergeKeeps | models/gdn_int8_requant.py:70-78 | untouched tensors load as before; converted ones load as int8 weight and scale |
| CheckpointMerge.LoadIs | models/gdn_int8_requant.py:70-78 | what a reader gets for a name: dtype and shape of its entry, and the bytes between its offsets |
| CheckpointMerge.AllThereExactly | models/gdn_int8_requant.py:190-191 | every tensor has its place in the header if and only if no source tensor is named like a scale |
| CheckpointMerge.ClashLosesScale | models/gdn_int8_requant.py:190-191 | a shard of two tensors whose written scale cannot be loaded |
| CheckpointMerge.Tiles | models/gdn_int8_requant.py:176-199 | every byte of the new data belongs to exactly one tensor |
| CheckpointMerge.TilesExactly | models/gdn_int8_requant.py:176-199 | with no empty part, every byte of the new data belongs to a tensor if and only if no source tensor is named like a scale |
| CheckpointMerge.ScaleNames | models/gdn_int8_requant.py:146-190 | scale names of different weights differ and are never a converted weight's name, names that end in a newline included |
| CheckpointMerge.NewlineName | models/gdn_int8_requant.py:146-190 | a weight whose name ends in a newline is converted and its scale is named with a second dot; without the newline it is the stem with ".weight_scale" |
| CheckpointMerge.PicksExactly | models/gdn_int8_requant.py:146-146 | which names are converted: any prefix, ".linear_attn.", one of the two projections, ".weight", and perhaps a newline |
| CheckpointMerge.GdnOk | models/gdn_int8_requant.py:146-190 | the script's naming meets what the theorems ask of a naming |
| CheckpointMerge.TotalStaysRight | models/gdn_int8_requant.py:226-235 | a right total stays right if and only if the last entry ends at the sum of the sizes, as without gaps |
| CheckpointMerge.GapMiscounts | models/gdn_int8_requant.py:226-235 | a shard with a gap whose new total is two bytes short |
| CheckpointMerge.IndexComplete | models/gdn_int8_requant.py:230-234 | the new index lists every tensor of the new file, keeps what it said, and gives this shard for every new scale |
| CheckpointMerge.IndexIs | models/gdn_int8_requant.py:230-234 | the new index has the old names with their files, and every new scale with this shard |
| CheckpointMerge.Merge | models/gdn_int8_requant.py:165-237 | all outcomes and the exact condition of each, with data, total and index written out |
| CheckpointMerge.LittleBack | models/gdn_int8_requant.py:65-65 | the eight-byte length reads back |
| CheckpointMerge.LittleAt | models/gdn_int8_requant.py:65-65 | byte i of the length is its i-th digit to the base 256, the lowest first |
| CheckpointMerge.HeaderBack | models/gdn_int8_requant.py:157-162 | a packed header reads back, with the data right behind it at a multiple of eight |
| CheckpointMerge.FileKeeps | models/gdn_int8_requant.py:63-78 | from file to file, header bytes included: untouched tensors load as before, converted ones as weight and scale |
| GdnRequant.RequantiseExactly | models/gdn_int8_requant.py:70-93 | a conversion succeeds exactly for two axes with all their bytes, and a column if there is a row |
| GdnRequant.RowCell | models/gdn_int8_requant.py:70-78 | the value at row r and column c is decoded from the two bytes of place columns times r plus c |
| GdnRequant.WeightAt | models/gdn_int8_requant.py:187-187 | the bytes of a weight are its rows' codes, row by row |
| GdnRequant.RequantiseStands | models/gdn_int8_requant.py:84-101 | codes times exact scales are within half a scale of the values; codes times the scales as read back are off by at most 127 times what a scale lost more |
| GdnRequant.MeaningKept | models/gdn_int8_requant.py:183-193 | a converted weight and its scale, loaded from the new file, stand for the weight of the old one in this sense, with the scale as it is on disk |
| GdnRequant.ServedError | models/gdn_int8_requant.py:109-111 | if writing the scale of a row loses at most a share of it, what is served is within one half plus 127 shares of that scale |
| GdnRequant.ScaleFits | models/gdn_int8_requant.py:91-92 | the scale of a row of bf16 values is positive and never too large for bf16 |
| GdnRequant.ServedByBf16 | models/gdn_int8_requant.py:109-111 | with bf16 weights and scales every served value is within half a scale and 127 times the loss of the scale, and within 255/256 of the scale from the smallest normal scale on |
| GdnRequant.TinyRowIsLost | models/gdn_int8_requant.py:184-186 | a row of the smallest bf16 value is served as zero |
| Bf16.StoreLoss | models/gdn_int8_requant.py:186-186 | a number up to the largest is read back up to half a step of the format or one part in 256 |
| Bf16.StoreNearest | models/gdn_int8_requant.py:186-186 | no bf16 number is closer to it |
| Bf16.RoundTies | models/gdn_int8_requant.py:186-186 | of two equally close numbers the one with the even code is taken |
| Bf16.ValueIs | models/gdn_int8_requant.py:109-111 | codes are eight bits of exponent, biased by 127, and seven of fraction |
| Bf16.SmallIs | models/gdn_int8_requant.py:109-111 | with exponent zero a code is its fraction times two to the power of -126 |
| Bf16.DecodeIs | models/gdn_int8_requant.py:109-111 | two bytes, the low one first, the highest bit the sign |
| Bf16.StoreBack | models/gdn_int8_requant.py:186-186 | a bf16 number is read back as it was |
| Bf16.StoredZero | models/gdn_int8_requant.py:186-186 | a positive number is read back as zero exactly up to half a step |
| ConvWindow.ViewInBounds | sglang/patches/memory_pool.py:506-523 | every access through the view is in bounds and lands on column step plus place |
| ConvWindow.SharedExactly | sglang/patches/memory_pool.py:500-502 | the shared columns are exactly those of the windows |
| ConvWindow.AddressUnique | sglang/patches/memory_pool.py:493-505 | different columns are different cells |
| ConvWindow.StoreWindow | sglang/patches/memory_pool.py:506-523 | a store through the view writes one window and nothing else |
| ConvWindow.StoreAll | sglang/patches/memory_pool.py:458-472 | in any order of steps all windows read back if and only if they agree where they overlap |
| ConvWindow.ChainConsistent | sglang/patches/memory_pool.py:99-116 | the windows of a chain agree in every channel, whatever the inputs of the channels |
| ConvWindow.OnlyChainsConsistent | sglang/patches/memory_pool.py:99-116 | with a channel in which all drafts differ, the windows agree if and only if the drafts are a chain |
| ConvWindow.NarrowIsChain | sglang/patches/memory_pool.py:104-106 | with parents first, a tree with at most one child a node is a chain, and the other way around |
| ConvWindow.BranchBreaks | sglang/patches/memory_pool.py:107-109 | for any larger topk there are a tree and drafts whose windows do not agree |
| ConvWindow.DedupExactly | sglang/patches/memory_pool.py:99-116 | the guard on topk holds if and only if the shared layout can hold the windows of all drafts that topk allows |
| Offload.CopyOut | sglang/patches/memory_pool.py:1480-1496 | the host gets the rows in chunks |
| Offload.CopyIn | sglang/patches/memory_pool.py:1498-1513 | the chunks go to the new indices and nowhere else; passes exactly if the lengths fit |
| Offload.ShortReloadPasses | sglang/patches/memory_pool.py:1498-1513 | four rows saved in chunks of two, reloaded at two indices, pass |
| Offload.Save | sglang/patches/memory_pool.py:1480-1496 | all layers' rows are copied |
| Offload.Restore | sglang/patches/memory_pool.py:1498-1513 | whatever the buffers hold meanwhile, every layer has the saved rows at the new indices |
| Offload.PagesDistinct | sglang/patches/memory_pool.py:2863-2869 | distinct aligned indices have distinct pages |
| Offload.PagesAre | sglang/patches/memory_pool.py:2846-2849 | a page for every page-size-th index, and at least one page at a time |
| Offload.TokensFindTheirPage | sglang/patches/memory_pool.py:2838-2843 | every token finds its index entry at its new place |
| Offload.SaveAll | sglang/patches/memory_pool.py:2838-2861 | rows and pages are copied |
| Offload.RestoreAll | sglang/patches/memory_pool.py:2863-2882 | rows and pages are restored |
| Offload.SaveAndReload | sglang/patches/memory_pool.py:2838-2882 | whatever the buffers are used for in between, every layer has its rows and every token its index entry at the new indices |
| ExpertPlan.Entries | kernels/mirror_t1_staging_harness_v1.cpp:42-42 | the entries of a group are its expert's positions in order |
| ExpertPlan.Tier | kernels/mirror_t1_staging_harness_v1.cpp:34-44 | one tier's groups: contiguous, one expert each, its blob; fails exactly if a blob is missing |
| ExpertPlan.MakePlan | kernels/mirror_t1_staging_harness_v1.cpp:29-47 | every position is one entry, device groups come first; fails exactly if some expert is nowhere |
| ExpertPlan.PackReads | kernels/mirror_t1_staging_harness_v1.cpp:14-16 | the regions of the plan do not overlap: every word reads back |
| ExpertPlan.Layout | kernels/mirror_t1_staging_harness_v1.cpp:14-16 | where the regions are, in plain numbers |
| ExpertPlan.PackIsPlan | kernels/mirror_t1_staging_harness_v1.cpp:41-46 | the words say what the plan says, 64-bit pointers included |
| ExpertPlan.WordsSay | kernels/mirror_t1_staging_harness_v1.cpp:59-64 | the words of a tier give the bounds of its groups, and the group of an entry points to the blob of its expert |
| ExpertPlan.EchoTier | kernels/mirror_t1_staging_harness_v1.cpp:59-64 | a thread finds its entry in one group of a tier, or in none, and copies the byte that group points to |
| ExpertPlan.EchoThread | kernels/mirror_t1_staging_harness_v1.cpp:57-65 | a thread writes one byte, that of the expert of its entry's position |
| ExpertPlan.Echo | kernels/mirror_t1_staging_harness_v1.cpp:56-66 | in any thread order every position gets the blob of its own expert |
| ExpertPlan.Run | kernels/mirror_t1_staging_harness_v1.cpp:29-66 | plan and interpreter together deliver every blob, or fail exactly if one is missing |
| AllGather.SumIsStack | sglang/patches/push_ar_xpu.py:346-349 | the sum of zero-padded buffers stacks the ranks' tensors |
| AllGather.FlatSplit | sglang/patches/push_ar_xpu.py:351-353 | leading indices choose a block, the others a place in it |
| AllGather.MovedAt | sglang/patches/push_ar_xpu.py:351-351 | moving the rank axis brings each rank's block behind those of lower ranks |
| AllGather.MovedIndex | sglang/patches/push_ar_xpu.py:351-351 | the element at (rank, indices before the axis, the others) of the stack is at (indices before the axis, rank, the others) afterwards, at every index of every shape |
| AllGather.GatherIsConcat | sglang/patches/push_ar_xpu.py:342-354 | the result is the concatenation along the axis, at every index of every shape |
| AllGather.GatherAxis | sglang/patches/push_ar_xpu.py:342-342 | a negative dimension means the axis counted from the end |
| BraceMatch.MatchBrace | evals/abfast/zigtests.py:12-41 | returns just past the first brace that closes the block for the character-by-character lexer, or fails exactly if there is none |
| BraceMatch.LineEnd | evals/abfast/zigtests.py:18-25 | the jump to the end of a line is what the lexer does character by character |
| BraceMatch.QuoteEnd | evals/abfast/zigtests.py:26-33 | so is the jump over a string or character, escapes included |
| BraceMatch.InsideWhileOpen | evals/abfast/zigtests.py:34-39 | until then the lexer is inside at least one brace |
| RowReductions.StrideCovers | kernels/xpu_shard_top1.cpp:49-49 | every column is one lane's, once |
| RowReductions.LaneTop | kernels/xpu_shard_top1.cpp:47-55 | a lane finds the best of its columns and the first that has it |
| RowReductions.Top1 | kernels/xpu_shard_top1.cpp:43-68 | the lanes together find the maximum of the row and its lowest index, minus infinities included |
| RowReductions.LaneMax | kernels/int8_quant_xpu.cpp:74-79 | a lane finds the greatest magnitude of its columns |
| RowReductions.Round | kernels/int8_quant_xpu.cpp:85-89 | a round between barriers gives the same in any thread order |
| RowReductions.Tree | kernels/int8_quant_xpu.cpp:84-90 | halving rounds over a power of two leave the maximum in the first place |
| RowReductions.TreeAbsMax | kernels/int8_quant_xpu.cpp:74-92 | the tree finds the greatest magnitude of the row |
| RowReductions.GroupAbsMax | kernels/int8_quant_common.hpp:71-77 | so does the group reduction, for any number of lanes |
| RowReductions.HalfScale | kernels/int8_quant_common.hpp:91-99 | a value within 127 scales is coded within -127..127 and kept up to half a scale |
| RowReductions.RintIsNear | models/gdn_int8_requant.py:93-93 | the code is the nearest whole number, of two the even one, cut at 127 |
| RowReductions.Quantize | kernels/int8_quant_xpu.cpp:98-107 | the strided lanes code every column |
| RowReductions.QuantizeByTree | kernels/int8_quant_xpu.cpp:63-108 | scale and codes of the tree quantiser, error at most half a scale |
| RowReductions.QuantizeByGroup | kernels/int8_quant_common.hpp:56-105 | the same for the group quantiser with its own floor |
| RowReductions.RowCodesFaithful | models/gdn_int8_requant.py:84-101 | the same for a row of the checkpoint's quantiser |
| RowReductions.RowScaleIs | models/gdn_int8_requant.py:91-92 | the scale of a row is its greatest magnitude divided by 127, or one for a row of zeros |
| RowReductions.ChooseByDoubling | kernels/int8_quant_xpu.cpp:44-51 | a power of two from 32 up to the limit, no larger than it has to be |
| RowReductions.ChooseByRounding | kernels/int8_quant_common.hpp:115-122 | whole sub-groups, at most 512 lanes, no more than it takes for 32 columns a lane |

## Left out

- The eager and the event-based all-reduce paths, which reuse one scratch region, and setup after teardown.
- Socket, shared-memory and handle exchange, environment switches, and the installation of the patches.
- Rounding, NaN, infinities, signed zero, and the dtype in which states are stored; sums are exact reals, and a scale is rounded once, to bf16, where the source rounds it to 32 bits first.
- The sum of squares inside the fused kernel, its residual and weights, and its vector geometry: a word of the result is one function of the row of sums, the column, and which row, call and rank it is for.
- The instruction that multiplies 8x16 by 16x16 blocks is taken to do what its comment says.
- The mamba slot allocator and the int8 checkpoint pool are sets of free slots; which free slots are picked is open.
- SlotPools.HybridPool.GrantSlots: takes the slots one at a time, where the source cuts them off the list first; the state afterwards is the same.
- SlotPools.HybridPool.Alloc: asks for different requests in a batch, as the source does silently: a repeated one would be counted twice and a slot lost.
- TreeGrid.UpdateGrid: addresses pool, cache and outputs by the block that a tile of a head has there; the order of the elements inside a block and the addresses of the inputs are left out. It asks for sequences with different places in the pool and in the cache, as two that shared one would race.
- SlotPools.HybridPool.FreeMambaCache: asks for a request slot where there is an extra buffer, as the source does silently when it looks up the row.
- TreeFold.UpdateLoop: asks for parents before their children, which is how the trees are numbered; otherwise a stale cache entry would be read.
- The JSON text of a header, which only has to read back with spaces at the end, the metadata entry, the sort of the entries, hard links and notes of the merge.
- CheckpointMerge.Merge: asks for entries that end no earlier than they start.
- The order of key and value chunks within a layer on reload: a layer's keys are restored before its values.
- Staging and rebasing of fetched blobs, and the device planner that is compared with the plan: their code is not part of this model.
- The conditions under which the gather path is taken (capture, two ranks, contiguous input).
- The functions that cut test blocks and declarations out of Zig files around the brace matcher.
- Channel shifts of the fused convolution, quantisation routing, evaluation drivers and fixtures.

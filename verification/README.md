# Expert streaming: a verified model

A mixture-of-experts server keeps some experts on the GPU and the rest in host memory. Each layer
predicts which absent experts it will want, allocates a few landing slots to them, and streams
their weights into those slots while other work runs. Around that path the repository has a
residency simulator, a cache-miss model, a substitution rule, a prediction inbox, a streaming cost
policy, a weight repacker and busy-time measurements. This project models them and proves what they
promise.

## What is modelled

**The prefetch path.** `RouterSelection.dfy` is the warp-per-token selection and its tensor
reference, `RouterMeaning.dfy` what both choose, read off the logits; `WarpReduce.dfy` the
shuffle-tree argmax both it and the fill loop rest on; `PredFused.dfy` the persistent slot
allocator, updating its tables in place, `ReuseScores.dfy` what its scores and counters come to;
`PredSelect.dfy` the simpler kernel it replaced. `GridStores.dfy` treats a grid-stride launch as a
set of stores in any order, `ExpertTilings.dfy` and `ExpertStream.dfy` give the four gather kernels,
`GatherLayout.dfy` and `GatherReference.dfy` the checkpoint layout they must produce,
`GatherProbe.dfy` the older and flatter forms of one of them. `PrefetchPipeline.dfy` runs allocator
and gather together for any number of passes over slots that are never cleared, `StaleSlots.dfy`
says in which sequences of reuse modes that is safe, and `SlotRuns.dfy` and `DemandCoverage.dfy` say
what a launch covers.

**Around it.** `TorchSelect.dfy`, `AdaptiveCache.dfy`, `ResidencySettles.dfy` and
`AdaptiveSimulator.dfy` are the adaptive residency policies, `LruTrace.dfy` the miss model,
`Substitution.dfy` and `SubstitutionSums.dfy` the nearest-resident rule and its weights,
`ChainInbox.dfy` the protocol that hands predictions forward through a pass, `HybridPolicy.dfy` the
streaming cost model with its optimiser and bisection, `StreamingCost.dfy` that model in the
measured constants alone, `GptqRepack.dfy` the four-bit repack, and `BusyIntervals.dfy` the merging
of event intervals.

Sizes the kernels fix (256 experts, 16 slots, 32 lanes) are parameters here, all but the 64 picks a
token is cut to: any lane count that is a power of two, any number of slots, experts, tokens,
partitions and thread blocks. Weights are opaque values, scores and times are reals, the sigmoid is
any strictly increasing function into (0, 1), and the scale conversion to 16 bits is any function.

## Where the code and its comments part

- A pass with reuse off overwrites slots without recording it. Passes in modes 0 and 1 serve every
  expert from its own bytes regardless (`PrefetchPipeline.LowModesServe`), and a pass in mode 2 does
  exactly when the slots it keeps hold what the tables say (`PrefetchPipeline.PassServesIff`). A
  sequence of modes is safe from a fresh layer if and only if reuse is never acted on after it has
  been on and off again (`StaleSlots.ServesAlwaysIff`); otherwise one slot and two experts are
  enough to route an expert to the other's bytes (`StaleSlots.StaleRun`).
- Acting on reuse never covers fewer experts (`SlotRuns.ReuseKeepsCoverage`), but it can cover less
  demand (`SlotRuns.ReuseCanServeLessDemand`). It covers at least as much exactly when the launch
  skips, or no kept expert is outweighed by more missing ones than there are slots to refill
  (`DemandCoverage.ReuseServesDemandIff`).
- The reference interleave accepts any group count; the scale kernels stay inside their slot
  exactly when it is a multiple of four (`GatherLayout.ScalesStayInSlot`).
- `break_even_cpu_ms_per_layer` says an infinite answer means that no CPU work would pay. With a
  working link some always does as soon as one whole expert is routed; the answer means only that
  the search's upper end does not pay (`HybridPolicy.InfiniteBreakEvenMeans`).
- The policy's tests say that neither a faster link nor more CPU work ever streams fewer experts. For
  the link that holds (`HybridPolicy.ChosenGrowsWithLink`). For CPU work it holds of the exact
  minimiser (`HybridPolicy.LeastMinimiserGrowsWithCpu`) and of streaming at all, but the tolerance in
  `choose_k` lets the count drop, in one example from seven to four
  (`HybridPolicy.ChosenCountCanDrop`). It drops exactly when no count from the lighter layer's up
  undercuts, in the heavier layer, the best of the smaller ones by more than the tolerance
  (`HybridPolicy.CountDropsIff`), so never into a layer where no larger count is cheaper than a
  smaller one by the tolerance or less (`HybridPolicy.ChosenGrowsWithoutTies`).
- `_resident_ids` says it renormalises; it does not. Its weights come to the kept weights plus the
  sigmoids of the best free scores, one for each dropped slot (`SubstituteSums.SumIsCarried`), which
  need not be one (`SubstituteSums.OutOfPlaceMissesOne`); the two forms of the routine agree exactly
  when that sum is one or the row is all zero (`SubstituteSums.FormsAgreeIff`).
- The residency simulator's options accept a negative bonus plus cost. Its refreshes come to rest on
  unchanging scores, whatever order topk gives ties, if and only if that margin is not negative
  (`ResidencySettles.AlwaysSettlesIff`).

## Model

| member | source | states |
|---|---|---|
| `WarpReduce.ArgmaxUnique` | bench/pred_fused_kernel.py:69-71 | there is only one (value, lowest index) argmax, so the specification leaves the kernels no choice |
| `WarpReduce.ArgmaxMerge` | bench/pred_fused_kernel.py:89 | keeping the better of two argmaxes gives the argmax of the union, the sentinel index included |
| `WarpReduce.StridedScan` | bench/pred_fused_kernel.py:81-85 | a thread's strided scan finds the argmax of exactly the positions congruent to it |
| `WarpReduce.ShuffleArgmax` | bench/pred_fused_kernel.py:86-90 | for any power-of-two width the shuffle tree leaves lane 0 the argmax over all lanes, although out-of-range lanes read themselves |
| `WarpReduce.WarpArgmax` | bench/pred_fused_kernel.py:196-207 | per-lane scan plus shuffle tree equals the argmax of the whole row |
| `WarpReduce.BlockArgmax` | bench/pred_fused_kernel.py:77-105 | the two-level block reduction finds the argmax of the whole array for any thread count and warp width |
| `WarpReduce.ShuffleSum` | bench/pred_fused_kernel.py:248-249 | the shuffle tree adds up every lane exactly once into lane 0 |
| `TokenChoice.TopUnique` | bench/pred_fused_kernel.py:192-219 | a top-n list under lower-index ties is unique |
| `TokenChoice.TokenPicksDistinct` | bench/pred_fused_kernel.py:208-234 | a token never picks the same expert twice |
| `RouterKernel.WarpTopK` | bench/pred_fused_kernel.py:192-219 | the consume-and-broadcast loop yields the router's top-k in order with each pick's raw score, and -1 once the row is exhausted |
| `RouterKernel.TakeTopP` | bench/pred_fused_kernel.py:220-236 | the second loop takes the top-P of those picks by raw score and adds one to the histogram for each non-resident one, nothing else |
| `RouterSelection.WarpSelect` | bench/pred_fused_kernel.py:179-236 | one warp adds exactly its token's non-resident picks to the shared histogram |
| `RouterSelection.SelectDemand` | bench/pred_fused_kernel.py:171-237 | in whatever order the warps run, the histogram counts for each non-resident expert the tokens that picked it |
| `RouterSelection.DemandIsNonResident` | bench/pred_fused_kernel.py:233 | demand is positive exactly for non-resident experts some token picked |
| `RouterSelection.PlainTopK` | bench/pred_fused_kernel.py:475-477 | the reference's plain top-k agrees with the kernel's floored scan exactly when k entries lie above the floor |
| `RouterSelection.DivideKeepsOrder` | bench/pred_fused_kernel.py:220-222 | renormalising by a positive sum changes no comparison, which is why the kernel drops it |
| `RouterSelection.PathsAgree` | bench/pred_fused_kernel.py:475-480 | top-k, renormalise, top-P of the reference gives the very experts the kernel takes |
| `RouterSelection.IndexAdd` | bench/pred_fused_kernel.py:482-484 | the reference's scatter-add counts each occurrence of a non-resident expert |
| `RouterSelection.FlatCounts` | bench/pred_fused_kernel.py:482-484 | counting occurrences in the flattened picks equals counting tokens, because picks are distinct |
| `RouterSelection.HistogramsAgree` | bench/pred_fused_kernel.py:467-484 | sigmoid, bias, top-k, renormalise, top-P and scatter-add of the reference give the kernel's histogram, whenever each token has top-k choices above the floor and the top-k fits the kernel's list |
| `RouterSelection.DemandTotal` | bench/pred_fused_kernel.py:482-485 | total demand equals the number of non-resident picks |
| `RouterMeaning.AsksIsTaken` | bench/pred_fused_kernel.py:180-236 | a token's picks are the one set chosen in two stages: by sigmoid of the logit plus bias, at most 64, then among those by the sigmoid alone, lower id or the router's order on equality |
| `RouterMeaning.DemandMeans` | bench/pred_fused_kernel.py:171-237 | a histogram is the kernel's if and only if it counts, for each non-resident expert, the tokens whose logits choose it so |
| `FusedKernel.Allocator.CountWanted` | bench/pred_fused_kernel.py:245-249 | the lane counts and shuffle sum give the number of distinct wanted experts |
| `FusedKernel.Allocator.Hit` | bench/pred_fused_kernel.py:270-278 | the duplicate scan passes a slot exactly when it is the first to hold its wanted expert |
| `FusedKernel.Allocator.KeepPass` | bench/pred_fused_kernel.py:264-292 | the keep pass counts the reusable slots in every mode, and in mode 2 alone routes their experts and clears their selectors |
| `FusedKernel.Allocator.DropKept` | bench/pred_fused_kernel.py:295-306 | after removing kept experts the register copy holds exactly the demand still missing |
| `FusedKernel.Allocator.RankSlots` | bench/pred_fused_kernel.py:316-329 | the selection sort lists exactly the unkept slots, weakest (score, slot) first |
| `FusedKernel.StrongestRemaining` | bench/pred_fused_kernel.py:334-350 | the argmax of the remaining demand is the next in the strongest-first ranking, and finds nothing only when all are served |
| `FusedKernel.Allocator.FillPass` | bench/pred_fused_kernel.py:331-363 | the loop publishes, slot by slot in the given order, the strongest missing experts in ranked order, or nothing when skipping |
| `FusedKernel.Allocator.RecordHold` | bench/pred_fused_kernel.py:369-372 | a slot's record changes only when something was fetched into it and reuse is on |
| `FusedKernel.Allocator.AgeScores` | bench/pred_fused_kernel.py:379-389 | kept slots gain HIT up to CAP, fetched ones start at GRACE, others lose one down to zero |
| `SlotAllocation.Fetches` | bench/pred_fused_kernel.py:331-363 | what is fetched is the strongest part of the missing demand, as long as slots and demand allow, empty when skipping |
| `SlotAllocation.Evictions` | bench/pred_fused_kernel.py:307-329 | the eviction order ranks every refillable slot and no other |
| `FusedKernel.ChoicesUnique` | bench/pred_fused_kernel.py:307-363 | rankings with those properties are unique, so the kernel's lists are the specified ones |
| `FusedKernel.PassesPublish` | bench/pred_fused_kernel.py:264-363 | the keep pass followed by the fill pass publishes sel, both masks and index as specified, entry by entry |
| `FusedKernel.Allocator.Choose` | bench/pred_fused_kernel.py:241-363 | kept slots, fetch count, published outputs and index are those of the specification over the tables found |
| `FusedKernel.Allocator.Allocate` | bench/pred_fused_kernel.py:239-397 | one launch turns the carried tables and outputs into exactly one specified step: hold, scores, index, counters, sel and masks |
| `ReuseScores.ScoreAfter` | bench/pred_fused_kernel.py:379-389 | one launch: a reused slot gains four up to 1024, a fetched one ends at two whatever it had, any other loses one down to zero, and with reuse off none moves |
| `ReuseScores.ScoreCountsUses` | bench/pred_fused_kernel.py:379-389 | over any launches a fetch, then m reuses, then n idle launches leave max(0, min(2 + 4m, 1024) - n) |
| `ReuseScores.LowerScoreEvictedFirst` | bench/pred_fused_kernel.py:308-329 | of two slots not reused the one with the lower score, or the lower number on equal scores, is refilled first |
| `ReuseScores.ReuseProtects` | bench/pred_fused_kernel.py:308-389 | of two slots with equal scores from 1 to 1023, one reused and one idle, the idle one is first in the next eviction order |
| `ReuseScores.CountersMean` | bench/pred_fused_kernel.py:391-395 | the counters rise by the slots filled, the experts wanted, one, one if no slot was filled, and the wanted experts already held |
| `ReuseScores.FillsAsManyAsFit` | bench/pred_fused_kernel.py:253-363 | in modes 0 and 1 min(slots, wanted) slots are filled, and none if selective with more wanted than slots |
| `SlotRuns.KeepSizes` | bench/pred_fused_kernel.py:269-306 | kept slots and kept experts correspond one to one, and slots and demand split between kept and rest |
| `SlotRuns.KeptOnce` | bench/pred_fused_kernel.py:269-279 | even from a hold with duplicates there are exactly as many reusable slots as distinct wanted experts held |
| `SlotRuns.SelectedIsFetched` | bench/pred_fused_kernel.py:350-361 | sel names exactly the fetched experts, all wanted, none of them kept |
| `SlotRuns.FetchesDistinct` | bench/pred_fused_kernel.py:295-306 | no expert is fetched twice, and none that a kept slot already holds |
| `SlotRuns.LandingSlot` | bench/pred_fused_kernel.py:284-289 | a covered expert's index is a landing slot that either receives it now or held it and receives nothing |
| `SlotRuns.CoveredIsHeld` | bench/pred_fused_kernel.py:365-372 | after a step with reuse on, a covered expert's index names a slot whose hold entry is that expert |
| `SlotRuns.RoutesApart` | bench/pred_fused_kernel.py:272-358 | in every mode distinct landed experts have distinct indices |
| `SlotRuns.EvictsWeakest` | bench/pred_fused_kernel.py:308-315 | an overwritten slot is weaker than any refillable slot spared, and stronger demand sits on the weaker slot |
| `SlotRuns.FetchesTopDemand` | bench/pred_fused_kernel.py:334-350 | every fetched expert outranks every wanted expert left uncovered, and none is left while a refillable slot is idle |
| `SlotRuns.LandedSize` | bench/pred_fused_kernel.py:286-354 | the landed mask has as many entries as kept slots plus fetches |
| `SlotRuns.ReuseKeepsCoverage` | bench/pred_fused_kernel.py:253-293 | mode 2 covers min(slots, wanted) like mode 1 when not skipping, and exactly the reusable ones against nothing when skipping, so never fewer |
| `SlotRuns.ReuseCanServeLessDemand` | bench/pred_fused_kernel.py:281-306 | a concrete call where acting on reuse keeps a demand-1 expert and loses a demand-3 one |
| `DemandCoverage.HeaviestCarriesMost` | bench/pred_fused_kernel.py:334-350 | a choice that leaves out nothing heavier than what it took carries the most demand of its size |
| `DemandCoverage.MeasuringTakesHeaviest` | bench/pred_fused_kernel.py:331-363 | with reuse only measured, what lands is such a choice among the wanted |
| `DemandCoverage.ActingTakesHeaviest` | bench/pred_fused_kernel.py:281-363 | acting on it, so is what lands, if no kept expert is outweighed by more missing ones than there are slots to refill |
| `DemandCoverage.ReuseServesDemandIff` | bench/pred_fused_kernel.py:241-363 | from the same tables and histogram mode 2 lands at least the demand mode 1 lands if and only if the launch skips or that condition holds, both readable before the launch |
| `SlotRuns.ScoresStayInRange` | bench/pred_fused_kernel.py:379-389 | scores in 0..1024 stay in 0..1024 |
| `SlotRuns.ModeTwoKeepsDistinct` | bench/pred_fused_kernel.py:295-306 | in mode 2 a hold without duplicates keeps none |
| `SlotRuns.HoldStaysTruthful` | bench/pred_fused_kernel.py:365-372 | hold follows the slots' physical contents if and only if reuse is on or the tables found already record every expert to fetch in the slot it would go to |
| `PredSelect.Selector.Accumulate` | bench/pred_select_kernel.py:73-82 | the histogram counts predictions of non-resident experts, ids out of range ignored |
| `PredSelect.Selector.Strongest` | bench/pred_select_kernel.py:104-108 | the serial scan is the same lowest-index argmax |
| `PredSelect.Selector.Fill` | bench/pred_select_kernel.py:103-117 | consuming the histogram in place picks the strongest-first ranking, one slot each |
| `PredSelect.Selector.Launch` | bench/pred_select_kernel.py:69-124 | the kernel's sel, masks, index and counters are those of the specified selection |
| `PredSelect.EqualScoresEvictInOrder` | bench/pred_fused_kernel.py:313-315 | with equal scores eviction goes by slot number |
| `PredSelect.FusedRefinesSelect` | bench/pred_select_kernel.py:89-124 | with reuse off, equal scores and base 0 the fused kernel publishes the same sel, masks, index and first four counters |
| `GridStores.TripsAre` | bench/expert_stream_kernels.py:75-78 | a thread's grid-stride trips are exactly the positions congruent to it below the total |
| `GridStores.OneThreadPerTrip` | bench/expert_stream_kernels.py:75-78 | every position is a trip of one thread only |
| `GridStores.Launch.TouchesOwnerOnly` | bench/expert_stream_kernels.py:61-79 | an element of a slot is written by one store of the whole launch and no other |
| `GridStores.Launch.ExactlyOnce` | bench/expert_stream_kernels.py:61-168 | in any interleaving every element of a selected slot is written exactly once |
| `GridStores.Launch.AnyOrder` | bench/expert_stream_kernels.py:61-168 | any interleaving leaves each selected slot the assembly of its sources and each idle slot as it was |
| `GridStores.Tiling.AssemblyUnique` | bench/expert_stream_kernels.py:61-168 | the stores determine the whole slot |
| `ExpertTilings.RunsValid` | bench/expert_stream_kernels.py:61-79 | the w13 weight stores partition a slot, for every partition count |
| `ExpertTilings.BandsValid` | bench/expert_stream_kernels.py:97-117 | the row-strided w2 stores partition a slot |
| `ExpertTilings.RowScalesValid` | bench/expert_stream_kernels.py:122-144 | the interleaved w13 scale stores partition a slot when the group count is a multiple of four |
| `ExpertTilings.GroupScalesValid` | bench/expert_stream_kernels.py:148-168 | likewise for w2 scales, partitions concatenated along the groups |
| `ExpertStream.W13WeightsThread` | bench/expert_stream_kernels.py:61-79 | a thread of k_w13_weights performs exactly its own trips' stores, none on an empty slot |
| `ExpertStream.W2WeightsThread` | bench/expert_stream_kernels.py:97-117 | a thread of k_w2_weights does, with the one-divide row arithmetic |
| `ExpertStream.W13ScalesThread` | bench/expert_stream_kernels.py:122-144 | a thread of k_w13_scales does, casting and interleaving as it goes |
| `ExpertStream.W2ScalesThread` | bench/expert_stream_kernels.py:148-168 | a thread of k_w2_scales does |
| `ExpertStream.EntryInjective` | bench/expert_stream_kernels.py:52-57 | distinct (region, partition, expert) triples have distinct table entries |
| `ExpertStream.BuildPointerTable` | bench/expert_stream_kernels.py:343-361 | the nested loops fill every entry with its address, zero for experts without host memory |
| `ExpertStream.TableReads` | bench/expert_stream_kernels.py:54-57 | what the kernels read through the table is the address the host put in for that region, partition and expert |
| `GatherLayout.InterleaveAt` | bench/gather_vs_checkpoint.py:32-36 | the reshape-permute-reshape puts entry (row, group) where the kernels' address formula says |
| `GatherLayout.ScalesStayInSlot` | bench/expert_stream_kernels.py:119-144 | the formula stays inside the slot if and only if the group count is a multiple of four |
| `GatherLayout.LastScaleEscapes` | bench/expert_stream_kernels.py:136-142 | otherwise the last scale lands outside it |
| `GatherLayout.FlatOfConcat` | bench/gather_vs_checkpoint.py:67-68 | concatenating rows of matrices flattens to concatenating their flats |
| `ExpertTilings.Slot4OfUn` | bench/expert_stream_kernels.py:142 | every place in an interleaved slot comes from one (row, group) |
| `GatherReference.HostGeometryFits` | bench/expert_stream_kernels.py:180-218 | under the divisibility the host relies on, its derived sizes are consistent, half a byte for each int4 value in rows of all three tensors |
| `GatherReference.ShardBounds` | bench/gather_vs_checkpoint.py:63-76 | the halved and grouped shard bounds are exact |
| `GatherReference.W13Reference` | bench/gather_vs_checkpoint.py:65-68 | what k_w13_weights assembles is the reference's gate rows then up rows |
| `GatherReference.W2Reference` | bench/gather_vs_checkpoint.py:70-73 | what k_w2_weights assembles is the reference's column shard of down |
| `GatherReference.W13ScaleReference` | bench/gather_vs_checkpoint.py:75 | what k_w13_scales assembles is the reference's interleaved gate and up scales |
| `GatherReference.W2ScaleReference` | bench/gather_vs_checkpoint.py:76-77 | what k_w2_scales assembles is the reference's interleaved down scales |
| `GatherLaunch.Gather.StreamExperts` | bench/expert_stream_kernels.py:170-219 | after the four launches, in any order of threads, every selected slot is the reference expert in all four buffers and every other slot is untouched |
| `GatherProbe.VectorMatchesByteLoop` | bench/gather_kernel_probe.py:64-119 | the 16-byte row copy leaves the same memory as the byte loop for every partition count, block count and interleaving |
| `GatherProbe.FlatMatchesVector` | bench/gather_kernel_probe.py:121-138 | with one partition so does the flat copy |
| `GatherProbe.W2FlatThread` | bench/gather_kernel_probe.py:124-138 | a thread of k_w2_flat performs exactly its own trips' stores |
| `PrefetchPipeline.TurnKeepsTruth` | bench/pred_fused_kernel.py:121-125 | allocator then gather keeps hold naming the bytes each slot really has |
| `PrefetchPipeline.PassServesIff` | bench/pred_fused_kernel.py:272-363 | from any state a pass serves all it lands from the experts' own bytes if and only if it routes nowhere or every slot it keeps already holds the bytes of the expert it is kept for |
| `PrefetchPipeline.LowModesServe` | bench/pred_fused_kernel.py:281-363 | so in modes 0 and 1 it always does |
| `PrefetchPipeline.EveryLandedExpertIsServed` | bench/pred_fused_kernel.py:241-397 | on every pass of every run from a fresh layer that is in mode 0 or 1, or before which reuse was never turned off after being on, each landed expert is non-resident, its index is a landing slot holding exactly its reference bytes, and no two share a slot |
| `PrefetchPipeline.ModeTwoRunStaysDistinct` | bench/pred_fused_kernel.py:295-306 | over every mode-2 run no expert ever sits in two slots |
| `PrefetchPipeline.RunScoresStayInRange` | bench/pred_fused_kernel.py:379-389 | scores stay in range over every run |
| `PassRuns.StepExists` | bench/pred_fused_kernel.py:241-397 | the allocator's step has a result on all tables and demand |
| `PassRuns.SomeRun` | bench/pred_fused_kernel.py:112-397 | whatever passes are asked for there is a run that makes them |
| `StaleSlots.StaleRun` | bench/pred_fused_kernel.py:281-372 | when reuse is on, then off, and later acted on, there is a run from a fresh layer that ends with an expert landed, its index the slot, and the slot holding another expert's reference bytes |
| `StaleSlots.ServesAlwaysIff` | bench/pred_fused_kernel.py:281-372 | given two experts whose layouts differ, every run in a sequence of modes serves everything it lands if and only if the sequence never acts on reuse after it was on and off again |
| `TorchSelect.Sorted` | experiments/expert_footprint_top2_vs_top8/simulate_cache.py:163-166 | argsort of a selection: distinct members in key order, nothing passed over for worse, ties free |
| `TorchSelect.TopK` | experiments/expert_footprint_top2_vs_top8/simulate_cache.py:159 | topk over all positions likewise |
| `ResidencyRefresh.RefreshKeepsCount` | experiments/expert_footprint_top2_vs_top8/simulate_cache.py:155-173 | a refresh exchanges equally many both ways, exactly min(max_swaps, wanted outsiders) |
| `ResidencyRefresh.FullRefreshInstallsTop` | experiments/expert_footprint_top2_vs_top8/simulate_cache.py:155-173 | with swaps to spare the residents become the wanted top set |
| `ResidencyRefresh.BestSwapsFirst` | experiments/expert_footprint_top2_vs_top8/simulate_cache.py:163-172 | the best wanted outsiders come in and the worst unwanted residents go: none left waiting scores above one that came, none spared below one that went |
| `ResidencyRefresh.SwapNeedsMargin` | experiments/expert_footprint_top2_vs_top8/simulate_cache.py:149-153 | whoever comes in outscores whoever goes out by the bonus plus the cost |
| `ResidencyRefresh.RefreshGain` | experiments/expert_footprint_top2_vs_top8/simulate_cache.py:149-173 | each swap raises the residents' total raw score by at least that margin |
| `ResidencyRefresh.SwapsAreBounded` | experiments/expert_footprint_top2_vs_top8/simulate_cache.py:149-173 | on frozen scores the swaps of any number of refreshes are bounded by what the total can still gain |
| `ResidencyRefresh.QuietMeansSettled` | experiments/expert_footprint_top2_vs_top8/simulate_cache.py:155-173 | a refresh that swaps nothing leaves no outsider ahead of a resident by more than the margin |
| `ResidencySettles.QuietStays` | experiments/expert_footprint_top2_vs_top8/simulate_cache.py:155-173 | once a refresh swaps nothing the next, asking topk the same question, swaps nothing either |
| `ResidencySettles.EvenSwaps` | experiments/expert_footprint_top2_vs_top8/simulate_cache.py:149-173 | without a margin the wanted set never changes, and each swap brings in one more of it |
| `ResidencySettles.RunSettles` | experiments/expert_footprint_top2_vs_top8/simulate_cache.py:149-173 | with a margin of zero or more, from any residents, refreshes on frozen scores come to rest with no outsider ahead of a resident by more than the margin |
| `ResidencySettles.SwitchesForEver` | experiments/expert_footprint_top2_vs_top8/simulate_cache.py:149-173 | with a negative margin two equal experts replace each other at every refresh |
| `ResidencySettles.AlwaysSettlesIff` | experiments/expert_footprint_top2_vs_top8/simulate_cache.py:149-173 | for every topk that is a function of its argument and every positive swap limit (a limit of zero never swaps), refreshes always come to rest if and only if bonus plus cost is not negative |
| `AdaptivePolicy.FreshLayer` | experiments/expert_footprint_top2_vs_top8/simulate_cache.py:112-124 | a layer first seen holds experts 0 to capacity - 1, with zero scores and counts and none seen |
| `AdaptivePolicy.ObserveKeepsCapacity` | experiments/expert_footprint_top2_vs_top8/simulate_cache.py:126-142 | an observed row keeps the resident count and swaps only on an interval |
| `AdaptivePolicy.HistoryHoldsCapacity` | experiments/expert_footprint_top2_vs_top8/simulate_cache.py:112-142 | every state of every trace has exactly `capacity` residents |
| `AdaptivePolicy.SwapBudget` | experiments/expert_footprint_top2_vs_top8/simulate_cache.py:141-173 | k rows cost at most max_swaps transfers per elapsed interval |
| `AdaptivePolicy.StaticNeverSwaps` | experiments/expert_footprint_top2_vs_top8/simulate_cache.py:192-201 | the static policy keeps its first `capacity` experts over any trace |
| `AdaptivePolicy.FrequencyScoresCountUses` | experiments/expert_footprint_top2_vs_top8/simulate_cache.py:217-227 | under the frequency policy a score is the number of times the expert was routed |
| `AdaptivePolicy.LruScoresAreLastUses` | experiments/expert_footprint_top2_vs_top8/simulate_cache.py:204-214 | under the LRU policy a score is the event of the last use |
| `AdaptivePolicy.LruResidentsAreMostRecent` | experiments/expert_footprint_top2_vs_top8/simulate_cache.py:204-214 | so without hysteresis and with swaps enough, every interval-th row leaves no outsider used more recently than a resident |
| `WeightedScores.RowAddsAtMost` | experiments/expert_footprint_top2_vs_top8/simulate_cache.py:242-250 | whatever the weights, one row hands out at most the largest rank credit |
| `WeightedScores.PositionEarns` | experiments/expert_footprint_top2_vs_top8/simulate_cache.py:234-252 | a score decays, and an expert named once gains its position's rank credit times its weight over the positive weights' sum, taken to be at least 1e-12; negative weights earn nothing |
| `WeightedScores.OthersOnlyDecay` | experiments/expert_footprint_top2_vs_top8/simulate_cache.py:234-252 | an expert the row does not name only decays |
| `WeightedScores.WeightedScoresBounded` | experiments/expert_footprint_top2_vs_top8/simulate_cache.py:234-252 | so a layer's scores never total more than that credit over one minus the decay |
| `AdaptiveSimulator.Exchange` | experiments/expert_footprint_top2_vs_top8/simulate_cache.py:158-168 | masks, topk and the two sorts choose the best additions and worst evictions of one refresh |
| `AdaptiveSimulator.LayerState.Reward` | experiments/expert_footprint_top2_vs_top8/simulate_cache.py:242-250 | the scatter-add gives each expert the credits of all the positions naming it |
| `AdaptiveSimulator.Policy.UpdateScores` | experiments/expert_footprint_top2_vs_top8/simulate_cache.py:192-252 | each policy updates exactly its own statistics, and skips a row without valid ids where the code does |
| `AdaptiveSimulator.Policy.RefreshResidents` | experiments/expert_footprint_top2_vs_top8/simulate_cache.py:155-173 | the in-place refresh is one specified round and counts its swaps |
| `AdaptiveSimulator.Policy.Observe` | experiments/expert_footprint_top2_vs_top8/simulate_cache.py:126-142 | one row: the hit counters rise by the number of positions, of all or of the first two, whose expert was resident before the row, the totals by the valid positions; the layer's state is one specified step on and every other layer untouched |
| `AdaptiveSimulator.HitsAllOrNone` | experiments/expert_footprint_top2_vs_top8/simulate_cache.py:130-137 | hits equal the total exactly when every valid position's expert is resident, and are none exactly when none is |
| `LruTrace.Access` | experiments/top2_transfer/analyze_trace.py:71-79 | one access takes the cache from the newest C of the past to the newest C including it |
| `LruTrace.AccessKeepsNewest` | experiments/top2_transfer/analyze_trace.py:73-79 | move-to-end, append and pop-oldest keep the C most recently used distinct experts in recency order |
| `LruTrace.MissModel` | experiments/top2_transfer/analyze_trace.py:67-79 | the nested loops compute the misses and uses of the per-layer trace |
| `LruTrace.Inclusion` | experiments/top2_transfer/analyze_trace.py:66-79 | a smaller cache's contents are the newest part of a larger one's, at every step |
| `LruTrace.MissesFallWithCapacity` | experiments/top2_transfer/analyze_trace.py:66-79 | misses never increase with capacity, on any trace |
| `LruTrace.ModelFallsWithCapacity` | experiments/top2_transfer/analyze_trace.py:66-79 | nor do the reported totals over all layers |
| `LruTrace.HitIffFewSince` | experiments/top2_transfer/analyze_trace.py:73-79 | an expert is still cached exactly when fewer than C distinct experts were used since |
| `LruTrace.MissesAreFarUses` | experiments/top2_transfer/analyze_trace.py:67-79 | the misses are exactly the uses whose expert was never used before or has seen C distinct experts since |
| `LruTrace.CompulsoryMisses` | experiments/top2_transfer/analyze_trace.py:66-79 | a cache misses at least once per distinct expert, and exactly that often when it has room for them all |
| `Substitution.DroppedRanksFirst` | bench/chain_predict.py:216-220 | the second sort ranks dropped slots before kept ones |
| `Substitution.FreeFillFirst` | bench/chain_predict.py:212-214 | the first sort ranks unselected residents before everything masked |
| `Substitution.SubstitutionIsSoundIff` | bench/chain_predict.py:195-226 | every slot ends on a resident expert and none twice if and only if there are as many residents as slots |
| `Substitution.HeavierDropGetsBetter` | bench/chain_predict.py:200-203 | a heavier dropped slot gets a stand-in ranked strictly before a lighter one's |
| `Substitution.StandInsAreBest` | bench/chain_predict.py:200-203 | no unselected resident passed over outscores one taken |
| `Substitution.NormalisedSumsToOneIff` | bench/chain_predict.py:224 | the divided weights sum to one if and only if they summed to at least 1e-9 |
| `Substitution.WeightsStayProper` | bench/chain_predict.py:215-224 | weights stay non-negative and stand-ins' weights keep the dropped ones' order |
| `Substitution.Scatter` | bench/chain_predict.py:218-220 | scattering positions over a sort order inverts it |
| `Substitution.SubstituteIsSound` | bench/chain_prefetch.py:123-148 | whatever the tie order, kept slots keep id and weight, all slots are resident and distinct exactly when residents suffice, and then a stand-in weighs the sigmoid of its own score |
| `SubstituteSums.SortedValuesAgree` | bench/chain_prefetch.py:138 | two orders of the same scores list the same values, however they break ties |
| `SubstituteSums.SumIsCarried` | bench/chain_prefetch.py:123-148 | whatever the tie order, the weights returned come to the kept weights plus the sigmoids of the best free scores, one for each dropped slot |
| `SubstituteSums.SumKeptIff` | bench/chain_prefetch.py:126-147 | the row keeps its total if and only if those sigmoids come to what the dropped slots weighed |
| `SubstituteSums.RestrictedIsConvex` | bench/chain_predict.py:195-226 | with residents enough, a row's ids are distinct residents and its weights non-negative, summing to one exactly when that sum is at least 1e-9 |
| `Substitution.PlanRow` | bench/chain_predict.py:212-220 | the two sorts and the scatter give such a plan for every row |
| `Substitution.ResidentIds` | bench/chain_prefetch.py:123-148 | the out-of-place form returns the substituted ids and raw weights, its input untouched |
| `Substitution.RestrictResident` | bench/chain_predict.py:195-226 | the in-place form overwrites ids and weights with the substitution, weights normalised |
| `SubstituteSums.OutOfPlaceMissesOne` | bench/chain_prefetch.py:126-148 | for every sigmoid there is a row of normalised weights, with residents enough, whose returned weights do not sum to one |
| `SubstituteSums.FormsAgreeIff` | bench/chain_prefetch.py:126-148 | the two forms return the same weights if and only if the kept weights and stand-ins' sigmoids come to one, or every slot is kept with weight zero |
| `ChainInbox.Inbox.Score` | bench/chain_predict.py:346-414 | scoring empties the layer's inbox and context first, and scores it only on a decode pass with a mask |
| `ChainInbox.Inbox.Emit` | bench/chain_predict.py:419-557 | emission writes exactly the entries its guards allow and changes no other |
| `ChainInbox.VisitKeepsInv` | bench/chain_predict.py:346-557 | a layer's visit keeps every waiting prediction fresh and scores only what is due |
| `ChainInbox.EveryScoreIsDue` | bench/chain_predict.py:346-557 | over any mix of decode and prefill passes a layer is scored only on predictions made depth layers below in this pass, or by itself in the pass before |
| `ChainInbox.ScoredAtMostOnce` | bench/chain_predict.py:138-140 | no prediction is scored twice |
| `ChainInbox.VisitScores` | bench/chain_predict.py:362-412 | a masked visit with 1 to _TMAX tokens is scored on exactly what was waiting, any other on nothing |
| `ChainInbox.PrefillOnlyEmpties` | bench/chain_predict.py:359-366 | a visit with no tokens or more than _TMAX empties the layer's inbox, leaves it no residual and context, and emits nothing |
| `ChainInbox.VisitEmits` | bench/chain_predict.py:434-557 | to a later layer a visit writes exactly what is offered at that layer's depth, on its stride, with a residual, 1 to _TMAX tokens, a known target and an asked-for depth |
| `ChainInbox.VisitPersists` | bench/chain_predict.py:434-467 | to itself it leaves its own choice exactly if it could be scored, and nothing else |
| `ChainInbox.Registered` | bench/chain_predict.py:130-134 | after one pass of any kind every layer is known |
| `ChainInbox.FirstPassScoresNothing` | bench/chain_predict.py:130-134 | before that no later layer is, so the first pass scores nothing |
| `ChainInbox.LookaheadArrives` | bench/chain_predict.py:480-557 | what a layer is offered at a depth, in any pass but the first with 1 to _TMAX tokens, is what the masked layer at that depth is scored on in the same pass |
| `ChainInbox.PersistArrives` | bench/chain_predict.py:462-467 | a layer's own choice is what it is scored on at its next visit if and only if that pass has 1 to _TMAX tokens and a mask |
| `HybridPolicy.Round` | bench/hybrid_policy.py:69 | the nearest integer, halves to even |
| `HybridPolicy.ChooseK` | bench/hybrid_policy.py:85-92 | the loop computes the running best of the tolerant comparison |
| `StreamingCost.LayerMeans` | bench/hybrid_policy.py:67-82 | a layer costs the larger of its CPU part, in proportion to the distinct experts left plus the fixed cost, and its link part, gigabytes over rate, plus each streamed expert's contention and GPU time |
| `StreamingCost.CostReports` | bench/hybrid_policy.py:67-82 | the record for a count holds these terms, at the count cut to 0 and the distinct experts |
| `StreamingCost.ContentionCosts` | bench/hybrid_policy.py:79-81 | changing the contention changes a layer by the difference times the gigabytes streamed |
| `StreamingCost.GpuTimeCosts` | bench/hybrid_policy.py:81 | changing the GPU time changes it by the difference times the experts streamed |
| `StreamingCost.CostlyExpertsStay` | bench/hybrid_policy.py:79-92 | when one expert costs the GPU as much as the CPU's whole layer, nothing is streamed |
| `HybridPolicy.BestIsNearMinimal` | bench/hybrid_policy.py:85-92 | the choice is within 1e-9 of every candidate, every smaller count costs strictly more, and it streams only for a gain above 1e-9 |
| `HybridPolicy.StreamsIffSomeCountGains` | bench/hybrid_policy.py:85-92 | something is streamed exactly when some count gains more than the tolerance |
| `HybridPolicy.NoLinkMeansAllCpu` | bench/hybrid_policy.py:80-82 | without a link nothing is streamed |
| `HybridPolicy.PredictionBalances` | bench/hybrid_policy.py:95-117 | before equals after plus saved if and only if the inputs are consistent, and then no slowdown is predicted |
| `StreamingCost.PredictionReads` | bench/hybrid_policy.py:95-117 | the step's figures are the layer's costs before and after over the layers, and speedup times the new step is the old |
| `StreamingCost.BoundMeans` | bench/hybrid_policy.py:115 | the link is called the bound exactly when the layer would cost as much without its CPU work |
| `HybridPolicy.CpuWorkFavoursStreaming` | bench/hybrid_policy.py:67-82 | more CPU work raises the cost of streaming more by no more than that of streaming less |
| `HybridPolicy.PaysGrowsWithCpu` | bench/hybrid_policy.py:120-146 | once streaming pays it pays for all greater CPU work, which the bisection needs |
| `HybridPolicy.PaysGrowsWithLink` | bench/hybrid_policy.py:67-92 | and for every faster link |
| `HybridPolicy.NoWorkNeverPays` | bench/hybrid_policy.py:139 | it never pays without CPU work, which is where the bisection starts |
| `HybridPolicy.BreakEven` | bench/hybrid_policy.py:120-146 | the result is infinite exactly on the guards; otherwise streaming pays at it and everywhere above, and nowhere below it past a gap of hi/2^60 |
| `HybridPolicy.InfiniteBreakEvenMeans` | bench/hybrid_policy.py:130-138 | when the upper end does not pay, no work pays if and only if no whole expert is routed |
| `HybridPolicy.SlowLinkLooksHopeless` | bench/hybrid_policy.py:130-138 | a link at the default upper end for which the answer is infinite although some work pays |
| `HybridPolicy.LeastMinimiserGrowsWithCpu` | bench/test_hybrid_policy.py:120-125 | the first exact minimiser never falls as CPU work grows |
| `HybridPolicy.CountDropsIff` | bench/hybrid_policy.py:85-92 | more CPU work streams less if and only if no count from the lighter layer's up undercuts the best smaller one by more than the tolerance, and then the two counts cost the heavier layer the same up to it |
| `HybridPolicy.ChosenGrowsWithoutTies` | bench/test_hybrid_policy.py:120-127 | into a layer where no larger count is cheaper than a smaller one by the tolerance or less, more CPU work never streams less |
| `HybridPolicy.ChosenCountCanDrop` | bench/test_hybrid_policy.py:120-127 | constants for which more CPU work makes `choose_k` stream four experts instead of seven |
| `HybridPolicy.ChosenGrowsWithLink` | bench/test_hybrid_policy.py:110-118 | a faster link never makes `choose_k` stream fewer |
| `HybridPolicy.LeastMinimiserGrowsWithLink` | bench/test_hybrid_policy.py:110-118 | nor moves the first exact minimiser down |
| `Bits.OrIsSum` | int4_scripts/gptq_full_repack.py:45-46 | or-ing a shifted digit onto lower bits adds it |
| `Bits.LowNibble` | int4_scripts/gptq_full_repack.py:34-42 | masking with 0xF is the remainder by sixteen |
| `GptqRepack.OrAppendsDigit` | int4_scripts/gptq_full_repack.py:44-46 | each or of the loop appends one base-16 digit |
| `GptqRepack.WordKeepsDigits` | int4_scripts/gptq_full_repack.py:47 | all eight digits survive the cast to a signed word |
| `GptqRepack.DigitsDetermineWord` | int4_scripts/gptq_full_repack.py:44-47 | a signed word is determined by what it unpacks to |
| `GptqRepack.W4Signed` | int4_scripts/gptq_full_repack.py:33-38 | the strided assignments put each byte's low and high nibble, as signed values, at its two columns |
| `GptqRepack.PackGptq` | int4_scripts/gptq_full_repack.py:40-47 | the transposed or-loop packs eight rows of a column into one signed word |
| `GptqRepack.UnpackingRecovers` | int4_scripts/gptq_full_repack.py:40-47 | position j of a packed word unpacks to the value packed there, reduced mod 16 into -8..7 |
| `GptqRepack.Repack` | int4_scripts/gptq_full_repack.py:33-47 | end to end every signed value, and so every original byte, can be rebuilt from the words |
| `BusyIntervals.SortedOrders` | bench/profile_occupancy.py:508 | sorting keeps the events and orders them by start, then end |
| `BusyIntervals.MergedIsCanonical` | bench/perf_probe/idle_vs_graph.py:16-21 | merging sorted intervals separates them and changes no covered point |
| `BusyIntervals.SeparatedIsUnique` | bench/perf_probe/idle_vs_graph.py:18-21 | a separated list is determined by the points it covers |
| `BusyIntervals.BlocksAreTheUnion` | bench/perf_probe/idle_vs_graph.py:16-21 | so the merged blocks are the one separated list with the events' points, whatever their order |
| `BusyIntervals.BusyDependsOnPoints` | bench/profile_occupancy.py:505-516 | busy time depends only on the points covered, not on how events overlap or split |
| `BusyIntervals.BusyAtMostDurations` | bench/profile_occupancy.py:505-516 | overlap is counted once: busy time is at most the durations added up |
| `BusyIntervals.Union` | bench/profile_occupancy.py:505-516 | the running total is the summed length of the merged blocks, zero for no events |
| `BusyIntervals.IdleReport` | bench/perf_probe/idle_vs_graph.py:16-25 | blocks, gaps, span, busy and idle, with busy plus the gaps equal to the span |
| `BusyIntervals.BusyAndGaps` | bench/perf_probe/idle_vs_graph.py:22-25 | blocks and the gaps between them fill the span |
| `BusyIntervals.SpanIsExtent` | bench/profile_occupancy.py:520 | every event lies between the first block's start and the last block's end |

## Left out

- Floating-point rounding, the numeric sigmoid and the accuracy of the 16-bit conversion: scores, weights and times are reals.
- 64-bit addresses and 32-bit loop counters in the kernels: positions are unbounded integers; the only wrap-around modelled is the one the repack depends on.
- Shared-memory barriers and warp synchrony: a launch is any interleaving of its threads' stores, and warps add to the histogram in any order.
- The kernels' fixed arrays (16 slots, a 32-bit keep mask) and the check that there are 256 experts: sizes are parameters.
- Reading trace, checkpoint and safetensors files, printing, command lines, HTTP clients and reports.
- CUDA streams, graph capture, pinning of host memory and timing; a pass the hooks do not see because a graph is being captured is not a pass of the inbox model.
- The model's own layers (gate, expert products, normalisation, all-reduce): the inbox takes their answers as given.
- The statistics the inbox accumulates per arm, its blending with the previous token's needs, and the depth-0 self-check.
- The walk over fewer than all slots after a substitution (`KT_CHAIN_WALK_K`) and the drop-only variants.
- The scatter of empty slots in the reference of `k_pred_select`, which can collide at expert 0: the kernels are stated against `sel`.
- Rates and mebibytes derived from the simulator's counters.
- The transposed copy of the repack's scales.
- Classification of idle gaps by host event.
- HybridPolicy.PredictStep: without a working link the figures are infinite or undefined, and the model says only that.
- AdaptiveSimulator.Policy.Observe: the half-life enters as the decay it gives; the update interval is positive, as the command line's defaults are.
- Substitution.ResidentIds: rows are handled one after another, and the stand-in for minus infinity lies below every score and weight.
- BusyIntervals.Union: events have non-negative durations.

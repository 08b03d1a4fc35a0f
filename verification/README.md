# Verified models of the training stack

This project models the index, permutation, schedule and state-machine logic of the training code and
proves what it is for. Tensors are sequences of opaque entries, ranks are positions in a list, streams
and network calls are left out, and every Python assertion, missing key, bad index and division by zero
is an `Err` result (or an assertion that is proved never to fail).

* **Activation offloading** (`OffloadSchedule`, `OffloadModel`, `OffloadRuns`, `OffloadHandler`). The
  double-buffered offloader as a state machine and as a class with the original's fields. Every run that
  follows the forward/backward protocol, repeated any number of times, behaves like a plain table of
  tensors by tag; the window arithmetic keeps every lookup safe and bounds what stays on the device.
* **Sequence-length balancing** (`KarmarkarKarp`, `BalancedPartitions`, `DifferencingRuns`,
  `SeqlenBalancing`, `PartitionCheck`, `GreedyPartition`, `Ceilings`, `TokenLimit`, `MicroBatching`).
  Differencing and greedy partition with the runs they make and their numeric bounds, the least number of
  micro-batches that meets all demands, when they keep the token limit, and the way back to the original
  row order.
* **Weight layout** (`Sequences`, `QkvLayout`, `QkvMerge`, `LayerOffsets`, `ParameterNames`,
  `StateDictMerge`, `StateDictMergeLaws`, `MergedWeights`). The interleaved query/key/value rows and the
  three functions that take them apart; the closed-form layer offset of a pipeline chunk against chunks
  laid end to end; the checkpoint merger's running counter, and which weight its result holds under which
  name.
* **Sequence parallelism and padding removal** (`Ulysses`, `Packing`, `PaddingFreeLoss`,
  `PaddingFreeLaws`). All-to-all as a global re-sharding, and the packed loss against the padded one.
* **Multi-turn rollouts** (`Rollout`, `RolloutLaws`, `DynamicRollout`, `DynamicLoop`, `DynamicGroups`). The
  collection loop over an arbitrary source of step outcomes, gathering, group filtering, bounded
  resampling, and where every trajectory of its result comes from.
* **Weight buffers** (`MemoryBuffers`). Sizing, aligned placement, and moving parameters into views of a
  shared buffer, over real arrays and parameter objects.
* **Belief merges** (`BeliefModel`, `BeliefLaws`, `BeliefMerge`). The cumulative belief of the
  environments and of the fine-tuning data: what only grows, that the latest value wins, and when both
  show the same prompt.

Where the code and its documentation disagree, the model follows the code:

* `max_token_len` is documented as the maximum of a micro-batch
  (`verl/utils/seqlen_balancing.py:235`). Lengths 3, 3, 3 with limit 5 give a micro-batch of 6
  (`MicroBatching.LimitCanBeExceeded`). What always holds is fewer than twice the limit. The limit itself
  is kept when there are as many micro-batches as rows, or room in all of them but one for the longest row
  (`TokenLimit.RoomyParts`); it is kept only if no more rows than micro-batches are above half of it
  (`TokenLimit.TooManyLongRows`); and for rows of one length it is kept exactly when the ceiling of rows
  per micro-batch keeps it (`TokenLimit.UniformRows`).
* `get_transformer_layer_offset` is documented to give the offset of any stage. Its interleaved uneven
  branch does so exactly when the first-stage size is set (or no middle layers exist) and there is a
  middle stage (`LayerOffsets.OffsetsTile`): with 8 layers on 4 stages, 2 rounds and only the last stage's
  size set, the first two stages get one offset (`LayerOffsets.FirstTwoStagesCollide`). Whenever the
  embedding is counted, its even branch is right only when the calling process is on the stage it asks
  about, as it reads the process's own position (`LayerOffsets.EvenPlaced`,
  `LayerOffsets.OneAnswerMisplaces`, `LayerOffsets.FirstStageMisnumbers`).
* The merger's counter assumes that every chunk but the last has a decoder layer
  (`StateDictMergeLaws.CounterIsStart`). With 3 layers and the embedding on 4 stages it numbers every
  decoder layer one too high (`StateDictMergeLaws.EmbeddingStageMisnumbers`).
* The padding-free loss equals the plain one exactly when every selected token is attended and keeps its
  label when packed (`PaddingFreeLaws.PathsAgreeExactly`).
* Dynamic sampling with groups of one keeps nothing before its last try
  (`DynamicRollout.SingletonsAreDropped`).

## Model

| member | source | states |
|---|---|---|
| OffloadSchedule.BuildWindows | verl/utils/activation_offload.py:241-250 | the loop with its running remainder computes the closed form, and for 1 <= G <= L a schedule of increasing windows that ends with the last group |
| OffloadSchedule.WindowGap | verl/utils/activation_offload.py:243-250 | the windows are L/G groups apart, the first L % G of them one more |
| OffloadSchedule.WindowAfterGroup | verl/utils/activation_offload.py:243-250 | a window closes no earlier than its own group, strictly later when G < L, and the last one with the last group |
| OffloadSchedule.AllButLastWindows | verl/utils/activation_offload.py:537-537 | with G = L - 1, as the trainer sets it, window i closes with group i + 1 |
| OffloadRuns.RunRefinesStore | verl/utils/activation_offload.py:256-391 | every protocol run of the offloader succeeds and returns exactly what a plain tag-to-tensor store returns; once the store is empty after a backward pass, all maps and counters are initial |
| OffloadRuns.PopRefines | verl/utils/activation_offload.py:281-292 | a pop after the group's backward commit finds the pushed tensor, live on the device |
| OffloadRuns.CommitForwardRefines | verl/utils/activation_offload.py:315-348 | a forward commit never fails and starts exactly the scheduled copies |
| OffloadRuns.CommitBackwardRefines | verl/utils/activation_offload.py:369-391 | a backward commit never fails and brings back exactly the scheduled group |
| OffloadRuns.QuiescentIsInitial | verl/utils/activation_offload.py:369-391 | an empty store at the end of a backward pass determines the whole state: it is the initial one |
| OffloadRuns.EachGroupMovesOnce | verl/utils/activation_offload.py:315-391 | for G < L each group leaves at one forward commit and returns at one backward commit before its own pops, in reverse order |
| OffloadRuns.AtMostTwoGroupsResident | verl/utils/activation_offload.py:494-498 | with G = L - 1 every reachable state has managed tensors of at most two groups on the device |
| OffloadRuns.MovingOutAndBack | verl/utils/activation_offload.py:294-367 | moving a group out and back restores it if and only if tensors that share a key share their data |
| OffloadRuns.HostCopyIsFirst | verl/utils/activation_offload.py:294-313 | of the live tensors of a group that share a key, the host copy is that of the first one in the order of the tag table; keys without one have no copy |
| OffloadHandler.AsyncDoubleBufferGroupOffloadHandler.constructor | verl/utils/activation_offload.py:221-254 | a new handler is in the initial state with the closed-form windows |
| OffloadHandler.AsyncDoubleBufferGroupOffloadHandler.TensorPush | verl/utils/activation_offload.py:256-279 | one push is the push transition of the model, failure included |
| OffloadHandler.AsyncDoubleBufferGroupOffloadHandler.TensorPop | verl/utils/activation_offload.py:281-292 | one pop is the pop transition of the model |
| OffloadHandler.AsyncDoubleBufferGroupOffloadHandler.BulkOffloadGroup | verl/utils/activation_offload.py:294-313 | the loop over the tag table moves exactly the group's entries and copies each key once |
| OffloadHandler.AsyncDoubleBufferGroupOffloadHandler.BulkReloadGroup | verl/utils/activation_offload.py:351-367 | the loop over the tag table rebuilds exactly the group's moved entries and forgets the copies |
| OffloadHandler.AsyncDoubleBufferGroupOffloadHandler.FinishWindow | verl/utils/activation_offload.py:325-341 | closing a window drops its group from the double buffer and starts the next group |
| OffloadHandler.AsyncDoubleBufferGroupOffloadHandler.OnGroupCommitForward | verl/utils/activation_offload.py:315-348 | the forward commit is the forward transition of the model |
| OffloadHandler.AsyncDoubleBufferGroupOffloadHandler.OnGroupCommitBackward | verl/utils/activation_offload.py:369-391 | the backward commit is the backward transition of the model |
| KarmarkarKarp.MergeSpread | verl/utils/seqlen_balancing.py:65-72 | merging never raises the spread above the larger of the two merged states |
| KarmarkarKarp.MergeFills | verl/utils/seqlen_balancing.py:39-68 | merging states with p and q non-empty sets gives min(k, p + q) of them, thanks to the item-count tie-break |
| KarmarkarKarp.MergeConserves | verl/utils/seqlen_balancing.py:65-68 | merging keeps every item once and the total length |
| KarmarkarKarp.MergeSizes | verl/utils/seqlen_balancing.py:65-68 | merging states of equal set sizes gives equal set sizes |
| KarmarkarKarp.LargestSum | verl/utils/seqlen_balancing.py:65-117 | k times any set's sum is at most the total plus k - 1 times the spread |
| DifferencingRuns.ItemsBeforeExactly | verl/utils/seqlen_balancing.py:37-42 | one list of items is before another when their first difference decides so |
| DifferencingRuns.MergeExactly | verl/utils/seqlen_balancing.py:65-68 | a merged state is the joins of opposite sets, the greatest first |
| DifferencingRuns.FreshExactly | verl/utils/seqlen_balancing.py:45-51 | a new state has its items in sets of their own and empty sets besides, the greatest first |
| DifferencingRuns.SortFullyAscends | verl/utils/seqlen_balancing.py:96-96 | the items are sorted by length and then by index |
| SeqlenBalancing.PartitionState.Merge | verl/utils/seqlen_balancing.py:65-68 | the in-place merge of two states is the merge of their values |
| SeqlenBalancing.DifferencingPartition | verl/utils/seqlen_balancing.py:96-122 | it succeeds exactly when k and the lengths allow it; the heaps of its run start with one new state per sorted item or block, each next one merges a state that is taken first with the one that is taken first of the rest, and the parts are read off the last; they are an exact disjoint cover of the indices with the spread, maximum and emptiness bounds, and n/k items each in equal-size mode |
| PartitionCheck.CheckAndSortPartitions | verl/utils/seqlen_balancing.py:171-181 | the checker accepts exactly k non-empty parts whose indices are those below n, and sorts each |
| PartitionCheck.GetSeqlenBalancedPartitions | verl/utils/seqlen_balancing.py:143-184 | it succeeds exactly for 1 <= k <= n (with k dividing n in equal-size mode), so no assertion of the checker fires; its balanced, non-empty, increasing parts are those of a run of largest differencing |
| GreedyPartition.StepKeepsClose | verl/utils/seqlen_balancing.py:125-135 | giving an item to a smallest sum keeps the sums within the heaviest item |
| GreedyPartition.SmallestSumHasFewest | verl/utils/seqlen_balancing.py:125-135 | with the bias of the equal-size mode, a smallest sum belongs to a part with the fewest items |
| GreedyPartition.DistributeGreedily | verl/utils/seqlen_balancing.py:125-140 | it succeeds exactly when allowed; its run gives each item in turn to the first part of smallest sum; the parts cover the indices, their biased sums stay within the largest biased item, and equal-size mode gives n/k items each |
| Ceilings.CeilDivLeast | verl/utils/seqlen_balancing.py:221-222 | the negated floor division is the least multiple count that covers |
| Ceilings.RoundUpLeast | verl/utils/seqlen_balancing.py:225-226 | the rounding gives the least multiple not below the argument |
| MicroBatching.CountCoversTokens | verl/utils/seqlen_balancing.py:246-258 | the count of micro-batches covers the tokens at the limit, and the ceiling never exceeds the rows |
| MicroBatching.CountIsLeast | verl/utils/seqlen_balancing.py:246-260 | the count is the least number that has one micro-batch per row or enough for the tokens, is at least the requested minimum and the other ranks' count, and is a multiple of the divisor |
| MicroBatching.TokenCountExactly | verl/utils/seqlen_balancing.py:245-245 | the tokens of a row are its attended positions |
| TokenLimit.BelowTwiceTheLimit | verl/utils/seqlen_balancing.py:246-265 | with any count that covers the tokens, a balanced part has fewer than twice the limit |
| TokenLimit.RoomyParts | verl/utils/seqlen_balancing.py:235-265 | a balanced partition keeps the limit when there are as many parts as rows, or room in all parts but one for the longest row |
| TokenLimit.TooManyLongRows | verl/utils/seqlen_balancing.py:235-265 | it keeps the limit only if no more rows than parts are longer than half of it |
| TokenLimit.UniformRows | verl/utils/seqlen_balancing.py:235-265 | for rows of one length it keeps the limit if and only if the ceiling of rows per part does |
| MicroBatching.RearrangeMicroBatches | verl/utils/seqlen_balancing.py:229-277 | it fails exactly on a low limit or when the least sufficient count is none or above the rows, and otherwise gives that many; the micro-batches hold the rows of a balanced partition, each with fewer than twice the limit of tokens, and within the limit under the condition that suffices and only under the one that is necessary |
| MicroBatching.LimitCanBeExceeded | verl/utils/seqlen_balancing.py:235-265 | three rows of three tokens are split in two under limit 5, and every balanced partition then has a micro-batch over the limit |
| MicroBatching.GetReverseIdx | verl/utils/seqlen_balancing.py:280-295 | the loop inverts the index map |
| MicroBatching.ScoresInIndexOrder | verl/workers/fsdp_workers.py:1411-1418 | concatenated micro-batch scores are the scores in the order of the flattened index lists |
| MicroBatching.ComputeScores | verl/workers/fsdp_workers.py:1405-1421 | it succeeds exactly when the limit admits a row and there is a token; then, for any row-wise scoring, the reindexed scores are those of the original rows in order |
| QkvLayout.InterleavedBlock | scripts/converter_hf_to_mcore.py:112-115 | block g of the interleaved weight is the query rows of group g, then its key rows, then its value rows |
| QkvLayout.GroupsBack | scripts/converter_hf_to_mcore.py:112-115 | the interleaved groups hold exactly the three weights, in order |
| QkvMerge.ConvertedModelRoundTrips | scripts/converter_hf_to_mcore.py:112-116 | every interleaved weight cut over ranks that divide the kv heads meets the conditions of the three functions below, whose result is then the three original weights |
| QkvMerge.ThreeWaysBack | verl/utils/megatron_utils.py:492-507 | on one even cut of an interleaved weight all three functions below return the three original weights |
| QkvMerge.MergeAcrossTp | scripts/model_merger.py:377-405 | on such shards the merger returns the three weights |
| QkvMerge.DefaultTpConcat | verl/utils/megatron_utils.py:681-703 | on such shards the weight synchroniser returns the three weights, separate or stacked |
| QkvMerge.ConvertEvenShards | verl/utils/megatron_utils.py:492-507 | on the joined shards the converter's way back returns the three weights |
| QkvMerge.ConvertReplicatedShards | verl/utils/megatron_utils.py:508-527 | when the ranks outnumber the kv heads, exactly one copy of every key and value head is kept, in order |
| LayerOffsets.EvenPlaced | verl/utils/megatron_utils.py:896-924 | the even split gives the chunk's place if and only if the calling process is on the asked stage whenever the embedding is counted |
| LayerOffsets.UnevenPlaced | verl/utils/megatron_utils.py:839-895 | the uneven split without virtual stages gives the chunk's place |
| LayerOffsets.InterleavedPlaced | verl/utils/megatron_utils.py:862-882 | exactly which chunks the interleaved uneven branch places |
| LayerOffsets.OffsetsTile | verl/utils/megatron_utils.py:837-926 | for every configuration that divides evenly, all offsets are the running sums of the chunk sizes if and only if the interleaved uneven branch has a first-stage size and a middle stage |
| LayerOffsets.OneAnswerMisplaces | verl/utils/megatron_utils.py:727-768 | a first-stage process that renumbers several rounds with one answer misplaces a chunk when the embedding is counted |
| LayerOffsets.FirstTwoStagesCollide | verl/utils/megatron_utils.py:862-882 | 8 layers, 4 stages, 2 rounds, only the last stage's size set: stages 0 and 1 get offset 0, and stage 1 starts at layer 1 |
| LayerOffsets.NoMiddleStageFails | verl/utils/megatron_utils.py:862-882 | 2 stages with both sizes set, 2 rounds: the offset of stage 1 is a division by zero |
| LayerOffsets.FirstStageMisnumbers | verl/utils/megatron_utils.py:896-918 | 7 layers and the embedding, 4 stages, 2 rounds: either answer of a first-stage process gives one of its chunks a wrong offset |
| LayerOffsets.EveryLayerOnce | verl/utils/megatron_utils.py:828-926 | no gap and no overlap: every decoder layer has exactly one stage, round and local number |
| ParameterNames.NormalizeModelName | verl/utils/model.py:208-229 | asked by the process of a chunk of a supported configuration, it puts the number of the layer in the whole model for the local one after the first layer word; a name without the layer word comes back as it is; it fails exactly when there is no offset or that word is missing or not a number |
| ParameterNames.NormalizedNamesDistinct | verl/utils/model.py:214-228 | two parameters get one name only when they are the same parameter of the same chunk |
| StateDictMerge.MergeChunk | scripts/model_merger.py:438-470 | the loop over the keys makes exactly the chunk's writes and counts its highest layer |
| StateDictMerge.MergeRound | scripts/model_merger.py:436-470 | one round over the stages advances state and counter together |
| StateDictMerge.MergeStateDicts | scripts/model_merger.py:431-472 | the loops over rounds, stages and keys end with the writes of all the chunks applied in order, or fail with the first chunk that does; what that state holds is said by the members of MergedWeights |
| StateDictMergeLaws.CounterIsStart | scripts/model_merger.py:434-470 | the running counter is the place of every chunk if and only if no chunk but the last is without decoder layers |
| StateDictMergeLaws.EmbeddingStageMisnumbers | scripts/model_merger.py:434-470 | 3 layers and the embedding on 4 stages: the counter is one above the place of every chunk that has layers |
| StateDictMergeLaws.CounterIsOffset | scripts/model_merger.py:431-472 | the running counter equals the closed-form offset of the weight synchroniser |
| StateDictMergeLaws.OneWritePerKey | scripts/model_merger.py:446-468 | no two chunks or keys write one decoder-layer key, after the splits into parts |
| StateDictMergeLaws.DecoderWeightsSurvive | scripts/model_merger.py:431-472 | every decoder-layer weight is in the result with its merged value under its global layer number |
| MergedWeights.GateUpMerged | scripts/model_merger.py:446-468 | the result holds the first joined part of a gate/up weight under gate_proj and the second under up_proj, in the layer local + counter |
| MergedWeights.QkvMerged | scripts/model_merger.py:446-464 | likewise the three joined parts of a query/key/value weight under linear_q, linear_k and linear_v |
| MergedWeights.ReplicatedMerged | scripts/model_merger.py:413-414 | a layer norm, or the head of a value model, is as the first rank has it |
| MergedWeights.CutMerged | scripts/model_merger.py:415-419 | any other parameter is the concatenation of its shards in rank order, along the second dimension for the two weights that take a cut input and the first one otherwise |
| MergedWeights.NothingElse | scripts/model_merger.py:442-470 | every name in the result is that of a parameter that is not skipped, or of a part of it |
| MergedWeights.MergeFailsExactly | scripts/model_merger.py:431-472 | the merge fails exactly when some parameter of some chunk lacks a layer number or a shard, or its shards cannot be joined |
| MergedWeights.WithinExactly | scripts/model_merger.py:442-450 | a text test on a name holds when some stretch of the name is the text |
| Ulysses.BackwardIsInverse | verl/utils/ulysses.py:165-191 | the backward exchange undoes the forward one, for any local tensors and any dimensions |
| Ulysses.Reshards | verl/utils/ulysses.py:133-152 | all-to-all turns sequence shards into head shards and back |
| Ulysses.GatherSeqUndoesGatherHeads | verl/utils/ulysses.py:62-114 | for any sequence length, gathering the sequence with its unpadded size undoes gathering the heads |
| Ulysses.GatherHeadsOfShards | verl/utils/ulysses.py:86-114 | from the head shards of a tensor come the sequence shards of the same tensor with rows of zeros appended, up to the least multiple of the ranks |
| Packing.PackedAndBack | verl/utils/torch_functional.py:577-586 | removing the padding and restoring it keeps the attended entries and zeroes the others |
| Packing.UnpadSegments | verl/utils/torch_functional.py:577-586 | the boundaries cut the indices into the attended positions of each row |
| Packing.LongestRow | verl/utils/torch_functional.py:580-581 | the maximum length is the length of a longest row |
| PaddingFreeLoss.SlicesAreParts | verl/utils/ulysses.py:117-130 | the slices of all ranks of a padded vector are consecutive and together the whole |
| PaddingFreeLoss.GatheredAt | verl/trainer/fsdp_sft_trainer.py:348-367 | gathered and unpadded, each packed position has its own logits against the next packed token |
| PaddingFreeLoss.NextInRow | verl/trainer/fsdp_sft_trainer.py:350-352 | next to an attended token the rolled label is the next token of the row |
| PaddingFreeLoss.PaddedValues | verl/trainer/fsdp_sft_trainer.py:341-372 | padded back, every position has its packed loss, or zero when it is not attended |
| PaddingFreeLaws.RanksSeeAll | verl/utils/ulysses.py:271-315 | the ranks together pass on lists whose entry at the packed place of an attended token is its id and its position in the batch, followed by the least padding, of zeros and of positions from 0 up |
| PaddingFreeLaws.PlainLossAt | verl/trainer/fsdp_sft_trainer.py:319-335 | the plain path scales by the mask the loss of each position's logits against the next token |
| PaddingFreeLaws.SequenceParallelLossAt | verl/trainer/fsdp_sft_trainer.py:336-374 | the packed path scales by the mask the loss of an attended position's packed logits against the next packed token, and gives zero elsewhere |
| PaddingFreeLaws.PathsAgree | verl/trainer/fsdp_sft_trainer.py:317-374 | for any batch, mask and number of ranks, both paths give the same masked losses when only positions attended together with their successor are selected |
| PaddingFreeLaws.PathsAgreeExactly | verl/trainer/fsdp_sft_trainer.py:317-374 | the two paths agree for every loss function if and only if every selected position is attended and keeps its label |
| PaddingFreeLaws.ResponseLogProbsAgree | verl/utils/torch_functional.py:378-416 | for any response length, the packed response log-probability is the padded one where token and predecessor are attended, and zero where the predecessor is not |
| Rollout.StepsEnd | agent_system/multi_turn_rollout/rollout_loop.py:339-466 | the number of steps taken ends at the first step after which all are done, or at the limit |
| Rollout.CollectEpisodes | agent_system/multi_turn_rollout/rollout_loop.py:339-466 | every environment's record is its fold over exactly the steps taken; the loop fails exactly on an empty batch or a missing tool call count |
| Rollout.ProcessBatch | agent_system/environments/base.py:135-142 | the backward scan reads the last active row |
| Rollout.SuccessEvaluator | agent_system/environments/base.py:114-133 | one value per environment, or a failed assertion |
| Rollout.VanillaMultiTurnLoop | agent_system/multi_turn_rollout/rollout_loop.py:288-475 | the in-place loops give exactly the episodes, figures and success of the steps taken, and fail exactly where the rollout does |
| RolloutLaws.ActivePrefix | agent_system/multi_turn_rollout/rollout_loop.py:340-459 | the active rows are a prefix, non-empty after a step, of as many rows as the episode is long |
| RolloutLaws.EndsAtDone | agent_system/multi_turn_rollout/rollout_loop.py:458-466 | the prefix ends at the first step that reports done |
| RolloutLaws.CountersAreSums | agent_system/multi_turn_rollout/rollout_loop.py:397-445 | reward and tool calls are the sums over the active prefix |
| RolloutLaws.RewardsDifferByIntrinsic | agent_system/multi_turn_rollout/rollout_loop.py:435-445 | total minus environment-only reward is the intrinsic reward over the active prefix |
| RolloutLaws.IntrinsicIsOwn | agent_system/multi_turn_rollout/rollout_loop.py:440-442 | it is the environment's own intrinsic reward when each step reports it for all or for none |
| RolloutLaws.SuccessAtLastActive | agent_system/environments/base.py:135-142 | success is read at the step that ended the episode, or at the last one |
| RolloutLaws.AssertionHoldsExactly | agent_system/environments/base.py:128-131 | the count assertion holds if and only if there is at least one step or no environment |
| RolloutLaws.RolloutSucceedsExactly | agent_system/multi_turn_rollout/rollout_loop.py:339-475 | a rollout succeeds if and only if it takes a step (or has no environments), at no step taken does the first environment report tool calls and another one not, and every environment says at its last active step whether it was won |
| RolloutLaws.RolloutMeans | agent_system/multi_turn_rollout/rollout_loop.py:339-475 | a rollout that succeeds hands on of every environment the sums over the steps up to its first done one, its own success at that step, and a row per step with its reward, its uids and whether it was active |
| RolloutLaws.RatesAreMeans | agent_system/multi_turn_rollout/rollout_loop.py:255-260 | count times rate is the sum of the wins, under the same keys |
| RolloutLaws.GatherRolloutData | agent_system/multi_turn_rollout/rollout_loop.py:233-286 | the loops gather exactly the active rows; the assertion fails exactly on a foreign row |
| RolloutLaws.GatheredRowMeans | agent_system/multi_turn_rollout/rollout_loop.py:255-286 | row k of an episode is gathered after the rows of the episodes before it, with its step's reward, its episode's sums, the environment-only one for training, and the mean success |
| RolloutLaws.RowsAreSumOfLengths | agent_system/multi_turn_rollout/rollout_loop.py:262-280 | as many rows are gathered as the episodes are long together |
| DynamicRollout.FilterGroupData | agent_system/multi_turn_rollout/utils.py:133-187 | on the last try everything is handed on; otherwise exactly the trajectories of the kept groups, or an error on an unreadable or mixed group |
| DynamicRollout.FilterFailsExactly | agent_system/multi_turn_rollout/utils.py:145-165 | before the last try the filter fails exactly when some group is incomplete, has a trajectory without rows or has two uids; on the last try it hands on everything |
| DynamicRollout.KeptExactly | agent_system/multi_turn_rollout/utils.py:155-169 | exactly the groups with two different rewards are kept, each whole |
| DynamicRollout.KeptGroupsExactly | agent_system/multi_turn_rollout/utils.py:155-169 | the numbers of the kept groups are those of the groups whose rewards differ |
| DynamicRollout.KeptBlock | agent_system/multi_turn_rollout/utils.py:155-187 | block g of the kept indices is the whole of the g-th kept group |
| DynamicRollout.KeptAreVaried | agent_system/multi_turn_rollout/utils.py:155-187 | the kept rewards are whole groups, none constant |
| DynamicRollout.SingletonsAreDropped | agent_system/multi_turn_rollout/utils.py:151-169 | groups of one are all dropped |
| DynamicLoop.GroupsReadable | agent_system/multi_turn_rollout/rollout_loop.py:318-326 | the uids given out make every group of a rollout pass the filter's assertion |
| DynamicLoop.UidsShared | agent_system/multi_turn_rollout/rollout_loop.py:318-326 | two environments share a uid exactly when they are in one group, or when there is no grouping |
| DynamicLoop.FilterKeepsFigures | agent_system/multi_turn_rollout/utils.py:171-185 | filtering keeps all figures of a trajectory together |
| DynamicLoop.ConcatenationKeepsFigures | agent_system/multi_turn_rollout/rollout_loop.py:531-545 | so does putting the tries together |
| DynamicLoop.DynamicMultiTurnLoop | agent_system/multi_turn_rollout/rollout_loop.py:510-547 | its result is the filtered rollouts of its tries put together, no try is made once the target is reached or the tries ran out, and it fails exactly when no try is due or a due try fails; with the trainer's settings and reporting environments it fails exactly when the tries are none |
| DynamicLoop.OneTry | agent_system/multi_turn_rollout/rollout_loop.py:516-531 | one try is the rollout of its environments, filtered unless it is the last one |
| DynamicLoop.MakeTries | agent_system/multi_turn_rollout/rollout_loop.py:510-541 | the loop makes the tries in order until the target is reached, they run out or one fails |
| DynamicLoop.ReportingTriesSucceed | agent_system/multi_turn_rollout/rollout_loop.py:510-541 | with whole groups, at least one step and environments that report, no try fails |
| DynamicLoop.ResultIsGroups | agent_system/multi_turn_rollout/rollout_loop.py:510-547 | the result has arrays of one length, at least the target's unless the tries ran out: groups of varied rewards, then a whole rollout if they did |
| DynamicGroups.BlocksAreGroups | agent_system/multi_turn_rollout/rollout_loop.py:510-547 | every kept block of n trajectories is one whole group of one try, with its own figures and one uid in all its rows |
| DynamicGroups.GroupsOfTryExactly | agent_system/multi_turn_rollout/utils.py:155-187 | the blocks of a try are exactly its groups whose rewards differ, each once and in order |
| DynamicGroups.LastRolloutWhole | agent_system/multi_turn_rollout/utils.py:145-149 | when the tries ran out, the last trajectories are the whole rollout of the last try, in order |
| DynamicGroups.EveryPlaceHasOrigin | agent_system/multi_turn_rollout/rollout_loop.py:510-547 | nothing else is in the result: every place is in a kept group of a filtered try or in the last rollout |
| MemoryBuffers.PaddedIsLeastAligned | verl/utils/memory_buffer.py:53-57 | the padded size is the least multiple of the alignment that holds the tensor |
| MemoryBuffers.MemoryBuffer.constructor | verl/utils/memory_buffer.py:30-37 | a new buffer is over the given tensor, or over a new one of the padded size that is zero |
| MemoryBuffers.MemoryBuffer.Zero | verl/utils/memory_buffer.py:39-41 | the buffer is zero afterwards |
| MemoryBuffers.MemoryBuffer.Get | verl/utils/memory_buffer.py:43-50 | a view is given exactly when it fits the buffer |
| MemoryBuffers.BuildMemoryBuffer | verl/utils/memory_buffer.py:70-96 | one fresh zero buffer per type in use, of exactly the size that placing its tensors consumes |
| MemoryBuffers.StartsAligned | verl/utils/memory_buffer.py:99-110 | every tensor starts aligned, the first of its type at zero, and ends within the total of its type |
| MemoryBuffers.RegionsDisjoint | verl/utils/memory_buffer.py:99-137 | tensors of one type never overlap |
| MemoryBuffers.PlacedTightly | verl/utils/memory_buffer.py:99-137 | the next tensor of a type, or the end of all of them, is at the least aligned index after the one before it |
| MemoryBuffers.BuildMemoryReference | verl/utils/memory_buffer.py:113-137 | every entry gets the view of its own region; it fails exactly when an entry has no buffer or its region leaves it, which buffers of the sizing pass exclude |
| MemoryBuffers.BuildMemoryReferenceFromModule | verl/utils/memory_buffer.py:99-110 | up to the first without room in its buffer, every parameter ends as a view of its own region; all still read their original values, or, without maintained weights, the buffers are unchanged; buffers of the sizing pass have room for all |
| MemoryBuffers.WriteThrough | verl/utils/memory_buffer.py:99-110 | a write through one parameter is seen by it and by no other |
| BeliefMerge.AlfWorldEnvironmentManager.UpdateCumulativeBelief | agent_system/environments/env_manager.py:506-555 | the merge changes the belief of one environment, creating it when new, and no other |
| BeliefMerge.MergeAlfBelief | scripts/generate_rebel_sft_data.py:294-317 | the same merge for the fine-tuning data |
| BeliefMerge.WebshopEnvironmentManager.UpdateCumulativeBelief | agent_system/environments/env_manager.py:1219-1262 | the merge changes the belief of one known environment and no other |
| BeliefMerge.MergeWsBelief | scripts/generate_rebel_sft_data.py:320-340 | the same merge for the fine-tuning data |
| BeliefLaws.AppendNewAdds | agent_system/environments/env_manager.py:528-535 | appending keeps the list as a prefix, adds exactly the mentioned texts that are not blocked, and makes no duplicates |
| BeliefLaws.AppendNewInOrder | agent_system/environments/env_manager.py:528-535 | the new texts come in the order of their first mention |
| BeliefLaws.VisitedGrows | agent_system/environments/env_manager.py:528-535 | over an episode the visited list only grows, without duplicates, by exactly what was mentioned |
| BeliefLaws.CandidatesOfEpisode | agent_system/environments/env_manager.py:537-549 | the candidates are those known at first or mentioned at some step, without the places finally visited, each once |
| BeliefLaws.WithoutInOrder | agent_system/environments/env_manager.py:546-549 | removing entries keeps the order of the others |
| BeliefLaws.LatestTask | agent_system/environments/env_manager.py:551-555 | after an episode phase, target and subgoal are each the last non-empty text given, or the first value when none was |
| BeliefLaws.LatestEntries | agent_system/environments/env_manager.py:518-526 | after an episode every object and state has the last entry given for it, or its first one when none was |
| BeliefLaws.AlfMergesAgree | scripts/generate_rebel_sft_data.py:294-317 | one step agrees in both merges exactly unless a null candidate list hides that there is no list yet or that a listed place is visited |
| BeliefLaws.AlfPromptsAgree | scripts/generate_rebel_sft_data.py:294-317 | both merges show the same belief at every step when no candidate list is null |
| BeliefLaws.AlfPromptsAgreeExactly | scripts/generate_rebel_sft_data.py:294-317 | they show the same belief at every step if and only if at each null candidate list there is a list and none of the places known, mentioned and not yet visited is visited |
| BeliefLaws.ConfirmedGrows | agent_system/environments/env_manager.py:1233-1251 | confirmed keys only grow and never meet the unconfirmed ones |
| BeliefLaws.UnconfirmedOfEpisode | agent_system/environments/env_manager.py:1233-1251 | the unconfirmed attributes are those known at first or mentioned at some step, without the finally confirmed ones, each once |
| BeliefLaws.LatestWsTask | agent_system/environments/env_manager.py:1258-1262 | after an episode phase, target and subgoal are each the last value given that is neither null nor blank |
| BeliefLaws.LatestPid | agent_system/environments/env_manager.py:1253-1256 | the product id is the last true one given that is not the text null, as a text |
| BeliefLaws.LatestWsEntries | agent_system/environments/env_manager.py:1228-1236 | every requirement and confirmed attribute has the last entry given for it |
| BeliefLaws.PidsAgree | scripts/generate_rebel_sft_data.py:334-336 | the two product-id rules agree exactly on plain ids |
| BeliefLaws.WsMergesAgree | scripts/generate_rebel_sft_data.py:320-340 | one step agrees in both merges, whatever id was known, exactly when the new id is plain |
| BeliefLaws.WsPromptsAgree | scripts/generate_rebel_sft_data.py:320-340 | both merges show the same belief at every step when the product ids are plain |
| BeliefLaws.WsPromptsAgreeExactly | scripts/generate_rebel_sft_data.py:320-340 | they show the same belief at every step if and only if each product id is plain or a word for nothing that is known already |

## Left out

* CUDA streams, events, pinned memory, autograd hooks, re-entrant checkpointing and FSDP wrapping: copies
  between device and host keep values, and the order of calls is the protocol of a run. Pushes during the
  backward pass are outside that protocol.
* The base class `SynchronizedGroupOffloadHandler` and the context managers: the asynchronous handler
  overrides what matters. A reloaded tensor keeps its key (in the code, the address of its storage).
- OffloadHandler.AsyncDoubleBufferGroupOffloadHandler.OnGroupCommitForward: says nothing about the fields after a failed assertion or lookup, as the code leaves them half updated there
- OffloadHandler.AsyncDoubleBufferGroupOffloadHandler.OnGroupCommitBackward: likewise
* The array inside `heapq`: a state is taken that no other one strictly precedes, and which of several that
  the order does not tell apart is left open. `Set` objects are values inside a state, so their sharing
  between states is not captured.
* `log_seqlen_unbalance`, and the all-reduce over ranks: the other ranks' largest count is a parameter.
* The splits of the gate/up weight and of biases, which follow the same pattern as the query/key/value
  weight with fewer cases.
- QkvMerge.MergeAcrossTp: only the query/key/value branch; the joining of the other kinds is a parameter of `StateDictMerge`
- QkvMerge.ConvertReplicatedShards: one group per rank, the case its caller sets up
- ParameterNames.NormalizeModelName: names are lists of dot-separated words, and a word of digits is its number
- StateDictMergeLaws.DecoderWeightsSurvive: speaks of the decoder layers only; of a parameter of no layer, the members of `MergedWeights` say that the last chunk that has it decides; the names of fused weights must be whole words
- MergedWeights.NothingElse: a key with the word `layers` that does not begin with `decoder.layers` and a number may be any key of the chunk
* The configuration checks of the transformer library; a pipeline of one stage has one chunk.
* Ulysses without a process group, where tensors are returned unchanged, and dimensions other than
  sequence and heads. The gradient scaling of `Gather`.
- PaddingFreeLaws.PathsAgree: takes as its condition that the model gives an attended token the same logits packed as padded; the normalised sum of the masked losses is not modelled
* Floating point: rewards and losses are reals.
* The generation of actions, repeat detection, action validity, belief and reward breakdown columns, and
  the success figures of particular environments: they do not feed the accounting.
- DynamicLoop.DynamicMultiTurnLoop: environments are an arbitrary source of outcomes for each try, so what a second reset sees of the environment arguments is not modelled
* Success entries other than `success_rate`; the filter's rule for them is modelled, and a later try that
  lacks one fails.
* Sorting the named parameters: both passes are given one list in one order. Exchanging the tensor of a
  buffer for a copy on another device.
- MemoryBuffers.BuildMemoryReferenceFromModule: when weights are maintained, the data to be copied lies outside the buffers, as with fresh buffers; a copy between overlapping views of one buffer is not modelled
- MicroBatching.RearrangeMicroBatches: the limit is characterised exactly for rows of one length only; for others the condition that suffices and the necessary one differ, and between them it depends on how the differencing happens to combine the single rows
* JSON parsing, the insertion order of dictionaries, and Unicode blanks: blanks are space, tab and line
  ends.

# Verified models of verl's weight transfer, activation offloading, checkpoint layout and batch algebra

verl trains language models with reinforcement learning on many devices. Five of its mechanisms are
hard to get right by testing: the pipelined transfer of new weights to the rollout workers, the
asynchronous offloading of activations to host memory, the layout of fused and sharded checkpoint
weights, the splitting of batches over workers, and two numeric kernels. This project models them in
Dafny and proves what they promise. `dafny verify dfyconfig.toml` checks everything.

## The modules

Weight transfer. `Weights` defines buckets, their layout and the greedy packing, `Metadata` the dictionary
that announces a bucket and what a receiver makes of it. `SendLoop` is the sender's loop over two byte
arrays. `Transfer` and `TransferInvariant` give the local actions of a rank (fill, publish, read, swap,
yield) and what each keeps. `NixlRing` is the pipeline of ranks as a state machine: per rank a program
counter, two buffers, metadata in hand, the outstanding publication with its notify key, an in-flight read
that copies single bytes at any moment until it is done, and FIFO message and notification queues.
`NixlRingInvariant`, `NixlRingSteps` and `NixlRingLiveness` prove its invariant and its termination measure;
`NixlRingTheorems` states the results, over weights that each fit a bucket and have any names.
`NcclBroadcast` is the broadcast engine with the same actions. `NixlAgent` is the mailbox class, and
`NixlMailbox` puts it in the place of the ring's inboxes, for any way of splitting the notifications into
polls; the second module of `NixlAgent.dfy`, `ColocatedEngine`, is the hand-over that both engines amount
to.

Activation offloading. `OffloadSpec` gives each operation of the asynchronous handler as a function on its
bookkeeping, `OffloadHandler` the class whose methods compute those functions. `OffloadInvariant` and
`OffloadSteps` hold the invariant, `OffloadTheorems` the results over whole training steps (forward pushes
and commits, then backward commits, each followed by the pops of its group in any order). `OffloadKeys`
treats deduplication keys that mix up tensors, `OffloadMemory` the number of groups on the device, `OffloadStrays`
steps that also save tensors not chosen for offloading, and `OffloadSync` is the synchronized handler as the
reference.

Checkpoints. `PipelineShards` is the search for stage sizes, `QkvLayout` the interleaving of q, k and v by
key-value group and the merge from tensor-parallel shards, `ExpertShards` the experts of each rank,
`LayerNumbering` and `StageTiling` the renumbering of layers, `OutputFiles` the files of each rank and
`MergedFiles` the files and the index of all ranks together.

Batches. `Splitting` holds the two library splits. `DataProto` reduces slicing, concatenating, padding and
chunking to choosing rows, `ShardedRun` composes them around a row-wise worker, `RowMaps` treats repetition
and `BatchShapes` folding and column chunks. Tensor columns and array columns have separate definitions
where the repository uses separate library calls.

Kernels. `ImageZoom` and `Groupwise`, over exact reals. `Common.dfy` holds an option type and facts about
arithmetic and joined sequences.

## Where the code and its promises differ

- `get_dynamic_pipeline_shards` raises an IndexError for some sizes it accepts (nine layers on eight
  stages, for one). `GetDynamicPipelineShards` has the exact condition.
- The deduplication key of the offload handler is address and dtype. A tensor and its transpose share it,
  and with both saved in one offloaded group the second is restored with the elements of the first.
  `TransposeMisrestored` is such a step; `RestoresIffKeysSound` says exactly when a step restores every tensor.
- `get_notification` reuses the name of its parameter for a loop variable, so it returns a key of whichever
  agent notified last. In the ring only one agent ever notifies a rank, and `NotifyKeyMatches` shows that
  the assert on the key never fires, `PollsAnswerTheWait` that no grouping into polls changes that;
  `ForeignKeyReturned` shows the mix-up with a second notifier.
- The merge of several chunks on one rank advances the numbering by one for a chunk without layers.
  `LayersTileIff` says exactly when the layer numbers have no hole.
- A bucket that receives two weights of one name announces only the second, in the place of the first
  (`RepeatedNameShownOnce`). The receivers then do not end with the list that was sent; `StoppedRingDelivered`
  and `StoppedBroadcastDelivered` say exactly when they do.
- A name outside of the layers that is in the chunks of two pipeline ranks is written to two files, and the
  merged index names one of them. `EachKeyOnceIff` says exactly when every key is in one file.
- `unfold_column_chunks` is documented to repeat every key when no split keys are given; with array columns
  in the batch that call raises (`MissingKeysRaise`).
- The experts of a layer that the number of expert-parallel ranks does not divide are not all converted:
  `ThirdExpertDropped` has three experts on two ranks, `AllExpertsPlacedIff` the exact condition.

## Model

| member | source | states |
|---|---|---|
| Weights.LayoutContiguous | verl/checkpoint_engine/nixl_checkpoint_engine.py:393-400 | each weight of a bucket starts where the one before ends, so entries are disjoint and inside the bucket |
| Weights.ViewRestores | verl/checkpoint_engine/nixl_checkpoint_engine.py:454-458 | the slice a receiver cuts out by the metadata is exactly that weight's bytes |
| Weights.PackSound | verl/checkpoint_engine/nixl_checkpoint_engine.py:360-408 | concatenating the buckets gives the weights back in order, and each bucket fits |
| Weights.BucketCountMinimal | verl/checkpoint_engine/nixl_checkpoint_engine.py:363-387 | no order-preserving partition into buckets of that size uses fewer buckets |
| Metadata.MetadataCompleteIff | verl/checkpoint_engine/nixl_checkpoint_engine.py:393-398 | the metadata dictionary has an entry per weight if and only if the names of the bucket are distinct |
| Metadata.DictIsLayout | verl/checkpoint_engine/nixl_checkpoint_engine.py:361-398 | with distinct names the dictionary lists all weights of the bucket at their offsets, in order |
| Metadata.PutKeepsPlace | verl/checkpoint_engine/nixl_checkpoint_engine.py:393 | assigning a name that is in the dictionary replaces its entry in the old place |
| Metadata.ShownIsBucketIff | verl/checkpoint_engine/nixl_checkpoint_engine.py:393-458 | what a receiver cuts out of a bucket by the dictionary is the bucket itself if and only if no name occurs twice in it |
| Metadata.ShownAllIsStreamIff | verl/checkpoint_engine/nixl_checkpoint_engine.py:393-458 | over any buckets, what the dictionaries show in turn is the stream itself if and only if no bucket repeats a name; it is never longer |
| Metadata.RepeatedNameShownOnce | verl/checkpoint_engine/nixl_checkpoint_engine.py:393-398 | a concrete bucket with two weights of one name, of which a receiver sees only the second |
| SendLoop.CopyInto | verl/checkpoint_engine/nixl_checkpoint_engine.py:399 | the slice assignment changes those bytes of the buffer and no others |
| SendLoop.SendWeights | verl/checkpoint_engine/nixl_checkpoint_engine.py:360-409 | the loop fails if and only if a weight is larger than a bucket; otherwise publication j holds bucket j of the greedy packing in its bytes and metadata, and only the final one is marked last |
| TransferInvariant.FilledKeeps | verl/checkpoint_engine/nixl_checkpoint_engine.py:393-400 | filling keeps the sender's invariant: the open bucket lies in the buffer that is not published, the rest of the packing is still to come |
| TransferInvariant.ClosedKeeps | verl/checkpoint_engine/nixl_checkpoint_engine.py:368-387 | the bucket handed out at a flush or at the end is the next bucket of the packing, announced as last exactly when it is |
| TransferInvariant.SwappedKeeps | verl/checkpoint_engine/nixl_checkpoint_engine.py:467-471 | a swap keeps the receiver's invariant: what was read is the next bucket, and all before it has been yielded |
| TransferInvariant.StockYieldsPrefix | verl/checkpoint_engine/nixl_checkpoint_engine.py:414-488 | in any state the invariant allows, what a receiver yielded is a prefix of what the buckets show, and all of it when it is done |
| TransferInvariant.StockVersusStream | verl/checkpoint_engine/nixl_checkpoint_engine.py:414-488 | no more is yielded than was sent, and a receiver that is done has the stream itself if and only if no bucket repeats a name |
| NixlRingSteps.AckMatches | verl/checkpoint_engine/nixl_checkpoint_engine.py:161-164 | a waiting rank that finds a notification finds its own key |
| NixlRingSteps.StepKeeps | verl/checkpoint_engine/nixl_checkpoint_engine.py:341-492 | every enabled action of every rank keeps the ring's invariant |
| NixlRingTheorems.YieldsPrefix | verl/checkpoint_engine/nixl_checkpoint_engine.py:341-493 | in every reachable state of every ring of two or more ranks, each receiver has yielded a prefix of what the buckets show, which is a prefix of the names and bytes sent when no bucket repeats a name; once it is done it has yielded all of it, and exactly what was sent if and only if no bucket repeats a name |
| NixlRingTheorems.NotifyKeyMatches | verl/checkpoint_engine/nixl_checkpoint_engine.py:125-164 | in every reachable state a rank's inbox is empty or holds one notification, from its successor, with the rank's own outstanding key, and no rank has failed; NixlMailbox adds the polls and the reused loop variable |
| NixlRingTheorems.StepSparesPublished | verl/checkpoint_engine/nixl_checkpoint_engine.py:368-400 | no step of any rank writes a buffer that is published and not yet acknowledged, and only the acknowledgement ends the publication |
| NixlRingTheorems.PublishedSlotFrozen | verl/checkpoint_engine/nixl_checkpoint_engine.py:372-410 | from publication to acknowledgement a published buffer keeps its bytes over any run of the ring |
| NixlRingTheorems.StepSparesViews | verl/checkpoint_engine/nixl_checkpoint_engine.py:435-492 | no step writes the buffer that yielded views of a receiver look into, and only its own swap changes which buffer that is |
| NixlRingTheorems.ViewsFrozen | verl/checkpoint_engine/nixl_checkpoint_engine.py:453-471 | over any run without a swap of that receiver its views keep their bytes |
| NixlRingTheorems.DeadlockFree | verl/checkpoint_engine/nixl_checkpoint_engine.py:372-492 | in every reachable state with an unfinished rank some rank can step |
| NixlRingTheorems.RunsEnd | verl/checkpoint_engine/nixl_checkpoint_engine.py:341-492 | every run is finite: its length has a bound in the number of buckets, their size and the number of ranks |
| NixlRingTheorems.StoppedRingDelivered | verl/checkpoint_engine/nixl_checkpoint_engine.py:341-493 | a ring that cannot step any more has all ranks done and every receiver holding the complete list, which is the list sent if and only if no bucket repeats a name |
| NixlRingTheorems.DoneIsAcknowledged | verl/checkpoint_engine/nixl_checkpoint_engine.py:408-410 | in every reachable state a rank that is done has no outstanding publication, and its successor has fetched every bucket |
| NixlAgent.DeliveryKeepsOrder | verl/checkpoint_engine/nixl_checkpoint_engine.py:119-123 | sorting arrivals into queues by sender neither loses, duplicates nor reorders what one sender sent |
| NixlAgent.SinglesAreArrivals | verl/checkpoint_engine/nixl_checkpoint_engine.py:120-122 | what a queue receives is its sender's arrivals, each once and in order, at increasing positions of the stream that miss none |
| NixlAgent.Agent.constructor | verl/checkpoint_engine/nixl_checkpoint_engine.py:51-58 | a new agent has no messages and no notifications |
| NixlAgent.Agent.ReadMessage | verl/checkpoint_engine/nixl_checkpoint_engine.py:119-123 | the head of the sender's queue is returned at once, or, where the queue was empty, its first arrival, which is the last message received and leaves the queue empty; every other sender's queue grows by exactly its arrivals; nothing comes back only when all arrivals were received and none was of that sender |
| NixlAgent.Agent.Extend | verl/checkpoint_engine/nixl_checkpoint_engine.py:128-129 | one poll is appended queue by queue, and the loop variable ends as the last agent of the poll |
| NixlAgent.Agent.GetNotification | verl/checkpoint_engine/nixl_checkpoint_engine.py:125-131 | the key returned is the oldest in the queue of the agent watched at the end, which the reused loop variable decides, and is taken out of it; every other queue grows by the keys of its agent; before the last poll the watched queue was empty |
| NixlAgent.OnlyNotifierWatched | verl/checkpoint_engine/nixl_checkpoint_engine.py:125-131 | while only the agent asked for notifies, its queue is the one watched |
| NixlAgent.WatchedIsAskedIff | verl/checkpoint_engine/nixl_checkpoint_engine.py:125-131 | the agent asked for is watched if and only if the last non-empty poll ended with it |
| NixlAgent.ForeignKeyReturned | verl/checkpoint_engine/nixl_checkpoint_engine.py:125-131 | a concrete poll with two notifiers after which the wait for one is answered with the key of the other |
| NixlMailbox.OnlySuccessorNotifies | verl/checkpoint_engine/nixl_checkpoint_engine.py:202-210 | in every run, every notification sent to rank r comes from rank r + 1 |
| NixlMailbox.InboxIsStream | verl/checkpoint_engine/nixl_checkpoint_engine.py:125-131 | over any run a rank's inbox holds what was in it and what was sent to it, less what it took out, in order |
| NixlMailbox.PollsAnswerTheWait | verl/checkpoint_engine/nixl_checkpoint_engine.py:125-131 | in every reachable state, however the notifications of a rank arrive in polls, the polls are of its successor only and bring nothing or the rank's own outstanding key |
| NixlMailbox.WaitForComplete | verl/checkpoint_engine/nixl_checkpoint_engine.py:161-165 | the wait through the mailbox class, over any such polls, ends with the rank's own key or goes on waiting while nothing was sent; the assert on the key never fails |
| NcclBroadcast.StepKeeps | verl/checkpoint_engine/nccl_checkpoint_engine.py:205-339 | every step of the root's loop, its broadcast thread or a receiver keeps the invariant |
| NcclBroadcast.YieldsPrefix | verl/checkpoint_engine/nccl_checkpoint_engine.py:291-339 | in every reachable state each receiver has yielded a prefix of what the buckets show; once it is done it has yielded all of it, and exactly what was sent if and only if no bucket repeats a name |
| NcclBroadcast.StepSparesBuffers | verl/checkpoint_engine/nccl_checkpoint_engine.py:225-277 | no step writes a buffer with a broadcast in flight, nor the buffer a receiver's views look into |
| NcclBroadcast.DeadlockFree | verl/checkpoint_engine/nccl_checkpoint_engine.py:71-90 | a reachable state in which no step is possible has the root and all receivers done |
| NcclBroadcast.RunsEnd | verl/checkpoint_engine/nccl_checkpoint_engine.py:205-339 | every run of the broadcast is finite, with a bound |
| NcclBroadcast.StoppedBroadcastDelivered | verl/checkpoint_engine/nccl_checkpoint_engine.py:265-339 | a broadcast that cannot step any more has delivered the complete list to every receiver, which is the list sent if and only if no bucket repeats a name |
| NcclBroadcast.DoneIsReceived | verl/checkpoint_engine/nccl_checkpoint_engine.py:245-277 | in every reachable state with the root done no broadcast is outstanding and every receiver has all buckets |
| ColocatedEngine.Engine.SendWeights | verl/checkpoint_engine/base.py:125-131 | the engine holds the weights handed to it |
| ColocatedEngine.Engine.ReceiveWeights | verl/checkpoint_engine/base.py:133-140 | receiving hands the held weights over once and leaves the engine empty |
| ColocatedEngine.Handover | verl/checkpoint_engine/base.py:117-122 | send then receive is the identity |
| ColocatedEngine.EnginesAgree | verl/checkpoint_engine/base.py:125-140 | a finished ring and a finished broadcast hand over the same list, and the colocated engine hands over that list if and only if no bucket repeats a name |
| OffloadInvariant.ClosedFormGood | verl/utils/activation_offload.py:248-257 | the closed form of the window map is strictly increasing, ends with the last layer, and with fewer offload groups than layers puts group j at layer j + 1 or later |
| OffloadInvariant.WindowGaps | verl/utils/activation_offload.py:248-257 | consecutive windows are L div G layers apart, one more for the first L mod G of them, and the first lies as far from the start |
| OffloadHandler.AsyncDoubleBufferGroupOffloadHandler.constructor | verl/utils/activation_offload.py:228-261 | the loop with its running constant fills the window map of the closed form; all other bookkeeping is empty |
| OffloadHandler.AsyncDoubleBufferGroupOffloadHandler.TensorPush | verl/utils/activation_offload.py:263-283 | a stray tensor is its own handle and changes nothing; another gets the tag of group and position and is appended to the table, or the push fails because the tag is in use |
| OffloadHandler.AsyncDoubleBufferGroupOffloadHandler.TensorPop | verl/utils/activation_offload.py:285-296 | a stray tensor comes back and changes nothing; for a tag the tensor kept under it is returned and the tag removed from both tables; it fails only for an unknown tag or one still on the CPU |
| OffloadHandler.AsyncDoubleBufferGroupOffloadHandler.BulkOffloadGroup | verl/utils/activation_offload.py:298-317 | every tensor of the group becomes key and shape, and the group's copies are those of the first tensor with each key |
| OffloadHandler.AsyncDoubleBufferGroupOffloadHandler.SynchronizeOnGroupCommitForward | verl/utils/activation_offload.py:319-345 | the first group starts the offloading; at a window boundary one group is dropped and the next offloaded |
| OffloadHandler.AsyncDoubleBufferGroupOffloadHandler.OnGroupCommitForward | verl/utils/activation_offload.py:347-352 | a forward commit synchronizes and moves on to the next group |
| OffloadHandler.AsyncDoubleBufferGroupOffloadHandler.BulkReloadGroup | verl/utils/activation_offload.py:355-371 | every tensor of the group is restored from the copy of its key with its own shape, or the reload fails |
| OffloadHandler.AsyncDoubleBufferGroupOffloadHandler.OnGroupCommitBackward | verl/utils/activation_offload.py:373-395 | a backward commit reloads the group whose window it meets and counts down |
| OffloadSteps.GatherCopies | verl/utils/activation_offload.py:303-315 | the copies kept for a complete group hold, for every tensor, the elements of the first tensor with its key |
| OffloadSteps.PushKeeps | verl/utils/activation_offload.py:263-283 | in the forward pass a push succeeds with the tag of its group and position and keeps the invariant |
| OffloadSteps.CommitForwardKeeps | verl/utils/activation_offload.py:319-352 | a forward commit finds every window and every tensor it needs and keeps the invariant; a group is offloaded only after all its pushes |
| OffloadSteps.CommitBackwardKeeps | verl/utils/activation_offload.py:373-395 | a backward commit keeps the invariant when the group it may reload has copies that fit its shapes; no group is popped before it was reloaded |
| OffloadSteps.CommitBackwardFails | verl/utils/activation_offload.py:365-371 | a backward commit that reloads a group with a copy of the wrong size raises |
| OffloadSteps.PopKeeps | verl/utils/activation_offload.py:285-296 | a pop in the backward pass succeeds, with the pushed shape and the elements kept for the tensor's key |
| OffloadSteps.EndIsFresh | verl/utils/activation_offload.py:373-395 | after the last pop the bookkeeping is as when new |
| OffloadTheorems.KeySoundIff | verl/utils/activation_offload.py:35-37 | the copies of a group are right for all its tensors if and only if equal keys mean equal elements in order |
| OffloadTheorems.RunRestores | verl/utils/activation_offload.py:263-395 | with sound keys no assert or lookup fails at any point of any training step, and every pop so far returned the tensor pushed, for any number of offload groups up to the layers |
| OffloadTheorems.StepRestores | verl/utils/activation_offload.py:263-395 | a whole step pops every tensor pushed and leaves the handler as it was when new |
| OffloadTheorems.TrainingRestores | verl/utils/activation_offload.py:263-395 | the same over any number of training steps with one handler |
| OffloadKeys.RestoresIffKeysSound | verl/utils/activation_offload.py:298-371 | a whole step succeeds with every tensor as pushed if and only if the keys are sound in every group moved to the CPU |
| OffloadKeys.TransposeUnsound | verl/utils/activation_offload.py:35-37 | a matrix and its transpose, saved in one group, are tensors with unsound keys |
| OffloadKeys.WholeStepExists | verl/utils/activation_offload.py:263-395 | whatever tensors the groups have, there is a whole training step that pushes and pops all of them |
| OffloadKeys.TransposeMisrestored | verl/utils/activation_offload.py:298-371 | a whole step that saves a matrix and its transpose ends without failure, and the pop of the transpose returns the elements of the matrix |
| OffloadStrays.StrayComesBack | verl/utils/activation_offload.py:268-288 | whatever happens in between, push and pop of a tensor that is not chosen succeed, return it and leave the bookkeeping alone |
| OffloadStrays.StraysPassThrough | verl/utils/activation_offload.py:263-296 | a run with stray tensors pushed and popped anywhere fails exactly when the run without them fails, ends with the same bookkeeping and the same chosen tensors popped, and returns every stray as pushed |
| OffloadStrays.MixedRunRestores | verl/utils/activation_offload.py:263-395 | with sound keys, no step with tensors of both kinds fails at any point, and every pop so far returned the tensor pushed |
| OffloadStrays.MixedRestoresIffKeysSound | verl/utils/activation_offload.py:263-395 | a whole step with tensors of both kinds returns all of them as pushed if and only if the keys are sound in every group moved to the CPU, and then leaves the handler as new |
| OffloadMemory.OneShortWindows | verl/utils/activation_offload.py:543 | with one offload group fewer than layers the window of group j is layer j + 1 |
| OffloadMemory.AtMostTwoGroups | verl/utils/activation_offload.py:502-504 | as set up for three or more layers, at most two activation groups are referenced as device tensors at every point that a step reaches, whatever the tensors and their keys |
| OffloadSync.SynchronizedGroupOffloadHandler.constructor | verl/utils/activation_offload.py:143-159 | a new handler holds nothing |
| OffloadSync.SynchronizedGroupOffloadHandler.TensorPush | verl/utils/activation_offload.py:195-208 | the tensor is kept, or its CPU copy where it is chosen for offloading |
| OffloadSync.SynchronizedGroupOffloadHandler.TensorPop | verl/utils/activation_offload.py:210-218 | the tensor or the reloaded copy, and its removal |
| OffloadSync.SynchronizedGroupOffloadHandler.OnGroupCommitForward | verl/utils/activation_offload.py:161-165 | the next group starts at position zero |
| OffloadSync.SynchronizedGroupOffloadHandler.OnGroupCommitBackward | verl/utils/activation_offload.py:167-170 | the group before, or failure below zero |
| OffloadSync.SyncRestores | verl/utils/activation_offload.py:195-218 | the synchronized handler never fails, has exactly the chosen tensors of the offload groups on the CPU, and restores every tensor, whatever is chosen and whatever the keys |
| OffloadSync.HandlersAgree | verl/utils/activation_offload.py:221-226 | with sound keys both handlers pop the same tags with the same values over every run |
| PipelineShards.QualifiesIff | verl/model_merger/megatron_model_merger.py:82-93 | a middle part qualifies if and only if it is at least the average rounded up and leaves two layers for the ends |
| PipelineShards.LeastDifference | verl/model_merger/megatron_model_merger.py:95-96 | the head of the stable sort is the earliest candidate of least difference |
| PipelineShards.GetDynamicPipelineShards | verl/model_merger/megatron_model_merger.py:57-98 | the outcome for every input: for three or more stages an IndexError if and only if ceil(L/p) * (p - 2) + 2 > L; otherwise parts that add up to L, those in the middle ceil(L/p), and ends that share the rest with the odd layer at the last |
| PipelineShards.SplitIsBest | verl/model_merger/megatron_model_merger.py:57-98 | the split has one positive part per stage, adds up to the layers, and its largest part is the smallest possible over all splits |
| PipelineShards.NineOverEight | verl/model_merger/megatron_model_merger.py:95-97 | nine layers on eight stages are accepted by the guard and cannot be searched |
| PipelineShards.JustAboveMultiple | verl/model_merger/megatron_model_merger.py:82-97 | for one layer more than a multiple k of the stages the search succeeds if and only if 2k + 1 is at least the number of stages |
| QkvLayout.GroupAt | scripts/converter_hf_to_mcore.py:155-160 | group i of the fused weight is the i-th rows of q, then of k, then of v |
| QkvLayout.MergeQkv | scripts/legacy_model_merger.py:530-558 | the merge succeeds only under its asserts, and exactly when all pieces have the size the split asks for; then it is q, k and v collected over all groups of all shards |
| QkvLayout.CollectQkv | scripts/legacy_model_merger.py:542-557 | the loops over shards and chunks collect the rows of every chunk, or fail on a chunk of the wrong size |
| QkvLayout.ShardsRegroup | scripts/legacy_model_merger.py:542-544 | cutting every shard back into its groups gives the groups in order |
| QkvLayout.GroupsUndone | verl/model_merger/megatron_model_merger.py:343-354 | the q, k and v slices of the interleaved groups are q, k and v |
| QkvLayout.QkvRoundTrip | verl/model_merger/megatron_model_merger.py:330-354 | interleaving, cutting into any number of shards that divides the groups, and merging gives back q, k and v row for row; one shard is the merge of a single rank |
| QkvLayout.MergeGateUp | scripts/legacy_model_merger.py:520-529 | gate and up collected over the shards; it fails if and only if a shard has one row |
| QkvLayout.HalfIs | scripts/legacy_model_merger.py:524 | the gate of a shard is its first half, rounded up, and the up the rest |
| QkvLayout.GateUpShardAt | scripts/converter_hf_to_mcore.py:189 | shard i has the i-th rows of gate above the i-th rows of up |
| QkvLayout.GateUpRoundTrip | scripts/converter_hf_to_mcore.py:189 | stacking gate over up on every shard and merging gives back gate and up |
| ExpertShards.CopyExperts | scripts/converter_hf_to_mcore.py:179-194 | the loop copies exactly the experts of this rank into its local slots, in order |
| ExpertShards.AllExpertsPlacedIff | scripts/converter_hf_to_mcore.py:180-187 | the slots of all ranks hold a prefix of the experts, and all of them if and only if the ranks divide their number |
| ExpertShards.ThirdExpertDropped | scripts/converter_hf_to_mcore.py:180-187 | of three experts on two ranks the third is in no slot |
| LayerNumbering.MergeStateDicts | verl/model_merger/megatron_model_merger.py:358-418 | the merged dict is what the renumbered entries of all chunks give, assigned in order |
| LayerNumbering.NumbersBelowBase | verl/model_merger/megatron_model_merger.py:376-386 | every layer number given so far lies from the start up to where the next chunk begins |
| LayerNumbering.KeysStayDistinctIff | verl/model_merger/megatron_model_merger.py:376-414 | no two entries get one name if and only if no name outside of the layers is in two chunks |
| LayerNumbering.EveryTensorKept | verl/model_merger/megatron_model_merger.py:358-420 | the merged dict holds every tensor of every chunk under its renumbered name, and nothing else |
| LayerNumbering.LastEntryWins | verl/model_merger/megatron_model_merger.py:414-418 | of several entries with one name the merged dict has the last |
| StageTiling.NumbersDiffer | scripts/legacy_model_merger.py:613-657 | two layers of any chunks never get the same global number, whatever the sizes |
| StageTiling.MergedLayers | verl/model_merger/megatron_model_merger.py:376-418 | the layer numbers in the merged dict are exactly those given to the layers of the chunks |
| StageTiling.TensorGoesTo | verl/model_merger/megatron_model_merger.py:376-418 | layer l of a chunk is found, with its tensor, under the number l more than all layers of the chunks before it; a name outside of the layers is found as it is |
| StageTiling.LayersTileIff | scripts/legacy_model_merger.py:613-657 | the layers are numbered without a hole if and only if no chunk without layers comes before one with layers |
| StageTiling.EmbeddingChunkLeavesHole | scripts/legacy_model_merger.py:657 | a first chunk with only the embedding moves layer 0 of the second chunk to number 1 |
| StageTiling.InterleavedStages | scripts/legacy_model_merger.py:616-618 | with equal chunks, the chunk of virtual stage v on pipeline rank p starts at v * pp * m + p * m |
| StageTiling.CumSum | verl/model_merger/megatron_model_merger.py:362 | entry r of the cumulative sums is the total of the first r + 1 stages |
| StageTiling.LayerStart | verl/model_merger/megatron_model_merger.py:363 | a rank starts at the total of the stages before it |
| StageTiling.Owner | verl/model_merger/megatron_model_merger.py:360-363 | every layer below the total belongs to exactly one rank |
| StageTiling.RanksTile | verl/model_merger/megatron_model_merger.py:360-386 | over all ranks the layers 0 to L - 1 are each in the dict of exactly one rank, and no rank has any other |
| Splitting.EqualPieces | verl/protocol.py:892 | chunking a length that n divides gives n equal consecutive pieces |
| Splitting.ChunkAt | verl/protocol.py:892 | for any length, chunk i starts at i times the chunk size, the least that needs at most n chunks, and only the last is shorter |
| Splitting.ArraySplit | verl/model_merger/megatron_model_merger.py:440 | the pieces put together are the whole, the first ones longer by one; it fails if and only if there are no pieces |
| OutputFiles.SaveModel | verl/model_merger/megatron_model_merger.py:435-457 | for one rank: every key given is in exactly one file, the one its index names; the files, one per layer below 30 layers and two from 30 on, have the numbers of the layers of the rank and hold the keys in order, evenly; it fails if and only if the rank has no layers |
| OutputFiles.FilesTile | verl/model_merger/megatron_model_merger.py:431-453 | over all ranks the file numbers 1 to the total are each written by exactly one rank |
| MergedFiles.KeyOfOneRank | verl/model_merger/megatron_model_merger.py:376-414 | with no name outside of the layers in two chunks, no key is in the dicts of two ranks |
| MergedFiles.EachKeyOnceIff | verl/model_merger/megatron_model_merger.py:435-465 | over all ranks, every key is in exactly one file of one rank and the merged index names that file, if and only if no name outside of the layers is in the chunks of two ranks |
| MergedFiles.StoredIff | verl/model_merger/megatron_model_merger.py:435-457 | a key is in some file if and only if it is in the merged dict of some rank |
| MergedFiles.KeyList | verl/model_merger/megatron_model_merger.py:439 | the names of a dict as a list, each once |
| MergedFiles.MergeAndSave | verl/model_merger/megatron_model_merger.py:358-457 | every rank merges its chunk from its own first layer on and saves exactly the keys of the result, evenly over its files; over all ranks the file numbers are 1 to the number of layers, or to twice that from 30 layers on; it fails if and only if some rank has no layers |
| DataProto.GatherGather | verl/protocol.py:646-684 | choosing rows of chosen rows is one choice, in every column |
| DataProto.SliceIsGather | verl/protocol.py:686-728 | a slice is the choice of consecutive rows, in every column |
| DataProto.PadToDivisor | verl/protocol.py:73-98 | the padded batch takes row i mod len for every i up to the next multiple; a batch of a fitting size, or without rows, is unchanged |
| DataProto.ChunkIsGather | verl/protocol.py:875-914 | chunk i has the i-th equal range of rows, in the tensors and in the arrays alike, with and without tensors |
| DataProto.ChunksRejoin | verl/protocol.py:875-972 | chunking succeeds if and only if the number divides the batch, and concatenating the chunks gives the batch back |
| DataProto.SplitRejoins | verl/protocol.py:916-925 | splitting into slices of any size, the last perhaps shorter, and concatenating gives the batch back |
| DataProto.SplitIs | verl/protocol.py:916-925 | slice k of a split has the rows from k * size on, as many as the size or as there are, and there are ceil(len / size) of them |
| DataProto.ConcatTensors | verl/protocol.py:927-972 | batches with the same columns are concatenated, and each tensor column of the result is that column of the batches, one after the other |
| DataProto.ConcatArrays | verl/protocol.py:927-972 | the same for each array column |
| ShardedRun.PaddedRows | verl/protocol.py:73-98 | the padded size is the next multiple, reached with less than one divisor of padding; row i of every column is row i mod len of the batch, so the original rows come first |
| ShardedRun.UnpadPadded | verl/protocol.py:101-105 | dropping the padding of a batch that starts with d gives d |
| ShardedRun.UnpadDropsLast | verl/protocol.py:101-105 | unpadding keeps the rows before the last pad_size, and none where there are fewer |
| ShardedRun.WorkOnChunks | verl/protocol.py:875-972 | a row-wise worker on the chunks gives the chunks of its result on the whole |
| ShardedRun.ShardedRunIsRun | verl/protocol.py:73-105 | padding, chunking, working per chunk, concatenating and unpadding gives what the worker gives on the whole batch, for any number of workers |
| ShardedRun.ShardedRunMapsRows | verl/protocol.py:73-105 | with any function of a row, the sharded run maps that function over the original rows |
| ShardedRun.FuturesPassOn | verl/protocol.py:1208-1239 | future i of a future gives what the worker makes of the i-th chunk, for any two numbers of chunks that each divide the batch |
| RowMaps.RepeatIsGather | verl/protocol.py:982-1024 | interleaved repetition takes row k div n and tiled repetition row k mod len, in every tensor and array column, element by element |
| RowMaps.SampleLevelRepeatIsGather | verl/protocol.py:1065-1111 | repetition by counts takes, in every column, the row whose prefix sums enclose k |
| RowMaps.RowOfUnique | verl/protocol.py:1093-1105 | that row is the only one whose prefix sums enclose k |
| BatchShapes.FoldUnfold | verl/protocol.py:213-249 | folding succeeds if and only if there are tensors and the new size divides the batch, and unfolding gives the batch back |
| BatchShapes.UnfoldFold | verl/protocol.py:213-249 | unfolding and folding to the old number of rows is the identity |
| BatchShapes.SplitColumnIff | verl/protocol.py:1036-1039 | a split of a column succeeds if and only if n divides its width, and keeps every cell in order |
| BatchShapes.SplitColumnAt | verl/protocol.py:1036-1039 | row i * n + j of a split column is the j-th part of row i |
| BatchShapes.UnfoldColumnChunksKeepsCells | verl/protocol.py:1026-1063 | exactly when the unfolding succeeds; then no cell of a split column is lost or duplicated and every other column takes row k div n |
| BatchShapes.MissingKeysRaise | verl/protocol.py:1036-1057 | a concrete batch with one array column for which the call without split keys raises |
| ImageZoom.Targets | verl/tools/image_zoom_in_tool.py:239-255 | the scaling steps amount to one net scale, the smallest of the three factors, and the target fits the image |
| ImageZoom.MaybeResize | verl/tools/image_zoom_in_tool.py:205-297 | the step-by-step computation equals the closed form by net scale and clamped placement, including when it gives nothing |
| ImageZoom.ClampedIsCommon | verl/tools/image_zoom_in_tool.py:218-222 | the clamped box is the intersection of box and image |
| ImageZoom.NetScaleIsLargest | verl/tools/image_zoom_in_tool.py:239-255 | the target is the box times the largest factor that keeps both sides in the image and the smaller one at 28 or less |
| ImageZoom.SmallBoxCentred | verl/tools/image_zoom_in_tool.py:235-297 | a small box becomes the target size around its centre, at the edge of the image where it passes one, rounded outwards to whole numbers; that is what is returned, unless its aspect or a side is not good enough |
| ImageZoom.CentreKept | verl/tools/image_zoom_in_tool.py:257-279 | where the centred box stays in the image its centre moves by less than half a pixel |
| ImageZoom.ZoomedAspect | verl/tools/image_zoom_in_tool.py:224-297 | what is returned, and the clamped box it comes from, have aspect at most 100; a box of 28 by 28 or more is returned as clamped exactly if it still is that large between whole numbers |
| ImageZoom.NetScaleBounds | verl/tools/image_zoom_in_tool.py:239-255 | for a box that is too small the net scale is at least 1, and the target covers the box and fits the image |
| ImageZoom.ZoomedSound | verl/tools/image_zoom_in_tool.py:206-214 | any box returned lies in the image, has integer extent of at least 28 on both sides and contains the clamped input box |
| ImageZoom.FittingBoxReturned | verl/tools/image_zoom_in_tool.py:228-297 | a small box of aspect at most 99 whose enlargement fits the image is always returned |
| Groupwise.OnePass | verl/utils/groupwise.py:207-208 | s2 - s1 * s1 / n is the sum of squared deviations from the mean, hence not negative |
| Groupwise.VarianceByPairs | verl/utils/groupwise.py:208-210 | the variance times n(n - 1) is half the sum of the squared differences of all pairs |
| Groupwise.FromSumsIsDue | verl/utils/groupwise.py:207-221 | the formulas after the pass give the true mean and the unbiased variance with its floor, and mean 0 and deviation 1 for at most one row |
| Groupwise.Accumulate | verl/utils/groupwise.py:203-205 | counts, sums and sums of squares per group are those of its members |
| Groupwise.GroupMeanStd | verl/utils/groupwise.py:164-223 | every group has its number of rows, and with two rows or more their mean and unbiased variance with its floor, otherwise 0 and 1; it fails if and only if the lengths differ |
| Groupwise.RowOrderIrrelevant | verl/utils/groupwise.py:203-211 | permuting the rows changes neither the number of groups nor any group's mean, variance or count |

## Left out

- Sockets, ZeroMQ, NIXL and NCCL calls, CUDA streams, process groups, logging and timing: message and notification queues are FIFO, a started transfer can always go on, streams finish a copy before anything reads it.
- Dtypes and shapes of transferred weights: a weight is its name and bytes; the view of a slice by dtype and shape is not modelled.
- The transfer theorems take every weight to fit a bucket, as the assert in the loop demands; `SendWeights` says what happens otherwise. The rank that sends and the ranks that receive are all there from the start.
- Filling one weight into the sender's buffer is one step of the ring; reads copy single bytes in any order.
- Collective calls of the broadcast engine are paired by their call number.
- The failure of a transfer and the exit of the process that follows.
- Floating point: the box and variance kernels use exact reals. The square root of the variance is not taken; the square of the standard deviation is stated.
- NixlAgent.Agent.GetNotification: the polls are a given list, and it returns nothing where the code would wait on.
- OffloadHandler.AsyncDoubleBufferGroupOffloadHandler.TensorPop: what the tables hold after a failed assert is not described; the same holds for the other methods of the handler.
- What makes a tensor stray (its class, or the checker) is a parameter of the push.
- Addresses and strides of reloaded tensors, and memory held outside the handler's tables; with as many offload groups as layers only the first group is really copied, and the theorems cover that case.
- LayerNumbering.MergeStateDicts: names are layer number and kind; the substring table of names, the skipped extra state, tied embeddings, expert names and the split of a fused tensor inside the loop are not part of it.
- Merging of weights that are concatenated along a fixed dimension or replicated over shards: one library call each.
- QkvLayout.QkvRoundTrip: weights are their rows; the hidden dimension is inside a row. Numbers of shards that do not divide the groups are covered by the failure condition of the merge only.
- Writing and reading checkpoint files, HuggingFace upload, argument parsing, the FSDP merger.
- DataProto.SliceIsGather: bounds between 0 and the length, taken one by one; steps and negative bounds of a slice are not covered.
- DataProto.Concat: batches with different columns give nothing; the code raises for most of these, but drops the tensors of later batches when the first has none, and without tensors lets columns get different lengths; meta information and the merging of metrics are not modelled.
- DataProto.ChunkIsGather: chunking with automatic padding and uneven sizes, and of a batch without rows, depends on the library version.
- RowMaps.SampleLevelRepeatIsGather: one count per row; a single count that the library would broadcast is not modelled.
- BatchShapes.FoldUnfold: the code also replaces the arrays in the table of its argument; the model returns the folded batch and leaves the argument alone.
- Selecting, popping, renaming and joining columns, iterators and serialization of batches.
- Groupwise.GroupMeanStd: group indices are non-negative, as its documentation asks; turning labels into indices is not modelled.
- ImageZoom.FittingBoxReturned: one direction; for aspects between 99 and 100, and for images the enlargement does not fit, rounding decides, and `SmallBoxCentred` has the exact outcome.

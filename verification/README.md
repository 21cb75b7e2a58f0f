# Verified models of Omni-Infer's KV-cache machinery

This project models the KV-cache, tensor-parallel and speculative-decoding logic of Omni-Infer in
Dafny and proves what that logic is for.  `dafny verify dfyconfig.toml` checks all of it.

| module | models |
|---|---|
| `HostCache`, `HostReads`, `VolatileCache`, `PrefixSegments` | the prefill host cache that is sharded over nodes and ranks: storing tokens, cutting prefixes into ranges, reading, gathering and placing blocks, up to the round trip from stored token to device cache |
| `MergedCopy`, `HybridTransfer` | merged host-to-device copies and the copy for hybrid layers |
| `SinkRecentWindow`, `WindowMetadata` | the sink+recent attention window as a ring over decode steps with rejections, its rotated block tables, and the context that attention uses |
| `KvCacheManager` | the hybrid block allocator over whole runs |
| `RowPermutation` | the in-place row reordering of the sampler caches |
| `TransferProtocol`, `LoadOrder`, `PendingLoads`, `LostLoads`, `DoneSending`, `Expiry` | the prefill/decode transfer under all interleavings, in which order loads go, which are pending and which get lost, how often a request is reported as sent, and the early-break expiry |
| `RowParallel`, `GatedMlp`, `QkvShards` | tensor-parallel layers against the unsharded ones |
| `SpeculativeSampler` | greedy speculative decoding and the rejection sampler's output |
| `PipelineSplit`, `RankMapping`, `BlockBudget` | stage splits, rank mapping and links, block budget |
| `Arith`, `Buffers`, `Wrappers` | division with remainder, flat buffers cut into parts, optional results |

Code that works step by step is a method or a class whose contract gives its whole new state through
a function of the old one; what the code is for is then proved about those functions, mostly as lemmas
over every input or every run.  Python exceptions are outcomes (`None`, `Err`, a constructor).
Tensors are sequences or arrays, collectives and memory copies are modelled by their effect, clocks
and the answers of other processes are parameters, floating-point numbers are integers, and activation
functions and the target model are arbitrary functions.

Where the code does not do what a reader would expect, the exact condition is proved instead:

- Moving several tensors at once only moves the first, because the marks are shared
  (`RowPermutation.LaterTensorsFollowOnlyInPlace`, `RowPermutation.SecondTensorExample`); with departing
  requests a row can be overwritten before it is read (`RowPermutation.ExactlyIntactRowsFollow`,
  `RowPermutation.LostRowExample`).
- A long prompt that ends inside a block loses each ring token that it had pulled earlier than the last
  `recent` positions would, by the unused end `tail` of its last block (`SinkRecentWindow.PulledStaysExact`,
  `SinkRecentWindow.WindowAfterRun`, `SinkRecentWindow.EarlyLossExample`), attention in steps of two
  or more tokens sees these tokens only nearer by `tail` (`WindowMetadata.ContextAfterRun`), and ring slots
  can be left that were never filled (`SinkRecentWindow.LongPromptRingFull`,
  `SinkRecentWindow.StaleSlotExample`) and that attention reads all the same
  (`WindowMetadata.UnfilledSeenExact`, `WindowMetadata.UnfilledSeenExample`).
- In a full window the only token of a step attends to everything that the window remembers, the newest of
  several to less (`WindowMetadata.ContextAfterRun`, `WindowMetadata.OneTokenSeesMoreExample`).
- When the response thread ends with an exception, the loads that it has sent and whose answer it has not
  read stay pending for good (`LostLoads.LostExact`, `LostLoads.SettledExact`, `LostLoads.LostLoadExample`).
- Two calls of the prefill side's `get_finished` can report the same request: for its delay and for a
  notification, in either order, or for two notifications (`DoneSending.ReportedTwiceExact`,
  `DoneSending.LateThenPulledExample`, `DoneSending.PulledThenLateExample`).
- When the ring wraps inside a step, a token can see a later one, in steps of three or more, and a token
  can fail to see itself, already in steps of two with one recent block; `WindowMetadata.CausalExact` says
  exactly when (`WindowMetadata.LaterTokenSeenExample`, `WindowMetadata.SelfUnseenExample`).
- The accepted-token counter of the rejection sampler also counts flags behind a rejection
  (`SpeculativeSampler.AcceptedCounterExact`, `SpeculativeSampler.CountedBehindRejectionExample`).
- The early break of the expiry scan needs time order, which a reused id destroys
  (`Expiry.EarlyBreakExact`, `Expiry.ReusedIdHidesExpiry`).
- Decode groups share a KV group unless their number times gcd(step, KV groups) is at most the number of
  KV groups: always when there are more of them than KV groups, and also for some smaller numbers
  (`RankMapping.CollisionFreeExact`, `RankMapping.CollisionExample`).
- The block budget allows one full layer more than the pattern has, but not any layer counts: a model
  of 32 layers exceeds it (`BlockBudget.BudgetExact`, `BlockBudget.BudgetExceededExample`).

## Model

| member | source | states |
|---|---|---|
| HostCache.CalcCacheShape | omni/accelerators/cache/omni_cache.py:241-255 | The cache shape exists exactly when the rank count is a multiple of 16 and the block size a multiple of the rank count; then 16 * nodes ranks times the rows of a rank make a block. |
| HostCache.OwnerOfSlot | omni/accelerators/cache/omni_cache.py:388-390 | Every slot has exactly one owning rank, and its node is the one that keeps this part of the block. |
| HostCache.HostRowsDistinct | omni/accelerators/cache/omni_cache.py:388-391 | Two different slots owned by ranks of one node never share a row of the node cache. |
| HostCache.HostRowOf | omni/accelerators/cache/omni_cache.py:388-391 | Offset `o` of block `b` is row `o % nodeRows` of block `b` on node `o / nodeRows`. |
| HostCache.TokenIndices | omni/accelerators/cache/omni_cache.py:390 | The tokens that a rank stores: exactly those whose slot it owns and whose slot is positive, in increasing order. |
| HostCache.StoreTokens | omni/accelerators/cache/omni_cache.py:554-560 | Every selected token ends up in the row its slot stands for, and every other row of the node cache is unchanged. |
| HostCache.StoredForGood | omni/accelerators/cache/omni_cache.py:388-399 | Once all owning ranks of a node have written, in any order, every token of a positive slot is in its row: no later rank overwrites it. |
| HostCache.OtherTokensStay | omni/accelerators/cache/omni_cache.py:554-560 | A later step that writes other slots leaves an earlier token in its row, whatever order the ranks write in. |
| HostCache.SlotZeroIsNotStored | omni/accelerators/cache/omni_cache.py:390 | The token of slot 0 is never written, so block 0 cannot be read back: this is why block ids start at 1. |
| HostCache.AllNodesKeep | omni/accelerators/cache/omni_cache.py:388-399 | After every rank of every node has stored its tokens, each token of the step is kept on the node and in the row that its slot stands for. |
| HostCache.LaterStepKeeps | omni/accelerators/cache/omni_cache.py:388-395 | Everything that earlier steps stored survives a whole step, of all ranks of all nodes in any order, on other slots. |
| HostCache.RunKeepsLast | omni/accelerators/cache/omni_cache.py:388-395 | Over every run of store steps, with slots used again, a slot holds on its node the row that was stored there last. |
| HostReads.ReadBlocks | omni/accelerators/cache/omni_cache.py:430-465 | The run-extending loop, with a start inside a block and a short tail, returns exactly the wanted rows of the blocks laid end to end. |
| HostReads.ReadOn | omni/accelerators/cache/omni_cache.py:447-459 | One iteration keeps the loop invariant on both branches: extending over a consecutive block id, or reading the open run and starting the next one. |
| HostReads.GetCurrentRankHostData | omni/accelerators/cache/omni_cache.py:417-467 | Rank `r` of a node reads rows `r * m .. (r + 1) * m` of the blocks laid end to end; it fails exactly when there is no block. |
| HostReads.NodeGathered | omni/accelerators/cache/omni_cache.py:424-439 | The 16 shares of a node, one after the other, are exactly its rows of the blocks in order. |
| HostReads.NodesGathered | omni/accelerators/cache/omni_cache.py:496-497 | The all-gather over all ranks is the nodes' rows, node by node. |
| HostReads.GatheredRow | omni/accelerators/cache/omni_cache.py:497-500 | Row `j` of block `i` on node `d` is element `(d * blocks + i) * n + j` of the gathered data. |
| HostReads.ToBlocksLoads | omni/accelerators/cache/omni_cache.py:500-510 | After view, permute and view again, row `off` of block `i` is the row that node `off / n` keeps for it at `ids[i] * n + off % n`. |
| HostReads.LoadBlocks | omni/accelerators/cache/omni_cache.py:477-510 | Reading on every rank, gathering and rearranging returns every wanted block with its rows in the original order. |
| VolatileCache.NewTokenByTable | omni/accelerators/cache/omni_cache.py:289-294 | The slot computed for a new token is the one that the volatile table gives for its position. |
| VolatileCache.SlotsApart | omni/accelerators/cache/omni_cache.py:289-294 | Two different (request, position) pairs have different slots, so requests never collide and loaded prefixes never overlap new tokens; device block 0 is never used. |
| VolatileCache.NewTokenSlots | omni/accelerators/cache/omni_cache.py:400-415 | The slot mapping of a batch is the requests' last positions in order, then the padding; it fails exactly when the length does not match. |
| VolatileCache.UpdateDeviceCache | omni/accelerators/cache/omni_cache.py:469-476 | Block `k` of request `i` is in device block `volatile_table[i][k]` and every other device block is unchanged. |
| VolatileCache.FlattenBlockIds | omni/accelerators/cache/omni_cache.py:418-422 | The loader's flattening lists the blocks of all ranges of all requests in order. |
| Buffers.PartOf | omni/accelerators/cache/omni_cache.py:506-511 | Cutting the joined row at the tensors' widths gives the joined tensors back. |
| VolatileCache.SynchronizeH2D | omni/accelerators/cache/omni_cache.py:477-514 | The whole load puts every row of every wanted block where the volatile table says; other device blocks are unchanged; it fails exactly when no request has a prefix. |
| VolatileCache.PrefixRoundTrip | omni/accelerators/cache/omni_cache.py:388-514 | Round trip: the row that was stored for the token at prefix position `t` of a request is the row the device cache holds at `volatile_table[i][t / B]`, `t % B`. |
| VolatileCache.LoadPrefixes | omni/accelerators/cache/omni_cache.py:325-514 | The whole way: after any run of store steps, cutting, loading and placing the prefixes of a batch makes every prefix position of every request lead, through the volatile table, to the row that was stored last for its slot; the three failures are a cached length off a block boundary, a batch without requests and a batch without any prefix. |
| PrefixSegments.SegmentsExact | omni/accelerators/cache/omni_cache.py:350-359 | The ranges of a block-table row stand for exactly its blocks in order, every range holds a block, and no two neighbouring ranges can be joined. |
| PrefixSegments.RequestSegments | omni/accelerators/cache/omni_cache.py:342-361 | The ranges of one request, over its empty, one-block and longer cases, stand for exactly the blocks that its cached tokens fill. |
| PrefixSegments.GetPrefillPrefixCopyMeta | omni/accelerators/cache/omni_cache.py:325-370 | No metadata outside chunked prefill, an assertion for a cached length off a block boundary, an error for an empty batch, and else for every request exactly the ranges of its prefix and the buffer rows of its own tokens. |
| PrefixSegments.QuerySlotsIncrease | omni/accelerators/cache/omni_cache.py:362-366 | The buffer rows of the batch's tokens go up strictly, so no two tokens share one. |
| PrefixSegments.QuerySlotIs | omni/accelerators/cache/omni_cache.py:362-366 | The buffer row of each token: behind the prefixes up to its own and the earlier tokens of the batch. |
| PrefixSegments.RangeBlocksAre | omni/accelerators/cache/omni_cache.py:911-913 | The number of blocks counted from the ranges is the number of blocks that they stand for. |
| MergedCopy.MergeRuns | omni/accelerators/cache/kv_mem_pool.py:234-254 | The merged list tiles the blocks, each run is contiguous on both sides, and no run could be longer. |
| MergedCopy.RunIsItsBlocks | omni/accelerators/cache/kv_mem_pool.py:249-253 | One merged run leaves memory as copying its blocks one after the other does. |
| MergedCopy.MergedRefines | omni/accelerators/cache/kv_mem_pool.py:234-254 | The merged list leaves every memory in the same state as copying block by block. |
| MergedCopy.BatchLayerCopy | omni/accelerators/cache/kv_mem_pool.py:216-262 | The list issued for all tensors and layers has the effect of one copy per block; it fails exactly for a block outside the pool or an empty slice. |
| MergedCopy.CopiedIsLoaded | omni/accelerators/cache/kv_mem_pool.py:163-232 | In contents: with a host pool laid out tensor by tensor, layer by layer and block by block, the copies bring to each device place the requested block of the requested layer and tensor. |
| MergedCopy.SynchronizeH2D | omni/accelerators/cache/omni_cache.py:737-777 | In batches of any positive size, every block, layer and tensor of the request is copied once, and with separate destinations the device then holds the contents of exactly the requested blocks in all their layers and tensors; memory outside the request is unchanged also when a block is not in the pool. |
| MergedCopy.ListedCopiesSuffice | omni/accelerators/cache/omni_cache.py:765-777 | A list of exactly the request's copies puts every block in its place in whatever order, and leaves all other memory alone. |
| HybridTransfer.OmniTransfer | omni/accelerators/cache/omni_cache.py:788-796 | The windowed layers get the sink blocks and the most recent blocks of the request, in order, or all blocks of a short one. |
| HybridTransfer.SynchronizeH2DOmniAttn | omni/accelerators/cache/omni_cache.py:779-828 | Wrong tables are refused without a copy; else both groups are copied: with separate places the full layers then hold the contents of every block, the windowed layers those of the sink and most recent blocks; memory outside both is unchanged also when a copy fails, and the second table is left cut to a short first one. |
| SinkRecentWindow.WindowPosIsPlace | omni/accelerators/cache/utils.py:90-104 | The slot formula sends every decoded position to its place: sinks to themselves, the rest around the ring of recent slots. |
| SinkRecentWindow.PlacesDistinct | omni/accelerators/cache/utils.py:90-104 | Any `recent` consecutive positions have different places, and none of them is the place of a sink. |
| SinkRecentWindow.PlaceRepeats | omni/accelerators/cache/utils.py:102 | The place comes back after exactly `recent` positions. |
| SinkRecentWindow.StepOnOld | omni/accelerators/cache/utils.py:90-107 | One step keeps an accepted position in its place exactly while it is a sink or among the last `recent` below the high mark. |
| SinkRecentWindow.StepOnNew | omni/accelerators/cache/utils.py:90-107 | The tokens of a step are in their places right after the write. |
| SinkRecentWindow.RunKeepsInv | omni/accelerators/cache/utils.py:90-107 | Over every run of steps with any rejected suffixes, an accepted position is in its place exactly while it is kept. |
| SinkRecentWindow.PulledBlocksMatch | omni/accelerators/cache/pd.py:154-166 | Pulling never finds lists of different length, and window block `i` receives the sink or most recent block that belongs to it. |
| SinkRecentWindow.PulledPositionIs | omni/accelerators/cache/pd.py:154-166 | Which sequence position a pulled window slot holds, in closed form. |
| SinkRecentWindow.PulledTail | omni/accelerators/cache/pd.py:154-166 | For a long prompt that ends on a block boundary the last `recent` tokens are pulled to where decoding would have put them. |
| SinkRecentWindow.PulledInv | omni/accelerators/cache/pd.py:154-166 | The pulled window satisfies the run invariant from the first position that it is faithful to. |
| SinkRecentWindow.PulledStaysExact | omni/accelerators/cache/utils.py:90-107 | Over every run, a ring position that a long prompt had pulled stays in its slot exactly as long as decoding has not come within `recent - tail` positions of it, `tail` being the unused end of the prompt's last block. |
| SinkRecentWindow.WindowAfterRun | omni/accelerators/cache/utils.py:84-107 | Main result, for every prompt and run: while the next `t` tokens are in the window, in their places, exactly these accepted positions are in any slot, and then in the one where they are looked for: the sinks, the last `recent - t`, and of what a long prompt had pulled only the last `recent - t - tail`. |
| SinkRecentWindow.EarlyLossExample | omni/accelerators/cache/pd.py:154-166 | A prompt of 17 tokens with three recent blocks of four: position 8 is overwritten by the first decoded token although it is among the last twelve. |
| SinkRecentWindow.RunTraces | omni/accelerators/cache/utils.py:90-107 | Over every run, a slot that decoding has reached holds a decoded position that belongs there, and any other slot holds what was pulled into it, if anything. |
| SinkRecentWindow.LongPromptRingFull | omni/accelerators/cache/pd.py:154-166 | For long prompts: no ring slot is left over from an earlier owner of the blocks exactly when the prompt ends on a block boundary, or the tokens computed again cover its unused tail, or `recent` tokens have been decoded. |
| SinkRecentWindow.StaleSlotExample | omni/accelerators/cache/pd.py:154-166 | A prompt of 17 tokens in a window of 16 leaves a ring slot unfilled. |
| SinkRecentWindow.DecodeSlots | omni/accelerators/cache/utils.py:90-104 | For every prompt length: no token decoded past the sink size goes to a sink slot, and `recent` consecutive ones go to different slots. |
| WindowMetadata.RotateAt | omni/accelerators/cache/utils.py:116-125 | Rotating moves the block in column `b` to column `(b + shift) % n`. |
| WindowMetadata.RotatePermutes | omni/accelerators/cache/utils.py:116-125 | Every rotated block-table row is a permutation of the original row. |
| WindowMetadata.LastTokenSees | omni/accelerators/cache/utils.py:113-136 | Past the window the last token is at logical index length - 1 and sees every slot but those after it in its own block. |
| WindowMetadata.LogicalOnRing | omni/accelerators/cache/utils.py:113-136 | Where the token `k` back is found in the rotated table: length - 1 - k without a wrap, and the two cases of a wrap. |
| WindowMetadata.SeesExact | omni/accelerators/cache/utils.py:113-136 | Past the window, exactly which token of a step sees which other one. |
| WindowMetadata.SeesUnrotated | omni/accelerators/cache/utils.py:113-136 | Before the window is full a token sees another exactly when it is not newer. |
| WindowMetadata.NewestSeesExact | omni/accelerators/cache/utils.py:113-136 | In positions of the sequence, for steps of two or more tokens: in a full window the newest token sees a decoded ring position exactly when it is at most `recent - blockSize + d % blockSize` back, `d` being the newest token's ring offset. |
| WindowMetadata.OneTokenSees | omni/layers/attention/backend/mla.py:847-848 | In steps of one token the table is not rotated: every window slot below the sequence length is read, in a full window all of them. |
| WindowMetadata.HomeOnRing | omni/accelerators/cache/utils.py:84-136 | A remembered ring position lies as many slots before the newest token as it is back in the sequence, and `tail` more if a long prompt had pulled it. |
| WindowMetadata.ContextAfterRun | omni/accelerators/cache/utils.py:54-146 | Runs, window and metadata together: after any run the newest token attends to every accepted position until the window is full; then, in steps of one token, to exactly what the window remembers, and in longer steps to exactly the sinks and the positions near enough, of what a long prompt had pulled only those nearer by `tail`. |
| WindowMetadata.OneTokenSeesMoreExample | omni/accelerators/cache/utils.py:113-140 | A position that is in the window, attended to by the only token of a step and not by the newer of two. |
| WindowMetadata.SlotSeenFull | omni/accelerators/cache/utils.py:113-140 | Which slots of a full window the newest token reads: all in steps of one token, else all but those behind it in its block. |
| WindowMetadata.UnfilledSeenExact | omni/accelerators/cache/utils.py:54-146 | After any run from a long prompt: exactly which slots the newest token reads although nothing was pulled or written there. |
| WindowMetadata.UnfilledSeenExample | omni/accelerators/cache/utils.py:113-140 | A prompt of 17 tokens whose first step, of one or two tokens, reads slot 13 unfilled. |
| WindowMetadata.TwoTokensCausal | omni/accelerators/cache/utils.py:113-136 | Steps of two tokens with at least two recent blocks: each sees itself, the newer sees the older, never the other way round, also across a wrap. |
| WindowMetadata.CausalExact | omni/accelerators/cache/utils.py:113-136 | For steps of every length up to the ring, past the window: no token sees a later one exactly when at most one token of the step was written before the ring wrapped, or there is no sink block, or the newest token is in the last ring block; every token sees itself exactly when the ring did not wrap inside the step or its oldest token lies in a later block than the newest. |
| WindowMetadata.LaterTokenSeenExample | omni/accelerators/cache/utils.py:113-136 | Three tokens around a wrap, where the oldest sees the next one. |
| WindowMetadata.SelfUnseenExample | omni/accelerators/cache/utils.py:113-136 | Two tokens around a wrap with one recent block, where the older one does not see itself. |
| WindowMetadata.PhysicalSlotsDistinct | omni/accelerators/cache/utils.py:104-107 | Different window positions, and positions of requests without common blocks, have different cache slots. |
| WindowMetadata.TokenSlotIsPlace | omni/accelerators/cache/utils.py:90-107 | In its request's own block table the slot of a decoded token is that of the token's place, and of no other. |
| WindowMetadata.BuffersSee | omni/accelerators/cache/utils.py:113-136 | With the table row and the length of one token of a step, attention reads the slot of another exactly when the one sees the other. |
| WindowMetadata.OmniAttnDecodeInput.Compute | omni/accelerators/cache/utils.py:54-146 | The refilled buffers hold exactly the slots, rotated tables and lengths of the batch and padding elsewhere; through them attention for one token of a request reads the slot of another exactly when it sees it; only padding for a single request without tokens; the error cases change nothing. |
| WindowMetadata.OmniAttnDecodeInput.FillSlots | omni/accelerators/cache/utils.py:104-108 | The slot buffer: -1 refilled, then block times block size plus offset per token. |
| WindowMetadata.OmniAttnDecodeInput.FillTable | omni/accelerators/cache/utils.py:117-126 | The table buffer: the rotated row of a token's request, zero elsewhere. |
| WindowMetadata.OmniAttnDecodeInput.FillLengths | omni/accelerators/cache/utils.py:129-136 | The length buffer: one less per token before the last, zero elsewhere. |
| RowPermutation.RewriteRow | omni/layers/npu_sampler_cache.py:12-20 | One iteration of the inner loop: the saved row, the copied row and the mark; it raises exactly for a source past the tensor. |
| RowPermutation.MoveRows | omni/layers/npu_sampler_cache.py:10-20 | One tensor: the walks end, each row is written at most once, and row `p` holds the old row that the walk order determines, using one spare row. |
| RowPermutation.MoveCachedTensors | omni/layers/npu_sampler_cache.py:5-20 | Several tensors with the shared list of marks: the first is moved, all later ones keep their rows, and an error is raised exactly when a source is past the live rows. |
| RowPermutation.PermutationIntact | omni/layers/npu_sampler_cache.py:10-20 | On a permutation no row is lost before it is read. |
| RowPermutation.ReorderedRowsFollow | omni/layers/npu_sampler_cache.py:41-54 | Main result for one tensor: after reordering the same requests every row holds its own request's data. |
| RowPermutation.ExactlyIntactRowsFollow | omni/layers/npu_sampler_cache.py:10-20 | With departing requests, row `j` receives the right data for every tensor content exactly when its source is still intact when it is read. |
| RowPermutation.LostRowExample | omni/layers/npu_sampler_cache.py:10-20 | A concrete list on which a row is overwritten before it is read. |
| RowPermutation.LaterTensorsFollowOnlyInPlace | omni/layers/npu_sampler_cache.py:7-13 | Because the marks are not reset, the later tensors are right for all contents exactly when no row had to move. |
| RowPermutation.SecondTensorExample | omni/layers/npu_sampler_cache.py:7-13 | Two requests that swap rows, for which the second tensor is wrong. |
| RowPermutation.SourceRowsInjective | omni/layers/npu_sampler_cache.py:45-52 | The list built from distinct ids reads no row twice, and it is a permutation when the ids are the same. |
| RowPermutation.CollectSourceRows | omni/layers/npu_sampler_cache.py:45-52 | Entry `j` is the old row of request `new[j]`, or -1 for a new request. |
| RowPermutation.RowCache.PermuteCachedReqs | omni/layers/npu_sampler_cache.py:41-54 | The whole reordering, with the id list it leaves behind. |
| SpeculativeSampler.KeepPrefixes | omni/layers/sampler.py:940-941 | The in-place loop turns each row of flags into the flags of its accepted prefix. |
| SpeculativeSampler.SampleRow | omni/layers/sampler.py:926-938 | One request: the compared flags, the number accepted before the first rejection, the last accepted index and the masked tokens. |
| SpeculativeSampler.Forward | omni/layers/sampler.py:885-950 | The greedy sampler returns for every request the predictions up to the first rejected draft and -1 after it; its error cases are exactly those of the source. |
| SpeculativeSampler.StepFollows | omni/layers/sampler.py:926-938 | Whatever was drafted, the emitted tokens are the target model's choices one after the other. |
| SpeculativeSampler.Lossless | omni/layers/sampler.py:926-938 | Main result: for every target model and every sequence of drafts a run emits a prefix of the plain greedy stream, at least one token per step. |
| SpeculativeSampler.SampledRowIsEmitted | omni/layers/sampler.py:931-938 | The returned row is what the run consumes: accepted count plus one tokens, then -1. |
| SpeculativeSampler.RejectionSampler.CreateOutput | omni/layers/sampler.py:576-635 | Each row is the accepted drafts, then the substitute for the first rejected one or the bonus token, then -1; the three counters grow as stated. |
| SpeculativeSampler.FillEntries | omni/layers/sampler.py:602-627 | The in-place edits of the output, entry by entry. |
| SpeculativeSampler.EmittedIsLimitPlusOne | omni/layers/sampler.py:602-632 | With real token ids a row emits one token more than it accepts drafts. |
| SpeculativeSampler.AcceptedCounterExact | omni/layers/sampler.py:630-631 | The accepted counter equals the number of accepted drafts exactly when no flag behind a rejection is set. |
| SpeculativeSampler.BatchCounterExact | omni/layers/sampler.py:630-631 | Over a batch the accepted counter grows by the accepted drafts exactly when no row has a flag behind a rejection, by more otherwise. |
| SpeculativeSampler.BatchEmits | omni/layers/sampler.py:602-632 | Over a batch with real tokens the emitted counter grows by the accepted drafts and one token for every request. |
| SpeculativeSampler.CountedBehindRejectionExample | omni/layers/sampler.py:630-631 | A rejected draft followed by a match: none accepted, one counted. |
| SpeculativeSampler.GreedyRejectionAgrees | omni/layers/sampler.py:576-635 | With the predictions as substitutes and bonus, the rejection sampler's row is the greedy sampler's row. |
| RowParallel.LoadShard | omni/layers/linear.py:304-337 | The rank's columns are copied into the parameter; it fails, changing nothing, exactly when narrowing or the shape comparison raises. |
| RowParallel.ShardedDot | omni/layers/linear.py:353-359 | The shard products of a row sum to the whole product, with an addend of rank 0 exactly once. |
| RowParallel.SummedRow | omni/layers/linear.py:353-359 | Summed over the ranks, a row of outputs is the unsharded layer on the whole row. |
| RowParallel.BiasOnce | omni/layers/linear.py:350-363 | The product and the bias returned beside it contain the bias once between them. |
| RowParallel.AllReduceForward | omni/layers/linear.py:1026-1055 | With all-reduce every rank returns the unsharded product of every row. |
| RowParallel.ReduceScatterForward | omni/layers/linear.py:1026-1055 | With reduce-scatter every rank returns the unsharded product of its own rows. |
| RowParallel.SingleRankForward | omni/layers/linear.py:1026-1055 | A single rank returns the unsharded product whatever the reduction. |
| RowParallel.SentElement | omni/layers/linear.py:405-407 | Where the transposed contiguous send buffer holds column part `q` of a token. |
| RowParallel.ReceivedElement | omni/layers/linear.py:408-409 | Where the all-to-all leaves it on rank `q`. |
| RowParallel.ReceivedRow | omni/layers/linear.py:405-411 | Row `p * tokens + t` that rank `q` multiplies is its own columns of token `t` of rank `p`. |
| RowParallel.ExchangeForwardIsWhole | omni/layers/linear.py:401-428 | Main result: each rank gets exactly its own tokens times the full weight, with the bias exactly once. |
| RowParallel.ExchangeForwardAlone | omni/layers/linear.py:401-428 | The same for a single rank. |
| GatedMlp.OffsetIsSum | omni/layers/linear.py:1295 | The offset computed from the full sizes is where the local shards before this one end. |
| GatedMlp.LoadMergedShard | omni/layers/linear.py:1281-1308 | One part of a merged weight is copied to its place and the rest of the parameter is unchanged; it fails exactly where an assertion or narrowing raises. |
| GatedMlp.LoadMerged | omni/layers/linear.py:1281-1308 | Loading every part in any order leaves the rank's shards of all parts one after the other. |
| GatedMlp.GateUpIsLoaded | omni/layers/linear.py:1281-1308 | With two equal parts this is shard `r` of the gate rows followed by shard `r` of the up rows. |
| GatedMlp.RankHiddenIsPart | omni/layers/fused_mlp/layer.py:60-62 | Gate and up stay aligned: the rank's gated activation is its part of the whole one, for every activation function. |
| GatedMlp.AllReduceMlp | omni/layers/fused_mlp/layer.py:120-127 | With all-reduce every rank returns the unsharded MLP of the shared rows, reduced exactly once. |
| GatedMlp.GatherScatterMlp | omni/layers/fused_mlp/layer.py:49-127 | Gathering before and scattering after gives every rank the unsharded MLP of its own tokens. |
| GatedMlp.SingleRankMlp | omni/layers/fused_mlp/layer.py:120-127 | On a single rank nothing is reduced and the result is the MLP. |
| QkvShards.Create | omni/layers/linear.py:1168-1175 | The sharding exists exactly when the divisions leave no remainder, and then sizes and replicas fit together. |
| QkvShards.QueryRowOwner | omni/layers/linear.py:1225-1242 | Every q row is on exactly one rank. |
| QkvShards.KeyValueRowOwners | omni/layers/linear.py:1228-1242 | Every k and v row is on exactly `num_kv_head_replicas` ranks, which are neighbours. |
| QkvShards.HeadsAligned | omni/layers/linear.py:1168-1175 | The key/value head that a local query head reads is the head of its group, both when key/value heads are split and when they are replicated. |
| QkvShards.LocalPartsTile | omni/layers/linear.py:1225-1237 | The local q, k and v parts follow one another and fill the parameter. |
| QkvShards.ShardFits | omni/layers/linear.py:1238-1245 | A rank's shard lies within the checkpoint part. |
| QkvShards.LoadShard | omni/layers/linear.py:1221-1251 | One part is copied to its place and the rest of the parameter is unchanged. |
| QkvShards.LoadFused | omni/layers/linear.py:1187-1219 | Row by row from the fused tensor: the parameter holds the rank's q rows, then the k rows and the v rows of its shard. |
| TransferProtocol.DecodeConnectorWorker.ReadBlocks | omni/accelerators/pd/omni_cache_connector_v1.py:891-914 | The context is registered as pending; nothing else changes. |
| TransferProtocol.DecodeConnectorWorker.SendRequest | omni/accelerators/pd/omni_cache_connector_v1.py:916-922 | The registered request joins the send queue. |
| TransferProtocol.DecodeConnectorWorker.SendQueued | omni/accelerators/pd/omni_cache_connector_v1.py:950-987 | The head of the queue is sent; a failed send drops it from pending. |
| TransferProtocol.DecodeConnectorWorker.OnResponse | omni/accelerators/pd/omni_cache_connector_v1.py:999-1026 | The cases of an answer: orphan, failure, queued for copying, or copied inline when the queue is full. |
| TransferProtocol.DecodeConnectorWorker.H2DWorker | omni/accelerators/pd/omni_cache_connector_v1.py:1030-1035 | The copy worker takes the head of its queue. |
| TransferProtocol.DecodeConnectorWorker.PostSuccess | omni/accelerators/pd/omni_cache_connector_v1.py:1063-1097 | The parts of the success path in order: copy, notify, append, pop. |
| TransferProtocol.DecodeConnectorWorker.PostSuccessRaises | omni/accelerators/pd/omni_cache_connector_v1.py:1036-1045 | A copy or a connection for the notification that raises: the worker forgets the request, the response thread ends. |
| TransferProtocol.DecodeConnectorWorker.GetFinished | omni/accelerators/pd/omni_cache_connector_v1.py:1130-1145 | Exactly the appended requests are reported and the list is emptied. |
| TransferProtocol.PrefillConnector.OnRequestFinished | omni/accelerators/pd/omni_cache_connector_v1.py:434-452 | Blocks are held back, and the finish time recorded, exactly for a request that ended by length and owns blocks. |
| TransferProtocol.PrefillConnector.BuildConnectorMetadata | omni/accelerators/pd/omni_cache_connector_v1.py:422-432 | The recorded finish times become the next metadata; what finishes afterwards waits for the one after. |
| TransferProtocol.PrefillConnector.ReleaseOutOfDate | omni/accelerators/pd/omni_cache_connector_v1.py:546-563 | The times of the metadata at hand are taken over, and exactly the requests that finished longer ago than the delay are collected and forgotten; times recorded since stay behind. |
| TransferProtocol.PrefillConnector.GetPulledKvReqList | omni/accelerators/pd/omni_cache_connector_v1.py:579-590 | The requests that a notification names are appended to the receive list. |
| TransferProtocol.PrefillConnector.ReleaseReceived | omni/accelerators/pd/omni_cache_connector_v1.py:565-577 | Exactly the requests in the receive list join those collected before in the result of the call; they are forgotten and the list is cleared. |
| TransferProtocol.StepKeeps | omni/accelerators/pd/omni_cache_connector_v1.py:891-1097 | Every step of every thread keeps the invariant: each load has either failed or is in exactly one place, pending while on its way or lost, copied only after its answer, delivered only after its copy. |
| TransferProtocol.RunKeepsInv | omni/accelerators/pd/omni_cache_connector_v1.py:891-1097 | So does every interleaving of steps. |
| TransferProtocol.ReceivedOnceAfterCopy | omni/accelerators/pd/omni_cache_connector_v1.py:1063-1097 | A request enters the done-receiving list at most once, and only after its success answer and its copy to the device. |
| TransferProtocol.PendingUntilDelivered | omni/accelerators/pd/omni_cache_connector_v1.py:891-1045 | A load that has neither failed nor been delivered is pending. |
| PendingLoads.PendingExact | omni/accelerators/pd/omni_cache_connector_v1.py:891-1045 | Over every run, a load is pending exactly when it is on its way or lost, when a thread has delivered it and is about to forget it, or when the response thread ended in the middle of its copy. |
| PendingLoads.SettledPending | omni/accelerators/pd/omni_cache_connector_v1.py:1017-1045 | A delivered load is pending only until its thread has forgotten it, a failed one only if the response thread ended in its copy. |
| LoadOrder.UnsentIsLast | omni/accelerators/pd/omni_cache_connector_v1.py:903-975 | Over every run, what is still to be sent are the loads registered last: loads are sent in the order of registration, none overtaken. |
| LoadOrder.QueuedIsLast | omni/accelerators/pd/omni_cache_connector_v1.py:1020-1037 | Over every run, what waits in the copy queue are the loads accepted last: they are copied in the order of their answers. |
| TransferProtocol.NoOrphans | omni/accelerators/pd/omni_cache_connector_v1.py:1004-1008 | The orphan branch is never taken. |
| TransferProtocol.QuietMeansSettled | omni/accelerators/pd/omni_cache_connector_v1.py:891-1097 | When no load moves any more, each has been delivered, has failed or is lost, and only one of these. |
| TransferProtocol.LostForGood | omni/accelerators/pd/omni_cache_connector_v1.py:891-1045 | A lost load stays pending; it has not failed, and is neither delivered nor moving. |
| LostLoads.LostExact | omni/accelerators/pd/omni_cache_connector_v1.py:918-1028 | Over every run: exactly those loads are lost that were sent, and their answer not read, when the response thread ended. |
| LostLoads.AliveExact | omni/accelerators/pd/omni_cache_connector_v1.py:927-948 | Over every run, the response thread runs exactly since the first load, or the first one after it ended; only then is anything sent or read. |
| LostLoads.SettledExact | omni/accelerators/pd/omni_cache_connector_v1.py:891-1097 | When no load moves any more, a load has been delivered or has failed exactly unless the response thread ended while it was on the wire. |
| LostLoads.LostLoadExample | omni/accelerators/pd/omni_cache_connector_v1.py:1017-1028 | A whole run with a full copy queue, in which the response thread copies a load itself, ends, and loses the next one. |
| TransferProtocol.ReleasedAfterCopyOrDelay | omni/accelerators/pd/omni_cache_connector_v1.py:540-577 | The prefill side reports a request as done only after some load for it was copied, or once the delay has passed since it finished. |
| DoneSending.StepKeepsReports | omni/accelerators/pd/omni_cache_connector_v1.py:422-577 | Every step keeps: a finish time is kept in one place; what was reported late has finished and is kept nowhere; what has finished and is kept nowhere was reported; no request is reported late twice. |
| DoneSending.RunKeepsReports | omni/accelerators/pd/omni_cache_connector_v1.py:422-577 | So does every interleaving of steps. |
| DoneSending.LateExact | omni/accelerators/pd/omni_cache_connector_v1.py:546-563 | On every run, the first half of a call gives up exactly what finished longer ago than the delay, among the requests whose time has reached the worker, and keeps the others. |
| DoneSending.PulledExact | omni/accelerators/pd/omni_cache_connector_v1.py:565-575 | On every run, the second half reports exactly the receive list, empties it and forgets these times; one whose time had reached the worker is kept nowhere any more. |
| DoneSending.LateRepeats | omni/accelerators/pd/omni_cache_connector_v1.py:546-563 | The first half of a call makes a request reported twice exactly when it was notified before, is still among the times at hand, and its delay has passed. |
| DoneSending.PullRepeats | omni/accelerators/pd/omni_cache_connector_v1.py:565-577 | The second half makes it reported twice exactly when its notification is at hand and it was notified before, or has finished, is kept nowhere and is not of this call. |
| DoneSending.ReportedTwiceExact | omni/accelerators/pd/omni_cache_connector_v1.py:422-577 | Over every run: two calls report the same request exactly when some step of the run is one of these two. |
| DoneSending.PulledThenLateExample | omni/accelerators/pd/omni_cache_connector_v1.py:422-577 | A whole run in which the notification comes before the finish time has reached the worker, so that a later call reports the request again for its delay. |
| DoneSending.LateThenPulledExample | omni/accelerators/pd/omni_cache_connector_v1.py:422-577 | A whole run in which the delay passes before the notification, which then reports the request again. |
| Expiry.EarlyBreakExact | omni/accelerators/pd/llmdatadist_connector_v1.py:373-380 | The scan that breaks early agrees with the full scan at every time exactly when the dictionary is in time order. |
| Expiry.OrderedScansAgree | omni/accelerators/pd/llmdatadist_connector_v1.py:373-380 | In time order both scans find the same requests. |
| Expiry.RunIsOrderly | omni/accelerators/pd/llmdatadist_connector_v1.py:282-286 | On every run with a clock that does not run backwards and unique ids, what is recorded, handed over and kept is in time order. |
| Expiry.EarlyBreakRefinesFullScan | omni/accelerators/pd/llmdatadist_connector_v1.py:359-401 | On every such run the worker that breaks early reports and keeps exactly what a full scan would. |
| Expiry.LineHasFinishTimes | omni/accelerators/pd/llmdatadist_connector_v1.py:277-304 | On every such run, what is recorded, handed over or kept has the time at which it finished. |
| Expiry.CallReportsExact | omni/accelerators/pd/llmdatadist_connector_v1.py:359-401 | On every such run, a call reports exactly what was pulled since the call before and what finished longer ago than the delay among the requests known to the worker; these leave, the others stay. |
| Expiry.ReusedIdHidesExpiry | omni/accelerators/pd/llmdatadist_connector_v1.py:301-304 | Without unique ids the claim fails: a concrete dictionary whose expired entry the early break misses. |
| Expiry.PrefillWorker.OutOfDateReqs | omni/accelerators/pd/llmdatadist_connector_v1.py:373-380 | The loop returns what the early-breaking scan finds. |
| Expiry.PrefillWorker.GetFinished | omni/accelerators/pd/llmdatadist_connector_v1.py:359-401 | The whole call: the reported set, the remaining dictionary and the emptied list. |
| Expiry.PrefillScheduler.RequestFinished | omni/accelerators/pd/llmdatadist_connector_v1.py:288-304 | Blocks are held back exactly for a request that ended by length and owns blocks, and then its time is recorded. |
| Expiry.PrefillScheduler.BuildConnectorMetadata | omni/accelerators/pd/llmdatadist_connector_v1.py:277-286 | All recorded times are handed over in order and the dictionary is emptied. |
| KvCacheManager.TakeKeeps | omni/accelerators/cache/kv_cache_manager.py:365-378 | Allocating keeps every block of the pool free or owned by exactly one request. |
| KvCacheManager.FreeKeeps | omni/accelerators/cache/kv_cache_manager.py:313-322 | So does freeing. |
| KvCacheManager.FreedOrder | omni/accelerators/cache/kv_cache_manager.py:313-322 | Freed blocks join the end of the free list, the last ones of the request first. |
| KvCacheManager.NeedIsTaken | omni/accelerators/cache/kv_cache_manager.py:349-378 | Unless a request is half provided, the predicted need is what is then taken and no error is raised. |
| KvCacheManager.SingleTypeManager.GetNumBlocksToAllocate | omni/accelerators/cache/kv_cache_manager.py:349-356 | The predicted need of one group. |
| KvCacheManager.SingleTypeManager.AllocateNewBlocks | omni/accelerators/cache/kv_cache_manager.py:365-378 | Exactly the needed blocks move from the free list to the request; a half provided request is refused without a change. |
| KvCacheManager.SingleTypeManager.FreeRequest | omni/accelerators/cache/kv_cache_manager.py:313-322 | The request's blocks return to the free list. |
| KvCacheManager.OmniKVCacheManager.HaveRoom | omni/accelerators/cache/kv_cache_manager.py:265-275 | The comparison succeeds exactly when no group needs more than it has. |
| KvCacheManager.AnswerAllocates | omni/accelerators/cache/kv_cache_manager.py:241-295 | Unless a request is half provided: no result exactly when some group, with all its free blocks, is short of slots for the tokens up to the model length; else each full group gives the fewest blocks for them, each windowed group its fixed number, from the head of its free list. |
| KvCacheManager.OmniKVCacheManager.AllocateNewBlocks | omni/accelerators/cache/kv_cache_manager.py:290-295 | The loop over the groups: the new blocks of each and the new state of all, or the error of a half provided request. |
| KvCacheManager.OmniKVCacheManager.AllocateSlots | omni/accelerators/cache/kv_cache_manager.py:195-311 | The answer and the new state of all groups, with the same guarantee; a refused request changes no pool. |
| KvCacheManager.OmniKVCacheManager.Free | omni/accelerators/cache/kv_cache_manager.py:313-322 | Every group frees the request. |
| KvCacheManager.OmniKVCacheManager.GetBlockIds | omni/accelerators/cache/kv_cache_manager.py:324-339 | The blocks of the request in every group, empty when it has none. |
| KvCacheManager.StepKeeps | omni/accelerators/cache/kv_cache_manager.py:195-322 | Every operation keeps the invariant of all groups, and an allocation never meets a half provided request. |
| KvCacheManager.RunKeeps | omni/accelerators/cache/kv_cache_manager.py:195-322 | So does every sequence of operations. |
| KvCacheManager.NewGroupsInv | omni/accelerators/cache/kv_cache_manager.py:134-166 | New pools satisfy the invariant. |
| KvCacheManager.AllocationIsExact | omni/accelerators/cache/kv_cache_manager.py:241-311 | After any run an allocation never meets a half provided request, fails exactly for missing blocks, and else provides slots for the tokens from the fewest blocks and changes nothing else. |
| PipelineSplit.GetPartitions | omni/accelerators/pd/llmdatadist_manager.py:64-84 | The sizes sum to hidden plus MTP layers; by default they differ by at most one before the MTP layers and the last is smallest; given sizes are refused exactly for a wrong length or sum. |
| PipelineSplit.DefaultPartitions | omni/accelerators/pd/llmdatadist_manager.py:76-82 | The loop that spreads the remaining layers. |
| PipelineSplit.SliceStages | omni/accelerators/cache/pd.py:95-108 | The while-loop cuts the layers of one kind into exactly the layers of each stage. |
| PipelineSplit.AllLayersCovered | omni/accelerators/cache/pd.py:95-108 | The stages' slices concatenate to all layers of the kind. |
| PipelineSplit.SidesAgree | omni/accelerators/cache/pd.py:33-41 | The decode side's slice of a stage is the prefill stage's own layer indices moved by the stage's offset. |
| PipelineSplit.RegistrationsAgree | omni/accelerators/cache/pd.py:44-49 | The decode side can register both kinds exactly when every prefill stage has both. |
| RankMapping.GetPStartRank | omni/accelerators/pd/utils.py:10-58 | A rank is returned exactly for accepted sizes and positions, and it is always a prefill rank. |
| RankMapping.StepIsLeast | omni/accelerators/pd/utils.py:48 | The step between decode groups is the least one, at least 1, with which they reach all KV groups. |
| RankMapping.GroupWalk | omni/accelerators/pd/utils.py:49 | The first decode group reads from the first KV group, and each one a step after the one before, around the KV groups. |
| RankMapping.PStartRankIs | omni/accelerators/pd/utils.py:36-58 | The rank is the KV group of the decode group plus the decode tensor-parallel rank times the number of KV groups. |
| RankMapping.RankBijection | omni/accelerators/pd/utils.py:53-58 | (KV group, decode tensor-parallel rank) and prefill rank determine one another. |
| RankMapping.GroupNumbering | omni/accelerators/pd/utils.py:36-41 | Decode groups are numbered without gaps or repetitions. |
| RankMapping.LoadsBalanced | omni/accelerators/pd/utils.py:48-49 | With at least as many decode groups as KV groups, every KV group is used and the loads differ by at most one. |
| RankMapping.CollisionFreeExact | omni/accelerators/pd/utils.py:48-49 | No two decode groups read from the same KV group exactly when their number times gcd(step, KV groups) is at most the number of KV groups. |
| RankMapping.DividingIsCollisionFree | omni/accelerators/pd/utils.py:48-49 | This is so when the number of decode groups divides the number of KV groups. |
| RankMapping.CollisionExample | omni/accelerators/pd/utils.py:48-49 | Three decode groups over four KV groups collide. |
| RankMapping.RegisterLink | omni/accelerators/pd/llmdatadist_manager.py:303-384 | A rank builds exactly the links that concern it, and a decode rank records the first-stage cluster of every prefill group and data-parallel rank. |
| RankMapping.StartRankIs | omni/accelerators/pd/llmdatadist_manager.py:329-331 | The start rank of a decode rank within a link setup: the KV group of its data-parallel rank, and in it the place of its tensor-parallel rank. |
| RankMapping.SidesAgree | omni/accelerators/pd/llmdatadist_manager.py:303-384 | Between one prefill rank and one decode rank both sides build the same links: a single one when the prefill rank, modulo the tensor-parallel size, is the decode rank's start rank, none otherwise. |
| RankMapping.PulledIsLinked | omni/accelerators/pd/llmdatadist_manager.py:281-301 | With consecutive cluster ids every cluster pulled at every pipeline stage is one that the decode rank linked. |
| BlockBudget.UniformBlocks | omni/accelerators/cache/kv_cache_interface.py:108-109 | The most blocks that every layer can have in the memory, none in negative memory. |
| BlockBudget.OmniBlocks | omni/accelerators/cache/kv_cache_interface.py:113 | The windowed layers' block count is the most that does not exceed their share. |
| BlockBudget.FullBlocks | omni/accelerators/cache/kv_cache_interface.py:116 | The full layers' block count is the most that does not exceed its formula. |
| BlockBudget.WithinBudget | omni/accelerators/cache/kv_cache_interface.py:109-116 | For affordable layer counts the total over all layers never exceeds the uniform budget. |
| BlockBudget.PatternIsAffordable | omni/accelerators/cache/kv_cache_interface.py:111-116 | The pattern's own counts, and one full layer more, are affordable. |
| BlockBudget.BudgetExact | omni/accelerators/cache/kv_cache_interface.py:109-116 | The total stays within the uniform budget for all memory sizes exactly for affordable layer counts, or when both kinds share alike. |
| BlockBudget.BudgetExceededExample | omni/accelerators/cache/kv_cache_interface.py:109-116 | With the repository's constants a model of 32 layers and 25 blocks a layer gets 806 blocks instead of 800. |
| BlockBudget.OnePageSizeIsOne | omni/accelerators/cache/kv_cache_interface.py:103-106 | There is one page size exactly when there is a layer and all layers agree. |
| BlockBudget.OfKindExact | omni/accelerators/cache/kv_cache_interface.py:133-145 | A group holds exactly the layers of its kind. |
| BlockBudget.OfKindIncreases | omni/accelerators/cache/kv_cache_interface.py:133-145 | They are in the order of the model. |
| BlockBudget.GetConfig | omni/accelerators/cache/kv_cache_interface.py:87-156 | Layers are grouped by kind in order and sized so that all sizes add up to the page size times the total; the two errors are exactly those of the source. |
| BlockBudget.FitsInMemory | omni/accelerators/cache/kv_cache_interface.py:109-146 | What is configured fits into the available memory. |

## Left out

- Shared memory mapping, device calls, streams and events, sockets, subprocesses, logging and profiling: input and output.
- vLLM's base classes, of which the block pool, the full-attention manager and `divide` are modelled only as far as they are used.
- Floating-point rounding, quantized kernels, rotary caches, random sampling, attention kernels and model classes.
- BlockBudget.OmniBlocks: BETA is a fraction, so a float that rounds across an integer is not modelled; the same holds for BlockBudget.FullBlocks.
- RankMapping.GetPStartRank: the ceiling of the float quotient is the exact ceiling, and one decode group per link setup is assumed, because with more the two sides number them differently.
- RankMapping.RegisterLink: pulling from two ranks at once and the comparison of communication names are not modelled; a link is identified by its ranks and clusters.
- PipelineSplit.SliceStages: stage sizes are natural numbers, so negative numbers in a partition string are not followed further than PipelineSplit.GetPartitions; parsing the string is not modelled.
- PipelineSplit.RegistrationsAgree: layer sets only; the cache key ids of the two sides count different things and are not compared.
- TransferProtocol.RunKeepsInv: one rank per decode instance, one load per request id and one answer per send; prebuilt block tables, timing fields and the stopping of threads are not modelled, a notification may be lost or delayed but not invented, and a response thread that ends closes its socket at once.
- TransferProtocol.DecodeConnectorWorker.ReadBlocks: a context object is represented by its request id and prefill request id.
- RowPermutation.MoveCachedTensors: negative sources other than -1 and the histogram update of rejected tokens in the penalty cache.
- KvCacheManager.OmniKVCacheManager.AllocateSlots: prefix caching is off, as it is for hybrid models; blocks are numbers without hashes.
- MergedCopy.SynchronizeH2D: the tensors that sparse attention skips are not in the pool; copies do not fail part of the way.
- VolatileCache.SynchronizeH2D: one layer; the return without work for a missing prefix or a layer past the last is not modelled.
- HostReads.GetCurrentRankHostData: rows are one value each; that joining and cutting the tensors of a row is lossless is Buffers.PartOf.
- VolatileCache.NewTokenSlots: the padding for sequence-parallel attention is not modelled.
- RowParallel.LoadShard: the formats of quantized checkpoints and the transposed weights of the reinforcement-learning path; the same holds for GatedMlp.LoadMergedShard and QkvShards.LoadShard.
- GatedMlp.GatherScatterMlp: the all-to-all input transformation, whose meaning lies in vLLM.
- SpeculativeSampler.Forward: sampling other than greedy, the forced acceptance rate and the penalty cache.
- Memory allocation for the device, vocabulary masking, port handling and configuration merging.

# Verified model of vllm-metal's weight, cache and metadata code

This project models the parts of vllm-metal in which an index, a bit or a cache entry out
of place would silently change what a model computes, and proves what those parts promise.

- **GGUF weights.** Ten block formats are re-encoded into MLX's packed affine form
  (`PackCodes`, `BlockFormats`, `BlockCodes`, `Repack`, `KQuantHeaders`, `FileTensors`) or
  kept raw and multiplied by a strided kernel (`RawBlocks`, `RawCodes`, `Qmv`,
  `RawTensors`). Row and column indexes undo llama.cpp's storage order (`Permutations`,
  `QuantTensors`, `Layout`, `Reorders`, `Adapter`, `Loader`). The logical weight matrix is preserved all the way.
- **Paged attention.** One batch of decode, verification and prefill requests becomes flat
  metadata (`PagedContext`, `PackedLayout`), block tables become kernel tables
  (`BlockTables`), the YOCO layers see a reduced batch (`Yoco`, `YocoLists`), and KV tiles are
  counted (`NaxSplit`). `CacheRuns` puts writer, scheduler and reader together: over whole runs no
  cached token is lost or overwritten, and the kernel reads it back.
- **Streaming experts.** A byte-bounded LRU store (`Checkpoint`, `Lru`, `ExpertStore`) and
  the layer that stacks touched experts on demand (`OffloadedSwitchGlu`).
- **Smaller rewrites.** TurboQuant block-size realignment (`HybridBlockSize`), FP8 block
  dequantization and its dictionary pass (`Fp8Weights`, `Fp8Pass`, `Fp8Keys`), and expert
  stacking (`ExpertStacking`, `ExpertNames`).

`dafny verify dfyconfig.toml` checks everything.

## Conventions

- Numbers are exact. The value of an fp16 field is a whole number of 2^-24, given by a
  function of its two bytes, and scales, mins, activations and FP8 values are integers.
- Row-major positions are written `Flat(i, m, j)` for `i * m + j`, and `Quot` and `Rem` are
  quotient and remainder by repeated subtraction; `FlatIs` and `QuotIs` in `Arith` say so.
  Bits are peeled from natural numbers (`Bits`).
- Loops over Python lists append to sequences; the specification functions are written in
  the same accumulating order, so that a loop's invariant is one equation.
- `KERNEL_BLOCK_SIZES` is `(32, 16, 8)` (`vllm_metal/metal/constants.py:12`).
- The scheduler's guarantees are preconditions: block tables reach a request's last
  position, tables only grow, written blocks are exclusively owned, and a request occurs at
  most once in a batch.

## Findings

- `ExpertStore.get` counts the bytes of a missing expert once for each time the request
  names it, while the cache holds it once. `Lru.GetDrift` says by how much the count is
  off and `Lru.ExactIff` when it is not. The routed layer asks for distinct experts.
- A request for an expert without any tensor raises after some keys have moved. A larger
  store then still contains the smaller one exactly if the call was settled: the keys before
  the absent one include every present key that the call names, or every key of the
  checkpoint but one (`Lru.InclusionIff`). Any other such call breaks inclusion, also between
  stores that started empty (`Lru.UnsettledRun`).
- `reserved_bytes` is the cache budget plus one whole stacked layer. The cache after eviction
  together with the stack of a request stays inside it exactly if the request fits the budget
  or twice its bytes fit the reserve (`Lru.ReserveIff`). So a request for a whole layer needs
  the layer to fit the budget. The entries that are loaded before eviction and the raw reads
  (`vllm_metal/moe_offload.py:158-168`) are held before that and are not part of this count.
- In `OffloadedSwitchGLU.__call__` the stacking loop lies outside the `try`. If a touched
  expert lacks a component other than the first, or has it in another shape, the components
  stacked before it stay in the layer (`OffloadedSwitch.OffloadedSwitchGlu.Call`).
- `nax_tile_work` accepts a window of zero and then counts tiles although no row sees a key,
  except for single rows that end a tile (`NaxSplit.BlockExactIff`, `NaxSplit.WorkExactIff`).
- `GGUFColumnPermutedTensor.matmul` gathers before the stored tensor checks the width, so an
  activation of any width is accepted: extra columns are ignored, and missing ones are read
  beyond the end of the line (`Layout.Matmul`).
- The FP8 dictionary pass takes any key that contains `weight_scale_inv` for a scale and
  drops every `_scale_inv` from it, so that `weight_scale_inv.weight` and
  `weight.weight_scale_inv` both belong to `weight.weight` (`Fp8Keys.CollidingKeys`), and
  which of them wins depends on the key order (`Fp8Keys.CollisionMatters`). Keys that end in
  the suffix and contain it once are safe (`Fp8Keys.ConventionalKeys`).
- The expert-stacking pass scans any digits but pops only the usual spelling of a number. A
  key such as `experts.00.gate_proj.weight` passes the checks, and the pop raises
  (`ExpertNames.PaddedRaises`). Beside a full set of usual keys it stays in the result, and a
  second pass raises (`ExpertStacking.SecondPassIff`).

## Model

| member | source | states |
|---|---|---|
| PackCodes.PackGroup | vllm_metal/gguf/mlx_native.py:467-473 | the general loop: 32 codes of any width from 1 to 32 become exactly `bits` words in which flat bit `i*bits + j` is bit `j` of code `i`; the straddle write stays inside the group and disturbs no neighbour |
| PackCodes.PackRow | vllm_metal/gguf/mlx_native.py:451-474 | all three branches (byte view, nibble pairs, word loop) pack a whole row in the one flat-bit layout |
| PackCodes.UnpackPacked | vllm_metal/gguf/mlx_native.py:454-457 | reading flat bits `[i*bits, (i+1)*bits)` of packed words gives code `i` back |
| PackCodes.PackedUnique | vllm_metal/gguf/mlx_native.py:454-457 | the layout determines the words: two packings of the same codes are equal |
| PackCodes.ViewIsPacked | vllm_metal/gguf/mlx_native.py:460-461 | 8-bit codes viewed as little-endian words are packed in the same layout |
| PackCodes.PairsArePacked | vllm_metal/gguf/mlx_native.py:462-463 | 4-bit codes joined in pairs and viewed as words are packed in the same layout |
| PackCodes.PackedConcat | vllm_metal/gguf/mlx_native.py:466-474 | groups packed one after the other are one packed row |
| BlockFormats.BlockExact | vllm_metal/gguf/mlx_native.py:258-448 | for each of the ten formats and every element, `scale * code + bias` of the parsed group is the value that an independent element-wise reading of the block bytes defines, and the codes fit their width |
| BlockFormats.Q4KExact | vllm_metal/gguf/mlx_native.py:334-344 | Q4_K: group order, sub-scales and mins |
| BlockFormats.Q5KExact | vllm_metal/gguf/mlx_native.py:347-360 | Q5_K: the same with the fifth bits of `qh` |
| BlockFormats.Q5_0Exact | vllm_metal/gguf/mlx_native.py:298-307 | Q5_0: fifth bits joined above the nibbles, centred at 16 |
| BlockFormats.Q5_1Exact | vllm_metal/gguf/mlx_native.py:310-320 | Q5_1: fifth bits with a stored minimum |
| BlockFormats.FifthBitAt | vllm_metal/gguf/mlx_native.py:323-331 | `_join_fifth_bits`: element `e` takes bit `e` of the little-endian 32-bit `qh` as its fifth bit |
| BlockFormats.HeaderAt | vllm_metal/gguf/mlx_native.py:421-440 | the loader's K-quant header decode is the element-wise one |
| BlockFormats.IQ4XSExact | vllm_metal/gguf/mlx_native.py:374-394 | IQ4_XS: codebook codes and 6-bit sub-scales |
| BlockFormats.IQ3SExact | vllm_metal/gguf/mlx_native.py:397-418 | IQ3_S: signed odd grid codes with scale 2 and bias -15 per unit of group scale |
| BlockCodes.Q8Means | vllm_metal/gguf/mlx_native.py:259-267 | an element of a Q8_0 block made of 32 signed bytes is `d * code` |
| BlockCodes.FourBitMeans | vllm_metal/gguf/mlx_native.py:275-295 | elements of blocks made of 32 four-bit codes: `d * (code - 8)` for Q4_0, `d * code + m` for Q4_1 |
| BlockCodes.IQ4NLMeans | vllm_metal/gguf/mlx_native.py:363-371 | an element of an IQ4_NL block made of 32 codes is `d` times the codebook entry |
| BlockCodes.Q5_0Means | vllm_metal/gguf/mlx_native.py:298-307 | an element of a Q5_0 block made of 32 five-bit codes is `d * (code - 16)` |
| BlockCodes.Q5_1Means | vllm_metal/gguf/mlx_native.py:310-331 | an element of a Q5_1 block made of 32 five-bit codes is `d * code + m` |
| BlockCodes.Q4KMeans | vllm_metal/gguf/mlx_native.py:334-344 | an element of a Q4_K block made of 256 codes, eight scales and eight mins in plain arithmetic is `d * scale * code - dmin * min` |
| BlockCodes.Q5KMeans | vllm_metal/gguf/mlx_native.py:347-360 | the same for Q5_K and codes of five bits |
| BlockCodes.Q4KExists | tests/gguf_kquant_fixtures.py:29-53 | any codes, scales, mins and factors make a Q4_K block |
| BlockCodes.Q5KExists | tests/gguf_kquant_fixtures.py:29-53 | any codes, scales, mins and factors make a Q5_K block |
| BlockCodes.IQ4XSMeans | vllm_metal/gguf/mlx_native.py:374-394 | an element of an IQ4_XS block made of 256 codes and eight six-bit fields is `d * (field - 32)` times the codebook entry |
| BlockCodes.IQ3SMeans | vllm_metal/gguf/mlx_native.py:397-418 | an element of an IQ3_S block made of 64 grid rows, 256 signs and eight scales is `d * (1 + 2 * scale)` times the signed grid entry |
| KQuantHeaders.HeaderRestored | vllm_metal/gguf/mlx_native.py:425-439 | encoding what was decoded from a header gives the twelve bytes back |
| KQuantHeaders.HeaderDecoded | tests/gguf_kquant_fixtures.py:40-43 | decoding an encoded header gives any eight scales and eight mins of six bits back |
| KQuantHeaders.Q3ScaleIs | vllm_metal/gguf/raw_block.py:80-82 | the scale both Q3_K kernels use is the sub-scale field minus 32 |
| KQuantHeaders.Q3Restored | vllm_metal/gguf/raw_block.py:178-180 | encoding the sixteen decoded Q3_K sub-scales gives the twelve bytes back |
| KQuantHeaders.Q3Decoded | tests/gguf_kquant_fixtures.py:126-131 | any sixteen 6-bit numbers survive encoding and decoding |
| Repack.FromRawBlocks | vllm_metal/gguf/mlx_native.py:180-256 | the three rejections (shape, block multiple, byte count) hold exactly when stated, and otherwise the arrays are the repacking of the byte grid |
| Repack.RepackRows | vllm_metal/gguf/mlx_native.py:235-250 | the chunk loop fills every row of the three arrays, for any chunk size |
| Repack.RepackedUnique | vllm_metal/gguf/mlx_native.py:237-250 | the result does not depend on the row chunk size |
| Repack.RepackPreservesWeights | vllm_metal/gguf/mlx_native.py:180-256 | for any sound format the packed tensor's weight at column `k * elems + e` is the format's element `e` of the row's block `k` |
| Repack.FileWeight | vllm_metal/gguf/mlx_native.py:180-256 | from the file to the weight: at every row and column the returned tensor holds the value that the block format gives to that element of the file's bytes |
| Repack.WidthIs | vllm_metal/gguf/mlx_native.py:37-48 | the packed codes have four, five or eight bits, by format |
| Repack.FormatsSound | vllm_metal/gguf/mlx_native.py:219-232 | every parser yields the right number of fitting codes, scales and biases |
| BlockGrid.GridByte | vllm_metal/gguf/mlx_native.py:237 | byte `i` of block `k` of a row is the byte at that offset of the payload |
| BlockGrid.GridBlock | vllm_metal/gguf/mlx_native.py:237 | a block of the grid is one contiguous piece of the payload |
| RawBlocks.Q2Value | vllm_metal/gguf/raw_block.py:138-168 | a Q2_K group element is `d*scale*code - dmin*min`, the form from which the kernel hoists the min |
| RawBlocks.Q3Value | vllm_metal/gguf/raw_block.py:172-203 | a Q3_K group element is the sub-scale times its signed 3-bit code |
| RawBlocks.Q6Value | vllm_metal/gguf/raw_block.py:205-238 | a Q6_K group element with the half, shift and low-side choices of the kernel |
| RawCodes.Q2Means | vllm_metal/gguf/raw_block.py:55-67 | element `e` of the Q2_K block that 256 two-bit codes, sixteen scales and sixteen mins make in plain arithmetic is `d * scale * code - dmin * min` |
| RawCodes.Q3Means | vllm_metal/gguf/raw_block.py:69-84 | element `e` of the Q3_K block made of 256 three-bit codes and sixteen sub-scale fields is `d * (field - 32) * (code - 4)` |
| RawCodes.Q6Means | vllm_metal/gguf/raw_block.py:86-104 | element `e` of the Q6_K block made of 256 six-bit codes and sixteen signed scales is `d * scale * (code - 32)` |
| RawCodes.Q2Exists | tests/gguf_kquant_fixtures.py:81-100 | any codes, scales, mins and factors make a Q2_K block |
| RawCodes.Q3Exists | tests/gguf_kquant_fixtures.py:103-133 | any codes, sub-scale fields and factor make a Q3_K block |
| RawCodes.Q6Exists | tests/gguf_kquant_fixtures.py:56-78 | any codes, signed scales and factor make a Q6_K block |
| RawCodes.Q2Covers | vllm_metal/gguf/raw_block.py:55-67 | every 84-byte block is made of such fields, so every Q2_K block is covered |
| RawCodes.Q3Covers | vllm_metal/gguf/raw_block.py:69-84 | every 110-byte block is made of such fields |
| RawCodes.Q6Covers | vllm_metal/gguf/raw_block.py:86-104 | every 210-byte block is made of such fields |
| RawBlocks.Q2Group | vllm_metal/gguf/raw_block.py:141-167 | one group adds to every batch accumulator its dot product with the dequantized values, min hoisted out |
| RawBlocks.Q3Group | vllm_metal/gguf/raw_block.py:175-200 | one Q3_K group adds its dot product to every batch accumulator |
| RawBlocks.Q6Group | vllm_metal/gguf/raw_block.py:208-235 | one Q6_K group adds its dot product to every batch accumulator |
| Qmv.Thread | vllm_metal/gguf/raw_block.py:115-120 | a thread that strides the groups by 256 has summed exactly its own groups |
| Qmv.ReductionIsRow | vllm_metal/gguf/raw_block.py:122-136 | 256 strided threads, 32-lane sums and the 8-way sum together are the row's dot product: each group counts once |
| Qmv.GroupsAreRow | vllm_metal/gguf/raw_block.py:114-119 | the 16-element groups together are the whole row |
| Qmv.QmvRow | vllm_metal/gguf/raw_block.py:109-136 | one threadgroup computes, for every batch row, the dot product with the dequantized weight row |
| RawTensors.QmvKernel | vllm_metal/gguf/raw_block.py:471-482 | the fused kernel computes `x @ dense.T` |
| RawTensors.DequantizeElement | vllm_metal/gguf/raw_block.py:55-103 | one thread: element `elem` of the packed rows is the dense entry at its row and column |
| RawTensors.DequantizeRows | vllm_metal/gguf/raw_block.py:484-500 | the dequantize kernel lays the dense rows out row-major |
| RawTensors.DenseMatmul | vllm_metal/gguf/raw_block.py:423-427 | the large-batch branch computes `x @ dense.T` |
| RawTensors.Matmul | vllm_metal/gguf/raw_block.py:402-428 | a wrong last dimension is the only rejection; an empty batch is empty; both branches give `x @ dequantize(self).T` |
| RawTensors.ProductUnique | vllm_metal/gguf/raw_block.py:421-428 | the product is determined, so the branches cannot differ |
| RawTensors.Embedding | vllm_metal/gguf/raw_block.py:430-442 | gathering packed rows and dequantizing only those gives the selected dense rows |
| Permutations.AcceptedIff | vllm_metal/gguf/mlx_native.py:550-559 | the length and sort checks of `permute_rows` accept exactly the permutations of the rows |
| Permutations.ArgSortSorts | vllm_metal/gguf/layout.py:31-32 | gathering by `argsort` sorts |
| Permutations.ArgSortInverts | vllm_metal/gguf/layout.py:31-32 | the `argsort` of a permutation is its inverse from both sides |
| QuantTensors.PermuteCommutes | vllm_metal/gguf/raw_block.py:444-465 | `permute_rows` of either representation succeeds exactly for permutations and commutes with decoding |
| QuantTensors.Matmul | vllm_metal/gguf/mlx_native.py:500-518 | `matmul` of either representation: `x @ W.T`, rejected exactly for a wrong last dimension |
| QuantTensors.Embedding | vllm_metal/gguf/mlx_native.py:520-536 | `embedding` of either representation: the selected rows of the dequantized weight |
| FileTensors.LoadedValue | vllm_metal/gguf/mlx_native.py:180-256 | every entry of the logical weight of what `from_raw_blocks` returns is the block format's value of the file's own bytes |
| FileTensors.FileProduct | vllm_metal/gguf/mlx_native.py:500-518 | every entry of `matmul` on that tensor is the sum over the columns of activation times the file's weight |
| FileTensors.FileEmbedding | vllm_metal/gguf/mlx_native.py:520-536 | every entry of `embedding` on that tensor is the file's weight at the selected row |
| Layout.PermutedDot | vllm_metal/gguf/layout.py:42-44 | a stored row against the gathered activation is the logical row against the activation |
| Layout.TakeLast | vllm_metal/gguf/layout.py:44 | `take(x, order, axis=-1)` gathers every line |
| Layout.Matmul | vllm_metal/gguf/layout.py:42-44 | no width of the activation is rejected; for one at least as wide as the weight it is the product with the logical weight `stored[:, index]`, for any permutation and a stored weight in either representation |
| Layout.Embedding | vllm_metal/gguf/layout.py:46-49 | logical rows: the rows of `stored[:, index]` that the ids select, in either representation |
| Reorders.SwapTwice | vllm_metal/gguf/adapter.py:372-397 | swapping two axes of a flat array and swapping back is the identity |
| Reorders.SwapIndexAt | vllm_metal/gguf/adapter.py:372-397 | the index in coordinates: the position of `(o, j, i, r)` takes that of `(o, i, j, r)` |
| Reorders.RopeRow | vllm_metal/gguf/adapter.py:372-381 | row by row: row `j` of half `s` of a head takes component `s` of that head's pair `j`, and llama.cpp's reorder takes it back |
| Reorders.VHeadRow | vllm_metal/gguf/adapter.py:384-397 | row by row: value head `i` of key head `k` takes its place in tile `i`, and llama.cpp's reorder takes it back |
| Reorders.RopeUndoes | vllm_metal/gguf/adapter.py:372-381 | the RoPE index exists exactly if each head has an even number of rows, is then a permutation and undoes llama.cpp's reorder |
| Reorders.VHeadUndoes | vllm_metal/gguf/adapter.py:384-397 | the V-head index exists exactly if the heads divide evenly or there are no rows, is then a permutation and undoes the tiling |
| Reorders.BehindUndoes | vllm_metal/gguf/adapter.py:338-339 | the fused-QKV index leaves q and k rows alone and undoes the V part |
| Reorders.LoadRestores | vllm_metal/gguf/loader.py:272-284 | gathering stored rows by such an index restores the rows that were stored |
| Adapter.BuildPermuteIndex | vllm_metal/gguf/adapter.py:290-315 | exactly the q and k weights and biases of every layer get an index, and each undoes llama.cpp's permutation |
| Adapter.BuildVHeadIndex | vllm_metal/gguf/adapter.py:318-351 | the table has entries exactly for the layers whose head counts differ, or fails if one of those does not divide |
| Adapter.IndexUndoes | vllm_metal/gguf/adapter.py:336-350 | every row and column entry of that table is a permutation of its axis and undoes that tensor's reorder |
| Loader.BranchesAgree | vllm_metal/gguf/loader.py:276-299 | a quantized tensor loads if and only if its row index is a permutation, and then denotes what the plain branch would compute from its dequantized weight |
| Loader.TransformCommutes | vllm_metal/gguf/adapter.py:44-66 | both transforms, of the values and of the squeezed unit axis, commute with the row and column gathers |
| Loader.LoadedEntry | vllm_metal/gguf/loader.py:290-296 | entry by entry: the loaded parameter holds what the transform makes of the source's entry at the row and column that the indexes name, in a cell of one entry for the unit axis |
| Loader.Partition | vllm_metal/gguf/loader.py:255-306 | the loop over the tensors and the bias pass |
| Loader.AllEntered | vllm_metal/gguf/loader.py:255-299 | without name clashes every tensor is found, permuted and wrapped, at its own place |
| Loader.OnlyGiven | vllm_metal/gguf/loader.py:255-299 | every entry comes from a tensor of the file with a live name; a tied head leaves no output table |
| Loader.RouteAllIff | vllm_metal/gguf/loader.py:262-299 | the loop succeeds exactly if every tensor has its module, a plain bias and a row index that is a permutation, and raises for the first that does not |
| Loader.RehomeBiases | vllm_metal/gguf/loader.py:301-305 | exactly the biases without a quantized weight become plain parameters, and nothing else changes |
| PagedContext.PrepareGrouped | vllm_metal/attention/context.py:262-354 | for every group and both layouts the loops produce the metadata of the batch's segments and the decode counters |
| PagedContext.PackDecodes | vllm_metal/attention/context.py:275-310 | the decode loop, windows merged or expanded |
| PagedContext.AppendRequest | vllm_metal/attention/context.py:284-297 | one request's slots and tables in every group |
| PagedContext.AppendSlots | vllm_metal/attention/context.py:287-291 | one slot per position: block times block size plus place in the block |
| PagedContext.PrepareUnified | vllm_metal/attention/context.py:357-387 | the single-group interface is the grouped one with one table per request |
| PackedLayout.PackedSegment | vllm_metal/attention/context.py:299-326 | per segment: cumulative lengths from zero to every group's slot count, context length equals offset plus length, and its own table |
| PackedLayout.PackedRow | vllm_metal/attention/context.py:287-291 | each row's slot is that of position offset + row through the segment's table |
| PackedLayout.CuIncreases | vllm_metal/attention/context.py:303-324 | with positive token counts `cu_seqlens` strictly increases |
| PackedLayout.DecodePrefix | vllm_metal/attention/context.py:79-85 | the decode segments come first and hold exactly `num_decode_tokens` rows; merged, there are `num_decode_requests` of them |
| PackedLayout.LongestContext | vllm_metal/attention/context.py:86-90 | `max_decode_context_len` bounds every decode context and is attained |
| PackedLayout.VerifyWindow | vllm_metal/attention/context.py:350 | `verify_window_q` is above one only for merged windows in a batch without prefills, is then the longest segment, bounds every segment of a batch without prefills, and is one with a prefill |
| PackedLayout.SameSlots | vllm_metal/attention/context.py:284-297 | merged and expanded layouts write the same slots |
| PackedLayout.DistinctInBothLayouts | vllm_metal/attention/context.py:287-291 | with exclusively owned written blocks no slot is written twice in a step, whether windows are merged or cut into rows |
| BlockTables.PickIs | vllm_metal/attention/block_tables.py:9-18 | the pick is the largest supported size that divides, and it fails exactly off the multiples of eight |
| BlockTables.SlotIs | vllm_metal/attention/context.py:288-291 | the address function in the source's division and remainder |
| BlockTables.BuildIff | vllm_metal/attention/block_tables.py:35-57 | kernel tables exist if and only if there is no row or the block size is a multiple of eight |
| BlockTables.KernelSizeIs | vllm_metal/attention/block_tables.py:38-49 | the kernel's page size is the cache's if it is 8, 16 or 32, else the pick |
| BlockTables.TablesAre | vllm_metal/attention/block_tables.py:41-57 | every row has the width of the longest, short rows end in block zero, and page `j` of block `b` is `b * ratio + j` |
| BlockTables.ReaderIsWriter | vllm_metal/attention/block_tables.py:38-57 | for any ratio of block to page the kernel's address of a position is the writer's slot |
| BlockTables.EightConsecutive | vllm_metal/metal/kernels_v2/pagedattention_nax.metal:145-155 | one table lookup serves eight keys from a multiple of eight on |
| CacheRuns.WorkKeeps | vllm_metal/attention/context.py:284-291 | writing one request's new tokens keeps every cached token of every request and adds the new ones |
| CacheRuns.BatchKeeps | vllm_metal/attention/context.py:275-326 | writing a whole legal batch does |
| CacheRuns.ForwardKeeps | vllm_metal/attention/context.py:275-354 | a forward pass packed in either layout keeps every group's cache intact |
| CacheRuns.StepKeeps | vllm_metal/attention/context.py:234-247 | so does every other step: admission, prefix sharing, table growth, rollback, release |
| CacheRuns.RunsKeep | vllm_metal/attention/context.py:239-247 | at every moment of every run every position below a request's length holds that request's token |
| CacheRuns.ReadsBack | vllm_metal/attention/block_tables.py:21-57 | during a forward pass every address the kernel reads for a segment, in its own page size, holds the token of that position, up to the context length |
| YocoLists.BuildReduced | vllm_metal/attention/yoco.py:107-190 | succeeds exactly for matching metadata with positive segments inside the slots; the six lists then hold every needed row once, in order, with its slot, table, context length and offset; an error is that of the first check that fails |
| YocoLists.ListsAre | vllm_metal/attention/yoco.py:168-180 | entry by entry the six lists are the picks, with cumulative lengths 0, 1, 2 and so on |
| Yoco.ReduceRows | vllm_metal/attention/yoco.py:160-178 | a window cut into single-row segments reduces to the rows of the window |
| Yoco.ReducedIsReference | vllm_metal/attention/yoco.py:107-190 | for every group and either layout the reduction is the request-by-request reference, errors included |
| Yoco.LayoutsAgree | vllm_metal/attention/yoco.py:120-128 | merged and expanded layouts give the same picks and the same six lists in every group |
| Yoco.ReferenceShape | vllm_metal/attention/yoco.py:152-166 | it succeeds if and only if every request has a token, and keeps every decode row and one row per prefill |
| NaxSplit.NaxTileWork | vllm_metal/attention/nax_split.py:50-82 | the counting loops and the length check |
| NaxSplit.BlockExactIff | vllm_metal/attention/nax_split.py:46-67 | one block's tile difference is the number of tiles holding a visible key, if and only if the window is not zero or the block is one row that ends a tile |
| NaxSplit.WorkExactIff | vllm_metal/attention/nax_split.py:50-82 | the same for a whole batch against brute force |
| NaxSplit.WorkAtLeast | vllm_metal/attention/nax_split.py:50-82 | the count is never below brute force |
| NaxSplit.ShiftInvariant | vllm_metal/attention/nax_split.py:71 | only differences of `cu_seqlens` matter |
| NaxSplit.SplitAdds | vllm_metal/attention/nax_split.py:69-82 | the counts are additive over splitting the batch anywhere |
| NaxSplit.HintIff | vllm_metal/attention/nax_split.py:85-90 | the hint is one exactly for heads of at most 512, at least four full blocks, and full tiles at least eight times the partial ones, or once for heads of 256 |
| NaxSplit.ShortBatchIsNotSplit | vllm_metal/attention/nax_split.py:85-90 | a batch without a 64-row sequence never takes the split pipeline |
| NaxSplit.SplitTogether | vllm_metal/attention/nax_split.py:85-90 | two batches that each take it take it together |
| Checkpoint.StackedSlicesTile | vllm_metal/moe_offload.py:279-308 | the slices of a stacked tensor are disjoint and cover exactly the tensor's bytes |
| Checkpoint.ReadBytesAre | vllm_metal/moe_offload.py:151-170 | the bytes counted while reading an expert are the bytes of its entry |
| Checkpoint.EntryDelivers | vllm_metal/moe_offload.py:151-170 | for an expert of a stacked tensor byte `i` of the array is the shard's byte at offset + expert * size + i, with the rest of the shape; for an expert with a tensor of its own it is that tensor's bytes; every other component is absent |
| Checkpoint.NoEntryIff | vllm_metal/moe_offload.py:151-165 | an expert has no entry exactly if the index names no tensor for it in either layout |
| Checkpoint.StackedTogether | vllm_metal/moe_offload.py:279-308 | the arrays of all experts of a stacked tensor, end to end, are the tensor's bytes |
| Checkpoint.BlockPathIs | vllm_metal/moe_offload.py:294 | the per-expert layout is looked up under the module path without its last name |
| ExpertStores.ExpertStore.Get | vllm_metal/moe_offload.py:143-174 | the store moves exactly as the state machine says; on success the entries hold, in request order, the bytes of the shards; it fails exactly if the index names no tensor for a requested expert |
| ExpertStores.ExpertStore.ReadMissing | vllm_metal/moe_offload.py:148-168 | reads fill the dictionary and the byte count in request order |
| ExpertStores.ExpertStore.MoveRequested | vllm_metal/moe_offload.py:171-172 | the moves to the end, up to the first absent key |
| ExpertStores.ExpertStore.EvictOver | vllm_metal/moe_offload.py:183-192 | the eviction loop keeps the last `keep` entries |
| ExpertStores.ExpertStore.Clear | vllm_metal/moe_offload.py:176-178 | the empty store |
| Lru.GetInvariant | vllm_metal/moe_offload.py:143-192 | after a legal call the byte count is exact, the request is cached and most recent, and the bytes exceed the budget only if the request alone does |
| Lru.EvictIs | vllm_metal/moe_offload.py:183-192 | eviction drops the shortest front that brings the cache inside the budget or down to the kept entries |
| Lru.InclusionIff | vllm_metal/moe_offload.py:143-192 | a call keeps the smaller store's entries the most recent ones of the larger one, from every pair of stores that are so, if and only if it is settled: its keys before the first absent one include all present keys that it names, or all keys of the checkpoint but one |
| Lru.GetIncluded | vllm_metal/moe_offload.py:143-192 | one settled call, repeated keys and absent keys included, keeps inclusion, and the smaller store's byte count is still off by no less than the larger one's |
| Lru.Inclusion | vllm_metal/moe_offload.py:143-192 | on every trace of settled calls the larger budget's store has the smaller one's entries as its most recent suffix |
| Lru.PresentIsSettled | vllm_metal/moe_offload.py:143-192 | every call for present experts is settled, also one that repeats them |
| Lru.UnsettledRun | vllm_metal/moe_offload.py:171-172 | every call that is not settled breaks inclusion between two stores that start empty, for a smaller budget below and a larger one of at least the bytes of the two experts |
| Lru.FewerMisses | vllm_metal/moe_offload.py:169-170 | over every trace of settled calls a larger budget never reads more |
| Lru.RunExact | vllm_metal/moe_offload.py:160-168 | the byte count stays exact over every legal trace |
| Lru.GetDrift | vllm_metal/moe_offload.py:160-168 | any call changes the byte count's error by exactly the bytes it reads twice |
| Lru.ExactIff | vllm_metal/moe_offload.py:148-168 | from an exact store the count stays exact if and only if no missing expert with bytes is requested twice |
| Lru.ReserveIff | vllm_metal/moe_offload.py:88-90 | the cache after eviction and the stack of a request together stay in the reserve if and only if the request fits the budget or twice its bytes fit the reserve |
| OffloadedSwitch.Compact | vllm_metal/moe_offload.py:353-354 | the compact index maps each touched expert to its place |
| OffloadedSwitch.OffloadedSwitchGlu.StackAll | vllm_metal/moe_offload.py:349-352 | components are stacked up to the first that some touched expert lacks or has in another shape, and the failure says which of the two |
| OffloadedSwitch.OffloadedSwitchGlu.Call | vllm_metal/moe_offload.py:345-358 | the forward sees the resident weights for every routed index and the placeholders are back afterwards, also when it raises; every other failure leaves the weights as they were, except exactly when a component after the first fails to stack |
| OffloadedSwitch.OffloadedSwitchGlu.Reset | vllm_metal/moe_offload.py:360-362 | every placeholder is back |
| OffloadedSwitch.SelectionIsResident | vllm_metal/moe_offload.py:345-356 | selecting through the compact index is selecting from the full stack |
| OffloadedSwitch.ResidentIsCheckpoint | vllm_metal/moe_offload.py:345-356 | the resident selection holds what the shards hold for the expert |
| HybridBlockSize.LcmIs | vllm_metal/platform.py:1496-1500 | the alignment is a positive common multiple that divides every common multiple |
| HybridBlockSize.AlignedIsLeast | vllm_metal/platform.py:1492-1505 | the aligned size is the least one that all three alignments allow and whose packed page covers the state page |
| HybridBlockSize.AllowedIsAccepted | vllm_metal/attention/block_tables.py:9-18 | a size aligned to eight is accepted by the block-table picker |
| HybridBlockSize.CacheConfig.Realign | vllm_metal/platform.py:1443-1533 | the whole configuration afterwards, for any starting block size; the source's assertion never fires |
| Fp8Weights.DequantizedAt | vllm_metal/compat.py:729-763 | pad, view, scale and crop together scale entry `(i, j)` by scale `(i/128, j/128)`, for any shape |
| Fp8Weights.ScaleIndexIs | vllm_metal/compat.py:755-758 | the broadcast pairs each padded position with its block's scale |
| Fp8Weights.DequantizeIff | vllm_metal/compat.py:699-722 | fewer than two axes pass through, and else the scale shape must have one entry for each block of each matrix |
| Fp8Pass.DequantizeAll | vllm_metal/compat.py:766-791 | the dictionary pass, which leaves a checkpoint without scales alone |
| Fp8Pass.PassIs | vllm_metal/compat.py:772-791 | the entry of every key: dequantized, as it was, or dropped |
| Fp8Pass.PassErr | vllm_metal/compat.py:775-787 | an error is a scale without its weight, or one that does not fit it |
| Fp8Pass.OrderIrrelevantIff | vllm_metal/compat.py:772-791 | for any key rules the result is the same for every key order if and only if no weight has two scales that dequantize it differently |
| Fp8Keys.DequantizeWeights | vllm_metal/compat.py:766-791 | the pass with the source's key rules and block dequantization: unchanged without scale keys, an error exactly if a scale lacks its weight or does not fit it, and the entry of every key if no weight has two scale keys |
| Fp8Keys.UnmarkedFirst | vllm_metal/compat.py:775 | `replace`: up to the first `_scale_inv` the key stays and the rest is treated alike |
| Fp8Keys.UnmarkedNone | vllm_metal/compat.py:775 | a key without the suffix stays |
| Fp8Keys.CollidingKeys | vllm_metal/compat.py:774-775 | two different scale keys that the `replace` rule sends to one weight |
| Fp8Keys.OrderFreeIff | vllm_metal/compat.py:772-791 | over all values that fit, the key order is irrelevant for a given set of keys if and only if no two of its scale keys have one weight (or one has none) |
| Fp8Keys.CollisionMatters | vllm_metal/compat.py:774-785 | the colliding keys make a dictionary of arrays for which two key orders give different weights |
| Fp8Keys.ConventionalKeys | vllm_metal/compat.py:772-791 | if every scale key contains `_scale_inv` once, at its end, then the pass raises for every key order or for none, and gives one result |
| ExpertStacking.CheckIff | vllm_metal/compat.py:850-876 | a prefix passes exactly if all three projections have the experts below one positive count |
| ExpertStacking.CheckErrors | vllm_metal/compat.py:850-876 | which of the three errors a prefix gives |
| ExpertStacking.StackExperts | vllm_metal/compat.py:821-886 | for any sound way to read names off keys the pass succeeds exactly if every prefix passes the checks and has every key that is popped; an error names a failing prefix; other keys are kept; no per-expert key means no change |
| ExpertStacking.CanonicalSuffices | vllm_metal/compat.py:848-882 | if every per-expert key is spelled as the pass spells it, the checks are enough |
| ExpertNames.ScanIs | vllm_metal/compat.py:824-840 | a scanned key consists of its prefix, a dot, its digits and the suffix of its projection |
| ExpertNames.ScanSpelled | vllm_metal/compat.py:824-840 | every such key is scanned, for any digits |
| ExpertNames.KeySpelling | vllm_metal/compat.py:880-882 | the popped keys letter by letter |
| ExpertNames.StackedSpelling | vllm_metal/compat.py:883-886 | the added keys letter by letter |
| ExpertNames.NoLeadingZero | vllm_metal/compat.py:880 | a number is written without leading zeros |
| ExpertNames.NamingSound | vllm_metal/compat.py:824-886 | the source's scan and the keys that its f-strings build are sound: each built key is scanned as what it was built for, and a scanned key is canonical exactly if it is the built one |
| ExpertNames.StackWeights | vllm_metal/compat.py:821-886 | the pass with these rules over string keys |
| ExpertNames.PaddedRaises | vllm_metal/compat.py:880-882 | an expert whose zero is spelled in another way, such as `00`, passes the checks and lacks the first key that is popped |
| ExpertStacking.ExpertsRecoverable | vllm_metal/compat.py:877-886 | each expert's three matrices can be read back from the stacked tensors |
| ExpertStacking.SecondPassIff | vllm_metal/compat.py:838-839 | a second pass changes nothing if every per-expert key was canonical, and raises otherwise |
| ExpertStacking.StackedUnique | vllm_metal/compat.py:821-886 | the result does not depend on the order of the prefixes |

## Left out

- Floating-point rounding, dtype promotion and fp16, bf16 and FP8 decoding: values are given exactly.
- The IQ4 codebook and the IQ3_S grid, which live in the `gguf` package: parameters of the right shape and range.
- The computation inside `mx.quantized_matmul` and `mx.dequantize`: both are given by their meaning, the product with and the rows of the dequantized weight. The contract checks of `GGUFMLXQuantizedTensor` on already packed arrays are not modelled.
- Attention arithmetic and the Metal kernels beyond their cache addresses: only what is read where is modelled.
- M-RoPE positions, image-block ranges, state slots and the memo fields of the paged context, and its thread-local storage.
- The batches of the model runner, the scheduler and the block manager: their guarantees are preconditions of a step.
- int32 limits of slots and tables: numbers are unbounded.
- File access, the read pool and short reads: the checkpoint is an immutable byte map and every read is full. Each call to the store is sequential.
- `ExpertStore.install`, its layer validation and the safetensors index.
- Name parsing in the checkpoint index of the streaming experts: its names are structured values.
- Digits outside ASCII in the scan of expert keys, which `isdigit` also accepts.
- Shape errors of `mx.stack` and `mx.concatenate` in expert stacking, when experts of one prefix differ in shape.
- The common type that `mx.stack` gives to touched experts of different types: every tensor keeps its own.
- GGUF name translation, architecture checks, shape validation and the installation of modules; a missing module and a bad row index are the loader's modelled errors.
- `nax_split_kwargs`, which only forwards the hints according to the native build.
- Validation of raw tensors on construction (`GGUFRawBlockTensor.from_raw_blocks`): such a tensor is given as a grid of blocks.
- PagedContext.PrepareGrouped: block tables that do not reach a request's last position are excluded by the scheduler's guarantee; the source raises an index error for them.
- NaxSplit.WorkExactIff: KV lengths that do not include the step's own rows are excluded, as the function's documentation says.
- Layout.Matmul: what an activation with fewer columns than the weight is multiplied with, because MLX does not define a gather out of range; the values read there are a parameter.
- Lru.Inclusion: traces of settled calls only, because any other call breaks inclusion (`Lru.InclusionIff`).
- Lru.RunExact: traces of distinct, present experts, because a repeated expert makes the byte count inexact (`Lru.ExactIff`).
- Lru.ReserveIff: the memory held before eviction, which the source's reserve does not speak of.
- Loader.AllEntered: files without name clashes, because a later tensor silently replaces an earlier one of the same name.

# PocketLLM native engine: a verified model

PocketLLM's native engine is fast because it replaces simple forms by clever ones: a
hand-written thread pool, repacked weight panels, one-pass attention, group schedules, a
cache that grows. This project states, in Dafny 4.11, what each clever form promises and
proves it for all inputs, all runs or all interleavings.

`dafny verify dfyconfig.toml` checks everything.

## What is modelled

- **Thread pool** (`SpinPool`, `SpinPoolLiveness`, `Partition`, `PoolLedger`,
  `ChunkMemory`, `CallMemory`, `PoolMarks`, `PoolMemory`, `PoolBodies`). One step is one
  access to shared memory by one thread. Safety is an inductive invariant over any number
  of workers and callers; liveness is a falling measure under a fair schedule. `PoolLedger`
  keeps the list of calls that the schedule asks for, so that none can go missing.
  `Partition` proves that the chunk ranges tile the index space and that the order of the
  units cannot be seen in memory; the memory modules carry this down to the small steps of
  the bodies, shared inputs and scratch included: every run of the pool leaves the memory
  of the serial loops of exactly the calls asked for.
- **Quantized products** (`Q4KBlock`, `Simd`, `Q4KPanel`, `Q4KGemv`, `Q4KColumns`,
  `Q4KProduct`, `Q4KRow`, `Q8Pack`, `Q8Matrix`, `Q6KBlock`, `Q6KRow`, `Dequant`,
  `GemmRows`, `GemmZeros`, `GemmQuant`, `RowMeaning`, `ProductMeaning`). A vector
  instruction is a function on lanes with its real width, saturation and wrap-around; only
  the shuffles that spread one scale over a register are written as the spread scale
  (`Q4KRow.Splat`). The panel kernel and the row kernel are both proved against the exact
  integers of the original blocks, and those against the one-weight decoders. Float
  operations are uninterpreted parameters, so equal results mean the same operation tree;
  over the reals that tree is the dot product of the decoded weights with the activations,
  said in flat indices (`ProductMeaning`).
- **Attention** (`Flash`, `Attention`, `Prefill`, `PrefillExact`, `FullAttention`,
  `AttentionMeaning`), over the reals with `exp` a parameter that satisfies
  `e(a + b) = e(a) * e(b)` and `e(a) > 0`. Split-and-merge decode, tiled prefill and the
  three-pass form are all proved to write the same softmax-weighted average of exactly the
  visible keys.
- **Sampler** (`TopK`), **half precision** (`Half`, `HalfRow`), **cache** (`KvLayout`,
  `KvCache`), **weight loading and ownership** (`Weights`), **audio front end** (`Fft`,
  `AudioWindow`), **GGUF reader** (`GgufFormat`, `GgufMeaning`, `GgufRoundTrip`,
  `GgufReader`) and **choice fan-out** (`Choices`, `ChoiceGroup`).

Code that updates objects or buffers in place is a class or an array method here, proved
against a specification function; `Arith` holds the few facts about products and
quotients that all of them share.

## Where the code and its comments part

The model follows the code. These are proved, with the exact condition where a promise
does not hold as stated:

- The growth copy of the KV cache is said to carry the rows already written
  (`src/model/qwen3.cpp:1277-1299`). A slab survives exactly when the slot count does not
  change or its index is below both slot counts (`KvLayout.CarriedIff`); with two layers,
  going from two sequences to one loses layer 1 (`KvLayout.BatchThenSingleLosesLayers`).
- `reserve` replaces slabs without copying when it must grow; an empty history survives
  that, and of any other nothing is promised (`KvCache.Cache.Reserve`).
- Two-head prefill batches read one KV head for both. That is right exactly when the GQA
  group is even, there is one KV head, or the call has one token and so no batch
  (`PrefillExact.PrefillIsDecodeIff`).
- The panel header bounds an int16 lane by 7620 (`src/kernel/repack_q4k.h:34-38`). A lane
  adds eight pairs, so the bound is 30720 for any int8 activation (30480 when none is
  -128); it still fits (`Q4KGemv.LaneBound`).
- The destructor is said to free every buffer the model owns (`src/model/qwen3.cpp:98-108`).
  Its list leaves out the two per-token rotary tables and the deepstack planes, it never
  sees the layer in which a load throws, and it takes a head without rows for unbound.
  `Weights.Life` counts what each leaves behind and says when that is nothing.
- `align_up` gives the least aligned offset exactly when the sum does not wrap
  (`GgufReader.AlignUpIff`); a well-formed file that asks for an alignment of -1 has its
  data placed at offset 0 (`GgufReader.WrappingAlignment`). A tensor's size is a whole
  number of blocks exactly when nothing wraps (`GgufReader.SizeIsWholeBlocksIff`).
- `tensor_data` is said to reject a tensor that runs past the end of the file
  (`src/gguf/reader.cpp:370-372`). One that it hands out lies inside exactly when data
  start, offset and size add up without wrapping (`GgufReader.FetchedIsInsideIff`); one
  that does not is `GgufReader.StrayTensor`.
- An unsigned 64-bit metadata value reads back as itself exactly below 2^63
  (`GgufRoundTrip.U64RoundTripIff`). An array of an unknown item kind is accepted when it
  is empty, because the kind is looked at once per item.
- The fill of uncomputed audio frames never happens (`AudioWindow.EveryFrameIsAudio`).
- A request id that itself contains `#` can be caught by another request's cancellation
  (`ChoiceGroup.MarkedIdIsCaught`); mark-free ids keep groups apart. Choice 0 keeps the
  base seed and is not claimed different from the others.
- Narrowing a widened half returns the same bits exactly when it is not a signaling NaN
  (`HalfRow.RoundTripIff`).

## Model

| member | source | states |
|---|---|---|
| SpinPool.EveryRunIsSafe | src/kernel/parallel.h:387-453 | In every interleaving of any number of workers and callers: one call at a time; no worker reads the job or its chunk count, or counts an arrival, while a caller stores them; no worker is ever more than one generation behind, even as the 64-bit word wraps; a body runs only while its own caller is still in the call; a returning caller leaves no worker inside; every finished call ran each chunk exactly once and nothing adds to it later |
| SpinPool.StepKeeps | src/kernel/parallel.h:618-657 | The inductive invariant behind it survives one step of any thread: worker, caller or destructor |
| SpinPool.BarrierMeans | src/kernel/parallel.h:441-453 | When the arrival count reaches the worker count, every worker has left the job of the current generation and every index has been drawn |
| SpinPool.ReturnCoversEveryUnit | src/kernel/parallel.h:423-427 | When a call returns, each unit of its index space lies in the range of exactly one chunk, and that chunk was entered once and left once |
| SpinPool.LagIsVisible | src/kernel/parallel.h:450-452 | A worker one generation behind is told apart from one that is up to date whatever value the wrapping generation word holds |
| SpinPool.Quiet | src/kernel/parallel.h:387-400 | Between calls no worker is behind or on its way to a body, which is what makes the publication stores safe |
| SpinPoolLiveness.EveryAskReturns | src/kernel/parallel.h:388-453 | Under a fair schedule and a fair mutex, the turn at which an idle caller of a live pool asks for any positive number of units is answered: the caller comes back, and if the call was cut into several ranges, a job of just that total and chunk count was published after the asking and ran each of its ranges once |
| SpinPoolLiveness.EveryCallReturns | src/kernel/parallel.h:441-453 | Under a fair schedule a caller inside a call that does not wait for the lock gets out of `run_ranges`, and leaves the lock free |
| SpinPoolLiveness.BarrierFills | src/kernel/parallel.h:638-656 | From every reachable state with a caller at the barrier, a measure of owed worker steps falls until all workers have arrived |
| SpinPoolLiveness.ShutdownJoins | src/kernel/parallel.h:579-587 | After the destructor sets the flag and bumps the generation, every worker exits, and no body starts on the way |
| SpinPoolLiveness.DestructorReturns | src/kernel/parallel.h:579-587 | A destructor that finds no call in flight sets the flag, bumps the generation, waits until every worker has left, and returns; no job is published meanwhile |
| PoolLedger.CallStarts | src/kernel/parallel.h:388-420 | The turn of an idle caller in a live pool starts its call: nothing to run leaves the pool alone, one range is run by the caller itself, several wait for the lock |
| PoolLedger.EveryCallIsRun | src/kernel/parallel.h:388-453 | In every run, once no caller is inside a call, the calls that the schedule asked for are each over exactly once, and each that was cut into several ranges is one of the jobs, whose ranges ran once each |
| Partition.PartitionSize | src/kernel/parallel.h:299-308 | The chunk count is zero exactly when there is nothing to run or nobody to run it; otherwise it is at most the threads and at most the units, all chunks but one do not cover the units at one grain each, and below the thread cap all of them do: one number only |
| Partition.RangesTile | src/kernel/parallel.h:423-427 | The chunk ranges are non-empty, start at 0, end at the total, and each unit is in the range of exactly one chunk, given in closed form |
| Partition.RangesAreEven | src/kernel/parallel.h:423-427 | Every range is as long as the units over the chunks, rounded down or up |
| Partition.ScratchDisjoint | src/kernel/kernels.cpp:2500-2502 | Per-chunk score scratch regions lie inside the buffer and never share a cell |
| Partition.OrderIsInvisible | src/kernel/parallel.h:387-453 | Units that write only what they own, and read besides that only what nobody in the call writes, leave in any order what each alone would have left |
| Partition.SchedulesAgree | src/kernel/parallel.h:387-453 | Any two orders of such units leave the same memory, so every schedule equals the serial loop |
| PoolMemory.PoolRunsSerially | src/kernel/parallel.h:388-453 | In every interleaving of pool steps and of the small steps of the bodies in which calls that overlap do not race, whenever no caller is inside a call: the calls listed are those the schedule asked for, each is over exactly once, calls of one range included, and memory outside scratch is what their serial loops leave, one after another |
| PoolMemory.MachineKeeps | src/kernel/parallel.h:618-657 | Each step of any thread keeps the reason: every running call is as if each of its chunks had run alone up to its mark, and what no running call writes is as the finished calls left it |
| CallMemory.CallSteps | src/kernel/parallel.h:618-657 | A small step of one chunk of one call leaves every other running call where it stood |
| CallMemory.CallStarts | src/kernel/parallel.h:388-430 | A call that begins while others run finds its outputs and inputs as the finished calls left them |
| CallMemory.CallStops | src/kernel/parallel.h:441-453 | A call whose chunks are all at their ends adds exactly its serial loop to what the finished calls leave, whatever else still runs |
| PoolBodies.NoScratch | src/kernel/kernels.cpp:1764-1800 | For bodies without scratch nothing is exempt: the memories are equal |
| PoolBodies.IndependentIsOk | src/kernel/parallel.h:387-453 | Units that write what they own and read besides what nobody writes are among the bodies covered |
| PoolBodies.CopyIsOk | src/kernel/kernels.cpp:2498-2520 | So is a body that brings a shared input to its own cell by way of its chunk's scratch |
| ChunkMemory.AllRan | src/kernel/parallel.h:423-427 | Once every chunk of a call is at its end, however their steps interleaved and whatever scratch held before, the cells its units own are what one serial loop leaves |
| ChunkMemory.ChunkSteps | src/kernel/parallel.h:618-657 | A step of one chunk does what it would do were the chunk alone, and no other chunk and no input can tell |
| ChunkMemory.UnitValue | src/kernel/kernels.cpp:2500-2502 | A unit leaves the same in the cells it owns in whatever range and chunk it runs, and whatever scratch held |
| ChunkMemory.ScratchApart | src/kernel/kernels.cpp:2500-2502 | Chunk-private scratch regions share no cell |
| Q4KBlock.Unpack | src/kernel/kernels.cpp:965-975 | The word-at-a-time unpacking puts, in byte `g` and byte `8 + g`, the six-bit scale and minimum that the format defines for group `g` |
| Q4KPanel.RepackWeights | src/kernel/repack_q4k.cpp:1402-1452 | After repacking, every panel holds, for its eight columns, exactly the scales, minima, quants and half words of the original 144-byte blocks, for any `n` and `k` |
| Q4KPanel.PackedColumn | src/kernel/repack_q4k.cpp:1394-1394 | The packed six-bit pair of a column gives back both scales and both minima under the unpacking the kernels use |
| Q4KPanel.RunColumn | src/kernel/repack_q4k.cpp:1434-1446 | Unpacking a packed run of eight columns returns every column its own scale and minimum |
| Q4KPanel.Picked | src/kernel/repack_q4k.cpp:1423-1433 | The two passes of the repack pick out the very scales and minima the row kernel unpacks from a block, all below 64 |
| Q4KGemv.FinalUndoes | src/kernel/repack_q4k.cpp:1157-1161 | The final permutation undoes the 0,4,1,5,2,6,3,7 column order of the interleaved lanes |
| Q4KGemv.LaneBound | src/kernel/repack_q4k.cpp:1287-1316 | The int16 accumulator of a lane never leaves its range: eight pairs of at most 2 * 15 * 128, hence no saturation and no wrap |
| Q4KGemv.LanesAreGroup | src/kernel/repack_q4k.cpp:1279-1302 | The two int16 lanes of a column together hold the exact dot product of its 32-weight group |
| Q4KGemv.SubBlock | src/kernel/repack_q4k.cpp:1269-1300 | The eight shuffled, blended `maddubs` steps leave, in each lane, the exact partial sum of the column the lane order assigns to it |
| Q4KColumns.PanelBlock | src/kernel/repack_q4k.cpp:1195-1330 | One panel against one activation block: all eight scaled dot products and minimum terms are the exact integers of the original blocks |
| Q4KColumns.BlockDotBound | src/kernel/repack_q4k.cpp:1302-1329 | The int32 scale products of a whole block stay far inside int32 |
| Q4KProduct.GemvTile | src/kernel/repack_q4k.cpp:1144-1343 | Eight outputs from one row of panels are, in column order, the float expression over the exact integers of the original blocks, for any float operations |
| Q4KProduct.Gemv | src/kernel/repack_q4k.cpp:1144-1356 | Over a repacked matrix, for any number of activation rows and any panel range, each output cell of the range holds the value of its own weight row and activation row, and no other cell moves |
| ProductMeaning.GemvMeans | src/kernel/repack_q4k.cpp:1144-1356 | Over the reals the cell `s[y * bs + (x * 8 + c)]` of the panel product is the sum over blocks of the activation scale times `d` times the decoded integers less `dmin` times the minima: the dot product of the original weight row `x * 8 + c`, decoded one weight at a time, with activation row `y` |
| ProductMeaning.ColumnMeans | src/kernel/repack_q4k.cpp:1331-1343 | Over the reals the value of one column of a row of panels is that dot product |
| Q4KRow.RowBlock | src/kernel/kernels.cpp:1044-1083 | The eight int32 lanes of the row kernel on the original block do not wrap and add up to the same integer the panel kernel computes |
| Q4KRow.RowMin | src/kernel/kernels.cpp:1036-1043 | The minimum term of the row kernel: four lanes, each two groups, adding up to the same integer as the panel form |
| Q4KRow.LanesAreBlock | src/kernel/kernels.cpp:1050-1080 | Summing the row kernel's lanes regroups the block's products and nothing else |
| Q8Pack.PackBlock | src/kernel/repack_q4k.cpp:1475-1504 | Every activation byte of four rows lands at its interleaved place, and the 64 sums are the per-16 row sums at theirs |
| Q8Matrix.PackActivations | src/kernel/repack_q4k.cpp:1471-1509 | Group `g` and block `b` of a whole matrix are packed at `packed[g * nb + b]`, every activation, sum and scale in its place, for every whole group of four rows and every block of `k`; nothing behind the groups is written |
| Q8Pack.PackIsBijection | src/kernel/repack_q4k.cpp:1492-1495 | The interleaving has a left inverse: row and weight are recovered from the position |
| Q8Pack.UnpackIsBijection | src/kernel/repack_q4k.cpp:1492-1495 | And a right inverse: every one of the 1024 positions is used |
| Q8Pack.SumsArePlaced | src/kernel/repack_q4k.cpp:1496-1501 | The index a byte adds its value to is the sum of its own row and group of sixteen |
| Q6KBlock.LanesAreDot6 | src/kernel/kernels.cpp:1087-1152 | Lanes less offsets regroup to the decoded dot product, using only that the block sums are the sums of their sixteen activations |
| Q6KBlock.OffsetsAreSum | src/kernel/kernels.cpp:1087-1097 | The once-per-block offset is 32 times the scaled activation sum |
| Q6KBlock.OffsetApart | src/quant/blocks.h:186-196 | The offset of 32 can be taken out of the decoded sum |
| Q6KRow.RowBlock6 | src/kernel/kernels.cpp:1083-1155 | No lane of the q6_K row kernel wraps, and its eight lanes add up to `sum scale * (q - 32) * a` over the weights as the format decodes them, though the kernel multiplies unsigned weights and takes the offset off once per block |
| Q6KRow.HighBitsAt | src/kernel/kernels.cpp:1107-1121 | The masked 16-bit shifts give each byte its own two high bits: no bit crosses into a neighbour |
| Q6KRow.RunOperands | src/kernel/kernels.cpp:1099-1127 | The four registers of a half hold exactly the six-bit weights `q6_k_raw_value` decodes, run by run |
| Dequant.BlockIsDecoded | src/quant/blocks.h:114-149 | Over the reals, `d` times the q4_K integer less `dmin` times the minimum integer is the dot product of the 256 weights as the decoder gives them one at a time |
| Dequant.Block6IsDecoded | src/quant/blocks.h:172-200 | The same for q6_K: `d` times the kernel's integer is the dot product of the decoded weights |
| GemmRows.DotRow | src/kernel/kernels.cpp:1011-1167 | The one-row kernel returns one fixed tree of float operations over exact integers, whatever the float operations are |
| GemmRows.DotRows | src/kernel/kernels.cpp:1228-1420 | The several-row kernel builds the same tree for every row from one decode of each weight block; for q6_K that tree without its last addition |
| GemmRows.ReduceHalves | src/kernel/kernels.cpp:1406-1420 | Adding the register halves and then neighbours twice is the association the one-row kernel writes lane by lane |
| GemmRows.TileIsRow | src/kernel/kernels.cpp:1406-1420 | The several-row kernel returns what the one-row kernel returns: for q4_K under any float operations, for q6_K under the laws a zero obeys on sums started at `+0`: a multiply-add onto such a sum, and a sum of two, stay so, and adding zero to one changes nothing |
| RowMeaning.RowMeans | src/kernel/kernels.cpp:1011-1167 | Over the reals the tree of the one-row kernel is the dot product of the row, decoded one weight at a time, with the activations: for q4_K with the minima taken off, for q6_K with the offset of 32 |
| RowMeaning.TileMeans | src/kernel/kernels.cpp:1228-1420 | And so is the tree of the several-row kernel |
| GemmZeros.SignedZerosBehave | src/kernel/kernels.cpp:1159-1166 | Those laws hold of an arithmetic with two zeros, for which adding `+0` is not the identity |
| GemmZeros.LawsAreNeeded | src/kernel/kernels.cpp:1159-1166 | If sums start at a value that adding does not leave alone, the two q6_K kernels differ already on an empty row, though the other laws hold |
| GemmZeros.FmaLawIsNeeded | src/kernel/kernels.cpp:1159-1166 | With a true zero, but a multiply-add that gives minus zero, they differ on every block, though the other laws hold |
| GemmZeros.AddLawIsNeeded | src/kernel/kernels.cpp:1159-1166 | With a true zero, but sums that may be minus zero, they differ on every block, though the other laws hold |
| GemmQuant.WrittenOnce | src/kernel/kernels.cpp:1764-1772 | For any `m`, `n` and group size, each output is written by exactly one index of the grouped schedule, and that index is in range |
| GemmQuant.Product | src/kernel/kernels.cpp:1764-1800 | Whatever order the indices run in, every output ends as its own dot product with bias, stored or accumulated exactly once |
| ProductMeaning.ProductMeans | src/kernel/kernels.cpp:1764-1800 | Over the reals the cell `s[r * n + j]` ends as the old value if the call accumulates, plus the dot product of decoded weight row `j` with activation row `r`, plus the bias of `j` if there is one |
| ProductMeaning.DotMeans | src/kernel/kernels.cpp:1764-1800 | Over the reals each dot product, in a group or in the tail, is that of the decoded weights in their flat buffer |
| GemmQuant.DotIsRow | src/kernel/kernels.cpp:1764-1800 | Every dot product, computed in a group or in the tail, is the one-row value |
| GemmQuant.GroupSizeIsInvisible | src/kernel/kernels.cpp:1764-1800 | No output depends on how many rows a group holds, for q4_K under any float operations and for q6_K under the laws of zero |
| GemmQuant.IndexInside | src/kernel/kernels.cpp:1772-1790 | Every index of the schedule stays inside the matrix, groups and tail alike |
| Flash.FlashFold | src/kernel/kernels.cpp:388-432 | One fold rewrites exactly its `d + 2` cells, as the specification step does, and leaves the rest of the buffer alone |
| Flash.FoldKeepsRep | src/kernel/kernels.cpp:388-432 | Folding key `s` turns a triple that represents keys `[lo, s)` into one that represents `[lo, s + 1)`, on both sides of the rescaling branch |
| Flash.MergeStep | src/kernel/kernels.cpp:2372-2379 | A partial held at its own maximum, scaled by `e(m - ref)`, adds exactly its keys to a total held at `ref` |
| Flash.AverageAt | src/kernel/kernels.cpp:2109-2141 | The softmax average does not depend on the reference it is shifted by, and its denominator is positive |
| Flash.PeakStep | src/kernel/kernels.cpp:2361-2367 | Comparing a partial's maximum with the running one gives the maximum over both spans |
| Attention.Decode | src/kernel/kernels.cpp:2270-2390 | One-token attention with blocks of 128, up to eight chunks, online folding and log-sum-exp merging writes for every head the softmax-weighted average of exactly keys `[first_key, q_offset]`, for every span and group; it declines exactly above the group cap and then writes nothing |
| Attention.ChunksTile | src/kernel/kernels.cpp:2296-2336 | The chunks are non-empty, ordered and cover every block, hence every key, once |
| Attention.LargestMax | src/kernel/kernels.cpp:2361-2367 | The largest chunk maximum is the maximum over the whole span |
| Attention.MergeChunks | src/kernel/kernels.cpp:2368-2379 | The merged denominator and sums are those of the whole span at that maximum |
| Attention.QueryApart | src/kernel/kernels.cpp:2381-2384 | Output rows of different tokens or heads never overlap |
| Prefill.Prefill | src/kernel/kernels.cpp:2392-2497 | Batched causal prefill of several tokens writes each output row once, as the average over exactly its own visible keys read from the KV head the kernel picks |
| Prefill.DealIsPermutation | src/kernel/kernels.cpp:2220-2247 | The block deal is a bijection: every block is taken by one turn and every turn takes one block |
| Prefill.UnitsPartition | src/kernel/kernels.cpp:2243-2247 | Each output row belongs to exactly one unit of the parallel loop |
| Prefill.WalkKeys | src/kernel/kernels.cpp:2418-2484 | Shared region, triangular tail and ragged last block together fold each key of `[first_key, q_offset + t]` into row `t` exactly once |
| Prefill.TileFits | src/kernel/kernels.cpp:2400-2417 | A tile stays inside the call and holds exactly the rows and heads of its block and group |
| Prefill.FoldWide | src/kernel/kernels.cpp:2435-2451 | One shared key folded into all rows of a full tile |
| Prefill.FoldRows | src/kernel/kernels.cpp:2452-2484 | One key folded into rows `from` and later, the ragged block and the causal tail |
| PrefillExact.PrefillIsDecodeIff | src/kernel/kernels.cpp:2405-2407 | An accepted one-pass call stores what decoding each token alone stores, on all inputs of a shape, exactly when the group is even, there is one KV head, or there is one token |
| PrefillExact.HeadsRight | src/kernel/kernels.cpp:2405-2407 | The KV head the batch reads is the head of every query in it exactly under that condition |
| PrefillExact.StrayDiffers | src/kernel/kernels.cpp:2405-2407 | For every accepted shape of several tokens that fails the condition, and each of its tokens, an input on which the two differ |
| PrefillExact.OnePass | src/kernel/kernels.cpp:2270-2497 | The one-pass call decodes one token and prefills several, and writes every row as the average over its visible keys from the KV head that branch reads; above the group cap it declines and writes nothing |
| PrefillExact.PrefillStores | src/kernel/kernels.cpp:2485-2494 | What the one-pass path leaves in the output is the value the comparison calls batched |
| PrefillExact.DecodeStores | src/kernel/kernels.cpp:2381-2384 | What decoding one token leaves in the output is the value the comparison calls alone |
| FullAttention.Full | src/kernel/kernels.cpp:2087-2144 | The three-pass form writes for every row the same softmax-weighted average, the reference both fast forms meet; it declines exactly above the group cap or for an f16 cache |
| FullAttention.ThreePass | src/kernel/kernels.cpp:2104-2141 | Maximum, exponentials and weighted sum of one row, touching no other row |
| AttentionMeaning.DecodeMeans | src/kernel/kernels.cpp:2270-2390 | Decoding: component `z` of head `h` times the sum of `e(scale * q . k)` over the keys `[first_key, q_offset]` is the sum of those weights times the values, with every index of query, key, value and output written out |
| AttentionMeaning.OnePassMeans | src/kernel/kernels.cpp:2392-2497 | The same for every row of an accepted one-pass call, up to its own position and from the KV head that branch reads |
| AttentionMeaning.FullMeans | src/kernel/kernels.cpp:2087-2144 | The same for the three-pass form |
| AttentionMeaning.ScaleMoves | src/kernel/kernels.cpp:2348-2348 | A call with a scale leaves what the same call leaves with scale one and its queries multiplied by the scale |
| AttentionMeaning.ZeroScaleIsMean | src/kernel/kernels.cpp:2109-2141 | With scale zero the output is the plain mean of the visible values |
| AttentionMeaning.OneComponentWeighs | src/kernel/kernels.cpp:2348-2348 | A query that is zero but for one component weighs each key by the exponential of the scale times that component times the key's |
| TopK.Sample | src/kernel/kernels.cpp:2774-2859 | The returned token is the ranked token whose cumulative kept share is the first to reach `uniform`, among the prefix the three filters keep; no logits is an error; `min_p` above 1 returns the argmax |
| TopK.RankDescending | src/kernel/kernels.cpp:1527-1546 | The ranking is a permutation in descending probability, ties by lower index |
| TopK.RankIsUnique | src/kernel/kernels.cpp:1527-1546 | There is only one such ranking, so how it is sorted cannot be seen |
| TopK.Truncate | src/kernel/kernels.cpp:2794-2835 | The filters together keep a prefix of length the minimum of the top-k, min-p and shortest-mass cutoffs |
| TopK.KeptMeans | src/kernel/kernels.cpp:2794-2835 | A rank is kept exactly when it is below a positive `top_k`, its probability is at least a positive `min_p` times the first, and the mass ahead of it is below a `top_p` under one or there is nothing ahead of it |
| TopK.Crossing | src/kernel/kernels.cpp:2812-2823 | The one-pass crossing ends the shortest prefix whose mass reaches `p`, or is 0 when none does |
| TopK.TopPKeeps | src/kernel/kernels.cpp:2812-2834 | The exclusive-prefix test with the crossing keeps exactly the ranks below that shortest prefix |
| TopK.KeptIsEmptyIff | src/kernel/kernels.cpp:2800-2807 | The kept prefix is empty exactly when `min_p` is above 1 |
| TopK.DrawIntervals | src/kernel/kernels.cpp:2845-2857 | A kept token is drawn on an interval of width its probability over the kept mass, and the intervals are disjoint |
| TopK.SoftmaxRow | src/kernel/kernels.cpp:1493-1511 | The shifted softmax is the softmax, and every probability is positive |
| TopK.Draw | src/kernel/kernels.cpp:2845-2857 | For a draw of at most 1 the walk stops at the kept token that the draw selects; above 1 it falls through to the last rank |
| Half.NarrowIsNearest | src/kernel/kernels.cpp:158-216 | Narrowing gives the nearest binary16 magnitude with ties to even for every finite binary32 input, through subnormals, mantissa carry and overflow to infinity (IEEE 754-2019 sections 3.4 and 4.3.1) |
| Half.GridIncreases | src/kernel/kernels.cpp:158-216 | Binary16 bit patterns order as their values, so nearest is well defined |
| Half.GridStep | src/kernel/kernels.cpp:158-216 | Neighbouring bit patterns differ by the step of their exponent, across the subnormal boundary and into infinity's place |
| HalfRow.WidenIsExact | src/kernel/kernels.cpp:114-145 | Widening keeps the value of every finite half |
| HalfRow.RoundTripIff | src/kernel/kernels.cpp:114-216 | Narrowing a widened half returns the same bits exactly when it is not a signaling NaN |
| HalfRow.NarrowedIsStable | src/kernel/kernels.cpp:158-216 | What narrowing produces survives any further round trip |
| HalfRow.HalfToFloat | src/kernel/kernels.cpp:114-145 | The scalar loop that normalises a subnormal computes the specified bits |
| HalfRow.FloatToHalf | src/kernel/kernels.cpp:158-216 | The scalar branches compute the specified bits |
| HalfRow.KvRowToFloat | src/kernel/kernels.cpp:2884-2913 | A cache row of any length widens element by element and nothing past it changes |
| HalfRow.FloatToKvRow | src/kernel/kernels.cpp:2915-2954 | A row of any length narrows element by element and nothing past it changes |
| HalfRow.NarrowWidened | src/kernel/kernels.cpp:114-216 | What the round trip does to each half, signaling NaNs included: those gain the quiet bit |
| HalfRow.NarrowKeepsSign | src/kernel/kernels.cpp:158-216 | Narrowing keeps the sign bit and acts on the magnitude alone |
| HalfRow.NarrowSpecials | src/kernel/kernels.cpp:158-216 | Infinity narrows to infinity, a NaN to a quiet NaN with its own nine payload bits |
| HalfRow.WidenMeans | src/kernel/kernels.cpp:114-145 | Widening keeps the sign bit and acts on the magnitude alone; infinity stays infinity, a NaN keeps its payload |
| KvLayout.CarriedIff | src/model/qwen3.cpp:1326-1327 | A slab survives the growth copy, for all contents, exactly when the slot count is unchanged or the slab index is below both slot counts |
| KvLayout.CopiedInPlace | src/model/qwen3.cpp:1326-1327 | The copy's addressing and the forward pass's addressing name the same slab exactly under that condition |
| KvLayout.BatchThenSingleLosesLayers | src/model/qwen3.cpp:1326-1327 | Two layers and two slots grown to one slot: layer 1 receives another slab's rows |
| KvLayout.RowsDisjoint | src/model/qwen3.cpp:1174-1181 | Rows of different layer, sequence or position never share a cell and lie inside the allocation |
| KvLayout.SlabsApart | src/model/qwen3.cpp:1174-1181 | Different layers or sequences have different slabs |
| KvLayout.GrownIsLeastDoubling | src/model/qwen3.cpp:1304-1307 | A growth stops at the least power-of-two multiple of its start that reaches the positions, or at the context length if that comes first |
| KvCache.RunSingle | src/model/qwen3.cpp:974-987 | After every run of single-sequence `forward` and `reset` calls, through any number of capacity growths and refused calls, each layer holds at every position below the length exactly the row appended there |
| KvCache.RunReserved | src/model/qwen3.cpp:1029-1044 | Whatever a cache holds, once it fits `P` positions and `S` slots every run of batches inside them keeps the same slabs: the growth branch is never reached and each sequence is given its own tokens; a cache that held its histories still does |
| KvCache.StepReserved | src/model/qwen3.cpp:1301-1303 | One such step: slabs, capacity and slots unchanged, every sequence extended by its own tokens only, nothing held before is lost |
| KvCache.Cache.Forward | src/model/qwen3.cpp:974-987 | A forward call is refused for exactly its stated reasons and then changes nothing, or appends its rows and keeps every earlier one |
| KvCache.Cache.ForwardBatch | src/model/qwen3.cpp:1029-1044 | The same for a batch: refused for the first offending sequence, or every sequence gains its rows; which histories survive a growth is stated |
| KvCache.Cache.ForwardImpl | src/model/qwen3.cpp:1046-1275 | Checks before writes, growth before appends, lengths after; a refused call leaves cache and lengths untouched |
| KvCache.Cache.EnsureKv | src/model/qwen3.cpp:1277-1350 | Growth happens exactly when positions or slots do not fit, ends because positions never exceed the context, and carries the histories whose slabs are copied in place |
| KvCache.Cache.Reserve | src/model/qwen3.cpp:1352-1388 | A reservation that must grow replaces the slabs without copying; one that fits changes nothing; bad arguments change nothing |
| KvCache.Cache.Append | src/model/qwen3.cpp:1171-1211 | Appending a batch writes only each sequence's own slab at its own positions |
| KvCache.Cache.GrowRope | src/model/qwen3.cpp:665-693 | The rotary table grows to cover the positions and never shrinks |
| KvCache.Cache.Reset | src/model/qwen3.cpp:967-972 | Reset leaves one empty sequence |
| KvCache.RefusalIff | src/model/qwen3.cpp:1057-1074 | A batch is accepted exactly when every sequence has tokens and ends inside the context |
| KvCache.Cache.Advance | src/model/qwen3.cpp:1077-1275 | An accepted batch: growth first, then the appends, with exactly the histories that were safe still held |
| Weights.Life | src/model/qwen3.cpp:469-636 | For every checkpoint, from construction over loading, materialising and any run of reallocating calls to destruction: the allocations left behind are two and one per deepstack level if the load completes, the buffers already bound of the layer in which it throws, and a head without rows; the device is as before exactly when there are none |
| Weights.Load | src/model/qwen3.cpp:577-636 | After a load that succeeds the model holds the checkpoint: a tied head is the table, a head of its own is not and has its own format and rows, the matrices of all layers follow in order with theirs, and every norm is bound; if the backend materialises every packed weight has given its bytes up after all its decoded forms were built, otherwise none has |
| Weights.TornAt | src/model/qwen3.cpp:600-624 | A load that throws at tensor `j` of a layer, the ones before it complete, leaves the `j` buffers bound before it |
| Weights.BindTop | src/model/qwen3.cpp:577-597 | Table, head and last norm: which of their throws end the load, that only a head without rows is left to nobody, and, if none throws, that the table has the checkpoint's format and rows and the head is tied to it or the checkpoint's own |
| Weights.BindLayer | src/model/qwen3.cpp:600-624 | A layer is read into a local that becomes the model's when it is whole, its matrices behind the earlier ones and its norms behind theirs, in order; a throw strands what was read of it |
| Weights.Model.Adopt | src/model/qwen3.cpp:623-623 | A finished layer becomes the model's, every buffer of it exactly once, matrices as matrices and norms as norms |
| Weights.Model.Destroy | src/model/qwen3.cpp:97-140 | The destructor releases every buffer its list names while that allocation is live, none twice, whether the head is tied or separate and weights are dense, packed or already given up; what stays live beyond the start is exactly what the list leaves out |
| Weights.Model.Materialize | src/model/qwen3.cpp:396-467 | Materialising releases each packed allocation once, after the decoded form of every consumer was built, and sets the flag on both members of a tie |
| Weights.Model.MaterializeTable | src/model/qwen3.cpp:416-431 | A tied table is released only after both its gather and its head forms were built, and the head's flag travels with it |
| Weights.Model.MaterializeSlot | src/model/qwen3.cpp:433-466 | A packed matrix is decoded, then released, then marked; no other weight changes |
| Weights.Model.BindHead | src/model/qwen3.cpp:591-595 | A head of its own never looks tied to the table |
| Weights.Model.TieHead | src/model/qwen3.cpp:591-595 | A tied head is the table, flag and format included |
| Weights.Device.ReleasePacked | src/model/qwen3.cpp:417-424 | Packed bytes may be released only when each consumer's decoded form exists |
| Weights.StaleHandleLooksTied | src/model/qwen3.cpp:87-95 | Were a released handle reused by a later head, the identity test would call it tied: the test is sound only on weights bound before anything is given up |
| Weights.Model.BindTable | src/model/qwen3.cpp:358-394 | The table is bound to a fresh buffer, dense or packed, and nothing else moves |
| Weights.Model.BindMatrix | src/model/qwen3.cpp:209-298 | A matrix takes a fresh buffer, held by the layer being read, and leaves every earlier weight as it was |
| Weights.Model.BindNorm | src/model/qwen3.cpp:160-195 | So does a norm of a layer |
| Weights.Device.Release | src/model/qwen3.cpp:142-158 | A buffer may be released only while that very allocation is live |
| Weights.Model.ReleaseWeight | src/model/qwen3.cpp:142-158 | Releasing a weight frees the one buffer it still owes, or none |
| Weights.CountOwned | src/model/qwen3.cpp:97-140 | What is live is what was live at the start and one allocation for each buffer still held |
| Weights.Model.EnsureCapacity | src/model/qwen3.cpp:802-889 | A forward pass gives up all buffers of the last batch, then allocates all of its own, two per-token rotary tables and the deepstack planes among them |
| Weights.Model.GrowCaches | src/model/qwen3.cpp:1311-1347 | Growth allocates both new caches before it releases the old ones, and loses neither |
| Weights.Model.Renew | src/model/qwen3.cpp:665-693 | A rotary table or a reservation that grows releases its pair, then allocates it |
| Weights.Model.BindOther | src/model/qwen3.cpp:597-597 | The last norm takes a fresh buffer and leaves the rest as it was |
| Fft.FftReal | src/model/audio_frontend.cpp:72-111 | The recursive transform writes the exact DFT for every size dividing the table, through any mix of even splits and odd fallbacks, and terminates |
| Fft.DftReal | src/model/audio_frontend.cpp:38-56 | The naive transform writes the exact DFT |
| Fft.DftMeans | src/model/audio_frontend.cpp:38-56 | Bin `k` of that transform is the signal against the cosines and, negated, against the sines of the table |
| Fft.SplitSum | src/model/audio_frontend.cpp:84-110 | An even-length sum is its even half plus a twiddle times its odd half |
| Fft.Butterfly | src/model/audio_frontend.cpp:96-110 | Both halves of the spectrum follow from the two half transforms, given only the root-of-unity laws |
| Fft.SumPeriod | src/model/audio_frontend.cpp:96-110 | A half transform is periodic, which is what lets one bin serve two outputs |
| Fft.QuarterTurns | src/model/audio_frontend.cpp:17-33 | The laws asked of a table can be met |
| AudioWindow.AudioLogMelWindow | src/model/audio_frontend.cpp:289-335 | A window holds, frame by frame, the normalised log energies of the exact transform of the reflected signal, scaled by the whole signal's maximum and padded to whole chunks; an index outside the signal's windows is refused; the lengths of the spectrogram and of the window are stated, so every value follows |
| AudioWindow.EveryFrameIsAudio | src/model/audio_frontend.cpp:185-227 | The cut-off at `n_samples / hop + 1` never bites: no frame is filled without being computed, whatever the sizes |
| AudioWindow.WindowsTile | src/model/audio_frontend.cpp:299-307 | Every frame is one column of exactly one window, and every window but the last is full |
| AudioWindow.ReflectMirrors | src/model/audio_frontend.cpp:194-207 | The padding mirrors the signal about its first and last sample, and is silent where the mirror runs out |
| AudioWindow.NormRange | src/model/audio_frontend.cpp:312-333 | Normalised values span at most 2 and keep their order: within 8 of the maximum a value `v` becomes `v / 4 + 1`, below that the maximum decides |
| AudioWindow.PadSignal | src/model/audio_frontend.cpp:194-207 | The padded buffer is the mirrored signal, sample by sample, also for a signal shorter than the padding |
| AudioWindow.CutFrame | src/model/audio_frontend.cpp:228-242 | A frame is the windowed slice of the mirrored signal; it never reads past the padded buffer |
| AudioWindow.LogMel | src/model/audio_frontend.cpp:192-272 | Every frame of every band is the log of the clamped energy of the exact transform |
| AudioWindow.LogMelMeans | src/model/audio_frontend.cpp:243-261 | A value of the spectrogram is the log of the weighted sum of squared correlations of the frame with the table, or of the floor when that is larger |
| AudioWindow.MaximumIs | src/model/audio_frontend.cpp:312-315 | The maximum is at least -1e20 and every value, and is one of them or -1e20 |
| GgufRoundTrip.HeaderRoundTrip | src/gguf/reader.cpp:250-287 | Reading a written header returns it and stops at its end, whatever bytes follow |
| GgufRoundTrip.TruncatedFails | src/gguf/reader.cpp:52-60 | Every proper prefix of a written header is rejected |
| GgufRoundTrip.LongerHeader | src/gguf/reader.cpp:52-60 | Bytes after an accepted header cannot change what was read |
| GgufRoundTrip.U64RoundTripIff | src/gguf/reader.cpp:161-161 | An unsigned 64-bit value reads back as itself exactly when it is below 2^63 |
| GgufMeaning.HeaderMeans | src/gguf/reader.cpp:250-263 | An accepted header opens with the bytes of "GGUF", a 32-bit version, the number of tensors and the number of metadata records |
| GgufMeaning.TensorMeans | src/gguf/reader.cpp:274-287 | A tensor record is a string, a 32-bit count, that many 64-bit dimensions, a signed 32-bit type and a 64-bit offset, one behind the other |
| GgufMeaning.PairMeans | src/gguf/reader.cpp:265-272 | A metadata record is its key, a signed 32-bit type and the value behind them |
| GgufMeaning.ValueMeans | src/gguf/reader.cpp:96-175 | A value of type 9 is an array, item type and 64-bit count first; any other is one scalar |
| GgufMeaning.NarrowTypes | src/gguf/reader.cpp:153-175 | The one- and two-byte types, byte by byte: what each is read as, how many bytes it takes, and that fewer fail |
| GgufMeaning.FourByteTypes | src/gguf/reader.cpp:153-175 | The four-byte types, likewise |
| GgufMeaning.EightByteTypes | src/gguf/reader.cpp:153-175 | The eight-byte types, likewise, and the types no reader accepts |
| GgufMeaning.StringMeans | src/gguf/reader.cpp:72-80 | A string is its 64-bit length and that many bytes, and fails when they are not there |
| GgufReader.FileRoundTrip | src/gguf/reader.cpp:250-314 | For every file value with distinct keys and tensor names, no nested arrays and unsigned values below 2^63, parsing its serialisation, whatever data follows, gives back the metadata and nothing else, and the tensor directory in order and by name; the data start is the least aligned offset behind the header exactly when its sum does not wrap |
| GgufReader.Parse | src/gguf/reader.cpp:250-314 | Parsing computes the header specification, failure included, and builds the directory from it |
| GgufReader.AlignUpIff | src/gguf/reader.cpp:177-182 | The data start is the least aligned offset at or after the header exactly when the sum does not wrap |
| GgufReader.WrappingAlignment | src/gguf/reader.cpp:289-298 | A well-formed file that asks for an alignment of -1 has its data section placed at offset 0, inside its header |
| GgufReader.FetchedIsInsideIff | src/gguf/reader.cpp:365-386 | A tensor of a written file that is fetched by its name lies inside the file, where its record puts it, exactly when data start, offset and size add up without wrapping |
| GgufReader.StrayTensor | src/gguf/reader.cpp:370-372 | A well-formed file whose one tensor passes the test against every file size and is handed out 32 bytes before the end of the 64-bit range |
| GgufReader.SizeIsWholeBlocksIff | src/gguf/reader.cpp:186-204 | A tensor's size is that of the fewest whole blocks that hold its elements exactly when neither the rounding-up nor the product with the block size wraps |
| GgufReader.ElementsModulo | src/gguf/reader.cpp:197-200 | The element count is the product of the dimensions modulo 2^64 |
| GgufReader.LastWins | src/gguf/reader.cpp:265-272 | Of equal keys the last one in the file is kept |
| GgufReader.Cursor.ReadValue | src/gguf/reader.cpp:153-175 | The cursor reads a value or fails exactly as the specification at its position says, and stops where it says |
| GgufReader.Cursor.ReadArray | src/gguf/reader.cpp:96-151 | The same for arrays, including the kinds whose items are checked only when there are any |
| Choices.SeedsAreDistinct | python/pocketllm/choices.py:75-93 | For any base, choices 1 and up of a stochastic request get pairwise distinct seeds; choice 0 and a greedy request keep the base |
| Choices.SeedIsSplitMix | python/pocketllm/choices.py:87-93 | The seed of a further choice, bit by bit: the base advanced by the golden gamma once per choice, then splitmix64 with its shifts of 30, 27 and 31 and its two products |
| Choices.MixIsInjective | python/pocketllm/choices.py:90-93 | The three multiply-and-shift rounds are injective on 64-bit words |
| Choices.FoldIsInjective | python/pocketllm/choices.py:91-93 | An exclusive-or with the word's own right shift is injective |
| Choices.ProductIsInjective | python/pocketllm/choices.py:90-92 | Multiplication modulo 2^64 by a constant with an inverse is injective |
| Choices.OddConstants | python/pocketllm/choices.py:90-92 | The three constants have inverses |
| Choices.StatesDiffer | python/pocketllm/choices.py:87-90 | The states the rounds start from differ between choices |
| ChoiceGroup.FanOut | python/pocketllm/choices.py:96-128 | One choice is handed back as it is; more than 128 are refused; otherwise `n` requests with distinct ids and the seeds above |
| ChoiceGroup.ChoiceMeans | python/pocketllm/choices.py:114-128 | Choice `i` carries the request's id, a `#` and `i` in decimal, a count of one, the request's temperature, and for choice 0 or at a temperature of 0.00001 or below the caller's own seed |
| ChoiceGroup.ReachesIff | python/pocketllm/choices.py:200-217 | Which choices a cancelled id reaches, exactly: its own request, an outer one whose id continues past the mark, or itself |
| ChoiceGroup.MarkFreeIdsKeepGroupsApart | python/pocketllm/choices.py:200-217 | For ids without the mark, cancelling reaches exactly the request's own group |
| ChoiceGroup.MarkedIdIsCaught | python/pocketllm/choices.py:200-217 | An id containing the mark can be caught by another request's cancellation |
| ChoiceGroup.CancelledAreActive | python/pocketllm/choices.py:195-245 | In every run of begin, cancel, clear and close, the cancelled ids are active ones |
| ChoiceGroup.ActiveIff | python/pocketllm/choices.py:219-245 | An id is in flight exactly when it began and since then was not cleared nor everything closed |
| ChoiceGroup.CancelSticks | python/pocketllm/choices.py:200-227 | A choice in flight when its group is cancelled stays cancelled until it is cleared or all is closed |
| ChoiceGroup.OnlyCancelCancels | python/pocketllm/choices.py:200-227 | A choice is cancelled only by a cancellation that reached it while it was in flight, with no clearing since |
| ChoiceGroup.RequestState.CancelRequest | python/pocketllm/choices.py:200-217 | Cancelling marks exactly the in-flight ids it reaches and reports whether there were any |
| ChoiceGroup.RequestState.BeginRequest | python/pocketllm/choices.py:219-221 | Beginning makes the id active and leaves the cancellations alone |
| ChoiceGroup.RequestState.ClearRequest | python/pocketllm/choices.py:223-227 | Clearing forgets the id altogether |
| ChoiceGroup.ReachesOwnGroup | python/pocketllm/choices.py:200-217 | Whatever the id, cancelling it reaches every one of its own choices |
| ChoiceGroup.RequestState.CloseAll | python/pocketllm/choices.py:242-245 | Closing forgets everything |
| ChoiceGroup.ReachesIsOuter | python/pocketllm/choices.py:200-217 | For a mark-free id, the choices reached are those whose id up to the first mark is that id |
| ChoiceGroup.ChoiceIdsDiffer | python/pocketllm/choices.py:122-122 | Choices of one request have different ids |

## Left out

- Memory ordering below sequential consistency and thread pinning.
- SpinPoolLiveness.EveryAskReturns: that the mutex is fair is an assumption, as is that the
  scheduler is.
- Parallel bodies inside kernels are written as serial loops over their units;
  `PoolMemory.PoolRunsSerially` is the argument that the schedule cannot matter, and
  `GemmQuant.Product` takes the order of the indices as a parameter.
- PoolMemory.PoolRunsSerially: what callers write between calls is not part of the memory,
  and calls that overlap, one of them run by its own caller, are taken not to race.
- Rounding and reassociation of 32-bit floats: attention, sampling and the transform are
  over the reals, quantized products over uninterpreted operations.
- Attention: lane layouts of the dot products, interleaved query panels, widening of an
  f16 cache inside the kernel, flat addressing of the partials (indexed here by unit, slot
  and cell), and the materialising path for head sizes above the cap.
- The tile GEMM over panels, the exact float GEMM path and the choice between paths.
- GemmRows.DotRows: the eight unrolled rows and steps are loops over any number of rows.
- Q8Pack.PackBlock, Q8Matrix.PackActivations: take the quantized bytes of the rows; the
  quantizer of an activation block is not part of this model.
- GemmRows.TileIsRow: that binary32 obeys the laws of zero is not derived from a bit-level
  model of its operations.
- HalfRow.KvRowToFloat, HalfRow.FloatToKvRow: the scalar form; the vector conversions are
  instructions with the same rounding, but the widening one sets the quiet bit of a
  signaling NaN, which the scalar form keeps.
- TopK.RankDescending: insertion in place of the library's stable sort; the ranking is
  unique (`TopK.RankIsUnique`).
- TopK.Sample: with real sums the kept shares reach 1, so the float case where rounding
  keeps them below the draw and the walk falls through to the last rank is not modelled.
- KvCache: the contents of a row are abstract, rotary angles and scratch growth are left
  out, and the paths with embeddings or explicit positions are not modelled.
- Weights: the layers' matrices are one list after table and head, device contents are
  abstract, the copies made while a weight is repacked are left out, and a device serves
  one model at a time.
- Weights.Life: exceptions of the allocator or of the backend itself are left out.
- AudioWindow: trigonometric and mel tables are parameters, and the frame size must be the
  table size; the bank is indexed by row rather than flat.
- GGUF: file mapping, error text, allocation failure and the typed getters; type geometry
  is a parameter; floats are kept as bit patterns; position arithmetic does not wrap, since
  a length near 2^64 fails in the string or allocation either way.
- Choices: the lock of the request state makes each operation one step; streaming and
  usage folding add nothing to the state.

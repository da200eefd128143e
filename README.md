# Fused accumulation of tied parameter flows

PyJuice lets several node groups of a probabilistic circuit share ("tie")
the parameters of one source group. Each tied group still collects its
own parameter flows in its own range of the parameter-flow buffer. Before
a parameter update, the flows of all tied groups are summed into the
source group's range. `parflow_fusing.py` does this in two stages:

- `compile_cum_par_flows_fn` turns the tying relation into a plan. Every
  source with more than one tied group is put in a bucket. The bucket is
  the next power of two of the source's tied-group count (`BLOCK_G`). The
  assertion at line 18 stops the whole call, with no plan, at the first
  source whose count exceeds `MAX_NGROUPS`. Each source's
  flow range is cut into blocks of `BLOCK_M = BLOCK_SIZE // BLOCK_G`
  flows. Each block becomes one job:
  - a target offset;
  - a block size;
  - a row of `BLOCK_G` replica offsets, padded up to `BLOCK_G`.
- `cum_par_flows_kernel` runs one job per program. For every flow of the
  block, it sums the replica flows over the row's unmasked slots and
  stores the sum at the target. `compute_cum_par_flows` launches the
  kernel once per bucket.

The model is split into five modules:

- `PowerOfTwo` (`pow2.dfy`): `triton.next_power_of_2`.
- `FusionPlan` (`fusion_plan.dfy`): the data model, the compiler as
  specification functions, and the facts about the plan.
- `FusionCompile` (`fusion_compile.dfy`): the compiler's loops as
  methods, each proved to compute its specification function.
- `FusionKernel` (`fusion_kernel.dfy`):
  - the kernel, as a method on an `array<int>` buffer;
  - the launch loop;
  - the row sums;
  - the order-independence of the jobs.
- `FusionCorrect` (`fusion_correct.dfy`): the end-to-end theorem. Suppose
  the layout the flow allocator provides holds:
  - ranges fit the buffer;
  - source ranges are pairwise disjoint;
  - each tied range is either the source's own range or overlaps no
    source range.

  Then running the compiled plan with a negative padding value stores, in
  every cell of a fused source's range, the sum of its tied groups' flows
  at the same offset. Every other cell is left unchanged.

  A source's own range may be one of its tied ranges. The comment at
  line 13 implies that it usually is: a source with a single tied group
  needs no job. The job for such a range loads its own target block, and
  it loads it before it stores, so the sum is still right.

The padding value is a parameter `pad` of the model. The code writes 0.
With 0, a padding slot is not masked: it reads `flows[m]` once per
padding slot (see Findings). The theorems use a negative pad. The
kernel's `offs_chblk >= 0` mask then drops exactly the padding slots.

Where the code as written cannot run, the model follows the evident
intent:

- `ngroup2kernel_specs` is a list used as a dict. It is modelled as an
  insertion-ordered dict (`SpecTable`).
- Line 42 rebinds `ch_pfids` and so clobbers the row accumulator. The
  model keeps the two apart.
- `ch_pfids.append()` has no argument. The padded row is appended.
- The kernel loads through `offs_chblk` before defining it. The model
  reads the row through `offs_g`.

All theorems assume `NextPow2(MAX_NGROUPS) <= BLOCK_SIZE`, so that
`BLOCK_M >= 1` for every bucket. The defaults are 2048 and 2048.
`PowerOfTwo.RoundUpFits` shows that this assumption is the same as
`MAX_NGROUPS <= BLOCK_SIZE` when `BLOCK_SIZE` is a power of two.

## Model

| member | source | states |
|---|---|---|
| PowerOfTwo.NextPow2IsPow2 | src/pyjuice/layer/backend/parflow_fusing.py:21 | the bucket cardinality `next_power_of_2(n)` is a power of two |
| PowerOfTwo.NextPow2Bounds | src/pyjuice/layer/backend/parflow_fusing.py:21 | `n <= next_power_of_2(n)`, and `next_power_of_2(n) < 2n` when `n >= 1` |
| PowerOfTwo.NextPow2Least | src/pyjuice/layer/backend/parflow_fusing.py:21 | every power of two that is at least n is at least `next_power_of_2(n)` |
| PowerOfTwo.NextPow2Monotone | src/pyjuice/layer/backend/parflow_fusing.py:21 | rounding up preserves order, so no bucket exceeds `next_power_of_2(MAX_NGROUPS)` |
| PowerOfTwo.NextPow2OfPow2 | src/pyjuice/layer/backend/parflow_fusing.py:21 | a power of two rounds to itself |
| PowerOfTwo.RoundUpFits | src/pyjuice/layer/backend/parflow_fusing.py:18-36 | for a power-of-two BLOCK_SIZE, `next_power_of_2(MAX_NGROUPS) <= BLOCK_SIZE` holds if and only if `MAX_NGROUPS <= BLOCK_SIZE` |
| FusionPlan.PaddedRow | src/pyjuice/layer/backend/parflow_fusing.py:47-48 | the row of a block has BLOCK_G entries; entry g is tied start g plus the block offset, and every entry after the tied groups is the pad value |
| FusionPlan.CollectFails | src/pyjuice/layer/backend/parflow_fusing.py:12-21 | bucketing fails if and only if some source with more than one tied group has more than MAX_NGROUPS of them; the error names the first such source and its count |
| FusionPlan.CollectErrPersists | src/pyjuice/layer/backend/parflow_fusing.py:12-19 | once a prefix of the relation fails the assertion, the sources after it do not change the outcome |
| FusionPlan.InsertValid | src/pyjuice/layer/backend/parflow_fusing.py:27-30 | adding a spec to the dict keeps each key listed once, adds its bucket as a key, appends the spec to that bucket only, and leaves the other buckets as they were |
| FusionPlan.CollectGroups | src/pyjuice/layer/backend/parflow_fusing.py:11-30 | on success, the dict has a bucket g exactly when some fused source rounds to g; bucket g lists those sources' specs in relation order; every key is a power of two in [2, next_power_of_2(MAX_NGROUPS)] |
| FusionPlan.FilterMember | src/pyjuice/layer/backend/parflow_fusing.py:27-30 | a spec is in bucket g if and only if it is the spec of a source with more than one tied group whose count rounds to g |
| FusionPlan.CollectKeysFit | src/pyjuice/layer/backend/parflow_fusing.py:33-36 | under the block-size assumption, every key lies in [2, BLOCK_SIZE], so `BLOCK_SIZE // BLOCK_G >= 1` |
| FusionPlan.BlockFits | src/pyjuice/layer/backend/parflow_fusing.py:35-36 | `BLOCK_M = BLOCK_SIZE // BLOCK_G` is at least 1, and a tile of BLOCK_G by BLOCK_M fits in BLOCK_SIZE |
| FusionPlan.SpecTilesShape | src/pyjuice/layer/backend/parflow_fusing.py:43-52 | job j of a source targets `pfid_start + j*BLOCK_M`; its size is `min(BLOCK_M, remaining)`, which lies in [1, BLOCK_M]; its row is the padded row of its block; there are no jobs if and only if the range is empty |
| FusionPlan.SpecTilesOrdered | src/pyjuice/layer/backend/parflow_fusing.py:43-45 | a source's jobs lie at or above the range start, are pairwise disjoint and are in ascending order |
| FusionPlan.SpecTilesCover | src/pyjuice/layer/backend/parflow_fusing.py:43-45 | a source's jobs cover exactly its flow range: every cell of the range is in some job, and every job lies inside the range |
| FusionPlan.BucketJobsShape | src/pyjuice/layer/backend/parflow_fusing.py:41-52 | every job of a bucket has size in [1, BLOCK_M] and a row of exactly BLOCK_G entries |
| FusionPlan.BucketArgsShape | src/pyjuice/layer/backend/parflow_fusing.py:33-58 | a bucket's launch carries BLOCK_G = ngroup and BLOCK_M = BLOCK_SIZE // ngroup >= 1, and has three job lists of equal length, block sizes in [1, BLOCK_M] and rows of BLOCK_G entries |
| FusionPlan.CompiledPlanIsTable | src/pyjuice/layer/backend/parflow_fusing.py:9-60 | a successful compilation has one launch per dict key, in insertion order; launch b is the launch of bucket `order[b]` over that bucket's specs |
| FusionPlan.TableBucketShape | src/pyjuice/layer/backend/parflow_fusing.py:33-58 | each bucket of a bounded dict gives a well-shaped launch whose BLOCK_G is a power of two with `BLOCK_G * BLOCK_M <= BLOCK_SIZE` |
| FusionPlan.CompiledPlanShape | src/pyjuice/layer/backend/parflow_fusing.py:32-60 | every launch of a compiled plan is well shaped, and no two launches share a BLOCK_G |
| FusionPlan.CompiledPlanBuckets | src/pyjuice/layer/backend/parflow_fusing.py:9-60 | each launch is the launch of its own BLOCK_G's bucket; every fused source has a launch for its cardinality; every launch has a fused source |
| FusionCompile.CollectKernelSpecs | src/pyjuice/layer/backend/parflow_fusing.py:11-30 | the first loop, with its dict updates, computes `Collect`, whose outcome CollectFails and CollectGroups characterise |
| FusionCompile.TileBucket | src/pyjuice/layer/backend/parflow_fusing.py:33-58 | the nested tiling loops build exactly the bucket's launch `BucketArgs` |
| FusionCompile.CompileCumParFlows | src/pyjuice/layer/backend/parflow_fusing.py:9-60 | the whole compiler computes `CompileSpec`, including its error result |
| FusionKernel.MaskedSum | src/pyjuice/layer/backend/parflow_fusing.py:76-79 | the masked load and reduction over a row gives `SlotSum` of the buffer, the row and the block position |
| FusionKernel.RunJob | src/pyjuice/layer/backend/parflow_fusing.py:63-82 | one program stores, at `target + m` for every `m < block_size`, the masked row sum at m, and changes no other cell |
| FusionKernel.LaunchKernel | src/pyjuice/layer/backend/parflow_fusing.py:91-93 | one launch applies the launch's jobs to the buffer, in job order |
| FusionKernel.ComputeCumParFlows | src/pyjuice/layer/backend/parflow_fusing.py:85-95 | the driver applies every launch's jobs, in plan order |
| FusionKernel.FullRowSum | src/pyjuice/layer/backend/parflow_fusing.py:70-79 | for an unpadded row, the masked row sum at m is the sum of the tied groups' flows at block offset plus m |
| FusionKernel.SentinelRowSum | src/pyjuice/layer/backend/parflow_fusing.py:47-79 | with a negative pad, the mask drops every padding slot: the padded row's sum at m is exactly the tied groups' sum |
| FusionKernel.ZeroPaddedRowSum | src/pyjuice/layer/backend/parflow_fusing.py:47-79 | with pad 0, as written, the padded row's sum is the tied groups' sum plus `(BLOCK_G - k) * flows[m]` |
| FusionKernel.ZeroPaddingMiscounts | src/pyjuice/layer/backend/parflow_fusing.py:48 | for flows [5,0,0,0], three tied groups at 1, 2 and 3, and BLOCK_G 4, the zero-padded row sums to 5 where the tied groups sum to 0 |
| FusionKernel.SlotSumReadsRow | src/pyjuice/layer/backend/parflow_fusing.py:76-79 | a row sum depends only on the cells its unmasked slots load |
| FusionKernel.ReplicaSumReadsTies | src/pyjuice/layer/backend/parflow_fusing.py:76-79 | the tied groups' sum depends only on the tied groups' cells at that offset |
| FusionKernel.ApplyUntouched | src/pyjuice/layer/backend/parflow_fusing.py:82 | a cell that no job's masked store covers keeps its value |
| FusionKernel.ApplyIndependent | src/pyjuice/layer/backend/parflow_fusing.py:63-93 | consider jobs in which no job is listed twice, distinct jobs write disjoint cells, and no job loads a cell another job writes (a job may load its own block); each written cell ends up holding its own job's row sum over the initial buffer, whatever the order |
| FusionKernel.ApplyPlanCell | src/pyjuice/layer/backend/parflow_fusing.py:85-95 | the same as ApplyIndependent, for a whole plan |
| FusionCorrect.JobsOfArgs | src/pyjuice/layer/backend/parflow_fusing.py:54-82 | the kernel, reading `target_pfids[pid]`, `block_sizes[pid]` and row pid with store mask `min(block_size, BLOCK_M)`, gets back exactly the jobs the compiler took apart |
| FusionCorrect.BucketLaunchJobs | src/pyjuice/layer/backend/parflow_fusing.py:33-82 | a bucket's launch runs exactly the bucket's jobs |
| FusionCorrect.CompiledSummary | src/pyjuice/layer/backend/parflow_fusing.py:9-60 | each launch of a compiled plan is its bucket's launch, and every fused source fits a bucket of the plan |
| FusionCorrect.LaunchJobSource | src/pyjuice/layer/backend/parflow_fusing.py:33-58 | a job of a bucket's launch is a block of a fused source whose cardinality is the launch's BLOCK_G |
| FusionCorrect.PlanJobIsFusedTile | src/pyjuice/layer/backend/parflow_fusing.py:9-60 | every job the plan runs is a block of a fused source |
| FusionCorrect.FusedTileInPlan | src/pyjuice/layer/backend/parflow_fusing.py:9-60 | every block of a fused source is run by the plan |
| FusionCorrect.CompiledJobs | src/pyjuice/layer/backend/parflow_fusing.py:9-60 | the plan runs exactly the blocks of the fused sources |
| FusionCorrect.TileFacts | src/pyjuice/layer/backend/parflow_fusing.py:41-52 | a job of source e fits the buffer; it writes only inside e's range, loads only inside e's tied ranges, and carries e's padded row for its block |
| FusionCorrect.TilesWriteApart | src/pyjuice/layer/backend/parflow_fusing.py:43-82 | two distinct jobs of fused sources never store to the same cell |
| FusionCorrect.TileReadsAvoid | src/pyjuice/layer/backend/parflow_fusing.py:47-82 | no job of a fused source loads a cell that a different job stores to; a tied range that is the source's own range is loaded only inside the job's own block |
| FusionCorrect.SpecTilesNoRepeats | src/pyjuice/layer/backend/parflow_fusing.py:43-52 | the blocks of one source are pairwise different, because their targets ascend |
| FusionCorrect.TilesInSpec | src/pyjuice/layer/backend/parflow_fusing.py:43-52 | every block of a source stores to its own target, inside the source's range |
| FusionCorrect.BucketJobsNoRepeats | src/pyjuice/layer/backend/parflow_fusing.py:41-52 | when a bucket's sources have disjoint ranges, the bucket's job list has no repeats |
| FusionCorrect.FilterApart | src/pyjuice/layer/backend/parflow_fusing.py:27-30 | the specs of a bucket of disjoint sources have disjoint ranges |
| FusionCorrect.LaunchTargets | src/pyjuice/layer/backend/parflow_fusing.py:33-82 | every job of a bucket's launch stores to its target, inside the range of a source of that bucket |
| FusionCorrect.PlanNoRepeats | src/pyjuice/layer/backend/parflow_fusing.py:32-60 | when launches have distinct BLOCK_G values and sources are disjoint, the plan's job list has no repeats |
| FusionCorrect.CompiledIndependent | src/pyjuice/layer/backend/parflow_fusing.py:9-95 | the jobs of a compiled plan may run in any order, as the parallel launch does: they have no repeats, write disjoint cells, and load no cell another job writes |
| FusionCorrect.CompiledPlanFits | src/pyjuice/layer/backend/parflow_fusing.py:9-82 | when the sources and tied ranges fit the buffer (no other layout assumption), every load and store of a compiled plan stays inside the buffer |
| FusionCorrect.SelfTiedLayout | src/pyjuice/layer/backend/parflow_fusing.py:13 | a source whose own range is its first tied range (source [0, 2), tied starts 0 and 2, four cells) satisfies the layout assumption |
| FusionCorrect.TileAt | src/pyjuice/layer/backend/parflow_fusing.py:43-45 | every cell of a source's range is covered by one of its jobs |
| FusionCorrect.TileCellSum | src/pyjuice/layer/backend/parflow_fusing.py:41-82 | the job covering offset m of a source stores there the tied groups' sum at offset m |
| FusionCorrect.CompiledCellSum | src/pyjuice/layer/backend/parflow_fusing.py:9-95 | after any plan of compiled shape, offset m of a fused source holds its tied groups' sum at m |
| FusionCorrect.FusedCellSum | src/pyjuice/layer/backend/parflow_fusing.py:9-95 | compile then run, with a negative pad: every cell `flowStart + m` of a fused source holds the sum of its tied groups' flows at offset m |
| FusionCorrect.OtherCellsUnchanged | src/pyjuice/layer/backend/parflow_fusing.py:9-95 | compile then run, when the ranges fit the buffer: every cell outside the fused sources' ranges keeps its value |

## Left out

- Triton and torch mechanics are not modelled: tensors, `.contiguous()`, `tl.arange`, broadcasting, grids. A launch's programs are modelled as running one after another in job order. `FusionCorrect.CompiledIndependent` and `FusionKernel.ApplyIndependent` show that the order does not matter for a compiled plan.
- Floating-point flows are not modelled. The buffer holds integers, so the model's sums are exact and associative, unlike GPU float sums.
- Node objects and `_param_flow_range` are modelled by each source's flow range and its tied groups' flow starts. The tied groups' range ends are taken equal to the source's width, which is what tying gives.
- `NextPow2(0)` is 1. The compiler never rounds 0, because only sources with at least two tied groups are bucketed.
- The default argument values (MAX_NGROUPS = BLOCK_SIZE = 2048) are parameters.
- `FusionPlan.CompileSpec`: the layout assumptions are not checked by the compiler, only assumed by the theorems about cell contents:
  - ranges fit the buffer;
  - source ranges are disjoint;
  - each tied range is its source's own range or avoids every source range.
- Lines 11, 42, 52 and 69 cannot run as written. The model follows the intent of each; the module comments and the description above say how.
- `distributions.py`, `input_nodes.py` and the tests are not part of this model. They do not touch the fused accumulation.

## Findings

| source | as written | input that shows it | evidently intended | confidence | as-written member | corrected member |
|---|---|---|---|---|---|---|
| src/pyjuice/layer/backend/parflow_fusing.py:48 | pads each row with 0; the kernel's mask `offs_chblk >= 0` keeps 0, so every padding slot adds `flows[m]` to the sum | flows [5,0,0,0], one source with tied groups at 1, 2 and 3, BLOCK_G 4, block offset 0: the kernel computes 5, the tied groups sum to 0 | pad with a negative value, which the mask drops, so the target gets exactly the tied groups' sum | not executed | FusionKernel.ZeroPaddingMiscounts | FusionKernel.SentinelRowSum |

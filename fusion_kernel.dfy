/** `cum_par_flows_kernel` and `compute_cum_par_flows`: the fused reduction
    on the parameter-flow buffer.

    The Triton kernel runs one program per job. A program loads, for every
    slot g < BLOCK_G of its row and every m < BLOCK_M, the flow at
    `row[g] + m`, masked to 0 where `row[g] < 0` or `m >= block_size`; sums
    over g; and stores the sums at `target + m` for `m < block_size`. Here a
    job is run sequentially: all loads, then the store; the launch's
    programs run one after another in job order. The buffer holds
    integers, so the sums are exact.

    The code as written loads through `offs_chblk` before defining it; the
    row is read through `offs_g`, the pid-th row of `ch_pfids`. */
module FusionKernel {
  import opened FusionPlan

  /** What one slot adds at block position m: a masked slot (c < 0) adds 0. */
  function Contribution(s: seq<int>, c: int, m: int): int
    requires c >= 0 ==> 0 <= c + m < |s|
  {
    if c >= 0 then s[c + m] else 0
  }

  /** Every unmasked slot of `row` can be loaded at block position m. */
  predicate SlotsReadable(row: seq<int>, m: int, n: int) {
    forall g :: 0 <= g < |row| && row[g] >= 0 ==> 0 <= row[g] + m < n
  }

  /** `tl.sum(ch_pflows, axis = 0)` at block position m: the masked sum over the row. */
  function SlotSum(s: seq<int>, row: seq<int>, m: int): int
    requires SlotsReadable(row, m, |s|)
    decreases |row|
  {
    if |row| == 0 then 0
    else
      var n := |row| - 1;
      assert forall g :: 0 <= g < n ==> row[..n][g] == row[g];
      SlotSum(s, row[..n], m) + Contribution(s, row[n], m)
  }

  /** Every tied group's flow at offset `off` lies in the buffer. */
  predicate TiesReadable(ties: seq<int>, off: int, n: int) {
    forall i :: 0 <= i < |ties| ==> 0 <= ties[i] + off < n
  }

  /** Reference sum: the flows of all tied groups at offset `off` of their ranges. */
  function ReplicaSum(s: seq<int>, ties: seq<int>, off: int): int
    requires TiesReadable(ties, off, |s|)
    decreases |ties|
  {
    if |ties| == 0 then 0
    else
      var n := |ties| - 1;
      assert forall i :: 0 <= i < n ==> ties[..n][i] == ties[i];
      ReplicaSum(s, ties[..n], off) + s[ties[n] + off]
  }

  /** A job can run on a buffer of n cells: its store and all its unmasked
      loads lie inside. */
  predicate Fits(j: Job, n: int) {
    j.size > 0 ==>
      0 <= j.target && j.target + j.size <= n
      && forall g :: 0 <= g < |j.row| && j.row[g] >= 0 ==> j.row[g] + j.size <= n
  }

  /** The buffer after one job: [target, target + size) is overwritten with
      the masked sums; every other cell keeps its value. */
  function Store(s: seq<int>, j: Job): (r: seq<int>)
    requires Fits(j, |s|)
    ensures |r| == |s|
  {
    seq(|s|, i requires 0 <= i < |s| =>
      if j.target <= i < j.target + j.size then SlotSum(s, j.row, i - j.target) else s[i])
  }

  /** The jobs run in order. */
  function ApplyJobs(s: seq<int>, js: seq<Job>): (r: seq<int>)
    requires forall k :: 0 <= k < |js| ==> Fits(js[k], |s|)
    ensures |r| == |s|
    decreases |js|
  {
    if |js| == 0 then s
    else ApplyJobs(Store(s, js[0]), js[1..])
  }

  /** The job of program `pid`: the store mask `offs_m < block_size` with
      `offs_m < BLOCK_M` leaves min(block_size, BLOCK_M) positions. */
  function JobsOf(a: KernelArgs): seq<Job>
    requires LaunchShaped(a)
  {
    seq(|a.targetPfids|, p requires 0 <= p < |a.targetPfids| =>
      Job(a.targetPfids[p], Min(a.blockSizes[p], a.blockM), a.chPfids[p]))
  }

  /** All jobs of a plan: launch order, then program order. */
  function FlatJobs(plan: seq<KernelArgs>): seq<Job>
    requires forall b :: 0 <= b < |plan| ==> LaunchShaped(plan[b])
    decreases |plan|
  {
    if |plan| == 0 then []
    else
      var n := |plan| - 1;
      FlatJobs(plan[..n]) + JobsOf(plan[n])
  }

  /** Every launch of the plan is shaped and every job fits a buffer of n cells. */
  ghost predicate PlanFits(plan: seq<KernelArgs>, n: int) {
    (forall b :: 0 <= b < |plan| ==> LaunchShaped(plan[b]))
    && forall k :: 0 <= k < |FlatJobs(plan)| ==> Fits(FlatJobs(plan)[k], n)
  }

  /** `compute_cum_par_flows` on a buffer. */
  ghost function ApplyPlan(s: seq<int>, plan: seq<KernelArgs>): seq<int>
    requires PlanFits(plan, |s|)
  {
    ApplyJobs(s, FlatJobs(plan))
  }

  // ---------------------------------------------------------------------
  // Lemmas about one job

  /** A row with room to spare ends in a padding slot; without it, it is
      the row one slot narrower. */
  lemma PaddedRowPad(ties: seq<int>, blk: int, n: nat, pad: int)
    requires |ties| <= n
    ensures PaddedRow(ties, blk, n + 1, pad)[..n] == PaddedRow(ties, blk, n, pad)
    ensures PaddedRow(ties, blk, n + 1, pad)[n] == pad
  {
    var row := PaddedRow(ties, blk, n + 1, pad);
    assert row[..n] == PaddedRow(ties, blk, n, pad);
  }

  /** A row the tied groups fill ends in the last group's slot; without it,
      it is the full row of the other groups. */
  lemma PaddedRowTie(ties: seq<int>, blk: int, n: nat, pad: int)
    requires |ties| == n + 1
    ensures PaddedRow(ties, blk, n + 1, pad)[..n] == PaddedRow(ties[..n], blk, n, pad)
    ensures PaddedRow(ties, blk, n + 1, pad)[n] == ties[n] + blk
  {
    var row := PaddedRow(ties, blk, n + 1, pad);
    var init := ties[..n];
    assert forall i :: 0 <= i < n ==> init[i] == ties[i];
    assert row[..n] == PaddedRow(init, blk, n, pad);
  }

  /** The last slot's load is readable once the others' are. */
  lemma ReadableSnoc(row: seq<int>, m: int, len: int)
    requires |row| > 0
    requires SlotsReadable(row[..|row| - 1], m, len)
    requires row[|row| - 1] >= 0 ==> 0 <= row[|row| - 1] + m < len
    ensures SlotsReadable(row, m, len)
  {
    var n := |row| - 1;
    forall g | 0 <= g < |row| && row[g] >= 0 ensures 0 <= row[g] + m < len {
      if g < n {
        assert row[..n][g] == row[g];
      }
    }
  }

  /** A row the tied groups fill has no padding: the job sums exactly the
      tied groups' flows, whatever the padding value. */
  lemma {:induction false} FullRowSum(s: seq<int>, ties: seq<int>, blk: int, pad: int, m: int)
    requires TiesReadable(ties, blk + m, |s|)
    requires forall i :: 0 <= i < |ties| ==> ties[i] + blk >= 0
    ensures SlotsReadable(PaddedRow(ties, blk, |ties|, pad), m, |s|)
    ensures SlotSum(s, PaddedRow(ties, blk, |ties|, pad), m) == ReplicaSum(s, ties, blk + m)
    decreases |ties|
  {
    if |ties| > 0 {
      var n := |ties| - 1;
      var init := ties[..n];
      PaddedRowTie(ties, blk, n, pad);
      assert forall i :: 0 <= i < n ==> init[i] == ties[i];
      FullRowSum(s, init, blk, pad, m);
      ReadableSnoc(PaddedRow(ties, blk, |ties|, pad), m, |s|);
    }
  }

  /** With a negative padding value, the padded slots of a row are masked
      out: the job sums exactly the tied groups' flows. */
  lemma {:induction false} SentinelRowSum(s: seq<int>, ties: seq<int>, blk: int, blockG: nat, pad: int, m: int)
    requires pad < 0
    requires |ties| <= blockG
    requires TiesReadable(ties, blk + m, |s|)
    requires forall i :: 0 <= i < |ties| ==> ties[i] + blk >= 0
    ensures SlotsReadable(PaddedRow(ties, blk, blockG, pad), m, |s|)
    ensures SlotSum(s, PaddedRow(ties, blk, blockG, pad), m) == ReplicaSum(s, ties, blk + m)
    decreases blockG
  {
    if blockG == |ties| {
      FullRowSum(s, ties, blk, pad, m);
    } else {
      var n := blockG - 1;
      PaddedRowPad(ties, blk, n, pad);
      SentinelRowSum(s, ties, blk, n, pad, m);
      ReadableSnoc(PaddedRow(ties, blk, blockG, pad), m, |s|);
    }
  }

  lemma MulSucc(k: int, v: int)
    ensures k * v + v == (k + 1) * v
  {
  }

  /** With the code's padding value 0, every padded slot loads the flow at
      offset m: the job adds (BLOCK_G - k) * flows[m] to the tied sum. */
  lemma {:induction false} ZeroPaddedRowSum(s: seq<int>, ties: seq<int>, blk: int, blockG: nat, m: int)
    requires |ties| <= blockG
    requires 0 <= m < |s|
    requires TiesReadable(ties, blk + m, |s|)
    requires forall i :: 0 <= i < |ties| ==> ties[i] + blk >= 0
    ensures SlotsReadable(PaddedRow(ties, blk, blockG, 0), m, |s|)
    ensures SlotSum(s, PaddedRow(ties, blk, blockG, 0), m)
         == ReplicaSum(s, ties, blk + m) + (blockG - |ties|) * s[m]
    decreases blockG
  {
    if blockG == |ties| {
      FullRowSum(s, ties, blk, 0, m);
    } else {
      var n := blockG - 1;
      PaddedRowPad(ties, blk, n, 0);
      ZeroPaddedRowSum(s, ties, blk, n, m);
      ReadableSnoc(PaddedRow(ties, blk, blockG, 0), m, |s|);
      MulSucc(n - |ties|, s[m]);
    }
  }

  /** A concrete run of the zero padding: three tied groups at flow offsets
      1, 2, 3 of a buffer [5, 0, 0, 0] share a bucket of cardinality 4; the
      job at block offset 0 stores 5 where the tied flows sum to 0. */
  lemma ZeroPaddingMiscounts()
    ensures SlotSum([5, 0, 0, 0], PaddedRow([1, 2, 3], 0, 4, 0), 0) == 5
    ensures ReplicaSum([5, 0, 0, 0], [1, 2, 3], 0) == 0
  {
    var s, ties := [5, 0, 0, 0], [1, 2, 3];
    assert ties[..2] == [1, 2] && [1, 2][..1] == [1] && [1][..0] == [];
    assert ReplicaSum(s, [1], 0) == 0;
    assert ReplicaSum(s, [1, 2], 0) == 0;
    assert ReplicaSum(s, ties, 0) == 0;
    ZeroPaddedRowSum(s, ties, 0, 4, 0);
  }

  /** A job reads only the cells `row[g] + m` of its unmasked slots. */
  lemma {:induction false} SlotSumReadsRow(s: seq<int>, s': seq<int>, row: seq<int>, m: int)
    requires |s| == |s'|
    requires SlotsReadable(row, m, |s|)
    requires forall g :: 0 <= g < |row| && row[g] >= 0 ==> s[row[g] + m] == s'[row[g] + m]
    ensures SlotSum(s, row, m) == SlotSum(s', row, m)
    decreases |row|
  {
    if |row| > 0 {
      var n := |row| - 1;
      assert forall g :: 0 <= g < n ==> row[..n][g] == row[g];
      SlotSumReadsRow(s, s', row[..n], m);
    }
  }

  /** The tied sum reads only the cells `ties[i] + off`. */
  lemma {:induction false} ReplicaSumReadsTies(s: seq<int>, s': seq<int>, ties: seq<int>, off: int)
    requires |s| == |s'|
    requires TiesReadable(ties, off, |s|)
    requires forall i :: 0 <= i < |ties| ==> s[ties[i] + off] == s'[ties[i] + off]
    ensures ReplicaSum(s, ties, off) == ReplicaSum(s', ties, off)
    decreases |ties|
  {
    if |ties| > 0 {
      var n := |ties| - 1;
      assert forall i :: 0 <= i < n ==> ties[..n][i] == ties[i];
      ReplicaSumReadsTies(s, s', ties[..n], off);
    }
  }

  // ---------------------------------------------------------------------
  // Lemmas about a sequence of jobs

  lemma {:induction false} ApplyJobsSnoc(s: seq<int>, js: seq<Job>, j: Job)
    requires forall k :: 0 <= k < |js| ==> Fits(js[k], |s|)
    requires Fits(j, |s|)
    ensures forall k :: 0 <= k < |js + [j]| ==> Fits((js + [j])[k], |s|)
    ensures ApplyJobs(s, js + [j]) == Store(ApplyJobs(s, js), j)
    decreases |js|
  {
    var all := js + [j];
    assert forall k :: 0 <= k < |all| ==> all[k] == if k < |js| then js[k] else j;
    if |js| > 0 {
      assert all[1..] == js[1..] + [j];
      ApplyJobsSnoc(Store(s, js[0]), js[1..], j);
    }
  }

  /** Job a loads none of the cells job b writes. */
  ghost predicate ReadsAvoid(a: Job, b: Job) {
    forall g, i :: 0 <= g < |a.row| && a.row[g] >= 0 && a.row[g] <= i < a.row[g] + a.size ==> !Writes(b, i)
  }

  /** No job is listed twice. */
  ghost predicate NoRepeats(js: seq<Job>) {
    forall k1, k2 :: 0 <= k1 < k2 < |js| ==> js[k1] != js[k2]
  }

  /** The jobs can run in any order, or all at once: no job is listed
      twice, distinct jobs write disjoint cells, and no job loads a cell
      another job writes. A job may load its own target cells: it loads
      them all before it stores. */
  ghost predicate Independent(js: seq<Job>) {
    NoRepeats(js)
    && (forall a, b, i :: a in js && b in js && a != b && Writes(a, i) ==> !Writes(b, i))
    && forall a, b :: a in js && b in js && a != b ==> ReadsAvoid(a, b)
  }

  /** Two lists without repeats and without a common job concatenate
      without repeats. */
  lemma NoRepeatsAppend(xs: seq<Job>, ys: seq<Job>)
    requires NoRepeats(xs) && NoRepeats(ys)
    requires forall j :: j in xs ==> j !in ys
    ensures NoRepeats(xs + ys)
  {
    var zs := xs + ys;
    forall k1, k2 | 0 <= k1 < k2 < |zs| ensures zs[k1] != zs[k2] {
      if k2 >= |xs| && k1 < |xs| {
        assert zs[k1] in xs && zs[k2] in ys;
      } else if k1 >= |xs| {
        assert zs[k1] == ys[k1 - |xs|] && zs[k2] == ys[k2 - |xs|];
      }
    }
  }

  /** A job that fits loads inside the buffer. */
  lemma FitsReadable(a: Job, n: int, m: int)
    requires Fits(a, n) && 0 <= m < a.size
    ensures SlotsReadable(a.row, m, n)
  {
  }

  /** A cell no job writes keeps its value. */
  lemma {:induction false} ApplyUntouched(s: seq<int>, js: seq<Job>, i: int)
    requires forall k :: 0 <= k < |js| ==> Fits(js[k], |s|)
    requires 0 <= i < |s| && !Covers(js, i)
    ensures ApplyJobs(s, js)[i] == s[i]
    decreases |js|
  {
    if |js| > 0 {
      assert !Writes(js[0], i);
      assert forall k :: 0 <= k < |js| - 1 ==> js[1..][k] == js[k + 1];
      ApplyUntouched(Store(s, js[0]), js[1..], i);
    }
  }

  /** Running independent jobs in order stores, in every cell a job writes,
      that job's masked sum over the ORIGINAL buffer. With ApplyUntouched,
      the result does not depend on the order of the jobs, which is what
      lets the kernel run them all at once. */
  lemma {:induction false} ApplyIndependent(s: seq<int>, js: seq<Job>, a: Job, i: int)
    requires forall k :: 0 <= k < |js| ==> Fits(js[k], |s|)
    requires Independent(js)
    requires a in js && a.target <= i < a.target + a.size
    ensures SlotsReadable(a.row, i - a.target, |s|)
    ensures ApplyJobs(s, js)[i] == SlotSum(s, a.row, i - a.target)
    decreases |js|
  {
    var m := i - a.target;
    var k :| 0 <= k < |js| && js[k] == a;
    FitsReadable(a, |s|, m);
    var j, rest := js[0], js[1..];
    var s' := Store(s, j);
    assert j in js;
    assert forall b :: b in rest ==> b in js;
    assert forall k :: 0 <= k < |rest| ==> rest[k] == js[k + 1];
    assert Independent(rest);
    if k > 0 {
      assert rest[k - 1] == a && a != j;
      ApplyIndependent(s', rest, a, i);
      forall g | 0 <= g < |a.row| && a.row[g] >= 0
        ensures s[a.row[g] + m] == s'[a.row[g] + m]
      {
        assert ReadsAvoid(a, j);
        assert !Writes(j, a.row[g] + m);
      }
      SlotSumReadsRow(s, s', a.row, m);
    } else {
      forall q | 0 <= q < |rest| ensures !Writes(rest[q], i) {
        assert rest[q] == js[q + 1] != a;
      }
      ApplyUntouched(s', rest, i);
    }
  }

  /** A cell a job of an independent plan writes ends up holding that job's
      masked sum over the original buffer. */
  lemma ApplyPlanCell(s: seq<int>, plan: seq<KernelArgs>, a: Job, i: int, v: int)
    requires PlanFits(plan, |s|) && Independent(FlatJobs(plan))
    requires a in FlatJobs(plan) && a.target <= i < a.target + a.size
    requires SlotsReadable(a.row, i - a.target, |s|) && SlotSum(s, a.row, i - a.target) == v
    ensures ApplyPlan(s, plan)[i] == v
  {
    ApplyIndependent(s, FlatJobs(plan), a, i);
  }

  // ---------------------------------------------------------------------
  // The kernel and its driver

  /** The masked sum of one column of the tile: `tl.load(..., mask, other = 0)`
      then `tl.sum(..., axis = 0)` at block position m. */
  method MaskedSum(flows: array<int>, row: seq<int>, m: int) returns (total: int)
    requires SlotsReadable(row, m, flows.Length)
    ensures total == SlotSum(flows[..], row, m)
  {
    total := 0;
    var g := 0;
    while g < |row|
      invariant 0 <= g <= |row|
      invariant SlotsReadable(row[..g], m, flows.Length)
      invariant total == SlotSum(flows[..], row[..g], m)
    {
      assert row[..g + 1][..g] == row[..g];
      var c := row[g];
      if c >= 0 {
        total := total + flows[c + m];
      }
      g := g + 1;
    }
    assert row[..g] == row;
  }

  /** One program of `cum_par_flows_kernel`: load the masked tile of the
      pid-th row, sum over the slots, and store the sums over the target
      block. The target is overwritten, not added to; nothing else changes. */
  method RunJob(flows: array<int>, args: KernelArgs, pid: nat)
    requires LaunchShaped(args) && pid < |args.targetPfids|
    requires Fits(JobsOf(args)[pid], flows.Length)
    modifies flows
    ensures flows[..] == Store(old(flows[..]), JobsOf(args)[pid])
  {
    ghost var job := JobsOf(args)[pid];
    ghost var before := flows[..];
    var offsChblk := args.chPfids[pid];
    var blockSize := args.blockSizes[pid];
    var tarPfid := args.targetPfids[pid];
    var n := Min(blockSize, args.blockM);
    assert job == Job(tarPfid, n, offsChblk);
    // all loads and sums happen before the store
    var tarPflows: seq<int> := [];
    while |tarPflows| < n
      invariant |tarPflows| <= (if n < 0 then 0 else n)
      invariant flows[..] == before
      invariant forall q :: 0 <= q < |tarPflows| ==> tarPflows[q] == Store(before, job)[tarPfid + q]
      decreases n - |tarPflows|
    {
      var m := |tarPflows|;
      FitsReadable(job, flows.Length, m);
      var total := MaskedSum(flows, offsChblk, m);
      tarPflows := tarPflows + [total];
    }
    var m := 0;
    while m < |tarPflows|
      invariant 0 <= m <= |tarPflows|
      invariant forall i :: 0 <= i < flows.Length ==>
                  flows[i] == if tarPfid <= i < tarPfid + m then tarPflows[i - tarPfid] else before[i]
    {
      flows[tarPfid + m] := tarPflows[m];
      m := m + 1;
    }
    assert flows[..] == Store(before, job);
  }

  lemma {:induction false} FlatJobsPrefix(plan: seq<KernelArgs>, b: nat)
    requires forall c :: 0 <= c < |plan| ==> LaunchShaped(plan[c])
    requires b <= |plan|
    ensures FlatJobs(plan[..b]) <= FlatJobs(plan)
    decreases |plan|
  {
    if b < |plan| {
      var n := |plan| - 1;
      assert plan[..n][..b] == plan[..b];
      FlatJobsPrefix(plan[..n], b);
    } else {
      assert plan[..b] == plan;
    }
  }

  /** Running two job lists one after the other is running their concatenation. */
  lemma {:induction false} ApplyJobsAppend(s: seq<int>, js: seq<Job>, ks: seq<Job>)
    requires forall k :: 0 <= k < |js + ks| ==> Fits((js + ks)[k], |s|)
    ensures forall k :: 0 <= k < |js| ==> Fits(js[k], |s|)
    ensures forall k :: 0 <= k < |ks| ==> Fits(ks[k], |s|)
    ensures ApplyJobs(s, js + ks) == ApplyJobs(ApplyJobs(s, js), ks)
    decreases |js|
  {
    assert forall k :: 0 <= k < |js| ==> js[k] == (js + ks)[k];
    assert forall k :: 0 <= k < |ks| ==> ks[k] == (js + ks)[|js| + k];
    if |js| > 0 {
      assert (js + ks)[1..] == js[1..] + ks;
      ApplyJobsAppend(Store(s, js[0]), js[1..], ks);
    } else {
      assert js + ks == ks;
    }
  }

  /** `cum_par_flows_kernel[grid](...)` with grid = (number of jobs,): one
      program per job, in job order. */
  method LaunchKernel(flows: array<int>, args: KernelArgs)
    requires LaunchShaped(args)
    requires forall p :: 0 <= p < |JobsOf(args)| ==> Fits(JobsOf(args)[p], flows.Length)
    modifies flows
    ensures flows[..] == ApplyJobs(old(flows[..]), JobsOf(args))
  {
    ghost var start := flows[..];
    ghost var jobs := JobsOf(args);
    var grid := |args.targetPfids|;
    var pid := 0;
    while pid < grid
      invariant 0 <= pid <= grid
      invariant flows[..] == ApplyJobs(start, jobs[..pid])
    {
      assert jobs[..pid + 1] == jobs[..pid] + [jobs[pid]];
      ApplyJobsSnoc(start, jobs[..pid], jobs[pid]);
      RunJob(flows, args, pid);
      pid := pid + 1;
    }
    assert jobs[..pid] == jobs;
  }

  /** `compute_cum_par_flows`: launch the kernel once per entry of the plan,
      in list order. */
  method ComputeCumParFlows(flows: array<int>, kernelsArgs: seq<KernelArgs>)
    requires PlanFits(kernelsArgs, flows.Length)
    modifies flows
    ensures flows[..] == ApplyPlan(old(flows[..]), kernelsArgs)
  {
    ghost var start := flows[..];
    ghost var all := FlatJobs(kernelsArgs);
    var b := 0;
    while b < |kernelsArgs|
      invariant 0 <= b <= |kernelsArgs|
      invariant FlatJobs(kernelsArgs[..b]) <= all
      invariant flows[..] == ApplyJobs(start, FlatJobs(kernelsArgs[..b]))
    {
      var kernelArgs := kernelsArgs[b];
      assert kernelsArgs[..b + 1][..b] == kernelsArgs[..b];
      FlatJobsPrefix(kernelsArgs, b + 1);
      ghost var done := FlatJobs(kernelsArgs[..b]);
      ghost var next := FlatJobs(kernelsArgs[..b + 1]);
      assert next == done + JobsOf(kernelArgs);
      assert forall k :: 0 <= k < |next| ==> next[k] == all[k];
      ApplyJobsAppend(start, done, JobsOf(kernelArgs));
      LaunchKernel(flows, kernelArgs);
      b := b + 1;
    }
    assert kernelsArgs[..b] == kernelsArgs;
  }
}

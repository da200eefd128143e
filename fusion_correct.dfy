/** What a compiled plan does to the parameter-flow buffer.

    Given a flow layout in which every fused source's range and every tied
    group's range fit the buffer, distinct sources' ranges are disjoint, and
    every tied range is either the source's own range or overlaps no source
    range, running the compiled plan with a negative padding value stores,
    in every cell of a fused source's range, the sum of its tied groups'
    flows at the same offset, and leaves every other cell as it was. */
module FusionCorrect {
  import opened PowerOfTwo
  import opened FusionPlan
  import opened FusionKernel

  /** Number of parameter flows of a source (and of each of its tied groups). */
  function Width(e: TiedSource): int {
    e.flowEnd - e.flowStart
  }

  ghost predicate InSource(e: TiedSource, i: int) {
    e.flowStart <= i < e.flowEnd
  }

  ghost predicate InTie(e: TiedSource, g: int, i: int) {
    0 <= g < |e.tiedStarts| && e.tiedStarts[g] <= i < e.tiedStarts[g] + Width(e)
  }

  /** A source's range and its tied groups' ranges lie in a buffer of n cells. */
  ghost predicate SourceFits(e: TiedSource, n: int) {
    0 <= e.flowStart <= e.flowEnd <= n
    && forall g :: 0 <= g < |e.tiedStarts| ==> 0 <= e.tiedStarts[g] && e.tiedStarts[g] + Width(e) <= n
  }

  /** Tied group g of e is e's own range: the source's own flows are one
      of the replicas summed into it. */
  ghost predicate SelfTie(e: TiedSource, g: int) {
    0 <= g < |e.tiedStarts| && e.tiedStarts[g] == e.flowStart
  }

  /** Every source that needs fusing, with its tied groups, fits n cells. */
  ghost predicate LayoutFits(srcs: seq<TiedSource>, n: int) {
    forall q :: 0 <= q < |srcs| && NeedsFusion(srcs[q]) ==> SourceFits(srcs[q], n)
  }

  /** Distinct sources that need fusing have disjoint ranges. */
  ghost predicate SourcesApart(srcs: seq<TiedSource>) {
    forall q1, q2, i ::
      0 <= q1 < |srcs| && 0 <= q2 < |srcs| && q1 != q2
      && NeedsFusion(srcs[q1]) && NeedsFusion(srcs[q2]) && InSource(srcs[q1], i)
      ==> !InSource(srcs[q2], i)
  }

  /** A tied range is its source's own range or meets no source's range. */
  ghost predicate TiesApart(srcs: seq<TiedSource>) {
    forall q1, q2, g, i ::
      0 <= q1 < |srcs| && 0 <= q2 < |srcs|
      && NeedsFusion(srcs[q1]) && NeedsFusion(srcs[q2]) && InTie(srcs[q1], g, i)
      && !SelfTie(srcs[q1], g)
      ==> !InSource(srcs[q2], i)
  }

  /** The layout the flow allocator provides for the sources that need fusing. */
  ghost predicate Layout(srcs: seq<TiedSource>, n: int) {
    LayoutFits(srcs, n) && SourcesApart(srcs) && TiesApart(srcs)
  }

  /** A source listed among its own tied groups is a layout of this kind. */
  lemma SelfTiedLayout()
    ensures Layout([TiedSource(0, 2, [0, 2])], 4)
    ensures SelfTie(TiedSource(0, 2, [0, 2]), 0)
  {
    var e := TiedSource(0, 2, [0, 2]);
    forall g, i | InTie(e, g, i) && !SelfTie(e, g) ensures !InSource(e, i) {
      assert g == 1;
    }
  }

  /** Cell i belongs to the range of a source that needs fusing. */
  ghost predicate FusedTarget(srcs: seq<TiedSource>, i: int) {
    exists q :: 0 <= q < |srcs| && NeedsFusion(srcs[q]) && InSource(srcs[q], i)
  }

  /** The jobs the compiler makes for one source. */
  function SourceTiles(e: TiedSource, blockSize: nat, pad: int): seq<Job>
    requires Cardinality(e) <= blockSize
  {
    BlockFits(Cardinality(e), blockSize);
    SpecTiles(SpecOf(e), 0, Cardinality(e), blockSize / Cardinality(e), pad)
  }

  /** J is one of the jobs of a source that needs fusing. */
  ghost predicate FusedTile(srcs: seq<TiedSource>, blockSize: nat, pad: int, j: Job) {
    exists q :: 0 <= q < |srcs| && NeedsFusion(srcs[q]) && Cardinality(srcs[q]) <= blockSize
                && j in SourceTiles(srcs[q], blockSize, pad)
  }

  // ---------------------------------------------------------------------
  // Which jobs the plan runs

  /** A job of the flattened plan is a job of one of its launches. */
  lemma {:induction false} FlatJobsMember(plan: seq<KernelArgs>, j: Job)
    requires forall b :: 0 <= b < |plan| ==> LaunchShaped(plan[b])
    ensures j in FlatJobs(plan) <==> exists b :: 0 <= b < |plan| && j in JobsOf(plan[b])
    decreases |plan|
  {
    if |plan| > 0 {
      var n := |plan| - 1;
      var init := plan[..n];
      assert forall b :: 0 <= b < n ==> init[b] == plan[b];
      FlatJobsMember(init, j);
      if exists b :: 0 <= b < |plan| && j in JobsOf(plan[b]) {
        var b :| 0 <= b < |plan| && j in JobsOf(plan[b]);
        if b < n {
          assert j in JobsOf(init[b]);
        }
      }
    }
  }

  /** A job of a bucket is a tile of one of the bucket's kernel specs. */
  lemma {:induction false} BucketJobsMember(specs: seq<KernelSpec>, blockG: nat, blockM: nat, pad: int, j: Job)
    requires blockM >= 1
    ensures j in BucketJobs(specs, blockG, blockM, pad)
        <==> exists k :: 0 <= k < |specs| && j in SpecTiles(specs[k], 0, blockG, blockM, pad)
    decreases |specs|
  {
    if |specs| > 0 {
      var n := |specs| - 1;
      var init := specs[..n];
      assert forall k :: 0 <= k < n ==> init[k] == specs[k];
      BucketJobsMember(init, blockG, blockM, pad, j);
      if exists k :: 0 <= k < |specs| && j in SpecTiles(specs[k], 0, blockG, blockM, pad) {
        var k :| 0 <= k < |specs| && j in SpecTiles(specs[k], 0, blockG, blockM, pad);
        if k < n {
          assert j in SpecTiles(init[k], 0, blockG, blockM, pad);
        }
      }
    }
  }

  /** The kernel reads back exactly the jobs the compiler took apart: the
      store mask min(block_size, BLOCK_M) is the job's size when that lies
      in [1, BLOCK_M]. */
  lemma JobsOfArgs(jobs: seq<Job>, blockG: nat, blockM: nat)
    requires forall j :: 0 <= j < |jobs| ==> 1 <= jobs[j].size <= blockM && |jobs[j].row| == blockG
    ensures LaunchShaped(ArgsOf(jobs, blockG, blockM))
    ensures JobsOf(ArgsOf(jobs, blockG, blockM)) == jobs
  {
    var js := JobsOf(ArgsOf(jobs, blockG, blockM));
    assert forall j :: 0 <= j < |jobs| ==> js[j] == jobs[j];
  }

  /** The launch of bucket g runs the bucket's jobs. */
  lemma BucketLaunchJobs(srcs: seq<TiedSource>, blockSize: nat, pad: int, g: nat)
    requires 1 <= g <= blockSize
    ensures LaunchShaped(BucketArgs(g, Filter(srcs, g), blockSize, pad))
    ensures JobsOf(BucketArgs(g, Filter(srcs, g), blockSize, pad))
         == BucketJobs(Filter(srcs, g), g, blockSize / g, pad)
  {
    var specs := Filter(srcs, g);
    forall k | 0 <= k < |specs| ensures |specs[k].chPfids| <= g {
      FilterMember(srcs, g, specs[k]);
      var i :| 0 <= i < |srcs| && NeedsFusion(srcs[i]) && Cardinality(srcs[i]) == g && SpecOf(srcs[i]) == specs[k];
      NextPow2Bounds(|srcs[i].tiedStarts|);
    }
    BlockFits(g, blockSize);
    BucketJobsShape(specs, g, blockSize / g, pad);
    JobsOfArgs(BucketJobs(specs, g, blockSize / g, pad), g, blockSize / g);
  }

  /** Launch `a` of a plan is the launch of bucket BLOCK_G over the given sources. */
  ghost predicate LaunchOf(srcs: seq<TiedSource>, blockSize: nat, pad: int, a: KernelArgs) {
    2 <= a.blockG <= blockSize
    && LaunchShaped(a)
    && JobsOf(a) == BucketJobs(Filter(srcs, a.blockG), a.blockG, blockSize / a.blockG, pad)
  }

  ghost predicate HasBucket(plan: seq<KernelArgs>, g: nat) {
    exists b :: 0 <= b < |plan| && plan[b].blockG == g
  }

  /** What the end-to-end lemmas use of a successful compilation: each launch
      is a bucket's launch, and each source that needs fusing fits a bucket
      of the plan. */
  ghost predicate Compiled(srcs: seq<TiedSource>, blockSize: nat, pad: int, plan: seq<KernelArgs>) {
    (forall b :: 0 <= b < |plan| ==> LaunchOf(srcs, blockSize, pad, plan[b]))
    && DistinctCardinalities(plan)
    && forall q :: 0 <= q < |srcs| && NeedsFusion(srcs[q]) ==>
         |srcs[q].tiedStarts| <= Cardinality(srcs[q]) <= blockSize
         && HasBucket(plan, Cardinality(srcs[q]))
  }

  /** A successful compilation has the shape `Compiled` describes. */
  lemma CompiledSummary(srcs: seq<TiedSource>, maxGroups: nat, blockSize: nat, pad: int,
                        plan: seq<KernelArgs>)
    requires NextPow2(maxGroups) <= blockSize
    requires CompileSpec(srcs, maxGroups, blockSize, pad) == Ok(plan)
    ensures Compiled(srcs, blockSize, pad, plan)
  {
    CompiledPlanBuckets(srcs, maxGroups, blockSize, pad, plan);
    CompiledPlanShape(srcs, maxGroups, blockSize, pad, plan);
    CollectFails(srcs, maxGroups);
    forall b | 0 <= b < |plan| ensures LaunchOf(srcs, blockSize, pad, plan[b]) {
      BucketLaunchJobs(srcs, blockSize, pad, plan[b].blockG);
    }
    forall q | 0 <= q < |srcs| && NeedsFusion(srcs[q])
      ensures |srcs[q].tiedStarts| <= Cardinality(srcs[q]) <= blockSize
    {
      assert !Overfull(srcs[q], maxGroups);
      NextPow2Bounds(|srcs[q].tiedStarts|);
      NextPow2Monotone(|srcs[q].tiedStarts|, maxGroups);
    }
  }

  /** A job of a bucket's launch is a job of a source of that bucket. */
  lemma LaunchJobSource(srcs: seq<TiedSource>, blockSize: nat, pad: int, a: KernelArgs, j: Job)
    returns (q: nat)
    requires LaunchOf(srcs, blockSize, pad, a)
    requires j in JobsOf(a)
    ensures q < |srcs| && NeedsFusion(srcs[q]) && Cardinality(srcs[q]) == a.blockG
    ensures j in SourceTiles(srcs[q], blockSize, pad)
  {
    var g := a.blockG;
    BlockFits(g, blockSize);
    var specs := Filter(srcs, g);
    BucketJobsMember(specs, g, blockSize / g, pad, j);
    var k :| 0 <= k < |specs| && j in SpecTiles(specs[k], 0, g, blockSize / g, pad);
    FilterMember(srcs, g, specs[k]);
    q :| 0 <= q < |srcs| && NeedsFusion(srcs[q]) && Cardinality(srcs[q]) == g && SpecOf(srcs[q]) == specs[k];
  }

  /** Every job the plan runs is a job of a source that needs fusing. */
  lemma PlanJobIsFusedTile(srcs: seq<TiedSource>, blockSize: nat, pad: int,
                           plan: seq<KernelArgs>, j: Job)
    requires Compiled(srcs, blockSize, pad, plan)
    requires j in FlatJobs(plan)
    ensures FusedTile(srcs, blockSize, pad, j)
  {
    FlatJobsMember(plan, j);
    var b :| 0 <= b < |plan| && j in JobsOf(plan[b]);
    var q := LaunchJobSource(srcs, blockSize, pad, plan[b], j);
  }

  /** Every job of a source that needs fusing is run by the plan. */
  lemma FusedTileInPlan(srcs: seq<TiedSource>, blockSize: nat, pad: int,
                        plan: seq<KernelArgs>, q: int, j: Job)
    requires Compiled(srcs, blockSize, pad, plan)
    requires 0 <= q < |srcs| && NeedsFusion(srcs[q]) && Cardinality(srcs[q]) <= blockSize
    requires j in SourceTiles(srcs[q], blockSize, pad)
    ensures j in FlatJobs(plan)
  {
    var g := Cardinality(srcs[q]);
    assert HasBucket(plan, g);
    var b :| 0 <= b < |plan| && plan[b].blockG == g;
    assert LaunchOf(srcs, blockSize, pad, plan[b]);
    BlockFits(g, blockSize);
    var specs := Filter(srcs, g);
    FilterMember(srcs, g, SpecOf(srcs[q]));
    var k :| 0 <= k < |specs| && specs[k] == SpecOf(srcs[q]);
    BucketJobsMember(specs, g, blockSize / g, pad, j);
    FlatJobsMember(plan, j);
  }

  /** The plan runs exactly the jobs of the sources that need fusing. */
  lemma CompiledJobs(srcs: seq<TiedSource>, blockSize: nat, pad: int, plan: seq<KernelArgs>)
    requires Compiled(srcs, blockSize, pad, plan)
    ensures forall b :: 0 <= b < |plan| ==> LaunchShaped(plan[b])
    ensures forall j :: j in FlatJobs(plan) <==> FusedTile(srcs, blockSize, pad, j)
  {
    forall b | 0 <= b < |plan| ensures LaunchShaped(plan[b]) {
      assert LaunchOf(srcs, blockSize, pad, plan[b]);
    }
    forall j ensures j in FlatJobs(plan) <==> FusedTile(srcs, blockSize, pad, j) {
      if j in FlatJobs(plan) {
        PlanJobIsFusedTile(srcs, blockSize, pad, plan, j);
      }
      if FusedTile(srcs, blockSize, pad, j) {
        var q :| 0 <= q < |srcs| && NeedsFusion(srcs[q]) && Cardinality(srcs[q]) <= blockSize
                 && j in SourceTiles(srcs[q], blockSize, pad);
        FusedTileInPlan(srcs, blockSize, pad, plan, q, j);
      }
    }
  }

  // ---------------------------------------------------------------------
  // What one job of a source touches

  /** A job of source e fits the buffer, writes only inside e's range, loads
      only inside e's tied ranges, and carries e's padded row for its block. */
  lemma TileFacts(e: TiedSource, blockSize: nat, pad: int, n: int, j: Job)
    requires NeedsFusion(e) && Cardinality(e) <= blockSize && pad < 0
    requires SourceFits(e, n)
    requires j in SourceTiles(e, blockSize, pad)
    ensures Fits(j, n) && 1 <= j.size
    ensures forall i :: Writes(j, i) ==> InSource(e, i)
    ensures forall g, i :: 0 <= g < |j.row| && j.row[g] >= 0 && j.row[g] <= i < j.row[g] + j.size
              ==> InTie(e, g, i)
    ensures 0 <= j.target - e.flowStart && j.target + j.size <= e.flowEnd
    ensures j.row == PaddedRow(e.tiedStarts, j.target - e.flowStart, Cardinality(e), pad)
    ensures forall g :: 0 <= g < |j.row| && j.row[g] >= 0 ==>
              g < |e.tiedStarts| && j.row[g] == e.tiedStarts[g] + (j.target - e.flowStart)
  {
    var G := Cardinality(e);
    BlockFits(G, blockSize);
    var M := blockSize / G;
    var js := SpecTiles(SpecOf(e), 0, G, M, pad);
    SpecTilesShape(SpecOf(e), 0, G, M, pad);
    SpecTilesOrdered(SpecOf(e), 0, G, M, pad);
    NextPow2Bounds(|e.tiedStarts|);
    var k :| 0 <= k < |js| && js[k] == j;
    var blk := j.target - e.flowStart;
    var ties := e.tiedStarts;
    assert 0 <= blk && blk + j.size <= Width(e);
    forall g | 0 <= g < |j.row| && j.row[g] >= 0
      ensures g < |ties| && j.row[g] == ties[g] + blk
    {
    }
  }

  /** Two distinct jobs of fused sources never write the same cell. */
  lemma TilesWriteApart(srcs: seq<TiedSource>, blockSize: nat, pad: int, n: int, a: Job, b: Job, i: int)
    requires pad < 0 && Layout(srcs, n)
    requires FusedTile(srcs, blockSize, pad, a) && FusedTile(srcs, blockSize, pad, b)
    requires a != b && Writes(a, i)
    ensures !Writes(b, i)
  {
    var qa :| 0 <= qa < |srcs| && NeedsFusion(srcs[qa]) && Cardinality(srcs[qa]) <= blockSize
              && a in SourceTiles(srcs[qa], blockSize, pad);
    var qb :| 0 <= qb < |srcs| && NeedsFusion(srcs[qb]) && Cardinality(srcs[qb]) <= blockSize
              && b in SourceTiles(srcs[qb], blockSize, pad);
    TileFacts(srcs[qa], blockSize, pad, n, a);
    TileFacts(srcs[qb], blockSize, pad, n, b);
    if qa != qb {
      assert InSource(srcs[qa], i);
      assert !InSource(srcs[qb], i);
    } else {
      var e := srcs[qa];
      BlockFits(Cardinality(e), blockSize);
      var js := SourceTiles(e, blockSize, pad);
      SpecTilesOrdered(SpecOf(e), 0, Cardinality(e), blockSize / Cardinality(e), pad);
      var ka :| 0 <= ka < |js| && js[ka] == a;
      var kb :| 0 <= kb < |js| && js[kb] == b;
      assert ka != kb;
    }
  }

  /** A job of a fused source loads no cell another job of a fused source
      writes: a tied range that is the source's own range is loaded only
      in the job's own block. */
  lemma TileReadsAvoid(srcs: seq<TiedSource>, blockSize: nat, pad: int, n: int, a: Job, b: Job)
    requires pad < 0 && Layout(srcs, n)
    requires FusedTile(srcs, blockSize, pad, a) && FusedTile(srcs, blockSize, pad, b)
    requires a != b
    ensures ReadsAvoid(a, b)
  {
    var qa :| 0 <= qa < |srcs| && NeedsFusion(srcs[qa]) && Cardinality(srcs[qa]) <= blockSize
              && a in SourceTiles(srcs[qa], blockSize, pad);
    var qb :| 0 <= qb < |srcs| && NeedsFusion(srcs[qb]) && Cardinality(srcs[qb]) <= blockSize
              && b in SourceTiles(srcs[qb], blockSize, pad);
    TileFacts(srcs[qa], blockSize, pad, n, a);
    TileFacts(srcs[qb], blockSize, pad, n, b);
    forall g, i | 0 <= g < |a.row| && a.row[g] >= 0 && a.row[g] <= i < a.row[g] + a.size
      ensures !Writes(b, i)
    {
      assert InTie(srcs[qa], g, i);
      if SelfTie(srcs[qa], g) {
        assert a.row[g] == a.target;
        TilesWriteApart(srcs, blockSize, pad, n, a, b, i);
      } else {
        assert !InSource(srcs[qb], i);
      }
    }
  }

  /** The jobs of one source are all different: their targets ascend. */
  lemma SpecTilesNoRepeats(spec: KernelSpec, blockG: nat, blockM: nat, pad: int)
    requires blockM >= 1
    ensures NoRepeats(SpecTiles(spec, 0, blockG, blockM, pad))
  {
    var js := SpecTiles(spec, 0, blockG, blockM, pad);
    SpecTilesShape(spec, 0, blockG, blockM, pad);
    SpecTilesOrdered(spec, 0, blockG, blockM, pad);
    forall k1, k2 | 0 <= k1 < k2 < |js| ensures js[k1] != js[k2] {
      assert js[k1].target < js[k2].target;
    }
  }

  ghost predicate InSpec(spec: KernelSpec, i: int) {
    spec.pfidStart <= i < spec.pfidStart + spec.numParFlows
  }

  /** Distinct entries of a bucket have disjoint ranges. */
  ghost predicate SpecsApart(specs: seq<KernelSpec>) {
    forall k1, k2, i :: 0 <= k1 < k2 < |specs| && InSpec(specs[k1], i) ==> !InSpec(specs[k2], i)
  }

  /** Every job of a spec stores to its own target, inside the spec's range. */
  lemma TilesInSpec(spec: KernelSpec, blockG: nat, blockM: nat, pad: int)
    requires blockM >= 1
    ensures forall j :: j in SpecTiles(spec, 0, blockG, blockM, pad) ==>
              Writes(j, j.target) && InSpec(spec, j.target)
  {
    var js := SpecTiles(spec, 0, blockG, blockM, pad);
    SpecTilesShape(spec, 0, blockG, blockM, pad);
    SpecTilesCover(spec, 0, blockG, blockM, pad);
    forall k | 0 <= k < |js| ensures Writes(js[k], js[k].target) && InSpec(spec, js[k].target) {
      assert Covers(js, js[k].target);
    }
  }

  /** A bucket whose specs have disjoint ranges lists no job twice. */
  lemma {:induction false} BucketJobsNoRepeats(specs: seq<KernelSpec>, blockG: nat, blockM: nat, pad: int)
    requires blockM >= 1
    requires SpecsApart(specs)
    ensures NoRepeats(BucketJobs(specs, blockG, blockM, pad))
    decreases |specs|
  {
    if |specs| > 0 {
      var n := |specs| - 1;
      var init := specs[..n];
      assert forall k :: 0 <= k < n ==> init[k] == specs[k];
      BucketJobsNoRepeats(init, blockG, blockM, pad);
      SpecTilesNoRepeats(specs[n], blockG, blockM, pad);
      var xs := BucketJobs(init, blockG, blockM, pad);
      TilesInSpec(specs[n], blockG, blockM, pad);
      forall j | j in xs ensures j !in SpecTiles(specs[n], 0, blockG, blockM, pad) {
        BucketJobsMember(init, blockG, blockM, pad, j);
        var k :| 0 <= k < n && j in SpecTiles(init[k], 0, blockG, blockM, pad);
        TilesInSpec(specs[k], blockG, blockM, pad);
        assert !InSpec(specs[n], j.target);
      }
      NoRepeatsAppend(xs, SpecTiles(specs[n], 0, blockG, blockM, pad));
    }
  }

  /** The bucket of disjoint sources lists disjoint ranges. */
  lemma {:induction false} FilterApart(srcs: seq<TiedSource>, g: nat)
    requires SourcesApart(srcs)
    ensures SpecsApart(Filter(srcs, g))
    decreases |srcs|
  {
    if |srcs| > 0 {
      var n := |srcs| - 1;
      var init := srcs[..n];
      assert forall q :: 0 <= q < n ==> init[q] == srcs[q];
      FilterApart(init, g);
      var xs := Filter(init, g);
      var specs := Filter(srcs, g);
      if NeedsFusion(srcs[n]) && Cardinality(srcs[n]) == g {
        assert specs == xs + [SpecOf(srcs[n])];
        forall k1, k2, i | 0 <= k1 < k2 < |specs| && InSpec(specs[k1], i)
          ensures !InSpec(specs[k2], i)
        {
          if k2 == |xs| {
            FilterMember(init, g, xs[k1]);
            var q :| 0 <= q < n && NeedsFusion(init[q]) && Cardinality(init[q]) == g
                     && SpecOf(init[q]) == xs[k1];
            assert InSource(srcs[q], i);
            assert !InSource(srcs[n], i);
          } else {
            assert specs[k1] == xs[k1] && specs[k2] == xs[k2];
          }
        }
      } else {
        assert specs == xs;
      }
    }
  }

  /** Cell i lies in the range of a fused source of cardinality g. */
  ghost predicate OwnedBy(srcs: seq<TiedSource>, g: nat, i: int) {
    exists q :: 0 <= q < |srcs| && NeedsFusion(srcs[q]) && Cardinality(srcs[q]) == g && InSource(srcs[q], i)
  }

  /** Every job of a bucket's launch stores to its target, inside the range
      of a source of that bucket. */
  lemma LaunchTargets(srcs: seq<TiedSource>, blockSize: nat, pad: int, a: KernelArgs, n: int)
    requires LaunchOf(srcs, blockSize, pad, a)
    requires pad < 0 && LayoutFits(srcs, n)
    ensures forall j :: j in JobsOf(a) ==> OwnedBy(srcs, a.blockG, j.target)
  {
    forall j | j in JobsOf(a) ensures OwnedBy(srcs, a.blockG, j.target) {
      var q := LaunchJobSource(srcs, blockSize, pad, a, j);
      TileFacts(srcs[q], blockSize, pad, n, j);
      assert InSource(srcs[q], j.target);
    }
  }

  /** Disjoint sources: a cell belongs to sources of at most one bucket. */
  lemma OwnersApart(srcs: seq<TiedSource>, g1: nat, g2: nat, i: int)
    requires SourcesApart(srcs)
    requires g1 != g2 && OwnedBy(srcs, g1, i)
    ensures !OwnedBy(srcs, g2, i)
  {
    var q1 :| 0 <= q1 < |srcs| && NeedsFusion(srcs[q1]) && Cardinality(srcs[q1]) == g1 && InSource(srcs[q1], i);
    forall q2 | 0 <= q2 < |srcs| && NeedsFusion(srcs[q2]) && Cardinality(srcs[q2]) == g2
      ensures !InSource(srcs[q2], i)
    {
      assert q1 != q2;
    }
  }

  /** Launches of distinct buckets over disjoint sources list no job twice. */
  lemma {:induction false} PlanNoRepeats(srcs: seq<TiedSource>, blockSize: nat, pad: int,
                                        plan: seq<KernelArgs>, n: int)
    requires forall b :: 0 <= b < |plan| ==> LaunchOf(srcs, blockSize, pad, plan[b])
    requires DistinctCardinalities(plan)
    requires pad < 0 && LayoutFits(srcs, n) && SourcesApart(srcs)
    ensures forall b :: 0 <= b < |plan| ==> LaunchShaped(plan[b])
    ensures NoRepeats(FlatJobs(plan))
    decreases |plan|
  {
    if |plan| > 0 {
      var last := |plan| - 1;
      var init := plan[..last];
      assert forall b :: 0 <= b < last ==> init[b] == plan[b];
      PlanNoRepeats(srcs, blockSize, pad, init, n);
      var a := plan[last];
      assert LaunchOf(srcs, blockSize, pad, a);
      var g := a.blockG;
      BlockFits(g, blockSize);
      FilterApart(srcs, g);
      BucketJobsNoRepeats(Filter(srcs, g), g, blockSize / g, pad);
      var xs := FlatJobs(init);
      LaunchTargets(srcs, blockSize, pad, a, n);
      forall j | j in xs ensures j !in JobsOf(a) {
        FlatJobsMember(init, j);
        var b :| 0 <= b < last && j in JobsOf(init[b]);
        LaunchTargets(srcs, blockSize, pad, plan[b], n);
        OwnersApart(srcs, plan[b].blockG, g, j.target);
      }
      NoRepeatsAppend(xs, JobsOf(a));
    }
  }

  /** The jobs of a plan can run in any order: no two write one cell, and
      none loads a cell any job writes. */
  lemma CompiledIndependent(srcs: seq<TiedSource>, blockSize: nat, pad: int,
                            plan: seq<KernelArgs>, n: int)
    requires Compiled(srcs, blockSize, pad, plan)
    requires pad < 0 && Layout(srcs, n)
    ensures forall b :: 0 <= b < |plan| ==> LaunchShaped(plan[b])
    ensures Independent(FlatJobs(plan))
  {
    CompiledJobs(srcs, blockSize, pad, plan);
    PlanNoRepeats(srcs, blockSize, pad, plan, n);
    var flat := FlatJobs(plan);
    forall a, b, i | a in flat && b in flat && a != b && Writes(a, i) ensures !Writes(b, i) {
      TilesWriteApart(srcs, blockSize, pad, n, a, b, i);
    }
    forall a, b | a in flat && b in flat && a != b ensures ReadsAvoid(a, b) {
      TileReadsAvoid(srcs, blockSize, pad, n, a, b);
    }
  }

  /** Every job of a plan fits the buffer. */
  lemma CompiledPlanFits(srcs: seq<TiedSource>, blockSize: nat, pad: int,
                         plan: seq<KernelArgs>, n: int)
    requires Compiled(srcs, blockSize, pad, plan)
    requires pad < 0 && LayoutFits(srcs, n)
    ensures PlanFits(plan, n)
  {
    CompiledJobs(srcs, blockSize, pad, plan);
    var flat := FlatJobs(plan);
    forall k | 0 <= k < |flat| ensures Fits(flat[k], n) {
      assert flat[k] in flat;
      var q :| 0 <= q < |srcs| && NeedsFusion(srcs[q]) && Cardinality(srcs[q]) <= blockSize
               && flat[k] in SourceTiles(srcs[q], blockSize, pad);
      TileFacts(srcs[q], blockSize, pad, n, flat[k]);
    }
  }

  // ---------------------------------------------------------------------
  // The end result

  /** The job of source e covering cell i, at offset m of e's range,
      stores there the tied groups' sum at offset m. */
  lemma TileCellSum(e: TiedSource, blockSize: nat, pad: int, s: seq<int>, a: Job, m: int, i: int)
    requires NeedsFusion(e) && |e.tiedStarts| <= Cardinality(e) <= blockSize && pad < 0
    requires SourceFits(e, |s|)
    requires i == e.flowStart + m
    requires a in SourceTiles(e, blockSize, pad) && a.target <= i < a.target + a.size
    ensures SlotsReadable(a.row, i - a.target, |s|)
    ensures TiesReadable(e.tiedStarts, m, |s|)
    ensures SlotSum(s, a.row, i - a.target) == ReplicaSum(s, e.tiedStarts, m)
  {
    var off := i - a.target;
    TileFacts(e, blockSize, pad, |s|, a);
    FitsReadable(a, |s|, off);
    var blk := a.target - e.flowStart;
    assert blk + off == m;
    SentinelRowSum(s, e.tiedStarts, blk, Cardinality(e), pad, off);
  }

  /** Some job of source e covers each cell of e's range. */
  lemma TileAt(e: TiedSource, blockSize: nat, pad: int, i: int) returns (a: Job)
    requires Cardinality(e) <= blockSize
    requires InSource(e, i)
    ensures a in SourceTiles(e, blockSize, pad) && a.target <= i < a.target + a.size
  {
    var G := Cardinality(e);
    BlockFits(G, blockSize);
    var js := SourceTiles(e, blockSize, pad);
    SpecTilesCover(SpecOf(e), 0, G, blockSize / G, pad);
    assert Covers(js, i);
    var k :| 0 <= k < |js| && js[k].target <= i < js[k].target + js[k].size;
    a := js[k];
  }

  /** The cell at offset m of a fused source, after a plan of shape
      `Compiled`, holds the tied groups' sum. */
  lemma CompiledCellSum(srcs: seq<TiedSource>, blockSize: nat, pad: int,
                        plan: seq<KernelArgs>, s: seq<int>, q: nat, m: int)
    requires Compiled(srcs, blockSize, pad, plan)
    requires pad < 0 && Layout(srcs, |s|)
    requires q < |srcs| && NeedsFusion(srcs[q]) && 0 <= m < Width(srcs[q])
    ensures PlanFits(plan, |s|)
    ensures TiesReadable(srcs[q].tiedStarts, m, |s|)
    ensures ApplyPlan(s, plan)[srcs[q].flowStart + m] == ReplicaSum(s, srcs[q].tiedStarts, m)
  {
    var e := srcs[q];
    var i := e.flowStart + m;
    CompiledPlanFits(srcs, blockSize, pad, plan, |s|);
    CompiledIndependent(srcs, blockSize, pad, plan, |s|);
    var a := TileAt(e, blockSize, pad, i);
    FusedTileInPlan(srcs, blockSize, pad, plan, q, a);
    TileCellSum(e, blockSize, pad, s, a, m, i);
    ApplyPlanCell(s, plan, a, i, ReplicaSum(s, e.tiedStarts, m));
  }

  /** Fusion: after the compiled plan runs with a negative padding value,
      cell m of a fused source's range holds the sum of its tied groups'
      flows at offset m. */
  lemma FusedCellSum(srcs: seq<TiedSource>, maxGroups: nat, blockSize: nat, pad: int,
                     plan: seq<KernelArgs>, s: seq<int>, q: nat, m: int)
    requires NextPow2(maxGroups) <= blockSize
    requires CompileSpec(srcs, maxGroups, blockSize, pad) == Ok(plan)
    requires pad < 0 && Layout(srcs, |s|)
    requires q < |srcs| && NeedsFusion(srcs[q]) && 0 <= m < Width(srcs[q])
    ensures PlanFits(plan, |s|)
    ensures TiesReadable(srcs[q].tiedStarts, m, |s|)
    ensures ApplyPlan(s, plan)[srcs[q].flowStart + m] == ReplicaSum(s, srcs[q].tiedStarts, m)
  {
    CompiledSummary(srcs, maxGroups, blockSize, pad, plan);
    CompiledCellSum(srcs, blockSize, pad, plan, s, q, m);
  }

  /** Frame: a cell outside every fused source's range keeps its value. */
  lemma OtherCellsUnchanged(srcs: seq<TiedSource>, maxGroups: nat, blockSize: nat, pad: int,
                            plan: seq<KernelArgs>, s: seq<int>, i: int)
    requires NextPow2(maxGroups) <= blockSize
    requires CompileSpec(srcs, maxGroups, blockSize, pad) == Ok(plan)
    requires pad < 0 && LayoutFits(srcs, |s|)
    requires 0 <= i < |s| && !FusedTarget(srcs, i)
    ensures PlanFits(plan, |s|)
    ensures ApplyPlan(s, plan)[i] == s[i]
  {
    CompiledSummary(srcs, maxGroups, blockSize, pad, plan);
    CompiledPlanFits(srcs, blockSize, pad, plan, |s|);
    CompiledJobs(srcs, blockSize, pad, plan);
    var flat := FlatJobs(plan);
    forall k | 0 <= k < |flat| ensures !Writes(flat[k], i) {
      var a := flat[k];
      assert a in flat;
      var q :| 0 <= q < |srcs| && NeedsFusion(srcs[q]) && Cardinality(srcs[q]) <= blockSize
               && a in SourceTiles(srcs[q], blockSize, pad);
      TileFacts(srcs[q], blockSize, pad, |s|, a);
    }
    ApplyUntouched(s, flat, i);
  }
}

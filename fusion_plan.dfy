/** The tied-parameter-flow fusion plan: what `compile_cum_par_flows_fn`
    computes, as specification functions, and what is proved about it.

    Parameter tying lets several node groups share one source group's
    parameters while each keeps its own parameter-flow range. Before a
    parameter update, the flows of the tied groups are summed into the
    source's flow range. The compiler turns the tying relation into a plan:
    sources are bucketed by the next power of two of their number of tied
    groups, and each source's flow range is cut into blocks of BLOCK_M
    flows, one job per block.

    Departures from the code as written (each stops it from running):
    - `ngroup2kernel_specs` is created as a list but used as a dict; it is
      modelled as an insertion-ordered dict (SpecTable).
    - the per-bucket loop rebinds `ch_pfids`, clobbering the row
      accumulator; the accumulator and the source's tied starts are kept
      apart here.
    - `ch_pfids.append()` has no argument; the padded row `ch_pfid` is
      appended.
    - the padding value is a parameter `pad` (the code writes 0). */
module FusionPlan {
  import opened PowerOfTwo

  /** One entry of `node2tiednodes`: the source group's parameter-flow
      range [flowStart, flowEnd) and the flow-range starts of its tied
      groups, in tied-list order. A Python dict iterates in insertion
      order, so the relation is a sequence. */
  datatype TiedSource = TiedSource(flowStart: int, flowEnd: int, tiedStarts: seq<int>)

  /** `[pfid_start, num_par_flows, ch_pfids]`, one per source that needs fusing. */
  datatype KernelSpec = KernelSpec(pfidStart: int, numParFlows: int, chPfids: seq<int>)

  /** `ngroup2kernel_specs`: a dict from bucket cardinality to kernel specs;
      `order` lists its keys in insertion order. */
  datatype SpecTable = SpecTable(order: seq<nat>, specs: map<nat, seq<KernelSpec>>)

  /** One fusion job: target flow offset, block size and padded replica row. */
  datatype Job = Job(target: int, size: int, row: seq<int>)

  /** `[target_pfids, block_sizes, ch_pfids, BLOCK_G, BLOCK_M]`: one kernel launch. */
  datatype KernelArgs = KernelArgs(
    targetPfids: seq<int>, blockSizes: seq<int>, chPfids: seq<seq<int>>, blockG: nat, blockM: nat)

  /** The assertion on the number of tied groups: index of the source and its count. */
  datatype CompileError = TooManyGroups(source: nat, count: nat)

  datatype Result<T> = Ok(value: T) | Err(error: CompileError)

  function Min(a: int, b: int): int { if a <= b then a else b }

  /** A source with a single tied group already holds its flows: no job. */
  predicate NeedsFusion(e: TiedSource) {
    |e.tiedStarts| > 1
  }

  /** A source the compiler refuses: more tied groups than MAX_NGROUPS. */
  predicate Overfull(e: TiedSource, maxGroups: nat) {
    NeedsFusion(e) && |e.tiedStarts| > maxGroups
  }

  /** The bucket a fused source lands in. */
  function Cardinality(e: TiedSource): nat {
    NextPow2(|e.tiedStarts|)
  }

  function SpecOf(e: TiedSource): KernelSpec {
    KernelSpec(e.flowStart, e.flowEnd - e.flowStart, e.tiedStarts)
  }

  /** Append a spec to the bucket `g`, creating the bucket at the end if new. */
  function Insert(t: SpecTable, g: nat, spec: KernelSpec): SpecTable {
    if g in t.specs then SpecTable(t.order, t.specs[g := t.specs[g] + [spec]])
    else SpecTable(t.order + [g], t.specs[g := [spec]])
  }

  /** The first loop of the compiler: bucket every source that needs fusing,
      failing at the first source with too many tied groups. */
  function Collect(srcs: seq<TiedSource>, maxGroups: nat): Result<SpecTable>
    decreases |srcs|
  {
    if |srcs| == 0 then Ok(SpecTable([], map[]))
    else
      var n := |srcs| - 1;
      match Collect(srcs[..n], maxGroups)
      case Err(err) => Err(err)
      case Ok(t) =>
        var e := srcs[n];
        if !NeedsFusion(e) then Ok(t)
        else if |e.tiedStarts| > maxGroups then Err(TooManyGroups(n, |e.tiedStarts|))
        else Ok(Insert(t, Cardinality(e), SpecOf(e)))
  }

  /** Reference definition of a bucket: the specs of the fused sources whose
      cardinality is `g`, in source order. */
  function Filter(srcs: seq<TiedSource>, g: nat): seq<KernelSpec>
    decreases |srcs|
  {
    if |srcs| == 0 then []
    else
      var n := |srcs| - 1;
      Filter(srcs[..n], g)
        + (if NeedsFusion(srcs[n]) && Cardinality(srcs[n]) == g then [SpecOf(srcs[n])] else [])
  }

  /** The dict's key order lists each key once, and exactly the keys. */
  ghost predicate TableValid(t: SpecTable) {
    (forall i, j :: 0 <= i < j < |t.order| ==> t.order[i] != t.order[j])
    && (forall g :: g in t.specs <==> g in t.order)
  }

  /** Every bucket is a power of two between 2 and NextPow2(maxGroups),
      and holds only specs whose tied-group count rounds up to it. */
  ghost predicate TableBounded(t: SpecTable, maxGroups: nat) {
    forall g :: g in t.specs ==>
      2 <= g <= NextPow2(maxGroups) && IsPow2(g)
      && forall spec :: spec in t.specs[g] ==>
           2 <= |spec.chPfids| <= maxGroups && NextPow2(|spec.chPfids|) == g
  }

  /** The replica row of one block: each tied group's flow start moved to
      the block, then padded up to BLOCK_G (`[0] * n` is empty for n < 0). */
  function PaddedRow(ties: seq<int>, blkStart: int, blockG: nat, pad: int): (row: seq<int>)
    ensures |ties| <= blockG ==> |row| == blockG
    ensures |ties| <= |row|
    ensures forall i :: 0 <= i < |ties| ==> row[i] == ties[i] + blkStart
    ensures forall i :: |ties| <= i < |row| ==> row[i] == pad
  {
    seq(|ties|, i requires 0 <= i < |ties| => ties[i] + blkStart)
      + seq(if |ties| <= blockG then blockG - |ties| else 0, _ => pad)
  }

  /** The jobs of one source from block offset `blkStart` on: one per step
      of `range(blkStart, num_par_flows, BLOCK_M)`. */
  function SpecTiles(spec: KernelSpec, blkStart: int, blockG: nat, blockM: nat, pad: int): seq<Job>
    requires blockM >= 1
    decreases spec.numParFlows - blkStart
  {
    if blkStart >= spec.numParFlows then []
    else
      var blkEnd := Min(blkStart + blockM, spec.numParFlows);
      [Job(spec.pfidStart + blkStart, blkEnd - blkStart, PaddedRow(spec.chPfids, blkStart, blockG, pad))]
        + SpecTiles(spec, blkStart + blockM, blockG, blockM, pad)
  }

  /** The jobs of a bucket: source order, then tile order. */
  function BucketJobs(specs: seq<KernelSpec>, blockG: nat, blockM: nat, pad: int): seq<Job>
    requires blockM >= 1
    decreases |specs|
  {
    if |specs| == 0 then []
    else
      var n := |specs| - 1;
      BucketJobs(specs[..n], blockG, blockM, pad) + SpecTiles(specs[n], 0, blockG, blockM, pad)
  }

  /** The three job lists of a kernel launch, taken apart from the jobs. */
  function ArgsOf(jobs: seq<Job>, blockG: nat, blockM: nat): KernelArgs {
    KernelArgs(
      seq(|jobs|, p requires 0 <= p < |jobs| => jobs[p].target),
      seq(|jobs|, p requires 0 <= p < |jobs| => jobs[p].size),
      seq(|jobs|, p requires 0 <= p < |jobs| => jobs[p].row),
      blockG, blockM)
  }

  /** One bucket's launch: BLOCK_G = ngroup, BLOCK_M = BLOCK_SIZE // BLOCK_G. */
  function BucketArgs(ngroup: nat, specs: seq<KernelSpec>, blockSize: nat, pad: int): KernelArgs
    requires 1 <= ngroup <= blockSize
  {
    var blockM := blockSize / ngroup;
    ArgsOf(BucketJobs(specs, ngroup, blockM, pad), ngroup, blockM)
  }

  /** The second loop of the compiler: one launch per bucket, in key order. */
  function PlanOf(t: SpecTable, blockSize: nat, pad: int): seq<KernelArgs>
    requires forall g :: g in t.order ==> g in t.specs && 1 <= g <= blockSize
  {
    seq(|t.order|, b requires 0 <= b < |t.order| =>
      BucketArgs(t.order[b], t.specs[t.order[b]], blockSize, pad))
  }

  /** `compile_cum_par_flows_fn(node2tiednodes, MAX_NGROUPS, BLOCK_SIZE)`,
      with the padding value made a parameter. */
  function CompileSpec(srcs: seq<TiedSource>, maxGroups: nat, blockSize: nat, pad: int)
    : Result<seq<KernelArgs>>
    requires NextPow2(maxGroups) <= blockSize
  {
    match Collect(srcs, maxGroups)
    case Err(err) => Err(err)
    case Ok(t) =>
      CollectKeysFit(srcs, maxGroups, blockSize);
      Ok(PlanOf(t, blockSize, pad))
  }

  // ---------------------------------------------------------------------
  // Bucketing

  /** `err` names the first source with too many tied groups, and its count. */
  ghost predicate FirstOverfull(srcs: seq<TiedSource>, maxGroups: nat, err: CompileError) {
    err.source < |srcs| && Overfull(srcs[err.source], maxGroups)
    && err.count == |srcs[err.source].tiedStarts|
    && forall i :: 0 <= i < err.source ==> !Overfull(srcs[i], maxGroups)
  }

  /** Compilation fails exactly when some source that needs fusing has more
      than MAX_NGROUPS tied groups, and it reports the first such source. */
  lemma {:induction false} CollectFails(srcs: seq<TiedSource>, maxGroups: nat)
    ensures Collect(srcs, maxGroups).Err?
        <==> exists i :: 0 <= i < |srcs| && Overfull(srcs[i], maxGroups)
    ensures Collect(srcs, maxGroups).Err? ==>
        FirstOverfull(srcs, maxGroups, Collect(srcs, maxGroups).error)
    decreases |srcs|
  {
    if |srcs| > 0 {
      var n := |srcs| - 1;
      var init := srcs[..n];
      CollectFails(init, maxGroups);
      assert forall i :: 0 <= i < n ==> init[i] == srcs[i];
      if Collect(init, maxGroups).Err? {
        var i :| 0 <= i < n && Overfull(init[i], maxGroups);
        assert Overfull(srcs[i], maxGroups);
      }
    }
  }

  /** Once compilation of a prefix has failed, the whole run fails the same way. */
  lemma {:induction false} CollectErrPersists(srcs: seq<TiedSource>, n: nat, maxGroups: nat)
    requires n <= |srcs|
    requires Collect(srcs[..n], maxGroups).Err?
    ensures Collect(srcs, maxGroups) == Collect(srcs[..n], maxGroups)
    decreases |srcs| - n
  {
    if n < |srcs| {
      var m := |srcs| - 1;
      assert srcs[..m][..n] == srcs[..n];
      CollectErrPersists(srcs[..m], n, maxGroups);
    } else {
      assert srcs[..n] == srcs;
    }
  }

  /** Inserting into a valid dict keeps each key listed once. */
  lemma InsertValid(t: SpecTable, g: nat, spec: KernelSpec)
    requires TableValid(t)
    ensures TableValid(Insert(t, g, spec))
    ensures Insert(t, g, spec).specs.Keys == t.specs.Keys + {g}
    ensures Insert(t, g, spec).specs[g] == (if g in t.specs then t.specs[g] else []) + [spec]
    ensures forall h :: h in t.specs && h != g ==> Insert(t, g, spec).specs[h] == t.specs[h]
  {
    if g !in t.specs {
      var o := t.order + [g];
      forall i, j | 0 <= i < j < |o| ensures o[i] != o[j] {
        if j == |t.order| {
          assert o[i] == t.order[i];
        }
      }
    }
  }

  /** After the first loop, the dict has one key per distinct cardinality of
      a fused source; the bucket of key g holds exactly Filter(srcs, g); and
      every key is a power of two within the cap. */
  lemma {:induction false} CollectGroups(srcs: seq<TiedSource>, maxGroups: nat)
    requires Collect(srcs, maxGroups).Ok?
    ensures TableValid(Collect(srcs, maxGroups).value)
    ensures TableBounded(Collect(srcs, maxGroups).value, maxGroups)
    ensures forall g :: g in Collect(srcs, maxGroups).value.specs <==> Filter(srcs, g) != []
    ensures forall g :: g in Collect(srcs, maxGroups).value.specs ==>
              Collect(srcs, maxGroups).value.specs[g] == Filter(srcs, g)
    decreases |srcs|
  {
    if |srcs| > 0 {
      var n := |srcs| - 1;
      var init := srcs[..n];
      CollectGroups(init, maxGroups);
      var e := srcs[n];
      var t := Collect(init, maxGroups).value;
      if NeedsFusion(e) {
        var g0 := Cardinality(e);
        var k := |e.tiedStarts|;
        assert k <= maxGroups;
        var t' := Insert(t, g0, SpecOf(e));
        assert Collect(srcs, maxGroups) == Ok(t');
        InsertValid(t, g0, SpecOf(e));
        FilterStep(srcs);
        InsertBounded(t, maxGroups, e);
      } else {
        FilterStep(srcs);
      }
    }
  }

  /** One step of Filter: the last source joins bucket g iff it is fused with cardinality g. */
  lemma FilterStep(srcs: seq<TiedSource>)
    requires |srcs| > 0
    ensures var n := |srcs| - 1; var e := srcs[n];
      forall g :: Filter(srcs, g)
        == Filter(srcs[..n], g) + (if NeedsFusion(e) && Cardinality(e) == g then [SpecOf(e)] else [])
  {
  }

  lemma InsertBounded(t: SpecTable, maxGroups: nat, e: TiedSource)
    requires TableBounded(t, maxGroups)
    requires NeedsFusion(e) && |e.tiedStarts| <= maxGroups
    ensures TableBounded(Insert(t, Cardinality(e), SpecOf(e)), maxGroups)
  {
    var k := |e.tiedStarts|;
    NextPow2Bounds(k);
    NextPow2Monotone(k, maxGroups);
    NextPow2IsPow2(k);
  }

  /** Every key of the collected dict is a cardinality the launch can use. */
  lemma CollectKeysFit(srcs: seq<TiedSource>, maxGroups: nat, blockSize: nat)
    requires Collect(srcs, maxGroups).Ok?
    requires NextPow2(maxGroups) <= blockSize
    ensures forall g :: g in Collect(srcs, maxGroups).value.order ==>
              g in Collect(srcs, maxGroups).value.specs && 2 <= g <= blockSize
  {
    CollectGroups(srcs, maxGroups);
  }

  /** A spec is in bucket g exactly when some fused source of cardinality g produced it. */
  lemma {:induction false} FilterMember(srcs: seq<TiedSource>, g: nat, spec: KernelSpec)
    ensures spec in Filter(srcs, g) <==>
      exists i :: 0 <= i < |srcs| && NeedsFusion(srcs[i]) && Cardinality(srcs[i]) == g
                  && SpecOf(srcs[i]) == spec
    decreases |srcs|
  {
    if |srcs| > 0 {
      var n := |srcs| - 1;
      var init := srcs[..n];
      FilterMember(init, g, spec);
      assert forall i :: 0 <= i < n ==> init[i] == srcs[i];
      if spec in Filter(srcs, g) && spec !in Filter(init, g) {
        assert SpecOf(srcs[n]) == spec;
      }
    }
  }

  // ---------------------------------------------------------------------
  // Tiling

  /** Job `a` stores to cell i. */
  ghost predicate Writes(a: Job, i: int) {
    a.target <= i < a.target + a.size
  }

  /** Some job of `js` stores to cell i. */
  ghost predicate Covers(js: seq<Job>, i: int) {
    exists j :: 0 <= j < |js| && Writes(js[j], i)
  }

  /** Jobs `js` are the tiles of `spec` from block offset `blk`: targets
      `start + blk + j*BLOCK_M`, sizes `min(BLOCK_M, remaining)` in
      [1, BLOCK_M], each row the padded row of the job's own block offset;
      there are none iff the range is empty. */
  ghost predicate Tiled(js: seq<Job>, spec: KernelSpec, blk: int, blockG: nat, blockM: nat, pad: int) {
    var s, n := spec.pfidStart, spec.numParFlows;
    (|js| == 0 <==> blk >= n)
    && forall j :: 0 <= j < |js| ==>
         js[j].target == s + blk + j * blockM
         && js[j].size == Min(blockM, s + n - js[j].target)
         && 1 <= js[j].size <= blockM
         && js[j].row == PaddedRow(spec.chPfids, js[j].target - s, blockG, pad)
  }

  /** Jobs at or above `lo`, pairwise disjoint and in ascending order. */
  ghost predicate Ascending(js: seq<Job>, lo: int) {
    (forall j :: 0 <= j < |js| ==> lo <= js[j].target)
    && forall j1, j2 :: 0 <= j1 < j2 < |js| ==> js[j1].target + js[j1].size <= js[j2].target
  }

  /** Together the jobs write exactly the offsets [lo, hi). */
  ghost predicate CoversExactly(js: seq<Job>, lo: int, hi: int) {
    forall i :: lo <= i < hi <==> Covers(js, i)
  }

  lemma MulPred(j: int, m: int)
    ensures (j - 1) * m + m == j * m
  {
  }

  lemma {:induction false} SpecTilesShape(spec: KernelSpec, blk: int, blockG: nat, blockM: nat, pad: int)
    requires blockM >= 1
    ensures Tiled(SpecTiles(spec, blk, blockG, blockM, pad), spec, blk, blockG, blockM, pad)
    decreases spec.numParFlows - blk
  {
    var js := SpecTiles(spec, blk, blockG, blockM, pad);
    var s := spec.pfidStart;
    if blk < spec.numParFlows {
      var rest := SpecTiles(spec, blk + blockM, blockG, blockM, pad);
      SpecTilesShape(spec, blk + blockM, blockG, blockM, pad);
      assert js == [js[0]] + rest;
      forall j | 1 <= j < |js|
        ensures js[j].target == s + blk + j * blockM
      {
        assert js[j] == rest[j - 1];
        MulPred(j, blockM);
      }
    }
  }

  /** The jobs of one source are pairwise disjoint and in ascending order. */
  lemma {:induction false} SpecTilesOrdered(spec: KernelSpec, blk: int, blockG: nat, blockM: nat, pad: int)
    requires blockM >= 1
    ensures Ascending(SpecTiles(spec, blk, blockG, blockM, pad), spec.pfidStart + blk)
    decreases spec.numParFlows - blk
  {
    var js := SpecTiles(spec, blk, blockG, blockM, pad);
    if blk < spec.numParFlows {
      var rest := SpecTiles(spec, blk + blockM, blockG, blockM, pad);
      SpecTilesOrdered(spec, blk + blockM, blockG, blockM, pad);
      assert js == [js[0]] + rest;
      forall j1, j2 | 0 <= j1 < j2 < |js| ensures js[j1].target + js[j1].size <= js[j2].target {
        assert js[j2] == rest[j2 - 1];
        if j1 > 0 {
          assert js[j1] == rest[j1 - 1];
        }
      }
    }
  }

  /** The jobs of one source cover exactly [start + blk, start + N). */
  lemma {:induction false} SpecTilesCover(spec: KernelSpec, blk: int, blockG: nat, blockM: nat, pad: int)
    requires blockM >= 1
    ensures CoversExactly(SpecTiles(spec, blk, blockG, blockM, pad),
                          spec.pfidStart + blk, spec.pfidStart + spec.numParFlows)
    decreases spec.numParFlows - blk
  {
    var js := SpecTiles(spec, blk, blockG, blockM, pad);
    var s, n := spec.pfidStart, spec.numParFlows;
    if blk < n {
      var rest := SpecTiles(spec, blk + blockM, blockG, blockM, pad);
      SpecTilesCover(spec, blk + blockM, blockG, blockM, pad);
      assert js == [js[0]] + rest;
      forall i ensures s + blk <= i < s + n <==> Covers(js, i) {
        if s + blk <= i < s + n {
          if i >= s + blk + blockM {
            assert Covers(rest, i);
            var j :| 0 <= j < |rest| && rest[j].target <= i < rest[j].target + rest[j].size;
            assert js[j + 1] == rest[j];
          } else {
            assert js[0].target <= i < js[0].target + js[0].size;
          }
        }
        if Covers(js, i) {
          var j :| 0 <= j < |js| && js[j].target <= i < js[j].target + js[j].size;
          if j > 0 {
            assert js[j] == rest[j - 1];
            assert Covers(rest, i);
          }
        }
      }
    }
  }

  // ---------------------------------------------------------------------
  // The plan

  /** The shape `cum_par_flows_kernel` needs: three job lists of one length
      and rows exactly BLOCK_G wide. */
  ghost predicate LaunchShaped(a: KernelArgs) {
    |a.targetPfids| == |a.blockSizes| == |a.chPfids|
    && forall p :: 0 <= p < |a.chPfids| ==> |a.chPfids[p]| == a.blockG
  }

  /** A launch of that shape whose block sizes also lie in [1, BLOCK_M]. */
  ghost predicate WellShaped(a: KernelArgs) {
    LaunchShaped(a)
    && forall p :: 0 <= p < |a.blockSizes| ==> 1 <= a.blockSizes[p] <= a.blockM
  }

  /** Every launch has BLOCK_G a power of two >= 2, BLOCK_M = BLOCK_SIZE // BLOCK_G
      at least 1 with BLOCK_G * BLOCK_M <= BLOCK_SIZE, and is well shaped. */
  ghost predicate PlanShaped(plan: seq<KernelArgs>, blockSize: nat) {
    forall b :: 0 <= b < |plan| ==>
      IsPow2(plan[b].blockG) && 2 <= plan[b].blockG
      && plan[b].blockM == blockSize / plan[b].blockG && 1 <= plan[b].blockM
      && plan[b].blockG * plan[b].blockM <= blockSize
      && WellShaped(plan[b])
  }

  /** No two launches share a cardinality. */
  ghost predicate DistinctCardinalities(plan: seq<KernelArgs>) {
    forall b1, b2 :: 0 <= b1 < b2 < |plan| ==> plan[b1].blockG != plan[b2].blockG
  }

  lemma BlockFits(g: nat, blockSize: nat)
    requires 1 <= g <= blockSize
    ensures 1 <= blockSize / g && g * (blockSize / g) <= blockSize
  {
    var m, r := blockSize / g, blockSize % g;
    assert blockSize == g * m + r && 0 <= r < g;
  }

  /** The jobs of a bucket have sizes in [1, BLOCK_M], and rows BLOCK_G
      wide when no spec has more than BLOCK_G tied groups. */
  lemma {:induction false} BucketJobsShape(specs: seq<KernelSpec>, blockG: nat, blockM: nat, pad: int)
    requires blockM >= 1
    requires forall k :: 0 <= k < |specs| ==> |specs[k].chPfids| <= blockG
    ensures forall j :: 0 <= j < |BucketJobs(specs, blockG, blockM, pad)| ==>
              1 <= BucketJobs(specs, blockG, blockM, pad)[j].size <= blockM
              && |BucketJobs(specs, blockG, blockM, pad)[j].row| == blockG
    decreases |specs|
  {
    if |specs| > 0 {
      var n := |specs| - 1;
      BucketJobsShape(specs[..n], blockG, blockM, pad);
      SpecTilesShape(specs[n], 0, blockG, blockM, pad);
      var init := BucketJobs(specs[..n], blockG, blockM, pad);
      var last := SpecTiles(specs[n], 0, blockG, blockM, pad);
      var all: seq<Job> := init + last;
      forall j | 0 <= j < |all|
        ensures 1 <= all[j].size <= blockM && |all[j].row| == blockG
      {
        if j >= |init| {
          assert all[j] == last[j - |init|];
        }
      }
    }
  }

  /** One bucket's launch is well shaped, with BLOCK_G * BLOCK_M <= BLOCK_SIZE. */
  lemma BucketArgsShape(g: nat, specs: seq<KernelSpec>, blockSize: nat, pad: int)
    requires 1 <= g <= blockSize
    requires forall spec :: spec in specs ==> |spec.chPfids| <= g
    ensures BucketArgs(g, specs, blockSize, pad).blockG == g
    ensures BucketArgs(g, specs, blockSize, pad).blockM == blockSize / g >= 1
    ensures g * (blockSize / g) <= blockSize
    ensures WellShaped(BucketArgs(g, specs, blockSize, pad))
  {
    BlockFits(g, blockSize);
    assert forall k :: 0 <= k < |specs| ==> specs[k] in specs;
    BucketJobsShape(specs, g, blockSize / g, pad);
  }

  /** The compiled plan is the table's buckets, in key order. */
  lemma CompiledPlanIsTable(srcs: seq<TiedSource>, maxGroups: nat, blockSize: nat, pad: int,
                            plan: seq<KernelArgs>)
    requires NextPow2(maxGroups) <= blockSize
    requires CompileSpec(srcs, maxGroups, blockSize, pad) == Ok(plan)
    ensures Collect(srcs, maxGroups).Ok?
    ensures TableValid(Collect(srcs, maxGroups).value)
    ensures TableBounded(Collect(srcs, maxGroups).value, maxGroups)
    ensures |plan| == |Collect(srcs, maxGroups).value.order|
    ensures forall b :: 0 <= b < |plan| ==>
              var g := Collect(srcs, maxGroups).value.order[b];
              g in Collect(srcs, maxGroups).value.specs && 2 <= g <= blockSize
              && Collect(srcs, maxGroups).value.specs[g] == Filter(srcs, g)
              && plan[b] == BucketArgs(g, Filter(srcs, g), blockSize, pad)
  {
    CollectGroups(srcs, maxGroups);
  }

  /** A bucket of a bounded table compiles to a well-shaped launch. */
  lemma TableBucketShape(t: SpecTable, maxGroups: nat, blockSize: nat, pad: int, g: nat)
    requires TableBounded(t, maxGroups) && g in t.specs
    requires NextPow2(maxGroups) <= blockSize
    ensures 2 <= g <= blockSize
    ensures var a := BucketArgs(g, t.specs[g], blockSize, pad);
      IsPow2(a.blockG) && 2 <= a.blockG
      && a.blockM == blockSize / a.blockG && 1 <= a.blockM
      && a.blockG * a.blockM <= blockSize
      && WellShaped(a)
  {
    forall spec | spec in t.specs[g] ensures |spec.chPfids| <= g {
      NextPow2Bounds(|spec.chPfids|);
    }
    BucketArgsShape(g, t.specs[g], blockSize, pad);
  }

  /** The compiled plan: every launch is well shaped, with a power-of-two
      BLOCK_G and BLOCK_G * BLOCK_M <= BLOCK_SIZE, and no two launches
      share a cardinality. */
  lemma CompiledPlanShape(srcs: seq<TiedSource>, maxGroups: nat, blockSize: nat, pad: int,
                          plan: seq<KernelArgs>)
    requires NextPow2(maxGroups) <= blockSize
    requires CompileSpec(srcs, maxGroups, blockSize, pad) == Ok(plan)
    ensures PlanShaped(plan, blockSize)
    ensures DistinctCardinalities(plan)
  {
    CompiledPlanIsTable(srcs, maxGroups, blockSize, pad, plan);
    var t := Collect(srcs, maxGroups).value;
    forall b | 0 <= b < |plan|
      ensures IsPow2(plan[b].blockG) && 2 <= plan[b].blockG
      ensures plan[b].blockM == blockSize / plan[b].blockG && 1 <= plan[b].blockM
      ensures plan[b].blockG * plan[b].blockM <= blockSize
      ensures WellShaped(plan[b])
      ensures plan[b].blockG == t.order[b]
    {
      var g := t.order[b];
      TableBucketShape(t, maxGroups, blockSize, pad, g);
    }
  }

  /** The compiled plan has one launch per distinct cardinality of a fused
      source and none other, and the launch of cardinality g holds the jobs
      of exactly the fused sources of cardinality g, in source order. */
  lemma CompiledPlanBuckets(srcs: seq<TiedSource>, maxGroups: nat, blockSize: nat, pad: int,
                            plan: seq<KernelArgs>)
    requires NextPow2(maxGroups) <= blockSize
    requires CompileSpec(srcs, maxGroups, blockSize, pad) == Ok(plan)
    ensures forall b :: 0 <= b < |plan| ==>
              2 <= plan[b].blockG <= blockSize
              && plan[b] == BucketArgs(plan[b].blockG, Filter(srcs, plan[b].blockG), blockSize, pad)
    ensures forall i :: 0 <= i < |srcs| && NeedsFusion(srcs[i]) ==>
              exists b :: 0 <= b < |plan| && plan[b].blockG == Cardinality(srcs[i])
    ensures forall b :: 0 <= b < |plan| ==>
              exists i :: 0 <= i < |srcs| && NeedsFusion(srcs[i]) && Cardinality(srcs[i]) == plan[b].blockG
  {
    CompiledPlanIsTable(srcs, maxGroups, blockSize, pad, plan);
    var t := Collect(srcs, maxGroups).value;
    CollectGroups(srcs, maxGroups);
    forall b | 0 <= b < |plan|
      ensures plan[b].blockG == t.order[b]
      ensures exists i :: 0 <= i < |srcs| && NeedsFusion(srcs[i]) && Cardinality(srcs[i]) == plan[b].blockG
    {
      var g := t.order[b];
      assert Filter(srcs, g) != [];
      FilterMember(srcs, g, Filter(srcs, g)[0]);
    }
    forall i | 0 <= i < |srcs| && NeedsFusion(srcs[i])
      ensures exists b :: 0 <= b < |plan| && plan[b].blockG == Cardinality(srcs[i])
    {
      var g := Cardinality(srcs[i]);
      FilterMember(srcs, g, SpecOf(srcs[i]));
      assert g in t.order;
      var b :| 0 <= b < |t.order| && t.order[b] == g;
      assert plan[b].blockG == g;
    }
  }
}

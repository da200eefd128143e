/** `compile_cum_par_flows_fn` as the loops it is written with, each
    proved to compute the specification function of FusionPlan. */
module FusionCompile {
  import opened PowerOfTwo
  import opened FusionPlan

  /** The first loop: walk the tying relation in order, skip sources with a
      single tied group, fail on a source with more than `maxGroups` tied
      groups, and append every other source's kernel spec to the dict entry
      of its cardinality, creating the entry on first use. */
  method CollectKernelSpecs(srcs: seq<TiedSource>, maxGroups: nat) returns (r: Result<SpecTable>)
    ensures r == Collect(srcs, maxGroups)
  {
    var order: seq<nat> := [];
    var specs: map<nat, seq<KernelSpec>> := map[];
    var i := 0;
    while i < |srcs|
      invariant 0 <= i <= |srcs|
      invariant Collect(srcs[..i], maxGroups) == Ok(SpecTable(order, specs))
    {
      assert srcs[..i + 1][..i] == srcs[..i];
      var e := srcs[i];
      ghost var before := SpecTable(order, specs);
      var chNodes := e.tiedStarts;
      if |chNodes| > 1 {
        var numParFlows := e.flowEnd - e.flowStart;
        var pfidStart := e.flowStart;
        if |chNodes| > maxGroups {
          r := Err(TooManyGroups(i, |chNodes|));
          CollectErrPersists(srcs, i + 1, maxGroups);
          return;
        }
        var ngroup := NextPow2(|chNodes|);
        var chPfids: seq<int> := [];
        var j := 0;
        while j < |chNodes|
          invariant 0 <= j <= |chNodes|
          invariant chPfids == chNodes[..j]
        {
          chPfids := chPfids + [chNodes[j]];
          j := j + 1;
        }
        assert chNodes[..j] == chNodes;
        var spec := KernelSpec(pfidStart, numParFlows, chPfids);
        if ngroup !in specs {
          order := order + [ngroup];
          specs := specs[ngroup := []];
        }
        specs := specs[ngroup := specs[ngroup] + [spec]];
        if ngroup !in before.specs {
          assert [] + [spec] == [spec];
          assert specs == before.specs[ngroup := [spec]];
        }
        assert SpecTable(order, specs) == Insert(before, ngroup, SpecOf(e));
      }
      i := i + 1;
    }
    assert srcs[..i] == srcs;
    r := Ok(SpecTable(order, specs));
  }

  /** Appending one job appends one entry to each of the three job lists. */
  lemma ArgsOfAppend(jobs: seq<Job>, job: Job, blockG: nat, blockM: nat)
    ensures ArgsOf(jobs + [job], blockG, blockM)
         == var a := ArgsOf(jobs, blockG, blockM);
            KernelArgs(a.targetPfids + [job.target], a.blockSizes + [job.size],
                       a.chPfids + [job.row], blockG, blockM)
  {
    var a := ArgsOf(jobs, blockG, blockM);
    var b := ArgsOf(jobs + [job], blockG, blockM);
    assert b.targetPfids == a.targetPfids + [job.target];
    assert b.blockSizes == a.blockSizes + [job.size];
    assert b.chPfids == a.chPfids + [job.row];
  }

  /** The body of the second loop for one bucket: BLOCK_G = ngroup,
      BLOCK_M = BLOCK_SIZE // BLOCK_G, and for every kernel spec, in order,
      one job per block of BLOCK_M flows. */
  method TileBucket(ngroup: nat, kernelSpecs: seq<KernelSpec>, blockSize: nat, pad: int)
    returns (args: KernelArgs)
    requires 1 <= ngroup <= blockSize
    ensures args == BucketArgs(ngroup, kernelSpecs, blockSize, pad)
  {
    var blockG := ngroup;
    var blockM := blockSize / blockG;
    BlockFits(blockG, blockSize);
    var targetPfids: seq<int> := [];
    var blockSizes: seq<int> := [];
    var chPfidRows: seq<seq<int>> := [];
    ghost var jobs: seq<Job> := [];
    var k := 0;
    while k < |kernelSpecs|
      invariant 0 <= k <= |kernelSpecs|
      invariant jobs == BucketJobs(kernelSpecs[..k], blockG, blockM, pad)
      invariant ArgsOf(jobs, blockG, blockM) == KernelArgs(targetPfids, blockSizes, chPfidRows, blockG, blockM)
    {
      var spec := kernelSpecs[k];
      var pfidStart, numParFlows, chPfids := spec.pfidStart, spec.numParFlows, spec.chPfids;
      assert kernelSpecs[..k + 1][..k] == kernelSpecs[..k];
      var blkStart := 0;
      while blkStart < numParFlows
        invariant blkStart >= 0
        invariant jobs + SpecTiles(spec, blkStart, blockG, blockM, pad)
               == BucketJobs(kernelSpecs[..k + 1], blockG, blockM, pad)
        invariant ArgsOf(jobs, blockG, blockM) == KernelArgs(targetPfids, blockSizes, chPfidRows, blockG, blockM)
        decreases numParFlows - blkStart
      {
        var blkEnd := Min(blkStart + blockM, numParFlows);
        var blkSize := blkEnd - blkStart;
        var chPfid := seq(|chPfids|, i requires 0 <= i < |chPfids| => chPfids[i] + blkStart);
        chPfid := chPfid + seq(if |chPfid| <= blockG then blockG - |chPfid| else 0, _ => pad);
        assert chPfid == PaddedRow(chPfids, blkStart, blockG, pad);
        var job := Job(pfidStart + blkStart, blkSize, chPfid);
        ghost var rest := SpecTiles(spec, blkStart + blockM, blockG, blockM, pad);
        assert SpecTiles(spec, blkStart, blockG, blockM, pad) == [job] + rest;
        assert (jobs + [job]) + rest == jobs + ([job] + rest);
        ArgsOfAppend(jobs, job, blockG, blockM);
        targetPfids := targetPfids + [pfidStart + blkStart];
        blockSizes := blockSizes + [blkSize];
        chPfidRows := chPfidRows + [chPfid];
        jobs := jobs + [job];
        blkStart := blkStart + blockM;
      }
      k := k + 1;
    }
    assert kernelSpecs[..k] == kernelSpecs;
    args := KernelArgs(targetPfids, blockSizes, chPfidRows, blockG, blockM);
  }

  /** `compile_cum_par_flows_fn`: collect the buckets, then tile each bucket
      in the dict's key order. With MAX_NGROUPS rounded up no larger than
      BLOCK_SIZE, every BLOCK_M is at least 1 (a zero `range` step would
      raise). */
  method CompileCumParFlows(srcs: seq<TiedSource>, maxGroups: nat, blockSize: nat, pad: int)
    returns (r: Result<seq<KernelArgs>>)
    requires NextPow2(maxGroups) <= blockSize
    ensures r == CompileSpec(srcs, maxGroups, blockSize, pad)
  {
    var collected := CollectKernelSpecs(srcs, maxGroups);
    if collected.Err? {
      return Err(collected.error);
    }
    var t := collected.value;
    CollectKeysFit(srcs, maxGroups, blockSize);
    var kernelsArgs: seq<KernelArgs> := [];
    var b := 0;
    while b < |t.order|
      invariant 0 <= b <= |t.order|
      invariant |kernelsArgs| == b
      invariant forall c :: 0 <= c < b ==>
                  kernelsArgs[c] == BucketArgs(t.order[c], t.specs[t.order[c]], blockSize, pad)
    {
      var ngroup := t.order[b];
      var args := TileBucket(ngroup, t.specs[ngroup], blockSize, pad);
      kernelsArgs := kernelsArgs + [args];
      b := b + 1;
    }
    assert kernelsArgs == PlanOf(t, blockSize, pad);
    r := Ok(kernelsArgs);
  }
}

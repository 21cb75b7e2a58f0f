/** How layers are split over prefill pipeline stages, and how a decode instance finds the same split
    (omni/accelerators/pd/llmdatadist_manager.py, get_kv_producer_pp_partitions;
    omni/accelerators/cache/pd.py, register_memory and _register_caches_decode).
 */
module PipelineSplit {
  import opened Arith
  import opened Buffers
  import opened Wrappers

  datatype Partitions = WrongLength | WrongSum | Ok(sizes: seq<int>)

  // ----- The sizes of the stages ---------------------------------------------------------------------

  lemma {:induction false} SumUpdate(s: seq<int>, k: nat, x: int)
    requires k < |s|
    ensures Sum(s[k := x]) == Sum(s) - s[k] + x
  {
    var m := |s| - 1;
    if k == m {
      assert s[k := x][..m] == s[..m];
    } else {
      assert s[k := x][..m] == s[..m][k := x];
      SumUpdate(s[..m], k, x);
    }
  }

  lemma {:induction false} SumConstant(n: nat, q: int)
    ensures Sum(seq(n, _ => q)) == n * q
  {
    if n > 0 {
      assert seq(n, _ => q)[..n - 1] == seq(n - 1, _ => q);
      SumConstant(n - 1, q);
      Spread(n - 1, 1, q);
    }
  }

  /** `given` are the numbers of a partition string. */
  method GetPartitions(numHiddenLayers: nat, ppSize: nat, numMtpLayers: nat, given: Option<seq<int>>)
    returns (r: Partitions)
    requires ppSize > 0
    ensures r.WrongLength? <==> given.Some? && |given.value| != ppSize
    ensures r.WrongSum? <==> given.Some? && |given.value| == ppSize && Sum(given.value) != numHiddenLayers
    ensures r.Ok? ==> |r.sizes| == ppSize && Sum(r.sizes) == numHiddenLayers + numMtpLayers
    ensures r.Ok? && given.Some? ==> forall k :: 0 <= k < ppSize - 1 ==> r.sizes[k] == given.value[k]
    ensures r.Ok? && given.None? ==>
              var last := r.sizes[ppSize - 1] - numMtpLayers;
              last >= 0 && forall k :: 0 <= k < ppSize - 1 ==> last <= r.sizes[k] <= last + 1
  {
    var partitions: seq<int>;
    if given.Some? {
      partitions := given.value;
      if |partitions| != ppSize { return WrongLength; }
      if Sum(partitions) != numHiddenLayers { return WrongSum; }
    } else {
      partitions := DefaultPartitions(numHiddenLayers, ppSize);
    }
    SumUpdate(partitions, ppSize - 1, partitions[ppSize - 1] + numMtpLayers);
    partitions := partitions[ppSize - 1 := partitions[ppSize - 1] + numMtpLayers];
    r := Ok(partitions);
  }

  method DefaultPartitions(numHiddenLayers: nat, ppSize: nat) returns (partitions: seq<int>)
    requires ppSize > 0
    ensures |partitions| == ppSize && Sum(partitions) == numHiddenLayers
    ensures partitions[ppSize - 1] == numHiddenLayers / ppSize >= 0
    ensures forall k :: 0 <= k < ppSize ==> numHiddenLayers / ppSize <= partitions[k] <= numHiddenLayers / ppSize + 1
  {
    var layersPerPartition := numHiddenLayers / ppSize;
    partitions := seq(ppSize, _ => layersPerPartition);
    SumConstant(ppSize, layersPerPartition);
    var remaining := numHiddenLayers % ppSize;
    DivParts(numHiddenLayers, ppSize);
    for i := 2 to remaining + 2
      invariant |partitions| == ppSize && Sum(partitions) == ppSize * layersPerPartition + (i - 2)
      invariant partitions[ppSize - 1] == layersPerPartition
      invariant forall k :: 0 <= k < ppSize ==>
                  partitions[k] == layersPerPartition || (k > ppSize - i && partitions[k] == layersPerPartition + 1)
    {
      SumUpdate(partitions, ppSize - i, partitions[ppSize - i] + 1);
      partitions := partitions[ppSize - i := partitions[ppSize - i] + 1];
    }
    if layersPerPartition < 0 { MulBound(layersPerPartition, ppSize); }
  }

  // ----- The layers of one kind -------------------------------------------------------------------------

  /** The layers of kind `flag` from `lo` to before `hi`. */
  function Layers(pattern: seq<int>, flag: int, lo: nat, hi: nat): (r: seq<nat>)
    requires hi <= |pattern|
    ensures forall k :: 0 <= k < |r| ==> lo <= r[k] < hi && pattern[r[k]] == flag
    ensures forall j, k :: 0 <= j < k < |r| ==> r[j] < r[k]
    decreases hi
  {
    if hi <= lo then [] else Layers(pattern, flag, lo, hi - 1) + (if pattern[hi - 1] == flag then [hi - 1] else [])
  }

  lemma {:induction false} LayersSplit(pattern: seq<int>, flag: int, lo: nat, mid: nat, hi: nat)
    requires lo <= mid <= hi <= |pattern|
    ensures Layers(pattern, flag, lo, hi) == Layers(pattern, flag, lo, mid) + Layers(pattern, flag, mid, hi)
    decreases hi
  {
    if hi > mid { LayersSplit(pattern, flag, lo, mid, hi - 1); }
  }

  function Shifted(s: seq<nat>, start: nat): (r: seq<nat>)
    ensures |r| == |s| && forall k :: 0 <= k < |s| ==> r[k] == start + s[k]
  {
    seq(|s|, k requires 0 <= k < |s| => start + s[k])
  }

  /** A stage sees the pattern from its own first layer on. */
  lemma {:induction false} LayersShift(pattern: seq<int>, flag: int, start: nat, n: nat, m: nat)
    requires m <= n && start + n <= |pattern|
    ensures Layers(pattern, flag, start, start + m) == Shifted(Layers(pattern[start..start + n], flag, 0, m), start)
  {
    if m > 0 {
      LayersShift(pattern, flag, start, n, m - 1);
      var stage := pattern[start..start + n];
      assert stage[m - 1] == pattern[start + (m - 1)];
      assert Layers(stage, flag, 0, m)
        == Layers(stage, flag, 0, m - 1) + (if stage[m - 1] == flag then [m - 1] else []);
    }
  }

  // ----- The decode side's loop ----------------------------------------------------------------------------

  ghost predicate StageSlices(pattern: seq<int>, flag: int, numLayers: nat, sizes: seq<nat>, slices: seq<seq<nat>>,
                              n: nat)
    requires numLayers <= |pattern| && n <= |sizes|
  {
    && |slices| == n
    && forall k :: 0 <= k < n ==>
         slices[k] == Layers(pattern, flag, Min(SumTo(sizes, k), numLayers), Min(SumTo(sizes, k + 1), numLayers))
  }

  /** The while-loop that takes the layers of one kind stage by stage. */
  method SliceStages(pattern: seq<int>, flag: int, numLayers: nat, sizes: seq<nat>) returns (slices: seq<seq<nat>>)
    requires numLayers <= |pattern|
    ensures StageSlices(pattern, flag, numLayers, sizes, slices, |sizes|)
  {
    var layerIdx := Layers(pattern, flag, 0, numLayers);
    slices := [];
    var cntLayerNum, layerIdxStart := 0, 0;
    for k := 0 to |sizes|
      invariant cntLayerNum == SumTo(sizes, k)
      invariant layerIdxStart == |Layers(pattern, flag, 0, Min(cntLayerNum, numLayers))| <= |layerIdx|
      invariant StageSlices(pattern, flag, numLayers, sizes, slices, k)
    {
      var stage, layerIdxEnd := TakeStage(pattern, flag, numLayers, layerIdx, layerIdxStart, cntLayerNum, sizes[k]);
      slices := slices + [stage];
      layerIdxStart := layerIdxEnd;
      cntLayerNum := cntLayerNum + sizes[k];
    }
  }

  method TakeStage(pattern: seq<int>, flag: int, numLayers: nat, layerIdx: seq<nat>, start: nat, cnt: nat, size: nat)
    returns (stage: seq<nat>, end: nat)
    requires numLayers <= |pattern| && layerIdx == Layers(pattern, flag, 0, numLayers)
    requires start == |Layers(pattern, flag, 0, Min(cnt, numLayers))| <= |layerIdx|
    ensures stage == Layers(pattern, flag, Min(cnt, numLayers), Min(cnt + size, numLayers))
    ensures end == |Layers(pattern, flag, 0, Min(cnt + size, numLayers))| <= |layerIdx|
  {
    var lo, hi := Min(cnt, numLayers), Min(cnt + size, numLayers);
    LayersSplit(pattern, flag, 0, lo, hi);
    LayersSplit(pattern, flag, 0, hi, numLayers);
    ghost var a, b, c := Layers(pattern, flag, 0, lo), Layers(pattern, flag, lo, hi),
      Layers(pattern, flag, hi, numLayers);
    hide Layers, Min;
    assert layerIdx == a + b + c;
    end := start;
    while end < |layerIdx| && cnt <= layerIdx[end] < cnt + size
      invariant start <= end <= |a| + |b|
    {
      end := end + 1;
    }
    stage := layerIdx[start..end];
  }

  /** The stages' slices together are the layers below the last stage's end. */
  lemma {:induction false} SlicesConcatenate(pattern: seq<int>, flag: int, numLayers: nat, sizes: seq<nat>,
                                             slices: seq<seq<nat>>, n: nat)
    requires numLayers <= |pattern| && n <= |sizes| && StageSlices(pattern, flag, numLayers, sizes, slices, n)
    ensures AllGather(slices) == Layers(pattern, flag, 0, Min(SumTo(sizes, n), numLayers))
  {
    if n > 0 {
      var init := slices[..n - 1];
      assert forall k :: 0 <= k < |init| ==> init[k] == slices[k];
      SlicesConcatenate(pattern, flag, numLayers, sizes, init, n - 1);
      assert SumTo(sizes, n - 1) <= SumTo(sizes, n);
      hide SumTo, Layers;
      LayersSplit(pattern, flag, 0, Min(SumTo(sizes, n - 1), numLayers), Min(SumTo(sizes, n), numLayers));
    }
  }

  /** With as many layers as the stages have together, nothing is left out. */
  lemma AllLayersCovered(pattern: seq<int>, flag: int, sizes: seq<nat>, slices: seq<seq<nat>>)
    requires SumTo(sizes, |sizes|) <= |pattern|
    requires StageSlices(pattern, flag, SumTo(sizes, |sizes|), sizes, slices, |sizes|)
    ensures AllGather(slices) == Layers(pattern, flag, 0, SumTo(sizes, |sizes|))
  {
    SlicesConcatenate(pattern, flag, SumTo(sizes, |sizes|), sizes, slices, |sizes|);
  }

  // ----- The two sides agree ---------------------------------------------------------------------------------

  /** A prefill stage's own layers of one kind, counted from its first layer. */
  function PrefillStage(pattern: seq<int>, flag: int, sizes: seq<nat>, stage: nat): seq<nat>
    requires stage < |sizes| && SumTo(sizes, stage) + sizes[stage] <= |pattern|
  {
    var start := SumTo(sizes, stage);
    Layers(pattern[start..start + sizes[stage]], flag, 0, sizes[stage])
  }

  lemma StageBounds(sizes: seq<nat>, stage: nat)
    requires stage < |sizes|
    ensures SumTo(sizes, stage + 1) == SumTo(sizes, stage) + sizes[stage] <= SumTo(sizes, |sizes|)
  {
    SumMonotone(sizes, stage + 1, |sizes|);
  }

  lemma SliceIs(pattern: seq<int>, flag: int, sizes: seq<nat>, slices: seq<seq<nat>>, stage: nat)
    requires SumTo(sizes, |sizes|) <= |pattern| && stage < |sizes|
    requires StageSlices(pattern, flag, SumTo(sizes, |sizes|), sizes, slices, |sizes|)
    ensures SumTo(sizes, stage) + sizes[stage] <= |pattern|
    ensures slices[stage] == Layers(pattern, flag, SumTo(sizes, stage), SumTo(sizes, stage) + sizes[stage])
  {
    hide Layers, SumTo;
    StageBounds(sizes, stage);
  }

  /** The decode side's slice is the prefill stage's layers moved by the stage's offset. */
  lemma SidesAgree(pattern: seq<int>, flag: int, sizes: seq<nat>, slices: seq<seq<nat>>, stage: nat)
    requires SumTo(sizes, |sizes|) <= |pattern| && stage < |sizes|
    requires StageSlices(pattern, flag, SumTo(sizes, |sizes|), sizes, slices, |sizes|)
    ensures SumTo(sizes, stage) + sizes[stage] <= |pattern|
    ensures slices[stage] == Shifted(PrefillStage(pattern, flag, sizes, stage), SumTo(sizes, stage))
  {
    hide Layers, SumTo, StageSlices;
    StageBounds(sizes, stage);
    SliceIs(pattern, flag, sizes, slices, stage);
    LayersShift(pattern, flag, SumTo(sizes, stage), sizes[stage], sizes[stage]);
  }

  /** Registering raises for a stage without layers of a kind. */
  predicate DecodeRegisters(slices: seq<seq<nat>>) { forall k :: 0 <= k < |slices| ==> slices[k] != [] }

  predicate PrefillRegisters(pattern: seq<int>, sizes: seq<nat>, stage: nat)
    requires stage < |sizes| && SumTo(sizes, stage) + sizes[stage] <= |pattern|
  {
    PrefillStage(pattern, 0, sizes, stage) != [] && PrefillStage(pattern, 1, sizes, stage) != []
  }

  /** The decode side can register both kinds exactly when every prefill stage can. */
  lemma RegistrationsAgree(pattern: seq<int>, sizes: seq<nat>, full: seq<seq<nat>>, omni: seq<seq<nat>>)
    requires SumTo(sizes, |sizes|) <= |pattern|
    requires StageSlices(pattern, 0, SumTo(sizes, |sizes|), sizes, full, |sizes|)
    requires StageSlices(pattern, 1, SumTo(sizes, |sizes|), sizes, omni, |sizes|)
    ensures forall stage :: 0 <= stage < |sizes| ==> SumTo(sizes, stage) + sizes[stage] <= |pattern|
    ensures DecodeRegisters(full) && DecodeRegisters(omni) <==>
            forall stage :: 0 <= stage < |sizes| ==> PrefillRegisters(pattern, sizes, stage)
  {
    hide PrefillStage, SumTo;
    forall stage | 0 <= stage < |sizes|
      ensures SumTo(sizes, stage) + sizes[stage] <= |pattern|
      ensures PrefillRegisters(pattern, sizes, stage) <==> full[stage] != [] && omni[stage] != []
    {
      SidesAgree(pattern, 0, sizes, full, stage);
      SidesAgree(pattern, 1, sizes, omni, stage);
    }
  }
}

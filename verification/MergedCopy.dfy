/** Host-to-device copies of KV blocks with merged address ranges
    (omni/accelerators/cache/kv_mem_pool.py, omni/accelerators/cache/omni_cache.py).

    Memory is addressed by integers.  A copy list is executed in order, so what an address holds
    afterwards is decided by the last copy that covers it.
 */
module MergedCopy {
  import opened Arith

  type Cell = int

  datatype Copy = Copy(dst: int, src: int, len: int)

  predicate Covers(c: Copy, a: int) {
    c.dst <= a < c.dst + c.len
  }

  /** What address `a` holds after the copies, if it held `d` before. */
  function At(copies: seq<Copy>, a: int, d: Cell, host: int -> Cell): Cell {
    if copies == [] then d
    else
      var c := copies[|copies| - 1];
      if Covers(c, a) then host(c.src + a - c.dst) else At(copies[..|copies| - 1], a, d, host)
  }

  /** Two copy lists leave every memory in the same state. */
  ghost predicate SameEffect(x: seq<Copy>, y: seq<Copy>) {
    forall a, d, host :: At(x, a, d, host) == At(y, a, d, host)
  }

  lemma {:induction false} AtConcat(x: seq<Copy>, y: seq<Copy>, a: int, d: Cell, host: int -> Cell)
    ensures At(x + y, a, d, host) == At(y, a, At(x, a, d, host), host)
  {
    if y == [] {
      assert x + y == x;
    } else {
      assert (x + y)[..|x + y| - 1] == x + y[..|y| - 1];
      AtConcat(x, y[..|y| - 1], a, d, host);
    }
  }

  lemma SameEffectConcat(x: seq<Copy>, x': seq<Copy>, y: seq<Copy>, y': seq<Copy>)
    requires SameEffect(x, x') && SameEffect(y, y')
    ensures SameEffect(x + y, x' + y')
  {
    forall a, d, host
      ensures At(x + y, a, d, host) == At(x' + y', a, d, host)
    {
      AtConcat(x, y, a, d, host);
      AtConcat(x', y', a, d, host);
      assert At(x, a, d, host) == At(x', a, d, host);
    }
  }

  /** When all copies that cover `a` are the same, order does not matter. */
  lemma {:induction false} AtUnique(copies: seq<Copy>, c: Copy, a: int, d: Cell, host: int -> Cell)
    requires c in copies && Covers(c, a)
    requires forall c' :: c' in copies && Covers(c', a) ==> c' == c
    ensures At(copies, a, d, host) == host(c.src + a - c.dst)
  {
    var last := copies[|copies| - 1];
    if !Covers(last, a) {
      AtUnique(copies[..|copies| - 1], c, a, d, host);
    }
  }

  lemma {:induction false} AtUncovered(copies: seq<Copy>, a: int, d: Cell, host: int -> Cell)
    requires forall c :: c in copies ==> !Covers(c, a)
    ensures At(copies, a, d, host) == d
  {
    if copies != [] { AtUncovered(copies[..|copies| - 1], a, d, host); }
  }

  // ----- Merging the address lists of one tensor and layer -----------------------------------

  /** One copy per block. */
  function BlockCopies(cpu: seq<int>, npu: seq<int>, size: int, lo: nat, hi: nat): (r: seq<Copy>)
    requires lo <= hi <= |cpu| == |npu|
    ensures |r| == hi - lo && forall i :: 0 <= i < hi - lo ==> r[i] == Copy(npu[lo + i], cpu[lo + i], size)
  {
    seq(hi - lo, i requires 0 <= i < hi - lo => Copy(npu[lo + i], cpu[lo + i], size))
  }

  /** Block `i` continues block `i - 1` on both sides. */
  predicate Continues(cpu: seq<int>, npu: seq<int>, size: int, i: nat)
    requires 1 <= i < |cpu| == |npu|
  {
    cpu[i] == cpu[i - 1] + size && npu[i] == npu[i - 1] + size
  }

  /** Run `k` stands for the blocks `cuts[k] .. cuts[k + 1]`; the runs tile the first `hi` blocks,
      each is contiguous on both sides, and none can be extended. */
  ghost predicate Merged(cpu: seq<int>, npu: seq<int>, size: int, runs: seq<Copy>, cuts: seq<nat>, hi: nat)
    requires hi <= |cpu| == |npu|
  {
    && |cuts| == |runs| + 1 && cuts[0] == 0 && cuts[|runs|] == hi
    && (forall k :: 0 <= k < |runs| ==> IsRun(cpu, npu, size, runs[k], cuts[k], cuts[k + 1]))
    && (forall k :: 1 <= k < |cuts| && cuts[k] < |cpu| ==> cuts[k] >= 1 && !Continues(cpu, npu, size, cuts[k]))
  }

  ghost predicate IsRun(cpu: seq<int>, npu: seq<int>, size: int, run: Copy, lo: nat, hi: nat)
    requires |cpu| == |npu|
  {
    && lo < hi <= |cpu|
    && run == Copy(npu[lo], cpu[lo], size * (hi - lo))
    && forall i :: lo < i < hi ==> Continues(cpu, npu, size, i)
  }

  method MergeRuns(cpu: seq<int>, npu: seq<int>, size: int) returns (runs: seq<Copy>, ghost cuts: seq<nat>)
    requires |cpu| == |npu|
    ensures Merged(cpu, npu, size, runs, cuts, |cpu|)
    ensures exists c :: Merged(cpu, npu, size, runs, c, |cpu|)
  {
    runs, cuts := [], [0];
    var batchStart := 0;
    while batchStart < |cpu|
      invariant 0 <= batchStart <= |cpu|
      invariant Merged(cpu, npu, size, runs, cuts, batchStart)
    {
      var batchEnd := batchStart + 1;
      var prevCpu, prevNpu := cpu[batchStart], npu[batchStart];
      while batchEnd < |cpu|
        invariant batchStart < batchEnd <= |cpu|
        invariant prevCpu == cpu[batchEnd - 1] && prevNpu == npu[batchEnd - 1]
        invariant forall i :: batchStart < i < batchEnd ==> Continues(cpu, npu, size, i)
      {
        if cpu[batchEnd] == prevCpu + size && npu[batchEnd] == prevNpu + size {
          prevCpu, prevNpu := cpu[batchEnd], npu[batchEnd];
          batchEnd := batchEnd + 1;
        } else {
          break;
        }
      }
      assert batchEnd < |cpu| ==> !Continues(cpu, npu, size, batchEnd);
      var countBlocks := batchEnd - batchStart;
      runs := runs + [Copy(npu[batchStart], cpu[batchStart], size * countBlocks)];
      cuts := cuts + [batchEnd];
      batchStart := batchEnd;
    }
  }

  lemma {:induction false} RunAddresses(cpu: seq<int>, npu: seq<int>, size: int, lo: nat, hi: nat)
    requires |cpu| == |npu| && lo < hi <= |cpu|
    requires forall i :: lo < i < hi ==> Continues(cpu, npu, size, i)
    ensures npu[hi - 1] == npu[lo] + size * (hi - 1 - lo) && cpu[hi - 1] == cpu[lo] + size * (hi - 1 - lo)
    decreases hi
  {
    if hi > lo + 1 {
      RunAddresses(cpu, npu, size, lo, hi - 1);
      assert Continues(cpu, npu, size, hi - 1);
      assert size * (hi - 1 - lo) == size * (hi - 2 - lo) + size;
    }
  }

  lemma AtOne(c: Copy, a: int, d: Cell, host: int -> Cell)
    ensures At([c], a, d, host) == if Covers(c, a) then host(c.src + a - c.dst) else d
  {
    assert [c][..0] == [];
  }

  /** One merged run does what its blocks do one after the other. */
  lemma {:induction false} RunIsItsBlocks(cpu: seq<int>, npu: seq<int>, size: int, run: Copy, lo: nat, hi: nat,
                                          a: int, d: Cell, host: int -> Cell)
    requires |cpu| == |npu| && size >= 0 && IsRun(cpu, npu, size, run, lo, hi)
    ensures At([run], a, d, host) == At(BlockCopies(cpu, npu, size, lo, hi), a, d, host)
    decreases hi
  {
    var blocks := BlockCopies(cpu, npu, size, lo, hi);
    if hi == lo + 1 {
      assert blocks == [run];
    } else {
      var shorter := Copy(npu[lo], cpu[lo], size * (hi - 1 - lo));
      RunIsItsBlocks(cpu, npu, size, shorter, lo, hi - 1, a, d, host);
      RunAddresses(cpu, npu, size, lo, hi);
      assert run.len == shorter.len + size;
      assert shorter.len >= 0;
      assert blocks[..|blocks| - 1] == BlockCopies(cpu, npu, size, lo, hi - 1);
      AtOne(run, a, d, host);
      AtOne(shorter, a, d, host);
    }
  }

  lemma {:induction false} MergedRefines(cpu: seq<int>, npu: seq<int>, size: int, runs: seq<Copy>, cuts: seq<nat>,
                                         hi: nat)
    requires hi <= |cpu| == |npu| && size >= 0 && Merged(cpu, npu, size, runs, cuts, hi)
    ensures SameEffect(runs, BlockCopies(cpu, npu, size, 0, hi))
  {
    if runs == [] {
      assert BlockCopies(cpu, npu, size, 0, hi) == [];
    } else {
      var m := |runs| - 1;
      var lo := cuts[m];
      MergedRefines(cpu, npu, size, runs[..m], cuts[..m + 1], lo);
      assert IsRun(cpu, npu, size, runs[m], lo, hi);
      forall a, d, host
        ensures At([runs[m]], a, d, host) == At(BlockCopies(cpu, npu, size, lo, hi), a, d, host)
      {
        RunIsItsBlocks(cpu, npu, size, runs[m], lo, hi, a, d, host);
      }
      SameEffectConcat(runs[..m], BlockCopies(cpu, npu, size, 0, lo), [runs[m]], BlockCopies(cpu, npu, size, lo, hi));
      assert runs == runs[..m] + [runs[m]];
      assert BlockCopies(cpu, npu, size, 0, hi)
        == BlockCopies(cpu, npu, size, 0, lo) + BlockCopies(cpu, npu, size, lo, hi);
    }
  }

  // ----- All tensors, layers and batches of one request --------------------------------------

  /** The host pool: tensor `k` lies at `base[k]` as [layer][block] slices of `size[k]` bytes. */
  datatype Pool = Pool(base: seq<int>, size: seq<nat>, numBlocks: nat)

  /** What one request copies: host block `ids[i]` of pool layer `layers[l]` and tensor `k` goes to
      device address `npu[i][l][k]`. */
  datatype Transfer = Transfer(pool: Pool, ids: seq<nat>, npu: seq<seq<seq<int>>>, layers: seq<nat>)

  ghost predicate Shaped(t: Transfer) {
    && |t.ids| == |t.npu| && |t.pool.base| == |t.pool.size|
    && forall i :: 0 <= i < |t.npu| ==>
         |t.npu[i]| == |t.layers| && forall l :: 0 <= l < |t.layers| ==> |t.npu[i][l]| == |t.pool.base|
  }

  predicate InPool(t: Transfer, lo: nat, hi: nat)
    requires lo <= hi <= |t.ids|
  {
    forall i :: lo <= i < hi ==> t.ids[i] < t.pool.numBlocks
  }

  predicate Index(t: Transfer, i: int, l: int, k: int) {
    0 <= i < |t.ids| && 0 <= l < |t.layers| && 0 <= k < |t.pool.base|
  }

  function CopyOf(t: Transfer, i: int, l: int, k: int): Copy
    requires Shaped(t) && Index(t, i, l, k)
  {
    Copy(t.npu[i][l][k],
         t.pool.base[k] + (t.layers[l] * t.pool.numBlocks + t.ids[i]) * t.pool.size[k],
         t.pool.size[k])
  }

  /** The copies of the blocks `lo .. hi` of one tensor and layer, one per block. */
  function OneLayer(t: Transfer, lo: nat, hi: nat, l: nat, k: nat): (r: seq<Copy>)
    requires Shaped(t) && lo <= hi <= |t.ids| && k < |t.pool.base| && l < |t.layers|
    ensures |r| == hi - lo && forall j :: 0 <= j < hi - lo ==> r[j] == CopyOf(t, lo + j, l, k)
  {
    seq(hi - lo, j requires 0 <= j < hi - lo => CopyOf(t, lo + j, l, k))
  }

  /** The copies of the blocks `lo .. hi`, for tensor `k` and the first `n` layers. */
  function LayerCopies(t: Transfer, lo: nat, hi: nat, k: int, n: nat): seq<Copy>
    requires Shaped(t) && lo <= hi <= |t.ids| && 0 <= k < |t.pool.base| && n <= |t.layers|
  {
    if n == 0 then []
    else LayerCopies(t, lo, hi, k, n - 1) + OneLayer(t, lo, hi, n - 1, k)
  }

  /** The same for the first `n` tensors. */
  function TensorCopies(t: Transfer, lo: nat, hi: nat, n: nat): seq<Copy>
    requires Shaped(t) && lo <= hi <= |t.ids| && n <= |t.pool.base|
  {
    if n == 0 then [] else TensorCopies(t, lo, hi, n - 1) + LayerCopies(t, lo, hi, n - 1, |t.layers|)
  }

  /** Exactly the copies of these blocks are listed. */
  ghost predicate Lists(t: Transfer, copies: seq<Copy>, lo: nat, hi: nat, kLo: nat, kHi: nat, n: nat)
    requires Shaped(t) && lo <= hi <= |t.ids| && kHi <= |t.pool.base| && n <= |t.layers|
  {
    && (forall i, l, k :: lo <= i < hi && 0 <= l < n && kLo <= k < kHi && Index(t, i, l, k) ==>
        CopyOf(t, i, l, k) in copies)
    && (forall c :: c in copies ==>
        exists i, l, k :: Index(t, i, l, k) && lo <= i < hi && l < n && kLo <= k < kHi && c == CopyOf(t, i, l, k))
  }

  lemma {:induction false} LayerCopiesList(t: Transfer, lo: nat, hi: nat, k: nat, n: nat)
    requires Shaped(t) && lo <= hi <= |t.ids| && k < |t.pool.base| && n <= |t.layers|
    ensures Lists(t, LayerCopies(t, lo, hi, k, n), lo, hi, k, k + 1, n)
  {
    if n > 0 {
      LayerCopiesList(t, lo, hi, k, n - 1);
      var before := LayerCopies(t, lo, hi, k, n - 1);
      var added := OneLayer(t, lo, hi, n - 1, k);
      forall i, l | lo <= i < hi && 0 <= l < n
        ensures CopyOf(t, i, l, k) in before + added
      {
        if l == n - 1 {
          assert added[i - lo] == CopyOf(t, i, l, k);
        } else {
          assert Index(t, i, l, k);
        }
      }
      forall c | c in added
        ensures exists i, l, k' :: Index(t, i, l, k') && lo <= i < hi && l < n && k <= k' < k + 1
                  && c == CopyOf(t, i, l, k')
      {
        var j :| 0 <= j < |added| && added[j] == c;
        assert Index(t, lo + j, n - 1, k);
      }
    }
  }

  lemma {:induction false} TensorCopiesList(t: Transfer, lo: nat, hi: nat, n: nat)
    requires Shaped(t) && lo <= hi <= |t.ids| && n <= |t.pool.base|
    ensures Lists(t, TensorCopies(t, lo, hi, n), lo, hi, 0, n, |t.layers|)
  {
    hide CopyOf, LayerCopies;
    if n > 0 {
      TensorCopiesList(t, lo, hi, n - 1);
      LayerCopiesList(t, lo, hi, n - 1, |t.layers|);
      ListsNextTensor(t, TensorCopies(t, lo, hi, n - 1), LayerCopies(t, lo, hi, n - 1, |t.layers|), lo, hi, n - 1);
    }
  }

  lemma ListsNextTensor(t: Transfer, x: seq<Copy>, y: seq<Copy>, lo: nat, hi: nat, n: nat)
    requires Shaped(t) && lo <= hi <= |t.ids| && n < |t.pool.base|
    requires Lists(t, x, lo, hi, 0, n, |t.layers|) && Lists(t, y, lo, hi, n, n + 1, |t.layers|)
    ensures Lists(t, x + y, lo, hi, 0, n + 1, |t.layers|)
  {
    hide CopyOf;
  }

  lemma ListsConcat(t: Transfer, x: seq<Copy>, y: seq<Copy>, lo: nat, mid: nat, hi: nat)
    requires Shaped(t) && lo <= mid <= hi <= |t.ids|
    requires Lists(t, x, lo, mid, 0, |t.pool.base|, |t.layers|)
    requires Lists(t, y, mid, hi, 0, |t.pool.base|, |t.layers|)
    ensures Lists(t, x + y, lo, hi, 0, |t.pool.base|, |t.layers|)
  {
    hide CopyOf;
  }

  /** The merged copies of one tensor and layer. */
  method MergeLayer(t: Transfer, lo: nat, hi: nat, l: nat, k: nat) returns (runs: seq<Copy>)
    requires Shaped(t) && lo <= hi <= |t.ids| && k < |t.pool.base| && l < |t.layers|
    ensures SameEffect(runs, OneLayer(t, lo, hi, l, k))
  {
    var n := hi - lo;
    var cpu := seq(n, j requires 0 <= j < n => CopyOf(t, lo + j, l, k).src);
    var npu := seq(n, j requires 0 <= j < n => t.npu[lo + j][l][k]);
    ghost var cuts;
    runs, cuts := MergeRuns(cpu, npu, t.pool.size[k]);
    MergedRefines(cpu, npu, t.pool.size[k], runs, cuts, n);
    assert BlockCopies(cpu, npu, t.pool.size[k], 0, n) == OneLayer(t, lo, hi, l, k);
  }

  method MergeLayers(t: Transfer, lo: nat, hi: nat, k: nat) returns (copies: seq<Copy>)
    requires Shaped(t) && lo <= hi <= |t.ids| && k < |t.pool.base|
    ensures SameEffect(copies, LayerCopies(t, lo, hi, k, |t.layers|))
  {
    copies := [];
    var l := 0;
    while l < |t.layers|
      invariant 0 <= l <= |t.layers|
      invariant SameEffect(copies, LayerCopies(t, lo, hi, k, l))
    {
      var runs := MergeLayer(t, lo, hi, l, k);
      SameEffectConcat(copies, LayerCopies(t, lo, hi, k, l), runs, OneLayer(t, lo, hi, l, k));
      copies := copies + runs;
      l := l + 1;
    }
  }

  /** One call of the merging copy on the blocks `lo .. hi` of the request: the list handed to the
      batch copy routine.  `ok` is false for Python's IndexError on a block outside the pool or on
      an empty slice. */
  method BatchLayerCopy(t: Transfer, lo: nat, hi: nat) returns (ok: bool, copies: seq<Copy>)
    requires Shaped(t) && lo <= hi <= |t.ids|
    ensures ok <==> lo < hi && InPool(t, lo, hi)
    ensures ok ==> SameEffect(copies, TensorCopies(t, lo, hi, |t.pool.base|))
  {
    copies := [];
    if lo == hi || !InPool(t, lo, hi) {
      return false, copies;
    }
    var k := 0;
    while k < |t.pool.base|
      invariant 0 <= k <= |t.pool.base|
      invariant SameEffect(copies, TensorCopies(t, lo, hi, k))
    {
      var layers := MergeLayers(t, lo, hi, k);
      SameEffectConcat(copies, TensorCopies(t, lo, hi, k), layers, LayerCopies(t, lo, hi, k, |t.layers|));
      copies := copies + layers;
      k := k + 1;
    }
    ok := true;
  }

  class Device {
    var content: int -> Cell

    /** The device's batch copy routine. */
    method MemcpyBatch(copies: seq<Copy>, host: int -> Cell)
      modifies this
      ensures forall a :: content(a) == At(copies, a, old(content)(a), host)
    {
      var before := content;
      content := a => At(copies, a, before(a), host);
    }
  }

  /** The address is in the device place of block `i`, layer `l` and tensor `k`. */
  predicate InPlace(t: Transfer, i: int, l: int, k: int, a: int)
    requires Shaped(t) && Index(t, i, l, k)
  {
    t.npu[i][l][k] <= a < t.npu[i][l][k] + t.pool.size[k]
  }

  /** Different blocks, layers and tensors have different places on the device. */
  ghost predicate Separate(t: Transfer)
    requires Shaped(t)
  {
    forall i, l, k, i', l', k', a ::
      Index(t, i, l, k) && Index(t, i', l', k') && InPlace(t, i, l, k, a) && InPlace(t, i', l', k', a)
      ==> i == i' && l == l' && k == k'
  }

  /** The address belongs to no block, layer and tensor of the transfer. */
  ghost predicate Outside(t: Transfer, a: int)
    requires Shaped(t)
  {
    forall i, l, k :: Index(t, i, l, k) ==> !InPlace(t, i, l, k, a)
  }

  /** The contents of a host pool: `kv(k, layer, block, x)` is byte `x` of a block of a layer of tensor `k`. */
  type Contents = (nat, nat, nat, nat) -> Cell

  /** Tensor `k` lies at `base[k]`: layer by layer, each layer block by block. */
  ghost predicate LaidOut(pool: Pool, kv: Contents, host: int -> Cell)
    requires |pool.base| == |pool.size|
  {
    forall k: nat, layer: nat, block: nat, x: nat ::
      k < |pool.base| && block < pool.numBlocks && x < pool.size[k] ==>
        host(pool.base[k] + layer * (pool.numBlocks * pool.size[k]) + block * pool.size[k] + x)
        == kv(k, layer, block, x)
  }

  /** Every block of the request is on the device, in all its layers and tensors. */
  ghost predicate Loaded(t: Transfer, kv: Contents, content: int -> Cell)
    requires Shaped(t)
  {
    forall i, l, k, x :: Index(t, i, l, k) && 0 <= x < t.pool.size[k] ==>
      content(t.npu[i][l][k] + x) == kv(k, t.layers[l], t.ids[i], x)
  }

  /** The device memory after copying every block of the request, in whatever order. */
  ghost predicate EveryBlockCopied(t: Transfer, host: int -> Cell, before: int -> Cell, after: int -> Cell)
    requires Shaped(t)
  {
    && (forall i, l, k, a :: Index(t, i, l, k) && InPlace(t, i, l, k, a)
          ==> after(a) == host(CopyOf(t, i, l, k).src + a - CopyOf(t, i, l, k).dst))
    && (forall a :: Outside(t, a) ==> after(a) == before(a))
  }

  /** Copying some of the blocks leaves everything outside the transfer alone. */
  lemma OutsideUntouched(t: Transfer, copies: seq<Copy>, n: nat, host: int -> Cell, before: int -> Cell,
                         after: int -> Cell)
    requires Shaped(t) && n <= |t.ids| && Lists(t, copies, 0, n, 0, |t.pool.base|, |t.layers|)
    requires forall a :: after(a) == At(copies, a, before(a), host)
    ensures forall a :: Outside(t, a) ==> after(a) == before(a)
  {
    forall a | Outside(t, a) ensures after(a) == before(a) {
      forall c | c in copies ensures !Covers(c, a) {
        var i, l, k :| Index(t, i, l, k) && c == CopyOf(t, i, l, k);
      }
      AtUncovered(copies, a, before(a), host);
    }
  }

  lemma ListedCopiesSuffice(t: Transfer, copies: seq<Copy>, host: int -> Cell, before: int -> Cell, after: int -> Cell)
    requires Shaped(t) && Separate(t)
    requires Lists(t, copies, 0, |t.ids|, 0, |t.pool.base|, |t.layers|)
    requires forall a :: after(a) == At(copies, a, before(a), host)
    ensures EveryBlockCopied(t, host, before, after)
  {
    hide At;
    forall i, l, k, a | Index(t, i, l, k) && InPlace(t, i, l, k, a)
      ensures after(a) == host(CopyOf(t, i, l, k).src + a - CopyOf(t, i, l, k).dst)
    {
      forall c | c in copies && Covers(c, a) ensures c == CopyOf(t, i, l, k) {
        var i', l', k' :| Index(t, i', l', k') && c == CopyOf(t, i', l', k');
        assert InPlace(t, i', l', k', a);
      }
      AtUnique(copies, CopyOf(t, i, l, k), a, before(a), host);
    }
    OutsideUntouched(t, copies, |t.ids|, host, before, after);
  }

  /** The copies read the requested layers and blocks of the pool. */
  lemma CopiedIsLoaded(t: Transfer, kv: Contents, host: int -> Cell, before: int -> Cell, after: int -> Cell)
    requires Shaped(t) && InPool(t, 0, |t.ids|) && LaidOut(t.pool, kv, host)
    requires EveryBlockCopied(t, host, before, after)
    ensures Loaded(t, kv, after)
  {
    forall i, l, k, x | Index(t, i, l, k) && 0 <= x < t.pool.size[k]
      ensures after(t.npu[i][l][k] + x) == kv(k, t.layers[l], t.ids[i], x)
    {
      assert InPlace(t, i, l, k, t.npu[i][l][k] + x);
      Spread(t.layers[l] * t.pool.numBlocks, t.ids[i], t.pool.size[k]);
      MulAssoc(t.layers[l], t.pool.numBlocks, t.pool.size[k], 0);
    }
  }

  lemma ExtendEffect(inOrder: seq<Copy>, copies: seq<Copy>, list: seq<Copy>,
                     before: int -> Cell, was: int -> Cell, after: int -> Cell, host: int -> Cell)
    requires SameEffect(copies, list)
    requires forall a :: was(a) == At(inOrder, a, before(a), host)
    requires forall a :: after(a) == At(copies, a, was(a), host)
    ensures forall a :: after(a) == At(inOrder + list, a, before(a), host)
  {
    forall a
      ensures after(a) == At(inOrder + list, a, before(a), host)
    {
      AtConcat(inOrder, list, a, before(a), host);
      assert At(copies, a, was(a), host) == At(list, a, was(a), host);
    }
  }

  /** The transfer of one request in batches of `batch` blocks: 50 with sparse attention, else 20. */
  method SynchronizeH2D(device: Device, host: int -> Cell, t: Transfer, batch: nat)
    returns (ok: bool, ghost inOrder: seq<Copy>)
    requires Shaped(t) && batch > 0
    modifies device
    ensures ok <==> InPool(t, 0, |t.ids|)
    ensures ok ==> Lists(t, inOrder, 0, |t.ids|, 0, |t.pool.base|, |t.layers|)
    ensures ok ==> forall a :: device.content(a) == At(inOrder, a, old(device.content)(a), host)
    ensures ok && Separate(t) ==> EveryBlockCopied(t, host, old(device.content), device.content)
    ensures ok && Separate(t) ==>
              forall kv: Contents :: LaidOut(t.pool, kv, host) ==> Loaded(t, kv, device.content)
    ensures forall a :: Outside(t, a) ==> device.content(a) == old(device.content)(a)
  {
    inOrder := [];
    ghost var before := device.content;
    var total := |t.ids|;
    ghost var done: nat := 0;
    var idx := 0;
    while idx < (total + batch - 1) / batch
      invariant 0 <= idx <= (total + batch - 1) / batch
      invariant done == if idx * batch > total then total else idx * batch
      invariant InPool(t, 0, done) && Lists(t, inOrder, 0, done, 0, |t.pool.base|, |t.layers|)
      invariant forall a :: device.content(a) == At(inOrder, a, before(a), host)
    {
      BatchBounds(idx, batch, total);
      var start := idx * batch;
      var end := if (idx + 1) * batch > total then total else (idx + 1) * batch;
      var copies;
      ok, copies := BatchLayerCopy(t, start, end);
      if !ok {
        OutsideUntouched(t, inOrder, done, host, before, device.content);
        return;
      }
      ghost var list := TensorCopies(t, start, end, |t.pool.base|);
      ghost var was := device.content;
      device.MemcpyBatch(copies, host);
      ExtendEffect(inOrder, copies, list, before, was, device.content, host);
      TensorCopiesList(t, start, end, |t.pool.base|);
      ListsConcat(t, inOrder, list, 0, start, end);
      inOrder, done := inOrder + list, end;
      idx := idx + 1;
    }
    AllBatches(batch, total);
    ok := true;
    OutsideUntouched(t, inOrder, total, host, before, device.content);
    if Separate(t) {
      ListedCopiesSuffice(t, inOrder, host, before, device.content);
      forall kv: Contents | LaidOut(t.pool, kv, host) ensures Loaded(t, kv, device.content) {
        CopiedIsLoaded(t, kv, host, before, device.content);
      }
    }
  }

  lemma BatchBounds(idx: nat, batch: nat, total: nat)
    requires batch > 0 && idx < (total + batch - 1) / batch
    ensures idx * batch < total && (idx + 1) * batch == idx * batch + batch
  {
    var q := (total + batch - 1) / batch;
    assert (idx + 1) * batch <= q * batch;
  }

  lemma AllBatches(batch: nat, total: nat)
    requires batch > 0
    ensures ((total + batch - 1) / batch) * batch >= total
  {
  }
}

/** The host-to-device copy of one request with full-attention and windowed layers
    (omni/accelerators/cache/omni_cache.py, DecodeOmniCache.synchronize_h2d_omni_attn).
 */
module HybridTransfer {
  import opened MergedCopy
  import Window = SinkRecentWindow

  const BATCH: nat := 20

  /** BadTables is either RuntimeError, OutsidePool the IndexError for a block that is not in the pool. */
  datatype Outcome = BadTables | OutsidePool | Copied

  /** Host block `src[i]` of the listed layers goes to device block `tgt[i]`; `place` gives the device
      address of a layer's block in a tensor. */
  function TransferFor(pool: Pool, src: seq<nat>, tgt: seq<nat>, layers: seq<nat>,
                       place: (nat, nat, nat) -> int): (t: Transfer)
    requires |src| == |tgt| && |pool.base| == |pool.size|
    ensures Shaped(t) && t.pool == pool && t.ids == src && t.layers == layers
    ensures forall i, l, k :: Index(t, i, l, k) ==> t.npu[i][l][k] == place(layers[l], k, tgt[i])
  {
    Transfer(pool, src,
             seq(|tgt|, i requires 0 <= i < |tgt| =>
               seq(|layers|, l requires 0 <= l < |layers| =>
                 seq(|pool.base|, k requires 0 <= k < |pool.base| => place(layers[l], k, tgt[i])))),
             layers)
  }

  /** The block tables of a request: all blocks, and the sink and recent blocks of the windowed layers. */
  datatype Request = Request(pool: Pool, spec: Window.Spec, tables: seq<seq<nat>>, fullLayers: seq<nat>,
                             omniLayers: seq<nat>)

  predicate Valid(r: Request) { Window.Sized(r.spec) && |r.pool.base| == |r.pool.size| }

  predicate GoodTables(r: Request) { |r.tables| == 2 && |r.tables[1]| == Window.MaxBlocks(r.spec) }

  function FullTransfer(r: Request, place: (nat, nat, nat) -> int): (t: Transfer)
    requires Valid(r) && GoodTables(r)
    ensures Shaped(t) && t.layers == r.fullLayers && t.pool == r.pool && t.ids == r.tables[0]
    ensures forall i, l, k :: Index(t, i, l, k) ==> t.npu[i][l][k] == place(r.fullLayers[l], k, r.tables[0][i])
  {
    TransferFor(r.pool, r.tables[0], r.tables[0], r.fullLayers, place)
  }

  /** The sink blocks and the most recent blocks of the host go to the window's blocks. */
  function OmniTransfer(r: Request, place: (nat, nat, nat) -> int): (t: Transfer)
    requires Valid(r) && GoodTables(r)
    ensures Shaped(t) && t.layers == r.omniLayers && t.pool == r.pool
    ensures |t.ids| == if |r.tables[0]| < Window.MaxBlocks(r.spec) then |r.tables[0]| else Window.MaxBlocks(r.spec)
    ensures forall i :: 0 <= i < |t.ids| ==>
              && Window.SourceIndex(r.spec, |r.tables[0]|, i) < |r.tables[0]|
              && t.ids[i] == r.tables[0][Window.SourceIndex(r.spec, |r.tables[0]|, i)]
    ensures forall i, l, k :: Index(t, i, l, k) ==> t.npu[i][l][k] == place(r.omniLayers[l], k, r.tables[1][i])
  {
    Window.PulledBlocksMatch(r.spec, r.tables[0], r.tables[1]);
    var (from, to) := Window.PullBlocks(r.spec, r.tables[0], r.tables[1]).value;
    TransferFor(r.pool, from, to, r.omniLayers, place)
  }

  /** Blocks of full and of windowed layers have different places on the device. */
  ghost predicate Apart(x: Transfer, y: Transfer)
    requires Shaped(x) && Shaped(y)
  {
    forall i, l, k, i', l', k', a ::
      Index(x, i, l, k) && Index(y, i', l', k') && InPlace(x, i, l, k, a) ==> !InPlace(y, i', l', k', a)
  }

  /** What the first transfer has loaded stays when the second one is elsewhere. */
  lemma StaysLoaded(x: Transfer, y: Transfer, kv: Contents, mid: int -> Cell, after: int -> Cell)
    requires Shaped(x) && Shaped(y) && Apart(x, y) && Loaded(x, kv, mid)
    requires forall a :: Outside(y, a) ==> after(a) == mid(a)
    ensures Loaded(x, kv, after)
  {
    forall i, l, k, b | Index(x, i, l, k) && 0 <= b < x.pool.size[k]
      ensures after(x.npu[i][l][k] + b) == kv(k, x.layers[l], x.ids[i], b)
    {
      var a := x.npu[i][l][k] + b;
      assert InPlace(x, i, l, k, a);
      assert Outside(y, a);
    }
  }

  /** The full layers hold every block of the request. */
  ghost predicate FullLoaded(r: Request, place: (nat, nat, nat) -> int, kv: Contents, content: int -> Cell)
    requires Valid(r) && GoodTables(r)
  {
    forall i, l, k, b ::
      0 <= i < |r.tables[0]| && 0 <= l < |r.fullLayers| && 0 <= k < |r.pool.base| && 0 <= b < r.pool.size[k] ==>
        content(place(r.fullLayers[l], k, r.tables[0][i]) + b) == kv(k, r.fullLayers[l], r.tables[0][i], b)
  }

  /** Window block `i` belongs to the request's block `i` if it is a sink or the request fits, and else to a
      most recent one. */
  function WindowBlock(r: Request, i: nat): (b: nat)
    requires GoodTables(r) && i < |r.tables[0]| && i < Window.MaxBlocks(r.spec)
    ensures b < |r.tables[0]|
  {
    var m, n := |r.tables[0]|, Window.MaxBlocks(r.spec);
    if i < r.spec.sinkBlocks || m <= n then i else m - n + i
  }

  ghost predicate WindowHolds(r: Request, place: (nat, nat, nat) -> int, kv: Contents, content: int -> Cell,
                              i: nat, l: nat, k: nat)
    requires Valid(r) && GoodTables(r) && i < |r.tables[0]| && i < Window.MaxBlocks(r.spec)
    requires l < |r.omniLayers| && k < |r.pool.base|
  {
    var layer := r.omniLayers[l];
    forall b :: 0 <= b < r.pool.size[k] ==>
      content(place(layer, k, r.tables[1][i]) + b) == kv(k, layer, r.tables[0][WindowBlock(r, i)], b)
  }

  /** The windowed layers hold the sink blocks and the most recent ones. */
  ghost predicate OmniLoaded(r: Request, place: (nat, nat, nat) -> int, kv: Contents, content: int -> Cell)
    requires Valid(r) && GoodTables(r)
  {
    forall i: nat, l: nat, k: nat ::
      i < |r.tables[0]| && i < Window.MaxBlocks(r.spec) && l < |r.omniLayers| && k < |r.pool.base| ==>
        WindowHolds(r, place, kv, content, i, l, k)
  }

  lemma FullIsLoaded(r: Request, place: (nat, nat, nat) -> int, kv: Contents, content: int -> Cell)
    requires Valid(r) && GoodTables(r) && Loaded(FullTransfer(r, place), kv, content)
    ensures FullLoaded(r, place, kv, content)
  {
    var x := FullTransfer(r, place);
    forall i, l, k, b |
      0 <= i < |r.tables[0]| && 0 <= l < |r.fullLayers| && 0 <= k < |r.pool.base| && 0 <= b < r.pool.size[k]
      ensures content(place(r.fullLayers[l], k, r.tables[0][i]) + b) == kv(k, r.fullLayers[l], r.tables[0][i], b)
    {
      assert Index(x, i, l, k) && x.npu[i][l][k] == place(r.fullLayers[l], k, r.tables[0][i]);
    }
  }

  lemma OmniIsLoaded(r: Request, place: (nat, nat, nat) -> int, kv: Contents, content: int -> Cell)
    requires Valid(r) && GoodTables(r) && Loaded(OmniTransfer(r, place), kv, content)
    ensures OmniLoaded(r, place, kv, content)
  {
    var y := OmniTransfer(r, place);
    forall i: nat, l: nat, k: nat |
      i < |r.tables[0]| && i < Window.MaxBlocks(r.spec) && l < |r.omniLayers| && k < |r.pool.base|
      ensures WindowHolds(r, place, kv, content, i, l, k)
    {
      assert Index(y, i, l, k) && y.npu[i][l][k] == place(r.omniLayers[l], k, r.tables[1][i]);
      assert y.ids[i] == r.tables[0][WindowBlock(r, i)];
      hide OmniTransfer, WindowBlock;
    }
  }

  /** Both groups are copied one after the other.  The second table is left as the caller finds it
      afterwards: cut to the length of the first when that is shorter than a window. */
  method SynchronizeH2DOmniAttn(device: Device, host: int -> Cell, r: Request, place: (nat, nat, nat) -> int)
    returns (outcome: Outcome, tables: seq<seq<nat>>)
    requires Valid(r)
    modifies device
    ensures outcome.BadTables? <==> !GoodTables(r)
    ensures outcome.BadTables? ==> device.content == old(device.content) && tables == r.tables
    ensures !outcome.BadTables? ==>
              var m, n := |r.tables[0]|, Window.MaxBlocks(r.spec);
              tables == [r.tables[0], if m < n then r.tables[1][..m] else r.tables[1]]
    ensures GoodTables(r) ==>
              var x, y := FullTransfer(r, place), OmniTransfer(r, place);
              && (outcome.Copied? <==> InPool(x, 0, |x.ids|) && InPool(y, 0, |y.ids|))
              && (outcome.Copied? && Separate(x) && Separate(y) && Apart(x, y) ==>
                    forall kv: Contents :: LaidOut(r.pool, kv, host) ==>
                      FullLoaded(r, place, kv, device.content) && OmniLoaded(r, place, kv, device.content))
              && (forall a :: Outside(x, a) && Outside(y, a) ==> device.content(a) == old(device.content)(a))
  {
    tables := r.tables;
    if |r.tables| != 2 || |r.tables[1]| != Window.MaxBlocks(r.spec) {
      return BadTables, tables;
    }
    if |r.tables[0]| < Window.MaxBlocks(r.spec) {
      tables := [r.tables[0], r.tables[1][..|r.tables[0]|]];
    }
    var x, y := FullTransfer(r, place), OmniTransfer(r, place);
    var ok, _ := SynchronizeH2D(device, host, x, BATCH);
    if !ok {
      return OutsidePool, tables;
    }
    ghost var mid := device.content;
    var ok', _ := SynchronizeH2D(device, host, y, BATCH);
    if !ok' {
      return OutsidePool, tables;
    }
    if Separate(x) && Separate(y) && Apart(x, y) {
      forall kv: Contents | LaidOut(r.pool, kv, host)
        ensures FullLoaded(r, place, kv, device.content) && OmniLoaded(r, place, kv, device.content)
      {
        StaysLoaded(x, y, kv, mid, device.content);
        FullIsLoaded(r, place, kv, device.content);
        OmniIsLoaded(r, place, kv, device.content);
      }
    }
    return Copied, tables;
  }
}

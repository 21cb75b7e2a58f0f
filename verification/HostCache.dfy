/** The prefill host cache that is sharded over nodes and ranks
    (omni/accelerators/cache/omni_cache.py, PrefillOmniCache).

    A node keeps `nodeRows` of the rows of every block, and each of its 16 ranks writes its own
    `rankRows` of them.  To load blocks back, each rank reads an equal share of its node's rows, the
    shares are gathered over all ranks, and the node dimension is moved inside the block.
 */
module HostCache {
  import opened Arith
  import opened Wrappers

  const DIES_PER_NODE: nat := 16

  /** `rankRows` rows of every block belong to each of the `16 * nodes` ranks. */
  datatype Layout = Layout(nodes: nat, rankRows: nat)

  predicate Valid(l: Layout) { l.nodes > 0 && l.rankRows > 0 }

  function World(l: Layout): nat { l.nodes * DIES_PER_NODE }

  function NodeRows(l: Layout): nat { DIES_PER_NODE * l.rankRows }

  function BlockSize(l: Layout): nat { l.nodes * NodeRows(l) }

  /** The three divisions that raise when they leave a remainder. */
  function CalcCacheShape(tpWorldSize: nat, blockSize: nat): (r: Option<Layout>)
    requires tpWorldSize > 0 && blockSize > 0
    ensures r.Some? <==> tpWorldSize % DIES_PER_NODE == 0 && blockSize % tpWorldSize == 0
    ensures r.Some? ==> Valid(r.value) && World(r.value) == tpWorldSize && BlockSize(r.value) == blockSize
    ensures r.Some? ==> NodeRows(r.value) == blockSize / r.value.nodes
  {
    if tpWorldSize % DIES_PER_NODE != 0 then None
    else
      var nnodes := tpWorldSize / DIES_PER_NODE;
      ShapeDivisions(tpWorldSize, blockSize, nnodes);
      if blockSize % nnodes != 0 then None
      else if blockSize % tpWorldSize != 0 then None
      else Some(Layout(nnodes, blockSize / tpWorldSize))
  }

  lemma ShapeDivisions(w: nat, b: nat, n: nat)
    requires n > 0 && w == n * DIES_PER_NODE && b > 0
    ensures b % w == 0 ==>
              b % n == 0 && b / w > 0 && n * (DIES_PER_NODE * (b / w)) == b && b / n == DIES_PER_NODE * (b / w)
  {
    if b % w == 0 {
      var q := b / w;
      assert b == q * w;
      assert q * w == (DIES_PER_NODE * q) * n;
      DivModUnique(b, DIES_PER_NODE * q, n, 0);
    }
  }

  // ----- Where a token is stored -----------------------------------------------------------------

  /** The rank that stores the token with this slot. */
  function RankOf(l: Layout, slot: int): int
    requires Valid(l)
  {
    slot % BlockSize(l) / l.rankRows
  }

  /** The row of the node's cache that it is stored in. */
  function HostRow(l: Layout, slot: int): int
    requires Valid(l)
  {
    slot / BlockSize(l) * NodeRows(l) + slot % BlockSize(l) % NodeRows(l)
  }

  function NodeOf(rank: int): int { rank / DIES_PER_NODE }

  /** Every slot has one owner, on the node that keeps this part of the block. */
  lemma OwnerOfSlot(l: Layout, slot: int)
    requires Valid(l)
    ensures 0 <= RankOf(l, slot) < World(l)
    ensures NodeOf(RankOf(l, slot)) == slot % BlockSize(l) / NodeRows(l)
    ensures 0 <= NodeOf(RankOf(l, slot)) < l.nodes
  {
    var off := slot % BlockSize(l);
    assert BlockSize(l) == World(l) * l.rankRows;
    DivBound(off, l.rankRows, World(l));
    DivDiv(off, l.rankRows, DIES_PER_NODE);
    DivBound(off, NodeRows(l), l.nodes);
  }

  /** No two slots of a node share a row. */
  lemma HostRowsDistinct(l: Layout, a: int, b: int)
    requires Valid(l) && a != b
    requires NodeOf(RankOf(l, a)) == NodeOf(RankOf(l, b))
    ensures HostRow(l, a) != HostRow(l, b)
  {
    OwnerOfSlot(l, a);
    OwnerOfSlot(l, b);
    var size, n := BlockSize(l), NodeRows(l);
    var x, y := a % size, b % size;
    DivParts(a, size);
    DivParts(b, size);
    DivParts(x, n);
    DivParts(y, n);
    if HostRow(l, a) == HostRow(l, b) {
      RowUnique(a / size, x % n, b / size, y % n, n);
    }
  }

  /** The token of offset `node * nodeRows + r` of a block is row `r` of that block on that node. */
  lemma HostRowOf(l: Layout, block: int, off: nat)
    requires Valid(l) && off < BlockSize(l)
    ensures HostRow(l, block * BlockSize(l) + off) == block * NodeRows(l) + off % NodeRows(l)
    ensures NodeOf(RankOf(l, block * BlockSize(l) + off)) == off / NodeRows(l)
  {
    RowSplit(block, off, BlockSize(l));
    OwnerOfSlot(l, block * BlockSize(l) + off);
  }

  // ----- Storing ---------------------------------------------------------------------------------

  /** Rank `rank` stores token `i`; slots of padding and of block 0's first row are skipped. */
  predicate Selected(l: Layout, slots: seq<int>, rank: int, i: int)
    requires Valid(l)
  {
    0 <= i < |slots| && RankOf(l, slots[i]) == rank && slots[i] > 0
  }

  /** The token indices that the rank stores, in order. */
  function TokenIndices(l: Layout, slots: seq<int>, rank: int, n: nat): (r: seq<nat>)
    requires Valid(l) && n <= |slots|
    ensures forall k :: 0 <= k < |r| ==> r[k] < n && Selected(l, slots, rank, r[k])
    ensures forall j, k :: 0 <= j < k < |r| ==> r[j] < r[k]
    ensures forall i :: 0 <= i < n && Selected(l, slots, rank, i) ==> i in r
  {
    if n == 0 then []
    else TokenIndices(l, slots, rank, n - 1) + (if Selected(l, slots, rank, n - 1) then [n - 1] else [])
  }

  ghost predicate DistinctSlots(slots: seq<int>) {
    forall i, j :: 0 <= i < j < |slots| && slots[i] > 0 && slots[j] > 0 ==> slots[i] != slots[j]
  }

  ghost predicate InHost(l: Layout, slots: seq<int>, size: nat)
    requires Valid(l)
  {
    forall i :: 0 <= i < |slots| && slots[i] > 0 ==> 0 <= HostRow(l, slots[i]) < size
  }

  /** What one rank does to its node's cache. */
  ghost predicate Stores<T>(l: Layout, slots: seq<int>, rows: seq<T>, rank: int, before: seq<T>, after: seq<T>)
    requires Valid(l) && |rows| == |slots| && InHost(l, slots, |before|)
  {
    && |after| == |before|
    && (forall i :: Selected(l, slots, rank, i) ==> after[HostRow(l, slots[i])] == rows[i])
    && (forall r :: 0 <= r < |after| && (forall i :: Selected(l, slots, rank, i) ==> HostRow(l, slots[i]) != r)
          ==> after[r] == before[r])
  }

  /** Selecting the rank's tokens and writing them to the node's shared memory. */
  method StoreTokens<T>(l: Layout, host: array<T>, slots: seq<int>, rows: seq<T>, rank: nat)
    requires Valid(l) && |rows| == |slots| && DistinctSlots(slots) && InHost(l, slots, host.Length)
    modifies host
    ensures Stores(l, slots, rows, rank, old(host[..]), host[..])
  {
    var tokenIdx := TokenIndices(l, slots, rank, |slots|);
    forall j, k | 0 <= j < k < |tokenIdx|
      ensures HostRow(l, slots[tokenIdx[j]]) != HostRow(l, slots[tokenIdx[k]])
    {
      HostRowsDistinct(l, slots[tokenIdx[j]], slots[tokenIdx[k]]);
    }
    forall k | 0 <= k < |tokenIdx| {
      host[HostRow(l, slots[tokenIdx[k]])] := rows[tokenIdx[k]];
    }
    forall i | Selected(l, slots, rank, i)
      ensures host[HostRow(l, slots[i])] == rows[i]
    {
      assert i in tokenIdx;
    }
  }

  /** The ranks of a node write one after the other in any order; `hosts` are the states between. */
  ghost predicate StoredInOrder<T>(l: Layout, slots: seq<int>, rows: seq<T>, node: int, order: seq<int>,
                                   hosts: seq<seq<T>>)
    requires Valid(l) && |rows| == |slots|
  {
    && |hosts| == |order| + 1
    && (forall k :: 0 <= k < |hosts| ==> |hosts[k]| == |hosts[0]| && InHost(l, slots, |hosts[k]|))
    && (forall k :: 0 <= k < |order| ==> NodeOf(order[k]) == node)
    && (forall k :: 0 <= k < |order| ==> Stores(l, slots, rows, order[k], hosts[k], hosts[k + 1]))
  }

  /** After all its ranks have written, the node holds every token of its part of the slots. */
  lemma {:induction false} StoredForGood<T>(l: Layout, slots: seq<int>, rows: seq<T>, node: int, order: seq<int>,
                                            hosts: seq<seq<T>>, i: nat)
    requires Valid(l) && |rows| == |slots| && DistinctSlots(slots)
    requires StoredInOrder(l, slots, rows, node, order, hosts)
    requires i < |slots| && slots[i] > 0 && RankOf(l, slots[i]) in order
    ensures 0 <= HostRow(l, slots[i]) < |hosts[|order|]| && hosts[|order|][HostRow(l, slots[i])] == rows[i]
    decreases |order|
  {
    var m := |order| - 1;
    var last := order[m];
    assert Stores(l, slots, rows, last, hosts[m], hosts[m + 1]);
    if RankOf(l, slots[i]) == last {
      assert Selected(l, slots, last, i);
    } else {
      StoredForGood(l, slots, rows, node, order[..m], hosts[..m + 1], i);
      forall j | Selected(l, slots, last, j)
        ensures HostRow(l, slots[j]) != HostRow(l, slots[i])
      {
        var k :| 0 <= k < |order| && order[k] == RankOf(l, slots[i]);
        HostRowsDistinct(l, slots[i], slots[j]);
      }
    }
  }

  /** A token of an earlier step stays while other slots are written. */
  lemma {:induction false} OtherTokensStay<T>(l: Layout, slots: seq<int>, rows: seq<T>, node: int, order: seq<int>,
                                              hosts: seq<seq<T>>, slot: int)
    requires Valid(l) && |rows| == |slots| && StoredInOrder(l, slots, rows, node, order, hosts)
    requires NodeOf(RankOf(l, slot)) == node && slot !in slots && 0 <= HostRow(l, slot) < |hosts[0]|
    ensures 0 <= HostRow(l, slot) < |hosts[|order|]| && hosts[|order|][HostRow(l, slot)] == hosts[0][HostRow(l, slot)]
    decreases |order|
  {
    hide RankOf, HostRow, NodeOf;
    if order != [] {
      var m := |order| - 1;
      OtherTokensStay(l, slots, rows, node, order[..m], hosts[..m + 1], slot);
      assert Stores(l, slots, rows, order[m], hosts[m], hosts[m + 1]);
      forall j | Selected(l, slots, order[m], j)
        ensures HostRow(l, slots[j]) != HostRow(l, slot)
      {
        HostRowsDistinct(l, slot, slots[j]);
      }
    }
  }

  /** Slot 0, the first row of block 0, is never stored. */
  lemma SlotZeroIsNotStored<T>(l: Layout, slots: seq<int>, rows: seq<T>, rank: int, before: seq<T>, after: seq<T>)
    requires Valid(l) && |rows| == |slots| && InHost(l, slots, |before|) && |before| > 0
    requires Stores(l, slots, rows, rank, before, after) && NodeOf(rank) == 0
    ensures HostRow(l, 0) == 0 && after[0] == before[0]
  {
    HostRowOf(l, 0, 0);
    ModSmall(0, NodeRows(l));
    ModSmall(0, BlockSize(l));
    forall i | Selected(l, slots, rank, i)
      ensures HostRow(l, slots[i]) != 0
    {
      ZeroNode(l);
      HostRowsDistinct(l, 0, slots[i]);
    }
  }

  lemma ZeroNode(l: Layout)
    requires Valid(l)
    ensures NodeOf(RankOf(l, 0)) == 0
  {
    OwnerOfSlot(l, 0);
    ModSmall(0, BlockSize(l));
    ModSmall(0, NodeRows(l));
  }

  // ----- All nodes together --------------------------------------------------------------------------

  /** The token is in the row of the node that its slot stands for. */
  ghost predicate KeptToken<T>(l: Layout, hosts: seq<seq<T>>, slot: int, row: T)
    requires Valid(l)
  {
    var d, r := NodeOf(RankOf(l, slot)), HostRow(l, slot);
    0 <= d < |hosts| && 0 <= r < |hosts[d]| && hosts[d][r] == row
  }

  ghost predicate Kept<T>(l: Layout, hosts: seq<seq<T>>, slots: seq<int>, rows: seq<T>)
    requires Valid(l)
  {
    |rows| == |slots| && forall i :: 0 <= i < |slots| && slots[i] > 0 ==> KeptToken(l, hosts, slots[i], rows[i])
  }

  /** Every rank of every node writes, in any order within its node. */
  ghost predicate AllStored<T>(l: Layout, slots: seq<int>, rows: seq<T>, orders: seq<seq<int>>,
                               histories: seq<seq<seq<T>>>)
    requires Valid(l) && |rows| == |slots|
  {
    && |orders| == |histories| == l.nodes
    && (forall d :: 0 <= d < l.nodes ==> StoredInOrder(l, slots, rows, d, orders[d], histories[d]))
    && (forall rank :: 0 <= rank < World(l) ==> 0 <= NodeOf(rank) < l.nodes && rank in orders[NodeOf(rank)])
  }

  ghost function Final<T>(histories: seq<seq<seq<T>>>): (r: seq<seq<T>>)
    requires forall d :: 0 <= d < |histories| ==> |histories[d]| > 0
    ensures |r| == |histories| && forall d :: 0 <= d < |r| ==> r[d] == histories[d][|histories[d]| - 1]
  {
    seq(|histories|, d requires 0 <= d < |histories| => histories[d][|histories[d]| - 1])
  }

  lemma AllNodesKeep<T>(l: Layout, slots: seq<int>, rows: seq<T>, orders: seq<seq<int>>, histories: seq<seq<seq<T>>>)
    requires Valid(l) && |rows| == |slots| && DistinctSlots(slots) && AllStored(l, slots, rows, orders, histories)
    ensures forall d :: 0 <= d < |histories| ==> |histories[d]| > 0
    ensures Kept(l, Final(histories), slots, rows)
  {
    hide RankOf, HostRow, NodeOf, World, StoredInOrder;
    forall d | 0 <= d < |histories|
      ensures |histories[d]| == |orders[d]| + 1
    {
      HistoryLength(l, slots, rows, d, orders[d], histories[d]);
    }
    forall i | 0 <= i < |slots| && slots[i] > 0
      ensures KeptToken(l, Final(histories), slots[i], rows[i])
    {
      OwnerOfSlot(l, slots[i]);
      var d := NodeOf(RankOf(l, slots[i]));
      StoredForGood(l, slots, rows, d, orders[d], histories[d], i);
    }
  }

  lemma HistoryLength<T>(l: Layout, slots: seq<int>, rows: seq<T>, node: int, order: seq<int>, hosts: seq<seq<T>>)
    requires Valid(l) && |rows| == |slots| && StoredInOrder(l, slots, rows, node, order, hosts)
    ensures |hosts| == |order| + 1
  {
  }

  // ----- Many steps ------------------------------------------------------------------------------------

  /** One prefill step: its tokens, and the order in which the ranks of every node wrote them. */
  datatype StoreStep<T> = StoreStep(slots: seq<int>, rows: seq<T>, orders: seq<seq<int>>, histories: seq<seq<seq<T>>>)

  /** The step starts from these host caches and leaves those. */
  ghost predicate StepBetween<T>(l: Layout, before: seq<seq<T>>, step: StoreStep<T>, after: seq<seq<T>>)
    requires Valid(l)
  {
    && |step.rows| == |step.slots| && DistinctSlots(step.slots)
    && AllStored(l, step.slots, step.rows, step.orders, step.histories)
    && |before| == |after| == l.nodes
    && (forall d :: 0 <= d < l.nodes ==> |step.histories[d]| > 0)
    && (forall d :: 0 <= d < l.nodes ==> step.histories[d][0] == before[d])
    && after == Final(step.histories)
  }

  /** A step that does not write the token's slot keeps the token. */
  lemma StepKeepsToken<T>(l: Layout, before: seq<seq<T>>, step: StoreStep<T>, after: seq<seq<T>>, slot: int, row: T)
    requires Valid(l) && StepBetween(l, before, step, after) && slot !in step.slots && KeptToken(l, before, slot, row)
    ensures KeptToken(l, after, slot, row)
  {
    hide RankOf, HostRow, NodeOf, StoredInOrder;
    var d := NodeOf(RankOf(l, slot));
    HistoryLength(l, step.slots, step.rows, d, step.orders[d], step.histories[d]);
    OtherTokensStay(l, step.slots, step.rows, d, step.orders[d], step.histories[d], slot);
  }

  /** What earlier steps stored survives a step on other slots. */
  lemma LaterStepKeeps<T>(l: Layout, before: seq<seq<T>>, step: StoreStep<T>, after: seq<seq<T>>, slots: seq<int>,
                          rows: seq<T>)
    requires Valid(l) && StepBetween(l, before, step, after) && Kept(l, before, slots, rows)
    requires forall i :: 0 <= i < |slots| && slots[i] > 0 ==> slots[i] !in step.slots
    ensures Kept(l, after, slots, rows)
  {
    hide KeptToken, StepBetween;
    forall i | 0 <= i < |slots| && slots[i] > 0 ensures KeptToken(l, after, slots[i], rows[i]) {
      StepKeepsToken(l, before, step, after, slots[i], rows[i]);
    }
  }

  /** The host caches before, between and after the steps. */
  ghost predicate StoreRun<T>(l: Layout, steps: seq<StoreStep<T>>, states: seq<seq<seq<T>>>)
    requires Valid(l)
  {
    && |states| == |steps| + 1
    && forall k :: 0 <= k < |steps| ==> StepBetween(l, states[k], steps[k], states[k + 1])
  }

  ghost predicate Writes<T>(step: StoreStep<T>, slot: int, row: T) {
    exists i :: 0 <= i < |step.slots| && i < |step.rows| && step.slots[i] == slot && step.rows[i] == row
  }

  /** `row` is what the last step that wrote the slot stored there; slots are used again. */
  ghost predicate LastStored<T>(steps: seq<StoreStep<T>>, slot: int, row: T) {
    steps != [] &&
    var last := steps[|steps| - 1];
    if slot in last.slots then Writes(last, slot, row) else LastStored(steps[..|steps| - 1], slot, row)
  }

  lemma StepStores<T>(l: Layout, before: seq<seq<T>>, step: StoreStep<T>, after: seq<seq<T>>, slot: int, row: T)
    requires Valid(l) && StepBetween(l, before, step, after) && slot > 0 && Writes(step, slot, row)
    ensures KeptToken(l, after, slot, row)
  {
    hide KeptToken;
    AllNodesKeep(l, step.slots, step.rows, step.orders, step.histories);
  }

  /** Over every run of steps, a slot holds what was stored in it last. */
  lemma {:induction false} RunKeepsLast<T>(l: Layout, steps: seq<StoreStep<T>>, states: seq<seq<seq<T>>>, slot: int,
                                           row: T)
    requires Valid(l) && StoreRun(l, steps, states) && slot > 0 && LastStored(steps, slot, row)
    ensures KeptToken(l, states[|steps|], slot, row)
    decreases |steps|
  {
    hide KeptToken, StepBetween, Writes;
    var m := |steps| - 1;
    if slot in steps[m].slots {
      StepStores(l, states[m], steps[m], states[m + 1], slot, row);
    } else {
      RunKeepsLast(l, steps[..m], states[..m + 1], slot, row);
      StepKeepsToken(l, states[m], steps[m], states[m + 1], slot, row);
    }
  }
}

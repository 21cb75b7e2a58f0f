/** The volatile device cache of a prefill step and its block table
    (omni/accelerators/cache/omni_cache.py, PrefillOmniCache).

    Request `i` of the batch owns the `perReq` device blocks from `1 + i * perReq` on.  Its prefix is
    loaded into the first of them, and its new tokens go to the positions after the prefix.
 */
module VolatileCache {
  import opened Arith
  import opened Buffers
  import HostCache
  import HostReads
  import opened PrefixSegments
  import opened Wrappers

  // ----- Layout ------------------------------------------------------------------------------------

  /** `volatile_table[i][k]`: the table counts up from 1, row by row. */
  function TableEntry(perReq: nat, i: nat, k: nat): nat { 1 + i * perReq + k }

  /** Where the table puts position `t` of request `i`. */
  function SlotByTable(perReq: nat, blockSize: nat, i: nat, t: nat): int
    requires blockSize > 0
  {
    TableEntry(perReq, i, t / blockSize) * blockSize + t % blockSize
  }

  /** A new token's slot, computed without the table. */
  function NewTokenSlot(perReq: nat, blockSize: nat, i: nat, t: nat): int { (i * perReq + 1) * blockSize + t }

  lemma NewTokenByTable(perReq: nat, blockSize: nat, i: nat, t: nat)
    requires blockSize > 0
    ensures NewTokenSlot(perReq, blockSize, i, t) == SlotByTable(perReq, blockSize, i, t)
  {
    DivParts(t, blockSize);
    MulAssoc(1, i * perReq + 1, blockSize, 0);
    Spread(i * perReq + 1, t / blockSize, blockSize);
  }

  /** No two positions within the requests' room share a slot, and none uses device block 0. */
  lemma SlotsApart(perReq: nat, blockSize: nat, i: nat, t: nat, i': nat, t': nat)
    requires blockSize > 0 && t < perReq * blockSize && t' < perReq * blockSize
    ensures SlotByTable(perReq, blockSize, i, t) >= blockSize
    ensures SlotByTable(perReq, blockSize, i, t) == SlotByTable(perReq, blockSize, i', t') ==> i == i' && t == t'
  {
    DivParts(t, blockSize);
    DivParts(t', blockSize);
    DivBound(t, blockSize, perReq);
    DivBound(t', blockSize, perReq);
    MulAtLeast(TableEntry(perReq, i, t / blockSize), blockSize);
    if SlotByTable(perReq, blockSize, i, t) == SlotByTable(perReq, blockSize, i', t') {
      RowUnique(TableEntry(perReq, i, t / blockSize), t % blockSize, TableEntry(perReq, i', t' / blockSize),
                t' % blockSize, blockSize);
      RowUnique(i, t / blockSize, i', t' / blockSize, perReq);
    }
  }

  /** The slots of the new tokens of each request: its last `queryLens[i]` positions. */
  function RequestSlots(perReq: nat, blockSize: nat, queryLens: seq<nat>, seqLens: seq<nat>): (r: seq<seq<int>>)
    requires |queryLens| == |seqLens| && forall i :: 0 <= i < |queryLens| ==> queryLens[i] <= seqLens[i]
    ensures |r| == |queryLens|
    ensures forall i :: 0 <= i < |r| ==>
              && |r[i]| == queryLens[i]
              && forall k :: 0 <= k < |r[i]| ==>
                r[i][k] == NewTokenSlot(perReq, blockSize, i, seqLens[i] - queryLens[i] + k)
  {
    seq(|queryLens|, i requires 0 <= i < |queryLens| =>
      seq(queryLens[i], (k: nat) => NewTokenSlot(perReq, blockSize, i, seqLens[i] - queryLens[i] + k)))
  }

  /** The concatenated slots and the padding; None is the shape mismatch error. */
  method NewTokenSlots(perReq: nat, blockSize: nat, queryLens: seq<nat>, seqLens: seq<nat>, pad: nat, padSlot: int,
                       expected: nat)
    returns (r: Option<seq<int>>)
    requires |queryLens| == |seqLens| && forall i :: 0 <= i < |queryLens| ==> queryLens[i] <= seqLens[i]
    ensures var slots := AllGather(RequestSlots(perReq, blockSize, queryLens, seqLens)) + seq(pad, _ => padSlot);
            r == if |slots| == expected then Some(slots) else None
  {
    ghost var parts := RequestSlots(perReq, blockSize, queryLens, seqLens);
    var slots: seq<int> := [];
    for i := 0 to |queryLens|
      invariant slots == AllGather(parts[..i])
    {
      var start := (i * perReq + 1) * blockSize;
      var piece := seq(queryLens[i], k => start + (seqLens[i] - queryLens[i] + k));
      NextPart(parts, i, piece);
      slots := slots + piece;
    }
    assert parts[..|parts|] == parts;
    slots := slots + seq(pad, _ => padSlot);
    r := if |slots| == expected then Some(slots) else None;
  }

  // ----- Filling the device cache --------------------------------------------------------------------

  /** Block `k` of request `i` is to be device block `volatile_table[i][k]`. */
  ghost predicate RequestFilled<T>(device: seq<T>, perReq: nat, i: nat, blocks: seq<T>) {
    var dst := TableEntry(perReq, i, 0);
    dst + |blocks| <= |device| && device[dst..dst + |blocks|] == blocks
  }

  /** The data of request `i` when the requests' blocks lie one after the other. */
  ghost function Piece<T>(data: seq<T>, counts: seq<nat>, i: nat): seq<T>
    requires i < |counts| && SumTo(counts, i) + counts[i] <= |data|
  {
    data[SumTo(counts, i)..SumTo(counts, i) + counts[i]]
  }

  ghost predicate Filled<T>(device: seq<T>, perReq: nat, data: seq<T>, counts: seq<nat>, n: nat)
    requires n <= |counts|
  {
    forall i :: 0 <= i < n ==>
      SumTo(counts, i) + counts[i] <= |data| && RequestFilled(device, perReq, i, Piece(data, counts, i))
  }

  ghost predicate InRequest(perReq: nat, counts: seq<nat>, i: nat, x: int)
    requires i < |counts|
  {
    TableEntry(perReq, i, 0) <= x < TableEntry(perReq, i, 0) + counts[i]
  }

  ghost predicate RestKept<T>(device: seq<T>, was: seq<T>, perReq: nat, counts: seq<nat>, n: nat)
    requires n <= |counts|
  {
    && |device| == |was|
    && forall x :: 0 <= x < |device| && (forall i :: 0 <= i < n ==> !InRequest(perReq, counts, i, x)) ==>
      device[x] == was[x]
  }

  /** One slice assignment. */
  ghost predicate Overwritten<T>(before: seq<T>, after: seq<T>, dst: nat, piece: seq<T>) {
    && |after| == |before| && dst + |piece| <= |before|
    && forall x :: 0 <= x < |after| ==> after[x] == if dst <= x < dst + |piece| then piece[x - dst] else before[x]
  }

  lemma EntriesApart(perReq: nat, i: nat, j: nat, k: nat)
    requires i < j && k <= perReq
    ensures TableEntry(perReq, i, k) <= TableEntry(perReq, j, 0)
  {
    MulAtLeast(j - i, perReq);
    Spread(i, j - i, perReq);
  }

  lemma FillNext<T>(before: seq<T>, after: seq<T>, was: seq<T>, perReq: nat, data: seq<T>, counts: seq<nat>, n: nat)
    requires n < |counts| && SumTo(counts, n) + counts[n] <= |data|
    requires forall i :: 0 <= i < |counts| ==> counts[i] <= perReq
    requires Filled(before, perReq, data, counts, n) && RestKept(before, was, perReq, counts, n)
    requires Overwritten(before, after, TableEntry(perReq, n, 0), Piece(data, counts, n))
    ensures Filled(after, perReq, data, counts, n + 1) && RestKept(after, was, perReq, counts, n + 1)
  {
    hide SumTo;
    forall i | 0 <= i < n + 1
      ensures SumTo(counts, i) + counts[i] <= |data| && RequestFilled(after, perReq, i, Piece(data, counts, i))
    {
      if i < n { EntriesApart(perReq, i, n, counts[i]); }
    }
    forall x | 0 <= x < |after| && forall i :: 0 <= i < n + 1 ==> !InRequest(perReq, counts, i, x)
      ensures after[x] == was[x]
    {
      assert !InRequest(perReq, counts, n, x);
    }
  }

  /** `update_device_cache` for one of the cache's tensors; a request has at most `perReq` blocks. */
  method UpdateDeviceCache<T>(device: array<T>, perReq: nat, counts: seq<nat>, data: seq<T>)
    requires SumTo(counts, |counts|) == |data| && TableEntry(perReq, |counts|, 0) <= device.Length
    requires forall i :: 0 <= i < |counts| ==> counts[i] <= perReq
    modifies device
    ensures Filled(device[..], perReq, data, counts, |counts|)
    ensures RestKept(device[..], old(device[..]), perReq, counts, |counts|)
  {
    hide Filled, RestKept, RequestFilled;
    FillNone(device[..], perReq, data, counts);
    var srcStart := 0;
    for reqId := 0 to |counts|
      invariant srcStart == SumTo(counts, reqId)
      invariant Filled(device[..], perReq, data, counts, reqId)
      invariant RestKept(device[..], old(device[..]), perReq, counts, reqId)
    {
      ghost var before := device[..];
      var dstStart, numBlocks := reqId * perReq + 1, counts[reqId];
      EntriesApart(perReq, reqId, |counts|, numBlocks);
      SumMonotone(counts, reqId + 1, |counts|);
      forall k | 0 <= k < numBlocks {
        device[dstStart + k] := data[srcStart + k];
      }
      assert Overwritten(before, device[..], TableEntry(perReq, reqId, 0), Piece(data, counts, reqId));
      FillNext(before, device[..], old(device[..]), perReq, data, counts, reqId);
      srcStart := srcStart + numBlocks;
    }
  }

  lemma FillNone<T>(device: seq<T>, perReq: nat, data: seq<T>, counts: seq<nat>)
    ensures Filled(device, perReq, data, counts, 0) && RestKept(device, device, perReq, counts, 0)
  {
  }

  // ----- The round trip ----------------------------------------------------------------------------------

  /** Every wanted block of every request is on the device where the table says, in its original order. */
  ghost predicate PrefixLoaded<T>(hosts: seq<seq<T>>, n: nat, used: seq<seq<nat>>, perReq: nat, device: seq<seq<T>>)
    requires n > 0
  {
    forall i, k, off :: 0 <= i < |used| && 0 <= k < |used[i]| && 0 <= off < |hosts| * n ==>
      PlacedRow(hosts, n, used[i][k], off, device, TableEntry(perReq, i, k))
  }

  ghost predicate PlacedRow<T>(hosts: seq<seq<T>>, n: nat, id: nat, off: nat, device: seq<seq<T>>, entry: nat)
    requires n > 0
  {
    entry < |device| && HostReads.LoadedRow(hosts, n, id, off, device[entry])
  }

  lemma LoadedThenFilled<T>(hosts: seq<seq<T>>, n: nat, used: seq<seq<nat>>, perReq: nat, counts: seq<nat>,
                            blocks: seq<seq<T>>, device: seq<seq<T>>)
    requires n > 0 && |counts| == |used| && forall i :: 0 <= i < |used| ==> counts[i] == |used[i]|
    requires HostReads.Loaded(hosts, n, AllGather(used), blocks)
    requires Filled(device, perReq, blocks, counts, |counts|)
    ensures PrefixLoaded(hosts, n, used, perReq, device)
  {
    hide SumTo, Total, AllGather, HostReads.LoadedRow;
    forall i, k, off | 0 <= i < |used| && 0 <= k < |used[i]| && 0 <= off < |hosts| * n
      ensures PlacedRow(hosts, n, used[i][k], off, device, TableEntry(perReq, i, k))
    {
      SumOfLengths(used, counts, i);
      PartOf(used, i);
      var at := SumTo(counts, i) + k;
      var ids := AllGather(used);
      assert used[i][k] == ids[Total(used, i)..Total(used, i) + |used[i]|][k] == ids[at];
      assert RequestFilled(device, perReq, i, Piece(blocks, counts, i));
      assert device[TableEntry(perReq, i, 0) + k] == Piece(blocks, counts, i)[k] == blocks[at];
      assert HostReads.LoadedRow(hosts, n, ids[at], off, blocks[at]);
    }
  }

  /** The block ids that the ranges of each request stand for. */
  function Flattened(ranges: seq<seq<Range>>): (r: seq<seq<nat>>)
    ensures |r| == |ranges| && forall i :: 0 <= i < |r| ==> r[i] == Flatten(ranges[i])
  {
    seq(|ranges|, i requires 0 <= i < |ranges| => Flatten(ranges[i]))
  }

  /** The loader's own flattening, range by range. */
  method FlattenBlockIds(consecutiveBlocks: seq<seq<Range>>) returns (blockIds: seq<nat>)
    ensures blockIds == AllGather(Flattened(consecutiveBlocks))
  {
    hide Ids;
    ghost var parts := Flattened(consecutiveBlocks);
    blockIds := [];
    for i := 0 to |consecutiveBlocks|
      invariant blockIds == AllGather(parts[..i])
    {
      var blockRanges := consecutiveBlocks[i];
      ghost var before := blockIds;
      for k := 0 to |blockRanges|
        invariant blockIds + Flatten(blockRanges[k..]) == before + parts[i]
      {
        assert blockRanges[k..][1..] == blockRanges[k + 1..];
        blockIds := blockIds + Ids(blockRanges[k]);
      }
      NextPart(parts, i, parts[i]);
    }
    assert parts[..|parts|] == parts;
  }

  ghost predicate Proper(ranges: seq<seq<Range>>) {
    forall i, k :: 0 <= i < |ranges| && 0 <= k < |ranges[i]| ==> ranges[i][k].start <= ranges[i][k].end
  }

  function BlockCount(ranges: seq<Range>): (r: nat)
    requires forall k :: 0 <= k < |ranges| ==> ranges[k].start <= ranges[k].end
    ensures r == |Flatten(ranges)|
  {
    RangeBlocksAre(ranges);
    RangeBlocks(ranges)
  }

  /** The block counts that `update_device_cache` sums up from the ranges. */
  function Counts(ranges: seq<seq<Range>>): (r: seq<nat>)
    requires Proper(ranges)
    ensures |r| == |ranges| && forall i :: 0 <= i < |r| ==> r[i] == |Flatten(ranges[i])|
  {
    seq(|ranges|, i requires 0 <= i < |ranges| => BlockCount(ranges[i]))
  }

  /** `synchronize_h2d`: false is the IndexError when no request has a prefix. */
  method SynchronizeH2D<T>(hosts: seq<seq<T>>, n: nat, consecutiveBlocks: seq<seq<Range>>, perReq: nat,
                           device: array<seq<T>>)
    returns (ok: bool)
    requires n > 0 && n % HostCache.DIES_PER_NODE == 0 && hosts != [] && Proper(consecutiveBlocks)
    requires HostReads.NodesHold(hosts, n, AllGather(Flattened(consecutiveBlocks)))
    requires TableEntry(perReq, |consecutiveBlocks|, 0) <= device.Length
    requires forall i :: 0 <= i < |consecutiveBlocks| ==> |Flatten(consecutiveBlocks[i])| <= perReq
    modifies device
    ensures ok <==> AllGather(Flattened(consecutiveBlocks)) != []
    ensures ok ==> PrefixLoaded(hosts, n, Flattened(consecutiveBlocks), perReq, device[..])
    ensures RestKept(device[..], old(device[..]), perReq, Counts(consecutiveBlocks), |consecutiveBlocks|)
  {
    hide SumTo, Total, AllGather, HostReads.Loaded, HostReads.NodesHold, Filled, PrefixLoaded, TableEntry, Flatten,
      RangeBlocks;
    ghost var used := Flattened(consecutiveBlocks);
    var blockIds := FlattenBlockIds(consecutiveBlocks);
    var blocks := HostReads.LoadBlocks(hosts, n, blockIds);
    if blocks.None? { return false; }
    var counts := Counts(consecutiveBlocks);
    LoadedLength(hosts, n, blockIds, blocks.value);
    SumOfLengths(used, counts, |used|);
    TotalLength(used, |used|);
    assert used[..|used|] == used;
    UpdateDeviceCache(device, perReq, counts, blocks.value);
    LoadedThenFilled(hosts, n, used, perReq, counts, blocks.value, device[..]);
    return true;
  }

  lemma LoadedLength<T>(hosts: seq<seq<T>>, n: nat, ids: seq<nat>, blocks: seq<seq<T>>)
    requires n > 0 && HostReads.Loaded(hosts, n, ids, blocks)
    ensures |blocks| == |ids|
  {
  }

  /** The device's table leads to `value` for position `t` of request `i`. */
  ghost predicate FoundAt<T>(device: seq<seq<T>>, perReq: nat, blockSize: nat, i: nat, t: nat, value: T)
    requires blockSize > 0
  {
    var entry := TableEntry(perReq, i, t / blockSize);
    entry < |device| && t % blockSize < |device[entry]| && device[entry][t % blockSize] == value
  }

  /** What a node keeps for position `t` of a request's prefix is what the device's table finds there.
      `ranges[i]` are the ranges of its prefix, `row` its block-table row, `kvLen` its cached length. */
  lemma KeptTokenFound<T>(l: HostCache.Layout, hosts: seq<seq<T>>, ranges: seq<seq<Range>>, perReq: nat,
                          device: seq<seq<T>>, i: nat, row: seq<nat>, kvLen: nat, t: nat, value: T)
    requires HostCache.Valid(l) && |hosts| == l.nodes
    requires PrefixLoaded(hosts, HostCache.NodeRows(l), Flattened(ranges), perReq, device)
    requires i < |ranges| && SegmentsOf(ranges[i], row, kvLen, HostCache.BlockSize(l))
    requires kvLen % HostCache.BlockSize(l) == 0
    requires t < kvLen && t / HostCache.BlockSize(l) < |row|
    requires HostCache.KeptToken(
               l, hosts, row[t / HostCache.BlockSize(l)] * HostCache.BlockSize(l) + t % HostCache.BlockSize(l), value)
    ensures FoundAt(device, perReq, HostCache.BlockSize(l), i, t, value)
  {
    hide HostCache.RankOf, HostCache.NodeOf, HostCache.HostRow, HostCache.BlockSize, HostCache.NodeRows;
    var size, n := HostCache.BlockSize(l), HostCache.NodeRows(l);
    Sizes(l);
    DivParts(t, size);
    DivParts(kvLen, size);
    DivBound(t, size, kvLen / size);
    var k, off, used := t / size, t % size, Flattened(ranges);
    HostCache.HostRowOf(l, row[k], off);
    assert used[i][k] == row[k];
    assert PlacedRow(hosts, n, used[i][k], off, device, TableEntry(perReq, i, k));
  }

  /** The round trip for the tokens of one list: each is found where the table says. */
  lemma PrefixRoundTrip<T>(l: HostCache.Layout, hosts: seq<seq<T>>, slots: seq<int>, rows: seq<T>,
                           ranges: seq<seq<Range>>, perReq: nat, device: seq<seq<T>>, i: nat, row: seq<nat>, kvLen: nat,
                           t: nat, token: nat)
    requires HostCache.Valid(l) && |hosts| == l.nodes && HostCache.Kept(l, hosts, slots, rows)
    requires PrefixLoaded(hosts, HostCache.NodeRows(l), Flattened(ranges), perReq, device)
    requires i < |ranges| && SegmentsOf(ranges[i], row, kvLen, HostCache.BlockSize(l))
    requires kvLen % HostCache.BlockSize(l) == 0
    requires t < kvLen && t / HostCache.BlockSize(l) < |row| && row[t / HostCache.BlockSize(l)] >= 1
    requires token < |slots|
    requires slots[token] == row[t / HostCache.BlockSize(l)] * HostCache.BlockSize(l) + t % HostCache.BlockSize(l)
    ensures FoundAt(device, perReq, HostCache.BlockSize(l), i, t, rows[token])
  {
    hide HostCache.KeptToken, HostCache.BlockSize, PrefixLoaded, SegmentsOf;
    Sizes(l);
    PositiveSlot(row[t / HostCache.BlockSize(l)], HostCache.BlockSize(l), t % HostCache.BlockSize(l));
    KeptTokenFound(l, hosts, ranges, perReq, device, i, row, kvLen, t, rows[token]);
  }

  lemma PositiveSlot(id: nat, size: nat, off: nat)
    requires id >= 1 && size > 0
    ensures id * size + off > 0
  {
    MulAtLeast(id, size);
  }

  // ----- From the block table to the device ------------------------------------------------------------

  /** The used blocks of every request lie within every node's host cache. */
  ghost predicate BlocksInHost<T>(hosts: seq<seq<T>>, n: nat, used: seq<seq<nat>>) {
    forall d, i, k :: 0 <= d < |hosts| && 0 <= i < |used| && 0 <= k < |used[i]| ==>
      Rows(used[i][k], n) + n <= |hosts[d]|
  }

  lemma {:induction false} FitTogether(n: nat, parts: seq<seq<nat>>, size: nat)
    requires forall i :: 0 <= i < |parts| ==> HostReads.Fits(n, parts[i], size)
    ensures HostReads.Fits(n, AllGather(parts), size)
  {
    hide Rows;
    if parts != [] { FitTogether(n, parts[..|parts| - 1], size); }
  }

  lemma NodesHoldAll<T>(hosts: seq<seq<T>>, n: nat, used: seq<seq<nat>>)
    requires BlocksInHost(hosts, n, used)
    ensures HostReads.NodesHold(hosts, n, AllGather(used))
  {
    hide Rows, AllGather;
    forall d | 0 <= d < |hosts|
      ensures HostReads.Fits(n, AllGather(used), |hosts[d]|)
    {
      FitTogether(n, used, |hosts[d]|);
    }
  }

  /** Unaligned is the assertion for a cached length off a block boundary, NoRequest the error of an empty
      batch, NoPrefix the IndexError when no request has a prefix. */
  datatype LoadOutcome = Unaligned | NoRequest | NoPrefix | Loaded

  /** The prefixes of a batch, with `used[i]` the blocks of request `i`. */
  datatype Batch = Batch(kvLens: seq<nat>, queryLens: seq<nat>, blockTables: seq<seq<nat>>)

  ghost predicate ValidBatch(b: Batch, blockSize: nat, perReq: nat) {
    && blockSize > 0 && |b.kvLens| == |b.queryLens| == |b.blockTables|
    && forall i :: 0 <= i < |b.kvLens| ==>
      b.kvLens[i] / blockSize <= |b.blockTables[i]| && b.kvLens[i] / blockSize <= perReq
  }

  ghost function Used(b: Batch, blockSize: nat, perReq: nat): (r: seq<seq<nat>>)
    requires ValidBatch(b, blockSize, perReq)
    ensures |r| == |b.kvLens|
    ensures forall i :: 0 <= i < |r| ==> r[i] == UsedBlocks(b.blockTables[i], b.kvLens[i], blockSize)
  {
    seq(|b.kvLens|, i requires 0 <= i < |b.kvLens| => UsedBlocks(b.blockTables[i], b.kvLens[i], blockSize))
  }

  /** The whole way: whatever steps stored tokens before, every prefix position of every request is found
      on the device with the row that was stored last for its slot. */
  ghost predicate LastRowsFound<T(!new)>(l: HostCache.Layout, steps: seq<HostCache.StoreStep<T>>, b: Batch,
                                         perReq: nat, device: seq<seq<T>>)
    requires HostCache.Valid(l) && ValidBatch(b, HostCache.BlockSize(l), perReq)
  {
    var size := HostCache.BlockSize(l);
    forall i, t: nat, value ::
      0 <= i < |b.kvLens| && t < b.kvLens[i] && LastRowOf(l, steps, b.blockTables[i], t, value) ==>
      FoundAt(device, perReq, size, i, t, value)
  }

  /** The steps stored `value` last in the slot of prefix position `t`, whose block is not block 0. */
  ghost predicate LastRowOf<T>(l: HostCache.Layout, steps: seq<HostCache.StoreStep<T>>, row: seq<nat>, t: nat, value: T)
    requires HostCache.Valid(l)
  {
    Sizes(l);
    var size := HostCache.BlockSize(l);
    && 0 <= t / size < |row| && row[t / size] >= 1
    && HostCache.LastStored(steps, row[t / size] * size + t % size, value)
  }

  lemma LastRowFound<T>(l: HostCache.Layout, steps: seq<HostCache.StoreStep<T>>, states: seq<seq<seq<T>>>,
                        ranges: seq<seq<Range>>, perReq: nat, device: seq<seq<T>>, i: nat, row: seq<nat>, kvLen: nat,
                        t: nat, value: T)
    requires HostCache.Valid(l) && HostCache.StoreRun(l, steps, states) && |states[|steps|]| == l.nodes
    requires PrefixLoaded(states[|steps|], HostCache.NodeRows(l), Flattened(ranges), perReq, device)
    requires i < |ranges| && SegmentsOf(ranges[i], row, kvLen, HostCache.BlockSize(l))
    requires kvLen % HostCache.BlockSize(l) == 0
    requires t < kvLen && LastRowOf(l, steps, row, t, value)
    ensures FoundAt(device, perReq, HostCache.BlockSize(l), i, t, value)
  {
    hide HostCache.KeptToken, HostCache.BlockSize, HostCache.LastStored, PrefixLoaded, SegmentsOf;
    Sizes(l);
    var size := HostCache.BlockSize(l);
    PositiveSlot(row[t / size], size, t % size);
    HostCache.RunKeepsLast(l, steps, states, row[t / size] * size + t % size, value);
    KeptTokenFound(l, states[|steps|], ranges, perReq, device, i, row, kvLen, t, value);
  }

  /** The prefix load of one prefill step, from the block tables. */
  method LoadPrefixes<T(!new)>(l: HostCache.Layout, ghost steps: seq<HostCache.StoreStep<T>>,
                               ghost states: seq<seq<seq<T>>>, hosts: seq<seq<T>>, b: Batch, perReq: nat,
                               device: array<seq<T>>)
    returns (outcome: LoadOutcome)
    requires HostCache.Valid(l) && HostCache.StoreRun(l, steps, states) && hosts == states[|steps|]
    requires |hosts| == l.nodes
    requires ValidBatch(b, HostCache.BlockSize(l), perReq)
    requires BlocksInHost(hosts, HostCache.NodeRows(l), Used(b, HostCache.BlockSize(l), perReq))
    requires TableEntry(perReq, |b.kvLens|, 0) <= device.Length
    modifies device
    ensures outcome.Unaligned? <==> exists i :: 0 <= i < |b.kvLens| && b.kvLens[i] % HostCache.BlockSize(l) != 0
    ensures outcome.NoRequest? <==> b.kvLens == []
    ensures outcome.NoPrefix? <==>
              && b.kvLens != [] && !outcome.Unaligned?
              && AllGather(Used(b, HostCache.BlockSize(l), perReq)) == []
    ensures outcome.Loaded? ==> LastRowsFound(l, steps, b, perReq, device[..])
  {
    hide HostCache.StoreRun, HostCache.BlockSize, HostCache.NodeRows, PrefixLoaded, Flatten, Maximal, TableEntry,
      AllGather, LastRowOf;
    Sizes(l);
    var size, n := HostCache.BlockSize(l), HostCache.NodeRows(l);
    var r := GetPrefillPrefixCopyMeta(size, b.kvLens, b.queryLens, b.blockTables, true);
    if r.EmptyBatch? { return NoRequest; }
    if !r.Ready? { return Unaligned; }
    var ranges := r.meta.consecutiveBlocks;
    assert Flattened(ranges) == Used(b, size, perReq);
    NodesHoldAll(hosts, n, Flattened(ranges));
    forall i | 0 <= i < |ranges| ensures forall k :: 0 <= k < |ranges[i]| ==> ranges[i][k].start <= ranges[i][k].end {
      ProperRanges(ranges[i]);
    }
    var ok := SynchronizeH2D(hosts, n, ranges, perReq, device);
    if !ok { return NoPrefix; }
    forall i, t: nat, value | 0 <= i < |b.kvLens| && t < b.kvLens[i] && LastRowOf(l, steps, b.blockTables[i], t, value)
      ensures FoundAt(device[..], perReq, size, i, t, value)
    {
      LastRowFound(l, steps, states, ranges, perReq, device[..], i, b.blockTables[i], b.kvLens[i], t, value);
    }
    return Loaded;
  }

  lemma ProperRanges(ranges: seq<Range>)
    requires Maximal(ranges)
    ensures forall k :: 0 <= k < |ranges| ==> ranges[k].start <= ranges[k].end
  {
  }

  lemma Sizes(l: HostCache.Layout)
    requires HostCache.Valid(l)
    ensures HostCache.BlockSize(l) == l.nodes * HostCache.NodeRows(l) > 0 && HostCache.NodeRows(l) > 0
    ensures HostCache.NodeRows(l) % HostCache.DIES_PER_NODE == 0
  {
    MulAtLeast(l.nodes, HostCache.NodeRows(l));
  }
}

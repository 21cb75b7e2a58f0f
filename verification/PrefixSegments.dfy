/** Which host blocks a batch with cached prefixes has to load
    (omni/accelerators/cache/omni_cache.py, get_prefill_prefix_copy_meta).

    The used part of each block-table row is cut into runs of consecutive block ids, written as
    half-open ranges; the loader later flattens the ranges again.
 */
module PrefixSegments {
  import opened Arith
  import opened Buffers

  datatype Range = Range(start: nat, end: nat)

  /** The positions after the first at which the row does not go up by one. */
  function Splits(row: seq<nat>, i: nat): (r: seq<nat>)
    requires 1 <= i
    ensures forall k :: 0 <= k < |r| ==> i <= r[k] < |row|
    decreases |row| - i
  {
    if i >= |row| then []
    else if row[i] != row[i - 1] + 1 then [i] + Splits(row, i + 1)
    else Splits(row, i + 1)
  }

  /** The ranges of a row of used blocks: one run begins at `lo`, the others at `splits`; each ends
      before the next begins. */
  function RangesAt(row: seq<nat>, lo: nat, splits: seq<nat>): (r: seq<Range>)
    requires lo < |row| && forall k :: 0 <= k < |splits| ==> 1 <= splits[k] < |row|
    ensures |r| == |splits| + 1 && r[0].start == row[lo]
    decreases |splits|
  {
    if splits == [] then [Range(row[lo], row[|row| - 1] + 1)]
    else [Range(row[lo], row[splits[0] - 1] + 1)] + RangesAt(row, splits[0], splits[1..])
  }

  /** The ranges of one request, from its used blocks. */
  function Segments(row: seq<nat>): seq<Range> {
    if row == [] then []
    else if |row| == 1 then [Range(row[0], row[0] + 1)]
    else RangesAt(row, 0, Splits(row, 1))
  }

  function Ids(r: Range): (ids: seq<nat>)
    ensures r.start <= r.end ==> |ids| == r.end - r.start
    ensures forall k :: 0 <= k < |ids| ==> ids[k] == r.start + k
  {
    seq(if r.start <= r.end then r.end - r.start else 0, k => r.start + k)
  }

  /** The block ids of a list of ranges, as the loader flattens them. */
  function Flatten(ranges: seq<Range>): seq<nat> {
    if ranges == [] then [] else Ids(ranges[0]) + Flatten(ranges[1..])
  }

  // ----- Ranges and flattening are inverse ---------------------------------------------------

  /** The row goes up by one on `[lo, hi)`. */
  ghost predicate Consecutive(row: seq<nat>, lo: nat, hi: nat) {
    lo < hi <= |row| && forall i :: lo <= i < hi ==> row[i] == row[lo] + (i - lo)
  }

  /** Every range holds a block, and no range can be joined with the next. */
  ghost predicate Maximal(ranges: seq<Range>) {
    && (forall k :: 0 <= k < |ranges| ==> ranges[k].start < ranges[k].end)
    && (forall j, k :: 0 <= j && k == j + 1 && k < |ranges| ==> ranges[j].end != ranges[k].start)
  }

  lemma MaximalCons(r: Range, rest: seq<Range>)
    requires Maximal(rest) && r.start < r.end && (rest != [] ==> r.end != rest[0].start)
    ensures Maximal([r] + rest)
  {
    var all := [r] + rest;
    forall j, k | 0 <= j && k == j + 1 && k < |all|
      ensures all[j].end != all[k].start
    {
      if j > 0 {
        var j' := j - 1;
        assert all[j] == rest[j'] && all[k] == rest[j];
      }
    }
  }

  lemma RunIds(row: seq<nat>, lo: nat, hi: nat)
    requires Consecutive(row, lo, hi)
    ensures row[hi - 1] == row[lo] + (hi - 1 - lo)
    ensures Ids(Range(row[lo], row[hi - 1] + 1)) == row[lo..hi]
  {
  }

  /** `ranges` stands for the row from `lo` on. */
  ghost predicate Covers(row: seq<nat>, lo: nat, ranges: seq<Range>) {
    lo <= |row| && Flatten(ranges) == row[lo..] && Maximal(ranges)
  }

  lemma PrependRun(row: seq<nat>, lo: nat, hi: nat, rest: seq<Range>)
    requires Consecutive(row, lo, hi) && Covers(row, hi, rest)
    requires rest != [] ==> rest[0].start != row[hi - 1] + 1
    ensures Covers(row, lo, [Range(row[lo], row[hi - 1] + 1)] + rest)
  {
    var first := Range(row[lo], row[hi - 1] + 1);
    RunIds(row, lo, hi);
    MaximalCons(first, rest);
    assert ([first] + rest)[1..] == rest;
    assert row[lo..hi] + row[hi..] == row[lo..];
  }

  lemma RangesAtBreak(row: seq<nat>, lo: nat, i: nat, splits: seq<nat>)
    requires lo < |row| && 1 <= i < |row| && forall k :: 0 <= k < |splits| ==> 1 <= splits[k] < |row|
    ensures RangesAt(row, lo, [i] + splits) == [Range(row[lo], row[i - 1] + 1)] + RangesAt(row, i, splits)
  {
    assert ([i] + splits)[1..] == splits;
  }

  lemma SplitsAtBreak(row: seq<nat>, i: nat)
    requires 1 <= i < |row| && row[i] != row[i - 1] + 1
    ensures Splits(row, i) == [i] + Splits(row, i + 1)
  {
  }

  /** The ranges found from position `i` on, with a run open since `lo`, stand for the row from `lo`. */
  ghost predicate Found(row: seq<nat>, lo: nat, i: nat) {
    1 <= i && lo < |row| && Covers(row, lo, RangesAt(row, lo, Splits(row, i)))
  }

  lemma FoundAtEnd(row: seq<nat>, lo: nat)
    requires Consecutive(row, lo, |row|)
    ensures Found(row, lo, |row|)
  {
    PrependRun(row, lo, |row|, []);
    assert [Range(row[lo], row[|row| - 1] + 1)] + [] == RangesAt(row, lo, []);
  }

  lemma FoundAtBreak(row: seq<nat>, lo: nat, i: nat)
    requires Consecutive(row, lo, i) && 1 <= i < |row| && row[i] != row[i - 1] + 1
    requires Found(row, i, i + 1)
    ensures Found(row, lo, i)
  {
    SplitsAtBreak(row, i);
    RangesAtBreak(row, lo, i, Splits(row, i + 1));
    PrependRun(row, lo, i, RangesAt(row, i, Splits(row, i + 1)));
  }

  lemma FoundWithoutBreak(row: seq<nat>, lo: nat, i: nat)
    requires 1 <= i < |row| && row[i] == row[i - 1] + 1 && Found(row, lo, i + 1)
    ensures Found(row, lo, i)
  {
    assert Splits(row, i) == Splits(row, i + 1);
  }

  lemma {:induction false} RangesExact(row: seq<nat>, lo: nat, i: nat)
    requires 1 <= i && Consecutive(row, lo, i)
    ensures Found(row, lo, i)
    decreases |row| - i
  {
    if i == |row| {
      FoundAtEnd(row, lo);
    } else if row[i] != row[i - 1] + 1 {
      RangesExact(row, i, i + 1);
      FoundAtBreak(row, lo, i);
    } else {
      RunIds(row, lo, i);
      RangesExact(row, lo, i + 1);
      FoundWithoutBreak(row, lo, i);
    }
  }

  /** The ranges list exactly the used blocks in order, and as few ranges as possible are used. */
  lemma SegmentsExact(row: seq<nat>)
    ensures Flatten(Segments(row)) == row && Maximal(Segments(row))
  {
    if |row| == 1 {
      assert Segments(row)[1..] == [];
      assert Ids(Range(row[0], row[0] + 1)) == row;
    } else if |row| > 1 {
      RangesExact(row, 0, 1);
    }
  }

  // ----- The metadata of a batch -----------------------------------------------------------------

  /** `querySlots` are the buffer rows for the KV of the batch's own tokens. */
  datatype Meta = Meta(consecutiveBlocks: seq<seq<Range>>, queryLens: seq<nat>, querySlots: seq<nat>,
                       numCopyBlocks: int)
  /** NotAligned is the assertion for a cached length off a block boundary, EmptyBatch the error of
      concatenating no tensors. */
  datatype Outcome = NoMeta | NotAligned | EmptyBatch | Ready(meta: Meta)

  /** For each request `kv` rows of prefix are followed by `q` rows of its own. */
  function QuerySlots(kvLens: seq<nat>, queryLens: seq<nat>, start: nat): seq<nat>
    requires |kvLens| == |queryLens|
    decreases |kvLens|
  {
    if kvLens == [] then []
    else
      seq(queryLens[0], t => start + kvLens[0] + t)
      + QuerySlots(kvLens[1..], queryLens[1..], start + kvLens[0] + queryLens[0])
  }

  /** The number of blocks in all ranges. */
  function CountBlocks(segs: seq<seq<Range>>): int {
    if segs == [] then 0 else RangeBlocks(segs[|segs| - 1]) + CountBlocks(segs[..|segs| - 1])
  }

  function RangeBlocks(ranges: seq<Range>): int {
    if ranges == [] then 0 else ranges[0].end - ranges[0].start + RangeBlocks(ranges[1..])
  }

  lemma {:induction false} RangeBlocksAre(ranges: seq<Range>)
    requires forall k :: 0 <= k < |ranges| ==> ranges[k].start <= ranges[k].end
    ensures RangeBlocks(ranges) == |Flatten(ranges)|
  {
    if ranges != [] { RangeBlocksAre(ranges[1..]); }
  }

  /** The used blocks of a request: those that its cached tokens fill. */
  function UsedBlocks(row: seq<nat>, kvLen: nat, blockSize: nat): (r: seq<nat>)
    requires blockSize > 0 && kvLen / blockSize <= |row|
    ensures |r| == kvLen / blockSize
  {
    row[..kvLen / blockSize]
  }

  /** Block index `(kvLen - 1) // blockSize` is the last one used, -1 for an empty prefix. */
  lemma LastBlock(kvLen: nat, blockSize: nat)
    requires blockSize > 0 && kvLen % blockSize == 0
    ensures (kvLen - 1) / blockSize + 1 == kvLen / blockSize
  {
    assert kvLen == (kvLen / blockSize) * blockSize;
    assert (kvLen / blockSize - 1) * blockSize == kvLen - blockSize;
    DivModUnique(kvLen - 1, kvLen / blockSize - 1, blockSize, blockSize - 1);
  }

  /** The ranges stand for exactly the used blocks of the request. */
  ghost predicate SegmentsOf(ranges: seq<Range>, row: seq<nat>, kvLen: nat, blockSize: nat) {
    && blockSize > 0 && kvLen / blockSize <= |row|
    && Flatten(ranges) == UsedBlocks(row, kvLen, blockSize) && Maximal(ranges)
  }

  method RequestSegments(row: seq<nat>, kvLen: nat, blockSize: nat) returns (segs: seq<Range>)
    requires blockSize > 0 && kvLen / blockSize <= |row| && kvLen % blockSize == 0
    ensures SegmentsOf(segs, row, kvLen, blockSize)
  {
    var m := (kvLen - 1) / blockSize;
    LastBlock(kvLen, blockSize);
    var used := if m < 0 then [] else row[..m + 1];
    SegmentsExact(used);
    segs := Segments(used);
  }

  method GetPrefillPrefixCopyMeta(blockSize: nat, kvLens: seq<nat>, queryLens: seq<nat>, blockTables: seq<seq<nat>>,
                                  chunkedPrefill: bool)
    returns (r: Outcome)
    requires blockSize > 0 && |kvLens| == |queryLens| == |blockTables|
    requires forall i :: 0 <= i < |kvLens| ==> kvLens[i] / blockSize <= |blockTables[i]|
    ensures r.NoMeta? <==> !chunkedPrefill
    ensures r.NotAligned? <==> chunkedPrefill && exists i :: 0 <= i < |kvLens| && kvLens[i] % blockSize != 0
    ensures r.EmptyBatch? <==> chunkedPrefill && |kvLens| == 0
    ensures r.Ready? ==>
              && |r.meta.consecutiveBlocks| == |kvLens|
              && (forall i :: 0 <= i < |kvLens| ==>
                    SegmentsOf(r.meta.consecutiveBlocks[i], blockTables[i], kvLens[i], blockSize))
              && r.meta.queryLens == queryLens
              && r.meta.querySlots == QuerySlots(kvLens, queryLens, 0)
              && r.meta.numCopyBlocks == CountBlocks(r.meta.consecutiveBlocks)
  {
    hide SegmentsOf, CountBlocks, QuerySlots;
    if !chunkedPrefill {
      return NoMeta;
    }
    if exists i :: 0 <= i < |kvLens| && kvLens[i] % blockSize != 0 {
      return NotAligned;
    }
    var allSegs: seq<seq<Range>>, qSlots: seq<nat>, qSlotStart: nat := [], [], 0;
    var i := 0;
    while i < |kvLens|
      invariant 0 <= i <= |kvLens| && |allSegs| == i
      invariant forall k :: 0 <= k < i ==> SegmentsOf(allSegs[k], blockTables[k], kvLens[k], blockSize)
      invariant qSlots + QuerySlots(kvLens[i..], queryLens[i..], qSlotStart) == QuerySlots(kvLens, queryLens, 0)
    {
      var segs := RequestSegments(blockTables[i], kvLens[i], blockSize);
      allSegs := allSegs + [segs];
      qSlotStart := qSlotStart + kvLens[i];
      QueryRows(kvLens, queryLens, i, qSlotStart, qSlots);
      qSlots := qSlots + seq(queryLens[i], t => qSlotStart + t);
      qSlotStart := qSlotStart + queryLens[i];
      i := i + 1;
    }
    QueryRowsEnd(qSlotStart);
    if |kvLens| == 0 {
      return EmptyBatch;
    }
    r := Ready(Meta(allSegs, queryLens, qSlots, CountBlocks(allSegs)));
  }

  lemma QueryRowsEnd(start: nat)
    ensures QuerySlots([], [], start) == []
  {
  }

  lemma QueryRows(kvLens: seq<nat>, queryLens: seq<nat>, i: nat, start: nat, before: seq<nat>)
    requires i < |kvLens| == |queryLens| && start >= kvLens[i]
    ensures before + QuerySlots(kvLens[i..], queryLens[i..], start - kvLens[i])
         == before + seq(queryLens[i], t => start + t)
           + QuerySlots(kvLens[i + 1..], queryLens[i + 1..], start + queryLens[i])
  {
    assert kvLens[i..][1..] == kvLens[i + 1..] && queryLens[i..][1..] == queryLens[i + 1..];
    assert seq(queryLens[i], t => start - kvLens[i] + kvLens[i] + t) == seq(queryLens[i], t => start + t);
  }

  /** The tokens' rows go up strictly, so no two tokens share a buffer row. */
  lemma {:induction false} QuerySlotsIncrease(kvLens: seq<nat>, queryLens: seq<nat>, start: nat, a: nat, b: nat)
    requires |kvLens| == |queryLens| && a < b < |QuerySlots(kvLens, queryLens, start)|
    ensures start <= QuerySlots(kvLens, queryLens, start)[a] < QuerySlots(kvLens, queryLens, start)[b]
    decreases |kvLens|
  {
    var q := queryLens[0];
    var next := start + kvLens[0] + q;
    if b >= q {
      QuerySlotsStart(kvLens[1..], queryLens[1..], next, b - q);
      if a >= q { QuerySlotsIncrease(kvLens[1..], queryLens[1..], next, a - q, b - q); }
    }
  }

  lemma {:induction false} QuerySlotsStart(kvLens: seq<nat>, queryLens: seq<nat>, start: nat, a: nat)
    requires |kvLens| == |queryLens| && a < |QuerySlots(kvLens, queryLens, start)|
    ensures start <= QuerySlots(kvLens, queryLens, start)[a]
    decreases |kvLens|
  {
    if a >= queryLens[0] {
      QuerySlotsStart(kvLens[1..], queryLens[1..], start + kvLens[0] + queryLens[0], a - queryLens[0]);
    }
  }

  /** Token `j` of request `i` has the buffer row behind the prefixes up to its own and the earlier tokens of
      the batch. */
  lemma {:induction false} QuerySlotIs(kvLens: seq<nat>, queryLens: seq<nat>, start: nat, i: nat, j: nat)
    requires i < |kvLens| == |queryLens| && j < queryLens[i]
    ensures var n := SumTo(queryLens, i) + j;
            && n < |QuerySlots(kvLens, queryLens, start)|
            && QuerySlots(kvLens, queryLens, start)[n] == start + SumTo(kvLens, i + 1) + n
    decreases |kvLens|
  {
    SumFromFront(queryLens, i);
    SumFromFront(kvLens, i + 1);
    if i > 0 {
      QuerySlotIs(kvLens[1..], queryLens[1..], start + kvLens[0] + queryLens[0], i - 1, j);
    }
  }

  lemma {:induction false} QuerySlotsLength(kvLens: seq<nat>, queryLens: seq<nat>, start: nat)
    requires |kvLens| == |queryLens|
    ensures |QuerySlots(kvLens, queryLens, start)| == SumTo(queryLens, |queryLens|)
    decreases |kvLens|
  {
    if kvLens != [] {
      SumFromFront(queryLens, |queryLens|);
      QuerySlotsLength(kvLens[1..], queryLens[1..], start + kvLens[0] + queryLens[0]);
    }
  }
}

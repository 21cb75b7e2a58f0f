/** Loading whole blocks back from the sharded host cache
    (omni/accelerators/cache/omni_cache.py, PrefillOmniCache).

    Every node keeps `n` rows of every block.  Each of its 16 ranks reads an equal share of the rows
    of the wanted blocks, merged over consecutive block ids; the shares of all ranks are gathered,
    and the node dimension is moved inside the block.
 */
module HostReads {
  import opened Arith
  import opened Buffers
  import HostCache
  import opened Wrappers

  // ----- The simple form: the wanted blocks laid end to end ----------------------------------------

  ghost predicate Fits(n: nat, ids: seq<nat>, size: nat) {
    forall b :: 0 <= b < |ids| ==> Rows(ids[b], n) + n <= size
  }

  ghost function Blocks<T>(host: seq<T>, n: nat, ids: seq<nat>): seq<T>
    requires Fits(n, ids, |host|)
  {
    if ids == [] then []
    else
      var last := ids[|ids| - 1];
      Blocks(host, n, ids[..|ids| - 1]) + host[Rows(last, n)..Rows(last, n) + n]
  }

  lemma {:induction false} BlocksLength<T>(host: seq<T>, n: nat, ids: seq<nat>)
    requires Fits(n, ids, |host|)
    ensures |Blocks(host, n, ids)| == Rows(|ids|, n)
  {
    if ids != [] {
      BlocksLength(host, n, ids[..|ids| - 1]);
    }
  }

  /** Block `b` of the wanted blocks starts at row `b * n`. */
  lemma {:induction false} BlockInPlace<T>(host: seq<T>, n: nat, ids: seq<nat>, b: nat)
    requires Fits(n, ids, |host|) && b < |ids|
    ensures Rows(b, n) + n <= |Blocks(host, n, ids)|
    ensures Blocks(host, n, ids)[Rows(b, n)..Rows(b, n) + n] == host[Rows(ids[b], n)..Rows(ids[b], n) + n]
  {
    var m := |ids| - 1;
    BlocksLength(host, n, ids[..m]);
    if b < m {
      BlockInPlace(host, n, ids[..m], b);
    }
  }

  /** A part of block `b`. */
  lemma PartInPlace<T>(host: seq<T>, n: nat, ids: seq<nat>, b: nat, lo: nat, hi: nat)
    requires Fits(n, ids, |host|) && b < |ids| && lo <= hi <= n
    ensures Rows(b, n) + hi <= |Blocks(host, n, ids)|
    ensures Blocks(host, n, ids)[Rows(b, n) + lo..Rows(b, n) + hi] == host[Rows(ids[b], n) + lo..Rows(ids[b], n) + hi]
  {
    hide Blocks, Rows;
    BlockInPlace(host, n, ids, b);
    SlicePart(Blocks(host, n, ids), host, Rows(b, n), Rows(ids[b], n), n, lo, hi);
  }

  // ----- Reading a share -----------------------------------------------------------------------------

  /** The loop's state after block `b`: what was read and the open segment together are the wanted
      rows but for `remain`, and the open segment reaches the end of the block unless none remain. */
  ghost predicate Reading<T>(all: seq<T>, host: seq<T>, base: nat, m: nat, blockEnd: nat, hostEnd: nat,
                             out: seq<T>, start: nat, copied: nat, remain: nat)
  {
    && |out| + copied + remain == m && base + m <= |all| && start + copied <= |host|
    && out + host[start..start + copied] == all[base..base + |out| + copied]
    && (remain > 0 ==> base + |out| + copied == blockEnd && start + copied == hostEnd)
  }

  lemma InRange<T>(all: seq<T>, host: seq<T>, base: nat, m: nat, blockEnd: nat, hostEnd: nat,
                   out: seq<T>, start: nat, copied: nat, remain: nat)
    requires Reading(all, host, base, m, blockEnd, hostEnd, out, start, copied, remain)
    ensures start + copied <= |host|
  {
  }

  lemma OpenFirst<T>(all: seq<T>, host: seq<T>, base: nat, m: nat, blockEnd: nat, hostEnd: nat, start: nat, copied: nat)
    requires copied <= m && base + m <= |all| && start + copied <= |host|
    requires all[base..base + copied] == host[start..start + copied]
    requires copied < m ==> base + copied == blockEnd && start + copied == hostEnd
    ensures Reading(all, host, base, m, blockEnd, hostEnd, [], start, copied, m - copied)
  {
    FromEmpty(host[start..start + copied]);
  }

  /** Lengthening the open segment by rows that follow it on both sides. */
  lemma Lengthen<T>(all: seq<T>, host: seq<T>, base: nat, m: nat, blockEnd: nat, hostEnd: nat,
                    out: seq<T>, start: nat, copied: nat, remain: nat, n: nat)
    requires Reading(all, host, base, m, blockEnd, hostEnd, out, start, copied, remain)
    requires blockEnd + n <= |all| && hostEnd + n <= |host| && all[blockEnd..blockEnd + n] == host[hostEnd..hostEnd + n]
    ensures var more := Min(remain, n);
            Reading(all, host, base, m, blockEnd + n, hostEnd + n, out, start, copied + more, remain - more)
  {
    var more := Min(remain, n);
    if remain > 0 {
      SlicePart(all, host, blockEnd, hostEnd, n, 0, more);
      Join(host, start, hostEnd, hostEnd + more);
      Join(all, base, blockEnd, blockEnd + more);
      Associate(out, host[start..hostEnd], host[hostEnd..hostEnd + more]);
    }
  }

  /** Reading the open segment and opening the next one elsewhere. */
  lemma Reopen<T>(all: seq<T>, host: seq<T>, base: nat, m: nat, blockEnd: nat, hostEnd: nat,
                  out: seq<T>, start: nat, copied: nat, remain: nat, n: nat, next: nat)
    requires Reading(all, host, base, m, blockEnd, hostEnd, out, start, copied, remain)
    requires blockEnd + n <= |all| && next + n <= |host| && all[blockEnd..blockEnd + n] == host[next..next + n]
    ensures var more := Min(remain, n);
            Reading(all, host, base, m, blockEnd + n, next + n, out + host[start..start + copied], next, more,
                    remain - more)
  {
    var more := Min(remain, n);
    var out' := out + host[start..start + copied];
    if remain > 0 {
      SlicePart(all, host, blockEnd, next, n, 0, more);
      Join(all, base, blockEnd, blockEnd + more);
    } else {
      assert out' + host[next..next + more] == out';
    }
  }

  /** `Reading` after block `b` of the list. */
  ghost predicate AfterBlock<T>(host: seq<T>, n: nat, ids: seq<nat>, base: nat, m: nat, b: nat,
                                out: seq<T>, start: nat, copied: nat, remain: nat)
  {
    && Fits(n, ids, |host|) && b < |ids|
    && Reading(Blocks(host, n, ids), host, base, m, Rows(b, n) + n, Rows(ids[b], n) + n, out, start, copied, remain)
  }

  lemma StartReading<T>(host: seq<T>, n: nat, ids: seq<nat>, m: nat, b: nat, last: nat, offset: nat)
    requires Fits(n, ids, |host|) && b <= last < |ids| && offset < n && Rows(b, n) + offset + m <= Rows(last, n) + n
    ensures var copied := Min(m, n - offset);
            AfterBlock(host, n, ids, Rows(b, n) + offset, m, b, [], Rows(ids[b], n) + offset, copied, m - copied)
  {
    hide Blocks, Rows, Reading;
    var copied := Min(m, n - offset);
    PartInPlace(host, n, ids, b, offset, offset + copied);
    BlockInPlace(host, n, ids, last);
    OpenFirst(Blocks(host, n, ids), host, Rows(b, n) + offset, m, Rows(b, n) + n, Rows(ids[b], n) + n,
              Rows(ids[b], n) + offset, copied);
  }

  lemma ReadOn<T>(host: seq<T>, n: nat, ids: seq<nat>, base: nat, m: nat, b: nat,
                  out: seq<T>, start: nat, copied: nat, remain: nat)
    requires AfterBlock(host, n, ids, base, m, b, out, start, copied, remain) && b + 1 < |ids|
    ensures start + copied <= |host|
    ensures var more := Min(remain, n);
            ids[b + 1] == ids[b] + 1 ==>
              AfterBlock(host, n, ids, base, m, b + 1, out, start, copied + more, remain - more)
    ensures var more := Min(remain, n);
            AfterBlock(host, n, ids, base, m, b + 1, out + host[start..start + copied], Rows(ids[b + 1], n), more,
                       remain - more)
  {
    hide Blocks, Reading;
    InRange(Blocks(host, n, ids), host, base, m, Rows(b, n) + n, Rows(ids[b], n) + n, out, start, copied, remain);
    var all, blockEnd, hostEnd := Blocks(host, n, ids), Rows(b, n) + n, Rows(ids[b], n) + n;
    assert Rows(b + 1, n) == blockEnd;
    BlockInPlace(host, n, ids, b + 1);
    if ids[b + 1] == ids[b] + 1 {
      Lengthen(all, host, base, m, blockEnd, hostEnd, out, start, copied, remain, n);
    }
    Reopen(all, host, base, m, blockEnd, hostEnd, out, start, copied, remain, n, Rows(ids[b + 1], n));
  }

  /** After the last block nothing remains. */
  lemma FinishReading<T>(host: seq<T>, n: nat, ids: seq<nat>, base: nat, m: nat, b: nat,
                         out: seq<T>, start: nat, copied: nat, remain: nat)
    requires AfterBlock(host, n, ids, base, m, b, out, start, copied, remain) && base + m <= Rows(b, n) + n
    ensures start + copied <= |host| && base + m <= |Blocks(host, n, ids)|
    ensures out + host[start..start + copied] == Blocks(host, n, ids)[base..base + m]
  {
  }

  /** The loop over blocks `startIdx .. lastIdx`. */
  method ReadBlocks<T>(host: seq<T>, n: nat, blockIds: seq<nat>, startIdx: nat, lastIdx: nat, offsetInBlock: nat,
                       perRank: nat)
    returns (rows: seq<T>)
    requires Fits(n, blockIds, |host|) && startIdx <= lastIdx < |blockIds| && offsetInBlock < n
    requires Rows(startIdx, n) + offsetInBlock + perRank <= Rows(lastIdx, n) + n
    ensures var base := Rows(startIdx, n) + offsetInBlock;
            base + perRank <= |Blocks(host, n, blockIds)| && rows == Blocks(host, n, blockIds)[base..base + perRank]
  {
    hide AfterBlock;
    ghost var base := Rows(startIdx, n) + offsetInBlock;
    StartReading(host, n, blockIds, perRank, startIdx, lastIdx, offsetInBlock);
    var idsOfThisRank := blockIds[startIdx..lastIdx + 1];
    var out: seq<T>, index := [], 0;
    var headOffset: nat := Rows(idsOfThisRank[0], n) + offsetInBlock;
    var remain: nat := perRank;
    var copied: nat := Min(remain, n - offsetInBlock);
    remain := remain - copied;
    while index < |idsOfThisRank| - 1
      invariant 0 <= index < |idsOfThisRank|
      invariant AfterBlock(host, n, blockIds, base, perRank, startIdx + index, out, headOffset, copied, remain)
    {
      ReadOn(host, n, blockIds, base, perRank, startIdx + index, out, headOffset, copied, remain);
      var copying := Min(remain, n);
      if idsOfThisRank[index + 1] == idsOfThisRank[index] + 1 {
        copied := copied + copying;
      } else {
        out := out + host[headOffset..headOffset + copied];
        headOffset := Rows(idsOfThisRank[index + 1], n);
        copied := copying;
      }
      remain := remain - copying;
      index := index + 1;
    }
    FinishReading(host, n, blockIds, base, perRank, startIdx + index, out, headOffset, copied, remain);
    rows := out + host[headOffset..headOffset + copied];
  }

  /** The last block of a share that ends before row `end`. */
  lemma LastOfShare(end: nat, n: nat, blocks: nat)
    requires n > 0 && blocks > 0 && end <= Rows(blocks, n)
    ensures 0 <= end / n && end <= Rows(Min(end / n, blocks - 1), n) + n
  {
    DivParts(end, n);
    var e := end / n;
    if e < 0 { MulBound(e, n); }
    RowsIsProduct(e, n);
    assert Rows(blocks, n) == Rows(blocks - 1, n) + n;
  }

  /** The first block of a share. */
  lemma FirstOfShare(base: nat, end: nat, n: nat, blocks: nat)
    requires n > 0 && base < end <= Rows(blocks, n)
    ensures 0 <= base / n < blocks && base / n <= end / n
    ensures Rows(base / n, n) + base % n == base && base % n < n
  {
    hide Rows;
    RowsIsProduct(blocks, n);
    DivBound(base, n, blocks);
    DivParts(base, n);
    RowsIsProduct(base / n, n);
    DivParts(end, n);
    if end / n < base / n { MulAtLeast(base / n - end / n, n); }
  }

  /** A node's rows in 16 equal shares. */
  lemma ShareSize(blocks: nat, n: nat)
    requires n > 0 && n % HostCache.DIES_PER_NODE == 0 && blocks > 0
    ensures blocks * n / HostCache.DIES_PER_NODE > 0
    ensures Rows(HostCache.DIES_PER_NODE, blocks * n / HostCache.DIES_PER_NODE) == Rows(blocks, n)
  {
    var k := n / HostCache.DIES_PER_NODE;
    assert n == HostCache.DIES_PER_NODE * k;
    assert blocks * n == (blocks * k) * HostCache.DIES_PER_NODE;
    DivModUnique(blocks * n, blocks * k, HostCache.DIES_PER_NODE, 0);
    MulAtLeast(blocks, k);
    RowsIsProduct(blocks, n);
    RowsIsProduct(HostCache.DIES_PER_NODE, blocks * k);
  }

  function PerRank(n: nat, blocks: nat): nat { blocks * n / HostCache.DIES_PER_NODE }

  /** The rows that a rank of the node has to read. */
  ghost predicate IsShare<T>(host: seq<T>, n: nat, ids: seq<nat>, localRank: nat, rows: seq<T>) {
    && Fits(n, ids, |host|)
    && var m, all := PerRank(n, |ids|), Blocks(host, n, ids);
       Rows(localRank, m) + m <= |all| && rows == all[Rows(localRank, m)..Rows(localRank, m) + m]
  }

  /** Python's IndexError when no block is wanted at all. */
  method GetCurrentRankHostData<T>(host: seq<T>, n: nat, blockIds: seq<nat>, localRank: nat) returns (r: Option<seq<T>>)
    requires n > 0 && n % HostCache.DIES_PER_NODE == 0 && localRank < HostCache.DIES_PER_NODE
    requires Fits(n, blockIds, |host|)
    ensures r.None? <==> blockIds == []
    ensures r.Some? ==> IsShare(host, n, blockIds, localRank, r.value)
  {
    if |blockIds| == 0 {
      return None;
    }
    ShareSize(|blockIds|, n);
    BlocksLength(host, n, blockIds);
    var perRank: nat := PerRank(n, |blockIds|);
    RowsMonotone(localRank + 1, HostCache.DIES_PER_NODE, perRank);
    var base, end := Rows(localRank, perRank), Rows(localRank + 1, perRank);
    FirstOfShare(base, end, n, |blockIds|);
    LastOfShare(end, n, |blockIds|);
    var rows := ReadBlocks(host, n, blockIds, base / n, Min(end / n, |blockIds| - 1), base % n, perRank);
    r := Some(rows);
  }

  // ----- Gathering ---------------------------------------------------------------------------------------

  ghost predicate Tiles<T>(all: seq<T>, m: nat, shares: seq<seq<T>>) {
    forall k :: 0 <= k < |shares| ==> Rows(k, m) + m <= |all| && shares[k] == all[Rows(k, m)..Rows(k, m) + m]
  }

  /** The shares of consecutive ranks are consecutive rows. */
  lemma {:induction false} SharesTile<T>(all: seq<T>, m: nat, shares: seq<seq<T>>)
    requires Rows(|shares|, m) <= |all| && Tiles(all, m, shares)
    ensures AllGather(shares) == all[..Rows(|shares|, m)]
  {
    if shares != [] {
      TilesInit(all, m, shares);
      SharesTile(all, m, shares[..|shares| - 1]);
      TileNext(all, m, shares);
    }
  }

  lemma TilesInit<T>(all: seq<T>, m: nat, shares: seq<seq<T>>)
    requires Tiles(all, m, shares) && shares != []
    ensures Tiles(all, m, shares[..|shares| - 1])
  {
    var init := shares[..|shares| - 1];
    assert forall k :: 0 <= k < |init| ==> init[k] == shares[k];
  }

  lemma TileNext<T>(all: seq<T>, m: nat, shares: seq<seq<T>>)
    requires Tiles(all, m, shares) && shares != [] && Rows(|shares|, m) <= |all|
    requires AllGather(shares[..|shares| - 1]) == all[..Rows(|shares| - 1, m)]
    ensures AllGather(shares) == all[..Rows(|shares|, m)]
  {
    var k := |shares| - 1;
    assert Rows(|shares|, m) == Rows(k, m) + m;
    hide Rows;
    assert shares[k] == all[Rows(k, m)..Rows(k, m) + m];
    JoinFront(all, Rows(k, m), Rows(k, m) + m);
  }

  // ----- The whole load --------------------------------------------------------------------------------

  /** Node `d` holds its rows of the wanted blocks. */
  ghost predicate NodesHold<T>(hosts: seq<seq<T>>, n: nat, ids: seq<nat>) {
    forall d :: 0 <= d < |hosts| ==> Fits(n, ids, |hosts[d]|)
  }

  /** Every rank of every node has read its share. */
  ghost predicate AllRead<T>(hosts: seq<seq<T>>, n: nat, ids: seq<nat>, shares: seq<seq<T>>) {
    && |shares| == HostCache.DIES_PER_NODE * |hosts|
    && forall r :: 0 <= r < |shares| ==>
      IsShare(hosts[r / HostCache.DIES_PER_NODE], n, ids, r % HostCache.DIES_PER_NODE, shares[r])
  }

  ghost function NodeParts<T>(hosts: seq<seq<T>>, n: nat, ids: seq<nat>): (r: seq<seq<T>>)
    requires NodesHold(hosts, n, ids)
    ensures |r| == |hosts| && forall d :: 0 <= d < |hosts| ==> r[d] == Blocks(hosts[d], n, ids)
  {
    seq(|hosts|, d requires 0 <= d < |hosts| => Blocks(hosts[d], n, ids))
  }

  /** The 16 shares of one node are its rows of the wanted blocks. */
  lemma NodeGathered<T>(host: seq<T>, n: nat, ids: seq<nat>, shares: seq<seq<T>>)
    requires n > 0 && n % HostCache.DIES_PER_NODE == 0 && ids != [] && Fits(n, ids, |host|)
    requires |shares| == HostCache.DIES_PER_NODE
    requires forall k :: 0 <= k < |shares| ==> IsShare(host, n, ids, k, shares[k])
    ensures AllGather(shares) == Blocks(host, n, ids)
  {
    hide AllGather, Rows, Blocks;
    var all, m := Blocks(host, n, ids), PerRank(n, |ids|);
    ShareSize(|ids|, n);
    BlocksLength(host, n, ids);
    assert Tiles(all, m, shares) by {
      forall k | 0 <= k < |shares|
        ensures Rows(k, m) + m <= |all| && shares[k] == all[Rows(k, m)..Rows(k, m) + m]
      {
        assert IsShare(host, n, ids, k, shares[k]);
      }
    }
    SharesTile(all, m, shares);
    assert all[..|all|] == all;
  }

  lemma {:induction false} NodesGathered<T>(hosts: seq<seq<T>>, n: nat, ids: seq<nat>, shares: seq<seq<T>>)
    requires n > 0 && n % HostCache.DIES_PER_NODE == 0 && ids != [] && NodesHold(hosts, n, ids)
    requires AllRead(hosts, n, ids, shares)
    ensures AllGather(shares) == AllGather(NodeParts(hosts, n, ids))
  {
    hide Rows, Blocks, IsShare;
    if hosts != [] {
      var last := |hosts| - 1;
      var head, tail := shares[..HostCache.DIES_PER_NODE * last], shares[HostCache.DIES_PER_NODE * last..];
      assert shares == head + tail;
      forall r | 0 <= r < |head|
        ensures IsShare(hosts[..last][r / HostCache.DIES_PER_NODE], n, ids, r % HostCache.DIES_PER_NODE, head[r])
      {
        assert head[r] == shares[r];
      }
      NodesGathered(hosts[..last], n, ids, head);
      forall k | 0 <= k < |tail|
        ensures IsShare(hosts[last], n, ids, k, tail[k])
      {
        assert tail[k] == shares[HostCache.DIES_PER_NODE * last + k];
      }
      NodeGathered(hosts[last], n, ids, tail);
      GatherConcat(head, tail);
      assert NodeParts(hosts, n, ids)[..last] == NodeParts(hosts[..last], n, ids);
    }
  }

  /** `view(nodes, -1, n)`, `permute(1, 0, 2)` and `view(-1, nodes * n)`: row `off` of block `i`. */
  function ToBlocks<T>(gathered: seq<T>, nodes: nat, m: nat, n: nat): (r: seq<seq<T>>)
    requires n > 0 && |gathered| == nodes * m * n
    ensures |r| == m && forall i :: 0 <= i < m ==> |r[i]| == nodes * n
  {
    seq(m, i requires 0 <= i < m =>
      seq(nodes * n, off requires 0 <= off < nodes * n =>
        ViewBound(nodes, m, n, i, off);
        gathered[(off / n * m + i) * n + off % n]))
  }

  lemma ViewBound(nodes: nat, m: nat, n: nat, i: nat, off: nat)
    requires n > 0 && i < m && off < nodes * n
    ensures 0 <= off / n < nodes && 0 <= (off / n * m + i) * n + off % n < nodes * m * n
  {
    DivBound(off, n, nodes);
    RowBound(off / n, i, m, nodes);
    RowBound(off / n * m + i, off % n, n, nodes * m);
  }

  lemma GatheredLength<T>(hosts: seq<seq<T>>, n: nat, ids: seq<nat>, shares: seq<seq<T>>)
    requires n > 0 && n % HostCache.DIES_PER_NODE == 0 && hosts != [] && ids != []
    requires NodesHold(hosts, n, ids) && AllRead(hosts, n, ids, shares)
    ensures |AllGather(shares)| == |hosts| * |ids| * n
  {
    hide Rows, Blocks, AllGather, IsShare;
    NodesGathered(hosts, n, ids, shares);
    forall d | 0 <= d < |hosts|
      ensures |NodeParts(hosts, n, ids)[d]| == Rows(|ids|, n)
    {
      BlocksLength(hosts[d], n, ids);
    }
    RowsIsProduct(|ids|, n);
    MulAtLeast(|ids|, n);
    GatherAt(NodeParts(hosts, n, ids), Rows(|ids|, n), 0, 0);
    RowsIsProduct(|hosts|, Rows(|ids|, n));
    Distribute(|hosts|, |ids|, n, 0);
  }

  /** Row `j` of block `i` on node `d`, found in the gathered rows. */
  lemma GatheredRow<T>(hosts: seq<seq<T>>, n: nat, ids: seq<nat>, shares: seq<seq<T>>, d: nat, i: nat, j: nat)
    requires n > 0 && n % HostCache.DIES_PER_NODE == 0 && d < |hosts| && i < |ids| && j < n
    requires NodesHold(hosts, n, ids) && AllRead(hosts, n, ids, shares)
    ensures var v := (d * |ids| + i) * n + j;
            && 0 <= v < |AllGather(shares)| && 0 <= ids[i] * n + j < |hosts[d]|
            && AllGather(shares)[v] == hosts[d][ids[i] * n + j]
  {
    hide Rows, Blocks, AllGather, IsShare;
    NodesGathered(hosts, n, ids, shares);
    var size, x := Rows(|ids|, n), Rows(i, n) + j;
    forall e | 0 <= e < |hosts| ensures |NodeParts(hosts, n, ids)[e]| == size { BlocksLength(hosts[e], n, ids); }
    PartInPlace(hosts[d], n, ids, i, j, j + 1);
    var all := Blocks(hosts[d], n, ids);
    assert all[x] == all[x..x + 1][0];
    GatherAt(NodeParts(hosts, n, ids), size, d, x);
    ViewIndex(d, |ids|, i, n);
    RowsIsProduct(ids[i], n);
  }

  /** What a load of whole blocks promises: row `off` of block `i` comes from the node that keeps it. */
  ghost predicate Loaded<T>(hosts: seq<seq<T>>, n: nat, ids: seq<nat>, blocks: seq<seq<T>>)
    requires n > 0
  {
    && |blocks| == |ids|
    && forall i, off :: 0 <= i < |ids| && 0 <= off < |hosts| * n ==>
         LoadedRow(hosts, n, ids[i], off, blocks[i])
  }

  ghost predicate LoadedRow<T>(hosts: seq<seq<T>>, n: nat, id: nat, off: nat, block: seq<T>)
    requires n > 0
  {
    && |block| == |hosts| * n && off < |block| && 0 <= off / n < |hosts|
    && 0 <= id * n + off % n < |hosts[off / n]|
    && block[off] == hosts[off / n][id * n + off % n]
  }

  lemma ToBlocksLoads<T>(hosts: seq<seq<T>>, n: nat, ids: seq<nat>, shares: seq<seq<T>>)
    requires n > 0 && n % HostCache.DIES_PER_NODE == 0 && hosts != [] && ids != []
    requires NodesHold(hosts, n, ids) && AllRead(hosts, n, ids, shares)
    ensures |AllGather(shares)| == |hosts| * |ids| * n
    ensures Loaded(hosts, n, ids, ToBlocks(AllGather(shares), |hosts|, |ids|, n))
  {
    hide Rows, Blocks, AllGather, IsShare, NodesHold, AllRead;
    GatheredLength(hosts, n, ids, shares);
    var blocks := ToBlocks(AllGather(shares), |hosts|, |ids|, n);
    forall i, off | 0 <= i < |ids| && 0 <= off < |hosts| * n
      ensures LoadedRow(hosts, n, ids[i], off, blocks[i])
    {
      ViewBound(|hosts|, |ids|, n, i, off);
      GatheredRow(hosts, n, ids, shares, off / n, i, off % n);
    }
  }

  /** Every rank reads its share, all gather, and each rank sees the blocks. */
  method LoadBlocks<T>(hosts: seq<seq<T>>, n: nat, blockIds: seq<nat>) returns (r: Option<seq<seq<T>>>)
    requires n > 0 && n % HostCache.DIES_PER_NODE == 0 && hosts != [] && NodesHold(hosts, n, blockIds)
    ensures r.None? <==> blockIds == []
    ensures r.Some? ==> Loaded(hosts, n, blockIds, r.value)
  {
    hide IsShare, Loaded, Fits;
    var shares: seq<seq<T>> := [];
    for rank := 0 to HostCache.DIES_PER_NODE * |hosts|
      invariant |shares| == rank && (rank > 0 ==> blockIds != [])
      invariant forall r :: 0 <= r < rank ==>
                  IsShare(hosts[r / HostCache.DIES_PER_NODE], n, blockIds, r % HostCache.DIES_PER_NODE, shares[r])
    {
      var share := GetCurrentRankHostData(hosts[rank / HostCache.DIES_PER_NODE], n, blockIds,
                                          rank % HostCache.DIES_PER_NODE);
      if share.None? { return None; }
      shares := shares + [share.value];
    }
    ToBlocksLoads(hosts, n, blockIds, shares);
    r := Some(ToBlocks(AllGather(shares), |hosts|, |blockIds|, n));
  }
}

/** The sharded query, key and value projection (omni/layers/linear.py, QKVParallelFlashCommLinear).

    Query heads are split over the ranks.  Key/value heads are split too when there are enough of
    them, and otherwise every one of them is replicated on `replicas` neighbouring ranks.
 */
module QkvShards {
  import opened Arith
  import opened Buffers
  import opened Wrappers

  datatype ShardId = Q | K | V

  datatype Shape = Shape(headSize: nat, heads: nat, kvHeads: nat, tp: nat, numHeads: nat, numKvHeads: nat,
                         replicas: nat)

  ghost predicate Valid(s: Shape) {
    && s.headSize > 0 && s.heads > 0 && s.kvHeads > 0 && s.tp > 0
    && s.heads == s.tp * s.numHeads
    && (s.tp >= s.kvHeads ==> s.numKvHeads == 1 && s.tp == s.kvHeads * s.replicas)
    && (s.tp < s.kvHeads ==> s.replicas == 1 && s.kvHeads == s.tp * s.numKvHeads)
  }

  /** The constructor; None is the error of a division that leaves a remainder. */
  function Create(headSize: nat, heads: nat, kvHeads: nat, tp: nat): (r: Option<Shape>)
    requires headSize > 0 && heads > 0 && kvHeads > 0 && tp > 0
    ensures r.Some? <==> heads % tp == 0 && (if tp >= kvHeads then tp % kvHeads == 0 else kvHeads % tp == 0)
    ensures r.Some? ==>
              && Valid(r.value) && r.value.headSize == headSize && r.value.heads == heads
              && r.value.kvHeads == kvHeads && r.value.tp == tp
  {
    DivParts(heads, tp);
    DivParts(tp, kvHeads);
    DivParts(kvHeads, tp);
    if heads % tp != 0 then None
    else if tp >= kvHeads then
      if tp % kvHeads != 0 then None else Some(Shape(headSize, heads, kvHeads, tp, heads / tp, 1, tp / kvHeads))
    else
      if kvHeads % tp != 0 then None else Some(Shape(headSize, heads, kvHeads, tp, heads / tp, kvHeads / tp, 1))
  }

  lemma Positive(s: Shape)
    requires Valid(s)
    ensures s.numHeads > 0 && s.numKvHeads > 0 && s.replicas > 0
    ensures s.tp * s.numKvHeads == s.kvHeads * s.replicas
  {
  }

  // ----- Which rows a rank loads ---------------------------------------------------------------------

  /** Rows of the part that one rank holds. */
  function ShardSize(s: Shape, id: ShardId): nat { (if id.Q? then s.numHeads else s.numKvHeads) * s.headSize }

  /** Rows of the part in the checkpoint. */
  function FullSize(s: Shape, id: ShardId): nat { (if id.Q? then s.heads else s.kvHeads) * s.headSize }

  function ShardOffset(s: Shape, id: ShardId): nat {
    match id
    case Q => 0
    case K => s.numHeads * s.headSize
    case V => (s.numHeads + s.numKvHeads) * s.headSize
  }

  function ShardIndex(s: Shape, id: ShardId, rank: nat): int
    requires Valid(s)
  {
    Positive(s);
    if id.Q? then rank else rank / s.replicas
  }

  /** Row `g` of the part is among those that the rank loads. */
  predicate OnRank(s: Shape, id: ShardId, rank: nat, g: nat)
    requires Valid(s)
  {
    var start := ShardIndex(s, id, rank) * ShardSize(s, id);
    start <= g < start + ShardSize(s, id)
  }

  lemma RowInShard(g: nat, size: nat, shard: nat)
    requires size > 0
    ensures shard * size <= g < shard * size + size <==> shard == g / size
  {
    DivParts(g, size);
    if shard * size <= g < shard * size + size {
      DivModUnique(g, shard, size, g - shard * size);
    }
  }

  /** Every q row is on exactly one rank. */
  lemma QueryRowOwner(s: Shape, g: nat, rank: nat)
    requires Valid(s) && g < FullSize(s, Q)
    ensures ShardSize(s, Q) > 0 && 0 <= g / ShardSize(s, Q) < s.tp
    ensures OnRank(s, Q, rank, g) <==> rank == g / ShardSize(s, Q)
  {
    Positive(s);
    MulAtLeast(s.numHeads, s.headSize);
    var size := s.numHeads * s.headSize;
    MulAssoc(0, 1, s.headSize, 0);
    Distribute(s.tp, s.numHeads, s.headSize, 0);
    DivBound(g, size, s.tp);
    RowInShard(g, size, rank);
  }

  /** Shard `g / size` belongs to the ranks `g / size * replicas ..`, `replicas` of them. */
  lemma Owners(g: nat, size: nat, shards: nat, replicas: nat, rank: nat)
    requires size > 0 && replicas > 0 && g < shards * size
    ensures var c, start := g / size, rank / replicas * size;
            && 0 <= c * replicas && c * replicas + replicas <= shards * replicas
            && (start <= g < start + size <==> c * replicas <= rank < c * replicas + replicas)
  {
    DivBound(g, size, shards);
    DivParts(rank, replicas);
    RowInShard(g, size, rank / replicas);
    RowInShard(rank, replicas, g / size);
    RowBound(g / size, replicas - 1, replicas, shards);
  }

  lemma KvRows(s: Shape)
    requires Valid(s)
    ensures s.numKvHeads * s.headSize > 0
    ensures s.kvHeads * s.headSize == (s.tp / s.replicas) * (s.numKvHeads * s.headSize)
  {
    Positive(s);
    MulAtLeast(s.numKvHeads, s.headSize);
    KvShards(s);
    Distribute(s.tp / s.replicas, s.numKvHeads, s.headSize, 0);
  }

  /** Every k/v row is on exactly `replicas` ranks, and these are neighbours. */
  lemma KeyValueRowOwners(s: Shape, id: ShardId, g: nat, rank: nat)
    requires Valid(s) && !id.Q? && g < FullSize(s, id)
    ensures ShardSize(s, id) > 0
    ensures var first := g / ShardSize(s, id) * s.replicas;
            && 0 <= first && first + s.replicas <= s.tp
            && (OnRank(s, id, rank, g) <==> first <= rank < first + s.replicas)
  {
    KvRows(s);
    KvShards(s);
    hide Valid;
    Owners(g, s.numKvHeads * s.headSize, s.tp / s.replicas, s.replicas, rank);
  }

  lemma KvShards(s: Shape)
    requires Valid(s)
    ensures s.replicas > 0 && s.tp == (s.tp / s.replicas) * s.replicas
    ensures s.kvHeads == (s.tp / s.replicas) * s.numKvHeads
  {
    Positive(s);
    if s.tp >= s.kvHeads {
      DivModUnique(s.tp, s.kvHeads, s.replicas, 0);
    } else {
      DivModUnique(s.tp, s.tp, 1, 0);
    }
  }

  /** Grouped-query attention: local query head `i` reads local key/value head `i / (numHeads / numKvHeads)`,
      and that is the key/value head of its group. */
  lemma HeadsAligned(s: Shape, rank: nat, i: nat)
    requires Valid(s) && s.heads % s.kvHeads == 0 && rank < s.tp && i < s.numHeads
    ensures s.numKvHeads > 0 && s.numHeads % s.numKvHeads == 0 && s.numHeads / s.numKvHeads > 0
    ensures s.heads / s.kvHeads > 0
    ensures 0 <= i / (s.numHeads / s.numKvHeads) < s.numKvHeads
    ensures ShardIndex(s, K, rank) * s.numKvHeads + i / (s.numHeads / s.numKvHeads)
              == (rank * s.numHeads + i) / (s.heads / s.kvHeads)
  {
    Positive(s);
    if s.tp >= s.kvHeads {
      ReplicatedHeads(s, rank, i);
    } else {
      SplitHeads(s, rank, i);
    }
  }

  lemma ReplicatedHeads(s: Shape, rank: nat, i: nat)
    requires Valid(s) && s.tp >= s.kvHeads && rank < s.tp && i < s.numHeads && s.replicas > 0
    ensures s.heads / s.kvHeads > 0
    ensures i / s.numHeads == 0 && rank / s.replicas == (rank * s.numHeads + i) / (s.heads / s.kvHeads)
  {
    var group := s.replicas * s.numHeads;
    GroupSize(s.kvHeads, s.replicas, s.numHeads);
    assert s.heads == s.kvHeads * group;
    DivModUnique(s.heads, group, s.kvHeads, 0);
    ModSmall(i, s.numHeads);
    MulAtLeast(s.replicas, s.numHeads);
    DivParts(rank, s.replicas);
    var c, d := rank / s.replicas, rank % s.replicas;
    Distribute(c, s.replicas, s.numHeads, d);
    RowBound(d, i, s.numHeads, s.replicas);
    DivModUnique(rank * s.numHeads + i, c, group, d * s.numHeads + i);
  }

  lemma GroupSize(a: nat, b: nat, c: nat)
    ensures a * b * c == a * (b * c)
  {
  }

  lemma SplitHeads(s: Shape, rank: nat, i: nat)
    requires Valid(s) && s.tp < s.kvHeads && s.heads % s.kvHeads == 0 && rank < s.tp && i < s.numHeads
    ensures s.numKvHeads > 0 && s.numHeads % s.numKvHeads == 0
    ensures var group := s.heads / s.kvHeads;
            && group > 0 && s.numHeads / s.numKvHeads == group
            && 0 <= i / group < s.numKvHeads
            && rank * s.numKvHeads + i / group == (rank * s.numHeads + i) / group
  {
    Positive(s);
    var group := s.heads / s.kvHeads;
    DivParts(s.heads, s.kvHeads);
    HeadsPerRank(s, group);
    DivModUnique(s.numHeads, group, s.numKvHeads, 0);
    DivBound(i, group, s.numKvHeads);
    DivParts(i, group);
    Distribute(rank, s.numKvHeads, group, i / group);
    DivModUnique(rank * s.numHeads + i, rank * s.numKvHeads + i / group, group, i % group);
  }

  lemma HeadsPerRank(s: Shape, group: nat)
    requires Valid(s) && s.tp < s.kvHeads && s.heads == group * s.kvHeads
    ensures s.numHeads == group * s.numKvHeads && s.numHeads == s.numKvHeads * group && group > 0
  {
    assert s.tp * s.numHeads == group * (s.tp * s.numKvHeads);
    Swap(group, s.tp, s.numKvHeads);
    Cancel(s.tp, s.numHeads, group * s.numKvHeads);
  }

  lemma Swap(a: nat, b: nat, c: nat)
    ensures a * (b * c) == b * (a * c)
  {
  }

  lemma Cancel(m: nat, a: nat, b: nat)
    requires m > 0 && m * a == m * b
    ensures a == b
  {
  }

  // ----- Loading ---------------------------------------------------------------------------------------

  function LocalRows(s: Shape): nat { (s.numHeads + 2 * s.numKvHeads) * s.headSize }

  /** The local parts follow one another and fill the parameter. */
  lemma LocalPartsTile(s: Shape)
    ensures ShardOffset(s, K) == ShardSize(s, Q)
    ensures ShardOffset(s, V) == ShardOffset(s, K) + ShardSize(s, K)
    ensures LocalRows(s) == ShardOffset(s, V) + ShardSize(s, V)
  {
    Spread(s.numHeads, s.numKvHeads, s.headSize);
    Spread(s.numHeads + s.numKvHeads, s.numKvHeads, s.headSize);
  }

  /** The rank's shard lies within the part. */
  lemma ShardFits(s: Shape, id: ShardId, rank: nat)
    requires Valid(s) && rank < s.tp
    ensures 0 <= ShardIndex(s, id, rank) * ShardSize(s, id)
    ensures ShardIndex(s, id, rank) * ShardSize(s, id) + ShardSize(s, id) <= FullSize(s, id)
  {
    Positive(s);
    var size := ShardSize(s, id);
    if id.Q? {
      MulAtLeast(s.numHeads, s.headSize);
      RowBound(rank, size - 1, size, s.tp);
      Distribute(s.tp, s.numHeads, s.headSize, 0);
    } else {
      KvRows(s);
      KvShards(s);
      DivBound(rank, s.replicas, s.tp / s.replicas);
      RowBound(rank / s.replicas, size - 1, size, s.tp / s.replicas);
    }
  }

  /** The rows of a part that the rank is to hold. */
  function RankRows<T>(s: Shape, id: ShardId, rank: nat, loaded: seq<T>): (r: seq<T>)
    requires Valid(s) && rank < s.tp && |loaded| == FullSize(s, id)
    ensures |r| == ShardSize(s, id)
  {
    ShardFits(s, id, rank);
    var start := ShardIndex(s, id, rank) * ShardSize(s, id);
    loaded[start..start + ShardSize(s, id)]
  }

  method LoadShard<T>(param: array<T>, s: Shape, rank: nat, id: ShardId, loaded: seq<T>)
    requires Valid(s) && rank < s.tp && param.Length == LocalRows(s) && |loaded| == FullSize(s, id)
    modifies param
    ensures Written(old(param[..]), param[..], ShardOffset(s, id), RankRows(s, id, rank, loaded))
  {
    LocalPartsTile(s);
    ShardFits(s, id, rank);
    var shardOffset, shardSize := ShardOffset(s, id), ShardSize(s, id);
    var startIdx := ShardIndex(s, id, rank) * shardSize;
    hide Valid, ShardOffset, ShardSize, ShardIndex, LocalRows, FullSize;
    forall k | 0 <= k < shardSize {
      param[shardOffset + k] := loaded[startIdx + k];
    }
  }

  /** The three parts of one fused checkpoint tensor. */
  function Fused<T>(s: Shape, id: ShardId, loaded: seq<T>): (r: seq<T>)
    requires |loaded| == FullSize(s, Q) + FullSize(s, K) + FullSize(s, V)
    ensures |r| == FullSize(s, id)
  {
    match id
    case Q => loaded[..FullSize(s, Q)]
    case K => loaded[FullSize(s, Q)..FullSize(s, Q) + FullSize(s, K)]
    case V => loaded[FullSize(s, Q) + FullSize(s, K)..]
  }

  /** Row by row: the parameter holds the rank's q rows, then the k and the v rows of its shard. */
  ghost predicate FusedLoaded<T>(param: seq<T>, s: Shape, rank: nat, loaded: seq<T>)
    requires s.replicas > 0
  {
    var q, kv, shard := s.numHeads * s.headSize, s.numKvHeads * s.headSize, rank / s.replicas;
    var allQ, allKv := s.heads * s.headSize, s.kvHeads * s.headSize;
    && |param| == q + kv + kv && |loaded| == allQ + allKv + allKv
    && 0 <= rank * q && rank * q + q <= allQ && 0 <= shard * kv && shard * kv + kv <= allKv
    && (forall j :: 0 <= j < q ==> param[j] == loaded[rank * q + j])
    && (forall j :: q <= j < q + kv ==> param[j] == loaded[allQ + shard * kv + (j - q)])
    && (forall j :: q + kv <= j < q + kv + kv ==> param[j] == loaded[allQ + allKv + shard * kv + (j - q - kv)])
  }

  lemma PartsAreLoaded<T>(param: seq<T>, s: Shape, rank: nat, loaded: seq<T>)
    requires Valid(s) && rank < s.tp && |loaded| == FullSize(s, Q) + FullSize(s, K) + FullSize(s, V)
    requires param == RankRows(s, Q, rank, Fused(s, Q, loaded)) + RankRows(s, K, rank, Fused(s, K, loaded))
                      + RankRows(s, V, rank, Fused(s, V, loaded))
    ensures FusedLoaded(param, s, rank, loaded)
  {
    hide Valid, RankRows, Fused;
    Positive(s);
    ShardFits(s, Q, rank);
    ShardFits(s, K, rank);
    PartAt(s, Q, rank, loaded, 0);
    PartAt(s, K, rank, loaded, FullSize(s, Q));
    PartAt(s, V, rank, loaded, FullSize(s, Q) + FullSize(s, K));
    var q, kv, shard := s.numHeads * s.headSize, s.numKvHeads * s.headSize, rank / s.replicas;
    var allQ, allKv := s.heads * s.headSize, s.kvHeads * s.headSize;
    JoinedAt(param, loaded, q, kv, rank * q, allQ + shard * kv, allQ + allKv + shard * kv);
  }

  lemma JoinedAt<T>(joined: seq<T>, s: seq<T>, q: nat, kv: nat, x: nat, y: nat, z: nat)
    requires x + q <= |s| && y + kv <= |s| && z + kv <= |s|
    requires joined == s[x..x + q] + s[y..y + kv] + s[z..z + kv]
    ensures |joined| == q + kv + kv
    ensures forall j :: 0 <= j < q ==> joined[j] == s[x + j]
    ensures forall j :: q <= j < q + kv ==> joined[j] == s[y + (j - q)]
    ensures forall j :: q + kv <= j < q + kv + kv ==> joined[j] == s[z + (j - q - kv)]
  {
  }

  lemma PartAt<T>(s: Shape, id: ShardId, rank: nat, loaded: seq<T>, from: nat)
    requires Valid(s) && rank < s.tp && |loaded| == FullSize(s, Q) + FullSize(s, K) + FullSize(s, V)
    requires from == match id case Q => 0 case K => FullSize(s, Q) case V => FullSize(s, Q) + FullSize(s, K)
    ensures var start := ShardIndex(s, id, rank) * ShardSize(s, id);
            && 0 <= start && from + start + ShardSize(s, id) <= |loaded|
            && RankRows(s, id, rank, Fused(s, id, loaded)) == loaded[from + start..from + start + ShardSize(s, id)]
  {
    ShardFits(s, id, rank);
    var start, size := ShardIndex(s, id, rank) * ShardSize(s, id), ShardSize(s, id);
    FusedAt(s, id, loaded, from);
    hide Valid, ShardIndex, ShardSize, FullSize, Fused;
    Slice(loaded, from, FullSize(s, id), start, start + size);
  }

  lemma FusedAt<T>(s: Shape, id: ShardId, loaded: seq<T>, from: nat)
    requires |loaded| == FullSize(s, Q) + FullSize(s, K) + FullSize(s, V)
    requires from == match id case Q => 0 case K => FullSize(s, Q) case V => FullSize(s, Q) + FullSize(s, K)
    ensures from + FullSize(s, id) <= |loaded| && Fused(s, id, loaded) == loaded[from..from + FullSize(s, id)]
  {
    hide FullSize;
  }

  /** After the three loads the parameter is the rank's q, k and v rows, one part after the other. */
  method LoadFused<T>(param: array<T>, s: Shape, rank: nat, loaded: seq<T>)
    requires Valid(s) && rank < s.tp && param.Length == LocalRows(s)
    requires |loaded| == FullSize(s, Q) + FullSize(s, K) + FullSize(s, V)
    modifies param
    ensures param[..] == RankRows(s, Q, rank, Fused(s, Q, loaded)) + RankRows(s, K, rank, Fused(s, K, loaded))
              + RankRows(s, V, rank, Fused(s, V, loaded))
    ensures FusedLoaded(param[..], s, rank, loaded)
  {
    LocalPartsTile(s);
    hide Valid, ShardOffset, ShardSize, ShardIndex, LocalRows, FullSize, RankRows, Fused, FusedLoaded;
    ghost var a := param[..];
    LoadShard(param, s, rank, Q, Fused(s, Q, loaded));
    ghost var b := param[..];
    LoadShard(param, s, rank, K, Fused(s, K, loaded));
    ghost var c := param[..];
    LoadShard(param, s, rank, V, Fused(s, V, loaded));
    ZeroOffset(s);
    Three(a, b, c, param[..], RankRows(s, Q, rank, Fused(s, Q, loaded)), RankRows(s, K, rank, Fused(s, K, loaded)),
          RankRows(s, V, rank, Fused(s, V, loaded)));
    PartsAreLoaded(param[..], s, rank, loaded);
  }

  lemma ZeroOffset(s: Shape)
    ensures ShardOffset(s, Q) == 0
  {
  }

  lemma Three<T>(a: seq<T>, b: seq<T>, c: seq<T>, d: seq<T>, q: seq<T>, k: seq<T>, v: seq<T>)
    requires Written(a, b, 0, q) && Written(b, c, |q|, k) && Written(c, d, |q| + |k|, v) && |a| == |q| + |k| + |v|
    ensures d == q + k + v
  {
  }
}

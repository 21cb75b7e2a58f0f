/** Linear layers whose input dimension is sharded over the tensor-parallel ranks
    (omni/layers/linear.py, AscendRowParallelLinear, DP2TPRowParallelLinear and
    RowParallelFlashCommLinear).  Floating point is modelled by integers.

    Rank `r` holds columns `r * s .. (r + 1) * s` of the weight.  The ranks' products are summed, and
    only rank 0 adds the bias.
 */
module RowParallel {
  import opened Arith
  import opened Buffers
  import opened Wrappers

  // ----- Products --------------------------------------------------------------------------------

  function Dot(x: seq<int>, w: seq<int>): int
    requires |x| == |w|
  {
    if x == [] then 0 else Dot(x[..|x| - 1], w[..|w| - 1]) + x[|x| - 1] * w[|w| - 1]
  }

  lemma {:induction false} DotConcat(a: seq<int>, b: seq<int>, c: seq<int>, d: seq<int>)
    requires |a| == |c| && |b| == |d|
    ensures Dot(a + b, c + d) == Dot(a, c) + Dot(b, d)
  {
    if b == [] {
      assert a + b == a && c + d == c;
    } else {
      var m := |b| - 1;
      DotConcat(a, b[..m], c, d[..m]);
      assert (a + b)[..|a| + m] == a + b[..m] && (c + d)[..|a| + m] == c + d[..m];
    }
  }

  /** The product with a unit vector picks an entry. */
  lemma {:induction false} DotUnit(x: seq<int>, w: seq<int>, i: nat)
    requires |x| == |w| && i < |x| && forall k :: 0 <= k < |x| ==> x[k] == if k == i then 1 else 0
    ensures Dot(x, w) == w[i]
  {
    var n := |x| - 1;
    if i < n {
      DotUnit(x[..n], w[..n], i);
    } else {
      DotZero(x[..n], w[..n]);
    }
  }

  lemma {:induction false} DotZero(x: seq<int>, w: seq<int>)
    requires |x| == |w| && forall k :: 0 <= k < |x| ==> x[k] == 0
    ensures Dot(x, w) == 0
  {
    if x != [] { DotZero(x[..|x| - 1], w[..|x| - 1]); }
  }

  ghost predicate Wide(m: seq<seq<int>>, width: nat) { forall i :: 0 <= i < |m| ==> |m[i]| == width }

  /** One token through a layer with a row of weights per output. */
  function Linear(w: seq<seq<int>>, x: seq<int>, bias: Option<seq<int>>): (y: seq<int>)
    requires Wide(w, |x|) && (bias.Some? ==> |bias.value| == |w|)
    ensures |y| == |w|
    ensures forall o :: 0 <= o < |y| ==> y[o] == Dot(x, w[o]) + (if bias.Some? then bias.value[o] else 0)
  {
    seq(|w|, o requires 0 <= o < |w| => Dot(x, w[o]) + (if bias.Some? then bias.value[o] else 0))
  }

  // ----- Shards ------------------------------------------------------------------------------------

  /** The part of a row of `tp * s` that belongs to rank `r`. */
  function Part<T>(x: seq<T>, r: nat, s: nat): (p: seq<T>)
    requires Rows(r, s) + s <= |x|
    ensures |p| == s
  {
    x[Rows(r, s)..Rows(r, s) + s]
  }

  lemma PartFits(r: nat, tp: nat, s: nat)
    requires r < tp
    ensures Rows(r, s) + s <= Rows(tp, s)
  {
    RowsMonotone(r + 1, tp, s);
  }

  lemma PartOfPrefix<T>(x: seq<T>, m: nat, r: nat, s: nat)
    requires Rows(r, s) + s <= m <= |x|
    ensures Part(x[..m], r, s) == Part(x, r, s)
  {
    hide Rows;
    var a, b := Part(x[..m], r, s), Part(x, r, s);
    assert forall k :: 0 <= k < s ==> a[k] == b[k];
  }

  /** The weight of rank `r`: its columns of every row. */
  function ShardColumns(w: seq<seq<int>>, r: nat, tp: nat, s: nat): (v: seq<seq<int>>)
    requires r < tp && Wide(w, Rows(tp, s))
    ensures |v| == |w| && Wide(v, s)
  {
    PartFits(r, tp, s);
    seq(|w|, o requires 0 <= o < |w| => Part(w[o], r, s))
  }

  ghost predicate ShardValue(x: seq<int>, w: seq<int>, r: nat, s: nat, extra: int, value: int) {
    && Rows(r, s) + s <= |x| && Rows(r, s) + s <= |w|
    && value == Dot(Part(x, r, s), Part(w, r, s)) + (if r == 0 then extra else 0)
  }

  ghost predicate ShardValues(x: seq<int>, w: seq<int>, tp: nat, s: nat, extra: int, values: seq<int>) {
    |values| == tp && forall r :: 0 <= r < tp ==> ShardValue(x, w, r, s, extra, values[r])
  }

  lemma FirstShards(x: seq<int>, w: seq<int>, tp: nat, s: nat, extra: int, values: seq<int>)
    requires tp > 0 && |x| == |w| == Rows(tp, s) && ShardValues(x, w, tp, s, extra, values)
    ensures var m := Rows(tp - 1, s); m <= |x| && ShardValues(x[..m], w[..m], tp - 1, s, extra, values[..tp - 1])
  {
    hide Dot, Part;
    var m := Rows(tp - 1, s);
    var init := values[..tp - 1];
    forall r | 0 <= r < tp - 1
      ensures ShardValue(x[..m], w[..m], r, s, extra, init[r])
    {
      assert ShardValue(x, w, r, s, extra, values[r]);
      RowsMonotone(r + 1, tp - 1, s);
      PartOfPrefix(x, m, r, s);
      PartOfPrefix(w, m, r, s);
    }
  }

  lemma LastShard(x: seq<int>, w: seq<int>, tp: nat, s: nat)
    requires tp > 0 && |x| == |w| == Rows(tp, s)
    ensures var m := Rows(tp - 1, s);
            m + s == |x| && Dot(x, w) == Dot(x[..m], w[..m]) + Dot(Part(x, tp - 1, s), Part(w, tp - 1, s))
  {
    var m := Rows(tp - 1, s);
    assert m + s == |x|;
    DotConcat(x[..m], x[m..], w[..m], w[m..]);
    assert x == x[..m] + x[m..] && w == w[..m] + w[m..];
    assert Part(x, tp - 1, s) == x[m..] && Part(w, tp - 1, s) == w[m..];
  }

  /** The product of a row is the sum of the products of its shards; `extra` is added on rank 0 only. */
  lemma {:induction false} ShardedDot(x: seq<int>, w: seq<int>, tp: nat, s: nat, extra: int, values: seq<int>)
    requires |x| == |w| == Rows(tp, s) && ShardValues(x, w, tp, s, extra, values)
    ensures Sum(values) == Dot(x, w) + (if tp > 0 then extra else 0)
    decreases tp
  {
    if tp > 0 {
      hide Dot;
      var m := Rows(tp - 1, s);
      FirstShards(x, w, tp, s, extra, values);
      ShardedDot(x[..m], w[..m], tp - 1, s, extra, values[..tp - 1]);
      LastShard(x, w, tp, s);
      assert ShardValue(x, w, tp - 1, s, extra, values[tp - 1]);
    }
  }

  // ----- Loading a rank's columns --------------------------------------------------------------------

  /** Copies the rank's columns into the parameter.  The result is false where narrowing or the shape
      comparison raises, and then nothing is copied. */
  method LoadShard(param: array2<int>, loaded: seq<seq<int>>, width: nat, tpRank: nat) returns (ok: bool)
    requires Wide(loaded, width)
    modifies param
    ensures ok <==> |loaded| == param.Length0 && Rows(tpRank, param.Length1) + param.Length1 <= width
    ensures ok ==> forall o, j :: 0 <= o < param.Length0 && 0 <= j < param.Length1 ==>
              param[o, j] == Part(loaded[o], tpRank, param.Length1)[j]
    ensures !ok ==> forall o, j :: 0 <= o < param.Length0 && 0 <= j < param.Length1 ==> param[o, j] == old(param[o, j])
  {
    var shardSize: nat := param.Length1;
    var startIdx: nat := Rows(tpRank, shardSize);
    if startIdx + shardSize > width || |loaded| != param.Length0 {
      return false;
    }
    forall o, j | 0 <= o < param.Length0 && 0 <= j < shardSize {
      param[o, j] := loaded[o][startIdx + j];
    }
    return true;
  }

  // ----- Collectives -----------------------------------------------------------------------------------

  /** What the ranks hold for row `t`, element `o`. */
  function Across(outs: seq<seq<seq<int>>>, t: nat, o: nat): (r: seq<int>)
    requires forall k :: 0 <= k < |outs| ==> t < |outs[k]| && o < |outs[k][t]|
    ensures |r| == |outs| && forall k :: 0 <= k < |outs| ==> r[k] == outs[k][t][o]
  {
    seq(|outs|, k requires 0 <= k < |outs| => outs[k][t][o])
  }

  ghost predicate Shaped(outs: seq<seq<seq<int>>>, rows: nat, width: nat) {
    forall k :: 0 <= k < |outs| ==> |outs[k]| == rows && Wide(outs[k], width)
  }

  function AllReduce(outs: seq<seq<seq<int>>>, rows: nat, width: nat): (r: seq<seq<int>>)
    requires Shaped(outs, rows, width)
    ensures |r| == rows && Wide(r, width)
    ensures forall t, o :: 0 <= t < rows && 0 <= o < width ==> r[t][o] == Sum(Across(outs, t, o))
  {
    seq(rows, t requires 0 <= t < rows => seq(width, o requires 0 <= o < width => Sum(Across(outs, t, o))))
  }

  /** Rank `p` keeps its equal share of the summed rows. */
  function ReduceScatter(outs: seq<seq<seq<int>>>, tp: nat, rows: nat, width: nat, p: nat): (r: seq<seq<int>>)
    requires Shaped(outs, Rows(tp, rows), width) && p < tp
    ensures |r| == rows
  {
    PartFits(p, tp, rows);
    Part(AllReduce(outs, Rows(tp, rows), width), p, rows)
  }

  // ----- The layer --------------------------------------------------------------------------------------

  /** The full weight, of which rank `r` holds columns `r * s .. (r + 1) * s`. */
  datatype Layer = Layer(weight: seq<seq<int>>, bias: Option<seq<int>>, skipBiasAdd: bool, tp: nat, s: nat)

  ghost predicate Valid(l: Layer) {
    && l.tp > 0 && l.s > 0 && Wide(l.weight, Rows(l.tp, l.s))
    && (l.bias.Some? ==> |l.bias.value| == |l.weight|)
  }

  /** The unsharded layer; with `skipBiasAdd` the bias is returned beside the product. */
  function Whole(l: Layer, x: seq<int>): (y: seq<int>)
    requires Valid(l) && |x| == Rows(l.tp, l.s)
    ensures |y| == |l.weight|
  {
    Linear(l.weight, x, if l.skipBiasAdd then None else l.bias)
  }

  function OutputBias(l: Layer): Option<seq<int>> { if l.skipBiasAdd then l.bias else None }

  /** The product and the bias returned beside it contain the bias once between them. */
  lemma BiasOnce(l: Layer, x: seq<int>, o: nat)
    requires Valid(l) && |x| == Rows(l.tp, l.s) && o < |l.weight|
    ensures Whole(l, x)[o] + (if OutputBias(l).Some? then OutputBias(l).value[o] else 0)
              == Linear(l.weight, x, l.bias)[o]
  {
    hide Rows, Dot;
  }

  /** Rank `r`'s product of rows that already hold only its columns; only rank 0 fuses the bias. */
  function RankRow(l: Layer, r: nat, part: seq<int>): (y: seq<int>)
    requires Valid(l) && r < l.tp && |part| == l.s
    ensures |y| == |l.weight|
  {
    Linear(ShardColumns(l.weight, r, l.tp, l.s), part, if r > 0 || l.skipBiasAdd then None else l.bias)
  }

  function RankOutput(l: Layer, r: nat, input: seq<seq<int>>): (y: seq<seq<int>>)
    requires Valid(l) && r < l.tp && Wide(input, l.s)
    ensures |y| == |input| && Wide(y, |l.weight|)
    ensures forall t :: 0 <= t < |input| ==> y[t] == RankRow(l, r, input[t])
  {
    seq(|input|, t requires 0 <= t < |input| => RankRow(l, r, input[t]))
  }

  /** Row `t` of every rank's output is the rank's product of its columns of `x`. */
  ghost predicate Produced(l: Layer, x: seq<int>, outs: seq<seq<seq<int>>>, t: nat)
    requires Valid(l) && |x| == Rows(l.tp, l.s)
  {
    |outs| == l.tp && forall r :: 0 <= r < l.tp ==> ProducedBy(l, x, outs[r], r, t)
  }

  ghost predicate ProducedBy(l: Layer, x: seq<int>, out: seq<seq<int>>, r: nat, t: nat)
    requires Valid(l) && |x| == Rows(l.tp, l.s) && r < l.tp
  {
    Rows(r, l.s) + l.s <= |x| && t < |out| && out[t] == RankRow(l, r, Part(x, r, l.s))
  }

  lemma ProducedValue(l: Layer, x: seq<int>, out: seq<seq<int>>, r: nat, t: nat, o: nat)
    requires Valid(l) && |x| == Rows(l.tp, l.s) && r < l.tp && ProducedBy(l, x, out, r, t) && o < |l.weight|
    ensures var extra := if l.skipBiasAdd || l.bias.None? then 0 else l.bias.value[o];
            ShardValue(x, l.weight[o], r, l.s, extra, out[t][o])
  {
    hide Dot, Rows;
  }

  /** Summed over the ranks, row `t` is the unsharded product, with the bias exactly once. */
  lemma SummedRow(l: Layer, x: seq<int>, outs: seq<seq<seq<int>>>, rows: nat, t: nat)
    requires Valid(l) && |x| == Rows(l.tp, l.s)
    requires Shaped(outs, rows, |l.weight|) && t < rows && Produced(l, x, outs, t)
    ensures AllReduce(outs, rows, |l.weight|)[t] == Whole(l, x)
  {
    hide Sum, Dot, Rows, ProducedBy;
    var got, want := AllReduce(outs, rows, |l.weight|)[t], Whole(l, x);
    forall o | 0 <= o < |l.weight|
      ensures got[o] == want[o]
    {
      var extra := if l.skipBiasAdd || l.bias.None? then 0 else l.bias.value[o];
      var values := Across(outs, t, o);
      forall r | 0 <= r < l.tp
        ensures ShardValue(x, l.weight[o], r, l.s, extra, values[r])
      {
        ProducedValue(l, x, outs[r], r, t, o);
      }
      ShardedDot(x, l.weight[o], l.tp, l.s, extra, values);
    }
  }

  /** The columns of rank `r` of every row. */
  function PartsOf(x: seq<seq<int>>, r: nat, tp: nat, s: nat): (v: seq<seq<int>>)
    requires r < tp && Wide(x, Rows(tp, s))
    ensures |v| == |x| && Wide(v, s)
    ensures forall t :: 0 <= t < |x| ==> Rows(r, s) + s <= |x[t]| && v[t] == Part(x[t], r, s)
  {
    PartFits(r, tp, s);
    seq(|x|, t requires 0 <= t < |x| => Part(x[t], r, s))
  }

  /** Every rank's product of its columns of the same rows. */
  function RankOutputs(l: Layer, x: seq<seq<int>>): (outs: seq<seq<seq<int>>>)
    requires Valid(l) && Wide(x, Rows(l.tp, l.s))
    ensures |outs| == l.tp && Shaped(outs, |x|, |l.weight|)
    ensures forall r :: 0 <= r < l.tp ==> outs[r] == RankOutput(l, r, PartsOf(x, r, l.tp, l.s))
  {
    seq(l.tp, r requires 0 <= r < l.tp => RankOutput(l, r, PartsOf(x, r, l.tp, l.s)))
  }

  lemma RankOutputsProduced(l: Layer, x: seq<seq<int>>, t: nat)
    requires Valid(l) && Wide(x, Rows(l.tp, l.s)) && t < |x|
    ensures Produced(l, x[t], RankOutputs(l, x), t)
  {
    hide RankRow, Rows;
    forall r | 0 <= r < l.tp ensures ProducedBy(l, x[t], RankOutputs(l, x)[r], r, t) { PartFits(r, l.tp, l.s); }
  }

  datatype ReduceType = AR | RS | NoReduce

  /** What rank `rank` returns; the reduction is skipped for a single rank. */
  function Forward(l: Layer, x: seq<seq<int>>, reduce: ReduceType, tokens: nat, rank: nat): (y: seq<seq<int>>)
    requires Valid(l) && rank < l.tp && Wide(x, Rows(l.tp, l.s))
    requires reduce.RS? && l.tp > 1 ==> |x| == Rows(l.tp, tokens)
  {
    var outs := RankOutputs(l, x);
    if l.tp > 1 then
      match reduce
      case AR => AllReduce(outs, |x|, |l.weight|)
      case RS => ReduceScatter(outs, l.tp, tokens, |l.weight|, rank)
      case NoReduce => outs[rank]
    else outs[rank]
  }

  /** Every rank returns the unsharded product of every row. */
  lemma AllReduceForward(l: Layer, x: seq<seq<int>>, rank: nat, t: nat)
    requires Valid(l) && rank < l.tp && l.tp > 1 && Wide(x, Rows(l.tp, l.s)) && t < |x|
    ensures var y := Forward(l, x, AR, 0, rank); |y| == |x| && y[t] == Whole(l, x[t])
  {
    hide Whole, AllReduce, RankOutputs, Produced;
    RankOutputsProduced(l, x, t);
    SummedRow(l, x[t], RankOutputs(l, x), |x|, t);
  }

  /** Every rank returns the unsharded product of its own rows. */
  lemma ReduceScatterForward(l: Layer, x: seq<seq<int>>, tokens: nat, rank: nat, t: nat)
    requires Valid(l) && rank < l.tp && l.tp > 1 && Wide(x, Rows(l.tp, l.s)) && |x| == Rows(l.tp, tokens) && t < tokens
    ensures Rows(rank, tokens) + t < |x|
    ensures var y := Forward(l, x, RS, tokens, rank); |y| == tokens && y[t] == Whole(l, x[Rows(rank, tokens) + t])
  {
    hide Whole, AllReduce, RankOutputs, Produced;
    PartFits(rank, l.tp, tokens);
    var u := Rows(rank, tokens) + t;
    RankOutputsProduced(l, x, u);
    SummedRow(l, x[u], RankOutputs(l, x), |x|, u);
  }

  /** A single rank returns the product whatever the reduction. */
  lemma SingleRankForward(l: Layer, x: seq<seq<int>>, reduce: ReduceType, tokens: nat, t: nat)
    requires Valid(l) && l.tp == 1 && Wide(x, Rows(l.tp, l.s)) && t < |x|
    ensures var y := Forward(l, x, reduce, tokens, 0); |y| == |x| && y[t] == Whole(l, x[t])
  {
    hide Linear;
    assert Part(x[t], 0, l.s) == x[t];
    OneShard(l.weight, l.s);
  }

  lemma OneShard(w: seq<seq<int>>, s: nat)
    requires Wide(w, Rows(1, s))
    ensures ShardColumns(w, 0, 1, s) == w
  {
    forall o | 0 <= o < |w| ensures ShardColumns(w, 0, 1, s)[o] == w[o] { assert Part(w[o], 0, s) == w[o]; }
  }

  // ----- From data parallel rows to tensor parallel columns ---------------------------------------

  /** `view(tokens, tp, s).transpose(0, 1).contiguous()` as a flat buffer. */
  function SendBuffer(x: seq<seq<int>>, tp: nat, s: nat): (b: seq<int>)
    requires s > 0 && Wide(x, Rows(tp, s))
    ensures |b| == tp * (|x| * s)
  {
    seq(tp * (|x| * s), k requires 0 <= k < tp * (|x| * s) =>
      SendIndex(tp, |x|, s, k);
      x[k % (|x| * s) / s][k / (|x| * s) * s + k % (|x| * s) % s])
  }

  lemma SendIndex(tp: nat, tokens: nat, s: nat, k: nat)
    requires s > 0 && k < tp * (tokens * s)
    ensures tokens * s > 0
    ensures 0 <= k % (tokens * s) / s < tokens && 0 <= k / (tokens * s) * s + k % (tokens * s) % s < Rows(tp, s)
  {
    DivBound(k, tokens * s, tp);
    DivBound(k % (tokens * s), s, tokens);
    RowBound(k / (tokens * s), k % (tokens * s) % s, s, tp);
    RowsIsProduct(tp, s);
  }

  /** Element `j` of column part `q` of token `t` in the buffer. */
  lemma SentElement(x: seq<seq<int>>, tp: nat, s: nat, q: nat, t: nat, j: nat)
    requires s > 0 && Wide(x, Rows(tp, s)) && q < tp && t < |x| && j < s
    ensures 0 <= t * s + j < |x| * s && Rows(q, s) + s <= |x[t]|
    ensures var at := q * (|x| * s) + (t * s + j);
            0 <= at < |SendBuffer(x, tp, s)| && SendBuffer(x, tp, s)[at] == Part(x[t], q, s)[j]
  {
    hide Rows;
    RowBound(t, j, s, |x|);
    RowBound(q, t * s + j, |x| * s, tp);
    RowSplit(q, t * s + j, |x| * s);
    RowSplit(t, j, s);
    PartFits(q, tp, s);
    RowsIsProduct(q, s);
  }

  /** `all_to_all_single`: rank `q` receives piece `q` of every rank's buffer. */
  function AllToAll(buffers: seq<seq<int>>, q: nat, c: nat): seq<int>
    requires forall p :: 0 <= p < |buffers| ==> q * c + c <= |buffers[p]|
  {
    AllGather(seq(|buffers|, p requires 0 <= p < |buffers| => buffers[p][q * c..q * c + c]))
  }

  /** The rows of all the ranks: every rank has `tokens` rows of full width. */
  ghost predicate RankRows(xs: seq<seq<seq<int>>>, tp: nat, tokens: nat, s: nat) {
    |xs| == tp && forall p :: 0 <= p < tp ==> |xs[p]| == tokens && Wide(xs[p], Rows(tp, s))
  }

  function SendBuffers(xs: seq<seq<seq<int>>>, tp: nat, tokens: nat, s: nat): (b: seq<seq<int>>)
    requires s > 0 && RankRows(xs, tp, tokens, s)
    ensures |b| == tp && forall p :: 0 <= p < tp ==> b[p] == SendBuffer(xs[p], tp, s) && |b[p]| == tp * (tokens * s)
  {
    seq(tp, p requires 0 <= p < tp => SendBuffer(xs[p], tp, s))
  }

  lemma PieceFits(q: nat, tp: nat, c: nat)
    requires q < tp
    ensures q * c + c <= tp * c
  {
    MulAtLeast(tp - q, c);
    Spread(q, tp - q, c);
  }

  /** What rank `q` multiplies: `view(tokens * tp, s)` of the received buffer. */
  function Received(xs: seq<seq<seq<int>>>, tp: nat, tokens: nat, s: nat, q: nat): (buffer: seq<int>)
    requires s > 0 && RankRows(xs, tp, tokens, s) && q < tp
  {
    PieceFits(q, tp, tokens * s);
    AllToAll(SendBuffers(xs, tp, tokens, s), q, tokens * s)
  }

  lemma RowsCompose(p: nat, tokens: nat, t: nat, s: nat)
    ensures Rows(Rows(p, tokens) + t, s) == Rows(p, tokens * s) + t * s
    ensures Rows(p, tokens * s) == p * (tokens * s)
  {
    hide Rows;
    RowsIsProduct(p, tokens);
    RowsIsProduct(Rows(p, tokens) + t, s);
    RowsIsProduct(p, tokens * s);
    Distribute(p, tokens, s, t);
  }

  /** Row `p * tokens + t` of the received buffer holds rank `q`'s columns of token `t` of rank `p`. */
  lemma ReceivedElement(xs: seq<seq<seq<int>>>, tp: nat, tokens: nat, s: nat, q: nat, p: nat, t: nat, j: nat)
    requires s > 0 && RankRows(xs, tp, tokens, s) && q < tp && p < tp && t < tokens && j < s
    ensures |Received(xs, tp, tokens, s, q)| == Rows(Rows(tp, tokens), s)
    ensures Rows(q, s) + s <= |xs[p][t]|
    ensures var at := Rows(Rows(p, tokens) + t, s) + j;
            at < Rows(Rows(tp, tokens), s) && Received(xs, tp, tokens, s, q)[at] == Part(xs[p][t], q, s)[j]
  {
    hide Rows, AllGather, SendBuffer;
    var c := tokens * s;
    PieceFits(q, tp, c);
    var bufs := SendBuffers(xs, tp, tokens, s);
    var pieces := seq(tp, e requires 0 <= e < tp => bufs[e][q * c..q * c + c]);
    SentElement(xs[p], tp, s, q, t, j);
    GatherAt(pieces, c, p, t * s + j);
    RowsCompose(p, tokens, t, s);
    RowsCompose(tp, tokens, 0, s);
  }

  lemma ReceivedSize(xs: seq<seq<seq<int>>>, tp: nat, tokens: nat, s: nat, q: nat)
    requires s > 0 && RankRows(xs, tp, tokens, s) && q < tp
    ensures |Received(xs, tp, tokens, s, q)| == Rows(Rows(tp, tokens), s)
  {
    hide Rows, SendBuffer;
    if tokens > 0 {
      ReceivedElement(xs, tp, tokens, s, q, 0, 0, 0);
    } else {
      PieceFits(q, tp, 0);
      var bufs := SendBuffers(xs, tp, 0, s);
      EmptyPieces(seq(tp, e requires 0 <= e < tp => bufs[e][q * 0..q * 0 + 0]));
      RowsCompose(tp, 0, 0, s);
    }
  }

  lemma {:induction false} EmptyPieces(pieces: seq<seq<int>>)
    requires forall k :: 0 <= k < |pieces| ==> |pieces[k]| == 0
    ensures AllGather(pieces) == []
  {
    if pieces != [] { EmptyPieces(pieces[..|pieces| - 1]); }
  }

  /** `view(n, s)`. */
  function ViewRows(buffer: seq<int>, n: nat, s: nat): (rows: seq<seq<int>>)
    requires |buffer| == Rows(n, s)
    ensures |rows| == n && Wide(rows, s)
    ensures forall r :: 0 <= r < n ==> Rows(r, s) + s <= |buffer| && rows[r] == Part(buffer, r, s)
  {
    forall r | 0 <= r < n ensures Rows(r, s) + s <= |buffer| { PartFits(r, n, s); }
    seq(n, r requires 0 <= r < n => Part(buffer, r, s))
  }

  /** The received buffer viewed as `tp * tokens` rows of `s`. */
  function ReceivedRows(xs: seq<seq<seq<int>>>, tp: nat, tokens: nat, s: nat, q: nat): (rows: seq<seq<int>>)
    requires s > 0 && RankRows(xs, tp, tokens, s) && q < tp
    ensures |rows| == Rows(tp, tokens) && Wide(rows, s)
  {
    ReceivedSize(xs, tp, tokens, s, q);
    ViewRows(Received(xs, tp, tokens, s, q), Rows(tp, tokens), s)
  }

  /** Row `p * tokens + t` is rank `q`'s columns of token `t` of rank `p`. */
  lemma ReceivedRow(xs: seq<seq<seq<int>>>, tp: nat, tokens: nat, s: nat, q: nat, p: nat, t: nat)
    requires s > 0 && RankRows(xs, tp, tokens, s) && q < tp && p < tp && t < tokens
    ensures Rows(p, tokens) + t < Rows(tp, tokens) && Rows(q, s) + s <= |xs[p][t]|
    ensures ReceivedRows(xs, tp, tokens, s, q)[Rows(p, tokens) + t] == Part(xs[p][t], q, s)
  {
    hide Rows, Received, Part, ReceivedRows;
    ReceivedRowElement(xs, tp, tokens, s, q, p, t, 0);
    var got, want := ReceivedRows(xs, tp, tokens, s, q)[Rows(p, tokens) + t], Part(xs[p][t], q, s);
    forall j | 0 <= j < s ensures got[j] == want[j] {
      ReceivedRowElement(xs, tp, tokens, s, q, p, t, j);
    }
  }

  lemma ReceivedRowElement(xs: seq<seq<seq<int>>>, tp: nat, tokens: nat, s: nat, q: nat, p: nat, t: nat, j: nat)
    requires s > 0 && RankRows(xs, tp, tokens, s) && q < tp && p < tp && t < tokens && j < s
    ensures Rows(p, tokens) + t < Rows(tp, tokens) && Rows(q, s) + s <= |xs[p][t]|
    ensures ReceivedRows(xs, tp, tokens, s, q)[Rows(p, tokens) + t][j] == Part(xs[p][t], q, s)[j]
  {
    hide Rows, Received, RankRows;
    ReceivedSize(xs, tp, tokens, s, q);
    PartFits(p, tp, tokens);
    ReceivedElement(xs, tp, tokens, s, q, p, t, j);
    ViewRowAt(Received(xs, tp, tokens, s, q), Rows(tp, tokens), s, Rows(p, tokens) + t, j);
    hide Part, ViewRows;
  }

  lemma ViewRowAt(buffer: seq<int>, n: nat, s: nat, r: nat, j: nat)
    requires |buffer| == Rows(n, s) && r < n && j < s
    ensures Rows(r, s) + j < |buffer| && ViewRows(buffer, n, s)[r][j] == buffer[Rows(r, s) + j]
  {
    PartFits(r, n, s);
    hide Rows;
  }

  /** Every rank's product of what it received. */
  function ExchangedOutputs(l: Layer, xs: seq<seq<seq<int>>>, tokens: nat): (outs: seq<seq<seq<int>>>)
    requires Valid(l) && RankRows(xs, l.tp, tokens, l.s)
    ensures |outs| == l.tp && Shaped(outs, Rows(l.tp, tokens), |l.weight|)
  {
    seq(l.tp, q requires 0 <= q < l.tp =>
      RankOutput(l, q, ReceivedRows(xs, l.tp, tokens, l.s, q)))
  }

  /** `DP2TPRowParallelLinear.forward` on rank `p`, whose own tokens are `xs[p]`. */
  function ExchangeForward(l: Layer, xs: seq<seq<seq<int>>>, tokens: nat, reduceResults: bool,
                           p: nat): (y: seq<seq<int>>)
    requires Valid(l) && RankRows(xs, l.tp, tokens, l.s) && p < l.tp
  {
    var outs := ExchangedOutputs(l, xs, tokens);
    if reduceResults && l.tp > 1 then ReduceScatter(outs, l.tp, tokens, |l.weight|, p) else outs[p]
  }

  lemma ExchangedProduced(l: Layer, xs: seq<seq<seq<int>>>, tokens: nat, p: nat, t: nat)
    requires Valid(l) && RankRows(xs, l.tp, tokens, l.s) && p < l.tp && t < tokens
    ensures Produced(l, xs[p][t], ExchangedOutputs(l, xs, tokens), Rows(p, tokens) + t)
  {
    hide Rows, RankRow, ReceivedRows, Received;
    var outs := ExchangedOutputs(l, xs, tokens);
    forall q | 0 <= q < l.tp
      ensures ProducedBy(l, xs[p][t], outs[q], q, Rows(p, tokens) + t)
    {
      ReceivedRow(xs, l.tp, tokens, l.s, q, p, t);
    }
  }

  /** Each rank gets exactly its own tokens times the full weight, with the bias once. */
  lemma ExchangeForwardIsWhole(l: Layer, xs: seq<seq<seq<int>>>, tokens: nat, p: nat, t: nat)
    requires Valid(l) && l.tp > 1 && RankRows(xs, l.tp, tokens, l.s) && p < l.tp && t < tokens
    ensures var y := ExchangeForward(l, xs, tokens, true, p); |y| == tokens && y[t] == Whole(l, xs[p][t])
  {
    hide Whole, AllReduce, ExchangedOutputs, Produced;
    PartFits(p, l.tp, tokens);
    ExchangedProduced(l, xs, tokens, p, t);
    SummedRow(l, xs[p][t], ExchangedOutputs(l, xs, tokens), Rows(l.tp, tokens), Rows(p, tokens) + t);
  }

  lemma ExchangeForwardAlone(l: Layer, xs: seq<seq<seq<int>>>, tokens: nat, reduceResults: bool, t: nat)
    requires Valid(l) && l.tp == 1 && RankRows(xs, l.tp, tokens, l.s) && t < tokens
    ensures var y := ExchangeForward(l, xs, tokens, reduceResults, 0); |y| == tokens && y[t] == Whole(l, xs[0][t])
  {
    hide Linear, ReceivedRows, Received;
    ExchangedProduced(l, xs, tokens, 0, t);
    var outs := ExchangedOutputs(l, xs, tokens);
    assert ProducedBy(l, xs[0][t], outs[0], 0, Rows(0, tokens) + t);
    assert Part(xs[0][t], 0, l.s) == xs[0][t];
    OneShard(l.weight, l.s);
  }
}

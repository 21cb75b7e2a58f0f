/** The tensor-parallel gated MLP (omni/layers/fused_mlp/layer.py, FusedMLP, and the merged column
    loader of omni/layers/linear.py).

    Rank `r` holds shard `r` of the gate rows followed by shard `r` of the up rows, and the columns of
    the down projection that belong to them.  The activation is an uninterpreted function.
 */
module GatedMlp {
  import opened Arith
  import opened Buffers
  import opened RowParallel
  import opened Wrappers

  // ----- Loading the merged columns -------------------------------------------------------------------

  ghost predicate Divisible(sizes: seq<nat>, tp: nat) {
    tp > 0 && forall i :: 0 <= i < |sizes| ==> sizes[i] % tp == 0
  }

  function LocalSizes(sizes: seq<nat>, tp: nat): (r: seq<nat>)
    requires tp > 0
    ensures |r| == |sizes| && forall i :: 0 <= i < |r| ==> r[i] == sizes[i] / tp
  {
    seq(|sizes|, i requires 0 <= i < |sizes| => sizes[i] / tp)
  }

  /** `sum(sizes[:id]) // tp` is where the local shards before `id` end. */
  lemma {:induction false} OffsetIsSum(sizes: seq<nat>, tp: nat, id: nat)
    requires Divisible(sizes, tp) && id <= |sizes|
    ensures SumTo(sizes, id) / tp == SumTo(LocalSizes(sizes, tp), id) && SumTo(sizes, id) % tp == 0
  {
    if id == 0 {
      ModSmall(0, tp);
    } else {
      OffsetIsSum(sizes, tp, id - 1);
      OffsetStep(SumTo(sizes, id - 1), sizes[id - 1], tp);
    }
  }

  lemma OffsetStep(a: nat, b: nat, tp: nat)
    requires tp > 0 && a % tp == 0 && b % tp == 0
    ensures (a + b) / tp == a / tp + b / tp && (a + b) % tp == 0
  {
    DivParts(a, tp);
    DivParts(b, tp);
    Spread(a / tp, b / tp, tp);
    DivModUnique(a + b, a / tp + b / tp, tp, 0);
  }

  /** One part of the merged weight; false where an assertion or narrowing raises. */
  method LoadMergedShard<T>(param: array<T>, sizes: seq<nat>, tp: nat, tpRank: nat, shardId: nat, loaded: seq<T>)
    returns (ok: bool)
    requires Divisible(sizes, tp) && param.Length == SumTo(LocalSizes(sizes, tp), |sizes|)
    modifies param
    ensures ok <==> shardId < |sizes| && Rows(tpRank, sizes[shardId] / tp) + sizes[shardId] / tp <= |loaded|
    ensures !ok ==> param[..] == old(param[..])
    ensures ok ==> Written(old(param[..]), param[..], SumTo(LocalSizes(sizes, tp), shardId),
                           Part(loaded, tpRank, sizes[shardId] / tp))
  {
    hide SumTo, Rows;
    if shardId >= |sizes| { return false; }
    OffsetIsSum(sizes, tp, shardId);
    OffsetIsSum(sizes, tp, |sizes|);
    FitsInSum(LocalSizes(sizes, tp), shardId);
    var shardOffset, shardSize := SumTo(sizes, shardId) / tp, sizes[shardId] / tp;
    var startIdx := Rows(tpRank, shardSize);
    if startIdx + shardSize > |loaded| { return false; }
    forall k | 0 <= k < shardSize {
      param[shardOffset + k] := loaded[startIdx + k];
    }
    return true;
  }

  lemma FitsInSum(counts: seq<nat>, i: nat)
    requires i < |counts|
    ensures SumTo(counts, i) + counts[i] <= SumTo(counts, |counts|)
  {
    SumMonotone(counts, i + 1, |counts|);
  }

  /** What the rank is to hold of every part. */
  function LocalParts<T>(weights: seq<seq<T>>, sizes: seq<nat>, tp: nat, r: nat): (parts: seq<seq<T>>)
    requires Divisible(sizes, tp) && r < tp && |weights| == |sizes|
    requires forall i :: 0 <= i < |sizes| ==> |weights[i]| == sizes[i]
    ensures |parts| == |sizes|
    ensures forall i :: 0 <= i < |parts| ==>
              Rows(r, sizes[i] / tp) + sizes[i] / tp <= |weights[i]| && parts[i] == Part(weights[i], r, sizes[i] / tp)
  {
    forall i | 0 <= i < |sizes| ensures Rows(r, sizes[i] / tp) + sizes[i] / tp <= |weights[i]| {
      ShardFits(sizes[i], tp, r);
    }
    seq(|sizes|, i requires 0 <= i < |sizes| => Part(weights[i], r, sizes[i] / tp))
  }

  lemma ShardFits(size: nat, tp: nat, r: nat)
    requires tp > 0 && r < tp && size % tp == 0
    ensures Rows(tp, size / tp) == size && Rows(r, size / tp) + size / tp <= size
  {
    hide Rows;
    DivParts(size, tp);
    RowsIsProduct(tp, size / tp);
    PartFits(r, tp, size / tp);
  }

  /** Part `i` is in its place. */
  ghost predicate Holds<T>(param: seq<T>, counts: seq<nat>, i: nat, part: seq<T>) {
    && i < |counts| && |part| == counts[i] && SumTo(counts, i) + counts[i] <= |param|
    && param[SumTo(counts, i)..SumTo(counts, i) + counts[i]] == part
  }

  lemma WrittenHolds<T>(before: seq<T>, after: seq<T>, counts: seq<nat>, i: nat, part: seq<T>)
    requires i < |counts| && |part| == counts[i] && Written(before, after, SumTo(counts, i), part)
    ensures Holds(after, counts, i, part)
  {
    hide SumTo;
  }

  lemma OthersStay<T>(before: seq<T>, after: seq<T>, counts: seq<nat>, i: nat, part: seq<T>, j: nat, other: seq<T>)
    requires i < |counts| && |part| == counts[i] && Written(before, after, SumTo(counts, i), part)
    requires i != j && Holds(before, counts, j, other)
    ensures Holds(after, counts, j, other)
  {
    if i < j { SumMonotone(counts, i + 1, j); } else { SumMonotone(counts, j + 1, i); }
    Separate(before, after, SumTo(counts, i), part, SumTo(counts, j), counts[j]);
  }

  lemma {:induction false} HoldsAll<T>(param: seq<T>, counts: seq<nat>, parts: seq<seq<T>>, n: nat)
    requires |parts| == |counts| && n <= |parts| && SumTo(counts, n) <= |param|
    requires forall i :: 0 <= i < n ==> Holds(param, counts, i, parts[i])
    ensures AllGather(parts[..n]) == param[..SumTo(counts, n)]
  {
    if n > 0 {
      assert Holds(param, counts, n - 1, parts[n - 1]);
      HoldsAll(param, counts, parts, n - 1);
      NextPart(parts, n - 1, parts[n - 1]);
      JoinFront(param, SumTo(counts, n - 1), SumTo(counts, n));
    }
  }

  /** Loading every part once or more, in any order, leaves the rank's shards one after the other. */
  method LoadMerged<T>(param: array<T>, sizes: seq<nat>, tp: nat, tpRank: nat, weights: seq<seq<T>>, order: seq<nat>)
    requires Divisible(sizes, tp) && tpRank < tp && param.Length == SumTo(LocalSizes(sizes, tp), |sizes|)
    requires |weights| == |sizes| && forall i :: 0 <= i < |sizes| ==> |weights[i]| == sizes[i]
    requires (forall k :: 0 <= k < |order| ==> order[k] < |sizes|) && forall i :: 0 <= i < |sizes| ==> i in order
    modifies param
    ensures param[..] == AllGather(LocalParts(weights, sizes, tp, tpRank))
  {
    hide SumTo, Rows, AllGather, Holds, Written;
    ghost var counts, parts := LocalSizes(sizes, tp), LocalParts(weights, sizes, tp, tpRank);
    for k := 0 to |order|
      invariant forall i :: 0 <= i < |sizes| && i in order[..k] ==> Holds(param[..], counts, i, parts[i])
    {
      ghost var before := param[..];
      var id := order[k];
      var ok := LoadMergedShard(param, sizes, tp, tpRank, id, weights[id]);
      forall i | 0 <= i < |sizes| && i in order[..k + 1]
        ensures Holds(param[..], counts, i, parts[i])
      {
        if i == id {
          WrittenHolds(before, param[..], counts, id, parts[id]);
        } else {
          OthersStay(before, param[..], counts, id, parts[id], i, parts[i]);
        }
      }
    }
    assert order[..|order|] == order && parts[..|parts|] == parts;
    HoldsAll(param[..], counts, parts, |parts|);
    assert param[..param.Length] == param[..];
  }

  // ----- The MLP ---------------------------------------------------------------------------------------

  /** `SiluAndMul`: the activated first half times the second half. */
  function SiluAndMul(silu: int -> int, y: seq<int>): (h: seq<int>)
    ensures |h| == |y| / 2 && forall i :: 0 <= i < |h| ==> h[i] == silu(y[i]) * y[|y| / 2 + i]
  {
    seq(|y| / 2, i requires 0 <= i < |y| / 2 => silu(y[i]) * y[|y| / 2 + i])
  }

  /** `down` is the row-sharded projection, without bias; its input size is the intermediate size. */
  datatype Mlp = Mlp(silu: int -> int, gate: seq<seq<int>>, up: seq<seq<int>>, hidden: nat, down: Layer)

  ghost predicate ValidMlp(m: Mlp) {
    && Valid(m.down) && m.down.bias.None?
    && |m.gate| == |m.up| == Rows(m.down.tp, m.down.s)
    && Wide(m.gate, m.hidden) && Wide(m.up, m.hidden)
  }

  /** The unsharded MLP on one token. */
  function WholeMlp(m: Mlp, x: seq<int>): (y: seq<int>)
    requires ValidMlp(m) && |x| == m.hidden
  {
    Whole(m.down, Hidden(m, x))
  }

  function Hidden(m: Mlp, x: seq<int>): (h: seq<int>)
    requires ValidMlp(m) && |x| == m.hidden
    ensures |h| == |m.gate|
    ensures forall i :: 0 <= i < |h| ==> h[i] == m.silu(Dot(x, m.gate[i])) * Dot(x, m.up[i])
  {
    SiluAndMul(m.silu, Linear(m.gate + m.up, x, None))
  }

  /** The merged weight of rank `r`, as its loader leaves it. */
  function GateUp(m: Mlp, r: nat): (w: seq<seq<int>>)
    requires ValidMlp(m) && r < m.down.tp
    ensures |w| == 2 * m.down.s && Wide(w, m.hidden)
  {
    PartFits(r, m.down.tp, m.down.s);
    Part(m.gate, r, m.down.s) + Part(m.up, r, m.down.s)
  }

  /** This is what loading gate and up, in either order, leaves on the rank. */
  lemma GateUpIsLoaded(m: Mlp, r: nat)
    requires ValidMlp(m) && r < m.down.tp
    ensures var size, tp := |m.gate|, m.down.tp;
            && Divisible([size, size], tp)
            && GateUp(m, r) == AllGather(LocalParts([m.gate, m.up], [size, size], tp, r))
  {
    hide Rows, AllGather;
    var size, tp := |m.gate|, m.down.tp;
    RowsIsProduct(tp, m.down.s);
    DivModUnique(size, m.down.s, tp, 0);
    var parts := LocalParts([m.gate, m.up], [size, size], tp, r);
    assert parts == [parts[0]] + [parts[1]];
    GatherPair(parts[0], parts[1]);
  }

  lemma GatherPair<T>(a: seq<T>, b: seq<T>)
    ensures AllGather([a] + [b]) == a + b
  {
    assert ([a] + [b])[..1] == [a] && [a][..0] == [];
    assert AllGather([a]) == a;
  }

  /** Rank `r`'s activation of one token. */
  function RankHidden(m: Mlp, r: nat, x: seq<int>): (h: seq<int>)
    requires ValidMlp(m) && r < m.down.tp && |x| == m.hidden
    ensures |h| == m.down.s
  {
    SiluAndMul(m.silu, Linear(GateUp(m, r), x, None))
  }

  /** Gate and up stay aligned: the rank's activation is its part of the whole activation. */
  lemma RankHiddenIsPart(m: Mlp, r: nat, x: seq<int>)
    requires ValidMlp(m) && r < m.down.tp && |x| == m.hidden
    ensures Rows(r, m.down.s) + m.down.s <= |Hidden(m, x)|
    ensures RankHidden(m, r, x) == Part(Hidden(m, x), r, m.down.s)
  {
    hide Rows, Dot, Hidden;
    PartFits(r, m.down.tp, m.down.s);
    var got, want := RankHidden(m, r, x), Part(Hidden(m, x), r, m.down.s);
    forall i | 0 <= i < m.down.s ensures got[i] == want[i] {
      assert GateUp(m, r)[i] == m.gate[Rows(r, m.down.s) + i];
      assert GateUp(m, r)[m.down.s + i] == m.up[Rows(r, m.down.s) + i];
    }
  }

  datatype Transform = NoTransform | Gathered

  /** The rows that a rank works on; `xs[p]` are the rows that rank `p` was given. */
  function Transformed(xs: seq<seq<seq<int>>>, transform: Transform, r: nat): seq<seq<int>>
    requires r < |xs|
  {
    match transform
    case NoTransform => xs[r]
    case Gathered => AllGather(xs)
  }

  /** `apply` on rank `r`: nothing is reduced yet. */
  function Apply(m: Mlp, r: nat, z: seq<seq<int>>): (y: seq<seq<int>>)
    requires ValidMlp(m) && r < m.down.tp && Wide(z, m.hidden)
    ensures |y| == |z| && Wide(y, |m.down.weight|)
    ensures forall t :: 0 <= t < |z| ==> y[t] == RankRow(m.down, r, RankHidden(m, r, z[t]))
  {
    RankOutput(m.down, r, seq(|z|, t requires 0 <= t < |z| => RankHidden(m, r, z[t])))
  }

  ghost predicate GivenRows(m: Mlp, xs: seq<seq<seq<int>>>, transform: Transform, rows: nat)
    requires ValidMlp(m)
  {
    && |xs| == m.down.tp
    && forall r :: 0 <= r < |xs| ==>
      |Transformed(xs, transform, r)| == rows && Wide(Transformed(xs, transform, r), m.hidden)
  }

  function Outputs(m: Mlp, xs: seq<seq<seq<int>>>, transform: Transform, rows: nat): (outs: seq<seq<seq<int>>>)
    requires ValidMlp(m) && GivenRows(m, xs, transform, rows)
    ensures |outs| == m.down.tp && Shaped(outs, rows, |m.down.weight|)
    ensures forall r :: 0 <= r < |outs| ==> outs[r] == Apply(m, r, Transformed(xs, transform, r))
  {
    seq(m.down.tp, r requires 0 <= r < m.down.tp => Apply(m, r, Transformed(xs, transform, r)))
  }

  /** `FusedMLP.forward` on rank `p`. */
  function MlpForward(m: Mlp, xs: seq<seq<seq<int>>>, transform: Transform, reduce: ReduceType, rows: nat, tokens: nat,
                      p: nat): (y: seq<seq<int>>)
    requires ValidMlp(m) && GivenRows(m, xs, transform, rows) && p < m.down.tp
    requires reduce.RS? && m.down.tp > 1 ==> rows == Rows(m.down.tp, tokens)
  {
    var outs := Outputs(m, xs, transform, rows);
    if m.down.tp > 1 then
      match reduce
      case AR => AllReduce(outs, rows, |m.down.weight|)
      case RS => ReduceScatter(outs, m.down.tp, tokens, |m.down.weight|, p)
      case NoReduce => outs[p]
    else outs[p]
  }

  /** All ranks work on the same row `t`. */
  ghost predicate SameRow(xs: seq<seq<seq<int>>>, transform: Transform, t: nat, x: seq<int>) {
    forall r :: 0 <= r < |xs| ==> t < |Transformed(xs, transform, r)| && Transformed(xs, transform, r)[t] == x
  }

  lemma OutputsProduced(m: Mlp, xs: seq<seq<seq<int>>>, transform: Transform, rows: nat, t: nat, x: seq<int>)
    requires ValidMlp(m) && GivenRows(m, xs, transform, rows) && t < rows && |x| == m.hidden
    requires SameRow(xs, transform, t, x)
    ensures Produced(m.down, Hidden(m, x), Outputs(m, xs, transform, rows), t)
  {
    hide Rows, Hidden, RankHidden, RankRow, Transformed;
    forall r | 0 <= r < m.down.tp
      ensures ProducedBy(m.down, Hidden(m, x), Outputs(m, xs, transform, rows)[r], r, t)
    {
      RankHiddenIsPart(m, r, x);
      assert Transformed(xs, transform, r)[t] == x;
    }
  }

  lemma ReducedRow(m: Mlp, xs: seq<seq<seq<int>>>, transform: Transform, rows: nat, t: nat, x: seq<int>)
    requires ValidMlp(m) && GivenRows(m, xs, transform, rows) && t < rows && |x| == m.hidden
    requires SameRow(xs, transform, t, x)
    ensures AllReduce(Outputs(m, xs, transform, rows), rows, |m.down.weight|)[t] == WholeMlp(m, x)
  {
    hide Rows, Hidden, AllReduce, Produced;
    OutputsProduced(m, xs, transform, rows, t, x);
    SummedRow(m.down, Hidden(m, x), Outputs(m, xs, transform, rows), rows, t);
  }

  /** With AR every rank returns the unsharded MLP of the rows that all ranks share. */
  lemma AllReduceMlp(m: Mlp, xs: seq<seq<seq<int>>>, transform: Transform, rows: nat, p: nat, t: nat, x: seq<int>)
    requires ValidMlp(m) && m.down.tp > 1 && GivenRows(m, xs, transform, rows) && p < m.down.tp && t < rows
    requires |x| == m.hidden && SameRow(xs, transform, t, x)
    ensures var y := MlpForward(m, xs, transform, AR, rows, 0, p); |y| == rows && y[t] == WholeMlp(m, x)
  {
    hide WholeMlp, AllReduce, Outputs;
    ReducedRow(m, xs, transform, rows, t, x);
  }

  /** Gathering and scattering: every rank gets the unsharded MLP of its own tokens. */
  lemma GatherScatterMlp(m: Mlp, xs: seq<seq<seq<int>>>, tokens: nat, p: nat, t: nat)
    requires ValidMlp(m) && m.down.tp > 1 && |xs| == m.down.tp && p < m.down.tp && t < tokens
    requires forall r :: 0 <= r < |xs| ==> |xs[r]| == tokens && Wide(xs[r], m.hidden)
    ensures |xs[p][t]| == m.hidden
    ensures var rows := Rows(m.down.tp, tokens);
            && GivenRows(m, xs, Gathered, rows)
            && var y := MlpForward(m, xs, Gathered, RS, rows, tokens, p);
               |y| == tokens && y[t] == WholeMlp(m, xs[p][t])
  {
    hide WholeMlp, AllReduce, Outputs, Rows, AllGather;
    var rows := Rows(m.down.tp, tokens);
    GatherWide(xs, m.hidden);
    GatherAt(xs, tokens, p, t);
    PartFits(p, m.down.tp, tokens);
    ReducedRow(m, xs, Gathered, rows, Rows(p, tokens) + t, xs[p][t]);
  }

  lemma {:induction false} GatherWide(xs: seq<seq<seq<int>>>, width: nat)
    requires forall r :: 0 <= r < |xs| ==> Wide(xs[r], width)
    ensures Wide(AllGather(xs), width)
  {
    if xs != [] { GatherWide(xs[..|xs| - 1], width); }
  }

  /** On a single rank nothing is reduced and the result is the MLP already. */
  lemma SingleRankMlp(m: Mlp, xs: seq<seq<seq<int>>>, transform: Transform, reduce: ReduceType, rows: nat, tokens: nat,
                      t: nat)
    requires ValidMlp(m) && m.down.tp == 1 && GivenRows(m, xs, transform, rows) && t < rows
    ensures var y := MlpForward(m, xs, transform, reduce, rows, tokens, 0);
            |y| == rows && y[t] == WholeMlp(m, Transformed(xs, transform, 0)[t])
  {
    hide Linear, Hidden, RankHidden, Transformed;
    var x := Transformed(xs, transform, 0)[t];
    RankHiddenIsPart(m, 0, x);
    assert Part(Hidden(m, x), 0, m.down.s) == Hidden(m, x);
    OneShard(m.down.weight, m.down.s);
  }
}

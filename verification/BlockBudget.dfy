/** How the memory for KV blocks is divided between full-attention and windowed layers
    (omni/accelerators/cache/kv_cache_interface.py, get_kv_cache_config_omni_type).

    The share BETA is a fraction here, `betaNum / betaDen`, so floors are exact.
 */
module BlockBudget {
  import opened Arith
  import opened Buffers

  datatype Kind = FullLayer | OmniLayer | OtherLayer

  /** `full` and `omni` count the layers in the repository's PATTERN. */
  datatype Pattern = Pattern(full: nat, omni: nat, betaNum: nat, betaDen: nat)

  ghost predicate Valid(p: Pattern) { p.betaDen > 0 && p.betaNum <= p.betaDen }

  /** The most blocks that every layer can have. */
  function UniformBlocks(availableMemory: int, pageSize: nat, layers: nat): (r: nat)
    requires pageSize > 0 && layers > 0
    ensures availableMemory < 0 ==> r == 0
    ensures availableMemory >= 0 ==>
              r * layers * pageSize <= availableMemory < (r + 1) * layers * pageSize
  {
    UniformIsMost(availableMemory, pageSize, layers);
    var n := availableMemory / pageSize / layers;
    if n < 0 then 0 else n
  }

  function OmniBlocks(p: Pattern, blocks: nat): (r: nat)
    requires Valid(p)
    ensures r * p.betaDen <= blocks * p.betaNum < (r + 1) * p.betaDen
  {
    FloorIsBelow(blocks * p.betaNum, p.betaDen);
    blocks * p.betaNum / p.betaDen
  }

  /** `1 + (1 - BETA) * omni / (full + 1)` times the blocks, with the denominators cleared. */
  function FullBlocks(p: Pattern, blocks: nat): (r: nat)
    requires Valid(p)
    ensures var scale := p.betaDen * (p.full + 1);
            r * scale <= blocks * (scale + (p.betaDen - p.betaNum) * p.omni) < (r + 1) * scale
  {
    var scale := p.betaDen * (p.full + 1);
    MulAtLeast(p.betaDen, p.full + 1);
    NotNegative(p.betaDen - p.betaNum, p.omni);
    NotNegative(blocks, scale + (p.betaDen - p.betaNum) * p.omni);
    FloorIsBelow(blocks * (scale + (p.betaDen - p.betaNum) * p.omni), scale);
    blocks * (scale + (p.betaDen - p.betaNum) * p.omni) / scale
  }

  lemma NotNegative(a: nat, b: nat)
    ensures a * b >= 0
  {
  }

  lemma FloorIsBelow(a: nat, m: nat)
    requires m > 0
    ensures 0 <= a / m && a / m * m <= a < (a / m + 1) * m
  {
    DivParts(a, m);
    Spread(a / m, 1, m);
    if a / m < 0 { MulBound(a / m, m); }
  }

  lemma UniformIsMost(availableMemory: int, pageSize: nat, layers: nat)
    requires pageSize > 0 && layers > 0
    ensures availableMemory < 0 ==> availableMemory / pageSize / layers <= 0
    ensures availableMemory >= 0 ==>
              var r := availableMemory / pageSize / layers;
              r >= 0 && r * layers * pageSize <= availableMemory < (r + 1) * layers * pageSize
  {
    var pages := availableMemory / pageSize;
    DivParts(availableMemory, pageSize);
    DivParts(pages, layers);
    if availableMemory < 0 {
      if pages >= 0 { NotNegative(pages, pageSize); }
      if pages / layers > 0 { MulBound(pages / layers, layers); }
    } else {
      FloorIsBelow(availableMemory, pageSize);
      FloorIsBelow(pages, layers);
      ScaleUp(pages / layers * layers, pages, pageSize);
      ScaleUp(pages + 1, (pages / layers + 1) * layers, pageSize);
    }
  }

  // ----- The total never exceeds the uniform budget ----------------------------------------------------

  /** `full` layers of `fullBlocks` and `omni` layers of `omniBlocks`. */
  function TotalBlocks(p: Pattern, blocks: nat, full: nat, omni: nat): int
    requires Valid(p)
  {
    full * FullBlocks(p, blocks) + omni * OmniBlocks(p, blocks)
  }

  /** Scaled by both denominators, the two parts of the total. */
  lemma ScaledTotal(full: nat, omni: nat, x: nat, y: nat, d: nat, g: nat, n: nat, o: nat, b: nat)
    requires n <= d && x * (d * g) <= b * (d * g + (d - n) * o) && y * d <= b * n
    ensures (full * x + omni * y) * (d * g) <= full * (b * (d * g + (d - n) * o)) + omni * (b * n * g)
  {
    ScaleUp(x * (d * g), b * (d * g + (d - n) * o), full);
    ScaleUp(y * d, b * n, omni * g);
    assert (full * x) * (d * g) == full * (x * (d * g)) by { Reassociate(full, x, d * g); }
    assert (omni * y) * (d * g) == (omni * g) * (y * d) by { Shuffle(omni, y, d, g); }
    assert (omni * g) * (b * n) == omni * (b * n * g) by { Shuffle2(omni, g, b * n); }
    Spread(full * x, omni * y, d * g);
  }

  lemma ScaleUp(a: int, b: int, k: nat)
    requires a <= b
    ensures k * a <= k * b
  {
    NotNegative(k, b - a);
    Spread(a, b - a, k);
  }

  lemma Reassociate(a: int, b: int, c: int)
    ensures (a * b) * c == a * (b * c)
  {
  }

  lemma Shuffle(a: int, b: int, c: int, d: int)
    ensures (a * b) * (c * d) == (a * d) * (b * c)
  {
    Reassociate(a, b, c * d);
    Reassociate(b, c, d);
    Reassociate(a, d, b * c);
    assert b * (c * d) == d * (b * c);
  }

  lemma Shuffle2(a: int, b: int, c: int)
    ensures (a * b) * c == a * (c * b)
  {
    Reassociate(a, b, c);
  }

  /** The scaled bound and the scaled budget differ by `b * (d - n) * (full * o - omni * g)`. */
  lemma Difference(full: nat, omni: nat, d: int, g: int, n: int, o: int, b: int)
    ensures full * (b * (d * g + (d - n) * o)) + omni * (b * n * g) - b * (full + omni) * (d * g)
              == b * ((d - n) * (full * o - omni * g))
  {
    var e := d - n;
    assert full * (b * (d * g + e * o)) == b * full * (d * g) + b * (e * (full * o)) by { Left(full, b, d * g, e, o); }
    assert b * (full + omni) * (d * g) == b * full * (d * g) + b * omni * (d * g) by { Budget(b, full, omni, d * g); }
    assert omni * (b * n * g) == b * omni * (d * g) - b * (e * (omni * g)) by { Right(omni, b, n, g, d); }
    assert b * (e * (full * o - omni * g)) == b * (e * (full * o)) - b * (e * (omni * g)) by {
      Split(b, e, full * o, omni * g);
    }
  }

  lemma Left(f: int, b: int, s: int, e: int, o: int)
    ensures f * (b * (s + e * o)) == b * f * s + b * (e * (f * o))
  {
    Spread(s, e * o, b);
    assert f * (b * (s + e * o)) == f * (b * s) + f * (b * (e * o));
    assert f * (b * s) == b * f * s;
    assert f * (b * (e * o)) == b * (e * (f * o)) by { Four(f, b, e, o); }
  }

  lemma Four(a: int, b: int, c: int, d: int)
    ensures a * (b * (c * d)) == b * (c * (a * d))
  {
    assert a * (c * d) == c * (a * d);
    assert a * (b * (c * d)) == b * (a * (c * d));
  }

  lemma Budget(b: int, f: int, o: int, s: int)
    ensures b * (f + o) * s == b * f * s + b * o * s
  {
    assert b * (f + o) == b * f + b * o;
  }

  lemma Right(o: int, b: int, n: int, g: int, d: int)
    ensures o * (b * n * g) == b * o * (d * g) - b * ((d - n) * (o * g))
  {
    assert (d - n) * (o * g) == d * (o * g) - n * (o * g);
    assert b * ((d - n) * (o * g)) == b * (d * (o * g)) - b * (n * (o * g));
    assert b * o * (d * g) == b * (d * (o * g)) by { Four(o, b, d, g); Reassociate(b, o, d * g); Pull(o, b, d * g); }
    assert o * (b * n * g) == b * (n * (o * g)) by { Four(o, b, n, g); Reassociate(b, n, g); }
  }

  lemma Pull(o: int, b: int, s: int)
    ensures o * (b * s) == b * (o * s)
  {
  }

  lemma Split(b: int, e: int, x: int, y: int)
    ensures b * (e * (x - y)) == b * (e * x) - b * (e * y)
  {
    assert e * (x - y) == e * x - e * y;
  }

  /** The layer counts for which the budget suffices: at most one full layer more than the pattern has,
      when the windowed layers are as many as in the pattern. */
  predicate Affordable(p: Pattern, full: nat, omni: nat) { full * p.omni <= omni * (p.full + 1) }

  lemma PatternIsAffordable(p: Pattern, full: nat)
    requires full <= p.full + 1
    ensures Affordable(p, full, p.omni)
  {
    ScaleUp(full, p.full + 1, p.omni);
  }

  lemma CancelScale(a: int, b: int, m: nat)
    requires m > 0 && a * m <= b * m
    ensures a <= b
  {
    if a > b { MulAtLeast(a - b, m); Spread(b, a - b, m); }
  }

  lemma WithinBudget(p: Pattern, blocks: nat, full: nat, omni: nat)
    requires Valid(p) && (p.betaNum == p.betaDen || Affordable(p, full, omni))
    ensures TotalBlocks(p, blocks, full, omni) <= blocks * (full + omni)
  {
    hide FullBlocks, OmniBlocks;
    var d, g, n, o := p.betaDen, p.full + 1, p.betaNum, p.omni;
    MulAtLeast(d, g);
    ScaledTotal(full, omni, FullBlocks(p, blocks), OmniBlocks(p, blocks), d, g, n, o, blocks);
    Difference(full, omni, d, g, n, o, blocks);
    Excess(blocks, d - n, full * o - omni * g);
    CancelScale(TotalBlocks(p, blocks, full, omni), blocks * (full + omni), d * g);
  }

  lemma Excess(b: nat, e: nat, x: int)
    ensures e == 0 || x <= 0 ==> b * (e * x) <= 0
  {
    if e != 0 && x <= 0 {
      NotNegative(e, -x);
      assert e * x == -(e * -x);
      NotNegative(b, e * -x);
      assert b * (e * x) == -(b * (e * -x));
    }
  }

  /** With `betaDen * (full + 1)` blocks nothing is lost by rounding. */
  lemma ExactTotal(p: Pattern, full: nat, omni: nat)
    requires Valid(p)
    ensures var b := p.betaDen * (p.full + 1);
            && b >= 0
            && TotalBlocks(p, b, full, omni) - b * (full + omni)
              == (p.betaDen - p.betaNum) * (full * p.omni - omni * (p.full + 1))
  {
    var d, g, n, o := p.betaDen, p.full + 1, p.betaNum, p.omni;
    MulAtLeast(d, g);
    var b := d * g;
    ExactFloors(p);
    hide FullBlocks, OmniBlocks, Valid;
    Spread(d - n, n, full * o);
    Balance(full, omni, d, g, n, o);
  }

  lemma ExactFloors(p: Pattern)
    requires Valid(p)
    ensures var d, g := p.betaDen, p.full + 1;
            && d * g >= 0
            && FullBlocks(p, d * g) == d * g + (d - p.betaNum) * p.omni
            && OmniBlocks(p, d * g) == g * p.betaNum
  {
    var d, g, n, o := p.betaDen, p.full + 1, p.betaNum, p.omni;
    MulAtLeast(d, g);
    NotNegative(d - n, o);
    NotNegative(g, n);
    Commute(d * g, d * g + (d - n) * o);
    DivModUnique(d * g * (d * g + (d - n) * o), d * g + (d - n) * o, d * g, 0);
    Shuffle3(d, g, n);
    DivModUnique(d * g * n, g * n, d, 0);
  }

  lemma Commute(a: int, b: int)
    ensures a * b == b * a
  {
  }

  lemma Shuffle3(d: int, g: int, n: int)
    ensures d * g * n == (g * n) * d
  {
  }

  lemma Balance(full: int, omni: int, d: int, g: int, n: int, o: int)
    ensures full * (d * g + (d - n) * o) + omni * (g * n) - d * g * (full + omni) == (d - n) * (full * o - omni * g)
  {
    assert full * (d * g + (d - n) * o) == full * (d * g) + (d - n) * (full * o) by { Left(full, 1, d * g, d - n, o); }
    assert d * g * (full + omni) == full * (d * g) + omni * (d * g);
    assert (d - n) * (full * o - omni * g) == (d - n) * (full * o) - (d - n) * (omni * g);
    assert (d - n) * (omni * g) == omni * (d * g) - omni * (g * n) by { Last(d, n, omni, g); }
  }

  lemma Last(d: int, n: int, omni: int, g: int)
    ensures (d - n) * (omni * g) == omni * (d * g) - omni * (g * n)
  {
    assert (d - n) * (omni * g) == d * (omni * g) - n * (omni * g);
    assert d * (omni * g) == omni * (d * g);
    assert n * (omni * g) == omni * (g * n);
  }

  /** Exactly the affordable layer counts keep the total within the uniform budget for all memory sizes. */
  lemma BudgetExact(p: Pattern, full: nat, omni: nat)
    requires Valid(p)
    ensures (forall blocks: nat :: TotalBlocks(p, blocks, full, omni) <= blocks * (full + omni))
       <==> p.betaNum == p.betaDen || Affordable(p, full, omni)
  {
    hide TotalBlocks;
    if p.betaNum == p.betaDen || Affordable(p, full, omni) {
      forall blocks: nat ensures TotalBlocks(p, blocks, full, omni) <= blocks * (full + omni) {
        WithinBudget(p, blocks, full, omni);
      }
    } else {
      ExactTotal(p, full, omni);
      MulAtLeast(p.betaDen - p.betaNum, full * p.omni - omni * (p.full + 1));
      var b: nat := p.betaDen * (p.full + 1);
      assert TotalBlocks(p, b, full, omni) > b * (full + omni);
    }
  }

  /** The repository's PATTERN has 32 full and 30 windowed layers, BETA is 1/5.  A model of 32 layers uses
      the first 32 entries, 17 full and 15 windowed: with 25 blocks a layer it gets 806 instead of 800. */
  lemma BudgetExceededExample()
    ensures var p := Pattern(32, 30, 1, 5);
            Valid(p) && !Affordable(p, 17, 15) && TotalBlocks(p, 25, 17, 15) == 806 > 25 * (17 + 15)
  {
  }

  // ----- The configuration ---------------------------------------------------------------------------------

  datatype Layer = Layer(kind: Kind, pageSize: nat)
  datatype Config = Config(numBlocks: nat, numOmniBlocks: nat, fullLayers: seq<nat>, omniLayers: seq<nat>,
                           sizes: seq<nat>)

  /** PageSizes is the ValueError for page sizes that differ, Unsupported the RuntimeError. */
  datatype Outcome = PageSizes | Unsupported | Ready(config: Config)

  /** The layers of a kind, in order. */
  function OfKind(layers: seq<Layer>, kind: Kind, n: nat): seq<nat>
    requires n <= |layers|
  {
    if n == 0 then [] else OfKind(layers, kind, n - 1) + (if layers[n - 1].kind == kind then [n - 1] else [])
  }

  /** The indices of the layers of that kind. */
  lemma {:induction false} OfKindExact(layers: seq<Layer>, kind: Kind, n: nat, i: nat)
    requires n <= |layers|
    ensures i in OfKind(layers, kind, n) <==> i < n && layers[i].kind == kind
  {
    if n > 0 { OfKindExact(layers, kind, n - 1, i); }
  }

  /** They are in increasing order. */
  lemma {:induction false} OfKindIncreases(layers: seq<Layer>, kind: Kind, n: nat, j: nat, k: nat)
    requires n <= |layers| && j < k < |OfKind(layers, kind, n)|
    ensures OfKind(layers, kind, n)[j] < OfKind(layers, kind, n)[k]
  {
    var before := OfKind(layers, kind, n - 1);
    if k < |before| {
      OfKindIncreases(layers, kind, n - 1, j, k);
    } else {
      OfKindExact(layers, kind, n - 1, before[j]);
    }
  }

  function PageSizesOf(layers: seq<Layer>): set<nat> { set i | 0 <= i < |layers| :: layers[i].pageSize }

  /** The set of page sizes has one element exactly when there is a layer and all of them agree. */
  lemma OnePageSizeIsOne(layers: seq<Layer>)
    ensures OnePageSize(layers) <==> |PageSizesOf(layers)| == 1
  {
    var all := PageSizesOf(layers);
    if layers == [] {
      assert all == {};
    } else if OnePageSize(layers) {
      assert layers[0].pageSize in all;
      assert all == {layers[0].pageSize};
    } else {
      var i :| 0 <= i < |layers| && layers[i].pageSize != layers[0].pageSize;
      assert layers[i].pageSize in all && layers[0].pageSize in all;
      assert {layers[i].pageSize, layers[0].pageSize} <= all;
      SubsetSize({layers[i].pageSize, layers[0].pageSize}, all);
    }
  }

  lemma SubsetSize(a: set<nat>, b: set<nat>)
    requires a <= b
    ensures |a| <= |b|
  {
    assert b == a + (b - a);
  }

  predicate OnePageSize(layers: seq<Layer>) {
    layers != [] && forall i :: 0 <= i < |layers| ==> layers[i].pageSize == layers[0].pageSize
  }

  lemma {:induction false} SizesAddUp(layers: seq<Layer>, sizes: seq<nat>, page: nat, full: nat, omni: nat, n: nat)
    requires n <= |layers| == |sizes|
    requires forall i :: 0 <= i < n ==>
               layers[i].kind != OtherLayer
                 && sizes[i] == (if layers[i].kind == FullLayer then page * full else page * omni)
    ensures SumTo(sizes, n) == page * (|OfKind(layers, FullLayer, n)| * full + |OfKind(layers, OmniLayer, n)| * omni)
    ensures |OfKind(layers, FullLayer, n)| + |OfKind(layers, OmniLayer, n)| == n
  {
    if n > 0 {
      SizesAddUp(layers, sizes, page, full, omni, n - 1);
      var f, o := |OfKind(layers, FullLayer, n - 1)|, |OfKind(layers, OmniLayer, n - 1)|;
      OneMore(page, full, omni, f, o);
    }
  }

  lemma OneMore(page: nat, full: nat, omni: nat, f: nat, o: nat)
    ensures page * ((f + 1) * full + o * omni) == page * (f * full + o * omni) + page * full
    ensures page * (f * full + (o + 1) * omni) == page * (f * full + o * omni) + page * omni
  {
    Spread(f, 1, full);
    Spread(o, 1, omni);
  }

  /** `get_kv_cache_config_omni_type`. */
  method GetConfig(p: Pattern, layers: seq<Layer>, availableMemory: int) returns (r: Outcome)
    requires Valid(p) && forall i :: 0 <= i < |layers| ==> layers[i].pageSize > 0
    ensures r.PageSizes? <==> |PageSizesOf(layers)| != 1
    ensures r.Unsupported? <==> !r.PageSizes? && exists i :: 0 <= i < |layers| && layers[i].kind == OtherLayer
    ensures r.Ready? ==>
              layers != [] && var page, c := layers[0].pageSize, r.config;
              var blocks := UniformBlocks(availableMemory, page, |layers|);
              && c.numBlocks == FullBlocks(p, blocks) && c.numOmniBlocks == OmniBlocks(p, blocks)
              && c.fullLayers == OfKind(layers, FullLayer, |layers|)
                && c.omniLayers == OfKind(layers, OmniLayer, |layers|)
              && |c.fullLayers| + |c.omniLayers| == |layers| == |c.sizes|
              && SumTo(c.sizes, |layers|) == page * TotalBlocks(p, blocks, |c.fullLayers|, |c.omniLayers|)
  {
    hide FullBlocks, OmniBlocks, UniformBlocks;
    OnePageSizeIsOne(layers);
    if !OnePageSize(layers) { return PageSizes; }
    var page := layers[0].pageSize;
    var numBlocks := UniformBlocks(availableMemory, page, |layers|);
    var full, omni := FullBlocks(p, numBlocks), OmniBlocks(p, numBlocks);
    var fullLayers: seq<nat>, omniLayers: seq<nat>, sizes: seq<nat> := [], [], [];
    for i := 0 to |layers|
      invariant |sizes| == i && fullLayers == OfKind(layers, FullLayer, i) && omniLayers == OfKind(layers, OmniLayer, i)
      invariant forall k :: 0 <= k < i ==>
                  layers[k].kind != OtherLayer
                    && sizes[k] == (if layers[k].kind == FullLayer then page * full else page * omni)
    {
      NotNegative(page, full);
      NotNegative(page, omni);
      match layers[i].kind {
        case FullLayer =>
          fullLayers := fullLayers + [i];
          sizes := sizes + [page * full];
        case OmniLayer =>
          omniLayers := omniLayers + [i];
          sizes := sizes + [page * omni];
        case OtherLayer => return Unsupported;
      }
    }
    SizesAddUp(layers, sizes, page, full, omni, |layers|);
    r := Ready(Config(full, omni, fullLayers, omniLayers, sizes));
  }

  /** What is configured fits into the memory that is available. */
  lemma FitsInMemory(p: Pattern, availableMemory: int, page: nat, full: nat, omni: nat)
    requires Valid(p) && page > 0 && full + omni > 0 && Affordable(p, full, omni) && availableMemory >= 0
    ensures page * TotalBlocks(p, UniformBlocks(availableMemory, page, full + omni), full, omni) <= availableMemory
  {
    hide TotalBlocks;
    var layers := full + omni;
    var blocks := UniformBlocks(availableMemory, page, layers);
    WithinBudget(p, blocks, full, omni);
    FloorIsBelow(availableMemory, page);
    FloorIsBelow(availableMemory / page, layers);
    ScaleUp(TotalBlocks(p, blocks, full, omni), blocks * layers, page);
    ScaleUp(blocks * layers, availableMemory / page, page);
  }
}

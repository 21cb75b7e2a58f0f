/** Flat buffers cut into parts of equal or given sizes, as views, slices and collectives use them. */
module Buffers {
  import opened Arith

  function Min(a: nat, b: nat): nat { if a < b then a else b }

  /** `blocks * n`, the rows of so many blocks, as a sum: this keeps products out of the proofs. */
  function Rows(blocks: nat, n: nat): nat { if blocks == 0 then 0 else Rows(blocks - 1, n) + n }

  lemma {:induction false} RowsIsProduct(blocks: nat, n: nat)
    ensures Rows(blocks, n) == blocks * n
  {
    if blocks > 0 {
      RowsIsProduct(blocks - 1, n);
      assert blocks * n == (blocks - 1) * n + n;
    }
  }

  lemma ViewIndex(d: nat, m: nat, i: nat, n: nat)
    ensures (d * m + i) * n == Rows(d, Rows(m, n)) + Rows(i, n)
  {
    hide Rows;
    RowsIsProduct(m, n);
    RowsIsProduct(i, n);
    RowsIsProduct(d, Rows(m, n));
    MulAssoc(d, m, n, i * n);
    Distribute(d, m, n, i);
  }

  lemma {:induction false} RowsMonotone(a: nat, b: nat, m: nat)
    requires a <= b
    ensures Rows(a, m) <= Rows(b, m)
  {
    if a < b { RowsMonotone(a, b - 1, m); }
  }

  lemma Join<T>(s: seq<T>, a: nat, b: nat, c: nat)
    requires a <= b <= c <= |s|
    ensures s[a..c] == s[a..b] + s[b..c]
  {
  }

  lemma JoinFront<T>(s: seq<T>, b: nat, c: nat)
    requires b <= c <= |s|
    ensures s[..c] == s[..b] + s[b..c]
  {
  }

  lemma Associate<T>(a: seq<T>, b: seq<T>, c: seq<T>)
    ensures a + (b + c) == (a + b) + c
  {
  }

  lemma FromEmpty<T>(a: seq<T>)
    ensures [] + a == a
  {
  }

  lemma Slice<T>(s: seq<T>, i: nat, n: nat, lo: nat, hi: nat)
    requires i + n <= |s| && lo <= hi <= n
    ensures s[i + lo..i + hi] == s[i..i + n][lo..hi]
  {
    var x, y := s[i + lo..i + hi], s[i..i + n][lo..hi];
    assert forall k :: 0 <= k < hi - lo ==> x[k] == y[k];
  }

  lemma SlicePart<T>(s: seq<T>, t: seq<T>, i: nat, j: nat, n: nat, lo: nat, hi: nat)
    requires i + n <= |s| && j + n <= |t| && s[i..i + n] == t[j..j + n] && lo <= hi <= n
    ensures s[i + lo..i + hi] == t[j + lo..j + hi]
  {
    Slice(s, i, n, lo, hi);
    Slice(t, j, n, lo, hi);
  }

  // ----- Laying parts end to end ------------------------------------------------------------------

  /** `all_gather` along the first dimension. */
  function AllGather<T>(parts: seq<seq<T>>): seq<T> {
    if parts == [] then [] else AllGather(parts[..|parts| - 1]) + parts[|parts| - 1]
  }

  lemma {:induction false} GatherConcat<T>(a: seq<seq<T>>, b: seq<seq<T>>)
    ensures AllGather(a + b) == AllGather(a) + AllGather(b)
  {
    if b == [] {
      assert a + b == a;
    } else {
      var m := |b| - 1;
      GatherConcat(a, b[..m]);
      assert (a + b)[..|a + b| - 1] == a + b[..m] && (a + b)[|a + b| - 1] == b[m];
    }
  }

  /** Element `x` of part `d`, when all parts have `m` elements. */
  lemma {:induction false} GatherAt<T>(parts: seq<seq<T>>, m: nat, d: nat, x: nat)
    requires d < |parts| && x < m
    requires forall e :: 0 <= e < |parts| ==> |parts[e]| == m
    ensures |AllGather(parts)| == Rows(|parts|, m)
    ensures Rows(d, m) + x < Rows(|parts|, m) && AllGather(parts)[Rows(d, m) + x] == parts[d][x]
  {
    var init := parts[..|parts| - 1];
    assert |init| == |parts| - 1;
    if d < |init| {
      GatherAt(init, m, d, x);
    } else if |init| > 0 {
      GatherAt(init, m, 0, x);
    }
  }

  lemma NextPart<T>(parts: seq<seq<T>>, i: nat, piece: seq<T>)
    requires i < |parts| && piece == parts[i]
    ensures AllGather(parts[..i + 1]) == AllGather(parts[..i]) + piece
  {
    assert parts[..i + 1][..i] == parts[..i];
  }

  /** The elements in the first `n` parts. */
  function Total<T>(parts: seq<seq<T>>, n: nat): nat
    requires n <= |parts|
  {
    if n == 0 then 0 else Total(parts, n - 1) + |parts[n - 1]|
  }

  lemma {:induction false} TotalLength<T>(parts: seq<seq<T>>, n: nat)
    requires n <= |parts|
    ensures |AllGather(parts[..n])| == Total(parts, n)
  {
    if n > 0 {
      TotalLength(parts, n - 1);
      NextPart(parts, n - 1, parts[n - 1]);
    }
  }

  /** A part is where the parts before it end.  With `parts` the tensors of one row this says that
      cutting the joined row at the tensors' widths gives the tensors back. */
  lemma PartOf<T>(parts: seq<seq<T>>, i: nat)
    requires i < |parts|
    ensures var joined, from := AllGather(parts), Total(parts, i);
            from + |parts[i]| <= |joined| && joined[from..from + |parts[i]|] == parts[i]
  {
    hide Total, AllGather;
    TotalLength(parts, i);
    NextPart(parts, i, parts[i]);
    GatherConcat(parts[..i + 1], parts[i + 1..]);
    assert parts == parts[..i + 1] + parts[i + 1..];
  }

  /** The sum of the first `n` counts. */
  function SumTo(counts: seq<nat>, n: nat): nat
    requires n <= |counts|
  {
    if n == 0 then 0 else SumTo(counts, n - 1) + counts[n - 1]
  }

  lemma {:induction false} SumFromFront(counts: seq<nat>, n: nat)
    requires n <= |counts|
    ensures n > 0 ==> SumTo(counts, n) == counts[0] + SumTo(counts[1..], n - 1)
  {
    if n > 1 { SumFromFront(counts, n - 1); }
  }

  lemma {:induction false} SumMonotone(counts: seq<nat>, m: nat, n: nat)
    requires m <= n <= |counts|
    ensures SumTo(counts, m) <= SumTo(counts, n)
  {
    if m < n { SumMonotone(counts, m, n - 1); }
  }

  lemma {:induction false} SumOfLengths<T>(parts: seq<seq<T>>, counts: seq<nat>, n: nat)
    requires n <= |parts| == |counts| && forall i :: 0 <= i < |parts| ==> counts[i] == |parts[i]|
    ensures SumTo(counts, n) == Total(parts, n)
  {
    if n > 0 { SumOfLengths(parts, counts, n - 1); }
  }

  /** `part` was copied to `at`, and the rest is as before. */
  ghost predicate Written<T>(before: seq<T>, after: seq<T>, at: nat, part: seq<T>) {
    && |after| == |before| && at + |part| <= |before|
    && forall k :: 0 <= k < |after| ==> after[k] == if at <= k < at + |part| then part[k - at] else before[k]
  }

  lemma Separate<T>(before: seq<T>, after: seq<T>, at: nat, part: seq<T>, from: nat, n: nat)
    requires Written(before, after, at, part) && from + n <= |before| && (at + |part| <= from || from + n <= at)
    ensures after[from..from + n] == before[from..from + n]
  {
  }

  function Sum(values: seq<int>): int {
    if values == [] then 0 else Sum(values[..|values| - 1]) + values[|values| - 1]
  }
}

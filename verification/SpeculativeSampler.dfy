/** Greedy speculative decoding (omni/layers/sampler.py).

    A decode step feeds the last emitted token and `k` drafted ones through the target model and
    takes the most likely token at each of the `k + 1` positions.  The target model is an
    arbitrary function from a context to its next token.
 */
module SpeculativeSampler {
  import Buffers

  type Token = nat
  type Target = seq<Token> -> Token

  /** Plain greedy decoding: the `n` tokens that follow `context`. */
  function Greedy(target: Target, context: seq<Token>, n: nat): (r: seq<Token>)
    ensures |r| == n
    decreases n
  {
    if n == 0 then []
    else
      var t := target(context);
      [t] + Greedy(target, context + [t], n - 1)
  }

  /** What the target model predicts at each position of a drafted continuation. */
  function Predictions(target: Target, context: seq<Token>, drafts: seq<Token>): (r: seq<Token>)
    ensures |r| == |drafts| + 1
    ensures forall j :: 0 <= j <= |drafts| ==> r[j] == target(context + drafts[..j])
  {
    seq(|drafts| + 1, j requires 0 <= j <= |drafts| => target(context + drafts[..j]))
  }

  // ----- The all-greedy step of SimpleSampler ------------------------------------------------

  /** `a` drafts are confirmed and the next one, if any, is not. */
  ghost predicate Confirms(drafts: seq<int>, forward: seq<Token>, a: int) {
    && 0 <= a <= |drafts| && |forward| == |drafts| + 1
    && (forall j :: 0 <= j < a ==> drafts[j] == forward[j])
    && (a < |drafts| ==> drafts[a] != forward[a])
  }

  /** A row of `sampled_token_ids`: the predictions up to and including position `a`, then -1. */
  ghost predicate EmitsFirst(row: seq<int>, forward: seq<Token>, a: int) {
    |row| == |forward| && forall j :: 0 <= j < |row| ==> row[j] == if j <= a then forward[j] else -1
  }

  /** What the step returns for one request: its row of `sampled_token_ids` and `forward_tokens`,
      the flat index of its last accepted position, the number of accepted drafts, its flags. */
  datatype Row = Row(ids: seq<int>, forward: seq<Token>, lastAcceptedIndex: nat, acceptedNum: nat, accepted: seq<bool>)
  datatype Result<+T> = Ok(value: T) | Err

  /** A flat buffer viewed as `batch` rows of `n`. */
  function View<T>(flat: seq<T>, n: nat, batch: nat): (r: seq<seq<T>>)
    requires |flat| == batch * n
    ensures |r| == batch && forall b :: 0 <= b < batch ==> |r[b]| == n
    decreases batch
  {
    if batch == 0 then []
    else
      assert |flat| == (batch - 1) * n + n;
      [flat[..n]] + View(flat[n..], n, batch - 1)
  }

  lemma {:induction false} ViewAt<T>(flat: seq<T>, n: nat, batch: nat, b: nat, j: nat)
    requires |flat| == batch * n && b < batch && j < n
    ensures 0 <= b * n + j < |flat| && View(flat, n, batch)[b][j] == flat[b * n + j]
    decreases batch
  {
    assert |flat| == (batch - 1) * n + n;
    assert |flat[n..]| == (batch - 1) * n;
    if b > 0 {
      ViewAt(flat[n..], n, batch - 1, b - 1, j);
      assert b * n == (b - 1) * n + n;
      assert View(flat, n, batch)[b] == View(flat[n..], n, batch - 1)[b - 1];
    } else {
      assert b * n == 0;
    }
  }

  /** The index of the first rejected draft, or the number of drafts: `argmin` of the flags with a
      zero appended, and the row limit of the rejection sampler. */
  function Limit(accepted: seq<bool>): (l: nat)
    ensures l <= |accepted| && (forall j :: 0 <= j < l ==> accepted[j]) && (l < |accepted| ==> !accepted[l])
  {
    if accepted == [] || !accepted[0] then 0
    else
      var l := Limit(accepted[1..]);
      assert forall j :: 1 <= j < l + 1 ==> accepted[j] == accepted[1..][j - 1];
      l + 1
  }

  /** The rows of a two-dimensional buffer. */
  function RowsOf<T>(a: array2<T>): (r: seq<seq<T>>)
    reads a
    ensures |r| == a.Length0
    ensures forall b :: 0 <= b < |r| ==> |r[b]| == a.Length1 && forall j :: 0 <= j < a.Length1 ==> r[b][j] == a[b, j]
  {
    seq(a.Length0, b requires 0 <= b < a.Length0 reads a =>
      seq(a.Length1, j requires 0 <= j < a.Length1 reads a => a[b, j]))
  }

  /** The loop over the draft positions that turns the flags of every row into a prefix. */
  method KeepPrefixes(accepted: array2<bool>)
    modifies accepted
    ensures forall b, j :: 0 <= b < accepted.Length0 && 0 <= j < accepted.Length1 ==>
              (accepted[b, j] <==> forall i :: 0 <= i <= j ==> old(accepted[b, i]))
  {
    var s := 1;
    while s < accepted.Length1
      invariant 1 <= s
      invariant forall b, j :: 0 <= b < accepted.Length0 && s <= j < accepted.Length1 ==>
                  accepted[b, j] == old(accepted[b, j])
      invariant forall b, j :: 0 <= b < accepted.Length0 && 0 <= j < s && j < accepted.Length1 ==>
                  (accepted[b, j] <==> forall i :: 0 <= i <= j ==> old(accepted[b, i]))
    {
      forall b | 0 <= b < accepted.Length0 {
        accepted[b, s] := accepted[b, s] && accepted[b, s - 1];
      }
      s := s + 1;
    }
  }

  /** The comparison of the drafts with the predictions, which drops the last prediction. */
  function Flags(drafts: seq<int>, forward: seq<Token>): (r: seq<bool>)
    requires |forward| == |drafts| + 1
    ensures |r| == |drafts| && forall j :: 0 <= j < |drafts| ==> r[j] == (drafts[j] == forward[j])
  {
    seq(|drafts|, j requires 0 <= j < |drafts| => drafts[j] == forward[j])
  }

  /** One row: compare, count, mask. */
  method SampleRow(drafts: seq<int>, forward: seq<Token>, b: nat) returns (row: Row)
    requires |forward| == |drafts| + 1
    ensures BeforePrefix(drafts, forward, b, row)
  {
    var flags := Flags(drafts, forward);
    var a := Limit(flags);
    var ids: seq<int> := seq(|forward|, j requires 0 <= j < |forward| => if j <= a then forward[j] as int else -1);
    row := Row(ids, forward, b * |forward| + a, a, flags);
  }

  ghost predicate BeforePrefix(drafts: seq<int>, forward: seq<Token>, b: nat, row: Row) {
    && row.forward == forward && Confirms(drafts, forward, row.acceptedNum)
      && EmitsFirst(row.ids, forward, row.acceptedNum)
    && row.lastAcceptedIndex == b * |forward| + row.acceptedNum
    && |row.accepted| == |drafts| && forall j :: 0 <= j < |drafts| ==> row.accepted[j] == (drafts[j] == forward[j])
  }

  /** Everything the step returns for request `b` of the batch. */
  ghost predicate SampledRow(drafts: seq<int>, forward: seq<Token>, b: nat, row: Row) {
    && row.forward == forward && Confirms(drafts, forward, row.acceptedNum)
      && EmitsFirst(row.ids, forward, row.acceptedNum)
    && row.lastAcceptedIndex == b * |forward| + row.acceptedNum
    && |row.accepted| == |drafts| && forall j :: 0 <= j < |drafts| ==> row.accepted[j] == (j < row.acceptedNum)
  }

  /** The decode branch, on the rows of drafts and of predictions. */
  method SampleDecodes(drafts: seq<seq<int>>, forward: seq<seq<Token>>, k: nat) returns (rows: seq<Row>)
    requires |drafts| == |forward| && forall b :: 0 <= b < |drafts| ==> |drafts[b]| == k && |forward[b]| == k + 1
    ensures |rows| == |drafts| && forall b :: 0 <= b < |drafts| ==> SampledRow(drafts[b], forward[b], b, rows[b])
  {
    var flags := new bool[|drafts|, k];
    rows := [];
    while |rows| < |drafts|
      invariant |rows| <= |drafts|
      invariant forall b :: 0 <= b < |rows| ==> BeforePrefix(drafts[b], forward[b], b, rows[b])
      invariant forall b, j :: 0 <= b < |rows| && 0 <= j < k ==> flags[b, j] == rows[b].accepted[j]
    {
      var b := |rows|;
      var row := SampleRow(drafts[b], forward[b], b);
      forall j | 0 <= j < k {
        flags[b, j] := row.accepted[j];
      }
      rows := rows + [row];
    }
    rows := ReadPrefixes(flags, rows, drafts, forward, k);
  }

  /** The in-place loop over `accepted`, seen row by row. */
  method ReadPrefixes(flags: array2<bool>, rows: seq<Row>, ghost drafts: seq<seq<int>>, ghost forward: seq<seq<Token>>,
                      k: nat)
    returns (out: seq<Row>)
    requires |drafts| == |forward| == |rows| == flags.Length0 && flags.Length1 == k
    requires forall b :: 0 <= b < |rows| ==>
               |drafts[b]| == |rows[b].accepted| == k && BeforePrefix(drafts[b], forward[b], b, rows[b])
    requires forall b, j :: 0 <= b < |rows| && 0 <= j < k ==> flags[b, j] == rows[b].accepted[j]
    modifies flags
    ensures |out| == |rows| && forall b :: 0 <= b < |out| ==> SampledRow(drafts[b], forward[b], b, out[b])
  {
    KeepPrefixes(flags);
    var prefixes := RowsOf(flags);
    forall b, j | 0 <= b < |rows| && 0 <= j < k
      ensures prefixes[b][j] <==> forall i :: 0 <= i <= j ==> rows[b].accepted[i]
    {
      assert forall i :: 0 <= i <= j ==> rows[b].accepted[i] == old(flags[b, i]);
      assert prefixes[b][j] == flags[b, j];
    }
    out := WithPrefixes(rows, prefixes, drafts, forward);
  }

  method WithPrefixes(rows: seq<Row>, prefixes: seq<seq<bool>>, ghost drafts: seq<seq<int>>,
                      ghost forward: seq<seq<Token>>)
    returns (out: seq<Row>)
    requires |drafts| == |forward| == |rows| == |prefixes|
    requires forall b :: 0 <= b < |rows| ==>
               |prefixes[b]| == |drafts[b]| == |rows[b].accepted| && BeforePrefix(drafts[b], forward[b], b, rows[b])
    requires forall b, j :: 0 <= b < |rows| && 0 <= j < |prefixes[b]| ==>
               (prefixes[b][j] <==> forall i :: 0 <= i <= j ==> rows[b].accepted[i])
    ensures |out| == |rows| && forall b :: 0 <= b < |out| ==> SampledRow(drafts[b], forward[b], b, out[b])
  {
    out := [];
    while |out| < |rows|
      invariant |out| <= |rows|
      invariant forall b :: 0 <= b < |out| ==> SampledRow(drafts[b], forward[b], b, out[b])
    {
      var b := |out|;
      PrefixIsCount(drafts[b], forward[b], rows[b], prefixes[b]);
      out := out + [rows[b].(accepted := prefixes[b])];
    }
  }

  lemma PrefixIsCount(drafts: seq<int>, forward: seq<Token>, row: Row, prefix: seq<bool>)
    requires Confirms(drafts, forward, row.acceptedNum) && |prefix| == |drafts| == |row.accepted|
    requires forall j :: 0 <= j < |drafts| ==> row.accepted[j] == (drafts[j] == forward[j])
    requires forall j :: 0 <= j < |drafts| ==> (prefix[j] <==> forall i :: 0 <= i <= j ==> row.accepted[i])
    ensures forall j :: 0 <= j < |drafts| ==> prefix[j] == (j < row.acceptedNum)
  {
  }

  /** The draft columns of the rows fed to the model: all but the first. */
  function DropFirst(rows: seq<seq<int>>): (r: seq<seq<int>>)
    requires forall b :: 0 <= b < |rows| ==> rows[b] != []
    ensures |r| == |rows| && forall b :: 0 <= b < |rows| ==> r[b] == rows[b][1..]
  {
    seq(|rows|, b requires 0 <= b < |rows| => rows[b][1..])
  }

  /** `input_ids[logits_indices]` */
  function Gather(inputIds: seq<int>, indices: seq<nat>): (r: seq<int>)
    requires forall i :: 0 <= i < |indices| ==> indices[i] < |inputIds|
    ensures |r| == |indices| && forall i :: 0 <= i < |indices| ==> r[i] == inputIds[indices[i]]
  {
    seq(|indices|, i requires 0 <= i < |indices| => inputIds[indices[i]])
  }

  /** `SimpleSampler.forward` with greedy sampling and the forced acceptance rate off.  `best` is
      the most likely token for each row of logits.  The error cases are the mixed batch, the
      empty batch and buffers that cannot be viewed as rows. */
  method Forward(inputIds: seq<int>, best: seq<Token>, logitsIndices: seq<nat>, numDecodes: nat, numPrefills: nat)
    returns (r: Result<seq<Row>>)
    requires |best| == |logitsIndices| && forall i :: 0 <= i < |logitsIndices| ==> logitsIndices[i] < |inputIds|
    ensures r.Err? <==> (numDecodes != 0 && numPrefills != 0) || numDecodes + numPrefills == 0
                        || |best| % (numDecodes + numPrefills) != 0 || best == []
    ensures r.Ok? && numDecodes == 0 ==>
              |r.value| == |best| && forall i :: 0 <= i < |best| ==>
                r.value[i] == Row([best[i]], [best[i]], i, 0, [])
    ensures r.Ok? && numDecodes > 0 ==>
              var n := |best| / numDecodes;
              && n > 0 && |best| == numDecodes * n && |r.value| == numDecodes
              && var fed, forward := View(Gather(inputIds, logitsIndices), n, numDecodes), View(best, n, numDecodes);
                 forall b :: 0 <= b < numDecodes ==> SampledRow(fed[b][1..], forward[b], b, r.value[b])
  {
    var batch := numDecodes + numPrefills;
    if (numDecodes != 0 && numPrefills != 0) || batch == 0 || |best| % batch != 0 {
      return Err;
    }
    var n := |best| / batch;
    if best == [] {
      r := Err;
    } else if numDecodes == 0 {
      r := Ok(seq(|best|, i requires 0 <= i < |best| => Row([best[i]], [best[i]], i, 0, [])));
    } else {
      assert |best| == batch * n;
      var fed := View(Gather(inputIds, logitsIndices), n, batch);
      var rows := SampleDecodes(DropFirst(fed), View(best, n, batch), n - 1);
      r := Ok(rows);
    }
  }

  // ----- Lossless over whole runs --------------------------------------------------------------

  /** The number of drafts the target model confirms. */
  function Agreement(drafts: seq<int>, forward: seq<Token>): (a: nat)
    requires |forward| == |drafts| + 1
    ensures Confirms(drafts, forward, a)
  {
    if drafts == [] || drafts[0] != forward[0] then 0
    else
      var a := Agreement(drafts[1..], forward[1..]);
      assert forall j :: 1 <= j < a + 1 ==> drafts[j] == drafts[1..][j - 1] && forward[j] == forward[1..][j - 1];
      a + 1
  }

  lemma ConfirmsOnce(drafts: seq<int>, forward: seq<Token>, a: int)
    requires Confirms(drafts, forward, a)
    ensures a == Agreement(drafts, forward)
  {
  }

  /** The tokens one step adds to the context. */
  function Emitted(target: Target, context: seq<Token>, drafts: seq<Token>): (r: seq<Token>)
    ensures 1 <= |r| <= |drafts| + 1
  {
    var forward := Predictions(target, context, drafts);
    forward[..Agreement(drafts, forward) + 1]
  }

  /** The context after a whole run, one list of drafts per step. */
  function Run(target: Target, context: seq<Token>, drafts: seq<seq<Token>>): seq<Token>
    decreases |drafts|
  {
    if drafts == [] then context else Run(target, context + Emitted(target, context, drafts[0]), drafts[1..])
  }

  /** Every token of `r` is the target model's choice after what comes before it. */
  ghost predicate Follows(target: Target, context: seq<Token>, r: seq<Token>) {
    forall j :: 0 <= j < |r| ==> r[j] == target(context + r[..j])
  }

  lemma {:induction false} GreedyUnique(target: Target, context: seq<Token>, r: seq<Token>)
    requires Follows(target, context, r)
    ensures r == Greedy(target, context, |r|)
    decreases |r|
  {
    if r != [] {
      assert context + r[..0] == context;
      forall j | 0 <= j < |r| - 1
        ensures r[1..][j] == target(context + [r[0]] + r[1..][..j])
      {
        assert context + [r[0]] + r[1..][..j] == context + r[..j + 1];
      }
      GreedyUnique(target, context + [r[0]], r[1..]);
    }
  }

  /** One step: whatever was drafted, the emitted tokens are the target model's choices. */
  lemma StepFollows(target: Target, context: seq<Token>, drafts: seq<Token>)
    ensures Follows(target, context, Emitted(target, context, drafts))
  {
    var e := Emitted(target, context, drafts);
    forall j | 0 <= j < |e|
      ensures e[j] == target(context + e[..j])
    {
      assert drafts[..j] == e[..j];
    }
  }

  lemma FollowsConcat(target: Target, context: seq<Token>, x: seq<Token>, y: seq<Token>)
    requires Follows(target, context, x) && Follows(target, context + x, y)
    ensures Follows(target, context, x + y)
  {
    forall j | 0 <= j < |x + y|
      ensures (x + y)[j] == target(context + (x + y)[..j])
    {
      if j < |x| {
        assert (x + y)[..j] == x[..j];
      } else {
        assert context + (x + y)[..j] == context + x + y[..j - |x|];
      }
    }
  }

  lemma {:induction false} RunFollows(target: Target, context: seq<Token>, drafts: seq<seq<Token>>)
    returns (stream: seq<Token>)
    ensures |drafts| <= |stream| && Run(target, context, drafts) == context + stream
    ensures Follows(target, context, stream)
    decreases |drafts|
  {
    stream := [];
    if drafts != [] {
      var e := Emitted(target, context, drafts[0]);
      StepFollows(target, context, drafts[0]);
      var rest := RunFollows(target, context + e, drafts[1..]);
      FollowsConcat(target, context, e, rest);
      stream := e + rest;
    }
  }

  /** The main result: for every target model and every choice of drafts in every step, a run
      emits the greedy stream, at least one token per step. */
  lemma Lossless(target: Target, context: seq<Token>, drafts: seq<seq<Token>>)
    ensures |Run(target, context, drafts)| >= |context| + |drafts|
    ensures var emitted := |Run(target, context, drafts)| - |context|;
            Run(target, context, drafts) == context + Greedy(target, context, emitted)
  {
    var stream := RunFollows(target, context, drafts);
    GreedyUnique(target, context, stream);
  }

  /** The row that the sampler returns for a request is what the run consumes: its entries up to
      the last accepted position are the emitted tokens, and all others are -1. */
  lemma SampledRowIsEmitted(target: Target, context: seq<Token>, drafts: seq<Token>, b: nat, row: Row)
    requires SampledRow(drafts, Predictions(target, context, drafts), b, row)
    ensures var e := Emitted(target, context, drafts);
            && |e| == row.acceptedNum + 1
            && (forall j :: 0 <= j < |e| ==> row.ids[j] == e[j])
            && (forall j :: |e| <= j < |row.ids| ==> row.ids[j] == -1)
  {
    ConfirmsOnce(drafts, row.forward, row.acceptedNum);
  }

  // ----- RejectionSampler._create_output ---------------------------------------------------------

  /** The accepted drafts, then the substitute for the first rejected one, or the bonus token when
      there is none, and -1 elsewhere. */
  ghost predicate RejectionRow(accepted: seq<bool>, substitute: seq<int>, draft: seq<int>, bonus: int, row: seq<int>)
    requires |accepted| == |substitute| == |draft| > 0
  {
    var k, l := |draft|, Limit(accepted);
    && |row| == k + 1
    && (forall j :: 0 <= j < l ==> row[j] == draft[j])
    && (l < k ==> row[l] == substitute[l])
    && (l == k && draft[k - 1] != -1 ==> row[k] == bonus)
    && (l == k && draft[k - 1] == -1 ==> row[k] == -1)
    && (forall j :: l < j <= k ==> row[j] == -1)
  }

  function CountTrue(s: seq<bool>): nat {
    if s == [] then 0 else (if s[0] then 1 else 0) + CountTrue(s[1..])
  }

  /** Entries other than -1. */
  function CountTokens(s: seq<int>): nat {
    if s == [] then 0 else (if s[0] != -1 then 1 else 0) + CountTokens(s[1..])
  }

  function AllTrue(rows: seq<seq<bool>>): nat {
    if rows == [] then 0 else CountTrue(rows[0]) + AllTrue(rows[1..])
  }

  function AllTokens(rows: seq<seq<int>>): nat {
    if rows == [] then 0 else CountTokens(rows[0]) + AllTokens(rows[1..])
  }

  function Limits(accepted: seq<seq<bool>>): (r: seq<nat>)
    ensures |r| == |accepted| && forall b :: 0 <= b < |r| ==> r[b] == Limit(accepted[b])
  {
    seq(|accepted|, b requires 0 <= b < |accepted| => Limit(accepted[b]))
  }

  /** The output entry by entry. */
  ghost predicate Filled(limit: nat, substitute: seq<int>, draft: seq<int>, bonus: int, row: seq<int>)
    requires |substitute| == |draft| > 0
  {
    var k := |draft|;
    && |row| == k + 1
    && (forall j :: 0 <= j < k ==> row[j] == if j < limit then draft[j] else if j == limit then substitute[j] else -1)
    && row[k] == if limit == k && draft[k - 1] != -1 then bonus else -1
  }

  class RejectionSampler {
    var numAcceptedTokens: nat
    var numEmittedTokens: nat
    var numDraftTokens: nat

    method CreateOutput(accepted: seq<seq<bool>>, substitute: seq<seq<int>>, draft: seq<seq<int>>, bonus: seq<int>,
                        k: nat)
      returns (rows: seq<seq<int>>)
      requires k > 0 && |accepted| == |substitute| == |draft| == |bonus|
      requires forall b :: 0 <= b < |draft| ==> |accepted[b]| == |substitute[b]| == |draft[b]| == k
      modifies this
      ensures |rows| == |draft|
      ensures forall b :: 0 <= b < |rows| ==> RejectionRow(accepted[b], substitute[b], draft[b], bonus[b], rows[b])
      ensures numAcceptedTokens == old(numAcceptedTokens) + AllTrue(accepted)
      ensures numEmittedTokens == old(numEmittedTokens) + AllTokens(rows)
      ensures numDraftTokens == old(numDraftTokens) + |draft| * k
    {
      var output := new int[|draft|, k + 1]((b, j) => -1);
      rows := FillRows(output, Limits(accepted), substitute, draft, bonus, k);
      numAcceptedTokens := numAcceptedTokens + AllTrue(accepted);
      numEmittedTokens := numEmittedTokens + AllTokens(rows);
      numDraftTokens := numDraftTokens + |draft| * k;
    }
  }

  /** The in-place edits of the output buffer: the accepted drafts, the last column, and the
      substitutes by multiplying with the mask and adding. */
  method FillEntries(output: array2<int>, limits: seq<nat>, substitute: seq<seq<int>>, draft: seq<seq<int>>,
                     bonus: seq<int>, k: nat)
    requires k > 0 && output.Length0 == |limits| == |substitute| == |draft| == |bonus| && output.Length1 == k + 1
    requires forall b :: 0 <= b < |draft| ==> |substitute[b]| == |draft[b]| == k && limits[b] <= k
    modifies output
    ensures forall b, j :: 0 <= b < |draft| && 0 <= j < k ==>
              output[b, j] == if j < limits[b] then draft[b][j] else if j == limits[b] then substitute[b][j] else -1
    ensures forall b :: 0 <= b < |draft| ==>
              output[b, k] == if limits[b] == k && draft[b][k - 1] != -1 then bonus[b] else -1
  {
    forall b, j | 0 <= b < |draft| && 0 <= j < k {
      output[b, j] := if j < limits[b] then draft[b][j] else -1;
    }
    forall b | 0 <= b < |draft| {
      output[b, k] := if output[b, k - 1] != -1 then bonus[b] else -1;
    }
    forall b, j | 0 <= b < |draft| && 0 <= j < k {
      output[b, j] := output[b, j] * (if j == limits[b] then 0 else 1)
        + substitute[b][j] * (if j == limits[b] then 1 else 0);
    }
  }

  method FillRows(output: array2<int>, limits: seq<nat>, substitute: seq<seq<int>>, draft: seq<seq<int>>,
                  bonus: seq<int>, k: nat)
    returns (rows: seq<seq<int>>)
    requires k > 0 && output.Length0 == |limits| == |substitute| == |draft| == |bonus| && output.Length1 == k + 1
    requires forall b :: 0 <= b < |draft| ==> |substitute[b]| == |draft[b]| == k && limits[b] <= k
    modifies output
    ensures |rows| == |draft|
    ensures forall b :: 0 <= b < |rows| ==> Filled(limits[b], substitute[b], draft[b], bonus[b], rows[b])
  {
    FillEntries(output, limits, substitute, draft, bonus, k);
    rows := RowsOf(output);
  }

  /** With real tokens a row emits one token more than it accepts drafts. */
  lemma EmittedIsLimitPlusOne(accepted: seq<bool>, substitute: seq<int>, draft: seq<int>, bonus: int, row: seq<int>)
    requires |accepted| == |substitute| == |draft| > 0 && RejectionRow(accepted, substitute, draft, bonus, row)
    requires bonus >= 0 && forall j :: 0 <= j < |draft| ==> draft[j] >= 0 && substitute[j] >= 0
    ensures CountTokens(row) == Limit(accepted) + 1
  {
    TokensThenPadding(row, Limit(accepted) + 1);
  }

  lemma {:induction false} TokensThenPadding(row: seq<int>, n: nat)
    requires n <= |row| && forall j :: 0 <= j < |row| ==> (row[j] != -1 <==> j < n)
    ensures CountTokens(row) == n
  {
    if row != [] { TokensThenPadding(row[1..], if n == 0 then 0 else n - 1); }
  }

  function AcceptedInBatch(accepted: seq<seq<bool>>): nat { Buffers.SumTo(Limits(accepted), |accepted|) }

  lemma FirstOfBatch(accepted: seq<seq<bool>>)
    requires accepted != []
    ensures AcceptedInBatch(accepted) == Limit(accepted[0]) + AcceptedInBatch(accepted[1..])
  {
    Buffers.SumFromFront(Limits(accepted), |accepted|);
    assert Limits(accepted)[1..] == Limits(accepted[1..]);
  }

  /** Over a batch with real tokens, the emitted counter grows by the accepted drafts and one token for every
      request. */
  lemma {:induction false} BatchEmits(accepted: seq<seq<bool>>, rows: seq<seq<int>>)
    requires |rows| == |accepted|
    requires forall b :: 0 <= b < |rows| ==> CountTokens(rows[b]) == Limit(accepted[b]) + 1
    ensures AllTokens(rows) == AcceptedInBatch(accepted) + |rows|
  {
    if rows != [] {
      FirstOfBatch(accepted);
      BatchEmits(accepted[1..], rows[1..]);
    }
  }

  ghost predicate NoneBehind(accepted: seq<bool>) {
    forall j :: Limit(accepted) <= j < |accepted| ==> !accepted[j]
  }

  /** Over a batch, the accepted counter grows by the accepted drafts exactly when no row has a flag behind a
      rejection, and by more otherwise. */
  lemma {:induction false} BatchCounterExact(accepted: seq<seq<bool>>)
    ensures AllTrue(accepted) >= AcceptedInBatch(accepted)
    ensures AllTrue(accepted) == AcceptedInBatch(accepted)
       <==> forall b :: 0 <= b < |accepted| ==> NoneBehind(accepted[b])
  {
    if accepted != [] {
      FirstOfBatch(accepted);
      AcceptedCounterExact(accepted[0]);
      BatchCounterExact(accepted[1..]);
      hide NoneBehind;
      assert forall b :: 1 <= b < |accepted| ==> accepted[b] == accepted[1..][b - 1];
      assert forall b :: 0 <= b < |accepted| - 1 ==> accepted[1..][b] == accepted[b + 1];
    }
  }

  /** A rejected draft followed by one that matches on its own: no draft is accepted, but one is counted. */
  lemma CountedBehindRejectionExample()
    ensures CountTrue([false, true]) == 1 && Limit([false, true]) == 0
  {
    assert [false, true][1..] == [true];
  }

  /** The accepted-token counter also counts flags behind a rejection: it equals the number of
      accepted drafts exactly when no such flag is set. */
  lemma {:induction false} AcceptedCounterExact(accepted: seq<bool>)
    ensures CountTrue(accepted) >= Limit(accepted)
    ensures CountTrue(accepted) == Limit(accepted) <==> forall j :: Limit(accepted) <= j < |accepted| ==> !accepted[j]
  {
    if accepted != [] {
      var rest := accepted[1..];
      AcceptedCounterExact(rest);
      if accepted[0] {
        assert forall j :: 1 <= j < |accepted| ==> accepted[j] == rest[j - 1];
        assert forall j :: 0 <= j < |rest| ==> rest[j] == accepted[j + 1];
      } else if CountTrue(rest) == 0 {
        NoneTrue(rest);
        assert forall j :: 1 <= j < |accepted| ==> accepted[j] == rest[j - 1];
      } else {
        SomeTrue(rest);
        var j :| 0 <= j < |rest| && rest[j];
        assert accepted[j + 1];
      }
    }
  }

  lemma {:induction false} NoneTrue(s: seq<bool>)
    requires CountTrue(s) == 0
    ensures forall j :: 0 <= j < |s| ==> !s[j]
  {
    if s != [] { NoneTrue(s[1..]); }
  }

  lemma {:induction false} SomeTrue(s: seq<bool>)
    requires CountTrue(s) > 0
    ensures exists j :: 0 <= j < |s| && s[j]
  {
    if !s[0] {
      SomeTrue(s[1..]);
      var j :| 0 <= j < |s[1..]| && s[1..][j];
      assert s[j + 1];
    }
  }

  /** Both samplers agree on greedy decoding: with the predictions as substitutes and the last one
      as the bonus token, the rejection sampler's row is the row of SimpleSampler. */
  lemma GreedyRejectionAgrees(drafts: seq<int>, forward: seq<Token>, b: nat, row: Row, rejected: seq<int>)
    requires drafts != [] && SampledRow(drafts, forward, b, row)
    requires forall j :: 0 <= j < |drafts| ==> drafts[j] >= 0
    requires RejectionRow(Flags(drafts, forward), forward[..|drafts|], drafts, forward[|drafts|], rejected)
    ensures rejected == row.ids
  {
    assert Limit(Flags(drafts, forward)) == row.acceptedNum;
  }
}

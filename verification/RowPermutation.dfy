/** The in-place reordering of per-request cache rows (omni/layers/npu_sampler_cache.py).

    `src[i]` names the row whose old content row `i` has to receive; -1 means that row `i`
    belongs to a new request.  The loops follow `src` from each row in turn and use the last
    row of the tensor as scratch space.
 */
module RowPermutation {
  import opened Wrappers

  // ----- What the list `src` means ------------------------------------------------------

  /** The row reached from row `a` by following `src` `k` times; -1 once the walk has ended. */
  ghost function Follow(src: seq<int>, a: int, k: nat): int {
    if k == 0 then a
    else
      var b := Follow(src, a, k - 1);
      if 0 <= b < |src| then src[b] else -1
  }

  ghost predicate Reaches(src: seq<int>, a: int, c: int) {
    exists k: nat :: Follow(src, a, k) == c
  }

  /** Row `c` reaches `d` in at least one step. */
  ghost predicate ReachesLater(src: seq<int>, c: int, d: int) {
    exists k: nat :: k > 0 && Follow(src, c, k) == d
  }

  /** The row has to be overwritten by some other row. */
  predicate Movable(src: seq<int>, c: int) {
    0 <= c < |src| && src[c] != -1 && src[c] != c
  }

  /** No two rows ask for the same old row: what distinct request ids guarantee. */
  ghost predicate PartialInjection(src: seq<int>) {
    && (forall i :: 0 <= i < |src| ==> -1 <= src[i])
    && (forall i, j :: 0 <= i < j < |src| && src[i] != -1 ==> src[i] != src[j])
  }

  ghost predicate InRange(src: seq<int>) {
    forall i :: 0 <= i < |src| ==> src[i] < |src|
  }

  /** `src` is a permutation of the live rows. */
  ghost predicate Permutation(src: seq<int>) {
    && InRange(src)
    && (forall i :: 0 <= i < |src| ==> 0 <= src[i])
    && (forall i, j :: 0 <= i < j < |src| ==> src[i] != src[j])
  }

  /** The row that `p` reads is still intact when `p` is written: it stays where it is, or the
      walk that visits `p` starts no later than the row it reads. */
  ghost predicate Intact(src: seq<int>, p: int)
    requires 0 <= p < |src| && 0 <= src[p] < |src|
  {
    src[p] == p || src[src[p]] == -1 || exists a :: 0 <= a <= src[p] && Reaches(src, a, p)
  }

  lemma FollowStep(src: seq<int>, a: int, k: nat)
    requires 0 <= Follow(src, a, k) < |src|
    ensures Follow(src, a, k + 1) == src[Follow(src, a, k)]
  {
  }

  lemma ReachesSelf(src: seq<int>, a: int)
    ensures Reaches(src, a, a)
  {
    assert Follow(src, a, 0) == a;
  }

  /** The row read last on a walk into `m` is the only row that reads `m`. */
  lemma ReachesThroughReader(src: seq<int>, a: int, m: int, reader: int)
    requires PartialInjection(src)
    requires 0 <= reader < |src| && src[reader] == m && m >= 0
    requires ReachesLater(src, a, m)
    ensures Reaches(src, a, reader)
  {
    var k: nat :| k > 0 && Follow(src, a, k) == m;
    var b := Follow(src, a, k - 1);
    assert 0 <= b < |src| && src[b] == m;
    assert b == reader;
  }

  // ----- The visited set ------------------------------------------------------------------

  /** A set of rows that a walk never leaves. */
  ghost predicate Closed(src: seq<int>, visited: set<int>) {
    && (forall c :: c in visited ==> Movable(src, c))
    && (forall c, d :: c in visited && Movable(src, d) && src[c] == d ==> d in visited)
  }

  lemma {:induction false} ClosedKeepsWalk(src: seq<int>, visited: set<int>, a: int, k: nat)
    requires Closed(src, visited)
    requires Movable(src, a) ==> a in visited
    requires Movable(src, Follow(src, a, k))
    ensures Follow(src, a, k) in visited
  {
    if k > 0 {
      var b := Follow(src, a, k - 1);
      assert Movable(src, b);
      ClosedKeepsWalk(src, visited, a, k - 1);
    }
  }

  lemma ClosedKeepsReachable(src: seq<int>, visited: set<int>, a: int, c: int)
    requires Closed(src, visited)
    requires Movable(src, a) ==> a in visited
    requires Reaches(src, a, c) && Movable(src, c)
    ensures c in visited
  {
    var k: nat :| Follow(src, a, k) == c;
    ClosedKeepsWalk(src, visited, a, k);
  }

  /** The rows visited by the walks from all rows below `i`, and nothing else. */
  ghost predicate VisitedUpTo(src: seq<int>, visited: set<int>, i: int) {
    && Closed(src, visited)
    && (forall a :: 0 <= a < i && Movable(src, a) ==> a in visited)
    && (forall c :: c in visited ==> exists a :: 0 <= a < i && Reaches(src, a, c))
  }

  // ----- What one row holds after it has been written --------------------------------------

  /** `content` is the old row now held by row `p`, which is written when the walk from `i`
      reaches it, after the walks from all smaller rows. */
  ghost predicate WrittenRow(src: seq<int>, p: int, content: int) {
    && Movable(src, p) && 0 <= src[p] < |src|
    && (content == src[p] <==> Intact(src, p))
    && ReachesLater(src, p, content)
  }

  lemma WriteRow(src: seq<int>, visited: set<int>, i: int, cur: int, content: seq<int>)
    requires PartialInjection(src)
    requires 0 <= i < |src| && VisitedUpTo(src, visited, i)
    requires Reaches(src, i, cur) && Movable(src, cur) && cur !in visited && src[cur] < |src|
    requires |content| == |src|
    requires forall c :: 0 <= c < |src| && c in visited ==> WrittenRow(src, c, content[c])
    requires src[cur] != i && src[cur] !in visited ==> content[src[cur]] == src[cur]
    ensures WrittenRow(src, cur, if src[cur] == i then i else content[src[cur]])
  {
    var m := src[cur];
    assert Follow(src, cur, 0) == cur;
    FollowStep(src, cur, 0);
    assert Follow(src, cur, 1) == m;
    if m == i {
    } else if m !in visited {
      if src[m] != -1 {
        assert Movable(src, m);
        assert i <= m;
      }
    } else {
      WriteAfterLoss(src, visited, i, cur, content[m]);
    }
  }

  /** Row `m` was overwritten by an earlier walk before its reader `cur` is visited. */
  lemma WriteAfterLoss(src: seq<int>, visited: set<int>, i: int, cur: int, lost: int)
    requires PartialInjection(src)
    requires 0 <= i < |src| && VisitedUpTo(src, visited, i)
    requires Movable(src, cur) && cur !in visited && src[cur] < |src|
    requires src[cur] in visited && WrittenRow(src, src[cur], lost)
    ensures !Intact(src, cur) && lost != src[cur]
    ensures ReachesLater(src, cur, lost)
  {
    var m := src[cur];
    var a' :| 0 <= a' < i && Reaches(src, a', m);
    if a :| 0 <= a <= m && Reaches(src, a, cur) {
      if a < i {
        ClosedKeepsReachable(src, visited, a, cur);
        assert false;
      }
      var k: nat :| Follow(src, a', k) == m;
      assert k > 0;
      ReachesThroughReader(src, a', m, cur);
      ClosedKeepsReachable(src, visited, a', cur);
      assert false;
    }
    if lost == m {
      ReachesThroughReader(src, m, m, cur);
      ClosedKeepsReachable(src, visited, m, cur);
      assert false;
    }
    var k: nat :| k > 0 && Follow(src, m, k) == lost;
    FollowShift(src, cur, k);
    assert Follow(src, cur, k + 1) == lost;
  }

  lemma {:induction false} FollowShift(src: seq<int>, c: int, k: nat)
    requires 0 <= c < |src|
    ensures Follow(src, c, k + 1) == Follow(src, src[c], k)
  {
    if k == 0 {
      FollowStep(src, c, 0);
    } else {
      FollowShift(src, c, k - 1);
    }
  }

  // ----- The loops ----------------------------------------------------------------------

  /** The rows already rewritten, as a set. */
  ghost function Marked(applied: seq<bool>): set<int> {
    set c | 0 <= c < |applied| && applied[c]
  }

  /** What the rows of one tensor are afterwards: row `p` holds old row `content[p]`. */
  ghost predicate Routed(src: seq<int>, content: seq<int>) {
    && |content| == |src|
    && forall p :: 0 <= p < |src| ==>
         && 0 <= content[p] < |src|
         && if Movable(src, p) then WrittenRow(src, p, content[p]) else content[p] == p
  }

  ghost predicate Holds<T>(rows: seq<T>, content: seq<int>, before: seq<T>)
    requires |content| <= |rows| == |before|
  {
    && (forall p :: 0 <= p < |content| ==> 0 <= content[p] < |content| && rows[p] == before[content[p]])
    && (forall p :: |content| <= p < |rows| - 1 ==> rows[p] == before[p])
  }

  /** Which old row each row holds, once the rows of `visited` have been rewritten. */
  ghost predicate Tracks(src: seq<int>, visited: set<int>, content: seq<int>) {
    && |content| == |src|
    && forall c :: 0 <= c < |src| ==>
         if c in visited then WrittenRow(src, c, content[c]) else content[c] == c
  }

  /** Where things stand before the walk from row `i`. */
  ghost predicate Progress(src: seq<int>, visited: set<int>, content: seq<int>, i: int) {
    VisitedUpTo(src, visited, i) && Tracks(src, visited, content)
  }

  ghost predicate Distinct<Id>(ids: seq<Id>) {
    forall i, j :: 0 <= i < j < |ids| ==> ids[i] != ids[j]
  }

  /** Distinct values below `n` are at most `n` many. */
  lemma {:induction false} AtMost(s: seq<int>, n: nat)
    requires Distinct(s) && forall k :: 0 <= k < |s| ==> 0 <= s[k] < n
    ensures |s| <= n
  {
    if s != [] {
      assert 0 <= s[0] < n;
      if k :| 0 <= k < |s| && s[k] == n - 1 {
        AtMost(s[..k] + s[k + 1..], n - 1);
      } else {
        AtMost(s, n - 1);
      }
    }
  }

  /** The rows rewritten so far on the walk from row `i`, in order; the walk now stands at `cur`. */
  ghost predicate Path(src: seq<int>, path: seq<int>, i: int, cur: int) {
    && Distinct(path) && (forall j :: 0 <= j < |path| ==> Movable(src, path[j]))
    && (forall j, k :: 0 <= j && k == j + 1 && k < |path| ==> src[path[j]] == path[k])
    && (if path == [] then cur == i else path[0] == i && src[path[|path| - 1]] == cur)
  }

  ghost function Rows(path: seq<int>): set<int> {
    set c | c in path
  }

  /** In the middle of the walk from row `i`. */
  ghost predicate OnWalk(src: seq<int>, visited: set<int>, path: seq<int>, content: seq<int>, i: int, cur: int) {
    && 0 <= i < |src| && 0 <= cur < |src|
    && VisitedUpTo(src, visited, i) && Tracks(src, visited + Rows(path), content)
    && Path(src, path, i, cur)
    && Reaches(src, i, cur) && forall c :: c in path ==> Reaches(src, i, c)
  }

  lemma ReachesNext(src: seq<int>, i: int, cur: int)
    requires Reaches(src, i, cur) && 0 <= cur < |src|
    ensures Reaches(src, i, src[cur])
  {
    var k: nat :| Follow(src, i, k) == cur;
    FollowStep(src, i, k);
    assert Follow(src, i, k + 1) == src[cur];
  }

  /** The walk can only run into its own path at the row it started from. */
  lemma ExtendPath(src: seq<int>, path: seq<int>, i: int, cur: int)
    requires PartialInjection(src) && Path(src, path, i, cur)
    requires Movable(src, cur) && cur !in path
    ensures Path(src, path + [cur], i, src[cur])
    ensures cur == i <==> path == []
    ensures src[cur] in path ==> src[cur] == i
  {
    forall k | 0 < k < |path|
      ensures path[k] != src[cur]
    {
      var j := k - 1;
      assert src[path[j]] == path[k];
    }
  }

  lemma PathIsShort(src: seq<int>, path: seq<int>, i: int, cur: int)
    requires Path(src, path, i, cur)
    ensures |path| <= |src|
  {
    AtMost(path, |src|);
  }

  lemma StepOnWalk(src: seq<int>, visited: set<int>, path: seq<int>, content: seq<int>, i: int, cur: int)
    requires PartialInjection(src)
    requires OnWalk(src, visited, path, content, i, cur)
    requires Movable(src, cur) && cur !in visited + Rows(path) && src[cur] < |src|
    ensures cur == i <==> path == []
    ensures var held := if src[cur] == i then i else content[src[cur]];
            OnWalk(src, visited, path + [cur], content[cur := held], i, src[cur])
  {
    ExtendPath(src, path, i, cur);
    ReachesNext(src, i, cur);
    WriteRow(src, visited, i, cur, content);
    assert visited + Rows(path + [cur]) == visited + Rows(path) + {cur};
  }

  lemma EndWalk(src: seq<int>, visited: set<int>, path: seq<int>, content: seq<int>, i: int, cur: int)
    requires OnWalk(src, visited, path, content, i, cur)
    requires Movable(src, cur) ==> cur in visited + Rows(path)
    ensures Progress(src, visited + Rows(path), content, i + 1)
  {
    var all := visited + Rows(path);
    assert Closed(src, all) by {
      forall c, d | c in path && Movable(src, d) && src[c] == d
        ensures d in all
      {
        var j :| 0 <= j < |path| && path[j] == c;
        if j + 1 < |path| {
          assert src[path[j]] == path[j + 1];
        }
      }
    }
  }

  /** What the walk from row `i` starts and ends with.  A pass over a later tensor finds every
      row marked, so it does not move. */
  ghost predicate Standing<T>(src: seq<int>, applied: seq<bool>, rows: seq<T>, before: seq<T>,
                              content: seq<int>, moving: bool, i: int)
  {
    && |applied| == |src| == |content| < |rows| == |before|
    && if moving then
         Progress(src, Marked(applied), content, i) && Holds(rows, content, before)
       else
         rows == before && forall c :: 0 <= c < |src| ==> applied[c] == Movable(src, c)
  }

  /** The inner loop's invariant. */
  ghost predicate Walking<T>(src: seq<int>, applied: seq<bool>, rows: seq<T>, before: seq<T>, content: seq<int>,
                             visited: set<int>, path: seq<int>, i: int, cur: int)
  {
    && |applied| == |src| == |content| < |rows| == |before|
    && Marked(applied) == visited + Rows(path)
    && OnWalk(src, visited, path, content, i, cur)
    && Holds(rows, content, before)
    && (path != [] ==> rows[|rows| - 1] == before[i])
  }

  /** The rows after one iteration of the inner loop. */
  ghost function Rewritten<T>(src: seq<int>, rows: seq<T>, i: int, cur: int): seq<T>
    requires 0 <= i < |rows| && 0 <= cur < |src| < |rows| && 0 <= src[cur] < |rows|
  {
    var stash := if cur == i then rows[|rows| - 1 := rows[i]] else rows;
    stash[cur := if src[cur] == i then stash[|rows| - 1] else stash[src[cur]]]
  }

  lemma RewriteHolds<T>(src: seq<int>, rows: seq<T>, before: seq<T>, content: seq<int>, i: int, cur: int)
    requires |src| == |content| < |rows| == |before| && Holds(rows, content, before)
    requires 0 <= i < |src| && 0 <= cur < |src| && 0 <= src[cur] < |src|
    requires if cur == i then content[i] == i else rows[|rows| - 1] == before[i]
    ensures var held := if src[cur] == i then i else content[src[cur]];
            Holds(Rewritten(src, rows, i, cur), content[cur := held], before)
    ensures Rewritten(src, rows, i, cur)[|rows| - 1] == before[i]
  {
  }

  lemma MarkRow(applied: seq<bool>, visited: set<int>, path: seq<int>, cur: int)
    requires 0 <= cur < |applied| && Marked(applied) == visited + Rows(path)
    ensures Marked(applied[cur := true]) == visited + Rows(path + [cur])
  {
    assert Marked(applied[cur := true]) == Marked(applied) + {cur};
    assert Rows(path + [cur]) == Rows(path) + {cur};
  }

  lemma KeepWalking<T>(src: seq<int>, applied: seq<bool>, rows: seq<T>, before: seq<T>, content: seq<int>,
                       visited: set<int>, path: seq<int>, i: int, cur: int)
    requires PartialInjection(src)
    requires Walking(src, applied, rows, before, content, visited, path, i, cur)
    requires Movable(src, cur) && !applied[cur] && src[cur] < |src|
    ensures var held := if src[cur] == i then i else content[src[cur]];
            Walking(src, applied[cur := true], Rewritten(src, rows, i, cur), before, content[cur := held],
                    visited, path + [cur], i, src[cur])
  {
    assert cur !in Marked(applied);
    StepOnWalk(src, visited, path, content, i, cur);
    MarkRow(applied, visited, path, cur);
    RewriteHolds(src, rows, before, content, i, cur);
  }

  /** One iteration of the inner loop, up to the move to the next row. */
  method RewriteRow<T>(tensor: array<T>, src: seq<int>, applied: array<bool>, last: int, i: int, cur: int)
    returns (raised: bool)
    requires applied.Length == |src| <= last == tensor.Length - 1
    requires tensor as object != applied
    requires 0 <= i < |src| && 0 <= cur < |src| && 0 <= src[cur]
    modifies tensor, applied
    ensures raised <==> src[cur] >= tensor.Length
    ensures applied[..] == old(applied[..])[cur := true]
    ensures !raised ==> tensor[..] == Rewritten(src, old(tensor[..]), i, cur)
  {
    applied[cur] := true;
    if cur == i {
      tensor[last] := tensor[i];
    }
    if src[cur] >= tensor.Length {
      return true;
    }
    if src[cur] == i {
      tensor[cur] := tensor[last];
    } else {
      tensor[cur] := tensor[src[cur]];
    }
    raised := false;
  }

  /** The walk from row `i`: the inner loop.  `raised` is Python's IndexError. */
  method WalkFrom<T>(tensor: array<T>, src: seq<int>, applied: array<bool>, last: int, i: int,
                     ghost before: seq<T>, ghost content: seq<int>, ghost moving: bool)
    returns (raised: bool, ghost content': seq<int>)
    requires PartialInjection(src) && 0 <= i < |src|
    requires applied.Length == |src| <= last == tensor.Length - 1
    requires tensor as object != applied
    requires Standing(src, applied[..], tensor[..], before, content, moving, i)
    modifies tensor, applied
    ensures raised ==> !InRange(src) && moving
    ensures !raised ==> Standing(src, applied[..], tensor[..], before, content', moving, i + 1)
  {
    content' := content;
    var cur := i;
    ghost var visited, path := Marked(applied[..]), [];
    ghost var marks, rows := applied[..], tensor[..];
    ReachesSelf(src, i);
    while src[cur] != cur && src[cur] != -1 && !applied[cur]
      invariant 0 <= cur < |src| && |content'| == |src|
      invariant marks == applied[..] && rows == tensor[..]
      invariant moving ==> Walking(src, marks, rows, before, content', visited, path, i, cur)
      invariant !moving ==> Standing(src, marks, rows, before, content', moving, i)
      decreases |src| - |path|
    {
      assert Movable(src, cur);
      raised := RewriteRow(tensor, src, applied, last, i, cur);
      if raised || src[cur] >= |src| {
        return true, content';
      }
      KeepWalking(src, marks, rows, before, content', visited, path, i, cur);
      PathIsShort(src, path + [cur], i, src[cur]);
      content' := content'[cur := if src[cur] == i then i else content'[src[cur]]];
      path := path + [cur];
      marks, rows := marks[cur := true], Rewritten(src, rows, i, cur);
      cur := src[cur];
    }
    if moving {
      EndWalk(src, visited, path, content', i, cur);
    }
    raised := false;
  }

  /** The loop over the rows of one tensor. */
  method MoveRows<T>(tensor: array<T>, src: seq<int>, applied: array<bool>, last: int, ghost moving: bool)
    returns (raised: bool, ghost content: seq<int>)
    requires PartialInjection(src)
    requires applied.Length == |src| <= last == tensor.Length - 1
    requires tensor as object != applied
    requires if moving then forall c :: 0 <= c < |src| ==> !applied[c]
             else InRange(src) && forall c :: 0 <= c < |src| ==> applied[c] == Movable(src, c)
    modifies tensor, applied
    ensures raised <==> !InRange(src)
    ensures !raised ==> forall c :: 0 <= c < |src| ==> applied[c] == Movable(src, c)
    ensures !raised && moving ==> Routed(src, content) && Holds(tensor[..], content, old(tensor[..]))
    ensures !moving ==> tensor[..] == old(tensor[..])
  {
    content := seq(|src|, c => c);
    ghost var before := tensor[..];
    assert Marked(applied[..]) == {} || !moving;
    var i := 0;
    while i < |src|
      invariant 0 <= i <= |src|
      invariant Standing(src, applied[..], tensor[..], before, content, moving, i)
    {
      raised, content := WalkFrom(tensor, src, applied, last, i, before, content, moving);
      if raised {
        return;
      }
      i := i + 1;
    }
    if moving {
      AllVisited(src, applied[..], content);
    }
    raised := false;
  }

  lemma AllVisited(src: seq<int>, applied: seq<bool>, content: seq<int>)
    requires |applied| == |src| && Progress(src, Marked(applied), content, |src|)
    requires forall p :: 0 <= p < |src| ==> 0 <= content[p] < |src|
    ensures InRange(src) && Routed(src, content)
    ensures forall c :: 0 <= c < |src| ==> applied[c] == Movable(src, c)
  {
    forall c | 0 <= c < |src|
      ensures applied[c] == Movable(src, c) && src[c] < |src|
    {
      assert applied[c] <==> c in Marked(applied);
    }
  }

  /** Every tensor of the list, with the one `applied` list that they share. */
  method MoveCachedTensors<T>(tensors: seq<array<T>>, src: seq<int>) returns (raised: bool, ghost content: seq<int>)
    requires PartialInjection(src)
    requires tensors != [] && forall k :: 0 <= k < |tensors| ==> |src| < tensors[k].Length == tensors[0].Length
    requires forall j, k :: 0 <= j < k < |tensors| ==> tensors[j] != tensors[k]
    modifies tensors
    ensures raised <==> !InRange(src)
    ensures !raised ==> Routed(src, content) && Holds(tensors[0][..], content, old(tensors[0][..]))
    ensures !raised ==> forall k :: 1 <= k < |tensors| ==> tensors[k][..] == old(tensors[k][..])
  {
    var applied := new bool[|src|](_ => false);
    var last := tensors[0].Length - 1;
    content := [];
    raised := false;
    var k := 0;
    while k < |tensors|
      invariant 0 <= k <= |tensors| && !raised
      invariant k == 0 ==> forall c :: 0 <= c < |src| ==> !applied[c]
      invariant k > 0 ==> InRange(src) && forall c :: 0 <= c < |src| ==> applied[c] == Movable(src, c)
      invariant k > 0 ==> Routed(src, content) && Holds(tensors[0][..], content, old(tensors[0][..]))
      invariant forall j :: (1 <= j || k == 0) && 0 <= j < |tensors| ==> tensors[j][..] == old(tensors[j][..])
    {
      ghost var moved;
      raised, moved := MoveRows(tensors[k], src, applied, last, k == 0);
      if raised {
        return;
      }
      if k == 0 {
        content := moved;
      }
      k := k + 1;
    }
  }

  // ----- Whose data a row holds -------------------------------------------------------------

  /** The list built from the cached and the new request ids. */
  ghost predicate SourceRows<Id>(src: seq<int>, cached: seq<Id>, new_: seq<Id>) {
    && |src| == |new_|
    && forall j :: 0 <= j < |src| ==>
         if src[j] == -1 then new_[j] !in cached
         else 0 <= src[j] < |cached| && cached[src[j]] == new_[j]
  }

  ghost predicate SameIds<Id>(cached: seq<Id>, new_: seq<Id>) {
    |cached| == |new_| && forall id :: id in new_ ==> id in cached
  }

  lemma SourceRowsInjective<Id>(src: seq<int>, cached: seq<Id>, new_: seq<Id>)
    requires SourceRows(src, cached, new_) && Distinct(new_)
    ensures PartialInjection(src)
    ensures SameIds(cached, new_) ==> Permutation(src)
  {
  }

  lemma {:induction false} FollowStays(src: seq<int>, a: int, k: nat)
    requires Permutation(src) && 0 <= a < |src|
    ensures 0 <= Follow(src, a, k) < |src|
  {
    if k > 0 { FollowStays(src, a, k - 1); }
  }

  lemma {:induction false} FollowBack(src: seq<int>, a: int, j: nat, k: nat)
    requires Permutation(src) && 0 <= a < |src|
    requires j < k && Follow(src, a, j) == Follow(src, a, k)
    ensures ReachesLater(src, a, a)
  {
    if j == 0 {
      assert Follow(src, a, k) == a;
    } else {
      FollowStays(src, a, j - 1);
      FollowStays(src, a, k - 1);
      FollowBack(src, a, j - 1, k - 1);
    }
  }

  /** On a permutation every walk comes back, so no row is lost before it is read. */
  lemma PermutationIntact(src: seq<int>, p: int)
    requires Permutation(src) && 0 <= p < |src|
    ensures Intact(src, p)
  {
    var m := src[p];
    if m != p {
      forall k: nat | k <= |src|
        ensures 0 <= Follow(src, m, k) < |src|
      {
        FollowStays(src, m, k);
      }
      var walk := seq(|src| + 1, k requires k >= 0 => Follow(src, m, k));
      if Distinct(walk) {
        AtMost(walk, |src|);
        assert false;
      }
      var j, k :| 0 <= j < k < |walk| && walk[j] == walk[k];
      FollowBack(src, m, j, k);
      ReachesThroughReader(src, m, m, p);
    }
  }

  /** The main result for one tensor: after the loops every row of a reordered batch holds the
      data of its own request. */
  lemma ReorderedRowsFollow<Id, T>(cached: seq<Id>, new_: seq<Id>, src: seq<int>, content: seq<int>,
                                   before: seq<T>, after: seq<T>, i: int, j: int)
    requires Distinct(cached) && Distinct(new_) && SameIds(cached, new_)
    requires SourceRows(src, cached, new_) && Routed(src, content)
    requires |new_| < |before| == |after| && Holds(after, content, before)
    requires 0 <= i < |cached| && 0 <= j < |new_| && cached[i] == new_[j]
    ensures after[j] == before[i]
  {
    SourceRowsInjective(src, cached, new_);
    PermutationIntact(src, j);
  }

  /** When requests come and go, exactly the intact rows follow their request: for every list
      without an index past the end there is tensor data that tells the others apart. */
  lemma ExactlyIntactRowsFollow(src: seq<int>, content: seq<int>, j: int)
    requires PartialInjection(src) && InRange(src) && Routed(src, content)
    requires 0 <= j < |src| && src[j] != -1
    ensures (forall before: seq<int>, after: seq<int> ::
               |src| < |before| == |after| && Holds(after, content, before) ==> after[j] == before[src[j]])
            <==> Intact(src, j)
  {
    if !Intact(src, j) {
      assert Movable(src, j) && content[j] != src[j];
      var before := seq(|src| + 1, r => r);
      var after := content + [0];
      assert Holds(after, content, before) && after[j] != before[src[j]];
    } else if src[j] == j {
      assert content[j] == src[j];
    }
  }

  /** A request that moves to a larger row behind a departed one: with rows a, b, c cached and
      the batch now new, a, b, row 1 is overwritten before row 2 reads it. */
  lemma LostRowExample()
    ensures var src := [-1, 0, 1]; PartialInjection(src) && InRange(src) && Intact(src, 1) && !Intact(src, 2)
  {
    var src := [-1, 0, 1];
    forall a | 0 <= a <= 1
      ensures !Reaches(src, a, 2)
    {
      forall k: nat
        ensures Follow(src, a, k) <= a
      {
        FollowsDown(src, a, k);
      }
    }
  }

  lemma {:induction false} FollowsDown(src: seq<int>, a: int, k: nat)
    requires a >= 0 && forall c :: 0 <= c < |src| ==> src[c] < c
    ensures Follow(src, a, k) <= a
  {
    if k > 0 { FollowsDown(src, a, k - 1); }
  }

  ghost predicate RowsAlreadyFollow(src: seq<int>, rows: seq<int>)
    requires |src| < |rows| && InRange(src) && PartialInjection(src)
  {
    forall j :: 0 <= j < |src| && src[j] != -1 ==> rows[j] == rows[src[j]]
  }

  /** The tensors after the first keep their rows, so each row holds its request's data there for
      all contents exactly when no row had to move. */
  lemma LaterTensorsFollowOnlyInPlace(src: seq<int>)
    requires InRange(src) && PartialInjection(src)
    ensures (forall rows: seq<int> :: |src| < |rows| ==> RowsAlreadyFollow(src, rows))
            <==> forall j :: 0 <= j < |src| ==> !Movable(src, j)
  {
    if j :| 0 <= j < |src| && Movable(src, j) {
      var rows := seq(|src| + 1, r => r);
      assert !RowsAlreadyFollow(src, rows);
    } else {
      assert forall j :: 0 <= j < |src| && src[j] != -1 ==> src[j] == j || Movable(src, j);
    }
  }

  /** Two requests that swap their rows: the second tensor keeps the old order, so it is wrong. */
  lemma SecondTensorExample()
    ensures var src := [1, 0];
            && Permutation(src) && InRange(src) && PartialInjection(src)
            && !RowsAlreadyFollow(src, [10, 20, 0])
  {
    assert [10, 20, 0][0] != [10, 20, 0][[1, 0][0]];
  }

  /** The cache whose rows belong to requests: PenaltyCache keeps three tensors, ProbCache four. */
  class RowCache<Id(==), T> {
    var cachedReqIds: Option<seq<Id>>
    const tensors: seq<array<T>>

    ghost predicate Valid()
      reads this
    {
      && tensors != []
      && (forall k :: 0 <= k < |tensors| ==> tensors[k].Length == tensors[0].Length)
      && (forall j, k :: 0 <= j < k < |tensors| ==> tensors[j] != tensors[k])
      && (cachedReqIds.Some? ==> Distinct(cachedReqIds.value))
    }

    /** Reorders the rows for the new batch.  Of the first tensor exactly the intact rows follow
        their request, which is every row when the batch is merely reordered; the other tensors
        keep the old order. */
    method PermuteCachedReqs(newReqIds: seq<Id>)
      returns (raised: bool, ghost src: seq<int>, ghost content: seq<int>)
      requires Valid() && Distinct(newReqIds) && |newReqIds| < tensors[0].Length
      modifies this, tensors
      ensures Valid()
      ensures cachedReqIds == if raised then old(cachedReqIds) else Some(newReqIds)
      ensures old(cachedReqIds).None? ==>
                !raised && forall k :: 0 <= k < |tensors| ==> tensors[k][..] == old(tensors[k][..])
      ensures old(cachedReqIds).Some? ==> SourceRows(src, old(cachedReqIds).value, newReqIds)
      ensures old(cachedReqIds).Some? ==> (raised <==> !InRange(src))
      ensures old(cachedReqIds).Some? && !raised ==>
                && Routed(src, content) && Holds(tensors[0][..], content, old(tensors[0][..]))
                && forall k :: 1 <= k < |tensors| ==> tensors[k][..] == old(tensors[k][..])
      ensures old(cachedReqIds).Some? && SameIds(old(cachedReqIds).value, newReqIds) ==>
                && !raised
                && forall i, j ::
                     0 <= i < |newReqIds| && 0 <= j < |newReqIds| && old(cachedReqIds).value[i] == newReqIds[j] ==>
                       tensors[0][j] == old(tensors[0][i])
    {
      src, content := [], [];
      if cachedReqIds.None? {
        cachedReqIds := Some(newReqIds);
        return false, src, content;
      }
      ghost var before := tensors[0][..];
      var cached := cachedReqIds.value;
      var rows := CollectSourceRows(cached, newReqIds);
      src := rows;
      SourceRowsInjective(rows, cached, newReqIds);
      raised, content := MoveCachedTensors(tensors, rows);
      if raised {
        return;
      }
      cachedReqIds := Some(newReqIds);
      if SameIds(cached, newReqIds) {
        forall i, j | 0 <= i < |newReqIds| && 0 <= j < |newReqIds| && cached[i] == newReqIds[j]
          ensures tensors[0][j] == before[i]
        {
          ReorderedRowsFollow(cached, newReqIds, rows, content, before, tensors[0][..], i, j);
        }
      }
    }
  }

  /** Python's `list.index`: the first position of `x`, or |s| where Python raises ValueError. */
  method IndexOf<Id(==)>(s: seq<Id>, x: Id) returns (k: nat)
    ensures k <= |s| && x !in s[..k] && (k < |s| ==> s[k] == x)
  {
    k := 0;
    while k < |s| && s[k] != x
      invariant 0 <= k <= |s| && x !in s[..k]
    {
      k := k + 1;
    }
  }

  method CollectSourceRows<Id(==)>(cached: seq<Id>, newReqIds: seq<Id>) returns (src: seq<int>)
    requires Distinct(cached) && Distinct(newReqIds)
    ensures SourceRows(src, cached, newReqIds)
  {
    src := seq(|newReqIds|, j => -1);
    var i := 0;
    while i < |cached|
      invariant 0 <= i <= |cached| && |src| == |newReqIds|
      invariant SourceRows(src, cached[..i], newReqIds)
    {
      var index := IndexOf(newReqIds, cached[i]);
      if index < |newReqIds| {
        src := src[index := i];
      }
      assert cached[..i + 1] == cached[..i] + [cached[i]];
      i := i + 1;
    }
    assert cached[..i] == cached;
  }
}

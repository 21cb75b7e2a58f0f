/** Which prefill rank a decode rank reads from, and the links that both sides build
    (omni/accelerators/pd/utils.py, get_p_start_rank;
    omni/accelerators/pd/llmdatadist_manager.py, register_link and pull_kv).
 */
module RankMapping {
  import opened Arith
  import opened Wrappers

  // ----- The prefill rank of a decode rank ----------------------------------------------------------

  /** How far the KV groups of neighbouring decode groups are apart. */
  function LinkGroupStep(kvGroups: nat, dpGroups: nat): int
    requires dpGroups > 0
  {
    var c := CeilDiv(kvGroups, dpGroups);
    if c > 1 then c else 1
  }

  /** The KV group that decode group `x` of `dpGroups` reads from. */
  function KvGroup(kvGroups: nat, dpGroups: nat, x: nat): (g: int)
    requires kvGroups > 0 && dpGroups > 0
    ensures 0 <= g < kvGroups
  {
    (x * LinkGroupStep(kvGroups, dpGroups)) % kvGroups
  }

  /** The step is the least one, but at least 1, with which the decode groups reach all KV groups. */
  lemma StepIsLeast(kvGroups: nat, dpGroups: nat)
    requires kvGroups > 0 && dpGroups > 0
    ensures var step := LinkGroupStep(kvGroups, dpGroups);
            1 <= step <= kvGroups && step * dpGroups >= kvGroups && (step > 1 ==> (step - 1) * dpGroups < kvGroups)
  {
    var step := LinkGroupStep(kvGroups, dpGroups);
    CeilBelow(kvGroups, dpGroups, step);
    if step > 1 { CeilBelow(kvGroups, dpGroups, step - 1); }
    MulAtLeast(dpGroups, kvGroups);
    CeilBelow(kvGroups, dpGroups, kvGroups);
  }

  /** The first decode group reads from the first KV group, and each one a step after the one before, around
      the KV groups. */
  lemma GroupWalk(kvGroups: nat, dpGroups: nat, x: nat)
    requires kvGroups > 0 && dpGroups > 0
    ensures KvGroup(kvGroups, dpGroups, 0) == 0
    ensures var next := KvGroup(kvGroups, dpGroups, x) + LinkGroupStep(kvGroups, dpGroups);
            KvGroup(kvGroups, dpGroups, x + 1) == if next < kvGroups then next else next - kvGroups
  {
    var step := LinkGroupStep(kvGroups, dpGroups);
    StepIsLeast(kvGroups, dpGroups);
    ModSmall(0, kvGroups);
    Spread(x, 1, step);
    DivParts(x * step, kvGroups);
    var turn, g := x * step / kvGroups, (x * step) % kvGroups;
    if g + step < kvGroups {
      DivModUnique((x + 1) * step, turn, kvGroups, g + step);
    } else {
      Spread(turn, 1, kvGroups);
      DivModUnique((x + 1) * step, turn + 1, kvGroups, g + step - kvGroups);
    }
  }

  predicate Accepted(pTp: int, pDp: int, dTp: int, dDp: int, dNodes: int, node: int, dRank: int) {
    && pDp == 1 && pTp > 0 && dTp > 0 && dDp > 0 && dNodes > 0
    && 0 <= node < dNodes && 0 <= dRank < dDp * dTp && pTp % dTp == 0
  }

  /** None is any of the ValueErrors. */
  function GetPStartRank(pTp: int, pDp: int, dTp: int, dDp: int, dNodes: int, node: int, dRank: int): (r: Option<int>)
    ensures r.Some? <==> Accepted(pTp, pDp, dTp, dDp, dNodes, node, dRank)
    ensures r.Some? ==> 0 <= r.value < pTp
  {
    if pDp != 1 then None
    else if pTp <= 0 || dTp <= 0 || dDp <= 0 || dNodes <= 0 then None
    else if node < 0 || node >= dNodes then None
    else if dRank < 0 then None
    else if dRank >= dDp * dTp then None
    else if pTp % dTp != 0 then None
    else
      Positive(pTp, dTp, dDp, dNodes, dRank, node);
      var kvGroup := KvGroup(pTp / dTp, dNodes * dDp, node + dRank / dTp * dNodes);
      var replicaGroups := pTp / dTp;
      InRange(pTp, dTp, kvGroup, dRank % dTp);
      Some(kvGroup / replicaGroups * pTp + (kvGroup % replicaGroups + dRank % dTp * replicaGroups))
  }

  lemma Positive(pTp: int, dTp: int, dDp: int, dNodes: int, dRank: int, node: int)
    requires pTp > 0 && dTp > 0 && dDp > 0 && dNodes > 0 && pTp % dTp == 0 && dRank >= 0 && node >= 0
    ensures pTp / dTp > 0 && pTp == dTp * (pTp / dTp) && dNodes * dDp > 0 && node + dRank / dTp * dNodes >= 0
  {
    DivParts(pTp, dTp);
    if pTp / dTp <= 0 { MulBound(pTp / dTp, dTp); }
    MulAtLeast(dNodes, dDp);
    DivParts(dRank, dTp);
    if dRank / dTp < 0 { MulBound(dRank / dTp, dTp); }
  }

  lemma InRange(pTp: int, dTp: int, g: int, t: int)
    requires pTp > 0 && dTp > 0 && pTp % dTp == 0 && pTp / dTp > 0 && 0 <= g < pTp / dTp && 0 <= t < dTp
    ensures g / (pTp / dTp) == 0 && g % (pTp / dTp) == g
    ensures 0 <= g + t * (pTp / dTp) < pTp
  {
    var groups := pTp / dTp;
    DivParts(pTp, dTp);
    ModSmall(g, groups);
    RowBound(t, g, groups, dTp);
  }

  /** The rank is its KV group plus a whole number of strides. */
  lemma PStartRankIs(pTp: nat, dTp: nat, dDp: nat, dNodes: nat, node: nat, dRank: nat)
    requires Accepted(pTp, 1, dTp, dDp, dNodes, node, dRank)
    ensures pTp / dTp > 0 && dNodes * dDp > 0 && 0 <= dRank / dTp && 0 <= node + dRank / dTp * dNodes
    ensures GetPStartRank(pTp, 1, dTp, dDp, dNodes, node, dRank)
         == Some(KvGroup(pTp / dTp, dNodes * dDp, node + dRank / dTp * dNodes) + dRank % dTp * (pTp / dTp))
  {
    Positive(pTp, dTp, dDp, dNodes, dRank, node);
    DivParts(dRank, dTp);
    if dRank / dTp < 0 { MulBound(dRank / dTp, dTp); }
    InRange(pTp, dTp, KvGroup(pTp / dTp, dNodes * dDp, node + dRank / dTp * dNodes), dRank % dTp);
  }

  /** (KV group, decode tensor-parallel rank) and prefill rank determine one another. */
  lemma RankBijection(pTp: nat, dTp: nat, g: nat, t: nat, rank: nat)
    requires pTp > 0 && dTp > 0 && pTp % dTp == 0 && rank < pTp
    ensures pTp / dTp > 0 && 0 <= rank % (pTp / dTp) < pTp / dTp && 0 <= rank / (pTp / dTp) < dTp
    ensures g < pTp / dTp && t < dTp && g + t * (pTp / dTp) == rank <==>
              g == rank % (pTp / dTp) && t == rank / (pTp / dTp)
  {
    Positive(pTp, dTp, 1, 1, 0, 0);
    var groups := pTp / dTp;
    DivParts(rank, groups);
    DivBound(rank, groups, dTp);
    if g < groups && g + t * groups == rank { DivModUnique(rank, t, groups, g); }
  }

  /** Decode groups are numbered without gaps or repetitions. */
  lemma GroupNumbering(dNodes: nat, dDp: nat, node: nat, dp: nat, x: nat)
    requires dNodes > 0 && x < dNodes * dDp
    ensures 0 <= x % dNodes < dNodes && 0 <= x / dNodes < dDp
    ensures node < dNodes && dp < dDp && node + dp * dNodes == x <==> node == x % dNodes && dp == x / dNodes
  {
    DivParts(x, dNodes);
    DivBound(x, dNodes, dDp);
    if node < dNodes && node + dp * dNodes == x { DivModUnique(x, dp, dNodes, node); }
  }

  // ----- How evenly KV groups are used ------------------------------------------------------------------

  /** How many of the first `n` decode groups read from KV group `g`. */
  function Load(kvGroups: nat, dpGroups: nat, g: nat, n: nat): nat
    requires kvGroups > 0 && dpGroups > 0
  {
    if n == 0 then 0
    else Load(kvGroups, dpGroups, g, n - 1) + (if KvGroup(kvGroups, dpGroups, n - 1) == g then 1 else 0)
  }

  lemma StepIsOne(kvGroups: nat, dpGroups: nat, x: nat)
    requires 0 < kvGroups <= dpGroups
    ensures LinkGroupStep(kvGroups, dpGroups) == 1 && KvGroup(kvGroups, dpGroups, x) == x % kvGroups
  {
    DivModUnique(kvGroups + dpGroups - 1, 1, dpGroups, kvGroups - 1);
  }

  lemma {:induction false} LoadIs(kvGroups: nat, dpGroups: nat, g: nat, n: nat)
    requires g < kvGroups <= dpGroups
    ensures Load(kvGroups, dpGroups, g, n) == n / kvGroups + (if g < n % kvGroups then 1 else 0)
  {
    if n == 0 {
      ModSmall(0, kvGroups);
    } else {
      LoadIs(kvGroups, dpGroups, g, n - 1);
      StepIsOne(kvGroups, dpGroups, n - 1);
      NextQuotient(n - 1, kvGroups);
    }
  }

  lemma NextQuotient(n: nat, m: nat)
    requires m > 0
    ensures n % m + 1 < m ==> (n + 1) / m == n / m && (n + 1) % m == n % m + 1
    ensures n % m + 1 == m ==> (n + 1) / m == n / m + 1 && (n + 1) % m == 0
  {
    DivParts(n, m);
    if n % m + 1 < m {
      DivModUnique(n + 1, n / m, m, n % m + 1);
    } else {
      Spread(n / m, 1, m);
      DivModUnique(n + 1, n / m + 1, m, 0);
    }
  }

  /** With at least as many decode groups as KV groups no KV group serves two more than another. */
  lemma LoadsBalanced(kvGroups: nat, dpGroups: nat, g: nat, h: nat)
    requires g < kvGroups <= dpGroups && h < kvGroups
    ensures Load(kvGroups, dpGroups, g, dpGroups) <= Load(kvGroups, dpGroups, h, dpGroups) + 1
    ensures Load(kvGroups, dpGroups, g, dpGroups) > 0
  {
    LoadIs(kvGroups, dpGroups, g, dpGroups);
    LoadIs(kvGroups, dpGroups, h, dpGroups);
    DivParts(dpGroups, kvGroups);
    if dpGroups / kvGroups <= 0 { MulBound(dpGroups / kvGroups, kvGroups); }
  }

  /** No two decode groups read from the same KV group. */
  ghost predicate CollisionFree(kvGroups: nat, dpGroups: nat)
    requires kvGroups > 0 && dpGroups > 0
  {
    forall x, y :: 0 <= x < y < dpGroups ==> KvGroup(kvGroups, dpGroups, x) != KvGroup(kvGroups, dpGroups, y)
  }

  /** The first multiple of the step, from `k` on, at which the KV groups start again. */
  function Period(kvGroups: nat, step: nat, k: nat): (p: nat)
    requires 0 < k <= kvGroups
    ensures k <= p <= kvGroups && (p * step) % kvGroups == 0
    ensures forall j :: k <= j < p ==> (j * step) % kvGroups != 0
    decreases kvGroups - k
  {
    if (k * step) % kvGroups == 0 then k
    else if k == kvGroups then
      Wraps(kvGroups, step);
      assert false;
      k
    else Period(kvGroups, step, k + 1)
  }

  lemma Wraps(m: nat, step: nat)
    requires m > 0
    ensures (m * step) % m == 0
  {
    DivModUnique(m * step, step, m, 0);
  }

  lemma SameRemainder(a: nat, b: nat, m: nat)
    requires m > 0 && a <= b
    ensures a % m == b % m <==> (b - a) % m == 0
  {
    DivParts(a, m);
    DivParts(b, m);
    DivParts(b - a, m);
    if a % m == b % m {
      Spread(b / m, -(a / m), m);
      DivModUnique(b - a, b / m - a / m, m, 0);
    }
    if (b - a) % m == 0 {
      Spread(a / m, (b - a) / m, m);
      DivModUnique(b, a / m + (b - a) / m, m, a % m);
    }
  }

  lemma Collide(kvGroups: nat, dpGroups: nat, x: nat, y: nat)
    requires kvGroups > 0 && dpGroups > 0 && x <= y
    ensures KvGroup(kvGroups, dpGroups, x) == KvGroup(kvGroups, dpGroups, y)
       <==> ((y - x) * LinkGroupStep(kvGroups, dpGroups)) % kvGroups == 0
  {
    var step := LinkGroupStep(kvGroups, dpGroups);
    Spread(x, y - x, step);
    MulAtLeast(1, step);
    Scaled(x, y, step);
    SameRemainder(x * step, y * step, kvGroups);
  }

  lemma Scaled(x: nat, y: nat, step: nat)
    requires x <= y
    ensures 0 <= x * step <= y * step && y * step - x * step == (y - x) * step
  {
  }

  /** The KV groups start again after `kvGroups / gcd` steps. */
  lemma PeriodIsQuotient(kvGroups: nat, step: nat)
    requires kvGroups > 0 && step > 0
    ensures Period(kvGroups, step, 1) * Gcd(step, kvGroups) == kvGroups
  {
    var g, p := Gcd(step, kvGroups), Period(kvGroups, step, 1);
    GcdDivides(step, kvGroups);
    DivParts(step, g);
    DivParts(kvGroups, g);
    var m := kvGroups / g;
    if m <= 0 { MulBound(m, g); }
    WholeTurn(m, step / g, g);
    DivParts(p * step, kvGroups);
    var x, y := Bezout(step, kvGroups);
    Combination(p, step, kvGroups, x, y, g, p * step / kvGroups);
    MultipleAtLeast(p, g, x * (p * step / kvGroups) + y * p, kvGroups);
    if p < m { MulAtLeast(m - p, g); Spread(p, m - p, g); }
  }

  /** `m` steps of `k * g` are `k` turns of `m * g`. */
  lemma WholeTurn(m: nat, k: int, g: nat)
    requires m > 0 && g > 0
    ensures (m * (k * g)) % (m * g) == 0
  {
    MulAtLeast(m, g);
    Turns(m, k, g);
    DivModUnique(m * (k * g), k, m * g, 0);
  }

  lemma Turns(m: int, k: int, g: int)
    ensures m * (k * g) == k * (m * g)
  {
  }

  lemma Combination(p: int, step: int, m: int, x: int, y: int, g: int, c: int)
    requires x * step + y * m == g && p * step == c * m
    ensures p * g == (x * c + y * p) * m
  {
    assert p * (x * step + y * m) == x * (p * step) + (y * p) * m by { Expand(p, x, step, y, m); }
    assert x * (c * m) == (x * c) * m;
  }

  lemma Expand(p: int, x: int, step: int, y: int, m: int)
    ensures p * (x * step + y * m) == x * (p * step) + (y * p) * m
  {
    Turns(p, x, step);
    assert p * (y * m) == (y * p) * m;
  }

  lemma MultipleAtLeast(p: nat, g: nat, k: int, m: nat)
    requires p > 0 && g > 0 && m > 0 && p * g == k * m
    ensures p * g >= m
  {
    MulAtLeast(p, g);
    if k <= 0 { NotPositive(k, m); }
    MulBound(k, m);
  }

  lemma NotPositive(k: int, m: nat)
    requires k <= 0
    ensures k * m <= 0
  {
  }

  /** Decode groups never collide exactly when there are no more of them than steps until the KV groups
      start again, which is the number of KV groups divided by its common divisor with the step. */
  lemma CollisionFreeExact(kvGroups: nat, dpGroups: nat)
    requires kvGroups > 0 && dpGroups > 0
    ensures var step := LinkGroupStep(kvGroups, dpGroups);
            step > 0 && (CollisionFree(kvGroups, dpGroups) <==> dpGroups * Gcd(step, kvGroups) <= kvGroups)
  {
    hide KvGroup;
    var step := LinkGroupStep(kvGroups, dpGroups);
    var p := Period(kvGroups, step, 1);
    CollisionFreeWithinPeriod(kvGroups, dpGroups);
    PeriodIsQuotient(kvGroups, step);
    Scaling(dpGroups, p, Gcd(step, kvGroups));
  }

  lemma Scaling(a: nat, b: nat, g: nat)
    requires g > 0
    ensures a <= b <==> a * g <= b * g
  {
    if a < b { MulAtLeast(b - a, g); Spread(a, b - a, g); }
    if b < a { MulAtLeast(a - b, g); Spread(b, a - b, g); }
  }

  lemma CollisionFreeWithinPeriod(kvGroups: nat, dpGroups: nat)
    requires kvGroups > 0 && dpGroups > 0
    ensures CollisionFree(kvGroups, dpGroups) <==> dpGroups <= Period(kvGroups, LinkGroupStep(kvGroups, dpGroups), 1)
  {
    hide KvGroup;
    var step := LinkGroupStep(kvGroups, dpGroups);
    var p := Period(kvGroups, step, 1);
    if dpGroups <= p {
      forall x, y | 0 <= x < y < dpGroups
        ensures KvGroup(kvGroups, dpGroups, x) != KvGroup(kvGroups, dpGroups, y)
      {
        Collide(kvGroups, dpGroups, x, y);
      }
    } else {
      Collide(kvGroups, dpGroups, 0, p);
      assert 0 <= 0 < p < dpGroups;
    }
  }

  lemma StepOfDividing(kvGroups: nat, dpGroups: nat)
    requires kvGroups > 0 && dpGroups > 0 && kvGroups % dpGroups == 0
    ensures var step := LinkGroupStep(kvGroups, dpGroups); step > 0 && kvGroups == step * dpGroups
  {
    DivParts(kvGroups, dpGroups);
    var step := kvGroups / dpGroups;
    if step <= 0 { MulBound(step, dpGroups); }
    DivModUnique(kvGroups + dpGroups - 1, step, dpGroups, dpGroups - 1);
  }

  lemma EarlyMultiple(p: nat, step: nat, dpGroups: nat)
    requires 0 < p < dpGroups && step > 0
    ensures 0 < p * step < step * dpGroups && (p * step) % (step * dpGroups) != 0
  {
    MulAtLeast(p, step);
    MulAtLeast(dpGroups - p, step);
    Spread(p, dpGroups - p, step);
    ModSmall(p * step, step * dpGroups);
  }

  /** This is so when the number of decode groups divides the number of KV groups. */
  lemma DividingIsCollisionFree(kvGroups: nat, dpGroups: nat)
    requires kvGroups > 0 && dpGroups > 0 && kvGroups % dpGroups == 0
    ensures CollisionFree(kvGroups, dpGroups)
  {
    hide LinkGroupStep, CollisionFree;
    StepOfDividing(kvGroups, dpGroups);
    CollisionFreeWithinPeriod(kvGroups, dpGroups);
    var step := LinkGroupStep(kvGroups, dpGroups);
    var p := Period(kvGroups, step, 1);
    if p < dpGroups { EarlyMultiple(p, step, dpGroups); }
  }

  /** Three decode groups over four KV groups: two of them read from KV group 0. */
  lemma CollisionExample()
    ensures !CollisionFree(4, 3)
  {
    assert KvGroup(4, 3, 0) == 0 && KvGroup(4, 3, 2) == 0;
  }

  // ----- Links ---------------------------------------------------------------------------------------------

  /** A prefill server group: its first cluster id and the cluster id of every rank. */
  datatype ServerGroup = ServerGroup(clusterIdStart: int, clusterIds: seq<int>)

  datatype Link = Link(prefillGroup: int, pRank: int, dRank: int, prefillCluster: int, decodeCluster: int)

  /** Sizes that fit together: every prefill group has `tp * dp * pp` ranks, the one decode group
      `dTp * dDp`, and the decode size divides the prefill size. */
  datatype Setup = Setup(groups: seq<ServerGroup>, decodeClusterIds: seq<int>, tp: nat, dp: nat, pp: nat, dTp: nat,
                         dDp: nat)

  ghost predicate ValidSetup(s: Setup) {
    && s.tp > 0 && s.dp > 0 && s.pp > 0 && s.dTp > 0 && s.dDp > 0 && s.tp % s.dTp == 0
    && |s.decodeClusterIds| == s.dDp * s.dTp
    && forall g :: 0 <= g < |s.groups| ==> |s.groups[g].clusterIds| == s.pp * (s.dp * s.tp)
  }

  function StartRank(s: Setup, dRank: nat): (r: nat)
    requires ValidSetup(s) && dRank < |s.decodeClusterIds|
    ensures r < s.tp
  {
    GetPStartRank(s.tp, 1, s.dTp, s.dDp, 1, 0, dRank).value
  }

  /** With one decode group per setup: the KV group of the decode rank's data-parallel rank, and in it the place of
      its tensor-parallel rank. */
  lemma StartRankIs(s: Setup, dRank: nat)
    requires ValidSetup(s) && dRank < |s.decodeClusterIds|
    ensures s.tp / s.dTp > 0 && dRank / s.dTp >= 0
    ensures StartRank(s, dRank)
         == KvGroup(s.tp / s.dTp, s.dDp, dRank / s.dTp) + dRank % s.dTp * (s.tp / s.dTp)
  {
    PStartRankIs(s.tp, s.dTp, s.dDp, 1, 0, dRank);
  }

  /** The prefill rank of stage `pp` in data-parallel group `dp` that a decode rank reads from. */
  function PRank(s: Setup, dRank: nat, dp: nat, pp: nat): (r: nat)
    requires ValidSetup(s) && dRank < |s.decodeClusterIds| && dp < s.dp && pp < s.pp
    ensures r < s.pp * (s.dp * s.tp)
  {
    RowBound(dp, StartRank(s, dRank), s.tp, s.dp);
    RowBound(pp, dp * s.tp + StartRank(s, dRank), s.dp * s.tp, s.pp);
    pp * (s.dp * s.tp) + (dp * s.tp + StartRank(s, dRank))
  }

  function LinkOf(s: Setup, g: nat, dRank: nat, dp: nat, pp: nat): Link
    requires ValidSetup(s) && g < |s.groups| && dRank < |s.decodeClusterIds| && dp < s.dp && pp < s.pp
  {
    var p := PRank(s, dRank, dp, pp);
    Link(g, p, dRank, s.groups[g].clusterIds[p], s.decodeClusterIds[dRank])
  }

  ghost predicate StageLink(s: Setup, g: nat, dRank: nat, dp: nat, n: nat, link: Link)
    requires ValidSetup(s) && g < |s.groups| && dRank < |s.decodeClusterIds| && dp < s.dp && n <= s.pp
  {
    exists pp: nat :: pp < n && link == LinkOf(s, g, dRank, dp, pp)
  }

  ghost predicate DpLink(s: Setup, g: nat, dRank: nat, n: nat, link: Link)
    requires ValidSetup(s) && g < |s.groups| && dRank < |s.decodeClusterIds| && n <= s.dp
  {
    exists dp: nat :: dp < n && StageLink(s, g, dRank, dp, s.pp, link)
  }

  ghost predicate DeviceLink(s: Setup, g: nat, n: nat, link: Link)
    requires ValidSetup(s) && g < |s.groups| && n <= |s.decodeClusterIds|
  {
    exists dRank: nat :: dRank < n && DpLink(s, g, dRank, s.dp, link)
  }

  /** All links of the setup. */
  ghost predicate IsLink(s: Setup, link: Link)
    requires ValidSetup(s)
  {
    exists g: nat :: g < |s.groups| && DeviceLink(s, g, |s.decodeClusterIds|, link)
  }

  /** Who runs `register_link`: a rank of a prefill group, or a decode rank. */
  datatype Self = PrefillRank(group: nat, rank: nat) | DecodeRank(rank: nat)

  predicate Concerns(self: Self, link: Link) {
    match self
    case PrefillRank(group, rank) => link.prefillGroup == group && link.pRank == rank
    case DecodeRank(rank) => link.dRank == rank
  }

  datatype Key = Key(clusterIdStart: int, prefillDpRank: int, dRank: int)

  /** `registered_link_infos` differs only at the keys of this group and decode rank. */
  ghost predicate OtherKeysKept(before: map<Key, int>, after: map<Key, int>, start: int, dRank: int) {
    forall key: Key :: key.clusterIdStart != start || key.dRank != dRank ==>
      (key in after <==> key in before) && (key in before ==> after[key] == before[key])
  }

  ghost predicate InfosOf(s: Setup, infos: map<Key, int>, g: nat, dRank: nat, n: nat)
    requires ValidSetup(s) && g < |s.groups| && dRank < |s.decodeClusterIds| && n <= s.dp
  {
    forall dp: nat :: dp < n ==> InfoOf(s, infos, g, dRank, dp)
  }

  /** The cluster of the first stage's rank is recorded. */
  ghost predicate InfoOf(s: Setup, infos: map<Key, int>, g: nat, dRank: nat, dp: nat)
    requires ValidSetup(s) && g < |s.groups| && dRank < |s.decodeClusterIds| && dp < s.dp
  {
    var key := Key(s.groups[g].clusterIdStart, dp, dRank);
    key in infos && infos[key] == LinkOf(s, g, dRank, dp, 0).prefillCluster
  }

  method LinkStages(s: Setup, self: Self, g: nat, dRank: nat, dp: nat, links: set<Link>, infos: map<Key, int>)
    returns (links': set<Link>, infos': map<Key, int>)
    requires ValidSetup(s) && g < |s.groups| && dRank < |s.decodeClusterIds| && dp < s.dp
    ensures forall link :: link in links'
              <==> link in links || (Concerns(self, link) && StageLink(s, g, dRank, dp, s.pp, link))
    ensures infos' == if self.DecodeRank?
                      then infos[Key(s.groups[g].clusterIdStart, dp, dRank) := LinkOf(s, g, dRank, dp,
                          0).prefillCluster]
                      else infos
  {
    hide LinkOf, Concerns;
    links', infos' := links, infos;
    for pp := 0 to s.pp
      invariant forall link :: link in links'
                  <==> link in links || (Concerns(self, link) && StageLink(s, g, dRank, dp, pp, link))
      invariant !self.DecodeRank? || pp == 0 ==> infos' == infos
      invariant self.DecodeRank? && pp > 0 ==>
                  infos' == infos[Key(s.groups[g].clusterIdStart, dp, dRank) := LinkOf(s, g, dRank, dp,
                      0).prefillCluster]
    {
      var link := LinkOf(s, g, dRank, dp, pp);
      if Concerns(self, link) {
        links' := links' + {link};
      }
      if self.DecodeRank? && pp == 0 {
        infos' := infos'[Key(s.groups[g].clusterIdStart, dp, dRank) := link.prefillCluster];
      }
    }
  }

  method LinkDataParallel(s: Setup, self: Self, g: nat, dRank: nat, links: set<Link>, infos: map<Key, int>)
    returns (links': set<Link>, infos': map<Key, int>)
    requires ValidSetup(s) && g < |s.groups| && dRank < |s.decodeClusterIds|
    ensures forall link :: link in links'
              <==> link in links || (Concerns(self, link) && DpLink(s, g, dRank, s.dp, link))
    ensures OtherKeysKept(infos, infos', s.groups[g].clusterIdStart, dRank)
    ensures self.DecodeRank? ==> InfosOf(s, infos', g, dRank, s.dp)
  {
    hide LinkOf, Concerns, StageLink;
    links', infos' := links, infos;
    for dp := 0 to s.dp
      invariant forall link :: link in links'
                  <==> link in links || (Concerns(self, link) && DpLink(s, g, dRank, dp, link))
      invariant OtherKeysKept(infos, infos', s.groups[g].clusterIdStart, dRank)
      invariant self.DecodeRank? ==> InfosOf(s, infos', g, dRank, dp)
    {
      ghost var before := infos';
      links', infos' := LinkStages(s, self, g, dRank, dp, links', infos');
      if self.DecodeRank? {
        forall k: nat | k < dp + 1 ensures InfoOf(s, infos', g, dRank, k) {
          if k < dp { assert InfoOf(s, before, g, dRank, k); }
        }
      }
    }
  }

  ghost predicate OtherStartsKept(before: map<Key, int>, after: map<Key, int>, start: int) {
    forall key: Key :: key.clusterIdStart != start ==>
      (key in after <==> key in before) && (key in before ==> after[key] == before[key])
  }

  lemma OtherRanksStay(s: Setup, before: map<Key, int>, after: map<Key, int>, g: nat, dRank: nat, other: int)
    requires ValidSetup(s) && g < |s.groups| && dRank < |s.decodeClusterIds| && dRank != other
    requires InfosOf(s, before, g, dRank, s.dp) && OtherKeysKept(before, after, s.groups[g].clusterIdStart, other)
    ensures InfosOf(s, after, g, dRank, s.dp)
  {
    hide LinkOf;
    forall dp: nat | dp < s.dp ensures InfoOf(s, after, g, dRank, dp) { assert InfoOf(s, before, g, dRank, dp); }
  }

  method LinkDevices(s: Setup, self: Self, g: nat, links: set<Link>, infos: map<Key, int>)
    returns (links': set<Link>, infos': map<Key, int>)
    requires ValidSetup(s) && g < |s.groups|
    ensures forall link :: link in links'
              <==> link in links || (Concerns(self, link) && DeviceLink(s, g, |s.decodeClusterIds|, link))
    ensures OtherStartsKept(infos, infos', s.groups[g].clusterIdStart)
    ensures self.DecodeRank? ==> forall dRank: nat :: dRank < |s.decodeClusterIds| ==>
              InfosOf(s, infos', g, dRank, s.dp)
  {
    hide LinkOf, Concerns, DpLink;
    links', infos' := links, infos;
    for d := 0 to |s.decodeClusterIds|
      invariant forall link :: link in links' <==> link in links || (Concerns(self, link) && DeviceLink(s, g, d, link))
      invariant OtherStartsKept(infos, infos', s.groups[g].clusterIdStart)
      invariant self.DecodeRank? ==> forall dRank: nat :: dRank < d ==> InfosOf(s, infos', g, dRank, s.dp)
    {
      ghost var before := infos';
      links', infos' := LinkDataParallel(s, self, g, d, links', infos');
      if self.DecodeRank? {
        forall r: nat | r < d + 1 ensures InfosOf(s, infos', g, r, s.dp) {
          if r < d { OtherRanksStay(s, before, infos', g, r, d); }
        }
      }
    }
  }

  ghost predicate DistinctStarts(s: Setup) {
    forall g, h :: 0 <= g < h < |s.groups| ==> s.groups[g].clusterIdStart != s.groups[h].clusterIdStart
  }

  /** What a rank builds: exactly the links that concern it. */
  ghost predicate LinksOf(s: Setup, self: Self, links: set<Link>)
    requires ValidSetup(s)
  {
    forall link :: link in links <==> Concerns(self, link) && IsLink(s, link)
  }

  /** `register_link`: a prefill rank looks at its own group only, a decode rank at all prefill groups. */
  method RegisterLink(s: Setup, self: Self) returns (links: set<Link>, infos: map<Key, int>)
    requires ValidSetup(s) && DistinctStarts(s) && (self.PrefillRank? ==> self.group < |s.groups|)
    ensures LinksOf(s, self, links)
    ensures self.DecodeRank? ==> forall g: nat, dRank: nat, dp: nat ::
              g < |s.groups| && dRank < |s.decodeClusterIds| && dp < s.dp ==>
              InfoOf(s, infos, g, dRank, dp)
  {
    if self.PrefillRank? {
      links, infos := LinkDevices(s, self, self.group, {}, map[]);
      forall link, g: nat | g < |s.groups| && DeviceLink(s, g, |s.decodeClusterIds|, link)
        ensures link.prefillGroup == g
      {
      }
      return;
    }
    hide DeviceLink, InfoOf, Concerns;
    links, infos := {}, map[];
    for g := 0 to |s.groups|
      invariant forall link :: link in links
                  <==> Concerns(self, link) && exists h: nat :: h < g && DeviceLink(s, h, |s.decodeClusterIds|, link)
      invariant forall h: nat, dRank: nat :: h < g && dRank < |s.decodeClusterIds| ==> InfosOf(s, infos, h, dRank, s.dp)
    {
      ghost var before := infos;
      links, infos := LinkDevices(s, self, g, links, infos);
      forall h: nat, dRank: nat | h < g && dRank < |s.decodeClusterIds| ensures InfosOf(s, infos, h, dRank, s.dp) {
        InfosStay(s, before, infos, h, dRank, s.groups[g].clusterIdStart);
      }
    }
    forall g: nat, dRank: nat, dp: nat | g < |s.groups| && dRank < |s.decodeClusterIds| && dp < s.dp
      ensures InfoOf(s, infos, g, dRank, dp)
    {
      assert InfosOf(s, infos, g, dRank, s.dp);
    }
  }

  lemma InfosStay(s: Setup, before: map<Key, int>, after: map<Key, int>, g: nat, dRank: nat, start: int)
    requires ValidSetup(s) && g < |s.groups| && dRank < |s.decodeClusterIds|
    requires InfosOf(s, before, g, dRank, s.dp) && OtherStartsKept(before, after, start)
    requires s.groups[g].clusterIdStart != start
    ensures InfosOf(s, after, g, dRank, s.dp)
  {
    hide LinkOf;
    forall dp: nat | dp < s.dp ensures InfoOf(s, after, g, dRank, dp) { assert InfoOf(s, before, g, dRank, dp); }
  }

  /** The stage and data-parallel group in which a prefill rank can serve a decode rank. */
  lemma RankCoordinates(s: Setup, pRank: nat, dRank: nat, dp: nat, pp: nat)
    requires ValidSetup(s) && dRank < |s.decodeClusterIds| && pRank < s.pp * (s.dp * s.tp) && dp < s.dp && pp < s.pp
    ensures var n := s.dp * s.tp;
            && n > 0 && 0 <= pRank / n < s.pp && 0 <= pRank % n / s.tp < s.dp && pRank % n % s.tp == pRank % s.tp
            && (PRank(s, dRank, dp, pp) == pRank
                <==> pp == pRank / n && dp == pRank % n / s.tp && pRank % s.tp == StartRank(s, dRank))
  {
    hide StartRank;
    var n, start := s.dp * s.tp, StartRank(s, dRank);
    MulAtLeast(s.dp, s.tp);
    DivBound(pRank, n, s.pp);
    DivParts(pRank, n);
    DivBound(pRank % n, s.tp, s.dp);
    DivParts(pRank % n, s.tp);
    var a, b, c := pRank / n, pRank % n / s.tp, pRank % n % s.tp;
    MulAssoc(a, s.dp, s.tp, b * s.tp + c);
    Spread(a * s.dp, b, s.tp);
    DivModUnique(pRank, a * s.dp + b, s.tp, c);
    RowBound(dp, start, s.tp, s.dp);
    if PRank(s, dRank, dp, pp) == pRank {
      DivModUnique(pRank, pp, n, dp * s.tp + start);
      DivModUnique(pRank % n, dp, s.tp, start);
    }
  }

  /** Every link of the two ranks is this one. */
  function SharedLink(s: Setup, group: nat, pRank: nat, dRank: nat): Link
    requires ValidSetup(s) && group < |s.groups| && pRank < s.pp * (s.dp * s.tp) && dRank < |s.decodeClusterIds|
  {
    Link(group, pRank, dRank, s.groups[group].clusterIds[pRank], s.decodeClusterIds[dRank])
  }

  lemma SharedLinkExact(s: Setup, group: nat, pRank: nat, dRank: nat, link: Link)
    requires ValidSetup(s) && group < |s.groups| && pRank < s.pp * (s.dp * s.tp) && dRank < |s.decodeClusterIds|
    requires link.prefillGroup == group && link.pRank == pRank && link.dRank == dRank
    ensures IsLink(s, link) <==> link == SharedLink(s, group, pRank, dRank) && pRank % s.tp == StartRank(s, dRank)
  {
    hide StartRank, PRank;
    RankCoordinates(s, pRank, dRank, 0, 0);
    var n := s.dp * s.tp;
    var pp, dp := pRank / n, pRank % n / s.tp;
    if IsLink(s, link) {
      var g: nat :| g < |s.groups| && DeviceLink(s, g, |s.decodeClusterIds|, link);
      var d: nat :| d < |s.decodeClusterIds| && DpLink(s, g, d, s.dp, link);
      var dp': nat :| dp' < s.dp && StageLink(s, g, d, dp', s.pp, link);
      var pp': nat :| pp' < s.pp && link == LinkOf(s, g, d, dp', pp');
      RankCoordinates(s, pRank, dRank, dp', pp');
    }
    if link == SharedLink(s, group, pRank, dRank) && pRank % s.tp == StartRank(s, dRank) {
      RankCoordinates(s, pRank, dRank, dp, pp);
      assert link == LinkOf(s, group, dRank, dp, pp);
      assert StageLink(s, group, dRank, dp, s.pp, link);
      assert DpLink(s, group, dRank, s.dp, link);
      assert DeviceLink(s, group, |s.decodeClusterIds|, link);
    }
  }

  /** Of what the two sides build on their own, the links between one prefill rank and one decode rank
      are the same: a single one when the prefill rank's place among its tensor-parallel ranks is the
      decode rank's start rank, and none otherwise. */
  lemma SidesAgree(s: Setup, group: nat, pRank: nat, dRank: nat, prefillLinks: set<Link>, decodeLinks: set<Link>)
    requires ValidSetup(s) && group < |s.groups| && pRank < s.pp * (s.dp * s.tp) && dRank < |s.decodeClusterIds|
    requires LinksOf(s, PrefillRank(group, pRank), prefillLinks) && LinksOf(s, DecodeRank(dRank), decodeLinks)
    ensures var shared := if pRank % s.tp == StartRank(s, dRank) then {SharedLink(s, group, pRank, dRank)} else {};
            && (set l | l in prefillLinks && l.dRank == dRank) == shared
            && (set l | l in decodeLinks && l.prefillGroup == group && l.pRank == pRank) == shared
  {
    hide IsLink, StartRank;
    forall l: Link | l.prefillGroup == group && l.pRank == pRank && l.dRank == dRank
      ensures IsLink(s, l) <==> l == SharedLink(s, group, pRank, dRank) && pRank % s.tp == StartRank(s, dRank)
    {
      SharedLinkExact(s, group, pRank, dRank, l);
    }
  }

  /** The cluster that a pull addresses at a stage. */
  function PulledCluster(s: Setup, first: int, stage: nat): int { first + stage * (s.dp * s.tp) }

  ghost predicate ConsecutiveIds(s: Setup)
    requires ValidSetup(s)
  {
    forall g, k :: 0 <= g < |s.groups| && 0 <= k < |s.groups[g].clusterIds| ==>
      s.groups[g].clusterIds[k] == s.groups[g].clusterIdStart + k
  }

  /** With consecutive cluster ids every cluster that a decode rank pulls from is one that it linked. */
  lemma PulledIsLinked(s: Setup, dRank: nat, links: set<Link>, infos: map<Key, int>, g: nat, dp: nat, stage: nat)
    requires ValidSetup(s) && ConsecutiveIds(s) && g < |s.groups| && dRank < |s.decodeClusterIds| && dp < s.dp
    requires stage < s.pp
    requires LinksOf(s, DecodeRank(dRank), links)
    requires InfoOf(s, infos, g, dRank, dp)
    ensures var link := LinkOf(s, g, dRank, dp, stage);
            link in links && link.prefillCluster
              == PulledCluster(s, infos[Key(s.groups[g].clusterIdStart, dp, dRank)], stage)
  {
    hide StartRank;
    var link := LinkOf(s, g, dRank, dp, stage);
    assert StageLink(s, g, dRank, dp, s.pp, link);
    assert DpLink(s, g, dRank, s.dp, link);
    assert DeviceLink(s, g, |s.decodeClusterIds|, link);
    FirstStage(s, dRank, dp, stage);
  }

  lemma FirstStage(s: Setup, dRank: nat, dp: nat, stage: nat)
    requires ValidSetup(s) && dRank < |s.decodeClusterIds| && dp < s.dp && stage < s.pp
    ensures PRank(s, dRank, dp, stage) == PRank(s, dRank, dp, 0) + stage * (s.dp * s.tp)
  {
  }
}

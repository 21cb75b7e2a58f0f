/** The hybrid block allocator (omni/accelerators/cache/kv_cache_manager.py), without prefix caching.

    Every KV cache group has its own block pool.  A full-attention group grows with the tokens of a
    request; a windowed group gives a request all its blocks at once.  The base classes of vLLM are
    modelled by what is used of them: a pool hands out the blocks at the head of its free list, and
    freed blocks are appended in reverse order.
 */
module KvCacheManager {
  import opened Arith
  import opened Wrappers

  type Req = nat

  datatype Spec = Full(blockSize: nat) | Windowed(maxNumBlocks: nat)

  /** One group: its free list and what each request holds. */
  datatype Group = Group(spec: Spec, free: seq<nat>, owned: map<Req, seq<nat>>)

  function Blocks(g: Group, req: Req): seq<nat> { if req in g.owned then g.owned[req] else [] }

  predicate ValidSpec(s: Spec) { s.Full? ==> s.blockSize > 0 }

  /** `get_num_blocks_to_allocate`; a full group may already hold more than it needs. */
  function Need(g: Group, req: Req, tokens: nat): int
    requires ValidSpec(g.spec)
  {
    match g.spec
    case Full(blockSize) => CeilDiv(tokens, blockSize) - |Blocks(g, req)|
    case Windowed(maxNumBlocks) => if |Blocks(g, req)| > 0 then 0 else maxNumBlocks
  }

  /** How many blocks `allocate_new_blocks` takes. */
  function Taken(g: Group, req: Req, tokens: nat): nat
    requires ValidSpec(g.spec)
  {
    var n := match g.spec
      case Full(blockSize) => CeilDiv(tokens, blockSize) - |Blocks(g, req)|
      case Windowed(maxNumBlocks) => maxNumBlocks - |Blocks(g, req)|;
    if n <= 0 then 0 else n
  }

  /** `allocate_new_blocks` of a windowed group raises when a request holds only some of its blocks. */
  predicate Broken(g: Group, req: Req) { g.spec.Windowed? && 0 < |Blocks(g, req)| < g.spec.maxNumBlocks }

  function Take(g: Group, req: Req, n: nat): Group
    requires n <= |g.free|
  {
    if n == 0 then g else g.(free := g.free[n..], owned := g.owned[req := Blocks(g, req) + g.free[..n]])
  }

  function Reversed(s: seq<nat>): (r: seq<nat>)
    ensures |r| == |s| && forall k :: 0 <= k < |s| ==> r[k] == s[|s| - 1 - k]
  {
    seq(|s|, k requires 0 <= k < |s| => s[|s| - 1 - k])
  }

  function Freed(g: Group, req: Req): Group { g.(free := g.free + Reversed(Blocks(g, req)), owned := g.owned - {req}) }

  // ----- The group's invariant ----------------------------------------------------------------------

  ghost predicate Distinct(s: seq<nat>) { forall i, j :: 0 <= i < j < |s| ==> s[i] != s[j] }

  ghost predicate InUse(g: Group, b: nat) { exists r :: r in g.owned && b in g.owned[r] }

  /** Every block of the pool is free or owned by exactly one request, and no block twice. */
  ghost predicate Partitioned(g: Group, pool: set<nat>) {
    && Distinct(g.free)
    && (forall r :: r in g.owned ==> Distinct(g.owned[r]))
    && (forall r, b :: r in g.owned && b in g.owned[r] ==> b !in g.free)
    && (forall r, q, b :: r in g.owned && q in g.owned && b in g.owned[r] && b in g.owned[q] ==> r == q)
    && (forall b :: b in g.free || InUse(g, b) <==> b in pool)
  }

  /** A windowed group holds none or all of a request's blocks. */
  ghost predicate AllOrNothing(g: Group) {
    g.spec.Windowed? ==> forall r :: r in g.owned ==> |g.owned[r]| == 0 || |g.owned[r]| == g.spec.maxNumBlocks
  }

  lemma TakeParts(g: Group, req: Req, n: nat, pool: set<nat>)
    requires Partitioned(g, pool) && n <= |g.free|
    ensures forall b :: b in g.free <==> b in g.free[..n] || b in g.free[n..]
    ensures forall b :: b in g.free[..n] ==> b !in g.free[n..]
    ensures Distinct(g.free[..n]) && Distinct(g.free[n..])
  {
    assert g.free == g.free[..n] + g.free[n..];
  }

  lemma TakeKeeps(g: Group, req: Req, n: nat, pool: set<nat>)
    requires Partitioned(g, pool) && n <= |g.free|
    ensures Partitioned(Take(g, req, n), pool)
  {
    TakeParts(g, req, n, pool);
    var t := Take(g, req, n);
    if n > 0 {
      var mine, more := Blocks(g, req), g.free[..n];
      assert forall b :: b in t.owned[req] <==> b in mine || b in more;
      forall b ensures b in t.free || InUse(t, b) <==> b in pool {
        TakeUse(g, req, n, b);
      }
      TakeDistinct(mine, more);
    }
  }

  lemma TakeUse(g: Group, req: Req, n: nat, b: nat)
    requires 0 < n <= |g.free|
    ensures InUse(Take(g, req, n), b) <==> InUse(g, b) || b in g.free[..n]
  {
    var t := Take(g, req, n);
    if InUse(g, b) {
      var r :| r in g.owned && b in g.owned[r];
      assert r in t.owned && b in t.owned[r];
    }
    if b in g.free[..n] { assert req in t.owned && b in t.owned[req]; }
  }

  lemma TakeDistinct(a: seq<nat>, b: seq<nat>)
    requires Distinct(a) && Distinct(b) && forall x :: x in a ==> x !in b
    ensures Distinct(a + b)
  {
    forall i, j | 0 <= i < j < |a + b| ensures (a + b)[i] != (a + b)[j] {
      if i < |a| && |a| <= j { assert a[i] in a && b[j - |a|] in b; }
    }
  }

  lemma ReversedKeeps(s: seq<nat>)
    requires Distinct(s)
    ensures Distinct(Reversed(s)) && forall b :: b in Reversed(s) <==> b in s
  {
    var r := Reversed(s);
    forall b | b in s ensures b in r {
      var k :| 0 <= k < |s| && s[k] == b;
      assert r[|s| - 1 - k] == b;
    }
  }

  lemma FreeKeeps(g: Group, req: Req, pool: set<nat>)
    requires Partitioned(g, pool)
    ensures Partitioned(Freed(g, req), pool)
  {
    var mine, t := Blocks(g, req), Freed(g, req);
    ReversedKeeps(mine);
    assert forall b :: b in t.free <==> b in g.free || b in mine;
    TakeDistinct(g.free, Reversed(mine));
    forall b ensures b in t.free || InUse(t, b) <==> b in pool {
      FreeUse(g, req, b);
    }
  }

  /** The blocks join the end of the free list, the last one of the request first, so that its first blocks are
      the last to be given away again. */
  lemma FreedOrder(g: Group, req: Req, i: nat, j: nat)
    requires i < j < |Blocks(g, req)|
    ensures var free, n := Freed(g, req).free, |g.free|;
            |free| == n + |Blocks(g, req)| && free[..n] == g.free
            && exists x, y :: n <= x < y < |free| && free[x] == Blocks(g, req)[j] && free[y] == Blocks(g, req)[i]
  {
    var free, mine := Freed(g, req).free, Blocks(g, req);
    var x, y := |free| - 1 - j, |free| - 1 - i;
    assert free[x] == mine[j] && free[y] == mine[i];
  }

  lemma FreeUse(g: Group, req: Req, b: nat)
    ensures InUse(g, b) <==> InUse(Freed(g, req), b) || b in Blocks(g, req)
  {
    var t := Freed(g, req);
    if InUse(g, b) {
      var r :| r in g.owned && b in g.owned[r];
      if r != req { assert r in t.owned && b in t.owned[r]; }
    }
  }

  /** What was predicted is what is taken, when no request is half provided. */
  lemma NeedIsTaken(g: Group, req: Req, tokens: nat)
    requires ValidSpec(g.spec) && AllOrNothing(g)
    ensures !Broken(g, req)
    ensures Taken(g, req, tokens) == if Need(g, req, tokens) > 0 then Need(g, req, tokens) else 0
  {
  }

  lemma TakeAllOrNothing(g: Group, req: Req, tokens: nat)
    requires ValidSpec(g.spec) && AllOrNothing(g) && Taken(g, req, tokens) <= |g.free|
    ensures AllOrNothing(Take(g, req, Taken(g, req, tokens)))
    ensures g.spec.Windowed? ==> |Blocks(Take(g, req, Taken(g, req, tokens)), req)| == g.spec.maxNumBlocks
    ensures g.spec.Full? ==> |Blocks(Take(g, req, Taken(g, req, tokens)), req)| >= CeilDiv(tokens, g.spec.blockSize)
  {
  }

  // ----- One group's manager -----------------------------------------------------------------------------

  class SingleTypeManager {
    const spec: Spec
    var freeBlocks: seq<nat>
    var reqToBlocks: map<Req, seq<nat>>

    function State(): Group
      reads this
    {
      Group(spec, freeBlocks, reqToBlocks)
    }

    constructor (spec: Spec, numBlocks: nat)
      ensures State() == Group(spec, seq(numBlocks, i => i), map[])
    {
      this.spec := spec;
      freeBlocks := seq(numBlocks, i => i);
      reqToBlocks := map[];
    }

    method GetNumBlocksToAllocate(req: Req, numTokens: nat) returns (n: int)
      requires ValidSpec(spec)
      ensures n == Need(State(), req, numTokens)
    {
      var reqBlocks := if req in reqToBlocks then reqToBlocks[req] else [];
      match spec {
        case Full(blockSize) => n := CeilDiv(numTokens, blockSize) - |reqBlocks|;
        case Windowed(maxNumBlocks) => n := if |reqBlocks| > 0 then 0 else maxNumBlocks;
      }
    }

    /** None is the RuntimeError of a half provided request. */
    method AllocateNewBlocks(req: Req, numTokens: nat) returns (r: Option<seq<nat>>)
      requires ValidSpec(spec) && (Broken(State(), req) || Taken(State(), req, numTokens) <= |freeBlocks|)
      modifies this
      ensures r.None? <==> old(Broken(State(), req))
      ensures r.None? ==> State() == old(State())
      ensures r.Some? ==> State() == Take(old(State()), req, old(Taken(State(), req, numTokens)))
      ensures r.Some? ==> r.value == old(freeBlocks)[..old(Taken(State(), req, numTokens))]
    {
      var reqBlocks := if req in reqToBlocks then reqToBlocks[req] else [];
      var required := match spec
        case Full(blockSize) => CeilDiv(numTokens, blockSize)
        case Windowed(maxNumBlocks) => maxNumBlocks;
      var numNew := required - |reqBlocks|;
      if numNew <= 0 {
        return Some([]);
      }
      if spec.Windowed? && numNew != spec.maxNumBlocks {
        return None;
      }
      var newBlocks := freeBlocks[..numNew];
      freeBlocks := freeBlocks[numNew..];
      reqToBlocks := reqToBlocks[req := reqBlocks + newBlocks];
      r := Some(newBlocks);
    }

    method FreeRequest(req: Req)
      modifies this
      ensures State() == Freed(old(State()), req)
    {
      var reqBlocks := if req in reqToBlocks then reqToBlocks[req] else [];
      freeBlocks := freeBlocks + Reversed(reqBlocks);
      reqToBlocks := reqToBlocks - {req};
    }
  }

  // ----- The hybrid manager -------------------------------------------------------------------------------

  /** Invalid is the ValueError for zero tokens, NoRoom the None result, HalfProvided a RuntimeError. */
  datatype Outcome = Invalid | NoRoom | HalfProvided | Slots(newBlocks: seq<seq<nat>>)

  datatype Op =
    | Allocate(req: Req, numNewTokens: nat, numComputedTokens: nat, numNewComputedTokens: nat, numLookaheadTokens: nat,
               isSwap: bool)
    | Release(req: Req)

  function TokensNeedSlot(op: Op, maxModelLen: nat): nat
    requires op.Allocate?
  {
    var n := op.numComputedTokens + op.numNewComputedTokens + op.numNewTokens + op.numLookaheadTokens;
    if n < maxModelLen then n else maxModelLen
  }

  predicate ValidSpecs(groups: seq<Group>) { forall i :: 0 <= i < |groups| ==> ValidSpec(groups[i].spec) }

  predicate Enough(groups: seq<Group>, req: Req, tokens: nat)
    requires ValidSpecs(groups)
  {
    forall i :: 0 <= i < |groups| ==> Need(groups[i], req, tokens) <= |groups[i].free|
  }

  predicate AnyBroken(groups: seq<Group>, req: Req) { exists i :: 0 <= i < |groups| && Broken(groups[i], req) }

  lemma EnoughToTake(g: Group, req: Req, tokens: nat)
    requires ValidSpec(g.spec) && !Broken(g, req) && Need(g, req, tokens) <= |g.free|
    ensures Taken(g, req, tokens) <= |g.free|
  {
  }

  function TakeAll(groups: seq<Group>, req: Req, tokens: nat): (r: seq<Group>)
    requires ValidSpecs(groups) && Enough(groups, req, tokens) && !AnyBroken(groups, req)
    ensures |r| == |groups|
    ensures forall i :: 0 <= i < |groups| ==>
              Taken(groups[i], req, tokens) <= |groups[i].free|
                && r[i] == Take(groups[i], req, Taken(groups[i], req, tokens))
  {
    forall i | 0 <= i < |groups|
      ensures Taken(groups[i], req, tokens) <= |groups[i].free|
    {
      EnoughToTake(groups[i], req, tokens);
    }
    seq(|groups|, i requires 0 <= i < |groups| => Take(groups[i], req, Taken(groups[i], req, tokens)))
  }

  function NewBlocks(groups: seq<Group>, req: Req, tokens: nat): (r: seq<seq<nat>>)
    requires ValidSpecs(groups) && Enough(groups, req, tokens) && !AnyBroken(groups, req)
    ensures |r| == |groups|
    ensures forall i :: 0 <= i < |groups| ==>
              Taken(groups[i], req, tokens) <= |groups[i].free|
                && r[i] == groups[i].free[..Taken(groups[i], req, tokens)]
  {
    forall i | 0 <= i < |groups|
      ensures Taken(groups[i], req, tokens) <= |groups[i].free|
    {
      EnoughToTake(groups[i], req, tokens);
    }
    seq(|groups|, i requires 0 <= i < |groups| => groups[i].free[..Taken(groups[i], req, tokens)])
  }

  function FreeAll(groups: seq<Group>, req: Req): (r: seq<Group>)
    ensures |r| == |groups| && forall i :: 0 <= i < |groups| ==> r[i] == Freed(groups[i], req)
  {
    seq(|groups|, i requires 0 <= i < |groups| => Freed(groups[i], req))
  }

  /** What an operation answers. */
  function Answer(groups: seq<Group>, maxModelLen: nat, op: Op): Outcome
    requires ValidSpecs(groups) && op.Allocate?
  {
    if op.numNewTokens == 0 && !op.isSwap then Invalid
    else if !Enough(groups, op.req, TokensNeedSlot(op, maxModelLen)) then NoRoom
    else if AnyBroken(groups, op.req) then HalfProvided
    else Slots(NewBlocks(groups, op.req, TokensNeedSlot(op, maxModelLen)))
  }

  /** The groups after an operation, provided no request is half provided. */
  function After(groups: seq<Group>, maxModelLen: nat, op: Op): (r: seq<Group>)
    requires ValidSpecs(groups)
    ensures |r| == |groups| && forall i :: 0 <= i < |r| ==> r[i].spec == groups[i].spec
  {
    match op
    case Release(req) => FreeAll(groups, req)
    case Allocate(req, _, _, _, _, _) =>
      if Answer(groups, maxModelLen, op).Slots? then TakeAll(groups, req, TokensNeedSlot(op, maxModelLen)) else groups
  }

  // ----- What an allocation provides ---------------------------------------------------------------------

  /** Even with all its free blocks the group cannot provide the request with `wanted` slots. */
  predicate Short(g: Group, req: Req, wanted: nat) {
    match g.spec
    case Full(blockSize) => (|Blocks(g, req)| + |g.free|) * blockSize < wanted
    case Windowed(maxNumBlocks) => Blocks(g, req) == [] && |g.free| < maxNumBlocks
  }

  /** The blocks come from the head of the free list, nobody else is touched, and a full group takes the least
      number of blocks for `wanted` slots, a windowed group its fixed number at once. */
  ghost predicate Provided(g: Group, after: Group, newBlocks: seq<nat>, req: Req, wanted: nat) {
    && g.free == newBlocks + after.free && Blocks(after, req) == Blocks(g, req) + newBlocks
    && (forall q :: q != req ==> Blocks(after, q) == Blocks(g, q))
    && match g.spec
       case Full(blockSize) =>
         && |Blocks(after, req)| * blockSize >= wanted
         && (newBlocks != [] ==> (|Blocks(after, req)| - 1) * blockSize < wanted)
       case Windowed(maxNumBlocks) =>
         |Blocks(after, req)| == maxNumBlocks && (Blocks(g, req) != [] ==> newBlocks == [])
  }

  /** The tokens of a request, those to come and those speculated, but never more than the model takes. */
  function Wanted(op: Op, maxModelLen: nat): nat
    requires op.Allocate?
  {
    Least(maxModelLen, op.numNewTokens + op.numLookaheadTokens + op.numNewComputedTokens + op.numComputedTokens)
  }

  function Least(a: nat, b: nat): (r: nat)
    ensures r <= a && r <= b && (r == a || r == b)
  {
    if a <= b then a else b
  }

  ghost predicate Allocated(groups: seq<Group>, after: seq<Group>, r: Outcome, maxModelLen: nat, op: Op)
    requires op.Allocate?
  {
    var wanted := Wanted(op, maxModelLen);
    && |after| == |groups| && !r.HalfProvided?
    && (r.Invalid? <==> op.numNewTokens == 0 && !op.isSwap)
    && (r.NoRoom? <==> !r.Invalid? && exists i :: 0 <= i < |groups| && Short(groups[i], op.req, wanted))
    && (!r.Slots? ==> after == groups)
    && (r.Slots? ==> |r.newBlocks| == |groups| && forall i :: 0 <= i < |groups| ==>
          Provided(groups[i], after[i], r.newBlocks[i], op.req, wanted))
  }

  lemma NeedIsShort(g: Group, req: Req, wanted: nat)
    requires ValidSpec(g.spec)
    ensures Need(g, req, wanted) > |g.free| <==> Short(g, req, wanted)
  {
    if g.spec.Full? { CeilBelow(wanted, g.spec.blockSize, |Blocks(g, req)| + |g.free|); }
  }

  lemma TakenIsProvided(g: Group, req: Req, wanted: nat)
    requires ValidSpec(g.spec) && !Broken(g, req) && AllOrNothing(g) && Taken(g, req, wanted) <= |g.free|
    ensures var n := Taken(g, req, wanted); Provided(g, Take(g, req, n), g.free[..n], req, wanted)
  {
    var n := Taken(g, req, wanted);
    assert g.free == g.free[..n] + g.free[n..];
    if g.spec.Full? {
      CeilBelow(wanted, g.spec.blockSize, |Blocks(g, req)| + n);
      if n > 0 { CeilBelow(wanted, g.spec.blockSize, |Blocks(g, req)| + n - 1); }
    }
  }

  /** No request holds only some of a windowed group's blocks. */
  ghost predicate AllProvided(groups: seq<Group>) { forall i :: 0 <= i < |groups| ==> AllOrNothing(groups[i]) }

  lemma NoneBroken(groups: seq<Group>, req: Req)
    requires ValidSpecs(groups) && AllProvided(groups)
    ensures !AnyBroken(groups, req)
  {
    forall i | 0 <= i < |groups| ensures !Broken(groups[i], req) { NeedIsTaken(groups[i], req, 0); }
  }

  lemma AnswerAllocates(groups: seq<Group>, maxModelLen: nat, op: Op)
    requires ValidSpecs(groups) && op.Allocate? && AllProvided(groups)
    ensures Allocated(groups, After(groups, maxModelLen, op), Answer(groups, maxModelLen, op), maxModelLen, op)
  {
    var wanted := Wanted(op, maxModelLen);
    assert TokensNeedSlot(op, maxModelLen) == wanted;
    hide TokensNeedSlot, Wanted, Need, Taken, Short, Provided, Take;
    forall i | 0 <= i < |groups|
      ensures Need(groups[i], op.req, wanted) > |groups[i].free| <==> Short(groups[i], op.req, wanted)
      ensures !Broken(groups[i], op.req)
    {
      NeedIsShort(groups[i], op.req, wanted);
      NeedIsTaken(groups[i], op.req, wanted);
    }
    if Answer(groups, maxModelLen, op).Slots? {
      forall i | 0 <= i < |groups|
        ensures Provided(groups[i], After(groups, maxModelLen, op)[i], Answer(groups, maxModelLen, op).newBlocks[i],
                         op.req, wanted)
      {
        EnoughToTake(groups[i], op.req, wanted);
        TakenIsProvided(groups[i], op.req, wanted);
      }
    }
  }

  class OmniKVCacheManager {
    const managers: seq<SingleTypeManager>
    const maxModelLen: nat

    ghost predicate Valid() {
      && (forall i, j :: 0 <= i < j < |managers| ==> managers[i] != managers[j])
      && forall i :: 0 <= i < |managers| ==> ValidSpec(managers[i].spec)
    }

    ghost function Groups(): (r: seq<Group>)
      reads managers
      ensures |r| == |managers| && forall i :: 0 <= i < |r| ==> r[i] == managers[i].State()
    {
      seq(|managers|, i requires 0 <= i < |managers| reads managers => managers[i].State())
    }

    constructor (managers: seq<SingleTypeManager>, maxModelLen: nat)
      requires forall i, j :: 0 <= i < j < |managers| ==> managers[i] != managers[j]
      requires forall i :: 0 <= i < |managers| ==> ValidSpec(managers[i].spec)
      ensures Valid() && this.managers == managers && this.maxModelLen == maxModelLen
    {
      this.managers := managers;
      this.maxModelLen := maxModelLen;
    }

    /** The comparison of every group's need with its free blocks. */
    method HaveRoom(req: Req, tokens: nat) returns (ok: bool)
      requires Valid()
      ensures ok <==> Enough(Groups(), req, tokens)
    {
      ok := true;
      ghost var groups := Groups();
      for i := 0 to |managers|
        invariant ok <==> forall j :: 0 <= j < i ==> Need(groups[j], req, tokens) <= |groups[j].free|
      {
        var need := managers[i].GetNumBlocksToAllocate(req, tokens);
        ok := ok && need <= |managers[i].freeBlocks|;
      }
    }

    /** The loop over the groups; None is the RuntimeError of a half provided request. */
    method AllocateNewBlocks(req: Req, tokens: nat) returns (r: Option<seq<seq<nat>>>)
      requires Valid() && Enough(Groups(), req, tokens)
      modifies managers
      ensures r.None? ==> old(AnyBroken(Groups(), req))
      ensures r.Some? ==>
                && !old(AnyBroken(Groups(), req)) && r.value == old(NewBlocks(Groups(), req, tokens))
                && Groups() == old(TakeAll(Groups(), req, tokens))
    {
      hide Need, Taken, Take, Broken;
      ghost var groups := Groups();
      var newBlocks: seq<seq<nat>> := [];
      for i := 0 to |managers|
        invariant |newBlocks| == i
        invariant forall j :: 0 <= j < i ==>
                    !Broken(groups[j], req) && Taken(groups[j], req, tokens) <= |groups[j].free|
        invariant forall j :: 0 <= j < i ==> managers[j].State() == Take(groups[j], req, Taken(groups[j], req, tokens))
        invariant forall j :: 0 <= j < i ==> newBlocks[j] == groups[j].free[..Taken(groups[j], req, tokens)]
        invariant forall j :: i <= j < |managers| ==> managers[j].State() == groups[j]
      {
        assert Need(groups[i], req, tokens) <= |groups[i].free|;
        assert managers[i].State() == groups[i];
        if !Broken(groups[i], req) { EnoughToTake(groups[i], req, tokens); }
        var part := managers[i].AllocateNewBlocks(req, tokens);
        if part.None? {
          return None;
        }
        newBlocks := newBlocks + [part.value];
      }
      return Some(newBlocks);
    }

    /** The groups after it are those of `After`, unless some request is half provided, which no run brings
        about. */
    method AllocateSlots(op: Op) returns (r: Outcome)
      requires Valid() && op.Allocate?
      modifies managers
      ensures old(AnyBroken(Groups(), op.req))
                || (r == old(Answer(Groups(), maxModelLen, op)) && Groups() == old(After(Groups(), maxModelLen, op)))
      ensures old(AllProvided(Groups())) ==> Allocated(old(Groups()), Groups(), r, maxModelLen, op)
      ensures r.HalfProvided? ==> old(AnyBroken(Groups(), op.req))
      ensures r.Invalid? || r.NoRoom? ==> Groups() == old(Groups())
    {
      hide Enough, AnyBroken, AllProvided, Allocated, TokensNeedSlot;
      ghost var groups := Groups();
      assert ValidSpecs(groups);
      if AllProvided(groups) {
        AnswerAllocates(groups, maxModelLen, op);
        NoneBroken(groups, op.req);
      }
      if op.numNewTokens == 0 && !op.isSwap {
        return Invalid;
      }
      var tokens := TokensNeedSlot(op, maxModelLen);
      var ok := HaveRoom(op.req, tokens);
      if !ok {
        return NoRoom;
      }
      var newBlocks := AllocateNewBlocks(op.req, tokens);
      r := if newBlocks.None? then HalfProvided else Slots(newBlocks.value);
    }

    method Free(req: Req)
      requires Valid()
      modifies managers
      ensures Groups() == old(After(Groups(), maxModelLen, Release(req)))
    {
      ghost var groups := Groups();
      for i := 0 to |managers|
        invariant forall j :: 0 <= j < i ==> managers[j].State() == Freed(groups[j], req)
        invariant forall j :: i <= j < |managers| ==> managers[j].State() == groups[j]
      {
        assert managers[i].State() == groups[i];
        managers[i].FreeRequest(req);
      }
    }

    method GetBlockIds(req: Req) returns (ids: seq<seq<nat>>)
      ensures |ids| == |managers| && forall i :: 0 <= i < |managers| ==> ids[i] == Blocks(managers[i].State(), req)
    {
      ids := [];
      for i := 0 to |managers|
        invariant |ids| == i && forall j :: 0 <= j < i ==> ids[j] == Blocks(managers[j].State(), req)
      {
        ids := ids + [if req in managers[i].reqToBlocks then managers[i].reqToBlocks[req] else []];
      }
    }
  }

  // ----- Every run ------------------------------------------------------------------------------------------

  ghost predicate Inv(groups: seq<Group>, pools: seq<set<nat>>) {
    && |pools| == |groups| && ValidSpecs(groups)
    && forall i :: 0 <= i < |groups| ==> Partitioned(groups[i], pools[i]) && AllOrNothing(groups[i])
  }

  lemma FreedAllOrNothing(g: Group, req: Req)
    requires AllOrNothing(g)
    ensures AllOrNothing(Freed(g, req))
  {
  }

  lemma StepKeeps(groups: seq<Group>, pools: seq<set<nat>>, maxModelLen: nat, op: Op)
    requires Inv(groups, pools)
    ensures Inv(After(groups, maxModelLen, op), pools)
    ensures op.Allocate? ==> !Answer(groups, maxModelLen, op).HalfProvided?
  {
    hide Partitioned, AllOrNothing, Take, Taken, Need, Freed, Enough;
    forall i | 0 <= i < |groups|
      ensures Partitioned(After(groups, maxModelLen, op)[i], pools[i])
      ensures AllOrNothing(After(groups, maxModelLen, op)[i])
      ensures !Broken(groups[i], op.req)
    {
      NeedIsTaken(groups[i], op.req, 0);
      match op {
        case Release(req) =>
          FreeKeeps(groups[i], req, pools[i]);
          FreedAllOrNothing(groups[i], req);
        case Allocate(req, _, _, _, _, _) =>
          if Answer(groups, maxModelLen, op).Slots? {
            var tokens := TokensNeedSlot(op, maxModelLen);
            TakeKeeps(groups[i], req, Taken(groups[i], req, tokens), pools[i]);
            TakeAllOrNothing(groups[i], req, tokens);
          }
      }
    }
  }

  /** The groups after the operations. */
  function Run(groups: seq<Group>, maxModelLen: nat, ops: seq<Op>): (r: seq<Group>)
    requires ValidSpecs(groups)
    ensures |r| == |groups| && forall i :: 0 <= i < |r| ==> r[i].spec == groups[i].spec
  {
    if ops == [] then groups else After(Run(groups, maxModelLen, ops[..|ops| - 1]), maxModelLen, ops[|ops| - 1])
  }

  lemma {:induction false} RunKeeps(groups: seq<Group>, pools: seq<set<nat>>, maxModelLen: nat, ops: seq<Op>)
    requires Inv(groups, pools)
    ensures Inv(Run(groups, maxModelLen, ops), pools)
  {
    hide Inv, After;
    if ops != [] {
      InvSpecs(groups, pools);
      RunKeeps(groups, pools, maxModelLen, ops[..|ops| - 1]);
      StepKeeps(Run(groups, maxModelLen, ops[..|ops| - 1]), pools, maxModelLen, ops[|ops| - 1]);
    }
  }

  lemma InvSpecs(groups: seq<Group>, pools: seq<set<nat>>)
    requires Inv(groups, pools)
    ensures ValidSpecs(groups)
  {
  }

  /** New pools: every block is free. */
  lemma NewGroupsInv(specs: seq<Spec>, numBlocks: seq<nat>, groups: seq<Group>, pools: seq<set<nat>>)
    requires |specs| == |numBlocks| == |groups| == |pools| && forall i :: 0 <= i < |specs| ==> ValidSpec(specs[i])
    requires forall i :: 0 <= i < |specs| ==> groups[i] == Group(specs[i], seq(numBlocks[i], k => k), map[])
    requires forall i :: 0 <= i < |specs| ==> pools[i] == set b | b in groups[i].free
    ensures Inv(groups, pools)
  {
    forall i | 0 <= i < |groups| ensures Partitioned(groups[i], pools[i]) && AllOrNothing(groups[i]) {
      NewGroup(specs[i], numBlocks[i]);
    }
  }

  lemma NewGroup(spec: Spec, n: nat)
    ensures var g := Group(spec, seq(n, k => k), map[]); Partitioned(g, set b | b in g.free) && AllOrNothing(g)
  {
  }

  /** After any run, an allocation never finds a half provided request.  It fails exactly when some group is
      short of blocks; else every group provides the request with slots for its tokens, from the fewest
      blocks, and nothing else changes. */
  lemma AllocationIsExact(groups: seq<Group>, pools: seq<set<nat>>, maxModelLen: nat, ops: seq<Op>, op: Op)
    requires Inv(groups, pools) && op.Allocate?
    ensures var g := Run(groups, maxModelLen, ops);
            Allocated(g, After(g, maxModelLen, op), Answer(g, maxModelLen, op), maxModelLen, op)
  {
    RunKeeps(groups, pools, maxModelLen, ops);
    var g := Run(groups, maxModelLen, ops);
    hide Partitioned, AllOrNothing, Run, Inv, Allocated;
    forall i | 0 <= i < |g| ensures AllOrNothing(g[i]) && ValidSpecs(g) { InvGroup(g, pools, i); }
    AnswerAllocates(g, maxModelLen, op);
  }

  lemma InvGroup(groups: seq<Group>, pools: seq<set<nat>>, i: nat)
    requires Inv(groups, pools) && i < |groups|
    ensures AllOrNothing(groups[i]) && ValidSpecs(groups)
  {
  }
}

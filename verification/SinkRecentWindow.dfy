/** The attention window made of sink blocks and a ring of recent blocks
    (omni/accelerators/cache/utils.py, kv_cache_interface.py, pd.py).

    A request owns `sinkBlocks + recentBlocks` blocks.  A window position below the sink size is
    a sink slot; the others form a ring that is overwritten as decoding goes on.
 */
module SinkRecentWindow {
  import opened Arith
  import opened Wrappers

  // ----- Sizes and places ------------------------------------------------------------------

  datatype Spec = Spec(sinkBlocks: nat, recentBlocks: nat, blockSize: nat)

  predicate Sized(s: Spec) {
    s.recentBlocks > 0 && s.blockSize > 0
  }

  function Sink(s: Spec): nat { s.sinkBlocks * s.blockSize }

  function Recent(s: Spec): nat { s.recentBlocks * s.blockSize }

  function MaxBlocks(s: Spec): nat { s.sinkBlocks + s.recentBlocks }

  lemma Sizes(s: Spec)
    requires Sized(s)
    ensures Recent(s) > 0 && MaxBlocks(s) * s.blockSize == Sink(s) + Recent(s)
  {
  }

  function Max(a: int, b: int): int { if a < b then b else a }

  /** The window position of the token that makes the sequence `seqLen` long. */
  function WindowPos(s: Spec, promptLen: nat, seqLen: int): int
    requires Sized(s)
  {
    Sizes(s);
    if seqLen > Sink(s) + Recent(s) then (seqLen - (Max(Sink(s) + Recent(s), promptLen) + 1)) % Recent(s) + Sink(s)
    else seqLen - 1
  }

  /** Where position `q` of the sequence belongs: sinks stay, the rest goes round the ring. */
  function Place(s: Spec, promptLen: nat, q: nat): nat
    requires Sized(s)
  {
    Sizes(s);
    if q < Sink(s) then q
    else Sink(s) + (q - (if FitsWindow(s, promptLen) then Sink(s) else promptLen)) % Recent(s)
  }

  predicate FitsWindow(s: Spec, promptLen: nat) {
    promptLen <= Sink(s) + Recent(s)
  }

  /** The positions that decoding writes: any when the prompt fits, else those past the window size,
      which include the last prompt token when it is computed again. */
  predicate Decoded(s: Spec, promptLen: nat, q: nat) {
    FitsWindow(s, promptLen) || Sink(s) + Recent(s) <= q
  }

  /** Decoding writes every token to its place. */
  lemma WindowPosIsPlace(s: Spec, promptLen: nat, q: nat)
    requires Sized(s) && Decoded(s, promptLen, q)
    ensures WindowPos(s, promptLen, q + 1) == Place(s, promptLen, q)
  {
    Sizes(s);
    if FitsWindow(s, promptLen) {
      if q >= Sink(s) + Recent(s) {
        ModShift(q - Sink(s) - Recent(s), Recent(s));
      } else if q >= Sink(s) {
        ModSmall(q - Sink(s), Recent(s));
      }
    }
  }

  lemma PlaceBounds(s: Spec, promptLen: nat, q: nat)
    requires Sized(s)
    ensures Place(s, promptLen, q) < Sink(s) + Recent(s)
    ensures Place(s, promptLen, q) < Sink(s) <==> q < Sink(s)
  {
    Sizes(s);
  }

  /** Any `recent` consecutive positions have different places, and none of them is a sink's. */
  lemma PlacesDistinct(s: Spec, promptLen: nat, p: nat, q: nat)
    requires Sized(s) && q < p && (q < Sink(s) || p < q + Recent(s))
    ensures Place(s, promptLen, p) != Place(s, promptLen, q)
  {
    Sizes(s);
    PlaceBounds(s, promptLen, p);
    PlaceBounds(s, promptLen, q);
    if q >= Sink(s) {
      var base := if FitsWindow(s, promptLen) then Sink(s) else promptLen;
      ModDistinct(q - base, p - base, Recent(s));
    }
  }

  lemma PlaceRepeats(s: Spec, promptLen: nat, q: nat)
    requires Sized(s) && q >= Sink(s)
    ensures Place(s, promptLen, q + Recent(s)) == Place(s, promptLen, q)
  {
    Sizes(s);
    var base := if FitsWindow(s, promptLen) then Sink(s) else promptLen;
    ModShift(q - base, Recent(s));
  }

  // ----- Runs of decode steps with rejections ------------------------------------------------

  type Token = int
  datatype Cell = Cell(position: nat, token: Token)

  /** `stream` are the accepted tokens, the prompt included; `cells` is what the window slots hold;
      decoding has written no position from `high` on. */
  datatype Window = Window(stream: seq<Token>, cells: map<nat, Cell>, high: nat)

  /** A decode step feeds `fed` and keeps its first `kept` tokens. */
  datatype Step = Step(fed: seq<Token>, kept: nat)

  /** The cells after writing `fed` from position `from` on, through the slots of the metadata. */
  function Write(s: Spec, promptLen: nat, cells: map<nat, Cell>, from: nat, fed: seq<Token>): map<nat, Cell>
    requires Sized(s) && Decoded(s, promptLen, from)
    decreases fed
  {
    if fed == [] then cells
    else
      PosIsNat(s, promptLen, from);
      Write(s, promptLen, cells[WindowPos(s, promptLen, from + 1) := Cell(from, fed[0])], from + 1, fed[1..])
  }

  lemma PosIsNat(s: Spec, promptLen: nat, q: nat)
    requires Sized(s)
    ensures 0 <= WindowPos(s, promptLen, q + 1) < Sink(s) + Recent(s)
  {
    Sizes(s);
  }

  /** The window as the step's attention sees it: written, not yet accepted. */
  function AfterWrite(s: Spec, promptLen: nat, w: Window, fed: seq<Token>): Window
    requires Sized(s) && Decoded(s, promptLen, |w.stream|)
  {
    w.(cells := Write(s, promptLen, w.cells, |w.stream|, fed), high := Max(w.high, |w.stream| + |fed|))
  }

  function Next(s: Spec, promptLen: nat, w: Window, step: Step): Window
    requires Sized(s) && Decoded(s, promptLen, |w.stream|) && step.kept <= |step.fed|
  {
    AfterWrite(s, promptLen, w, step.fed).(stream := w.stream + step.fed[..step.kept])
  }

  /** Accepted position `q` is in its place. */
  ghost predicate Holds(s: Spec, promptLen: nat, w: Window, q: nat)
    requires Sized(s) && q < |w.stream|
  {
    var slot := Place(s, promptLen, q);
    slot in w.cells && w.cells[slot] == Cell(q, w.stream[q])
  }

  /** The position is a sink or among the last `recent` ones below the high mark. */
  predicate Kept(s: Spec, w: Window, q: nat) {
    q < Sink(s) || q + Recent(s) >= w.high
  }

  /** What every run keeps.  Before position `from` the ring makes no promise. */
  ghost predicate Inv(s: Spec, promptLen: nat, w: Window, from: nat)
    requires Sized(s)
  {
    && Decoded(s, promptLen, |w.stream|) && |w.stream| <= w.high <= |w.stream| + Recent(s)
    && (forall q :: 0 <= q < |w.stream| && (q < Sink(s) || from <= q) ==>
        (Holds(s, promptLen, w, q) <==> Kept(s, w, q)))
  }

  /** What a slot holds after writing the positions `from .. from + |fed|`. */
  lemma {:induction false} WriteEffect(s: Spec, promptLen: nat, cells: map<nat, Cell>, from: nat, fed: seq<Token>,
                                       slot: nat)
    requires Sized(s) && Decoded(s, promptLen, from) && |fed| <= Recent(s)
    ensures var after := Write(s, promptLen, cells, from, fed);
            && (forall p: nat :: from <= p < from + |fed| && Place(s, promptLen, p) == slot ==>
                  slot in after && after[slot] == Cell(p, fed[p - from]))
            && ((forall p: nat :: from <= p < from + |fed| ==> Place(s, promptLen, p) != slot) ==>
                  (slot in after <==> slot in cells) && (slot in cells ==> after[slot] == cells[slot]))
    decreases fed
  {
    if fed != [] {
      WindowPosIsPlace(s, promptLen, from);
      var here := Place(s, promptLen, from);
      WriteEffect(s, promptLen, cells[here := Cell(from, fed[0])], from + 1, fed[1..], slot);
      forall p: nat | from < p < from + |fed|
        ensures Place(s, promptLen, p) != here
      {
        PlacesDistinct(s, promptLen, p, from);
      }
    }
  }

  /** The cell of an older position after a step: lost exactly when its place is taken again. */
  lemma StepOnOld(s: Spec, promptLen: nat, w: Window, fed: seq<Token>, q: nat, from: nat)
    requires Sized(s) && Inv(s, promptLen, w, from) && |fed| <= Recent(s)
    requires q < |w.stream| && (q < Sink(s) || from <= q)
    ensures var w' := AfterWrite(s, promptLen, w, fed);
            Holds(s, promptLen, w', q) <==> Kept(s, w', q)
  {
    var a := |w.stream|;
    var w' := AfterWrite(s, promptLen, w, fed);
    var slot := Place(s, promptLen, q);
    WriteEffect(s, promptLen, w.cells, a, fed, slot);
    assert Holds(s, promptLen, w, q) <==> Kept(s, w, q);
    if Kept(s, w', q) {
      forall p: nat | a <= p < a + |fed|
        ensures Place(s, promptLen, p) != slot
      {
        PlacesDistinct(s, promptLen, p, q);
      }
    } else if q + Recent(s) >= w.high {
      PlaceRepeats(s, promptLen, q);
      assert Place(s, promptLen, q + Recent(s)) == slot;
    }
  }

  /** The tokens of the step itself are in place right after the write. */
  lemma StepOnNew(s: Spec, promptLen: nat, w: Window, fed: seq<Token>, p: nat)
    requires Sized(s) && Decoded(s, promptLen, |w.stream|) && |w.stream| <= p < |w.stream| + |fed| && |fed| <= Recent(s)
    ensures var slot, cells := Place(s, promptLen, p), AfterWrite(s, promptLen, w, fed).cells;
            slot in cells && cells[slot] == Cell(p, fed[p - |w.stream|])
  {
    WriteEffect(s, promptLen, w.cells, |w.stream|, fed, Place(s, promptLen, p));
  }

  lemma StepKeepsInv(s: Spec, promptLen: nat, w: Window, step: Step, from: nat)
    requires Sized(s) && Inv(s, promptLen, w, from) && from <= |w.stream|
    requires step.kept <= |step.fed| <= Recent(s)
    ensures Inv(s, promptLen, Next(s, promptLen, w, step), from)
  {
    var w' := Next(s, promptLen, w, step);
    forall q | 0 <= q < |w'.stream| && (q < Sink(s) || from <= q)
      ensures Holds(s, promptLen, w', q) <==> Kept(s, w', q)
    {
      if q < |w.stream| {
        StepOnOld(s, promptLen, w, step.fed, q, from);
      } else {
        StepOnNew(s, promptLen, w, step.fed, q);
      }
    }
  }

  function Run(s: Spec, promptLen: nat, w: Window, steps: seq<Step>): (r: Window)
    requires Sized(s) && Decoded(s, promptLen, |w.stream|)
    requires forall k :: 0 <= k < |steps| ==> steps[k].kept <= |steps[k].fed|
    ensures w.stream <= r.stream
    decreases |steps|
  {
    if steps == [] then w else Run(s, promptLen, Next(s, promptLen, w, steps[0]), steps[1..])
  }

  ghost predicate FitRing(s: Spec, steps: seq<Step>) {
    forall k :: 0 <= k < |steps| ==> steps[k].kept <= |steps[k].fed| <= Recent(s)
  }

  /** On every run an accepted position is in its place exactly while it is kept. */
  lemma {:induction false} RunKeepsInv(s: Spec, promptLen: nat, w: Window, steps: seq<Step>, from: nat)
    requires Sized(s) && Inv(s, promptLen, w, from) && from <= |w.stream| && FitRing(s, steps)
    ensures Inv(s, promptLen, Run(s, promptLen, w, steps), from)
    decreases |steps|
  {
    if steps != [] {
      StepKeepsInv(s, promptLen, w, steps[0], from);
      RunKeepsInv(s, promptLen, Next(s, promptLen, w, steps[0]), steps[1..], from);
    }
  }

  /** With a fixed number of tokens per step and at least one kept, the next step reaches the high
      mark again. */
  lemma {:induction false} HighMark(s: Spec, promptLen: nat, w: Window, steps: seq<Step>, t: nat)
    requires Sized(s) && Decoded(s, promptLen, |w.stream|) && |w.stream| <= w.high <= |w.stream| + t
    requires forall k :: 0 <= k < |steps| ==> 1 <= steps[k].kept <= |steps[k].fed| == t
    ensures var r := Run(s, promptLen, w, steps); |r.stream| <= r.high <= |r.stream| + t
    decreases |steps|
  {
    if steps != [] { HighMark(s, promptLen, Next(s, promptLen, w, steps[0]), steps[1..], t); }
  }

  // ----- The prompt's KV, as pulled from prefill -----------------------------------------------

  /** The blocks pulled for a windowed layer: all of them, or the sinks and the most recent ones.
      None is the error for lists that do not match. */
  function PullBlocks<T>(s: Spec, src: seq<T>, tgt: seq<T>): Option<(seq<T>, seq<T>)> {
    var n := MaxBlocks(s);
    var tmpTgt := if |src| < n then (if |src| <= |tgt| then tgt[..|src|] else tgt) else tgt;
    var tmpSrc := if |src| > n then src[..s.sinkBlocks] + src[|src| - s.recentBlocks..] else src;
    if |tmpSrc| != |tmpTgt| then None else Some((tmpSrc, tmpTgt))
  }

  /** The prompt block that window block `i` receives from a prompt of `blocks` blocks. */
  function SourceIndex(s: Spec, blocks: nat, i: nat): nat {
    if i < s.sinkBlocks || blocks <= MaxBlocks(s) then i else i + blocks - MaxBlocks(s)
  }

  lemma PulledBlocksMatch<T>(s: Spec, src: seq<T>, tgt: seq<T>)
    requires |tgt| == MaxBlocks(s)
    ensures PullBlocks(s, src, tgt).Some?
    ensures var (from, to) := PullBlocks(s, src, tgt).value;
            var m := if |src| < MaxBlocks(s) then |src| else MaxBlocks(s);
            |from| == |to| == m && forall i :: 0 <= i < m ==>
              to[i] == tgt[i] && SourceIndex(s, |src|, i) < |src| && from[i] == src[SourceIndex(s, |src|, i)]
  {
  }

  function PromptBlocks(s: Spec, promptLen: nat): nat
    requires Sized(s)
  {
    (promptLen + s.blockSize - 1) / s.blockSize
  }

  /** The sequence position whose KV lands in window slot `slot`. */
  function PulledPosition(s: Spec, promptLen: nat, slot: nat): nat
    requires Sized(s)
  {
    SourceIndex(s, PromptBlocks(s, promptLen), slot / s.blockSize) * s.blockSize + slot % s.blockSize
  }

  function PulledCells(s: Spec, prompt: seq<Token>): map<nat, Cell>
    requires Sized(s)
  {
    map slot: nat | 0 <= slot < Sink(s) + Recent(s) && PulledPosition(s, |prompt|, slot) < |prompt|
      :: Cell(PulledPosition(s, |prompt|, slot), prompt[PulledPosition(s, |prompt|, slot)])
  }

  /** The window when decoding starts with `computed` tokens taken as computed; the scheduler may
      have the last prompt token computed again. */
  function Pulled(s: Spec, prompt: seq<Token>, computed: nat): Window
    requires Sized(s) && computed <= |prompt|
  {
    Window(prompt[..computed], PulledCells(s, prompt), computed)
  }

  predicate CanStart(s: Spec, promptLen: nat, computed: nat) {
    computed <= promptLen <= computed + Recent(s) && Decoded(s, promptLen, computed)
  }

  /** In closed form: the sinks stay, the rest of the window is moved up by whole blocks. */
  lemma PulledPositionIs(s: Spec, promptLen: nat, slot: nat)
    requires Sized(s) && slot < Sink(s) + Recent(s)
    ensures var blocks := PromptBlocks(s, promptLen);
            PulledPosition(s, promptLen, slot) ==
            if slot < Sink(s) || blocks <= MaxBlocks(s) then slot else slot + (blocks - MaxBlocks(s)) * s.blockSize
    ensures PromptBlocks(s, promptLen) <= MaxBlocks(s) <==> promptLen <= Sink(s) + Recent(s)
  {
    Sizes(s);
    var b := s.blockSize;
    var blocks := PromptBlocks(s, promptLen);
    var i, r := slot / b, slot % b;
    assert slot == i * b + r;
    CeilDivParts(promptLen, b);
    assert slot < Sink(s) <==> i < s.sinkBlocks by {
      DivBelow(slot, b, s.sinkBlocks);
    }
    assert blocks > MaxBlocks(s) ==> (i + blocks - MaxBlocks(s)) * b == i * b + (blocks - MaxBlocks(s)) * b;
    assert blocks <= MaxBlocks(s) <==> promptLen <= MaxBlocks(s) * b by {
      CeilBelow(promptLen, b, MaxBlocks(s));
    }
  }

  // ----- From which position on the pulled window is faithful ----------------------------------------

  /** From which position on the ring is faithful to the prompt: all of it when the prompt fits,
      its last `recent` tokens when it ends on a block boundary, else only what is decoded. */
  function FaithfulFrom(s: Spec, promptLen: nat, computed: nat): nat
    requires Sized(s)
  {
    if FitsWindow(s, promptLen) then 0
    else if promptLen % s.blockSize == 0 then promptLen - Recent(s)
    else computed
  }

  lemma PulledInv(s: Spec, prompt: seq<Token>, computed: nat)
    requires Sized(s) && CanStart(s, |prompt|, computed)
    ensures Inv(s, |prompt|, Pulled(s, prompt, computed), FaithfulFrom(s, |prompt|, computed))
  {
    Sizes(s);
    var w, n := Pulled(s, prompt, computed), |prompt|;
    forall q: nat | q < computed && (q < Sink(s) || FaithfulFrom(s, n, computed) <= q)
      ensures Holds(s, n, w, q) <==> Kept(s, w, q)
    {
      if FitsWindow(s, n) || q < Sink(s) {
        if q >= Sink(s) { ModSmall(q - Sink(s), Recent(s)); }
        PulledPositionIs(s, n, q);
      } else {
        PulledTail(s, n, q);
      }
    }
  }

  /** A prompt that ends on a block boundary: its last `recent` tokens are where decoding would
      have put them. */
  lemma PulledTail(s: Spec, promptLen: nat, q: nat)
    requires Sized(s) && !FitsWindow(s, promptLen) && promptLen % s.blockSize == 0
    requires promptLen - Recent(s) <= q < promptLen
    ensures q >= Sink(s) && PulledPosition(s, promptLen, Place(s, promptLen, q)) == q
  {
    Sizes(s);
    ModShift(q - promptLen, Recent(s));
    ModSmall(q - promptLen + Recent(s), Recent(s));
    var slot := Place(s, promptLen, q);
    assert slot == Sink(s) + q - promptLen + Recent(s);
    PulledPositionIs(s, promptLen, slot);
    CeilDivParts(promptLen, s.blockSize);
    var blocks := PromptBlocks(s, promptLen);
    assert (blocks - MaxBlocks(s)) * s.blockSize == blocks * s.blockSize - MaxBlocks(s) * s.blockSize;
  }

  // ----- Where the content of a slot comes from -------------------------------------------------------

  ghost predicate Reached(s: Spec, promptLen: nat, computed: nat, high: nat, slot: nat)
    requires Sized(s)
  {
    exists p: nat :: computed <= p < high && Place(s, promptLen, p) == slot
  }

  /** A slot that decoding has reached holds a decoded position that belongs there; any other slot
      holds what was pulled into it, if anything. */
  ghost predicate SlotTraced(s: Spec, prompt: seq<Token>, computed: nat, w: Window, slot: nat)
    requires Sized(s)
  {
    if Reached(s, |prompt|, computed, w.high, slot) then
      && slot in w.cells && computed <= w.cells[slot].position < w.high
      && Place(s, |prompt|, w.cells[slot].position) == slot
    else
      var pulled := PulledCells(s, prompt);
      (slot in w.cells <==> slot in pulled) && (slot in pulled ==> w.cells[slot] == pulled[slot])
  }

  ghost predicate Traced(s: Spec, prompt: seq<Token>, computed: nat, w: Window)
    requires Sized(s)
  {
    forall slot: nat :: SlotTraced(s, prompt, computed, w, slot)
  }

  lemma StepTraces(s: Spec, prompt: seq<Token>, computed: nat, w: Window, fed: seq<Token>)
    requires Sized(s) && Decoded(s, |prompt|, computed) && computed <= |w.stream| <= w.high && |fed| <= Recent(s)
    requires Traced(s, prompt, computed, w)
    ensures Traced(s, prompt, computed, AfterWrite(s, |prompt|, w, fed))
  {
    var n, a, w' := |prompt|, |w.stream|, AfterWrite(s, |prompt|, w, fed);
    forall slot: nat
      ensures SlotTraced(s, prompt, computed, w', slot)
    {
      WriteEffect(s, n, w.cells, a, fed, slot);
      assert SlotTraced(s, prompt, computed, w, slot);
      if p: nat :| a <= p < a + |fed| && Place(s, n, p) == slot {
        assert Reached(s, n, computed, w'.high, slot);
      } else {
        assert Reached(s, n, computed, w'.high, slot) <==> Reached(s, n, computed, w.high, slot);
      }
    }
  }

  /** Over every run each slot's content comes from the pull or from decoding. */
  lemma {:induction false} RunTraces(s: Spec, prompt: seq<Token>, computed: nat, w: Window, steps: seq<Step>)
    requires Sized(s) && Decoded(s, |prompt|, computed) && computed <= |w.stream| <= w.high && FitRing(s, steps)
    requires Traced(s, prompt, computed, w)
    ensures var r := Run(s, |prompt|, w, steps); |r.stream| <= r.high && Traced(s, prompt, computed, r)
    decreases |steps|
  {
    if steps != [] {
      StepTraces(s, prompt, computed, w, steps[0].fed);
      assert Traced(s, prompt, computed, Next(s, |prompt|, w, steps[0])) by {
        forall slot: nat
          ensures SlotTraced(s, prompt, computed, Next(s, |prompt|, w, steps[0]), slot)
        {
          assert SlotTraced(s, prompt, computed, AfterWrite(s, |prompt|, w, steps[0].fed), slot);
        }
      }
      RunTraces(s, prompt, computed, Next(s, |prompt|, w, steps[0]), steps[1..]);
    }
  }

  /** The unused end of the prompt's last block. */
  function UnusedTail(s: Spec, promptLen: nat): nat
    requires Sized(s)
  {
    CeilDivParts(promptLen, s.blockSize);
    PromptBlocks(s, promptLen) * s.blockSize - promptLen
  }

  /** The first position that decoding writes to a ring slot. */
  function FirstWrite(s: Spec, promptLen: nat, computed: nat, slot: nat): int
    requires Sized(s)
  {
    var p := promptLen + slot - Sink(s);
    if p - Recent(s) >= computed then p - Recent(s) else p
  }

  lemma ReachedFrom(s: Spec, promptLen: nat, computed: nat, slot: nat, high: nat)
    requires Sized(s) && !FitsWindow(s, promptLen) && CanStart(s, promptLen, computed)
    requires Sink(s) <= slot < Sink(s) + Recent(s)
    ensures Reached(s, promptLen, computed, high, slot) <==> FirstWrite(s, promptLen, computed, slot) < high
  {
    Sizes(s);
    var p := promptLen + slot - Sink(s);
    var first: nat := FirstWrite(s, promptLen, computed, slot);
    ModSmall(p - promptLen, Recent(s));
    ModShift(p - promptLen - Recent(s), Recent(s));
    assert Place(s, promptLen, first) == slot;
    forall q: nat | computed <= q < first
      ensures Place(s, promptLen, q) != slot
    {
      PlacesDistinct(s, promptLen, first, q);
    }
  }

  /** A ring slot holds nothing of the prompt exactly when it is in the unused tail. */
  lemma PulledRingSlot(s: Spec, prompt: seq<Token>, slot: nat)
    requires Sized(s) && !FitsWindow(s, |prompt|) && slot < Sink(s) + Recent(s)
    ensures 0 <= UnusedTail(s, |prompt|) < s.blockSize
    ensures slot in PulledCells(s, prompt) <==> slot < Sink(s) || slot < Sink(s) + Recent(s) - UnusedTail(s, |prompt|)
  {
    Sizes(s);
    PulledPositionIs(s, |prompt|, slot);
    CeilDivParts(|prompt|, s.blockSize);
    var blocks := PromptBlocks(s, |prompt|);
    assert (blocks - 1) * s.blockSize == blocks * s.blockSize - s.blockSize;
    assert (blocks - MaxBlocks(s)) * s.blockSize == blocks * s.blockSize - MaxBlocks(s) * s.blockSize;
  }

  /** When no ring slot is left over from an earlier owner of the blocks: the prompt ends on a
      block boundary, or the tokens computed again cover the unused tail, or `recent` tokens have
      been decoded since. */
  predicate RingIsFull(s: Spec, promptLen: nat, computed: nat, high: nat)
    requires Sized(s)
  {
    var tail := UnusedTail(s, promptLen);
    tail == 0 || (tail <= promptLen - computed && high >= promptLen) || high >= computed + Recent(s)
  }

  /** The slot has been filled by the pull or by decoding. */
  predicate SlotFull(s: Spec, promptLen: nat, computed: nat, high: nat, slot: nat)
    requires Sized(s)
  {
    slot < Sink(s) || slot < Sink(s) + Recent(s) - UnusedTail(s, promptLen)
      || FirstWrite(s, promptLen, computed, slot) < high
  }

  lemma TracedCells(s: Spec, prompt: seq<Token>, computed: nat, w: Window, slot: nat)
    requires Sized(s) && !FitsWindow(s, |prompt|) && CanStart(s, |prompt|, computed)
    requires Traced(s, prompt, computed, w) && slot < Sink(s) + Recent(s)
    ensures slot in w.cells <==> SlotFull(s, |prompt|, computed, w.high, slot)
  {
    PulledRingSlot(s, prompt, slot);
    if slot >= Sink(s) {
      ReachedFrom(s, |prompt|, computed, slot, w.high);
    } else {
      forall p: nat | computed <= p
        ensures Place(s, |prompt|, p) != slot
      {
        PlaceBounds(s, |prompt|, p);
      }
    }
    assert SlotTraced(s, prompt, computed, w, slot);
  }

  lemma CellsAfterRun(s: Spec, prompt: seq<Token>, computed: nat, steps: seq<Step>, slot: nat)
    requires Sized(s) && !FitsWindow(s, |prompt|) && CanStart(s, |prompt|, computed) && FitRing(s, steps)
    requires slot < Sink(s) + Recent(s)
    ensures var r := Run(s, |prompt|, Pulled(s, prompt, computed), steps);
            r.high >= computed && (slot in r.cells <==> SlotFull(s, |prompt|, computed, r.high, slot))
  {
    RunTraces(s, prompt, computed, Pulled(s, prompt, computed), steps);
    var r := Run(s, |prompt|, Pulled(s, prompt, computed), steps);
    TracedCells(s, prompt, computed, r, slot);
  }

  lemma TailBounds(s: Spec, promptLen: nat)
    requires Sized(s)
    ensures UnusedTail(s, promptLen) < s.blockSize <= Recent(s)
  {
    var b := s.blockSize;
    CeilDivParts(promptLen, b);
    Spread(PromptBlocks(s, promptLen), -1, b);
    Spread(s.recentBlocks - 1, 1, b);
    MulBound(s.recentBlocks - 1, b);
  }

  /** The slots of the unused tail are filled one after the other; the last to be filled decides. */
  lemma AllSlotsFull(s: Spec, promptLen: nat, computed: nat, high: nat)
    requires Sized(s) && !FitsWindow(s, promptLen) && CanStart(s, promptLen, computed) && computed <= high
    ensures (forall slot: nat :: slot < Sink(s) + Recent(s) ==> SlotFull(s, promptLen, computed, high, slot))
            <==> RingIsFull(s, promptLen, computed, high)
  {
    Sizes(s);
    TailBounds(s, promptLen);
    hide UnusedTail, PromptBlocks;
    var tail, again := UnusedTail(s, promptLen), promptLen - computed;
    if tail > 0 && !RingIsFull(s, promptLen, computed, high) {
      var slot: nat := Sink(s) + Recent(s) - 1 - (if tail > again then again else 0);
      assert !SlotFull(s, promptLen, computed, high, slot);
    }
  }

  /** The exact condition for long prompts, over every run. */
  lemma LongPromptRingFull(s: Spec, prompt: seq<Token>, computed: nat, steps: seq<Step>)
    requires Sized(s) && !FitsWindow(s, |prompt|) && CanStart(s, |prompt|, computed) && FitRing(s, steps)
    ensures var r := Run(s, |prompt|, Pulled(s, prompt, computed), steps);
            (forall slot: nat :: slot < Sink(s) + Recent(s) ==> slot in r.cells)
            <==> RingIsFull(s, |prompt|, computed, r.high)
  {
    var r := Run(s, |prompt|, Pulled(s, prompt, computed), steps);
    forall slot: nat | slot < Sink(s) + Recent(s)
      ensures slot in r.cells <==> SlotFull(s, |prompt|, computed, r.high, slot)
    {
      CellsAfterRun(s, prompt, computed, steps, slot);
    }
    Sizes(s);
    CellsAfterRun(s, prompt, computed, steps, 0);
    AllSlotsFull(s, |prompt|, computed, r.high);
  }

  /** A prompt of 17 tokens in a window of 16, with blocks of four: when decoding starts, some ring slot
      still holds what an earlier owner of the blocks left there. */
  lemma StaleSlotExample(prompt: seq<Token>)
    requires |prompt| == 17
    ensures var s := Spec(1, 3, 4);
            && !FitsWindow(s, 17) && CanStart(s, 17, 17)
            && exists slot: nat :: slot < Sink(s) + Recent(s) && slot !in Pulled(s, prompt, 17).cells
  {
    var s := Spec(1, 3, 4);
    assert !RingIsFull(s, 17, 17, 17);
    LongPromptRingFull(s, prompt, 17, []);
  }

  // ----- Where every accepted position is -----------------------------------------------------------

  /** The slot that position `q` of a long prompt is pulled into. */
  function PulledSlot(s: Spec, promptLen: nat, q: nat): int
    requires Sized(s)
  {
    Sink(s) + q + Recent(s) - promptLen - UnusedTail(s, promptLen)
  }

  /** A pulled ring slot of a long prompt: its position, and when decoding comes to it. */
  lemma PulledSlotIs(s: Spec, promptLen: nat, computed: nat, slot: nat)
    requires Sized(s) && !FitsWindow(s, promptLen) && CanStart(s, promptLen, computed)
    requires Sink(s) <= slot < Sink(s) + Recent(s)
    ensures var q := PulledPosition(s, promptLen, slot);
            && q >= Sink(s) && slot == PulledSlot(s, promptLen, q)
            && FirstWrite(s, promptLen, computed, slot) <= q + Recent(s) - UnusedTail(s, promptLen)
            && (q < computed ==> FirstWrite(s, promptLen, computed, slot) == q + Recent(s) - UnusedTail(s, promptLen))
  {
    Sizes(s);
    PulledPositionIs(s, promptLen, slot);
    CeilDivParts(promptLen, s.blockSize);
    assert (PromptBlocks(s, promptLen) - MaxBlocks(s)) * s.blockSize
        == PromptBlocks(s, promptLen) * s.blockSize - MaxBlocks(s) * s.blockSize;
  }

  lemma PulledSlotHolds(s: Spec, promptLen: nat, q: nat)
    requires Sized(s) && !FitsWindow(s, promptLen) && promptLen + UnusedTail(s, promptLen) - Recent(s) <= q < promptLen
    ensures Sink(s) <= PulledSlot(s, promptLen, q) < Sink(s) + Recent(s)
    ensures PulledPosition(s, promptLen, PulledSlot(s, promptLen, q)) == q
  {
    Sizes(s);
    CeilDivParts(promptLen, s.blockSize);
    PulledPositionIs(s, promptLen, PulledSlot(s, promptLen, q));
    assert (PromptBlocks(s, promptLen) - MaxBlocks(s)) * s.blockSize
        == PromptBlocks(s, promptLen) * s.blockSize - MaxBlocks(s) * s.blockSize;
  }

  /** Over every run a pulled ring position of a long prompt stays in its slot exactly as long as
      decoding has not come within `recent - tail` positions of it. */
  lemma PulledStaysExact(s: Spec, prompt: seq<Token>, computed: nat, steps: seq<Step>, q: nat)
    requires Sized(s) && !FitsWindow(s, |prompt|) && CanStart(s, |prompt|, computed) && FitRing(s, steps)
    requires |prompt| + UnusedTail(s, |prompt|) - Recent(s) <= q < computed
    ensures var r := Run(s, |prompt|, Pulled(s, prompt, computed), steps);
            var slot := PulledSlot(s, |prompt|, q);
            slot >= 0 && ((slot in r.cells && r.cells[slot] == Cell(q, prompt[q]))
                          <==> r.high <= q + Recent(s) - UnusedTail(s, |prompt|))
  {
    var n, r := |prompt|, Run(s, |prompt|, Pulled(s, prompt, computed), steps);
    RunTraces(s, prompt, computed, Pulled(s, prompt, computed), steps);
    PulledSlotHolds(s, n, q);
    var slot: nat := PulledSlot(s, n, q);
    PulledSlotIs(s, n, computed, slot);
    ReachedFrom(s, n, computed, slot, r.high);
    assert SlotTraced(s, prompt, computed, r, slot);
  }

  /** Accepted position `q` is in some slot. */
  ghost predicate InWindow(s: Spec, w: Window, q: nat)
    requires q < |w.stream|
  {
    exists slot: nat :: slot < Sink(s) + Recent(s) && slot in w.cells && w.cells[slot] == Cell(q, w.stream[q])
  }

  /** The slot where position `q` is looked for. */
  function Home(s: Spec, promptLen: nat, computed: nat, q: nat): int
    requires Sized(s)
  {
    if !FitsWindow(s, promptLen) && Sink(s) <= q < computed then PulledSlot(s, promptLen, q)
    else Place(s, promptLen, q)
  }

  ghost predicate AtHome(s: Spec, promptLen: nat, computed: nat, w: Window, q: nat)
    requires Sized(s) && q < |w.stream|
  {
    var slot := Home(s, promptLen, computed, q);
    0 <= slot < Sink(s) + Recent(s) && slot in w.cells && w.cells[slot] == Cell(q, w.stream[q])
  }

  /** The sinks, and the last `recent` positions below the high mark, are remembered; of the part of a
      long prompt that was pulled, the last `recent - tail`, and never more than was pulled. */
  predicate Remembered(s: Spec, promptLen: nat, computed: nat, high: nat, q: nat)
    requires Sized(s)
  {
    || q < Sink(s)
    || if FitsWindow(s, promptLen) || computed <= q then high <= q + Recent(s)
       else Max(promptLen, high) + UnusedTail(s, promptLen) <= q + Recent(s)
  }

  /** What the proofs below need to know of a window that decoding has led to. */
  ghost predicate Led(s: Spec, prompt: seq<Token>, computed: nat, w: Window)
    requires Sized(s)
  {
    && CanStart(s, |prompt|, computed) && Traced(s, prompt, computed, w)
    && Inv(s, |prompt|, w, FaithfulFrom(s, |prompt|, computed)) && prompt[..computed] <= w.stream
  }

  /** A position that is in the window and belongs to the promise of the invariant is in its place. */
  lemma FoundInPlace(s: Spec, prompt: seq<Token>, computed: nat, w: Window, q: nat, slot: nat)
    requires Sized(s) && Led(s, prompt, computed, w) && q < |w.stream|
    requires FitsWindow(s, |prompt|) || q < Sink(s) || computed <= q
    requires slot < Sink(s) + Recent(s) && slot in w.cells && w.cells[slot] == Cell(q, w.stream[q])
    ensures Kept(s, w, q)
  {
    var n := |prompt|;
    Sizes(s);
    assert SlotTraced(s, prompt, computed, w, slot);
    if Reached(s, n, computed, w.high, slot) {
      assert Holds(s, n, w, q);
    } else {
      assert q == PulledPosition(s, n, slot);
      PulledPositionIs(s, n, slot);
      if !FitsWindow(s, n) && slot >= Sink(s) {
        PulledSlotIs(s, n, computed, slot);
        ReachedFrom(s, n, computed, slot, w.high);
      } else {
        if q >= Sink(s) { ModSmall(q - Sink(s), Recent(s)); }
        assert Holds(s, n, w, q);
      }
    }
  }

  /** The same for the part of a long prompt that was pulled. */
  lemma FoundPulled(s: Spec, prompt: seq<Token>, computed: nat, w: Window, q: nat, slot: nat)
    requires Sized(s) && Led(s, prompt, computed, w) && !FitsWindow(s, |prompt|) && Sink(s) <= q < computed
    requires slot < Sink(s) + Recent(s) && slot in w.cells && w.cells[slot] == Cell(q, w.stream[q])
    ensures Remembered(s, |prompt|, computed, w.high, q)
  {
    var n := |prompt|;
    Sizes(s);
    assert SlotTraced(s, prompt, computed, w, slot);
    assert q == PulledPosition(s, n, slot);
    PulledPositionIs(s, n, slot);
    PulledSlotIs(s, n, computed, slot);
    ReachedFrom(s, n, computed, slot, w.high);
  }

  lemma InWindowExact(s: Spec, prompt: seq<Token>, computed: nat, w: Window, q: nat)
    requires Sized(s) && Led(s, prompt, computed, w) && q < |w.stream|
    ensures InWindow(s, w, q) <==> Remembered(s, |prompt|, computed, w.high, q)
    ensures AtHome(s, |prompt|, computed, w, q) <==> Remembered(s, |prompt|, computed, w.high, q)
  {
    var n := |prompt|;
    if slot: nat :| slot < Sink(s) + Recent(s) && slot in w.cells && w.cells[slot] == Cell(q, w.stream[q]) {
      if FitsWindow(s, n) || q < Sink(s) || computed <= q {
        FoundInPlace(s, prompt, computed, w, q, slot);
      } else {
        FoundPulled(s, prompt, computed, w, q, slot);
      }
    }
    if Remembered(s, n, computed, w.high, q) {
      if FitsWindow(s, n) || q < Sink(s) || computed <= q {
        PlaceBounds(s, n, q);
        assert Holds(s, n, w, q) <==> Kept(s, w, q);
      } else {
        PulledSlotHolds(s, n, q);
        var slot: nat := PulledSlot(s, n, q);
        PulledSlotIs(s, n, computed, slot);
        ReachedFrom(s, n, computed, slot, w.high);
        assert SlotTraced(s, prompt, computed, w, slot);
      }
    }
  }

  ghost predicate TokensInPlace(s: Spec, promptLen: nat, w: Window, from: nat, fed: seq<Token>)
    requires Sized(s)
  {
    forall p: nat :: from <= p < from + |fed| ==>
      var slot := Place(s, promptLen, p);
      slot in w.cells && w.cells[slot] == Cell(p, fed[p - from])
  }

  lemma LedAfterRun(s: Spec, prompt: seq<Token>, computed: nat, steps: seq<Step>, fed: seq<Token>)
    requires Sized(s) && CanStart(s, |prompt|, computed) && FitRing(s, steps) && |fed| <= Recent(s)
    ensures var r := Run(s, |prompt|, Pulled(s, prompt, computed), steps);
            Led(s, prompt, computed, AfterWrite(s, |prompt|, r, fed))
  {
    var w0, n, from := Pulled(s, prompt, computed), |prompt|, FaithfulFrom(s, |prompt|, computed);
    PulledInv(s, prompt, computed);
    RunKeepsInv(s, n, w0, steps, from);
    RunTraces(s, prompt, computed, w0, steps);
    var r := Run(s, n, w0, steps);
    StepTraces(s, prompt, computed, r, fed);
    StepKeepsInv(s, n, r, Step(fed, 0), from);
    assert AfterWrite(s, n, r, fed) == Next(s, n, r, Step(fed, 0));
  }

  /** The main result for steps of `t` tokens, over every run and every prompt: while the next step's
      tokens are in the window, in their places, exactly these accepted positions are in any slot, and
      then at home: the sinks, the last `recent - t`, and of a long prompt's pulled part only the
      last `recent - t - tail`, where `tail` is the unused end of the prompt's last block. */
  lemma WindowAfterRun(s: Spec, prompt: seq<Token>, computed: nat, steps: seq<Step>, t: nat, fed: seq<Token>)
    requires Sized(s) && CanStart(s, |prompt|, computed)
    requires 1 <= t <= Recent(s) && |fed| == t
    requires forall k :: 0 <= k < |steps| ==> 1 <= steps[k].kept <= |steps[k].fed| == t
    ensures var r := Run(s, |prompt|, Pulled(s, prompt, computed), steps);
            var w, a := AfterWrite(s, |prompt|, r, fed), |r.stream|;
            && TokensInPlace(s, |prompt|, w, a, fed)
            && (forall q: nat :: q < a ==>
                  && (InWindow(s, w, q) <==> Remembered(s, |prompt|, computed, a + t, q))
                  && (AtHome(s, |prompt|, computed, w, q) <==> Remembered(s, |prompt|, computed, a + t, q)))
  {
    Sizes(s);
    var w0, n := Pulled(s, prompt, computed), |prompt|;
    HighMark(s, n, w0, steps, t);
    LedAfterRun(s, prompt, computed, steps, fed);
    var r := Run(s, n, w0, steps);
    forall q: nat | q < |r.stream|
      ensures InWindow(s, AfterWrite(s, n, r, fed), q) <==> Remembered(s, n, computed, |r.stream| + t, q)
      ensures AtHome(s, n, computed, AfterWrite(s, n, r, fed), q) <==> Remembered(s, n, computed, |r.stream| + t, q)
    {
      InWindowExact(s, prompt, computed, AfterWrite(s, n, r, fed), q);
    }
    forall p: nat | |r.stream| <= p < |r.stream| + t
      ensures var cells := AfterWrite(s, n, r, fed).cells;
              Place(s, n, p) in cells && cells[Place(s, n, p)] == Cell(p, fed[p - |r.stream|])
    {
      StepOnNew(s, n, r, fed, p);
    }
  }

  /** A prompt of 17 tokens, with three recent blocks of four: the first decoded token overwrites position
      8, although it is among the last twelve; after a prompt that ends on a block boundary it would have
      stayed for three tokens more. */
  lemma EarlyLossExample(prompt: seq<Token>, token: Token)
    requires |prompt| == 17
    ensures var s := Spec(1, 3, 4);
            var before := Pulled(s, prompt, 17);
            var after := AfterWrite(s, 17, before, [token]);
            InWindow(s, before, 8) && !InWindow(s, after, 8) && Kept(s, after, 8)
  {
    var s := Spec(1, 3, 4);
    var before := Pulled(s, prompt, 17);
    LedAfterRun(s, prompt, 17, [], []);
    assert AfterWrite(s, 17, before, []) == before;
    InWindowExact(s, prompt, 17, before, 8);
    LedAfterRun(s, prompt, 17, [], [token]);
    InWindowExact(s, prompt, 17, AfterWrite(s, 17, before, [token]), 8);
  }

  /** Whatever the prompt length: no token decoded past the sink size goes to a sink slot, and
      `recent` consecutive ones go to different slots. */
  lemma DecodeSlots(s: Spec, promptLen: nat, p: nat, q: nat)
    requires Sized(s) && Sink(s) <= q < p < q + Recent(s) && Decoded(s, promptLen, q)
    ensures Sink(s) <= WindowPos(s, promptLen, q + 1) < Sink(s) + Recent(s)
    ensures WindowPos(s, promptLen, p + 1) != WindowPos(s, promptLen, q + 1)
  {
    WindowPosIsPlace(s, promptLen, p);
    WindowPosIsPlace(s, promptLen, q);
    PlaceBounds(s, promptLen, q);
    PlacesDistinct(s, promptLen, p, q);
  }
}

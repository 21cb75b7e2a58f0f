/** The per-step metadata of the windowed layers (omni/accelerators/cache/utils.py): slots, rotated
    block tables and visible lengths for several tokens per request.

    Attention reads a prefix of a block table.  The table is rotated so that the block being
    written comes last and the prefix ends with the newest token.
 */
module WindowMetadata {
  import opened Arith
  import opened SinkRecentWindow

  // ----- The rotation ------------------------------------------------------------------------

  /** By how many columns the block table of a request moves to the right. */
  function BlockShift(s: Spec, seqLen: int, lastPos: nat): int
    requires Sized(s)
  {
    if seqLen > Sink(s) + Recent(s) then MaxBlocks(s) - lastPos / s.blockSize - 1 else 0
  }

  function Rotate<T>(row: seq<T>, shift: int): (r: seq<T>)
    ensures |r| == |row|
  {
    seq(|row|, c requires 0 <= c < |row| => row[(c - shift) % |row|])
  }

  lemma RotateAt<T>(row: seq<T>, shift: int, b: nat)
    requires b < |row|
    ensures Rotate(row, shift)[(b + shift) % |row|] == row[b]
  {
    var n := |row|;
    var c := (b + shift) % n;
    var t := (b + shift) / n;
    assert b + shift == t * n + c;
    assert c - shift == -t * n + b;
    DivModUnique(c - shift, -t, n, b);
  }

  /** Rotating moves the last `shift` columns to the front. */
  lemma RotateCuts<T>(row: seq<T>, shift: nat)
    requires shift < |row|
    ensures Rotate(row, shift) == row[|row| - shift..] + row[..|row| - shift]
  {
    var n := |row|;
    forall c | 0 <= c < n
      ensures Rotate(row, shift)[c] == (row[n - shift..] + row[..n - shift])[c]
    {
      if c < shift {
        DivModUnique(c - shift, -1, n, c - shift + n);
      } else {
        DivModUnique(c - shift, 0, n, c - shift);
      }
    }
  }

  /** A rotated row has the same blocks. */
  lemma RotatePermutes<T>(row: seq<T>, shift: nat)
    requires shift < |row|
    ensures multiset(Rotate(row, shift)) == multiset(row)
  {
    RotateCuts(row, shift);
    hide Rotate;
    var cut := |row| - shift;
    assert row == row[..cut] + row[cut..];
  }

  /** Where window slot `w` is found in the rotated table. */
  function Logical(s: Spec, shift: int, w: nat): int
    requires Sized(s)
  {
    ((w / s.blockSize + shift) % MaxBlocks(s)) * s.blockSize + w % s.blockSize
  }

  /** The visible length for the last token of a step. */
  function LastLength(s: Spec, shift: int, lastPos: nat): int {
    shift * s.blockSize + lastPos + 1
  }

  /** The rotation and the visible length with which attention is called for the newest token of a step of
      `t` tokens.  With one token the table is not rotated and the sequence length is cut to the window. */
  function TableShift(s: Spec, t: nat, seqLen: int, lastPos: nat): int
    requires Sized(s)
  {
    if t == 1 then 0 else BlockShift(s, seqLen, lastPos)
  }

  function NewestLength(s: Spec, t: nat, seqLen: int, lastPos: nat): int
    requires Sized(s)
  {
    if t == 1 then (if seqLen < Sink(s) + Recent(s) then seqLen else Sink(s) + Recent(s))
    else LastLength(s, BlockShift(s, seqLen, lastPos), lastPos)
  }

  /** The newest of `seqLen` tokens reads the window slot. */
  predicate SlotSeen(s: Spec, promptLen: nat, t: nat, seqLen: nat, slot: nat)
    requires Sized(s) && seqLen > 0
  {
    PosIsNat(s, promptLen, seqLen - 1);
    var lastPos := WindowPos(s, promptLen, seqLen);
    Logical(s, TableShift(s, t, seqLen, lastPos), slot) < NewestLength(s, t, seqLen, lastPos)
  }

  lemma LogicalIs(s: Spec, shift: int, w: nat, turn: int)
    requires Sized(s) && 0 <= w / s.blockSize + shift - turn * MaxBlocks(s) < MaxBlocks(s)
    ensures Logical(s, shift, w) == w + shift * s.blockSize - turn * (Sink(s) + Recent(s))
  {
    var b, n := s.blockSize, MaxBlocks(s);
    var i := w / b + shift - turn * n;
    DivModUnique(w / b + shift, turn, n, i);
    Sizes(s);
    assert w == (w / b) * b + w % b;
    assert i * b == (w / b) * b + shift * b - (turn * n) * b;
    assert (turn * n) * b == turn * (n * b);
  }

  /** The last token of a full window is the end of what it sees; it sees every slot but those
      behind it in its own block. */
  lemma LastTokenSees(s: Spec, lastPos: nat, seqLen: int, w: nat)
    requires Sized(s) && seqLen > Sink(s) + Recent(s) && lastPos < Sink(s) + Recent(s) && w < Sink(s) + Recent(s)
    ensures var shift := BlockShift(s, seqLen, lastPos);
            && Logical(s, shift, lastPos) == LastLength(s, shift, lastPos) - 1
            && 0 <= shift < MaxBlocks(s)
            && (Logical(s, shift, w) < LastLength(s, shift, lastPos)
                <==> !(w / s.blockSize == lastPos / s.blockSize && w > lastPos))
  {
    Sizes(s);
    var b, n := s.blockSize, MaxBlocks(s);
    DivBound(w, b, n);
    DivBound(lastPos, b, n);
    var shift := BlockShift(s, seqLen, lastPos);
    LogicalIs(s, shift, lastPos, 0);
    var i := w / b + shift;
    var turn := if i >= n then 1 else 0;
    LogicalIs(s, shift, w, turn);
    BlockOrder(w, lastPos, b);
    if turn == 1 {
      assert n * b == Sink(s) + Recent(s);
    }
  }

  lemma BlockOrder(x: nat, y: nat, b: nat)
    requires b > 0
    ensures x / b < y / b ==> x < y
    ensures x / b > y / b ==> x > y
  {
    assert x == (x / b) * b + x % b && y == (y / b) * b + y % b;
    var d := x / b - y / b;
    assert (x / b) * b == (y / b) * b + d * b;
    MulBound(d, b);
  }

  // ----- Several tokens per request ------------------------------------------------------------

  /** The ring offset of the token `k` before the last one, whose own offset is `d`. */
  function RingOffset(s: Spec, d: nat, k: nat): int {
    if k <= d then d - k else d - k + Recent(s)
  }

  lemma TokensOnRing(s: Spec, promptLen: nat, seqLen: nat, k: nat)
    requires Sized(s) && seqLen > Sink(s) + Recent(s) && k < Recent(s)
    requires Decoded(s, promptLen, seqLen - 1 - k)
    ensures var d := WindowPos(s, promptLen, seqLen) - Sink(s);
            0 <= d < Recent(s) && WindowPos(s, promptLen, seqLen - k) == Sink(s) + RingOffset(s, d, k)
  {
    Sizes(s);
    WindowPosIsPlace(s, promptLen, seqLen - 1);
    WindowPosIsPlace(s, promptLen, seqLen - 1 - k);
    ModBack(seqLen - 1 - (if FitsWindow(s, promptLen) then Sink(s) else promptLen), k, Recent(s));
  }

  /** The place of the token `k` back in the rotated table of a full window. */
  lemma LogicalOnRing(s: Spec, seqLen: nat, d: nat, k: nat)
    requires Sized(s) && seqLen > Sink(s) + Recent(s) && d < Recent(s) && k < Recent(s)
    ensures var shift := BlockShift(s, seqLen, Sink(s) + d);
            var length := LastLength(s, shift, Sink(s) + d);
            var w := Sink(s) + RingOffset(s, d, k);
            && length == MaxBlocks(s) * s.blockSize - s.blockSize + d % s.blockSize + 1
            && Logical(s, shift, w) ==
                 if k <= d then length - 1 - k
                 else if EarlierBlock(s, d, k) then length - 1 - k - Sink(s)
                 else length - 1 - k + Recent(s)
  {
    Sizes(s);
    var b, n, m := s.blockSize, MaxBlocks(s), Recent(s);
    var shift := BlockShift(s, seqLen, Sink(s) + d);
    var o := RingOffset(s, d, k);
    SinkShift(s, d);
    SinkShift(s, o);
    DivBound(d, b, s.recentBlocks);
    DivBound(o, b, s.recentBlocks);
    assert shift * b == s.recentBlocks * b - b - (d / b) * b;
    assert d == (d / b) * b + d % b;
    BlockOrder(d, o, b);
    if k > d && EarlierBlock(s, d, k) {
      LogicalIs(s, shift, Sink(s) + o, 1);
    } else {
      LogicalIs(s, shift, Sink(s) + o, 0);
    }
  }

  /** A token written before the ring wrapped lies in a later ring block than the last token's. */
  predicate EarlierBlock(s: Spec, d: nat, k: nat)
    requires Sized(s)
  {
    (d - k + Recent(s)) / s.blockSize > d / s.blockSize
  }

  lemma SinkShift(s: Spec, o: nat)
    requires Sized(s)
    ensures (Sink(s) + o) / s.blockSize == s.sinkBlocks + o / s.blockSize
    ensures (Sink(s) + o) % s.blockSize == o % s.blockSize
  {
    var b := s.blockSize;
    assert o == (o / b) * b + o % b;
    assert (s.sinkBlocks + o / b) * b == Sink(s) + (o / b) * b;
    DivModUnique(Sink(s) + o, s.sinkBlocks + o / b, b, o % b);
  }

  /** In a step of several tokens: token `k` back sees the place of token `j` back, with the table and lengths
      of the step. */
  predicate Sees(s: Spec, promptLen: nat, seqLen: nat, k: nat, j: nat)
    requires Sized(s) && j < seqLen
  {
    PosIsNat(s, promptLen, seqLen - 1);
    PosIsNat(s, promptLen, seqLen - 1 - j);
    var lastPos := WindowPos(s, promptLen, seqLen);
    var shift := BlockShift(s, seqLen, lastPos);
    Logical(s, shift, WindowPos(s, promptLen, seqLen - j)) < LastLength(s, shift, lastPos) - k
  }

  /** The ring offset of the newest token. */
  function NewestOffset(s: Spec, promptLen: nat, seqLen: nat): int
    requires Sized(s)
  {
    WindowPos(s, promptLen, seqLen) - Sink(s)
  }

  /** Exactly what one token of a step sees of another once the window is full. */
  lemma SeesExact(s: Spec, promptLen: nat, seqLen: nat, k: nat, j: nat)
    requires Sized(s) && seqLen > Sink(s) + Recent(s) && k < Recent(s) && j < Recent(s)
    requires Decoded(s, promptLen, seqLen - 1 - j)
    ensures var d := NewestOffset(s, promptLen, seqLen);
            && d >= 0
            && (Sees(s, promptLen, seqLen, k, j) <==>
                  if j <= d then k <= j
                  else EarlierBlock(s, d, j) && k <= j + Sink(s))
  {
    Sizes(s);
    TokensOnRing(s, promptLen, seqLen, 0);
    TokensOnRing(s, promptLen, seqLen, j);
    LogicalOnRing(s, seqLen, NewestOffset(s, promptLen, seqLen), j);
  }

  /** How far back the blocks later than the newest token's block reach. */
  lemma EarlierBlockIs(s: Spec, d: nat, k: nat)
    requires Sized(s) && d < Recent(s) && k < Recent(s)
    ensures d <= Recent(s) - s.blockSize + d % s.blockSize
    ensures k > d ==> (EarlierBlock(s, d, k) <==> k <= Recent(s) - s.blockSize + d % s.blockSize)
  {
    var b := s.blockSize;
    var block := d / b;
    assert d == block * b + d % b;
    DivBound(d, b, s.recentBlocks);
    Spread(block, s.recentBlocks - 1 - block, b);
    Spread(s.recentBlocks - 1, 1, b);
    Spread(block, 1, b);
    MulBound(s.recentBlocks - 1 - block, b);
    if k > d { DivBelow(d - k + Recent(s), b, block + 1); }
  }

  /** A ring slot is in the visible part for the newest token exactly up to a distance that depends on
      how far the newest token's block is filled. */
  lemma SlotSeenExact(s: Spec, seqLen: nat, d: nat, k: nat)
    requires Sized(s) && seqLen > Sink(s) + Recent(s) && d < Recent(s) && k < Recent(s)
    ensures var shift := BlockShift(s, seqLen, Sink(s) + d);
            Logical(s, shift, Sink(s) + RingOffset(s, d, k)) < LastLength(s, shift, Sink(s) + d)
            <==> k <= Recent(s) - s.blockSize + d % s.blockSize
  {
    LogicalOnRing(s, seqLen, d, k);
    EarlierBlockIs(s, d, k);
    hide EarlierBlock, Logical, LastLength, BlockShift;
  }

  /** In positions of the sequence: the newest token of a full window sees position `q` of the decoded ring
      exactly if it is near enough. */
  lemma NewestSeesExact(s: Spec, promptLen: nat, seqLen: nat, q: nat)
    requires Sized(s) && seqLen > Sink(s) + Recent(s) && Sink(s) <= q < seqLen <= q + Recent(s)
    requires Decoded(s, promptLen, q)
    ensures var d := NewestOffset(s, promptLen, seqLen);
            && 0 <= d < Recent(s)
            && (Sees(s, promptLen, seqLen, 0, seqLen - 1 - q)
                <==> seqLen - 1 - q <= Recent(s) - s.blockSize + d % s.blockSize)
  {
    Sizes(s);
    TokensOnRing(s, promptLen, seqLen, 0);
    TokensOnRing(s, promptLen, seqLen, seqLen - 1 - q);
    SlotSeenExact(s, seqLen, NewestOffset(s, promptLen, seqLen), seqLen - 1 - q);
  }

  /** Before the window is full the table is not rotated and a token sees up to itself. */
  lemma SeesUnrotated(s: Spec, promptLen: nat, seqLen: nat, k: nat, j: nat)
    requires Sized(s) && seqLen <= Sink(s) + Recent(s) && j < seqLen
    ensures Sees(s, promptLen, seqLen, k, j) <==> k <= j
  {
    Sizes(s);
    var w := WindowPos(s, promptLen, seqLen - j);
    DivBound(w, s.blockSize, MaxBlocks(s));
    LogicalIs(s, 0, w, 0);
  }

  // ----- The context that attention uses ---------------------------------------------------------

  /** One token per step: every slot below the sequence length is read, in a full window all of them. */
  lemma OneTokenSees(s: Spec, promptLen: nat, seqLen: nat, slot: nat)
    requires Sized(s) && seqLen > 0 && slot < Sink(s) + Recent(s)
    ensures SlotSeen(s, promptLen, 1, seqLen, slot) <==> slot < seqLen
  {
    Sizes(s);
    DivBound(slot, s.blockSize, MaxBlocks(s));
    LogicalIs(s, 0, slot, 0);
  }

  /** Accepted position `q` is at home in a slot that the newest of `seqLen` tokens reads. */
  ghost predicate Attended(s: Spec, promptLen: nat, computed: nat, w: Window, t: nat, seqLen: nat, q: nat)
    requires Sized(s) && q < |w.stream| && seqLen > 0
  {
    AtHome(s, promptLen, computed, w, q) && SlotSeen(s, promptLen, t, seqLen, Home(s, promptLen, computed, q))
  }

  /** How much further back than it is a position counts: by the unused end of the prompt's last block for
      what a long prompt had pulled. */
  function Lag(s: Spec, promptLen: nat, computed: nat, q: nat): int
    requires Sized(s)
  {
    if FitsWindow(s, promptLen) || computed <= q then 0 else UnusedTail(s, promptLen)
  }

  predicate InContext(s: Spec, promptLen: nat, computed: nat, t: nat, seqLen: nat, q: nat)
    requires Sized(s)
  {
    if t == 1 then Remembered(s, promptLen, computed, seqLen, q)
    else
      || seqLen <= Sink(s) + Recent(s) || q < Sink(s)
      || (&& seqLen - 1 - q + Lag(s, promptLen, computed, q)
               <= Recent(s) - s.blockSize + NewestOffset(s, promptLen, seqLen) % s.blockSize
          && (FitsWindow(s, promptLen) || computed <= q || promptLen + UnusedTail(s, promptLen) <= q + Recent(s)))
  }

  ghost predicate ContextExact(s: Spec, promptLen: nat, computed: nat, w: Window, t: nat, seqLen: nat)
    requires Sized(s) && seqLen > 0
  {
    forall q: nat :: q < |w.stream| ==>
      (Attended(s, promptLen, computed, w, t, seqLen, q) <==> InContext(s, promptLen, computed, t, seqLen, q))
  }

  /** A remembered ring position is as far round the ring from the newest token as it is back in the
      sequence, and further by its lag. */
  lemma HomeOnRing(s: Spec, promptLen: nat, computed: nat, seqLen: nat, q: nat)
    requires Sized(s) && CanStart(s, promptLen, computed) && seqLen > Sink(s) + Recent(s)
    requires computed < seqLen && Sink(s) <= q < seqLen && Remembered(s, promptLen, computed, seqLen, q)
    ensures var d, k := NewestOffset(s, promptLen, seqLen), seqLen - 1 - q + Lag(s, promptLen, computed, q);
            0 <= d < Recent(s) && 0 <= k < Recent(s) && Home(s, promptLen, computed, q) == Sink(s) + RingOffset(s, d, k)
  {
    Sizes(s);
    var k := seqLen - 1 - q + Lag(s, promptLen, computed, q);
    TokensOnRing(s, promptLen, seqLen, 0);
    if FitsWindow(s, promptLen) || computed <= q {
      TokensOnRing(s, promptLen, seqLen, k);
      WindowPosIsPlace(s, promptLen, q);
    } else {
      var tail := UnusedTail(s, promptLen);
      PulledSlotHolds(s, promptLen, q);
      WindowPosIsPlace(s, promptLen, seqLen - 1);
      ModBack(seqLen - 1 - promptLen, k, Recent(s));
      ModShift(q - tail - promptLen, Recent(s));
      ModSmall(q - tail - promptLen + Recent(s), Recent(s));
    }
  }

  lemma AttendedExact(s: Spec, prompt: seq<Token>, computed: nat, w: Window, t: nat, seqLen: nat, q: nat)
    requires Sized(s) && Led(s, prompt, computed, w) && computed <= |w.stream| < seqLen == w.high
    requires q < |w.stream| && t > 1
    ensures Attended(s, |prompt|, computed, w, t, seqLen, q) <==> InContext(s, |prompt|, computed, t, seqLen, q)
  {
    var n := |prompt|;
    Sizes(s);
    InWindowExact(s, prompt, computed, w, q);
    if seqLen <= Sink(s) + Recent(s) {
      if q >= Sink(s) { ModSmall(q - Sink(s), Recent(s)); }
      DivBound(q, s.blockSize, MaxBlocks(s));
      LogicalIs(s, 0, q, 0);
      return;
    }
    TokensOnRing(s, n, seqLen, 0);
    if q < Sink(s) {
      LastTokenSees(s, WindowPos(s, n, seqLen), seqLen, q);
      SinkShift(s, NewestOffset(s, n, seqLen));
      DivBelow(q, s.blockSize, s.sinkBlocks);
    } else {
      var d, k := NewestOffset(s, n, seqLen), seqLen - 1 - q + Lag(s, n, computed, q);
      if Remembered(s, n, computed, seqLen, q) {
        HomeOnRing(s, n, computed, seqLen, q);
        SlotSeenExact(s, seqLen, d, k);
      } else {
        assert d % s.blockSize < s.blockSize;
      }
    }
  }

  lemma OneTokenAttends(s: Spec, prompt: seq<Token>, computed: nat, w: Window, seqLen: nat, q: nat)
    requires Sized(s) && Led(s, prompt, computed, w) && computed <= |w.stream| < seqLen == w.high
    requires q < |w.stream|
    ensures Attended(s, |prompt|, computed, w, 1, seqLen, q) <==> InContext(s, |prompt|, computed, 1, seqLen, q)
  {
    var n := |prompt|;
    Sizes(s);
    InWindowExact(s, prompt, computed, w, q);
    if AtHome(s, n, computed, w, q) {
      OneTokenSees(s, n, seqLen, Home(s, n, computed, q));
      if seqLen <= Sink(s) + Recent(s) && q >= Sink(s) { ModSmall(q - Sink(s), Recent(s)); }
    }
  }

  lemma LedToNext(s: Spec, prompt: seq<Token>, computed: nat, steps: seq<Step>, t: nat, fed: seq<Token>)
    requires Sized(s) && CanStart(s, |prompt|, computed)
    requires 1 <= t <= Recent(s) && |fed| == t
    requires forall k :: 0 <= k < |steps| ==> 1 <= steps[k].kept <= |steps[k].fed| == t
    ensures var r := Run(s, |prompt|, Pulled(s, prompt, computed), steps);
            var w := AfterWrite(s, |prompt|, r, fed);
            Led(s, prompt, computed, w) && computed <= |w.stream| == |r.stream| && w.high == |r.stream| + t
  {
    HighMark(s, |prompt|, Pulled(s, prompt, computed), steps, t);
    LedAfterRun(s, prompt, computed, steps, fed);
  }

  /** Runs, window and metadata together: after any run the newest token of the next step attends to every
      accepted position until the window is full.  From then on, in steps of one token, to exactly what
      the window remembers; in longer steps, to exactly the sinks and the positions that are near enough,
      of a long prompt's pulled part only those nearer by the unused end of its last block. */
  lemma ContextAfterRun(s: Spec, prompt: seq<Token>, computed: nat, steps: seq<Step>, t: nat, fed: seq<Token>)
    requires Sized(s) && CanStart(s, |prompt|, computed)
    requires 1 <= t <= Recent(s) && |fed| == t
    requires forall k :: 0 <= k < |steps| ==> 1 <= steps[k].kept <= |steps[k].fed| == t
    ensures var r := Run(s, |prompt|, Pulled(s, prompt, computed), steps);
            var w, a := AfterWrite(s, |prompt|, r, fed), |r.stream|;
            ContextExact(s, |prompt|, computed, w, t, a + t)
  {
    LedToNext(s, prompt, computed, steps, t, fed);
    var n, r := |prompt|, Run(s, |prompt|, Pulled(s, prompt, computed), steps);
    var w, seqLen := AfterWrite(s, n, r, fed), |r.stream| + t;
    forall q: nat | q < |w.stream|
      ensures Attended(s, n, computed, w, t, seqLen, q) <==> InContext(s, n, computed, t, seqLen, q)
    {
      if t == 1 {
        OneTokenAttends(s, prompt, computed, w, seqLen, q);
      } else {
        AttendedExact(s, prompt, computed, w, t, seqLen, q);
      }
    }
  }

  /** A prompt of 16 tokens and one or two more: position 6 is in the window both times; one token attends to
      it, the newer of two does not. */
  lemma OneTokenSeesMoreExample(prompt: seq<Token>, fed: seq<Token>)
    requires |prompt| == 16 && 1 <= |fed| <= 2
    ensures var s := Spec(1, 3, 4);
            var w := AfterWrite(s, 16, Pulled(s, prompt, 16), fed);
            AtHome(s, 16, 16, w, 6) && (Attended(s, 16, 16, w, |fed|, 16 + |fed|, 6) <==> |fed| == 1)
  {
    var s, t, none: seq<Step> := Spec(1, 3, 4), |fed|, [];
    LedToNext(s, prompt, 16, none, t, fed);
    ContextAfterRun(s, prompt, 16, none, t, fed);
    var w := AfterWrite(s, 16, Pulled(s, prompt, 16), fed);
    InWindowExact(s, prompt, 16, w, 6);
    assert Attended(s, 16, 16, w, t, 16 + t, 6) <==> InContext(s, 16, 16, t, 16 + t, 6);
  }

  // ----- Slots that nothing was written to ----------------------------------------------------------

  /** In a full window a slot is read unless it is behind the newest token in its block, in steps of several
      tokens. */
  lemma SlotSeenFull(s: Spec, promptLen: nat, t: nat, seqLen: nat, slot: nat)
    requires Sized(s) && seqLen > Sink(s) + Recent(s) && Decoded(s, promptLen, seqLen - 1) && slot < Sink(s) + Recent(s)
    ensures var last := Sink(s) + NewestOffset(s, promptLen, seqLen);
            last >= 0 && (SlotSeen(s, promptLen, t, seqLen, slot)
                          <==> t == 1 || !(slot / s.blockSize == last / s.blockSize && slot > last))
  {
    PosIsNat(s, promptLen, seqLen - 1);
    if t == 1 {
      OneTokenSees(s, promptLen, seqLen, slot);
    } else {
      LastTokenSees(s, WindowPos(s, promptLen, seqLen), seqLen, slot);
    }
  }

  /** After any run from a long prompt: exactly which slots the newest token reads although nothing was
      pulled or written there. */
  lemma UnfilledSeenExact(s: Spec, prompt: seq<Token>, computed: nat, steps: seq<Step>, t: nat, fed: seq<Token>,
                          slot: nat)
    requires Sized(s) && !FitsWindow(s, |prompt|) && CanStart(s, |prompt|, computed)
    requires 1 <= t <= Recent(s) && |fed| == t && slot < Sink(s) + Recent(s)
    requires forall k :: 0 <= k < |steps| ==> 1 <= steps[k].kept <= |steps[k].fed| == t
    ensures var r := Run(s, |prompt|, Pulled(s, prompt, computed), steps);
            var w, seqLen := AfterWrite(s, |prompt|, r, fed), |r.stream| + t;
            var last := Sink(s) + NewestOffset(s, |prompt|, seqLen);
            last >= 0 && (slot !in w.cells && SlotSeen(s, |prompt|, t, seqLen, slot)
                          <==> && Sink(s) + Recent(s) - UnusedTail(s, |prompt|) <= slot
                               && seqLen <= FirstWrite(s, |prompt|, computed, slot)
                               && (t == 1 || !(slot / s.blockSize == last / s.blockSize && slot > last)))
  {
    LedToNext(s, prompt, computed, steps, t, fed);
    var n, r := |prompt|, Run(s, |prompt|, Pulled(s, prompt, computed), steps);
    var w, seqLen := AfterWrite(s, n, r, fed), |r.stream| + t;
    TracedCells(s, prompt, computed, w, slot);
    SlotSeenFull(s, n, t, seqLen, slot);
    TailBounds(s, n);
    hide SlotSeen, NewestOffset, FirstWrite, UnusedTail, Led;
  }

  /** A prompt of 17 tokens, with three recent blocks of four: in the first step, of one or two tokens, slot 13
      is read, and nothing has been written to it. */
  lemma UnfilledSeenExample(prompt: seq<Token>, fed: seq<Token>)
    requires |prompt| == 17 && 1 <= |fed| <= 2
    ensures var s := Spec(1, 3, 4);
            var w := AfterWrite(s, 17, Pulled(s, prompt, 17), fed);
            13 !in w.cells && SlotSeen(s, 17, |fed|, 17 + |fed|, 13)
  {
    hide SlotSeen;
    UnfilledSeenExact(Spec(1, 3, 4), prompt, 17, [], |fed|, fed, 13);
  }

  // ----- Several tokens in a step ------------------------------------------------------------------

  lemma EnoughRecentBlocks(s: Spec, d: nat, j: nat)
    requires Sized(s) && d < j && j + s.blockSize <= Recent(s)
    ensures EarlierBlock(s, d, j)
  {
    var b := s.blockSize;
    var o := d - j + Recent(s);
    assert d == (d / b) * b + d % b;
    assert (d / b + 1) * b == (d / b) * b + b;
    DivBelow(o, b, d / b + 1);
  }

  lemma TwoRecentBlocks(s: Spec)
    requires Sized(s) && s.recentBlocks >= 2
    ensures Recent(s) >= s.blockSize + 1 && Recent(s) >= 2
  {
    assert Recent(s) == 2 * s.blockSize + (s.recentBlocks - 2) * s.blockSize;
  }

  /** The older token of a two-token step, also when the ring wraps between the two. */
  lemma OlderTokenSeen(s: Spec, promptLen: nat, seqLen: nat, k: nat)
    requires Sized(s) && s.recentBlocks >= 2 && seqLen >= 2 && Decoded(s, promptLen, seqLen - 2) && k <= 1
    ensures Sees(s, promptLen, seqLen, k, 1)
  {
    if seqLen > Sink(s) + Recent(s) {
      TwoRecentBlocks(s);
      SeesExact(s, promptLen, seqLen, k, 1);
      var d := NewestOffset(s, promptLen, seqLen);
      if d == 0 { EnoughRecentBlocks(s, 0, 1); }
    } else {
      SeesUnrotated(s, promptLen, seqLen, k, 1);
    }
  }

  lemma NewerTokenSeen(s: Spec, promptLen: nat, seqLen: nat, k: nat)
    requires Sized(s) && seqLen >= 1 && Decoded(s, promptLen, seqLen - 1) && k < Recent(s)
    ensures Sees(s, promptLen, seqLen, k, 0) <==> k == 0
  {
    Sizes(s);
    if seqLen > Sink(s) + Recent(s) {
      SeesExact(s, promptLen, seqLen, k, 0);
    } else {
      SeesUnrotated(s, promptLen, seqLen, k, 0);
    }
  }

  /** Steps of two tokens with at least two recent blocks: each token sees itself and the newer one
      sees the older one, never the other way round. */
  lemma TwoTokensCausal(s: Spec, promptLen: nat, seqLen: nat)
    requires Sized(s) && s.recentBlocks >= 2 && seqLen >= 2 && Decoded(s, promptLen, seqLen - 2)
    ensures Sees(s, promptLen, seqLen, 0, 0) && Sees(s, promptLen, seqLen, 1, 1)
    ensures Sees(s, promptLen, seqLen, 0, 1) && !Sees(s, promptLen, seqLen, 1, 0)
  {
    TwoRecentBlocks(s);
    OlderTokenSeen(s, promptLen, seqLen, 0);
    OlderTokenSeen(s, promptLen, seqLen, 1);
    NewerTokenSeen(s, promptLen, seqLen, 0);
    NewerTokenSeen(s, promptLen, seqLen, 1);
  }

  /** The further back a token is, the less likely it is in a later block than the newest one. */
  lemma EarlierBlockAntitone(s: Spec, d: nat, i: nat, j: nat)
    requires Sized(s) && i <= j && EarlierBlock(s, d, j)
    ensures EarlierBlock(s, d, i)
  {
    var b := s.blockSize;
    var x, y := d - j + Recent(s), d - i + Recent(s);
    if y / b < x / b {
      MulAtLeast(x / b - y / b, b);
      Spread(y / b, x / b - y / b, b);
      DivParts(x, b);
      DivParts(y, b);
    }
  }

  /** The last token before the wrap lies in a later block unless the newest one is in the last. */
  lemma EarlierBlockAtWrap(s: Spec, d: nat)
    requires Sized(s) && d < Recent(s)
    ensures EarlierBlock(s, d, d + 1) <==> d / s.blockSize != s.recentBlocks - 1
  {
    var b := s.blockSize;
    Spread(s.recentBlocks - 1, 1, b);
    DivModUnique(Recent(s) - 1, s.recentBlocks - 1, b, b - 1);
    DivBound(d, b, s.recentBlocks);
  }

  /** A step of `t` tokens in a full window.  No token sees a later one exactly when at most one token
      lies before the wrap, or there is no sink block, or the newest token is in the last ring block.
      Every token sees itself exactly when the ring does not wrap inside the step, or its oldest token
      lies in a later block than the newest. */
  lemma CausalExact(s: Spec, promptLen: nat, seqLen: nat, t: nat)
    requires Sized(s) && seqLen > Sink(s) + Recent(s) && 1 <= t <= Recent(s) && Decoded(s, promptLen, seqLen - t)
    ensures var d := NewestOffset(s, promptLen, seqLen);
            && 0 <= d < Recent(s)
            && ((forall k, j :: 0 <= j < k < t ==> !Sees(s, promptLen, seqLen, k, j))
                <==> t <= d + 2 || s.sinkBlocks == 0 || d / s.blockSize == s.recentBlocks - 1)
            && ((forall k :: 0 <= k < t ==> Sees(s, promptLen, seqLen, k, k))
                <==> t <= d + 1 || EarlierBlock(s, d, t - 1))
  {
    Sizes(s);
    TokensOnRing(s, promptLen, seqLen, 0);
    var d := NewestOffset(s, promptLen, seqLen);
    EarlierBlockAtWrap(s, d);
    forall k: nat, j: nat | j <= k < t
      ensures Sees(s, promptLen, seqLen, k, j) <==>
              if j <= d then k == j else EarlierBlock(s, d, j) && k <= j + Sink(s)
    {
      SeesExact(s, promptLen, seqLen, k, j);
    }
    SinkIsPositive(s);
    LaterTokensUnseen(s, promptLen, seqLen, t, d);
    SelfSeen(s, promptLen, seqLen, t, d);
  }

  lemma SinkIsPositive(s: Spec)
    requires Sized(s)
    ensures Sink(s) > 0 <==> s.sinkBlocks > 0
  {
    if s.sinkBlocks > 0 { MulAtLeast(s.sinkBlocks, s.blockSize); }
  }

  /** `Sees` among the tokens of a step of `t`, as `SeesExact` gives it. */
  ghost predicate SeesOnRing(s: Spec, promptLen: nat, seqLen: nat, t: nat, d: nat)
    requires Sized(s) && t <= seqLen
  {
    forall k: nat, j: nat :: j <= k < t ==>
      (Sees(s, promptLen, seqLen, k, j) <==> if j <= d then k == j else EarlierBlock(s, d, j) && k <= j + Sink(s))
  }

  lemma LaterTokensUnseen(s: Spec, promptLen: nat, seqLen: nat, t: nat, d: nat)
    requires Sized(s) && t <= seqLen && SeesOnRing(s, promptLen, seqLen, t, d)
    requires EarlierBlock(s, d, d + 1) <==> d / s.blockSize != s.recentBlocks - 1
    requires Sink(s) > 0 <==> s.sinkBlocks > 0
    ensures (forall k, j :: 0 <= j < k < t ==> !Sees(s, promptLen, seqLen, k, j))
            <==> t <= d + 2 || s.sinkBlocks == 0 || d / s.blockSize == s.recentBlocks - 1
  {
    hide Sees, EarlierBlock;
    if t <= d + 2 || s.sinkBlocks == 0 || d / s.blockSize == s.recentBlocks - 1 {
      forall k, j | 0 <= j < k < t ensures !Sees(s, promptLen, seqLen, k, j) {
        if j > d && EarlierBlock(s, d, j) { EarlierBlockAntitone(s, d, d + 1, j); }
      }
    } else {
      assert Sees(s, promptLen, seqLen, d + 2, d + 1);
    }
  }

  lemma SelfSeen(s: Spec, promptLen: nat, seqLen: nat, t: nat, d: nat)
    requires Sized(s) && 1 <= t <= seqLen && SeesOnRing(s, promptLen, seqLen, t, d)
    ensures (forall k :: 0 <= k < t ==> Sees(s, promptLen, seqLen, k, k)) <==> t <= d + 1 || EarlierBlock(s, d, t - 1)
  {
    hide Sees, EarlierBlock;
    if t <= d + 1 || EarlierBlock(s, d, t - 1) {
      forall k | 0 <= k < t ensures Sees(s, promptLen, seqLen, k, k) {
        if k > d { EarlierBlockAntitone(s, d, k, t - 1); }
      }
    } else {
      assert Sees(s, promptLen, seqLen, t - 1, t - 1) <==> EarlierBlock(s, d, t - 1);
    }
  }

  /** Three tokens around a wrap: the oldest sees the one after it. */
  lemma LaterTokenSeenExample()
    ensures var s := Spec(1, 3, 4); Decoded(s, 16, 14) && Sees(s, 16, 17, 2, 1)
  {
    hide Sees;
    SeesExact(Spec(1, 3, 4), 16, 17, 2, 1);
  }

  /** Two tokens around a wrap with one recent block: the older one does not see itself. */
  lemma SelfUnseenExample()
    ensures var s := Spec(1, 1, 4); Decoded(s, 4, 7) && !Sees(s, 4, 9, 1, 1)
  {
    hide Sees;
    SeesExact(Spec(1, 1, 4), 4, 9, 1, 1);
  }

  // ----- The buffers ---------------------------------------------------------------------------

  /** The block and offset of a window position, as a slot of the cache. */
  function PhysicalSlot(s: Spec, row: seq<nat>, pos: nat): nat
    requires Sized(s) && |row| == MaxBlocks(s) && pos < Sink(s) + Recent(s)
  {
    Sizes(s);
    DivBound(pos, s.blockSize, MaxBlocks(s));
    row[pos / s.blockSize] * s.blockSize + pos % s.blockSize
  }

  /** Different window positions, and positions of requests that share no block, have different
      slots. */
  lemma PhysicalSlotsDistinct(s: Spec, row: seq<nat>, row': seq<nat>, pos: nat, pos': nat)
    requires Sized(s) && |row| == |row'| == MaxBlocks(s)
    requires pos < Sink(s) + Recent(s) && pos' < Sink(s) + Recent(s)
    requires if row == row' then pos != pos' && forall i, j :: 0 <= i < j < |row| ==> row[i] != row[j]
             else forall b :: b in row ==> b !in row'
    ensures PhysicalSlot(s, row, pos) != PhysicalSlot(s, row', pos')
  {
    Sizes(s);
    var b := s.blockSize;
    DivBound(pos, b, MaxBlocks(s));
    DivBound(pos', b, MaxBlocks(s));
    RowSplit(row[pos / b], pos % b, b);
    RowSplit(row'[pos' / b], pos' % b, b);
    assert pos == (pos / b) * b + pos % b && pos' == (pos' / b) * b + pos' % b;
    assert row[pos / b] in row && row'[pos' / b] in row';
  }

  /** The inputs for `|rows|` requests with `t` tokens each. */
  datatype Batch = Batch(rows: seq<seq<nat>>, promptLens: seq<nat>, seqLens: seq<nat>, t: nat)

  ghost predicate WellFormed(s: Spec, batch: Batch) {
    && Sized(s) && batch.t > 0 && |batch.promptLens| == |batch.seqLens| == |batch.rows|
    && forall r :: 0 <= r < |batch.rows| ==>
         |batch.rows[r]| == MaxBlocks(s) && batch.seqLens[r] >= batch.t
  }

  /** The window position of token `i` of the batch. */
  function TokenPos(s: Spec, batch: Batch, r: nat, spec: nat): nat
    requires WellFormed(s, batch) && r < |batch.rows| && spec < batch.t
  {
    var len := batch.seqLens[r] + spec + 1 - batch.t;
    PosIsNat(s, batch.promptLens[r], len - 1);
    WindowPos(s, batch.promptLens[r], len)
  }

  lemma TokenPosBound(s: Spec, batch: Batch, r: nat, spec: nat)
    requires WellFormed(s, batch) && r < |batch.rows| && spec < batch.t
    ensures TokenPos(s, batch, r, spec) < Sink(s) + Recent(s)
  {
    PosIsNat(s, batch.promptLens[r], batch.seqLens[r] + spec - batch.t);
  }

  function TokenSlot(s: Spec, batch: Batch, r: nat, spec: nat): nat
    requires WellFormed(s, batch) && r < |batch.rows| && spec < batch.t
  {
    TokenPosBound(s, batch, r, spec);
    PhysicalSlot(s, batch.rows[r], TokenPos(s, batch, r, spec))
  }

  function RequestShift(s: Spec, batch: Batch, r: nat): int
    requires WellFormed(s, batch) && r < |batch.rows|
  {
    BlockShift(s, batch.seqLens[r], TokenPos(s, batch, r, batch.t - 1))
  }

  function TokenLength(s: Spec, batch: Batch, r: nat, spec: nat): int
    requires WellFormed(s, batch) && r < |batch.rows| && spec < batch.t
  {
    LastLength(s, RequestShift(s, batch, r), TokenPos(s, batch, r, batch.t - 1)) + spec + 1 - batch.t
  }

  /** The slots of the batch, padded with -1. */
  ghost predicate SlotsFor(s: Spec, batch: Batch, slots: seq<int>)
    requires WellFormed(s, batch)
  {
    forall i :: 0 <= i < |slots| ==>
      slots[i] == if i / batch.t < |batch.rows| then TokenSlot(s, batch, i / batch.t, i % batch.t) else -1
  }

  /** The visible lengths of the batch, padded with 0. */
  ghost predicate LengthsFor(s: Spec, batch: Batch, lengths: seq<int>)
    requires WellFormed(s, batch)
  {
    forall i :: 0 <= i < |lengths| ==>
      lengths[i] == if i / batch.t < |batch.rows| then TokenLength(s, batch, i / batch.t, i % batch.t) else 0
  }

  /** Entry (i, c) of the padded table: the rotated row of the request of token `i`. */
  function TableEntry(s: Spec, batch: Batch, i: nat, c: nat): int
    requires WellFormed(s, batch)
  {
    if i / batch.t < |batch.rows| && c < MaxBlocks(s)
    then Rotate(batch.rows[i / batch.t], RequestShift(s, batch, i / batch.t))[c] else 0
  }

  // ----- What the buffers mean --------------------------------------------------------------------

  ghost predicate DistinctBlocks(row: seq<nat>) { forall i, j :: 0 <= i < j < |row| ==> row[i] != row[j] }

  /** Attention that is given this table row and length reads the cache slot. */
  ghost predicate Reads(blockSize: nat, row: seq<int>, length: int, slot: int)
    requires blockSize > 0
  {
    exists p :: 0 <= p < length && ReadsAt(blockSize, row, p, slot)
  }

  predicate ReadsAt(blockSize: nat, row: seq<int>, p: nat, slot: int)
    requires blockSize > 0
  {
    0 <= p / blockSize < |row| && row[p / blockSize] * blockSize + p % blockSize == slot
  }

  /** The slot of a decoded token is, in its request's own table, that of its place. */
  lemma TokenSlotIsPlace(s: Spec, batch: Batch, r: nat, spec: nat, p: nat)
    requires WellFormed(s, batch) && r < |batch.rows| && spec < batch.t && DistinctBlocks(batch.rows[r])
    requires Decoded(s, batch.promptLens[r], batch.seqLens[r] - batch.t + spec)
    ensures ReadsAt(s.blockSize, batch.rows[r], p, TokenSlot(s, batch, r, spec))
            <==> p == Place(s, batch.promptLens[r], batch.seqLens[r] - batch.t + spec)
  {
    var q := batch.seqLens[r] - batch.t + spec;
    WindowPosIsPlace(s, batch.promptLens[r], q);
    PlaceBounds(s, batch.promptLens[r], q);
    OwnRow(s, batch.rows[r], Place(s, batch.promptLens[r], q), p);
  }

  lemma OwnRow(s: Spec, row: seq<nat>, w: nat, p: nat)
    requires Sized(s) && |row| == MaxBlocks(s) && w < Sink(s) + Recent(s) && DistinctBlocks(row)
    ensures ReadsAt(s.blockSize, row, p, PhysicalSlot(s, row, w)) <==> p == w
  {
    Sizes(s);
    DivBound(w, s.blockSize, MaxBlocks(s));
    DivBelow(p, s.blockSize, MaxBlocks(s));
    if p < Sink(s) + Recent(s) && p != w {
      PhysicalSlotsDistinct(s, row, row, p, w);
    }
  }

  /** A column of the rotated row comes from one column of the row, and `Logical` leads back to it. */
  lemma RotatedRow(s: Spec, row: seq<nat>, shift: int, w: nat, p: nat)
    requires Sized(s) && |row| == MaxBlocks(s) && w < Sink(s) + Recent(s) && DistinctBlocks(row)
    requires 0 <= shift && p < Sink(s) + Recent(s)
    ensures 0 <= Logical(s, shift, w) < Sink(s) + Recent(s)
    ensures ReadsAt(s.blockSize, Rotate(row, shift), p, PhysicalSlot(s, row, w)) <==> p == Logical(s, shift, w)
  {
    var b, n := s.blockSize, MaxBlocks(s);
    Sizes(s);
    DivBound(w, b, n);
    RotateAt(row, shift, w / b);
    var c := (w / b + shift) % n;
    RowBound(c, w % b, b, n);
    DivModUnique(c * b + w % b, c, b, w % b);
    DivBound(p, b, n);
    if ReadsAt(b, Rotate(row, shift), p, PhysicalSlot(s, row, w)) {
      RowUnique(Rotate(row, shift)[p / b], p % b, row[w / b], w % b, b);
      RotateInjective(row, shift, p / b, w / b);
      DivParts(p, b);
    }
  }

  lemma RotateInjective(row: seq<nat>, shift: int, c: nat, i: nat)
    requires c < |row| && i < |row| && DistinctBlocks(row) && Rotate(row, shift)[c] == row[i]
    ensures c == (i + shift) % |row|
  {
    var n := |row|;
    var i' := (c - shift) % n;
    assert row[i'] == row[i];
    assert i' == i;
    var turn := (c - shift) / n;
    assert c - shift == turn * n + i;
    DivModUnique(i + shift, -turn, n, c);
  }

  /** Columns past the window are not read. */
  lemma PaddedRow(s: Spec, blocks: seq<nat>, row: seq<int>, shift: int, w: nat, p: nat)
    requires Sized(s) && |blocks| == MaxBlocks(s) <= |row| && DistinctBlocks(blocks)
    requires 0 <= shift && w < Sink(s) + Recent(s) && p < Sink(s) + Recent(s)
    requires row[..MaxBlocks(s)] == Rotate(blocks, shift)
    ensures ReadsAt(s.blockSize, row, p, PhysicalSlot(s, blocks, w)) <==> p == Logical(s, shift, w)
  {
    Sizes(s);
    RotatedRow(s, blocks, shift, w, p);
    DivBound(p, s.blockSize, MaxBlocks(s));
    assert row[p / s.blockSize] == row[..MaxBlocks(s)][p / s.blockSize];
    hide Rotate, Logical, PhysicalSlot;
  }

  lemma ReadsExact(s: Spec, blocks: seq<nat>, row: seq<int>, shift: int, w: nat, length: int)
    requires Sized(s) && |blocks| == MaxBlocks(s) <= |row| && DistinctBlocks(blocks)
    requires 0 <= shift && w < Sink(s) + Recent(s) && length <= Sink(s) + Recent(s)
    requires row[..MaxBlocks(s)] == Rotate(blocks, shift)
    ensures Reads(s.blockSize, row, length, PhysicalSlot(s, blocks, w)) <==> Logical(s, shift, w) < length
  {
    hide ReadsAt, Logical, PhysicalSlot;
    forall p: nat | p < Sink(s) + Recent(s)
      ensures ReadsAt(s.blockSize, row, p, PhysicalSlot(s, blocks, w)) <==> p == Logical(s, shift, w)
    {
      PaddedRow(s, blocks, row, shift, w, p);
    }
    Sizes(s);
    RotatedRow(s, blocks, shift, w, 0);
    var p: nat := Logical(s, shift, w);
    assert ReadsAt(s.blockSize, row, p, PhysicalSlot(s, blocks, w));
  }

  /** The last length of a step lies within the window. */
  lemma LengthInWindow(s: Spec, promptLen: nat, seqLen: nat)
    requires Sized(s) && seqLen > 0
    ensures 0 <= WindowPos(s, promptLen, seqLen) < Sink(s) + Recent(s)
    ensures var lastPos := WindowPos(s, promptLen, seqLen);
            var shift := BlockShift(s, seqLen, lastPos);
            0 <= shift && LastLength(s, shift, lastPos) <= Sink(s) + Recent(s)
  {
    Sizes(s);
    PosIsNat(s, promptLen, seqLen - 1);
    var lastPos := WindowPos(s, promptLen, seqLen);
    if seqLen > Sink(s) + Recent(s) {
      LastTokenSees(s, lastPos, seqLen, lastPos);
      var b, n := s.blockSize, MaxBlocks(s);
      var shift := BlockShift(s, seqLen, lastPos);
      assert 0 <= (lastPos / b + shift) % n < n;
      DivParts(lastPos, b);
      RowBound((lastPos / b + shift) % n, lastPos % b, b, n);
    }
  }

  /** With the table row and the length of token `k` of a request, attention reads the slot of its token `j`
      exactly when the one sees the other. */
  lemma BuffersSee(s: Spec, batch: Batch, r: nat, k: nat, j: nat, row: seq<int>, length: int, slot: int)
    requires WellFormed(s, batch) && r < |batch.rows| && k < batch.t && j < batch.t && DistinctBlocks(batch.rows[r])
    requires |row| >= MaxBlocks(s) && row[..MaxBlocks(s)] == Rotate(batch.rows[r], RequestShift(s, batch, r))
    requires length == TokenLength(s, batch, r, k) && slot == TokenSlot(s, batch, r, j)
    ensures Reads(s.blockSize, row, length, slot)
            <==> Sees(s, batch.promptLens[r], batch.seqLens[r], batch.t - 1 - k, batch.t - 1 - j)
  {
    var promptLen, seqLen := batch.promptLens[r], batch.seqLens[r];
    var shift := RequestShift(s, batch, r);
    var w := TokenPos(s, batch, r, j);
    LengthInWindow(s, promptLen, seqLen);
    TokenPosBound(s, batch, r, j);
    hide Reads, PhysicalSlot, Rotate, Logical, WindowPos, BlockShift;
    ReadsExact(s, batch.rows[r], row, shift, w, length);
  }

  /** NotBroadcast: several requests and no tokens at all give arrays of different lengths. */
  datatype Error = PrefillPresent | NoDecodes | UnevenTokens | NotBroadcast
  datatype Result<+T> = Ok(value: T) | Err(error: Error)

  class OmniAttnDecodeInput {
    const blockTable: array2<int>
    const slots: array<int>
    const seqLens: array<int>

    ghost predicate Fits(s: Spec, batch: Batch)
      reads this
    {
      && slots != seqLens
      && |batch.rows| * batch.t <= slots.Length && |batch.rows| * batch.t <= seqLens.Length
      && |batch.rows| * batch.t <= blockTable.Length0 && MaxBlocks(s) <= blockTable.Length1
    }

    /** With the buffers as they are, attention for one token of a request reads the slot of another exactly
        when `Sees` says so. */
    ghost predicate AttentionSees(s: Spec, batch: Batch)
      requires WellFormed(s, batch) && Fits(s, batch)
      reads this, blockTable, slots, seqLens
    {
      forall r: nat, k: nat, j: nat ::
        r < |batch.rows| && k < batch.t && j < batch.t && DistinctBlocks(batch.rows[r]) ==> TokenSees(s, batch, r, k, j)
    }

    /** Past the batch's tokens and past the window's columns the table is zero. */
    ghost predicate TablePadded(s: Spec, batch: Batch)
      requires WellFormed(s, batch)
      reads this, blockTable
    {
      forall i, c ::
        && 0 <= i < blockTable.Length0 && 0 <= c < blockTable.Length1
        && (i >= |batch.rows| * batch.t || c >= MaxBlocks(s)) ==>
          blockTable[i, c] == 0
    }

    ghost predicate TokenSees(s: Spec, batch: Batch, r: nat, k: nat, j: nat)
      requires WellFormed(s, batch) && Fits(s, batch) && r < |batch.rows| && k < batch.t && j < batch.t
      reads this, blockTable, slots, seqLens
    {
      RowBound(r, k, batch.t, |batch.rows|);
      RowBound(r, j, batch.t, |batch.rows|);
      Reads(s.blockSize, TableRow(r * batch.t + k), seqLens[r * batch.t + k], slots[r * batch.t + j])
      <==> Sees(s, batch.promptLens[r], batch.seqLens[r], batch.t - 1 - k, batch.t - 1 - j)
    }

    ghost function TableRow(i: nat): (row: seq<int>)
      requires i < blockTable.Length0
      reads this, blockTable
    {
      seq(blockTable.Length1, c requires 0 <= c < blockTable.Length1 reads this, blockTable => blockTable[i, c])
    }

    lemma FilledSees(s: Spec, batch: Batch)
      requires WellFormed(s, batch) && Fits(s, batch)
      requires SlotsFor(s, batch, slots[..]) && LengthsFor(s, batch, seqLens[..])
      requires forall i, c :: 0 <= i < blockTable.Length0 && 0 <= c < blockTable.Length1 ==>
                 blockTable[i, c] == TableEntry(s, batch, i, c)
      ensures AttentionSees(s, batch)
    {
      forall r: nat, k: nat, j: nat |
        r < |batch.rows| && k < batch.t && j < batch.t && DistinctBlocks(batch.rows[r])
        ensures TokenSees(s, batch, r, k, j)
      {
        FilledEntry(s, batch, r, k);
        FilledEntry(s, batch, r, j);
        var i := r * batch.t + k;
        BuffersSee(s, batch, r, k, j, TableRow(i), seqLens[i], slots[r * batch.t + j]);
      }
    }

    lemma FilledEntry(s: Spec, batch: Batch, r: nat, k: nat)
      requires WellFormed(s, batch) && Fits(s, batch) && r < |batch.rows| && k < batch.t
      requires SlotsFor(s, batch, slots[..]) && LengthsFor(s, batch, seqLens[..])
      requires forall i, c :: 0 <= i < blockTable.Length0 && 0 <= c < blockTable.Length1 ==>
                 blockTable[i, c] == TableEntry(s, batch, i, c)
      ensures var i := r * batch.t + k;
              && 0 <= i < |batch.rows| * batch.t
              && slots[i] == TokenSlot(s, batch, r, k) && seqLens[i] == TokenLength(s, batch, r, k)
              && TableRow(i)[..MaxBlocks(s)] == Rotate(batch.rows[r], RequestShift(s, batch, r))
    {
      RowBound(r, k, batch.t, |batch.rows|);
      RowSplit(r, k, batch.t);
      var i := r * batch.t + k;
      assert slots[..][i] == slots[i] && seqLens[..][i] == seqLens[i];
      assert forall c :: 0 <= c < MaxBlocks(s) ==> TableRow(i)[c] == TableEntry(s, batch, i, c);
    }

    /** Refills the buffers for one step.  With one token per request the block tables are used as
        they are and the other two buffers are left alone. */
    method Compute(s: Spec, rows: seq<seq<nat>>, numDecodes: nat, numDecodeTokens: nat, numPrefills: nat,
                   promptLens: seq<nat>, seqLens_: seq<nat>) returns (r: Result<nat>)
      requires numDecodes <= |rows| && slots != seqLens
      requires numDecodes > 0 && numDecodeTokens == 0 ==> |promptLens| == |seqLens_| == numDecodes
      requires numDecodes > 0 && numDecodeTokens > 0 && numDecodeTokens % numDecodes == 0 ==>
                 var batch := Batch(rows[..numDecodes], promptLens, seqLens_, numDecodeTokens / numDecodes);
                 WellFormed(s, batch) && Fits(s, batch)
      modifies blockTable, slots, seqLens
      ensures r.Err? <==> numPrefills > 0 || numDecodes == 0 || numDecodeTokens % numDecodes != 0
                          || (numDecodeTokens == 0 && numDecodes > 1)
      ensures r.Err? ==> unchanged(slots) && unchanged(seqLens) && unchanged(blockTable)
      ensures r.Ok? && numDecodeTokens == 0 ==>
                && (forall i :: 0 <= i < slots.Length ==> slots[i] == -1)
                && unchanged(seqLens) && unchanged(blockTable)
      ensures r.Ok? && numDecodeTokens > 0 ==>
                var batch := Batch(rows[..numDecodes], promptLens, seqLens_, numDecodeTokens / numDecodes);
                && SlotsFor(s, batch, slots[..])
                && (batch.t == 1 ==> unchanged(seqLens) && unchanged(blockTable))
                && (batch.t > 1 ==> LengthsFor(s, batch, seqLens[..]))
                && (batch.t > 1 ==> forall i, c :: 0 <= i < blockTable.Length0 && 0 <= c < blockTable.Length1 ==>
                                      blockTable[i, c] == TableEntry(s, batch, i, c))
                && (batch.t > 1 ==> AttentionSees(s, batch) && TablePadded(s, batch))
    {
      if numPrefills > 0 {
        return Err(PrefillPresent);
      }
      if numDecodes == 0 {
        return Err(NoDecodes);
      }
      if numDecodeTokens % numDecodes != 0 {
        return Err(UnevenTokens);
      }
      if numDecodeTokens == 0 {
        if numDecodes > 1 {
          return Err(NotBroadcast);
        }
        forall i | 0 <= i < slots.Length {
          slots[i] := -1;
        }
        return Ok(0);
      }
      var t := numDecodeTokens / numDecodes;
      var batch := Batch(rows[..numDecodes], promptLens, seqLens_, t);
      FillSlots(s, batch);
      if t > 1 {
        FillTable(s, batch);
        FillLengths(s, batch);
        FilledSees(s, batch);
      }
      r := Ok(t);
    }

    method FillSlots(s: Spec, batch: Batch)
      requires WellFormed(s, batch) && Fits(s, batch)
      modifies slots
      ensures SlotsFor(s, batch, slots[..])
    {
      forall i: nat
        ensures i < |batch.rows| * batch.t <==> i / batch.t < |batch.rows|
      {
        DivBelow(i, batch.t, |batch.rows|);
      }
      forall i | 0 <= i < slots.Length {
        slots[i] := -1;
      }
      forall i | 0 <= i < |batch.rows| * batch.t {
        slots[i] := TokenSlot(s, batch, i / batch.t, i % batch.t);
      }
    }

    method FillTable(s: Spec, batch: Batch)
      requires WellFormed(s, batch) && Fits(s, batch)
      modifies blockTable
      ensures forall i, c :: 0 <= i < blockTable.Length0 && 0 <= c < blockTable.Length1 ==>
                blockTable[i, c] == TableEntry(s, batch, i, c)
      ensures TablePadded(s, batch)
    {
      forall i: nat
        ensures i < |batch.rows| * batch.t <==> i / batch.t < |batch.rows|
      {
        DivBelow(i, batch.t, |batch.rows|);
      }
      forall i, c | 0 <= i < blockTable.Length0 && 0 <= c < blockTable.Length1 {
        blockTable[i, c] := 0;
      }
      forall i, c | 0 <= i < |batch.rows| * batch.t && 0 <= c < MaxBlocks(s) {
        blockTable[i, c] := Rotate(batch.rows[i / batch.t], RequestShift(s, batch, i / batch.t))[c];
      }
    }

    method FillLengths(s: Spec, batch: Batch)
      requires WellFormed(s, batch) && Fits(s, batch)
      modifies seqLens
      ensures LengthsFor(s, batch, seqLens[..])
    {
      forall i: nat
        ensures i < |batch.rows| * batch.t <==> i / batch.t < |batch.rows|
      {
        DivBelow(i, batch.t, |batch.rows|);
      }
      forall i | 0 <= i < seqLens.Length {
        seqLens[i] := 0;
      }
      forall i | 0 <= i < |batch.rows| * batch.t {
        seqLens[i] := TokenLength(s, batch, i / batch.t, i % batch.t);
      }
    }
  }
}

/** The order of loads (omni/accelerators/pd/omni_cache_connector_v1.py): over every run both queues are first
    in, first out.
 */
module LoadOrder {
  import opened TransferProtocol
  import opened Wrappers

  ghost predicate Suffix(part: seq<Id>, whole: seq<Id>) {
    |part| <= |whole| && whole[|whole| - |part|..] == part
  }

  // ----- Sending -------------------------------------------------------------------------------------------

  /** The loads in the order of registration. */
  function Loaded(steps: seq<Step>): seq<Id> {
    if steps == [] then []
    else
      var last := steps[|steps| - 1];
      Loaded(steps[..|steps| - 1]) + (if last.Load? then [last.id] else [])
  }

  function Unsent(d: Decode): seq<Id> {
    d.sendQ + (if d.registering.Some? then [d.registering.value] else [])
  }

  lemma WorkSends(d: Decode, inline: bool)
    requires JobOf(d, inline).Busy?
    ensures Unsent(Work(d, inline)) == Unsent(d) && Unsent(WorkRaises(d, inline)) == Unsent(d)
  {
  }

  lemma JobStepsSend(s: System, delay: int, step: Step)
    requires Enabled(s, step) && (step.Proceed? || step.Raise?)
    ensures Unsent(Next(s, delay, step).d) == Unsent(s.d)
  {
    WorkSends(s.d, step.inline);
    hide Work, WorkRaises, Unsent;
  }

  lemma ReceivedSends(d: Decode, id: Id, success: bool)
    ensures Unsent(HandleResponse(d, id, success)) == Unsent(d)
  {
  }

  lemma OtherStepsSend(s: System, delay: int, step: Step)
    requires Enabled(s, step) && (step.Receive? || step.StartCopy? || step.GetDone?)
    ensures Unsent(Next(s, delay, step).d) == Unsent(s.d)
  {
    if step.Receive? {
      ReceivedSends(s.d, step.id, step.success);
      hide Unsent, HandleResponse;
    } else {
      SameQueue(s.d, Next(s, delay, step).d);
      hide Unsent;
    }
  }

  lemma SameQueue(d: Decode, e: Decode)
    ensures d.sendQ == e.sendQ && d.registering == e.registering ==> Unsent(d) == Unsent(e)
  {
  }

  lemma SendStep(d: Decode, ok: bool)
    requires d.sendQ != []
    ensures Unsent(SendNext(d, ok)) == Unsent(d)[1..]
  {
  }

  lemma QueueStep(d: Decode)
    requires d.registering.Some?
    ensures Unsent(Enqueue(d)) == Unsent(d)
  {
  }

  lemma LoadStep(d: Decode, id: Id, remote: Option<Id>)
    requires d.registering.None?
    ensures Unsent(Register(d, id, remote)) == Unsent(d) + [id]
  {
  }

  lemma StepUnsent(s: System, delay: int, step: Step)
    requires Enabled(s, step)
    ensures var t := Next(s, delay, step);
            Unsent(t.d) == if step.Load? then Unsent(s.d) + [step.id]
                           else if step.Send? then Unsent(s.d)[1..] else Unsent(s.d)
  {
    hide Unsent, Register, Enqueue, SendNext;
    match step {
      case Load(id, remote) => LoadStep(s.d, id, remote);
      case Queue => QueueStep(s.d);
      case Send(ok) => SendStep(s.d, ok); SendsHead(s, step);
      case Proceed(_, _) => JobStepsSend(s, delay, step);
      case Raise(_) => JobStepsSend(s, delay, step);
      case Receive(_, _) => OtherStepsSend(s, delay, step);
      case StartCopy => OtherStepsSend(s, delay, step);
      case GetDone => OtherStepsSend(s, delay, step);
      case _ => DecodeUntouched(s, delay, step);
    }
  }

  lemma SuffixGrows(part: seq<Id>, whole: seq<Id>, more: seq<Id>)
    requires Suffix(part, whole)
    ensures Suffix(part + more, whole + more)
    ensures part != [] ==> Suffix(part[1..], whole)
  {
  }

  /** What is still to be sent are always the loads that were registered last: they are sent in the order
      of their registration. */
  lemma {:induction false} UnsentIsLast(delay: int, steps: seq<Step>)
    requires Run(delay, steps).Some?
    ensures Suffix(Unsent(Run(delay, steps).value.d), Loaded(steps))
  {
    if steps == [] {
    } else {
      hide Next, Unsent;
      var init, last := steps[..|steps| - 1], steps[|steps| - 1];
      UnsentIsLast(delay, init);
      var s := Run(delay, init).value;
      StepUnsent(s, delay, last);
      SuffixGrows(Unsent(s.d), Loaded(init), if last.Load? then [last.id] else []);
      if last.Send? { SendsHead(s, last); }
      assert Loaded(init) + [] == Loaded(init);
    }
  }

  lemma SendsHead(s: System, step: Step)
    requires Enabled(s, step) && step.Send?
    ensures Unsent(s.d) != []
  {
  }

  // ----- Copying -------------------------------------------------------------------------------------------

  /** The success answers that found room in the copy queue, in the order in which they were read. */
  ghost function Accepted(delay: int, steps: seq<Step>): seq<Id> {
    if steps == [] then []
    else
      var init, last := steps[..|steps| - 1], steps[|steps| - 1];
      var before := Run(delay, init);
      Accepted(delay, init)
      + (if before.Some? && last.Receive? && last.success && last.id in before.value.d.pending
            && |before.value.d.h2dQ| < H2D_QUEUE_SIZE then [last.id] else [])
  }

  lemma StepQueued(s: System, delay: int, step: Step)
    requires Enabled(s, step)
    ensures var t := Next(s, delay, step);
            t.d.h2dQ == if step.Receive? && step.success && step.id in s.d.pending && |s.d.h2dQ| < H2D_QUEUE_SIZE
                        then s.d.h2dQ + [step.id]
                        else if step.StartCopy? then s.d.h2dQ[1..] else s.d.h2dQ
  {
    if Elsewhere(step) {
      DecodeUntouched(s, delay, step);
    } else {
      DecodeQueued(s, delay, step);
    }
    hide Next;
  }

  lemma DecodeQueued(s: System, delay: int, step: Step)
    requires Enabled(s, step) && !Elsewhere(step)
    ensures var t := Next(s, delay, step);
            t.d.h2dQ == if step.Receive? && step.success && step.id in s.d.pending && |s.d.h2dQ| < H2D_QUEUE_SIZE
                        then s.d.h2dQ + [step.id]
                        else if step.StartCopy? then s.d.h2dQ[1..] else s.d.h2dQ
  {
  }

  /** What waits for its copy are always the loads that were accepted last: they are copied in the order of
      their answers. */
  lemma {:induction false} QueuedIsLast(delay: int, steps: seq<Step>)
    requires Run(delay, steps).Some?
    ensures Suffix(Run(delay, steps).value.d.h2dQ, Accepted(delay, steps))
  {
    if steps == [] {
    } else {
      hide Next;
      var init, last := steps[..|steps| - 1], steps[|steps| - 1];
      QueuedIsLast(delay, init);
      var s := Run(delay, init).value;
      StepQueued(s, delay, last);
      SuffixGrows(s.d.h2dQ, Accepted(delay, init), if last.Receive? then [last.id] else []);
      assert Accepted(delay, init) + [] == Accepted(delay, init);
    }
  }
}

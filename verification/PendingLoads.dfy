/** Which loads are pending (omni/accelerators/pd/omni_cache_connector_v1.py): over every run, exactly those on
    their way or lost, those that a thread is about to forget, and those that the response thread abandoned.
 */
module PendingLoads {
  import opened TransferProtocol
  import opened Wrappers

  // ----- What a step does to the pending loads ---------------------------------------------------------

  ghost predicate AboutToPop(s: System, id: Id) { Popping(s.d.responder, id) || Popping(s.d.copier, id) }

  ghost predicate Expected(s: System, id: Id) { id in InFlight(s) || AboutToPop(s, id) }

  /** The response thread ends in the middle of the load's own copy. */
  predicate Abandons(s: System, step: Step, id: Id) {
    step == Raise(true) && s.d.responder.Busy? && s.d.responder.id == id
  }

  /** What is about to be forgotten is still pending, and only one thread is about to forget it. */
  ghost predicate PopsKept(s: System) {
    && (forall id :: AboutToPop(s, id) ==> id in s.d.pending)
    && (forall id :: !(Popping(s.d.responder, id) && Popping(s.d.copier, id)))
  }

  /** Nothing becomes pending or stays pending without a reason, and what has failed is not touched. */
  ghost predicate Explained(s: System, t: System, abandoned: set<Id>) {
    && PopsKept(t) && s.failed <= t.failed
    && (forall id :: id in t.d.pending ==>
          Expected(t, id) || (id in s.d.pending && !Expected(s, id)) || id in abandoned)
    && (forall id :: id in s.failed && id in s.d.pending ==> id in t.d.pending)
    && (forall id :: id in abandoned ==> id in t.failed && id in t.d.pending)
  }

  ghost predicate SamePops(s: System, t: System) {
    forall id :: (Popping(t.d.responder, id) <==> Popping(s.d.responder, id))
                 && (Popping(t.d.copier, id) <==> Popping(s.d.copier, id))
  }

  /** A step that drops no load. */
  lemma Kept(s: System, t: System, delay: int)
    requires Inv(t, delay) && PopsKept(s) && SamePops(s, t) && InFlight(s) <= InFlight(t) && s.failed <= t.failed
    requires s.d.pending <= t.d.pending && forall id :: id in t.d.pending ==> id in s.d.pending || id in InFlight(t)
    ensures Explained(s, t, {})
  {
    hide InFlight, Inv;
    forall id | id in t.d.pending && Expected(s, id) ensures Expected(t, id) {
      assert id in InFlight(s) ==> id in InFlight(t);
    }
  }

  lemma LeavesOne(s: System, t: System, id: Id)
    requires InFlight(s) == InFlight(t) + multiset{id}
    ensures id in InFlight(s) && forall x :: x in InFlight(s) ==> x in InFlight(t) || x == id
  {
    hide InFlight;
  }

  /** A step at which a load fails. */
  lemma Failed(s: System, t: System, delay: int, id: Id)
    requires Inv(s, delay) && PopsKept(s) && SamePops(s, t) && InFlight(s) == InFlight(t) + multiset{id}
    requires t.d.pending == s.d.pending - {id} && t.failed == s.failed + {id}
    ensures Explained(s, t, {})
  {
    hide InFlight, Inv, Popping;
    InFlightApart(s, delay, id);
    LeavesOne(s, t, id);
  }

  /** A load on its way has not failed, and no thread is about to forget it. */
  lemma InFlightApart(s: System, delay: int, id: Id)
    requires Inv(s, delay)
    ensures id in InFlight(s) ==> id !in s.failed && !AboutToPop(s, id) && id !in Delivered(s)
  {
    if id in InFlight(s) {
      assert Conserved(s) && PendingKept(s);
      hide InFlight, Delivered;
      assert id in InFlight(s) + Delivered(s);
      if id in Delivered(s) { DeliveredIsNotInFlight(s, id); }
    }
  }

  lemma PopsAreDelivered(s: System, delay: int, id: Id)
    requires Inv(s, delay) && AboutToPop(s, id)
    ensures id in Delivered(s) && id !in s.failed
  {
    assert Conserved(s) && PendingKept(s);
    hide InFlight, Delivered;
    assert id in Delivered(s);
    assert id in InFlight(s) + Delivered(s);
  }

  lemma AbandonedStep(s: System, t: System, delay: int, id: Id)
    requires Inv(s, delay) && PopsKept(s) && id in s.d.pending && InFlight(s) == InFlight(t) + multiset{id}
    requires s.d.responder.Busy? && s.d.responder.id == id && !s.d.responder.phase.ToPop?
    requires t.d.responder == Idle && t.d.copier == s.d.copier
    requires t.d.pending == s.d.pending && t.failed == s.failed + {id}
    ensures Explained(s, t, {id})
  {
    hide InFlight, Inv;
    LeavesOne(s, t, id);
  }

  lemma AppendFields(s: System, t: System, inline: bool, id: Id)
    requires JobOf(s.d, inline) == Busy(id, ToAppend) && t == s.(d := Work(s.d, inline))
    ensures t.d.pending == s.d.pending && JobOf(t.d, inline) == Busy(id, ToPop)
    ensures JobOf(t.d, !inline) == JobOf(s.d, !inline)
  {
  }

  lemma Appended(s: System, t: System, inline: bool, id: Id)
    requires PopsKept(s) && JobOf(s.d, inline) == Busy(id, ToAppend) && id in s.d.pending && !AboutToPop(s, id)
    requires forall x :: x in InFlight(s) ==> x in InFlight(t) || x == id
    requires t.failed == s.failed && t.d.pending == s.d.pending
    requires JobOf(t.d, inline) == Busy(id, ToPop) && JobOf(t.d, !inline) == JobOf(s.d, !inline)
    ensures Explained(s, t, {})
  {
    hide InFlight;
  }

  lemma AppendStep(s: System, t: System, delay: int, inline: bool, id: Id)
    requires Inv(s, delay) && PopsKept(s) && JobOf(s.d, inline) == Busy(id, ToAppend)
    requires t == s.(d := Work(s.d, inline))
    ensures Explained(s, t, {})
  {
    hide InFlight, Answered, Inv, Delivered, Work, PopsKept, Explained, AboutToPop;
    AppendFlow(s, t, inline, id);
    LeavesOne(s, t, id);
    InFlightApart(s, delay, id);
    InFlightPending(s, delay, id);
    AppendFields(s, t, inline, id);
    Appended(s, t, inline, id);
  }

  lemma PopFields(s: System, t: System, inline: bool, id: Id)
    requires JobOf(s.d, inline) == Busy(id, ToPop) && t == s.(d := Work(s.d, inline))
    ensures t.d.pending == s.d.pending - {id} && JobOf(t.d, inline) == Idle
    ensures JobOf(t.d, !inline) == JobOf(s.d, !inline)
  {
  }

  lemma Forgotten(s: System, t: System, inline: bool, id: Id)
    requires PopsKept(s) && JobOf(s.d, inline) == Busy(id, ToPop) && id !in s.failed
    requires InFlight(t) == InFlight(s) && t.failed == s.failed && t.d.pending == s.d.pending - {id}
    requires JobOf(t.d, inline) == Idle && JobOf(t.d, !inline) == JobOf(s.d, !inline)
    ensures Explained(s, t, {})
  {
    hide InFlight;
  }

  /** The last part of `_post_success` is where a delivered load is forgotten. */
  lemma PopStep(s: System, t: System, delay: int, inline: bool, id: Id)
    requires Inv(s, delay) && PopsKept(s) && JobOf(s.d, inline) == Busy(id, ToPop)
    requires t == s.(d := Work(s.d, inline))
    ensures Explained(s, t, {})
  {
    PopFlow(s, t, inline, id);
    PopsAreDelivered(s, delay, id);
    PopFields(s, t, inline, id);
    hide InFlight, Inv, Delivered, Work, PopsKept, Explained;
    Forgotten(s, t, inline, id);
  }

  lemma PhaseStep(s: System, t: System, delay: int, inline: bool, id: Id, phase: Phase, next: Phase)
    requires Inv(t, delay) && PopsKept(s) && JobOf(s.d, inline) == Busy(id, phase) && !phase.ToPop? && !next.ToPop?
    requires t == s.(d := SetJob(s.d, inline, Busy(id, next)), notes := t.notes, copied := t.copied)
    ensures Explained(s, t, {})
  {
    hide InFlight, Inv, Delivered, Answered, PopsKept, Explained;
    PhaseFlow(s, t, inline, id, phase, next);
    Kept(s, t, delay);
  }

  lemma ProceedExplained(s: System, delay: int, inline: bool, noteLost: bool)
    requires Inv(s, delay) && PopsKept(s) && Enabled(s, Proceed(inline, noteLost))
    ensures Explained(s, Next(s, delay, Proceed(inline, noteLost)), {})
  {
    hide InFlight, Delivered, Inv, Explained, PopsKept;
    var t := Next(s, delay, Proceed(inline, noteLost));
    StepKeeps(s, delay, Proceed(inline, noteLost));
    var id := JobOf(s.d, inline).id;
    match JobOf(s.d, inline).phase {
      case ToCopy => PhaseStep(s, t, delay, inline, id, ToCopy, ToNotify);
      case ToNotify => PhaseStep(s, t, delay, inline, id, ToNotify, ToAppend);
      case ToAppend => assert t.notes == s.notes; AppendStep(s, t, delay, inline, id);
      case ToPop => assert t.notes == s.notes; PopStep(s, t, delay, inline, id);
    }
  }

  lemma RaiseExplained(s: System, delay: int, inline: bool)
    requires Inv(s, delay) && PopsKept(s) && Enabled(s, Raise(inline))
    ensures Explained(s, Next(s, delay, Raise(inline)), if inline then {s.d.responder.id} else {})
  {
    hide InFlight, Delivered, Inv, Explained, PopsKept;
    var t, id := Next(s, delay, Raise(inline)), JobOf(s.d, inline).id;
    RaiseFlow(s, t, inline, id);
    JobIsHeld(s, delay, inline, id, JobOf(s.d, inline).phase);
    if inline {
      InFlightPending(s, delay, id);
      AbandonedStep(s, t, delay, id);
    } else {
      Failed(s, t, delay, id);
    }
  }

  lemma InFlightPending(s: System, delay: int, id: Id)
    requires Inv(s, delay) && id in InFlight(s)
    ensures id in s.d.pending
  {
    assert PendingKept(s);
  }

  lemma LoadExplained(s: System, delay: int, id: Id, remote: Option<Id>)
    requires Inv(s, delay) && PopsKept(s) && Enabled(s, Load(id, remote))
    ensures Explained(s, Next(s, delay, Load(id, remote)), {})
  {
    hide InFlight, Answered, Delivered, Inv, Explained, PopsKept;
    var t := Next(s, delay, Load(id, remote));
    StepKeeps(s, delay, Load(id, remote));
    LoadFlow(s, t, id, remote);
    Kept(s, t, delay);
  }

  lemma SendExplained(s: System, delay: int, ok: bool)
    requires Inv(s, delay) && PopsKept(s) && Enabled(s, Send(ok))
    ensures Explained(s, Next(s, delay, Send(ok)), {})
  {
    hide InFlight, Answered, Delivered, Inv, Explained, PopsKept;
    var t := Next(s, delay, Send(ok));
    StepKeeps(s, delay, Send(ok));
    SendFlow(s, t, ok);
    if ok { Kept(s, t, delay); } else { Failed(s, t, delay, s.d.sendQ[0]); }
  }

  lemma QueueExplained(s: System, delay: int, step: Step)
    requires Inv(s, delay) && PopsKept(s) && Enabled(s, step)
    requires step.Queue? || step.Answer? || step.StartCopy?
    ensures Explained(s, Next(s, delay, step), {})
  {
    hide InFlight, Answered, Delivered, Inv, Explained, PopsKept;
    var t := Next(s, delay, step);
    StepKeeps(s, delay, step);
    match step {
      case Queue => QueueFlow(s, t);
      case Answer(id, success) => AnswerFlow(s, t, id, success);
      case StartCopy => StartFlow(s, t);
    }
    Kept(s, t, delay);
  }

  lemma ReceivedFields(s: System, id: Id, success: bool)
    requires id in s.d.pending && s.d.responder == Idle
    ensures var d := HandleResponse(s.d, id, success);
            && d.pending == (if success then s.d.pending else s.d.pending - {id}) && d.copier == s.d.copier
            && (d.responder == Idle || d.responder == Busy(id, ToCopy))
  {
  }

  lemma ReceiveExplained(s: System, delay: int, id: Id, success: bool)
    requires Inv(s, delay) && PopsKept(s) && Enabled(s, Receive(id, success))
    ensures Explained(s, Next(s, delay, Receive(id, success)), {})
  {
    hide InFlight, Answered, Delivered, Inv, Explained, PopsKept;
    var t := Next(s, delay, Receive(id, success));
    StepKeeps(s, delay, Receive(id, success));
    AnswersAreKnown(s, delay, id);
    ReceiveFlow(s, t, id, success);
    ReceivedFields(s, id, success);
    hide HandleResponse;
    if success { Kept(s, t, delay); } else { Failed(s, t, delay, id); }
  }

  lemma OtherExplained(s: System, t: System, delay: int)
    requires Inv(s, delay) && Inv(t, delay) && PopsKept(s)
    requires t.d == s.d.(recving := t.d.recving) && t.sent == s.sent && t.good == s.good && t.bad == s.bad
    requires t.lost == s.lost && t.failed == s.failed
    ensures Explained(s, t, {})
  {
    SameAnswered(s, t);
    SameOutgoing(s, t);
    hide Outgoing, Answered, Inv;
    assert InFlight(t) == InFlight(s);
    hide InFlight;
    Kept(s, t, delay);
  }

  lemma StepExplained(s: System, delay: int, step: Step)
    requires Inv(s, delay) && PopsKept(s) && Enabled(s, step)
    ensures Explained(s, Next(s, delay, step), if step == Raise(true) then {s.d.responder.id} else {})
  {
    hide InFlight, Inv, Explained, PopsKept;
    match step {
      case Proceed(inline, noteLost) => ProceedExplained(s, delay, inline, noteLost);
      case Raise(inline) => RaiseExplained(s, delay, inline);
      case Receive(id, success) => ReceiveExplained(s, delay, id, success);
      case Load(id, remote) => LoadExplained(s, delay, id, remote);
      case Queue => QueueExplained(s, delay, step);
      case Send(ok) => SendExplained(s, delay, ok);
      case Answer(_, _) => QueueExplained(s, delay, step);
      case StartCopy => QueueExplained(s, delay, step);
      case _ =>
        StepKeeps(s, delay, step);
        OtherExplained(s, Next(s, delay, step), delay);
    }
  }

  // ----- Every run -------------------------------------------------------------------------------------

  ghost predicate AbandonsAt(delay: int, steps: seq<Step>, k: nat, id: Id)
    requires k < |steps|
  {
    var before := Run(delay, steps[..k]);
    before.Some? && Abandons(before.value, steps[k], id)
  }

  ghost predicate SomeStepAbandons(delay: int, steps: seq<Step>, id: Id) {
    exists k :: 0 <= k < |steps| && AbandonsAt(delay, steps, k, id)
  }

  lemma AbandonsSplit(delay: int, steps: seq<Step>, id: Id)
    requires steps != []
    ensures var n := |steps| - 1;
            SomeStepAbandons(delay, steps, id) <==>
            SomeStepAbandons(delay, steps[..n], id) || AbandonsAt(delay, steps, n, id)
  {
    hide Run, Abandons;
    var n := |steps| - 1;
    forall k: nat | k < n ensures AbandonsAt(delay, steps, k, id) <==> AbandonsAt(delay, steps[..n], k, id) {
      assert steps[..k] == steps[..n][..k] && steps[k] == steps[..n][k];
    }
    hide AbandonsAt;
  }

  ghost predicate PendingInv(s: System, delay: int, steps: seq<Step>, id: Id) {
    && PopsKept(s)
    && (id in s.d.pending ==> Expected(s, id) || SomeStepAbandons(delay, steps, id))
    && (SomeStepAbandons(delay, steps, id) ==> id in s.failed && id in s.d.pending)
  }

  lemma InitialPending(delay: int, id: Id)
    ensures PendingInv(Initial(), delay, [], id)
  {
  }

  lemma {:induction false} RunKeepsPending(delay: int, steps: seq<Step>, id: Id)
    requires Run(delay, steps).Some?
    ensures PendingInv(Run(delay, steps).value, delay, steps, id)
  {
    if steps == [] {
      InitialPending(delay, id);
    } else {
      hide Inv, Next, Enabled, Explained, PendingInv;
      var n := |steps| - 1;
      RunKeepsPending(delay, steps[..n], id);
      RunKeepsInv(delay, steps[..n]);
      NextPending(Run(delay, steps[..n]).value, delay, steps, id);
    }
  }

  lemma NextPending(s: System, delay: int, steps: seq<Step>, id: Id)
    requires steps != [] && Run(delay, steps[..|steps| - 1]) == Some(s) && Enabled(s, steps[|steps| - 1])
    requires Inv(s, delay) && PendingInv(s, delay, steps[..|steps| - 1], id)
    ensures PendingInv(Next(s, delay, steps[|steps| - 1]), delay, steps, id)
  {
    hide Inv, Run, PopsKept, Next, Enabled, Expected, SomeStepAbandons;
    var n := |steps| - 1;
    StepExplained(s, delay, steps[n]);
    AbandonsSplit(delay, steps, id);
    RaisesBusy(s, steps[n]);
  }

  lemma RaisesBusy(s: System, step: Step)
    requires Enabled(s, step)
    ensures step == Raise(true) ==> s.d.responder.Busy?
  {
  }

  /** Over every run, exactly these loads are pending: the ones on their way, the lost ones, the one that a
      thread has delivered and is about to forget, and the ones in whose copy the response thread ended. */
  lemma PendingExact(delay: int, steps: seq<Step>, id: Id)
    requires Run(delay, steps).Some?
    ensures var s := Run(delay, steps).value;
            id in s.d.pending <==>
              || id in Moving(s) || id in s.lost
              || s.d.responder == Busy(id, ToPop) || s.d.copier == Busy(id, ToPop)
              || SomeStepAbandons(delay, steps, id)
  {
    hide Run, SomeStepAbandons, InFlight, Moving, Inv;
    RunKeepsInv(delay, steps);
    RunKeepsPending(delay, steps, id);
    var s := Run(delay, steps).value;
    MovingOrLost(s);
    if id in InFlight(s) { InFlightPending(s, delay, id); }
  }

  /** So a delivered load is pending only for as long as its thread has not forgotten it, and a failed one
      only if the response thread ended in the middle of its copy. */
  lemma SettledPending(delay: int, steps: seq<Step>, id: Id)
    requires Run(delay, steps).Some?
    ensures var s := Run(delay, steps).value;
            && (id in s.done || id in s.d.recving ==>
                  (id in s.d.pending <==> s.d.responder == Busy(id, ToPop) || s.d.copier == Busy(id, ToPop)))
            && (id in s.failed ==> (id in s.d.pending <==> SomeStepAbandons(delay, steps, id)))
  {
    hide Run, SomeStepAbandons;
    RunKeepsInv(delay, steps);
    RunKeepsPending(delay, steps, id);
    PendingExact(delay, steps, id);
    var s := Run(delay, steps).value;
    MovingOrLost(s);
    InFlightApart(s, delay, id);
    if id in s.done || id in s.d.recving { DeliveredApart(s, delay, id); }
    if AboutToPop(s, id) { PopsAreDelivered(s, delay, id); }
    hide InFlight, Moving, Inv, PopsKept;
  }

  lemma DeliveredApart(s: System, delay: int, id: Id)
    requires Inv(s, delay) && (id in s.done || id in s.d.recving)
    ensures id in Delivered(s) && id !in InFlight(s) && id !in s.failed
  {
    assert Conserved(s);
    hide InFlight;
    assert id in Delivered(s);
    hide Delivered;
    assert id in InFlight(s) + Delivered(s);
    DeliveredIsNotInFlight(s, id);
  }
}

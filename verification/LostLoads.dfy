/** Loads that get lost (omni/accelerators/pd/omni_cache_connector_v1.py): when the response thread ends, the
    answers to everything it has sent can no longer arrive.
 */
module LostLoads {
  import opened TransferProtocol
  import opened Wrappers

  // ----- Which loads are lost ------------------------------------------------------------------------------

  /** The response thread ends while the load is on the wire. */
  predicate Loses(s: System, step: Step, id: Id) { step == Raise(true) && id in OnWire(s) }

  lemma StepLoses(s: System, delay: int, step: Step, id: Id)
    requires Enabled(s, step)
    ensures id in Next(s, delay, step).lost <==> id in s.lost || Loses(s, step, id)
  {
  }

  ghost predicate LosesAt(delay: int, steps: seq<Step>, k: nat, id: Id)
    requires k < |steps|
  {
    var before := Run(delay, steps[..k]);
    before.Some? && Loses(before.value, steps[k], id)
  }

  ghost predicate SomeStepLoses(delay: int, steps: seq<Step>, id: Id) {
    exists k :: 0 <= k < |steps| && LosesAt(delay, steps, k, id)
  }

  lemma LosesSplit(delay: int, steps: seq<Step>, id: Id)
    requires steps != []
    ensures var n := |steps| - 1;
            SomeStepLoses(delay, steps, id) <==> SomeStepLoses(delay, steps[..n], id) || LosesAt(delay, steps, n, id)
  {
    hide Run, Loses;
    var n := |steps| - 1;
    forall k: nat | k < n ensures LosesAt(delay, steps, k, id) <==> LosesAt(delay, steps[..n], k, id) {
      assert steps[..k] == steps[..n][..k] && steps[k] == steps[..n][k];
    }
    hide LosesAt;
  }

  /** Over every run: exactly the loads are lost that were on the wire when the response thread ended. */
  lemma {:induction false} LostExact(delay: int, steps: seq<Step>, id: Id)
    requires Run(delay, steps).Some?
    ensures id in Run(delay, steps).value.lost <==> SomeStepLoses(delay, steps, id)
  {
    if steps == [] {
    } else {
      hide Next, Enabled, Loses, SomeStepLoses;
      var n := |steps| - 1;
      LostExact(delay, steps[..n], id);
      StepLoses(Run(delay, steps[..n]).value, delay, steps[n], id);
      LosesSplit(delay, steps, id);
    }
  }

  /** When no load moves any more, a load has been delivered or has failed exactly unless the response
      thread ended while it was on the wire. */
  lemma SettledExact(delay: int, steps: seq<Step>, id: Id)
    requires Run(delay, steps).Some? && Moving(Run(delay, steps).value) == multiset{}
    requires id in Run(delay, steps).value.d.remotes
    ensures var s := Run(delay, steps).value;
            id in s.done || id in s.d.recving || id in s.failed <==> !SomeStepLoses(delay, steps, id)
  {
    hide Run, SomeStepLoses;
    QuietMeansSettled(delay, steps, id);
    LostExact(delay, steps, id);
  }

  // ----- The response thread ---------------------------------------------------------------------------

  /** The last of these events was a new load, not the end of the thread. */
  function Restarted(steps: seq<Step>): bool {
    if steps == [] then false
    else
      var last := steps[|steps| - 1];
      if last.Load? then true else if last == Raise(true) then false else Restarted(steps[..|steps| - 1])
  }

  lemma WorkKeepsAlive(d: Decode, inline: bool)
    requires JobOf(d, inline).Busy?
    ensures Work(d, inline).responderAlive == d.responderAlive
    ensures WorkRaises(d, inline).responderAlive == (!inline && d.responderAlive)
  {
  }

  lemma JobRestarts(s: System, delay: int, step: Step)
    requires Enabled(s, step) && (step.Proceed? || step.Raise?)
    ensures Next(s, delay, step).d.responderAlive == (step != Raise(true) && s.d.responderAlive)
  {
    WorkKeepsAlive(s.d, step.inline);
    hide Work, WorkRaises, NoteOf;
  }

  lemma QueueRestarts(s: System, delay: int, step: Step)
    requires Enabled(s, step) && (step.Load? || step.Queue? || step.Send?)
    ensures Next(s, delay, step).d.responderAlive == (step.Load? || s.d.responderAlive)
  {
  }

  lemma OtherRestarts(s: System, delay: int, step: Step)
    requires Enabled(s, step) && (step.Receive? || step.StartCopy? || step.GetDone?)
    ensures Next(s, delay, step).d.responderAlive == s.d.responderAlive
  {
  }

  lemma StepRestarts(s: System, delay: int, step: Step)
    requires Enabled(s, step)
    ensures Next(s, delay, step).d.responderAlive
            == if step.Load? then true else if step == Raise(true) then false else s.d.responderAlive
  {
    hide Next;
    if Elsewhere(step) {
      DecodeUntouched(s, delay, step);
    } else if step.Proceed? || step.Raise? {
      JobRestarts(s, delay, step);
    } else if step.Load? || step.Queue? || step.Send? {
      QueueRestarts(s, delay, step);
    } else {
      OtherRestarts(s, delay, step);
    }
  }

  /** Over every run, the response thread runs exactly since the first load, or the first one after it ended; only
      then is anything sent or any answer read. */
  lemma {:induction false} AliveExact(delay: int, steps: seq<Step>, step: Step)
    requires Run(delay, steps).Some?
    ensures Run(delay, steps).value.d.responderAlive == Restarted(steps)
    ensures Enabled(Run(delay, steps).value, step) && (step.Send? || step.Receive?) ==> Restarted(steps)
  {
    if steps != [] {
      var init, last := steps[..|steps| - 1], steps[|steps| - 1];
      AliveExact(delay, init, last);
      StepRestarts(Run(delay, init).value, delay, last);
      hide Next;
    }
  }

  // ----- A run that loses a load ------------------------------------------------------------------------------

  function SendSteps(id: Id): seq<Step> { [Load(id, None)] + [Queue] + [Send(true)] }

  function AnswerSteps(id: Id): seq<Step> { [Answer(id, true)] + [Receive(id, true)] }

  function Registered(s: System, id: Id): System {
    s.(d := s.d.(remotes := s.d.remotes[id := None], pending := s.d.pending + {id}, responderAlive := true))
  }

  function Sent(s: System, id: Id): System { Registered(s, id).(sent := s.sent + multiset{id}) }

  predicate CanLoad(s: System, id: Id) {
    id !in s.d.remotes && s.d.registering == None && s.d.sendQ == [] && s.d.responder == Idle
  }

  lemma SendRun(delay: int, steps: seq<Step>, s: System, id: Id)
    requires Run(delay, steps) == Some(s) && CanLoad(s, id)
    ensures Run(delay, steps + SendSteps(id)) == Some(Sent(s, id))
  {
    hide Run;
    var queued := Registered(s, id).(d := Registered(s, id).d.(sendQ := [id]));
    RunExtends(delay, steps, s, Load(id, None));
    RunExtends(delay, steps + [Load(id, None)], Next(s, delay, Load(id, None)), Queue);
    assert s.d.sendQ + [id] == [id] && [id][1..] == s.d.sendQ;
    RunExtends(delay, steps + [Load(id, None)] + [Queue], queued, Send(true));
    assert steps + SendSteps(id) == steps + [Load(id, None)] + [Queue] + [Send(true)];
  }

  /** The answer is read, and the copy queue takes the load or the response thread copies itself. */
  lemma AnswerRun(delay: int, steps: seq<Step>, s: System, id: Id)
    requires Run(delay, steps) == Some(s) && id in s.sent && id in s.d.pending && CanRead(s.d) && s.good == multiset{}
    ensures var read := s.(sent := s.sent - multiset{id}, answered := s.answered + {id});
            Run(delay, steps + AnswerSteps(id)) == Some(read.(d := HandleResponse(s.d, id, true)))
  {
    hide Run, HandleResponse;
    var s1 := Next(s, delay, Answer(id, true));
    assert s1.good == multiset{id} && s1.good - multiset{id} == multiset{};
    RunExtends(delay, steps, s, Answer(id, true));
    RunExtends(delay, steps + [Answer(id, true)], s1, Receive(id, true));
    assert steps + AnswerSteps(id) == steps + [Answer(id, true)] + [Receive(id, true)];
  }

  /** Only the copy queue is in use, with the loads below `n`. */
  predicate OnlyQueued(s: System, n: nat) {
    && OnWire(s) == s.lost == multiset{} && s.d.sendQ == [] && s.d.registering == None
    && s.d.responder == Idle && |s.d.h2dQ| == n && forall id :: id in s.d.remotes ==> id < n
  }

  lemma OneLoad(delay: int, steps: seq<Step>, s: System, n: nat) returns (t: System)
    requires Run(delay, steps) == Some(s) && OnlyQueued(s, n) && n < H2D_QUEUE_SIZE
    ensures Run(delay, steps + SendSteps(n) + AnswerSteps(n)) == Some(t) && OnlyQueued(t, n + 1)
  {
    hide Run;
    assert s.sent <= OnWire(s) && s.good <= OnWire(s) && s.bad <= OnWire(s);
    SendRun(delay, steps, s, n);
    assert s.sent + multiset{n} == multiset{n};
    AnswerRun(delay, steps + SendSteps(n), Sent(s, n), n);
    t := Sent(s, n).(sent := multiset{n} - multiset{n}, answered := s.answered + {n},
                     d := HandleResponse(Sent(s, n).d, n, true));
  }

  /** The steps that fill the copy queue with `n` loads. */
  function FillSteps(n: nat): seq<Step> {
    if n == 0 then [] else FillSteps(n - 1) + SendSteps(n - 1) + AnswerSteps(n - 1)
  }

  lemma InitialQueued()
    ensures OnlyQueued(Initial(), 0)
  {
  }

  lemma {:induction false} FillRun(delay: int, n: nat) returns (s: System)
    requires n <= H2D_QUEUE_SIZE
    ensures Run(delay, FillSteps(n)) == Some(s) && OnlyQueued(s, n)
  {
    hide OnlyQueued, SendSteps, AnswerSteps;
    if n == 0 {
      s := Initial();
      InitialQueued();
    } else {
      hide Run, Initial;
      var before := FillRun(delay, n - 1);
      s := OneLoad(delay, FillSteps(n - 1), before, n - 1);
    }
  }

  /** The copy queue is full and two more loads are sent; the response thread copies the first of them itself
      and ends. */
  function LosingSteps(n: nat): seq<Step> {
    FillSteps(n) + SendSteps(n) + SendSteps(n + 1) + AnswerSteps(n) + [Raise(true)]
  }

  /** The second of them is lost. */
  lemma LostLoadExample(delay: int)
    ensures var n, run := H2D_QUEUE_SIZE, Run(delay, LosingSteps(H2D_QUEUE_SIZE));
            run.Some? && n in run.value.failed && n + 1 in run.value.lost
  {
    hide Run, FillSteps, SendSteps, AnswerSteps;
    var n := H2D_QUEUE_SIZE;
    var s := FillRun(delay, n);
    assert s.sent <= OnWire(s) && s.good <= OnWire(s);
    SendRun(delay, FillSteps(n), s, n);
    var s1 := Sent(s, n);
    SendRun(delay, FillSteps(n) + SendSteps(n), s1, n + 1);
    var s2 := Sent(s1, n + 1);
    AnswerRun(delay, FillSteps(n) + SendSteps(n) + SendSteps(n + 1), s2, n);
    var s3 := s2.(sent := s2.sent - multiset{n}, answered := s2.answered + {n}, d := HandleResponse(s2.d, n, true));
    RunExtends(delay, FillSteps(n) + SendSteps(n) + SendSteps(n + 1) + AnswerSteps(n), s3, Raise(true));
    assert n + 1 in s3.sent;
  }
}

/** The transfer of a request's KV blocks from a prefill to a decode instance
    (omni/accelerators/pd/omni_cache_connector_v1.py), with one rank per decode instance.

    On the decode side an executor registers loads, a response thread sends them and reads the
    answers, and a worker copies the blocks to the device.  Their critical sections are the steps of
    the model; the steps of all threads and of the prefill side interleave freely.  A request's context
    object is represented by its request id.
 */
module TransferProtocol {
  import opened Wrappers

  type Id = nat

  const H2D_QUEUE_SIZE: nat := 1024

  // ----- The decode worker ---------------------------------------------------------------------------

  /** What a thread that runs `_post_success` does next. */
  datatype Phase = ToCopy | ToNotify | ToAppend | ToPop
  datatype Job = Idle | Busy(id: Id, phase: Phase)

  /** `remotes` holds the prefill request id of every context; `registering` has been put in `pending`
      but not yet in `sendQ`. */
  datatype Decode = Decode(remotes: map<Id, Option<Id>>, pending: set<Id>, registering: Option<Id>, sendQ: seq<Id>,
                           responder: Job, responderAlive: bool, h2dQ: seq<Id>, copier: Job, recving: seq<Id>)

  predicate CanRead(d: Decode) { d.responderAlive && d.responder.Idle? }

  function Register(d: Decode, id: Id, remote: Option<Id>): Decode {
    d.(remotes := d.remotes[id := remote], pending := d.pending + {id}, registering := Some(id), responderAlive := true)
  }

  function Enqueue(d: Decode): Decode
    requires d.registering.Some?
  {
    d.(sendQ := d.sendQ + [d.registering.value], registering := None)
  }

  function SendNext(d: Decode, ok: bool): Decode
    requires d.sendQ != []
  {
    d.(sendQ := d.sendQ[1..], pending := if ok then d.pending else d.pending - {d.sendQ[0]})
  }

  /** An answer for an unknown request is an orphan and is dropped; when the copy queue is full the
      response thread copies itself. */
  function HandleResponse(d: Decode, id: Id, success: bool): Decode {
    if id !in d.pending then d
    else if !success then d.(pending := d.pending - {id})
    else if |d.h2dQ| < H2D_QUEUE_SIZE then d.(h2dQ := d.h2dQ + [id])
    else d.(responder := Busy(id, ToCopy))
  }

  function TakeJob(d: Decode): Decode
    requires d.h2dQ != []
  {
    d.(copier := Busy(d.h2dQ[0], ToCopy), h2dQ := d.h2dQ[1..])
  }

  function SetJob(d: Decode, inline: bool, job: Job): Decode {
    if inline then d.(responder := job) else d.(copier := job)
  }

  function JobOf(d: Decode, inline: bool): Job { if inline then d.responder else d.copier }

  /** The next part of `_post_success`, when it does not raise. */
  function Work(d: Decode, inline: bool): Decode
    requires JobOf(d, inline).Busy?
  {
    var id := JobOf(d, inline).id;
    match JobOf(d, inline).phase
    case ToCopy => SetJob(d, inline, Busy(id, ToNotify))
    case ToNotify => SetJob(d, inline, Busy(id, ToAppend))
    case ToAppend => SetJob(d, inline, Busy(id, ToPop)).(recving := d.recving + [id])
    case ToPop => SetJob(d, inline, Idle).(pending := d.pending - {id})
  }

  /** A copy that raises, or a connection for the notification: the worker forgets the request, the response
      thread dies. */
  function WorkRaises(d: Decode, inline: bool): Decode
    requires JobOf(d, inline).Busy?
  {
    if inline then d.(responder := Idle, responderAlive := false)
    else d.(copier := Idle, pending := d.pending - {d.copier.id})
  }

  function Collect(d: Decode): Decode { d.(recving := []) }

  class DecodeConnectorWorker {
    var remotes: map<Id, Option<Id>>
    var pending: set<Id>
    var registering: Option<Id>
    var sendQ: seq<Id>
    var responder: Job
    var responderAlive: bool
    var h2dQ: seq<Id>
    var copier: Job
    var recvingTransfers: seq<Id>

    function State(): Decode
      reads this
    {
      Decode(remotes, pending, registering, sendQ, responder, responderAlive, h2dQ, copier, recvingTransfers)
    }

    constructor ()
      ensures State() == Decode(map[], {}, None, [], Idle, false, [], Idle, [])
    {
      remotes, pending, registering, sendQ := map[], {}, None, [];
      responder, responderAlive, h2dQ, copier, recvingTransfers := Idle, false, [], Idle, [];
    }

    /** `_read_blocks` up to the end of its critical section. */
    method ReadBlocks(id: Id, remote: Option<Id>)
      modifies this
      ensures State() == Register(old(State()), id, remote)
    {
      responderAlive := true;
      remotes := remotes[id := remote];
      pending := pending + {id};
      registering := Some(id);
    }

    /** The proxy's `send_request`. */
    method SendRequest()
      requires registering.Some?
      modifies this
      ensures State() == Enqueue(old(State()))
    {
      sendQ := sendQ + [registering.value];
      registering := None;
    }

    method SendQueued(ok: bool) returns (id: Id)
      requires sendQ != []
      modifies this
      ensures id == old(sendQ[0]) && State() == SendNext(old(State()), ok)
    {
      id := sendQ[0];
      sendQ := sendQ[1..];
      if !ok {
        pending := pending - {id};
      }
    }

    method OnResponse(id: Id, success: bool)
      modifies this
      ensures State() == HandleResponse(old(State()), id, success)
    {
      if id !in pending {
        return;
      }
      if !success {
        pending := pending - {id};
        return;
      }
      if |h2dQ| < H2D_QUEUE_SIZE {
        h2dQ := h2dQ + [id];
      } else {
        responder := Busy(id, ToCopy);
      }
    }

    method H2DWorker()
      requires h2dQ != []
      modifies this
      ensures State() == TakeJob(old(State()))
    {
      copier := Busy(h2dQ[0], ToCopy);
      h2dQ := h2dQ[1..];
    }

    /** `note` is the prefill request that is told of the copy. */
    method PostSuccess(inline: bool) returns (note: Option<Id>)
      requires JobOf(State(), inline).Busy? && JobOf(State(), inline).id in remotes
      modifies this
      ensures State() == Work(old(State()), inline)
      ensures var job := old(JobOf(State(), inline)); note == if job.phase.ToNotify? then old(remotes[job.id]) else None
    {
      var job := if inline then responder else copier;
      var next := Idle;
      note := None;
      match job.phase {
        case ToCopy => next := Busy(job.id, ToNotify);
        case ToNotify =>
          note := remotes[job.id];
          next := Busy(job.id, ToAppend);
        case ToAppend =>
          recvingTransfers := recvingTransfers + [job.id];
          next := Busy(job.id, ToPop);
        case ToPop => pending := pending - {job.id};
      }
      if inline { responder := next; } else { copier := next; }
    }

    method PostSuccessRaises(inline: bool)
      requires JobOf(State(), inline).Busy?
      modifies this
      ensures State() == WorkRaises(old(State()), inline)
    {
      if inline {
        responder, responderAlive := Idle, false;
      } else {
        pending := pending - {copier.id};
        copier := Idle;
      }
    }

    method GetFinished() returns (doneRecving: set<Id>)
      modifies this
      ensures State() == Collect(old(State()))
      ensures doneRecving == set id | id in old(recvingTransfers)
    {
      doneRecving := {};
      for k := 0 to |recvingTransfers|
        invariant State() == old(State())
        invariant doneRecving == set id | id in recvingTransfers[..k]
      {
        doneRecving := doneRecving + {recvingTransfers[k]};
      }
      assert recvingTransfers[..|recvingTransfers|] == recvingTransfers;
      recvingTransfers := [];
    }
  }

  // ----- The prefill side --------------------------------------------------------------------------------

  /** A request handed back as done sending, after a notification or for its delay, in a call of
      `get_finished`. */
  datatype Report = Pulled(id: Id, call: nat) | Late(id: Id, finished: int, now: int, call: nat)

  /** `recorded` are the scheduler's finish times, `metadata` those built and not yet seen by the worker,
      oldest first; `sending` is what the open call of `get_finished` has collected. */
  datatype Prefill = Prefill(recorded: map<Id, int>, metadata: seq<map<Id, int>>, times: map<Id, int>,
                             receiveList: seq<Id>, sending: Option<set<Id>>)

  function RequestFinished(p: Prefill, id: Id, now: int): Prefill { p.(recorded := p.recorded[id := now]) }

  function HandOver(p: Prefill): Prefill {
    p.(recorded := map[], metadata := p.metadata + [p.recorded])
  }

  /** The worker's finish times with those of the metadata it is given. */
  function Updated(p: Prefill): map<Id, int>
    requires p.metadata != []
  {
    p.times + p.metadata[0]
  }

  function OutOfDate(p: Prefill, delay: int, now: int): set<Id>
    requires p.metadata != []
  {
    set id | id in Updated(p) && now - Updated(p)[id] > delay
  }

  /** The worker's first critical section. */
  function Expire(p: Prefill, delay: int, now: int): Prefill
    requires p.metadata != []
  {
    var late := OutOfDate(p, delay, now);
    p.(metadata := p.metadata[1..], times := Updated(p) - late, sending := Some(late))
  }

  function LateReports(p: Prefill, delay: int, now: int, call: nat): set<Report>
    requires p.metadata != []
  {
    set id | id in OutOfDate(p, delay, now) :: Late(id, Updated(p)[id], now, call)
  }

  /** The notification thread's critical section. */
  function Notified(p: Prefill, ids: seq<Id>): Prefill { p.(receiveList := p.receiveList + ids) }

  function Received(p: Prefill): set<Id> { set id | id in p.receiveList }

  /** The worker's second critical section. */
  function Release(p: Prefill): Prefill {
    p.(times := p.times - Received(p), receiveList := [], sending := None)
  }

  function PulledReports(p: Prefill, call: nat): set<Report> { set id | id in p.receiveList :: Pulled(id, call) }

  /** The finish times of scheduler and worker, and the list that the notification thread extends. */
  class PrefillConnector {
    var recorded: map<Id, int>
    var metadata: seq<map<Id, int>>
    var requestsFinishTime: map<Id, int>
    var receiveReqList: seq<Id>
    var allDoneSending: Option<set<Id>>

    function State(): Prefill
      reads this
    {
      Prefill(recorded, metadata, requestsFinishTime, receiveReqList, allDoneSending)
    }

    constructor ()
      ensures State() == Prefill(map[], [], map[], [], None)
    {
      recorded, metadata, requestsFinishTime, receiveReqList, allDoneSending := map[], [], map[], [], None;
    }

    /** Blocks are held back only for a request that ended by length and owns blocks. */
    method OnRequestFinished(id: Id, lengthCapped: bool, numBlocks: nat, now: int) returns (delayFreeBlocks: bool)
      modifies this
      ensures delayFreeBlocks <==> lengthCapped && numBlocks > 0
      ensures State() == if delayFreeBlocks then RequestFinished(old(State()), id, now) else old(State())
    {
      if !lengthCapped {
        return false;
      }
      delayFreeBlocks := numBlocks > 0;
      if delayFreeBlocks {
        recorded := recorded[id := now];
      }
    }

    /** What finishes from here on goes into the next metadata. */
    method BuildConnectorMetadata()
      modifies this
      ensures State() == HandOver(old(State()))
    {
      metadata := metadata + [recorded];
      recorded := map[];
    }

    /** A notification names the requests that were pulled. */
    method GetPulledKvReqList(ids: seq<Id>)
      modifies this
      ensures State() == Notified(old(State()), ids)
    {
      receiveReqList := receiveReqList + ids;
    }

    /** The first half of `get_finished`: take over the times of the metadata, then give up what is out of
        date. */
    method ReleaseOutOfDate(delay: int, now: int)
      requires metadata != []
      modifies this
      ensures State() == Expire(old(State()), delay, now)
    {
      requestsFinishTime := requestsFinishTime + metadata[0];
      metadata := metadata[1..];
      var rest, outDate: set<Id> := requestsFinishTime.Keys, {};
      while rest != {}
        invariant rest <= requestsFinishTime.Keys
        invariant State() == old(State()).(metadata := old(metadata[1..]), times := old(Updated(State())))
        invariant forall id :: id in outDate <==>
                    id in requestsFinishTime && id !in rest && now - requestsFinishTime[id] > delay
        decreases |rest|
      {
        var id :| id in rest;
        rest := rest - {id};
        if now - requestsFinishTime[id] > delay {
          outDate := outDate + {id};
        }
      }
      assert outDate == OutOfDate(old(State()), delay, now);
      requestsFinishTime := requestsFinishTime - outDate;
      allDoneSending := Some(outDate);
    }

    /** The second half of `get_finished`, with the result of the whole call. */
    method ReleaseReceived() returns (doneSending: set<Id>)
      requires allDoneSending.Some?
      modifies this
      ensures State() == Release(old(State()))
      ensures doneSending == old(allDoneSending.value) + Received(old(State()))
    {
      doneSending := allDoneSending.value;
      for k := 0 to |receiveReqList|
        invariant receiveReqList == old(receiveReqList) && recorded == old(recorded) && metadata == old(metadata)
        invariant doneSending == old(allDoneSending.value) + (set id | id in receiveReqList[..k])
        invariant requestsFinishTime == old(requestsFinishTime) - (set id | id in receiveReqList[..k])
      {
        doneSending := doneSending + {receiveReqList[k]};
        requestsFinishTime := requestsFinishTime - {receiveReqList[k]};
      }
      assert receiveReqList[..|receiveReqList|] == receiveReqList;
      receiveReqList := [];
      allDoneSending := None;
    }
  }

  // ----- The whole system ------------------------------------------------------------------------------

  /** `sent`, `good` and `bad` are requests and answers on their way to and from the transfer server,
      `notes` notifications on their way to the prefill side.  `lost` are loads whose answer has nobody to
      arrive at.  The last seven fields are history;
      `calls` counts the calls of `get_finished` that have returned. */
  datatype System = System(d: Decode, sent: multiset<Id>, good: multiset<Id>, bad: multiset<Id>,
                           lost: multiset<Id>, notes: multiset<Id>, p: Prefill,
                           done: seq<Id>, answered: set<Id>, copied: set<Id>, failed: set<Id>,
                           finishedAt: map<Id, int>, released: set<Report>, calls: nat)

  datatype Step =
    | Load(id: Id, remote: Option<Id>)
    | Queue
    | Send(ok: bool)
    | Answer(id: Id, success: bool)
    | Receive(id: Id, success: bool)
    | StartCopy
    | Proceed(inline: bool, noteLost: bool)
    | Raise(inline: bool)
    | GetDone
    | Finish(id: Id, now: int)
    | BuildMetadata
    | ReleaseLate(now: int)
    | Deliver(id: Id)
    | ReleasePulled

  function Initial(): System {
    System(Decode(map[], {}, None, [], Idle, false, [], Idle, []),
           multiset{}, multiset{}, multiset{}, multiset{}, multiset{},
           Prefill(map[], [], map[], [], None), [], {}, {}, {}, map[], {}, 0)
  }

  /** A request id is loaded once and finishes once; the executor and each thread do one thing at a time. */
  predicate Enabled(s: System, step: Step) {
    match step
    case Load(id, _) => id !in s.d.remotes && s.d.registering.None?
    case Queue => s.d.registering.Some?
    case Send(_) => CanRead(s.d) && s.d.sendQ != []
    case Answer(id, _) => id in s.sent
    case Receive(id, success) => CanRead(s.d) && id in (if success then s.good else s.bad)
    case StartCopy => s.d.copier.Idle? && s.d.h2dQ != []
    case Proceed(inline, _) => JobOf(s.d, inline).Busy?
    case Raise(inline) => var job := JobOf(s.d, inline); job.Busy? && (job.phase.ToCopy? || job.phase.ToNotify?)
    case GetDone => true
    case Finish(id, _) => id !in s.finishedAt
    case BuildMetadata => true
    case ReleaseLate(_) => s.p.sending.None? && s.p.metadata != []
    case Deliver(id) => id in s.notes
    case ReleasePulled => s.p.sending.Some?
  }

  /** The notification that the job sends in its next part. */
  function NoteOf(d: Decode, inline: bool): multiset<Id>
    requires JobOf(d, inline).Busy?
  {
    var job := JobOf(d, inline);
    if job.phase.ToNotify? && job.id in d.remotes && d.remotes[job.id].Some? then multiset{d.remotes[job.id].value}
    else multiset{}
  }

  /** The loads that have been sent and whose answer has not been read. */
  function OnWire(s: System): multiset<Id> { s.sent + s.good + s.bad }

  /** The response thread closes its socket when it ends; the next one connects under another name, so that
      no answer to what was sent before arrives any more. */
  function CutOff(s: System): System {
    s.(sent := multiset{}, good := multiset{}, bad := multiset{}, lost := s.lost + OnWire(s))
  }

  function Raised(s: System, inline: bool): System
    requires JobOf(s.d, inline).Busy?
  {
    var dropped := s.(d := WorkRaises(s.d, inline), failed := s.failed + {JobOf(s.d, inline).id});
    if inline then CutOff(dropped) else dropped
  }

  function Next(s: System, delay: int, step: Step): System
    requires Enabled(s, step)
  {
    match step
    case Load(id, remote) => s.(d := Register(s.d, id, remote))
    case Queue => s.(d := Enqueue(s.d))
    case Send(ok) =>
      var id := s.d.sendQ[0];
      if ok then s.(d := SendNext(s.d, true), sent := s.sent + multiset{id})
      else s.(d := SendNext(s.d, false), failed := s.failed + {id})
    case Answer(id, success) =>
      if success then s.(sent := s.sent - multiset{id}, good := s.good + multiset{id}, answered := s.answered + {id})
      else s.(sent := s.sent - multiset{id}, bad := s.bad + multiset{id})
    case Receive(id, success) =>
      if success then s.(d := HandleResponse(s.d, id, true), good := s.good - multiset{id})
      else s.(d := HandleResponse(s.d, id, false), bad := s.bad - multiset{id}, failed := s.failed + {id})
    case StartCopy => s.(d := TakeJob(s.d))
    case Proceed(inline, noteLost) =>
      var job := JobOf(s.d, inline);
      s.(d := Work(s.d, inline),
         notes := s.notes + if noteLost then multiset{} else NoteOf(s.d, inline),
         copied := if job.phase.ToCopy? then s.copied + {job.id} else s.copied)
    case Raise(inline) => Raised(s, inline)
    case GetDone => s.(d := Collect(s.d), done := s.done + s.d.recving)
    case Finish(id, now) => s.(p := RequestFinished(s.p, id, now), finishedAt := s.finishedAt[id := now])
    case BuildMetadata => s.(p := HandOver(s.p))
    case ReleaseLate(now) =>
      s.(p := Expire(s.p, delay, now), released := s.released + LateReports(s.p, delay, now, s.calls))
    case Deliver(id) => s.(notes := s.notes - multiset{id}, p := Notified(s.p, [id]))
    case ReleasePulled =>
      s.(p := Release(s.p), released := s.released + PulledReports(s.p, s.calls), calls := s.calls + 1)
  }

  /** The state after the steps; None when one of them was not enabled. */
  function Run(delay: int, steps: seq<Step>): Option<System> {
    if steps == [] then Some(Initial())
    else
      var before := Run(delay, steps[..|steps| - 1]);
      if before.Some? && Enabled(before.value, steps[|steps| - 1]) then
        Some(Next(before.value, delay, steps[|steps| - 1]))
      else None
  }

  /** The steps of the transfer server and of the prefill side. */
  predicate Elsewhere(step: Step) {
    step.Answer? || step.Finish? || step.BuildMetadata? || step.ReleaseLate? || step.Deliver? || step.ReleasePulled?
  }

  lemma DecodeUntouched(s: System, delay: int, step: Step)
    requires Enabled(s, step) && Elsewhere(step)
    ensures Next(s, delay, step).d == s.d
  {
  }

  lemma RunExtends(delay: int, steps: seq<Step>, s: System, step: Step)
    requires Run(delay, steps) == Some(s) && Enabled(s, step)
    ensures Run(delay, steps + [step]) == Some(Next(s, delay, step))
  {
    assert (steps + [step])[..|steps|] == steps;
  }

  // ----- Where a load is -------------------------------------------------------------------------------

  function Held(job: Job): multiset<Id> { if job.Busy? && !job.phase.ToPop? then multiset{job.id} else multiset{} }

  function Registering(d: Decode): multiset<Id> {
    if d.registering.Some? then multiset{d.registering.value} else multiset{}
  }

  /** The loads that are on their way or lost, each as often as it occurs anywhere. */
  function InFlight(s: System): multiset<Id> { Outgoing(s) + Answered(s) }

  function Outgoing(s: System): multiset<Id> { Registering(s.d) + multiset(s.d.sendQ) + s.sent + s.bad + s.lost }

  function Answered(s: System): multiset<Id> {
    s.good + multiset(s.d.h2dQ) + Held(s.d.responder) + Held(s.d.copier)
  }

  function Delivered(s: System): multiset<Id> { multiset(s.d.recving) + multiset(s.done) }

  /** The loads that still move. */
  function Moving(s: System): multiset<Id> {
    Registering(s.d) + multiset(s.d.sendQ) + s.sent + s.bad + Answered(s)
  }

  /** Every load has either failed or is in exactly one place. */
  ghost predicate Conserved(s: System) {
    && (forall id :: id in InFlight(s) + Delivered(s) ==> id in s.d.remotes && (InFlight(s) + Delivered(s))[id] == 1)
    && (forall id :: id in s.d.remotes ==> id in InFlight(s) + Delivered(s) || id in s.failed)
    && (forall id :: id in s.failed ==> id in s.d.remotes && id !in InFlight(s) + Delivered(s))
  }

  /** A load is pending as long as it is on its way, and for good when it is lost. */
  ghost predicate PendingKept(s: System) {
    && (forall id :: id in InFlight(s) ==> id in s.d.pending)
    && (s.d.responder.Busy? && s.d.responder.phase.ToPop? ==> s.d.responder.id in Delivered(s))
    && (s.d.copier.Busy? && s.d.copier.phase.ToPop? ==> s.d.copier.id in Delivered(s))
  }

  predicate CopyDone(job: Job) { job.Busy? && !job.phase.ToCopy? }

  /** Only what was answered is copied, and only what was copied is delivered. */
  ghost predicate Ordered(s: System) {
    && (forall id :: id in Answered(s) + Delivered(s) ==> id in s.answered)
    && (forall id :: id in Delivered(s) ==> id in s.copied)
    && (forall id :: id in s.copied ==> id in s.answered && id in s.d.remotes)
    && (CopyDone(s.d.responder) ==> s.d.responder.id in s.copied)
    && (CopyDone(s.d.copier) ==> s.d.copier.id in s.copied)
  }

  /** Some load for this prefill request was copied. */
  ghost predicate CopiedFor(s: System, r: Id) {
    exists id :: id in s.copied && id in s.d.remotes && s.d.remotes[id] == Some(r)
  }

  ghost predicate TimesOf(s: System, m: map<Id, int>) {
    forall r :: r in m ==> r in s.finishedAt && m[r] == s.finishedAt[r]
  }

  ghost predicate PrefillSafe(s: System, delay: int) {
    && (forall r :: r in s.notes ==> CopiedFor(s, r))
    && (forall r :: r in s.p.receiveList ==> CopiedFor(s, r))
    && (forall r :: r in s.p.times ==> r in s.finishedAt && s.p.times[r] == s.finishedAt[r])
    && (forall r :: r in s.p.recorded ==> r in s.finishedAt && s.p.recorded[r] == s.finishedAt[r])
    && (forall k :: 0 <= k < |s.p.metadata| ==> TimesOf(s, s.p.metadata[k]))
    && (forall e :: e in s.released ==> Justified(s, delay, e))
  }

  /** A release is allowed after the copy or once the delay has passed since the request finished. */
  ghost predicate Justified(s: System, delay: int, e: Report) {
    match e
    case Pulled(r, _) => CopiedFor(s, r)
    case Late(r, finished, now, _) => r in s.finishedAt && s.finishedAt[r] == finished && now - finished > delay
  }

  ghost predicate Inv(s: System, delay: int) { Conserved(s) && PendingKept(s) && Ordered(s) && PrefillSafe(s, delay) }

  // ----- What keeps each part of the invariant ---------------------------------------------------------

  function Everywhere(s: System): multiset<Id> { InFlight(s) + Delivered(s) }

  /** No load appears or vanishes. */
  lemma ConservedSame(s: System, t: System)
    requires Conserved(s) && Everywhere(t) == Everywhere(s) && t.d.remotes == s.d.remotes && s.failed == t.failed
    ensures Conserved(t)
  {
    hide InFlight, Delivered;
  }

  lemma ConservedAdded(s: System, t: System, id: Id)
    requires Conserved(s) && Everywhere(t) == Everywhere(s) + multiset{id} && id !in s.d.remotes
    requires t.d.remotes.Keys == s.d.remotes.Keys + {id} && t.failed == s.failed
    ensures Conserved(t)
  {
    hide InFlight, Delivered;
    forall x | x in Everywhere(t) ensures x in t.d.remotes && Everywhere(t)[x] == 1 {
      assert x == id || x in Everywhere(s);
    }
    forall x | x in t.d.remotes ensures x in Everywhere(t) || x in t.failed {
      assert x == id || x in s.d.remotes;
    }
    forall x | x in t.failed ensures x in t.d.remotes && x !in Everywhere(t) {
      assert x in s.d.remotes && x !in Everywhere(s);
    }
  }

  /** A load that leaves has failed. */
  lemma ConservedLost(s: System, t: System, id: Id)
    requires Conserved(s) && Everywhere(s) == Everywhere(t) + multiset{id}
    requires t.d.remotes == s.d.remotes && t.failed == s.failed + {id}
    ensures Conserved(t)
  {
    hide InFlight, Delivered;
    forall x | x in Everywhere(t) ensures x in t.d.remotes && Everywhere(t)[x] == 1 {
      assert x in Everywhere(s);
    }
    forall x | x in t.d.remotes ensures x in Everywhere(t) || x in t.failed {
      assert x == id || (x in Everywhere(s) ==> x in Everywhere(t));
    }
    assert id in Everywhere(s) && id !in Everywhere(t);
    forall x | x in t.failed ensures x in t.d.remotes && x !in Everywhere(t) {
      assert x == id || x !in Everywhere(s);
    }
  }

  predicate Popping(job: Job, id: Id) { job == Busy(id, ToPop) }

  /** Jobs that are about to pop have delivered already. */
  ghost predicate PopsDelivered(s: System) {
    forall id :: Popping(s.d.responder, id) || Popping(s.d.copier, id) ==> id in Delivered(s)
  }

  lemma PendingSame(s: System, t: System)
    requires PendingKept(s) && InFlight(t) <= InFlight(s) && s.d.pending <= t.d.pending && PopsDelivered(t)
    ensures PendingKept(t)
  {
    hide InFlight, Delivered;
    forall id | id in InFlight(t) ensures id in t.d.pending { assert id in InFlight(s); }
    assert t.d.responder.Busy? ==> (t.d.responder.phase.ToPop? ==> Popping(t.d.responder, t.d.responder.id));
    assert t.d.copier.Busy? ==> (t.d.copier.phase.ToPop? ==> Popping(t.d.copier, t.d.copier.id));
  }

  /** Only a load that is not on its way any more is removed. */
  lemma PendingLost(s: System, t: System, id: Id)
    requires PendingKept(s) && InFlight(t) <= InFlight(s) && id !in InFlight(t) && s.d.pending - {id} <= t.d.pending
    requires PopsDelivered(t)
    ensures PendingKept(t)
  {
    hide InFlight, Delivered;
    forall x | x in InFlight(t) ensures x in t.d.pending { assert x in InFlight(s); }
    assert t.d.responder.Busy? ==> (t.d.responder.phase.ToPop? ==> Popping(t.d.responder, t.d.responder.id));
    assert t.d.copier.Busy? ==> (t.d.copier.phase.ToPop? ==> Popping(t.d.copier, t.d.copier.id));
  }

  lemma PopsSame(s: System, t: System)
    requires PendingKept(s) && Delivered(s) <= Delivered(t)
    requires forall id :: Popping(t.d.responder, id) ==> Popping(s.d.responder, id)
    requires forall id :: Popping(t.d.copier, id) ==> Popping(s.d.copier, id)
    ensures PopsDelivered(t)
  {
    hide InFlight, Delivered;
    forall id | Popping(t.d.responder, id) || Popping(t.d.copier, id) ensures id in Delivered(t) {
      assert id in Delivered(s);
    }
  }

  lemma OnlyOnce(s: System, id: Id, rest: multiset<Id>)
    requires Conserved(s) && Everywhere(s) == rest + multiset{id}
    ensures id !in rest
  {
    hide InFlight, Delivered;
    assert id in Everywhere(s);
  }

  lemma OrderedSame(s: System, t: System)
    requires Ordered(s) && t.copied == s.copied && s.answered <= t.answered && s.d.remotes.Keys <= t.d.remotes.Keys
    requires forall id :: id in Answered(t) + Delivered(t) ==> id in Answered(s) + Delivered(s) || id in t.answered
    requires forall id :: id in Delivered(t) ==> id in Delivered(s) || id in t.copied
    requires CopyDone(t.d.responder) ==> t.d.responder.id in t.copied
    requires CopyDone(t.d.copier) ==> t.d.copier.id in t.copied
    ensures Ordered(t)
  {
    hide Answered, Delivered;
  }

  /** What the prefill side may rely on only grows. */
  lemma CopiesStay(s: System, t: System, r: Id)
    requires CopiedFor(s, r)
    requires forall id :: id in s.copied && id in s.d.remotes ==>
               id in t.copied && id in t.d.remotes && t.d.remotes[id] == s.d.remotes[id]
    ensures CopiedFor(t, r)
  {
    var id :| id in s.copied && id in s.d.remotes && s.d.remotes[id] == Some(r);
    assert id in t.copied && t.d.remotes[id] == Some(r);
  }

  lemma PrefillSame(s: System, t: System, delay: int)
    requires PrefillSafe(s, delay) && t.p == s.p && t.released == s.released && t.finishedAt == s.finishedAt
    requires forall id :: id in s.copied && id in s.d.remotes ==>
               id in t.copied && id in t.d.remotes && t.d.remotes[id] == s.d.remotes[id]
    requires forall r :: r in t.notes ==> r in s.notes || CopiedFor(t, r)
    ensures PrefillSafe(t, delay)
  {
    hide CopiedFor;
    forall r | r in t.notes ensures CopiedFor(t, r) { if r in s.notes { CopiesStay(s, t, r); } }
    forall r | r in t.p.receiveList ensures CopiedFor(t, r) { CopiesStay(s, t, r); }
    forall e | e in t.released ensures Justified(t, delay, e) {
      if e.Pulled? { CopiesStay(s, t, e.id); }
    }
  }

  // ----- Every step keeps the invariant ------------------------------------------------------------------

  lemma HeadTail(q: seq<Id>)
    requires q != []
    ensures multiset(q) == multiset{q[0]} + multiset(q[1..])
  {
    assert q == [q[0]] + q[1..];
  }

  lemma OrderedJobs(s: System)
    requires Ordered(s)
    ensures CopyDone(s.d.responder) ==> s.d.responder.id in s.copied
    ensures CopyDone(s.d.copier) ==> s.d.copier.id in s.copied
  {
  }

  lemma KnownCopies(s: System, delay: int)
    requires Inv(s, delay)
    ensures forall id :: id in s.copied ==> id in s.answered && id in s.d.remotes
  {
  }

  /** A step that only moves loads within what is on its way. */
  lemma Unmoved(s: System, t: System, delay: int)
    requires Inv(s, delay) && InFlight(t) == InFlight(s) && Delivered(t) == Delivered(s)
    requires Answered(t) == Answered(s) || forall id :: id in Answered(t) ==> id in Answered(s) || id in t.answered
    requires t.d.remotes == s.d.remotes && t.d.pending == s.d.pending && s.failed == t.failed && t.copied == s.copied
    requires s.answered <= t.answered
    requires forall id :: Popping(t.d.responder, id) ==> Popping(s.d.responder, id)
    requires forall id :: Popping(t.d.copier, id) ==> Popping(s.d.copier, id)
    requires CopyDone(t.d.responder) ==> CopyDone(s.d.responder) && t.d.responder.id == s.d.responder.id
    requires CopyDone(t.d.copier) ==> CopyDone(s.d.copier) && t.d.copier.id == s.d.copier.id
    requires t.p == s.p && t.released == s.released && t.finishedAt == s.finishedAt
    requires forall r :: r in t.notes ==> r in s.notes || CopiedFor(t, r)
    ensures Inv(t, delay)
  {
    hide InFlight, Answered, Delivered, Conserved, PendingKept, PrefillSafe, Ordered;
    ConservedSame(s, t);
    PopsSame(s, t);
    PendingSame(s, t);
    OrderedJobs(s);
    OrderedSame(s, t);
    PrefillSame(s, t, delay);
  }

  lemma SameOutgoing(s: System, t: System)
    ensures t.d.registering == s.d.registering && t.d.sendQ == s.d.sendQ && t.sent == s.sent && t.bad == s.bad
            && t.lost == s.lost ==>
              Outgoing(t) == Outgoing(s)
  {
  }

  lemma Regroup(a: multiset<Id>, b: multiset<Id>, id: Id)
    ensures a + multiset{id} + b == a + b + multiset{id} == a + (b + multiset{id})
  {
  }

  lemma LoadFlow(s: System, t: System, id: Id, remote: Option<Id>)
    requires s.d.registering.None? && t == s.(d := Register(s.d, id, remote))
    ensures InFlight(t) == InFlight(s) + multiset{id} && Answered(t) == Answered(s) && Delivered(t) == Delivered(s)
  {
    hide Answered, Delivered;
    SameAnswered(s, t);
    assert Outgoing(t) == Outgoing(s) + multiset{id};
    Regroup(Outgoing(s), Answered(s), id);
  }

  lemma SameAnswered(s: System, t: System)
    ensures t.good == s.good && t.d.h2dQ == s.d.h2dQ && t.d.responder == s.d.responder && t.d.copier == s.d.copier ==>
              Answered(t) == Answered(s)
    ensures t.d.recving == s.d.recving && t.done == s.done ==> Delivered(t) == Delivered(s)
  {
  }

  lemma LoadKeeps(s: System, delay: int, t: System, id: Id, remote: Option<Id>)
    requires Inv(s, delay) && Enabled(s, Load(id, remote)) && t == s.(d := Register(s.d, id, remote))
    ensures Inv(t, delay)
  {
    hide InFlight, Answered, Delivered, Conserved, Ordered, PrefillSafe;
    LoadFlow(s, t, id, remote);
    ConservedAdded(s, t, id);
    KnownCopies(s, delay);
    OrderedJobs(s);
    OrderedSame(s, t);
    PrefillSame(s, t, delay);
  }

  lemma QueueFlow(s: System, t: System)
    requires s.d.registering.Some? && t == s.(d := Enqueue(s.d))
    ensures InFlight(t) == InFlight(s) && Answered(t) == Answered(s) && Delivered(t) == Delivered(s)
  {
    hide Answered, Delivered;
    SameAnswered(s, t);
    assert Outgoing(t) == Outgoing(s);
  }

  lemma QueueKeeps(s: System, delay: int, t: System)
    requires Inv(s, delay) && s.d.registering.Some? && t == s.(d := Enqueue(s.d))
    ensures Inv(t, delay)
  {
    hide InFlight, Answered, Delivered, Inv;
    QueueFlow(s, t);
    Unmoved(s, t, delay);
  }

  /** A step at which the load `id` fails. */
  lemma Dropped(s: System, t: System, delay: int, id: Id)
    requires Inv(s, delay) && InFlight(s) == InFlight(t) + multiset{id} && Delivered(t) == Delivered(s)
    requires Answered(t) <= Answered(s)
    requires t.d.remotes == s.d.remotes && s.d.pending - {id} <= t.d.pending && t.failed == s.failed + {id}
    requires t.copied == s.copied && s.answered == t.answered
    requires t.d.responder == s.d.responder || t.d.responder.Idle?
    requires t.d.copier == s.d.copier || t.d.copier.Idle?
    requires t.p == s.p && t.released == s.released && t.finishedAt == s.finishedAt && t.notes == s.notes
    ensures Inv(t, delay)
  {
    hide InFlight, Answered, Delivered, Conserved, PendingKept, PrefillSafe, Ordered;
    assert Everywhere(s) == Everywhere(t) + multiset{id};
    ConservedLost(s, t, id);
    OnlyOnce(s, id, Everywhere(t));
    PopsSame(s, t);
    PendingLost(s, t, id);
    OrderedJobs(s);
    OrderedSame(s, t);
    PrefillSame(s, t, delay);
  }

  lemma SendOutgoing(s: System, t: System, ok: bool)
    requires s.d.sendQ != [] && multiset(s.d.sendQ) == multiset{s.d.sendQ[0]} + multiset(s.d.sendQ[1..])
    requires t == if ok then s.(d := SendNext(s.d, true), sent := s.sent + multiset{s.d.sendQ[0]})
                  else s.(d := SendNext(s.d, false), failed := s.failed + {s.d.sendQ[0]})
    ensures Outgoing(s) == if ok then Outgoing(t) else Outgoing(t) + multiset{s.d.sendQ[0]}
  {
  }

  lemma SendFlow(s: System, t: System, ok: bool)
    requires s.d.sendQ != []
    requires t == if ok then s.(d := SendNext(s.d, true), sent := s.sent + multiset{s.d.sendQ[0]})
                  else s.(d := SendNext(s.d, false), failed := s.failed + {s.d.sendQ[0]})
    ensures ok ==> InFlight(t) == InFlight(s)
    ensures !ok ==> InFlight(s) == InFlight(t) + multiset{s.d.sendQ[0]}
    ensures Answered(t) == Answered(s) && Delivered(t) == Delivered(s)
  {
    hide Answered, Delivered;
    SameAnswered(s, t);
    HeadTail(s.d.sendQ);
    SendOutgoing(s, t, ok);
    Regroup(Outgoing(t), Answered(t), s.d.sendQ[0]);
  }

  lemma SendKeeps(s: System, delay: int, t: System, ok: bool)
    requires Inv(s, delay) && s.d.sendQ != []
    requires t == if ok then s.(d := SendNext(s.d, true), sent := s.sent + multiset{s.d.sendQ[0]})
                  else s.(d := SendNext(s.d, false), failed := s.failed + {s.d.sendQ[0]})
    ensures Inv(t, delay)
  {
    hide InFlight, Answered, Delivered, Inv;
    SendFlow(s, t, ok);
    if ok { Unmoved(s, t, delay); } else { Dropped(s, t, delay, s.d.sendQ[0]); }
  }

  lemma GoodAnswer(s: System, t: System, id: Id)
    requires id in s.sent
    requires t == s.(sent := s.sent - multiset{id}, good := s.good + multiset{id}, answered := s.answered + {id})
    ensures Outgoing(s) == Outgoing(t) + multiset{id} && Answered(t) == Answered(s) + multiset{id}
  {
  }

  lemma BadAnswer(s: System, t: System, id: Id)
    requires id in s.sent && t == s.(sent := s.sent - multiset{id}, bad := s.bad + multiset{id})
    ensures Outgoing(s) == Outgoing(t) && Answered(t) == Answered(s)
  {
    hide Answered;
    SameAnswered(s, t);
  }

  lemma AnswerFlow(s: System, t: System, id: Id, success: bool)
    requires id in s.sent
    requires t == if success then
                    s.(sent := s.sent - multiset{id}, good := s.good + multiset{id}, answered := s.answered + {id})
                  else s.(sent := s.sent - multiset{id}, bad := s.bad + multiset{id})
    ensures InFlight(t) == InFlight(s) && Delivered(t) == Delivered(s)
    ensures Answered(t) == if success then Answered(s) + multiset{id} else Answered(s)
  {
    hide Delivered;
    SameAnswered(s, t);
    if success { GoodAnswer(s, t, id); } else { BadAnswer(s, t, id); }
    hide Outgoing, Answered;
    Regroup(Outgoing(t), Answered(s), id);
  }

  lemma AnswerKeeps(s: System, delay: int, t: System, id: Id, success: bool)
    requires Inv(s, delay) && id in s.sent
    requires t == if success then
                    s.(sent := s.sent - multiset{id}, good := s.good + multiset{id}, answered := s.answered + {id})
                  else s.(sent := s.sent - multiset{id}, bad := s.bad + multiset{id})
    ensures Inv(t, delay)
  {
    hide InFlight, Answered, Delivered, Inv;
    AnswerFlow(s, t, id, success);
    Unmoved(s, t, delay);
  }

  /** Answers never meet an unknown request. */
  lemma AnswersAreKnown(s: System, delay: int, id: Id)
    requires Inv(s, delay) && (id in s.good || id in s.bad)
    ensures id in s.d.pending
  {
    assert id in InFlight(s);
  }

  lemma AcceptParts(s: System, t: System, id: Id)
    requires id in s.d.pending && s.d.responder.Idle? && id in s.good
    requires t == s.(d := HandleResponse(s.d, id, true), good := s.good - multiset{id})
    ensures Outgoing(s) == Outgoing(t) && Answered(t) == Answered(s)
  {
    hide Outgoing;
    SameOutgoing(s, t);
    if |s.d.h2dQ| < H2D_QUEUE_SIZE {
      assert multiset(s.d.h2dQ + [id]) == multiset(s.d.h2dQ) + multiset{id};
      MoveBetween(s.good, multiset(s.d.h2dQ), Held(s.d.responder), Held(s.d.copier), id);
    } else {
      MoveBetween(s.good, Held(s.d.responder), multiset(s.d.h2dQ), Held(s.d.copier), id);
    }
  }

  lemma MoveBetween(a: multiset<Id>, b: multiset<Id>, c: multiset<Id>, d: multiset<Id>, id: Id)
    requires id in a
    ensures a - multiset{id} + (b + multiset{id}) + c + d == a + b + c + d
    ensures a - multiset{id} + c + (b + multiset{id}) + d == a + c + b + d
  {
  }

  lemma RejectParts(s: System, t: System, id: Id)
    requires id in s.bad
    requires t == s.(d := s.d.(pending := s.d.pending - {id}), bad := s.bad - multiset{id}, failed := s.failed + {id})
    ensures Outgoing(s) == Outgoing(t) + multiset{id} && Answered(t) == Answered(s)
  {
    hide Answered;
    SameAnswered(s, t);
  }

  lemma ReceiveFlow(s: System, t: System, id: Id, success: bool)
    requires id in s.d.pending && s.d.responder.Idle? && id in (if success then s.good else s.bad)
    requires t == if success then s.(d := HandleResponse(s.d, id, true), good := s.good - multiset{id})
                  else s.(d := HandleResponse(s.d, id, false), bad := s.bad - multiset{id}, failed := s.failed + {id})
    ensures success ==> InFlight(t) == InFlight(s)
    ensures !success ==> InFlight(s) == InFlight(t) + multiset{id}
    ensures Answered(t) == Answered(s) && Delivered(t) == Delivered(s)
  {
    hide Delivered;
    SameAnswered(s, t);
    if success { AcceptParts(s, t, id); } else { RejectParts(s, t, id); }
    hide Outgoing, Answered;
    Regroup(Outgoing(t), Answered(t), id);
  }

  lemma ReceiveKeeps(s: System, delay: int, t: System, id: Id, success: bool)
    requires Inv(s, delay) && s.d.responder.Idle? && id in (if success then s.good else s.bad)
    requires t == if success then s.(d := HandleResponse(s.d, id, true), good := s.good - multiset{id})
                  else s.(d := HandleResponse(s.d, id, false), bad := s.bad - multiset{id}, failed := s.failed + {id})
    ensures Inv(t, delay)
  {
    hide InFlight, Answered, Delivered, Inv;
    AnswersAreKnown(s, delay, id);
    ReceiveFlow(s, t, id, success);
    if success { Unmoved(s, t, delay); } else { Dropped(s, t, delay, id); }
  }

  lemma StartFlow(s: System, t: System)
    requires s.d.copier.Idle? && s.d.h2dQ != [] && t == s.(d := TakeJob(s.d))
    ensures InFlight(t) == InFlight(s) && Answered(t) == Answered(s) && Delivered(t) == Delivered(s)
  {
    SameAnswered(s, t);
    SameOutgoing(s, t);
    hide Delivered, Outgoing;
    HeadTail(s.d.h2dQ);
    assert Answered(t) == Answered(s);
  }

  lemma StartKeeps(s: System, delay: int, t: System)
    requires Inv(s, delay) && s.d.copier.Idle? && s.d.h2dQ != [] && t == s.(d := TakeJob(s.d))
    ensures Inv(t, delay)
  {
    hide InFlight, Answered, Delivered, Inv;
    StartFlow(s, t);
    Unmoved(s, t, delay);
  }

  /** The job leaves what has been answered and is not yet delivered. */
  lemma HeldGone(s: System, t: System, inline: bool, id: Id)
    requires JobOf(s.d, inline).Busy? && JobOf(s.d, inline).id == id && !JobOf(s.d, inline).phase.ToPop?
    requires t.good == s.good && t.d.h2dQ == s.d.h2dQ
    requires Held(JobOf(t.d, inline)) == multiset{} && JobOf(t.d, !inline) == JobOf(s.d, !inline)
    ensures Answered(s) == Answered(t) + multiset{id}
  {
  }

  lemma DropFlow(s: System, t: System, inline: bool, id: Id)
    requires JobOf(s.d, inline).Busy? && JobOf(s.d, inline).id == id && !JobOf(s.d, inline).phase.ToPop?
    requires t == s.(d := WorkRaises(s.d, inline), failed := s.failed + {id})
    ensures InFlight(s) == InFlight(t) + multiset{id} && Answered(t) <= Answered(s) && Delivered(t) == Delivered(s)
  {
    hide Delivered;
    SameAnswered(s, t);
    HeldGone(s, t, inline, id);
    SameOutgoing(s, t);
    hide Outgoing, Answered;
    Regroup(Outgoing(t), Answered(t), id);
  }

  /** What was on the wire is lost; no load vanishes. */
  lemma CutFlow(s: System)
    ensures var t := CutOff(s);
            InFlight(t) == InFlight(s) && Answered(t) <= Answered(s) && Delivered(t) == Delivered(s)
  {
    var t := CutOff(s);
    SameAnswered(s, t);
    hide Delivered;
    assert Outgoing(t) == Outgoing(s) + s.good;
    assert Answered(s) == Answered(t) + s.good;
    hide Outgoing, Answered;
    assert Outgoing(s) + s.good + Answered(t) == Outgoing(s) + (Answered(t) + s.good);
  }

  lemma RaiseFlow(s: System, t: System, inline: bool, id: Id)
    requires JobOf(s.d, inline).Busy? && JobOf(s.d, inline).id == id && !JobOf(s.d, inline).phase.ToPop?
    requires t == Raised(s, inline)
    ensures InFlight(s) == InFlight(t) + multiset{id} && Answered(t) <= Answered(s) && Delivered(t) == Delivered(s)
  {
    hide InFlight, Answered, Delivered, CutOff;
    var dropped := s.(d := WorkRaises(s.d, inline), failed := s.failed + {id});
    DropFlow(s, dropped, inline, id);
    CutFlow(dropped);
  }

  lemma RaiseKeeps(s: System, delay: int, t: System, inline: bool, id: Id)
    requires Inv(s, delay) && JobOf(s.d, inline).Busy? && JobOf(s.d, inline).id == id
    requires !JobOf(s.d, inline).phase.ToPop?
    requires t == Raised(s, inline)
    ensures Inv(t, delay)
  {
    hide InFlight, Answered, Delivered, Inv;
    RaiseFlow(s, t, inline, id);
    Dropped(s, t, delay, id);
  }

  // ----- The parts of _post_success ------------------------------------------------------------------------

  lemma JobIsHeld(s: System, delay: int, inline: bool, id: Id, phase: Phase)
    requires Inv(s, delay) && JobOf(s.d, inline) == Busy(id, phase)
    ensures !phase.ToPop? ==> id in Answered(s) && id in InFlight(s)
    ensures id in s.d.remotes && id in s.answered
    ensures !phase.ToCopy? ==> id in s.copied
    ensures phase.ToPop? ==> id in Delivered(s)
  {
    if !phase.ToPop? {
      assert id in Answered(s) && id in InFlight(s);
      assert id in InFlight(s) + Delivered(s);
    } else {
      assert id in InFlight(s) + Delivered(s);
    }
  }

  lemma PhaseFlow(s: System, t: System, inline: bool, id: Id, phase: Phase, next: Phase)
    requires JobOf(s.d, inline) == Busy(id, phase) && !phase.ToPop? && !next.ToPop?
    requires t.d == SetJob(s.d, inline, Busy(id, next)) && t.sent == s.sent && t.good == s.good && t.bad == s.bad
    requires t.lost == s.lost && t.done == s.done
    ensures InFlight(t) == InFlight(s) && Answered(t) == Answered(s) && Delivered(t) == Delivered(s)
  {
    SameAnswered(s, t);
    SameOutgoing(s, t);
    hide Delivered, Outgoing;
    assert Answered(t) == Answered(s);
  }

  lemma CopyKeeps(s: System, delay: int, t: System, inline: bool, id: Id)
    requires Inv(s, delay) && JobOf(s.d, inline) == Busy(id, ToCopy)
    requires t == s.(d := Work(s.d, inline), copied := s.copied + {id})
    ensures Inv(t, delay)
  {
    hide InFlight, Answered, Delivered, Conserved, PendingKept, PrefillSafe, Ordered;
    PhaseFlow(s, t, inline, id, ToCopy, ToNotify);
    JobIsHeld(s, delay, inline, id, ToCopy);
    ConservedSame(s, t);
    PopsSame(s, t);
    PendingSame(s, t);
    PrefillSame(s, t, delay);
    CopyOrdered(s, t, inline, id);
  }

  lemma CopyOrdered(s: System, t: System, inline: bool, id: Id)
    requires Ordered(s) && id in s.answered && id in s.d.remotes && JobOf(s.d, inline) == Busy(id, ToCopy)
    requires t == s.(d := Work(s.d, inline), copied := s.copied + {id})
    requires Answered(t) == Answered(s) && Delivered(t) == Delivered(s)
    ensures Ordered(t)
  {
    hide Answered, Delivered;
  }

  lemma NotifyKeeps(s: System, delay: int, t: System, inline: bool, id: Id)
    requires Inv(s, delay) && JobOf(s.d, inline) == Busy(id, ToNotify)
    requires t == s.(d := Work(s.d, inline), notes := t.notes)
    requires t.notes == s.notes || t.notes == s.notes + NoteOf(s.d, inline)
    ensures Inv(t, delay)
  {
    hide InFlight, Answered, Delivered, Inv;
    PhaseFlow(s, t, inline, id, ToNotify, ToAppend);
    JobIsHeld(s, delay, inline, id, ToNotify);
    forall r | r in t.notes && r !in s.notes ensures CopiedFor(t, r) {
      assert id in t.copied && t.d.remotes[id] == Some(r);
    }
    Unmoved(s, t, delay);
  }

  lemma AppendDelivered(s: System, t: System, id: Id)
    requires t.d.recving == s.d.recving + [id] && t.done == s.done
    ensures Delivered(t) == Delivered(s) + multiset{id}
  {
  }

  lemma AppendFlow(s: System, t: System, inline: bool, id: Id)
    requires JobOf(s.d, inline) == Busy(id, ToAppend) && t == s.(d := Work(s.d, inline))
    ensures InFlight(s) == InFlight(t) + multiset{id} && Answered(s) == Answered(t) + multiset{id}
    ensures Delivered(t) == Delivered(s) + multiset{id}
  {
    HeldGone(s, t, inline, id);
    SameOutgoing(s, t);
    AppendDelivered(s, t, id);
    hide Outgoing, Answered, Delivered;
    Regroup(Outgoing(t), Answered(t), id);
  }

  lemma AppendKeeps(s: System, delay: int, t: System, inline: bool, id: Id)
    requires Inv(s, delay) && JobOf(s.d, inline) == Busy(id, ToAppend) && t == s.(d := Work(s.d, inline))
    ensures Inv(t, delay)
  {
    hide InFlight, Answered, Delivered, Conserved, PendingKept, PrefillSafe, Ordered;
    AppendFlow(s, t, inline, id);
    JobIsHeld(s, delay, inline, id, ToAppend);
    assert Everywhere(t) == Everywhere(s);
    ConservedSame(s, t);
    AppendPops(s, t, inline, id);
    PendingSame(s, t);
    OrderedJobs(s);
    OrderedSame(s, t);
    PrefillSame(s, t, delay);
  }

  lemma AppendPops(s: System, t: System, inline: bool, id: Id)
    requires PendingKept(s) && JobOf(s.d, inline) == Busy(id, ToAppend) && t == s.(d := Work(s.d, inline))
    requires Delivered(t) == Delivered(s) + multiset{id}
    ensures PopsDelivered(t)
  {
    hide InFlight, Delivered;
    forall x | Popping(t.d.responder, x) || Popping(t.d.copier, x) ensures x in Delivered(t) {
      assert x == id || x in Delivered(s);
    }
  }

  lemma PopFlow(s: System, t: System, inline: bool, id: Id)
    requires JobOf(s.d, inline) == Busy(id, ToPop) && t == s.(d := Work(s.d, inline))
    ensures InFlight(t) == InFlight(s) && Answered(t) == Answered(s) && Delivered(t) == Delivered(s)
  {
    SameAnswered(s, t);
    SameOutgoing(s, t);
    hide Delivered, Outgoing;
    assert Answered(t) == Answered(s);
  }

  lemma DeliveredIsNotInFlight(s: System, id: Id)
    requires Conserved(s) && id in Delivered(s)
    ensures id !in InFlight(s)
  {
    hide InFlight, Delivered;
    assert id in InFlight(s) + Delivered(s);
  }

  lemma PopKeeps(s: System, delay: int, t: System, inline: bool, id: Id)
    requires Inv(s, delay) && JobOf(s.d, inline) == Busy(id, ToPop) && t == s.(d := Work(s.d, inline))
    ensures Inv(t, delay)
  {
    hide InFlight, Answered, Delivered, Conserved, PendingKept, PrefillSafe, Ordered;
    PopFlow(s, t, inline, id);
    JobIsHeld(s, delay, inline, id, ToPop);
    DeliveredIsNotInFlight(s, id);
    ConservedSame(s, t);
    PopsSame(s, t);
    PendingLost(s, t, id);
    OrderedJobs(s);
    OrderedSame(s, t);
    PrefillSame(s, t, delay);
  }

  lemma ProceedKeeps(s: System, delay: int, inline: bool, noteLost: bool)
    requires Inv(s, delay) && Enabled(s, Proceed(inline, noteLost))
    ensures Inv(Next(s, delay, Proceed(inline, noteLost)), delay)
  {
    hide InFlight, Answered, Delivered, Inv;
    var id := JobOf(s.d, inline).id;
    var t := Next(s, delay, Proceed(inline, noteLost));
    match JobOf(s.d, inline).phase {
      case ToCopy => assert t.notes == s.notes; CopyKeeps(s, delay, t, inline, id);
      case ToNotify => NotifyKeeps(s, delay, t, inline, id);
      case ToAppend => assert t.notes == s.notes; AppendKeeps(s, delay, t, inline, id);
      case ToPop => assert t.notes == s.notes; PopKeeps(s, delay, t, inline, id);
    }
  }

  lemma GetDoneFlow(s: System, t: System)
    requires t == s.(d := Collect(s.d), done := s.done + s.d.recving)
    ensures InFlight(t) == InFlight(s) && Answered(t) == Answered(s) && Delivered(t) == Delivered(s)
  {
    SameAnswered(s, t);
    SameOutgoing(s, t);
    hide Answered, Outgoing;
  }

  lemma GetDoneKeeps(s: System, delay: int, t: System)
    requires Inv(s, delay) && t == s.(d := Collect(s.d), done := s.done + s.d.recving)
    ensures Inv(t, delay)
  {
    hide InFlight, Answered, Delivered, Inv;
    GetDoneFlow(s, t);
    Unmoved(s, t, delay);
  }

  // ----- The prefill side's steps ---------------------------------------------------------------------------

  lemma SamePlaces(s: System, t: System)
    requires Conserved(s) && PendingKept(s) && Ordered(s)
    requires Outgoing(t) == Outgoing(s) && Answered(t) == Answered(s) && Delivered(t) == Delivered(s)
    requires t.d == s.d && t.failed == s.failed && t.copied == s.copied && t.answered == s.answered
    ensures Conserved(t) && PendingKept(t) && Ordered(t)
  {
    hide Outgoing, Answered, Delivered;
    assert InFlight(t) == InFlight(s);
    hide InFlight;
  }

  /** A step of the prefill side leaves the rest alone. */
  lemma PrefillStep(s: System, t: System, delay: int)
    requires Inv(s, delay) && PrefillSafe(t, delay)
    requires t == s.(p := t.p, notes := t.notes, finishedAt := t.finishedAt, released := t.released, calls := t.calls)
    ensures Inv(t, delay)
  {
    hide PrefillSafe;
    SameAnswered(s, t);
    SameOutgoing(s, t);
    hide Outgoing, Answered, Delivered;
    SamePlaces(s, t);
  }

  lemma SameCopies(s: System, t: System)
    requires t.copied == s.copied && t.d == s.d
    ensures forall r :: CopiedFor(s, r) == CopiedFor(t, r)
  {
  }

  lemma FinishKeeps(s: System, delay: int, t: System, id: Id, now: int)
    requires Inv(s, delay) && id !in s.finishedAt
    requires t == s.(p := RequestFinished(s.p, id, now), finishedAt := s.finishedAt[id := now])
    ensures Inv(t, delay)
  {
    hide InFlight, Answered, Delivered, CopiedFor, Conserved, PendingKept, Ordered;
    SameCopies(s, t);
    PrefillStep(s, t, delay);
  }

  lemma HandOverKeeps(s: System, delay: int, t: System)
    requires Inv(s, delay) && t == s.(p := HandOver(s.p))
    ensures Inv(t, delay)
  {
    hide InFlight, Answered, Delivered, CopiedFor, Conserved, PendingKept, Ordered;
    SameCopies(s, t);
    assert TimesOf(s, s.p.recorded);
    forall k | 0 <= k < |t.p.metadata| ensures TimesOf(t, t.p.metadata[k]) {
      assert k < |s.p.metadata| ==> TimesOf(s, s.p.metadata[k]);
    }
    PrefillStep(s, t, delay);
  }

  lemma ReleaseLateKeeps(s: System, delay: int, t: System, now: int)
    requires Inv(s, delay) && s.p.metadata != []
    requires t == s.(p := Expire(s.p, delay, now), released := s.released + LateReports(s.p, delay, now, s.calls))
    ensures Inv(t, delay)
  {
    hide InFlight, Answered, Delivered, CopiedFor, Conserved, PendingKept, Ordered;
    SameCopies(s, t);
    assert TimesOf(s, s.p.metadata[0]);
    forall k | 0 <= k < |t.p.metadata| ensures TimesOf(t, t.p.metadata[k]) {
      assert TimesOf(s, s.p.metadata[k + 1]);
    }
    PrefillStep(s, t, delay);
  }

  lemma DeliverKeeps(s: System, delay: int, t: System, id: Id)
    requires Inv(s, delay) && id in s.notes
    requires t == s.(notes := s.notes - multiset{id}, p := Notified(s.p, [id]))
    ensures Inv(t, delay)
  {
    hide InFlight, Answered, Delivered, CopiedFor, Conserved, PendingKept, Ordered;
    SameCopies(s, t);
    PrefillStep(s, t, delay);
  }

  lemma ReleasePulledKeeps(s: System, delay: int, t: System)
    requires Inv(s, delay)
    requires t == s.(p := Release(s.p), released := s.released + PulledReports(s.p, s.calls), calls := s.calls + 1)
    ensures Inv(t, delay)
  {
    hide InFlight, Answered, Delivered, CopiedFor, Conserved, PendingKept, Ordered;
    SameCopies(s, t);
    PrefillStep(s, t, delay);
  }

  // ----- Every run --------------------------------------------------------------------------------------------

  lemma InitialInv(delay: int)
    ensures Inv(Initial(), delay)
  {
  }

  lemma StepKeeps(s: System, delay: int, step: Step)
    requires Inv(s, delay) && Enabled(s, step)
    ensures Inv(Next(s, delay, step), delay)
  {
    hide Inv;
    var t := Next(s, delay, step);
    match step {
      case Load(id, remote) => LoadKeeps(s, delay, t, id, remote);
      case Queue => QueueKeeps(s, delay, t);
      case Send(ok) => SendKeeps(s, delay, t, ok);
      case Answer(id, success) => AnswerKeeps(s, delay, t, id, success);
      case Receive(id, success) => ReceiveKeeps(s, delay, t, id, success);
      case StartCopy => StartKeeps(s, delay, t);
      case Proceed(inline, noteLost) => ProceedKeeps(s, delay, inline, noteLost);
      case Raise(inline) => RaiseKeeps(s, delay, t, inline, JobOf(s.d, inline).id);
      case GetDone => GetDoneKeeps(s, delay, t);
      case Finish(id, now) => FinishKeeps(s, delay, t, id, now);
      case BuildMetadata => HandOverKeeps(s, delay, t);
      case ReleaseLate(now) => ReleaseLateKeeps(s, delay, t, now);
      case Deliver(id) => DeliverKeeps(s, delay, t, id);
      case ReleasePulled => ReleasePulledKeeps(s, delay, t);
    }
  }

  lemma {:induction false} RunKeepsInv(delay: int, steps: seq<Step>)
    requires Run(delay, steps).Some?
    ensures Inv(Run(delay, steps).value, delay)
  {
    hide Inv, Next, Enabled;
    if steps == [] {
      InitialInv(delay);
    } else {
      var init, last := steps[..|steps| - 1], steps[|steps| - 1];
      RunKeepsInv(delay, init);
      StepKeeps(Run(delay, init).value, delay, last);
    }
  }

  /** A request is handed to the scheduler as received at most once, counting what is still to be
      collected, and only after its success answer and its copy to the device. */
  lemma ReceivedOnceAfterCopy(delay: int, steps: seq<Step>, id: Id)
    requires Run(delay, steps).Some?
    ensures var s := Run(delay, steps).value;
            && multiset(s.done)[id] + multiset(s.d.recving)[id] <= 1
            && (id in s.done || id in s.d.recving ==> id in s.copied && id in s.answered)
  {
    hide Run;
    RunKeepsInv(delay, steps);
    var s := Run(delay, steps).value;
    DeliveredFacts(s, delay, id);
  }

  lemma DeliveredFacts(s: System, delay: int, id: Id)
    requires Inv(s, delay)
    ensures multiset(s.done)[id] + multiset(s.d.recving)[id] <= 1
    ensures id in s.done || id in s.d.recving ==> id in s.copied && id in s.answered
  {
    hide InFlight;
    if id in s.done || id in s.d.recving {
      assert id in Delivered(s);
      assert id in InFlight(s) + Delivered(s);
    }
  }

  /** A load that has neither failed nor been delivered is pending. */
  lemma PendingUntilDelivered(delay: int, steps: seq<Step>, id: Id)
    requires Run(delay, steps).Some?
    ensures var s := Run(delay, steps).value;
            id in s.d.remotes && id !in s.failed && id !in s.d.recving && id !in s.done ==> id in s.d.pending
  {
    hide Run;
    RunKeepsInv(delay, steps);
    var s := Run(delay, steps).value;
    if id in s.d.remotes && id !in s.failed && id !in s.d.recving && id !in s.done {
      assert id !in Delivered(s);
      hide InFlight, Delivered;
      assert id in InFlight(s) + Delivered(s);
    }
  }

  /** The branch for orphan answers is never taken. */
  lemma NoOrphans(delay: int, steps: seq<Step>, id: Id)
    requires Run(delay, steps).Some?
    ensures var s := Run(delay, steps).value; id in s.good || id in s.bad ==> id in s.d.pending
  {
    hide Run, Inv;
    RunKeepsInv(delay, steps);
    var s := Run(delay, steps).value;
    if id in s.good || id in s.bad { AnswersAreKnown(s, delay, id); }
  }

  lemma MovingOrLost(s: System)
    ensures InFlight(s) == Moving(s) + s.lost
  {
    hide Answered;
  }

  /** When no load moves any more, each one was delivered, has failed or is lost, and only one of these. */
  lemma QuietMeansSettled(delay: int, steps: seq<Step>, id: Id)
    requires Run(delay, steps).Some? && Moving(Run(delay, steps).value) == multiset{}
    ensures var s := Run(delay, steps).value;
            id in s.d.remotes ==>
              if id in s.done || id in s.d.recving then id !in s.failed && id !in s.lost
              else if id in s.failed then id !in s.lost
              else id in s.lost
  {
    hide Run;
    RunKeepsInv(delay, steps);
    var s := Run(delay, steps).value;
    MovingOrLost(s);
    hide Moving, InFlight;
    assert InFlight(s) == s.lost;
    if id in s.d.remotes { assert id in InFlight(s) + Delivered(s) <==> id !in s.failed; }
    if id in InFlight(s) + Delivered(s) { assert (InFlight(s) + Delivered(s))[id] == 1; }
  }

  /** A lost load stays pending, it has not failed, and it is neither delivered nor still moving. */
  lemma LostForGood(delay: int, steps: seq<Step>, id: Id)
    requires Run(delay, steps).Some? && id in Run(delay, steps).value.lost
    ensures var s := Run(delay, steps).value;
            && id in s.d.remotes && id in s.d.pending && id !in s.failed
            && id !in s.done && id !in s.d.recving && id !in Moving(s)
  {
    hide Run;
    RunKeepsInv(delay, steps);
    var s := Run(delay, steps).value;
    MovingOrLost(s);
    hide Moving, InFlight;
    assert id in InFlight(s) + Delivered(s) && (InFlight(s) + Delivered(s))[id] == 1;
  }

  /** The prefill side gives up a request's blocks only once some load for it has been copied, or once
      the delay has passed since the request finished. */
  lemma ReleasedAfterCopyOrDelay(delay: int, steps: seq<Step>, e: Report)
    requires Run(delay, steps).Some?
    ensures var s := Run(delay, steps).value; e in s.released ==> Justified(s, delay, e)
  {
    hide Run;
    RunKeepsInv(delay, steps);
  }
}

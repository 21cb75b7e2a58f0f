/** Release of prefill blocks whose transfer was never confirmed
    (omni/accelerators/pd/llmdatadist_connector_v1.py, omni_cache_connector_v1.py).

    A finished request is recorded with its finish time by the scheduler, handed to the worker
    with the next metadata, and leaves the worker's dictionary when its blocks have been pulled
    or when the release delay is over.  The worker stops scanning at the first request that is
    not yet out of date; the sibling connector scans the whole dictionary.
 */
module Expiry {
  type ReqId = string
  datatype Entry = Entry(id: ReqId, time: real)

  /** A Python dictionary: its entries in insertion order. */
  type Dict = seq<Entry>

  ghost predicate Keys(d: Dict) {
    forall i, j :: 0 <= i < j < |d| ==> d[i].id != d[j].id
  }

  ghost predicate TimeOrdered(d: Dict) {
    forall i, j :: 0 <= i < j < |d| ==> d[i].time <= d[j].time
  }

  /** `d[id] = time`: an existing key keeps its place. */
  function Put(d: Dict, e: Entry): Dict {
    if d == [] then [e]
    else if d[0].id == e.id then [e] + d[1..]
    else [d[0]] + Put(d[1..], e)
  }

  /** `d.update(m)` */
  function Update(d: Dict, m: Dict): Dict
    decreases |m|
  {
    if m == [] then d else Update(Put(d, m[0]), m[1..])
  }

  /** Deletes the ids of `gone` that are present. */
  function Without(d: Dict, gone: set<ReqId>): Dict {
    if d == [] then [] else (if d[0].id in gone then [] else [d[0]]) + Without(d[1..], gone)
  }

  predicate OutOfDate(e: Entry, now: real, delay: real) {
    now - e.time > delay
  }

  /** The scan of the whole dictionary. */
  function FullScan(d: Dict, now: real, delay: real): seq<ReqId> {
    if d == [] then []
    else (if OutOfDate(d[0], now, delay) then [d[0].id] else []) + FullScan(d[1..], now, delay)
  }

  /** The scan that breaks at the first request still in time. */
  function EarlyBreak(d: Dict, now: real, delay: real): seq<ReqId> {
    if d == [] || !OutOfDate(d[0], now, delay) then []
    else [d[0].id] + EarlyBreak(d[1..], now, delay)
  }

  function Ids(s: seq<ReqId>): set<ReqId> {
    set id | id in s
  }

  // ----- When the two scans agree ----------------------------------------------------------

  lemma {:induction false} FullScanStopsAfter(d: Dict, now: real, delay: real)
    requires forall i :: 0 <= i < |d| ==> !OutOfDate(d[i], now, delay)
    ensures FullScan(d, now, delay) == []
  {
    if d != [] { FullScanStopsAfter(d[1..], now, delay); }
  }

  lemma {:induction false} OrderedScansAgree(d: Dict, now: real, delay: real)
    requires TimeOrdered(d)
    ensures EarlyBreak(d, now, delay) == FullScan(d, now, delay)
  {
    if d != [] {
      if OutOfDate(d[0], now, delay) {
        OrderedScansAgree(d[1..], now, delay);
      } else {
        FullScanStopsAfter(d, now, delay);
      }
    }
  }

  lemma {:induction false} FullScanFinds(d: Dict, now: real, delay: real, i: int)
    requires 0 <= i < |d| && OutOfDate(d[i], now, delay)
    ensures d[i].id in FullScan(d, now, delay)
  {
    if i > 0 { FullScanFinds(d[1..], now, delay, i - 1); }
  }

  lemma {:induction false} EarlyBreakStops(d: Dict, now: real, delay: real, i: int)
    requires 0 <= i < |d| && !OutOfDate(d[i], now, delay)
    ensures |EarlyBreak(d, now, delay)| <= i
    ensures EarlyBreak(d, now, delay) == seq(|EarlyBreak(d, now, delay)|, k requires 0 <= k < |d| => d[k].id)
  {
    if i > 0 && OutOfDate(d[0], now, delay) { EarlyBreakStops(d[1..], now, delay, i - 1); }
  }

  /** The early break is correct at every time exactly when the dictionary is in time order. */
  lemma EarlyBreakExact(d: Dict, delay: real)
    requires Keys(d)
    ensures (forall now :: EarlyBreak(d, now, delay) == FullScan(d, now, delay)) <==> TimeOrdered(d)
  {
    if TimeOrdered(d) {
      forall now
        ensures EarlyBreak(d, now, delay) == FullScan(d, now, delay)
      {
        OrderedScansAgree(d, now, delay);
      }
    } else {
      var i, j :| 0 <= i < j < |d| && d[i].time > d[j].time;
      var now := d[i].time + delay;
      FullScanFinds(d, now, delay, j);
      EarlyBreakStops(d, now, delay, i);
      assert d[j].id !in EarlyBreak(d, now, delay);
    }
  }

  // ----- The worker and the scheduler --------------------------------------------------------

  lemma {:induction false} WithoutTwice(d: Dict, a: set<ReqId>, b: set<ReqId>)
    ensures Without(Without(d, a), b) == Without(d, a + b)
  {
    if d != [] {
      var kept := Without(d[1..], a);
      assert Without(d, a) == if d[0].id in a then kept else [d[0]] + kept;
      assert ([d[0]] + kept)[1..] == kept;
      WithoutTwice(d[1..], a, b);
    }
  }

  lemma {:induction false} WithoutNothing(d: Dict)
    ensures Without(d, {}) == d
  {
    if d != [] { WithoutNothing(d[1..]); }
  }

  /** The dictionary and the reported ids after one `get_finished`. */
  datatype Outcome = Outcome(left: Dict, doneSending: set<ReqId>)

  function AfterGetFinished(d: Dict, metadata: Dict, received: seq<ReqId>, now: real, delay: real,
                            early: bool): Outcome
  {
    var u := Update(d, metadata);
    var expired := Ids(if early then EarlyBreak(u, now, delay) else FullScan(u, now, delay));
    Outcome(Without(u, expired + Ids(received)), expired + Ids(received))
  }

  class PrefillWorker {
    var requestsFinishTime: Dict
    var receiveReqList: seq<ReqId>
    const releaseDelay: real

    /** `requests_finish_time.update(...)` */
    method RecordFinishTimes(metadata: Dict)
      modifies this`requestsFinishTime
      ensures requestsFinishTime == Update(old(requestsFinishTime), metadata)
    {
      var k := 0;
      while k < |metadata|
        invariant 0 <= k <= |metadata|
        invariant Update(requestsFinishTime, metadata[k..]) == Update(old(requestsFinishTime), metadata)
      {
        requestsFinishTime := Put(requestsFinishTime, metadata[k]);
        k := k + 1;
      }
    }

    /** The scan that breaks early. */
    method OutOfDateReqs(now: real) returns (outDateReqs: seq<ReqId>)
      ensures outDateReqs == EarlyBreak(requestsFinishTime, now, releaseDelay)
    {
      outDateReqs := [];
      var k := 0;
      while k < |requestsFinishTime|
        invariant 0 <= k <= |requestsFinishTime|
        invariant outDateReqs + EarlyBreak(requestsFinishTime[k..], now, releaseDelay)
                    == EarlyBreak(requestsFinishTime, now, releaseDelay)
      {
        if now - requestsFinishTime[k].time > releaseDelay {
          outDateReqs := outDateReqs + [requestsFinishTime[k].id];
        } else {
          break;
        }
        k := k + 1;
      }
    }

    /** Reports the requests of a list and deletes those still in the dictionary. */
    method Report(ids: seq<ReqId>, done: set<ReqId>) returns (allDoneSending: set<ReqId>)
      modifies this`requestsFinishTime
      ensures allDoneSending == done + Ids(ids)
      ensures requestsFinishTime == Without(old(requestsFinishTime), Ids(ids))
    {
      allDoneSending := done;
      WithoutNothing(requestsFinishTime);
      assert Ids(ids[..0]) == {};
      var k := 0;
      while k < |ids|
        invariant 0 <= k <= |ids|
        invariant allDoneSending == done + Ids(ids[..k])
        invariant requestsFinishTime == Without(old(requestsFinishTime), Ids(ids[..k]))
      {
        WithoutTwice(old(requestsFinishTime), Ids(ids[..k]), {ids[k]});
        assert Ids(ids[..k + 1]) == Ids(ids[..k]) + {ids[k]};
        allDoneSending := allDoneSending + {ids[k]};
        requestsFinishTime := Without(requestsFinishTime, {ids[k]});
        k := k + 1;
      }
      assert ids[..k] == ids;
    }

    method GetFinished(metadata: Dict, now: real) returns (allDoneSending: set<ReqId>)
      modifies this
      ensures Outcome(requestsFinishTime, allDoneSending) ==
              AfterGetFinished(old(requestsFinishTime), metadata, old(receiveReqList), now, releaseDelay, true)
      ensures receiveReqList == []
    {
      RecordFinishTimes(metadata);
      ghost var updated := requestsFinishTime;
      var outDateReqs := OutOfDateReqs(now);
      allDoneSending := Report(outDateReqs, {});
      WithoutTwice(updated, Ids(outDateReqs), Ids(receiveReqList));
      if |receiveReqList| == 0 {
        assert Ids(outDateReqs) + Ids(receiveReqList) == Ids(outDateReqs);
        return;
      }
      allDoneSending := Report(receiveReqList, allDoneSending);
      receiveReqList := [];
    }
  }

  class PrefillScheduler {
    var requestsFinishTime: Dict

    /** Blocks are held back only for a request that ended by length and owns blocks. */
    method RequestFinished(id: ReqId, lengthCapped: bool, numBlocks: nat, now: real) returns (delayFreeBlocks: bool)
      modifies this
      ensures delayFreeBlocks <==> lengthCapped && numBlocks > 0
      ensures requestsFinishTime ==
              if delayFreeBlocks then Put(old(requestsFinishTime), Entry(id, now)) else old(requestsFinishTime)
    {
      if !lengthCapped {
        return false;
      }
      delayFreeBlocks := numBlocks > 0;
      if delayFreeBlocks {
        requestsFinishTime := Put(requestsFinishTime, Entry(id, now));
      }
    }

    method BuildConnectorMetadata() returns (metadata: Dict)
      modifies this
      ensures metadata == old(requestsFinishTime) && requestsFinishTime == []
    {
      metadata := requestsFinishTime;
      requestsFinishTime := [];
    }
  }

  // ----- Whole runs ------------------------------------------------------------------------

  /** `handed` are the metadata built but not yet seen by the worker, oldest first; `reported`
      collects what the calls of `get_finished` returned. */
  datatype System = System(scheduler: Dict, handed: seq<Dict>, worker: Dict, received: seq<ReqId>,
                           clock: real, reported: seq<set<ReqId>>)

  /** `wait` is the time since the step before. */
  datatype Step =
    | RequestFinished(id: ReqId, wait: real)
    | BuildMetadata
    | Pulled(ids: seq<ReqId>)
    | CallGetFinished(wait: real)

  const INITIAL := System([], [], [], [], 0.0, [])

  function Next(s: System, step: Step, delay: real, early: bool): System {
    match step
    case RequestFinished(id, wait) =>
      s.(scheduler := Put(s.scheduler, Entry(id, s.clock + wait)), clock := s.clock + wait)
    case BuildMetadata =>
      s.(handed := s.handed + [s.scheduler], scheduler := [])
    case Pulled(ids) =>
      s.(received := s.received + ids)
    case CallGetFinished(wait) =>
      if s.handed == [] then s.(clock := s.clock + wait) else
      var r := AfterGetFinished(s.worker, s.handed[0], s.received, s.clock + wait, delay, early);
      s.(worker := r.left, handed := s.handed[1..], received := [], clock := s.clock + wait,
         reported := s.reported + [r.doneSending])
  }

  function Run(steps: seq<Step>, delay: real, early: bool): System {
    if steps == [] then INITIAL
    else Next(Run(steps[..|steps| - 1], delay, early), steps[|steps| - 1], delay, early)
  }

  /** The clock does not run backwards and no request id finishes twice. */
  ghost predicate Monotone(steps: seq<Step>) {
    && (forall k :: 0 <= k < |steps| && (steps[k].RequestFinished? || steps[k].CallGetFinished?) ==>
        steps[k].wait >= 0.0)
    && (forall j, k :: 0 <= j < k < |steps| && steps[j].RequestFinished? && steps[k].RequestFinished? ==>
        steps[j].id != steps[k].id)
  }

  function Flat(ds: seq<Dict>): Dict {
    if ds == [] then [] else ds[0] + Flat(ds[1..])
  }

  /** Every recorded request on its way, oldest first. */
  function Line(s: System): Dict {
    s.worker + Flat(s.handed) + s.scheduler
  }

  ghost predicate Orderly(d: Dict, clock: real, recorded: set<ReqId>) {
    Keys(d) && TimeOrdered(d) && forall i :: 0 <= i < |d| ==> d[i].time <= clock && d[i].id in recorded
  }

  ghost function Recorded(steps: seq<Step>): set<ReqId> {
    set k | 0 <= k < |steps| && steps[k].RequestFinished? :: steps[k].id
  }

  lemma {:induction false} PutFresh(d: Dict, e: Entry)
    requires forall i :: 0 <= i < |d| ==> d[i].id != e.id
    ensures Put(d, e) == d + [e]
  {
    if d != [] { PutFresh(d[1..], e); }
  }

  lemma {:induction false} UpdateFresh(d: Dict, m: Dict)
    requires Keys(d + m)
    ensures Update(d, m) == d + m
    decreases |m|
  {
    if m != [] {
      forall i | 0 <= i < |d|
        ensures d[i].id != m[0].id
      {
        assert (d + m)[i].id != (d + m)[|d|].id;
      }
      PutFresh(d, m[0]);
      assert d + m == d + [m[0]] + m[1..];
      UpdateFresh(d + [m[0]], m[1..]);
    }
  }

  lemma {:induction false} FlatAppend(ds: seq<Dict>, d: Dict)
    ensures Flat(ds + [d]) == Flat(ds) + d
  {
    if ds != [] {
      assert (ds + [d])[1..] == ds[1..] + [d];
      FlatAppend(ds[1..], d);
    } else {
      assert (ds + [d])[1..] == [];
    }
  }

  lemma OrderlyCons(line: Dict, tail: Dict, clock: real, recorded: set<ReqId>)
    requires line != [] && Orderly(line, clock, recorded) && Orderly(tail, clock, recorded)
    requires forall e :: e in tail ==> e in line[1..]
    ensures Orderly([line[0]] + tail, clock, recorded)
  {
    forall i | 0 <= i < |tail|
      ensures tail[i].id != line[0].id && line[0].time <= tail[i].time
    {
      assert tail[i] in line[1..];
      var k :| 0 < k < |line| && line[k] == tail[i];
    }
  }

  /** Deleting entries from the front part keeps the line orderly. */
  lemma {:induction false} WithoutKeepsOrder(a: Dict, rest: Dict, gone: set<ReqId>, clock: real, recorded: set<ReqId>)
    requires Orderly(a + rest, clock, recorded)
    ensures Orderly(Without(a, gone) + rest, clock, recorded)
    ensures forall e :: e in Without(a, gone) + rest ==> e in a + rest
  {
    if a != [] {
      var line := a + rest;
      assert line[1..] == a[1..] + rest;
      WithoutKeepsOrder(a[1..], rest, gone, clock, recorded);
      var tail := Without(a[1..], gone) + rest;
      OrderlyCons(line, tail, clock, recorded);
      assert Without(a, gone) + rest == if a[0].id in gone then tail else [line[0]] + tail;
    }
  }

  /** The invariant of every run: what is still waiting is in time order, through all stages. */
  lemma {:induction false} RunIsOrderly(steps: seq<Step>, delay: real)
    requires Monotone(steps)
    ensures Orderly(Line(Run(steps, delay, true)), Run(steps, delay, true).clock, Recorded(steps))
  {
    if steps != [] {
      var before := steps[..|steps| - 1];
      var step := steps[|steps| - 1];
      assert steps == before + [step];
      RunIsOrderly(before, delay);
      StepKeepsOrder(Run(before, delay, true), step, delay, Recorded(before));
      assert Recorded(before) <= Recorded(steps);
      assert step.RequestFinished? ==> Recorded(steps) == Recorded(before) + {step.id};
    }
  }

  lemma FinishKeepsOrder(s: System, e: Entry, recorded: set<ReqId>)
    requires Orderly(Line(s), s.clock, recorded)
    requires e.id !in recorded && s.clock <= e.time
    ensures Orderly(Line(s.(scheduler := Put(s.scheduler, e), clock := e.time)), e.time, recorded + {e.id})
  {
    var front := s.worker + Flat(s.handed);
    forall i | 0 <= i < |s.scheduler|
      ensures s.scheduler[i].id != e.id
    {
      assert Line(s)[|front| + i] == s.scheduler[i];
    }
    PutFresh(s.scheduler, e);
    assert front + (s.scheduler + [e]) == Line(s) + [e];
  }

  lemma GetFinishedKeepsOrder(s: System, wait: real, delay: real, recorded: set<ReqId>)
    requires Orderly(Line(s), s.clock, recorded) && wait >= 0.0 && s.handed != []
    ensures var s' := Next(s, CallGetFinished(wait), delay, true);
            Orderly(Line(s'), s'.clock, recorded)
  {
    var m := s.handed[0];
    var rest := Flat(s.handed[1..]) + s.scheduler;
    assert Line(s) == (s.worker + m) + rest;
    HandOver(s, m, rest);
    var r := AfterGetFinished(s.worker, m, s.received, s.clock + wait, delay, true);
    WithoutKeepsOrder(s.worker + m, rest, r.doneSending, s.clock, recorded);
    assert Line(Next(s, CallGetFinished(wait), delay, true)) == r.left + rest;
  }

  lemma StepKeepsOrder(s: System, step: Step, delay: real, recorded: set<ReqId>)
    requires Orderly(Line(s), s.clock, recorded)
    requires step.RequestFinished? ==> step.wait >= 0.0 && step.id !in recorded
    requires step.CallGetFinished? ==> step.wait >= 0.0
    ensures var s' := Next(s, step, delay, true);
            Orderly(Line(s'), s'.clock, if step.RequestFinished? then recorded + {step.id} else recorded)
  {
    match step
    case RequestFinished(id, wait) =>
      FinishKeepsOrder(s, Entry(id, s.clock + wait), recorded);
    case BuildMetadata =>
      FlatAppend(s.handed, s.scheduler);
      assert Line(Next(s, step, delay, true)) == Line(s);
    case Pulled(ids) =>
      assert Line(Next(s, step, delay, true)) == Line(s);
    case CallGetFinished(wait) =>
      if s.handed != [] {
        GetFinishedKeepsOrder(s, wait, delay, recorded);
      } else {
        assert Line(Next(s, step, delay, true)) == Line(s);
      }
  }

  /** Unique ids make the update a plain append. */
  lemma HandOver(s: System, m: Dict, rest: Dict)
    requires Line(s) == (s.worker + m) + rest && Keys(Line(s)) && TimeOrdered(Line(s))
    ensures Update(s.worker, m) == s.worker + m && TimeOrdered(s.worker + m)
  {
    var line := Line(s);
    assert line[..|s.worker + m|] == s.worker + m;
    UpdateFresh(s.worker, m);
  }

  lemma SameNextStep(s: System, step: Step, delay: real)
    requires Keys(Line(s)) && TimeOrdered(Line(s))
    ensures Next(s, step, delay, true) == Next(s, step, delay, false)
  {
    if step.CallGetFinished? && s.handed != [] {
      var rest := Flat(s.handed[1..]) + s.scheduler;
      assert Line(s) == (s.worker + s.handed[0]) + rest;
      HandOver(s, s.handed[0], rest);
      OrderedScansAgree(s.worker + s.handed[0], s.clock + step.wait, delay);
    }
  }

  /** On every run the worker that breaks early reports and keeps exactly what the worker that
      scans everything reports and keeps. */
  lemma {:induction false} EarlyBreakRefinesFullScan(steps: seq<Step>, delay: real)
    requires Monotone(steps)
    ensures Run(steps, delay, true) == Run(steps, delay, false)
  {
    if steps != [] {
      var before := steps[..|steps| - 1];
      EarlyBreakRefinesFullScan(before, delay);
      RunIsOrderly(before, delay);
      SameNextStep(Run(before, delay, true), steps[|steps| - 1], delay);
    }
  }

  // ----- What the calls of a run report -------------------------------------------------------

  /** The time that has passed. */
  function Elapsed(steps: seq<Step>): real {
    if steps == [] then 0.0
    else
      var last := steps[|steps| - 1];
      Elapsed(steps[..|steps| - 1])
      + if last.RequestFinished? || last.CallGetFinished? then last.wait else 0.0
  }

  /** How many metadata wait for a call. */
  function Waiting(steps: seq<Step>): nat {
    if steps == [] then 0
    else
      var last, before := steps[|steps| - 1], Waiting(steps[..|steps| - 1]);
      if last.BuildMetadata? then before + 1
      else if last.CallGetFinished? && before > 0 then before - 1
      else before
  }

  /** The notifications since the last call. */
  function PulledSince(steps: seq<Step>): seq<ReqId> {
    if steps == [] then []
    else
      var last, init := steps[|steps| - 1], steps[..|steps| - 1];
      if last.Pulled? then PulledSince(init) + last.ids
      else if last.CallGetFinished? && Waiting(init) > 0 then []
      else PulledSince(init)
  }

  lemma {:induction false} RunHistory(steps: seq<Step>, delay: real, early: bool)
    ensures var s := Run(steps, delay, early);
            s.clock == Elapsed(steps) && |s.handed| == Waiting(steps) && s.received == PulledSince(steps)
  {
    if steps != [] { RunHistory(steps[..|steps| - 1], delay, early); }
  }

  ghost predicate FinishedAt(steps: seq<Step>, e: Entry) {
    exists k ::
      0 <= k < |steps| && steps[k].RequestFinished? && steps[k].id == e.id && e.time == Elapsed(steps[..k + 1])
  }

  lemma FinishedStays(steps: seq<Step>, step: Step, e: Entry)
    requires FinishedAt(steps, e)
    ensures FinishedAt(steps + [step], e)
  {
    var k :| 0 <= k < |steps| && steps[k].RequestFinished? && steps[k].id == e.id && e.time == Elapsed(steps[..k + 1]);
    assert (steps + [step])[..k + 1] == steps[..k + 1] && (steps + [step])[k] == steps[k];
  }

  /** What is in line after a step was there before, or has just finished. */
  lemma LineStep(s: System, step: Step, delay: real, recorded: set<ReqId>)
    requires Orderly(Line(s), s.clock, recorded)
    requires step.RequestFinished? ==> step.wait >= 0.0 && step.id !in recorded
    ensures var t := Next(s, step, delay, true);
            forall e :: e in Line(t) ==>
              e in Line(s) || (step.RequestFinished? && e == Entry(step.id, s.clock + step.wait))
  {
    match step
    case RequestFinished(id, wait) =>
      var e, front := Entry(id, s.clock + wait), s.worker + Flat(s.handed);
      forall i | 0 <= i < |s.scheduler| ensures s.scheduler[i].id != id {
        assert Line(s)[|front| + i] == s.scheduler[i];
      }
      PutFresh(s.scheduler, e);
      assert Line(Next(s, step, delay, true)) == Line(s) + [e];
    case BuildMetadata =>
      FlatAppend(s.handed, s.scheduler);
      assert Line(Next(s, step, delay, true)) == Line(s);
    case Pulled(_) => assert Line(Next(s, step, delay, true)) == Line(s);
    case CallGetFinished(wait) =>
      if s.handed != [] {
        var rest := Flat(s.handed[1..]) + s.scheduler;
        assert Line(s) == (s.worker + s.handed[0]) + rest;
        HandOver(s, s.handed[0], rest);
        var r := AfterGetFinished(s.worker, s.handed[0], s.received, s.clock + wait, delay, true);
        WithoutKeepsOrder(s.worker + s.handed[0], rest, r.doneSending, s.clock, recorded);
        assert Line(Next(s, step, delay, true)) == r.left + rest;
      } else {
        assert Line(Next(s, step, delay, true)) == Line(s);
      }
  }

  lemma LastIsFresh(steps: seq<Step>)
    requires steps != [] && Monotone(steps)
    ensures var step := steps[|steps| - 1];
            step.RequestFinished? ==> step.wait >= 0.0 && step.id !in Recorded(steps[..|steps| - 1])
  {
  }

  /** Over every run, a request in line has the time at which it finished. */
  lemma {:induction false} LineHasFinishTimes(steps: seq<Step>, delay: real, e: Entry)
    requires Monotone(steps) && e in Line(Run(steps, delay, true))
    ensures FinishedAt(steps, e)
  {
    if steps != [] {
      var init, step := steps[..|steps| - 1], steps[|steps| - 1];
      var s := Run(init, delay, true);
      assert steps == init + [step];
      RunIsOrderly(init, delay);
      LastIsFresh(steps);
      RunHistory(init, delay, true);
      LineStep(s, step, delay, Recorded(init));
      if e in Line(s) {
        LineHasFinishTimes(init, delay, e);
        FinishedStays(init, step, e);
      } else {
        assert steps[..|init| + 1] == steps;
      }
    }
  }

  lemma {:induction false} FullScanExact(d: Dict, now: real, delay: real, id: ReqId)
    ensures id in FullScan(d, now, delay) <==> exists i :: 0 <= i < |d| && d[i].id == id && now - d[i].time > delay
  {
    if d != [] {
      FullScanExact(d[1..], now, delay, id);
      if i :| 0 <= i < |d| && d[i].id == id && now - d[i].time > delay {
        if i > 0 { assert d[1..][i - 1] == d[i]; }
      }
      if i :| 0 <= i < |d[1..]| && d[1..][i].id == id && now - d[1..][i].time > delay { assert d[i + 1] == d[1..][i]; }
    }
  }

  lemma {:induction false} WithoutExact(d: Dict, gone: set<ReqId>, e: Entry)
    ensures e in Without(d, gone) <==> e in d && e.id !in gone
  {
    if d != [] {
      WithoutExact(d[1..], gone, e);
      assert e in d <==> e == d[0] || e in d[1..];
    }
  }

  ghost predicate Overdue(d: Dict, now: real, delay: real, id: ReqId) {
    exists i :: 0 <= i < |d| && d[i].id == id && now - d[i].time > delay
  }

  ghost predicate CallReports(s: System, t: System, wait: real, delay: real, id: ReqId, e: Entry)
    requires s.handed != []
  {
    && t.handed == s.handed[1..] && t.scheduler == s.scheduler && |t.reported| == |s.reported| + 1
    && t.reported[..|s.reported|] == s.reported
    && (id in t.reported[|s.reported|] <==>
          id in s.received || Overdue(s.worker + s.handed[0], s.clock + wait, delay, id))
    && (e in t.worker <==> e in s.worker + s.handed[0] && e.id !in t.reported[|s.reported|])
  }

  lemma CallStep(s: System, wait: real, delay: real, recorded: set<ReqId>, id: ReqId, e: Entry)
    requires s.handed != [] && Orderly(Line(s), s.clock, recorded)
    ensures CallReports(s, Next(s, CallGetFinished(wait), delay, true), wait, delay, id, e)
  {
    var d, now, rest := s.worker + s.handed[0], s.clock + wait, Flat(s.handed[1..]) + s.scheduler;
    assert Line(s) == d + rest;
    HandOver(s, s.handed[0], rest);
    hide Orderly, Line, Flat, Update;
    OrderedScansAgree(d, now, delay);
    FullScanExact(d, now, delay, id);
    WithoutExact(d, Ids(FullScan(d, now, delay)) + Ids(s.received), e);
  }

  /** Over every run, a call reports exactly what it was notified of since the last one and what finished longer
      ago than the delay among the requests known to the worker; these leave the worker, the others stay. */
  lemma CallReportsExact(steps: seq<Step>, wait: real, delay: real, id: ReqId, e: Entry)
    requires Monotone(steps + [CallGetFinished(wait)]) && Waiting(steps) > 0
    ensures var s, t := Run(steps, delay, true), Run(steps + [CallGetFinished(wait)], delay, true);
            && s.handed != [] && s.received == PulledSince(steps) && s.clock == Elapsed(steps)
            && CallReports(s, t, wait, delay, id, e)
  {
    var all := steps + [CallGetFinished(wait)];
    assert all[..|all| - 1] == steps;
    PrefixMonotone(steps, CallGetFinished(wait));
    RunHistory(steps, delay, true);
    RunIsOrderly(steps, delay);
    hide Orderly, CallReports, Next;
    CallStep(Run(steps, delay, true), wait, delay, Recorded(steps), id, e);
  }

  lemma PrefixMonotone(steps: seq<Step>, step: Step)
    requires Monotone(steps + [step])
    ensures Monotone(steps)
  {
    var all := steps + [step];
    assert forall k :: 0 <= k < |steps| ==> all[k] == steps[k];
  }

  /** Without unique ids the claim fails: a request that finishes again keeps its old place. */
  lemma ReusedIdHidesExpiry()
    ensures var d := Put([Entry("a", 0.0), Entry("b", 0.0)], Entry("a", 50.0));
            FullScan(d, 110.0, 100.0) == ["b"] && EarlyBreak(d, 110.0, 100.0) == []
  {
    var d := [Entry("a", 50.0), Entry("b", 0.0)];
    assert d[1..] == [Entry("b", 0.0)] && d[1..][1..] == [];
    assert Put([Entry("a", 0.0), Entry("b", 0.0)], Entry("a", 50.0)) == d;
  }
}

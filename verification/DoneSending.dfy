/** How often the prefill side reports a request as done sending
    (omni/accelerators/pd/omni_cache_connector_v1.py): once for the delay, once for each notification, and
    exactly when two calls of `get_finished` report the same one.
 */
module DoneSending {
  import opened TransferProtocol
  import opened Wrappers

  // ----- What is reported and what is kept -------------------------------------------------------------------

  ghost predicate InMetadata(p: Prefill, r: Id) { exists k :: 0 <= k < |p.metadata| && r in p.metadata[k] }

  /** A finish time of the request is still kept somewhere. */
  ghost predicate Waits(p: Prefill, r: Id) { r in p.recorded || r in p.times || InMetadata(p, r) }

  /** A finish time is kept in one place only. */
  ghost predicate OncePlaced(p: Prefill) {
    && (forall r :: r in p.recorded ==> r !in p.times && !InMetadata(p, r))
    && (forall r :: r in p.times ==> !InMetadata(p, r))
    && (forall j, k, r :: 0 <= j < k < |p.metadata| && r in p.metadata[j] ==> r !in p.metadata[k])
  }

  ghost predicate PulledBefore(s: System, r: Id) { exists e :: e in s.released && e.Pulled? && e.id == r }

  ghost predicate LateBefore(s: System, r: Id) { exists e :: e in s.released && e.Late? && e.id == r }

  /** What was reported late is not kept any more; what has finished and is not kept was reported. */
  ghost predicate Settled(s: System) {
    && (forall r :: LateBefore(s, r) ==> r in s.finishedAt && !Waits(s.p, r))
    && (forall r :: r in s.finishedAt && !Waits(s.p, r) ==> PulledBefore(s, r) || LateBefore(s, r))
    && (forall r :: Waits(s.p, r) ==> r in s.finishedAt)
  }

  /** Each report belongs to a call that has begun; the open call has collected exactly its late ones, and
      no request is reported late twice. */
  ghost predicate Dated(s: System) {
    && (forall e :: e in s.released && e.Pulled? ==> e.call < s.calls)
    && (forall e :: e in s.released && e.Late? ==>
          e.call <= s.calls && (e.call == s.calls ==> s.p.sending.Some? && e.id in s.p.sending.value))
    && (s.p.sending.Some? ==> forall r :: r in s.p.sending.value ==> LateIn(s, r, s.calls))
    && (forall e, f :: e in s.released && f in s.released && e.Late? && f.Late? && e.id == f.id ==> e == f)
  }

  ghost predicate LateIn(s: System, r: Id, call: nat) {
    exists e :: e in s.released && e.Late? && e.id == r && e.call == call
  }

  ghost predicate ReportsKept(s: System) { OncePlaced(s.p) && Settled(s) && Dated(s) }

  /** Two different calls report the request. */
  ghost predicate ReportedTwice(s: System, r: Id) {
    exists e, f :: e in s.released && f in s.released && e.id == r && f.id == r && e.call < f.call
  }

  lemma FinishWaits(p: Prefill, q: Prefill, id: Id, now: int)
    requires q == RequestFinished(p, id, now)
    ensures forall r :: Waits(q, r) <==> Waits(p, r) || r == id
    ensures forall r :: InMetadata(q, r) <==> InMetadata(p, r)
  {
  }

  lemma FinishReports(s: System, t: System, id: Id, now: int)
    requires ReportsKept(s) && id !in s.finishedAt
    requires t == s.(p := RequestFinished(s.p, id, now), finishedAt := s.finishedAt[id := now])
    ensures ReportsKept(t)
  {
    FinishWaits(s.p, t.p, id, now);
    assert !Waits(s.p, id);
    SameReports(s, t);
    hide InMetadata, LateBefore, PulledBefore;
  }

  lemma SameReports(s: System, t: System)
    requires t.released == s.released
    ensures forall r :: LateBefore(t, r) <==> LateBefore(s, r)
    ensures forall r :: PulledBefore(t, r) <==> PulledBefore(s, r)
    ensures forall r, c :: LateIn(t, r, c) <==> LateIn(s, r, c)
  {
  }

  lemma HandOverWaits(p: Prefill, q: Prefill)
    requires q == HandOver(p)
    ensures forall r :: InMetadata(q, r) <==> InMetadata(p, r) || r in p.recorded
  {
    forall r ensures InMetadata(q, r) <==> InMetadata(p, r) || r in p.recorded {
      assert q.metadata[|p.metadata|] == p.recorded;
      if k :| 0 <= k < |p.metadata| && r in p.metadata[k] { assert q.metadata[k] == p.metadata[k]; }
    }
  }

  lemma HandOverPlaced(p: Prefill, q: Prefill)
    requires OncePlaced(p) && q == HandOver(p)
    ensures OncePlaced(q)
  {
    HandOverWaits(p, q);
    forall j, k, r | 0 <= j < k < |q.metadata| && r in q.metadata[j] ensures r !in q.metadata[k] {
      assert InMetadata(p, r);
    }
    hide InMetadata;
  }

  lemma HandOverReports(s: System, t: System)
    requires ReportsKept(s) && t == s.(p := HandOver(s.p))
    ensures ReportsKept(t)
  {
    HandOverPlaced(s.p, t.p);
    HandOverWaits(s.p, t.p);
    SameReports(s, t);
    hide InMetadata, LateBefore, PulledBefore, OncePlaced, HandOver;
    assert forall r :: Waits(t.p, r) <==> Waits(s.p, r) by { assert t.p == HandOver(s.p); HandOverSame(s.p, t.p); }
    hide Waits;
  }

  lemma HandOverSame(p: Prefill, q: Prefill)
    requires q == HandOver(p)
    ensures q.sending == p.sending && forall r :: Waits(q, r) <==> Waits(p, r)
  {
    HandOverWaits(p, q);
    hide InMetadata;
  }

  lemma ExpireWaits(p: Prefill, q: Prefill, delay: int, now: int)
    requires p.metadata != [] && q == Expire(p, delay, now)
    ensures forall r :: InMetadata(p, r) <==> InMetadata(q, r) || r in p.metadata[0]
  {
    forall r ensures InMetadata(p, r) <==> InMetadata(q, r) || r in p.metadata[0] {
      if k :| 0 <= k < |p.metadata| && r in p.metadata[k] {
        if k > 0 { assert r in q.metadata[k - 1]; }
      }
      if k :| 0 <= k < |q.metadata| && r in q.metadata[k] { assert r in p.metadata[k + 1]; }
    }
  }

  lemma ExpireApart(p: Prefill, q: Prefill, delay: int, now: int)
    requires OncePlaced(p) && p.metadata != [] && q == Expire(p, delay, now)
    ensures forall r :: r in p.metadata[0] ==> !InMetadata(q, r)
    ensures forall j, k, r :: 0 <= j < k < |q.metadata| && r in q.metadata[j] ==> r !in q.metadata[k]
  {
    hide InMetadata, OutOfDate, Updated;
    forall r, k | r in p.metadata[0] && 0 <= k < |q.metadata| ensures r !in q.metadata[k] {
      assert q.metadata[k] == p.metadata[k + 1];
    }
    forall r | r in p.metadata[0] ensures !InMetadata(q, r) { NotInMetadata(q, r); }
    forall j, k, r | 0 <= j < k < |q.metadata| && r in q.metadata[j] ensures r !in q.metadata[k] {
      assert q.metadata[j] == p.metadata[j + 1] && q.metadata[k] == p.metadata[k + 1];
    }
  }

  lemma NotInMetadata(p: Prefill, r: Id)
    requires forall k :: 0 <= k < |p.metadata| ==> r !in p.metadata[k]
    ensures !InMetadata(p, r)
  {
  }

  lemma ExpireTimes(p: Prefill, q: Prefill, delay: int, now: int)
    requires p.metadata != [] && q == Expire(p, delay, now)
    ensures q.recorded == p.recorded
    ensures forall r :: r in q.times <==> (r in p.times || r in p.metadata[0]) && r !in OutOfDate(p, delay, now)
    ensures forall r :: r in OutOfDate(p, delay, now) ==> r in p.times || r in p.metadata[0]
  {
  }

  lemma ExpirePlaced(p: Prefill, q: Prefill, delay: int, now: int)
    requires OncePlaced(p) && p.metadata != [] && q == Expire(p, delay, now)
    ensures OncePlaced(q)
    ensures forall r :: Waits(q, r) <==> Waits(p, r) && r !in OutOfDate(p, delay, now)
  {
    ExpireWaits(p, q, delay, now);
    ExpireApart(p, q, delay, now);
    ExpireTimes(p, q, delay, now);
    hide InMetadata, OutOfDate, Expire, Updated;
  }

  lemma ExpireReported(s: System, t: System, delay: int, now: int)
    requires s.p.metadata != []
    requires t == s.(p := Expire(s.p, delay, now), released := s.released + LateReports(s.p, delay, now, s.calls))
    ensures forall r :: LateBefore(t, r) <==> LateBefore(s, r) || r in OutOfDate(s.p, delay, now)
    ensures forall r :: PulledBefore(t, r) <==> PulledBefore(s, r)
    ensures forall r :: r in OutOfDate(s.p, delay, now) ==> LateIn(t, r, s.calls)
  {
    forall r | r in OutOfDate(s.p, delay, now) ensures LateBefore(t, r) && LateIn(t, r, s.calls) {
      assert Late(r, Updated(s.p)[r], now, s.calls) in t.released;
    }
    forall r ensures LateBefore(t, r) ==> LateBefore(s, r) || r in OutOfDate(s.p, delay, now) {
    }
    forall r | PulledBefore(t, r) ensures PulledBefore(s, r) {
      var e :| e in t.released && e.Pulled? && e.id == r;
      assert e in s.released;
    }
  }

  lemma OutOfDateWaits(p: Prefill, delay: int, now: int, r: Id)
    requires p.metadata != []
    ensures r in OutOfDate(p, delay, now) ==> Waits(p, r)
  {
    if r in p.metadata[0] { assert InMetadata(p, r); }
  }

  lemma ExpireSettled(s: System, t: System, delay: int, now: int)
    requires OncePlaced(s.p) && Settled(s) && s.p.metadata != []
    requires t == s.(p := Expire(s.p, delay, now), released := s.released + LateReports(s.p, delay, now, s.calls))
    ensures OncePlaced(t.p) && Settled(t)
  {
    ExpirePlaced(s.p, t.p, delay, now);
    ExpireReported(s, t, delay, now);
    forall r ensures r in OutOfDate(s.p, delay, now) ==> Waits(s.p, r) { OutOfDateWaits(s.p, delay, now, r); }
    hide Waits, OncePlaced, LateBefore, PulledBefore, Expire, LateReports, OutOfDate;
  }

  /** No request is reported late twice: the first time its finish time is given up. */
  lemma ExpireDated(s: System, t: System, delay: int, now: int)
    requires Settled(s) && Dated(s) && s.p.sending.None? && s.p.metadata != []
    requires t == s.(p := Expire(s.p, delay, now), released := s.released + LateReports(s.p, delay, now, s.calls))
    ensures Dated(t)
  {
    ExpireReported(s, t, delay, now);
    forall e, f | e in t.released && f in t.released && e.Late? && f.Late? && e.id == f.id ensures e == f {
      assert e in s.released ==> LateBefore(s, e.id);
      assert f in s.released ==> LateBefore(s, f.id);
      OutOfDateWaits(s.p, delay, now, e.id);
    }
    hide Waits, LateBefore, PulledBefore, LateIn;
  }

  lemma ExpireReports(s: System, t: System, delay: int, now: int)
    requires ReportsKept(s) && s.p.sending.None? && s.p.metadata != []
    requires t == s.(p := Expire(s.p, delay, now), released := s.released + LateReports(s.p, delay, now, s.calls))
    ensures ReportsKept(t)
  {
    hide OncePlaced, Settled, Dated;
    ExpireSettled(s, t, delay, now);
    ExpireDated(s, t, delay, now);
  }

  lemma PullReported(s: System, t: System)
    requires t == s.(p := Release(s.p), released := s.released + PulledReports(s.p, s.calls), calls := s.calls + 1)
    ensures forall r :: LateBefore(t, r) <==> LateBefore(s, r)
    ensures forall r :: PulledBefore(t, r) <==> PulledBefore(s, r) || r in s.p.receiveList
    ensures forall r :: Waits(t.p, r) <==> Waits(s.p, r) && (r in s.p.receiveList ==> r !in s.p.times || Waits(t.p, r))
    ensures forall r :: InMetadata(t.p, r) <==> InMetadata(s.p, r)
  {
    forall r | r in s.p.receiveList ensures PulledBefore(t, r) { assert Pulled(r, s.calls) in t.released; }
    forall r | LateBefore(t, r) ensures LateBefore(s, r) {
      var e :| e in t.released && e.Late? && e.id == r;
      assert e in s.released;
    }
  }

  lemma PullReports(s: System, t: System)
    requires ReportsKept(s) && s.p.sending.Some?
    requires t == s.(p := Release(s.p), released := s.released + PulledReports(s.p, s.calls), calls := s.calls + 1)
    ensures ReportsKept(t)
  {
    PullReported(s, t);
    hide InMetadata, LateBefore, PulledBefore;
  }

  lemma DeliverReports(s: System, t: System, id: Id)
    requires ReportsKept(s) && t == s.(notes := t.notes, p := Notified(s.p, [id]))
    ensures ReportsKept(t)
  {
    SameReports(s, t);
    assert forall r :: InMetadata(t.p, r) <==> InMetadata(s.p, r);
    hide InMetadata, LateBefore, PulledBefore;
  }

  lemma OtherReports(s: System, t: System)
    requires ReportsKept(s)
    requires t.p == s.p && t.released == s.released && t.finishedAt == s.finishedAt && t.calls == s.calls
    ensures ReportsKept(t)
  {
    SameReports(s, t);
    hide InMetadata, LateBefore, PulledBefore, OncePlaced;
  }

  lemma StepKeepsReports(s: System, delay: int, step: Step)
    requires ReportsKept(s) && Enabled(s, step)
    ensures ReportsKept(Next(s, delay, step))
  {
    hide ReportsKept;
    var t := Next(s, delay, step);
    match step {
      case Finish(id, now) => FinishReports(s, t, id, now);
      case BuildMetadata => HandOverReports(s, t);
      case ReleaseLate(now) => ExpireReports(s, t, delay, now);
      case Deliver(id) => DeliverReports(s, t, id);
      case ReleasePulled => PullReports(s, t);
      case _ => OtherReports(s, t);
    }
  }

  lemma {:induction false} RunKeepsReports(delay: int, steps: seq<Step>)
    requires Run(delay, steps).Some?
    ensures ReportsKept(Run(delay, steps).value)
  {
    if steps == [] {
    } else {
      hide ReportsKept, Next, Enabled;
      var init, last := steps[..|steps| - 1], steps[|steps| - 1];
      RunKeepsReports(delay, init);
      StepKeepsReports(Run(delay, init).value, delay, last);
    }
  }

  /** The first half of a call gives up exactly what finished longer ago than the delay, among the requests
      whose time has reached the worker with this metadata; the others it keeps. */
  lemma LateExact(delay: int, steps: seq<Step>, now: int, r: Id)
    requires Run(delay, steps).Some? && Enabled(Run(delay, steps).value, ReleaseLate(now))
    ensures var s := Run(delay, steps).value;
            var t := Next(s, delay, ReleaseLate(now));
            && (r in s.p.times || r in s.p.metadata[0] ==> r in s.finishedAt)
            && (LateIn(t, r, s.calls) <==>
                  (r in s.p.times || r in s.p.metadata[0]) && now - s.finishedAt[r] > delay)
            && (r in t.p.times <==>
                  (r in s.p.times || r in s.p.metadata[0]) && now - s.finishedAt[r] <= delay)
  {
    RunKeepsInv(delay, steps);
    RunKeepsReports(delay, steps);
    var s := Run(delay, steps).value;
    hide Run, Conserved, PendingKept, Ordered;
    var t := Next(s, delay, ReleaseLate(now));
    hide Next, LateReports, Settled, OncePlaced, Expire, OutOfDate;
    assert t == s.(p := Expire(s.p, delay, now), released := s.released + LateReports(s.p, delay, now, s.calls)) by {
      NextIsExpire(s, delay, now);
    }
    ExpireReported(s, t, delay, now);
    LateInExact(s, t, delay, now, r);
    KnownLate(s, delay, now, r);
    ExpireTimes(s.p, t.p, delay, now);
  }

  lemma NextIsExpire(s: System, delay: int, now: int)
    requires Enabled(s, ReleaseLate(now))
    ensures Next(s, delay, ReleaseLate(now))
         == s.(p := Expire(s.p, delay, now), released := s.released + LateReports(s.p, delay, now, s.calls))
  {
  }

  lemma LateInExact(s: System, t: System, delay: int, now: int, r: Id)
    requires Dated(s) && s.p.sending.None? && s.p.metadata != []
    requires t.released == s.released + LateReports(s.p, delay, now, s.calls)
    requires r in OutOfDate(s.p, delay, now) ==> LateIn(t, r, s.calls)
    ensures LateIn(t, r, s.calls) <==> r in OutOfDate(s.p, delay, now)
  {
  }

  lemma KnownLate(s: System, delay: int, now: int, r: Id)
    requires PrefillSafe(s, delay) && s.p.metadata != []
    ensures r in s.p.times || r in s.p.metadata[0] ==> r in s.finishedAt
    ensures r in OutOfDate(s.p, delay, now) <==>
              (r in s.p.times || r in s.p.metadata[0]) && now - s.finishedAt[r] > delay
  {
    KnownTimes(s, delay, r);
    hide PrefillSafe;
  }

  lemma KnownTimes(s: System, delay: int, r: Id)
    requires PrefillSafe(s, delay) && s.p.metadata != []
    ensures r in s.p.times ==> r in s.finishedAt && s.p.times[r] == s.finishedAt[r]
    ensures r in s.p.metadata[0] ==> r in s.finishedAt && s.p.metadata[0][r] == s.finishedAt[r]
  {
    assert TimesOf(s, s.p.metadata[0]);
  }

  ghost predicate PulledIn(s: System, r: Id, call: nat) {
    exists e :: e in s.released && e.Pulled? && e.id == r && e.call == call
  }

  /** The second half reports exactly the requests in the receive list and empties it.  The worker forgets their
      times, and one whose time had reached it is kept nowhere any more. */
  lemma PulledExact(delay: int, steps: seq<Step>, r: Id)
    requires Run(delay, steps).Some? && Enabled(Run(delay, steps).value, ReleasePulled)
    ensures var s := Run(delay, steps).value;
            var t := Next(s, delay, ReleasePulled);
            && t.p.receiveList == []
            && (PulledIn(t, r, s.calls) <==> r in s.p.receiveList)
            && (r in t.p.times <==> r in s.p.times && r !in s.p.receiveList)
            && (r in s.p.times && r in s.p.receiveList ==> !Waits(t.p, r))
  {
    RunKeepsReports(delay, steps);
    var s := Run(delay, steps).value;
    hide Run;
    var t := Next(s, delay, ReleasePulled);
    PullReported(s, t);
    if r in s.p.receiveList { assert Pulled(r, s.calls) in t.released; }
    if e :| e in t.released && e.Pulled? && e.id == r && e.call == s.calls { assert e !in s.released; }
    hide Settled, InMetadata;
  }

  // ----- When a report is repeated ----------------------------------------------------------------------------

  /** The notification repeats a report: the request was notified before, or its finish time has reached the
      worker and is not kept any more, without having been given up in this very call. */
  ghost predicate PullCondition(s: System, r: Id)
    requires s.p.sending.Some?
  {
    && r in s.p.receiveList
    && (PulledBefore(s, r) || (r in s.finishedAt && !Waits(s.p, r) && r !in s.p.sending.value))
  }

  /** The step makes a call report a request that an earlier call has reported: its delay passes although it
      was notified, before its finish time had reached the worker, or the notification comes too late. */
  ghost predicate Repeats(s: System, delay: int, step: Step, r: Id)
    requires Enabled(s, step)
  {
    match step
    case ReleaseLate(now) => PulledBefore(s, r) && r in OutOfDate(s.p, delay, now)
    case ReleasePulled => PullCondition(s, r)
    case _ => false
  }

  lemma LateRepeats(s: System, t: System, delay: int, now: int, r: Id)
    requires ReportsKept(s) && s.p.sending.None? && s.p.metadata != [] && !ReportedTwice(s, r)
    requires t == s.(p := Expire(s.p, delay, now), released := s.released + LateReports(s.p, delay, now, s.calls))
    ensures ReportedTwice(t, r) <==> PulledBefore(s, r) && r in OutOfDate(s.p, delay, now)
  {
    OutOfDateWaits(s.p, delay, now, r);
    if e, f :| e in t.released && f in t.released && e.id == r && f.id == r && e.call < f.call {
      assert e !in s.released || f !in s.released;
      assert f in s.released && f.Late? ==> LateBefore(s, r);
      assert e in s.released && e.Late? ==> LateBefore(s, r);
    }
    if PulledBefore(s, r) && r in OutOfDate(s.p, delay, now) {
      var e :| e in s.released && e.Pulled? && e.id == r;
      assert Late(r, Updated(s.p)[r], now, s.calls) in t.released && e.call < s.calls;
    }
  }

  lemma PullRepeatsIf(s: System, t: System, r: Id)
    requires ReportsKept(s) && s.p.sending.Some? && PullCondition(s, r)
    requires t == s.(p := Release(s.p), released := s.released + PulledReports(s.p, s.calls), calls := s.calls + 1)
    ensures ReportedTwice(t, r)
  {
    hide InMetadata;
    var f := Pulled(r, s.calls);
    assert f in t.released;
    var e :| e in s.released && e.id == r && (e.Pulled? || !PulledBefore(s, r));
    assert e in t.released && e.call < f.call;
  }

  lemma PullRepeats(s: System, t: System, r: Id)
    requires ReportsKept(s) && s.p.sending.Some? && !ReportedTwice(s, r)
    requires t == s.(p := Release(s.p), released := s.released + PulledReports(s.p, s.calls), calls := s.calls + 1)
    ensures ReportedTwice(t, r) <==> PullCondition(s, r)
  {
    if PullCondition(s, r) {
      PullRepeatsIf(s, t, r);
    } else if e, f :| e in t.released && f in t.released && e.id == r && f.id == r && e.call < f.call {
      hide InMetadata;
      assert f !in s.released ==> f in PulledReports(s.p, s.calls);
      assert e in s.released && e.Pulled? ==> PulledBefore(s, r);
      if e in s.released && e.Late? { EarlierLate(s, r, e); }
    }
  }

  /** A late report of an earlier call: the request is gone, and not of this call. */
  lemma EarlierLate(s: System, r: Id, e: Report)
    requires ReportsKept(s) && s.p.sending.Some? && e in s.released && e.Late? && e.id == r && e.call < s.calls
    ensures r in s.finishedAt && !Waits(s.p, r) && r !in s.p.sending.value
  {
    assert LateBefore(s, r);
  }

  lemma StepRepeats(s: System, delay: int, step: Step, r: Id)
    requires ReportsKept(s) && Enabled(s, step)
    ensures ReportedTwice(Next(s, delay, step), r) <==> ReportedTwice(s, r) || Repeats(s, delay, step, r)
  {
    hide ReportsKept, PulledBefore, Waits;
    var t := Next(s, delay, step);
    assert s.released <= t.released;
    if !ReportedTwice(s, r) {
      if step.ReleaseLate? {
        LateRepeats(s, t, delay, step.now, r);
      } else if step.ReleasePulled? {
        PullRepeats(s, t, r);
      } else {
        assert t.released == s.released;
      }
    }
  }

  ghost predicate SomeStepRepeats(delay: int, steps: seq<Step>, r: Id) {
    exists k :: 0 <= k < |steps| && RepeatsAt(delay, steps, k, r)
  }

  ghost predicate RepeatsAt(delay: int, steps: seq<Step>, k: nat, r: Id)
    requires k < |steps|
  {
    var before := Run(delay, steps[..k]);
    before.Some? && Enabled(before.value, steps[k]) && Repeats(before.value, delay, steps[k], r)
  }

  lemma RepeatsSplit(delay: int, steps: seq<Step>, r: Id)
    requires steps != []
    ensures var n := |steps| - 1;
            SomeStepRepeats(delay, steps, r) <==> SomeStepRepeats(delay, steps[..n], r) || RepeatsAt(delay, steps, n, r)
  {
    hide Run, Enabled, Repeats;
    var n := |steps| - 1;
    forall k: nat | k < n ensures RepeatsAt(delay, steps, k, r) <==> RepeatsAt(delay, steps[..n], k, r) {
      assert steps[..k] == steps[..n][..k] && steps[k] == steps[..n][k];
    }
    hide RepeatsAt;
  }

  /** Over every run: two calls report a request exactly when some step repeats it. */
  lemma {:induction false} ReportedTwiceExact(delay: int, steps: seq<Step>, r: Id)
    requires Run(delay, steps).Some?
    ensures ReportedTwice(Run(delay, steps).value, r) <==> SomeStepRepeats(delay, steps, r)
  {
    if steps == [] {
    } else {
      hide ReportsKept, Next, Enabled, ReportedTwice, Repeats, SomeStepRepeats;
      var n := |steps| - 1;
      RunKeepsReports(delay, steps[..n]);
      ReportedTwiceExact(delay, steps[..n], r);
      StepRepeats(Run(delay, steps[..n]).value, delay, steps[n], r);
      RepeatsSplit(delay, steps, r);
    }
  }

  // ----- Two calls that report the same request -----------------------------------------------------------

  /** Request 7 finishes after the metadata of this step was built, is loaded and copied, and its notification
      is on the way. */
  const COPIED_STEPS: seq<Step> :=
    [BuildMetadata, Finish(7, 0), Load(1, Some(7)), Queue, Send(true), Answer(1, true), Receive(1, true), StartCopy,
     Proceed(false, false), Proceed(false, false)]

  lemma RunStart(delay: int, steps: seq<Step>)
    ensures Run(delay, steps[..0]) == Some(Initial())
  {
  }

  lemma StepOf(delay: int, steps: seq<Step>, k: nat, s: System)
    requires k < |steps| && Run(delay, steps[..k]) == Some(s) && Enabled(s, steps[k])
    ensures Run(delay, steps[..k + 1]) == Some(Next(s, delay, steps[k]))
  {
    assert steps[..k + 1][..k] == steps[..k];
  }

  /** The states on the way, with the decode side `d` and the messages and history that change. */
  function OnTheWay(d: Decode, sent: multiset<Id>, good: multiset<Id>, notes: multiset<Id>, answered: set<Id>,
                    copied: set<Id>): System
  {
    System(d, sent, good, multiset{}, multiset{}, notes, Prefill(map[7 := 0], [map[]], map[], [], None),
           [], answered, copied, {}, map[7 := 0], {}, 0)
  }

  function Loaded(registering: Option<Id>, sendQ: seq<Id>, h2dQ: seq<Id>, copier: Job): Decode {
    Decode(map[1 := Some(7)], {1}, registering, sendQ, Idle, true, h2dQ, copier, [])
  }

  lemma FinishingSteps(delay: int)
    ensures Run(delay, COPIED_STEPS[..2])
         == Some(OnTheWay(Initial().d, multiset{}, multiset{}, multiset{}, {}, {}))
  {
    hide Run;
    var none: multiset<Id> := multiset{};
    var s1 := Next(Initial(), delay, BuildMetadata);
    assert Next(s1, delay, Finish(7, 0)) == OnTheWay(Initial().d, none, none, none, {}, {});
    hide Next;
    RunStart(delay, COPIED_STEPS);
    StepOf(delay, COPIED_STEPS, 0, Initial());
    StepOf(delay, COPIED_STEPS, 1, s1);
  }

  lemma SendingSteps(delay: int)
    ensures Run(delay, COPIED_STEPS[..5])
         == Some(OnTheWay(Loaded(None, [], [], Idle), multiset{1}, multiset{}, multiset{}, {}, {}))
  {
    hide Run;
    var none: multiset<Id> := multiset{};
    var c := COPIED_STEPS;
    var s2 := OnTheWay(Initial().d, none, none, none, {}, {});
    var s3 := OnTheWay(Loaded(Some(1), [], [], Idle), none, none, none, {}, {});
    var s4 := OnTheWay(Loaded(None, [1], [], Idle), none, none, none, {}, {});
    var s5 := OnTheWay(Loaded(None, [], [], Idle), multiset{1}, none, none, {}, {});
    assert Next(s2, delay, Load(1, Some(7))) == s3;
    assert Next(s3, delay, Queue) == s4;
    assert Next(s4, delay, Send(true)) == s5;
    hide Next;
    FinishingSteps(delay);
    StepOf(delay, c, 2, s2);
    StepOf(delay, c, 3, s3);
    StepOf(delay, c, 4, s4);
  }

  lemma CopyingSteps(delay: int)
    ensures Run(delay, COPIED_STEPS)
         == Some(OnTheWay(Loaded(None, [], [], Busy(1, ToAppend)), multiset{}, multiset{}, multiset{7}, {1}, {1}))
  {
    hide Run;
    var none: multiset<Id> := multiset{};
    var c := COPIED_STEPS;
    var s5 := OnTheWay(Loaded(None, [], [], Idle), multiset{1}, none, none, {}, {});
    var s6 := OnTheWay(Loaded(None, [], [], Idle), none, multiset{1}, none, {1}, {});
    var s7 := OnTheWay(Loaded(None, [], [1], Idle), none, none, none, {1}, {});
    var s8 := OnTheWay(Loaded(None, [], [], Busy(1, ToCopy)), none, none, none, {1}, {});
    var s9 := OnTheWay(Loaded(None, [], [], Busy(1, ToNotify)), none, none, none, {1}, {1});
    var s10 := OnTheWay(Loaded(None, [], [], Busy(1, ToAppend)), none, none, multiset{7}, {1}, {1});
    assert Next(s5, delay, Answer(1, true)) == s6;
    assert Next(s6, delay, Receive(1, true)) == s7;
    assert Next(s7, delay, StartCopy) == s8;
    assert Next(s8, delay, Proceed(false, false)) == s9;
    assert Next(s9, delay, Proceed(false, false)) == s10;
    hide Next;
    SendingSteps(delay);
    StepOf(delay, c, 5, s5);
    StepOf(delay, c, 6, s6);
    StepOf(delay, c, 7, s7);
    StepOf(delay, c, 8, s8);
    StepOf(delay, c, 9, s9);
    assert c[..10] == c;
  }

  /** The states after that, of which only the prefill side changes. */
  function Copied(p: Prefill, notes: multiset<Id>, released: set<Report>, calls: nat): System {
    System(Loaded(None, [], [], Busy(1, ToAppend)), multiset{}, multiset{}, multiset{}, multiset{}, notes, p,
           [], {1}, {1}, {}, map[7 := 0], released, calls)
  }

  lemma ExpireNothing(p: Prefill, delay: int, now: int, call: nat)
    requires p.metadata == [map[]] && p.times == map[]
    ensures Expire(p, delay, now) == p.(metadata := [], sending := Some({})) && LateReports(p, delay, now, call) == {}
  {
    assert Updated(p) == map[];
    assert OutOfDate(p, delay, now) == {};
    assert Updated(p) - {} == map[];
  }

  lemma ExpireSeven(p: Prefill, delay: int, call: nat)
    requires p.metadata == [map[7 := 0]] && p.times == map[]
    ensures Expire(p, delay, delay + 1) == p.(metadata := [], sending := Some({7}))
    ensures LateReports(p, delay, delay + 1, call) == {Late(7, 0, delay + 1, call)}
  {
    assert Updated(p) == map[7 := 0];
    assert OutOfDate(p, delay, delay + 1) == {7};
    assert Updated(p) - {7} == map[];
  }

  lemma ReleaseNothing(p: Prefill, call: nat)
    requires p.receiveList == []
    ensures Release(p) == p.(sending := None) && PulledReports(p, call) == {}
  {
    assert Received(p) == {};
    assert p.times - {} == p.times;
  }

  lemma ReleaseSeven(p: Prefill, call: nat)
    requires p.receiveList == [7] && p.times == map[]
    ensures Release(p) == p.(receiveList := [], sending := None) && PulledReports(p, call) == {Pulled(7, call)}
  {
    assert Received(p) == {7};
    assert p.times - {7} == map[];
  }

  function Call(now: int): seq<Step> { [ReleaseLate(now), ReleasePulled] }

  /** A whole call of `get_finished`. */
  lemma CallRuns(delay: int, steps: seq<Step>, p: Prefill, notes: multiset<Id>, released: set<Report>, calls: nat,
                 now: int)
    requires Run(delay, steps) == Some(Copied(p, notes, released, calls)) && p.sending.None? && p.metadata != []
    ensures var q := Expire(p, delay, now);
            var after := Copied(Release(q), notes,
                                released + LateReports(p, delay, now, calls) + PulledReports(q, calls), calls + 1);
            Run(delay, steps + Call(now)) == Some(after)
  {
    hide Run, LateReports, PulledReports, Release;
    var s := Copied(p, notes, released, calls);
    RunExtends(delay, steps, s, ReleaseLate(now));
    RunExtends(delay, steps + [ReleaseLate(now)], Next(s, delay, ReleaseLate(now)), ReleasePulled);
    assert steps + Call(now) == steps + [ReleaseLate(now)] + [ReleasePulled];
  }

  lemma HandOverRuns(delay: int, steps: seq<Step>, p: Prefill, notes: multiset<Id>, released: set<Report>, calls: nat)
    requires Run(delay, steps) == Some(Copied(p, notes, released, calls))
    ensures Run(delay, steps + [BuildMetadata]) == Some(Copied(HandOver(p), notes, released, calls))
  {
    hide Run;
    RunExtends(delay, steps, Copied(p, notes, released, calls), BuildMetadata);
  }

  lemma DeliverRuns(delay: int, steps: seq<Step>, p: Prefill, released: set<Report>, calls: nat)
    requires Run(delay, steps) == Some(Copied(p, multiset{7}, released, calls)) && p.receiveList == []
    ensures Run(delay, steps + [Deliver(7)]) == Some(Copied(p.(receiveList := [7]), multiset{}, released, calls))
  {
    hide Run;
    RunExtends(delay, steps, Copied(p, multiset{7}, released, calls), Deliver(7));
    assert multiset{7} - multiset{7} == multiset{};
    assert p.receiveList + [7] == [7];
  }

  /** A call with empty metadata that finds request 7 in the receive list, or nothing. */
  lemma PulledCall(delay: int, steps: seq<Step>, p: Prefill, notes: multiset<Id>, released: set<Report>, calls: nat)
    requires Run(delay, steps) == Some(Copied(p, notes, released, calls))
    requires p.sending.None? && p.metadata == [map[]]
    requires p.times == map[] && (p.receiveList == [] || p.receiveList == [7])
    ensures var reports := if p.receiveList == [] then {} else {Pulled(7, calls)};
            var after := Copied(p.(metadata := [], receiveList := []), notes, released + reports, calls + 1);
            Run(delay, steps + Call(0)) == Some(after)
  {
    hide Run, Expire, LateReports, Release, PulledReports;
    CallRuns(delay, steps, p, notes, released, calls, 0);
    ExpireNothing(p, delay, 0, calls);
    var q := p.(metadata := [], sending := Some({}));
    if p.receiveList == [] { ReleaseNothing(q, calls); } else { ReleaseSeven(q, calls); }
    assert released + {} == released;
    assert p.(metadata := [], receiveList := []) == Release(q);
  }

  /** A call that finds request 7 out of date. */
  lemma LateCall(delay: int, steps: seq<Step>, p: Prefill, notes: multiset<Id>, released: set<Report>, calls: nat)
    requires Run(delay, steps) == Some(Copied(p, notes, released, calls))
    requires p.sending.None? && p.metadata == [map[7 := 0]] && p.times == map[] && p.receiveList == []
    ensures Run(delay, steps + Call(delay + 1))
         == Some(Copied(p.(metadata := []), notes, released + {Late(7, 0, delay + 1, calls)}, calls + 1))
  {
    hide Run, Expire, LateReports, Release, PulledReports;
    CallRuns(delay, steps, p, notes, released, calls, delay + 1);
    ExpireSeven(p, delay, calls);
    ReleaseNothing(p.(metadata := [], sending := Some({7})), calls);
    assert released + {Late(7, 0, delay + 1, calls)} + {} == released + {Late(7, 0, delay + 1, calls)};
    assert p.(metadata := []) == Release(p.(metadata := [], sending := Some({7})));
  }

  const PULLED_STEPS: seq<Step> := COPIED_STEPS + [Deliver(7)] + Call(0) + [BuildMetadata]

  /** A notification that comes before the finish time has reached the worker does not stop the delay. */
  lemma PulledThenLateExample(delay: int)
    ensures var run := Run(delay, PULLED_STEPS + Call(delay + 1));
            run.Some? && run.value.released == {Pulled(7, 0), Late(7, 0, delay + 1, 1)} && ReportedTwice(run.value, 7)
  {
    hide Run, COPIED_STEPS;
    var none: map<Id, int> := map[];
    var one := map[7 := 0];
    CopyingSteps(delay);
    var steps := COPIED_STEPS;
    DeliverRuns(delay, steps, Prefill(one, [none], none, [], None), {}, 0);
    var p := Prefill(one, [none], none, [7], None);
    PulledCall(delay, steps + [Deliver(7)], p, multiset{}, {}, 0);
    var p' := Prefill(one, [], none, [], None);
    HandOverRuns(delay, steps + [Deliver(7)] + Call(0), p', multiset{}, {} + {Pulled(7, 0)}, 1);
    assert HandOver(p') == Prefill(none, [one], none, [], None);
    LateCall(delay, PULLED_STEPS, Prefill(none, [one], none, [], None), multiset{}, {} + {Pulled(7, 0)}, 1);
  }

  const KEPT_STEPS: seq<Step> := COPIED_STEPS + Call(0) + [BuildMetadata]

  lemma KeptRun(delay: int)
    ensures Run(delay, KEPT_STEPS)
         == Some(Copied(Prefill(map[], [map[7 := 0]], map[], [], None), multiset{7}, {}, 1))
  {
    hide Run, COPIED_STEPS;
    var none: map<Id, int> := map[];
    var one := map[7 := 0];
    CopyingSteps(delay);
    PulledCall(delay, COPIED_STEPS, Prefill(one, [none], none, [], None), multiset{7}, {}, 0);
    var p := Prefill(one, [], none, [], None);
    var nothing: set<Report> := {};
    assert nothing + nothing == nothing;
    HandOverRuns(delay, COPIED_STEPS + Call(0), p, multiset{7}, nothing, 1);
    assert HandOver(p) == Prefill(none, [one], none, [], None);
  }

  /** A notification that comes after the delay has passed reports the request again. */
  lemma LateThenPulledExample(delay: int)
    ensures var run := Run(delay, KEPT_STEPS + Call(delay + 1) + [BuildMetadata] + [Deliver(7)] + Call(0));
            run.Some? && run.value.released == {Late(7, 0, delay + 1, 1), Pulled(7, 2)} && ReportedTwice(run.value, 7)
  {
    hide Run, KEPT_STEPS;
    var none: map<Id, int> := map[];
    KeptRun(delay);
    LateCall(delay, KEPT_STEPS, Prefill(none, [map[7 := 0]], none, [], None), multiset{7}, {}, 1);
    var steps, released := KEPT_STEPS + Call(delay + 1), {} + {Late(7, 0, delay + 1, 1)};
    HandOverRuns(delay, steps, Prefill(none, [], none, [], None), multiset{7}, released, 2);
    var p := Prefill(none, [none], none, [], None);
    assert HandOver(Prefill(none, [], none, [], None)) == p;
    DeliverRuns(delay, steps + [BuildMetadata], p, released, 2);
    PulledCall(delay, steps + [BuildMetadata] + [Deliver(7)], p.(receiveList := [7]), multiset{}, released, 2);
  }
}

/** What the Event lane promises over whole runs, whatever is appended, answered, lost or killed in between. */
module EventLaneSafety {
  import opened Options
  import opened Outbox
  import opened EventLaneProtocol

  lemma {:induction false} SegmentKeepsInv(run: seq<State>, steps: seq<Step>, n: nat)
    requires IsSegment(run, steps) && n < |run|
    ensures Inv(run[n])
  {
    if n > 0 {
      SegmentKeepsInv(run, steps, n - 1);
      StepKeepsInv(run[n - 1], steps[n - 1]);
      assert Enabled(run[n - 1], steps[n - 1]) && run[n - 1 + 1] == Apply(run[n - 1], steps[n - 1]);
    }
  }

  lemma RunKeepsInv(run: seq<State>, steps: seq<Step>, n: nat)
    requires IsRun(run, steps) && n < |run|
    ensures IsSegment(run, steps) && Inv(run[n])
  {
    assert Inv(run[0]);
    SegmentKeepsInv(run, steps, n);
  }

  /** No event is lost: whatever replies are lost or wrong and wherever the process dies, every appended event is
      in the Outbox, or the server gave it a terminal verdict in answer to a request that carried it. */
  lemma NoEventLost(run: seq<State>, steps: seq<Step>, e: EventId)
    requires IsRun(run, steps) && e in run[|steps|].appended
    ensures e in Ids(run[|steps|].table) || Terminal(run[|steps|].verdicts, e)
  {
    RunKeepsInv(run, steps, |steps|);
  }

  /** A row leaves the table in two ways only: retained after its ack, once the retention in force has elapsed
      since the stamp; or pending, on a verdict that is not retained. */
  lemma RowsLeaveOnlyWhenDue(run: seq<State>, steps: seq<Step>, n: nat, r: Row)
    requires IsRun(run, steps) && n < |steps|
    requires r in run[n].table && r.eventId !in Ids(run[n + 1].table)
    ensures !Pending(r) ==> NowUs(run[n]) - r.ackedAtUs.value >= run[n].retentionMs * 1000
    ensures Pending(r) ==> Deletable(run[n], r.eventId)
  {
    RunKeepsInv(run, steps, n);
    assert Enabled(run[n], steps[n]) && run[n + 1] == Apply(run[n], steps[n]);
    LeavesOnlyWhenDue(run[n], steps[n], r);
  }

  lemma LeavesOnlyWhenDue(s: State, step: Step, r: Row)
    requires Inv(s) && Enabled(s, step)
    requires r in s.table && r.eventId !in Ids(Apply(s, step).table)
    ensures !Pending(r) ==> NowUs(s) - r.ackedAtUs.value >= s.retentionMs * 1000
    ensures Pending(r) ==> Deletable(s, r.eventId)
  {
    var s' := Apply(s, step);
    if step.Sweep? || step.BootSweep? {
      SweptOnlyWhenDue(s, r, s');
    } else if step.DeleteSettled? {
      assert PassInv(s, s.passes[step.i].pc);
      assert r !in s'.table;
    } else {
      OtherStepsKeepRows(s, step);
    }
  }

  lemma OtherStepsKeepRows(s: State, step: Step)
    requires Enabled(s, step) && !step.Sweep? && !step.BootSweep? && !step.DeleteSettled?
    ensures Ids(s.table) <= Ids(Apply(s, step).table)
  {
    if step.AppendInsert? {
      forall r | r in s.table ensures r.eventId in Ids(Apply(s, step).table) { assert r in Apply(s, step).table; }
    }
  }

  lemma SweptOnlyWhenDue(s: State, r: Row, s': State)
    requires r in s.table && r.eventId !in Ids(s'.table)
    requires s'.table == SweepAcked(s.table, CutoffUs(s)) || s'.table == s.table
    ensures !Pending(r) && NowUs(s) - r.ackedAtUs.value >= s.retentionMs * 1000
  {
    assert r !in s'.table;
  }

  // ---- Requests ----

  predicate Posts(step: Step) {
    step.Post? || step.Resend?
  }

  /** The rows a request carries. */
  function Carried(s: State, step: Step): seq<Row>
    requires Enabled(s, step) && Posts(step)
  {
    s.passes[step.i].pc.batch
  }

  lemma {:induction false} SettledGrows(run: seq<State>, steps: seq<Step>, m: nat, n: nat)
    requires IsRun(run, steps) && m <= n < |run|
    ensures run[m].settled <= run[n].settled
    decreases n - m
  {
    if m < n {
      SettledGrows(run, steps, m, n - 1);
      assert Enabled(run[n - 1], steps[n - 1]) && run[n - 1 + 1] == Apply(run[n - 1], steps[n - 1]);
    }
  }

  /** Once a terminal verdict has been settled, no later request carries the event, across restarts too. */
  lemma SettledNeverPosted(run: seq<State>, steps: seq<Step>, m: nat, n: nat, e: EventId)
    requires IsRun(run, steps) && m <= n < |steps|
    requires e in run[m].settled && Posts(steps[n])
    ensures Enabled(run[n], steps[n]) && e !in Ids(Carried(run[n], steps[n]))
  {
    RunKeepsInv(run, steps, n);
    SettledGrows(run, steps, m, n);
    assert Enabled(run[n], steps[n]);
    assert PassInv(run[n], run[n].passes[steps[n].i].pc);
  }

  /** Flush calls run one at a time, in call order, even after a failed one: a call that has started finds
      every earlier one settled. So at most one request is outstanding, and no event is in two. */
  lemma OneRequestAtATime(run: seq<State>, steps: seq<Step>, n: nat, i: nat, j: nat)
    requires IsRun(run, steps) && n < |run| && i < j < |run[n].passes|
    ensures !run[n].passes[j].pc.Waiting? ==> run[n].passes[i].pc.Over?
    ensures !(run[n].passes[i].pc.Sent? && run[n].passes[j].pc.Sent?)
  {
    RunKeepsInv(run, steps, n);
  }

  // ---- The drain signal ----

  /** The published signal is never `empty` while an event whose append has resolved awaits a verdict. */
  lemma DrainSignalIsTrue(run: seq<State>, steps: seq<Step>, n: nat, e: EventId)
    requires IsRun(run, steps) && n < |run|
    requires e in run[n].resolved && !Terminal(run[n].verdicts, e)
    ensures run[n].currentEmpty != Some(true)
  {
    RunKeepsInv(run, steps, n);
    var s := run[n];
    assert e in Ids(s.table);
    var r :| r in s.table && r.eventId == e;
    assert Pending(r);
  }

  /** What a read of the drain signal publishes: whether every event ever appended has had its verdict settled. */
  lemma PublishedExactly(s: State, step: Step)
    requires Inv(s) && Enabled(s, step) && (step.Drain? || step.BootProbe?) && step.ok
    ensures Apply(s, step).currentEmpty == Some(true) <==> forall e | e in s.appended :: e in s.settled
    ensures Apply(s, step).currentEmpty.Some?
  {
    if forall e | e in s.appended :: e in s.settled {
      assert NoPending(s.table);
    } else {
      var e :| e in s.appended && e !in s.settled;
      var r :| r in s.table && r.eventId == e;
    }
  }

  // ---- The batch backoff ----

  /** Before the gate, or past everything it guards. */
  predicate Clear(pc: Pc) {
    pc.Waiting? || pc.Sweeping? || pc.Gate? || pc.Draining? || pc.Over?
  }

  ghost predicate AllClear(passes: seq<Pass>) {
    forall i | 0 <= i < |passes| :: Clear(passes[i].pc)
  }

  /** Until the clock reaches `due`, the gate is shut and no pass is past it. */
  ghost predicate HeldUntil(s: State, due: int) {
    s.now >= due || (s.batchAttempt > 0 && s.batchRetryAtMs >= due && AllClear(s.passes))
  }

  lemma StepKeepsHeld(s: State, step: Step, due: int)
    requires HeldUntil(s, due) && Enabled(s, step) && !step.Crash?
    ensures HeldUntil(Apply(s, step), due)
  {
    if s.now < due {
      ClearStays(s, step);
    }
  }

  /** Behind a shut gate no pass gets past it. */
  lemma ClearStays(s: State, step: Step)
    requires AllClear(s.passes) && s.batchAttempt > 0 && s.now < s.batchRetryAtMs && Enabled(s, step) && !step.Crash?
    ensures AllClear(Apply(s, step).passes)
    ensures Apply(s, step).batchAttempt == s.batchAttempt && Apply(s, step).batchRetryAtMs == s.batchRetryAtMs
  {
  }

  lemma HeldAtFailure(s: State, step: Step)
    requires Inv(s) && Enabled(s, step) && step.PostFails?
    ensures HeldUntil(Apply(s, step), s.now + Longer(step.backoffMs, step.retryAfterMs))
  {
    forall j | 0 <= j < |s.passes| && j != step.i ensures Clear(s.passes[j].pc) {
      OthersRest(s, step.i, j);
    }
  }

  lemma HeldNext(run: seq<State>, steps: seq<Step>, m: nat)
    requires IsSegment(run, steps) && m < |steps| && steps[m].PostFails?
    ensures HeldUntil(run[m + 1], run[m].now + Longer(steps[m].backoffMs, steps[m].retryAfterMs))
  {
    SegmentKeepsInv(run, steps, m);
    assert Enabled(run[m], steps[m]) && run[m + 1] == Apply(run[m], steps[m]);
    HeldAtFailure(run[m], steps[m]);
  }

  lemma HeldOn(run: seq<State>, steps: seq<Step>, n: nat, due: int)
    requires IsSegment(run, steps) && n < |steps| && !steps[n].Crash? && HeldUntil(run[n], due)
    ensures HeldUntil(run[n + 1], due)
  {
    assert Enabled(run[n], steps[n]) && run[n + 1] == Apply(run[n], steps[n]);
    StepKeepsHeld(run[n], steps[n], due);
  }

  lemma {:induction false} HeldAfterFailure(run: seq<State>, steps: seq<Step>, m: nat, n: nat)
    requires IsSegment(run, steps) && m < n < |run| && steps[m].PostFails?
    requires forall k | m < k < n :: !steps[k].Crash?
    ensures HeldUntil(run[n], run[m].now + Longer(steps[m].backoffMs, steps[m].retryAfterMs))
    decreases n
  {
    if n == m + 1 {
      HeldNext(run, steps, m);
    } else {
      HeldAfterFailure(run, steps, m, n - 1);
      HeldOn(run, steps, n - 1, run[m].now + Longer(steps[m].backoffMs, steps[m].retryAfterMs));
    }
  }

  /** After a failed batch no request leaves this runtime before the longer of the backoff delay and the server's
      Retry-After has passed. */
  lemma BackoffIsRespected(run: seq<State>, steps: seq<Step>, m: nat, n: nat)
    requires IsSegment(run, steps) && m < n < |steps| && steps[m].PostFails? && Posts(steps[n])
    requires forall k | m < k < n :: !steps[k].Crash?
    ensures 2 * (run[n].now - run[m].now) >= NextBound(run[m])
    ensures run[n].now >= run[m].now + steps[m].backoffMs
    ensures steps[m].retryAfterMs.Some? ==> run[n].now >= run[m].now + steps[m].retryAfterMs.value
  {
    HeldAfterFailure(run, steps, m, n);
    assert Enabled(run[n], steps[n]) && Enabled(run[m], steps[m]);
  }

  /** The gate is open, or opens no later than at `due`. */
  predicate OpensBy(s: State, due: int) {
    s.batchAttempt == 0 || s.batchRetryAtMs <= due
  }

  lemma OpensAfter(run: seq<State>, steps: seq<Step>, n: nat, due: int)
    requires IsSegment(run, steps) && n < |steps| && !steps[n].PostFails? && OpensBy(run[n], due)
    ensures OpensBy(run[n + 1], due)
  {
    assert Enabled(run[n], steps[n]) && run[n + 1] == Apply(run[n], steps[n]);
  }

  lemma {:induction false} OpensInTime(run: seq<State>, steps: seq<Step>, m: nat, n: nat)
    requires IsSegment(run, steps) && m < n < |run| && steps[m].PostFails?
    requires forall k | m < k < n :: !steps[k].PostFails?
    ensures OpensBy(run[n], run[m].now + Longer(steps[m].backoffMs, steps[m].retryAfterMs))
    decreases n
  {
    if n == m + 1 {
      assert Enabled(run[m], steps[m]) && run[m + 1] == Apply(run[m], steps[m]);
    } else {
      OpensInTime(run, steps, m, n - 1);
      OpensAfter(run, steps, n - 1, run[m].now + Longer(steps[m].backoffMs, steps[m].retryAfterMs));
    }
  }

  /** Nor is it held longer: once the bound of that attempt and the server's Retry-After have passed, and no other batch has
      failed meanwhile, the gate lets a pass through. */
  lemma BackoffEnds(run: seq<State>, steps: seq<Step>, m: nat, n: nat)
    requires IsSegment(run, steps) && m < n < |steps| && steps[m].PostFails? && steps[n].PassGate?
    requires forall k | m < k < n :: !steps[k].PostFails?
    requires run[n].now >= run[m].now + NextBound(run[m])
    requires steps[m].retryAfterMs.Some? ==> run[n].now >= run[m].now + steps[m].retryAfterMs.value
    ensures steps[n].i < |run[n + 1].passes| && run[n + 1].passes[steps[n].i].pc.Reading?
  {
    OpensInTime(run, steps, m, n);
    assert Enabled(run[m], steps[m]);
    assert Enabled(run[n], steps[n]) && run[n + 1] == Apply(run[n], steps[n]);
  }

  // ---- The acked ledger ----

  /** The ack at hand parks the event. */
  predicate Defers(s: State, step: Step, e: EventId) {
    && step.SettleAck? && step.ok && Enabled(s, step)
    && var pc := s.passes[step.i].pc;
       pc.todo[0].eventId == e && pc.todo[0].status.Deferred? && e in Ids(pc.batch)
  }

  /** The sweep's statement, where it goes through. */
  predicate Sweeps(step: Step) {
    (step.Sweep? || step.BootSweep?) && step.ok
  }

  lemma SameRow(t: Table, q: Row, r: Row)
    requires TableOk(t) && q in t && r in t && q.eventId == r.eventId
    ensures q == r
  {
    var i :| 0 <= i < |t| && t[i] == q;
    var j :| 0 <= j < |t| && t[j] == r;
    assert i == j;
  }

  /** A sweep takes exactly the rows whose stamp is as old as the retention. */
  lemma SweepTakesExactly(s: State, step: Step, r: Row)
    requires Inv(s) && Enabled(s, step) && Sweeps(step) && r in s.table
    ensures r.eventId !in Ids(Apply(s, step).table) <==> !Pending(r) && r.ackedAtUs.value <= NowUs(s) - s.retentionMs * 1000
  {
    var t := Apply(s, step).table;
    if q :| q in t && q.eventId == r.eventId { SameRow(s.table, q, r); }
  }

  /** The stamp of an ack is the time of its settlement. */
  lemma StampIsNow(s: State, step: Step, e: EventId)
    requires Inv(s) && Enabled(s, step) && step.StampSettled? && e !in s.settled && e in Apply(s, step).settled
    ensures e in s.appended
    ensures forall r | r in Apply(s, step).table && r.eventId == e :: r.ackedAtUs == Some(NowUs(s))
  {
    assert PassInv(s, s.passes[step.i].pc);
  }

  /** And no later statement changes it. */
  lemma StampStays(s: State, step: Step, r: Row)
    requires Inv(s) && Enabled(s, step) && r in s.table && !Pending(r)
    ensures forall q | q in Apply(s, step).table && q.eventId == r.eventId :: q == r
  {
    var t := Apply(s, step).table;
    forall q | q in t && q.eventId == r.eventId ensures q == r {
      assert r.eventId in s.settled && r.eventId in s.appended;
      if q in s.table {
        SameRow(s.table, q, r);
      } else {
        ChangedByStatement(s, step, q);
        SettledIsLeft(s, step, r);
      }
    }
  }

  /** A settled event's row is neither stamped nor deferred again. */
  lemma SettledIsLeft(s: State, step: Step, r: Row)
    requires Inv(s) && Enabled(s, step) && r in s.table && r.eventId in s.settled
    ensures !Defers(s, step, r.eventId)
    ensures step.StampSettled? ==> r.eventId !in s.passes[step.i].pc.toStamp
  {
    if step.SettleAck? || step.StampSettled? {
      assert PassInv(s, s.passes[step.i].pc);
    }
  }

  /** A row that was not there as it is was appended, stamped or deferred. */
  lemma ChangedByStatement(s: State, step: Step, r: Row)
    requires Enabled(s, step) && r in Apply(s, step).table && r !in s.table
    ensures || (step.AppendInsert? && r == step.row) || Defers(s, step, r.eventId) || StampedNow(s, step, r)
  {
    if step.StampSettled? {
      var q :| q in s.table && r == if q.eventId in s.passes[step.i].pc.toStamp then q.(ackedAtUs := Some(NowUs(s))) else q;
      assert StampedFrom(s, step, q, r);
    }
  }

  predicate StampedFrom(s: State, step: Step, q: Row, r: Row) {
    && step.StampSettled? && Enabled(s, step) && q.eventId in s.passes[step.i].pc.toStamp
    && q in s.table && r == q.(ackedAtUs := Some(NowUs(s)))
  }

  ghost predicate StampedNow(s: State, step: Step, r: Row) {
    exists q :: StampedFrom(s, step, q, r)
  }

  /** The event was appended, and where its row still is, it bears the stamp. */
  ghost predicate Stamped(s: State, e: EventId, stampUs: int) {
    e in s.appended && forall r | r in s.table && r.eventId == e :: r.ackedAtUs == Some(stampUs)
  }

  ghost predicate SettlesByStamp(run: seq<State>, steps: seq<Step>, m: nat, e: EventId)
    requires m < |steps| && |run| == |steps| + 1
  {
    steps[m].StampSettled? && e !in run[m].settled && e in run[m + 1].settled
  }

  lemma {:induction false} StampedAt(run: seq<State>, steps: seq<Step>, m: nat, n: nat, e: EventId)
    requires IsSegment(run, steps) && m < n < |run| && SettlesByStamp(run, steps, m, e)
    ensures Stamped(run[n], e, NowUs(run[m]))
    decreases n
  {
    if n == m + 1 {
      StampedFirst(run, steps, m, e);
    } else {
      StampedAt(run, steps, m, n - 1, e);
      StampedOn(run, steps, n - 1, e, NowUs(run[m]));
    }
  }

  lemma StampedFirst(run: seq<State>, steps: seq<Step>, m: nat, e: EventId)
    requires IsSegment(run, steps) && m < |steps| && SettlesByStamp(run, steps, m, e)
    ensures Stamped(run[m + 1], e, NowUs(run[m]))
  {
    SegmentKeepsInv(run, steps, m);
    StepOf(run, steps, m);
    StampIsNow(run[m], steps[m], e);
  }

  lemma StampedOn(run: seq<State>, steps: seq<Step>, n: nat, e: EventId, stampUs: int)
    requires IsSegment(run, steps) && n < |steps| && Stamped(run[n], e, stampUs)
    ensures Stamped(run[n + 1], e, stampUs)
  {
    SegmentKeepsInv(run, steps, n);
    StepOf(run, steps, n);
    StampedStill(run[n], steps[n], e, stampUs);
  }

  lemma StepOf(run: seq<State>, steps: seq<Step>, n: nat)
    requires TakesSteps(run, steps) && n < |steps|
    ensures Enabled(run[n], steps[n]) && run[n + 1] == Apply(run[n], steps[n])
  {
  }

  lemma StampedStill(s: State, step: Step, e: EventId, stampUs: int)
    requires Inv(s) && Enabled(s, step) && Stamped(s, e, stampUs)
    ensures Stamped(Apply(s, step), e, stampUs)
  {
    forall r | r in Apply(s, step).table && r.eventId == e ensures r.ackedAtUs == Some(stampUs) {
      var q := WasThere(s, step, r);
      StampStays(s, step, q);
    }
  }

  /** An event does not come back. */
  lemma WasThere(s: State, step: Step, r: Row) returns (q: Row)
    requires Enabled(s, step) && r in Apply(s, step).table && r.eventId in s.appended
    ensures q in s.table && q.eventId == r.eventId
  {
    assert r.eventId in Ids(Apply(s, step).table);
    assert r.eventId in Ids(s.table);
    q :| q in s.table && q.eventId == r.eventId;
  }

  /** An acked event is kept for the retention in force, counted from the settlement of its ack, and goes with the first
      sweep after that: over every run, restarts under another retention included. */
  lemma RetentionIsKept(run: seq<State>, steps: seq<Step>, m: nat, n: nat, e: EventId)
    requires IsRun(run, steps) && m < n < |steps| && SettlesByStamp(run, steps, m, e) && e in Ids(run[n].table)
    ensures e !in Ids(run[n + 1].table) ==> run[n].now >= run[m].now + run[n].retentionMs
    ensures Sweeps(steps[n]) && run[n].now >= run[m].now + run[n].retentionMs ==> e !in Ids(run[n + 1].table)
  {
    RunKeepsInv(run, steps, n);
    StampedAt(run, steps, m, n, e);
    var r :| r in run[n].table && r.eventId == e;
    if e !in Ids(run[n + 1].table) { RowsLeaveOnlyWhenDue(run, steps, n, r); }
    assert Enabled(run[n], steps[n]) && run[n + 1] == Apply(run[n], steps[n]);
    if Sweeps(steps[n]) { SweepTakesExactly(run[n], steps[n], r); }
  }

  // ---- The sweep of a pass ----

  /** The pass has swept, since the last restart. */
  ghost predicate HasSwept(steps: seq<Step>, i: nat, n: nat)
    requires n <= |steps|
  {
    exists m :: 0 <= m < n && steps[m].Sweep? && steps[m].i == i && forall k | m < k < n :: !steps[k].Crash?
  }

  /** No pass of a retaining lane comes to its gate unswept. */
  ghost predicate SweptFirst(s: State, steps: seq<Step>, n: nat)
    requires n <= |steps|
  {
    s.retentionMs > 0 ==> forall i | 0 <= i < |s.passes| && s.passes[i].pc.Gate? :: HasSwept(steps, i, n)
  }

  lemma SweptFirstNext(s: State, steps: seq<Step>, n: nat)
    requires n < |steps| && Enabled(s, steps[n]) && SweptFirst(s, steps, n)
    ensures SweptFirst(Apply(s, steps[n]), steps, n + 1)
  {
    var t, step := Apply(s, steps[n]), steps[n];
    if t.retentionMs > 0 {
      forall i | 0 <= i < |t.passes| && t.passes[i].pc.Gate? ensures HasSwept(steps, i, n + 1) {
        if !(step.Sweep? && step.i == i) {
          assert i < |s.passes| && s.passes[i].pc.Gate? && HasSwept(steps, i, n);
          var m :| 0 <= m < n && steps[m].Sweep? && steps[m].i == i && forall k | m < k < n :: !steps[k].Crash?;
          assert forall k | m < k < n + 1 :: !steps[k].Crash?;
        }
      }
    }
  }

  lemma {:induction false} SweptBeforeGate(run: seq<State>, steps: seq<Step>, n: nat)
    requires IsRun(run, steps) && n < |run|
    ensures SweptFirst(run[n], steps, n)
  {
    if n > 0 {
      SweptBeforeGate(run, steps, n - 1);
      StepOf(run, steps, n - 1);
      SweptFirstNext(run[n - 1], steps, n - 1);
    }
  }

  // ---- Deferrals ----

  ghost predicate WaitsUntil(s: State, e: EventId, dueUs: int) {
    e in s.appended && forall r | r in s.table && r.eventId == e :: r.nextRetryAtUs == Some(dueUs)
  }

  lemma DeferralParks(s: State, step: Step, e: EventId)
    requires Inv(s) && Defers(s, step, e)
    ensures WaitsUntil(Apply(s, step), e, step.retryAtUs)
    ensures forall r | r in Apply(s, step).table && r.eventId == e ::
              r.attemptCount == step.attempt && r.lastReason == s.passes[step.i].pc.todo[0].reason
  {
    assert PassInv(s, s.passes[step.i].pc);
  }

  lemma ParkedStays(s: State, step: Step, e: EventId, dueUs: int)
    requires Inv(s) && Enabled(s, step) && WaitsUntil(s, e, dueUs) && !Defers(s, step, e)
    ensures WaitsUntil(Apply(s, step), e, dueUs)
  {
    forall r | r in Apply(s, step).table && r.eventId == e ensures r.nextRetryAtUs == Some(dueUs) {
      var q := WasThere(s, step, r);
      ParkedRowStays(s, step, q, r);
    }
  }

  lemma ParkedRowStays(s: State, step: Step, q: Row, r: Row)
    requires Inv(s) && Enabled(s, step) && !Defers(s, step, r.eventId)
    requires q in s.table && r in Apply(s, step).table && q.eventId == r.eventId
    ensures r.nextRetryAtUs == q.nextRetryAtUs
  {
    if r in s.table {
      SameRow(s.table, q, r);
    } else {
      ChangedByStatement(s, step, r);
      if p :| StampedFrom(s, step, p, r) { SameRow(s.table, p, q); }
    }
  }

  lemma ParkedOn(run: seq<State>, steps: seq<Step>, n: nat, e: EventId, dueUs: int)
    requires IsSegment(run, steps) && n < |steps| && WaitsUntil(run[n], e, dueUs) && !Defers(run[n], steps[n], e)
    ensures WaitsUntil(run[n + 1], e, dueUs)
  {
    SegmentKeepsInv(run, steps, n);
    StepOf(run, steps, n);
    ParkedStays(run[n], steps[n], e, dueUs);
  }

  lemma ParkedFirst(run: seq<State>, steps: seq<Step>, m: nat, e: EventId)
    requires IsSegment(run, steps) && m < |steps| && Defers(run[m], steps[m], e)
    ensures WaitsUntil(run[m + 1], e, steps[m].retryAtUs)
  {
    SegmentKeepsInv(run, steps, m);
    StepOf(run, steps, m);
    DeferralParks(run[m], steps[m], e);
  }

  lemma {:induction false} ParkedAt(run: seq<State>, steps: seq<Step>, m: nat, n: nat, e: EventId)
    requires IsSegment(run, steps) && m < n < |run| && Defers(run[m], steps[m], e)
    requires forall k | m < k < n :: !Defers(run[k], steps[k], e)
    ensures WaitsUntil(run[n], e, steps[m].retryAtUs)
    decreases n
  {
    if n == m + 1 {
      ParkedFirst(run, steps, m, e);
    } else {
      ParkedAt(run, steps, m, n - 1, e);
      ParkedOn(run, steps, n - 1, e, steps[m].retryAtUs);
    }
  }

  /** A deferred event is not read again before its retry time, restarts included. */
  lemma DeferralIsRespected(run: seq<State>, steps: seq<Step>, m: nat, n: nat, e: EventId)
    requires IsSegment(run, steps) && m < n < |steps| && Defers(run[m], steps[m], e)
    requires forall k | m < k < n :: !Defers(run[k], steps[k], e)
    requires steps[n].Read? && e in Ids(steps[n].batch)
    ensures NowUs(run[n]) >= steps[m].retryAtUs
  {
    ParkedAt(run, steps, m, n, e);
    StepOf(run, steps, n);
    var r :| r in steps[n].batch && r.eventId == e;
    assert r in run[n].table && Eligible(r, NowUs(run[n]));
  }
}

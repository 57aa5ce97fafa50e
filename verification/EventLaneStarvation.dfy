/** What a backoff base of zero does to the Event lane: rows deferred for no time stay in the selection window, the
    pass that deferred them reads only them again and ends, and the rows behind them are never sent. */
module EventLaneStarvation {
  import opened Options
  import opened Outbox
  import opened BatchSelection
  import opened EventBackoff
  import opened EventLaneRuntime
  import opened EventLaneSafety
  import P = EventLaneProtocol

  /** Every pending row is due. */
  ghost predicate AllDue(t: Table, nowUs: int) {
    forall r | r in t && Pending(r) :: Eligible(r, nowUs)
  }

  /** From `t` to `u` the rows named by `ids` were deferred, and are due again at `dueUs`; the others are as they were. */
  ghost predicate DefersForNothing(t: Table, u: Table, ids: set<EventId>, dueUs: int) {
    && |u| == |t|
    && forall i | 0 <= i < |t| ::
         if t[i].eventId in ids
         then u[i].eventId == t[i].eventId && Pending(u[i]) == Pending(t[i])
              && u[i].nextRetryAtUs.Some? && u[i].nextRetryAtUs.value <= dueUs
         else u[i] == t[i]
  }

  /** The deferrals of one reply, one statement each, come to that. */
  lemma DeferringForNothing(t: Table, u: Table, ids: set<EventId>, dueUs: int, id: EventId, attempt: nat, ceiling: nat,
                            j: Jitter, nowMs: int, reason: Option<string>)
    requires DefersForNothing(t, u, ids, dueUs) && JitterOk(j) && nowMs * 1000 >= dueUs
    ensures var delayMs := ComputeEventBackoffMs(attempt, 0, ceiling, j);
            DefersForNothing(t, DeferId(u, id, attempt, nowMs * 1000 + delayMs * 1000, reason), ids + {id}, nowMs * 1000)
  {
    ZeroBaseGivesNoDelay(attempt, ceiling, j);
  }

  lemma {:induction false} UncappedAll(rows: seq<Row>)
    ensures WithinCaps(rows, map[]) == rows
  {
    if rows != [] {
      var n := |rows| - 1;
      UncappedAll(rows[..n]);
      assert Rides(rows, map[], n) && rows == rows[..n] + [rows[n]];
    }
  }

  ghost predicate SameEvents(a: seq<Row>, b: seq<Row>) {
    |a| == |b| && forall i | 0 <= i < |a| :: a[i].eventId == b[i].eventId
  }

  lemma {:induction false} SameEligible(t: Table, u: Table, aUs: int, bUs: int)
    requires |t| == |u|
    requires forall i | 0 <= i < |t| :: t[i].eventId == u[i].eventId && Eligible(t[i], aUs) == Eligible(u[i], bUs)
    ensures SameEvents(EligibleRows(t, aUs), EligibleRows(u, bUs))
  {
    if t != [] {
      SameEligible(t[..|t| - 1], u[..|u| - 1], aUs, bUs);
      EligibleAdds(t, aUs);
      EligibleAdds(u, bUs);
    }
  }

  lemma EligibleAdds(t: Table, nowUs: int)
    requires t != []
    ensures var n := |t| - 1;
            EligibleRows(t, nowUs) == EligibleRows(t[..n], nowUs) + if Eligible(t[n], nowUs) then [t[n]] else []
  {
  }

  lemma StillDue(t: Table, u: Table, ids: set<EventId>, atUs: int, laterUs: int)
    requires AllDue(t, atUs) && DefersForNothing(t, u, ids, laterUs) && atUs <= laterUs
    ensures AllDue(u, laterUs)
    ensures forall i | 0 <= i < |t| :: t[i].eventId == u[i].eventId && Eligible(t[i], atUs) == Eligible(u[i], laterUs)
  {
    forall i | 0 <= i < |t| ensures t[i].eventId == u[i].eventId && Eligible(t[i], atUs) == Eligible(u[i], laterUs) {
      assert t[i] in t;
    }
    forall r | r in u && Pending(r) ensures Eligible(r, laterUs) {
      var i :| 0 <= i < |u| && u[i] == r;
    }
  }

  /** The next read selects the same events. */
  lemma SelectsTheSame(t: Table, u: Table, ids: set<EventId>, atUs: int, laterUs: int, limit: nat)
    requires AllDue(t, atUs) && DefersForNothing(t, u, ids, laterUs) && atUs <= laterUs
    ensures SameEvents(SelectRows(t, atUs, map[], limit), SelectRows(u, laterUs, map[], limit))
    ensures SameEvents(EligibleRows(t, atUs), EligibleRows(u, laterUs))
  {
    StillDue(t, u, ids, atUs, laterUs);
    SameEligible(t, u, atUs, laterUs);
    UncappedAll(EligibleRows(t, atUs));
    UncappedAll(EligibleRows(u, laterUs));
  }

  lemma SameIds(a: seq<Row>, b: seq<Row>)
    requires SameEvents(a, b)
    ensures Ids(a) == Ids(b)
  {
    forall e ensures e in Ids(a) <==> e in Ids(b) {
      if e in Ids(a) {
        var i :| 0 <= i < |a| && a[i].eventId == e;
        assert b[i] in b;
      }
      if e in Ids(b) {
        var i :| 0 <= i < |b| && b[i].eventId == e;
        assert a[i] in a;
      }
    }
  }

  /** The pass that deferred all it had selected finds nothing else to send, however many rows are due behind. */
  lemma PassEndsOnItsOwnDeferrals(t: Table, u: Table, atUs: int, laterUs: int, limit: nat)
    requires AllDue(t, atUs) && atUs <= laterUs
    requires DefersForNothing(t, u, Ids(SelectRows(t, atUs, map[], limit)), laterUs)
    ensures NotDeferred(SelectRows(u, laterUs, map[], limit), Ids(SelectRows(t, atUs, map[], limit))) == []
    ensures limit >= 1 && EligibleRows(t, atUs) != [] ==> EligibleRows(u, laterUs) != []
  {
    var head, again := SelectRows(t, atUs, map[], limit), SelectRows(u, laterUs, map[], limit);
    SelectsTheSame(t, u, Ids(head), atUs, laterUs, limit);
    SameIds(head, again);
    AllDeferred(again, Ids(head));
  }

  lemma AllDeferred(rows: seq<Row>, deferred: set<EventId>)
    requires Ids(rows) <= deferred
    ensures NotDeferred(rows, deferred) == []
  {
    if NotDeferred(rows, deferred) != [] {
      KeptIsOther(rows, deferred, 0);
    }
  }

  lemma KeptIsOther(rows: seq<Row>, deferred: set<EventId>, i: nat)
    requires i < |NotDeferred(rows, deferred)|
    ensures NotDeferred(rows, deferred)[i].eventId in Ids(rows) - deferred
  {
    assert NotDeferred(rows, deferred)[i] in NotDeferred(rows, deferred);
  }

  // ---- Rows that crowd another out ----

  /** The rows ahead, and the caps and the limit of the query. */
  datatype Window = Window(ahead: seq<Row>, caps: Caps, limit: nat)

  predicate SamePlace(q: Row, u: Row) {
    u.eventId == q.eventId && u.ordinal == q.ordinal && u.stream == q.stream
  }

  ghost predicate Waits(t: Table, nowUs: int, q: Row) {
    exists u :: u in t && SamePlace(q, u) && Eligible(u, nowUs)
  }

  ghost predicate AllWait(t: Table, nowUs: int, ahead: seq<Row>) {
    forall q | q in ahead :: Waits(t, nowUs, q)
  }

  /** The rows ahead fill the batch, or the cap of their stream, before it comes to `r`. */
  ghost predicate Crowds(w: Window, r: Row) {
    && TableOk(w.ahead + [r])
    && (|| ((forall q | q in w.ahead :: q.stream !in w.caps) && |w.ahead| >= w.limit)
        || (r.stream in w.caps && (forall q | q in w.ahead :: q.stream == r.stream) && |w.ahead| >= w.caps[r.stream]))
  }

  lemma WaitsAt(t: Table, nowUs: int, q: Row) returns (k: nat)
    requires Waits(t, nowUs, q)
    ensures k < |t| && SamePlace(q, t[k]) && Eligible(t[k], nowUs)
  {
    var u :| u in t && SamePlace(q, u) && Eligible(u, nowUs);
    k :| 0 <= k < |t| && t[k] == u;
  }

  lemma ByOrdinal(t: Table, i: nat, j: nat)
    requires TableOk(t) && i < |t| && j < |t| && t[i].ordinal < t[j].ordinal
    ensures i < j
  {
  }

  lemma LastAhead(ahead: seq<Row>, r: Row)
    requires TableOk(ahead + [r]) && ahead != []
    ensures var n := |ahead| - 1; TableOk(ahead[..n] + [ahead[n]]) && ahead[n].ordinal < r.ordinal && ahead[n] in ahead
  {
    assert forall k | 0 <= k < |ahead| :: (ahead + [r])[k] == ahead[k];
    assert (ahead + [r])[|ahead|] == r;
    assert ahead[..|ahead| - 1] + [ahead[|ahead| - 1]] == ahead;
  }

  /** A row stands behind as many rows as are ahead of it. */
  lemma {:induction false} StandsBehind(t: Table, nowUs: int, ahead: seq<Row>, r: Row, k: nat)
    requires TableOk(t) && TableOk(ahead + [r]) && AllWait(t, nowUs, ahead)
    requires k < |t| && t[k].ordinal == r.ordinal
    ensures |ahead| <= k
  {
    if ahead != [] {
      LastAhead(ahead, r);
      var n := |ahead| - 1;
      var p := WaitsAt(t, nowUs, ahead[n]);
      ByOrdinal(t, p, k);
      StandsBehind(t, nowUs, ahead[..n], ahead[n], p);
    }
  }

  lemma {:induction false} CountGrows(rows: seq<Row>, s: string, i: nat, j: nat)
    requires i <= j <= |rows|
    ensures CountOf(rows[..i], s) <= CountOf(rows[..j], s)
  {
    if i < j {
      CountGrows(rows, s, i, j - 1);
      assert rows[..j] == rows[..j - 1] + [rows[j - 1]];
      CountLast(rows[..j - 1], rows[j - 1], s);
    }
  }

  lemma CountPast(rows: seq<Row>, s: string, i: nat, j: nat)
    requires i < j <= |rows| && rows[i].stream == s
    ensures CountOf(rows[..i], s) < CountOf(rows[..j], s)
  {
    assert rows[..i + 1] == rows[..i] + [rows[i]];
    CountLast(rows[..i], rows[i], s);
    CountGrows(rows, s, i + 1, j);
  }

  /** And within its stream behind as many of that. */
  lemma {:induction false} RanksBehind(t: Table, nowUs: int, ahead: seq<Row>, r: Row, k: nat, s: string)
    requires TableOk(t) && TableOk(ahead + [r]) && AllWait(t, nowUs, ahead)
    requires k < |t| && t[k].ordinal == r.ordinal && forall q | q in ahead :: q.stream == s
    ensures |ahead| <= CountOf(t[..k], s)
  {
    if ahead != [] {
      LastAhead(ahead, r);
      var n := |ahead| - 1;
      var p := WaitsAt(t, nowUs, ahead[n]);
      ByOrdinal(t, p, k);
      RanksBehind(t, nowUs, ahead[..n], ahead[n], p, s);
      CountPast(t, s, p, k);
    }
  }

  lemma {:induction false} WithinCapsKeepsOrder(rows: seq<Row>, caps: Caps)
    requires TableOk(rows)
    ensures TableOk(WithinCaps(rows, caps)) && forall r | r in WithinCaps(rows, caps) :: r in rows
  {
    if rows != [] {
      var n := |rows| - 1;
      WithinCapsKeepsOrder(rows[..n], caps);
      LastStaysLast(rows, WithinCaps(rows[..n], caps));
    }
  }

  lemma EligibleWait(t: Table, nowUs: int, ahead: seq<Row>)
    requires AllWait(t, nowUs, ahead)
    ensures AllWait(EligibleRows(t, nowUs), nowUs, ahead)
  {
    forall q | q in ahead ensures Waits(EligibleRows(t, nowUs), nowUs, q) {
      var u :| u in t && SamePlace(q, u) && Eligible(u, nowUs);
      assert u in EligibleRows(t, nowUs);
    }
  }

  lemma UncappedWait(rows: seq<Row>, nowUs: int, ahead: seq<Row>, caps: Caps)
    requires AllWait(rows, nowUs, ahead) && forall q | q in ahead :: q.stream !in caps
    ensures AllWait(WithinCaps(rows, caps), nowUs, ahead)
  {
    forall q | q in ahead ensures Waits(WithinCaps(rows, caps), nowUs, q) {
      var k := WaitsAt(rows, nowUs, q);
      assert Rides(rows, caps, k);
      WithinCapsIsFilter(rows, caps, rows[k]);
    }
  }

  /** What is crowded out is not selected. */
  lemma CrowdedOut(t: Table, nowUs: int, w: Window, r: Row, q: Row)
    requires TableOk(t) && r in t && AllWait(t, nowUs, w.ahead) && Crowds(w, r)
    requires q in SelectRows(t, nowUs, w.caps, w.limit)
    ensures q.eventId != r.eventId
  {
    var rows := EligibleRows(t, nowUs);
    EligibleWait(t, nowUs, w.ahead);
    WithinCapsKeepsOrder(rows, w.caps);
    var within := WithinCaps(rows, w.caps);
    var i :| 0 <= i < |SelectRows(t, nowUs, w.caps, w.limit)| && SelectRows(t, nowUs, w.caps, w.limit)[i] == q;
    assert within[i] == q && i < w.limit && q in within && q in t;
    if q.eventId == r.eventId {
      SameRow(t, q, r);
      NotWithin(rows, nowUs, w, r, i);
    }
  }

  lemma NotWithin(rows: seq<Row>, nowUs: int, w: Window, r: Row, i: nat)
    requires TableOk(rows) && TableOk(WithinCaps(rows, w.caps)) && AllWait(rows, nowUs, w.ahead) && Crowds(w, r)
    requires i < w.limit && i < |WithinCaps(rows, w.caps)|
    ensures WithinCaps(rows, w.caps)[i] != r
  {
    if WithinCaps(rows, w.caps)[i] == r {
      if (forall q | q in w.ahead :: q.stream !in w.caps) && |w.ahead| >= w.limit {
        UncappedWait(rows, nowUs, w.ahead, w.caps);
        StandsBehind(WithinCaps(rows, w.caps), nowUs, w.ahead, r, i);
      } else {
        RankedOut(rows, nowUs, w, r);
      }
    }
  }

  lemma RankedOut(rows: seq<Row>, nowUs: int, w: Window, r: Row)
    requires TableOk(rows) && AllWait(rows, nowUs, w.ahead) && TableOk(w.ahead + [r])
    requires r.stream in w.caps && (forall q | q in w.ahead :: q.stream == r.stream) && |w.ahead| >= w.caps[r.stream]
    ensures r !in WithinCaps(rows, w.caps)
  {
    WithinCapsIsFilter(rows, w.caps, r);
    forall k | 0 <= k < |rows| && rows[k] == r ensures !Rides(rows, w.caps, k) {
      RanksBehind(rows, nowUs, w.ahead, r, k, r.stream);
      CountPast(rows, r.stream, k, k + 1);
    }
  }

  // ---- Steps that never let them go ----

  /** The verdicts on the rows ahead are deferrals, for no time, and reads are of the query. All else is free: appends,
      other verdicts, lost replies, failing statements, sweeps and crashes. */
  predicate Spins(s: P.State, step: P.Step, w: Window) {
    match step
    case Read(_, batch) => forall q | q in batch :: q in SelectRows(s.table, P.NowUs(s), w.caps, w.limit)
    case Reply(_, acks) => Defers(acks, Ids(w.ahead))
    case SettleAck(i, _, _, retryAtUs) => SettlesAnother(s, i, Ids(w.ahead)) || retryAtUs <= P.NowUs(s)
    case _ => true
  }

  predicate Defers(acks: seq<P.Ack>, ids: set<EventId>) {
    forall a | a in acks && a.eventId in ids :: a.status.Deferred?
  }

  predicate SettlesAnother(s: P.State, i: nat, ids: set<EventId>) {
    P.PcIs(s, i, (pc: P.Pc) => pc.Settling? && pc.todo != [] && pc.todo[0].eventId !in ids)
  }

  /** The deferrals of a base of zero are of that kind. */
  lemma ZeroBaseSpins(s: P.State, i: nat, ok: bool, attempt: nat, ceiling: nat, j: Jitter, w: Window)
    requires JitterOk(j)
    ensures Spins(s, P.SettleAck(i, ok, attempt, P.NowUs(s) + ComputeEventBackoffMs(attempt, 0, ceiling, j) * 1000), w)
  {
    ZeroBaseGivesNoDelay(attempt, ceiling, j);
  }

  // ---- What they keep ----

  /** A pass that will not touch the rows ahead but to defer them, and does not carry the one behind. */
  ghost predicate PassSpares(pc: P.Pc, ids: set<EventId>, behind: EventId) {
    match pc
    case Assembled(batch) => behind !in Ids(batch)
    case Sent(batch) => behind !in Ids(batch)
    case Settling(batch, todo, deletable, stampable, _) =>
      behind !in Ids(batch) && Defers(todo, ids) && deletable !! ids && stampable !! ids
      && behind !in deletable && behind !in stampable
    case Stamping(toStamp, _, _) => toStamp !! ids && behind !in toStamp
    case _ => true
  }

  ghost predicate TableSpares(t: Table, nowUs: int, w: Window, r: Row) {
    r in t && Eligible(r, nowUs) && AllWait(t, nowUs, w.ahead)
  }

  ghost predicate PassesSpare(passes: seq<P.Pass>, w: Window, r: Row) {
    forall i | 0 <= i < |passes| :: PassSpares(passes[i].pc, Ids(w.ahead), r.eventId)
  }

  /** `r` is due, and so are the rows that crowd it out. */
  ghost predicate Starves(s: P.State, w: Window, r: Row) {
    Crowds(w, r) && TableSpares(s.table, P.NowUs(s), w, r) && PassesSpare(s.passes, w, r)
  }

  lemma LaterSpares(t: Table, nowUs: int, laterUs: int, w: Window, r: Row)
    requires TableSpares(t, nowUs, w, r) && nowUs <= laterUs
    ensures TableSpares(t, laterUs, w, r)
  {
    forall q | q in w.ahead ensures Waits(t, laterUs, q) {
      var u :| u in t && SamePlace(q, u) && Eligible(u, nowUs);
    }
  }

  /** A statement under which the rows concerned stay. */
  lemma StaySpares(t: Table, u: Table, nowUs: int, w: Window, r: Row)
    requires TableSpares(t, nowUs, w, r)
    requires forall q | q in t && Pending(q) && (q.eventId in Ids(w.ahead) || q.eventId == r.eventId) :: q in u
    ensures TableSpares(u, nowUs, w, r)
  {
    forall q | q in w.ahead ensures Waits(u, nowUs, q) {
      var v :| v in t && SamePlace(q, v) && Eligible(v, nowUs);
      assert v.eventId in Ids(w.ahead);
    }
  }

  lemma BehindIsApart(w: Window, r: Row)
    requires Crowds(w, r)
    ensures r.eventId !in Ids(w.ahead)
  {
    forall q | q in w.ahead ensures q.eventId != r.eventId {
      var i :| 0 <= i < |w.ahead| && w.ahead[i] == q;
      assert (w.ahead + [r])[i] == q && (w.ahead + [r])[|w.ahead|] == r;
    }
  }

  lemma SweepSpares(s: P.State, ok: bool, w: Window, r: Row)
    requires TableSpares(s.table, P.NowUs(s), w, r)
    ensures TableSpares(P.Swept(s, ok).table, P.NowUs(s), w, r)
  {
    StaySpares(s.table, P.Swept(s, ok).table, P.NowUs(s), w, r);
  }

  lemma DeleteSpares(t: Table, nowUs: int, w: Window, r: Row, ids: set<EventId>)
    requires TableSpares(t, nowUs, w, r) && ids !! Ids(w.ahead) && r.eventId !in ids
    ensures TableSpares(DeleteIds(t, ids), nowUs, w, r)
  {
    StaySpares(t, DeleteIds(t, ids), nowUs, w, r);
  }

  lemma StampSpares(t: Table, nowUs: int, w: Window, r: Row, ids: set<EventId>, atUs: int)
    requires TableSpares(t, nowUs, w, r) && ids !! Ids(w.ahead) && r.eventId !in ids
    ensures TableSpares(StampIds(t, ids, atUs), nowUs, w, r)
  {
    var u := StampIds(t, ids, atUs);
    forall q | q in t && q.eventId !in ids ensures q in u {
      var i :| 0 <= i < |t| && t[i] == q;
      assert u[i] == q;
    }
    StaySpares(t, u, nowUs, w, r);
  }

  lemma DeferSpares(t: Table, nowUs: int, w: Window, r: Row, id: EventId, attempt: nat, retryAtUs: int, reason: Option<string>)
    requires TableSpares(t, nowUs, w, r) && id != r.eventId && (id in Ids(w.ahead) ==> retryAtUs <= nowUs)
    ensures TableSpares(DeferId(t, id, attempt, retryAtUs, reason), nowUs, w, r)
  {
    var u := DeferId(t, id, attempt, retryAtUs, reason);
    var k :| 0 <= k < |t| && t[k] == r;
    assert u[k] == r;
    forall q | q in w.ahead ensures Waits(u, nowUs, q) {
      var i := WaitsAt(t, nowUs, q);
      assert u[i] in u && q.eventId in Ids(w.ahead);
    }
  }

  // ---- Step by step ----

  /** A step of one pass. */
  lemma PassOnStarves(s: P.State, s': P.State, i: nat, p: P.Pass, w: Window, r: Row)
    requires Starves(s, w, r) && i < |s.passes| && s'.passes == s.passes[i := p] && PassSpares(p.pc, Ids(w.ahead), r.eventId)
    requires TableSpares(s'.table, P.NowUs(s'), w, r)
    ensures Starves(s', w, r)
  {
  }

  lemma BoundaryKeepsStarving(s: P.State, step: P.Step, w: Window, r: Row)
    requires P.Enabled(s, step) && Starves(s, w, r)
    requires step.AppendInsert? || step.AppendResolve? || step.AppendReject? || step.Call? || step.Start? || step.Sweep?
             || step.PassGate? || step.BootSweep? || step.BootProbe? || step.Tick? || step.Crash?
    ensures Starves(P.Apply(s, step), w, r)
  {
    var s' := P.Apply(s, step);
    match step
    case AppendInsert(row) => StaySpares(s.table, s'.table, P.NowUs(s), w, r);
    case Sweep(i, ok) => SweepSpares(s, ok, w, r);
    case BootSweep(ok) => SweepSpares(s, ok, w, r);
    case Tick(ms) => LaterSpares(s.table, P.NowUs(s), P.NowUs(s'), w, r);
    case _ =>
  }

  lemma ReadKeepsStarving(s: P.State, step: P.Step, w: Window, r: Row)
    requires TableOk(s.table) && P.Enabled(s, step) && Spins(s, step, w) && Starves(s, w, r) && step.Read?
    ensures Starves(P.Apply(s, step), w, r)
  {
    forall q | q in step.batch ensures q.eventId != r.eventId {
      CrowdedOut(s.table, P.NowUs(s), w, r, q);
    }
    var s' := P.Apply(s, step);
    PassOnStarves(s, s', step.i, s'.passes[step.i], w, r);
  }

  lemma RequestKeepsStarving(s: P.State, step: P.Step, w: Window, r: Row)
    requires P.Enabled(s, step) && Spins(s, step, w) && Starves(s, w, r)
    requires step.ReadNothing? || step.ReadFails? || step.Post? || step.Reply? || step.PostFails? || step.Drain?
    ensures Starves(P.Apply(s, step), w, r)
  {
    assert PassSpares(s.passes[step.i].pc, Ids(w.ahead), r.eventId);
    var s' := P.Apply(s, step);
    PassOnStarves(s, s', step.i, s'.passes[step.i], w, r);
  }

  lemma AckKeepsStarving(s: P.State, step: P.Step, w: Window, r: Row)
    requires P.Enabled(s, step) && Spins(s, step, w) && Starves(s, w, r) && step.SettleAck?
    ensures Starves(P.Apply(s, step), w, r)
  {
    var i, s' := step.i, P.Apply(s, step);
    var pc := s.passes[i].pc;
    assert PassSpares(pc, Ids(w.ahead), r.eventId);
    var ack := pc.todo[0];
    if ack.eventId in Ids(pc.batch) && ack.status.Deferred? && step.ok {
      DeferSpares(s.table, P.NowUs(s), w, r, ack.eventId, step.attempt, step.retryAtUs, ack.reason);
    }
    AckSpares(pc, Ids(w.ahead), r.eventId);
    PassOnStarves(s, s', i, s'.passes[i], w, r);
  }

  /** What one ack makes of a pass that spares them. */
  lemma AckSpares(pc: P.Pc, ids: set<EventId>, behind: EventId)
    requires pc.Settling? && pc.todo != [] && PassSpares(pc, ids, behind)
    ensures var rest := pc.(todo := pc.todo[1..]);
            var id := pc.todo[0].eventId;
            && PassSpares(rest, ids, behind) && PassSpares(rest.(deferred := pc.deferred + {id}), ids, behind)
            && (id in Ids(pc.batch) && !pc.todo[0].status.Deferred? ==>
                  && PassSpares(rest.(stampable := pc.stampable + {id}), ids, behind)
                  && PassSpares(rest.(deletable := pc.deletable + {id}), ids, behind))
  {
    assert pc.todo[0] in pc.todo && forall a | a in pc.todo[1..] :: a in pc.todo;
  }

  lemma DeleteKeepsStarving(s: P.State, step: P.Step, w: Window, r: Row)
    requires P.Enabled(s, step) && Starves(s, w, r) && step.DeleteSettled?
    ensures Starves(P.Apply(s, step), w, r)
  {
    var pc, s' := s.passes[step.i].pc, P.Apply(s, step);
    assert PassSpares(pc, Ids(w.ahead), r.eventId);
    DeleteSpares(s.table, P.NowUs(s), w, r, pc.deletable);
    PassOnStarves(s, s', step.i, s'.passes[step.i], w, r);
  }

  lemma StampKeepsStarving(s: P.State, step: P.Step, w: Window, r: Row)
    requires P.Enabled(s, step) && Starves(s, w, r) && step.StampSettled?
    ensures Starves(P.Apply(s, step), w, r)
  {
    var pc, s' := s.passes[step.i].pc, P.Apply(s, step);
    assert PassSpares(pc, Ids(w.ahead), r.eventId);
    StampSpares(s.table, P.NowUs(s), w, r, pc.toStamp, P.NowUs(s));
    PassOnStarves(s, s', step.i, s'.passes[step.i], w, r);
  }

  lemma StepKeepsStarving(s: P.State, step: P.Step, w: Window, r: Row)
    requires P.Inv(s) && P.Enabled(s, step) && Spins(s, step, w) && Starves(s, w, r)
    ensures Starves(P.Apply(s, step), w, r)
  {
    match step
    case Read(_, _) => ReadKeepsStarving(s, step, w, r);
    case SettleAck(_, _, _, _) => AckKeepsStarving(s, step, w, r);
    case DeleteSettled(_, _) => DeleteKeepsStarving(s, step, w, r);
    case StampSettled(_, _) => StampKeepsStarving(s, step, w, r);
    case ReadNothing(_) => RequestKeepsStarving(s, step, w, r);
    case ReadFails(_) => RequestKeepsStarving(s, step, w, r);
    case Post(_) => RequestKeepsStarving(s, step, w, r);
    case Resend(_) =>
    case Reply(_, _) => RequestKeepsStarving(s, step, w, r);
    case PostFails(_, _, _) => RequestKeepsStarving(s, step, w, r);
    case Drain(_, _) => RequestKeepsStarving(s, step, w, r);
    case _ => BoundaryKeepsStarving(s, step, w, r);
  }

  // ---- Over runs ----

  predicate SpinsBy(s: P.State, step: P.Step, t: P.State, w: Window) {
    P.Enabled(s, step) && Spins(s, step, w) && t == P.Apply(s, step)
  }

  /** `run` takes the steps `steps`, and all of them spin. */
  ghost predicate IsSpin(run: seq<P.State>, steps: seq<P.Step>, w: Window) {
    |run| == |steps| + 1 && forall i | 0 <= i < |steps| :: SpinsBy(run[i], steps[i], run[i + 1], w)
  }

  lemma {:induction false} StarvesOn(run: seq<P.State>, steps: seq<P.Step>, w: Window, r: Row, n: nat)
    requires IsSpin(run, steps, w) && n < |run| && P.Inv(run[0]) && Starves(run[0], w, r)
    ensures P.Inv(run[n]) && Starves(run[n], w, r)
  {
    if n > 0 {
      StarvesOn(run, steps, w, r, n - 1);
      assert SpinsBy(run[n - 1], steps[n - 1], run[n - 1 + 1], w);
      P.StepKeepsInv(run[n - 1], steps[n - 1]);
      StepKeepsStarving(run[n - 1], steps[n - 1], w, r);
    }
  }

  /** As long as the rows ahead get nothing but deferrals for no time, a row behind them stays in the table, due, and
      no request carries it, over however many passes, restarts included. */
  lemma RowsBehindStarve(run: seq<P.State>, steps: seq<P.Step>, w: Window, r: Row, n: nat)
    requires IsSpin(run, steps, w) && n < |run| && P.Inv(run[0]) && Starves(run[0], w, r)
    ensures r in run[n].table && Eligible(r, P.NowUs(run[n]))
    ensures n < |steps| && Posts(steps[n]) ==> P.Enabled(run[n], steps[n]) && r.eventId !in Ids(Carried(run[n], steps[n]))
  {
    StarvesOn(run, steps, w, r, n);
    if n < |steps| && Posts(steps[n]) {
      assert SpinsBy(run[n], steps[n], run[n + 1], w);
      StarvingIsNotSent(run[n], steps[n], w, r);
    }
  }

  lemma StarvingIsNotSent(s: P.State, step: P.Step, w: Window, r: Row)
    requires Starves(s, w, r) && P.Enabled(s, step) && Posts(step)
    ensures r.eventId !in Ids(Carried(s, step))
  {
    assert PassSpares(s.passes[step.i].pc, Ids(w.ahead), r.eventId);
  }

  /** Wherever more rows are due than an uncapped batch takes there is a row to starve, behind those that are selected. */
  lemma SomebodyIsBehind(s: P.State, limit: nat) returns (r: Row)
    requires TableOk(s.table) && |EligibleRows(s.table, P.NowUs(s))| > limit && AllClear(s.passes)
    ensures Starves(s, Window(SelectRows(s.table, P.NowUs(s), map[], limit), map[], limit), r)
  {
    var rows := EligibleRows(s.table, P.NowUs(s));
    UncappedAll(rows);
    FirstCrowd(s.table, P.NowUs(s), limit);
    r := rows[limit];
    ClearSpares(s.passes, Window(rows[..limit], map[], limit), r);
  }

  lemma ClearSpares(passes: seq<P.Pass>, w: Window, r: Row)
    requires AllClear(passes)
    ensures PassesSpare(passes, w, r)
  {
  }

  lemma FirstCrowd(t: Table, nowUs: int, limit: nat)
    requires TableOk(t) && |EligibleRows(t, nowUs)| > limit
    ensures var rows := EligibleRows(t, nowUs);
            var w := Window(rows[..limit], map[], limit);
            Crowds(w, rows[limit]) && TableSpares(t, nowUs, w, rows[limit])
  {
    var rows := EligibleRows(t, nowUs);
    assert rows[..limit] + [rows[limit]] == rows[..limit + 1];
    assert rows[limit] in rows;
    forall q | q in rows[..limit] ensures Waits(t, nowUs, q) {
      assert q in rows && SamePlace(q, q);
    }
  }

  // ---- A history without end ----

  ghost predicate SpinsTo(s: P.State, steps: seq<P.Step>, t: P.State, w: Window) {
    exists run :: IsSpin(run, steps, w) && run[0] == s && run[|steps|] == t
  }

  lemma SpinsOnce(s: P.State, step: P.Step, t: P.State, w: Window)
    requires SpinsBy(s, step, t, w)
    ensures SpinsTo(s, [step], t, w)
  {
    var run := [s, t];
    assert IsSpin(run, [step], w) && run[0] == s && run[|[step]|] == t;
  }

  lemma SpinsNowhere(s: P.State, w: Window)
    ensures SpinsTo(s, [], s, w)
  {
    var run, steps: seq<P.Step> := [s], [];
    assert IsSpin(run, steps, w) && run[0] == s && run[|steps|] == s;
  }

  lemma SpinsConcat(s: P.State, first: seq<P.Step>, mid: P.State, second: seq<P.Step>, t: P.State, w: Window)
    requires SpinsTo(s, first, mid, w) && SpinsTo(mid, second, t, w)
    ensures SpinsTo(s, first + second, t, w)
  {
    var a :| IsSpin(a, first, w) && a[0] == s && a[|first|] == mid;
    var b :| IsSpin(b, second, w) && b[0] == mid && b[|second|] == t;
    Joined(a, first, b, second, w);
    var run := a[..|first|] + b;
    assert IsSpin(run, first + second, w) && run[0] == s && run[|first + second|] == t;
  }

  lemma Joined(a: seq<P.State>, first: seq<P.Step>, b: seq<P.State>, second: seq<P.Step>, w: Window)
    requires IsSpin(a, first, w) && IsSpin(b, second, w) && a[|first|] == b[0]
    ensures IsSpin(a[..|first|] + b, first + second, w)
  {
    var run, steps := a[..|first|] + b, first + second;
    forall i | 0 <= i < |steps| ensures SpinsBy(run[i], steps[i], run[i + 1], w) {
      if i < |first| {
        assert SpinsBy(a[i], first[i], a[i + 1], w);
      } else {
        var j := i - |first|;
        assert SpinsBy(b[j], second[j], b[j + 1], w);
      }
    }
  }

  /** Two rows are due, every call is over, and nothing is retained. */
  ghost predicate Stuck(s: P.State, a: Row, b: Row) {
    && s.table == [a, b] && TableOk(s.table) && Eligible(a, P.NowUs(s)) && Eligible(b, P.NowUs(s))
    && s.batchAttempt == 0 && s.retentionMs == 0 && forall i | 0 <= i < |s.passes| :: s.passes[i].pc.Over?
  }

  function With(s: P.State, p: P.Pass): P.State {
    s.(passes := s.passes + [p])
  }

  lemma WithAt(s: P.State, p: P.Pass, pc: P.Pc)
    ensures P.At(With(s, p), |s.passes|, pc) == With(s, p.(pc := pc))
  {
  }

  /** One event a batch, no caps, and `a` ahead. */
  function HeadOf(a: Row): Window {
    Window([a], map[], 1)
  }

  function Tried(a: Row, nowUs: int): Row {
    a.(attemptCount := a.attemptCount + 1, nextRetryAtUs := Some(nowUs), lastReason := None)
  }

  function Sends(n: nat, a: Row): seq<P.Step> {
    [P.Call] + [P.Start(n)] + [P.PassGate(n)] + [P.Read(n, [a])] + [P.Post(n)]
  }

  function Acks(n: nat, a: Row, nowUs: int): seq<P.Step> {
    [P.Reply(n, [Deferral(a)])] + [P.SettleAck(n, true, a.attemptCount + 1, nowUs)]
  }

  function Settles(n: nat): seq<P.Step> {
    [P.DeleteSettled(n, true)] + [P.StampSettled(n, true)]
  }

  function Finishes(n: nat): seq<P.Step> {
    [P.ReadNothing(n)] + [P.Drain(n, true)]
  }

  lemma HeadIsSelected(t: Table, nowUs: int, a: Row, b: Row)
    requires t == [a, b] && Eligible(a, nowUs)
    ensures SelectRows(t, nowUs, map[], 1) == [a]
  {
    var rows := EligibleRows(t, nowUs);
    UncappedAll(rows);
    assert t[..1] == [a];
    EligibleAdds(t, nowUs);
    EligibleAdds([a], nowUs);
    assert EligibleRows([], nowUs) == [];
    assert [a][..0] == [];
  }

  /** A call, up to its read. */
  lemma HeadIsRead(s: P.State, a: Row, b: Row)
    requires Stuck(s, a, b)
    ensures SpinsTo(s, [P.Call] + [P.Start(|s.passes|)] + [P.PassGate(|s.passes|)], With(s, P.Pass(P.Reading, {})), HeadOf(a))
  {
    var n, w := |s.passes|, HeadOf(a);
    var waiting, gate, reading := With(s, P.Pass(P.Waiting, {})), With(s, P.Pass(P.Gate, {})), With(s, P.Pass(P.Reading, {}));
    SpinsOnce(s, P.Call, waiting, w);
    WithAt(s, P.Pass(P.Waiting, {}), P.Gate);
    SpinsOnce(waiting, P.Start(n), gate, w);
    WithAt(s, P.Pass(P.Gate, {}), P.Reading);
    SpinsOnce(gate, P.PassGate(n), reading, w);
    SpinsConcat(s, [P.Call], waiting, [P.Start(n)], gate, w);
    SpinsConcat(s, [P.Call] + [P.Start(n)], gate, [P.PassGate(n)], reading, w);
  }

  lemma HeadRides(s: P.State, a: Row, b: Row)
    requires Stuck(s, a, b)
    ensures SpinsTo(With(s, P.Pass(P.Reading, {})), [P.Read(|s.passes|, [a])], With(s, P.Pass(P.Assembled([a]), {})), HeadOf(a))
  {
    HeadIsSelected(s.table, P.NowUs(s), a, b);
    WithAt(s, P.Pass(P.Reading, {}), P.Assembled([a]));
    SpinsOnce(With(s, P.Pass(P.Reading, {})), P.Read(|s.passes|, [a]), With(s, P.Pass(P.Assembled([a]), {})), HeadOf(a));
  }

  lemma HeadIsPosted(s: P.State, a: Row)
    ensures SpinsTo(With(s, P.Pass(P.Assembled([a]), {})), [P.Post(|s.passes|)], With(s, P.Pass(P.Sent([a]), {})), HeadOf(a))
  {
    WithAt(s, P.Pass(P.Assembled([a]), {}), P.Sent([a]));
    SpinsOnce(With(s, P.Pass(P.Assembled([a]), {})), P.Post(|s.passes|), With(s, P.Pass(P.Sent([a]), {})), HeadOf(a));
  }

  lemma HeadIsSent(s: P.State, a: Row, b: Row)
    requires Stuck(s, a, b)
    ensures SpinsTo(s, Sends(|s.passes|, a), With(s, P.Pass(P.Sent([a]), {})), HeadOf(a))
  {
    var n, w := |s.passes|, HeadOf(a);
    var reading, assembled := With(s, P.Pass(P.Reading, {})), With(s, P.Pass(P.Assembled([a]), {}));
    var sent := With(s, P.Pass(P.Sent([a]), {}));
    HeadIsRead(s, a, b);
    HeadRides(s, a, b);
    HeadIsPosted(s, a);
    var first := [P.Call] + [P.Start(n)] + [P.PassGate(n)];
    SpinsConcat(s, first, reading, [P.Read(n, [a])], assembled, w);
    SpinsConcat(s, first + [P.Read(n, [a])], assembled, [P.Post(n)], sent, w);
  }

  // What becomes of the state, once the reply is in and once the head is deferred.

  function Deferral(a: Row): P.Ack {
    P.Ack(a.eventId, P.Deferred, None)
  }

  function Answered(s: P.State, a: Row): P.State {
    s.(verdicts := s.verdicts + {(a.eventId, P.Deferred)})
  }

  function Requeued(s: P.State, a: Row, b: Row): P.State {
    Answered(s, a).(table := [Tried(a, P.NowUs(s)), b])
  }

  function AtAck(a: Row): P.Pass {
    P.Pass(P.Settling([a], [Deferral(a)], {}, {}, {}), {})
  }

  function AtDelete(a: Row): P.Pass {
    P.Pass(P.Settling([a], [], {}, {}, {a.eventId}), {})
  }

  function AtStamp(a: Row): P.Pass {
    P.Pass(P.Stamping({}, {a.eventId}, {}), {})
  }

  function OnceMore(a: Row, pc: P.Pc): P.Pass {
    P.Pass(pc, {a.eventId})
  }

  lemma ReplyDefers(s: P.State, a: Row)
    ensures SpinsTo(With(s, P.Pass(P.Sent([a]), {})), [P.Reply(|s.passes|, [Deferral(a)])], With(Answered(s, a), AtAck(a)), HeadOf(a))
  {
    var acks := [Deferral(a)];
    assert a in [a];
    assert (set k | k in acks && k.eventId in Ids([a]) :: (k.eventId, k.status)) == {(a.eventId, P.Deferred)} by {
      assert Deferral(a) in acks;
    }
    WithAt(Answered(s, a), P.Pass(P.Sent([a]), {}), AtAck(a).pc);
    SpinsOnce(With(s, P.Pass(P.Sent([a]), {})), P.Reply(|s.passes|, acks), With(Answered(s, a), AtAck(a)), HeadOf(a));
  }

  lemma HeadIsDeferred(t: Table, a: Row, b: Row, nowUs: int)
    requires t == [a, b] && TableOk(t)
    ensures DeferId(t, a.eventId, a.attemptCount + 1, nowUs, None) == [Tried(a, nowUs), b]
  {
    assert t[0].eventId != t[1].eventId;
  }

  lemma AckParks(s: P.State, a: Row, b: Row)
    requires Stuck(s, a, b)
    ensures SpinsTo(With(Answered(s, a), AtAck(a)), [P.SettleAck(|s.passes|, true, a.attemptCount + 1, P.NowUs(s))],
                    With(Requeued(s, a, b), AtDelete(a)), HeadOf(a))
  {
    assert a in [a] && [Deferral(a)][1..] == [] && {} + {a.eventId} == {a.eventId};
    HeadIsDeferred(s.table, a, b, P.NowUs(s));
    WithAt(Requeued(s, a, b), AtAck(a), AtDelete(a).pc);
    SpinsOnce(With(Answered(s, a), AtAck(a)), P.SettleAck(|s.passes|, true, a.attemptCount + 1, P.NowUs(s)),
              With(Requeued(s, a, b), AtDelete(a)), HeadOf(a));
  }

  lemma {:induction false} NothingDeleted(t: Table)
    ensures DeleteIds(t, {}) == t
  {
    if t != [] {
      NothingDeleted(t[..|t| - 1]);
      assert t == t[..|t| - 1] + [t[|t| - 1]];
    }
  }

  lemma DeletesNothing(s: P.State, a: Row)
    ensures SpinsTo(With(s, AtDelete(a)), [P.DeleteSettled(|s.passes|, true)], With(s, AtStamp(a)), HeadOf(a))
  {
    NothingDeleted(s.table);
    assert s.settled + {} == s.settled;
    WithAt(s, AtDelete(a), AtStamp(a).pc);
    SpinsOnce(With(s, AtDelete(a)), P.DeleteSettled(|s.passes|, true), With(s, AtStamp(a)), HeadOf(a));
  }

  lemma StampsNothing(s: P.State, a: Row)
    requires s.batchAttempt == 0
    ensures SpinsTo(With(s, AtStamp(a)), [P.StampSettled(|s.passes|, true)],
                    With(s.(batchRetryAtMs := 0), OnceMore(a, P.Reading)), HeadOf(a))
  {
    assert s.settled + {} == s.settled && {} + {a.eventId} == {a.eventId};
    assert StampIds(s.table, {}, P.NowUs(s)) == s.table;
    SpinsOnce(With(s, AtStamp(a)), P.StampSettled(|s.passes|, true), With(s.(batchRetryAtMs := 0), OnceMore(a, P.Reading)), HeadOf(a));
  }

  lemma NothingSettles(s: P.State, a: Row)
    requires s.batchAttempt == 0
    ensures SpinsTo(With(s, AtDelete(a)), Settles(|s.passes|), With(s.(batchRetryAtMs := 0), OnceMore(a, P.Reading)), HeadOf(a))
  {
    var n := |s.passes|;
    DeletesNothing(s, a);
    StampsNothing(s, a);
    SpinsConcat(With(s, AtDelete(a)), [P.DeleteSettled(n, true)], With(s, AtStamp(a)), [P.StampSettled(n, true)],
                With(s.(batchRetryAtMs := 0), OnceMore(a, P.Reading)), HeadOf(a));
  }

  lemma HeadIsAcked(s: P.State, a: Row, b: Row)
    requires Stuck(s, a, b)
    ensures SpinsTo(With(s, P.Pass(P.Sent([a]), {})), Acks(|s.passes|, a, P.NowUs(s)), With(Requeued(s, a, b), AtDelete(a)), HeadOf(a))
  {
    ReplyDefers(s, a);
    AckParks(s, a, b);
    SpinsConcat(With(s, P.Pass(P.Sent([a]), {})), [P.Reply(|s.passes|, [Deferral(a)])], With(Answered(s, a), AtAck(a)),
                [P.SettleAck(|s.passes|, true, a.attemptCount + 1, P.NowUs(s))], With(Requeued(s, a, b), AtDelete(a)), HeadOf(a));
  }

  lemma PassFinishes(s: P.State, a: Row)
    requires !NoPending(s.table)
    ensures SpinsTo(With(s, OnceMore(a, P.Reading)), Finishes(|s.passes|),
                    With(s.(currentEmpty := Some(false)), OnceMore(a, P.Over(true))), HeadOf(a))
  {
    var n, w := |s.passes|, HeadOf(a);
    var reading, draining := With(s, OnceMore(a, P.Reading)), With(s, OnceMore(a, P.Draining));
    var over := With(s.(currentEmpty := Some(false)), OnceMore(a, P.Over(true)));
    WithAt(s, OnceMore(a, P.Reading), P.Draining);
    SpinsOnce(reading, P.ReadNothing(n), draining, w);
    WithAt(s.(currentEmpty := Some(false)), OnceMore(a, P.Draining), P.Over(true));
    SpinsOnce(draining, P.Drain(n, true), over, w);
    SpinsConcat(reading, [P.ReadNothing(n)], draining, [P.Drain(n, true)], over, w);
  }

  /** The steps of a pass that sends the head alone, and the state after it. */
  function OnePass(n: nat, a: Row, nowUs: int): seq<P.Step> {
    Sends(n, a) + (Acks(n, a, nowUs) + (Settles(n) + Finishes(n)))
  }

  function AfterPass(s: P.State, a: Row, b: Row): P.State {
    With(Requeued(s, a, b).(batchRetryAtMs := 0, currentEmpty := Some(false)), OnceMore(a, P.Over(true)))
  }

  /** A pass sends the head, defers it, finds nothing else to send and is over; and all is as it was before. */
  lemma HeadIsSentAgain(s: P.State, a: Row, b: Row)
    requires Stuck(s, a, b)
    ensures SpinsTo(s, OnePass(|s.passes|, a, P.NowUs(s)), AfterPass(s, a, b), HeadOf(a))
    ensures Stuck(AfterPass(s, a, b), Tried(a, P.NowUs(s)), b)
    ensures NotDeferred(SelectRows(AfterPass(s, a, b).table, P.NowUs(s), map[], 1), {a.eventId}) == []
  {
    OnePassSpins(s, a, b);
    StuckAgain(s, a, b);
    var again := Tried(a, P.NowUs(s));
    HeadIsSelected([again, b], P.NowUs(s), again, b);
    assert Ids([again]) <= {a.eventId};
    AllDeferred([again], {a.eventId});
  }

  lemma OnePassSpins(s: P.State, a: Row, b: Row)
    requires Stuck(s, a, b)
    ensures SpinsTo(s, OnePass(|s.passes|, a, P.NowUs(s)), AfterPass(s, a, b), HeadOf(a))
  {
    var n, w, u := |s.passes|, HeadOf(a), Requeued(s, a, b);
    HeadIsSent(s, a, b);
    HeadIsAcked(s, a, b);
    PassIsDone(u, a, b);
    SpinsConcat(With(s, P.Pass(P.Sent([a]), {})), Acks(n, a, P.NowUs(s)), With(u, AtDelete(a)), Settles(n) + Finishes(n), AfterPass(s, a, b), w);
    SpinsConcat(s, Sends(n, a), With(s, P.Pass(P.Sent([a]), {})), Acks(n, a, P.NowUs(s)) + (Settles(n) + Finishes(n)), AfterPass(s, a, b), w);
  }

  lemma PassIsDone(s: P.State, a: Row, b: Row)
    requires b in s.table && Pending(b) && s.batchAttempt == 0
    ensures SpinsTo(With(s, AtDelete(a)), Settles(|s.passes|) + Finishes(|s.passes|),
                    With(s.(batchRetryAtMs := 0, currentEmpty := Some(false)), OnceMore(a, P.Over(true))), HeadOf(a))
  {
    var u, n := s.(batchRetryAtMs := 0), |s.passes|;
    NothingSettles(s, a);
    PassFinishes(u, a);
    SpinsConcat(With(s, AtDelete(a)), Settles(n), With(u, OnceMore(a, P.Reading)), Finishes(n),
                With(u.(currentEmpty := Some(false)), OnceMore(a, P.Over(true))), HeadOf(a));
  }

  lemma StuckAgain(s: P.State, a: Row, b: Row)
    requires Stuck(s, a, b)
    ensures Stuck(AfterPass(s, a, b), Tried(a, P.NowUs(s)), b)
  {
    assert s.table[0].ordinal < s.table[1].ordinal && s.table[0].eventId != s.table[1].eventId;
  }

  /** Pass after pass: a history of any length in which the second row, due from the start, is never sent. */
  lemma {:induction false} SecondRowWaitsForever(s: P.State, a: Row, b: Row, k: nat) returns (steps: seq<P.Step>, t: P.State, a': Row)
    requires P.Inv(s) && Stuck(s, a, b)
    ensures SpinsTo(s, steps, t, HeadOf(a)) && Stuck(t, a', b) && |t.passes| == |s.passes| + k
    ensures SamePlace(a, a') && a'.attemptCount == a.attemptCount + k
    ensures Starves(s, HeadOf(a), b)
  {
    StuckStarves(s, a, b);
    SpinsNowhere(s, HeadOf(a));
    steps, t, a' := [], s, a;
    for i := 0 to k
      invariant SpinsTo(s, steps, t, HeadOf(a)) && Stuck(t, a', b) && |t.passes| == |s.passes| + i
      invariant SamePlace(a, a') && a'.attemptCount == a.attemptCount + i
    {
      HeadIsSentAgain(t, a', b);
      SameHead(t, OnePass(|t.passes|, a', P.NowUs(t)), AfterPass(t, a', b), a', a);
      SpinsConcat(s, steps, t, OnePass(|t.passes|, a', P.NowUs(t)), AfterPass(t, a', b), HeadOf(a));
      steps, t, a' := steps + OnePass(|t.passes|, a', P.NowUs(t)), AfterPass(t, a', b), Tried(a', P.NowUs(t));
    }
  }

  /** Two appends to an empty Outbox lead there. */
  lemma StuckFromEmpty(s: P.State, a: Row, b: Row)
    requires P.Init(s) && s.retentionMs == 0 && P.Enabled(s, P.AppendInsert(a))
    requires P.Enabled(P.Apply(s, P.AppendInsert(a)), P.AppendInsert(b))
    ensures var t := P.Apply(P.Apply(s, P.AppendInsert(a)), P.AppendInsert(b)); P.Inv(t) && Stuck(t, a, b)
  {
    P.StepKeepsInv(s, P.AppendInsert(a));
    P.StepKeepsInv(P.Apply(s, P.AppendInsert(a)), P.AppendInsert(b));
    assert [] + [a] + [b] == [a, b];
  }

  lemma StuckStarves(s: P.State, a: Row, b: Row)
    requires Stuck(s, a, b)
    ensures Starves(s, HeadOf(a), b)
  {
    assert [a] + [b] == s.table && a in s.table && b in s.table && SamePlace(a, a);
  }

  /** Only the places of the rows ahead count. */
  lemma SameHead(s: P.State, steps: seq<P.Step>, t: P.State, a: Row, a': Row)
    requires SpinsTo(s, steps, t, HeadOf(a)) && SamePlace(a, a')
    ensures SpinsTo(s, steps, t, HeadOf(a'))
  {
    var run :| IsSpin(run, steps, HeadOf(a)) && run[0] == s && run[|steps|] == t;
    assert Ids([a]) == Ids([a']) by { assert a in [a] && a' in [a']; }
    assert IsSpin(run, steps, HeadOf(a'));
  }
}

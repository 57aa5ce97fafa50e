/** `createEventLaneRuntime`: the append, the flush pass and the statements they run, as imperative code over
    the fields the runtime updates. The clock, the server, the jitter and the failures are left to chance.
    Every method is a sequence of steps of `EventLaneProtocol`; what holds over the runs of that machine holds
    of this code. */
module EventLaneRuntime {
  import opened Options
  import opened Outbox
  import opened BatchSelection
  import opened BatchAssembly
  import opened EventBackoff
  import P = EventLaneProtocol

  const MAX_EVENT_PAYLOAD_BYTES := 64 * 1024

  /** Where the steps lead from `s`, if each of them is enabled. */
  function Follow(s: P.State, steps: seq<P.Step>): Option<P.State> {
    if steps == [] then Some(s)
    else
      var before := Follow(s, steps[..|steps| - 1]);
      var step := steps[|steps| - 1];
      if before.Some? && P.Enabled(before.value, step) then Some(P.Apply(before.value, step)) else None
  }

  ghost predicate Leads(s: P.State, steps: seq<P.Step>, t: P.State) {
    Follow(s, steps) == Some(t)
  }

  lemma LeadsOn(s: P.State, steps: seq<P.Step>, mid: P.State, step: P.Step)
    requires Leads(s, steps, mid) && P.Enabled(mid, step)
    ensures Leads(s, steps + [step], P.Apply(mid, step))
  {
    assert (steps + [step])[..|steps|] == steps;
  }

  /** Whatever the code runs from a state in order, it ends in one: what is proved of such states holds of it. */
  lemma {:induction false} LeadsKeepsInv(s: P.State, steps: seq<P.Step>, t: P.State)
    requires P.Inv(s) && Leads(s, steps, t)
    ensures P.Inv(t)
    decreases |steps|
  {
    if steps != [] {
      var earlier := steps[..|steps| - 1];
      var before := Follow(s, earlier).value;
      LeadsKeepsInv(s, earlier, before);
      P.StepKeepsInv(before, steps[|steps| - 1]);
    }
  }

  /** The states on the way. */
  lemma {:induction false} LeadsIsSegment(s: P.State, steps: seq<P.Step>, t: P.State) returns (run: seq<P.State>)
    requires P.Inv(s) && Leads(s, steps, t)
    ensures P.IsSegment(run, steps) && run[0] == s && run[|steps|] == t
    decreases |steps|
  {
    if steps == [] {
      run := [s];
    } else {
      var n := |steps| - 1;
      var before := LeadsIsSegment(s, steps[..n], Follow(s, steps[..n]).value);
      OneStepMore(before, steps[..n], steps[n]);
      assert steps == steps[..n] + [steps[n]];
      run := before + [t];
    }
  }

  lemma OneStepMore(run: seq<P.State>, steps: seq<P.Step>, step: P.Step)
    requires P.IsSegment(run, steps) && P.Enabled(run[|steps|], step)
    ensures P.IsSegment(run + [P.Apply(run[|steps|], step)], steps + [step])
  {
    var run', steps' := run + [P.Apply(run[|steps|], step)], steps + [step];
    forall i | 0 <= i < |steps'| ensures P.Enabled(run'[i], steps'[i]) && run'[i + 1] == P.Apply(run'[i], steps'[i]) {
      if i < |steps| { assert P.Enabled(run[i], steps[i]) && run[i + 1] == P.Apply(run[i], steps[i]); }
    }
  }

  /** The base and the ceiling a stream's deferrals, or the batch level, back off with. */
  type Bounds = Option<string> -> (nat, nat)

  function BoundOf(n: Num): nat {
    if n.Ms? && n.value >= 0 then n.value else 0
  }

  /** The bounds a configuration runs on. */
  function BoundsOf(o: LaneOptions): Bounds {
    (stream: Option<string>) => (BoundOf(RuntimePair(o, stream).base), BoundOf(RuntimePair(o, stream).ceiling))
  }

  /** Those of an accepted one are its runtime pairs. */
  lemma BoundsAreRuntimePairs(o: LaneOptions, stream: Option<string>)
    requires Accepted(o)
    ensures RuntimePair(o, stream) == Pair(Ms(BoundsOf(o)(stream).0), Ms(BoundsOf(o)(stream).1))
  {
    RuntimeBoundsAreFinite(o, stream);
  }

  function RetentionOf(o: LaneOptions): nat
    requires Accepted(o)
  {
    if o.ackedRetentionMs.Given? then o.ackedRetentionMs.num.value else 0
  }

  function CapsOf(streams: seq<(string, StreamOptions)>): (caps: Caps) {
    if streams == [] then map[]
    else
      var rest := CapsOf(streams[1..]);
      var cap := if streams[0].1.StreamOptions? then streams[0].1.batchSize else Absent;
      if cap.Given? && cap.num.Ms? && cap.num.value >= 1 then rest[streams[0].0 := cap.num.value] else rest
  }

  /** No stream is configured twice. */
  predicate StreamsOnce(streams: seq<(string, StreamOptions)>) {
    forall i, j | 0 <= i < j < |streams| :: streams[i].0 != streams[j].0
  }

  /** The batch size a stream's options give. */
  predicate CapsAt(streams: seq<(string, StreamOptions)>, i: nat, stream: string, cap: nat)
    requires i < |streams|
  {
    streams[i].0 == stream && streams[i].1.StreamOptions? && streams[i].1.batchSize == Given(Ms(cap)) && cap >= 1
  }

  /** A stream is capped exactly where its options give a batch size, and at that. */
  lemma {:induction false} CapsAreConfigured(streams: seq<(string, StreamOptions)>, stream: string, cap: nat)
    requires StreamsOnce(streams)
    ensures (stream in CapsOf(streams) && CapsOf(streams)[stream] == cap) <==> exists i :: 0 <= i < |streams| && CapsAt(streams, i, stream, cap)
  {
    if streams != [] {
      var rest := streams[1..];
      assert forall i | 0 <= i < |rest| :: rest[i] == streams[i + 1];
      CapsAreConfigured(rest, stream, cap);
      NotElsewhere(rest, streams[0].0);
      assert CapsAt(streams, 0, stream, cap) ==> stream in CapsOf(streams) && CapsOf(streams)[stream] == cap;
      if stream != streams[0].0 {
        if i :| 0 <= i < |rest| && CapsAt(rest, i, stream, cap) { assert CapsAt(streams, i + 1, stream, cap); }
        if i :| 0 <= i < |streams| && CapsAt(streams, i, stream, cap) { assert CapsAt(rest, i - 1, stream, cap); }
      } else {
        assert stream in CapsOf(streams) && CapsOf(streams)[stream] == cap ==> CapsAt(streams, 0, stream, cap);
      }
    }
  }

  lemma {:induction false} NotElsewhere(streams: seq<(string, StreamOptions)>, stream: string)
    requires forall i | 0 <= i < |streams| :: streams[i].0 != stream
    ensures stream !in CapsOf(streams)
  {
    if streams != [] { NotElsewhere(streams[1..], stream); }
  }

  /** A jittered delay from now. */
  ghost predicate JitteredFrom(now: int, retryAtUs: int, bound: nat) {
    exists delayMs: nat :: P.Jittered(delayMs, bound) && retryAtUs == (now + delayMs) * 1000
  }

  /** What is left are the rows that are pending or were stamped after the cutoff. */
  ghost predicate KeepsYounger(t: Table, left: Table, cutoffUs: int) {
    forall r :: r in left <==> (r in t && (r.ackedAtUs.None? || r.ackedAtUs.value > cutoffUs))
  }

  function PendingIds(t: Table): set<EventId> {
    set r | r in t && Pending(r) :: r.eventId
  }

  /** The pending events this pass has not deferred: what bounds the number of its slices. */
  function Left(t: Table, deferred: set<EventId>): set<EventId> {
    PendingIds(t) - deferred
  }

  ghost predicate Answers(acks: seq<P.Ack>, batch: seq<Row>) {
    forall r | r in batch :: exists a :: a in acks && a.eventId == r.eventId
  }

  /** Every row deferred in this pass waits at least until `dueUs`. */
  ghost predicate Parked(t: Table, deferred: set<EventId>, dueUs: int) {
    forall r | r in t && r.eventId in deferred :: r.nextRetryAtUs.Some? && r.nextRetryAtUs.value >= dueUs
  }

  lemma DeferKeepsPending(t: Table, id: EventId, attempt: nat, retryAtUs: int, reason: Option<string>, deferred: set<EventId>, dueUs: int)
    requires Parked(t, deferred, dueUs) && retryAtUs >= dueUs
    ensures var t' := DeferId(t, id, attempt, retryAtUs, reason);
            PendingIds(t') == PendingIds(t) && Parked(t', deferred + {id}, dueUs)
  {
    var t' := DeferId(t, id, attempt, retryAtUs, reason);
    forall e ensures e in PendingIds(t') <==> e in PendingIds(t) {
      if e in PendingIds(t) {
        var i :| 0 <= i < |t| && Pending(t[i]) && t[i].eventId == e;
        assert t'[i] in t' && Pending(t'[i]) && t'[i].eventId == e;
      }
    }
  }

  lemma SettlingRetires(t: Table, deletable: set<EventId>, stampable: set<EventId>, nowUs: int, deferred: set<EventId>, dueUs: int)
    requires Parked(t, deferred, dueUs)
    ensures var t' := StampIds(DeleteIds(t, deletable), stampable, nowUs);
            PendingIds(t') == PendingIds(t) - deletable - stampable && Parked(t', deferred, dueUs)
  {
    var u := DeleteIds(t, deletable);
    var t' := StampIds(u, stampable, nowUs);
    forall e ensures e in PendingIds(t') <==> e in PendingIds(t) - deletable - stampable {
      if e in PendingIds(t) - deletable - stampable {
        var r :| r in t && Pending(r) && r.eventId == e;
        var i :| 0 <= i < |u| && u[i] == r;
        assert t'[i] in t';
      }
    }
  }

  /** No delay after a first deferral is shorter than `d` milliseconds, whatever the jitter. */
  ghost predicate DelaysAtLeast(bounds: Bounds, d: nat) {
    forall stream: string, attempt: nat, j: Jitter | attempt >= 1 && JitterOk(j) ::
      ComputeEventBackoffMs(attempt, bounds(Some(stream)).0, bounds(Some(stream)).1, j) >= d
  }

  /** Positive bounds give positive delays. */
  lemma PositiveBoundsDelay(bounds: Bounds)
    requires forall stream: string :: bounds(Some(stream)).0 > 0 && bounds(Some(stream)).1 > 0
    ensures DelaysAtLeast(bounds, 1)
  {
    forall stream: string, attempt: nat, j: Jitter | attempt >= 1 && JitterOk(j)
      ensures ComputeEventBackoffMs(attempt, bounds(Some(stream)).0, bounds(Some(stream)).1, j) >= 1
    {
      MulMono(1, Pow2(attempt - 1), bounds(Some(stream)).0);
    }
  }

  /** Whatever way an event of the batch is settled, it is no longer left to this pass. */
  lemma SettledShrinks(pending: set<EventId>, deferred: set<EventId>, batch: set<EventId>,
                       deletable: set<EventId>, stampable: set<EventId>, parked: set<EventId>)
    requires deletable + stampable + parked <= batch <= pending - deferred
    ensures var left' := pending - deletable - stampable - (deferred + parked);
            left' <= pending - deferred && (deletable + stampable + parked != {} ==> left' < pending - deferred)
  {
    if deletable + stampable + parked != {} {
      var e :| e in deletable + stampable + parked;
      assert e in pending - deferred;
    }
  }

  lemma BatchIsLeft(t: Table, nowUs: int, batch: seq<Row>, deferred: set<EventId>)
    requires forall r | r in batch :: r in t && Eligible(r, nowUs) && r.eventId !in deferred
    ensures Ids(batch) <= Left(t, deferred)
  {
  }

  /** The events of the batch that the acks name. */
  function SentIds(acks: seq<P.Ack>, batch: seq<Row>): set<EventId> {
    set a | a in acks && a.eventId in Ids(batch) :: a.eventId
  }

  lemma HeadAndRest<T>(s: seq<T>, k: nat)
    requires k < |s|
    ensures s[k..] == [s[k]] + s[k + 1..]
  {
  }

  lemma SentIdsNext(acks: seq<P.Ack>, k: nat, batch: seq<Row>)
    requires k < |acks|
    ensures SentIds(acks[..k + 1], batch) ==
            SentIds(acks[..k], batch) + if acks[k].eventId in Ids(batch) then {acks[k].eventId} else {}
  {
    assert acks[..k + 1] == acks[..k] + [acks[k]];
  }

  lemma AnsweredSome(acks: seq<P.Ack>, batch: seq<Row>)
    ensures batch != [] && Answers(acks, batch) ==> SentIds(acks, batch) != {}
  {
    if batch != [] && Answers(acks, batch) {
      assert batch[0] in batch;
      var a :| a in acks && a.eventId == batch[0].eventId;
      assert a.eventId in SentIds(acks, batch);
    }
  }

  lemma SettlingShrinks(t: Table, batch: seq<Row>, acks: seq<P.Ack>, deletable: set<EventId>, stampable: set<EventId>,
                        nowUs: int, deferred: set<EventId>, parked: set<EventId>, dueUs: int)
    requires deletable + stampable + parked == SentIds(acks, batch) && Ids(batch) <= Left(t, deferred)
    requires Parked(t, deferred + parked, dueUs)
    ensures var t' := StampIds(DeleteIds(t, deletable), stampable, nowUs);
            && Parked(t', deferred + parked, dueUs)
            && (deletable != {} || stampable != {} || parked != {} ==> Left(t', deferred + parked) < Left(t, deferred))
    ensures batch != [] && Answers(acks, batch) ==> deletable != {} || stampable != {} || parked != {}
  {
    SettlingRetires(t, deletable, stampable, nowUs, deferred + parked, dueUs);
    SettledShrinks(PendingIds(t), deferred, Ids(batch), deletable, stampable, parked);
    AnsweredSome(acks, batch);
  }

  /** How one slice of a pass ends. */
  datatype SliceEnd = More | Empty | NothingSettled | PostFailed | Threw | Held

  /** A row that is eligible stays so as time passes. */
  lemma StaysEligible(t: Table, u: Table, r: Row, nowUs: int, laterUs: int)
    requires r in t && Eligible(r, nowUs) && nowUs <= laterUs && (forall q | q in t :: q in u)
    ensures EligibleRows(u, laterUs) != []
  {
    assert r in EligibleRows(u, laterUs);
  }

  /** Retiring nothing keeps every row. */
  lemma NothingRetired(t: Table, nowUs: int)
    ensures forall r | r in t :: r in StampIds(DeleteIds(t, {}), {}, nowUs)
  {
  }

  lemma SelectedAreEligible(t: Table, nowUs: int, caps: Caps, limit: nat)
    ensures forall r | r in SelectRows(t, nowUs, caps, limit) :: r in t && Eligible(r, nowUs)
  {
    var rows := EligibleRows(t, nowUs);
    forall r | r in SelectRows(t, nowUs, caps, limit) ensures r in rows {
      assert r in WithinCaps(rows, caps);
      WithinCapsIsFilter(rows, caps, r);
    }
  }

  /** Where some row is eligible the query returns one: the first in `seq` order has rank one. */
  lemma SelectsSomething(t: Table, nowUs: int, caps: Caps, limit: nat)
    requires limit >= 1 && EligibleRows(t, nowUs) != []
    ensures SelectRows(t, nowUs, caps, limit) != []
  {
    var rows := EligibleRows(t, nowUs);
    assert rows[..0 + 1] == [] + [rows[0]];
    CountLast([], rows[0], rows[0].stream);
    assert Rides(rows, caps, 0);
    WithinCapsIsFilter(rows, caps, rows[0]);
    assert WithinCaps(rows, caps) != [];
  }

  function NotDeferred(rows: seq<Row>, deferred: set<EventId>): (kept: seq<Row>)
    ensures forall r | r in kept :: r in rows && r.eventId !in deferred
    ensures kept == [] ==> forall r | r in rows :: r.eventId in deferred
    ensures kept == Where(rows, (r: Row) => r.eventId !in deferred)
  {
    var kept := Where(rows, (r: Row) => r.eventId !in deferred);
    assert forall r | r in rows :: r in kept || r.eventId in deferred;
    kept
  }

  /** The batch is the longest run of the rows, in their order, whose request keeps within the cap; a lone event
      rides whatever its size. */
  ghost predicate RidesLongest(batch: seq<Row>, rows: seq<Row>, bytes: RowBytes) {
    && batch <= rows
    && (|batch| >= 2 ==> RequestBytes(batch, bytes) <= 4_194_304)
    && (|batch| < |rows| ==> batch != [] && RequestBytes(rows[..|batch| + 1], bytes) > 4_194_304)
  }

  /** When only rows deferred in this pass are selected, nothing is left eligible exactly when none of the rows it
      deferred is due again. */
  lemma DrainedExactly(t: Table, nowUs: int, caps: Caps, limit: nat, deferred: set<EventId>)
    requires limit >= 1 && forall r | r in SelectRows(t, nowUs, caps, limit) :: r.eventId in deferred
    ensures EligibleRows(t, nowUs) == [] <==> forall r | r in t && r.eventId in deferred :: !Eligible(r, nowUs)
  {
    if EligibleRows(t, nowUs) != [] {
      SelectsSomething(t, nowUs, caps, limit);
      var r := SelectRows(t, nowUs, caps, limit)[0];
      assert r in SelectRows(t, nowUs, caps, limit);
      SelectedAreEligible(t, nowUs, caps, limit);
    } else {
      forall r | r in t ensures !Eligible(r, nowUs) { assert r !in EligibleRows(t, nowUs); }
    }
  }

  /** When only rows deferred in this pass are selected, and none of those is due again yet, none is eligible. */
  lemma NothingEligible(t: Table, nowUs: int, caps: Caps, limit: nat, deferred: set<EventId>, dueUs: int)
    requires limit >= 1 && Parked(t, deferred, dueUs) && nowUs < dueUs
    requires forall r | r in SelectRows(t, nowUs, caps, limit) :: r.eventId in deferred
    ensures EligibleRows(t, nowUs) == []
  {
    if EligibleRows(t, nowUs) != [] {
      SelectsSomething(t, nowUs, caps, limit);
      var r := SelectRows(t, nowUs, caps, limit)[0];
      assert r in SelectRows(t, nowUs, caps, limit);
      SelectedAreEligible(t, nowUs, caps, limit);
    }
  }

  /** `ListenerThrew`: the row is staged, and a status listener's throw rejects the append all the same. */
  datatype AppendResult = Appended(ordinal: nat) | UnknownStream | PayloadTooLarge | InsertFailed | ListenerThrew(ordinal: nat)

  class EventLane {
    const streams: set<string>
    const batchSize: nat
    const caps: Caps
    const retentionMs: nat
    const bounds: Bounds
    const bytes: RowBytes

    // The store, with the sequence behind its primary key, and the wall clock, in milliseconds.
    var table: Table
    var nextOrdinal: nat
    var now: int
    // The runtime's own state.
    var batchAttempt: nat
    var batchRetryAtMs: int
    var currentEmpty: Option<bool>

    // The machine this code steps through, and the steps taken since `origin`.
    ghost var st: P.State
    ghost var origin: P.State
    ghost var trace: seq<P.Step>

    /** The fields show the machine's state, and the machine got there by its own steps. */
    ghost predicate Valid()
      reads this
    {
      && batchSize >= 1
      && st.batchBounds == bounds(None)
      && st.table == table && st.nextOrdinal == nextOrdinal && st.now == now && st.retentionMs == retentionMs
      && st.batchAttempt == batchAttempt && st.batchRetryAtMs == batchRetryAtMs && st.currentEmpty == currentEmpty
      && Leads(origin, trace, st)
    }

    /** A runtime over an accepted configuration, opened on the store an earlier one left. */
    constructor (streams: set<string>, o: LaneOptions, bytes: RowBytes, table: Table, nextOrdinal: nat, now: int, ghost before: P.State)
      requires Accepted(o) && before.table == table && before.now == now
      requires before.nextOrdinal == nextOrdinal
      ensures Valid() && Idle() && st.boot.SweepDue? && trace == []
      ensures this.table == table && this.nextOrdinal == nextOrdinal && this.now == now && this.streams == streams && this.bytes == bytes
      ensures batchSize == BatchSize(o) && caps == CapsOf(o.streams) && bounds == BoundsOf(o) && retentionMs == RetentionOf(o)
      ensures if o.ackedRetentionMs.Given? then o.ackedRetentionMs.num == Ms(retentionMs) else retentionMs == 0
      ensures batchAttempt == 0 && currentEmpty.None?
    {
      this.streams := streams;
      batchSize := BatchSize(o);
      caps := CapsOf(o.streams);
      retentionMs := RetentionOf(o);
      bounds := BoundsOf(o);
      this.bytes := bytes;
      this.table := table;
      this.nextOrdinal := nextOrdinal;
      this.now := now;
      batchAttempt := 0;
      batchRetryAtMs := 0;
      currentEmpty := None;
      st := P.Apply(before, P.Crash(RetentionOf(o), BoundsOf(o)(None)));
      origin := st;
      trace := [];
    }

    ghost method Take(step: P.Step)
      requires Leads(origin, trace, st) && P.Enabled(st, step)
      modifies `st, `trace
      ensures st == P.Apply(old(st), step) && trace == old(trace) + [step]
      ensures Leads(origin, trace, st)
    {
      LeadsOn(origin, trace, st, step);
      trace := trace + [step];
      st := P.Apply(st, step);
    }

    /** Time passes. */
    method Clock()
      requires Valid()
      modifies `now, `st, `trace
      ensures Valid() && old(now) <= now && st == old(st).(now := now)
    {
      var ms: nat :| true;
      now := now + ms;
      Take(P.Tick(ms));
    }

    function NowUs(): int
      reads this
    {
      now * 1000
    }

    // ---- Append ----

    /** Stage one event under a fresh id. It resolves once the row is in the table, and says so on the signal; only
        a signal that did not say so already has listeners called, and one of those may throw. */
    method AppendEvent(stream: string, eventId: EventId, payload: string) returns (result: AppendResult)
      requires Valid() && eventId !in st.appended
      modifies this
      ensures Valid()
      ensures result.UnknownStream? <==> stream !in streams
      ensures result.PayloadTooLarge? <==> stream in streams && ByteLength(payload) > 65536
      ensures result.Appended? || result.ListenerThrew? ==>
                && currentEmpty == Some(false)
                && |table| == |old(table)| + 1 && table[..|old(table)|] == old(table)
                && var r := table[|old(table)|];
                   r.eventId == eventId && r.stream == stream && r.payload == payload && Pending(r)
                   && r.occurredAtUs == now * 1000 && old(now) <= now
                   && r.ordinal == result.ordinal >= old(nextOrdinal)
      ensures result.Appended? ==> eventId in st.resolved
      ensures result.ListenerThrew? ==> old(currentEmpty) != Some(false)
      ensures !result.Appended? && !result.ListenerThrew? ==> table == old(table) && st.appended == old(st.appended)
    {
      if stream !in streams {
        return UnknownStream;
      }
      if ByteLength(payload) > MAX_EVENT_PAYLOAD_BYTES {
        return PayloadTooLarge;
      }
      Clock();
      var ok: bool := *;
      if !ok {
        return InsertFailed;
      }
      var skipped: nat :| true;
      var ordinal := nextOrdinal + skipped;
      InsertRow(Row(ordinal, eventId, stream, NowUs(), payload, 0, None, None, None));
      var threw := PublishAppended(eventId);
      result := if threw then ListenerThrew(ordinal) else Appended(ordinal);
    }

    /** The insert of an append. */
    method InsertRow(row: Row)
      requires Valid() && row.eventId !in st.appended && row.ordinal >= nextOrdinal
      requires row.ackedAtUs.None? && row.nextRetryAtUs.None? && row.attemptCount == 0
      modifies `table, `nextOrdinal, `st, `trace
      ensures Valid() && table == old(table) + [row] && row.eventId in st.inserting
    {
      nextOrdinal := row.ordinal + 1;
      table := table + [row];
      Take(P.AppendInsert(row));
    }

    /** The publish that an append ends with. */
    method PublishAppended(eventId: EventId) returns (threw: bool)
      requires Valid() && eventId in st.inserting
      modifies `currentEmpty, `st, `trace
      ensures Valid() && currentEmpty == Some(false)
      ensures threw ==> old(currentEmpty) != Some(false)
      ensures !threw ==> eventId in st.resolved
    {
      threw := *;
      threw := threw && currentEmpty != Some(false);
      currentEmpty := Some(false);
      Take(if threw then P.AppendReject(eventId) else P.AppendResolve(eventId));
    }

    // ---- Construction ----

    /** The probe made at construction: the sweep, whatever the retention, and then the drain signal's first read.
        Either may fail, and neither failure is heard of. */
    method InitialProbe() returns (ghost cutoffUs: int)
      requires Valid() && st.boot.SweepDue?
      modifies `table, `now, `currentEmpty, `st, `trace
      ensures Valid() && old(now) <= now && st.boot.Probed? && st.passes == old(st).passes
      ensures old(now - retentionMs) * 1000 <= cutoffUs <= (now - retentionMs) * 1000
      ensures table == old(table) || table == SweepAcked(old(table), cutoffUs)
      ensures currentEmpty == old(currentEmpty) || currentEmpty == Some(NoPending(table))
    {
      Clock();
      var swept: bool := *;
      var atUs := NowUs() - retentionMs * 1000;
      assert atUs == P.CutoffUs(st);
      cutoffUs := atUs;
      if swept {
        table := SweepAcked(table, atUs);
      }
      Take(P.BootSweep(swept));
      FirstRead();
    }

    method FirstRead()
      requires Valid() && st.boot.ProbeDue?
      modifies `currentEmpty, `st, `trace
      ensures Valid() && st.boot.Probed? && st.passes == old(st).passes
      ensures currentEmpty == old(currentEmpty) || currentEmpty == Some(NoPending(table))
    {
      var read: bool := *;
      if read {
        currentEmpty := Some(NoPending(table));
      }
      Take(P.BootProbe(read));
    }

    // ---- The flush pass ----

    /** Every call so far has settled. */
    ghost predicate Idle()
      reads this
    {
      forall j | 0 <= j < |st.passes| :: st.passes[j].pc.Over?
    }

    /** Pass `i`, the last one called, is at `pc`, and the earlier ones are over. */
    ghost predicate PassIs(i: nat, pc: P.Pc)
      reads this
    {
      |st.passes| == i + 1 && st.passes[i].pc == pc && forall j | 0 <= j < i :: st.passes[j].pc.Over?
    }

    /** And these are the events it has deferred. */
    ghost predicate PassAt(i: nat, pc: P.Pc, deferred: set<EventId>)
      reads this
    {
      PassIs(i, pc) && st.passes[i].deferredThisPass == deferred
    }

    /** The acked ledger's sweep. A failure delays a delete and is swallowed. */
    method SweepAckedLedger(ghost i: nat) returns (ok: bool)
      requires Valid() && PassAt(i, P.Sweeping, {})
      modifies `table, `now, `st, `trace
      ensures Valid() && old(now) <= now && PassAt(i, P.Gate, {})
      ensures if ok then KeepsYounger(old(table), table, (now - retentionMs) * 1000) else table == old(table)
    {
      Clock();
      ok := *;
      var cutoffUs := NowUs() - retentionMs * 1000;
      assert cutoffUs == P.CutoffUs(st);
      if ok {
        table := SweepAcked(table, cutoffUs);
      }
      Take(P.Sweep(i, ok));
    }

    /** The drain signal's read and publish. A failure is swallowed. */
    method RefreshDrainSignal(ghost i: nat, ghost deferred: set<EventId>)
      requires Valid() && PassAt(i, P.Draining, deferred)
      modifies `currentEmpty, `st, `trace
      ensures Valid() && PassAt(i, P.Over(true), deferred)
      ensures currentEmpty == old(currentEmpty) || currentEmpty == Some(NoPending(table))
    {
      var ok: bool := *;
      if ok {
        currentEmpty := Some(NoPending(table));
      }
      Take(P.Drain(i, ok));
    }

    /** One POST, and its retry with a fresh token: a list of acks, or a failure that enters the backoff. */
    method PostBatch(ghost i: nat, batch: seq<Row>, ghost deferred: set<EventId>)
      returns (reply: Option<seq<P.Ack>>, ghost retryAfterMs: Option<nat>)
      requires Valid() && PassAt(i, P.Assembled(batch), deferred)
      modifies `now, `batchAttempt, `batchRetryAtMs, `st, `trace
      ensures Valid() && old(now) <= now
      ensures reply.Some? ==> PassAt(i, P.Settling(batch, reply.value, {}, {}, {}), deferred)
      ensures reply.None? ==> PassAt(i, P.Draining, deferred) && batchAttempt == old(batchAttempt) + 1 && BacksOff(retryAfterMs)
    {
      Send(i, batch, deferred);
      reply := *;
      retryAfterMs := None;
      match reply
      case Some(acks) =>
        Take(P.Reply(i, acks));
      case None =>
        var asked: Option<nat> := *;
        retryAfterMs := asked;
        EnterBatchBackoff(i, batch, deferred, asked);
    }

    /** The wait ahead is as long as the server asked for, if it did, and at least half the doubling bound of this attempt; and it
        is no longer than the longer of the two. */
    predicate BacksOff(retryAfterMs: Option<nat>)
      reads this
    {
      var waitMs := batchRetryAtMs - now;
      var bound := Bound(batchAttempt, bounds(None).0, bounds(None).1);
      && bound <= 2 * waitMs && (retryAfterMs.Some? ==> retryAfterMs.value <= waitMs)
      && (waitMs <= bound || retryAfterMs == Some(waitMs))
    }

    /** The POST goes out, and once more where its token was refused. */
    method Send(ghost i: nat, ghost batch: seq<Row>, ghost deferred: set<EventId>)
      requires Valid() && PassAt(i, P.Assembled(batch), deferred)
      modifies `now, `st, `trace
      ensures Valid() && old(now) <= now && PassAt(i, P.Sent(batch), deferred)
    {
      Take(P.Post(i));
      Clock();
      var refreshed: bool := *;
      if refreshed {
        Take(P.Resend(i));
        Clock();
      }
    }

    method EnterBatchBackoff(ghost i: nat, ghost batch: seq<Row>, ghost deferred: set<EventId>, retryAfterMs: Option<nat>)
      requires Valid() && PassAt(i, P.Sent(batch), deferred)
      modifies `batchAttempt, `batchRetryAtMs, `st, `trace
      ensures Valid() && PassAt(i, P.Draining, deferred)
      ensures batchAttempt == old(batchAttempt) + 1 && BacksOff(retryAfterMs)
    {
      batchAttempt := batchAttempt + 1;
      var backoffMs := BatchBackoff(batchAttempt);
      var asked := if retryAfterMs.Some? then retryAfterMs.value else 0;
      batchRetryAtMs := now + if backoffMs < asked then asked else backoffMs;
      BackoffStep(i, batch, deferred, backoffMs, retryAfterMs);
    }

    method BatchBackoff(attempt: nat) returns (backoffMs: nat)
      ensures P.Jittered(backoffMs, Bound(attempt, bounds(None).0, bounds(None).1))
    {
      assert JitterOk(Jitter(0, 1));
      var jitter: Jitter :| JitterOk(jitter);
      backoffMs := ComputeEventBackoffMs(attempt, bounds(None).0, bounds(None).1, jitter);
    }

    /** The step that a failed request comes to. */
    ghost method BackoffStep(i: nat, batch: seq<Row>, deferred: set<EventId>, backoffMs: nat, retryAfterMs: Option<nat>)
      requires Leads(origin, trace, st) && PassAt(i, P.Sent(batch), deferred) && P.Jittered(backoffMs, P.NextBound(st))
      modifies `st, `trace
      ensures Leads(origin, trace, st) && PassAt(i, P.Draining, deferred)
      ensures st == old(st).(passes := st.passes, batchAttempt := old(st).batchAttempt + 1,
                             batchRetryAtMs := old(st).now + P.Longer(backoffMs, retryAfterMs))
    {
      Take(P.PostFails(i, backoffMs, retryAfterMs));
    }

    /** The eligible rows in `seq` order, ranked and capped per stream; the statement may fail. */
    method ReadEligibleRows() returns (ok: bool, rows: seq<Row>)
      requires Valid()
      modifies `now, `st, `trace
      ensures Valid() && old(now) <= now && st == old(st).(now := now)
      ensures rows == SelectRows(table, now * 1000, caps, batchSize)
    {
      Clock();
      ok := *;
      rows := SelectRows(table, now * 1000, caps, batchSize);
    }

    /** One deferral: the row has had an attempt more, and is due again a jittered delay from now. */
    method DeferEvent(ghost i: nat, batch: seq<Row>, row: Row, ack: P.Ack, ghost before: P.Pc, ghost deferred: set<EventId>)
      returns (ok: bool, retryAtUs: int)
      requires Valid() && PassAt(i, before, deferred)
      requires before.Settling? && before.batch == batch && before.todo != [] && before.todo[0] == ack
      requires row in batch && row.eventId == ack.eventId && ack.status.Deferred?
      modifies `table, `now, `st, `trace
      ensures Valid() && old(now) <= now
      ensures !ok ==> PassAt(i, P.Over(false), deferred)
      ensures ok ==>
                && PassAt(i, before.(todo := before.todo[1..], deferred := before.deferred + {ack.eventId}), deferred)
                && table == DeferId(old(table), ack.eventId, row.attemptCount + 1, retryAtUs, ack.reason)
                && forall d: nat | DelaysAtLeast(bounds, d) :: retryAtUs >= (old(now) + d) * 1000
      ensures bounds(Some(row.stream)).0 == 0 ==> retryAtUs == now * 1000
      ensures JitteredFrom(now, retryAtUs, Bound(row.attemptCount + 1, bounds(Some(row.stream)).0, bounds(Some(row.stream)).1))
    {
      Clock();
      var attempt := row.attemptCount + 1;
      var delayMs := DeferralDelay(attempt, row.stream);
      retryAtUs := now * 1000 + delayMs * 1000;
      assert JitteredFrom(now, retryAtUs, Bound(attempt, bounds(Some(row.stream)).0, bounds(Some(row.stream)).1)) by {
        assert retryAtUs == (now + delayMs) * 1000;
      }
      ok := *;
      assert row.eventId in Ids(batch);
      if ok {
        table := DeferId(table, ack.eventId, attempt, retryAtUs, ack.reason);
      }
      Take(P.SettleAck(i, ok, attempt, retryAtUs));
    }

    method DeferralDelay(attempt: nat, stream: string) returns (delayMs: nat)
      ensures P.Jittered(delayMs, Bound(attempt, bounds(Some(stream)).0, bounds(Some(stream)).1))
      ensures bounds(Some(stream)).0 == 0 ==> delayMs == 0
      ensures attempt >= 1 ==> forall d: nat | DelaysAtLeast(bounds, d) :: delayMs >= d
    {
      assert JitterOk(Jitter(0, 1));
      var jitter: Jitter :| JitterOk(jitter);
      delayMs := ComputeEventBackoffMs(attempt, bounds(Some(stream)).0, bounds(Some(stream)).1, jitter);
      ZeroBaseGivesNoDelay(attempt, bounds(Some(stream)).1, jitter);
    }

    /** The delete of the terminal verdicts. */
    method DeleteEvents(ghost i: nat, ghost batch: seq<Row>, deletable: set<EventId>, ghost stampable: set<EventId>,
                        ghost parked: set<EventId>, ghost deferred: set<EventId>)
      returns (ok: bool)
      requires Valid() && PassAt(i, P.Settling(batch, [], deletable, stampable, parked), deferred)
      modifies `table, `st, `trace
      ensures Valid()
      ensures PassAt(i, if ok then P.Stamping(stampable, parked, deletable) else P.Over(false), deferred)
      ensures ok ==> table == DeleteIds(old(table), deletable)
    {
      ok := *;
      if ok {
        table := DeleteIds(table, deletable);
      }
      Take(P.DeleteSettled(i, ok));
    }

    /** The stamp of the retained acks. The batch backoff clears with a settled reply. */
    method StampAcked(ghost i: nat, ghost deletable: set<EventId>, stampable: set<EventId>, ghost parked: set<EventId>,
                      ghost deferred: set<EventId>)
      returns (ok: bool)
      requires Valid() && PassAt(i, P.Stamping(stampable, parked, deletable), deferred)
      modifies `table, `now, `batchAttempt, `batchRetryAtMs, `st, `trace
      ensures Valid() && old(now) <= now
      ensures !ok ==> PassIs(i, P.Over(false))
      ensures ok ==>
                && batchAttempt == 0
                && PassAt(i, if deletable != {} || stampable != {} || parked != {} then P.Reading else P.Draining, deferred + parked)
                && table == StampIds(old(table), stampable, now * 1000)
    {
      Clock();
      ok := StampNow(i, deletable, stampable, parked, deferred);
    }

    method StampNow(ghost i: nat, ghost deletable: set<EventId>, stampable: set<EventId>, ghost parked: set<EventId>,
                    ghost deferred: set<EventId>)
      returns (ok: bool)
      requires Valid() && PassAt(i, P.Stamping(stampable, parked, deletable), deferred)
      modifies `table, `batchAttempt, `batchRetryAtMs, `st, `trace
      ensures Valid()
      ensures !ok ==> PassIs(i, P.Over(false))
      ensures ok ==>
                && batchAttempt == 0
                && PassAt(i, if deletable != {} || stampable != {} || parked != {} then P.Reading else P.Draining, deferred + parked)
                && table == StampIds(old(table), stampable, now * 1000)
    {
      ok := *;
      if ok {
        table := StampIds(table, stampable, now * 1000);
        batchAttempt := 0;
        batchRetryAtMs := 0;
      }
      StampStep(i, ok, deletable, stampable, parked, deferred);
    }

    /** The step that the stamp comes to. */
    ghost method StampStep(i: nat, ok: bool, deletable: set<EventId>, stampable: set<EventId>, parked: set<EventId>,
                           deferred: set<EventId>)
      requires Leads(origin, trace, st) && PassAt(i, P.Stamping(stampable, parked, deletable), deferred)
      modifies `st, `trace
      ensures Leads(origin, trace, st)
      ensures !ok ==> PassAt(i, P.Over(false), deferred) && st == old(st).(passes := st.passes)
      ensures ok ==>
                && PassAt(i, if deletable != {} || stampable != {} || parked != {} then P.Reading else P.Draining, deferred + parked)
                && st == old(st).(passes := st.passes, table := StampIds(old(st).table, stampable, old(st).now * 1000),
                                  settled := st.settled, batchAttempt := 0, batchRetryAtMs := 0)
    {
      Take(P.StampSettled(i, ok));
    }

    /** One ack of a reply. One for an event that was not sent settles nothing. */
    method SettleOne(ghost i: nat, batch: seq<Row>, ack: P.Ack, ghost todo: seq<P.Ack>,
                     deletable: set<EventId>, stampable: set<EventId>, parked: set<EventId>,
                     ghost deferred: set<EventId>, ghost dueMs: int)
      returns (ok: bool, deletable': set<EventId>, stampable': set<EventId>, parked': set<EventId>)
      requires Valid() && PassAt(i, P.Settling(batch, [ack] + todo, deletable, stampable, parked), deferred)
      requires Parked(table, deferred + parked, dueMs * 1000)
      requires exists d: nat :: DelaysAtLeast(bounds, d) && dueMs <= now + d
      modifies `table, `now, `st, `trace
      ensures Valid() && old(now) <= now
      ensures !ok ==> PassAt(i, P.Over(false), deferred)
      ensures ok ==>
                && PassAt(i, P.Settling(batch, todo, deletable', stampable', parked'), deferred)
                && deletable' + stampable' + parked' ==
                     deletable + stampable + parked + (if ack.eventId in Ids(batch) then {ack.eventId} else {})
                && PendingIds(table) == PendingIds(old(table))
                && Parked(table, deferred + parked', dueMs * 1000)
                && parked <= parked' && (parked' == {} ==> table == old(table))
    {
      ok, deletable', stampable', parked' := true, deletable, stampable, parked;
      if ack.eventId in Ids(batch) && ack.status.Deferred? {
        ok := ParkOne(i, batch, ack, todo, deletable, stampable, parked, deferred, dueMs);
        parked' := parked + {ack.eventId};
        return;
      }
      if ack.eventId in Ids(batch) {
        if ack.status.Acked? && retentionMs > 0 {
          stampable' := stampable + {ack.eventId};
        } else {
          deletable' := deletable + {ack.eventId};
        }
      }
      AckStep(i, batch, ack, todo, deletable, stampable, parked, deferred);
    }

    /** The step that an ack of another kind comes to. */
    ghost method AckStep(i: nat, batch: seq<Row>, ack: P.Ack, todo: seq<P.Ack>, deletable: set<EventId>, stampable: set<EventId>,
                         parked: set<EventId>, deferred: set<EventId>)
      requires Leads(origin, trace, st) && PassAt(i, P.Settling(batch, [ack] + todo, deletable, stampable, parked), deferred)
      requires ack.eventId in Ids(batch) ==> !ack.status.Deferred?
      modifies `st, `trace
      ensures Leads(origin, trace, st) && st == old(st).(passes := st.passes)
      ensures var sent, stamps := ack.eventId in Ids(batch), ack.status.Acked? && st.retentionMs > 0;
              PassAt(i, P.Settling(batch, todo, if sent && !stamps then deletable + {ack.eventId} else deletable,
                                   if sent && stamps then stampable + {ack.eventId} else stampable, parked), deferred)
    {
      assert ([ack] + todo)[1..] == todo;
      Take(P.SettleAck(i, true, 0, 0));
    }

    /** A deferral of an event that was sent: it is written at once. */
    method ParkOne(ghost i: nat, batch: seq<Row>, ack: P.Ack, ghost todo: seq<P.Ack>,
                   ghost deletable: set<EventId>, ghost stampable: set<EventId>, ghost parked: set<EventId>,
                   ghost deferred: set<EventId>, ghost dueMs: int)
      returns (ok: bool)
      requires Valid() && PassAt(i, P.Settling(batch, [ack] + todo, deletable, stampable, parked), deferred)
      requires ack.eventId in Ids(batch) && ack.status.Deferred?
      requires Parked(table, deferred + parked, dueMs * 1000)
      requires exists d: nat :: DelaysAtLeast(bounds, d) && dueMs <= now + d
      modifies `table, `now, `st, `trace
      ensures Valid() && old(now) <= now
      ensures !ok ==> PassAt(i, P.Over(false), deferred)
      ensures ok ==>
                && PassAt(i, P.Settling(batch, todo, deletable, stampable, parked + {ack.eventId}), deferred)
                && PendingIds(table) == PendingIds(old(table))
                && Parked(table, deferred + (parked + {ack.eventId}), dueMs * 1000)
    {
      ghost var before := P.Settling(batch, [ack] + todo, deletable, stampable, parked);
      assert before.todo[1..] == todo;
      var row :| row in batch && row.eventId == ack.eventId;
      ghost var was := table;
      var retryAtUs;
      ok, retryAtUs := DeferEvent(i, batch, row, ack, before, deferred);
      if ok {
        DeferKeepsPending(was, ack.eventId, row.attemptCount + 1, retryAtUs, ack.reason, deferred + parked, dueMs * 1000);
        assert deferred + (parked + {ack.eventId}) == deferred + parked + {ack.eventId};
      }
    }

    /** A reply's verdicts, one ack after another: a deferral is written at once, the others are collected. */
    method CollectVerdicts(ghost i: nat, batch: seq<Row>, acks: seq<P.Ack>, ghost deferred: set<EventId>, ghost dueMs: int)
      returns (ok: bool, deletable: set<EventId>, stampable: set<EventId>, parked: set<EventId>)
      requires Valid() && PassAt(i, P.Settling(batch, acks, {}, {}, {}), deferred)
      requires Parked(table, deferred, dueMs * 1000)
      requires exists d: nat :: DelaysAtLeast(bounds, d) && dueMs <= now + d
      modifies `table, `now, `st, `trace
      ensures Valid() && old(now) <= now
      ensures !ok ==> PassIs(i, P.Over(false))
      ensures ok ==>
                && PassAt(i, P.Settling(batch, [], deletable, stampable, parked), deferred)
                && deletable + stampable + parked == SentIds(acks, batch)
                && PendingIds(table) == PendingIds(old(table))
                && Parked(table, deferred + parked, dueMs * 1000)
                && (parked == {} ==> table == old(table))
    {
      ghost var d: nat :| DelaysAtLeast(bounds, d) && dueMs <= now + d;
      ok, deletable, stampable, parked := true, {}, {}, {};
      for k := 0 to |acks|
        invariant ok && Valid() && old(now) <= now
        invariant PassAt(i, P.Settling(batch, acks[k..], deletable, stampable, parked), deferred)
        invariant deletable + stampable + parked == SentIds(acks[..k], batch)
        invariant PendingIds(table) == PendingIds(old(table)) && (parked == {} ==> table == old(table))
        invariant Parked(table, deferred + parked, dueMs * 1000)
      {
        HeadAndRest(acks, k);
        SentIdsNext(acks, k, batch);
        ok, deletable, stampable, parked := SettleOne(i, batch, acks[k], acks[k + 1..], deletable, stampable, parked, deferred, dueMs);
        if !ok {
          return;
        }
      }
      assert acks[|acks|..] == [] && acks[..|acks|] == acks;
    }

    /** Apply a reply's verdicts, then retire what they settled. */
    method SettleAcks(ghost i: nat, batch: seq<Row>, acks: seq<P.Ack>, ghost deferred: set<EventId>, ghost dueMs: int)
      returns (ok: bool, settledAny: bool, parked: set<EventId>)
      requires Valid() && PassAt(i, P.Settling(batch, acks, {}, {}, {}), deferred)
      requires Parked(table, deferred, dueMs * 1000)
      requires exists d: nat :: DelaysAtLeast(bounds, d) && dueMs <= now + d
      requires Ids(batch) <= Left(table, deferred)
      modifies `table, `now, `batchAttempt, `batchRetryAtMs, `st, `trace
      ensures Valid() && old(now) <= now
      ensures !ok ==> PassIs(i, P.Over(false))
      ensures ok ==>
                && batchAttempt == 0
                && PassAt(i, if settledAny then P.Reading else P.Draining, deferred + parked)
                && Parked(table, deferred + parked, dueMs * 1000)
                && (settledAny ==> Left(table, deferred + parked) < Left(old(table), deferred))
                && (batch != [] && Answers(acks, batch) ==> settledAny)
                && (!settledAny ==> forall r | r in old(table) :: r in table)
    {
      var deletable, stampable;
      settledAny := false;
      ok, deletable, stampable, parked := CollectVerdicts(i, batch, acks, deferred, dueMs);
      if !ok {
        return;
      }
      ghost var before := table;
      ok := DeleteEvents(i, batch, deletable, stampable, parked, deferred);
      if !ok {
        return;
      }
      ok := StampAcked(i, deletable, stampable, parked, deferred);
      if ok {
        settledAny := deletable != {} || stampable != {} || parked != {};
        NothingRetired(before, now * 1000);
        SettlingShrinks(before, batch, acks, deletable, stampable, now * 1000, deferred, parked, dueMs * 1000);
      }
    }

    /** What the next request carries: the eligible rows not deferred in this pass, cut to the batch. */
    method ReadBatch(ghost i: nat, deferred: set<EventId>) returns (ok: bool, batch: seq<Row>)
      requires Valid() && PassAt(i, P.Reading, deferred)
      modifies `now, `st, `trace
      ensures Valid() && old(now) <= now
      ensures !ok ==> PassAt(i, P.Over(false), deferred)
      ensures ok && batch == [] ==>
                && PassAt(i, P.Draining, deferred)
                && forall r | r in SelectRows(table, now * 1000, caps, batchSize) :: r.eventId in deferred
      ensures ok && batch != [] ==> PassAt(i, P.Assembled(batch), deferred) && Ids(batch) <= Left(table, deferred)
      ensures ok ==> forall r | r in batch :: r in table && Eligible(r, now * 1000)
      ensures ok ==> RidesLongest(batch, NotDeferred(SelectRows(table, now * 1000, caps, batchSize), deferred), bytes)
    {
      var selected;
      ok, selected := ReadEligibleRows();
      batch := [];
      if ok {
        batch := Assemble(deferred, selected, table, now * 1000);
        SelectedAreEligible(table, now * 1000, caps, batchSize);
        BatchIsLeft(table, now * 1000, batch, deferred);
      }
      HandOver(i, ok, batch, deferred);
    }

    /** The step that a read comes to. */
    ghost method HandOver(i: nat, ok: bool, batch: seq<Row>, deferred: set<EventId>)
      requires Valid() && PassAt(i, P.Reading, deferred)
      requires forall r | r in batch :: r in table && Eligible(r, now * 1000) && r.eventId !in deferred
      modifies `st, `trace
      ensures Valid()
      ensures PassAt(i, if !ok then P.Over(false) else if batch == [] then P.Draining else P.Assembled(batch), deferred)
    {
      Take(if !ok then P.ReadFails(i) else if batch == [] then P.ReadNothing(i) else P.Read(i, batch));
    }

    /** The selected rows not deferred in this pass, cut to the longest request the byte cap allows. */
    method Assemble(deferred: set<EventId>, selected: seq<Row>, ghost t: Table, ghost nowUs: int) returns (batch: seq<Row>)
      requires batchSize >= 1 && selected == SelectRows(t, nowUs, caps, batchSize)
      ensures forall r | r in batch :: r in selected && r.eventId !in deferred
      ensures batch == [] ==> forall r | r in selected :: r.eventId in deferred
      ensures RidesLongest(batch, NotDeferred(selected, deferred), bytes)
    {
      QueryIsWithin(EligibleRows(t, nowUs), caps, batchSize, (r: Row) => r.eventId !in deferred);
      var rows := NotDeferred(selected, deferred);
      batch := [];
      if |rows| > 0 {
        var requestBytes, clampedByBytes;
        batch, requestBytes, clampedByBytes := AssembleBatch(rows, caps, batchSize, bytes);
      }
    }

    /** One slice: read what is eligible, send what fits, settle what comes back. `answered` is false when the
        server left some envelope of it without a verdict. */
    method Slice(ghost i: nat, deferred: set<EventId>, ghost dueMs: int)
      returns (end: SliceEnd, deferred': set<EventId>, ghost answered: bool)
      requires Valid() && PassAt(i, P.Reading, deferred)
      requires Parked(table, deferred, dueMs * 1000)
      requires exists d: nat :: DelaysAtLeast(bounds, d) && dueMs <= now + d
      modifies `table, `now, `batchAttempt, `batchRetryAtMs, `st, `trace
      ensures Valid() && old(now) <= now
      ensures end.More? ==>
                && PassAt(i, P.Reading, deferred') && Parked(table, deferred', dueMs * 1000)
                && Left(table, deferred') < Left(old(table), deferred)
      ensures end.Empty? ==>
                && answered && table == old(table) && deferred' == deferred
                && forall r | r in SelectRows(table, now * 1000, caps, batchSize) :: r.eventId in deferred
      ensures end.NothingSettled? ==> !answered
      ensures end.NothingSettled? || end.PostFailed? ==> EligibleRows(table, now * 1000) != []
      ensures !end.Held? && (end.Empty? || end.NothingSettled? || end.PostFailed? ==> PassAt(i, P.Draining, deferred'))
      ensures end.Threw? ==> PassIs(i, P.Over(false))
    {
      var ok, batch := ReadBatch(i, deferred);
      if !ok || |batch| == 0 {
        assert PassAt(i, if ok then P.Draining else P.Over(false), deferred);
        return if ok then Empty else Threw, deferred, true;
      }
      ghost var read, readMs := table, now;
      var reply, _ := PostBatch(i, batch, deferred);
      if reply.None? {
        StaysEligible(read, table, batch[0], readMs * 1000, now * 1000);
        assert PassAt(i, P.Draining, deferred);
        return PostFailed, deferred, true;
      }
      answered := Answers(reply.value, batch);
      var settledAny, parked;
      ok, settledAny, parked := SettleAcks(i, batch, reply.value, deferred, dueMs);
      deferred' := deferred + parked;
      end := if !ok then Threw else if settledAny then More else NothingSettled;
      if end.NothingSettled? { StaysEligible(read, table, batch[0], readMs * 1000, now * 1000); }
      assert end.NothingSettled? ==> PassAt(i, P.Draining, deferred');
    }

    /** The backoff gate. */
    method PassGate(ghost i: nat) returns (open: bool)
      requires Valid() && PassAt(i, P.Gate, {})
      modifies `now, `st, `trace
      ensures Valid() && old(now) <= now
      ensures open <==> batchAttempt == 0 || now >= batchRetryAtMs
      ensures PassAt(i, if open then P.Reading else P.Over(true), {})
    {
      Clock();
      open := batchAttempt == 0 || now >= batchRetryAtMs;
      Take(P.PassGate(i));
    }

    /** What a pass past its gate leaves, `deferred` being the events it deferred: nothing eligible, exactly when it
        ended on a read that gave only rows it had deferred, and none of those is due again. */
    ghost predicate Drained(end: SliceEnd, deferred: set<EventId>)
      reads this
    {
      && (end.Empty? ==> forall r | r in SelectRows(table, now * 1000, caps, batchSize) :: r.eventId in deferred)
      && (EligibleRows(table, now * 1000) == [] <==>
            end.Empty? && forall r | r in table && r.eventId in deferred :: !Eligible(r, now * 1000))
    }

    /** What the machine has of the last pass: it is over, and these are the events it deferred. */
    ghost predicate LastPass(ok: bool, deferred: set<EventId>)
      reads this
    {
      st.passes != [] && st.passes[|st.passes| - 1] == P.Pass(P.Over(ok), deferred)
    }

    /** Slice after slice, until a read gives nothing to send. It ends whatever the server answers, since every slice that
        goes on leaves fewer pending events undeferred. `served` says that every statement and every request went
        through and no envelope went unanswered; then nothing is left eligible unless the clock ran so far meanwhile
        that a row deferred here, by `d` milliseconds at least, came due again. */
    method DrainSlices(ghost i: nat, ghost d: nat)
      returns (ok: bool, ghost served: bool, ghost last: SliceEnd, ghost deferred: set<EventId>)
      requires Valid() && PassAt(i, P.Reading, {}) && DelaysAtLeast(bounds, d)
      modifies `table, `now, `batchAttempt, `batchRetryAtMs, `st, `trace
      ensures Valid() && old(now) <= now
      ensures if ok then PassAt(i, P.Draining, deferred) else PassIs(i, P.Over(false))
      ensures !last.Held? && (ok <==> !last.Threw?) && (ok ==> Drained(last, deferred))
      ensures served ==> last.Empty?
      ensures served && now < old(now) + d ==> EligibleRows(table, now * 1000) == []
    {
      ghost var dueMs := now + d;
      var deferredThisPass: set<EventId> := {};
      var end := More;
      ghost var answeredAll := true;
      while end.More?
        invariant Valid() && old(now) <= now && !end.Held?
        invariant end.More? ==> PassAt(i, P.Reading, deferredThisPass) && Parked(table, deferredThisPass, dueMs * 1000)
        invariant !end.More? && !end.Threw? ==> Drained(end, deferredThisPass)
        invariant end.Empty? && answeredAll && now < dueMs ==> EligibleRows(table, now * 1000) == []
        invariant end.Threw? ==> PassIs(i, P.Over(false))
        invariant !end.More? && !end.Threw? ==> PassAt(i, P.Draining, deferredThisPass)
        decreases end.More?, Left(table, deferredThisPass)
      {
        ghost var answered;
        ghost var before := deferredThisPass;
        end, deferredThisPass, answered := Slice(i, deferredThisPass, dueMs);
        answeredAll := answeredAll && answered;
        if end.Empty? {
          DrainedExactly(table, now * 1000, caps, batchSize, before);
          if now < dueMs { NothingEligible(table, now * 1000, caps, batchSize, before, dueMs * 1000); }
        }
      }
      ok := !end.Threw?;
      served := end.Empty? && answeredAll;
      last, deferred := end, deferredThisPass;
    }

    /** A pass past its gate: the slices, and the drain signal where they did not throw. */
    method DrainAndPublish(ghost i: nat, ghost d: nat)
      returns (ok: bool, ghost served: bool, ghost last: SliceEnd, ghost deferred: set<EventId>)
      requires Valid() && PassAt(i, P.Reading, {}) && DelaysAtLeast(bounds, d)
      modifies `table, `now, `batchAttempt, `batchRetryAtMs, `currentEmpty, `st, `trace
      ensures Valid() && old(now) <= now && !last.Held?
      ensures PassIs(i, P.Over(ok)) && (ok ==> PassAt(i, P.Over(true), deferred) && Drained(last, deferred))
      ensures served ==> ok && last.Empty?
      ensures served && now < old(now) + d ==> EligibleRows(table, now * 1000) == []
    {
      ok, served, last, deferred := DrainSlices(i, d);
      if ok {
        RefreshDrainSignal(i, deferred);
      }
    }

    /** A pass up to its gate. */
    method SweepAndGate(ghost i: nat) returns (open: bool)
      requires Valid() && PassAt(i, if retentionMs > 0 then P.Sweeping else P.Gate, {})
      modifies `table, `now, `st, `trace
      ensures Valid() && old(now) <= now
      ensures open <==> batchAttempt == 0 || now >= batchRetryAtMs
      ensures PassAt(i, if open then P.Reading else P.Over(true), {})
    {
      if retentionMs > 0 {
        var swept := SweepAckedLedger(i);
      }
      open := PassGate(i);
    }

    /** A flush pass: the sweep of a retaining lane, the backoff gate, and what comes past it. */
    method RunFlush(ghost i: nat, ghost d: nat)
      returns (ok: bool, ghost served: bool, ghost last: SliceEnd, ghost deferred: set<EventId>, ghost startMs: int)
      requires Valid() && PassAt(i, if retentionMs > 0 then P.Sweeping else P.Gate, {})
      requires DelaysAtLeast(bounds, d)
      modifies `table, `now, `batchAttempt, `batchRetryAtMs, `currentEmpty, `st, `trace
      ensures Valid() && Idle()
      ensures old(now) <= startMs <= now
      ensures ok ==> LastPass(true, deferred) && (!last.Held? ==> Drained(last, deferred))
      ensures last.Held? ==> ok && batchAttempt > 0 && now < batchRetryAtMs
      ensures served ==> ok && last.Empty?
      ensures served && now < startMs + d ==> EligibleRows(table, now * 1000) == []
    {
      var open := SweepAndGate(i);
      startMs := now;
      ok, served, last, deferred := PastGate(i, d, open);
    }

    /** What comes past the gate, where it is open. */
    method PastGate(ghost i: nat, ghost d: nat, open: bool)
      returns (ok: bool, ghost served: bool, ghost last: SliceEnd, ghost deferred: set<EventId>)
      requires Valid() && PassAt(i, if open then P.Reading else P.Over(true), {}) && DelaysAtLeast(bounds, d)
      requires !open ==> batchAttempt > 0 && now < batchRetryAtMs
      modifies `table, `now, `batchAttempt, `batchRetryAtMs, `currentEmpty, `st, `trace
      ensures Valid() && Idle() && old(now) <= now
      ensures ok ==> LastPass(true, deferred) && (!last.Held? ==> Drained(last, deferred))
      ensures last.Held? ==> ok && batchAttempt > 0 && now < batchRetryAtMs
      ensures served ==> ok && last.Empty?
      ensures served && now < old(now) + d ==> EligibleRows(table, now * 1000) == []
    {
      if open {
        ok, served, last, deferred := DrainAndPublish(i, d);
      } else {
        ok, served, last, deferred := true, false, Held, {};
      }
    }

    /** `flush`: the call joins the chain and its pass runs once the calls before it have settled. */
    method Flush(ghost d: nat)
      returns (ok: bool, ghost served: bool, ghost last: SliceEnd, ghost deferred: set<EventId>, ghost startMs: int)
      requires Valid() && DelaysAtLeast(bounds, d)
      requires Idle()
      modifies `table, `now, `batchAttempt, `batchRetryAtMs, `currentEmpty, `st, `trace
      ensures Valid()
      ensures Idle()
      ensures old(now) <= startMs <= now
      ensures ok ==> LastPass(true, deferred) && (!last.Held? ==> Drained(last, deferred))
      ensures last.Held? ==> ok && batchAttempt > 0 && now < batchRetryAtMs
      ensures served ==> ok && last.Empty?
      ensures served && now < startMs + d ==> EligibleRows(table, now * 1000) == []
    {
      ghost var i := |st.passes|;
      Take(P.Call);
      Take(P.Start(i));
      assert PassAt(i, if retentionMs > 0 then P.Sweeping else P.Gate, {});
      ok, served, last, deferred, startMs := RunFlush(i, d);
    }
  }
}

/** The Event lane as a state machine whose steps are single statements, requests and replies, so that appends,
    flush calls, the boot probe, failures and crashes may fall between any two of them. */
module EventLaneProtocol {
  import opened Options
  import opened Outbox
  import Backoff = EventBackoff

  datatype Status = Acked | Refused | Rejected | Deferred

  datatype Ack = Ack(eventId: EventId, status: Status, reason: Option<string>)

  /** Where a `flush` call is. Calls sit on one promise chain: each waits for the one before it to settle. */
  datatype Pc =
    | Waiting
    | Sweeping
    | Gate
    | Reading
    | Assembled(batch: seq<Row>)
    | Sent(batch: seq<Row>)
    | Settling(batch: seq<Row>, todo: seq<Ack>, deletable: set<EventId>, stampable: set<EventId>, deferred: set<EventId>)
    | Stamping(toStamp: set<EventId>, parked: set<EventId>, deleted: set<EventId>)
    | Draining
    | Over(ok: bool)

  datatype Pass = Pass(pc: Pc, deferredThisPass: set<EventId>)

  /** The construction-time sweep and drain probe. */
  datatype Boot = SweepDue | ProbeDue | Probed

  datatype State = State(
    // durable
    table: Table,
    nextOrdinal: nat,
    // the clock, in milliseconds, and this runtime's retention and batch-level bounds
    now: int,
    retentionMs: nat,
    batchBounds: (nat, nat),
    // volatile
    batchAttempt: nat,
    batchRetryAtMs: int,
    currentEmpty: Option<bool>,
    passes: seq<Pass>,
    boot: Boot,
    inserting: set<EventId>,
    // history: appends staged and resolved, verdicts the server gave on events it was sent, verdicts settled
    appended: set<EventId>,
    resolved: set<EventId>,
    verdicts: set<(EventId, Status)>,
    settled: set<EventId>)

  datatype Step =
    | AppendInsert(row: Row)
    | AppendResolve(id: EventId)
    | AppendReject(id: EventId)
    | Call
    | Start(i: nat)
    | Sweep(i: nat, ok: bool)
    | PassGate(i: nat)
    | Read(i: nat, batch: seq<Row>)
    | ReadNothing(i: nat)
    | ReadFails(i: nat)
    | Post(i: nat)
    | Resend(i: nat)
    | Reply(i: nat, acks: seq<Ack>)
    | PostFails(i: nat, backoffMs: nat, retryAfterMs: Option<nat>)
    | SettleAck(i: nat, ok: bool, attempt: nat, retryAtUs: int)
    | DeleteSettled(i: nat, ok: bool)
    | StampSettled(i: nat, ok: bool)
    | Drain(i: nat, ok: bool)
    | BootSweep(ok: bool)
    | BootProbe(ok: bool)
    | Tick(ms: nat)
    | Crash(retentionMs: nat, batchBounds: (nat, nat))

  function NowUs(s: State): int {
    s.now * 1000
  }

  function CutoffUs(s: State): int {
    NowUs(s) - s.retentionMs * 1000
  }

  predicate PcIs(s: State, i: nat, p: Pc -> bool) {
    i < |s.passes| && p(s.passes[i].pc)
  }

  /** The doubling bound of the next failed batch in a row. */
  function NextBound(s: State): nat {
    Backoff.Bound(s.batchAttempt + 1, s.batchBounds.0, s.batchBounds.1)
  }

  /** Between half the bound and the bound. */
  predicate Jittered(delayMs: nat, bound: nat) {
    bound <= 2 * delayMs && delayMs <= bound
  }

  predicate Enabled(s: State, step: Step) {
    match step
    case AppendInsert(row) =>
      && row.eventId !in s.appended && row.ordinal >= s.nextOrdinal
      && row.ackedAtUs.None? && row.nextRetryAtUs.None? && row.attemptCount == 0
    case AppendResolve(id) => id in s.inserting
    case AppendReject(id) => id in s.inserting
    case Call => true
    case Start(i) => PcIs(s, i, (pc: Pc) => pc.Waiting?) && (i > 0 ==> s.passes[i - 1].pc.Over?)
    case Sweep(i, _) => PcIs(s, i, (pc: Pc) => pc.Sweeping?)
    case PassGate(i) => PcIs(s, i, (pc: Pc) => pc.Gate?)
    case Read(i, batch) =>
      && PcIs(s, i, (pc: Pc) => pc.Reading?) && batch != []
      && forall r | r in batch :: r in s.table && Eligible(r, NowUs(s)) && r.eventId !in s.passes[i].deferredThisPass
    case ReadNothing(i) => PcIs(s, i, (pc: Pc) => pc.Reading?)
    case ReadFails(i) => PcIs(s, i, (pc: Pc) => pc.Reading?)
    case Post(i) => PcIs(s, i, (pc: Pc) => pc.Assembled?)
    case Resend(i) => PcIs(s, i, (pc: Pc) => pc.Sent?)
    case Reply(i, _) => PcIs(s, i, (pc: Pc) => pc.Sent?)
    case PostFails(i, backoffMs, _) => PcIs(s, i, (pc: Pc) => pc.Assembled? || pc.Sent?) && Jittered(backoffMs, NextBound(s))
    case SettleAck(i, _, _, _) => PcIs(s, i, (pc: Pc) => pc.Settling? && pc.todo != [])
    case DeleteSettled(i, _) => PcIs(s, i, (pc: Pc) => pc.Settling? && pc.todo == [])
    case StampSettled(i, _) => PcIs(s, i, (pc: Pc) => pc.Stamping?)
    case Drain(i, _) => PcIs(s, i, (pc: Pc) => pc.Draining?)
    case BootSweep(_) => s.boot.SweepDue?
    case BootProbe(_) => s.boot.ProbeDue?
    case Tick(_) => true
    case Crash(_, _) => true
  }

  function At(s: State, i: nat, pc: Pc): State
    requires i < |s.passes|
  {
    s.(passes := s.passes[i := s.passes[i].(pc := pc)])
  }

  function Swept(s: State, ok: bool): State {
    if ok then s.(table := SweepAcked(s.table, CutoffUs(s))) else s
  }

  function Published(s: State, ok: bool): State {
    if ok then s.(currentEmpty := Some(NoPending(s.table))) else s
  }

  function Longer(backoffMs: nat, retryAfterMs: Option<nat>): nat {
    var r := if retryAfterMs.Some? then retryAfterMs.value else 0;
    if backoffMs < r then r else backoffMs
  }

  /** One ack: a deferral is written at once, the other verdicts are collected. */
  function Settled(s: State, i: nat, ok: bool, attempt: nat, retryAtUs: int): State
    requires PcIs(s, i, (pc: Pc) => pc.Settling? && pc.todo != [])
  {
    var pc := s.passes[i].pc;
    var ack, rest := pc.todo[0], pc.(todo := pc.todo[1..]);
    var id := ack.eventId;
    if id !in Ids(pc.batch) then At(s, i, rest)
    else
      match ack.status
      case Deferred =>
        if !ok then At(s, i, Over(false))
        else At(s.(table := DeferId(s.table, id, attempt, retryAtUs, ack.reason)), i, rest.(deferred := pc.deferred + {id}))
      case Acked =>
        if s.retentionMs > 0 then At(s, i, rest.(stampable := pc.stampable + {id}))
        else At(s, i, rest.(deletable := pc.deletable + {id}))
      case _ => At(s, i, rest.(deletable := pc.deletable + {id}))
  }

  function Apply(s: State, step: Step): State
    requires Enabled(s, step)
  {
    match step
    case AppendInsert(row) =>
      s.(table := s.table + [row], nextOrdinal := row.ordinal + 1,
         appended := s.appended + {row.eventId}, inserting := s.inserting + {row.eventId})
    case AppendResolve(id) =>
      s.(inserting := s.inserting - {id}, resolved := s.resolved + {id}, currentEmpty := Some(false))
    case AppendReject(id) => s.(inserting := s.inserting - {id}, currentEmpty := Some(false))
    case Call => s.(passes := s.passes + [Pass(Waiting, {})])
    case Start(i) => At(s, i, if s.retentionMs > 0 then Sweeping else Gate)
    case Sweep(i, ok) => At(Swept(s, ok), i, Gate)
    case PassGate(i) => At(s, i, if s.batchAttempt > 0 && s.now < s.batchRetryAtMs then Over(true) else Reading)
    case Read(i, batch) => At(s, i, Assembled(batch))
    case ReadNothing(i) => At(s, i, Draining)
    case ReadFails(i) => At(s, i, Over(false))
    case Post(i) => At(s, i, Sent(s.passes[i].pc.batch))
    case Resend(i) => s
    case Reply(i, acks) =>
      var batch := s.passes[i].pc.batch;
      At(s.(verdicts := s.verdicts + set a | a in acks && a.eventId in Ids(batch) :: (a.eventId, a.status)),
         i, Settling(batch, acks, {}, {}, {}))
    case PostFails(i, backoffMs, retryAfterMs) =>
      At(s.(batchAttempt := s.batchAttempt + 1, batchRetryAtMs := s.now + Longer(backoffMs, retryAfterMs)), i, Draining)
    case SettleAck(i, ok, attempt, retryAtUs) => Settled(s, i, ok, attempt, retryAtUs)
    case DeleteSettled(i, ok) =>
      var pc := s.passes[i].pc;
      if !ok then At(s, i, Over(false))
      else At(s.(table := DeleteIds(s.table, pc.deletable), settled := s.settled + pc.deletable),
              i, Stamping(pc.stampable, pc.deferred, pc.deletable))
    case StampSettled(i, ok) =>
      var pc := s.passes[i].pc;
      if !ok then At(s, i, Over(false))
      else
        var again := pc.deleted != {} || pc.toStamp != {} || pc.parked != {};
        var next := Pass(if again then Reading else Draining, s.passes[i].deferredThisPass + pc.parked);
        s.(table := StampIds(s.table, pc.toStamp, NowUs(s)), settled := s.settled + pc.toStamp,
           batchAttempt := 0, batchRetryAtMs := 0, passes := s.passes[i := next])
    case Drain(i, ok) => At(Published(s, ok), i, Over(true))
    case BootSweep(ok) => Swept(s, ok).(boot := ProbeDue)
    case BootProbe(ok) => Published(s, ok).(boot := Probed)
    case Tick(ms) => s.(now := s.now + ms)
    case Crash(retentionMs, batchBounds) =>
      s.(retentionMs := retentionMs, batchBounds := batchBounds, batchAttempt := 0, batchRetryAtMs := 0, currentEmpty := None,
         passes := [], boot := SweepDue, inserting := {})
  }

  ghost predicate Init(s: State) {
    && s.table == [] && s.batchAttempt == 0 && s.currentEmpty.None? && s.passes == [] && s.boot.SweepDue?
    && s.inserting == {} && s.appended == {} && s.resolved == {} && s.verdicts == {} && s.settled == {}
  }

  ghost predicate TakesSteps(run: seq<State>, steps: seq<Step>) {
    |run| == |steps| + 1 && forall i | 0 <= i < |steps| :: Enabled(run[i], steps[i]) && run[i + 1] == Apply(run[i], steps[i])
  }

  /** `run` is a run of the machine that takes the steps `steps`. */
  ghost predicate IsRun(run: seq<State>, steps: seq<Step>) {
    TakesSteps(run, steps) && Init(run[0])
  }

  /** A run from any state in order. */
  ghost predicate IsSegment(run: seq<State>, steps: seq<Step>) {
    TakesSteps(run, steps) && Inv(run[0])
  }

  // ---- The invariant ----

  /** A verdict that lets the lane retire the event. */
  ghost predicate Terminal(verdicts: set<(EventId, Status)>, e: EventId) {
    (e, Acked) in verdicts || (e, Refused) in verdicts || (e, Rejected) in verdicts
  }

  /** A verdict on which the lane deletes outright under this retention. */
  ghost predicate Deletable(s: State, e: EventId) {
    (e, Refused) in s.verdicts || (e, Rejected) in s.verdicts || ((e, Acked) in s.verdicts && s.retentionMs == 0)
  }

  ghost predicate TableInv(s: State) {
    && TableOk(s.table)
    && forall r | r in s.table ::
         && r.eventId in s.appended && r.ordinal < s.nextOrdinal
         && (r.eventId in s.settled <==> !Pending(r))
         && (!Pending(r) ==> (r.eventId, Acked) in s.verdicts)
  }

  ghost predicate HistoryInv(s: State) {
    && (forall e | e in s.appended :: e in Ids(s.table) || e in s.settled)
    && (forall e | e in s.settled :: Terminal(s.verdicts, e))
    && s.inserting <= s.appended && s.resolved <= s.appended && s.settled <= s.appended && s.inserting !! s.resolved
  }

  /** Passes run one at a time, in call order. */
  ghost predicate ChainInv(s: State) {
    forall i, j | 0 <= i < j < |s.passes| :: !s.passes[j].pc.Waiting? ==> s.passes[i].pc.Over?
  }

  /** What an active pass may rely on. */
  ghost predicate PassInv(s: State, pc: Pc) {
    match pc
    case Reading => GateOpen(s)
    case Assembled(batch) => GateOpen(s) && Unsettled(s, batch)
    case Sent(batch) => GateOpen(s) && Unsettled(s, batch)
    case Settling(batch, todo, deletable, stampable, deferred) =>
      && Unsettled(s, batch)
      && deletable <= Ids(batch) && stampable <= Ids(batch)
      && (forall a | a in todo && a.eventId in Ids(batch) :: (a.eventId, a.status) in s.verdicts)
      && (forall e | e in deletable :: Deletable(s, e))
      && (forall e | e in stampable :: (e, Acked) in s.verdicts)
    case Stamping(toStamp, parked, deleted) =>
      forall e | e in toStamp :: (e, Acked) in s.verdicts && e in s.appended && (e in s.settled ==> e !in Ids(s.table))
    case _ => true
  }

  /** Appended events none of whose verdicts has been settled yet. */
  ghost predicate Unsettled(s: State, batch: seq<Row>) {
    forall r | r in batch :: r.eventId in s.appended && r.eventId !in s.settled
  }

  ghost predicate GateOpen(s: State) {
    s.batchAttempt == 0 || s.now >= s.batchRetryAtMs
  }

  ghost predicate SignalInv(s: State) {
    s.currentEmpty == Some(true) ==> forall r | r in s.table && Pending(r) :: r.eventId in s.inserting
  }

  ghost predicate Inv(s: State) {
    && TableInv(s) && HistoryInv(s) && ChainInv(s) && SignalInv(s)
    && forall i | 0 <= i < |s.passes| :: PassInv(s, s.passes[i].pc)
  }

  // ---- Every step keeps it ----

  predicate Active(pc: Pc) {
    !pc.Waiting? && !pc.Over?
  }

  /** While a pass is active the others wait or are over. */
  lemma OthersRest(s: State, i: nat, j: nat)
    requires ChainInv(s) && i < |s.passes| && j < |s.passes| && i != j && Active(s.passes[i].pc)
    ensures !Active(s.passes[j].pc)
  {
  }

  /** A step of pass `i` that leaves the tables and the history in order. */
  lemma PassStepKeepsInv(s: State, i: nat, p: Pass, s': State)
    requires Inv(s) && i < |s.passes| && Active(s.passes[i].pc)
    requires s'.passes == s.passes[i := p] && !p.pc.Waiting? && PassInv(s', p.pc)
    requires TableInv(s') && HistoryInv(s') && SignalInv(s')
    ensures Inv(s')
  {
    forall j | 0 <= j < |s'.passes| ensures PassInv(s', s'.passes[j].pc) {
      if j != i { OthersRest(s, i, j); }
    }
  }

  /** A step that leaves the passes and what they rely on alone. */
  ghost predicate SameForPasses(s: State, s': State) {
    && s'.passes == s.passes && s'.batchAttempt == s.batchAttempt && s'.batchRetryAtMs == s.batchRetryAtMs
    && s'.now >= s.now && s.appended <= s'.appended && s'.settled == s.settled
    && s'.verdicts == s.verdicts && s'.retentionMs == s.retentionMs
    && forall e | e in s.appended && e in Ids(s'.table) :: e in Ids(s.table)
  }

  lemma OtherStepKeepsInv(s: State, s': State)
    requires Inv(s) && SameForPasses(s, s') && TableInv(s') && HistoryInv(s') && SignalInv(s')
    ensures Inv(s')
  {
    forall i | 0 <= i < |s'.passes| ensures PassInv(s', s'.passes[i].pc) {
      assert PassInv(s, s.passes[i].pc);
    }
  }

  lemma AppendKeepsInv(s: State, step: Step)
    requires Inv(s) && Enabled(s, step) && (step.AppendInsert? || step.AppendResolve? || step.AppendReject?)
    ensures Inv(Apply(s, step))
  {
    var s' := Apply(s, step);
    if step.AppendInsert? {
      assert Ids(s'.table) == Ids(s.table) + {step.row.eventId};
    }
    OtherStepKeepsInv(s, s');
  }

  lemma StartKeepsInv(s: State, step: Step)
    requires Inv(s) && Enabled(s, step) && (step.Call? || step.Start?)
    ensures Inv(Apply(s, step))
  {
    var s' := Apply(s, step);
    forall j | 0 <= j < |s'.passes| ensures PassInv(s', s'.passes[j].pc) {
      if j < |s.passes| { assert PassInv(s, s.passes[j].pc); }
    }
  }

  lemma SweptKeepsTable(s: State, ok: bool)
    requires Inv(s)
    ensures var s' := Swept(s, ok); TableInv(s') && HistoryInv(s') && SignalInv(s')
  {
    var s' := Swept(s, ok);
    forall e | e in s.appended ensures e in Ids(s'.table) || e in s.settled {
      if e !in s.settled {
        var r :| r in s.table && r.eventId == e;
        assert r in s'.table;
      }
    }
  }

  lemma BootKeepsInv(s: State, step: Step)
    requires Inv(s) && Enabled(s, step) && (step.BootSweep? || step.BootProbe? || step.Tick? || step.Crash?)
    ensures Inv(Apply(s, step))
  {
    var s' := Apply(s, step);
    if step.BootSweep? { SweptKeepsTable(s, step.ok); }
    if !step.Crash? { OtherStepKeepsInv(s, s'); }
  }

  lemma ReadKeepsInv(s: State, step: Step)
    requires Inv(s) && Enabled(s, step)
    requires step.Sweep? || step.PassGate? || step.Read? || step.ReadNothing? || step.ReadFails?
    ensures Inv(Apply(s, step))
  {
    var i, s' := step.i, Apply(s, step);
    assert PassInv(s, s.passes[i].pc);
    if step.Sweep? { SweptKeepsTable(s, step.ok); }
    PassStepKeepsInv(s, i, s'.passes[i], s');
  }

  lemma PostKeepsInv(s: State, step: Step)
    requires Inv(s) && Enabled(s, step)
    requires step.Post? || step.Resend? || step.Reply? || step.PostFails? || step.Drain?
    ensures Inv(Apply(s, step))
  {
    if !step.Resend? {
      var i, s' := step.i, Apply(s, step);
      assert PassInv(s, s.passes[i].pc);
      PassStepKeepsInv(s, i, s'.passes[i], s');
    }
  }

  lemma DeferKeepsTable(s: State, id: EventId, attempt: nat, retryAtUs: int, reason: Option<string>)
    requires Inv(s)
    ensures var s' := s.(table := DeferId(s.table, id, attempt, retryAtUs, reason));
            TableInv(s') && HistoryInv(s') && SignalInv(s')
  {
  }

  /** What an ack adds to the collected verdicts is backed by a verdict on an event of the batch. */
  lemma AckKeepsPassInv(s: State, pc: Pc)
    requires pc.Settling? && pc.todo != [] && PassInv(s, pc)
    ensures var rest := pc.(todo := pc.todo[1..]);
            var id := pc.todo[0].eventId;
            && PassInv(s, rest)
            && (id in Ids(pc.batch) ==>
                  && PassInv(s, rest.(deferred := pc.deferred + {id}))
                  && (pc.todo[0].status.Acked? ==> PassInv(s, rest.(stampable := pc.stampable + {id})))
                  && (!pc.todo[0].status.Deferred? && (pc.todo[0].status.Acked? ==> s.retentionMs == 0) ==>
                        PassInv(s, rest.(deletable := pc.deletable + {id}))))
  {
    assert pc.todo[0] in pc.todo && forall a | a in pc.todo[1..] :: a in pc.todo;
  }

  /** A pass step that touches nothing but its own program counter. */
  lemma LocalStepKeepsInv(s: State, i: nat, pc: Pc)
    requires Inv(s) && i < |s.passes| && Active(s.passes[i].pc) && !pc.Waiting? && PassInv(s, pc)
    ensures Inv(At(s, i, pc))
  {
    var s' := At(s, i, pc);
    assert PassInv(s', pc);
    PassStepKeepsInv(s, i, s'.passes[i], s');
  }

  lemma DeferKeepsInv(s: State, i: nat, ack: Ack, attempt: nat, retryAtUs: int)
    requires Inv(s)
    ensures Inv(s.(table := DeferId(s.table, ack.eventId, attempt, retryAtUs, ack.reason)))
  {
    DeferKeepsTable(s, ack.eventId, attempt, retryAtUs, ack.reason);
    OtherStepKeepsInv(s, s.(table := DeferId(s.table, ack.eventId, attempt, retryAtUs, ack.reason)));
  }

  lemma SettleAckKeepsInv(s: State, step: Step)
    requires Inv(s) && Enabled(s, step) && step.SettleAck?
    ensures Inv(Apply(s, step))
  {
    var i, s' := step.i, Apply(s, step);
    var pc := s.passes[i].pc;
    assert PassInv(s, pc);
    AckKeepsPassInv(s, pc);
    var ack := pc.todo[0];
    if ack.status.Deferred? && step.ok && ack.eventId in Ids(pc.batch) {
      DeferKeepsInv(s, i, ack, step.attempt, step.retryAtUs);
      SettleDeferredKeepsInv(s, i, step.attempt, step.retryAtUs);
    } else {
      LocalStepKeepsInv(s, i, s'.passes[i].pc);
    }
  }

  lemma SettleDeferredKeepsInv(s: State, i: nat, attempt: nat, retryAtUs: int)
    requires PcIs(s, i, (pc: Pc) => pc.Settling? && pc.todo != [])
    requires var pc := s.passes[i].pc;
             pc.todo[0].status.Deferred? && pc.todo[0].eventId in Ids(pc.batch) && PassInv(s, pc)
    requires var ack := s.passes[i].pc.todo[0];
             Inv(s.(table := DeferId(s.table, ack.eventId, attempt, retryAtUs, ack.reason)))
    ensures Inv(Settled(s, i, true, attempt, retryAtUs))
  {
    var pc := s.passes[i].pc;
    var ack := pc.todo[0];
    var t := s.(table := DeferId(s.table, ack.eventId, attempt, retryAtUs, ack.reason));
    assert PassInv(t, pc);
    AckKeepsPassInv(t, pc);
    LocalStepKeepsInv(t, i, pc.(todo := pc.todo[1..], deferred := pc.deferred + {ack.eventId}));
  }

  lemma DeleteKeepsInv(s: State, step: Step)
    requires Inv(s) && Enabled(s, step) && step.DeleteSettled?
    ensures Inv(Apply(s, step))
  {
    var i, s' := step.i, Apply(s, step);
    var pc := s.passes[i].pc;
    assert PassInv(s, pc);
    if step.ok {
      forall e | e in s.appended ensures e in Ids(s'.table) || e in s'.settled {
        if e !in s'.settled {
          var r :| r in s.table && r.eventId == e;
          assert r in s'.table;
        }
      }
    }
    PassStepKeepsInv(s, i, s'.passes[i], s');
  }

  lemma StampKeepsTable(s: State, ids: set<EventId>)
    requires TableInv(s) && HistoryInv(s) && SignalInv(s)
    requires forall e | e in ids :: (e, Acked) in s.verdicts && e in s.appended
    ensures var s' := s.(table := StampIds(s.table, ids, NowUs(s)), settled := s.settled + ids);
            TableInv(s') && HistoryInv(s') && SignalInv(s')
  {
  }

  lemma StampKeepsInv(s: State, step: Step)
    requires Inv(s) && Enabled(s, step) && step.StampSettled?
    ensures Inv(Apply(s, step))
  {
    var i, s' := step.i, Apply(s, step);
    assert PassInv(s, s.passes[i].pc);
    if step.ok { StampKeepsTable(s, s.passes[i].pc.toStamp); }
    PassStepKeepsInv(s, i, s'.passes[i], s');
  }

  lemma StepKeepsInv(s: State, step: Step)
    requires Inv(s) && Enabled(s, step)
    ensures Inv(Apply(s, step))
  {
    match step
    case AppendInsert(_) => AppendKeepsInv(s, step);
    case AppendResolve(_) => AppendKeepsInv(s, step);
    case AppendReject(_) => AppendKeepsInv(s, step);
    case Call => StartKeepsInv(s, step);
    case Start(_) => StartKeepsInv(s, step);
    case SettleAck(_, _, _, _) => SettleAckKeepsInv(s, step);
    case DeleteSettled(_, _) => DeleteKeepsInv(s, step);
    case StampSettled(_, _) => StampKeepsInv(s, step);
    case Sweep(_, _) => ReadKeepsInv(s, step);
    case PassGate(_) => ReadKeepsInv(s, step);
    case Read(_, _) => ReadKeepsInv(s, step);
    case ReadNothing(_) => ReadKeepsInv(s, step);
    case ReadFails(_) => ReadKeepsInv(s, step);
    case Post(_) => PostKeepsInv(s, step);
    case Resend(_) => PostKeepsInv(s, step);
    case Reply(_, _) => PostKeepsInv(s, step);
    case PostFails(_, _, _) => PostKeepsInv(s, step);
    case Drain(_, _) => PostKeepsInv(s, step);
    case BootSweep(_) => BootKeepsInv(s, step);
    case BootProbe(_) => BootKeepsInv(s, step);
    case Tick(_) => BootKeepsInv(s, step);
    case Crash(_, _) => BootKeepsInv(s, step);
  }
}

/** The store over whole runs: boots, reconciliation, recovery, claims and guarded clears, with a crash between any
    two statements. Statements go to the store one at a time, in the order they are issued; the code that issued
    one goes on at some later time. */
module RecoveryProtocol {
  import opened Options
  import opened MutationState
  import opened LocalStore

  type Id = nat

  /** Where a boot is. `Rebuild(done)` has run that many of the rebuild's statements; `Recover` has those tables'
      journals still to recover. */
  datatype Phase =
    | Provision
    | StampSchema
    | Reconcile
    | Rebuild(done: nat)
    | Decide
    | Recover(todo: set<string>)
    | Running

  /** A caller that marks rows `sending`: it writes the marker first, unless this epoch has, and then claims. */
  datatype Sender = Marking(rows: set<Key>) | Marked(rows: set<Key>) | Claiming(rows: set<Key>) | Claimed

  datatype Statement = Mark(id: Id) | Claim(id: Id) | Clear

  datatype Run = Run(registry: Registry, phase: Phase, dirty: bool, senders: map<Id, Sender>, queue: seq<Statement>)

  datatype State = State(store: Store, run: Option<Run>)

  datatype Step =
    | Boot(registry: Registry)
    | Crash
    | Advance
    | RecoverTable(table: string)
    | Enqueue(key: Key)
    | Append(event: string)
    | Retire(event: string)
    | Enter(id: Id, rows: set<Key>)
    | Execute
    | StatementFails
    | Resume(id: Id)
    | Settle
    | Move(key: Key, to: Status)
    | Remove(key: Key)

  predicate In(s: State, p: Phase -> bool) {
    s.run.Some? && p(s.run.value.phase)
  }

  predicate IsRunning(s: State) {
    s.run.Some? && s.run.value.phase.Running?
  }

  predicate Enabled(s: State, step: Step) {
    match step
    case Boot(_) => s.run.None?
    case Crash => s.run.Some?
    case Advance => In(s, (p: Phase) => !p.Running? && (p.Recover? ==> p.todo == {}) && (p.Rebuild? ==> p.done < 4))
    case RecoverTable(table) => In(s, (p: Phase) => p.Recover? && table in p.todo)
    case Enqueue(key) => IsRunning(s) && key !in s.store.rows && key.table in s.run.value.registry.writable
    case Append(_) => s.run.Some?
    case Retire(_) => s.run.Some?
    case Enter(id, rows) =>
      && IsRunning(s) && id !in s.run.value.senders
      && forall k | k in rows :: k.table in s.run.value.registry.writable
    case Execute => IsRunning(s) && s.run.value.queue != []
    case StatementFails => IsRunning(s) && s.run.value.queue != []
    case Resume(id) => IsRunning(s) && id in s.run.value.senders && (s.run.value.senders[id].Marked? || s.run.value.senders[id].Claimed?)
    case Settle => IsRunning(s)
    case Move(key, to) =>
      IsRunning(s) && key in s.store.rows && !to.Sending? && IsValidMutationTransition(s.store.rows[key], to)
    case Remove(key) => IsRunning(s) && key in s.store.rows && Terminal(s.store.rows[key])
  }

  /** The boot's next statement, or its next decision. */
  function Advanced(s: Store, run: Run): State
    requires !run.phase.Running?
  {
    var r := run.registry;
    match run.phase
    case Provision =>
      if s.schemaStamp == Some(r.schema) then State(s, Some(run.(phase := Reconcile)))
      else State(SchemaExecuted(s, r), Some(run.(phase := StampSchema)))
    case StampSchema => State(s.(schemaStamp := Some(r.schema)), Some(run.(phase := Reconcile)))
    case Reconcile =>
      if s.registryStamp == Some(r) then State(s, Some(run.(phase := Decide)))
      else if s.registryStamp.None? then State(s.(registryStamp := Some(r)), Some(run.(phase := Decide)))
      else if OwedRows(s, r.writable) != {} then State(s, Some(run.(phase := Decide)))
      else State(s, Some(run.(phase := Rebuild(0))))
    case Rebuild(done) =>
      State(if done == 0 then Wiped(s, r)
            else if done == 1 then SchemaExecuted(s, r)
            else if done == 2 then s.(registryStamp := Some(r))
            else s.(schemaStamp := Some(r.schema)),
            Some(run.(phase := if done < 3 then Rebuild(done + 1) else Decide)))
    case Decide =>
      if RecoveryRequired(s.marker) == Some(false) then State(s, Some(run.(phase := Running)))
      else if RecoveryRequired(s.marker) == Some(true)
      then State(ClearedIfSettled(Recovered(s, r.writable), r), Some(run.(phase := Running)))
      else State(s, Some(run.(phase := Recover(r.writable))))
    case Recover(_) => State(WrittenMarker(s, false), Some(run.(phase := Running)))
  }

  function WithSender(run: Run, id: Id, sender: Sender): Run {
    run.(senders := run.senders[id := sender])
  }

  function Left(run: Run, id: Id): Run {
    run.(senders := run.senders - {id})
  }

  /** The rows a claim marks: those still there. */
  function ClaimedRows(rows: Journal, claim: set<Key>): Journal {
    map k | k in rows :: if k in claim then Sending else rows[k]
  }

  /** The statement at the head of the queue takes effect. */
  function Executed(s: Store, run: Run): State
    requires run.queue != []
  {
    var rest := run.(queue := run.queue[1..]);
    match run.queue[0]
    case Clear => State(ClearedIfSettled(s, run.registry), Some(rest))
    case Mark(id) =>
      State(WrittenMarker(s, true),
            Some(if id in run.senders && run.senders[id].Marking? then WithSender(rest, id, Marked(run.senders[id].rows)) else rest))
    case Claim(id) =>
      if id in run.senders && run.senders[id].Claiming?
      then State(s.(rows := ClaimedRows(s.rows, run.senders[id].rows)), Some(WithSender(rest, id, Claimed)))
      else State(s, Some(rest))
  }

  /** The statement at the head fails; the sender that issued it leaves its span. */
  function Failing(run: Run): Run
    requires run.queue != []
  {
    var rest := run.(queue := run.queue[1..]);
    match run.queue[0]
    case Clear => rest
    case Mark(id) => Left(rest, id)
    case Claim(id) => Left(rest, id)
  }

  function Apply(s: State, step: Step): State
    requires Enabled(s, step)
  {
    match step
    case Boot(r) => State(s.store, Some(Run(r, Provision, false, map[], [])))
    case Crash => s.(run := None)
    case Advance => Advanced(s.store, s.run.value)
    case RecoverTable(table) =>
      State(Recovered(s.store, {table}), Some(s.run.value.(phase := Recover(s.run.value.phase.todo - {table}))))
    case Enqueue(key) => s.(store := s.store.(rows := s.store.rows[key := Pending]))
    case Append(event) => s.(store := s.store.(outbox := s.store.outbox + {event}))
    case Retire(event) => s.(store := s.store.(outbox := s.store.outbox - {event}))
    case Enter(id, rows) =>
      var run := s.run.value;
      s.(run := Some(if run.dirty then WithSender(run, id, Claiming(rows)).(queue := run.queue + [Claim(id)])
                     else WithSender(run, id, Marking(rows)).(queue := run.queue + [Mark(id)])))
    case Execute => Executed(s.store, s.run.value)
    case StatementFails => s.(run := Some(Failing(s.run.value)))
    case Resume(id) =>
      var run := s.run.value;
      s.(run := Some(match run.senders[id]
                     case Marked(rows) => WithSender(run, id, Claiming(rows)).(dirty := true, queue := run.queue + [Claim(id)])
                     case _ => Left(run, id)))
    case Settle =>
      var run := s.run.value;
      if run.senders != map[] then s else s.(run := Some(run.(dirty := false, queue := run.queue + [Clear])))
    case Move(key, to) => s.(store := s.store.(rows := s.store.rows[key := to]))
    case Remove(key) => s.(store := s.store.(rows := s.store.rows - {key}))
  }

  /** The registry of a boot writes every table that has a `sending` row. */
  predicate Covers(r: Registry, s: Store) {
    SendingOnlyIn(s, r.writable)
  }

  /** A run, each of whose boots writes the tables whose rows an earlier one left `sending`. */
  ghost predicate IsRun(run: seq<State>, steps: seq<Step>) {
    && |run| == |steps| + 1 && run[0] == State(VIRGIN, None)
    && (forall i | 0 <= i < |steps| :: Enabled(run[i], steps[i]) && run[i + 1] == Apply(run[i], steps[i]))
    && forall i | 0 <= i < |steps| && steps[i].Boot? :: Covers(steps[i].registry, run[i].store)
  }

  // ---- The invariant ----

  /** Each sender has at most one statement on the way, the one it waits for. Nothing clears the marker behind a
      mark, and a claim comes after one. */
  ghost predicate QueueOk(run: Run) {
    && (forall i | 0 <= i < |run.queue| && run.queue[i].Mark? ::
          && run.queue[i].id in run.senders && run.senders[run.queue[i].id].Marking?
          && forall j | i < j < |run.queue| :: !run.queue[j].Clear?)
    && (forall i | 0 <= i < |run.queue| && run.queue[i].Claim? ::
          run.queue[i].id in run.senders && run.senders[run.queue[i].id].Claiming? && run.dirty)
    && (forall i, j | 0 <= i < j < |run.queue| && !run.queue[i].Clear? && !run.queue[j].Clear? :: run.queue[i].id != run.queue[j].id)
  }

  ghost predicate NoClear(run: Run) {
    forall i | 0 <= i < |run.queue| :: !run.queue[i].Clear?
  }

  ghost predicate SendersOk(s: Store, run: Run) {
    && (run.dirty ==> s.marker == Some("true") && NoClear(run))
    && forall id | id in run.senders ::
         && (run.senders[id].Marked? ==> s.marker == Some("true") && NoClear(run))
         && (!run.senders[id].Claimed? ==> forall k | k in run.senders[id].rows :: k.table in run.registry.writable)
  }

  ghost predicate PhaseOk(s: Store, run: Run) {
    && Covers(run.registry, s)
    && (!run.phase.Running? ==> run.senders == map[] && run.queue == [] && !run.dirty)
    && (!run.phase.Provision? && !run.phase.Rebuild? ==> run.registry.schema in s.executed)
    && (run.phase.Reconcile? || run.phase.Decide? || run.phase == Rebuild(0) ==> s.schemaStamp == Some(run.registry.schema))
    && match run.phase
       case Rebuild(done) =>
         && done <= 3 && (done == 0 ==> OwedRows(s, run.registry.writable) == {})
         && (done >= 2 ==> run.registry.schema in s.executed)
         && (done >= 3 ==> s.registryStamp == Some(run.registry))
       case Recover(todo) => s.marker.None? && forall k | k in s.rows && s.rows[k].Sending? :: k.table in todo
       case _ => true
  }

  ghost predicate Inv(s: State) {
    && StampsHold(s.store) && MarkerHolds(s.store)
    && (s.run.Some? ==> QueueOk(s.run.value) && SendersOk(s.store, s.run.value) && PhaseOk(s.store, s.run.value))
  }

  // ---- Every step keeps it ----

  lemma ProvisionKeepsInv(s: State)
    requires Inv(s) && Enabled(s, Advance)
    requires var p := s.run.value.phase; p.Provision? || p.StampSchema? || p.Reconcile?
    ensures Inv(Apply(s, Advance))
  {
  }

  lemma RebuildKeepsInv(s: State)
    requires Inv(s) && Enabled(s, Advance) && s.run.value.phase.Rebuild?
    ensures Inv(Apply(s, Advance))
  {
  }

  lemma RecoveryKeepsInv(s: State)
    requires Inv(s) && Enabled(s, Advance) && (s.run.value.phase.Decide? || s.run.value.phase.Recover?)
    ensures Inv(Apply(s, Advance))
  {
    RecoveryIsSoundExactly(s.store, s.run.value.registry);
  }

  lemma ExecuteKeepsInv(s: State)
    requires Inv(s) && Enabled(s, Execute)
    ensures Inv(Apply(s, Execute))
  {
    var run, t := s.run.value, Apply(s, Execute).run.value;
    assert forall j | 0 <= j < |t.queue| :: t.queue[j] == run.queue[j + 1];
  }

  lemma EnterKeepsInv(s: State, step: Step)
    requires Inv(s) && Enabled(s, step) && (step.Enter? || step.Settle?)
    ensures Inv(Apply(s, step))
  {
  }

  lemma ResumeKeepsInv(s: State, id: Id)
    requires Inv(s) && Enabled(s, Resume(id))
    ensures Inv(Apply(s, Resume(id)))
  {
  }

  lemma FailureKeepsInv(s: State)
    requires Inv(s) && Enabled(s, StatementFails)
    ensures Inv(Apply(s, StatementFails))
  {
    var run, t := s.run.value, Apply(s, StatementFails).run.value;
    assert forall j | 0 <= j < |t.queue| :: t.queue[j] == run.queue[j + 1];
  }

  lemma RowsKeepInv(s: State, step: Step)
    requires Inv(s) && Enabled(s, step)
    requires step.RecoverTable? || step.Enqueue? || step.Move? || step.Remove? || step.Append? || step.Retire?
    ensures Inv(Apply(s, step))
  {
  }

  lemma StepKeepsInv(s: State, step: Step)
    requires Inv(s) && Enabled(s, step) && (step.Boot? ==> Covers(step.registry, s.store))
    ensures Inv(Apply(s, step))
  {
    match step
    case Boot(_) =>
    case Crash =>
    case Advance =>
      match s.run.value.phase {
        case Rebuild(_) => RebuildKeepsInv(s);
        case Decide => RecoveryKeepsInv(s);
        case Recover(_) => RecoveryKeepsInv(s);
        case _ => ProvisionKeepsInv(s);
      }
    case Execute => ExecuteKeepsInv(s);
    case Enter(_, _) => EnterKeepsInv(s, step);
    case Settle => EnterKeepsInv(s, step);
    case Resume(id) => ResumeKeepsInv(s, id);
    case StatementFails => FailureKeepsInv(s);
    case _ => RowsKeepInv(s, step);
  }

  lemma {:induction false} RunKeepsInv(run: seq<State>, steps: seq<Step>, n: nat)
    requires IsRun(run, steps) && n < |run|
    ensures Inv(run[n])
  {
    if n > 0 {
      RunKeepsInv(run, steps, n - 1);
      assert Enabled(run[n - 1], steps[n - 1]) && run[n - 1 + 1] == Apply(run[n - 1], steps[n - 1]);
      assert steps[n - 1].Boot? ==> Covers(steps[n - 1].registry, run[n - 1].store);
      StepKeepsInv(run[n - 1], steps[n - 1]);
    }
  }

  // ---- What holds over every run ----

  /** The marker never reads clean while a journal row is `sending`, and no stamp claims a schema that was not
      executed since the last wipe, wherever the process dies. */
  lemma MarkerAndStampsNeverLie(run: seq<State>, steps: seq<Step>, n: nat)
    requires IsRun(run, steps) && n < |run|
    ensures RecoveryRequired(run[n].store.marker) == Some(false) ==> NoSending(run[n].store)
    ensures run[n].store.registryStamp.Some? ==> run[n].store.registryStamp.value.schema in run[n].store.executed
    ensures run[n].store.schemaStamp.Some? ==> run[n].store.schemaStamp.value in run[n].store.executed
  {
    RunKeepsInv(run, steps, n);
  }

  /** A claim takes effect only under a marker that says so. */
  lemma ClaimsAreMarked(run: seq<State>, steps: seq<Step>, n: nat)
    requires IsRun(run, steps) && n < |steps| && steps[n].Execute?
    ensures Enabled(run[n], steps[n])
    ensures run[n].run.value.queue[0].Claim? ==> run[n].store.marker == Some("true")
  {
    RunKeepsInv(run, steps, n);
    assert Enabled(run[n], steps[n]);
  }

  /** No rebuild begins while the registry's journals owe anything; whatever is still owed then lies in journals
      of tables the registry no longer writes, which the check does not count and the wipe does not drop. */
  lemma NoRebuildWhileOwed(run: seq<State>, steps: seq<Step>, n: nat)
    requires IsRun(run, steps) && n < |steps| && steps[n].Advance?
    requires run[n].run.Some? && run[n].run.value.phase == Rebuild(0)
    ensures var s, r := run[n].store, run[n].run.value.registry;
            && (forall k | k in s.rows && k.table in r.writable :: s.rows[k] in {Acked, Conflicted, Rejected})
            && ((forall k | k in s.rows :: !Owed(s.rows[k])) <==> forall k | k in s.rows && Owed(s.rows[k]) :: k.table in r.writable)
            && (forall k | k in s.rows && Owed(s.rows[k]) :: k in run[n + 1].store.rows && run[n + 1].store.rows[k] == s.rows[k])
  {
    RunKeepsInv(run, steps, n);
    assert Enabled(run[n], steps[n]) && run[n + 1] == Apply(run[n], steps[n]);
    var s, r := run[n].store, run[n].run.value.registry;
    forall k | k in s.rows && Owed(s.rows[k]) ensures k.table !in r.writable {
      assert k !in OwedRows(s, r.writable);
    }
    forall k | k in s.rows && k.table in r.writable ensures s.rows[k] in {Acked, Conflicted, Rejected} {
      assert k !in OwedRows(s, r.writable);
    }
  }

  /** A boot that has reconciled stands under its own registry's stamp, unless its journals still owe something: then the
      rebuild is put off. */
  lemma BootIsCurrentOrDeferred(run: seq<State>, steps: seq<Step>, n: nat)
    requires IsRun(run, steps) && n < |steps| && steps[n].Advance?
    requires run[n + 1].run.Some? && run[n + 1].run.value.phase.Decide?
    ensures var s, r := run[n + 1].store, run[n + 1].run.value.registry;
            && s.schemaStamp == Some(r.schema)
            && (|| s.registryStamp == Some(r)
                || exists k :: k in s.rows && k.table in r.writable && s.rows[k] !in {Acked, Conflicted, Rejected})
  {
    RunKeepsInv(run, steps, n);
    var s := run[n];
    assert Enabled(s, steps[n]) && run[n + 1] == Apply(s, steps[n]);
    var owed := OwedRows(s.store, s.run.value.registry.writable);
    if s.run.value.phase.Reconcile? && owed != {} {
      var k :| k in owed;
    }
  }

  /** No step drops a row the server has yet to answer. */
  lemma UnansweredRowsStay(run: seq<State>, steps: seq<Step>, n: nat, k: Key)
    requires IsRun(run, steps) && n < |steps| && k in run[n].store.rows && !Terminal(run[n].store.rows[k])
    ensures k in run[n + 1].store.rows
  {
    RunKeepsInv(run, steps, n);
    var s := run[n];
    assert Enabled(s, steps[n]) && run[n + 1] == Apply(s, steps[n]);
    if s.run.Some? {
      assert k in OwedRows(s.store, s.run.value.registry.writable) <==> k.table in s.run.value.registry.writable;
    }
  }

  /** When a boot lets writes through, nothing is left `sending` from before it, crash or no crash. */
  lemma BootLeavesNothingSending(run: seq<State>, steps: seq<Step>, n: nat)
    requires IsRun(run, steps) && n < |steps| && steps[n].Advance? && IsRunning(run[n + 1])
    ensures NoSending(run[n + 1].store)
  {
    RunKeepsInv(run, steps, n);
    var s := run[n];
    assert Enabled(s, steps[n]) && run[n + 1] == Apply(s, steps[n]);
    RecoveryIsSoundExactly(s.store, s.run.value.registry);
  }

  /** The wipe of a rebuild is about to run. */
  ghost predicate Wipes(s: State, step: Step) {
    step.Advance? && s.run.Some? && s.run.value.phase == Rebuild(0)
  }

  /** A staged event leaves the Outbox in two ways and no other: it is retired, or a rebuild wipes it, staged or not. */
  lemma EventLeavesExactly(s: State, step: Step, event: string)
    requires Enabled(s, step) && event in s.store.outbox
    ensures event !in Apply(s, step).store.outbox <==> step == Retire(event) || Wipes(s, step)
  {
  }

  /** Over every run: an event that was staged and is gone was retired, or lost to a rebuild, at some step between. */
  lemma {:induction false} EventsAreRetiredOrWiped(run: seq<State>, steps: seq<Step>, m: nat, n: nat, event: string)
    requires IsRun(run, steps) && m <= n < |run|
    requires event in run[m].store.outbox && event !in run[n].store.outbox
    ensures exists k :: m <= k < n && event in run[k].store.outbox && (steps[k] == Retire(event) || Wipes(run[k], steps[k]))
    decreases n - m
  {
    assert m < n;
    assert Enabled(run[m], steps[m]) && run[m + 1] == Apply(run[m], steps[m]);
    EventLeavesExactly(run[m], steps[m], event);
    if event in run[m + 1].store.outbox {
      EventsAreRetiredOrWiped(run, steps, m + 1, n, event);
    }
  }
}

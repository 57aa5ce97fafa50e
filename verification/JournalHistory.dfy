/** What becomes of one journal row over a run: which statuses it goes through, and who puts it there. */
module JournalHistory {
  import opened Options
  import opened MutationState
  import opened LocalStore
  import opened RecoveryProtocol

  // ---- One step ----

  /** The statement at the head of the queue marks the row `sending`. */
  predicate Claims(s: State, step: Step, k: Key) {
    && step.Execute? && Enabled(s, step) && s.run.value.queue[0].Claim?
    && var id := s.run.value.queue[0].id;
       id in s.run.value.senders && s.run.value.senders[id].Claiming? && k in s.run.value.senders[id].rows && k in s.store.rows
  }

  /** What a step makes of a row that stays: a boot takes it from `sending` to `pending`, a claim marks it `sending`,
      a move is along the table, and nothing else touches it. */
  lemma RowAfterStep(s: State, step: Step, k: Key)
    requires Enabled(s, step) && k in s.store.rows && k in Apply(s, step).store.rows
    ensures var was, is_ := s.store.rows[k], Apply(s, step).store.rows[k];
            is_ == if Claims(s, step, k) then Sending
                   else if step.Move? && step.key == k then step.to
                   else if Lifts(s, step, k) then Pending
                   else was
  {
  }

  /** The step is a boot's recovery of the row's journal, and the row was in flight. */
  predicate Lifts(s: State, step: Step, k: Key) {
    && Enabled(s, step) && k in s.store.rows && s.store.rows[k] == Sending
    && match step
       case RecoverTable(table) => k.table == table
       case Advance =>
         s.run.value.phase.Decide? && RecoveryRequired(s.store.marker) == Some(true) && k.table in s.run.value.registry.writable
       case _ => false
  }

  /** Before a boot lets writes through, each of its steps leaves every row that stays as it was, or takes it from `sending` to
      `pending`. */
  lemma BootLiftsOnly(s: State, step: Step, k: Key)
    requires Enabled(s, step) && s.run.Some? && !s.run.value.phase.Running?
    requires k in s.store.rows && k in Apply(s, step).store.rows
    ensures var was, is_ := s.store.rows[k], Apply(s, step).store.rows[k]; is_ == was || (was == Sending && is_ == Pending)
  {
    RowAfterStep(s, step, k);
  }

  lemma AppearsPending(s: State, step: Step, k: Key)
    requires Enabled(s, step) && k !in s.store.rows && k in Apply(s, step).store.rows
    ensures step == Enqueue(k) && Apply(s, step).store.rows[k] == Pending
  {
  }

  // ---- Whole runs ----

  lemma StepOf(run: seq<State>, steps: seq<Step>, n: nat)
    requires IsRun(run, steps) && n < |steps|
    ensures Enabled(run[n], steps[n]) && run[n + 1] == Apply(run[n], steps[n])
  {
  }

  /** A row that is acked, conflicted, rejected, failed or quarantined got there by a move to that status, and stayed. */
  lemma {:induction false} StatusWasMovedTo(run: seq<State>, steps: seq<Step>, n: nat, k: Key) returns (m: nat)
    requires IsRun(run, steps) && n < |run| && k in run[n].store.rows
    requires !run[n].store.rows[k].Pending? && !run[n].store.rows[k].Sending?
    ensures m < n && steps[m] == Move(k, run[n].store.rows[k]) && k in run[m].store.rows
    ensures forall i | m < i <= n :: k in run[i].store.rows && run[i].store.rows[k] == run[n].store.rows[k]
    decreases n
  {
    assert n > 0;
    StepOf(run, steps, n - 1);
    if k !in run[n - 1].store.rows {
      AppearsPending(run[n - 1], steps[n - 1], k);
    }
    RowAfterStep(run[n - 1], steps[n - 1], k);
    if steps[n - 1] == Move(k, run[n].store.rows[k]) {
      m := n - 1;
    } else {
      m := StatusWasMovedTo(run, steps, n - 1, k);
    }
  }

  /** A row in flight was claimed, and has been in flight since. */
  lemma {:induction false} SendingWasClaimed(run: seq<State>, steps: seq<Step>, n: nat, k: Key) returns (m: nat)
    requires IsRun(run, steps) && n < |run| && k in run[n].store.rows && run[n].store.rows[k] == Sending
    ensures m < n && Claims(run[m], steps[m], k)
    ensures forall i | m < i <= n :: k in run[i].store.rows && run[i].store.rows[k] == Sending
    decreases n
  {
    assert n > 0;
    StepOf(run, steps, n - 1);
    if k !in run[n - 1].store.rows {
      AppearsPending(run[n - 1], steps[n - 1], k);
    }
    RowAfterStep(run[n - 1], steps[n - 1], k);
    if Claims(run[n - 1], steps[n - 1], k) {
      m := n - 1;
    } else {
      m := SendingWasClaimed(run, steps, n - 1, k);
    }
  }

  predicate Answered(status: Status) {
    status.Acked? || status.Conflicted? || status.Rejected?
  }

  /** Nobody but the server answers: a row that is acked, conflicted or rejected was claimed, was in flight from then on,
      and was moved to that status, in this order. */
  lemma AnsweredRowsWereSent(run: seq<State>, steps: seq<Step>, n: nat, k: Key) returns (claim: nat, answer: nat)
    requires IsRun(run, steps) && n < |run| && k in run[n].store.rows && Answered(run[n].store.rows[k])
    ensures claim < answer < n && Claims(run[claim], steps[claim], k) && steps[answer] == Move(k, run[n].store.rows[k])
    ensures forall i | claim < i <= answer :: k in run[i].store.rows && run[i].store.rows[k] == Sending
    ensures forall i | answer < i <= n :: k in run[i].store.rows && run[i].store.rows[k] == run[n].store.rows[k]
  {
    answer := StatusWasMovedTo(run, steps, n, k);
    StepOf(run, steps, answer);
    claim := SendingWasClaimed(run, steps, answer, k);
  }

  /** A row goes only once it is answered, or given up and discarded. */
  lemma RowsLeaveAnswered(run: seq<State>, steps: seq<Step>, n: nat, k: Key)
    requires IsRun(run, steps) && n < |steps| && k in run[n].store.rows && k !in run[n + 1].store.rows
    ensures Answered(run[n].store.rows[k]) || (run[n].store.rows[k].Quarantined? && steps[n] == Remove(k))
  {
    StepOf(run, steps, n);
    if steps[n] != Remove(k) {
      assert steps[n].Advance? && run[n].run.value.phase == Rebuild(0);
      NoRebuildWhileOwed(run, steps, n);
    }
  }

  // ---- Against the table of transitions ----

  /** The statuses a row goes through, each as often as it is entered. */
  function Statuses(run: seq<State>, k: Key, m: nat, n: nat): (h: seq<Status>)
    requires m <= n < |run| && forall i | m <= i <= n :: k in run[i].store.rows
    ensures h != [] && h[|h| - 1] == run[n].store.rows[k]
    decreases n
  {
    var status := run[n].store.rows[k];
    if n == m then [status]
    else
      var before := Statuses(run, k, m, n - 1);
      if before[|before| - 1] == status then before else before + [status]
  }

  /** The claim takes a row that is neither `pending` nor in flight. */
  predicate ClaimsAnyway(s: State, step: Step, k: Key) {
    Claims(s, step, k) && !s.store.rows[k].Pending? && !s.store.rows[k].Sending?
  }

  lemma StepFollowsTable(s: State, step: Step, k: Key)
    requires Enabled(s, step) && k in s.store.rows && k in Apply(s, step).store.rows
    ensures var was, is_ := s.store.rows[k], Apply(s, step).store.rows[k];
            (is_ == was || IsValidMutationTransition(was, is_)) <==> !ClaimsAnyway(s, step, k)
  {
    RowAfterStep(s, step, k);
  }

  lemma {:induction false} HistoryOn(h: seq<Status>, status: Status)
    requires h != []
    ensures History(h + [status]) <==> History(h) && IsValidMutationTransition(h[|h| - 1], status)
  {
    var g := h + [status];
    if History(g) {
      forall i | 0 < i < |h| ensures IsValidMutationTransition(h[i - 1], h[i]) {
        assert IsValidMutationTransition(g[i - 1], g[i]);
      }
      assert IsValidMutationTransition(g[|h| - 1], g[|h|]);
    }
    assert g[0] == h[0];
  }

  predicate ClaimsPendingOnly(run: seq<State>, steps: seq<Step>, k: Key, m: nat, n: nat)
    requires n <= |steps| && n <= |run|
  {
    forall i | m <= i < n :: !ClaimsAnyway(run[i], steps[i], k)
  }

  /** From its enqueue on, what a row goes through is a history under the table exactly when no claim takes it while it
      is neither `pending` nor in flight. */
  lemma HistoryExactly(run: seq<State>, steps: seq<Step>, k: Key, m: nat, n: nat)
    requires IsRun(run, steps) && 0 < m <= n < |run| && k !in run[m - 1].store.rows
    requires forall i | m <= i <= n :: k in run[i].store.rows
    ensures History(Statuses(run, k, m, n)) <==> ClaimsPendingOnly(run, steps, k, m, n)
  {
    StartsPending(run, steps, k, m);
    var anyway := ClaimedAnyway(run, steps, k);
    forall i | m <= i < n ensures FollowsUnless(run[i].store.rows[k], run[i + 1].store.rows[k], anyway[i]) {
      FollowsAt(run, steps, k, i);
    }
    HistoryAlong(run, anyway, k, m, n);
    assert (forall i | m <= i < n :: !anyway[i]) <==> ClaimsPendingOnly(run, steps, k, m, n);
  }

  function ClaimedAnyway(run: seq<State>, steps: seq<Step>, k: Key): (anyway: seq<bool>)
    requires |steps| <= |run|
    ensures |anyway| == |steps| && forall i | 0 <= i < |steps| :: anyway[i] == ClaimsAnyway(run[i], steps[i], k)
  {
    seq(|steps|, i requires 0 <= i < |steps| => ClaimsAnyway(run[i], steps[i], k))
  }

  lemma StartsPending(run: seq<State>, steps: seq<Step>, k: Key, m: nat)
    requires IsRun(run, steps) && 0 < m < |run| && k !in run[m - 1].store.rows && k in run[m].store.rows
    ensures run[m].store.rows[k] == Pending
  {
    StepOf(run, steps, m - 1);
    AppearsPending(run[m - 1], steps[m - 1], k);
  }

  lemma FollowsAt(run: seq<State>, steps: seq<Step>, k: Key, i: nat)
    requires IsRun(run, steps) && i < |steps| && k in run[i].store.rows && k in run[i + 1].store.rows
    ensures FollowsUnless(run[i].store.rows[k], run[i + 1].store.rows[k], ClaimsAnyway(run[i], steps[i], k))
  {
    StepOf(run, steps, i);
    StepFollowsTable(run[i], steps[i], k);
  }

  predicate FollowsUnless(was: Status, is_: Status, anyway: bool) {
    (is_ == was || IsValidMutationTransition(was, is_)) <==> !anyway
  }

  lemma {:induction false} HistoryAlong(run: seq<State>, anyway: seq<bool>, k: Key, m: nat, n: nat)
    requires m <= n < |run| && n <= |anyway| && forall i | m <= i <= n :: k in run[i].store.rows
    requires run[m].store.rows[k] == Pending
    requires forall i | m <= i < n :: FollowsUnless(run[i].store.rows[k], run[i + 1].store.rows[k], anyway[i])
    ensures History(Statuses(run, k, m, n)) <==> forall i | m <= i < n :: !anyway[i]
    decreases n
  {
    if m < n {
      HistoryAlong(run, anyway, k, m, n - 1);
      assert FollowsUnless(run[n - 1].store.rows[k], run[n - 1 + 1].store.rows[k], anyway[n - 1]);
      HistoryOn(Statuses(run, k, m, n - 1), run[n].store.rows[k]);
    }
  }

  // ---- A failed row is claimed as it is ----

  ghost predicate Reached(s: State) {
    exists run, steps :: IsRun(run, steps) && run[|steps|] == s
  }

  lemma StartIsReached()
    ensures Reached(State(VIRGIN, None))
  {
    var run: seq<State>, steps: seq<Step> := [State(VIRGIN, None)], [];
    assert IsRun(run, steps) && run[|steps|] == State(VIRGIN, None);
  }

  lemma ReachedNext(s: State, step: Step, t: State)
    requires Reached(s) && Enabled(s, step) && t == Apply(s, step) && (step.Boot? ==> Covers(step.registry, s.store))
    ensures Reached(t)
  {
    var run, steps :| IsRun(run, steps) && run[|steps|] == s;
    var run', steps' := run + [t], steps + [step];
    forall i | 0 <= i < |steps'|
      ensures Enabled(run'[i], steps'[i]) && run'[i + 1] == Apply(run'[i], steps'[i])
      ensures steps'[i].Boot? ==> Covers(steps'[i].registry, run'[i].store)
    {
      if i < |steps| { StepOf(run, steps, i); }
    }
    assert IsRun(run', steps') && run'[|steps'|] == t;
  }

  const NOTES := Registry("v", "s", {"note"})
  const ROW := Key("note", 1)
  const PROVISIONED := Store(None, Some(NOTES), Some("s"), map[], {}, {"s"})

  function Booting(store: Store, phase: Phase): State {
    State(store, Some(Run(NOTES, phase, false, map[], [])))
  }

  lemma BootsToDecide()
    ensures Reached(Booting(PROVISIONED, Decide))
  {
    StartIsReached();
    var executed := VIRGIN.(executed := {"s"});
    var stamped := executed.(schemaStamp := Some("s"));
    ReachedNext(State(VIRGIN, None), Boot(NOTES), Booting(VIRGIN, Provision));
    assert {} + {"s"} == {"s"};
    ReachedNext(Booting(VIRGIN, Provision), Advance, Booting(executed, StampSchema));
    ReachedNext(Booting(executed, StampSchema), Advance, Booting(stamped, Reconcile));
    ReachedNext(Booting(stamped, Reconcile), Advance, Booting(PROVISIONED, Decide));
  }

  /** The row's status, the marker, and the epoch, senders and queue of a running boot. */
  function Serving(status: Status, marker: string, dirty: bool, senders: map<Id, Sender>, queue: seq<Statement>): State {
    State(PROVISIONED.(marker := Some(marker), rows := map[ROW := status]), Some(Run(NOTES, Running, dirty, senders, queue)))
  }

  lemma RowIsEnqueued()
    ensures Reached(Serving(Pending, "false", false, map[], []))
  {
    BootsToDecide();
    ReachedNext(Booting(PROVISIONED, Decide), Advance, Booting(PROVISIONED, Recover({"note"})));
    assert {"note"} - {"note"} == {} && Recovered(PROVISIONED, {"note"}) == PROVISIONED;
    ReachedNext(Booting(PROVISIONED, Recover({"note"})), RecoverTable("note"), Booting(PROVISIONED, Recover({})));
    var clean := PROVISIONED.(marker := Some("false"));
    ReachedNext(Booting(PROVISIONED, Recover({})), Advance, Booting(clean, Running));
    ReachedNext(Booting(clean, Running), Enqueue(ROW), Serving(Pending, "false", false, map[], []));
  }

  lemma OneByOne(id: Id, a: Sender, b: Sender, x: Statement)
    ensures [] + [x] == [x] && [x][1..] == [] && map[][id := a] == map[id := a] && map[id := a][id := b] == map[id := b]
    ensures map[id := a] - {id} == map[]
  {
  }

  lemma RowIsMarked()
    ensures Reached(Serving(Pending, "true", false, map[0 := Marked({ROW})], []))
  {
    RowIsEnqueued();
    var marking, marked := Marking({ROW}), Marked({ROW});
    OneByOne(0, marking, marked, Mark(0));
    ReachedNext(Serving(Pending, "false", false, map[], []), Enter(0, {ROW}), Serving(Pending, "false", false, map[0 := marking], [Mark(0)]));
    ReachedNext(Serving(Pending, "false", false, map[0 := marking], [Mark(0)]), Execute, Serving(Pending, "true", false, map[0 := marked], []));
  }

  lemma RowIsClaimed()
    ensures Reached(Serving(Sending, "true", true, map[0 := Claimed], []))
  {
    RowIsMarked();
    var marked, claiming := Marked({ROW}), Claiming({ROW});
    OneByOne(0, marked, claiming, Claim(0));
    ReachedNext(Serving(Pending, "true", false, map[0 := marked], []), Resume(0), Serving(Pending, "true", true, map[0 := claiming], [Claim(0)]));
    OneByOne(0, claiming, Claimed, Claim(0));
    assert ClaimedRows(map[ROW := Pending], {ROW}) == map[ROW := Sending];
    ReachedNext(Serving(Pending, "true", true, map[0 := claiming], [Claim(0)]), Execute, Serving(Sending, "true", true, map[0 := Claimed], []));
  }

  lemma RowFails()
    ensures Reached(Serving(Failed, "true", true, map[], []))
  {
    RowIsClaimed();
    OneByOne(0, Claimed, Claimed, Clear);
    ReachedNext(Serving(Sending, "true", true, map[0 := Claimed], []), Resume(0), Serving(Sending, "true", true, map[], []));
    assert map[ROW := Sending][ROW := Failed] == map[ROW := Failed];
    ReachedNext(Serving(Sending, "true", true, map[], []), Move(ROW, Failed), Serving(Failed, "true", true, map[], []));
  }

  /** A run gets there: a row that has failed is claimed again without having been `pending`, which the table does not have. */
  lemma FailedRowIsClaimed()
    ensures var s := Serving(Failed, "true", true, map[1 := Claiming({ROW})], [Claim(1)]);
            Reached(s) && ClaimsAnyway(s, Execute, ROW) && Apply(s, Execute).store.rows[ROW] == Sending
            && !IsValidMutationTransition(Failed, Sending)
  {
    RowFails();
    OneByOne(1, Claiming({ROW}), Claimed, Claim(1));
    ReachedNext(Serving(Failed, "true", true, map[], []), Enter(1, {ROW}), Serving(Failed, "true", true, map[1 := Claiming({ROW})], [Claim(1)]));
  }
}

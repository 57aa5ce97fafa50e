/** The machine behind both coalescing drivers: a pass that excludes any other, and one bit that remembers that
    something was asked for while it ran. Its log is the history of a driver. */
module CoalescingMachine {
  import opened Sequences

  /** `Signal`: a pass is asked for. `Check`: the gate is asked, and the pass starts if it answers yes.
      `Finish`: the pass is over. `FollowUp`: what was asked for meanwhile is taken up. `Stop`: disposal. */
  datatype Event = Signal | Check(go: bool) | Finish | FollowUp | Stop

  datatype Machine = Machine(asking: bool, busy: bool, dirty: bool, disposed: bool)

  const FRESH := Machine(false, false, false, false)

  predicate Enabled(m: Machine, e: Event) {
    match e
    case Signal => !m.asking
    case Check(_) => m.asking
    case Finish => !m.asking && m.busy
    case FollowUp => !m.asking && m.dirty && !m.disposed
    case Stop => !m.asking
  }

  function Next(m: Machine, e: Event): Machine {
    match e
    case Signal => if m.disposed then m else if m.busy then m.(dirty := true) else m.(asking := true)
    case Check(go) => m.(asking := false, busy := go)
    case Finish => m.(busy := false)
    case FollowUp => if m.busy then m else m.(dirty := false, asking := true)
    case Stop => m.(disposed := true, dirty := false)
  }

  function After(m: Machine, log: seq<Event>): Machine {
    if log == [] then m else Next(After(m, log[..|log| - 1]), log[|log| - 1])
  }

  ghost predicate Accepts(m: Machine, log: seq<Event>) {
    log != [] ==> Accepts(m, log[..|log| - 1]) && Enabled(After(m, log[..|log| - 1]), log[|log| - 1])
  }

  lemma {:induction false} AfterConcat(m: Machine, a: seq<Event>, b: seq<Event>)
    ensures After(m, a + b) == After(After(m, a), b)
    decreases |b|
  {
    if b == [] {
      assert a + b == a;
    } else {
      var n := |b| - 1;
      AfterConcat(m, a, b[..n]);
      assert (a + b)[..|a| + n] == a + b[..n];
    }
  }

  lemma {:induction false} AcceptsConcat(m: Machine, a: seq<Event>, b: seq<Event>)
    requires Accepts(m, a) && Accepts(After(m, a), b)
    ensures Accepts(m, a + b)
    decreases |b|
  {
    if b == [] {
      assert a + b == a;
    } else {
      var n := |b| - 1;
      AcceptsConcat(m, a, b[..n]);
      AfterConcat(m, a, b[..n]);
      assert (a + b)[..|a| + n] == a + b[..n];
    }
  }

  lemma {:induction false} AcceptsSplit(m: Machine, a: seq<Event>, b: seq<Event>)
    requires Accepts(m, a + b)
    ensures Accepts(m, a) && Accepts(After(m, a), b)
    decreases |b|
  {
    if b == [] {
      assert a + b == a;
    } else {
      var n := |b| - 1;
      assert (a + b)[..|a| + n] == a + b[..n];
      AcceptsSplit(m, a, b[..n]);
      AfterConcat(m, a, b[..n]);
    }
  }

  lemma AcceptsOne(m: Machine, e: Event)
    ensures After(m, [e]) == Next(m, e) && (Enabled(m, e) <==> Accepts(m, [e]))
  {
    assert [e][..0] == [];
  }

  /** One more event in a history. */
  lemma OneMore(m: Machine, log: seq<Event>, e: Event)
    requires Accepts(m, log) && Enabled(After(m, log), e)
    ensures Accepts(m, log + [e]) && After(m, log + [e]) == Next(After(m, log), e)
  {
    assert (log + [e])[..|log|] == log;
  }

  /** No signal waits for a gate check when the machine rests undisposed. */
  ghost predicate Rests(m: Machine) {
    !m.asking && (m.dirty ==> m.busy)
  }

  // ---- What every history satisfies ----

  function Count(log: seq<Event>, p: Event -> bool): nat {
    if log == [] then 0 else Count(log[..|log| - 1], p) + if p(log[|log| - 1]) then 1 else 0
  }

  function Starts(log: seq<Event>): nat {
    Count(log, e => e == Check(true))
  }

  function Checks(log: seq<Event>): nat {
    Count(log, (e: Event) => e.Check?)
  }

  function Signals(log: seq<Event>): nat {
    Count(log, (e: Event) => e.Signal?)
  }

  function Finishes(log: seq<Event>): nat {
    Count(log, (e: Event) => e.Finish?)
  }

  function One(b: bool): nat {
    if b then 1 else 0
  }

  /** While a pass runs the gate is not asked, so no other starts. */
  lemma {:induction false} AskingIsIdle(log: seq<Event>)
    requires Accepts(FRESH, log)
    ensures After(FRESH, log).asking ==> !After(FRESH, log).busy
  {
    if log != [] {
      AskingIsIdle(log[..|log| - 1]);
    }
  }

  /** At most one pass is in flight. */
  lemma {:induction false} OnePassInFlight(log: seq<Event>)
    requires Accepts(FRESH, log)
    ensures Starts(log) == Finishes(log) + One(After(FRESH, log).busy)
  {
    if log != [] {
      var init := log[..|log| - 1];
      OnePassInFlight(init);
      AskingIsIdle(init);
    }
  }

  /** Passes started never exceed signals received, not even counting the gate checks that said no. */
  lemma {:induction false} ChecksWithinSignals(log: seq<Event>)
    requires Accepts(FRESH, log)
    ensures var m := After(FRESH, log);
            Starts(log) <= Checks(log) && Checks(log) + One(m.asking) + One(m.dirty) <= Signals(log)
  {
    if log != [] {
      var init := log[..|log| - 1];
      ChecksWithinSignals(init);
    }
  }

  /** Every signal that no disposal follows is followed by a gate check, or the machine still owes it one. */
  lemma {:induction false} SignalsAreChecked(log: seq<Event>, i: nat)
    requires Accepts(FRESH, log) && i < |log| && log[i].Signal?
    requires Stop !in log
    ensures var m := After(FRESH, log);
            m.asking || m.dirty || exists j :: i < j < |log| && log[j].Check?
    decreases |log|
  {
    var n := |log| - 1;
    var init := log[..n];
    NotDisposed(init);
    if i < n {
      SignalsAreChecked(init, i);
      if j :| i < j < n && init[j].Check? {
        assert log[j].Check?;
      } else if log[n].Check? {
        assert i < n < |log| && log[n].Check?;
      }
    }
  }

  lemma {:induction false} NotDisposed(log: seq<Event>)
    requires Stop !in log
    ensures !After(FRESH, log).disposed
  {
    if log != [] { NotDisposed(log[..|log| - 1]); }
  }

  // ---- Disposal ----

  lemma {:induction false} DisposedForGood(m: Machine, log: seq<Event>)
    requires m.disposed && !m.asking && Accepts(m, log)
    ensures var m' := After(m, log);
            m'.disposed && !m'.asking && (m'.busy ==> m.busy) && (Finish in log ==> !m'.busy)
    ensures forall i | 0 <= i < |log| :: !log[i].Check?
  {
    if log != [] {
      var n := |log| - 1;
      DisposedForGood(m, log[..n]);
      assert forall e :: e in log <==> e in log[..n] || e == log[n];
    }
  }

  /** When a `stop` resolves: at once, or once the pass it waits for is over. */
  ghost predicate StopResolved(waits: bool, since: seq<Event>) {
    waits ==> Finish in since
  }

  /** Once a `stop` that waits for the pass in flight, if there is one, has resolved, nothing runs and
      nothing starts any more. */
  lemma StopIsFinal(before: seq<Event>, since: seq<Event>, later: seq<Event>, waits: bool)
    requires Accepts(FRESH, before + [Stop] + since + later)
    requires (After(FRESH, before).busy ==> waits) && StopResolved(waits, since)
    ensures !After(FRESH, before + [Stop] + since).busy && !After(FRESH, before + [Stop] + since + later).busy
    ensures forall i | 0 <= i < |later| :: !later[i].Check?
  {
    var m := After(FRESH, before + [Stop]);
    var tail := since + later;
    Associative(before + [Stop], since, later);
    StopDisposes(before, tail);
    AcceptsSplit(m, since, later);
    DisposedForGood(m, since);
    DisposedForGood(m, tail);
    AfterConcat(FRESH, before + [Stop], since);
    AfterConcat(FRESH, before + [Stop], tail);
    forall i | 0 <= i < |later| ensures !later[i].Check? {
      assert later[i] == tail[|since| + i];
    }
    assert Finish in since ==> Finish in tail;
  }

  lemma StopDisposes(before: seq<Event>, tail: seq<Event>)
    requires Accepts(FRESH, before + [Stop] + tail)
    ensures var m := After(FRESH, before + [Stop]);
            m.disposed && !m.asking && m.busy == After(FRESH, before).busy && Accepts(m, tail)
  {
    AcceptsSplit(FRESH, before + [Stop], tail);
    AcceptsSplit(FRESH, before, [Stop]);
    AcceptsOne(After(FRESH, before), Stop);
    OneMore(FRESH, before, Stop);
  }

  /** A resolved `stop` means that nothing runs exactly when it could see the pass in flight at the call. It
      cannot when `flush` calls `stop` before its own first `await`, and then it resolves during the pass. */
  lemma StopIsFinalExactly(before: seq<Event>, waits: bool)
    requires Accepts(FRESH, before + [Stop])
    ensures (forall since | Accepts(FRESH, before + [Stop] + since) && StopResolved(waits, since) ::
               !After(FRESH, before + [Stop] + since).busy)
       <==> (After(FRESH, before).busy ==> waits)
  {
    assert before + [Stop] + [] == before + [Stop];
    StopDisposes(before, []);
    if After(FRESH, before).busy ==> waits {
      forall since | Accepts(FRESH, before + [Stop] + since) && StopResolved(waits, since)
        ensures !After(FRESH, before + [Stop] + since).busy
      {
        StopDisposes(before, since);
        DisposedForGood(After(FRESH, before + [Stop]), since);
        AfterConcat(FRESH, before + [Stop], since);
      }
    }
  }

  // ---- What a driver does between two awaits ----

  /** What `flush` does before its first `await`, from inside the pass: ask for another pass, or dispose. */
  datatype Inner = Nudge | Halt

  function InnerTrace(inner: seq<Inner>): seq<Event> {
    if inner == [] then []
    else InnerTrace(inner[..|inner| - 1]) + [if inner[|inner| - 1].Nudge? then Signal else Stop]
  }

  /** What `onPass` does: ask for another pass, whose gate would answer `go`, or dispose. */
  datatype Outer = Request(go: bool, inner: seq<Inner>) | Dispose

  /** After a signal in state `m`: one gate check, and the pass if the gate says yes. */
  function AskTrace(m: Machine, go: bool, inner: seq<Inner>): seq<Event> {
    if m.disposed || m.busy then [] else [Check(go)] + if go then InnerTrace(inner) else []
  }

  function SignalTrace(m: Machine, go: bool, inner: seq<Inner>): seq<Event> {
    [Signal] + AskTrace(m, go, inner)
  }

  function OuterTrace(m: Machine, calls: seq<Outer>): seq<Event> {
    if calls == [] then []
    else
      var before := OuterTrace(m, calls[..|calls| - 1]);
      before +
      match calls[|calls| - 1]
      case Request(go, inner) => SignalTrace(After(m, before), go, inner)
      case Dispose => [Stop]
  }

  /** When a pass settles: `onPass` runs, and then what was asked for meanwhile is taken up once. */
  function SettleTrace(m: Machine, calls: seq<Outer>, go: bool, inner: seq<Inner>): seq<Event> {
    var told := [Finish] + OuterTrace(Next(m, Finish), calls);
    var m' := After(m, told);
    told + if m'.dirty && !m'.disposed then [FollowUp] + AskTrace(m', go, inner) else []
  }

  function FollowUps(log: seq<Event>): nat {
    Count(log, (e: Event) => e.FollowUp?)
  }

  /** Any burst of signals during a pass, of whatever length, causes exactly one follow-up once it is over, whatever
      `onPass` then asks for and `flush` does, unless one of those disposes of the driver; then it causes none. */
  lemma BurstCausesOneFollowUp(m: Machine, burst: nat, calls: seq<Outer>, go: bool, inner: seq<Inner>)
    requires m.busy && !m.asking && !m.disposed && burst > 0
    ensures var m' := After(m, seq(burst, _ => Signal));
            FollowUps(SettleTrace(m', calls, go, inner)) == if Stop in OuterTrace(Next(m', Finish), calls) then 0 else 1
  {
    BurstSetsDirty(m, burst);
    var m' := m.(dirty := true);
    var idle, called := Next(m', Finish), OuterTrace(Next(m', Finish), calls);
    var told := [Finish] + called;
    AcceptsOne(m', Finish);
    AfterConcat(m', [Finish], called);
    NoFollowUpsIn(idle, calls);
    DirtyUntilStop(idle, called);
    NoneCounted(told);
    assert After(m, seq(burst, _ => Signal)) == m' && After(m', told) == After(idle, called);
    assert Stop in called <==> After(m', told).disposed;
    var asked := AskTrace(After(m', told), go, inner);
    NoFollowUpsAsked(After(m', told), go, inner);
    OneCounted(told, asked);
    assert SettleTrace(m', calls, go, inner) == told + if Stop in called then [] else [FollowUp] + asked;
    assert told + [] == told;
  }

  /** And what it asks for is checked once: where `onPass` asks for nothing itself, one check follows. */
  lemma FollowUpIsChecked(m: Machine, burst: nat, go: bool, inner: seq<Inner>)
    requires m.busy && !m.asking && !m.disposed && burst > 0
    ensures var m' := After(m, seq(burst, _ => Signal));
            SettleTrace(m', [], go, inner) == [Finish, FollowUp, Check(go)] + if go then InnerTrace(inner) else []
  {
    BurstSetsDirty(m, burst);
    var m' := m.(dirty := true);
    assert [Finish] + OuterTrace(Next(m', Finish), []) == [Finish];
    assert After(m', [Finish]) == Next(m', Finish) by { AcceptsOne(m', Finish); }
  }

  /** No event of the log is a follow-up. */
  ghost predicate NoFollowUps(log: seq<Event>) {
    forall e | e in log :: !e.FollowUp?
  }

  lemma {:induction false} NoneCounted(log: seq<Event>)
    requires NoFollowUps(log)
    ensures FollowUps(log) == 0
  {
    if log != [] { NoneCounted(log[..|log| - 1]); }
  }

  lemma {:induction false} OneCounted(a: seq<Event>, b: seq<Event>)
    requires NoFollowUps(a) && NoFollowUps(b)
    ensures FollowUps(a + ([FollowUp] + b)) == 1
    decreases |b|
  {
    var log := a + ([FollowUp] + b);
    if b == [] {
      assert log[..|log| - 1] == a;
      NoneCounted(a);
    } else {
      assert log[..|log| - 1] == a + ([FollowUp] + b[..|b| - 1]) && log[|log| - 1] == b[|b| - 1];
      OneCounted(a, b[..|b| - 1]);
    }
  }

  lemma {:induction false} InnerIsPlain(inner: seq<Inner>)
    ensures forall e | e in InnerTrace(inner) :: e.Signal? || e.Stop?
  {
    if inner != [] { InnerIsPlain(inner[..|inner| - 1]); }
  }

  lemma NoFollowUpsAsked(m: Machine, go: bool, inner: seq<Inner>)
    ensures NoFollowUps(AskTrace(m, go, inner))
  {
    InnerIsPlain(inner);
  }

  lemma {:induction false} NoFollowUpsIn(m: Machine, calls: seq<Outer>)
    ensures NoFollowUps(OuterTrace(m, calls))
  {
    if calls != [] {
      NoFollowUpsIn(m, calls[..|calls| - 1]);
      if calls[|calls| - 1].Request? {
        NoFollowUpsAsked(After(m, OuterTrace(m, calls[..|calls| - 1])), calls[|calls| - 1].go, calls[|calls| - 1].inner);
      }
    }
  }

  /** The bit stays set until something is disposed of or taken up. */
  lemma {:induction false} DirtyUntilStop(m: Machine, log: seq<Event>)
    requires m.dirty && !m.disposed && NoFollowUps(log)
    ensures if Stop in log then After(m, log).disposed else After(m, log).dirty && !After(m, log).disposed
  {
    if log != [] {
      var n := |log| - 1;
      assert forall e :: e in log <==> e in log[..n] || e == log[n];
      DirtyUntilStop(m, log[..n]);
    }
  }

  lemma {:induction false} BurstSetsDirty(m: Machine, burst: nat)
    requires m.busy && !m.disposed && burst > 0
    ensures After(m, seq(burst, _ => Signal)) == m.(dirty := true)
  {
    var s := seq(burst, _ => Signal);
    assert s[..burst - 1] == seq(burst - 1, _ => Signal);
    if burst > 1 {
      BurstSetsDirty(m, burst - 1);
    } else {
      assert s[..0] == [];
    }
  }
}

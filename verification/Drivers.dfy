/** The two coalescing drivers, `createConvergenceDriver` and `createEventFlushDriver`, as they run between
    awaits. Each keeps its own fields and guards; both refine `CoalescingMachine`: what a method does in one
    go is a sequence of the machine's events. */
module Drivers {
  import opened CoalescingMachine

  /** The events `told` take the machine from `was` to `now`. */
  ghost predicate Tells(was: Machine, told: seq<Event>, now: Machine) {
    Accepts(was, told) && After(was, told) == now
  }

  lemma OneEvent(was: Machine, e: Event)
    requires Enabled(was, e)
    ensures Tells(was, [e], Next(was, e))
  {
    AcceptsOne(was, e);
  }

  lemma Continued(was: Machine, told: seq<Event>, now: Machine, more: seq<Event>, later: Machine)
    requires Tells(was, told, now) && Tells(now, more, later)
    ensures Tells(was, told + more, later)
  {
    AcceptsConcat(was, told, more);
    AfterConcat(was, told, more);
  }

  lemma Finished(was: Machine, told: seq<Event>, now: Machine)
    requires was.busy && !was.asking && Tells(Next(was, Finish), told, now)
    ensures Tells(was, [Finish] + told, now)
  {
    OneEvent(was, Finish);
    Continued(was, [Finish], Next(was, Finish), told, now);
  }

  /** What a driver's whole life so far has kept: one pass at a time, no more gate checks than signals, and while it
      is not disposed of every signal answered by a later check or still owed one. */
  lemma LifeKeepsPromises(log: seq<Event>, now: Machine)
    requires Tells(FRESH, log, now) && !now.asking
    ensures Starts(log) == Finishes(log) + One(now.busy)
    ensures Starts(log) <= Checks(log) && Checks(log) + One(now.dirty) <= Signals(log)
    ensures Stop !in log ==> forall i | 0 <= i < |log| && log[i].Signal? :: now.dirty || exists j :: i < j < |log| && log[j].Check?
  {
    OnePassInFlight(log);
    ChecksWithinSignals(log);
    if Stop !in log {
      forall i | 0 <= i < |log| && log[i].Signal? ensures now.dirty || exists j :: i < j < |log| && log[j].Check? {
        SignalsAreChecked(log, i);
      }
    }
  }

  /** A stop that saw the pass in flight, if there was one, and has resolved: nothing runs and nothing ever starts. */
  lemma LifeEndsWithStop(before: seq<Event>, at: Machine, waits: bool, since: seq<Event>, later: seq<Event>, now: Machine)
    requires Tells(FRESH, before, at) && (at.busy ==> waits) && StopResolved(waits, since)
    requires Tells(FRESH, before + [Stop] + since + later, now)
    ensures !now.busy && forall i | 0 <= i < |later| :: !later[i].Check?
  {
    StopIsFinal(before, since, later, waits);
  }

  /** Without a gate every request goes through. */
  function Ungated(gated: bool, calls: seq<Outer>): (r: seq<Outer>)
    ensures |r| == |calls|
    ensures forall i | 0 <= i < |r| ::
              r[i] == if calls[i].Request? then Request(!gated || calls[i].go, calls[i].inner) else calls[i]
  {
    seq(|calls|, i requires 0 <= i < |calls| =>
      if calls[i].Request? then Request(!gated || calls[i].go, calls[i].inner) else calls[i])
  }

  /** `createConvergenceDriver`. A pass is `flush` and then `reconcile`. */
  class ConvergenceDriver {
    var subscribed: bool
    var running: bool
    var queued: bool
    var disposed: bool
    /** Whether the promise of the pass in flight is where `stop` can see it. */
    var currentPass: bool

    /** All it has told so far. */
    ghost var log: seq<Event>

    ghost function State(): Machine
      reads this
    {
      Machine(false, running, queued, disposed)
    }

    /** Between awaits, outside the callbacks. */
    ghost predicate Valid()
      reads this
    {
      Rests(State()) && (running <==> currentPass) && (disposed ==> !queued) && Tells(FRESH, log, State())
    }

    constructor ()
      ensures Valid() && State() == FRESH && log == [] && !subscribed
    {
      subscribed, running, queued, disposed, currentPass := false, false, false, false, false;
      log := [];
    }

    /** `runPass` up to its first `await`, in answer to `cause`. The trigger's `shouldConverge` answers `go`;
        `inner` is what `flush` does before its own first `await`. */
    method RunPass(go: bool, inner: seq<Inner>, ghost cause: Event, ghost was: Machine) returns (ghost told: seq<Event>)
      requires cause.Signal? ==> was == State()
      requires disposed ==> !queued
      requires !cause.Signal? ==> cause.FollowUp? && !queued && !disposed && was == State().(dirty := true)
      modifies `subscribed, `running, `queued, `disposed, `currentPass
      ensures Tells(was, told, State()) && told == [cause] + AskTrace(was, go, inner)
      ensures running && !old(running) ==> currentPass
      ensures !running || old(running) ==> currentPass == old(currentPass)
      ensures old(running) ==> running
      ensures queued ==> (running || old(queued)) && !disposed
      decreases |inner|, 2
    {
      OneEvent(was, cause);
      told := [cause];
      if disposed || running {
        if !disposed {
          queued := true;
        }
        return;
      }
      told := CheckGate(go, inner, told, was);
    }

    /** The gate, and what it opens. */
    method CheckGate(go: bool, inner: seq<Inner>, ghost asked: seq<Event>, ghost was: Machine) returns (ghost told: seq<Event>)
      requires !running && !disposed && Tells(was, asked, State().(asking := true))
      modifies `subscribed, `running, `queued, `disposed, `currentPass
      ensures Tells(was, told, State()) && told == asked + [Check(go)] + if go then InnerTrace(inner) else []
      ensures if running then currentPass else currentPass == old(currentPass)
      ensures queued ==> (running || old(queued)) && !disposed
      decreases |inner|, 1
    {
      ghost var yes := go;
      OneMore(was, asked, Check(yes));
      told := asked + [Check(yes)];
      if !go {
        return;
      }
      running := true;
      told := Flush(inner, told, was);
      currentPass := true;
    }

    /** `flush` up to its first `await`. */
    method Flush(inner: seq<Inner>, ghost asked: seq<Event>, ghost was: Machine) returns (ghost told: seq<Event>)
      requires running && (disposed ==> !queued) && Tells(was, asked, State())
      modifies `subscribed, `running, `queued, `disposed, `currentPass
      ensures running && currentPass == old(currentPass) && (disposed ==> !queued)
      ensures Tells(was, told, State()) && told == asked + InnerTrace(inner)
      decreases |inner|, 0
    {
      told := asked;
      for i := 0 to |inner|
        invariant running && currentPass == old(currentPass) && (disposed ==> !queued)
        invariant Tells(was, told, State()) && told == asked + InnerTrace(inner[..i])
      {
        assert inner[..i + 1][..i] == inner[..i];
        ghost var now, heard := State(), told;
        if inner[i].Nudge? {
          var more := RunPass(false, [], Signal, now);
        } else {
          var waits := StopNow();
        }
        OneMore(was, heard, if inner[i].Nudge? then Signal else Stop);
        told := heard + [if inner[i].Nudge? then Signal else Stop];
      }
      assert inner[..|inner|] == inner;
    }

    /** `stop` up to its `await`; `waits` says whether it then has a pass to wait for. */
    method StopNow() returns (waits: bool)
      modifies `subscribed, `running, `queued, `disposed, `currentPass
      ensures State() == Next(old(State()), Stop)
      ensures currentPass == old(currentPass) && waits == currentPass
    {
      disposed := true;
      queued := false;
      subscribed := false;
      waits := currentPass;
    }

    /** The pass in flight settles: `onPass` is called, then what was asked for meanwhile is taken up. The
        gate answers `go` to that, and `inner` is what `flush` does first. */
    method PassSettles(calls: seq<Outer>, go: bool, inner: seq<Inner>) returns (ghost told: seq<Event>)
      requires Valid() && running
      modifies this
      ensures Valid() && Tells(old(State()), told, State()) && log == old(log) + told
      ensures told == SettleTrace(old(State()), calls, go, inner)
    {
      ghost var was := State();
      running := false;
      currentPass := false;
      told := OnPass(calls);
      Finished(was, told, State());
      told := [Finish] + told;
      if queued && !disposed {
        queued := false;
        ghost var now := State().(dirty := true);
        ghost var more := RunPass(go, inner, FollowUp, now);
        Continued(was, told, now, more, State());
        told := told + more;
      }
      Continued(FRESH, log, was, told, State());
      log := log + told;
    }

    /** `onPass` calls back into the driver. */
    method OnPass(calls: seq<Outer>) returns (ghost told: seq<Event>)
      requires !running && !currentPass && (disposed ==> !queued)
      modifies `subscribed, `running, `queued, `disposed, `currentPass
      ensures Tells(old(State()), told, State()) && told == OuterTrace(old(State()), calls)
      ensures (running <==> currentPass) && (disposed ==> !queued)
    {
      told := [];
      for i := 0 to |calls|
        invariant (running <==> currentPass) && (disposed ==> !queued)
        invariant Tells(old(State()), told, State()) && told == OuterTrace(old(State()), calls[..i])
      {
        assert calls[..i + 1][..i] == calls[..i];
        ghost var now, heard, more := State(), told, [Stop];
        match calls[i] {
          case Request(go, inner) =>
            more := RunPass(go, inner, Signal, now);
          case Dispose =>
            OneEvent(now, Stop);
            var waits := StopNow();
        }
        Continued(old(State()), heard, now, more, State());
        told := heard + more;
      }
      assert calls[..|calls|] == calls;
    }

    /** A trigger or a timer fires, or `requestPass` is called. */
    method SignalNow(go: bool, inner: seq<Inner>) returns (ghost told: seq<Event>)
      requires Valid()
      modifies this
      ensures Valid() && Tells(old(State()), told, State()) && log == old(log) + told && told == SignalTrace(old(State()), go, inner)
    {
      ghost var was := State();
      told := RunPass(go, inner, Signal, was);
      Continued(FRESH, log, was, told, State());
      log := log + told;
    }

    method Start(go: bool, inner: seq<Inner>) returns (ghost told: seq<Event>)
      requires Valid()
      modifies this
      ensures Valid() && Tells(old(State()), told, State()) && log == old(log) + told
      ensures told == if old(subscribed) || old(disposed) then [] else SignalTrace(old(State()), go, inner)
    {
      told := [];
      assert log + [] == log && Tells(State(), [], State());
      if subscribed || disposed {
        return;
      }
      subscribed := true;
      ghost var was := State();
      told := RunPass(go, inner, Signal, was);
      Continued(FRESH, log, was, told, State());
      log := log + told;
    }

    /** `stop` as a caller outside the callbacks makes it. */
    method CallStop() returns (waits: bool)
      requires Valid()
      modifies this
      ensures Valid() && log == old(log) + [Stop] && State() == Next(old(State()), Stop)
      ensures waits == old(running)
    {
      ghost var was := State();
      OneEvent(was, Stop);
      waits := StopNow();
      Continued(FRESH, log, was, [Stop], State());
      log := log + [Stop];
    }
  }

  /** `createEventFlushDriver`. Its gate is optional, and an interval drives it too. */
  class EventFlushDriver {
    const gated: bool
    var subscribed: bool
    var timer: bool
    var running: bool
    var queued: bool
    var disposed: bool
    /** Whether the promise of the pass in flight is where `stop` can see it. */
    var currentPass: bool

    /** All it has told so far. */
    ghost var log: seq<Event>

    ghost function State(): Machine
      reads this
    {
      Machine(false, running, queued, disposed)
    }

    /** Between awaits, outside the callbacks. */
    ghost predicate Valid()
      reads this
    {
      Rests(State()) && (running <==> currentPass) && (disposed ==> !queued) && Tells(FRESH, log, State())
    }

    constructor (gated: bool)
      ensures Valid() && State() == FRESH && log == [] && !timer && this.gated == gated
    {
      this.gated := gated;
      subscribed, timer, running, queued, disposed, currentPass := false, false, false, false, false, false;
      log := [];
    }

    /** `runPass` up to its first `await`, in answer to `cause`. The gate's `shouldFlush`, where there is one, answers `go`;
        `inner` is what `flush` does before its own first `await`. */
    method RunPass(go: bool, inner: seq<Inner>, ghost cause: Event, ghost was: Machine) returns (ghost told: seq<Event>)
      requires cause.Signal? ==> was == State()
      requires disposed ==> !queued
      requires !cause.Signal? ==> cause.FollowUp? && !queued && !disposed && was == State().(dirty := true)
      modifies `subscribed, `timer, `running, `queued, `disposed, `currentPass
      ensures Tells(was, told, State()) && told == [cause] + AskTrace(was, (!gated || go), inner)
      ensures running && !old(running) ==> currentPass
      ensures !running || old(running) ==> currentPass == old(currentPass)
      ensures old(running) ==> running
      ensures queued ==> (running || old(queued)) && !disposed
      decreases |inner|, 2
    {
      OneEvent(was, cause);
      told := [cause];
      if disposed || running {
        if !disposed {
          queued := true;
        }
        return;
      }
      told := CheckGate(go, inner, told, was);
    }

    /** The gate, and what it opens. */
    method CheckGate(go: bool, inner: seq<Inner>, ghost asked: seq<Event>, ghost was: Machine) returns (ghost told: seq<Event>)
      requires !running && !disposed && Tells(was, asked, State().(asking := true))
      modifies `subscribed, `timer, `running, `queued, `disposed, `currentPass
      ensures Tells(was, told, State()) && told == asked + [Check((!gated || go))] + if (!gated || go) then InnerTrace(inner) else []
      ensures if running then currentPass else currentPass == old(currentPass)
      ensures queued ==> (running || old(queued)) && !disposed
      decreases |inner|, 1
    {
      ghost var yes := (!gated || go);
      OneMore(was, asked, Check(yes));
      told := asked + [Check(yes)];
      if gated && !go {
        return;
      }
      running := true;
      told := Flush(inner, told, was);
      currentPass := true;
    }

    /** `flush` up to its first `await`. */
    method Flush(inner: seq<Inner>, ghost asked: seq<Event>, ghost was: Machine) returns (ghost told: seq<Event>)
      requires running && (disposed ==> !queued) && Tells(was, asked, State())
      modifies `subscribed, `timer, `running, `queued, `disposed, `currentPass
      ensures running && currentPass == old(currentPass) && (disposed ==> !queued)
      ensures Tells(was, told, State()) && told == asked + InnerTrace(inner)
      decreases |inner|, 0
    {
      told := asked;
      for i := 0 to |inner|
        invariant running && currentPass == old(currentPass) && (disposed ==> !queued)
        invariant Tells(was, told, State()) && told == asked + InnerTrace(inner[..i])
      {
        assert inner[..i + 1][..i] == inner[..i];
        ghost var now, heard := State(), told;
        if inner[i].Nudge? {
          var more := RunPass(false, [], Signal, now);
        } else {
          var waits := StopNow();
        }
        OneMore(was, heard, if inner[i].Nudge? then Signal else Stop);
        told := heard + [if inner[i].Nudge? then Signal else Stop];
      }
      assert inner[..|inner|] == inner;
    }

    /** `stop` up to its `await`; `waits` says whether it then has a pass to wait for. */
    method StopNow() returns (waits: bool)
      modifies `subscribed, `timer, `running, `queued, `disposed, `currentPass
      ensures State() == Next(old(State()), Stop)
      ensures currentPass == old(currentPass) && waits == currentPass
    {
      disposed := true;
      queued := false;
      subscribed := false;
      if timer {
        timer := false;
      }
      waits := currentPass;
    }

    /** The pass in flight settles: `onPass` is called, then what was asked for meanwhile is taken up. The
        gate answers `go` to that, and `inner` is what `flush` does first. */
    method PassSettles(calls: seq<Outer>, go: bool, inner: seq<Inner>) returns (ghost told: seq<Event>)
      requires Valid() && running
      modifies this
      ensures Valid() && Tells(old(State()), told, State()) && log == old(log) + told
      ensures told == SettleTrace(old(State()), Ungated(gated, calls), (!gated || go), inner)
    {
      ghost var was := State();
      running := false;
      currentPass := false;
      told := OnPass(calls);
      Finished(was, told, State());
      told := [Finish] + told;
      if queued && !disposed {
        queued := false;
        ghost var now := State().(dirty := true);
        ghost var more := RunPass(go, inner, FollowUp, now);
        Continued(was, told, now, more, State());
        told := told + more;
      }
      Continued(FRESH, log, was, told, State());
      log := log + told;
    }

    /** `onPass` calls back into the driver. */
    method OnPass(calls: seq<Outer>) returns (ghost told: seq<Event>)
      requires !running && !currentPass && (disposed ==> !queued)
      modifies `subscribed, `timer, `running, `queued, `disposed, `currentPass
      ensures Tells(old(State()), told, State()) && told == OuterTrace(old(State()), Ungated(gated, calls))
      ensures (running <==> currentPass) && (disposed ==> !queued)
    {
      told := [];
      for i := 0 to |calls|
        invariant (running <==> currentPass) && (disposed ==> !queued)
        invariant Tells(old(State()), told, State()) && told == OuterTrace(old(State()), Ungated(gated, calls)[..i])
      {
        assert Ungated(gated, calls)[..i + 1][..i] == Ungated(gated, calls)[..i];
        ghost var now, heard, more := State(), told, [Stop];
        match calls[i] {
          case Request(go, inner) =>
            more := RunPass(go, inner, Signal, now);
          case Dispose =>
            OneEvent(now, Stop);
            var waits := StopNow();
        }
        Continued(old(State()), heard, now, more, State());
        told := heard + more;
      }
      assert Ungated(gated, calls)[..|calls|] == Ungated(gated, calls);
    }

    /** A trigger or a timer fires, or `requestPass` is called. */
    method SignalNow(go: bool, inner: seq<Inner>) returns (ghost told: seq<Event>)
      requires Valid()
      modifies this
      ensures Valid() && Tells(old(State()), told, State()) && log == old(log) + told && told == SignalTrace(old(State()), (!gated || go), inner)
    {
      ghost var was := State();
      told := RunPass(go, inner, Signal, was);
      Continued(FRESH, log, was, told, State());
      log := log + told;
    }

    method Start(go: bool, inner: seq<Inner>) returns (ghost told: seq<Event>)
      requires Valid()
      modifies this
      ensures Valid() && Tells(old(State()), told, State()) && log == old(log) + told
      ensures told == if old(timer) || old(disposed) then [] else SignalTrace(old(State()), (!gated || go), inner)
    {
      told := [];
      assert log + [] == log && Tells(State(), [], State());
      if timer || disposed {
        return;
      }
      subscribed := gated;
      timer := true;
      ghost var was := State();
      told := RunPass(go, inner, Signal, was);
      Continued(FRESH, log, was, told, State());
      log := log + told;
    }

    /** `stop` as a caller outside the callbacks makes it. */
    method CallStop() returns (waits: bool)
      requires Valid()
      modifies this
      ensures Valid() && log == old(log) + [Stop] && State() == Next(old(State()), Stop)
      ensures waits == old(running)
    {
      ghost var was := State();
      OneEvent(was, Stop);
      waits := StopNow();
      Continued(FRESH, log, was, [Stop], State());
      log := log + [Stop];
    }
  }
}

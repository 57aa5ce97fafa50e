/** The drain signal of the Event lane: `publishEmpty`, `onOutboxStatus` and the initial probe's callback.
    Subscribers are numbered in the order they subscribe, which is the order a JavaScript Set visits them in, those
    added during the visit included. A subscriber that is called may subscribe others, drop some and throw. */
module DrainSignal {
  import opened Options

  datatype Signal = Signal(currentEmpty: Option<bool>, live: set<nat>, heard: seq<seq<bool>>)

  ghost predicate Known(s: Signal) {
    forall id | id in s.live :: id < |s.heard|
  }

  const SILENT := Signal(None, {}, [])

  /** What one call of a listener does before it returns. */
  datatype Reaction = Reaction(subscribes: nat, unsubscribes: set<nat>, throws: bool)

  function Deliver(s: Signal, id: nat): Signal
    requires id < |s.heard| && s.currentEmpty.Some?
  {
    s.(heard := s.heard[id := s.heard[id] + [s.currentEmpty.value]])
  }

  /** A known state is delivered on subscribe. */
  function Subscribed(s: Signal): Signal {
    s.(live := s.live + {|s.heard|},
       heard := s.heard + [if s.currentEmpty.Some? then [s.currentEmpty.value] else []])
  }

  function SubscribedTimes(s: Signal, n: nat): Signal {
    if n == 0 then s else Subscribed(SubscribedTimes(s, n - 1))
  }

  function React(s: Signal, r: Reaction): Signal {
    var t := SubscribedTimes(s, r.subscribes);
    t.(live := t.live - r.unsubscribes)
  }

  /** The listeners from the `k`-th on are visited, and the next of the reactions is what the next call does. */
  function FanOut(s: Signal, k: nat, reactions: seq<Reaction>): Signal
    requires s.currentEmpty.Some?
    decreases |reactions|, |s.heard| - k
  {
    if k >= |s.heard| then s
    else if k !in s.live then FanOut(s, k + 1, reactions)
    else if reactions == [] then FanOut(Deliver(s, k), k + 1, [])
    else
      ReactKeepsHeard(Deliver(s, k), reactions[0]);
      var t := React(Deliver(s, k), reactions[0]);
      if reactions[0].throws then t else FanOut(t, k + 1, reactions[1..])
  }

  function Published(s: Signal, empty: bool, reactions: seq<Reaction>): Signal {
    if s.currentEmpty == Some(empty) then s else FanOut(s.(currentEmpty := Some(empty)), 0, reactions)
  }

  /** The initial probe's callback for one subscriber. */
  function ProbeSettled(s: Signal, id: nat): Signal
    requires id < |s.heard|
  {
    if s.heard[id] == [] && id in s.live && s.currentEmpty.Some? then Deliver(s, id) else s
  }

  lemma {:induction false} ReactKeepsHeard(s: Signal, r: Reaction)
    ensures var t := React(s, r);
            && t.currentEmpty == s.currentEmpty && |t.heard| == |s.heard| + r.subscribes && s.heard <= t.heard
            && (forall id | 0 <= id < |s.heard| :: id in t.live <==> id in s.live && id !in r.unsubscribes)
            && (s.currentEmpty.Some? ==> forall id | |s.heard| <= id < |t.heard| :: t.heard[id] == [s.currentEmpty.value])
            && (Known(s) ==> Known(t))
            && (s.currentEmpty.Some? ==> forall id | |s.heard| <= id < |t.heard| && id !in r.unsubscribes :: id in t.live)
  {
    SubscribedKeepsHeard(s, r.subscribes);
  }

  lemma {:induction false} SubscribedKeepsHeard(s: Signal, n: nat)
    ensures var t := SubscribedTimes(s, n);
            && t.currentEmpty == s.currentEmpty && |t.heard| == |s.heard| + n && s.heard <= t.heard
            && (forall id | 0 <= id < |s.heard| :: id in t.live <==> id in s.live)
            && (forall id | |s.heard| <= id < |t.heard| :: id in t.live)
            && (s.currentEmpty.Some? ==> forall id | |s.heard| <= id < |t.heard| :: t.heard[id] == [s.currentEmpty.value])
            && (Known(s) ==> Known(t))
  {
    if n > 0 { SubscribedKeepsHeard(s, n - 1); }
  }

  // ---- What a subscriber hears ----

  ghost predicate Alternates(log: seq<bool>) {
    forall i | 0 < i < |log| :: log[i] != log[i - 1]
  }

  /** The subscriber has heard an alternating sequence, and while it stays the last it heard is the state. */
  ghost predicate InStep(s: Signal, id: nat)
    requires id < |s.heard|
  {
    && Alternates(s.heard[id])
    && (id in s.live ==> if s.heard[id] == [] then s.currentEmpty.None? else s.currentEmpty == Some(s.heard[id][|s.heard[id]| - 1]))
  }

  ghost predicate AllInStep(s: Signal) {
    && Known(s)
    && forall id | 0 <= id < |s.heard| :: InStep(s, id)
  }

  predicate NoneThrows(reactions: seq<Reaction>) {
    forall r | r in reactions :: !r.throws
  }

  lemma AlternatesOn(log: seq<bool>, b: bool)
    requires Alternates(log) && (log != [] ==> log[|log| - 1] != b)
    ensures Alternates(log + [b])
  {
  }

  // ---- Exactly when a publish keeps everyone in step ----

  /** The listeners that the visit from `k` on calls. */
  function Called(s: Signal, k: nat, reactions: seq<Reaction>): set<nat>
    requires s.currentEmpty.Some?
    decreases |reactions|, |s.heard| - k
  {
    if k >= |s.heard| then {}
    else if k !in s.live then Called(s, k + 1, reactions)
    else if reactions == [] then {k} + Called(Deliver(s, k), k + 1, [])
    else
      ReactKeepsHeard(Deliver(s, k), reactions[0]);
      var t := React(Deliver(s, k), reactions[0]);
      {k} + if reactions[0].throws then {} else Called(t, k + 1, reactions[1..])
  }

  /** Whatever the calls do, one that was called has heard the state once more, and a newcomer once on joining. */
  lemma {:induction false} CalledHear(s: Signal, k: nat, reactions: seq<Reaction>, id: nat)
    requires s.currentEmpty.Some?
    ensures var t, e := FanOut(s, k, reactions), s.currentEmpty.value;
            && t.currentEmpty == s.currentEmpty && |t.heard| >= |s.heard|
            && (id in Called(s, k, reactions) ==> k <= id < |t.heard| && (id < |s.heard| ==> id in s.live))
            && (id < |t.heard| ==>
                  t.heard[id] == (if id < |s.heard| then s.heard[id] else [e]) + if id in Called(s, k, reactions) then [e] else [])
            && (id < |s.heard| && id in t.live ==> id in s.live)
    decreases |reactions|, |s.heard| - k
  {
    if k >= |s.heard| {
    } else if k !in s.live {
      CalledHear(s, k + 1, reactions, id);
    } else if reactions == [] {
      CalledHear(Deliver(s, k), k + 1, [], id);
    } else {
      ReactKeepsHeard(Deliver(s, k), reactions[0]);
      if !reactions[0].throws { CalledHear(React(Deliver(s, k), reactions[0]), k + 1, reactions[1..], id); }
    }
  }

  /** Unless a call throws, the visit calls everyone ahead who stays to its end, those that joined included. */
  lemma {:induction false} StayersAreCalled(s: Signal, k: nat, reactions: seq<Reaction>, id: nat)
    requires s.currentEmpty.Some? && NoneThrows(reactions)
    ensures k <= id < |FanOut(s, k, reactions).heard| && id in FanOut(s, k, reactions).live ==> id in Called(s, k, reactions)
    decreases |reactions|, |s.heard| - k
  {
    if k >= |s.heard| {
    } else if k !in s.live {
      StayersAreCalled(s, k + 1, reactions, id);
      CalledHear(s, k + 1, reactions, k);
    } else if reactions == [] {
      StayersAreCalled(Deliver(s, k), k + 1, [], id);
    } else {
      assert reactions[0] in reactions && forall r | r in reactions[1..] :: r in reactions;
      ReactKeepsHeard(Deliver(s, k), reactions[0]);
      StayersAreCalled(React(Deliver(s, k), reactions[0]), k + 1, reactions[1..], id);
    }
  }

  /** A publish of a new state leaves a subscriber in step exactly when it was called or has left; a newcomer,
      which has heard the state already, exactly when it was not called. */
  lemma InStepExactly(s: Signal, empty: bool, reactions: seq<Reaction>, id: nat)
    requires s.currentEmpty != Some(empty) && (id < |s.heard| ==> InStep(s, id))
    requires id < |Published(s, empty, reactions).heard|
    ensures var t, called := Published(s, empty, reactions), Called(s.(currentEmpty := Some(empty)), 0, reactions);
            InStep(t, id) <==> if id < |s.heard| then id in t.live ==> id in called else id !in called
  {
    var u := s.(currentEmpty := Some(empty));
    var t := FanOut(u, 0, reactions);
    CalledHear(u, 0, reactions, id);
    if id < |s.heard| {
      if id in Called(u, 0, reactions) { AlternatesOn(s.heard[id], empty); }
    } else if id in Called(u, 0, reactions) {
      assert t.heard[id] == [empty, empty] && t.heard[id][1] == t.heard[id][0];
    }
  }

  /** A subscriber in step before a publish is in step after it, and has heard the new state once if it stays. */
  lemma PublishKeepsInStep(s: Signal, empty: bool, reactions: seq<Reaction>, id: nat)
    requires id < |s.heard| && InStep(s, id) && NoneThrows(reactions)
    ensures var t := Published(s, empty, reactions);
            && id < |t.heard| && InStep(t, id)
            && (id in t.live ==> t.heard[id] == if s.currentEmpty == Some(empty) then s.heard[id] else s.heard[id] + [empty])
  {
    if s.currentEmpty != Some(empty) {
      var u := s.(currentEmpty := Some(empty));
      CalledHear(u, 0, reactions, id);
      StayersAreCalled(u, 0, reactions, id);
      InStepExactly(s, empty, reactions, id);
    }
  }

  /** A subscriber that joined from inside a delivery and stays hears the same state twice: once on subscribing,
      once more when the visit reaches it. */
  lemma JoinedInsideHearsTwice(s: Signal, empty: bool, reactions: seq<Reaction>, id: nat)
    requires NoneThrows(reactions)
    requires |s.heard| <= id < |Published(s, empty, reactions).heard| && id in Published(s, empty, reactions).live
    ensures Published(s, empty, reactions).heard[id] == [empty, empty]
    ensures !Alternates(Published(s, empty, reactions).heard[id])
  {
    var u := s.(currentEmpty := Some(empty));
    CalledHear(u, 0, reactions, id);
    StayersAreCalled(u, 0, reactions, id);
    var log := Published(s, empty, reactions).heard[id];
    assert log[1] == log[0];
  }

  /** Everyone from before who is still there afterwards is called, and no newcomer is. */
  ghost predicate CallsAllAndOnly(s: Signal, empty: bool, reactions: seq<Reaction>) {
    var t, called := Published(s, empty, reactions), Called(s.(currentEmpty := Some(empty)), 0, reactions);
    (forall id | 0 <= id < |s.heard| && id in t.live :: id in called) && forall id | id in called :: id < |s.heard|
  }

  /** Joins, leaves and throws together: everyone is in step after a publish exactly when nothing was to be said, or
      everyone from before who is still there was called and no newcomer was. */
  lemma PublishKeepsAllInStep(s: Signal, empty: bool, reactions: seq<Reaction>)
    requires AllInStep(s)
    ensures AllInStep(Published(s, empty, reactions)) <==> s.currentEmpty == Some(empty) || CallsAllAndOnly(s, empty, reactions)
  {
    var u := s.(currentEmpty := Some(empty));
    var t := Published(s, empty, reactions);
    if s.currentEmpty != Some(empty) {
      LiveAreKnown(u, 0, reactions);
      forall id | 0 <= id < |t.heard|
        ensures InStep(t, id) <==> if id < |s.heard| then id in t.live ==> id in Called(u, 0, reactions) else id !in Called(u, 0, reactions)
      {
        InStepExactly(s, empty, reactions, id);
      }
      forall id | id in Called(u, 0, reactions) ensures id < |t.heard| { CalledHear(u, 0, reactions, id); }
      CalledHear(u, 0, reactions, 0);
    }
  }

  // ---- The same, before the call ----

  /** How many of the listeners from `k` up to `n` are there. */
  function Ahead(s: Signal, k: nat, n: nat): nat
    decreases n - k
  {
    if k >= n then 0 else Ahead(s, k + 1, n) + if k in s.live then 1 else 0
  }

  predicate NobodyLeaves(reactions: seq<Reaction>) {
    forall r | r in reactions :: r.unsubscribes == {}
  }

  /** None of the first `calls` calls throws. */
  predicate NoneThrowsWithin(reactions: seq<Reaction>, calls: nat) {
    forall j | 0 <= j < |reactions| && j < calls :: !reactions[j].throws
  }

  /** None of the first `calls` calls subscribes anybody. */
  predicate NobodyJoinsWithin(reactions: seq<Reaction>, calls: nat) {
    forall j | 0 <= j < |reactions| && j < calls :: reactions[j].subscribes == 0
  }

  /** Everyone there is called and nobody else: no call but the last throws, and the last does or nobody joined. */
  predicate ReachesAll(reactions: seq<Reaction>, calls: nat, beyond: bool) {
    && (calls > 0 ==> NoneThrowsWithin(reactions, calls - 1))
    && (!NoneThrowsWithin(reactions, calls) || (NobodyJoinsWithin(reactions, calls) && !beyond))
  }

  /** Whether somebody numbered `n` or above is there. */
  ghost predicate Beyond(s: Signal, n: nat) {
    exists id :: id in s.live && n <= id < |s.heard|
  }

  lemma {:induction false} SameAhead(s: Signal, t: Signal, k: nat, n: nat)
    requires forall id | k <= id < n :: id in s.live <==> id in t.live
    ensures Ahead(t, k, n) == Ahead(s, k, n)
    decreases n - k
  {
    if k < n { SameAhead(s, t, k + 1, n); }
  }

  /** The listeners up to `n` that are there are all called, and none from `n` on. */
  ghost predicate CallsJust(s: Signal, k: nat, n: nat, called: set<nat>) {
    (forall id | k <= id < n && id in s.live :: id in called) && forall id | id in called :: id < n
  }

  lemma ReachesNext(reactions: seq<Reaction>, calls: nat, beyond: bool)
    requires reactions != [] && calls > 0 && !reactions[0].throws
    ensures ReachesAll(reactions, calls, beyond) <==>
            ReachesAll(reactions[1..], calls - 1, beyond || reactions[0].subscribes > 0)
  {
    var rest := reactions[1..];
    assert forall j | 0 < j < |reactions| :: reactions[j] == rest[j - 1];
    assert forall j | 0 <= j < |rest| :: rest[j] == reactions[j + 1];
    assert NoneThrowsWithin(reactions, calls) <==> NoneThrowsWithin(rest, calls - 1);
    assert calls > 1 ==> (NoneThrowsWithin(reactions, calls - 1) <==> NoneThrowsWithin(rest, calls - 2));
    assert NobodyJoinsWithin(reactions, calls) <==> reactions[0].subscribes == 0 && NobodyJoinsWithin(rest, calls - 1);
  }

  lemma {:induction false} ReachesAllExactly(s: Signal, k: nat, n: nat, reactions: seq<Reaction>)
    requires s.currentEmpty.Some? && k <= n <= |s.heard| && NobodyLeaves(reactions)
    ensures CallsJust(s, k, n, Called(s, k, reactions)) <==> ReachesAll(reactions, Ahead(s, k, n), Beyond(s, n))
    decreases n - k
  {
    if k == n {
      SomebodyCalled(s, k, reactions);
    } else if k !in s.live {
      ReachesAllExactly(s, k + 1, n, reactions);
    } else if reactions == [] {
      var u := Deliver(s, k);
      SameAhead(s, u, k + 1, n);
      ReachesAllExactly(u, k + 1, n, []);
      assert CallsJust(s, k, n, Called(s, k, [])) <==> CallsJust(u, k + 1, n, Called(u, k + 1, []));
      assert Beyond(s, n) <==> Beyond(u, n);
    } else {
      ReachesAllStep(s, k, n, reactions);
    }
  }

  lemma {:induction false} ReachesAllStep(s: Signal, k: nat, n: nat, reactions: seq<Reaction>)
    requires s.currentEmpty.Some? && k < n <= |s.heard| && NobodyLeaves(reactions) && k in s.live && reactions != []
    ensures CallsJust(s, k, n, Called(s, k, reactions)) <==> ReachesAll(reactions, Ahead(s, k, n), Beyond(s, n))
    decreases n - k, 0
  {
    var u := Deliver(s, k);
    assert reactions[0] in reactions && forall r | r in reactions[1..] :: r in reactions;
    ReactKeepsHeard(u, reactions[0]);
    var t := React(u, reactions[0]);
    SameAhead(s, t, k + 1, n);
    if reactions[0].throws {
      NoneAhead(s, k + 1, n);
    } else {
      ReachesAllExactly(t, k + 1, n, reactions[1..]);
      ReachesNext(reactions, Ahead(s, k, n), Beyond(s, n));
      BeyondAfter(s, t, n, reactions[0].subscribes);
      assert CallsJust(s, k, n, Called(s, k, reactions)) <==> CallsJust(t, k + 1, n, Called(t, k + 1, reactions[1..]));
    }
  }

  lemma BeyondAfter(s: Signal, t: Signal, n: nat, joined: nat)
    requires n <= |s.heard| && |t.heard| == |s.heard| + joined
    requires forall id | 0 <= id < |s.heard| :: id in t.live <==> id in s.live
    requires forall id | |s.heard| <= id < |t.heard| :: id in t.live
    ensures Beyond(t, n) <==> Beyond(s, n) || joined > 0
  {
    if joined > 0 { assert |s.heard| in t.live; }
  }

  lemma {:induction false} NoneAhead(s: Signal, k: nat, n: nat)
    ensures Ahead(s, k, n) == 0 <==> forall id | k <= id < n :: id !in s.live
    decreases n - k
  {
    if k < n { NoneAhead(s, k + 1, n); }
  }

  /** The visit calls somebody exactly when somebody is there. */
  lemma {:induction false} SomebodyCalled(s: Signal, k: nat, reactions: seq<Reaction>)
    requires s.currentEmpty.Some? && k <= |s.heard|
    ensures Called(s, k, reactions) != {} <==> Beyond(s, k)
    ensures forall id | id in Called(s, k, reactions) :: id >= k
    decreases |s.heard| - k
  {
    forall id | id in Called(s, k, reactions) ensures id >= k { CalledHear(s, k, reactions, id); }
    if k < |s.heard| {
      if k in s.live {
        assert k in Called(s, k, reactions);
      } else {
        SomebodyCalled(s, k + 1, reactions);
      }
    }
  }

  /** Where nobody leaves meanwhile, that is a test on what the calls do: none of those made but the last throws, and
      the last does or none of them subscribes anybody. A throw starves the listeners behind it, and one that comes
      last spares the newcomers. */
  lemma PublishKeepsAllInStepExactly(s: Signal, empty: bool, reactions: seq<Reaction>)
    requires AllInStep(s) && NobodyLeaves(reactions)
    ensures AllInStep(Published(s, empty, reactions)) <==>
            s.currentEmpty == Some(empty) || ReachesAll(reactions, Ahead(s, 0, |s.heard|), false)
  {
    PublishKeepsAllInStep(s, empty, reactions);
    if s.currentEmpty != Some(empty) {
      var u, n := s.(currentEmpty := Some(empty)), |s.heard|;
      var t := Published(s, empty, reactions);
      ReachesAllExactly(u, 0, n, reactions);
      SameAhead(s, u, 0, n);
      forall id | 0 <= id < n ensures id in t.live <==> id in s.live {
        CalledHear(u, 0, reactions, id);
        if id in s.live { StaysLive(u, 0, reactions, id); CalledHear(u, 0, reactions, 0); }
      }
      assert CallsJust(u, 0, n, Called(u, 0, reactions)) <==>
        (forall id | 0 <= id < n && id in t.live :: id in Called(u, 0, reactions)) && forall id | id in Called(u, 0, reactions) :: id < n;
    }
  }

  /** Where listeners leave too, the visit is played on the numbers of those there alone, without what they hear. */
  datatype Visit = Visit(called: set<nat>, live: set<nat>, count: nat)

  function Joined(live: set<nat>, count: nat, n: nat): set<nat> {
    if n == 0 then live else Joined(live, count, n - 1) + {count + n - 1}
  }

  function Calling(k: nat, v: Visit): Visit {
    v.(called := v.called + {k})
  }

  function Played(live: set<nat>, count: nat, k: nat, reactions: seq<Reaction>): Visit
    decreases |reactions|, count - k
  {
    if k >= count then Visit({}, live, count)
    else if k !in live then Played(live, count, k + 1, reactions)
    else if reactions == [] then Calling(k, Played(live, count, k + 1, []))
    else
      var r := reactions[0];
      var live', count' := Joined(live, count, r.subscribes) - r.unsubscribes, count + r.subscribes;
      Calling(k, if r.throws then Visit({}, live', count') else Played(live', count', k + 1, reactions[1..]))
  }

  lemma {:induction false} SubscribedJoin(s: Signal, n: nat)
    ensures SubscribedTimes(s, n).live == Joined(s.live, |s.heard|, n)
  {
    if n > 0 {
      SubscribedJoin(s, n - 1);
      SubscribedKeepsHeard(s, n - 1);
    }
  }

  lemma {:induction false} PlayedIsTheVisit(s: Signal, k: nat, reactions: seq<Reaction>)
    requires s.currentEmpty.Some?
    ensures var t := FanOut(s, k, reactions);
            Played(s.live, |s.heard|, k, reactions) == Visit(Called(s, k, reactions), t.live, |t.heard|)
    decreases |reactions|, |s.heard| - k
  {
    if k >= |s.heard| {
    } else if k !in s.live {
      PlayedIsTheVisit(s, k + 1, reactions);
    } else if reactions == [] {
      PlayedIsTheVisit(Deliver(s, k), k + 1, []);
    } else {
      var u := Deliver(s, k);
      ReactKeepsHeard(u, reactions[0]);
      SubscribedJoin(u, reactions[0].subscribes);
      if !reactions[0].throws { PlayedIsTheVisit(React(u, reactions[0]), k + 1, reactions[1..]); }
    }
  }

  /** The test before the call: of those numbered below `count` all that will still be there are called, and nobody else. */
  predicate PlaysWell(live: set<nat>, count: nat, reactions: seq<Reaction>) {
    var v := Played(live, count, 0, reactions);
    (forall id | id in v.live && id < count :: id in v.called) && forall id | id in v.called :: id < count
  }

  /** Joins, leaves and throws together, before the call. */
  lemma PublishKeepsAllInStepBefore(s: Signal, empty: bool, reactions: seq<Reaction>)
    requires AllInStep(s)
    ensures AllInStep(Published(s, empty, reactions)) <==>
            s.currentEmpty == Some(empty) || PlaysWell(s.live, |s.heard|, reactions)
  {
    PublishKeepsAllInStep(s, empty, reactions);
    PlayedIsTheVisit(s.(currentEmpty := Some(empty)), 0, reactions);
  }

  lemma {:induction false} StaysLive(s: Signal, k: nat, reactions: seq<Reaction>, id: nat)
    requires s.currentEmpty.Some? && NobodyLeaves(reactions) && id < |s.heard| && id in s.live
    ensures id in FanOut(s, k, reactions).live
    decreases |reactions|, |s.heard| - k
  {
    if k >= |s.heard| {
    } else if k !in s.live {
      StaysLive(s, k + 1, reactions, id);
    } else if reactions == [] {
      StaysLive(Deliver(s, k), k + 1, [], id);
    } else {
      assert reactions[0] in reactions && forall r | r in reactions[1..] :: r in reactions;
      ReactKeepsHeard(Deliver(s, k), reactions[0]);
      if !reactions[0].throws { StaysLive(React(Deliver(s, k), reactions[0]), k + 1, reactions[1..], id); }
    }
  }

  lemma {:induction false} LiveAreKnown(s: Signal, k: nat, reactions: seq<Reaction>)
    requires s.currentEmpty.Some? && Known(s)
    ensures Known(FanOut(s, k, reactions))
    decreases |reactions|, |s.heard| - k
  {
    if k >= |s.heard| {
    } else if k !in s.live {
      LiveAreKnown(s, k + 1, reactions);
    } else if reactions == [] {
      LiveAreKnown(Deliver(s, k), k + 1, []);
    } else {
      ReactKeepsHeard(Deliver(s, k), reactions[0]);
      if !reactions[0].throws { LiveAreKnown(React(Deliver(s, k), reactions[0]), k + 1, reactions[1..]); }
    }
  }

  /** A subscriber that stays and is not called, since one before it threw, has missed a state; called at the next
      publish, it hears one that it has heard already. */
  lemma StarvedHearsTheOldStateAgain(s: Signal, empty: bool, first: seq<Reaction>, second: seq<Reaction>, id: nat)
    requires s.currentEmpty == Some(!empty) && id < |s.heard| && InStep(s, id) && id in s.live
    requires id !in Called(s.(currentEmpty := Some(empty)), 0, first)
    requires var t := Published(s, empty, first); id in Called(t.(currentEmpty := Some(!empty)), 0, second)
    ensures var t := Published(s, empty, first);
            var u := Published(t, !empty, second);
            && t.currentEmpty == Some(empty) && id < |t.heard| && t.heard[id] == s.heard[id] && (id in t.live ==> !InStep(t, id))
            && id < |u.heard| && u.heard[id] == s.heard[id] + [!empty] && !Alternates(u.heard[id])
  {
    var t := Published(s, empty, first);
    CalledHear(s.(currentEmpty := Some(empty)), 0, first, id);
    CalledHear(t.(currentEmpty := Some(!empty)), 0, second, id);
    var log, n := Published(t, !empty, second).heard[id], |s.heard[id]|;
    assert log[n] == log[n - 1];
  }

  /** For instance: two listeners, the first of which throws at one publish. */
  lemma ThrowingListenerStarvesTheNext()
    ensures var s := Signal(Some(false), {0, 1}, [[false], [false]]);
            && AllInStep(s)
            && Published(Published(s, true, [Reaction(0, {}, true)]), false, []) ==
                 Signal(Some(false), {0, 1}, [[false, true, false], [false, false]])
  {
    var s := Signal(Some(false), {0, 1}, [[false], [false]]);
    var thrower := Reaction(0, {}, true);
    var t := Signal(Some(true), {0, 1}, [[false, true], [false]]);
    assert [false] + [true] == [false, true] && [false, true] + [false] == [false, true, false] && [false] + [false] == [false, false];
    assert Deliver(s.(currentEmpty := Some(true)), 0).heard == t.heard;
    assert SubscribedTimes(t, 0) == t && t.live - {} == t.live;
    assert React(t, thrower) == t;
    assert Published(s, true, [thrower]) == t;
    var u := t.(currentEmpty := Some(false));
    var v := Deliver(u, 0);
    assert v.heard == [[false, true, false], [false]] && Deliver(v, 1).heard == [[false, true, false], [false, false]];
    assert Published(t, false, []) == FanOut(u, 0, []) == FanOut(v, 1, []) == FanOut(Deliver(v, 1), 2, []);
  }

  // ---- Runs ----

  datatype Op = Subscribe | Unsubscribe(id: nat) | Publish(empty: bool, reactions: seq<Reaction>) | Settle(id: nat)

  function Do(s: Signal, op: Op): Signal {
    match op
    case Subscribe => Subscribed(s)
    case Unsubscribe(id) => s.(live := s.live - {id})
    case Publish(empty, reactions) => Published(s, empty, reactions)
    case Settle(id) => if id < |s.heard| then ProbeSettled(s, id) else s
  }

  function After(s: Signal, ops: seq<Op>): Signal {
    if ops == [] then s else Do(After(s, ops[..|ops| - 1]), ops[|ops| - 1])
  }

  ghost predicate Smooth(s: Signal, op: Op) {
    op.Publish? && s.currentEmpty != Some(op.empty) ==> CallsAllAndOnly(s, op.empty, op.reactions)
  }

  lemma DoKeepsAllInStep(s: Signal, op: Op)
    requires AllInStep(s)
    ensures AllInStep(Do(s, op)) <==> Smooth(s, op)
  {
    if op.Publish? {
      PublishKeepsAllInStep(s, op.empty, op.reactions);
    } else {
      forall id | 0 <= id < |Do(s, op).heard| ensures InStep(Do(s, op), id) {
        assert id < |s.heard| ==> InStep(s, id);
      }
    }
  }

  /** Over any run at all: everyone is in step all along exactly when each publish of a new state calls everyone who
      stays and no newcomer. */
  lemma InStepAllAlongExactly(ops: seq<Op>, n: nat)
    requires n <= |ops|
    ensures (forall k | 0 <= k <= n :: AllInStep(After(SILENT, ops[..k]))) <==>
            forall k | 0 <= k < n :: Smooth(After(SILENT, ops[..k]), ops[k])
  {
    var inStep := seq(n + 1, k requires 0 <= k <= n => AllInStep(After(SILENT, ops[..k])));
    var smooth := seq(n, k requires 0 <= k < n => Smooth(After(SILENT, ops[..k]), ops[k]));
    assert ops[..0] == [] && inStep[0];
    assert forall k | 0 <= k <= n :: inStep[k] == AllInStep(After(SILENT, ops[..k]));
    assert forall k | 0 <= k < n :: smooth[k] == Smooth(After(SILENT, ops[..k]), ops[k]);
    forall k | 0 <= k < n && inStep[k] ensures inStep[k + 1] <==> smooth[k] {
      StaysInStepExactly(ops, k);
      assert inStep[k + 1] == AllInStep(After(SILENT, ops[..k + 1]));
    }
    AllAlong(inStep, smooth, n);
  }

  lemma {:induction false} AllAlong(p: seq<bool>, q: seq<bool>, n: nat)
    requires |p| == |q| + 1 && n <= |q| && p[0] && forall k | 0 <= k < |q| && p[k] :: p[k + 1] <==> q[k]
    ensures (forall k | 0 <= k <= n :: p[k]) <==> forall k | 0 <= k < n :: q[k]
  {
    if n > 0 {
      AllAlong(p, q, n - 1);
      assert p[n - 1] ==> (p[n - 1 + 1] <==> q[n - 1]);
    }
  }

  lemma StaysInStepExactly(ops: seq<Op>, k: nat)
    requires k < |ops|
    ensures AllInStep(After(SILENT, ops[..k])) ==>
              (AllInStep(After(SILENT, ops[..k + 1])) <==> Smooth(After(SILENT, ops[..k]), ops[k]))
  {
    AfterOne(ops, k);
    if AllInStep(After(SILENT, ops[..k])) { DoKeepsAllInStep(After(SILENT, ops[..k]), ops[k]); }
  }

  lemma AfterOne(ops: seq<Op>, k: nat)
    requires k < |ops|
    ensures After(SILENT, ops[..k + 1]) == Do(After(SILENT, ops[..k]), ops[k])
  {
    assert ops[..k + 1][..k] == ops[..k];
  }

  predicate Calm(op: Op) {
    op.Publish? ==> forall r | r in op.reactions :: !r.throws && r.subscribes == 0
  }

  lemma {:induction false} NobodyJoinsKeepsHeard(s: Signal, k: nat, reactions: seq<Reaction>)
    requires s.currentEmpty.Some? && Calm(Publish(true, reactions))
    ensures |FanOut(s, k, reactions).heard| == |s.heard|
    decreases |reactions|, |s.heard| - k
  {
    if k >= |s.heard| {
    } else if k !in s.live {
      NobodyJoinsKeepsHeard(s, k + 1, reactions);
    } else if reactions == [] {
      NobodyJoinsKeepsHeard(Deliver(s, k), k + 1, []);
    } else {
      assert reactions[0] in reactions && forall r | r in reactions[1..] :: r in reactions;
      ReactKeepsHeard(Deliver(s, k), reactions[0]);
      NobodyJoinsKeepsHeard(React(Deliver(s, k), reactions[0]), k + 1, reactions[1..]);
    }
  }

  /** Over any run of subscriptions, removals, publishes and probe callbacks in which no listener throws or
      subscribes another from inside a call, each subscriber hears a strictly alternating sequence, whose last
      element is the state as long as it stays. */
  lemma {:induction false} SubscribersStayInStep(ops: seq<Op>)
    requires forall op | op in ops :: Calm(op)
    ensures AllInStep(After(SILENT, ops))
  {
    if ops != [] {
      var s := After(SILENT, ops[..|ops| - 1]);
      var op := ops[|ops| - 1];
      assert op in ops && forall o | o in ops[..|ops| - 1] :: o in ops;
      SubscribersStayInStep(ops[..|ops| - 1]);
      if op.Publish? && s.currentEmpty != Some(op.empty) {
        var u := s.(currentEmpty := Some(op.empty));
        NobodyJoinsKeepsHeard(u, 0, op.reactions);
        LiveAreKnown(u, 0, op.reactions);
        forall id | 0 <= id < |s.heard| ensures InStep(Do(s, op), id) { PublishKeepsInStep(s, op.empty, op.reactions, id); }
      } else {
        forall id | 0 <= id < |Do(s, op).heard| ensures InStep(Do(s, op), id) {
          assert id < |s.heard| ==> InStep(s, id);
        }
      }
    }
  }

  /** The initial probe's callback never delivers a second time; it is needed only after a listener threw. */
  lemma ProbeDeliversOnlyTheMissed(s: Signal, id: nat)
    requires id < |s.heard|
    ensures s.heard[id] != [] ==> ProbeSettled(s, id) == s
    ensures InStep(s, id) ==> ProbeSettled(s, id) == s
    ensures id in s.live && s.heard[id] == [] && s.currentEmpty.Some? ==> InStep(ProbeSettled(s, id), id)
  {
  }

  // ---- The code ----

  class DrainSignalHub {
    var currentEmpty: Option<bool>
    var statusListeners: set<nat>
    var heard: seq<seq<bool>>

    function Now(): Signal
      reads this
    {
      Signal(currentEmpty, statusListeners, heard)
    }

    constructor ()
      ensures Now() == SILENT
    {
      currentEmpty, statusListeners, heard := None, {}, [];
    }

    method OnOutboxStatus() returns (id: nat)
      modifies this
      ensures id == |old(heard)| && Now() == Subscribed(old(Now()))
      ensures currentEmpty.Some? ==> heard[id] == [currentEmpty.value]
    {
      id := |heard|;
      heard := heard + [[]];
      statusListeners := statusListeners + {id};
      if currentEmpty.Some? {
        heard := heard[id := [currentEmpty.value]];
      }
    }

    method OffOutboxStatus(id: nat)
      modifies this
      ensures Now() == old(Now()).(live := old(Now()).live - {id})
    {
      statusListeners := statusListeners - {id};
    }

    method InitialProbeSettled(id: nat)
      requires id < |heard|
      modifies this
      ensures Now() == ProbeSettled(old(Now()), id)
    {
      var delivered := heard[id] != [];
      if !delivered && id in statusListeners && currentEmpty.Some? {
        heard := heard[id := heard[id] + [currentEmpty.value]];
      }
    }

    /** What a listener does from inside its call. */
    method ReactTo(r: Reaction)
      requires currentEmpty.Some?
      modifies this
      ensures Now() == React(old(Now()), r) && currentEmpty == old(currentEmpty)
    {
      for n := 0 to r.subscribes
        invariant Now() == SubscribedTimes(old(Now()), n) && currentEmpty == old(currentEmpty)
      {
        var id := OnOutboxStatus();
      }
      statusListeners := statusListeners - r.unsubscribes;
    }

    method PublishEmpty(empty: bool, reactions: seq<Reaction>)
      modifies this
      ensures Now() == Published(old(Now()), empty, reactions)
    {
      if currentEmpty == Some(empty) {
        return;
      }
      currentEmpty := Some(empty);
      ghost var start := Now();
      var k, rest := 0, reactions;
      while k < |heard|
        invariant currentEmpty.Some? && FanOut(Now(), k, rest) == FanOut(start, 0, reactions)
        decreases |rest|, |heard| - k
      {
        if k in statusListeners {
          heard := heard[k := heard[k] + [currentEmpty.value]];
          if rest != [] {
            var r := rest[0];
            ghost var was := Now();
            ReactTo(r);
            ReactKeepsHeard(was, r);
            rest := rest[1..];
            if r.throws {
              return;
            }
          }
        }
        k := k + 1;
      }
    }
  }
}

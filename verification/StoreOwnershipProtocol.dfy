/** The contexts that open and delete one store, and the browser's lock manager, in every interleaving. An owner
    opens the store's exclusive handles once its acquire has resolved and releases when it has closed them; a
    deleter removes the store directory between its grant and its release. A context may die anywhere; the browser
    then reclaims its handles and its lock at once, and nothing it had begun goes on. */
module StoreOwnershipProtocol {
  import opened Options
  import opened StoreOwnership

  type Id = nat

  datatype Kind = Owner | Deleter

  /** `pending`: the lock request's promise has not settled. `open`: live handles. `removing`: a removal at work. */
  datatype Context = Context(kind: Kind, locks: bool, alive: bool, acquire: Acquire, pending: bool, open: bool, removing: bool)

  datatype State = State(contexts: map<Id, Context>, queue: seq<Id>, holder: Option<Id>)

  datatype Step =
    | Request(id: Id, kind: Kind, locks: bool)
    | ManagerGrants
    | Callback(id: Id)
    | TimerFires(id: Id)
    | ManagerAborts(id: Id)
    | ApiFails(id: Id)
    | Open(id: Id)
    | Close(id: Id)
    | Remove(id: Id)
    | RemoveEnds(id: Id)
    | Release(id: Id)
    | ManagerReleases(id: Id)
    | Die(id: Id)

  predicate Alive(s: State, id: Id) {
    id in s.contexts && s.contexts[id].alive
  }

  predicate MayAct(s: State, id: Id, kind: Kind) {
    Alive(s, id) && var c := s.contexts[id]; c.kind == kind && c.acquire.settlements == [Resolved] && !c.acquire.released
  }

  predicate Enabled(s: State, step: Step) {
    match step
    case Request(id, _, _) => id !in s.contexts
    case ManagerGrants => s.holder.None? && s.queue != []
    case Callback(id) => Alive(s, id) && s.holder == Some(id) && !s.contexts[id].acquire.granted && !s.contexts[id].acquire.aborted
    case TimerFires(id) => Alive(s, id) && s.contexts[id].acquire.timer
    case ManagerAborts(id) => Alive(s, id) && s.contexts[id].pending && s.contexts[id].acquire.aborted && !s.contexts[id].acquire.granted
    case ApiFails(id) => Alive(s, id) && s.contexts[id].pending
    case Open(id) => MayAct(s, id, Owner)
    case Close(id) => Alive(s, id) && s.contexts[id].open
    case Remove(id) => MayAct(s, id, Deleter)
    case RemoveEnds(id) => Alive(s, id) && s.contexts[id].removing
    case Release(id) => Alive(s, id) && s.contexts[id].acquire.granted && !s.contexts[id].open && !s.contexts[id].removing
    case ManagerReleases(id) => s.holder == Some(id) && id in s.contexts && s.contexts[id].acquire.released
    case Die(id) => Alive(s, id)
  }

  function Without(queue: seq<Id>, id: Id): (rest: seq<Id>)
    ensures forall i :: i in rest <==> i in queue && i != id
  {
    if queue == [] then []
    else if queue[0] == id then Without(queue[1..], id)
    else [queue[0]] + Without(queue[1..], id)
  }

  function Put(s: State, id: Id, c: Context): State {
    s.(contexts := s.contexts[id := c])
  }

  /** The request leaves the manager, whether it queued or held the lock. */
  function Dropped(s: State, id: Id): State {
    s.(queue := Without(s.queue, id), holder := if s.holder == Some(id) then None else s.holder)
  }

  function Apply(s: State, step: Step): State
    requires Enabled(s, step)
  {
    match step
    case Request(id, kind, locks) =>
      Put(s, id, Context(kind, locks, true, if locks then REQUESTED else UNLOCKED, locks, false, false))
        .(queue := if locks then s.queue + [id] else s.queue)
    case ManagerGrants => s.(holder := Some(s.queue[0]), queue := s.queue[1..])
    case Callback(id) => Put(s, id, s.contexts[id].(acquire := Granted(s.contexts[id].acquire)))
    case TimerFires(id) => Put(s, id, s.contexts[id].(acquire := Fired(s.contexts[id].acquire)))
    case ManagerAborts(id) => Put(Dropped(s, id), id, s.contexts[id].(acquire := Rejected(s.contexts[id].acquire), pending := false))
    case ApiFails(id) =>
      var c := s.contexts[id].(acquire := Rejected(s.contexts[id].acquire), pending := false);
      Put(if c.acquire.granted then s else Dropped(s, id), id, c)
    case Open(id) => Put(s, id, s.contexts[id].(open := true))
    case Close(id) => Put(s, id, s.contexts[id].(open := false))
    case Remove(id) => Put(s, id, s.contexts[id].(removing := true))
    case RemoveEnds(id) => Put(s, id, s.contexts[id].(removing := false))
    case Release(id) => Put(s, id, s.contexts[id].(acquire := Released(s.contexts[id].acquire)))
    case ManagerReleases(id) => Put(s.(holder := None), id, s.contexts[id].(pending := false))
    case Die(id) => Put(Dropped(s, id), id, s.contexts[id].(alive := false, pending := false, open := false, removing := false))
  }

  const EMPTY := State(map[], [], None)

  ghost predicate IsRun(run: seq<State>, steps: seq<Step>) {
    && |run| == |steps| + 1 && run[0] == EMPTY
    && forall i | 0 <= i < |steps| :: Enabled(run[i], steps[i]) && run[i + 1] == Apply(run[i], steps[i])
  }

  // ---- The invariant ----

  /** One acquire: it has settled at most once, as it says. */
  ghost predicate AcquireOk(c: Context) {
    && |c.acquire.settlements| <= 1
    && (c.acquire.granted <==> c.acquire.settlements == [Resolved])
    && (c.acquire.released || !c.locks ==> c.acquire.granted)
    && (c.acquire.settlements == [TimedOut] ==> c.acquire.aborted)
    && (c.locks && c.alive && c.acquire.settlements == [] ==> c.pending && (c.acquire.timer || c.acquire.aborted))
    && (c.acquire.timer || (c.acquire.aborted && c.pending) ==> c.acquire.settlements == [])
    && (c.pending ==> c.locks && c.alive && (c.acquire.granted || c.acquire.settlements == []))
    && (c.open || c.removing ==> c.alive && c.acquire.granted && !c.acquire.released)
    && (c.open ==> c.kind.Owner?) && (c.removing ==> c.kind.Deleter?)
  }

  /** The lock: a granted acquire not handed back holds it while its context lives; the queue waits. */
  ghost predicate LockOk(s: State, id: Id)
    requires id in s.contexts
  {
    var c := s.contexts[id];
    && (c.locks && c.alive && c.acquire.granted && !c.acquire.released ==> s.holder == Some(id))
    && (s.holder == Some(id) ==> c.locks && c.alive && (c.acquire.granted || c.pending))
    && (id in s.queue ==> c.pending && !c.acquire.granted)
  }

  predicate Distinct(queue: seq<Id>) {
    queue != [] ==> queue[0] !in queue[1..] && Distinct(queue[1..])
  }

  ghost predicate QueueOk(s: State) {
    && Distinct(s.queue)
    && (forall id | id in s.queue :: id in s.contexts && s.holder != Some(id))
    && (s.holder.Some? ==> s.holder.value in s.contexts)
  }

  ghost predicate Inv(s: State) {
    && QueueOk(s)
    && forall id | id in s.contexts :: AcquireOk(s.contexts[id]) && LockOk(s, id)
  }

  lemma {:induction false} WithoutKeepsDistinct(queue: seq<Id>, id: Id)
    requires Distinct(queue)
    ensures Distinct(Without(queue, id))
  {
    if queue != [] {
      WithoutKeepsDistinct(queue[1..], id);
      var rest := Without(queue[1..], id);
      assert ([queue[0]] + rest)[1..] == rest;
    }
  }

  lemma {:induction false} JoiningKeepsDistinct(queue: seq<Id>, id: Id)
    requires Distinct(queue) && id !in queue
    ensures Distinct(queue + [id])
  {
    if queue != [] {
      JoiningKeepsDistinct(queue[1..], id);
      assert (queue + [id])[1..] == queue[1..] + [id];
    }
  }

  lemma DroppedKeepsInv(s: State, id: Id)
    requires Inv(s) && id in s.contexts
    ensures QueueOk(Dropped(s, id)) && id !in Dropped(s, id).queue && Dropped(s, id).holder != Some(id)
    ensures forall j | j in s.contexts && j != id :: LockOk(Dropped(s, id), j)
  {
    WithoutKeepsDistinct(s.queue, id);
  }

  /** A change of one context that the lock manager does not notice. */
  lemma PutKeepsInv(s: State, id: Id, c: Context)
    requires Inv(s) && id in s.contexts && AcquireOk(c) && LockOk(Put(s, id, c), id)
    ensures Inv(Put(s, id, c))
  {
    forall j | j in s.contexts && j != id ensures LockOk(Put(s, id, c), j) {
      assert LockOk(s, j);
    }
  }

  lemma LeavingKeepsInv(s: State, id: Id, c: Context)
    requires Inv(s) && id in s.contexts && AcquireOk(c)
    requires !c.alive || !c.acquire.granted
    ensures Inv(Put(Dropped(s, id), id, c))
  {
    DroppedKeepsInv(s, id);
    var t := Put(Dropped(s, id), id, c);
    forall j | j in t.contexts ensures AcquireOk(t.contexts[j]) && LockOk(t, j) {
      assert j != id ==> LockOk(Dropped(s, id), j);
    }
  }

  lemma RequestKeepsInv(s: State, step: Step)
    requires Inv(s) && Enabled(s, step) && step.Request?
    ensures Inv(Apply(s, step))
  {
    var t := Apply(s, step);
    assert step.id !in s.queue;
    JoiningKeepsDistinct(s.queue, step.id);
    forall j | j in t.contexts ensures AcquireOk(t.contexts[j]) && LockOk(t, j) {
      assert j in s.contexts ==> LockOk(s, j);
    }
  }

  lemma ManagerKeepsInv(s: State, step: Step)
    requires Inv(s) && Enabled(s, step) && (step.ManagerGrants? || step.ManagerReleases?)
    ensures Inv(Apply(s, step))
  {
    var t := Apply(s, step);
    if step.ManagerGrants? { assert s.queue[0] in s.queue; }
    forall j | j in t.contexts ensures AcquireOk(t.contexts[j]) && LockOk(t, j) {
      assert AcquireOk(s.contexts[j]) && LockOk(s, j);
      if step.ManagerGrants? {
        assert j in s.queue <==> j == s.queue[0] || j in s.queue[1..];
      }
    }
  }

  lemma StepKeepsInv(s: State, step: Step)
    requires Inv(s) && Enabled(s, step)
    ensures Inv(Apply(s, step))
  {
    match step
    case Request(_, _, _) => RequestKeepsInv(s, step);
    case ManagerGrants => ManagerKeepsInv(s, step);
    case ManagerReleases(_) => ManagerKeepsInv(s, step);
    case ManagerAborts(id) => LeavingKeepsInv(s, id, Apply(s, step).contexts[id]);
    case ApiFails(id) => ApiFailureKeepsInv(s, id);
    case Die(id) => LeavingKeepsInv(s, id, Apply(s, step).contexts[id]);
    case _ => LocalKeepsInv(s, step);
  }

  lemma ApiFailureKeepsInv(s: State, id: Id)
    requires Inv(s) && Enabled(s, ApiFails(id))
    ensures Inv(Apply(s, ApiFails(id)))
  {
    assert AcquireOk(s.contexts[id]) && LockOk(s, id);
    var c := Apply(s, ApiFails(id)).contexts[id];
    assert !s.contexts[id].acquire.granted ==> c.acquire.settlements[0] != Resolved;
    if s.contexts[id].acquire.granted { PutKeepsInv(s, id, c); } else { LeavingKeepsInv(s, id, c); }
  }

  predicate Local(step: Step) {
    step.Callback? || step.TimerFires? || step.Open? || step.Close? || step.Remove? || step.RemoveEnds? || step.Release?
  }

  lemma LocalKeepsInv(s: State, step: Step)
    requires Inv(s) && Enabled(s, step) && Local(step)
    ensures Inv(Apply(s, step))
  {
    assert AcquireOk(s.contexts[step.id]) && LockOk(s, step.id);
    PutKeepsInv(s, step.id, Apply(s, step).contexts[step.id]);
  }

  lemma {:induction false} RunKeepsInv(run: seq<State>, steps: seq<Step>, n: nat)
    requires IsRun(run, steps) && n < |run|
    ensures Inv(run[n])
  {
    if n > 0 {
      RunKeepsInv(run, steps, n - 1);
      assert Enabled(run[n - 1], steps[n - 1]) && run[n - 1 + 1] == Apply(run[n - 1], steps[n - 1]);
      StepKeepsInv(run[n - 1], steps[n - 1]);
    }
  }

  // ---- What the protocol promises ----

  /** Where every context has the Web Locks API, a removal never overlaps live handles, two contexts never hold
      handles at once, and two removals never overlap. */
  lemma RemovalNeverOverlapsHandles(run: seq<State>, steps: seq<Step>, n: nat, a: Id, b: Id)
    requires IsRun(run, steps) && n < |run| && a in run[n].contexts && b in run[n].contexts
    requires run[n].contexts[a].locks && run[n].contexts[b].locks
    ensures !(run[n].contexts[a].open && run[n].contexts[b].removing)
    ensures a != b ==> !(run[n].contexts[a].open && run[n].contexts[b].open)
    ensures a != b ==> !(run[n].contexts[a].removing && run[n].contexts[b].removing)
  {
    RunKeepsInv(run, steps, n);
    assert LockOk(run[n], a) && LockOk(run[n], b);
  }

  // ---- Both need the API ----

  /** A state that runs lead to. */
  ghost predicate Reached(s: State) {
    exists run, steps :: IsRun(run, steps) && run[|steps|] == s
  }

  lemma EmptyIsReached()
    ensures Reached(EMPTY)
  {
    var run: seq<State>, steps: seq<Step> := [EMPTY], [];
    assert IsRun(run, steps) && run[|steps|] == EMPTY;
  }

  lemma ReachedNext(s: State, step: Step)
    requires Reached(s) && Enabled(s, step)
    ensures Reached(Apply(s, step))
  {
    var run, steps :| IsRun(run, steps) && run[|steps|] == s;
    var run', steps' := run + [Apply(s, step)], steps + [step];
    forall i | 0 <= i < |steps'| ensures Enabled(run'[i], steps'[i]) && run'[i + 1] == Apply(run'[i], steps'[i]) {
      if i < |steps| { assert Enabled(run[i], steps[i]) && run[i + 1] == Apply(run[i], steps[i]); }
    }
    assert IsRun(run', steps') && run'[|steps'|] == Apply(s, step);
  }

  function Fresh(kind: Kind, locks: bool): Context {
    Context(kind, locks, true, if locks then REQUESTED else UNLOCKED, locks, false, false)
  }

  /** One context asks for the lock and is granted it. */
  lemma LockIsGranted(kind: Kind)
    ensures Reached(State(map[0 := Fresh(kind, true).(acquire := Granted(REQUESTED))], [], Some(0)))
  {
    var c := Fresh(kind, true);
    var asked := State(map[0 := c], [0], None);
    EmptyIsReached();
    ReachedNext(EMPTY, Request(0, kind, true));
    assert Apply(EMPTY, Request(0, kind, true)) == asked;
    ReachedNext(asked, ManagerGrants);
    var granted := State(map[0 := c], [], Some(0));
    assert Apply(asked, ManagerGrants) == granted;
    ReachedNext(granted, Callback(0));
    assert Apply(granted, Callback(0)) == State(map[0 := c.(acquire := Granted(REQUESTED))], [], Some(0));
  }

  /** Without the API nothing orders a deleter: from any state with open handles one may come and remove. */
  lemma UnlockedDeleterOverlaps(s: State, a: Id, b: Id)
    requires Alive(s, a) && s.contexts[a].open && b !in s.contexts
    ensures Enabled(s, Request(b, Deleter, false))
    ensures var t := Apply(s, Request(b, Deleter, false));
            Enabled(t, Remove(b)) && var u := Apply(t, Remove(b)); u.contexts[a].open && u.contexts[b].removing
  {
  }

  /** Nor an owner: during any removal one may come and open. */
  lemma UnlockedOwnerOverlaps(s: State, a: Id, b: Id)
    requires Alive(s, a) && s.contexts[a].removing && b !in s.contexts
    ensures Enabled(s, Request(b, Owner, false))
    ensures var t := Apply(s, Request(b, Owner, false));
            Enabled(t, Open(b)) && var u := Apply(t, Open(b)); u.contexts[a].removing && u.contexts[b].open
  {
  }

  predicate Overlaps(s: State, owner: Id, deleter: Id) {
    owner in s.contexts && deleter in s.contexts && s.contexts[owner].open && s.contexts[deleter].removing
  }

  /** Runs get there: an owner that does hold the lock has its store removed by a deleter without the API. */
  lemma LockedOwnerIsOverlapped()
    ensures exists s :: Reached(s) && Overlaps(s, 0, 1) && s.contexts[0].locks && !s.contexts[1].locks
  {
    var c := Fresh(Owner, true).(acquire := Granted(REQUESTED));
    LockIsGranted(Owner);
    var s := State(map[0 := c], [], Some(0));
    ReachedNext(s, Open(0));
    var t := Apply(s, Open(0));
    UnlockedDeleterOverlaps(t, 0, 1);
    ReachedNext(t, Request(1, Deleter, false));
    var u := Apply(t, Request(1, Deleter, false));
    ReachedNext(u, Remove(1));
    assert Overlaps(Apply(u, Remove(1)), 0, 1);
  }

  /** And a deleter that does hold it removes a store that an owner without the API has open. */
  lemma LockedDeleterIsOverlapped()
    ensures exists s :: Reached(s) && Overlaps(s, 1, 0) && s.contexts[0].locks && !s.contexts[1].locks
  {
    var c := Fresh(Deleter, true).(acquire := Granted(REQUESTED));
    LockIsGranted(Deleter);
    var s := State(map[0 := c], [], Some(0));
    ReachedNext(s, Remove(0));
    var t := Apply(s, Remove(0));
    UnlockedOwnerOverlaps(t, 0, 1);
    ReachedNext(t, Request(1, Owner, false));
    var u := Apply(t, Request(1, Owner, false));
    ReachedNext(u, Open(1));
    assert Overlaps(Apply(u, Open(1)), 1, 0);
  }

  /** A settlement is never taken back, changed or repeated. */
  lemma {:induction false} SettlesAtMostOnce(run: seq<State>, steps: seq<Step>, m: nat, n: nat, id: Id)
    requires IsRun(run, steps) && m <= n < |run| && id in run[m].contexts
    ensures id in run[n].contexts && |run[n].contexts[id].acquire.settlements| <= 1
    ensures run[m].contexts[id].acquire.settlements != [] ==>
              run[n].contexts[id].acquire.settlements == run[m].contexts[id].acquire.settlements
    decreases n - m
  {
    if m < n {
      SettlesAtMostOnce(run, steps, m, n - 1, id);
      SettlementStays(run, steps, n - 1, id);
    }
    SettledOnce(run, steps, n, id);
  }

  lemma SettledOnce(run: seq<State>, steps: seq<Step>, n: nat, id: Id)
    requires IsRun(run, steps) && n < |run|
    ensures id in run[n].contexts ==> |run[n].contexts[id].acquire.settlements| <= 1
  {
    RunKeepsInv(run, steps, n);
  }

  lemma SettlementStays(run: seq<State>, steps: seq<Step>, n: nat, id: Id)
    requires IsRun(run, steps) && n < |steps| && id in run[n].contexts
    ensures id in run[n + 1].contexts
    ensures run[n].contexts[id].acquire.settlements != [] ==>
              run[n + 1].contexts[id].acquire.settlements == run[n].contexts[id].acquire.settlements
  {
    var s, step := run[n], steps[n];
    RunKeepsInv(run, steps, n);
    assert Enabled(s, step) && run[n + 1] == Apply(s, step);
    StepKeepsSettlement(s, step, id);
  }

  lemma StepKeepsSettlement(s: State, step: Step, id: Id)
    requires Inv(s) && Enabled(s, step) && id in s.contexts
    ensures id in Apply(s, step).contexts
    ensures s.contexts[id].acquire.settlements != [] ==>
              Apply(s, step).contexts[id].acquire.settlements == s.contexts[id].acquire.settlements
  {
    assert AcquireOk(s.contexts[id]) && LockOk(s, id);
  }

  /** A waiter whose wait ran out never runs its effect: it opens nothing and removes nothing from then on. */
  lemma TimedOutNeverRuns(run: seq<State>, steps: seq<Step>, m: nat, n: nat, id: Id)
    requires IsRun(run, steps) && m <= n < |run| && id in run[m].contexts
    requires run[m].contexts[id].acquire.settlements == [TimedOut]
    ensures id in run[n].contexts && !run[n].contexts[id].open && !run[n].contexts[id].removing
    ensures n < |steps| ==> steps[n] != Open(id) && steps[n] != Remove(id)
  {
    SettlesAtMostOnce(run, steps, m, n, id);
    RunKeepsInv(run, steps, n);
    assert AcquireOk(run[n].contexts[id]);
    assert n < |steps| ==> Enabled(run[n], steps[n]);
  }

  /** The wait is bounded: an acquire that has not settled has its timer running or its abort under way, and the
      abort settles it, as timed out, whoever holds the lock. */
  lemma UnsettledTimesOut(run: seq<State>, steps: seq<Step>, n: nat, id: Id)
    requires IsRun(run, steps) && n < |run| && Alive(run[n], id) && run[n].contexts[id].acquire.settlements == []
    ensures var s := run[n];
            var t := if s.contexts[id].acquire.aborted then s else Put(s, id, s.contexts[id].(acquire := Fired(s.contexts[id].acquire)));
            && (s.contexts[id].acquire.aborted || (Enabled(s, TimerFires(id)) && t == Apply(s, TimerFires(id))))
            && Enabled(t, ManagerAborts(id))
            && Apply(t, ManagerAborts(id)).contexts[id].acquire.settlements == [TimedOut]
  {
    RunKeepsInv(run, steps, n);
    assert AcquireOk(run[n].contexts[id]);
  }

  /** Whoever holds the lock lets the next one in: the manager's queue moves on a release and on a death. */
  lemma HolderGivesWay(run: seq<State>, steps: seq<Step>, n: nat, id: Id)
    requires IsRun(run, steps) && n < |run| && run[n].holder == Some(id)
    ensures Enabled(run[n], Die(id)) && Apply(run[n], Die(id)).holder.None?
    ensures run[n].contexts[id].acquire.released ==>
              Enabled(run[n], ManagerReleases(id)) && Apply(run[n], ManagerReleases(id)).holder.None?
  {
    RunKeepsInv(run, steps, n);
    assert LockOk(run[n], id);
  }
}

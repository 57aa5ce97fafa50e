/** The worker pool of `runUnitTests`: workers take the next shard, run it, push its result and take another. */
module WorkerPool {
  import opened Counting
  import opened UnitTestShards

  datatype Outcome<T> = Outcome(shard: T, exitCode: int)

  /** What a worker is doing: nothing, or running that shard. */
  datatype Worker<T> = Idle | Busy(shard: T)

  function Held<T>(w: Worker<T>): multiset<T> {
    if w.Busy? then multiset{w.shard} else multiset{}
  }

  /** The shards that are running, in the order of their workers. */
  function Running<T>(workers: seq<Worker<T>>): seq<T> {
    if workers == [] then []
    else
      var w := workers[|workers| - 1];
      Running(workers[..|workers| - 1]) + if w.Busy? then [w.shard] else []
  }

  function InFlight<T>(workers: seq<Worker<T>>): multiset<T> {
    multiset(Running(workers))
  }

  lemma {:induction false} RunningConcat<T>(a: seq<Worker<T>>, b: seq<Worker<T>>)
    ensures Running(a + b) == Running(a) + Running(b)
    decreases |b|
  {
    if b == [] {
      assert a + b == a;
    } else {
      RunningConcat(a, b[..|b| - 1]);
      assert (a + b)[..|a + b| - 1] == a + b[..|b| - 1];
    }
  }

  /** No more shards run than there are workers. */
  lemma {:induction false} RunningFit<T>(workers: seq<Worker<T>>)
    ensures |Running(workers)| <= |workers|
  {
    if workers != [] { RunningFit(workers[..|workers| - 1]); }
  }

  lemma InFlightOne<T>(w: Worker<T>)
    ensures InFlight([w]) == Held(w)
  {
    assert [w][..0] == [];
    assert Running([w]) == if w.Busy? then [w.shard] else [];
  }

  lemma InFlightAround<T>(a: seq<Worker<T>>, w: Worker<T>, b: seq<Worker<T>>)
    ensures InFlight(a + [w] + b) == InFlight(a) + Held(w) + InFlight(b)
  {
    RunningConcat(a + [w], b);
    RunningConcat(a, [w]);
    InFlightOne(w);
  }

  lemma InFlightUpdate<T>(workers: seq<Worker<T>>, i: nat, w: Worker<T>)
    requires i < |workers|
    ensures InFlight(workers[i := w]) + Held(workers[i]) == InFlight(workers) + Held(w)
  {
    var a, b := workers[..i], workers[i + 1..];
    assert workers == a + [workers[i]] + b && workers[i := w] == a + [w] + b;
    InFlightAround(a, workers[i], b);
    InFlightAround(a, w, b);
    Exchanged(InFlight(a), Held(w), InFlight(b), Held(workers[i]));
  }

  lemma Exchanged<T>(a: multiset<T>, x: multiset<T>, b: multiset<T>, y: multiset<T>)
    ensures a + x + b + y == a + y + b + x
  {
  }

  lemma {:induction false} NoneInFlight<T>(workers: seq<Worker<T>>)
    requires forall i | 0 <= i < |workers| :: workers[i].Idle?
    ensures InFlight(workers) == multiset{}
  {
    if workers != [] { NoneInFlight(workers[..|workers| - 1]); }
  }

  function Shards<T>(outcomes: seq<Outcome<T>>): (r: seq<T>)
    ensures |r| == |outcomes| && forall i | 0 <= i < |r| :: r[i] == outcomes[i].shard
  {
    seq(|outcomes|, i requires 0 <= i < |outcomes| => outcomes[i].shard)
  }

  /** Where every shard is: finished, in some worker's hands, or not taken yet. */
  ghost predicate AllAccounted<T>(shards: seq<T>, next: nat, workers: seq<Worker<T>>, outcomes: seq<Outcome<T>>)
    requires next <= |shards|
  {
    multiset(Shards(outcomes)) + (InFlight(workers) + multiset(shards[next..])) == multiset(shards)
  }

  lemma MovesAcross<T>(flight: multiset<T>, flight': multiset<T>, moved: multiset<T>, rest': multiset<T>, rest: multiset<T>)
    requires flight' == flight + moved && rest == moved + rest'
    ensures flight' + rest' == flight + rest
  {
    assert flight' + rest' == flight + (moved + rest');
  }

  lemma Taken<T>(shards: seq<T>, next: nat, workers: seq<Worker<T>>, i: nat, outcomes: seq<Outcome<T>>)
    requires next < |shards| && i < |workers| && workers[i].Idle? && AllAccounted(shards, next, workers, outcomes)
    ensures AllAccounted(shards, next + 1, workers[i := Busy(shards[next])], outcomes)
  {
    var w := Busy(shards[next]);
    InFlightUpdate(workers, i, w);
    MovesAcross(InFlight(workers), InFlight(workers[i := w]), Held(w), multiset(shards[next + 1..]), multiset(shards[next..])) by {
      assert shards[next..] == [shards[next]] + shards[next + 1..];
    }
  }

  lemma Finished<T>(shards: seq<T>, next: nat, workers: seq<Worker<T>>, i: nat, outcomes: seq<Outcome<T>>, code: int)
    requires next <= |shards| && i < |workers| && workers[i].Busy? && AllAccounted(shards, next, workers, outcomes)
    ensures AllAccounted(shards, next, workers[i := Idle], outcomes + [Outcome(workers[i].shard, code)])
    ensures |InFlight(workers[i := Idle])| < |InFlight(workers)|
  {
    InFlightUpdate(workers, i, Idle);
    var o := Outcome(workers[i].shard, code);
    assert Shards(outcomes + [o]) == Shards(outcomes) + [o.shard];
    assert |InFlight(workers[i := Idle]) + Held(workers[i])| == |InFlight(workers[i := Idle])| + 1;
    assert InFlight(workers[i := Idle]) + Held(workers[i]) == InFlight(workers);
  }

  /** Every shard is run exactly once, whichever worker makes progress next, at most `concurrency` at a time;
      `exit` is the exit code a shard's process ends with. */
  method RunShards<T>(shards: seq<T>, concurrency: nat, exit: T -> int)
    returns (outcomes: seq<Outcome<T>>, ghost pool: nat, ghost running: seq<nat>)
    requires concurrency > 0
    ensures pool == (if concurrency < |shards| then concurrency else |shards|) && forall n | n in running :: n <= pool
    ensures multiset(Shards(outcomes)) == multiset(shards)
    ensures forall i | 0 <= i < |outcomes| :: outcomes[i].exitCode == exit(outcomes[i].shard)
  {
    var next := 0;
    var workers: seq<Worker<T>> := seq(if concurrency < |shards| then concurrency else |shards|, _ => Idle);
    outcomes := [];
    pool, running := |workers|, [];
    NoneInFlight(workers);
    assert shards[0..] == shards;
    while next < |shards| || exists i :: 0 <= i < |workers| && workers[i].Busy?
      invariant next <= |shards| && |workers| == if concurrency < |shards| then concurrency else |shards|
      invariant AllAccounted(shards, next, workers, outcomes)
      invariant forall i | 0 <= i < |outcomes| :: outcomes[i].exitCode == exit(outcomes[i].shard)
      invariant pool == |workers| && forall n | n in running :: n <= pool
      decreases |shards| - next, |InFlight(workers)|
    {
      assert next < |shards| ==> 0 < |workers|;
      var i :| 0 <= i < |workers| && (next < |shards| || workers[i].Busy?);
      next, workers, outcomes := Progress(shards, exit, next, workers, i, outcomes);
      RunningFit(workers);
      running := running + [|Running(workers)|];
    }
    NoneInFlight(workers);
    assert shards[next..] == [];
  }

  /** One worker reaches its next `await`: an idle one takes a shard, a busy one pushes its result. */
  method Progress<T>(shards: seq<T>, exit: T -> int, next: nat, workers: seq<Worker<T>>, i: nat, outcomes: seq<Outcome<T>>)
    returns (next': nat, workers': seq<Worker<T>>, outcomes': seq<Outcome<T>>)
    requires next <= |shards| && i < |workers| && (next < |shards| || workers[i].Busy?)
    requires AllAccounted(shards, next, workers, outcomes)
    requires forall k | 0 <= k < |outcomes| :: outcomes[k].exitCode == exit(outcomes[k].shard)
    ensures next <= next' <= |shards| && |workers'| == |workers|
    ensures AllAccounted(shards, next', workers', outcomes')
    ensures next' == next ==> |InFlight(workers')| < |InFlight(workers)|
    ensures forall k | 0 <= k < |outcomes'| :: outcomes'[k].exitCode == exit(outcomes'[k].shard)
  {
    match workers[i]
    case Idle =>
      Taken(shards, next, workers, i, outcomes);
      next', workers', outcomes' := next + 1, workers[i := Busy(shards[next])], outcomes;
    case Busy(s) =>
      Finished(shards, next, workers, i, outcomes, exit(s));
      next', workers', outcomes' := next, workers[i := Idle], outcomes + [Outcome(s, exit(s))];
  }

  /** The sharder end to end: every requested file is run once, isolated ones alone. */
  method RunUnitTests(files: seq<string>, isolated: set<string>, weight: Weights, concurrency: nat, exit: seq<string> -> int)
    returns (outcomes: seq<Outcome<seq<string>>>)
    requires concurrency > 0
    ensures Files(Shards(outcomes)) == multiset(files)
    ensures forall i | 0 <= i < |outcomes| :: outcomes[i].exitCode == exit(outcomes[i].shard)
    ensures forall i, f | 0 <= i < |outcomes| && f in outcomes[i].shard && f in isolated :: outcomes[i].shard == [f]
  {
    if |files| == 0 {
      return [];
    }
    var shards, alone, bulk := BuildShards(files, isolated, weight, concurrency);
    ghost var pool, running;
    outcomes, pool, running := RunShards(shards, concurrency, exit);
    FilesOfPermutation(Shards(outcomes), shards);
    IsolatedRunAlone(Shards(outcomes), isolated, alone, bulk);
  }

  lemma IsolatedRunAlone(shards: seq<seq<string>>, isolated: set<string>, alone: seq<seq<string>>, bulk: seq<seq<string>>)
    requires multiset(shards) == multiset(alone + bulk)
    requires forall s | s in alone + bulk :: (|s| == 1 && s[0] in isolated) || forall f | f in s :: f !in isolated
    ensures forall i, f | 0 <= i < |shards| && f in shards[i] && f in isolated :: shards[i] == [f]
  {
    forall i, f | 0 <= i < |shards| && f in shards[i] && f in isolated ensures shards[i] == [f] {
      var j := FindInPermutation(shards[i], shards, alone + bulk);
    }
  }
}

/** Unit-test selection: `main` of `scripts/select-unit-tests.ts` and the registry of green fingerprints. */
module TestSelection {
  import opened Counting
  import opened ImportClosure
  import opened Options
  import opened UnitTestShards
  import opened ValidateCache
  import opened WorkerPool

  /** What stays fixed over a run: how files are analysed and hashed, which are global, and the declared
      off-graph inputs of each reader. */
  datatype Env = Env(
    analyze: (string, Content) -> Analysis,
    isGlobal: string -> bool,
    fsInputs: map<string, string -> bool>,
    blob: BlobId)

  /** The working tree, git's index and file list, and the test files by key. */
  datatype Repo = Repo(disk: Disk, index: Disk, universe: seq<string>, tests: seq<string>)

  predicate CleanPath(f: string) {
    f != [] && '\0' !in f
  }

  ghost predicate EnvOk(env: Env) {
    && HashOk(env.blob)
    && forall f, c :: var a := env.analyze(f, c);
         (forall d | d in a.moduleDeps :: CleanPath(d)) && (forall d | d in a.assetDeps :: CleanPath(d))
  }

  ghost predicate RepoOk(repo: Repo) {
    (forall f | f in repo.universe :: CleanPath(f)) && (forall k | k in repo.tests :: '\0' !in k)
  }

  function TestPath(key: string): string {
    "tests/unit/" + key + ".test.ts"
  }

  function GraphOf(env: Env, disk: Disk): Graph {
    map f | f in disk :: env.analyze(f, disk[f])
  }

  // ---- What a verdict may depend on ----

  ghost predicate IsReader(env: Env, repo: Repo, key: string) {
    ReachesReader(GraphOf(env, repo.disk), TestPath(key), env.isGlobal)
  }

  /** No doubt about the graph, and every off-graph reader declared. */
  ghost predicate Certifiable(env: Env, repo: Repo, key: string) {
    && !ReachesUngraphable(GraphOf(env, repo.disk), TestPath(key))
    && (IsReader(env, repo, key) ==> key in env.fsInputs)
  }

  ghost predicate Relevant(env: Env, repo: Repo, key: string, f: string) {
    || InClosure(GraphOf(env, repo.disk), TestPath(key), f)
    || (f in repo.universe && env.isGlobal(f))
    || (IsReader(env, repo, key) && key in env.fsInputs && f in repo.universe && env.fsInputs[key](f))
  }

  ghost predicate SameInputs(env: Env, key: string, a: Repo, b: Repo) {
    && (forall f :: Relevant(env, a, key, f) <==> Relevant(env, b, key, f))
    && (forall f | Relevant(env, a, key, f) :: SameFile(f, a.disk, b.disk))
  }

  type Verdict = (string, Repo) -> bool

  /** A test's verdict depends only on its closure, the globals and its declared inputs. */
  ghost predicate DependsOnInputs(env: Env, verdict: Verdict) {
    forall key, a, b |
      RepoOk(a) && RepoOk(b) && Certifiable(env, a, key) && Certifiable(env, b, key) && SameInputs(env, key, a, b)
      :: verdict(key, a) == verdict(key, b)
  }

  // ---- Fingerprints of tests ----

  ghost predicate Lists(env: Env, repo: Repo, key: string, files: seq<string>) {
    forall f :: f in files <==> Relevant(env, repo, key, f)
  }

  ghost predicate IsFingerprint(env: Env, repo: Repo, key: string, fp: string) {
    exists files, ctx ::
      && Lists(env, repo, key, files)
      && ContextOf(ctx, env.blob, repo.index, repo.disk)
      && fp == FingerprintText(files, ctx, env.blob, repo.disk, [])
  }

  /** Equal fingerprints were taken over equal inputs. */
  lemma FingerprintTellsInputs(env: Env, key: string, a: Repo, b: Repo, fp: string)
    requires EnvOk(env) && RepoOk(a) && RepoOk(b) && '\0' !in key
    requires IsFingerprint(env, a, key, fp) && IsFingerprint(env, b, key, fp)
    ensures SameInputs(env, key, a, b)
  {
    var files, ctx :| Lists(env, a, key, files) && ContextOf(ctx, env.blob, a.index, a.disk)
                      && fp == FingerprintText(files, ctx, env.blob, a.disk, []);
    var files', ctx' :| Lists(env, b, key, files') && ContextOf(ctx', env.blob, b.index, b.disk)
                        && fp == FingerprintText(files', ctx', env.blob, b.disk, []);
    RelevantIsClean(env, a, key);
    RelevantIsClean(env, b, key);
    FingerprintIsExact(files, ctx, a.index, a.disk, files', ctx', b.index, b.disk, env.blob);
  }

  lemma RelevantIsClean(env: Env, repo: Repo, key: string)
    requires EnvOk(env) && RepoOk(repo) && '\0' !in key
    ensures forall f | Relevant(env, repo, key, f) :: CleanPath(f)
  {
    var g := GraphOf(env, repo.disk);
    forall f | InClosure(g, TestPath(key), f) ensures CleanPath(f) {
      if Reaches(g, TestPath(key), f) {
        var path :| IsPath(g, path) && path[0] == TestPath(key) && path[|path| - 1] == f;
        if |path| > 1 {
          assert path[|path| - 2 + 1] in At(g, path[|path| - 2]).moduleDeps;
        }
      }
    }
  }

  // ---- Selection ----

  datatype Kind = Graphed | ReaderDeclared | ReaderUndeclared | Ungraphable

  /** A test without a fingerprint is selected every time, and no outcome of it is kept. */
  datatype Disposition = Disposition(key: string, kind: Kind, fp: Option<string>)

  ghost predicate Disposes(env: Env, repo: Repo, d: Disposition) {
    && (d.kind.Ungraphable? <==> ReachesUngraphable(GraphOf(env, repo.disk), TestPath(d.key)))
    && (d.kind.Graphed? ==> !IsReader(env, repo, d.key))
    && (d.kind.ReaderDeclared? || d.kind.ReaderUndeclared? ==> IsReader(env, repo, d.key))
    && (d.fp.Some? <==> Certifiable(env, repo, d.key))
    && (d.fp.Some? ==> IsFingerprint(env, repo, d.key, d.fp.value))
  }

  method Listing(files: set<string>) returns (r: seq<string>)
    ensures forall f :: f in r <==> f in files
  {
    r := [];
    var left := files;
    while left != {}
      invariant left <= files
      invariant forall f :: f in r <==> f in files - left
    {
      var f :| f in left;
      r, left := r + [f], left - {f};
    }
  }

  method Dispose(env: Env, repo: Repo, ctx: HashContext, key: string) returns (d: Disposition)
    requires ContextOf(ctx, env.blob, repo.index, repo.disk)
    ensures d.key == key && Disposes(env, repo, d)
  {
    var closure := BuildClosure(GraphOf(env, repo.disk), TestPath(key), env.isGlobal);
    if closure.ungraphable {
      return Disposition(key, Ungraphable, None);
    }
    if closure.reader && key !in env.fsInputs {
      return Disposition(key, ReaderUndeclared, None);
    }
    var files := Listing(closure.files);
    var globals := Filter(env.isGlobal, repo.universe);
    var extra := if closure.reader then Filter(env.fsInputs[key], repo.universe) else [];
    FilterExact(env.isGlobal, repo.universe);
    if closure.reader { FilterExact(env.fsInputs[key], repo.universe); }
    assert Lists(env, repo, key, files + globals + extra);
    var fp := Fingerprint(files + globals + extra, ctx, env.blob, repo.disk, []);
    d := Disposition(key, if closure.reader then ReaderDeclared else Graphed, Some(fp));
  }

  lemma {:induction false} FilterExact(p: string -> bool, s: seq<string>)
    ensures forall f :: f in Filter(p, s) <==> f in s && p(f)
  {
    if s != [] {
      var n := |s| - 1;
      FilterExact(p, s[..n]);
      assert s == s[..n] + [s[n]];
    }
  }

  type Registry = map<string, string>

  predicate Cached(registry: Registry, d: Disposition) {
    d.fp.Some? && d.key in registry && registry[d.key] == d.fp.value
  }

  ghost predicate InGreenShard(outcomes: seq<Outcome<seq<string>>>, k: string) {
    exists o :: o in outcomes && o.exitCode == 0 && k in o.shard
  }

  /** The registry after a run: the fingerprints of the files of shards that exited 0. */
  ghost predicate Primed(registry: Registry, fps: Registry, outcomes: seq<Outcome<seq<string>>>, after: Registry) {
    forall k :: var green := k in fps && InGreenShard(outcomes, k);
      && (k in after <==> green || k in registry)
      && (k in after ==> after[k] == if green then fps[k] else registry[k])
  }

  method Prime(registry: Registry, fps: Registry, outcomes: seq<Outcome<seq<string>>>) returns (after: Registry)
    ensures Primed(registry, fps, outcomes, after)
  {
    after := registry;
    for i := 0 to |outcomes|
      invariant Primed(registry, fps, outcomes[..i], after)
    {
      assert outcomes[..i + 1] == outcomes[..i] + [outcomes[i]];
      assert forall o :: o in outcomes[..i + 1] <==> o in outcomes[..i] || o == outcomes[i];
      if outcomes[i].exitCode == 0 {
        after := PrimeShard(after, fps, outcomes[i].shard);
      }
    }
    assert outcomes[..|outcomes|] == outcomes;
  }

  method PrimeShard(registry: Registry, fps: Registry, shard: seq<string>) returns (after: Registry)
    ensures forall k :: k in after <==> k in registry || (k in fps && k in shard)
    ensures forall k | k in after :: after[k] == if k in fps && k in shard then fps[k] else registry[k]
  {
    after := registry;
    for i := 0 to |shard|
      invariant forall k :: k in after <==> k in registry || (k in fps && k in shard[..i])
      invariant forall k | k in after :: after[k] == if k in fps && k in shard[..i] then fps[k] else registry[k]
    {
      assert forall k :: k in shard[..i + 1] <==> k in shard[..i] || k == shard[i];
      if shard[i] in fps {
        after := after[shard[i] := fps[shard[i]]];
      }
    }
    assert shard[..|shard|] == shard;
  }

  // ---- Runs ----

  /** Between runs, or with shards executing: what was selected, on which tree, whether it is an audit, and the
      trees there were since. */
  datatype Phase = Idle | Running(at: Repo, fps: Registry, toRun: set<string>, report: bool, trees: seq<Repo>)

  datatype State = State(repo: Repo, registry: Registry, phase: Phase)

  datatype Mode = Cache | Forced | Report

  /** The shards ran all of `toRun`, each file on any of `trees`. */
  ghost predicate Ran(verdict: Verdict, trees: seq<Repo>, toRun: set<string>, outcomes: seq<Outcome<seq<string>>>) {
    (forall k :: k in toRun <==> exists o :: o in outcomes && k in o.shard) && forall o | o in outcomes :: Exits(verdict, trees, o)
  }

  /** A shard exits 0 exactly when every file in it passes. */
  ghost predicate Exits(verdict: Verdict, trees: seq<Repo>, o: Outcome<seq<string>>) {
    if o.exitCode == 0 then forall k | k in o.shard :: Passes(verdict, trees, k) else exists k :: k in o.shard && Fails(verdict, trees, k)
  }

  ghost predicate Passes(verdict: Verdict, trees: seq<Repo>, k: string) {
    exists i :: 0 <= i < |trees| && verdict(k, trees[i])
  }

  ghost predicate Fails(verdict: Verdict, trees: seq<Repo>, k: string) {
    exists i :: 0 <= i < |trees| && !verdict(k, trees[i])
  }

  /** Anybody edits anything at any time. */
  ghost predicate Edits(s: State, s': State) {
    && RepoOk(s'.repo) && s'.registry == s.registry
    && s'.phase == if s.phase.Running? then s.phase.(trees := s.phase.trees + [s'.repo]) else s.phase
  }

  /** The cache directory was removed or cannot be parsed. */
  ghost predicate LosesCache(s: State, s': State) {
    s.phase.Idle? && s' == s.(registry := map[])
  }

  ghost predicate SelectedBy(env: Env, repo: Repo, registry: Registry, mode: Mode, p: Phase) {
    p.Running? && p.at == repo && p.report == mode.Report? && p.trees == [repo] && exists ds :: SelectionOf(env, repo, registry, mode, p, ds)
  }

  ghost predicate SelectionOf(env: Env, repo: Repo, registry: Registry, mode: Mode, p: Phase, ds: seq<Disposition>)
    requires p.Running?
  {
    && DisposedAll(env, repo, ds) && Fingerprinted(env, repo, ds, p.fps) && Chosen(registry, !mode.Cache?, ds, p.toRun)
  }

  ghost predicate DisposedAll(env: Env, repo: Repo, ds: seq<Disposition>) {
    |ds| == |repo.tests| && forall i | 0 <= i < |ds| :: ds[i].key == repo.tests[i] && Disposes(env, repo, ds[i])
  }

  ghost predicate Fingerprinted(env: Env, repo: Repo, ds: seq<Disposition>, fps: Registry) {
    && (forall k :: k in fps <==> exists d :: d in ds && d.key == k && d.fp.Some?)
    && (forall k | k in fps :: IsFingerprint(env, repo, k, fps[k]))
  }

  ghost predicate Chosen(registry: Registry, runAll: bool, ds: seq<Disposition>, toRun: set<string>) {
    forall k :: k in toRun <==> exists d :: d in ds && d.key == k && (runAll || !Cached(registry, d))
  }

  ghost predicate Begins(env: Env, mode: Mode, s: State, s': State) {
    s.phase.Idle? && s'.repo == s.repo && s'.registry == s.registry && SelectedBy(env, s.repo, s.registry, mode, s'.phase)
  }

  ghost predicate Ends(verdict: Verdict, outcomes: seq<Outcome<seq<string>>>, s: State, s': State) {
    && s.phase.Running? && s'.phase.Idle? && s'.repo == s.repo
    && Ran(verdict, s.phase.trees, s.phase.toRun, outcomes)
    && if s.phase.report then s'.registry == s.registry else Primed(s.registry, s.phase.fps, outcomes, s'.registry)
  }

  /** The process is killed before the registry is written. */
  ghost predicate Aborts(s: State, s': State) {
    s.phase.Running? && s' == s.(phase := Phase.Idle)
  }

  ghost predicate Step(env: Env, verdict: Verdict, s: State, s': State) {
    || Edits(s, s')
    || LosesCache(s, s')
    || (exists mode :: Begins(env, mode, s, s'))
    || (exists outcomes :: Ends(verdict, outcomes, s, s'))
    || Aborts(s, s')
  }

  ghost predicate IsRun(env: Env, verdict: Verdict, run: seq<State>) {
    && run != [] && RepoOk(run[0].repo) && run[0].registry == map[] && run[0].phase.Idle?
    && forall i | 0 <= i < |run| - 1 :: Step(env, verdict, run[i], run[i + 1])
  }

  lemma ChosenNext(registry: Registry, runAll: bool, ds: seq<Disposition>, d: Disposition, toRun: seq<string>)
    requires Chosen(registry, runAll, ds, (set k | k in toRun))
    ensures var toRun' := if runAll || !Cached(registry, d) then toRun + [d.key] else toRun;
            Chosen(registry, runAll, ds + [d], (set k | k in toRun'))
  {
    ChosenAnd(registry, runAll, ds, d, (set k | k in toRun));
    assert (set k | k in toRun + [d.key]) == (set k | k in toRun) + {d.key};
  }

  lemma ChosenAnd(registry: Registry, runAll: bool, ds: seq<Disposition>, d: Disposition, toRun: set<string>)
    requires Chosen(registry, runAll, ds, toRun)
    ensures Chosen(registry, runAll, ds + [d], if runAll || !Cached(registry, d) then toRun + {d.key} else toRun)
  {
    assert forall e :: e in ds + [d] <==> e in ds || e == d;
  }

  lemma FingerprintedNext(env: Env, repo: Repo, ds: seq<Disposition>, d: Disposition, fps: Registry)
    requires Fingerprinted(env, repo, ds, fps) && (d.fp.Some? ==> IsFingerprint(env, repo, d.key, d.fp.value))
    ensures Fingerprinted(env, repo, ds + [d], if d.fp.Some? then fps[d.key := d.fp.value] else fps)
  {
    assert forall e :: e in ds + [d] <==> e in ds || e == d;
  }

  /** The fingerprints of the graphed tests, and the keys of the tests to run. */
  method Select(env: Env, repo: Repo, ctx: HashContext, registry: Registry, mode: Mode)
    returns (fps: Registry, toRun: seq<string>)
    requires ContextOf(ctx, env.blob, repo.index, repo.disk)
    ensures SelectedBy(env, repo, registry, mode, Running(repo, fps, (set k | k in toRun), mode.Report?, [repo]))
  {
    var dispositions: seq<Disposition> := [];
    var runAll := !mode.Cache?;
    fps, toRun := map[], [];
    for i := 0 to |repo.tests|
      invariant |dispositions| == i
      invariant forall j | 0 <= j < i :: dispositions[j].key == repo.tests[j] && Disposes(env, repo, dispositions[j])
      invariant Fingerprinted(env, repo, dispositions, fps) && Chosen(registry, runAll, dispositions, (set k | k in toRun))
    {
      var d := Dispose(env, repo, ctx, repo.tests[i]);
      ChosenNext(registry, runAll, dispositions, d, toRun);
      FingerprintedNext(env, repo, dispositions, d, fps);
      dispositions := dispositions + [d];
      if runAll || !Cached(registry, d) {
        toRun := toRun + [d.key];
      }
      if d.fp.Some? {
        fps := fps[d.key := d.fp.value];
      }
    }
    assert SelectionOf(env, repo, registry, mode, Running(repo, fps, (set k | k in toRun), mode.Report?, [repo]), dispositions);
  }

  // ---- The cache agrees with running everything ----

  /** The fingerprint was taken on some tree on which the test passes. */
  ghost predicate Green(env: Env, verdict: Verdict, key: string, fp: string) {
    exists r :: RepoOk(r) && Certifiable(env, r, key) && IsFingerprint(env, r, key, fp) && verdict(key, r)
  }

  ghost predicate GreenRegistry(env: Env, verdict: Verdict, registry: Registry) {
    forall k | k in registry :: Green(env, verdict, k, registry[k])
  }

  /** What the fingerprints of a running invocation are, whatever was edited since. */
  ghost predicate Taken(env: Env, s: State) {
    && RepoOk(s.repo)
    && (s.phase.Running? ==>
          && RepoOk(s.phase.at) && (forall r | r in s.phase.trees :: RepoOk(r))
          && forall k | k in s.phase.fps ::
               k in s.phase.at.tests && Certifiable(env, s.phase.at, k) && IsFingerprint(env, s.phase.at, k, s.phase.fps[k]))
  }

  ghost predicate Inv(env: Env, verdict: Verdict, s: State) {
    Taken(env, s) && GreenRegistry(env, verdict, s.registry)
  }

  /** What is about to be recorded passes on the tree it was fingerprinted on. */
  ghost predicate HonestEnd(verdict: Verdict, outcomes: seq<Outcome<seq<string>>>, s: State)
    requires s.phase.Running?
  {
    s.phase.report || forall k | k in s.phase.fps && InGreenShard(outcomes, k) :: verdict(k, s.phase.at)
  }

  /** Whatever is recorded was decided on the fingerprinted tree exactly when the registry stays green. */
  lemma EndKeepsGreenExactly(env: Env, verdict: Verdict, outcomes: seq<Outcome<seq<string>>>, s: State, s': State)
    requires EnvOk(env) && DependsOnInputs(env, verdict) && Inv(env, verdict, s) && Ends(verdict, outcomes, s, s')
    ensures GreenRegistry(env, verdict, s'.registry) <==> HonestEnd(verdict, outcomes, s)
  {
    if !s.phase.report {
      forall k | k in s'.registry
        ensures Green(env, verdict, k, s'.registry[k]) <==> (k in s.phase.fps && InGreenShard(outcomes, k) ==> verdict(k, s.phase.at))
      {
        RecordedGreenExactly(env, verdict, outcomes, s, s', k);
      }
      assert forall k | k in s.phase.fps && InGreenShard(outcomes, k) :: k in s'.registry;
    }
  }

  lemma RecordedGreenExactly(env: Env, verdict: Verdict, outcomes: seq<Outcome<seq<string>>>, s: State, s': State, k: string)
    requires EnvOk(env) && DependsOnInputs(env, verdict) && Inv(env, verdict, s) && s.phase.Running?
    requires Primed(s.registry, s.phase.fps, outcomes, s'.registry) && k in s'.registry
    ensures Green(env, verdict, k, s'.registry[k]) <==> (k in s.phase.fps && InGreenShard(outcomes, k) ==> verdict(k, s.phase.at))
  {
    if k in s.phase.fps && InGreenShard(outcomes, k) {
      GreenExactly(env, verdict, s.phase.at, k, s.phase.fps[k]);
    }
  }

  ghost predicate EndsHonestly(verdict: Verdict, s: State, s': State) {
    forall outcomes | Ends(verdict, outcomes, s, s') :: HonestEnd(verdict, outcomes, s)
  }

  lemma StepKeepsTaken(env: Env, verdict: Verdict, s: State, s': State)
    requires Taken(env, s) && Step(env, verdict, s, s')
    ensures Taken(env, s')
  {
    if mode :| Begins(env, mode, s, s') {
      BeginTakes(env, mode, s, s');
    }
  }

  lemma BeginTakes(env: Env, mode: Mode, s: State, s': State)
    requires RepoOk(s.repo) && Begins(env, mode, s, s')
    ensures Taken(env, s')
  {
    var ds: seq<Disposition> :| SelectionOf(env, s.repo, s.registry, mode, s'.phase, ds);
    forall k | k in s'.phase.fps
      ensures k in s.repo.tests && Certifiable(env, s.repo, k) && IsFingerprint(env, s.repo, k, s'.phase.fps[k])
    {
      var d :| d in ds && d.key == k && d.fp.Some?;
      var i :| 0 <= i < |ds| && ds[i] == d;
    }
  }

  /** A step keeps every registered fingerprint green exactly when it does not end a run dishonestly. */
  lemma StepKeepsInv(env: Env, verdict: Verdict, s: State, s': State)
    requires EnvOk(env) && DependsOnInputs(env, verdict) && Inv(env, verdict, s) && Step(env, verdict, s, s')
    ensures Inv(env, verdict, s') <==> EndsHonestly(verdict, s, s')
  {
    StepKeepsTaken(env, verdict, s, s');
    forall outcomes | Ends(verdict, outcomes, s, s')
      ensures GreenRegistry(env, verdict, s'.registry) <==> HonestEnd(verdict, outcomes, s)
    {
      EndKeepsGreenExactly(env, verdict, outcomes, s, s');
    }
  }

  ghost predicate Honest(verdict: Verdict, run: seq<State>) {
    forall i | 0 <= i < |run| - 1 :: EndsHonestly(verdict, run[i], run[i + 1])
  }

  ghost predicate GreenThroughout(env: Env, verdict: Verdict, run: seq<State>) {
    forall i | 0 <= i < |run| :: GreenRegistry(env, verdict, run[i].registry)
  }

  lemma {:induction false} RunKeepsTaken(env: Env, verdict: Verdict, run: seq<State>, i: nat)
    requires IsRun(env, verdict, run) && i < |run|
    ensures Taken(env, run[i])
  {
    if i > 0 {
      RunKeepsTaken(env, verdict, run, i - 1);
      assert Step(env, verdict, run[i - 1], run[i - 1 + 1]);
      StepKeepsTaken(env, verdict, run[i - 1], run[i]);
    }
  }

  lemma {:induction false} HonestStaysGreen(env: Env, verdict: Verdict, run: seq<State>, i: nat)
    requires EnvOk(env) && DependsOnInputs(env, verdict) && IsRun(env, verdict, run) && Honest(verdict, run) && i < |run|
    ensures Inv(env, verdict, run[i])
  {
    if i > 0 {
      HonestStaysGreen(env, verdict, run, i - 1);
      assert Step(env, verdict, run[i - 1], run[i - 1 + 1]);
      StepKeepsInv(env, verdict, run[i - 1], run[i]);
    }
  }

  /** Over a whole run, edits while shards run included: every fingerprint ever registered is green exactly when
      no run was ended with a pass recorded for a tree that fails. */
  lemma GreenThroughoutExactly(env: Env, verdict: Verdict, run: seq<State>)
    requires EnvOk(env) && DependsOnInputs(env, verdict) && IsRun(env, verdict, run)
    ensures GreenThroughout(env, verdict, run) <==> Honest(verdict, run)
  {
    if Honest(verdict, run) {
      forall i | 0 <= i < |run| ensures GreenRegistry(env, verdict, run[i].registry) {
        HonestStaysGreen(env, verdict, run, i);
      }
    }
    if GreenThroughout(env, verdict, run) {
      forall i | 0 <= i < |run| - 1 ensures EndsHonestly(verdict, run[i], run[i + 1]) {
        RunKeepsTaken(env, verdict, run, i);
        RunKeepsTaken(env, verdict, run, i + 1);
        StepKeepsInv(env, verdict, run[i], run[i + 1]);
      }
    }
  }

  // ---- Which edits are harmless ----

  /** The end of this run may record it, and its fingerprint is not registered already. */
  predicate AtRisk(s: State, k: string)
    requires s.phase.Running?
  {
    && !s.phase.report && k in s.phase.fps && k in s.phase.toRun
    && !(k in s.registry && s.registry[k] == s.phase.fps[k])
  }

  /** No tree there was since the fingerprints changed an input of a test at risk. */
  ghost predicate Kept(env: Env, s: State) {
    s.phase.Running? ==>
      forall k, r | AtRisk(s, k) && r in s.phase.trees :: Certifiable(env, r, k) && SameInputs(env, k, s.phase.at, r)
  }

  /** No verdict and no way for the shards to end puts a fingerprint in the registry that is not green. */
  ghost predicate Safe(env: Env, s: State) {
    forall verdict: Verdict, outcomes, s' |
      DependsOnInputs(env, verdict) && GreenRegistry(env, verdict, s.registry) && Ends(verdict, outcomes, s, s')
      :: GreenRegistry(env, verdict, s'.registry)
  }

  lemma KeptIsHonest(env: Env, verdict: Verdict, outcomes: seq<Outcome<seq<string>>>, s: State, s': State)
    requires EnvOk(env) && DependsOnInputs(env, verdict) && Inv(env, verdict, s) && Kept(env, s) && Ends(verdict, outcomes, s, s')
    ensures HonestEnd(verdict, outcomes, s)
  {
    var at, fps, trees := s.phase.at, s.phase.fps, s.phase.trees;
    if !s.phase.report {
      forall k | k in fps && InGreenShard(outcomes, k) ensures verdict(k, at) {
        var i := GreenShardPassed(verdict, trees, s.phase.toRun, outcomes, k);
        assert trees[i] in trees;
        PassedOnKept(env, verdict, s, k, trees[i]);
      }
    }
  }

  lemma SameVerdict(env: Env, verdict: Verdict, k: string, a: Repo, b: Repo)
    requires DependsOnInputs(env, verdict) && RepoOk(a) && RepoOk(b)
    requires Certifiable(env, a, k) && Certifiable(env, b, k) && SameInputs(env, k, a, b)
    ensures verdict(k, a) == verdict(k, b)
  {
  }

  lemma PassedOnKept(env: Env, verdict: Verdict, s: State, k: string, r: Repo)
    requires EnvOk(env) && DependsOnInputs(env, verdict) && Inv(env, verdict, s) && s.phase.Running? && Kept(env, s)
    requires k in s.phase.fps && k in s.phase.toRun && !s.phase.report && r in s.phase.trees && verdict(k, r)
    ensures verdict(k, s.phase.at)
  {
    if AtRisk(s, k) {
      SameVerdict(env, verdict, k, s.phase.at, r);
    } else {
      GreenExactly(env, verdict, s.phase.at, k, s.phase.fps[k]);
    }
  }

  lemma GreenShardPassed(verdict: Verdict, trees: seq<Repo>, toRun: set<string>, outcomes: seq<Outcome<seq<string>>>, k: string)
    returns (i: nat)
    requires Ran(verdict, trees, toRun, outcomes) && InGreenShard(outcomes, k)
    ensures k in toRun && i < |trees| && verdict(k, trees[i])
  {
    var o :| o in outcomes && o.exitCode == 0 && k in o.shard;
    assert Exits(verdict, trees, o) && Passes(verdict, trees, k);
    i :| 0 <= i < |trees| && verdict(k, trees[i]);
  }

  /** The verdict that fails exactly on the trees with the inputs that `key` has on `at`. */
  ghost function FailsLike(env: Env, key: string, at: Repo): Verdict {
    (k, r) => !(k == key && Certifiable(env, r, key) && SameInputs(env, key, at, r))
  }

  lemma FailsLikeDependsOnInputs(env: Env, key: string, at: Repo)
    ensures DependsOnInputs(env, FailsLike(env, key, at))
  {
  }

  /** Fingerprints not taken over the inputs that `key` has on `at` stay green under that verdict. */
  lemma FailsLikeStaysGreen(env: Env, verdict: Verdict, key: string, at: Repo, fp: string, registry: Registry)
    requires EnvOk(env) && RepoOk(at) && key in at.tests && IsFingerprint(env, at, key, fp)
    requires GreenRegistry(env, verdict, registry) && !(key in registry && registry[key] == fp)
    ensures GreenRegistry(env, FailsLike(env, key, at), registry)
  {
    forall k | k in registry ensures Green(env, FailsLike(env, key, at), k, registry[k]) {
      var r :| RepoOk(r) && Certifiable(env, r, k) && IsFingerprint(env, r, k, registry[k]) && verdict(k, r);
      if k == key && SameInputs(env, key, at, r) {
        OneFingerprint(env, key, at, r, fp, registry[k]);
      }
      assert FailsLike(env, key, at)(k, r);
    }
  }

  /** Every file in a shard of its own, on the tree `trees[i]`. */
  lemma {:induction false} SomeOutcomes(verdict: Verdict, trees: seq<Repo>, i: nat, toRun: set<string>)
    returns (outcomes: seq<Outcome<seq<string>>>)
    requires i < |trees|
    ensures Ran(verdict, trees, toRun, outcomes)
    ensures forall k | k in toRun && verdict(k, trees[i]) :: InGreenShard(outcomes, k)
  {
    outcomes := [];
    if k :| k in toRun {
      var rest := SomeOutcomes(verdict, trees, i, toRun - {k});
      var o := Outcome([k], if verdict(k, trees[i]) then 0 else 1);
      assert k in o.shard && if verdict(k, trees[i]) then Passes(verdict, trees, k) else Fails(verdict, trees, k);
      RanAnd(verdict, trees, toRun - {k}, rest, k, o);
      assert toRun - {k} + {k} == toRun;
      outcomes := [o] + rest;
      forall j | j in toRun && verdict(j, trees[i]) ensures InGreenShard(outcomes, j) {
        assert o in outcomes && k in o.shard;
        if j != k {
          var p :| p in rest && p.exitCode == 0 && j in p.shard;
          assert p in outcomes;
        }
      }
    }
  }

  lemma RanAnd(
    verdict: Verdict, trees: seq<Repo>, toRun: set<string>, outcomes: seq<Outcome<seq<string>>>, k: string,
    o: Outcome<seq<string>>)
    requires Ran(verdict, trees, toRun, outcomes) && o.shard == [k] && Exits(verdict, trees, o)
    ensures Ran(verdict, trees, toRun + {k}, [o] + outcomes)
  {
    assert forall p :: p in [o] + outcomes <==> p == o || p in outcomes;
  }

  lemma SomeRegistry(registry: Registry, fps: Registry, outcomes: seq<Outcome<seq<string>>>) returns (after: Registry)
    ensures Primed(registry, fps, outcomes, after)
  {
    after := map k | k in registry.Keys + fps.Keys && (k in registry || InGreenShard(outcomes, k))
      :: if k in fps && InGreenShard(outcomes, k) then fps[k] else registry[k];
  }

  lemma SafeKeeps(env: Env, verdict: Verdict, s: State, k: string, i: nat)
    requires EnvOk(env) && Inv(env, verdict, s) && s.phase.Running? && Safe(env, s) && AtRisk(s, k) && i < |s.phase.trees|
    ensures Certifiable(env, s.phase.trees[i], k) && SameInputs(env, k, s.phase.at, s.phase.trees[i])
  {
    var at, fps, trees := s.phase.at, s.phase.fps, s.phase.trees;
    var fails := FailsLike(env, k, at);
    assert !fails(k, at);
    if fails(k, trees[i]) {
      FailsLikeDependsOnInputs(env, k, at);
      FailsLikeStaysGreen(env, verdict, k, at, fps[k], s.registry);
      var outcomes := SomeOutcomes(fails, trees, i, s.phase.toRun);
      var after := SomeRegistry(s.registry, fps, outcomes);
      var s' := State(s.repo, after, Phase.Idle);
      assert Ends(fails, outcomes, s, s');
      EndKeepsGreenExactly(env, fails, outcomes, s, s');
    }
  }

  /** An edit while the shards run is harmless, whatever the tests say and however they end, exactly when it leaves
      every test at risk its inputs. */
  lemma SafeExactly(env: Env, verdict: Verdict, s: State)
    requires EnvOk(env) && Inv(env, verdict, s) && s.phase.Running?
    ensures Safe(env, s) <==> Kept(env, s)
  {
    if Kept(env, s) {
      forall v: Verdict, outcomes, s' |
        DependsOnInputs(env, v) && GreenRegistry(env, v, s.registry) && Ends(v, outcomes, s, s')
        ensures GreenRegistry(env, v, s'.registry)
      {
        KeptIsHonest(env, v, outcomes, s, s');
        EndKeepsGreenExactly(env, v, outcomes, s, s');
      }
    }
    if Safe(env, s) {
      forall k, r | AtRisk(s, k) && r in s.phase.trees ensures Certifiable(env, r, k) && SameInputs(env, k, s.phase.at, r) {
        var i :| 0 <= i < |s.phase.trees| && s.phase.trees[i] == r;
        SafeKeeps(env, verdict, s, k, i);
      }
    }
  }

  ghost predicate Harmless(env: Env, run: seq<State>) {
    forall i | 0 <= i < |run| - 1 :: Kept(env, run[i])
  }

  lemma {:induction false} HarmlessIsHonest(env: Env, verdict: Verdict, run: seq<State>)
    requires EnvOk(env) && DependsOnInputs(env, verdict) && IsRun(env, verdict, run) && Harmless(env, run)
    ensures Honest(verdict, run)
  {
    if |run| > 1 {
      var before := run[..|run| - 1];
      forall i | 0 <= i < |before| - 1 ensures Step(env, verdict, before[i], before[i + 1]) && Kept(env, before[i]) {
        assert Step(env, verdict, run[i], run[i + 1]);
      }
      HarmlessIsHonest(env, verdict, before);
      HonestStaysGreen(env, verdict, before, |before| - 1);
      forall i | 0 <= i < |run| - 1 ensures EndsHonestly(verdict, run[i], run[i + 1]) {
        if i < |before| - 1 {
          assert EndsHonestly(verdict, before[i], before[i + 1]);
        } else {
          forall outcomes | Ends(verdict, outcomes, run[i], run[i + 1]) ensures HonestEnd(verdict, outcomes, run[i]) {
            KeptIsHonest(env, verdict, outcomes, run[i], run[i + 1]);
          }
        }
      }
    }
  }

  /** Over any honest run of edits, selections, failing and passing shards, forced runs, audits and kills, a test
      file that selection skips would pass. */
  lemma SkippedTestsPass(env: Env, verdict: Verdict, run: seq<State>, s': State, mode: Mode, key: string)
    requires EnvOk(env) && DependsOnInputs(env, verdict) && IsRun(env, verdict, run) && Honest(verdict, run)
    requires Begins(env, mode, run[|run| - 1], s')
    requires key in s'.repo.tests && key !in s'.phase.toRun
    ensures verdict(key, s'.repo)
  {
    var s := run[|run| - 1];
    HonestStaysGreen(env, verdict, run, |run| - 1);
    SkippedIsCertified(env, mode, s, s', key);
    GreenExactly(env, verdict, s.repo, key, s.registry[key]);
  }

  /** A fingerprint of a tree is green exactly when the test passes there. */
  lemma GreenExactly(env: Env, verdict: Verdict, repo: Repo, key: string, fp: string)
    requires EnvOk(env) && DependsOnInputs(env, verdict) && RepoOk(repo) && '\0' !in key
    requires Certifiable(env, repo, key) && IsFingerprint(env, repo, key, fp)
    ensures Green(env, verdict, key, fp) <==> verdict(key, repo)
  {
    if Green(env, verdict, key, fp) {
      var r :| RepoOk(r) && Certifiable(env, r, key) && IsFingerprint(env, r, key, fp) && verdict(key, r);
      FingerprintTellsInputs(env, key, r, repo, fp);
    }
  }

  lemma SkippedIsCertified(env: Env, mode: Mode, s: State, s': State, key: string)
    requires Begins(env, mode, s, s')
    requires key in s'.repo.tests && key !in s'.phase.toRun
    ensures key in s.registry && Certifiable(env, s.repo, key) && IsFingerprint(env, s.repo, key, s.registry[key])
  {
    var ds: seq<Disposition> :| SelectionOf(env, s.repo, s.registry, mode, s'.phase, ds);
    var i :| 0 <= i < |ds| && s.repo.tests[i] == key;
    assert ds[i] in ds;
  }

  /** A forced run and an audit run every test file; no mode runs anything else. */
  lemma ForcedRunsAll(env: Env, mode: Mode, s: State, s': State)
    requires Begins(env, mode, s, s')
    ensures mode.Forced? || mode.Report? ==> forall k :: k in s'.phase.toRun <==> k in s.repo.tests
    ensures forall k | k in s'.phase.toRun :: k in s.repo.tests
    ensures s'.phase.report <==> mode.Report?
  {
    var ds: seq<Disposition> :| SelectionOf(env, s.repo, s.registry, mode, s'.phase, ds);
    forall k | k in s.repo.tests ensures exists d :: d in ds && d.key == k {
      var i :| 0 <= i < |s.repo.tests| && s.repo.tests[i] == k;
      assert ds[i] in ds;
    }
  }

  /** And the cache does save work: a test whose certified fingerprint still stands is not run again. */
  lemma CertifiedIsSkipped(env: Env, s: State, s': State, key: string)
    requires EnvOk(env) && RepoOk(s.repo) && Begins(env, Cache, s, s')
    requires key in s.registry && IsFingerprint(env, s.repo, key, s.registry[key]) && Certifiable(env, s.repo, key)
    ensures key !in s'.phase.toRun
  {
    var ds: seq<Disposition> :| SelectionOf(env, s.repo, s.registry, Cache, s'.phase, ds);
    forall d | d in ds && d.key == key ensures Cached(s.registry, d) {
      var i :| 0 <= i < |ds| && ds[i] == d;
      assert key in s.repo.tests;
      OneFingerprint(env, key, s.repo, s.repo, d.fp.value, s.registry[key]);
    }
  }

  /** The exit code agrees with running everything: all the shards that ran exit 0 exactly when every test
      file passes. */
  lemma SelectedRunAgrees(
    env: Env, verdict: Verdict, run: seq<State>, s: State, mode: Mode, outcomes: seq<Outcome<seq<string>>>)
    requires EnvOk(env) && DependsOnInputs(env, verdict) && IsRun(env, verdict, run) && Honest(verdict, run)
    requires Begins(env, mode, run[|run| - 1], s) && Ran(verdict, s.phase.trees, s.phase.toRun, outcomes)
    ensures (forall o | o in outcomes :: o.exitCode == 0) <==> (forall k | k in s.repo.tests :: verdict(k, s.repo))
  {
    forall k | k in s.repo.tests && k !in s.phase.toRun ensures verdict(k, s.repo) {
      SkippedTestsPass(env, verdict, run, s, mode, k);
    }
    ToRunAreTests(env, mode, run[|run| - 1], s);
    if forall o | o in outcomes :: o.exitCode == 0 {
      forall k | k in s.phase.toRun ensures verdict(k, s.repo) {
        var o :| o in outcomes && k in o.shard;
        assert Passes(verdict, s.phase.trees, k);
      }
    }
    if o :| o in outcomes && o.exitCode != 0 {
      var k :| k in o.shard && Fails(verdict, s.phase.trees, k);
      assert k in s.phase.toRun;
    }
  }

  lemma ToRunAreTests(env: Env, mode: Mode, s: State, s': State)
    requires Begins(env, mode, s, s')
    ensures forall k | k in s'.phase.toRun :: k in s'.repo.tests
  {
  }

  /** One invocation, from selection through the sharder to the registry it writes. */
  method RunSelection(
    env: Env, ghost verdict: Verdict, ghost run: seq<State>, s: State, ctx: HashContext, mode: Mode,
    isolated: set<string>, weight: Weights, concurrency: nat, exit: seq<string> -> int)
    returns (registry: Registry, code: int)
    requires EnvOk(env) && DependsOnInputs(env, verdict) && IsRun(env, verdict, run) && Honest(verdict, run)
    requires run[|run| - 1] == s && s.phase.Idle? && ContextOf(ctx, env.blob, s.repo.index, s.repo.disk)
    requires concurrency > 0
    requires forall shard :: exit(shard) == 0 <==> forall k | k in shard :: verdict(k, s.repo)
    ensures code == 0 <==> forall k | k in s.repo.tests :: verdict(k, s.repo)
    ensures exists mid, outcomes ::
              Begins(env, mode, s, mid) && Ends(verdict, outcomes, mid, State(s.repo, registry, Phase.Idle))
  {
    var fps, toRun := Select(env, s.repo, ctx, s.registry, mode);
    ghost var mid := State(s.repo, s.registry, Running(s.repo, fps, (set k | k in toRun), mode.Report?, [s.repo]));
    assert Begins(env, mode, s, mid);
    var outcomes := RunUnitTests(toRun, isolated, weight, concurrency, exit);
    RanAll(verdict, [s.repo], s.repo, toRun, outcomes);
    SelectedRunAgrees(env, verdict, run, mid, mode, outcomes);
    registry := s.registry;
    if !mode.Report? {
      registry := Prime(s.registry, fps, outcomes);
    }
    assert Ends(verdict, outcomes, mid, State(s.repo, registry, Phase.Idle));
    code := if exists i :: 0 <= i < |outcomes| && outcomes[i].exitCode != 0 then 1 else 0;
  }

  lemma RanAll(verdict: Verdict, trees: seq<Repo>, repo: Repo, toRun: seq<string>, outcomes: seq<Outcome<seq<string>>>)
    requires Files(Shards(outcomes)) == multiset(toRun) && trees == [repo]
    requires forall i | 0 <= i < |outcomes| ::
               outcomes[i].exitCode == 0 <==> forall k | k in outcomes[i].shard :: verdict(k, repo)
    ensures Ran(verdict, trees, (set k | k in toRun), outcomes)
  {
    forall k ensures k in toRun <==> exists o :: o in outcomes && k in o.shard {
      if k in toRun {
        assert k in multiset(toRun);
        var b, i := FilesIn(Shards(outcomes), k);
        assert outcomes[b] in outcomes;
      }
      if o :| o in outcomes && k in o.shard {
        var b :| 0 <= b < |outcomes| && outcomes[b] == o;
        InFiles(Shards(outcomes), b, k);
        assert k in multiset(toRun);
      }
    }
    assert forall k | verdict(k, trees[0]) :: Passes(verdict, trees, k);
    assert forall k | !verdict(k, trees[0]) :: Fails(verdict, trees, k);
  }

  /** What a dishonest end costs: on the tree it was fingerprinted on, a failing test is skipped from then on. */
  lemma DishonestEndSkipsAFailure(
    env: Env, verdict: Verdict, outcomes: seq<Outcome<seq<string>>>, s: State, s': State, later: State, key: string)
    requires EnvOk(env) && Taken(env, s) && Ends(verdict, outcomes, s, s') && !s.phase.report
    requires key in s.phase.fps && InGreenShard(outcomes, key) && !verdict(key, s.phase.at)
    requires Begins(env, Cache, s'.(repo := s.phase.at), later)
    ensures key in later.repo.tests && key !in later.phase.toRun && !verdict(key, later.repo)
  {
    CertifiedIsSkipped(env, s'.(repo := s.phase.at), later, key);
  }

  /** Where the guarantee ends: fingerprints are taken before the shards run. Any edit, while they run, from a
      tree on which a test fails to one on which it passes leaves the failing tree certified. */
  lemma EditWhileRunning(env: Env, verdict: Verdict, key: string, red: Repo, green: Repo, s1: State, s2: State, s3: State, s4: State)
    requires EnvOk(env) && RepoOk(red) && red.tests == [key] && Certifiable(env, red, key)
    requires !verdict(key, red) && verdict(key, green)
    requires Begins(env, Cache, State(red, map[], Phase.Idle), s1)
    requires Edits(s1, s2) && s2.repo == green
    requires Ends(verdict, [Outcome([key], 0)], s2, s3)
    requires Begins(env, Cache, s3.(repo := red), s4)
    ensures key in s4.repo.tests && key !in s4.phase.toRun && !verdict(key, s4.repo)
  {
    RedIsTaken(env, key, red, s1);
    GreenOutcome(key);
    DishonestEndSkipsAFailure(env, verdict, [Outcome([key], 0)], s2, s3, s4, key);
  }

  lemma GreenOutcome(key: string)
    ensures InGreenShard([Outcome([key], 0)], key)
  {
    var o := Outcome([key], 0);
    assert o in [o] && key in o.shard;
  }

  lemma RedIsTaken(env: Env, key: string, red: Repo, s: State)
    requires RepoOk(red) && red.tests == [key] && Certifiable(env, red, key)
    requires Begins(env, Cache, State(red, map[], Phase.Idle), s)
    ensures Taken(env, s) && key in s.phase.fps && s.phase.at == red && !s.phase.report
  {
    OneTestIsFingerprinted(env, key, red, s.phase);
    BeginTakes(env, Cache, State(red, map[], Phase.Idle), s);
  }

  lemma OneTestIsFingerprinted(env: Env, key: string, repo: Repo, p: Phase)
    requires repo.tests == [key] && Certifiable(env, repo, key) && SelectedBy(env, repo, map[], Cache, p)
    ensures key in p.fps && IsFingerprint(env, repo, key, p.fps[key])
  {
    var ds: seq<Disposition> :| SelectionOf(env, repo, map[], Cache, p, ds);
    assert ds[0] in ds && ds[0].key == repo.tests[0];
  }

  /** The same inputs have the same fingerprint. */
  lemma OneFingerprint(env: Env, key: string, a: Repo, b: Repo, fp: string, fp': string)
    requires EnvOk(env) && RepoOk(a) && RepoOk(b) && '\0' !in key && SameInputs(env, key, a, b)
    requires IsFingerprint(env, a, key, fp) && IsFingerprint(env, b, key, fp')
    ensures fp == fp'
  {
    var files, ctx :| Lists(env, a, key, files) && ContextOf(ctx, env.blob, a.index, a.disk)
                      && fp == FingerprintText(files, ctx, env.blob, a.disk, []);
    var files', ctx' :| Lists(env, b, key, files') && ContextOf(ctx', env.blob, b.index, b.disk)
                        && fp' == FingerprintText(files', ctx', env.blob, b.disk, []);
    RelevantIsClean(env, a, key);
    RelevantIsClean(env, b, key);
    FingerprintIsExact(files, ctx, a.index, a.disk, files', ctx', b.index, b.disk, env.blob);
  }
}

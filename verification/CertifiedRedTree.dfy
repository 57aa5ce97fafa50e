/** A history in which an edit made while the shards run certifies a tree on which the test fails: one test file that
    imports nothing and passes exactly when it holds the bytes `[1]`. */
module CertifiedRedTree {
  import opened ImportClosure
  import opened Options
  import opened TestSelection
  import opened ValidateCache
  import opened WorkerPool

  // ---- Object ids: a sign and a run of ones for every byte ----

  function Ones(n: nat): string {
    if n == 0 then "" else "1" + Ones(n - 1)
  }

  function Sign(n: int): char {
    if n < 0 then '-' else '+'
  }

  function Size(n: int): nat {
    if n < 0 then -n else n
  }

  function Mark(n: int): string {
    [Sign(n)] + Ones(Size(n))
  }

  function Marks(bytes: seq<int>): string {
    if bytes == [] then "" else Mark(bytes[0]) + Marks(bytes[1..])
  }

  function BlobOf(c: Content): string {
    Marks(c.bytes)
  }

  predicate NoOneFirst(s: string) {
    s == [] || s[0] != '1'
  }

  lemma OnesStart(n: nat, x: string)
    ensures if n == 0 then Ones(n) + x == x else Ones(n) + x == "1" + (Ones(n - 1) + x)
  {
  }

  lemma {:induction false} OnesTold(a: nat, x: string, b: nat, y: string)
    requires NoOneFirst(x) && NoOneFirst(y) && Ones(a) + x == Ones(b) + y
    ensures a == b && x == y
  {
    OnesStart(a, x);
    OnesStart(b, y);
    if a > 0 && b > 0 {
      SameTail('1', Ones(a - 1) + x, '1', Ones(b - 1) + y);
      OnesTold(a - 1, x, b - 1, y);
    }
  }

  lemma SameTail(c: char, x: string, d: char, y: string)
    requires [c] + x == [d] + y
    ensures c == d && x == y
  {
    assert ([c] + x)[0] == c && ([d] + y)[0] == d && ([c] + x)[1..] == x && ([d] + y)[1..] == y;
  }

  lemma MarkTold(n: int, x: string, m: int, y: string)
    requires NoOneFirst(x) && NoOneFirst(y) && Mark(n) + x == Mark(m) + y
    ensures n == m && x == y
  {
    MarkStart(n, x);
    MarkStart(m, y);
    SameTail(Sign(n), Ones(Size(n)) + x, Sign(m), Ones(Size(m)) + y);
    OnesTold(Size(n), x, Size(m), y);
  }

  lemma MarkStart(n: int, x: string)
    ensures Mark(n) + x == [Sign(n)] + (Ones(Size(n)) + x)
  {
  }

  lemma MarksStart(bytes: seq<int>)
    ensures NoOneFirst(Marks(bytes)) && (bytes == [] <==> Marks(bytes) == [])
  {
  }

  lemma {:induction false} MarksTold(a: seq<int>, b: seq<int>)
    requires Marks(a) == Marks(b)
    ensures a == b
  {
    MarksStart(a);
    MarksStart(b);
    if a != [] {
      MarksStart(a[1..]);
      MarksStart(b[1..]);
      MarkTold(a[0], Marks(a[1..]), b[0], Marks(b[1..]));
      MarksTold(a[1..], b[1..]);
      assert a == [a[0]] + a[1..] && b == [b[0]] + b[1..];
    }
  }

  lemma {:induction false} MarksArePlain(bytes: seq<int>)
    ensures forall c | c in Marks(bytes) :: c == '+' || c == '-' || c == '1'
  {
    if bytes != [] {
      MarksArePlain(bytes[1..]);
      OnesArePlain(Size(bytes[0]));
    }
  }

  lemma {:induction false} OnesArePlain(n: nat)
    ensures forall c | c in Ones(n) :: c == '1'
  {
    if n > 0 { OnesArePlain(n - 1); }
  }

  lemma BlobIsHash()
    ensures HashOk(BlobOf)
  {
    forall a, b | BlobOf(a) == BlobOf(b) ensures a == b { MarksTold(a.bytes, b.bytes); }
    forall a ensures '\n' !in BlobOf(a) && BlobOf(a) != ABSENT {
      MarksArePlain(a.bytes);
      assert 'a' in ABSENT;
    }
  }

  // ---- The tree ----

  const KEY := "t"

  function NothingFound(f: string, c: Content): Analysis {
    Analysis([], [], false, false)
  }

  function NoGlobal(f: string): bool {
    false
  }

  function PassesOn(key: string, repo: Repo): bool {
    TestPath(key) in repo.disk && repo.disk[TestPath(key)] == Content([1])
  }

  const ENV := Env(NothingFound, NoGlobal, map[], BlobOf)
  const RED := Repo(map[TestPath(KEY) := Content([0])], map[], [], [KEY])
  const GREEN := Repo(map[TestPath(KEY) := Content([1])], map[], [], [KEY])

  lemma PathEnds(g: Graph, path: seq<string>)
    requires IsPath(g, path) && forall f | f in g :: g[f].moduleDeps == []
    ensures |path| == 1
  {
    assert |path| > 1 ==> path[0 + 1] in At(g, path[0]).moduleDeps;
  }

  /** A test reaches its own file and nothing else. */
  lemma ReachesOnlyItself(repo: Repo, key: string)
    ensures forall f :: Relevant(ENV, repo, key, f) <==> f == TestPath(key)
    ensures TestPath(key) in repo.disk ==> Certifiable(ENV, repo, key) && !IsReader(ENV, repo, key)
  {
    var g, root := GraphOf(ENV, repo.disk), TestPath(key);
    forall f ensures Reaches(g, root, f) <==> f == root {
      ReachesSelf(g, root);
      if Reaches(g, root, f) {
        var path :| IsPath(g, path) && path[0] == root && path[|path| - 1] == f;
        PathEnds(g, path);
      }
    }
  }

  /** The verdict depends on what it may. */
  lemma VerdictDependsOnInputs()
    ensures DependsOnInputs(ENV, PassesOn)
  {
    forall key, a, b |
      RepoOk(a) && RepoOk(b) && Certifiable(ENV, a, key) && Certifiable(ENV, b, key) && SameInputs(ENV, key, a, b)
      ensures PassesOn(key, a) == PassesOn(key, b)
    {
      ReachesOnlyItself(a, key);
      assert Relevant(ENV, a, key, TestPath(key)) ==> SameFile(TestPath(key), a.disk, b.disk);
    }
  }

  // ---- The history ----

  const CTX := HashContext(map[], {})

  function Fp(): string {
    FingerprintText([TestPath(KEY)], CTX, BlobOf, RED.disk, [])
  }

  function Selected(toRun: set<string>, trees: seq<Repo>): Phase {
    Running(RED, map[KEY := Fp()], toRun, false, trees)
  }

  lemma RedHasFingerprint()
    ensures Disposes(ENV, RED, Disposition(KEY, Graphed, Some(Fp()))) && IsFingerprint(ENV, RED, KEY, Fp())
  {
    ReachesOnlyItself(RED, KEY);
    assert Lists(ENV, RED, KEY, [TestPath(KEY)]) && ContextOf(CTX, ENV.blob, RED.index, RED.disk);
  }

  lemma RedBegins(registry: Registry, toRun: set<string>)
    requires toRun == if KEY in registry && registry[KEY] == Fp() then {} else {KEY}
    ensures Begins(ENV, Cache, State(RED, registry, Phase.Idle), State(RED, registry, Selected(toRun, [RED])))
  {
    RedHasFingerprint();
    var d := Disposition(KEY, Graphed, Some(Fp()));
    assert d in [d];
    assert SelectionOf(ENV, RED, registry, Cache, Selected(toRun, [RED]), [d]);
  }

  lemma GreenEnds()
    ensures Ends(PassesOn, [Outcome([KEY], 0)], State(GREEN, map[], Selected({KEY}, [RED, GREEN])), State(GREEN, map[KEY := Fp()], Phase.Idle))
  {
    var o := Outcome([KEY], 0);
    assert o in [o] && KEY in o.shard;
    assert Passes(PassesOn, [RED, GREEN], KEY) by { assert [RED, GREEN][1] == GREEN; }
  }

  lemma TheTrees()
    ensures EnvOk(ENV) && RepoOk(RED) && RepoOk(GREEN) && Certifiable(ENV, RED, KEY)
    ensures !PassesOn(KEY, RED) && PassesOn(KEY, GREEN)
  {
    BlobIsHash();
    ReachesOnlyItself(RED, KEY);
    assert Content([0]).bytes[0] != Content([1]).bytes[0];
  }

  /** All that `EditWhileRunning` asks for holds together, with a verdict that depends only on what it may: the failing
      tree comes out certified. */
  lemma EditCertifiesTheRedTree()
    ensures EnvOk(ENV) && DependsOnInputs(ENV, PassesOn) && RepoOk(RED) && RED.tests == [KEY] && Certifiable(ENV, RED, KEY)
    ensures !PassesOn(KEY, RED) && PassesOn(KEY, GREEN)
    ensures Begins(ENV, Cache, State(RED, map[], Phase.Idle), State(RED, map[], Selected({KEY}, [RED])))
    ensures Ends(PassesOn, [Outcome([KEY], 0)], State(GREEN, map[], Selected({KEY}, [RED, GREEN])), State(GREEN, map[KEY := Fp()], Phase.Idle))
    ensures Begins(ENV, Cache, State(RED, map[KEY := Fp()], Phase.Idle), State(RED, map[KEY := Fp()], Selected({}, [RED])))
  {
    TheTrees();
    VerdictDependsOnInputs();
    RedBegins(map[], {KEY});
    GreenEnds();
    RedBegins(map[KEY := Fp()], {});
  }
}

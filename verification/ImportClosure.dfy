/** `buildClosure` of `scripts/select-unit-tests.ts`: the files a test reaches through its imports. */
module ImportClosure {

  /** What `analyzeFile` finds in one file. */
  datatype Analysis = Analysis(moduleDeps: seq<string>, assetDeps: seq<string>, ungraphable: bool, reader: bool)

  /** The analyses of the files that can be read; any other file is ungraphable and has no edges. */
  type Graph = map<string, Analysis>

  const UNREADABLE := Analysis([], [], true, false)

  function At(g: Graph, rel: string): Analysis {
    if rel in g then g[rel] else UNREADABLE
  }

  /** `path` follows module edges, from its first file to its last. */
  ghost predicate IsPath(g: Graph, path: seq<string>) {
    && path != []
    && forall i | 0 <= i < |path| - 1 :: path[i + 1] in At(g, path[i]).moduleDeps
  }

  ghost predicate Reaches(g: Graph, a: string, b: string) {
    exists path :: IsPath(g, path) && path[0] == a && path[|path| - 1] == b
  }

  /** The specification: a file is in the closure when modules lead to it, or to a module that it is an
      asset of. */
  ghost predicate InClosure(g: Graph, root: string, f: string) {
    Reaches(g, root, f) || exists m :: Reaches(g, root, m) && f in At(g, m).assetDeps
  }

  ghost predicate ReachesUngraphable(g: Graph, root: string) {
    exists m :: Reaches(g, root, m) && At(g, m).ungraphable
  }

  ghost predicate ReachesReader(g: Graph, root: string, isGlobal: string -> bool) {
    exists m :: Reaches(g, root, m) && At(g, m).reader && !isGlobal(m)
  }

  /** What an import leads to and cannot be read puts the closure in doubt, and leads nowhere else. */
  lemma UnreadableIsInDoubt(g: Graph, root: string, f: string)
    requires Reaches(g, root, f) && f !in g
    ensures ReachesUngraphable(g, root) && At(g, f).moduleDeps == [] && At(g, f).assetDeps == []
  {
  }

  lemma ReachesSelf(g: Graph, a: string)
    ensures Reaches(g, a, a)
  {
    assert IsPath(g, [a]);
  }

  lemma ReachesNext(g: Graph, a: string, b: string, c: string)
    requires Reaches(g, a, b) && c in At(g, b).moduleDeps
    ensures Reaches(g, a, c)
  {
    var path :| IsPath(g, path) && path[0] == a && path[|path| - 1] == b;
    assert IsPath(g, path + [c]);
  }

  lemma {:induction false} PathStaysIn(g: Graph, seen: set<string>, path: seq<string>)
    requires IsPath(g, path) && path[0] in seen
    requires forall m, d | m in seen && d in At(g, m).moduleDeps :: d in seen
    ensures path[|path| - 1] in seen
  {
    if |path| > 1 {
      var init := path[..|path| - 1];
      assert IsPath(g, init);
      PathStaysIn(g, seen, init);
      assert path[|path| - 1] in At(g, path[|path| - 2]).moduleDeps;
    }
  }

  datatype Closure = Closure(files: set<string>, ungraphable: bool, reader: bool)

  ghost predicate IsClosure(g: Graph, root: string, isGlobal: string -> bool, c: Closure) {
    && (forall f :: f in c.files <==> InClosure(g, root, f))
    && (c.ungraphable <==> ReachesUngraphable(g, root))
    && (c.reader <==> ReachesReader(g, root, isGlobal))
  }

  /** The walk so far: what was seen can be reached and leads only to what was seen or is queued. */
  ghost predicate Walking(g: Graph, root: string, seen: set<string>, queue: seq<string>) {
    && (root in seen || root in queue)
    && (forall m | m in seen || m in queue :: Reaches(g, root, m))
    && (forall m, d | m in seen && d in At(g, m).moduleDeps :: d in seen || d in queue)
  }

  /** The closure of exactly the files seen. */
  ghost predicate Gathers(g: Graph, seen: set<string>, isGlobal: string -> bool, c: Closure) {
    && (forall f :: f in c.files <==> f in seen || exists m :: m in seen && f in At(g, m).assetDeps)
    && (c.ungraphable <==> exists m :: m in seen && At(g, m).ungraphable)
    && (c.reader <==> exists m :: m in seen && At(g, m).reader && !isGlobal(m))
  }

  lemma WalkOn(g: Graph, root: string, seen: set<string>, rel: string, rest: seq<string>)
    requires Walking(g, root, seen, [rel] + rest)
    ensures rel in seen ==> Walking(g, root, seen, rest)
    ensures Walking(g, root, seen + {rel}, rest + Unseen(At(g, rel).moduleDeps, seen + {rel}))
  {
    var queue := [rel] + rest;
    assert rel in queue && forall m :: m in queue <==> m == rel || m in rest;
    var more := Unseen(At(g, rel).moduleDeps, seen + {rel});
    forall d | d in more ensures Reaches(g, root, d) { ReachesNext(g, root, rel, d); }
  }

  lemma WalkEnds(g: Graph, root: string, seen: set<string>, isGlobal: string -> bool, c: Closure)
    requires Walking(g, root, seen, []) && Gathers(g, seen, isGlobal, c)
    ensures IsClosure(g, root, isGlobal, c)
  {
    forall m ensures Reaches(g, root, m) <==> m in seen {
      if Reaches(g, root, m) {
        var path :| IsPath(g, path) && path[0] == root && path[|path| - 1] == m;
        PathStaysIn(g, seen, path);
      }
    }
  }

  function Gather(c: Closure, rel: string, analysis: Analysis, isGlobal: bool): Closure {
    Closure(
      c.files + {rel} + (set a | a in analysis.assetDeps),
      c.ungraphable || analysis.ungraphable,
      c.reader || (analysis.reader && !isGlobal))
  }

  lemma GatherOn(g: Graph, seen: set<string>, rel: string, isGlobal: string -> bool, c: Closure)
    requires Gathers(g, seen, isGlobal, c)
    ensures Gathers(g, seen + {rel}, isGlobal, Gather(c, rel, At(g, rel), isGlobal(rel)))
  {
  }

  /** Exact on every graph, cycles included: `seen` is what stops them. */
  method BuildClosure(g: Graph, root: string, isGlobal: string -> bool) returns (c: Closure)
    ensures IsClosure(g, root, isGlobal, c)
  {
    c := Closure({}, false, false);
    var seen, queue := {}, [root];
    ReachesSelf(g, root);
    while |queue| > 0
      invariant Walking(g, root, seen, queue)
      invariant Gathers(g, seen, isGlobal, c)
      decreases g.Keys - seen, |queue|
    {
      var rel, rest := queue[0], queue[1..];
      assert queue == [rel] + rest;
      WalkOn(g, root, seen, rel, rest);
      queue := rest;
      if rel !in seen {
        GatherOn(g, seen, rel, isGlobal, c);
        seen := seen + {rel};
        c := Gather(c, rel, At(g, rel), isGlobal(rel));
        queue := queue + Unseen(At(g, rel).moduleDeps, seen);
      }
    }
    assert queue == [];
    WalkEnds(g, root, seen, isGlobal, c);
  }

  function Unseen(deps: seq<string>, seen: set<string>): (r: seq<string>)
    ensures forall d :: d in r <==> d in deps && d !in seen
    ensures deps == [] ==> r == []
  {
    if deps == [] then []
    else (if deps[0] in seen then [] else [deps[0]]) + Unseen(deps[1..], seen)
  }
}

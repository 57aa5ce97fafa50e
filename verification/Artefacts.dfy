/** Installing the pinned artefacts: verify every package and discard what fails its pin, then fetch, check and
    write. Any read, write, rename, removal or download may fail, and a failed write may leave anything behind
    under its `.part` name. */
module Artefacts {
  import opened Options

  type Bytes = seq<nat>

  datatype Pin = Pin(bytes: nat, sha256: string)

  datatype Entry = Entry(name: string, pin: Pin)

  /** A package: where its artefacts are, where its release's assets are cached, and what it pins. */
  datatype Package = Package(dir: string, cacheDir: string, entries: seq<Entry>)

  datatype Path = Path(dir: string, name: string)

  type Files = map<Path, Bytes>

  datatype Problem = Missing(name: string) | Mismatch(name: string)

  const DOWNLOAD_ATTEMPTS := 3

  function Target(p: Package, name: string): Path {
    Path(p.dir, name)
  }

  function Cached(p: Package, name: string): Path {
    Path(p.cacheDir, name)
  }

  function Part(path: Path): Path {
    path.(name := path.name + ".part")
  }

  type Digest = Bytes -> string

  predicate Matches(sha256: Digest, pin: Pin, bytes: Bytes) {
    |bytes| == pin.bytes && sha256(bytes) == pin.sha256
  }

  /** No two files have the same digest. */
  ghost predicate TellsApart(sha256: Digest) {
    forall a, b :: sha256(a) == sha256(b) ==> a == b
  }

  /** A pin taken from a file's bytes is met by those bytes and no others. */
  lemma MatchesOnlyThePinned(sha256: Digest, pinned: Bytes, bytes: Bytes)
    requires TellsApart(sha256)
    ensures Matches(sha256, Pin(|pinned|, sha256(pinned)), bytes) <==> bytes == pinned
  {
  }

  /** The pinned file is there, byte for byte. */
  predicate Good(sha256: Digest, files: Files, p: Package, e: Entry) {
    Target(p, e.name) in files && Matches(sha256, e.pin, files[Target(p, e.name)])
  }

  /** Nothing wrong is under the pinned name. */
  predicate Clean(sha256: Digest, files: Files, p: Package, e: Entry) {
    Target(p, e.name) in files ==> Matches(sha256, e.pin, files[Target(p, e.name)])
  }

  /** The cache holds what was pinned. */
  predicate CachedWell(sha256: Digest, files: Files, p: Package, e: Entry) {
    Cached(p, e.name) in files && Matches(sha256, e.pin, files[Cached(p, e.name)])
  }

  predicate Complete(sha256: Digest, files: Files, p: Package) {
    forall e | e in p.entries :: Good(sha256, files, p, e)
  }

  predicate AllClean(sha256: Digest, files: Files, packages: seq<Package>) {
    forall p | p in packages :: PackageClean(sha256, files, p)
  }

  predicate PackageClean(sha256: Digest, files: Files, p: Package) {
    forall e | e in p.entries :: Clean(sha256, files, p, e)
  }

  predicate AllComplete(sha256: Digest, files: Files, packages: seq<Package>) {
    forall p | p in packages :: Complete(sha256, files, p)
  }

  /** Names are unique in a package, no two packages disagree about one file, and neither the cache nor a `.part`
      name is a pinned file. */
  ghost predicate Apart(packages: seq<Package>) {
    forall p, e, q, d {:trigger KeepApart(p, e, q, d)} | p in packages && e in p.entries && q in packages && d in q.entries ::
      KeepApart(p, e, q, d)
  }

  predicate KeepApart(p: Package, e: Entry, q: Package, d: Entry) {
    && (Target(p, e.name) == Target(q, d.name) ==> e.pin == d.pin)
    && Target(p, e.name) != Cached(q, d.name)
    && Target(p, e.name) != Part(Target(q, d.name)) && Target(p, e.name) != Part(Cached(q, d.name))
  }

  ghost predicate SameAt(f: Files, g: Files, path: Path) {
    (path in f <==> path in g) && (path in f ==> f[path] == g[path])
  }

  /** No good file went and no wrong one came. */
  ghost predicate Improves(sha256: Digest, f: Files, g: Files, packages: seq<Package>) {
    forall p, e {:trigger ImprovesAt(sha256, f, g, p, e)} | p in packages && e in p.entries :: ImprovesAt(sha256, f, g, p, e)
  }

  predicate ImprovesAt(sha256: Digest, f: Files, g: Files, p: Package, e: Entry) {
    (Good(sha256, f, p, e) ==> Good(sha256, g, p, e)) && (Clean(sha256, f, p, e) ==> Clean(sha256, g, p, e))
  }

  /** The run touches only the packages' targets, their cache entries, and the `.part` names of both. */
  ghost predicate Touches(packages: seq<Package>, path: Path) {
    exists p, e {:trigger Own(p, e, path)} :: p in packages && e in p.entries && Own(p, e, path)
  }

  predicate Own(p: Package, e: Entry, path: Path) {
    path in {Target(p, e.name), Cached(p, e.name), Part(Target(p, e.name)), Part(Cached(p, e.name))}
  }

  ghost predicate OnlyTouched(f: Files, g: Files, packages: seq<Package>) {
    forall path | !Touches(packages, path) :: SameAt(f, g, path)
  }

  ghost predicate IsPinned(packages: seq<Package>, path: Path) {
    exists p, e {:trigger Pins(p, e, path)} :: p in packages && e in p.entries && Pins(p, e, path)
  }

  predicate Pins(p: Package, e: Entry, path: Path) {
    path == Target(p, e.name)
  }

  ghost predicate IsCache(packages: seq<Package>, path: Path) {
    exists p, e {:trigger Caches(p, e, path)} :: p in packages && e in p.entries && Caches(p, e, path)
  }

  predicate Caches(p: Package, e: Entry, path: Path) {
    path == Cached(p, e.name) || path == Part(Cached(p, e.name))
  }

  lemma RemovalOn(sha256: Digest, f: Files, g: Files, packages: seq<Package>, p: Package, e: Entry)
    requires Apart(packages) && p in packages && e in p.entries && !Good(sha256, f, p, e) && Shrunk(f, g)
    requires Improves(sha256, f, g, packages) && OnlyTouched(f, g, packages) && Settled(f, g, packages, {})
    ensures var h := g - {Target(p, e.name)};
            Improves(sha256, f, h, packages) && OnlyTouched(f, h, packages) && Settled(f, h, packages, {})
  {
    var at := Target(p, e.name);
    RemovalImproves(sha256, g, packages, p, e, at);
    RemovalSettles(g, packages, p, e, at);
    ImprovesOn(sha256, f, g, g - {at}, packages);
    SettledOn(f, g, g - {at}, packages, {}, {}, {});
  }

  ghost predicate Gone(files: Files, p: Package, problems: seq<Problem>) {
    forall problem | problem in problems && problem.Mismatch? :: Target(p, problem.name) !in files
  }

  lemma GoneOn(files: Files, p: Package, problems: seq<Problem>)
    requires Gone(files, p, problems)
    ensures forall problem: Problem :: Gone(files - {Target(p, problem.name)}, p, problems + [problem])
  {
  }

  lemma MismatchesGone(sha256: Digest, f: Files, g: Files, p: Package)
    requires Shrunk(f, g) && Gone(g, p, ProblemsOf(sha256, f, p, |p.entries|))
    ensures PackageClean(sha256, g, p)
  {
    forall e | e in p.entries ensures Clean(sha256, g, p, e) {
      if !Clean(sha256, f, p, e) {
        var k := MismatchIsListed(sha256, f, p, |p.entries|, e);
        assert Mismatch(e.name) in ProblemsOf(sha256, f, p, |p.entries|);
      }
    }
  }

  /** The `.part` name of one of `targets`. */
  predicate IsPart(targets: set<Path>, path: Path) {
    exists t :: t in targets && path == Part(t)
  }

  /** Beside the pinned files and the cache all is as it was, but for the `.part` names of `targets`, which are gone. */
  ghost predicate Settled(f: Files, g: Files, packages: seq<Package>, targets: set<Path>) {
    forall path :: SettledAt(f, g, packages, targets, path)
  }

  ghost predicate SettledAt(f: Files, g: Files, packages: seq<Package>, targets: set<Path>, path: Path) {
    !IsPinned(packages, path) && !IsCache(packages, path) ==> if IsPart(targets, path) then path !in g else SameAt(f, g, path)
  }

  lemma SettledOn(f: Files, g: Files, h: Files, packages: seq<Package>, first: set<Path>, second: set<Path>, all: set<Path>)
    requires Settled(f, g, packages, first) && Settled(g, h, packages, second) && all == first + second
    ensures Settled(f, h, packages, all)
  {
    forall path ensures SettledAt(f, h, packages, first + second, path) {
      assert SettledAt(f, g, packages, first, path) && SettledAt(g, h, packages, second, path);
      assert IsPart(first + second, path) <==> IsPart(first, path) || IsPart(second, path) by {
        if t :| t in first + second && path == Part(t) {
          assert t in first || t in second;
        }
        if t :| t in first && path == Part(t) {
          assert t in first + second;
        }
        if t :| t in second && path == Part(t) {
          assert t in first + second;
        }
      }
    }
  }

  lemma WriteSettles(f: Files, g: Files, packages: seq<Package>, p: Package, e: Entry, to: Path)
    requires p in packages && e in p.entries && forall path | path != to && path != Part(to) :: SameAt(f, g, path)
    ensures to == Cached(p, e.name) ==> Settled(f, g, packages, {})
    ensures to == Target(p, e.name) && Part(to) !in g ==> Settled(f, g, packages, {to})
  {
    assert to == Target(p, e.name) ==> Pins(p, e, to);
    assert to == Cached(p, e.name) ==> Caches(p, e, to) && Caches(p, e, Part(to));
    if to == Target(p, e.name) && Part(to) !in g {
      forall path ensures SettledAt(f, g, packages, {to}, path) {
        assert to in {to};
      }
    }
  }

  lemma RemovalSettles(f: Files, packages: seq<Package>, p: Package, e: Entry, at: Path)
    requires p in packages && e in p.entries && (at == Cached(p, e.name) || at == Target(p, e.name))
    ensures Settled(f, f - {at}, packages, {})
  {
    assert Pins(p, e, at) || Caches(p, e, at);
  }

  /** The targets of these names. */
  function TargetsOf(p: Package, names: seq<string>): set<Path> {
    set name | name in names :: Target(p, name)
  }

  /** The targets that are stale in the first `n` packages. */
  function StaleTargets(sha256: Digest, files: Files, packages: seq<Package>, n: nat): set<Path>
    requires n <= |packages|
  {
    if n == 0 then {}
    else StaleTargets(sha256, files, packages, n - 1) + TargetsOf(packages[n - 1], Stale(sha256, files, packages[n - 1]))
  }

  /** Everything in the directory is a pinned file, and every file pinned there is in it. */
  ghost predicate HoldsItsPins(files: Files, packages: seq<Package>, dir: string) {
    forall path: Path | path.dir == dir :: path in files <==> IsPinned(packages, path)
  }

  ghost predicate HasNoCache(packages: seq<Package>, dir: string) {
    forall path | IsCache(packages, path) :: path.dir != dir
  }

  /** After success a package's directory holds what is pinned there, and of what else it held all but the `.part`
      names of the files that were stale. So it holds its pins alone exactly when those were all it held besides. */
  lemma DirectoryAfter(sha256: Digest, f: Files, g: Files, packages: seq<Package>, dir: string)
    requires Settled(f, g, packages, StaleTargets(sha256, f, packages, |packages|)) && AllComplete(sha256, g, packages)
    requires HasNoCache(packages, dir)
    ensures forall path: Path | path.dir == dir :: path in g <==>
      IsPinned(packages, path) || (path in f && !IsPart(StaleTargets(sha256, f, packages, |packages|), path))
    ensures HoldsItsPins(g, packages, dir) <==> forall path: Path | path in f && path.dir == dir ::
      IsPinned(packages, path) || IsPart(StaleTargets(sha256, f, packages, |packages|), path)
  {
    assert forall path: Path | path.dir == dir :: SettledAt(f, g, packages, StaleTargets(sha256, f, packages, |packages|), path);
    forall path | IsPinned(packages, path) ensures path in g {
      var p, e :| p in packages && e in p.entries && path == Target(p, e.name);
      assert Complete(sha256, g, p) && Good(sha256, g, p, e);
    }
  }

  const LEFTOVER := Path("artefacts", "a.part")

  function OneFile(sha256: Digest, bytes: Bytes): Package {
    Package("artefacts", "cache", [Entry("a", Pin(|bytes|, sha256(bytes)))])
  }

  function WithLeftover(bytes: Bytes): Files {
    map[Path("artefacts", "a") := bytes, LEFTOVER := []]
  }

  lemma OneFileIsApart(sha256: Digest, bytes: Bytes)
    ensures var p := OneFile(sha256, bytes);
            && Apart([p]) && !IsPinned([p], LEFTOVER) && !IsCache([p], LEFTOVER)
            && AllComplete(sha256, WithLeftover(bytes), [p])
  {
    var p := OneFile(sha256, bytes);
    assert "a.part" != "a" by { assert |"a.part"| != |"a"|; }
    assert forall q, d | q in [p] && d in q.entries :: q == p && d == p.entries[0];
  }

  /** A complete package with a `.part` left beside its good file: a run that leaves all settled leaves that too. */
  lemma LeftoverStays(sha256: Digest, bytes: Bytes, g: Files)
    requires var p := OneFile(sha256, bytes);
             Settled(WithLeftover(bytes), g, [p], StaleTargets(sha256, WithLeftover(bytes), [p], 1))
    ensures var p := OneFile(sha256, bytes);
            Apart([p]) && AllComplete(sha256, WithLeftover(bytes), [p]) && !HoldsItsPins(g, [p], "artefacts")
  {
    var p, f := OneFile(sha256, bytes), WithLeftover(bytes);
    OneFileIsApart(sha256, bytes);
    assert p in [p];
    NoProblemsIsComplete(sha256, f, p);
    assert StaleTargets(sha256, f, [p], 0) == {};
    assert SettledAt(f, g, [p], StaleTargets(sha256, f, [p], 1), LEFTOVER);
  }

  ghost predicate Shrunk(f: Files, g: Files) {
    forall path | path in g :: path in f && g[path] == f[path]
  }

  /** Bytes that match a pin may be written to its target or its cache entry, with any `.part` debris. */
  lemma WriteImproves(sha256: Digest, f: Files, g: Files, packages: seq<Package>, p: Package, e: Entry, to: Path, bytes: Bytes)
    requires Apart(packages) && p in packages && e in p.entries && Matches(sha256, e.pin, bytes)
    requires to == Target(p, e.name) || to == Cached(p, e.name)
    requires forall path | path != to && path != Part(to) :: SameAt(f, g, path)
    requires SameAt(f, g, to) || (to in g && g[to] == bytes)
    ensures Improves(sha256, f, g, packages) && OnlyTouched(f, g, packages)
  {
    forall q, d | q in packages && d in q.entries ensures ImprovesAt(sha256, f, g, q, d) {
      assert KeepApart(q, d, p, e);
      assert Target(q, d.name) != to ==> SameAt(f, g, Target(q, d.name));
    }
    assert Own(p, e, to) && Own(p, e, Part(to));
  }

  /** Removing a file that fails a pin, or a cache entry, costs no good one. */
  lemma RemovalImproves(sha256: Digest, f: Files, packages: seq<Package>, p: Package, e: Entry, at: Path)
    requires Apart(packages) && p in packages && e in p.entries
    requires at == Cached(p, e.name) || (at == Target(p, e.name) && !Good(sha256, f, p, e))
    ensures Improves(sha256, f, f - {at}, packages) && OnlyTouched(f, f - {at}, packages)
  {
    assert Own(p, e, at);
    forall q, d | q in packages && d in q.entries ensures ImprovesAt(sha256, f, f - {at}, q, d) {
      assert KeepApart(q, d, p, e);
    }
  }

  lemma ImprovesOn(sha256: Digest, f: Files, g: Files, h: Files, packages: seq<Package>)
    requires Improves(sha256, f, g, packages) && Improves(sha256, g, h, packages)
    requires OnlyTouched(f, g, packages) && OnlyTouched(g, h, packages)
    ensures Improves(sha256, f, h, packages) && OnlyTouched(f, h, packages)
  {
    forall p, e | p in packages && e in p.entries ensures ImprovesAt(sha256, f, h, p, e) {
      assert ImprovesAt(sha256, f, g, p, e) && ImprovesAt(sha256, g, h, p, e);
    }
    forall path | !Touches(packages, path) ensures SameAt(f, h, path) {
      assert SameAt(f, g, path) && SameAt(g, h, path);
    }
  }

  class Disk {
    const sha256: Digest
    var files: Files
    var downloads: nat

    constructor (sha256: Digest, files: Files)
      ensures this.sha256 == sha256 && this.files == files
    {
      this.sha256 := sha256;
      this.files := files;
      downloads := 0;
    }

    /** Under a `.part` name first, then renamed into place. Making the directory, writing, renaming and cleaning up
        may each fail; `cleaned` is false only where the last of these does. */
    method WriteAtomically(target: Path, bytes: Bytes) returns (ok: bool, ghost cleaned: bool)
      modifies `files
      ensures forall path | path != target && path != Part(target) :: SameAt(old(files), files, path)
      ensures SameAt(old(files), files, target) || (target in files && files[target] == bytes)
      ensures ok ==> cleaned && target in files && files[target] == bytes && Part(target) !in files
      ensures cleaned ==> files == old(files) || Part(target) !in files
    {
      ok := *;
      if !ok {
        return false, true;
      }
      var partial := Part(target);
      assert partial.name != target.name;
      var wrote: bool, renamed: bool, removed: bool := *, *, *;
      if wrote {
        files := files[partial := bytes];
        if renamed {
          files := files[target := files[partial]] - {partial};
        }
      } else {
        var debris: Option<Bytes> := *;
        if debris.Some? {
          files := files[partial := debris.value];
        }
      }
      if removed {
        files := files - {partial};
      }
      ok, cleaned := wrote && renamed && removed, removed;
    }

    /** What is missing or wrong in one package, pin by pin. */
    method VerifyArtefacts(p: Package) returns (ok: bool, problems: seq<Problem>)
      ensures ok ==> problems == ProblemsOf(sha256, files, p, |p.entries|)
    {
      problems := [];
      for i := 0 to |p.entries|
        invariant problems == ProblemsOf(sha256, files, p, i)
      {
        var e := p.entries[i];
        ok := *;
        if !ok {
          return;
        }
        var file := Target(p, e.name);
        if file !in files {
          problems := problems + [Missing(e.name)];
        } else if !Matches(sha256, e.pin, files[file]) {
          problems := problems + [Mismatch(e.name)];
        }
      }
      ok := true;
    }

    method DiscardMismatchedArtefacts(problems: seq<Problem>, p: Package, ghost packages: seq<Package>) returns (ok: bool)
      requires Apart(packages) && p in packages && problems == ProblemsOf(sha256, files, p, |p.entries|)
      modifies `files
      ensures Improves(sha256, old(files), files, packages) && OnlyTouched(old(files), files, packages)
      ensures Settled(old(files), files, packages, {})
      ensures ok ==> PackageClean(sha256, files, p)
      ensures problems == [] ==> files == old(files)
      ensures Shrunk(old(files), files)
    {
      ghost var before := files;
      for i := 0 to |problems|
        invariant Improves(sha256, before, files, packages) && OnlyTouched(before, files, packages)
        invariant Shrunk(before, files) && Settled(before, files, packages, {})
        invariant Gone(files, p, problems[..i])
        invariant i == 0 ==> files == before
      {
        if problems[i].Mismatch? {
          ok := *;
          if !ok {
            return;
          }
          var e := ProblemHasEntry(sha256, before, p, |p.entries|, i);
          RemovalOn(sha256, before, files, packages, p, e);
          GoneOn(files, p, problems[..i]);
          files := files - {Target(p, problems[i].name)};
        }
        assert problems[..i + 1] == problems[..i] + [problems[i]];
      }
      assert problems[..|problems|] == problems;
      ok := true;
      MismatchesGone(sha256, before, files, p);
    }

    /** One package: its problems, with what fails its pin deleted. */
    method VerifyOne(p: Package, ghost packages: seq<Package>) returns (ok: bool, problems: seq<Problem>)
      requires Apart(packages) && p in packages
      modifies `files
      ensures Improves(sha256, old(files), files, packages) && OnlyTouched(old(files), files, packages)
      ensures Settled(old(files), files, packages, {})
      ensures Shrunk(old(files), files)
      ensures ok ==> PackageClean(sha256, files, p) && Names(problems) == Stale(sha256, old(files), p)
      ensures Complete(sha256, old(files), p) ==> files == old(files)
    {
      ok, problems := VerifyArtefacts(p);
      if ok {
        NoProblemsIsComplete(sha256, files, p);
        NamesAreStale(sha256, files, p, |p.entries|);
        ok := DiscardMismatchedArtefacts(problems, p, packages);
      }
    }

    /** The first half of a run, over all the packages: what is stale is listed, and what is wrong is gone. */
    method VerifyAndDiscard(packages: seq<Package>) returns (ok: bool, found: seq<seq<Problem>>)
      requires Apart(packages)
      modifies `files
      ensures Improves(sha256, old(files), files, packages) && OnlyTouched(old(files), files, packages)
      ensures Settled(old(files), files, packages, {})
      ensures ok ==> AllClean(sha256, files, packages) && |found| == |packages|
      ensures ok ==> forall i | 0 <= i < |packages| :: Names(found[i]) == Stale(sha256, old(files), packages[i])
      ensures AllComplete(sha256, old(files), packages) ==> files == old(files)
    {
      found := [];
      ghost var before := files;
      ok := true;
      for i := 0 to |packages|
        invariant ok && |found| == i
        invariant Improves(sha256, before, files, packages) && OnlyTouched(before, files, packages) && Shrunk(before, files)
        invariant Settled(before, files, packages, {})
        invariant FirstClean(sha256, files, packages, i)
        invariant forall k | 0 <= k < i :: Names(found[k]) == Stale(sha256, before, packages[k])
        invariant AllComplete(sha256, before, packages) ==> files == before
      {
        ghost var was := files;
        var problems;
        SameStale(sha256, before, was, packages, packages[i]);
        ok, problems := VerifyOne(packages[i], packages);
        ImprovesOn(sha256, before, was, files, packages);
        SettledOn(before, was, files, packages, {}, {}, {});
        if !ok {
          return;
        }
        FirstCleanNext(sha256, was, files, packages, i);
        found := found + [problems];
      }
    }

    /** What the cache has under an entry's name, where it is what was pinned. Anything else there goes. */
    method ReadCachedAsset(p: Package, e: Entry, ghost packages: seq<Package>) returns (ok: bool, bytes: Option<Bytes>)
      requires Apart(packages) && p in packages && e in p.entries
      modifies `files
      ensures Improves(sha256, old(files), files, packages) && OnlyTouched(old(files), files, packages)
      ensures Settled(old(files), files, packages, {})
      ensures bytes.Some? ==> Matches(sha256, e.pin, bytes.value)
      ensures ok && CachedWell(sha256, old(files), p, e) ==> bytes == Some(old(files)[Cached(p, e.name)]) && files == old(files)
    {
      var cached := Cached(p, e.name);
      bytes := None;
      ok := *;
      if !ok || cached !in files {
        return;
      }
      if Matches(sha256, e.pin, files[cached]) {
        bytes := Some(files[cached]);
        return;
      }
      ok := *;
      if ok {
        RemovalImproves(sha256, files, packages, p, e, cached);
        RemovalSettles(files, packages, p, e, cached);
        files := files - {cached};
      }
    }

    method Write(to: Path, bytes: Bytes, p: Package, e: Entry, ghost packages: seq<Package>) returns (ok: bool)
      requires Apart(packages) && p in packages && e in p.entries && Matches(sha256, e.pin, bytes)
      requires to == Target(p, e.name) || to == Cached(p, e.name)
      modifies `files
      ensures Improves(sha256, old(files), files, packages) && OnlyTouched(old(files), files, packages)
      ensures to == Cached(p, e.name) ==> Settled(old(files), files, packages, {})
      ensures to == Target(p, e.name) && ok ==> Settled(old(files), files, packages, {to})
    {
      ghost var before := files;
      ghost var cleaned;
      ok, cleaned := WriteAtomically(to, bytes);
      WriteImproves(sha256, before, files, packages, p, e, to, bytes);
      WriteSettles(before, files, packages, p, e, to);
    }

    /** Up to three rounds of download, comparison with the pin and a copy for the cache; the first to get through
        all of them gives the bytes. */
    method FetchAsset(p: Package, e: Entry, ghost packages: seq<Package>) returns (bytes: Option<Bytes>)
      requires Apart(packages) && p in packages && e in p.entries
      modifies `files, `downloads
      ensures Improves(sha256, old(files), files, packages) && OnlyTouched(old(files), files, packages)
      ensures Settled(old(files), files, packages, {})
      ensures bytes.Some? ==> Matches(sha256, e.pin, bytes.value)
      ensures old(downloads) < downloads <= old(downloads) + 3
    {
      ghost var before := files;
      for attempt := 0 to DOWNLOAD_ATTEMPTS
        invariant Improves(sha256, before, files, packages) && OnlyTouched(before, files, packages)
        invariant Settled(before, files, packages, {})
        invariant downloads == old(downloads) + attempt
      {
        downloads := downloads + 1;
        bytes := *;
        if bytes.Some? && Matches(sha256, e.pin, bytes.value) {
          ghost var was := files;
          var ok := Write(Cached(p, e.name), bytes.value, p, e, packages);
          ImprovesOn(sha256, before, was, files, packages);
          SettledOn(before, was, files, packages, {}, {}, {});
          if ok {
            return;
          }
        }
      }
      bytes := None;
    }

    /** One pinned file: from the cache or the network, checked, then in place of what was there. */
    method FetchOne(p: Package, e: Entry, ghost packages: seq<Package>) returns (ok: bool)
      requires Apart(packages) && p in packages && e in p.entries
      modifies `files, `downloads
      ensures Improves(sha256, old(files), files, packages) && OnlyTouched(old(files), files, packages)
      ensures ok ==> Settled(old(files), files, packages, {Target(p, e.name)})
      ensures ok && CachedWell(sha256, old(files), p, e) ==> downloads == old(downloads)
    {
      ghost var before := files;
      var bytes;
      ok, bytes := ReadCachedAsset(p, e, packages);
      if !ok {
        return;
      }
      ghost var read := files;
      if bytes.None? {
        bytes := FetchAsset(p, e, packages);
        ImprovesOn(sha256, before, read, files, packages);
        SettledOn(before, read, files, packages, {}, {}, {});
      }
      if bytes.None? {
        return false;
      }
      ghost var was := files;
      ok := Write(Target(p, e.name), bytes.value, p, e, packages);
      ImprovesOn(sha256, before, was, files, packages);
      if ok {
        SettledOn(before, was, files, packages, {}, {Target(p, e.name)}, {Target(p, e.name)});
      }
    }

    method FetchReleaseAssets(p: Package, names: seq<string>, ghost packages: seq<Package>) returns (ok: bool)
      requires Apart(packages) && p in packages
      requires forall name | name in names :: exists e :: e in p.entries && e.name == name
      modifies `files, `downloads
      ensures Improves(sha256, old(files), files, packages) && OnlyTouched(old(files), files, packages)
      ensures ok ==> Settled(old(files), files, packages, TargetsOf(p, names))
    {
      ghost var before := files;
      ok := true;
      for i := 0 to |names|
        invariant Improves(sha256, before, files, packages) && OnlyTouched(before, files, packages)
        invariant ok && Settled(before, files, packages, TargetsOf(p, names[..i]))
      {
        assert names[i] in names;
        var e: Entry :| e in p.entries && e.name == names[i];
        ghost var was := files;
        ok := FetchOne(p, e, packages);
        ImprovesOn(sha256, before, was, files, packages);
        if !ok {
          return;
        }
        SettledOn(before, was, files, packages, TargetsOf(p, names[..i]), {Target(p, e.name)}, TargetsOf(p, names[..i + 1]));
      }
      assert names[..|names|] == names;
    }

    /** Fetch what is stale in one package, and check the package again. */
    method Refresh(p: Package, stale: seq<string>, ghost packages: seq<Package>) returns (ok: bool)
      requires Apart(packages) && p in packages
      requires forall name | name in stale :: exists e :: e in p.entries && e.name == name
      modifies `files, `downloads
      ensures Improves(sha256, old(files), files, packages) && OnlyTouched(old(files), files, packages)
      ensures ok ==> Settled(old(files), files, packages, TargetsOf(p, stale))
      ensures ok ==> Complete(sha256, files, p)
    {
      ghost var before := files;
      ok := FetchReleaseAssets(p, stale, packages);
      if !ok {
        return;
      }
      var remaining;
      ok, remaining := VerifyArtefacts(p);
      if ok && remaining != [] {
        ghost var was := files;
        ok := DiscardMismatchedArtefacts(remaining, p, packages);
        ImprovesOn(sha256, before, was, files, packages);
        return false;
      }
      NoProblemsIsComplete(sha256, files, p);
    }

    /** A whole run. `verified` says that the verify phase went through: then no
        pinned name holds wrong bytes afterwards, whatever failed since. On success every package holds its pins,
        and each reported what it had to write. Files that are no package's own are left alone; where nothing is
        stale, so is everything, and nothing is downloaded. */
    method EnsureArtefacts(packages: seq<Package>) returns (ok: bool, verified: bool, written: seq<seq<string>>)
      requires Apart(packages)
      modifies `files, `downloads
      ensures verified ==> AllClean(sha256, files, packages)
      ensures ok ==> verified && AllComplete(sha256, files, packages)
      ensures ok ==> written == StaleNames(sha256, old(files), packages, |packages|)
      ensures Improves(sha256, old(files), files, packages) && OnlyTouched(old(files), files, packages)
      ensures ok ==> Settled(old(files), files, packages, StaleTargets(sha256, old(files), packages, |packages|))
      ensures AllComplete(sha256, old(files), packages) ==> files == old(files) && downloads == old(downloads)
    {
      ghost var before := files;
      var found;
      written := [];
      ok, found := VerifyAndDiscard(packages);
      verified := ok;
      if !ok {
        return;
      }
      FoundAll(sha256, before, packages, found, |packages|);
      NoneRefreshed(sha256, before, files, packages);
      ok, written := RefreshAll(packages, found, before);
      if ok { AllRefreshed(sha256, before, files, packages); }
    }

    /** The second half of a run: package by package, what was found stale in `before` is fetched. */
    method RefreshAll(packages: seq<Package>, found: seq<seq<Problem>>, ghost before: Files)
      returns (ok: bool, written: seq<seq<string>>)
      requires Apart(packages) && |found| == |packages|
      requires FoundStale(sha256, before, packages, found, |packages|)
      requires Improves(sha256, before, files, packages) && OnlyTouched(before, files, packages)
      requires Refreshed(sha256, before, files, packages, 0)
      requires AllClean(sha256, files, packages) && (AllComplete(sha256, before, packages) ==> files == before)
      modifies `files, `downloads
      ensures AllClean(sha256, files, packages) && Improves(sha256, before, files, packages) && OnlyTouched(before, files, packages)
      ensures ok ==> Refreshed(sha256, before, files, packages, |packages|) && written == StaleNames(sha256, before, packages, |packages|)
      ensures AllComplete(sha256, before, packages) ==> files == before && downloads == old(downloads)
    {
      ok, written := true, [];
      for i := 0 to |packages|
        invariant ok && AllClean(sha256, files, packages) && Refreshed(sha256, before, files, packages, i)
        invariant Improves(sha256, before, files, packages) && OnlyTouched(before, files, packages)
        invariant written == StaleNames(sha256, before, packages, i)
        invariant AllComplete(sha256, before, packages) ==> files == before && downloads == old(downloads)
      {
        var stale := Names(found[i]);
        FoundAt(sha256, before, packages, found, |packages|, i);
        ok := RefreshNext(packages, i, stale, before);
        if !ok {
          return;
        }
        written := written + [stale];
      }
    }

    method RefreshNext(packages: seq<Package>, i: nat, stale: seq<string>, ghost before: Files) returns (ok: bool)
      requires Apart(packages) && i < |packages| && stale == Stale(sha256, before, packages[i])
      requires AllClean(sha256, files, packages) && Refreshed(sha256, before, files, packages, i)
      requires Improves(sha256, before, files, packages) && OnlyTouched(before, files, packages)
      modifies `files, `downloads
      ensures AllClean(sha256, files, packages) && (ok ==> Refreshed(sha256, before, files, packages, i + 1))
      ensures Improves(sha256, before, files, packages) && OnlyTouched(before, files, packages)
      ensures AllComplete(sha256, before, packages) ==> ok && files == old(files) && downloads == old(downloads)
    {
      StaysComplete(sha256, before, files, packages, packages[i]);
      ghost var was := files;
      ok := RefreshStale(packages[i], stale, packages);
      ImprovesOn(sha256, before, was, files, packages);
      CleanOn(sha256, was, files, packages);
      if ok {
        RefreshedNext(sha256, before, was, files, packages, i);
      }
    }

    /** A package with nothing stale is left alone. */
    method RefreshStale(p: Package, stale: seq<string>, ghost packages: seq<Package>) returns (ok: bool)
      requires Apart(packages) && p in packages
      requires forall name | name in stale :: exists e :: e in p.entries && e.name == name
      modifies `files, `downloads
      ensures Improves(sha256, old(files), files, packages) && OnlyTouched(old(files), files, packages)
      ensures ok ==> Settled(old(files), files, packages, TargetsOf(p, stale))
      ensures stale == [] ==> ok && files == old(files) && downloads == old(downloads)
      ensures ok && stale != [] ==> Complete(sha256, files, p)
    {
      ok := true;
      if |stale| > 0 {
        ok := Refresh(p, stale, packages);
      }
    }

    /** The check alone: it passes where every package holds its pins, and leaves nothing wrong behind either way. */
    method AssertArtefactsVerified(packages: seq<Package>) returns (ok: bool, verified: bool)
      requires Apart(packages)
      modifies `files
      ensures verified ==> AllClean(sha256, files, packages)
      ensures verified ==> (ok <==> AllComplete(sha256, old(files), packages))
      ensures ok ==> verified && files == old(files)
    {
      ghost var before := files;
      var found;
      verified, found := VerifyAndDiscard(packages);
      if !verified {
        return false, false;
      }
      ok := true;
      for i := 0 to |found|
        invariant ok <==> forall k | 0 <= k < i :: found[k] == []
      {
        ok := ok && found[i] == [];
      }
      NothingFound(sha256, before, packages, found);
    }
  }

  lemma NothingFound(sha256: Digest, files: Files, packages: seq<Package>, found: seq<seq<Problem>>)
    requires |found| == |packages| && forall i | 0 <= i < |packages| :: Names(found[i]) == Stale(sha256, files, packages[i])
    ensures (forall k | 0 <= k < |found| :: found[k] == []) <==> AllComplete(sha256, files, packages)
  {
    forall k | 0 <= k < |found| ensures found[k] == [] <==> Complete(sha256, files, packages[k]) {
      NoProblemsIsComplete(sha256, files, packages[k]);
      assert |Names(found[k])| == |found[k]|;
    }
    assert forall k | 0 <= k < |packages| :: packages[k] in packages;
  }

  ghost predicate FirstComplete(sha256: Digest, files: Files, packages: seq<Package>, n: nat)
    requires n <= |packages|
  {
    forall k | 0 <= k < n :: Complete(sha256, files, packages[k])
  }

  lemma FirstCompleteNext(sha256: Digest, f: Files, g: Files, packages: seq<Package>, n: nat)
    requires n < |packages| && FirstComplete(sha256, f, packages, n)
    requires f == g || Improves(sha256, f, g, packages)
    requires Complete(sha256, g, packages[n])
    ensures FirstComplete(sha256, g, packages, n + 1)
  {
    forall k | 0 <= k < n ensures Complete(sha256, g, packages[k]) {
      if f != g { PackageImproves(sha256, f, g, packages, packages[k]); }
    }
  }

  lemma StaysComplete(sha256: Digest, f: Files, g: Files, packages: seq<Package>, p: Package)
    requires Improves(sha256, f, g, packages) && p in packages
    ensures Stale(sha256, f, p) == [] ==> Complete(sha256, f, p) && Complete(sha256, g, p)
    ensures Complete(sha256, f, p) ==> Stale(sha256, f, p) == []
  {
    NoProblemsIsComplete(sha256, f, p);
    PackageImproves(sha256, f, g, packages, p);
  }

  /** What improves all improves each. */
  lemma PackageImproves(sha256: Digest, f: Files, g: Files, packages: seq<Package>, p: Package)
    requires Improves(sha256, f, g, packages) && p in packages
    ensures Complete(sha256, f, p) ==> Complete(sha256, g, p)
    ensures PackageClean(sha256, f, p) ==> PackageClean(sha256, g, p)
    ensures Shrunk(f, g) ==> forall e | e in p.entries :: Good(sha256, f, p, e) <==> Good(sha256, g, p, e)
  {
    assert forall e | e in p.entries :: ImprovesAt(sha256, f, g, p, e);
  }

  /** The first `n` packages are complete, and all else is as what was stale in them leaves it. */
  ghost predicate Refreshed(sha256: Digest, before: Files, files: Files, packages: seq<Package>, n: nat)
    requires n <= |packages|
  {
    FirstComplete(sha256, files, packages, n) && Settled(before, files, packages, StaleTargets(sha256, before, packages, n))
  }

  /** What was found in the first `n` packages names what was stale there. */
  ghost predicate FoundStale(sha256: Digest, files: Files, packages: seq<Package>, found: seq<seq<Problem>>, n: nat)
    requires n <= |packages| == |found|
  {
    n > 0 ==> FoundStale(sha256, files, packages, found, n - 1) && Names(found[n - 1]) == Stale(sha256, files, packages[n - 1])
  }

  lemma {:induction false} FoundAll(sha256: Digest, files: Files, packages: seq<Package>, found: seq<seq<Problem>>, n: nat)
    requires n <= |packages| == |found| && forall i | 0 <= i < n :: Names(found[i]) == Stale(sha256, files, packages[i])
    ensures FoundStale(sha256, files, packages, found, n)
  {
    if n > 0 { FoundAll(sha256, files, packages, found, n - 1); }
  }

  lemma {:induction false} FoundAt(sha256: Digest, files: Files, packages: seq<Package>, found: seq<seq<Problem>>, n: nat, i: nat)
    requires n <= |packages| == |found| && FoundStale(sha256, files, packages, found, n) && i < n
    ensures Names(found[i]) == Stale(sha256, files, packages[i])
  {
    if i < n - 1 { FoundAt(sha256, files, packages, found, n - 1, i); }
  }

  lemma NoneRefreshed(sha256: Digest, before: Files, files: Files, packages: seq<Package>)
    requires Settled(before, files, packages, {})
    ensures Refreshed(sha256, before, files, packages, 0) && StaleNames(sha256, before, packages, 0) == []
  {
  }

  lemma AllRefreshed(sha256: Digest, before: Files, files: Files, packages: seq<Package>)
    requires Refreshed(sha256, before, files, packages, |packages|)
    ensures AllComplete(sha256, files, packages)
    ensures Settled(before, files, packages, StaleTargets(sha256, before, packages, |packages|))
  {
  }

  lemma RefreshedNext(sha256: Digest, before: Files, f: Files, g: Files, packages: seq<Package>, n: nat)
    requires n < |packages| && Refreshed(sha256, before, f, packages, n)
    requires Improves(sha256, before, f, packages) && Improves(sha256, f, g, packages)
    requires Stale(sha256, before, packages[n]) == [] || Complete(sha256, g, packages[n])
    requires Settled(f, g, packages, TargetsOf(packages[n], Stale(sha256, before, packages[n])))
    ensures Refreshed(sha256, before, g, packages, n + 1)
  {
    StaysComplete(sha256, before, f, packages, packages[n]);
    StaysComplete(sha256, f, g, packages, packages[n]);
    FirstCompleteNext(sha256, f, g, packages, n);
    SettledOn(before, f, g, packages, StaleTargets(sha256, before, packages, n), TargetsOf(packages[n], Stale(sha256, before, packages[n])),
              StaleTargets(sha256, before, packages, n + 1));
  }

  lemma CleanOn(sha256: Digest, f: Files, g: Files, packages: seq<Package>)
    requires AllClean(sha256, f, packages) && Improves(sha256, f, g, packages)
    ensures AllClean(sha256, g, packages)
  {
    forall p | p in packages ensures PackageClean(sha256, g, p) { PackageImproves(sha256, f, g, packages, p); }
  }

  ghost predicate FirstClean(sha256: Digest, files: Files, packages: seq<Package>, n: nat)
    requires n <= |packages|
  {
    forall k | 0 <= k < n :: PackageClean(sha256, files, packages[k])
  }

  lemma FirstCleanNext(sha256: Digest, f: Files, g: Files, packages: seq<Package>, n: nat)
    requires n < |packages| && FirstClean(sha256, f, packages, n) && Improves(sha256, f, g, packages)
    requires PackageClean(sha256, g, packages[n])
    ensures FirstClean(sha256, g, packages, n + 1)
  {
    forall k | 0 <= k < n ensures PackageClean(sha256, g, packages[k]) { PackageImproves(sha256, f, g, packages, packages[k]); }
  }

  function Names(problems: seq<Problem>): seq<string> {
    seq(|problems|, i requires 0 <= i < |problems| => problems[i].name)
  }

  /** The names of the pinned files that are missing or wrong, in order. */
  function Stale(sha256: Digest, files: Files, p: Package): seq<string> {
    StaleUpTo(sha256, files, p, |p.entries|)
  }

  /** Those of the first `n` packages. */
  function StaleNames(sha256: Digest, files: Files, packages: seq<Package>, n: nat): seq<seq<string>>
    requires n <= |packages|
  {
    if n == 0 then [] else StaleNames(sha256, files, packages, n - 1) + [Stale(sha256, files, packages[n - 1])]
  }

  function StaleUpTo(sha256: Digest, files: Files, p: Package, n: nat): (names: seq<string>)
    requires n <= |p.entries|
    ensures forall name | name in names :: exists e :: e in p.entries && e.name == name
  {
    if n == 0 then []
    else
      var e := p.entries[n - 1];
      assert e in p.entries;
      StaleUpTo(sha256, files, p, n - 1) + if Good(sha256, files, p, e) then [] else [e.name]
  }

  lemma {:induction false} NamesAreStale(sha256: Digest, files: Files, p: Package, n: nat)
    requires n <= |p.entries|
    ensures Names(ProblemsOf(sha256, files, p, n)) == StaleUpTo(sha256, files, p, n)
  {
    if n > 0 { NamesAreStale(sha256, files, p, n - 1); }
  }

  /** Discarding changes no file from stale to good or back. */
  lemma {:induction false} SameStaleUpTo(sha256: Digest, f: Files, g: Files, p: Package, n: nat)
    requires n <= |p.entries| && forall e | e in p.entries :: Good(sha256, f, p, e) <==> Good(sha256, g, p, e)
    ensures StaleUpTo(sha256, f, p, n) == StaleUpTo(sha256, g, p, n)
  {
    if n > 0 { SameStaleUpTo(sha256, f, g, p, n - 1); }
  }

  lemma SameStale(sha256: Digest, f: Files, g: Files, packages: seq<Package>, p: Package)
    requires p in packages && Improves(sha256, f, g, packages) && Shrunk(f, g)
    ensures Stale(sha256, f, p) == Stale(sha256, g, p)
  {
    PackageImproves(sha256, f, g, packages, p);
    SameStaleUpTo(sha256, f, g, p, |p.entries|);
  }

  /** The problems among the first `n` pinned files, in order. */
  function ProblemsOf(sha256: Digest, files: Files, p: Package, n: nat): seq<Problem>
    requires n <= |p.entries|
  {
    if n == 0 then []
    else
      var e := p.entries[n - 1];
      ProblemsOf(sha256, files, p, n - 1)
      + if Target(p, e.name) !in files then [Missing(e.name)]
        else if !Matches(sha256, e.pin, files[Target(p, e.name)]) then [Mismatch(e.name)]
        else []
  }

  lemma {:induction false} ProblemHasEntry(sha256: Digest, files: Files, p: Package, n: nat, i: nat) returns (e: Entry)
    requires n <= |p.entries| && i < |ProblemsOf(sha256, files, p, n)|
    ensures e in p.entries && e.name == ProblemsOf(sha256, files, p, n)[i].name && !Good(sha256, files, p, e)
  {
    if i < |ProblemsOf(sha256, files, p, n - 1)| {
      e := ProblemHasEntry(sha256, files, p, n - 1, i);
    } else {
      e := p.entries[n - 1];
    }
  }

  lemma {:induction false} MismatchIsListed(sha256: Digest, files: Files, p: Package, n: nat, e: Entry) returns (k: nat)
    requires n <= |p.entries| && e in p.entries[..n] && !Clean(sha256, files, p, e)
    ensures k < |ProblemsOf(sha256, files, p, n)| && ProblemsOf(sha256, files, p, n)[k] == Mismatch(e.name)
  {
    if e == p.entries[n - 1] {
      k := |ProblemsOf(sha256, files, p, n - 1)|;
    } else {
      k := MismatchIsListed(sha256, files, p, n - 1, e);
    }
  }

  lemma {:induction false} StaleFree(sha256: Digest, files: Files, p: Package, n: nat)
    requires n <= |p.entries|
    ensures StaleUpTo(sha256, files, p, n) == [] <==> forall i | 0 <= i < n :: Good(sha256, files, p, p.entries[i])
  {
    if n > 0 { StaleFree(sha256, files, p, n - 1); }
  }

  lemma NoProblemsIsComplete(sha256: Digest, files: Files, p: Package)
    ensures ProblemsOf(sha256, files, p, |p.entries|) == [] <==> Complete(sha256, files, p)
    ensures Stale(sha256, files, p) == [] <==> Complete(sha256, files, p)
  {
    StaleFree(sha256, files, p, |p.entries|);
    NamesAreStale(sha256, files, p, |p.entries|);
    assert |Names(ProblemsOf(sha256, files, p, |p.entries|))| == |ProblemsOf(sha256, files, p, |p.entries|)|;
    assert forall i | 0 <= i < |p.entries| :: p.entries[i] in p.entries;
  }
}

/** `scripts/lib/validate-cache.ts`: content hashes and fingerprints. A digest is modelled by the text it
    digests, so two fingerprints are equal when the hashed texts are. */
module ValidateCache {
  import opened Sequences

  /** The bytes of a file. */
  datatype Content = Content(bytes: seq<int>)

  type Disk = map<string, Content>

  /** git's object id of some content: no two contents share one, and an id is hexadecimal. */
  type BlobId = Content -> string

  ghost predicate HashOk(blob: BlobId) {
    && (forall a, b :: blob(a) == blob(b) ==> a == b)
    && (forall a :: '\n' !in blob(a) && blob(a) != ABSENT)
  }

  const ABSENT := "absent"

  // ---- Content hashes ----

  /** What git knows: the index's blob ids, and which tracked files differ from them on disk. */
  datatype HashContext = HashContext(trackedBlob: map<string, string>, modified: set<string>)

  /** The context git reports for a disk and an index. */
  ghost predicate ContextOf(ctx: HashContext, blob: BlobId, index: Disk, disk: Disk) {
    && ctx.trackedBlob.Keys == index.Keys
    && (forall p | p in index :: ctx.trackedBlob[p] == blob(index[p]))
    && (forall p :: p in ctx.modified <==> p in index && (p !in disk || disk[p] != index[p]))
  }

  function ContentHash(p: string, ctx: HashContext, blob: BlobId, disk: Disk): string {
    if p in ctx.trackedBlob && p !in ctx.modified then ctx.trackedBlob[p]
    else if p in disk then blob(disk[p])
    else ABSENT
  }

  function HashOnDisk(p: string, blob: BlobId, disk: Disk): string {
    if p in disk then blob(disk[p]) else ABSENT
  }

  /** However a file is tracked, its hash is that of the content on disk. */
  lemma ContentHashIgnoresTracking(p: string, ctx: HashContext, blob: BlobId, index: Disk, disk: Disk)
    requires ContextOf(ctx, blob, index, disk)
    ensures ContentHash(p, ctx, blob, disk) == HashOnDisk(p, blob, disk)
  {
    assert p in ctx.trackedBlob <==> p in index;
  }

  /** Equal hashes mean equal content, or absence on both sides. */
  ghost predicate SameFile(p: string, a: Disk, b: Disk) {
    (p in a <==> p in b) && (p in a ==> a[p] == b[p])
  }

  lemma HashTellsContent(p: string, blob: BlobId, a: Disk, b: Disk)
    requires HashOk(blob)
    ensures HashOnDisk(p, blob, a) == HashOnDisk(p, blob, b) <==> SameFile(p, a, b)
  {
    if p in a && p in b { assert blob(a[p]) == blob(b[p]) ==> a[p] == b[p]; }
  }

  // ---- Sorted paths ----

  predicate Less(a: string, b: string) {
    b != [] && (a == [] || a[0] < b[0] || (a[0] == b[0] && Less(a[1..], b[1..])))
  }

  lemma {:induction false} LessTotal(a: string, b: string)
    ensures Less(a, b) || a == b || Less(b, a)
  {
    if a != [] && b != [] && a[0] == b[0] {
      LessTotal(a[1..], b[1..]);
      assert a == [a[0]] + a[1..] && b == [b[0]] + b[1..];
    }
  }

  lemma {:induction false} LessIsStrict(a: string, b: string, c: string)
    ensures !Less(a, a)
    ensures Less(a, b) && Less(b, c) ==> Less(a, c)
  {
    if a != [] {
      LessIsStrict(a[1..], if b == [] then [] else b[1..], if c == [] then [] else c[1..]);
    }
  }

  ghost predicate Ascending(s: seq<string>) {
    forall i, j | 0 <= i < j < |s| :: Less(s[i], s[j])
  }

  /** The distinct paths in order: `[...new Set(files)].sort()`. */
  function SortPaths(files: seq<string>): (r: seq<string>)
    ensures forall f :: f in r <==> f in files
    ensures Ascending(r)
  {
    if files == [] then []
    else
      assert files == [files[0]] + files[1..];
      Insert(files[0], SortPaths(files[1..]))
  }

  function Insert(f: string, s: seq<string>): (r: seq<string>)
    requires Ascending(s)
    ensures forall g :: g in r <==> g == f || g in s
    ensures Ascending(r)
  {
    if s == [] then [f]
    else
      assert s == [s[0]] + s[1..];
      if f == s[0] then s
      else if Less(f, s[0]) then
        InsertedFirst(f, s);
        [f] + s
      else
        var t := Insert(f, s[1..]);
        InsertedLater(f, s, t);
        [s[0]] + t
  }

  lemma InsertedFirst(f: string, s: seq<string>)
    requires s != [] && Ascending(s) && Less(f, s[0])
    ensures Ascending([f] + s)
  {
    forall j | 0 <= j < |s| ensures Less(f, s[j]) { LessIsStrict(f, s[0], s[j]); }
  }

  lemma InsertedLater(f: string, s: seq<string>, t: seq<string>)
    requires s != [] && Ascending(s) && f != s[0] && !Less(f, s[0])
    requires Ascending(t) && forall g :: g in t <==> g == f || g in s[1..]
    ensures Ascending([s[0]] + t)
  {
    LessTotal(f, s[0]);
    forall j | 0 <= j < |t| ensures Less(s[0], t[j]) {
      assert t[j] in t;
      if t[j] != f {
        var k :| 0 <= k < |s[1..]| && s[1..][k] == t[j];
        assert s[k + 1] == t[j];
      }
    }
  }

  lemma {:induction false} AscendingIsUnique(a: seq<string>, b: seq<string>)
    requires Ascending(a) && Ascending(b) && forall f :: f in a <==> f in b
    ensures a == b
  {
    assert b != [] ==> b[0] in b;
    if a != [] {
      assert a[0] in a && a[0] in b;
      assert b[0] in b && b[0] in a;
      LeastIsFirst(a, b);
      forall f ensures f in a[1..] <==> f in b[1..] { TailOfAscending(a, f); TailOfAscending(b, f); }
      AscendingIsUnique(a[1..], b[1..]);
      assert a == [a[0]] + a[1..] && b == [b[0]] + b[1..];
    }
  }

  lemma LeastIsFirst(a: seq<string>, b: seq<string>)
    requires Ascending(a) && Ascending(b) && a != [] && b != [] && a[0] in b && b[0] in a
    ensures a[0] == b[0]
  {
    if a[0] != b[0] {
      var i :| 0 <= i < |b| && b[i] == a[0];
      var j :| 0 <= j < |a| && a[j] == b[0];
      LessIsStrict(a[0], b[0], a[0]);
    }
  }

  lemma TailOfAscending(a: seq<string>, f: string)
    requires a != [] && Ascending(a)
    ensures f in a[1..] <==> f in a && f != a[0]
  {
    assert a == [a[0]] + a[1..];
    if f in a[1..] {
      var k :| 0 <= k < |a[1..]| && a[1..][k] == f;
      LessIsStrict(a[0], a[0], a[0]);
    }
  }

  // ---- The hashed text ----

  datatype Pair = Pair(path: string, hash: string)

  function PairText(p: Pair): string {
    p.path + "\0" + p.hash + "\n"
  }

  function PairsText(pairs: seq<Pair>): string {
    if pairs == [] then "" else PairText(pairs[0]) + PairsText(pairs[1..])
  }

  function TokensText(extra: seq<string>): string {
    if extra == [] then "" else "\0extra\0" + extra[0] + "\n" + TokensText(extra[1..])
  }

  /** A path is not empty and holds no NUL; a hash holds no newline. */
  ghost predicate Clean(pairs: seq<Pair>) {
    forall p | p in pairs :: p.path != [] && '\0' !in p.path && '\n' !in p.hash
  }

  lemma {:induction false} SplitAtFirst(a: string, x: string, b: string, y: string, c: char)
    requires c !in a && c !in b && a + [c] + x == b + [c] + y
    ensures a == b && x == y
  {
    assert (a != [] ==> a[0] in a) && (b != [] ==> b[0] in b);
    if a == [] || b == [] {
      assert (a + [c] + x)[0] == (b + [c] + y)[0];
      assert (a + [c] + x)[1..] == x && (b + [c] + y)[1..] == y;
    } else {
      assert (a + [c] + x)[0] == a[0] && (b + [c] + y)[0] == b[0];
      assert (a + [c] + x)[1..] == a[1..] + [c] + x;
      assert (b + [c] + y)[1..] == b[1..] + [c] + y;
      SplitAtFirst(a[1..], x, b[1..], y, c);
      assert a == [a[0]] + a[1..] && b == [b[0]] + b[1..];
    }
  }

  /** The hashed text determines the pairs, in order, whatever tokens follow them. */
  lemma {:induction false} TextTellsPairs(a: seq<Pair>, x: seq<string>, b: seq<Pair>, y: seq<string>)
    requires Clean(a) && Clean(b)
    requires PairsText(a) + TokensText(x) == PairsText(b) + TokensText(y)
    ensures a == b && TokensText(x) == TokensText(y)
  {
    if a == [] || b == [] {
      NoPairsLeft(a, x, b, y);
    } else {
      assert a[0] in a && b[0] in b;
      FirstPairText(a, TokensText(x));
      FirstPairText(b, TokensText(y));
      FirstPairTold(a[0], PairsText(a[1..]) + TokensText(x), b[0], PairsText(b[1..]) + TokensText(y));
      assert forall p | p in a[1..] :: p in a;
      assert forall p | p in b[1..] :: p in b;
      TextTellsPairs(a[1..], x, b[1..], y);
      assert a == [a[0]] + a[1..] && b == [b[0]] + b[1..];
    }
  }

  lemma FirstPairText(a: seq<Pair>, rest: string)
    requires a != []
    ensures PairsText(a) + rest == PairText(a[0]) + (PairsText(a[1..]) + rest)
  {
    Associative(PairText(a[0]), PairsText(a[1..]), rest);
  }

  lemma FirstPairTold(p: Pair, r: string, q: Pair, t: string)
    requires '\0' !in p.path && '\n' !in p.hash && '\0' !in q.path && '\n' !in q.hash
    requires PairText(p) + r == PairText(q) + t
    ensures p == q && r == t
  {
    assert PairText(p) + r == p.path + ['\0'] + (p.hash + ['\n'] + r);
    assert PairText(q) + t == q.path + ['\0'] + (q.hash + ['\n'] + t);
    SplitAtFirst(p.path, p.hash + ['\n'] + r, q.path, q.hash + ['\n'] + t, '\0');
    SplitAtFirst(p.hash, r, q.hash, t, '\n');
  }

  /** The text of a pair starts with its path, that of a token with a NUL. */
  lemma NoPairsLeft(a: seq<Pair>, x: seq<string>, b: seq<Pair>, y: seq<string>)
    requires Clean(a) && Clean(b) && (a == [] || b == [])
    requires PairsText(a) + TokensText(x) == PairsText(b) + TokensText(y)
    ensures a == b == [] && TokensText(x) == TokensText(y)
  {
    TextStarts(a, TokensText(x));
    TextStarts(b, TokensText(y));
    assert PairsText(a) + TokensText(x) == TokensText(x) || PairsText(b) + TokensText(y) == TokensText(y);
    assert "" + TokensText(x) == TokensText(x) && "" + TokensText(y) == TokensText(y);
  }

  lemma TextStarts(a: seq<Pair>, rest: string)
    requires Clean(a)
    ensures a != [] ==> PairsText(a) + rest != [] && (PairsText(a) + rest)[0] != '\0'
  {
    if a != [] {
      assert a[0] in a && a[0].path[0] in a[0].path;
      assert (PairsText(a) + rest)[0] == a[0].path[0];
    }
  }

  // ---- Fingerprints ----

  function PairsOf(paths: seq<string>, ctx: HashContext, blob: BlobId, disk: Disk): (r: seq<Pair>)
    ensures |r| == |paths|
    ensures forall i | 0 <= i < |r| :: r[i] == Pair(paths[i], ContentHash(paths[i], ctx, blob, disk))
  {
    seq(|paths|, i requires 0 <= i < |paths| => Pair(paths[i], ContentHash(paths[i], ctx, blob, disk)))
  }

  /** What `fingerprint` digests. */
  function FingerprintText(files: seq<string>, ctx: HashContext, blob: BlobId, disk: Disk, extra: seq<string>): string {
    PairsText(PairsOf(SortPaths(files), ctx, blob, disk)) + TokensText(extra)
  }

  method Fingerprint(files: seq<string>, ctx: HashContext, blob: BlobId, disk: Disk, extra: seq<string>)
    returns (fed: string)
    ensures fed == FingerprintText(files, ctx, blob, disk, extra)
  {
    var pairs := FeedPairs(PairsOf(SortPaths(files), ctx, blob, disk));
    var tokens := FeedTokens(extra);
    fed := pairs + tokens;
  }

  method FeedPairs(pairs: seq<Pair>) returns (fed: string)
    ensures fed == PairsText(pairs)
  {
    fed := "";
    for i := 0 to |pairs|
      invariant fed + PairsText(pairs[i..]) == PairsText(pairs)
    {
      assert pairs[i..][1..] == pairs[i + 1..];
      fed := fed + PairText(pairs[i]);
    }
    assert pairs[|pairs|..] == [];
  }

  method FeedTokens(extra: seq<string>) returns (fed: string)
    ensures fed == TokensText(extra)
  {
    fed := "";
    for i := 0 to |extra|
      invariant fed + TokensText(extra[i..]) == TokensText(extra)
    {
      assert extra[i..][1..] == extra[i + 1..];
      fed := fed + ("\0extra\0" + extra[i] + "\n");
    }
    assert extra[|extra|..] == [];
  }

  /** Fingerprints are equal exactly when they cover the same paths and every one of them has the same
      content on both disks; the order and the repetitions in the file lists do not matter. */
  lemma FingerprintIsExact(
    files: seq<string>, ctx: HashContext, index: Disk, disk: Disk,
    files': seq<string>, ctx': HashContext, index': Disk, disk': Disk, blob: BlobId)
    requires HashOk(blob) && ContextOf(ctx, blob, index, disk) && ContextOf(ctx', blob, index', disk')
    requires forall f | f in files || f in files' :: f != [] && '\0' !in f
    ensures FingerprintText(files, ctx, blob, disk, []) == FingerprintText(files', ctx', blob, disk', [])
       <==> ((forall f :: f in files <==> f in files') && forall f | f in files :: SameFile(f, disk, disk'))
  {
    var p, p' := SortPaths(files), SortPaths(files');
    var a, b := PairsOf(p, ctx, blob, disk), PairsOf(p', ctx', blob, disk');
    PairsAreClean(p, ctx, blob, index, disk);
    PairsAreClean(p', ctx', blob, index', disk');
    SameFilesSamePairs(files, ctx, index, disk, files', ctx', index', disk', blob);
    if FingerprintText(files, ctx, blob, disk, []) == FingerprintText(files', ctx', blob, disk', []) {
      TextTellsPairs(a, [], b, []);
      PairsTellContent(p, ctx, index, disk, p', ctx', index', disk', blob);
    }
  }

  lemma SameFilesSamePairs(
    files: seq<string>, ctx: HashContext, index: Disk, disk: Disk,
    files': seq<string>, ctx': HashContext, index': Disk, disk': Disk, blob: BlobId)
    requires ContextOf(ctx, blob, index, disk) && ContextOf(ctx', blob, index', disk')
    ensures (forall f :: f in files <==> f in files') && (forall f | f in files :: SameFile(f, disk, disk')) ==>
              PairsOf(SortPaths(files), ctx, blob, disk) == PairsOf(SortPaths(files'), ctx', blob, disk')
  {
    if (forall f :: f in files <==> f in files') && forall f | f in files :: SameFile(f, disk, disk') {
      var p := SortPaths(files);
      AscendingIsUnique(p, SortPaths(files'));
      forall i | 0 <= i < |p| ensures ContentHash(p[i], ctx, blob, disk) == ContentHash(p[i], ctx', blob, disk') {
        assert p[i] in p;
        ContentHashIgnoresTracking(p[i], ctx, blob, index, disk);
        ContentHashIgnoresTracking(p[i], ctx', blob, index', disk');
      }
    }
  }

  lemma PairsAreClean(paths: seq<string>, ctx: HashContext, blob: BlobId, index: Disk, disk: Disk)
    requires HashOk(blob) && ContextOf(ctx, blob, index, disk)
    requires forall f | f in paths :: f != [] && '\0' !in f
    ensures Clean(PairsOf(paths, ctx, blob, disk))
  {
    forall p | p in PairsOf(paths, ctx, blob, disk) ensures p.path != [] && '\0' !in p.path && '\n' !in p.hash {
      var i :| 0 <= i < |paths| && PairsOf(paths, ctx, blob, disk)[i] == p;
      assert paths[i] in paths;
      ContentHashIgnoresTracking(paths[i], ctx, blob, index, disk);
    }
  }

  lemma PairsTellContent(
    p: seq<string>, ctx: HashContext, index: Disk, disk: Disk,
    p': seq<string>, ctx': HashContext, index': Disk, disk': Disk, blob: BlobId)
    requires HashOk(blob) && ContextOf(ctx, blob, index, disk) && ContextOf(ctx', blob, index', disk')
    requires PairsOf(p, ctx, blob, disk) == PairsOf(p', ctx', blob, disk')
    ensures p == p' && forall f | f in p :: SameFile(f, disk, disk')
  {
    var a, b := PairsOf(p, ctx, blob, disk), PairsOf(p', ctx', blob, disk');
    assert |p| == |a| == |b| == |p'|;
    forall i | 0 <= i < |p| ensures p[i] == p'[i] && SameFile(p[i], disk, disk') {
      assert a[i] == b[i];
      ContentHashIgnoresTracking(p[i], ctx, blob, index, disk);
      ContentHashIgnoresTracking(p[i], ctx', blob, index', disk');
      HashTellsContent(p[i], blob, disk, disk');
    }
  }
}

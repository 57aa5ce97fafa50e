/** Sorting and counting over sequences of sequences: what stays the same when files are moved about. */
module Counting {

  ghost predicate Ascending<T>(key: T -> real, s: seq<T>) {
    forall i, j | 0 <= i < j < |s| :: key(s[i]) <= key(s[j])
  }

  /** `s` sorted by a numeric key, smallest first, equal keys in their old order: the array sort the
      sharder calls. */
  function SortBy<T>(key: T -> real, s: seq<T>): (r: seq<T>)
    ensures multiset(r) == multiset(s)
    ensures |r| == |s|
    ensures Ascending(key, r)
  {
    if s == [] then []
    else
      assert s == [s[0]] + s[1..];
      InsertBy(key, s[0], SortBy(key, s[1..]))
  }

  function InsertBy<T>(key: T -> real, x: T, s: seq<T>): (r: seq<T>)
    requires Ascending(key, s)
    ensures multiset(r) == multiset(s) + multiset{x}
    ensures |r| == |s| + 1
    ensures forall y | y in r :: y == x || y in s
    ensures Ascending(key, r)
  {
    if s == [] || key(x) <= key(s[0]) then [x] + s
    else
      assert s == [s[0]] + s[1..];
      var t := InsertBy(key, x, s[1..]);
      InsertedAbove(key, x, s, t);
      AscendingFrom(key, s[0], t);
      [s[0]] + t
  }

  lemma AscendingFrom<T>(key: T -> real, x: T, s: seq<T>)
    requires Ascending(key, s) && forall i | 0 <= i < |s| :: key(x) <= key(s[i])
    ensures Ascending(key, [x] + s)
  {
  }

  lemma InsertedAbove<T>(key: T -> real, x: T, s: seq<T>, t: seq<T>)
    requires s != [] && key(s[0]) <= key(x)
    requires forall i, j | 0 <= i < j < |s| :: key(s[i]) <= key(s[j])
    requires forall y | y in t :: y == x || y in s[1..]
    ensures forall i | 0 <= i < |t| :: key(s[0]) <= key(t[i])
  {
    forall i | 0 <= i < |t| ensures key(s[0]) <= key(t[i]) {
      assert t[i] in t;
      if t[i] != x {
        var k :| 0 <= k < |s[1..]| && s[1..][k] == t[i];
        assert s[k + 1] == t[i];
      }
    }
  }

  lemma MultisetWithout<T>(s: seq<T>, k: nat)
    requires k < |s|
    ensures multiset(s) == multiset(s[..k] + s[k + 1..]) + multiset{s[k]}
  {
    assert s == s[..k] + [s[k]] + s[k + 1..];
  }

  lemma Cancel<T>(a: multiset<T>, b: multiset<T>, c: multiset<T>)
    requires a + c == b + c
    ensures a == b
  {
    assert a == (a + c) - c;
    assert b == (b + c) - c;
  }

  lemma FindInPermutation<T>(x: T, a: seq<T>, b: seq<T>) returns (k: nat)
    requires x in a && multiset(a) == multiset(b)
    ensures k < |b| && b[k] == x
  {
    assert x in multiset(a);
    assert x in multiset(b);
    k :| 0 <= k < |b| && b[k] == x;
  }

  /** Everything in `shards`, counted. */
  function Files<T>(shards: seq<seq<T>>): multiset<T> {
    if shards == [] then multiset{} else Files(shards[..|shards| - 1]) + multiset(shards[|shards| - 1])
  }

  lemma {:induction false} FilesAfterUpdate<T>(shards: seq<seq<T>>, b: nat, s: seq<T>)
    requires b < |shards|
    ensures Files(shards[b := s]) + multiset(shards[b]) == Files(shards) + multiset(s)
    decreases |shards|
  {
    var n := |shards| - 1;
    if b < n {
      FilesAfterUpdate(shards[..n], b, s);
      assert shards[b := s][..n] == shards[..n][b := s];
      var last, was, now := multiset(shards[n]), multiset(shards[b]), multiset(s);
      calc {
        Files(shards[b := s]) + was;
        Files(shards[..n][b := s]) + last + was;
        (Files(shards[..n][b := s]) + was) + last;
        (Files(shards[..n]) + now) + last;
        Files(shards) + now;
      }
    } else {
      assert shards[b := s][..n] == shards[..n];
    }
  }

  lemma FilesWithLast<T>(shards: seq<seq<T>>, s: seq<T>)
    ensures Files(shards + [s]) == Files(shards) + multiset(s)
  {
    assert (shards + [s])[..|shards|] == shards;
  }

  lemma {:induction false} FilesIn<T>(shards: seq<seq<T>>, f: T) returns (b: nat, k: nat)
    requires f in Files(shards)
    ensures b < |shards| && k < |shards[b]| && shards[b][k] == f
  {
    var n := |shards| - 1;
    if f in shards[n] {
      b := n;
      k :| 0 <= k < |shards[n]| && shards[n][k] == f;
    } else {
      b, k := FilesIn(shards[..n], f);
    }
  }

  lemma {:induction false} FilesConcat<T>(a: seq<seq<T>>, b: seq<seq<T>>)
    ensures Files(a + b) == Files(a) + Files(b)
    decreases |b|
  {
    if b == [] {
      assert a + b == a;
    } else {
      FilesConcat(a, b[..|b| - 1]);
      assert (a + b)[..|a + b| - 1] == a + b[..|b| - 1];
    }
  }

  lemma FilesWithout<T>(b: seq<seq<T>>, k: nat)
    requires k < |b|
    ensures Files(b) == Files(b[..k] + b[k + 1..]) + multiset(b[k])
  {
    var before, one, after := b[..k], [b[k]], b[k + 1..];
    SplitAt(b, k);
    FilesConcat(before, after);
    FilesConcat(before, one + after);
    FilesConcat(one, after);
    FilesOfOne(b[k]);
    AddAround(Files(before), multiset(b[k]), Files(after));
  }

  lemma SplitAt<T>(s: seq<T>, k: nat)
    requires k < |s|
    ensures s == s[..k] + ([s[k]] + s[k + 1..])
  {
  }

  lemma FilesOfOne<T>(one: seq<T>)
    ensures Files([one]) == multiset(one)
  {
    FilesWithLast([], one);
    assert [] + [one] == [one];
  }

  lemma AddAround<T>(a: multiset<T>, b: multiset<T>, c: multiset<T>)
    ensures a + (b + c) == a + c + b
  {
  }

  /** `Files` counts without regard to the order of the shards. */
  lemma {:induction false} FilesOfPermutation<T>(a: seq<seq<T>>, b: seq<seq<T>>)
    requires multiset(a) == multiset(b)
    ensures Files(a) == Files(b)
    decreases |a|
  {
    assert |a| == |multiset(a)| == |multiset(b)| == |b|;
    if a != [] {
      var n := |a| - 1;
      var k := FindInPermutation(a[n], a, b);
      MultisetWithout(a, n);
      MultisetWithout(b, k);
      assert a[..n] + a[n + 1..] == a[..n];
      Cancel(multiset(a[..n]), multiset(b[..k] + b[k + 1..]), multiset{a[n]});
      FilesOfPermutation(a[..n], b[..k] + b[k + 1..]);
      FilesWithout(b, k);
    }
  }

  lemma {:induction false} InFiles<T>(shards: seq<seq<T>>, b: nat, f: T)
    requires b < |shards| && f in shards[b]
    ensures f in Files(shards)
  {
    var n := |shards| - 1;
    if b < n { InFiles(shards[..n], b, f); }
  }

  function Filter<T>(p: T -> bool, files: seq<T>): (r: seq<T>)
    ensures forall f | f in r :: f in files && p(f)
  {
    if files == [] then []
    else
      var n := |files| - 1;
      Filter(p, files[..n]) + (if p(files[n]) then [files[n]] else [])
  }

  function Singles<T>(files: seq<T>): (r: seq<seq<T>>)
    ensures |r| == |files| && forall i | 0 <= i < |r| :: r[i] == [files[i]]
  {
    seq(|files|, i requires 0 <= i < |files| => [files[i]])
  }

  lemma {:induction false} FilesOfSingles<T>(files: seq<T>)
    ensures Files(Singles(files)) == multiset(files)
  {
    if files != [] {
      var n := |files| - 1;
      assert files == files[..n] + [files[n]];
      assert Singles(files)[..n] == Singles(files[..n]);
      FilesOfSingles(files[..n]);
    }
  }

  lemma {:induction false} SplitCounts<T>(p: T -> bool, q: T -> bool, files: seq<T>)
    requires forall f | f in files :: p(f) <==> !q(f)
    ensures multiset(Filter(p, files)) + multiset(Filter(q, files)) == multiset(files)
  {
    if files != [] {
      var n := |files| - 1;
      assert files == files[..n] + [files[n]];
      SplitCounts(p, q, files[..n]);
    }
  }

  function NonEmpty<T>(shards: seq<seq<T>>): (r: seq<seq<T>>)
    ensures Files(r) == Files(shards)
    ensures (forall s | s in r :: s != [] && s in shards) && |r| <= |shards|
  {
    if shards == [] then []
    else
      var n := |shards| - 1;
      var r := NonEmpty(shards[..n]);
      if shards[n] == [] then r
      else
        FilesWithLast(r, shards[n]);
        r + [shards[n]]
  }

  lemma {:induction false} EmptyFiles<T>(n: nat)
    ensures Files<T>(seq(n, _ => [])) == multiset{}
  {
    if n > 0 {
      assert seq<seq<T>>(n, _ => [])[..n - 1] == seq(n - 1, _ => []);
      EmptyFiles<T>(n - 1);
    }
  }
}

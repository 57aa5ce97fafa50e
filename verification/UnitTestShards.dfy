/** The unit-test sharder: `buildShards` and the worker pool of `scripts/run-unit-tests.ts`. */
module UnitTestShards {
  import opened Counting
  import opened LptBound

  // ---- Costs ----

  type Weights = m: map<string, real> | forall f | f in m :: m[f] > 0.0 witness map[]

  function WeightOf(weight: Weights, file: string): (w: real)
    ensures w > 0.0
  {
    if file in weight then weight[file] else 1.0
  }

  function ShardCost(weight: Weights, files: seq<string>): real {
    if files == [] then 0.0
    else ShardCost(weight, files[..|files| - 1]) + WeightOf(weight, files[|files| - 1])
  }

  lemma {:induction false} ShardCostWithout(weight: Weights, files: seq<string>, k: nat)
    requires k < |files|
    ensures ShardCost(weight, files) == ShardCost(weight, files[..k] + files[k + 1..]) + WeightOf(weight, files[k])
    decreases |files|
  {
    var n := |files| - 1;
    var without := files[..k] + files[k + 1..];
    if k < n {
      ShardCostWithout(weight, files[..n], k);
      LastOfWithout(files, k);
    } else {
      assert without == files[..n];
    }
  }

  lemma LastOfWithout<T>(s: seq<T>, k: nat)
    requires k < |s| - 1
    ensures var n, without := |s| - 1, s[..k] + s[k + 1..];
            |without| == n && without[..n - 1] == s[..n][..k] + s[..n][k + 1..] && without[n - 1] == s[n]
  {
  }

  function JobWeights(weight: Weights, files: seq<string>): (w: seq<real>)
    ensures |w| == |files| && Positive(w)
  {
    seq(|files|, i requires 0 <= i < |files| => WeightOf(weight, files[i]))
  }

  /** A distribution of the files over `m` bins is an assignment of the jobs, in any order of the files. */
  lemma {:induction false} DistributionAsAssignment(weight: Weights, files: seq<string>, bins: seq<seq<string>>)
    returns (q: Assignment)
    requires Files(bins) == multiset(files)
    ensures |q| == |files| && Uses(q, |bins|)
    ensures forall b | 0 <= b < |bins| :: Load(q, JobWeights(weight, files), b) == ShardCost(weight, bins[b])
    decreases |files|
  {
    if files == [] {
      q := [];
      forall b | 0 <= b < |bins| ensures bins[b] == [] {
        if bins[b] != [] { InFiles(bins, b, bins[b][0]); }
      }
    } else {
      var n := |files| - 1;
      assert files == files[..n] + [files[n]];
      var b, k := FilesIn(bins, files[n]);
      var smaller := bins[b][..k] + bins[b][k + 1..];
      MultisetWithout(bins[b], k);
      FilesAfterUpdate(bins, b, smaller);
      Cancel(Files(bins[b := smaller]) + multiset{files[n]}, Files(bins), multiset(smaller));
      Cancel(Files(bins[b := smaller]), multiset(files[..n]), multiset{files[n]});
      var q' := DistributionAsAssignment(weight, files[..n], bins[b := smaller]);
      q := q' + [b];
      ShardCostWithout(weight, bins[b], k);
      var w, w' := JobWeights(weight, files), JobWeights(weight, files[..n]);
      forall c | 0 <= c < |bins| ensures Load(q, w, c) == ShardCost(weight, bins[c]) {
        assert q[..n] == q';
        LoadOnPrefix(q', w, w', c);
      }
    }
  }

  // ---- The shards ----

  /** One of the arrays made up front, told apart by the slot it was made in. */
  datatype Bin = Bin(slot: nat, files: seq<string>)

  function Slotted(content: seq<seq<string>>): (bins: seq<Bin>)
    ensures |bins| == |content|
    ensures forall b | 0 <= b < |bins| :: bins[b] == Bin(b, content[b])
  {
    seq(|content|, b requires 0 <= b < |content| => Bin(b, content[b]))
  }

  function Contents(bins: seq<Bin>): (r: seq<seq<string>>)
    ensures |r| == |bins| && forall i | 0 <= i < |bins| :: r[i] == bins[i].files
  {
    seq(|bins|, i requires 0 <= i < |bins| => bins[i].files)
  }

  function BinCount(rest: nat, concurrency: nat): (m: nat)
    requires concurrency > 0
    ensures 1 <= m && (0 < rest ==> m <= rest)
  {
    var capped := if rest < 2 * concurrency then rest else 2 * concurrency;
    if capped < 1 then 1 else capped
  }

  /** No shard is heavier than 4/3 − 1/(3m) times the heaviest bin of any distribution of the same files over at
      most `m` bins. */
  ghost predicate NearOptimal(weight: Weights, shards: seq<seq<string>>, rest: seq<string>, m: nat) {
    forall other: seq<seq<string>>, t: real, s: seq<string> |
      && 1 <= |other| <= m && Files(other) == multiset(rest)
      && (forall b | 0 <= b < |other| :: ShardCost(weight, other[b]) <= t)
      && s in shards
      :: FourThirds(ShardCost(weight, s), m, t)
  }

  function IsolatedShards(files: seq<string>, isolated: set<string>): (r: seq<seq<string>>)
    ensures forall s | s in r :: |s| == 1 && s[0] in isolated
    ensures Files(r) == multiset(Filter(f => f in isolated, files))
  {
    var alone := Filter(f => f in isolated, files);
    FilesOfSingles(alone);
    assert forall i | 0 <= i < |alone| :: alone[i] in alone;
    Singles(alone)
  }

  function HeaviestFileFirst(weight: Weights, files: seq<string>): (r: seq<string>)
    ensures multiset(r) == multiset(files)
    ensures forall i, j | 0 <= i < j < |r| :: WeightOf(weight, r[i]) >= WeightOf(weight, r[j])
  {
    SortBy(f => -WeightOf(weight, f), files)
  }

  function LightestBinFirst(weight: Weights, bins: seq<Bin>): (r: seq<Bin>)
    ensures multiset(r) == multiset(bins)
    ensures forall i, j | 0 <= i < j < |r| :: ShardCost(weight, r[i].files) <= ShardCost(weight, r[j].files)
  {
    SortBy((b: Bin) => ShardCost(weight, b.files), bins)
  }

  function HeaviestShardFirst(weight: Weights, shards: seq<seq<string>>): (r: seq<seq<string>>)
    ensures multiset(r) == multiset(shards)
    ensures forall i, j | 0 <= i < j < |r| :: ShardCost(weight, r[i]) >= ShardCost(weight, r[j])
  {
    SortBy(s => -ShardCost(weight, s), shards)
  }

  method BuildShards(files: seq<string>, isolated: set<string>, weight: Weights, concurrency: nat)
    returns (shards: seq<seq<string>>, ghost alone: seq<seq<string>>, ghost bulk: seq<seq<string>>)
    requires concurrency > 0
    ensures Files(shards) == multiset(files)
    ensures multiset(shards) == multiset(alone + bulk)
    ensures forall s | s in alone :: |s| == 1 && s[0] in isolated
    ensures forall s | s in bulk :: s != [] && forall f | f in s :: f !in isolated
    ensures |bulk| <= 2 * concurrency
    ensures NearOptimal(weight, bulk, Filter(f => f !in isolated, files), 2 * concurrency)
    ensures forall i, j | 0 <= i < j < |shards| :: ShardCost(weight, shards[i]) >= ShardCost(weight, shards[j])
  {
    var isolatedShards := IsolatedShards(files, isolated);
    var rest := Filter(f => f !in isolated, files);
    SplitCounts(f => f in isolated, f => f !in isolated, files);
    var sorted := HeaviestFileFirst(weight, rest);
    var bins := PackLongestFirst(sorted, weight, BinCount(|sorted|, concurrency), rest);
    var kept := NonEmpty(Contents(bins));
    KeptIsBulk(rest, isolated, sorted, Contents(bins));
    NearOptimalOverAll(weight, Contents(bins), rest, |bins|, 2 * concurrency);
    var result := isolatedShards + kept;
    FilesConcat(isolatedShards, kept);
    shards := HeaviestShardFirst(weight, result);
    FilesOfPermutation(shards, result);
    alone, bulk := isolatedShards, kept;
  }

  lemma KeptIsBulk(rest: seq<string>, isolated: set<string>, sorted: seq<string>, bins: seq<seq<string>>)
    requires forall f | f in rest :: f !in isolated
    requires multiset(sorted) == multiset(rest) && Files(bins) == multiset(sorted)
    ensures forall s | s in NonEmpty(bins) :: s != [] && forall f | f in s :: f !in isolated
  {
    forall s, f | s in NonEmpty(bins) && f in s ensures f !in isolated {
      var b :| 0 <= b < |bins| && bins[b] == s;
      InFiles(bins, b, f);
      assert f in multiset(rest);
    }
  }

  /** As many bins as files are as good as any more: some bin holds the heaviest file. */
  lemma NearOptimalOverAll(weight: Weights, shards: seq<seq<string>>, rest: seq<string>, m: nat, most: nat)
    requires NearOptimal(weight, shards, rest, m) && 1 <= m <= most && (m < most ==> |rest| <= m)
    ensures NearOptimal(weight, shards, rest, most)
  {
    forall other: seq<seq<string>>, t: real, s: seq<string> |
      && 1 <= |other| <= most && Files(other) == multiset(rest)
      && (forall b | 0 <= b < |other| :: ShardCost(weight, other[b]) <= t)
      && s in shards
      ensures FourThirds(ShardCost(weight, s), most, t)
    {
      CostIsNonNegative(weight, other[0]);
      if |other| > m {
        var singles := Apart(rest);
        FilesApart(rest);
        forall b | 0 <= b < |singles| ensures ShardCost(weight, singles[b]) <= t {
          EachFitsItsBin(weight, rest, other, t, b);
        }
      }
      FourThirdsGrows(ShardCost(weight, s), m, most, t);
    }
  }

  /** One file a bin, and one bin where there is no file. */
  function Apart(rest: seq<string>): seq<seq<string>> {
    if rest == [] then [[]] else Singles(rest)
  }

  lemma FilesApart(rest: seq<string>)
    ensures Files(Apart(rest)) == multiset(rest)
  {
    if rest == [] {
      EmptyFiles<string>(1);
      var one: seq<seq<string>> := [[]];
      assert one == seq(1, _ => []);
    } else {
      FilesOfSingles(rest);
    }
  }

  lemma EachFitsItsBin(weight: Weights, rest: seq<string>, other: seq<seq<string>>, t: real, b: nat)
    requires Files(other) == multiset(rest) && t >= 0.0 && b < |Apart(rest)|
    requires forall c | 0 <= c < |other| :: ShardCost(weight, other[c]) <= t
    ensures ShardCost(weight, Apart(rest)[b]) <= t
  {
    if rest != [] {
      assert rest[b] in multiset(rest);
      var c, k := FilesIn(other, rest[b]);
      ShardCostWithout(weight, other[c], k);
      CostIsNonNegative(weight, other[c][..k] + other[c][k + 1..]);
      CostOfOne(weight, rest[b]);
    }
  }

  lemma CostOfOne(weight: Weights, file: string)
    ensures ShardCost(weight, [file]) == WeightOf(weight, file)
  {
    assert [file][..0] == [];
  }

  lemma {:induction false} CostIsNonNegative(weight: Weights, files: seq<string>)
    ensures ShardCost(weight, files) >= 0.0
  {
    if files != [] { CostIsNonNegative(weight, files[..|files| - 1]); }
  }

  /** The bins after the files `rest[..|place|]`: bin contents by slot, and the assignment they come from. */
  ghost predicate Packed(weight: Weights, rest: seq<string>, bins: seq<Bin>, content: seq<seq<string>>, place: Assignment) {
    && |place| <= |rest|
    && multiset(bins) == multiset(Slotted(content))
    && Files(content) == multiset(rest[..|place|])
    && Greedy(place, JobWeights(weight, rest), |content|)
    && forall b | 0 <= b < |content| :: ShardCost(weight, content[b]) == Load(place, JobWeights(weight, rest), b)
  }

  /** The packing loop: the bins are re-sorted before each file and the lightest takes it. */
  method PackLongestFirst(rest: seq<string>, weight: Weights, binCount: nat, ghost unsorted: seq<string>)
    returns (bins: seq<Bin>)
    requires binCount > 0 && multiset(rest) == multiset(unsorted)
    requires forall i, j | 0 <= i < j < |rest| :: WeightOf(weight, rest[i]) >= WeightOf(weight, rest[j])
    ensures |bins| == binCount
    ensures Files(Contents(bins)) == multiset(rest)
    ensures NearOptimal(weight, Contents(bins), unsorted, binCount)
  {
    ghost var place: Assignment := [];
    ghost var content := seq(binCount, _ => []);
    bins := seq(binCount, b requires 0 <= b < binCount => Bin(b, []));
    NothingPacked(weight, rest, bins, content);
    for j := 0 to |rest|
      invariant |content| == binCount && |place| == j
      invariant Packed(weight, rest, bins, content, place)
    {
      bins := LightestBinFirst(weight, bins);
      ghost var s := LightestFirst(weight, rest, bins, content, place);
      PlaceOne(weight, rest, bins, content, place, s);
      bins := bins[0 := Bin(bins[0].slot, bins[0].files + [rest[j]])];
      place, content := place + [s], content[s := content[s] + [rest[j]]];
    }
    AllPacked(weight, rest, unsorted, bins, content, place);
  }

  lemma NothingPacked(weight: Weights, rest: seq<string>, bins: seq<Bin>, content: seq<seq<string>>)
    requires content == seq(|bins|, _ => [])
    requires bins == seq(|bins|, b requires 0 <= b < |bins| => Bin(b, []))
    ensures Packed(weight, rest, bins, content, [])
  {
    assert bins == Slotted(content);
    EmptyFiles<string>(|bins|);
  }

  lemma AllPacked(weight: Weights, rest: seq<string>, unsorted: seq<string>, bins: seq<Bin>, content: seq<seq<string>>, place: Assignment)
    requires Packed(weight, rest, bins, content, place) && |place| == |rest| && |content| > 0
    requires multiset(rest) == multiset(unsorted)
    requires forall i, j | 0 <= i < j < |rest| :: WeightOf(weight, rest[i]) >= WeightOf(weight, rest[j])
    ensures |bins| == |content|
    ensures Files(Contents(bins)) == multiset(rest)
    ensures NearOptimal(weight, Contents(bins), unsorted, |content|)
  {
    assert rest[..|rest|] == rest;
    ContentsOfPermutation(bins, content);
    BulkIsNearOptimal(weight, rest, unsorted, place, content);
    forall b | b in Contents(bins) ensures b in content { var k := FindInPermutation(b, Contents(bins), content); }
  }

  lemma PlaceOne(weight: Weights, rest: seq<string>, bins: seq<Bin>, content: seq<seq<string>>, place: Assignment, s: nat)
    requires Packed(weight, rest, bins, content, place) && |place| < |rest|
    requires |bins| == |content| && s < |content| && bins[0] == Bin(s, content[s])
    requires Lightest(place, JobWeights(weight, rest), |content|, s)
    ensures var taken := content[s] + [rest[|place|]];
            Packed(weight, rest, bins[0 := Bin(s, taken)], content[s := taken], place + [s])
  {
    var taken := content[s] + [rest[|place|]];
    PlacedFiles(rest, content, |place|, s);
    PlacedGreedily(weight, rest, place, s, |content|);
    PlacedLoads(weight, rest, content, place, s);
    assert Slotted(content[s := taken]) == Slotted(content)[s := Bin(s, taken)];
    UpdatedAlike(bins, 0, Slotted(content), s, Bin(s, taken));
  }

  lemma UpdatedAlike<T>(a: seq<T>, i: nat, b: seq<T>, j: nat, x: T)
    requires i < |a| && j < |b| && multiset(a) == multiset(b) && a[i] == b[j]
    ensures multiset(a[i := x]) == multiset(b[j := x])
  {
  }

  lemma PlacedFiles(rest: seq<string>, content: seq<seq<string>>, j: nat, s: nat)
    requires j < |rest| && s < |content| && Files(content) == multiset(rest[..j])
    ensures Files(content[s := content[s] + [rest[j]]]) == multiset(rest[..j + 1])
  {
    FilesAfterUpdate(content, s, content[s] + [rest[j]]);
    assert rest[..j + 1] == rest[..j] + [rest[j]];
    Cancel(Files(content[s := content[s] + [rest[j]]]), multiset(rest[..j + 1]), multiset(content[s]));
  }

  lemma PlacedGreedily(weight: Weights, rest: seq<string>, place: Assignment, s: nat, m: nat)
    requires |place| < |rest| && Greedy(place, JobWeights(weight, rest), m) && Lightest(place, JobWeights(weight, rest), m, s)
    ensures Greedy(place + [s], JobWeights(weight, rest), m)
  {
    var place' := place + [s];
    forall i | 0 <= i < |place'| ensures Lightest(place'[..i], JobWeights(weight, rest), m, place'[i]) {
      if i < |place| {
        assert place'[..i] == place[..i];
      } else {
        assert place'[..i] == place;
      }
    }
  }

  lemma PlacedLoads(weight: Weights, rest: seq<string>, content: seq<seq<string>>, place: Assignment, s: nat)
    requires |place| < |rest| && s < |content|
    requires forall b | 0 <= b < |content| :: ShardCost(weight, content[b]) == Load(place, JobWeights(weight, rest), b)
    ensures var taken := content[s] + [rest[|place|]];
            forall b | 0 <= b < |content| ::
              ShardCost(weight, content[s := taken][b]) == Load(place + [s], JobWeights(weight, rest), b)
  {
    var taken := content[s] + [rest[|place|]];
    assert taken[..|taken| - 1] == content[s];
    assert (place + [s])[..|place|] == place;
  }

  lemma LightestFirst(weight: Weights, rest: seq<string>, bins: seq<Bin>, content: seq<seq<string>>, place: Assignment)
    returns (s: nat)
    requires Packed(weight, rest, bins, content, place) && |content| > 0
    requires forall i, j | 0 <= i < j < |bins| :: ShardCost(weight, bins[i].files) <= ShardCost(weight, bins[j].files)
    ensures |bins| == |content| && s < |content| && bins[0] == Bin(s, content[s])
    ensures Lightest(place, JobWeights(weight, rest), |content|, s)
  {
    var w := JobWeights(weight, rest);
    assert |bins| == |multiset(bins)| == |multiset(Slotted(content))| == |content|;
    s := FindInPermutation(bins[0], bins, Slotted(content));
    forall b | 0 <= b < |content| ensures Load(place, w, s) <= Load(place, w, b) {
      var k := FindInPermutation(Slotted(content)[b], Slotted(content), bins);
    }
  }

  lemma {:induction false} ContentsOfPermutation(bins: seq<Bin>, content: seq<seq<string>>)
    requires multiset(bins) == multiset(Slotted(content))
    ensures |bins| == |content| && multiset(Contents(bins)) == multiset(content)
    ensures Files(Contents(bins)) == Files(content)
  {
    assert |bins| == |multiset(bins)| == |multiset(Slotted(content))| == |content|;
    assert Contents(Slotted(content)) == content;
    ContentsPermuted(bins, Slotted(content));
    FilesOfPermutation(Contents(bins), content);
  }

  lemma {:induction false} ContentsPermuted(a: seq<Bin>, b: seq<Bin>)
    requires multiset(a) == multiset(b)
    ensures multiset(Contents(a)) == multiset(Contents(b))
    decreases |a|
  {
    assert |a| == |multiset(a)| == |multiset(b)| == |b|;
    if a != [] {
      var n := |a| - 1;
      var k := FindInPermutation(a[n], a, b);
      MultisetWithout(a, n);
      MultisetWithout(b, k);
      assert a[..n] + a[n + 1..] == a[..n];
      Cancel(multiset(a[..n]), multiset(b[..k] + b[k + 1..]), multiset{a[n]});
      ContentsPermuted(a[..n], b[..k] + b[k + 1..]);
      ContentsWithout(a, n);
      ContentsWithout(b, k);
    }
  }

  lemma ContentsWithout(a: seq<Bin>, k: nat)
    requires k < |a|
    ensures multiset(Contents(a)) == multiset(Contents(a[..k] + a[k + 1..])) + multiset{a[k].files}
  {
    MultisetWithout(Contents(a), k);
    assert Contents(a[..k] + a[k + 1..]) == Contents(a)[..k] + Contents(a)[k + 1..];
  }

  lemma BulkIsNearOptimal(weight: Weights, rest: seq<string>, unsorted: seq<string>, place: Assignment, content: seq<seq<string>>)
    requires |content| > 0 && |place| == |rest| && multiset(rest) == multiset(unsorted)
    requires forall i, j | 0 <= i < j < |rest| :: WeightOf(weight, rest[i]) >= WeightOf(weight, rest[j])
    requires Greedy(place, JobWeights(weight, rest), |content|)
    requires forall b | 0 <= b < |content| :: ShardCost(weight, content[b]) == Load(place, JobWeights(weight, rest), b)
    ensures NearOptimal(weight, content, unsorted, |content|)
  {
    var m, w := |content|, JobWeights(weight, rest);
    forall other: seq<seq<string>>, t: real, s: seq<string> |
      && 1 <= |other| <= m && Files(other) == multiset(unsorted)
      && (forall b | 0 <= b < |other| :: ShardCost(weight, other[b]) <= t)
      && s in content
      ensures FourThirds(ShardCost(weight, s), m, t)
    {
      var padded := WithEmptyBins(weight, other, m, t);
      var q := DistributionAsAssignment(weight, rest, padded);
      LoadGrows(q, w, 0, 0);
      LongestFirstBound(place, q, w, m, t);
      var b :| 0 <= b < m && content[b] == s;
      assert FourThirds(Load(place, w, b), m, t);
    }
  }

  lemma WithEmptyBins(weight: Weights, bins: seq<seq<string>>, m: nat, t: real) returns (padded: seq<seq<string>>)
    requires 1 <= |bins| <= m && forall b | 0 <= b < |bins| :: ShardCost(weight, bins[b]) <= t
    ensures |padded| == m && Files(padded) == Files(bins)
    ensures forall b | 0 <= b < m :: ShardCost(weight, padded[b]) <= t
  {
    var empty: seq<seq<string>> := seq(m - |bins|, _ => []);
    padded := bins + empty;
    FilesConcat(bins, empty);
    EmptyFiles<string>(|empty|);
    CostIsNonNegative(weight, bins[0]);
  }

  // ---- What a shard costs ----

  /** Costs add up over the files of a shard: the recorded weight of each that has one, and one for each other. */
  lemma {:induction false} CostsAddUp(weight: Weights, a: seq<string>, b: seq<string>)
    ensures ShardCost(weight, a + b) == ShardCost(weight, a) + ShardCost(weight, b)
    ensures forall f :: ShardCost(weight, [f]) == if f in weight then weight[f] else 1.0
  {
    forall f ensures ShardCost(weight, [f]) == if f in weight then weight[f] else 1.0 { CostOfOne(weight, f); }
    if b == [] {
      assert a + b == a;
    } else {
      var n := |b| - 1;
      CostsAddUp(weight, a, b[..n]);
      assert (a + b)[..|a + b| - 1] == a + b[..n];
    }
  }
}

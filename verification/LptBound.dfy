/** Longest-processing-time placement and its approximation bound.

    Jobs `0, 1, …` with weights `w` are placed one after another into `m` slots; an assignment is the
    sequence of slots its jobs went to, so a placement in progress is an assignment of a prefix of the
    jobs. The greedy placement and the best possible one are values of the same kind. */
module LptBound {

  type Assignment = seq<nat>

  ghost predicate Uses(p: Assignment, m: nat) {
    forall i | 0 <= i < |p| :: p[i] < m
  }

  /** The weight of slot `b` under `p`. */
  function Load(p: Assignment, w: seq<real>, b: nat): real
    requires |p| <= |w|
  {
    if p == [] then 0.0
    else
      var k := |p| - 1;
      Load(p[..k], w, b) + (if p[k] == b then w[k] else 0.0)
  }

  ghost predicate Positive(w: seq<real>) {
    forall i | 0 <= i < |w| :: w[i] > 0.0
  }

  ghost predicate Descending(w: seq<real>) {
    forall i, j | 0 <= i < j < |w| :: w[i] >= w[j]
  }

  ghost predicate Lightest(p: Assignment, w: seq<real>, m: nat, s: nat)
    requires |p| <= |w|
  {
    s < m && forall b | 0 <= b < m :: Load(p, w, s) <= Load(p, w, b)
  }

  /** Every job went to a slot that was lightest when it was placed. */
  ghost predicate Greedy(p: Assignment, w: seq<real>, m: nat)
    requires |p| <= |w|
  {
    forall j | 0 <= j < |p| :: Lightest(p[..j], w, m, p[j])
  }

  /** No slot of `p` is heavier than `t`. */
  ghost predicate Within(p: Assignment, w: seq<real>, m: nat, t: real)
    requires |p| <= |w|
  {
    Uses(p, m) && forall b | 0 <= b < m :: Load(p, w, b) <= t
  }

  // ---- Averages ----

  function SumLoads(p: Assignment, w: seq<real>, m: nat): real
    requires |p| <= |w|
  {
    if m == 0 then 0.0 else SumLoads(p, w, m - 1) + Load(p, w, m - 1)
  }

  lemma {:induction false} SumLoadsAddsJob(p: Assignment, w: seq<real>, m: nat)
    requires 0 < |p| <= |w|
    ensures SumLoads(p, w, m) == SumLoads(p[..|p| - 1], w, m) + if p[|p| - 1] < m then w[|p| - 1] else 0.0
  {
    if m > 0 { SumLoadsAddsJob(p, w, m - 1); }
  }

  /** The total over the slots does not depend on where the jobs went. */
  lemma {:induction false} SumLoadsAgree(p: Assignment, q: Assignment, w: seq<real>, m: nat)
    requires |p| == |q| <= |w| && Uses(p, m) && Uses(q, m)
    ensures SumLoads(p, w, m) == SumLoads(q, w, m)
  {
    if p == [] {
      assert p == q;
    } else {
      SumLoadsAddsJob(p, w, m);
      SumLoadsAddsJob(q, w, m);
      SumLoadsAgree(p[..|p| - 1], q[..|q| - 1], w, m);
    }
  }

  lemma {:induction false} SumLoadsAtLeast(p: Assignment, w: seq<real>, m: nat, l: real)
    requires |p| <= |w| && forall b | 0 <= b < m :: Load(p, w, b) >= l
    ensures SumLoads(p, w, m) >= m as real * l
  {
    if m > 0 { SumLoadsAtLeast(p, w, m - 1, l); }
  }

  lemma {:induction false} SumLoadsAtMost(p: Assignment, w: seq<real>, m: nat, t: real)
    requires |p| <= |w| && forall b | 0 <= b < m :: Load(p, w, b) <= t
    ensures SumLoads(p, w, m) <= m as real * t
  {
    if m > 0 { SumLoadsAtMost(p, w, m - 1, t); }
  }

  // ---- What a slot's weight says about the jobs in it ----

  lemma {:induction false} LoadGrows(p: Assignment, w: seq<real>, k: nat, b: nat)
    requires k <= |p| <= |w| && Positive(w)
    ensures 0.0 <= Load(p[..k], w, b) <= Load(p, w, b)
    decreases |p|
  {
    if k < |p| {
      LoadGrows(p[..|p| - 1], w, k, b);
      assert p[..|p| - 1][..k] == p[..k];
    } else {
      assert p[..k] == p;
      if p != [] {
        LoadGrows(p[..|p| - 1], w, 0, b);
      }
    }
  }

  lemma {:induction false} LoadHolds(p: Assignment, w: seq<real>, i: nat)
    requires i < |p| <= |w| && Positive(w)
    ensures Load(p, w, p[i]) >= w[i]
  {
    LoadGrows(p, w, i + 1, p[i]);
    LoadGrows(p, w, i, p[i]);
    assert p[..i + 1][..i] == p[..i];
  }

  lemma {:induction false} LoadHoldsTwo(p: Assignment, w: seq<real>, i: nat, j: nat)
    requires i < j < |p| <= |w| && Positive(w) && p[i] == p[j]
    ensures Load(p, w, p[i]) >= w[i] + w[j]
  {
    LoadHolds(p[..j], w, i);
    LoadGrows(p, w, j + 1, p[i]);
    assert p[..j + 1][..j] == p[..j];
  }

  lemma {:induction false} LoadHoldsThree(p: Assignment, w: seq<real>, i: nat, j: nat, k: nat)
    requires i < j < k < |p| <= |w| && Positive(w) && p[i] == p[j] == p[k]
    ensures Load(p, w, p[i]) >= w[i] + w[j] + w[k]
  {
    LoadHoldsTwo(p[..k], w, i, j);
    LoadGrows(p, w, k + 1, p[i]);
    assert p[..k + 1][..k] == p[..k];
  }

  lemma {:induction false} LoadOfEmptySlot(p: Assignment, w: seq<real>, b: nat)
    requires |p| <= |w| && forall i | 0 <= i < |p| :: p[i] != b
    ensures Load(p, w, b) == 0.0
  {
    if p != [] { LoadOfEmptySlot(p[..|p| - 1], w, b); }
  }

  lemma {:induction false} LoadOfLoneJob(p: Assignment, w: seq<real>, i: nat)
    requires i < |p| <= |w|
    requires forall j | 0 <= j < |p| && j != i :: p[j] != p[i]
    ensures Load(p, w, p[i]) == w[i]
    decreases |p|
  {
    var k := |p| - 1;
    if i < k {
      LoadOfLoneJob(p[..k], w, i);
    } else {
      LoadOfEmptySlot(p[..k], w, p[i]);
    }
  }

  // ---- Pigeonholes: `g` sends the jobs in `r` to the slots in `d` ----

  function Fibre(g: Assignment, r: set<nat>, b: nat): set<nat>
    requires forall i | i in r :: i < |g|
  {
    set i | i in r && g[i] == b
  }

  lemma {:induction false} AtMostTwoEach(g: Assignment, r: set<nat>, d: set<nat>)
    requires forall i | i in r :: i < |g| && g[i] in d
    requires forall i, j, k | i in r && j in r && k in r && i < j < k :: !(g[i] == g[j] == g[k])
    ensures |r| <= 2 * |d|
    decreases |d|
  {
    if d == {} {
      assert r == {};
    } else {
      var b :| b in d;
      var f := Fibre(g, r, b);
      AtMostTwoEach(g, r - f, d - {b});
      if |f| > 2 { var i, j, k := ThreeOf(f); }
      assert r == (r - f) + f;
      assert |r| == |r - f| + |f|;
    }
  }

  lemma ThreeOf(f: set<nat>) returns (i: nat, j: nat, k: nat)
    requires |f| > 2
    ensures i in f && j in f && k in f && i < j < k
  {
    var a :| a in f;
    assert |f - {a}| >= 2;
    var b :| b in f - {a};
    assert |f - {a} - {b}| >= 1;
    var c :| c in f - {a} - {b};
    i := if a < b then (if a < c then a else c) else if b < c then b else c;
    k := if a > b then (if a > c then a else c) else if b > c then b else c;
    j := a + b + c - i - k;
  }

  lemma {:induction false} AtLeastTwoEach(g: Assignment, r: set<nat>, d: set<nat>)
    requires forall i | i in r :: i < |g|
    requires forall b | b in d :: exists i, j :: i in r && j in r && i < j && g[i] == b && g[j] == b
    ensures |r| >= 2 * |d|
    decreases |d|
  {
    if d != {} {
      var b :| b in d;
      var i, j :| i in r && j in r && i < j && g[i] == b && g[j] == b;
      var r' := r - {i, j};
      forall c | c in d - {b}
        ensures exists i', j' :: i' in r' && j' in r' && i' < j' && g[i'] == c && g[j'] == c
      {
        var i', j' :| i' in r && j' in r && i' < j' && g[i'] == c && g[j'] == c;
        assert i' in r' && j' in r';
      }
      AtLeastTwoEach(g, r', d - {b});
      assert r == r' + {i, j};
    }
  }

  function Slots(g: Assignment, s: set<nat>): set<nat>
    requires forall i | i in s :: i < |g|
  {
    set i | i in s :: g[i]
  }

  lemma {:induction false} OneEach(g: Assignment, s: set<nat>)
    requires forall i | i in s :: i < |g|
    requires forall i, j | i in s && j in s && i != j :: g[i] != g[j]
    ensures |Slots(g, s)| == |s|
    decreases |s|
  {
    if s != {} {
      var i :| i in s;
      OneEach(g, s - {i});
      assert Slots(g, s) == Slots(g, s - {i}) + {g[i]};
    }
  }

  function Below(m: nat): (r: set<nat>)
    ensures |r| == m && forall b: nat :: b in r <==> b < m
  {
    if m == 0 then {} else Below(m - 1) + {m - 1 as nat}
  }

  // ---- A big job never overflows ----

  /** The jobs that share their slot with no other. */
  function Alone(p: Assignment): set<nat> {
    set i: nat | i < |p| && forall j | 0 <= j < |p| && j != i :: p[j] != p[i]
  }

  /** Jobs heavier than a third of `t` stay within `t`: were the lightest slot to overflow, every slot would
      hold one or two jobs, a job alone in its slot could share with no other under `q` either, and the jobs
      that remain would be one too many for the slots that remain. */
  lemma {:induction false} BigJobFits(p: Assignment, q: Assignment, w: seq<real>, m: nat, t: real, l: nat)
    requires |q| == |w| == |p| + 1 && m > 0
    requires Positive(w) && Descending(w) && 3.0 * w[|p|] > t
    requires Within(p, w, m, t) && Within(q, w, m, t)
    requires Lightest(p, w, m, l)
    ensures Load(p, w, l) + w[|p|] <= t
  {
    if Load(p, w, l) + w[|p|] > t {
      SharedJobsGreedy(p, q, w, m, t, l);
      SharedJobsElsewhere(p, q, w, m, t, l);
    }
  }

  lemma {:induction false} SharedJobsGreedy(p: Assignment, q: Assignment, w: seq<real>, m: nat, t: real, l: nat)
    requires |q| == |w| == |p| + 1 && Positive(w)
    requires Within(p, w, m, t) && Within(q, w, m, t)
    requires Lightest(p, w, m, l) && Load(p, w, l) + w[|p|] > t
    ensures |Below(|p|) - Alone(p)| >= 2 * (m - |Alone(p)|)
  {
    var s := Alone(p);
    var d := Below(m) - Slots(p, s);
    EveryOtherSlotHoldsTwo(p, q, w, m, t, l);
    AtLeastTwoEach(p, Below(|p|) - s, d);
    OneEach(p, s);
    SubsetSize(Slots(p, s), Below(m));
  }

  lemma {:induction false} SharedJobsElsewhere(p: Assignment, q: Assignment, w: seq<real>, m: nat, t: real, l: nat)
    requires |q| == |w| == |p| + 1 && Positive(w) && Descending(w) && 3.0 * w[|p|] > t
    requires Uses(p, m) && Within(q, w, m, t)
    requires Lightest(p, w, m, l) && Load(p, w, l) + w[|p|] > t
    ensures |Below(|p|) - Alone(p)| + 1 <= 2 * (m - |Alone(p)|)
  {
    var s := Alone(p);
    LoneJobsStayAlone(p, q, w, m, t, l);
    NoThreeTogether(q, w, m, t);
    OthersFitInPairs(q, Below(|p|) - s + {|p|}, s, m);
  }

  /** Jobs of which no three share a slot fit in pairs in the slots that lone jobs leave. */
  lemma OthersFitInPairs(q: Assignment, r: set<nat>, s: set<nat>, m: nat)
    requires r !! s && (forall i | i in r :: i < |q|) && (forall i | i in s :: i < |q|) && Uses(q, m)
    requires forall i, j | i in s && 0 <= j < |q| && j != i :: q[j] != q[i]
    requires forall i, j, k | 0 <= i < j < k < |q| :: !(q[i] == q[j] == q[k])
    ensures |r| <= 2 * (m - |s|)
  {
    var d := Below(m) - Slots(q, s);
    assert forall i, j | i in r && j in s :: i != j;
    AtMostTwoEach(q, r, d);
    OneEach(q, s);
    SubsetSize(Slots(q, s), Below(m));
  }

  lemma {:induction false} SubsetSize(a: set<nat>, b: set<nat>)
    requires a <= b
    ensures |b - a| == |b| - |a|
  {
    assert b == a + (b - a);
  }

  lemma {:induction false} EveryOtherSlotHoldsTwo(p: Assignment, q: Assignment, w: seq<real>, m: nat, t: real, l: nat)
    requires |q| == |w| == |p| + 1 && Positive(w)
    requires Within(p, w, m, t) && Within(q, w, m, t)
    requires Lightest(p, w, m, l)
    requires Load(p, w, l) + w[|p|] > t
    ensures forall b | b in Below(m) - Slots(p, Alone(p)) ::
              exists i, j :: i in Below(|p|) - Alone(p) && j in Below(|p|) - Alone(p) && i < j && p[i] == b && p[j] == b
  {
    LoadHolds(q, w, |p|);
    forall b | b in Below(m) - Slots(p, Alone(p))
      ensures exists i, j :: i in Below(|p|) - Alone(p) && j in Below(|p|) - Alone(p) && i < j && p[i] == b && p[j] == b
    {
      if forall i | 0 <= i < |p| :: p[i] != b {
        LoadOfEmptySlot(p, w, b);
        assert false;
      }
      var i :| 0 <= i < |p| && p[i] == b;
      assert i !in Alone(p);
      var j :| 0 <= j < |p| && j != i && p[j] == p[i];
      assert j !in Alone(p);
      var a, c := if i < j then i else j, if i < j then j else i;
      assert a in Below(|p|) - Alone(p) && c in Below(|p|) - Alone(p) && a < c && p[a] == b && p[c] == b;
    }
  }

  lemma {:induction false} LoneJobsStayAlone(p: Assignment, q: Assignment, w: seq<real>, m: nat, t: real, l: nat)
    requires |q| == |w| == |p| + 1 && Positive(w) && Descending(w)
    requires Uses(p, m) && Within(q, w, m, t)
    requires Lightest(p, w, m, l)
    requires Load(p, w, l) + w[|p|] > t
    ensures forall i, j | i in Alone(p) && 0 <= j < |q| && j != i :: q[j] != q[i]
  {
    forall i, j | i in Alone(p) && 0 <= j < |q| && j != i
      ensures q[j] != q[i]
    {
      LoadOfLoneJob(p, w, i);
      assert w[j] >= w[|p|];
      if q[j] == q[i] {
        if i < j { LoadHoldsTwo(q, w, i, j); } else { LoadHoldsTwo(q, w, j, i); }
      }
    }
  }

  lemma {:induction false} NoThreeTogether(q: Assignment, w: seq<real>, m: nat, t: real)
    requires 0 < |q| == |w| && Positive(w) && Descending(w) && 3.0 * w[|q| - 1] > t
    requires Within(q, w, m, t)
    ensures forall i, j, k | 0 <= i < j < k < |q| :: !(q[i] == q[j] == q[k])
  {
    forall i, j, k | 0 <= i < j < k < |q|
      ensures !(q[i] == q[j] == q[k])
    {
      assert w[i] >= w[|q| - 1] && w[j] >= w[|q| - 1] && w[k] >= w[|q| - 1];
      if q[i] == q[j] == q[k] {
        LoadHoldsThree(q, w, i, j, k);
      }
    }
  }

  // ---- The bound ----

  /** `load` is at most (4/3 − 1/(3m)) · t. */
  ghost predicate FourThirds(load: real, m: nat, t: real) {
    3.0 * m as real * load <= (4.0 * m as real - 1.0) * t
  }

  lemma {:induction false} SmallJobFits(m: real, l: real, x: real, t: real)
    requires m >= 1.0 && m * l + x <= m * t && 3.0 * x <= t
    ensures 3.0 * m * (l + x) <= (4.0 * m - 1.0) * t
  {
    assert (m - 1.0) * (3.0 * x) <= (m - 1.0) * t;
    calc {
      3.0 * m * (l + x);
      3.0 * (m * l + x) + (m - 1.0) * (3.0 * x);
    <=
      3.0 * (m * t) + (m - 1.0) * t;
      (4.0 * m - 1.0) * t;
    }
  }

  lemma {:induction false} WithinIsFourThirds(m: nat, load: real, t: real)
    requires m >= 1 && t >= 0.0 && load <= t
    ensures FourThirds(load, m, t)
  {
    var r := m as real;
    assert 3.0 * r * load <= 3.0 * r * t by { assert r * load <= r * t; }
    assert (r - 1.0) * t >= 0.0;
    assert (4.0 * r - 1.0) * t == 3.0 * r * t + (r - 1.0) * t;
  }

  /** The factor grows with the number of bins. */
  lemma FourThirdsGrows(load: real, m: nat, most: nat, t: real)
    requires 1 <= m <= most && t >= 0.0 && FourThirds(load, m, t)
    ensures FourThirds(load, most, t)
  {
    var slack, few, many := 4.0 * t - 3.0 * load, m as real, most as real;
    var grown := ProductGrows(few, many, slack, t);
    SlackIs(load, few, t);
    SlackIs(load, many, t);
    Chained(3.0 * few * load, (4.0 * few - 1.0) * t, few * slack, grown, 3.0 * many * load, (4.0 * many - 1.0) * t, t);
  }

  /** What a product comes to with a greater factor: no less, unless it was negative. */
  lemma ProductGrows(few: real, many: real, x: real, t: real) returns (grown: real)
    requires 1.0 <= few <= many && t >= 0.0
    ensures grown == many * x && (few * x >= t ==> few * x <= grown)
  {
    grown := many * x;
    if x < 0.0 { NegativeProduct(few, x); } else { GreaterProduct(few, many, x); }
  }

  lemma Chained(a: real, b: real, c: real, d: real, e: real, f: real, t: real)
    requires a <= b && b - a == c - t && (c >= t ==> c <= d) && f - e == d - t
    ensures e <= f
  {
  }

  lemma SlackIs(load: real, m: real, t: real)
    ensures (4.0 * m - 1.0) * t - 3.0 * m * load == m * (4.0 * t - 3.0 * load) - t
  {
    assert (4.0 * m - 1.0) * t == 4.0 * m * t - t;
    assert m * (4.0 * t - 3.0 * load) == m * (4.0 * t) - m * (3.0 * load);
    assert m * (4.0 * t) == 4.0 * m * t && m * (3.0 * load) == 3.0 * m * load;
  }

  lemma NegativeProduct(m: real, x: real)
    requires m >= 1.0 && x < 0.0
    ensures m * x < 0.0
  {
  }

  lemma GreaterProduct(a: real, b: real, x: real)
    requires a <= b && x >= 0.0
    ensures a * x <= b * x
  {
  }

  lemma {:induction false} WithinPrefix(q: Assignment, w: seq<real>, m: nat, t: real, k: nat)
    requires k <= |q| == |w| && Positive(w) && Within(q, w, m, t)
    ensures Within(q[..k], w[..k], m, t)
  {
    forall b | 0 <= b < m
      ensures Load(q[..k], w[..k], b) <= t
    {
      LoadGrows(q, w, k, b);
      LoadOnPrefix(q[..k], w, w[..k], b);
    }
  }

  lemma {:induction false} LoadOnPrefix(p: Assignment, w: seq<real>, v: seq<real>, b: nat)
    requires |p| <= |v| <= |w| && v <= w
    ensures Load(p, w, b) == Load(p, v, b)
  {
    if p != [] { LoadOnPrefix(p[..|p| - 1], w, v, b); }
  }

  /** All the jobs of a longest-first greedy placement fit within `t` as long as the last, and so the
      lightest, weighs more than a third of it. */
  lemma {:induction false} BigJobsFit(p: Assignment, q: Assignment, w: seq<real>, m: nat, t: real)
    requires |p| == |q| == |w| > 0 && m > 0 && t >= 0.0
    requires Positive(w) && Descending(w) && 3.0 * w[|w| - 1] > t
    requires Greedy(p, w, m) && Within(q, w, m, t)
    ensures Within(p, w, m, t)
  {
    var k := |p| - 1;
    var p', w' := p[..k], w[..k];
    assert Within(p', w, m, t) by {
      if k == 0 {
      } else {
        WithinPrefix(q, w, m, t, k);
        GreedyPrefix(p, w, m, k);
        BigJobsFit(p', q[..k], w', m, t);
        forall b | 0 <= b < m ensures Load(p', w, b) <= t { LoadOnPrefix(p', w, w', b); }
      }
    }
    BigJobFits(p', q, w, m, t, p[k]);
  }

  lemma {:induction false} GreedyPrefix(p: Assignment, w: seq<real>, m: nat, k: nat)
    requires k <= |p| == |w| && Greedy(p, w, m)
    ensures Greedy(p[..k], w[..k], m)
  {
    var v := w[..k];
    forall j | 0 <= j < k
      ensures Lightest(p[..k][..j], v, m, p[..k][j])
    {
      var before := p[..j];
      assert p[..k][..j] == before;
      forall b | 0 <= b < m ensures Load(before, w, b) == Load(before, v, b) { LoadOnPrefix(before, w, v, b); }
      assert Lightest(before, w, m, p[j]);
    }
  }

  /** Graham's bound: a longest-first greedy placement is within 4/3 − 1/(3m) of every other assignment
      of the same jobs to the same slots, hence of the best one. */
  lemma {:induction false} LongestFirstBound(p: Assignment, q: Assignment, w: seq<real>, m: nat, t: real)
    requires |p| == |q| == |w| && m > 0 && t >= 0.0
    requires Positive(w) && Descending(w) && Greedy(p, w, m) && Within(q, w, m, t)
    ensures forall b | 0 <= b < m :: FourThirds(Load(p, w, b), m, t)
  {
    if p == [] {
      forall b | 0 <= b < m ensures FourThirds(Load(p, w, b), m, t) { WithinIsFourThirds(m, 0.0, t); }
    } else if 3.0 * w[|w| - 1] > t {
      BigJobsFit(p, q, w, m, t);
      forall b | 0 <= b < m ensures FourThirds(Load(p, w, b), m, t) { WithinIsFourThirds(m, Load(p, w, b), t); }
    } else {
      var k := |p| - 1;
      var p', w' := p[..k], w[..k];
      WithinPrefix(q, w, m, t, k);
      GreedyPrefix(p, w, m, k);
      LongestFirstBound(p', q[..k], w', m, t);
      forall b | 0 <= b < m
        ensures FourThirds(Load(p, w, b), m, t)
      {
        LoadOnPrefix(p', w, w', b);
        assert FourThirds(Load(p', w', b), m, t);
        if b == p[k] { LastJobAverages(p, q, w, m, t); }
      }
    }
  }

  /** A job of at most a third of `t` lands on a slot no heavier than the average of the rest. */
  lemma {:induction false} LastJobAverages(p: Assignment, q: Assignment, w: seq<real>, m: nat, t: real)
    requires |p| == |q| == |w| > 0 && m > 0
    requires Greedy(p, w, m) && Within(q, w, m, t) && 3.0 * w[|w| - 1] <= t
    ensures FourThirds(Load(p, w, p[|p| - 1]), m, t)
  {
    var k := |p| - 1;
    var l := Load(p[..k], w, p[k]);
    assert m as real * l + w[k] <= m as real * t by {
      SumLoadsAtLeast(p[..k], w, m, l);
      SumLoadsAddsJob(p, w, m);
      SumLoadsAgree(p, q, w, m);
      SumLoadsAtMost(q, w, m, t);
    }
    SmallJobFits(m as real, l, w[k], t);
  }
}

/** The Event lane's tuning: its validation at construction, the backoff pairs the runtime then uses, and the
    delays they give. Times are whole milliseconds. */
module EventBackoff {
  import opened Options

  /** A number a caller may write down, and an object's field for one: left out, explicitly undefined, or set. */
  datatype Num = Ms(value: int) | NotFinite
  {
    predicate Exceeds(n: Num) {
      Ms? && n.Ms? && value > n.value
    }
  }

  datatype Field = Absent | Undefined | Given(num: Num)

  datatype BackoffOptions = BackoffOptions(baseMs: Field, ceilingMs: Field)

  /** A stream's entry: its overrides, or null or a value that is no object at all. */
  datatype StreamOptions = StreamOptions(batchSize: Field, backoff: BackoffOptions) | NotAnObject

  datatype LaneOptions = LaneOptions(
    batchSize: Field, intervalMs: Field, ackedRetentionMs: Field, backoff: BackoffOptions,
    streams: seq<(string, StreamOptions)>)

  const DEFAULT_EVENT_BACKOFF_BASE_MS := 1_000
  const DEFAULT_EVENT_BACKOFF_CEILING_MS := 300_000
  const DEFAULT_EVENT_BATCH_SIZE := 200
  const MAX_EVENTS_PER_BATCH := 1000

  /** A resolved pair of bounds. */
  datatype Pair = Pair(base: Num, ceiling: Num)

  const DEFAULTS := Pair(Ms(DEFAULT_EVENT_BACKOFF_BASE_MS), Ms(DEFAULT_EVENT_BACKOFF_CEILING_MS))

  // ---- Validation ----

  function Resolve(configured: Field, inherited: Num): Num {
    if configured.Given? then configured.num else inherited
  }

  function ResolvePair(b: BackoffOptions, inherited: Pair): Pair {
    Pair(Resolve(b.baseMs, inherited.base), Resolve(b.ceilingMs, inherited.ceiling))
  }

  predicate AtLeast(f: Field, minimum: int) {
    f.Given? ==> f.num.Ms? && f.num.value >= minimum
  }

  predicate Ordered(p: Pair) {
    !p.base.Exceeds(p.ceiling)
  }

  predicate BackoffOk(b: BackoffOptions, inherited: Pair) {
    AtLeast(b.baseMs, 0) && AtLeast(b.ceilingMs, 0) && Ordered(ResolvePair(b, inherited))
  }

  /** What validation accepts. */
  predicate Accepted(o: LaneOptions) {
    && AtLeast(o.batchSize, 1) && AtLeast(o.intervalMs, 1) && AtLeast(o.ackedRetentionMs, 0)
    && BackoffOk(o.backoff, DEFAULTS)
    && forall i | 0 <= i < |o.streams| :: StreamOk(o.streams[i].1, ResolvePair(o.backoff, DEFAULTS))
  }

  predicate StreamOk(s: StreamOptions, global: Pair) {
    s.StreamOptions? && AtLeast(s.batchSize, 1) && BackoffOk(s.backoff, global)
  }

  datatype Problem = BadNumber(path: string) | CeilingBelowBase(path: string) | NoObject(path: string)

  method RequireNumber(path: string, f: Field, minimum: int, problems: seq<Problem>) returns (r: seq<Problem>)
    ensures r == if AtLeast(f, minimum) then problems else problems + [BadNumber(path)]
  {
    r := problems;
    if f.Given? && (!f.num.Ms? || f.num.value < minimum) {
      r := r + [BadNumber(path)];
    }
  }

  method RequireBackoff(path: string, b: BackoffOptions, inherited: Pair, problems: seq<Problem>)
    returns (resolved: Pair, r: seq<Problem>)
    ensures resolved == ResolvePair(b, inherited)
    ensures BackoffOk(b, inherited) ==> r == problems
    ensures !BackoffOk(b, inherited) ==> |r| > |problems|
  {
    r := RequireNumber(path + ".baseMs", b.baseMs, 0, problems);
    r := RequireNumber(path + ".ceilingMs", b.ceilingMs, 0, r);
    resolved := Pair(Resolve(b.baseMs, inherited.base), Resolve(b.ceilingMs, inherited.ceiling));
    if resolved.base.Ms? && resolved.ceiling.Ms? && resolved.ceiling.value < resolved.base.value {
      r := r + [CeilingBelowBase(path)];
    }
  }

  /** Every offender is collected; construction fails unless there is none. */
  method ValidateEventLaneOptions(o: LaneOptions) returns (problems: seq<Problem>)
    ensures problems == [] <==> Accepted(o)
  {
    problems := RequireNumber("events.batchSize", o.batchSize, 1, []);
    problems := RequireNumber("events.intervalMs", o.intervalMs, 1, problems);
    problems := RequireNumber("events.ackedRetentionMs", o.ackedRetentionMs, 0, problems);
    var global;
    global, problems := RequireBackoff("events.backoff", o.backoff, DEFAULTS, problems);
    ghost var globalOk := problems == [];
    for i := 0 to |o.streams|
      invariant problems == [] <==>
        globalOk && forall j | 0 <= j < i :: StreamOk(o.streams[j].1, global)
    {
      var (stream, options) := o.streams[i];
      if options.NotAnObject? {
        problems := problems + [NoObject("events.streams." + stream)];
        continue;
      }
      problems := RequireNumber("events.streams." + stream + ".batchSize", options.batchSize, 1, problems);
      var pair;
      pair, problems := RequireBackoff("events.streams." + stream + ".backoff", options.backoff, global, problems);
    }
  }

  // ---- What the runtime uses ----

  /** Object spread: a field that is written down wins, even when it is written down as undefined. */
  function Spread(under: Field, over: Field): Field {
    if over.Absent? then under else over
  }

  function SpreadBackoff(under: BackoffOptions, over: BackoffOptions): BackoffOptions {
    BackoffOptions(Spread(under.baseMs, over.baseMs), Spread(under.ceilingMs, over.ceilingMs))
  }

  const NO_BACKOFF := BackoffOptions(Absent, Absent)

  /** The configured overrides of a stream; none for the batch-level backoff or an unconfigured stream. */
  function StreamBackoff(o: LaneOptions, stream: Option<string>): BackoffOptions {
    if stream.None? then NO_BACKOFF else Override(o.streams, stream.value)
  }

  function Override(streams: seq<(string, StreamOptions)>, stream: string): BackoffOptions {
    if streams == [] then NO_BACKOFF
    else if streams[0].0 == stream then if streams[0].1.StreamOptions? then streams[0].1.backoff else NO_BACKOFF
    else Override(streams[1..], stream)
  }

  /** `backoffFor` and the defaults `computeEventBackoffMs` fills in. */
  function RuntimePair(o: LaneOptions, stream: Option<string>): Pair {
    ResolvePair(SpreadBackoff(o.backoff, StreamBackoff(o, stream)), DEFAULTS)
  }

  /** The pair validation judged for a stream. */
  function ValidatedPair(o: LaneOptions, stream: Option<string>): Pair {
    ResolvePair(StreamBackoff(o, stream), ResolvePair(o.backoff, DEFAULTS))
  }

  lemma {:induction false} OverrideIsAccepted(streams: seq<(string, StreamOptions)>, stream: string, global: Pair)
    requires forall i | 0 <= i < |streams| :: StreamOk(streams[i].1, global)
    requires Ordered(global)
    ensures BackoffOk(Override(streams, stream), global)
  {
    if streams != [] && streams[0].0 != stream {
      OverrideIsAccepted(streams[1..], stream, global);
    }
  }

  /** An accepted configuration gives finite, non-negative bounds to every stream and to the batch level. */
  lemma RuntimeBoundsAreFinite(o: LaneOptions, stream: Option<string>)
    requires Accepted(o)
    ensures var p := RuntimePair(o, stream);
            p.base.Ms? && p.base.value >= 0 && p.ceiling.Ms? && p.ceiling.value >= 0
  {
    if stream.Some? { OverrideIsAccepted(o.streams, stream.value, ResolvePair(o.backoff, DEFAULTS)); }
  }

  /** An override written down as undefined hides the global bound from the runtime but not from validation. */
  predicate Hides(under: Field, over: Field) {
    over.Undefined? && under.Given?
  }

  /** The base of an accepted configuration's runtime pair is at most its ceiling, unless an explicitly
      undefined override makes the runtime fall back to a default that validation did not judge. */
  lemma RuntimePairIsOrdered(o: LaneOptions, stream: Option<string>)
    requires Accepted(o)
    ensures var s := StreamBackoff(o, stream);
            (Hides(o.backoff.baseMs, s.baseMs) || Hides(o.backoff.ceilingMs, s.ceilingMs) || Ordered(RuntimePair(o, stream)))
    ensures var s := StreamBackoff(o, stream);
            !Hides(o.backoff.baseMs, s.baseMs) && !Hides(o.backoff.ceilingMs, s.ceilingMs) ==>
              RuntimePair(o, stream) == ValidatedPair(o, stream)
  {
    if stream.Some? { OverrideIsAccepted(o.streams, stream.value, ResolvePair(o.backoff, DEFAULTS)); }
  }

  predicate Below(f: Field, bound: int) {
    f.Given? && f.num.Ms? && f.num.value < bound
  }

  predicate Above(f: Field, bound: int) {
    f.Given? && f.num.Ms? && f.num.value > bound
  }

  /** What is written down: a stream writes its base as undefined over a given global one, under a ceiling, its own
      or else the global one, below a second; or its ceiling so, over a base, its own or else the global one, above
      five minutes. */
  predicate Escapes(global: BackoffOptions, stream: BackoffOptions) {
    || (&& stream.baseMs.Undefined? && global.baseMs.Given?
        && (Below(stream.ceilingMs, 1_000) || (stream.ceilingMs.Absent? && Below(global.ceilingMs, 1_000))))
    || (&& stream.ceilingMs.Undefined? && global.ceilingMs.Given?
        && (Above(stream.baseMs, 300_000) || (stream.baseMs.Absent? && Above(global.baseMs, 300_000))))
  }

  /** The exact exception, as a test on the configuration as written. */
  lemma RuntimePairIsOrderedExactly(o: LaneOptions, stream: Option<string>)
    requires Accepted(o)
    ensures !Ordered(RuntimePair(o, stream)) <==> Escapes(o.backoff, StreamBackoff(o, stream))
  {
    RuntimeBoundsAreFinite(o, stream);
    RuntimePairIsOrdered(o, stream);
    if stream.Some? { OverrideIsAccepted(o.streams, stream.value, ResolvePair(o.backoff, DEFAULTS)); }
  }

  /** A configuration validation accepts and the runtime does not honour: global 5 and 10 ms, and a stream that
      writes its base down as undefined, which then runs on a base of 1000 ms. */
  lemma UndefinedOverrideEscapes()
    ensures exists o :: Accepted(o) && !Ordered(RuntimePair(o, Some("s")))
  {
    var o := LaneOptions(Absent, Absent, Absent, BackoffOptions(Given(Ms(5)), Given(Ms(10))),
                         [("s", StreamOptions(Absent, BackoffOptions(Undefined, Absent)))]);
    assert Accepted(o) && !Ordered(RuntimePair(o, Some("s")));
  }

  /** The batch-level pair is always ordered: nothing overrides the global tuning there. */
  lemma BatchPairIsOrdered(o: LaneOptions)
    requires Accepted(o)
    ensures Ordered(RuntimePair(o, None))
  {
    RuntimePairIsOrdered(o, None);
  }

  // ---- Delays ----

  function Pow2(n: nat): (p: nat)
    ensures p >= 1
  {
    if n == 0 then 1 else 2 * Pow2(n - 1)
  }

  function MinInt(a: int, b: int): int {
    if a < b then a else b
  }

  /** The doubling bound of attempt `n`: min(base · 2^(n − 1), ceiling). */
  function Bound(attempt: nat, base: nat, ceiling: nat): (b: nat) {
    MinInt(base * Pow2(if attempt == 0 then 0 else attempt - 1), ceiling)
  }

  /** A jitter draw: the fraction num / den in [0, 1). */
  datatype Jitter = Jitter(num: nat, den: nat)

  predicate JitterOk(j: Jitter) {
    j.num < j.den
  }

  /** `Math.round(bound / 2 + random() * (bound / 2))`, halves rounded up. */
  function ComputeEventBackoffMs(attempt: nat, base: nat, ceiling: nat, j: Jitter): (d: nat)
    requires JitterOk(j)
    ensures var b := Bound(attempt, base, ceiling);
            b <= 2 * d && d <= b && (b > 0 ==> d > 0)
  {
    var b := Bound(attempt, base, ceiling);
    var doubled := b * j.den + b * j.num;
    RoundBounds(b, j);
    (doubled + j.den) / (2 * j.den)
  }

  /** It is the nearest whole number to half the bound and the jitter's share of the other half. */
  lemma RoundsToNearest(attempt: nat, base: nat, ceiling: nat, j: Jitter)
    requires JitterOk(j)
    ensures var b, d := Bound(attempt, base, ceiling), ComputeEventBackoffMs(attempt, base, ceiling, j);
            b * (j.den + j.num) - j.den < 2 * j.den * d <= b * (j.den + j.num) + j.den
  {
    var b := Bound(attempt, base, ceiling);
    var x, m := b * j.den + b * j.num + j.den, 2 * j.den;
    DivBounds(x, m);
    assert b * (j.den + j.num) == b * j.den + b * j.num;
    assert (x / m + 1) * m == (x / m) * m + m;
    assert 2 * j.den * (x / m) == (x / m) * m;
  }

  /** The rounded mean of a bound and a fraction of it lies between half of it and all of it. */
  lemma RoundBounds(b: nat, j: Jitter)
    requires JitterOk(j)
    ensures var d := (b * j.den + b * j.num + j.den) / (2 * j.den);
            b <= 2 * d && d <= b
  {
    var x := b * j.den + b * j.num + j.den;
    var m := 2 * j.den;
    DivBounds(x, m);
    RoundedUp(b, j, x / m, x);
    RoundedDown(b, j, x / m, x);
  }

  lemma RoundedUp(b: nat, j: Jitter, d: nat, x: nat)
    requires JitterOk(j) && x == b * j.den + b * j.num + j.den && x < (d + 1) * (2 * j.den)
    ensures b <= 2 * d
  {
    assert (2 * d + 1) * j.den + j.den == (d + 1) * (2 * j.den);
    if b > 2 * d {
      MulMono(2 * d + 1, b, j.den);
    }
  }

  lemma RoundedDown(b: nat, j: Jitter, d: nat, x: nat)
    requires JitterOk(j) && x == b * j.den + b * j.num + j.den && d * (2 * j.den) <= x
    ensures d <= b
  {
    MulMono(j.num, j.den, b);
    assert (b + 1) * (2 * j.den) == b * j.den + b * j.den + 2 * j.den;
    if d > b {
      MulMono(b + 1, d, 2 * j.den);
    }
  }

  lemma DivBounds(x: nat, m: nat)
    requires m > 0
    ensures (x / m) * m <= x < (x / m + 1) * m
  {
    assert x == m * (x / m) + x % m;
    assert (x / m + 1) * m == (x / m) * m + m;
  }

  lemma {:induction false} MulMono(a: nat, b: nat, c: nat)
    requires a <= b
    ensures a * c <= b * c && c * a <= c * b
  {
    assert b * c == a * c + (b - a) * c;
  }

  /** The bound never falls from one attempt to the next. */
  lemma {:induction false} BoundIsMonotone(n: nat, k: nat, base: nat, ceiling: nat)
    requires n <= k
    ensures Bound(n, base, ceiling) <= Bound(k, base, ceiling)
    decreases k - n
  {
    if n < k {
      BoundIsMonotone(n, k - 1, base, ceiling);
      if k >= 2 {
        assert Pow2(k - 1) == 2 * Pow2(k - 2);
        MulMono(Pow2(k - 2), Pow2(k - 1), base);
      }
    }
  }

  lemma {:induction false} Pow2Exceeds(n: nat)
    ensures Pow2(n) > n
  {
    if n > 0 { Pow2Exceeds(n - 1); }
  }

  /** It starts at the base and doubles from attempt to attempt, up to the ceiling. */
  lemma BoundDoubles(attempt: nat, base: nat, ceiling: nat)
    requires attempt >= 1
    ensures Bound(1, base, ceiling) == if base < ceiling then base else ceiling
    ensures var doubled := 2 * Bound(attempt, base, ceiling);
            Bound(attempt + 1, base, ceiling) == if doubled < ceiling then doubled else ceiling
  {
    assert Pow2(0) == 1 && Pow2(attempt) == 2 * Pow2(attempt - 1);
    assert base * (2 * Pow2(attempt - 1)) == 2 * (base * Pow2(attempt - 1));
  }

  /** A positive base reaches the ceiling, at the latest after as many attempts as it has milliseconds. */
  lemma BoundReachesCeiling(base: nat, ceiling: nat, attempt: nat)
    requires base > 0 && attempt > ceiling
    ensures Bound(attempt, base, ceiling) == ceiling
  {
    Pow2Exceeds(attempt - 1);
    MulMono(1, base, Pow2(attempt - 1));
  }

  /** The batch size in force. */
  function BatchSize(o: LaneOptions): (n: nat)
    ensures 1 <= n <= 1000
    ensures !o.batchSize.Given? ==> n == 200
    ensures o.batchSize.Given? && o.batchSize.num.Ms? && n != o.batchSize.num.value ==>
              if o.batchSize.num.value < 1 then n == 1 else n == 1000 < o.batchSize.num.value
  {
    var asked := if o.batchSize.Given? && o.batchSize.num.Ms? then o.batchSize.num.value else DEFAULT_EVENT_BATCH_SIZE;
    if asked < MAX_EVENTS_PER_BATCH then (if asked < 1 then 1 else asked) else MAX_EVENTS_PER_BATCH
  }

  /** A base of zero gives no delay at all, whatever the attempt and the jitter. */
  lemma ZeroBaseGivesNoDelay(attempt: nat, ceiling: nat, j: Jitter)
    requires JitterOk(j)
    ensures ComputeEventBackoffMs(attempt, 0, ceiling, j) == 0
  {
    assert Bound(attempt, 0, ceiling) == 0;
  }
}

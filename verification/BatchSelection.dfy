/** Which rows ride a batch: the ranked selection of `readEligibleRows` and the scan of `assembleBatch`. */
module BatchSelection {
  import opened Outbox

  // ---- The query ----

  /** How many of `rows` belong to `stream`. */
  function CountOf(rows: seq<Row>, stream: string): nat {
    if rows == [] then 0
    else CountOf(rows[..|rows| - 1], stream) + if rows[|rows| - 1].stream == stream then 1 else 0
  }

  /** The configured per-stream caps; validation admits none below one. */
  type Caps = m: map<string, nat> | forall s | s in m :: m[s] >= 1 witness map[]

  /** `row_number() OVER (PARTITION BY stream ORDER BY seq)` of row `i`. */
  function RankOf(rows: seq<Row>, i: nat): nat
    requires i < |rows|
  {
    CountOf(rows[..i + 1], rows[i].stream)
  }

  predicate Rides(rows: seq<Row>, caps: Caps, i: nat)
    requires i < |rows|
  {
    rows[i].stream in caps ==> RankOf(rows, i) <= caps[rows[i].stream]
  }

  /** The eligible rows of an uncapped stream, or of a rank within their stream's cap, in order. */
  function WithinCaps(rows: seq<Row>, caps: Caps): seq<Row> {
    if rows == [] then []
    else
      var n := |rows| - 1;
      WithinCaps(rows[..n], caps) + if Rides(rows, caps, n) then [rows[n]] else []
  }

  function Limit(rows: seq<Row>, limit: nat): seq<Row> {
    if |rows| <= limit then rows else rows[..limit]
  }

  function EligibleRows(t: Table, nowUs: int): seq<Row> {
    Where(t, (r: Row) => Eligible(r, nowUs))
  }

  /** The whole query: rank, cap, order by `seq`, limit. */
  function SelectRows(t: Table, nowUs: int, caps: Caps, limit: nat): seq<Row> {
    Limit(WithinCaps(EligibleRows(t, nowUs), caps), limit)
  }

  /** Within caps the positions are those the ranks name, so `WithinCaps` is the filter it claims to be. */
  lemma {:induction false} WithinCapsIsFilter(rows: seq<Row>, caps: Caps, r: Row)
    ensures r in WithinCaps(rows, caps) <==> exists i :: 0 <= i < |rows| && rows[i] == r && Rides(rows, caps, i)
  {
    if rows != [] {
      var n := |rows| - 1;
      WithinCapsIsFilter(rows[..n], caps, r);
      forall i | 0 <= i < n ensures Rides(rows[..n], caps, i) <==> Rides(rows, caps, i) {
        assert rows[..n][..i + 1] == rows[..i + 1];
      }
      if i :| 0 <= i < n && rows[..n][i] == r && Rides(rows[..n], caps, i) {
        assert rows[i] == r && Rides(rows, caps, i);
      }
      if i :| 0 <= i < |rows| && rows[i] == r && Rides(rows, caps, i) {
        if i < n { assert rows[..n][i] == r && Rides(rows[..n], caps, i); }
      }
    }
  }

  // ---- The greedy scan it stands for ----

  /** Take each row in `seq` order while its stream has taken fewer than its cap and the batch has room. */
  function GreedyScan(rows: seq<Row>, caps: Caps, limit: nat): seq<Row> {
    if rows == [] then []
    else
      var n := |rows| - 1;
      var taken := GreedyScan(rows[..n], caps, limit);
      var s := rows[n].stream;
      if |taken| < limit && (s in caps ==> CountOf(taken, s) < caps[s]) then taken + [rows[n]] else taken
  }

  function Min(a: nat, b: nat): nat {
    if a < b then a else b
  }

  lemma {:induction false} CountWithinCaps(rows: seq<Row>, caps: Caps, s: string)
    ensures CountOf(WithinCaps(rows, caps), s) ==
            if s in caps then Min(caps[s], CountOf(rows, s)) else CountOf(rows, s)
  {
    if rows != [] {
      var n := |rows| - 1;
      CountWithinCaps(rows[..n], caps, s);
      var taken, before := CountOf(WithinCaps(rows[..n], caps), s), CountOf(rows[..n], s);
      CountLast(WithinCaps(rows[..n], caps), rows[n], s);
      LastRides(rows, caps);
      assert CountOf(rows, s) == before + if rows[n].stream == s then 1 else 0;
      assert CountOf(WithinCaps(rows, caps), s) == taken + if rows[n].stream == s && Rides(rows, caps, n) then 1 else 0;
    }
  }

  lemma LastRides(rows: seq<Row>, caps: Caps)
    requires rows != []
    ensures var n := |rows| - 1;
            && (Rides(rows, caps, n) <==> (rows[n].stream in caps ==> CountOf(rows[..n], rows[n].stream) < caps[rows[n].stream]))
            && WithinCaps(rows, caps) == if Rides(rows, caps, n) then WithinCaps(rows[..n], caps) + [rows[n]] else WithinCaps(rows[..n], caps)
  {
    var n := |rows| - 1;
    assert rows[..n + 1] == rows;
  }

  lemma CountLast(rows: seq<Row>, r: Row, s: string)
    ensures CountOf(rows + [r], s) == CountOf(rows, s) + if r.stream == s then 1 else 0
  {
    assert (rows + [r])[..|rows|] == rows;
  }

  /** The ranked query returns exactly what the greedy scan takes. */
  lemma {:induction false} RankedIsGreedy(rows: seq<Row>, caps: Caps, limit: nat)
    ensures Limit(WithinCaps(rows, caps), limit) == GreedyScan(rows, caps, limit)
  {
    if rows != [] {
      var n := |rows| - 1;
      RankedIsGreedy(rows[..n], caps, limit);
      CountWithinCaps(rows[..n], caps, rows[n].stream);
      LastRides(rows, caps);
    }
  }

  // ---- Fairness ----

  ghost function SumOfCaps(streams: set<string>, caps: Caps): nat
    requires streams <= caps.Keys
  {
    if streams == {} then 0
    else
      var s := Pick(streams);
      caps[s] + SumOfCaps(streams - {s}, caps)
  }

  ghost function Pick(s: set<string>): (x: string)
    requires s != {}
    ensures x in s
  {
    var x :| x in s; x
  }

  /** Rows whose streams are all among `streams`, no stream with more than its cap. */
  lemma {:induction false} SizeWithinSum(rows: seq<Row>, streams: set<string>, caps: Caps)
    requires streams <= caps.Keys
    requires forall r | r in rows :: r.stream in streams
    requires forall s | s in streams :: CountOf(rows, s) <= caps[s]
    ensures |rows| <= SumOfCaps(streams, caps)
    decreases |streams|
  {
    assert rows != [] ==> rows[0] in rows;
    if streams != {} {
      var s := Pick(streams);
      var others := Where(rows, (r: Row) => r.stream != s);
      CountWithout(rows, s);
      forall u | u in streams - {s} ensures CountOf(others, u) <= caps[u] { CountOther(rows, s, u); }
      SizeWithinSum(others, streams - {s}, caps);
    }
  }

  lemma {:induction false} CountWithout(rows: seq<Row>, s: string)
    ensures |rows| == |Where(rows, (r: Row) => r.stream != s)| + CountOf(rows, s)
  {
    if rows != [] { CountWithout(rows[..|rows| - 1], s); }
  }

  lemma {:induction false} CountOther(rows: seq<Row>, s: string, u: string)
    requires u != s
    ensures CountOf(Where(rows, (r: Row) => r.stream != s), u) == CountOf(rows, u)
  {
    if rows != [] {
      var n := |rows| - 1;
      CountOther(rows[..n], s, u);
      var others := Where(rows[..n], (r: Row) => r.stream != s);
      CountLast(others, rows[n], u);
      assert Where(rows, (r: Row) => r.stream != s) == if rows[n].stream != s then others + [rows[n]] else others;
    }
  }

  /** With every eligible stream capped and the caps summing to at most the batch size, every stream that has
      an eligible row has its first one in the slice. */
  lemma EveryStreamRides(rows: seq<Row>, caps: Caps, limit: nat, first: nat)
    requires forall r | r in rows :: r.stream in caps
    requires SumOfCaps(caps.Keys, caps) <= limit
    requires first < |rows| && CountOf(rows[..first], rows[first].stream) == 0
    ensures rows[first] in Limit(WithinCaps(rows, caps), limit)
  {
    var selected := WithinCaps(rows, caps);
    forall r | r in selected ensures r.stream in caps { WithinCapsIsFilter(rows, caps, r); }
    forall s | s in caps ensures CountOf(selected, s) <= caps[s] { CountWithinCaps(rows, caps, s); }
    SizeWithinSum(selected, caps.Keys, caps);
    assert rows[..first + 1][..first] == rows[..first];
    assert Rides(rows, caps, first);
    WithinCapsIsFilter(rows, caps, rows[first]);
  }
}

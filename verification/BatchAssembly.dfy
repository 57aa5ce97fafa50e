/** `assembleBatch`: the slice of the eligible rows that rides one request, and the bytes that request takes. */
module BatchAssembly {
  import opened Options
  import opened Outbox
  import opened BatchSelection

  const MAX_EVENT_REQUEST_BYTES := 4 * 1024 * 1024

  // ---- The request body (JSON, RFC 8259) ----

  /** A wire envelope; `payload` is the JSON text of the value the row holds. */
  datatype Envelope = Envelope(stream: string, eventId: EventId, occurredAtUs: string, payload: string)

  function Hex(n: nat): char
    requires n < 16
  {
    "0123456789abcdef"[n]
  }

  function Escape(c: char): string {
    if c == '"' then "\\\""
    else if c == '\\' then "\\\\"
    else if c == '\n' then "\\n"
    else if c == '\r' then "\\r"
    else if c == '\t' then "\\t"
    else if c as int == 8 then "\\b"
    else if c as int == 12 then "\\f"
    else if c as int < 32 then "\\u00" + [Hex(c as int / 16), Hex(c as int % 16)]
    else [c]
  }

  function Escaped(s: string): string {
    if s == [] then "" else Escape(s[0]) + Escaped(s[1..])
  }

  function Quoted(s: string): string {
    "\"" + Escaped(s) + "\""
  }

  // ---- A quoted text, read back (RFC 8259, section 7) ----

  function HexValue(c: char): int {
    if '0' <= c <= '9' then c as int - '0' as int else if 'a' <= c <= 'f' then 10 + (c as int - 'a' as int) else 0
  }

  lemma HexReadsBack(n: nat)
    requires n < 16
    ensures HexValue(Hex(n)) == n && Hex(n) != '-'
  {
  }

  function Unescape(c: char): char {
    if c == 'n' then '\n' else if c == 'r' then '\r' else if c == 't' then '\t'
    else if c == 'b' then 8 as char else if c == 'f' then 12 as char else c
  }

  /** The text up to the closing quote, and what follows that. */
  function ReadText(s: string): Option<(string, string)> {
    if s == [] || s[0] as int < 32 then None
    else if s[0] == '"' then Some(("", s[1..]))
    else if s[0] != '\\' then Prepend(s[0], ReadText(s[1..]))
    else if |s| < 2 then None
    else if s[1] != 'u' then Prepend(Unescape(s[1]), ReadText(s[2..]))
    else if |s| < 6 then None
    else Prepend((16 * HexValue(s[4]) + HexValue(s[5])) as char, ReadText(s[6..]))
  }

  function Prepend(c: char, read: Option<(string, string)>): Option<(string, string)> {
    if read.None? then None else Some(([c] + read.value.0, read.value.1))
  }

  /** A quoted text ends at its own quote and reads as what was written. */
  lemma {:induction false} QuotedReadsBack(s: string, rest: string)
    ensures Quoted(s)[0] == '"' && ReadText(Quoted(s)[1..] + rest) == Some((s, rest))
  {
    assert Quoted(s)[1..] == Escaped(s) + "\"";
    EscapedReadsBack(s, rest);
  }

  lemma {:induction false} EscapedReadsBack(s: string, rest: string)
    ensures ReadText(Escaped(s) + "\"" + rest) == Some((s, rest))
  {
    if s == [] {
      assert "" + "\"" + rest == "\"" + rest && ("\"" + rest)[1..] == rest;
    } else {
      EscapedReadsBack(s[1..], rest);
      EscapeReadsBack(s[0], Escaped(s[1..]) + "\"" + rest);
      assert Escaped(s) + "\"" + rest == Escape(s[0]) + (Escaped(s[1..]) + "\"" + rest);
      assert [s[0]] + s[1..] == s;
    }
  }

  lemma EscapeReadsBack(c: char, tail: string)
    ensures ReadText(Escape(c) + tail) == Prepend(c, ReadText(tail))
  {
    var s := Escape(c) + tail;
    if |Escape(c)| == 1 {
      assert s[1..] == tail;
    } else if |Escape(c)| == 2 {
      assert s[2..] == tail;
    } else {
      assert s[6..] == tail;
      HexReadsBack(c as int / 16);
      HexReadsBack(c as int % 16);
      assert s[4] == Hex(c as int / 16) && s[5] == Hex(c as int % 16);
    }
  }

  function Member(key: string, value: string, rest: string): string {
    key + Quoted(value) + rest
  }

  function EnvelopeJson(e: Envelope): (s: string)
    ensures s != ""
  {
    Member("{\"stream\":", e.stream,
      Member(",\"eventId\":", e.eventId,
        Member(",\"occurredAtUs\":", e.occurredAtUs, ",\"payload\":" + (e.payload + "}"))))
  }

  /** What follows `word`, where the text starts with it. */
  function Behind(s: string, word: string): Option<string> {
    if word <= s then Some(s[|word|..]) else None
  }

  /** What follows the key, read as a text. */
  function ReadMember(s: string, key: string): Option<(string, string)> {
    var rest := Behind(s, key + "\"");
    if rest.None? then None else ReadText(rest.value)
  }

  /** An envelope's members, in their order: three texts, and the payload up to its closing brace. */
  function ReadEnvelope(s: string): Option<Envelope> {
    var stream := ReadMember(s, "{\"stream\":");
    if stream.None? then None
    else
      var eventId := ReadMember(stream.value.1, ",\"eventId\":");
      if eventId.None? then None
      else
        var occurredAtUs := ReadMember(eventId.value.1, ",\"occurredAtUs\":");
        if occurredAtUs.None? then None
        else
          var payload := Behind(occurredAtUs.value.1, ",\"payload\":");
          if payload.None? || payload.value == "" then None
          else Some(Envelope(stream.value.0, eventId.value.0, occurredAtUs.value.0, payload.value[..|payload.value| - 1]))
  }

  lemma MemberReadsBack(key: string, value: string, rest: string)
    ensures ReadMember(Member(key, value, rest), key) == Some((value, rest))
  {
    var s := Member(key, value, rest);
    QuotedReadsBack(value, rest);
    assert s == key + "\"" + (Quoted(value)[1..] + rest) && s[|key + "\""|..] == Quoted(value)[1..] + rest;
  }

  /** An envelope is read back member by member. */
  lemma EnvelopeReadsBack(e: Envelope)
    ensures ReadEnvelope(EnvelopeJson(e)) == Some(e)
  {
    var payload := e.payload + "}";
    var last := ",\"payload\":" + payload;
    var third := Member(",\"occurredAtUs\":", e.occurredAtUs, last);
    MemberReadsBack("{\"stream\":", e.stream, Member(",\"eventId\":", e.eventId, third));
    MemberReadsBack(",\"eventId\":", e.eventId, third);
    MemberReadsBack(",\"occurredAtUs\":", e.occurredAtUs, last);
    StartsBehind(",\"payload\":", payload);
    assert payload[..|payload| - 1] == e.payload;
  }

  lemma StartsBehind(word: string, rest: string)
    ensures Behind(word + rest, word) == Some(rest)
  {
  }

  function Joined(es: seq<Envelope>): string {
    if es == [] then ""
    else if |es| == 1 then EnvelopeJson(es[0])
    else Joined(es[..|es| - 1]) + "," + EnvelopeJson(es[|es| - 1])
  }

  /** `JSON.stringify({ events })`. */
  function BodyJson(es: seq<Envelope>): string {
    "{\"events\":[" + Joined(es) + "]}"
  }

  // ---- UTF-8 lengths ----

  function CharBytes(c: char): (n: nat)
    ensures 1 <= n <= 4
  {
    var v := c as int;
    if v < 0x80 then 1 else if v < 0x800 then 2 else if v < 0x10000 then 3 else 4
  }

  /** The bytes of a code point in UTF-8 (RFC 3629, section 3): six bits in each byte but the first. */
  function Utf8(v: nat): seq<nat> {
    var rest := v / 0x40;
    if v < 0x80 then [v]
    else if v < 0x800 then [0xc0 + rest, 0x80 + v % 0x40]
    else if v < 0x10000 then [0xe0 + rest / 0x40, 0x80 + rest % 0x40, 0x80 + v % 0x40]
    else [0xf0 + rest / 0x40 / 0x40, 0x80 + rest / 0x40 % 0x40, 0x80 + rest % 0x40, 0x80 + v % 0x40]
  }

  function Lead(n: nat): int {
    if n == 2 then 0xc0 else if n == 3 then 0xe0 else if n == 4 then 0xf0 else 0
  }

  /** What bytes stand for: the first says how many there are. */
  function Decoded(bytes: seq<nat>): int {
    if bytes == [] then 0
    else if |bytes| == 1 then bytes[0]
    else Continued(bytes[0] - Lead(|bytes|), bytes[1..])
  }

  function Continued(v: int, bytes: seq<nat>): int
    decreases |bytes|
  {
    if bytes == [] then v else Continued(v * 0x40 + bytes[0] - 0x80, bytes[1..])
  }

  /** A character counts as many bytes as its encoding has, which decodes to it. */
  lemma BytesOfChar(c: char)
    ensures CharBytes(c) == |Utf8(c as int)| && Decoded(Utf8(c as int)) == c as int
  {
    var v := c as int;
    var rest := v / 0x40;
    assert v == rest * 0x40 + v % 0x40 && rest == rest / 0x40 * 0x40 + rest % 0x40;
    assert rest / 0x40 == rest / 0x40 / 0x40 * 0x40 + rest / 0x40 % 0x40;
    var bytes := Utf8(v);
    if |bytes| > 1 { assert Decoded(bytes) == Continued(bytes[0] - Lead(|bytes|), bytes[1..]); }
    if |bytes| == 2 {
      ContinuedOne(bytes[0] - 0xc0, bytes[1..]);
    } else if |bytes| == 3 {
      ContinuedOne(bytes[0] - 0xe0, bytes[1..]);
      ContinuedOne(rest, bytes[2..]);
    } else if |bytes| == 4 {
      ContinuedOne(bytes[0] - 0xf0, bytes[1..]);
      ContinuedOne(rest / 0x40, bytes[2..]);
      ContinuedOne(rest, bytes[3..]);
    }
  }

  lemma ContinuedOne(v: int, bytes: seq<nat>)
    requires bytes != []
    ensures Continued(v, bytes) == Continued(v * 0x40 + bytes[0] - 0x80, bytes[1..])
    ensures |bytes| == 1 ==> Continued(v, bytes) == v * 0x40 + bytes[0] - 0x80
  {
  }

  function ByteLength(s: string): (n: nat)
    ensures n >= |s|
  {
    if s == [] then 0 else ByteLength(s[..|s| - 1]) + CharBytes(s[|s| - 1])
  }

  lemma {:induction false} ByteLengthConcat(a: string, b: string)
    ensures ByteLength(a + b) == ByteLength(a) + ByteLength(b)
    decreases |b|
  {
    if b == [] {
      assert a + b == a;
    } else {
      ByteLengthConcat(a, b[..|b| - 1]);
      assert (a + b)[..|a + b| - 1] == a + b[..|b| - 1];
    }
  }

  // ---- The body's length, one envelope at a time ----

  /** The framing of a request body. */
  const EMPTY_BODY_BYTES := |"{\"events\":[]}"|

  lemma EmptyBodyBytes()
    ensures ByteLength(BodyJson([])) == EMPTY_BODY_BYTES
  {
    assert BodyJson([]) == "{\"events\":[" + "" + "]}" == "{\"events\":[]}";
    AsciiLength("{\"events\":[]}");
  }

  lemma {:induction false} AsciiLength(s: string)
    requires forall i | 0 <= i < |s| :: s[i] as int < 0x80
    ensures ByteLength(s) == |s|
  {
    if s != [] { AsciiLength(s[..|s| - 1]); }
  }

  /** Another envelope costs its own JSON and, unless it is the first, a comma. */
  lemma BodyGrowsBy(es: seq<Envelope>, e: Envelope)
    ensures ByteLength(BodyJson(es + [e])) ==
            ByteLength(BodyJson(es)) + ByteLength(EnvelopeJson(e)) + if es == [] then 0 else 1
  {
    BodyBytes(es);
    BodyBytes(es + [e]);
    JoinedGrowsBy(es, e);
  }

  lemma JoinedGrowsBy(es: seq<Envelope>, e: Envelope)
    ensures ByteLength(Joined(es + [e])) ==
            ByteLength(Joined(es)) + ByteLength(EnvelopeJson(e)) + if es == [] then 0 else 1
  {
    var json := EnvelopeJson(e);
    if es == [] {
      assert es + [e] == [e];
    } else {
      assert (es + [e])[..|es|] == es;
      assert Joined(es + [e]) == Joined(es) + "," + json;
      ByteLengthConcat(Joined(es), ",");
      ByteLengthConcat(Joined(es) + ",", json);
      AsciiLength(",");
    }
  }

  lemma BodyBytes(es: seq<Envelope>)
    ensures ByteLength(BodyJson(es)) == ByteLength("{\"events\":[") + ByteLength(Joined(es)) + ByteLength("]}")
  {
    ByteLengthConcat("{\"events\":[", Joined(es));
    ByteLengthConcat("{\"events\":[" + Joined(es), "]}");
  }

  // ---- Assembly ----

  function Decimal(n: int): string
    decreases if n < 0 then 1 - n else n
  {
    if n < 0 then "-" + Decimal(-n)
    else if n < 10 then [Hex(n)]
    else Decimal(n / 10) + [Hex(n % 10)]
  }

  function DigitsValue(s: string): int {
    if s == "" then 0 else 10 * DigitsValue(s[..|s| - 1]) + HexValue(s[|s| - 1])
  }

  function NumberValue(s: string): int {
    if s != "" && s[0] == '-' then -DigitsValue(s[1..]) else DigitsValue(s)
  }

  /** A number is spelled in decimal, and reads back. */
  lemma DecimalReadsBack(n: int)
    ensures NumberValue(Decimal(n)) == n
  {
    DigitsReadBack(if n < 0 then -n else n);
    if n < 0 { assert Decimal(n)[1..] == Decimal(-n); }
  }

  lemma LastDigit(s: string, c: char)
    ensures DigitsValue(s + [c]) == 10 * DigitsValue(s) + HexValue(c)
  {
    assert (s + [c])[..|s|] == s;
  }

  lemma {:induction false} DigitsReadBack(n: nat)
    ensures Decimal(n) != "" && Decimal(n)[0] != '-' && DigitsValue(Decimal(n)) == n
  {
    HexReadsBack(n % 10);
    if n < 10 {
      LastDigit("", Hex(n));
      assert "" + [Hex(n)] == [Hex(n)];
    } else {
      DigitsReadBack(n / 10);
      LastDigit(Decimal(n / 10), Hex(n % 10));
    }
  }

  function EnvelopeOf(r: Row): Envelope {
    Envelope(r.stream, r.eventId, Decimal(r.occurredAtUs), r.payload)
  }

  /** The envelope of a row tells its stream, its event, its time and its payload. */
  lemma EnvelopeTellsRow(r: Row)
    ensures var read := ReadEnvelope(EnvelopeJson(EnvelopeOf(r)));
            && read.Some? && read.value.stream == r.stream && read.value.eventId == r.eventId
            && NumberValue(read.value.occurredAtUs) == r.occurredAtUs && read.value.payload == r.payload
  {
    EnvelopeReadsBack(EnvelopeOf(r));
    DecimalReadsBack(r.occurredAtUs);
  }

  function Envelopes(rows: seq<Row>): (es: seq<Envelope>)
    ensures |es| == |rows| && forall i | 0 <= i < |es| :: es[i] == EnvelopeOf(rows[i])
  {
    seq(|rows|, i requires 0 <= i < |rows| => EnvelopeOf(rows[i]))
  }

  /** The bytes of a row's envelope: `byteLengthOf(JSON.stringify(envelope))`. */
  type RowBytes = Row -> nat

  function WireBytes(r: Row): nat {
    ByteLength(EnvelopeJson(EnvelopeOf(r)))
  }

  /** The running count over `rows`: the framing, every envelope, and a comma before each but the first. */
  function RequestBytes(rows: seq<Row>, bytes: RowBytes): nat {
    if rows == [] then EMPTY_BODY_BYTES
    else RequestBytes(rows[..|rows| - 1], bytes) + bytes(rows[|rows| - 1]) + if |rows| > 1 then 1 else 0
  }

  /** The running count is the exact length of the body that is sent. */
  lemma RequestBytesIsExact(rows: seq<Row>)
    ensures RequestBytes(rows, WireBytes) == ByteLength(BodyJson(Envelopes(rows)))
  {
    var size := (es: seq<Envelope>) => ByteLength(BodyJson(es));
    var one := (e: Envelope) => ByteLength(EnvelopeJson(e));
    forall es: seq<Envelope>, e | true
      ensures size(es + [e]) == size(es) + one(e) + if es == [] then 0 else 1
    {
      BodyGrowsBy(es, e);
    }
    EmptyBodyBytes();
    CountsUp(rows, WireBytes, size, one);
  }

  /** What grows by an envelope and a comma at a time is what the running count counts. */
  lemma {:induction false} CountsUp(rows: seq<Row>, bytes: RowBytes, size: seq<Envelope> -> nat, one: Envelope -> nat)
    requires size([]) == EMPTY_BODY_BYTES
    requires forall es, e :: size(es + [e]) == size(es) + one(e) + if es == [] then 0 else 1
    requires forall r :: bytes(r) == one(EnvelopeOf(r))
    ensures RequestBytes(rows, bytes) == size(Envelopes(rows))
  {
    if rows == [] {
      assert Envelopes(rows) == [];
    } else {
      var n := |rows| - 1;
      CountsUp(rows[..n], bytes, size, one);
      var es := Envelopes(rows[..n]);
      assert Envelopes(rows) == es + [EnvelopeOf(rows[n])];
      assert es == [] <==> n == 0;
    }
  }

  /** Rows the query may hand over: no more than the batch takes, no stream over its cap. */
  ghost predicate WithinQuery(rows: seq<Row>, caps: Caps, batchSize: nat) {
    |rows| <= batchSize && forall s | s in caps :: CountOf(rows, s) <= caps[s]
  }

  lemma {:induction false} CountPrefix(rows: seq<Row>, k: nat, s: string)
    requires k <= |rows|
    ensures CountOf(rows[..k], s) <= CountOf(rows, s)
    decreases |rows|
  {
    if k < |rows| {
      CountPrefix(rows[..|rows| - 1], k, s);
      assert rows[..|rows| - 1][..k] == rows[..k];
    } else {
      assert rows[..k] == rows;
    }
  }

  /** What is taken so far, counted in bytes and per stream. */
  ghost predicate Taken(batch: seq<Row>, perStreamCount: map<string, nat>, requestBytes: nat, bytes: RowBytes) {
    && requestBytes == RequestBytes(batch, bytes)
    && (|batch| >= 2 ==> requestBytes <= MAX_EVENT_REQUEST_BYTES)
    && forall s :: (if s in perStreamCount then perStreamCount[s] else 0) == CountOf(batch, s)
  }

  lemma TakeOne(batch: seq<Row>, perStreamCount: map<string, nat>, requestBytes: nat, bytes: RowBytes, row: Row)
    requires Taken(batch, perStreamCount, requestBytes, bytes)
    ensures var bytes' := requestBytes + bytes(row) + if |batch| > 0 then 1 else 0;
            && bytes' == RequestBytes(batch + [row], bytes)
            && (|batch| == 0 || bytes' <= MAX_EVENT_REQUEST_BYTES ==>
                  Taken(batch + [row], perStreamCount[row.stream := CountOf(batch, row.stream) + 1], bytes', bytes))
  {
    assert (batch + [row])[..|batch|] == batch;
    forall s ensures CountOf(batch + [row], s) == CountOf(batch, s) + if row.stream == s then 1 else 0 {
      CountLast(batch, row, s);
    }
  }

  /** The running byte count is kept exact; only a lone event may exceed the request cap; some row always
      rides. On rows from the query neither the batch size nor a stream's cap holds anything back: the batch is
      the longest run of them whose body keeps within the request cap. */
  method AssembleBatch(rows: seq<Row>, caps: Caps, batchSize: nat, bytes: RowBytes)
    returns (batch: seq<Row>, requestBytes: nat, clampedByBytes: bool)
    requires batchSize >= 1
    ensures forall r | r in batch :: r in rows
    ensures rows != [] ==> batch != []
    ensures requestBytes == RequestBytes(batch, bytes)
    ensures |batch| >= 2 ==> requestBytes <= 4_194_304
    ensures WithinQuery(rows, caps, batchSize) ==>
              && batch <= rows
              && (clampedByBytes <==> |batch| < |rows|)
              && (clampedByBytes ==> RequestBytes(rows[..|batch| + 1], bytes) > 4_194_304)
  {
    batch := [];
    var perStreamCount: map<string, nat> := map[];
    requestBytes := EMPTY_BODY_BYTES;
    clampedByBytes := false;
    var i := 0;
    while i < |rows|
      invariant 0 <= i <= |rows| && !clampedByBytes
      invariant forall r | r in batch :: r in rows
      invariant i > 0 ==> batch != []
      invariant Taken(batch, perStreamCount, requestBytes, bytes)
      invariant WithinQuery(rows, caps, batchSize) ==> batch == rows[..i]
    {
      if |batch| >= batchSize {
        break;
      }
      var row := rows[i];
      var taken := if row.stream in perStreamCount then perStreamCount[row.stream] else 0;
      assert rows[..i + 1] == rows[..i] + [row];
      NotHeldBack(rows, i, caps, batchSize);
      if row.stream in caps && taken >= caps[row.stream] {
        i := i + 1;
        continue;
      }
      var envelopeBytes := bytes(row) + if |batch| > 0 then 1 else 0;
      TakeOne(batch, perStreamCount, requestBytes, bytes, row);
      if |batch| > 0 && requestBytes + envelopeBytes > MAX_EVENT_REQUEST_BYTES {
        clampedByBytes := true;
        break;
      }
      requestBytes := requestBytes + envelopeBytes;
      perStreamCount := perStreamCount[row.stream := taken + 1];
      batch := batch + [row];
      i := i + 1;
    }
  }

  lemma NotHeldBack(rows: seq<Row>, i: nat, caps: Caps, batchSize: nat)
    requires i < |rows|
    ensures WithinQuery(rows, caps, batchSize) && rows[i].stream in caps ==>
              CountOf(rows[..i], rows[i].stream) < caps[rows[i].stream]
  {
    assert rows[..i + 1][..i] == rows[..i];
    CountPrefix(rows, i + 1, rows[i].stream);
  }

  /** The first slice of a pass, caps and all: every stream with an eligible row rides it when all streams are
      capped within the batch size, unless the byte cap cut the slice before its first row. */
  lemma EveryStreamRidesUnlessClamped(rows: seq<Row>, caps: Caps, limit: nat, batch: seq<Row>, first: nat)
    requires forall r | r in rows :: r.stream in caps
    requires SumOfCaps(caps.Keys, caps) <= limit
    requires first < |rows| && CountOf(rows[..first], rows[first].stream) == 0
    requires batch <= Limit(WithinCaps(rows, caps), limit)
    requires rows[first] !in batch
    ensures |batch| < |Limit(WithinCaps(rows, caps), limit)|
  {
    EveryStreamRides(rows, caps, limit, first);
  }

  /** What the query hands over is within what `AssembleBatch` expects, whatever rows of it were dropped. */
  lemma {:induction false} QueryIsWithin(rows: seq<Row>, caps: Caps, limit: nat, keep: Row -> bool)
    ensures WithinQuery(Where(Limit(WithinCaps(rows, caps), limit), keep), caps, limit)
  {
    var selected := WithinCaps(rows, caps);
    var limited := Limit(selected, limit);
    KeepsWithin(limited, keep);
    forall s | s in caps ensures CountOf(Where(limited, keep), s) <= caps[s] {
      CountWithinCaps(rows, caps, s);
      CountPrefix(selected, |limited|, s);
      assert selected[..|limited|] == limited;
      KeepsCount(limited, keep, s);
    }
  }

  lemma {:induction false} KeepsWithin(rows: seq<Row>, keep: Row -> bool)
    ensures |Where(rows, keep)| <= |rows|
  {
    if rows != [] { KeepsWithin(rows[..|rows| - 1], keep); }
  }

  lemma {:induction false} KeepsCount(rows: seq<Row>, keep: Row -> bool, s: string)
    ensures CountOf(Where(rows, keep), s) <= CountOf(rows, s)
  {
    if rows != [] {
      var n := |rows| - 1;
      KeepsCount(rows[..n], keep, s);
      var kept := Where(rows[..n], keep);
      CountLast(kept, rows[n], s);
      assert Where(rows, keep) == if keep(rows[n]) then kept + [rows[n]] else kept;
    }
  }
}

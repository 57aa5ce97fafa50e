/** The Outbox table of the Event lane and the statements the lane runs against it. The table is its rows in
    `seq` order, the order of its primary key. */
module Outbox {
  import opened Options

  type EventId = string

  datatype Row = Row(
    ordinal: nat,
    eventId: EventId,
    stream: string,
    occurredAtUs: int,
    payload: string,
    attemptCount: nat,
    nextRetryAtUs: Option<int>,
    lastReason: Option<string>,
    ackedAtUs: Option<int>)

  type Table = seq<Row>

  ghost predicate TableOk(t: Table) {
    forall i, j | 0 <= i < j < |t| :: t[i].ordinal < t[j].ordinal && t[i].eventId != t[j].eventId
  }

  function Ids(t: seq<Row>): set<EventId> {
    set r | r in t :: r.eventId
  }

  predicate Pending(r: Row) {
    r.ackedAtUs.None?
  }

  predicate Eligible(r: Row, nowUs: int) {
    Pending(r) && (r.nextRetryAtUs.None? || r.nextRetryAtUs.value <= nowUs)
  }

  predicate NoPending(t: Table) {
    forall r | r in t :: !Pending(r)
  }

  // ---- Statements ----

  function Where(t: Table, keep: Row -> bool): (t': Table)
    ensures forall r :: r in t' <==> r in t && keep(r)
    ensures TableOk(t) ==> TableOk(t')
  {
    if t == [] then []
    else
      var n := |t| - 1;
      assert t == t[..n] + [t[n]];
      var kept := Where(t[..n], keep);
      LastStaysLast(t, kept);
      kept + (if keep(t[n]) then [t[n]] else [])
  }

  lemma LastStaysLast(t: Table, kept: Table)
    requires t != [] && forall r | r in kept :: r in t[..|t| - 1]
    ensures TableOk(t) ==> TableOk(t[..|t| - 1])
    ensures TableOk(t) && TableOk(kept) ==> TableOk(kept + [t[|t| - 1]])
  {
    var n := |t| - 1;
    if TableOk(t) {
      forall i | 0 <= i < |kept| ensures kept[i].ordinal < t[n].ordinal && kept[i].eventId != t[n].eventId {
        assert kept[i] in kept;
        var k :| 0 <= k < n && t[..n][k] == kept[i];
        assert t[k] == kept[i];
      }
    }
  }

  /** An update that leaves ordinals and event ids alone. */
  function Update(t: Table, change: Row -> Row): (t': Table)
    requires forall r :: change(r).ordinal == r.ordinal && change(r).eventId == r.eventId
    ensures |t'| == |t| && forall i | 0 <= i < |t| :: t'[i] == change(t[i])
    ensures forall r :: r in t' <==> exists q :: q in t && r == change(q)
    ensures Ids(t') == Ids(t)
    ensures TableOk(t) ==> TableOk(t')
  {
    var t' := seq(|t|, i requires 0 <= i < |t| => change(t[i]));
    UpdateRows(t, change, t');
    t'
  }

  lemma UpdateRows(t: Table, change: Row -> Row, t': Table)
    requires forall r :: change(r).ordinal == r.ordinal && change(r).eventId == r.eventId
    requires |t'| == |t| && forall i | 0 <= i < |t| :: t'[i] == change(t[i])
    ensures forall r :: r in t' <==> exists q :: q in t && r == change(q)
    ensures Ids(t') == Ids(t)
  {
    forall q | q in t ensures change(q) in t' {
      var i :| 0 <= i < |t| && t[i] == q;
      assert t'[i] == change(q);
    }
    forall r | r in t' ensures exists q :: q in t && r == change(q) {
      var i :| 0 <= i < |t'| && t'[i] == r;
      assert t[i] in t;
    }
    forall e ensures e in Ids(t') <==> e in Ids(t) {
      if e in Ids(t) {
        var q :| q in t && q.eventId == e;
        assert change(q) in t' && change(q).eventId == e;
      }
    }
  }

  /** DELETE … WHERE event_id IN ids. */
  function DeleteIds(t: Table, ids: set<EventId>): Table {
    Where(t, (r: Row) => r.eventId !in ids)
  }

  /** UPDATE … SET acked_at_us WHERE event_id IN ids. */
  function StampIds(t: Table, ids: set<EventId>, nowUs: int): Table {
    Update(t, (r: Row) => if r.eventId in ids then r.(ackedAtUs := Some(nowUs)) else r)
  }

  /** UPDATE … SET attempt_count, next_retry_at_us, last_reason WHERE event_id = id. */
  function DeferId(t: Table, id: EventId, attempt: nat, retryAtUs: int, reason: Option<string>): Table {
    Update(t, (r: Row) => if r.eventId == id
                   then r.(attemptCount := attempt, nextRetryAtUs := Some(retryAtUs), lastReason := reason) else r)
  }

  /** DELETE … WHERE acked_at_us <= cutoff; a NULL is never at most anything. */
  function SweepAcked(t: Table, cutoffUs: int): Table {
    Where(t, (r: Row) => !(r.ackedAtUs.Some? && r.ackedAtUs.value <= cutoffUs))
  }
}

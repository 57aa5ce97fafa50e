/** The states of a mutation-journal row, and the transitions that are legal between them. */
module MutationState {
  import opened Options

  datatype Status = Pending | Sending | Acked | Failed | Quarantined | Conflicted | Rejected

  function MutationTransitions(from_: Status): set<Status> {
    match from_
    case Pending => {Sending, Quarantined}
    case Sending => {Acked, Failed, Quarantined, Conflicted, Rejected, Pending}
    case Failed => {Pending, Quarantined}
    case _ => {}
  }

  predicate IsValidMutationTransition(from_: Status, to: Status) {
    to in MutationTransitions(from_)
  }

  predicate Terminal(s: Status) {
    MutationTransitions(s) == {}
  }

  /** What still needs the server or the user before the store may be rebuilt. */
  predicate Owed(s: Status) {
    s.Pending? || s.Sending? || s.Failed? || s.Quarantined?
  }

  const TRANSIENT_CLIENT_ERROR_STATUSES: set<int> := {401, 403, 408, 425, 429}

  /** A structural client error is given up; no status, a server error or a transient client error is tried again. */
  function ClassifyFailureStatus(httpStatus: Option<int>): (s: Status)
    ensures IsValidMutationTransition(Sending, s)
    ensures Terminal(s) <==> httpStatus.Some? && 400 <= httpStatus.value <= 499 && httpStatus.value !in {401, 403, 408, 425, 429}
    ensures !Terminal(s) ==> IsValidMutationTransition(s, Pending)
  {
    match httpStatus
    case None => Failed
    case Some(code) =>
      if code >= 400 && code < 500 && code !in TRANSIENT_CLIENT_ERROR_STATUSES then Quarantined else Failed
  }

  /** A row's history under the table. */
  ghost predicate History(h: seq<Status>) {
    h != [] && h[0] == Pending && forall i | 0 < i < |h| :: IsValidMutationTransition(h[i - 1], h[i])
  }

  /** Whatever a row went through, the server was asked before it answered: a row that is acked, conflicted,
      rejected or failed has been `sending`, and only a claim from `pending` puts it there. */
  lemma {:induction false} AnswersFollowSending(h: seq<Status>)
    requires History(h) && !h[|h| - 1].Pending? && !h[|h| - 1].Quarantined?
    ensures exists i :: 0 < i < |h| && h[i] == Sending && h[i - 1] == Pending
    decreases |h|
  {
    var n := |h| - 1;
    assert IsValidMutationTransition(h[n - 1], h[n]);
    if !(h[n] == Sending && h[n - 1] == Pending) {
      AnswersFollowSending(h[..n]);
      var i :| 0 < i < |h[..n]| && h[..n][i] == Sending && h[..n][i - 1] == Pending;
      assert h[i] == Sending && h[i - 1] == Pending;
    }
  }

  /** A terminal row stays as it is. */
  lemma TerminalEndsHistory(h: seq<Status>, i: nat)
    requires History(h) && i < |h| && Terminal(h[i])
    ensures i == |h| - 1
  {
    var j := i + 1;
    assert j < |h| ==> IsValidMutationTransition(h[j - 1], h[j]);
  }
}

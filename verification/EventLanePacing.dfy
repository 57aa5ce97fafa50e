/** What the theorems on runs say of a lane in use: its steps since it was made are a run from a state in order. */
module EventLanePacing {
  import opened Options
  import opened Outbox
  import opened EventBackoff
  import opened EventLaneRuntime
  import opened EventLaneSafety
  import P = EventLaneProtocol

  lemma {:induction false} SameBounds(run: seq<P.State>, steps: seq<P.Step>, m: nat, n: nat)
    requires P.TakesSteps(run, steps) && m <= n < |run| && forall k | m <= k < n :: !steps[k].Crash?
    ensures run[m].batchBounds == run[n].batchBounds
    decreases n
  {
    if m < n {
      SameBounds(run, steps, m, n - 1);
      StepOf(run, steps, n - 1);
    }
  }

  /** After a failed batch, the lane's next request waits for half the doubling bound of the attempt, min(base · 2^(n − 1), ceiling)
      of its batch-level bounds, and for as long as the server asked. */
  lemma NextRequestWaits(lane: EventLane, m: nat, n: nat) returns (run: seq<P.State>)
    requires lane.Valid() && P.Inv(lane.origin)
    requires m < n < |lane.trace| && lane.trace[m].PostFails? && Posts(lane.trace[n])
    requires forall k | m <= k < |lane.trace| :: !lane.trace[k].Crash?
    ensures P.IsSegment(run, lane.trace) && run[0] == lane.origin && run[|lane.trace|] == lane.st
    ensures 2 * (run[n].now - run[m].now) >= Bound(run[m].batchAttempt + 1, lane.bounds(None).0, lane.bounds(None).1)
    ensures lane.trace[m].retryAfterMs.Some? ==> run[n].now - run[m].now >= lane.trace[m].retryAfterMs.value
  {
    run := LeadsIsSegment(lane.origin, lane.trace, lane.st);
    BackoffIsRespected(run, lane.trace, m, n);
    SameBounds(run, lane.trace, m, |lane.trace|);
  }
}

/** Waiting for a deployment in scripts/dokploy_redeploy.py: which deployment counts, and when a wait ends. */
module Waiting {
  import opened Prelude

  datatype Status = Done | Failed | Running | OtherStatus

  /** `title`: the first line of the deployment's title without the blanks around it. */
  datatype Deployment = Deployment(id: string, status: Status, title: string, created: Option<int>)

  // ---- the latest deployment

  predicate Timed(d: Deployment) {
    d.created.Some?
  }

  /** The first of the newest among `best` and the deployments that follow it. */
  function Newest(ds: seq<Deployment>, best: Deployment): (r: Deployment)
    requires best.created.Some?
    requires forall i :: 0 <= i < |ds| ==> ds[i].created.Some?
    ensures Timed(r) && (r == best || r in ds)
    ensures best.created.value <= r.created.value
    ensures forall i :: 0 <= i < |ds| ==> ds[i].created.value <= r.created.value
    ensures r.created.value == best.created.value ==> r == best
  {
    if ds == [] then best
    else
      var r := Newest(ds[1..], if ds[0].created.value > best.created.value then ds[0] else best);
      assert forall i :: 0 < i < |ds| ==> ds[i] == ds[1..][i - 1];
      r
  }

  /** The newest deployment with a timestamp; without any timestamp, the last of the list. */
  function LatestDeployment(ds: seq<Deployment>): (r: Option<Deployment>)
    ensures ds == [] <==> r.None?
    ensures r.Some? ==> r.value in ds
    ensures forall d :: d in ds && Timed(d) ==> Timed(r.value) && d.created.value <= r.value.created.value
    ensures ds != [] && !Timed(r.value) ==> r == Some(ds[|ds| - 1])
  {
    var timed := Filter((d: Deployment) => Timed(d), ds);
    if ds == [] then None
    else if timed == [] then
      assert forall d :: d in ds && Timed(d) ==> d in timed;
      Some(ds[|ds| - 1])
    else
      assert forall i :: 0 <= i < |timed| ==> timed[i] in timed;
      assert forall d :: d in timed ==> d == timed[0] || d in timed[1..];
      Some(Newest(timed[1..], timed[0]))
  }

  // ---- one tick of a wait

  datatype WaitOutcome = Continues | ReachedDone | ReachedError | TimedOut

  predicate IsNew(baseline: Option<Deployment>, current: Option<Deployment>) {
    && current.Some?
    && (|| baseline.None?
        || current.value.id != baseline.value.id
        || (Timed(current.value) && Timed(baseline.value)
           && current.value.created.value > baseline.value.created.value))
  }

  function EvaluateWaitState(baseline: Option<Deployment>, current: Option<Deployment>, elapsed: real,
      timeout: real): WaitOutcome {
    if IsNew(baseline, current) && current.value.status.Done? then ReachedDone
    else if IsNew(baseline, current) && current.value.status.Failed? then ReachedError
    else if elapsed >= timeout then TimedOut
    else Continues
  }

  // ---- the wait loop

  /** The clock at each reading of it, and the deployments at each poll; the last poll needed is `bound`. */
  datatype Ticks = Ticks(clock: nat -> real, polls: nat -> seq<Deployment>, bound: nat)
  {
    /** Time passes: at some poll the timeout is over. */
    predicate Ends(timeout: real) {
      clock(bound + 1) - clock(0) >= timeout
    }
    function At(k: nat): Option<Deployment> {
      LatestDeployment(polls(k))
    }
    function OutcomeAt(k: nat, baseline: Option<Deployment>, timeout: real): WaitOutcome {
      EvaluateWaitState(baseline, At(k), clock(k + 1) - clock(0), timeout)
    }
  }

  datatype WaitResult = WaitResult(outcome: WaitOutcome, deployment: Option<Deployment>)

  /** The wait ended at poll `k`, the first one that was conclusive. */
  ghost predicate EndsAt(t: Ticks, baseline: Option<Deployment>, timeout: real, k: nat, r: WaitResult) {
    && r == WaitResult(t.OutcomeAt(k, baseline, timeout), t.At(k)) && !r.outcome.Continues?
    && forall i: nat :: i < k ==> t.OutcomeAt(i, baseline, timeout).Continues?
  }

  /** What a wait came to. */
  ghost predicate IsWait(t: Ticks, baseline: Option<Deployment>, timeout: real, r: WaitResult) {
    exists k: nat :: k <= t.bound && EndsAt(t, baseline, timeout, k, r)
  }

  method WaitForService(t: Ticks, baseline: Option<Deployment>, timeout: real) returns (r: WaitResult)
    requires t.Ends(timeout)
    ensures IsWait(t, baseline, timeout, r)
  {
    var start := t.clock(0);
    var tick := 0;
    while true
      invariant tick <= t.bound
      invariant forall i: nat :: i < tick ==> t.OutcomeAt(i, baseline, timeout).Continues?
      decreases t.bound - tick
    {
      var current := LatestDeployment(t.polls(tick));
      var elapsed := t.clock(tick + 1) - start;
      var outcome := EvaluateWaitState(baseline, current, elapsed, timeout);
      if !outcome.Continues? {
        assert EndsAt(t, baseline, timeout, tick, WaitResult(outcome, current));
        return WaitResult(outcome, current);
      }
      tick := tick + 1;
    }
  }

  /**
   A wait is done exactly when, before the first failure and no later than the first poll at which the
   time is over, another deployment than the baseline, or a later one under its id, was seen done. Without a
   baseline any deployment counts.
   */
  lemma {:induction false} DoneMeansAnotherDeployment(t: Ticks, baseline: Option<Deployment>, timeout: real,
      r: WaitResult)
    requires IsWait(t, baseline, timeout, r)
    ensures r.outcome.ReachedDone? <==> exists k: nat :: DoneAt(t, baseline, timeout, k)
    ensures r.outcome.ReachedDone? ==> IsNew(baseline, r.deployment) && r.deployment.value.status.Done?
    ensures r.outcome.TimedOut? ==> forall k: nat :: !DoneAt(t, baseline, timeout, k)
  {
    var k: nat :| k <= t.bound && EndsAt(t, baseline, timeout, k, r);
    forall i: nat | DoneAt(t, baseline, timeout, i)
      ensures i == k && r.outcome.ReachedDone?
    {
      assert i < k ==> t.OutcomeAt(i, baseline, timeout).Continues?;
      assert k < i ==> !t.OutcomeAt(k, baseline, timeout).Continues?;
    }
    if r.outcome.ReachedDone? {
      forall i: nat | i < k
        ensures t.OutcomeAt(i, baseline, timeout).Continues?
      {
      }
      assert DoneAt(t, baseline, timeout, k);
    }
  }

  ghost predicate DoneAt(t: Ticks, baseline: Option<Deployment>, timeout: real, k: nat) {
    && IsNew(baseline, t.At(k)) && t.At(k).value.status.Done?
    && forall i: nat :: i < k ==> t.OutcomeAt(i, baseline, timeout).Continues?
  }

  // ---- the wait for the served commit

  /** The clock at each reading, and the commit `/health` reports at each probe (None when it does not). */
  datatype Probes = Probes(clock: nat -> real, served: nat -> Option<string>, bound: nat)
  {
    predicate Ends(timeout: real) {
      clock(bound + 1) >= clock(0) + timeout
    }
    /** The deadline has not passed after any probe before `k`. */
    ghost predicate InTime(timeout: real, k: nat) {
      forall i: nat {:trigger clock(i + 1)} :: i < k ==> clock(i + 1) < clock(0) + timeout
    }
  }

  /** The commit was served at some probe made in time. */
  ghost predicate Served(p: Probes, expected: string, timeout: real) {
    exists k: nat :: p.InTime(timeout, k) && p.served(k) == Some(expected)
  }

  /** True exactly when a probe made in time saw the expected commit; a probe is made even with no time left. */
  method WaitForSha(p: Probes, expected: string, timeout: real) returns (seen: bool)
    requires p.Ends(timeout)
    ensures seen <==> Served(p, expected, timeout)
  {
    var deadline := p.clock(0) + timeout;
    var probe := 0;
    while true
      invariant probe <= p.bound && p.InTime(timeout, probe)
      invariant forall i: nat :: i < probe ==> p.served(i) != Some(expected)
      decreases p.bound - probe
    {
      if p.served(probe) == Some(expected) {
        return true;
      }
      if deadline - p.clock(probe + 1) <= 0.0 {
        assert forall k: nat :: k > probe ==> !p.InTime(timeout, k);
        return false;
      }
      assert forall i: nat {:trigger p.clock(i + 1)} :: i < probe + 1 ==> i < probe || i == probe;
      probe := probe + 1;
    }
  }

  // ---- whether the Hub needs a deployment

  datatype Action = Trigger | Join | Skip

  const INFLIGHT_MAX_AGE: int := 1200

  predicate InFlight(d: Option<Deployment>, now: int) {
    d.Some? && d.value.status.Running? && Timed(d.value) && 0 <= now - d.value.created.value <= INFLIGHT_MAX_AGE
  }

  function PlanDarkhub(force: bool, baseline: Option<Deployment>, now: int, deployed: Option<string>,
      rebuild: bool): Action {
    if force then Trigger
    else if InFlight(baseline, now) then Join
    else if deployed.None? then Trigger
    else if rebuild then Trigger
    else Skip
  }
}

/**
 The delivery of one worktree in run_ticket.py: sync, gate, documentation, review, publication, and one
 repair of a red CI. Everything outside the pipeline is a `World` that may answer anything at every
 moment; the moment is the length of the trace.
 */
module Delivery {
  import opened Prelude
  import opened DeliveryTrace
  import G = GateTrace
  import Gate
  import Rebase

  type Replay = r: Rebase.Replay | r.Valid() witness Rebase.NotStarted

  /** The development agent on a rebase in progress: it may leave anything that is a state of a rebase. */
  type Settler = f: Rebase.Replay -> Rebase.Replay | forall r :: f(r).Valid()
    witness (r: Rebase.Replay) => Rebase.NotStarted

  datatype CommitAnswer = CommitAnswer(ok: bool, changed: bool)

  datatype World = World(
    cancelled: nat -> bool,
    artifact: nat -> bool,
    rebase: nat -> Option<Replay>,                     // None: the branch is on its base, with no conflict
    settle: nat -> Settler,                           // what the agent leaves of a rebase in progress
    validation: nat -> Option<ValidatedBy>,            // an earlier validation bound to this candidate
    externalGate: nat -> bool,
    gate: nat -> Gate.World,
    docs: nat -> DocsAnswer,
    bound: nat -> bool,                                // an earlier approval bound to this candidate
    review: nat -> ReviewAnswer,
    agentRan: nat -> bool,
    commit: nat -> CommitAnswer,
    ciBudgetSpent: nat -> bool,
    publish: nat -> PublishAnswer)

  /** `external`: the ticket is not of the factory itself; `registered`: its project is in the registry. */
  datatype Config = Config(external: bool, registered: bool, skipValidation: bool, noCommit: bool, noPush: bool)

  datatype Stage = Plan | Research | Build | Docs | Review | Validate | Merge | DeploySmoke

  datatype Outcome =
    | Delivered(report: PublishAnswer)
    | Cancelled
    | SyncConflict
    | GateStopped(verdict: GateVerdict)
    | Refused(stage: Stage)
    | RouteWait
    | RedCiTwice
    | NotDelivered

  /** How the sync with the base branch ends when it starts at moment `i`. */
  predicate SyncSucceeds(w: World, i: nat) {
    w.rebase(i).None? || Rebase.Outcome(w.rebase(i).value, w.settle(i)).1
  }

  /** The event is what the world answered at that moment. */
  ghost predicate Answered(w: World, c: Config, i: nat, e: Event) {
    match e
    case Require(_, present) => present == w.artifact(i)
    case CancelCheck(seen) => seen == w.cancelled(i)
    case Synced(start, ok) => start <= i <= start + 1 && ok == SyncSucceeds(w, start)
    case ValidationReused(origin) => !c.external && w.validation(i) == Some(origin)
    case GateRun(_, ExternalGate(ok)) => c.external && ok == w.externalGate(i)
    case GateRun(_, FactoryGate(outcome, skip, inner)) =>
      !c.external && skip == c.skipValidation && IsGateRun(w.gate(i), outcome, skip, inner)
    case DocsCheck(answer) => if c.external then answer == NotVerified else answer == w.docs(i)
    case ApprovalCheck(bound) => bound == (!c.external && w.bound(i))
    case ReviewRound(review) => review == w.review(i)
    case FixAgent(_) => true
    case FixCommit(_, ok, changed) => CommitAnswer(ok, changed) == w.commit(i)
    case Publish(pushed, report) => report == w.publish(i) && pushed == !c.noPush && !c.noCommit
  }

  /** What a run of the gate loop promises. */
  ghost predicate IsGateRun(w: Gate.World, outcome: Gate.Outcome, skip: bool, inner: seq<G.Event>) {
    && G.Summarize(inner).wellFormed
    && Gate.Truthful(w, inner)
    && (outcome.Passed? ==> Gate.Earned(inner, skip))
    && (skip ==> Gate.NoOfficial(inner))
  }

  ghost predicate Truthful(w: World, c: Config, trace: seq<Event>) {
    forall i :: 0 <= i < |trace| ==> Answered(w, c, i, trace[i])
  }

  lemma {:induction false} TruthGrows(w: World, c: Config, trace: seq<Event>, e: Event)
    requires Truthful(w, c, trace) && Answered(w, c, |trace|, e)
    ensures Truthful(w, c, trace + [e])
  {
    forall i | 0 <= i <= |trace|
      ensures Answered(w, c, i, (trace + [e])[i])
    {
      assert i < |trace| ==> Answered(w, c, i, trace[i]);
    }
  }

  function FixedOnce(commit: CommitAnswer): seq<Event> {
    [DocsCheck(Violations), FixAgent(DocsSync), FixCommit(DocsSync, commit.ok, commit.changed)]
  }

  /** What the documentation step does when it starts at moment `i`: one check, or a check, a fix and a check. */
  function DocsSteps(w: World, c: Config, i: nat): seq<Event> {
    if c.external then [DocsCheck(NotVerified)]
    else if !w.docs(i).Violations? then [DocsCheck(w.docs(i))]
    else FixedOnce(w.commit(i + 2)) + if w.commit(i + 2).ok then [DocsCheck(w.docs(i + 3))] else []
  }

  predicate DocsPass(w: World, c: Config, i: nat) {
    c.external || !w.docs(i).Violations? || (w.commit(i + 2).ok && !w.docs(i + 3).Violations?)
  }

  /** The receipts that are looked at: none without a pushed report, both for a delivery, else up to the missing one. */
  function ReceiptSteps(report: PublishAnswer, outcome: Outcome, c: Config): seq<Event> {
    if report.NoReport? || c.noPush then []
    else if outcome == Refused(Merge) then [Require(MergeArtifact, false)]
    else [Require(MergeArtifact, true), Require(DeployArtifact, outcome != Refused(DeploySmoke))]
  }

  /** The run takes the factory's gate loop and skips the official gate in it. */
  predicate Skips(c: Config) {
    !c.external && c.skipValidation
  }

  /** The gate step passes: a validation is on file, or the gate is skipped and nothing comes before the skip. */
  ghost predicate GatePasses(w: World, c: Config, i: nat) {
    w.validation(i).Some? || (c.skipValidation && Gate.Smooth(w.gate(i)))
  }

  /** Nothing stands in the way of a delivery of the factory's own but, perhaps, the documentation. */
  ghost predicate Faultless(w: World, c: Config) {
    && !c.external && !c.noCommit
    && forall n :: w.artifact(n) && !w.cancelled(n) && w.rebase(n).None? && GatePasses(w, c, n)
                   && w.review(n).Approves() && w.publish(n) == Report(true, false)
  }

  /** The moment of the gate step of such a delivery. */
  const GATE_STEP: nat := 7

  /** The moment of the first documentation check of such a delivery. */
  const FIRST_DOCS_CHECK: nat := 8

  class Pipeline {
    const w: World
    const c: Config
    var trace: seq<Event>
    ghost var s: Summary          // what the trace comes to
    ghost var past: seq<Summary>  // what each of its prefixes came to

    constructor (w: World, c: Config)
      ensures this.w == w && this.c == c && trace == [] && s == NOTHING_YET && Valid()
    {
      this.w, this.c := w, c;
      trace, s, past := [], NOTHING_YET, [NOTHING_YET];
    }

    ghost predicate Valid()
      reads this
    {
      && IsFold(trace, past) && s == past[|trace|] && s.wellFormed
      && Truthful(w, c, trace)
    }

    /** On the way: `n` steps of the line are done, nothing was published and no cancellation was seen. */
    ghost predicate Reached(n: nat)
      reads this
    {
      Valid() && s.reached == n && s.publishes == 0 && s.lateFixes == 0 && !s.cancelSeen
    }

    method Happen(e: Event)
      requires Valid() && Follows(s, e) && Answered(w, c, |trace|, e)
      modifies this
      ensures Valid() && trace == old(trace) + [e] && s == Next(old(s), e)
    {
      FoldGrows(trace, past, e);
      TruthGrows(w, c, trace, e);
      s := Next(s, e);
      past := past + [s];
      trace := trace + [e];
    }

    method CheckCancel() returns (seen: bool)
      requires Valid()
      modifies this
      ensures Valid() && s == Next(old(s), CancelCheck(seen)) && trace == old(trace) + [CancelCheck(seen)]
      ensures seen == w.cancelled(|old(trace)|)
    {
      seen := w.cancelled(|trace|);
      Happen(CancelCheck(seen));
    }

    /** Requires an artifact of the line; false when it is missing. */
    method RequireStep(artifact: Artifact, step: nat) returns (present: bool)
      requires Reached(step) && MilestoneOf(Require(artifact, true)) == NextStep(step) != None
      requires MilestoneOf(Require(artifact, false)) == None
      modifies this
      ensures Reached(if present then step + 1 else step) && s.approved == old(s.approved)
      ensures s.rounds == old(s.rounds) && s.docsFixes == old(s.docsFixes) && KeepsCounts(old(s), s)
      ensures trace == old(trace) + [Require(artifact, present)] && present == w.artifact(|old(trace)|)
    {
      present := w.artifact(|trace|);
      Happen(Require(artifact, present));
    }

    method FixAndCommit(purpose: Purpose) returns (answer: CommitAnswer)
      requires Reached(s.reached) && MayFix(s, purpose)
      modifies this
      ensures Reached(old(s.reached))
        && s == Next(Next(old(s), FixAgent(purpose)), FixCommit(purpose, answer.ok, answer.changed))
      ensures trace == old(trace) + [FixAgent(purpose), FixCommit(purpose, answer.ok, answer.changed)]
      ensures answer == w.commit(|old(trace)| + 1)
    {
      Happen(FixAgent(purpose));
      answer := w.commit(|trace|);
      Happen(FixCommit(purpose, answer.ok, answer.changed));
    }

    /** Replays the branch on its base and settles the conflicts, calling the agent at most once. */
    method Rebased() returns (ok: bool)
      requires Reached(3)
      modifies this
      ensures Reached(3) && s.rounds == old(s.rounds) && s.violations == old(s.violations)
        && s.docsFixes == old(s.docsFixes)
      ensures ok == SyncSucceeds(w, |old(trace)|) && |old(trace)| <= |trace| <= |old(trace)| + 1
      ensures w.rebase(|old(trace)|).None? ==> |trace| == |old(trace)|
    {
      var conflict := w.rebase(|trace|);
      if conflict.None? {
        return true;
      }
      var worktree := new Rebase.Worktree(conflict.value);
      ok := worktree.Resolve(w.settle(|trace|));
      if worktree.agentCalls > 0 {
        Happen(FixAgent(RebaseConflict));
      }
    }

    /** Replays, and records whether the branch is on its base now. */
    method Replayed() returns (ok: bool)
      requires Reached(3)
      modifies this
      ensures Valid() && s.publishes == 0 && ok == SyncSucceeds(w, |old(trace)|)
      ensures ok ==>
        Reached(4) && s.rounds == old(s.rounds) && s.violations == old(s.violations) && s.docsFixes == old(s.docsFixes)
      ensures w.rebase(|old(trace)|).None? ==> |trace| == |old(trace)| + 1
    {
      var start := |trace|;
      ok := Rebased();
      Happen(Synced(start, ok));
    }

    /** Brings the branch onto its base; `None` when the delivery goes on. */
    method Sync() returns (stop: Option<Outcome>)
      requires Reached(3)
      modifies this
      ensures Valid() && s.publishes == 0
      ensures stop.None? ==>
        Reached(4) && s.rounds == old(s.rounds) && s.violations == old(s.violations) && s.docsFixes == old(s.docsFixes)
      ensures !w.cancelled(|old(trace)|) && w.rebase(|old(trace)| + 1).None? ==>
        stop.None? && |trace| == |old(trace)| + 2
      ensures stop.Some? ==> stop.value == SyncConflict || (stop.value == Cancelled && s.cancelSeen)
      ensures stop.None? ==> SyncSucceeds(w, |old(trace)| + 1)
      ensures stop == Some(SyncConflict) ==> !SyncSucceeds(w, |old(trace)| + 1)
    {
      var seen := CheckCancel();
      if seen {
        return Some(Cancelled);
      }
      var ok := Replayed();
      return if ok then None else Some(SyncConflict);
    }

    /** Runs the gate; an external project has its own, the factory the self-correcting loop. */
    method RunGate(place: Place) returns (verdict: GateVerdict)
      requires Valid() && s.publishes == 0 && !s.cancelSeen
      requires if place.OnDelivery? then s.reached == 4 else s.reviewFix.AwaitsGate?
      modifies this
      ensures Valid() && s == Next(old(s), GateRun(place, verdict))
      ensures s.publishes == 0 && !s.cancelSeen && |trace| == |old(trace)| + 1
      ensures LooksRightly(Skips(c), GateRun(place, verdict))
      ensures Skips(c) && Gate.Smooth(w.gate(|old(trace)|)) ==> verdict.Passed()
    {
      if c.external {
        verdict := ExternalGate(w.externalGate(|trace|));
      } else {
        var outcome, _, inner := Gate.RunGate(w.gate(|trace|), c.skipValidation);
        verdict := FactoryGate(outcome, c.skipValidation, inner);
        if outcome.Passed? {
          Gate.EarnedByTheGateExactly(inner, c.skipValidation);
        }
      }
      Happen(GateRun(place, verdict));
    }

    /** The gate step: an earlier validation bound to this candidate, or a gate that passes now. */
    method StageGate() returns (stop: Option<Outcome>)
      requires Reached(4)
      modifies this
      ensures Valid() && s.publishes == 0
      ensures stop.None? ==> Reached(5) && s.rounds == old(s.rounds)
      ensures s.violations == old(s.violations) && s.docsFixes == old(s.docsFixes) && |trace| == |old(trace)| + 1
      ensures !c.external && GatePasses(w, c, |old(trace)|) ==>
        stop.None? && (s.gateLooked <==> w.validation(|old(trace)|) == Some(ByGate))
      ensures stop.Some? ==> stop.value.GateStopped? && !stop.value.verdict.Passed()
    {
      var onFile := w.validation(|trace|);
      if !c.external && onFile.Some? {
        Happen(ValidationReused(onFile.value));
        return None;
      }
      var verdict := RunGate(OnDelivery);
      return if verdict.Passed() then None else Some(GateStopped(verdict));
    }

    method CheckDocs() returns (answer: DocsAnswer)
      requires Reached(5) && s.violations == s.docsFixes < DOCS_ATTEMPTS
      modifies this
      ensures trace == old(trace) + [DocsCheck(answer)]
      ensures answer == if c.external then NotVerified else w.docs(|old(trace)|)
      ensures Reached(if answer.Violations? then 5 else 6) && s.rounds == old(s.rounds)
        && s.docsFixes == old(s.docsFixes)
      ensures s.violations == old(s.violations) + if answer.Violations? then 1 else 0
      ensures s.gateLooked == old(s.gateLooked) && s.reviewFixes == old(s.reviewFixes)
    {
      answer := if c.external then NotVerified else w.docs(|trace|);
      Happen(DocsCheck(answer));
    }

    method FixDocs() returns (commit: CommitAnswer)
      requires Reached(5) && s.violations == 1 && s.docsFixes == 0
      modifies this
      ensures Reached(5) && s.rounds == old(s.rounds) && s.docsFixes == 1 && KeepsCounts(old(s), s)
      ensures commit == w.commit(|old(trace)| + 1)
      ensures trace == old(trace) + [FixAgent(DocsSync), FixCommit(DocsSync, commit.ok, commit.changed)]
    {
      commit := FixAndCommit(DocsSync);
    }

    /** The documentation step: one fix when it is out of sync, and a second look. */
    method StageDocs() returns (stop: Option<Outcome>)
      requires Reached(5) && s.violations == s.docsFixes == 0
      modifies this
      ensures Valid() && s.publishes == 0
      ensures stop == if DocsPass(w, c, |old(trace)|) then None else Some(Refused(Docs))
      ensures stop.None? ==> Reached(6) && s.rounds == old(s.rounds)
      ensures trace == old(trace) + DocsSteps(w, c, |old(trace)|)
      ensures s.violations > 0 <==> !c.external && w.docs(|old(trace)|).Violations?
      ensures s.gateLooked == old(s.gateLooked) && s.reviewFixes == old(s.reviewFixes)
    {
      if c.external {
        var _ := CheckDocs();
        return None;
      }
      ghost var i := |trace|;
      for attempt := 0 to DOCS_ATTEMPTS
        invariant Reached(5) && s.rounds == old(s.rounds) && s.violations == attempt
        invariant s.gateLooked == old(s.gateLooked) && s.reviewFixes == old(s.reviewFixes)
        invariant attempt > 0 ==> s.docsFixes == 1 && w.docs(i).Violations? && w.commit(i + 2).ok
        invariant attempt == 0 ==> s.docsFixes == 0 && trace == old(trace)
        invariant attempt == 1 ==> trace == old(trace) + FixedOnce(w.commit(i + 2))
        invariant attempt == 2 ==> w.docs(i + 3).Violations? && trace == old(trace) + DocsSteps(w, c, i)
      {
        var answer := CheckDocs();
        if !answer.Violations? {
          return None;
        }
        if attempt == 0 {
          var commit := FixDocs();
          if !commit.ok {
            break;
          }
        }
      }
      return Some(Refused(Docs));
    }

    /** Asks the other model family for a verdict. */
    method ReviewOnce() returns (review: ReviewAnswer)
      requires Reached(6) && s.reviewFix.Closed? && s.rounds < REVIEW_ATTEMPTS
      modifies this
      ensures Reached(if review.Approves() then 7 else 6) && s.reviewFix.Closed? && s.rounds == old(s.rounds) + 1
      ensures s.approved <==> review.Approves() || old(s.approved)
      ensures review == w.review(|old(trace)|)
      ensures KeepsCounts(old(s), s)
    {
      review := w.review(|trace|);
      Happen(ReviewRound(review));
    }

    /** The fix that a review asked for, committed and then through the gate. */
    method FixReview() returns (stop: Option<Outcome>)
      requires Reached(6) && s.reviewFix.Closed? && s.rounds > 0
      modifies this
      ensures Valid() && s.publishes == 0 && s.rounds == old(s.rounds)
      ensures s.violations == old(s.violations) && s.gateLooked == old(s.gateLooked)
      ensures stop.None? ==> Reached(6) && s.reviewFix.Closed?
      ensures stop.Some? ==> stop.value == Refused(Review) || stop.value.GateStopped?
    {
      var commit := FixAndCommit(ReviewRequest);
      if !commit.ok {
        return Some(Refused(Review));
      }
      var verdict := RunGate(AfterReviewFix);
      return if verdict.Passed() then None else Some(GateStopped(verdict));
    }

    /**
     The review: an earlier approval bound to this candidate, or a round that succeeds. Between two rounds
     each fix is committed and passes the gate again.
     */
    method StageReview() returns (stop: Option<Outcome>)
      requires Reached(6) && s.reviewFix.Closed? && s.rounds == 0
      modifies this
      ensures Valid() && s.publishes == 0 && s.violations == old(s.violations) && s.gateLooked == old(s.gateLooked)
      ensures stop.None? ==> Reached(7) && s.approved
      ensures stop.Some? ==>
        stop.value == Refused(Review) || stop.value.RouteWait? || stop.value.GateStopped?
          || (stop.value.Cancelled? && s.cancelSeen)
      ensures Faultless(w, c) ==> stop.None? && s.reviewFixes == old(s.reviewFixes)
    {
      var bound := !c.external && w.bound(|trace|);
      Happen(ApprovalCheck(bound));
      if bound {
        return None;
      }
      for attempt := 0 to REVIEW_ATTEMPTS
        invariant Reached(6) && s.reviewFix.Closed? && s.rounds == attempt
        invariant s.violations == old(s.violations) && s.gateLooked == old(s.gateLooked)
        invariant Faultless(w, c) ==> attempt == 0 && s.reviewFixes == old(s.reviewFixes)
      {
        var seen := CheckCancel();
        if seen {
          return Some(Cancelled);
        }
        var review := ReviewOnce();
        if review.ReviewCrashed? {
          break;
        }
        if review.outcome.Success? {
          return None;
        }
        if review.routeWait {
          return Some(RouteWait);
        }
        if !review.outcome.Retry? || review.notBefore {
          break;
        }
        if review.development {
          stop := FixReview();
          if stop.Some? {
            return;
          }
        }
      }
      return Some(Refused(Review));
    }

    /** Publishes, unless the options say not to; a registered external project is not published without push. */
    method PublishCandidate() returns (report: PublishAnswer, cancelled: bool)
      requires Reached(9) && s.approved
      modifies this
      ensures Valid() && s.lateFixes == 0 && s.reached == 9 && s.approved
      ensures s.publishes == (if c.noCommit || (c.external && c.registered && c.noPush) then 0 else 1)
      ensures if s.publishes == 0 then report == NoReport && !cancelled else s.report == Some(report)
      ensures cancelled ==> s.cancelSeen && (report.NoReport? || !report.ok)
      ensures s.cancelSeen ==> s.publishes == 1 && (cancelled || (report.Report? && report.ok))
      ensures KeepsCounts(old(s), s)
      ensures Faultless(w, c) ==> report == Report(true, false) && !cancelled
    {
      report, cancelled := NoReport, false;
      if c.noCommit || (c.external && c.registered && c.noPush) {
        return;
      }
      report := w.publish(|trace|);
      Happen(Publish(!c.noPush, report));
      if !(c.external && c.registered) {
        var seen := CheckCancel();
        cancelled := seen && (report.NoReport? || !report.ok);
      }
    }

    /** One repair of a red CI. It never ends in a delivery: the repaired candidate starts over in another run. */
    method RetryRedCi() returns (stop: Outcome)
      requires Valid() && s.publishes == 1 && s.report == Some(Report(false, true)) && s.lateFixes == 0 && !s.cancelSeen
      modifies this
      ensures Valid() && s.publishes == 1 && s.report == Some(Report(false, true))
      ensures KeepsCounts(old(s), s)
      ensures stop.RouteWait? || stop.RedCiTwice?
      ensures w.ciBudgetSpent(|old(trace)|) ==> stop.RedCiTwice? && trace == old(trace)
    {
      if w.ciBudgetSpent(|trace|) {
        return RedCiTwice;
      }
      var ran := w.agentRan(|trace|);
      Happen(FixAgent(RedCi));
      var commit := w.commit(|trace|);
      Happen(FixCommit(RedCi, commit.ok, commit.changed));
      if !commit.ok {
        return RedCiTwice;
      }
      if !ran && !commit.changed {
        return RouteWait;
      }
      return if commit.changed then RouteWait else RedCiTwice;
    }

    /** Merge and deploy receipts, when there is a pushed publication to write them for. */
    method Receipts(report: PublishAnswer) returns (outcome: Outcome)
      requires Valid() && s.publishes <= 1 && (report.Report? ==> s.publishes == 1)
      modifies this
      ensures Valid() && s.publishes == old(s.publishes) && s.report == old(s.report) && s.approved == old(s.approved)
      ensures s.reached == old(s.reached) && KeepsCounts(old(s), s)
      ensures outcome == Delivered(report)
        || (report.Report? && !c.noPush && (outcome == Refused(Merge) || outcome == Refused(DeploySmoke)))
      ensures trace == old(trace) + ReceiptSteps(report, outcome, c)
      ensures Faultless(w, c) ==> outcome == Delivered(report)
    {
      if report.Report? && !c.noPush {
        var merge := w.artifact(|trace|);
        Happen(Require(MergeArtifact, merge));
        if !merge {
          return Refused(Merge);
        }
        var deploy := w.artifact(|trace|);
        Happen(Require(DeployArtifact, deploy));
        if !deploy {
          return Refused(DeploySmoke);
        }
      }
      return Delivered(report);
    }

    /** From the approval to the end. */
    method Finish() returns (outcome: Outcome)
      requires Reached(7) && s.approved
      modifies this
      ensures Valid() && s.publishes <= 1
      ensures Concludes(outcome)
      ensures KeepsCounts(old(s), s)
      ensures Faultless(w, c) ==> outcome == Delivered(Report(true, false))
    {
      var present := RequireStep(ValidationArtifact, 7);
      if !present {
        return Refused(Validate);
      }
      present := RequireStep(VerdictArtifact, 8);
      if !present {
        return Refused(Review);
      }
      var seen := CheckCancel();
      if seen {
        return Cancelled;
      }
      var report, cancelled := PublishCandidate();
      if cancelled {
        return Cancelled;
      }
      if report == Report(false, true) {
        seen := CheckCancel();
        if !seen {
          outcome := RetryRedCi();
          return;
        }
      }
      if report.Report? && !report.ok {
        return NotDelivered;
      }
      outcome := Receipts(report);
    }

    /** What the outcome of a delivery says about its publication. */
    ghost predicate Concludes(outcome: Outcome)
      reads this
    {
      && (outcome.Delivered? ==> s.reached == LINE_LENGTH && s.approved && Published(outcome.report))
      && (s.publishes == 1 ==> s.report.Some? && PublicationConcludes(s.report.value, outcome))
      && (s.publishes == 0 ==> outcome.Delivered? ==> outcome.report.NoReport? && (c.noCommit || c.noPush))
    }

    ghost predicate Published(report: PublishAnswer)
      reads this
    {
      if s.publishes == 0 then report.NoReport? else s.report == Some(report) && (report.NoReport? || report.ok)
    }

    /** The artifacts of the earlier stages, and the sync with the base branch. */
    method Approach() returns (stop: Option<Outcome>)
      requires s == NOTHING_YET && trace == [] && Valid()
      modifies this
      ensures Valid() && s.publishes == 0
      ensures stop.None? ==> Reached(4) && s.rounds == s.violations == s.docsFixes == 0
      ensures stop.Some? ==> !stop.value.Delivered? && (stop.value.Cancelled? ==> s.cancelSeen)
      ensures Faultless(w, c) ==> stop.None? && |trace| == GATE_STEP
    {
      var present := RequireStep(PlanArtifact, 0);
      if !present {
        return Some(Refused(Plan));
      }
      present := RequireStep(ResearchArtifact, 1);
      if !present {
        return Some(Refused(Research));
      }
      present := RequireStep(BuildArtifact, 2);
      if !present {
        return Some(Refused(Build));
      }
      var seen := CheckCancel();
      if seen {
        return Some(Cancelled);
      }
      stop := Sync();
      if stop.Some? {
        return;
      }
      seen := CheckCancel();
      if seen {
        return Some(Cancelled);
      }
    }

    /** The whole delivery. */
    method Deliver() returns (outcome: Outcome)
      requires s == NOTHING_YET && trace == [] && Valid()
      modifies this
      ensures Valid() && s.publishes <= 1
      ensures Concludes(outcome)
      ensures Faultless(w, c) && DocsPass(w, c, FIRST_DOCS_CHECK) ==>
        && outcome == Delivered(Report(true, false)) && s.reviewFixes == 0
        && (s.violations > 0 <==> w.docs(FIRST_DOCS_CHECK).Violations?)
        && (s.gateLooked <==> w.validation(GATE_STEP) == Some(ByGate))
    {
      var stop := Approach();
      if stop.Some? {
        return stop.value;
      }
      FixesSoFar();
      stop := StageGate();
      if stop.Some? {
        return stop.value;
      }
      stop := StageDocs();
      if stop.Some? {
        return stop.value;
      }
      var seen := CheckCancel();
      if seen {
        return Cancelled;
      }
      FixesSoFar();
      stop := StageReview();
      if stop.Some? {
        return stop.value;
      }
      outcome := Finish();
    }

    lemma {:induction false} FixesSoFar()
      requires Valid() && s.publishes == 0
      ensures FixesInPlace(s)
    {
      FoldIsSummarize(trace, past);
      FixesAreInPlace(trace);
    }
  }

  /**
   How a run that published can end: a red CI never ends in a delivery, and a good report ends in one or at
   its receipts.
   */
  predicate PublicationConcludes(report: PublishAnswer, outcome: Outcome) {
    match outcome
    case Delivered(r) => r == report && (report.NoReport? || report.ok)
    case Refused(stage) => report.Report? && report.ok && (stage.Merge? || stage.DeploySmoke?)
    case Cancelled => report.NoReport? || !report.ok
    case RouteWait => report == Report(false, true)
    case RedCiTwice => report == Report(false, true)
    case NotDelivered => report.Report? && !report.ok
    case _ => false
  }

  /**
   One delivery run, said about its trace: it keeps the order of the line, every answer in it is the
   world's, and its outcome agrees with what was published. If nothing else stands in its way it delivers, and
   then a gate has seen what is published exactly when one wrote the validation on file and the first
   documentation check found no violation.
   */
  method RunDelivery(w: World, c: Config) returns (outcome: Outcome, trace: seq<Event>)
    ensures Summarize(trace).wellFormed && Truthful(w, c, trace)
    ensures outcome.Delivered? ==> Milestones(trace) == THE_LINE && exists a :: ApprovedAt(trace, a)
    ensures outcome.Delivered? && !c.noCommit && !c.noPush ==> exists p :: PublishedAs(trace, p, outcome.report)
    ensures forall p :: 0 <= p < |trace| && trace[p].Publish? ==> PublicationConcludes(trace[p].report, outcome)
    ensures Faultless(w, c) && DocsPass(w, c, FIRST_DOCS_CHECK) ==>
      && outcome == Delivered(Report(true, false))
      && exists p ::
           && PublishedAs(trace, p, outcome.report)
           && (SeenByGate(trace, p) <==>
                 w.validation(GATE_STEP) == Some(ByGate) && !w.docs(FIRST_DOCS_CHECK).Violations?)
  {
    var run := new Pipeline(w, c);
    outcome := run.Deliver();
    trace := run.trace;
    FoldIsSummarize(trace, run.past);
    StepsComeInOrder(trace);
    SummaryMeaning(trace);
    ReportsConclude(trace, outcome);
    if outcome.Delivered? && run.s.publishes == 1 {
      ghost var p :| 0 <= p < |trace| && trace[p].Publish?;
      assert PublishedAs(trace, p, outcome.report);
      PublishedSeenByCounts(w, c, trace, p);
    }
  }

  /** A world without faults: what is on file, what the gate loop meets, and what the documentation check finds. */
  function EasyWorld(validation: Option<ValidatedBy>, gate: Gate.World, docs: nat -> DocsAnswer): World {
    World(n => false, n => true, n => None, n => (r: Rebase.Replay) => Rebase.NotStarted, n => validation,
          n => true, n => gate, docs, n => false, n => Reviewed(Success, false, false, false), n => true,
          n => CommitAnswer(true, true), n => false, n => Report(true, false))
  }

  /** A gate loop in which nobody cancels and there are no focal tests to run. */
  function EasyGate(): Gate.World {
    Gate.World(n => false, n => G.NoTargets, n => G.Committed(true), n => true,
               n => G.GateResult(0, false, false, false, false, false, false, false))
  }

  /** A run that publishes a documentation fix which no gate has seen. */
  method DocsFixExample() returns (w: World, c: Config, outcome: Outcome, trace: seq<Event>)
    ensures Truthful(w, c, trace) && !c.skipValidation && outcome == Delivered(Report(true, false))
    ensures exists p :: PublishedAs(trace, p, outcome.report) && !SeenByGate(trace, p)
  {
    c := Config(false, true, false, false, false);
    w := EasyWorld(Some(ByGate), EasyGate(), n => if n == FIRST_DOCS_CHECK then Violations else InSync);
    outcome, trace := RunDelivery(w, c);
  }

  /** A run with --skip-validation: no agent fixed anything, and no gate has seen what it publishes. */
  method SkipExample() returns (w: World, c: Config, outcome: Outcome, trace: seq<Event>)
    ensures Truthful(w, c, trace) && c.skipValidation && outcome == Delivered(Report(true, false))
    ensures forall n :: w.docs(n).InSync?
    ensures exists p :: PublishedAs(trace, p, outcome.report) && !SeenByGate(trace, p)
  {
    c := Config(false, true, true, false, false);
    w := EasyWorld(None, EasyGate(), n => InSync);
    outcome, trace := RunDelivery(w, c);
  }

  /** A run without the option that finds the validation of such a run on file: no gate runs now either. */
  method SkipOnFileExample() returns (w: World, c: Config, outcome: Outcome, trace: seq<Event>)
    ensures Truthful(w, c, trace) && !c.skipValidation && outcome == Delivered(Report(true, false))
    ensures forall n :: w.docs(n).InSync?
    ensures exists p :: PublishedAs(trace, p, outcome.report) && !SeenByGate(trace, p)
  {
    c := Config(false, true, false, false, false);
    w := EasyWorld(Some(BySkip), EasyGate(), n => InSync);
    outcome, trace := RunDelivery(w, c);
  }

  lemma {:induction false} ReportsConclude(trace: seq<Event>, outcome: Outcome)
    requires Summarize(trace).wellFormed
    requires Summarize(trace).publishes == 1 ==>
      Summarize(trace).report.Some? && PublicationConcludes(Summarize(trace).report.value, outcome)
    requires Summarize(trace).publishes <= 1
    ensures forall p :: 0 <= p < |trace| && trace[p].Publish? ==>
      PublicationConcludes(trace[p].report, outcome) && Summarize(trace).report == Some(trace[p].report)
  {
    forall p | 0 <= p < |trace| && trace[p].Publish?
      ensures PublicationConcludes(trace[p].report, outcome) && Summarize(trace).report == Some(trace[p].report)
    {
      assert trace[..|trace|] == trace;
      ReportIsTheLast(trace, p, |trace|);
    }
  }

  ghost predicate PublishedAs(trace: seq<Event>, p: int, report: PublishAnswer) {
    0 <= p < |trace| && trace[p].Publish? && trace[p].report == report
  }

  /** The gate step passed at moment `i`: a validation on file, or a gate that passed then or was skipped. */
  ghost predicate GateEvidence(w: World, c: Config, trace: seq<Event>, i: int) {
    && 0 <= i < |trace|
    && match trace[i]
       case ValidationReused(origin) => !c.external && w.validation(i) == Some(origin)
       case GateRun(OnDelivery, ExternalGate(ok)) => c.external && ok && w.externalGate(i)
       case GateRun(OnDelivery, FactoryGate(outcome, skip, inner)) =>
         !c.external && outcome.Passed? && Gate.Truthful(w.gate(i), inner) && Gate.Earned(inner, c.skipValidation)
       case _ => false
  }

  /** A gate saw the tree at moment `i`: the project's own, the official one, or the one that wrote the validation. */
  ghost predicate LookEvidence(w: World, c: Config, trace: seq<Event>, i: int) {
    && 0 <= i < |trace|
    && match trace[i]
       case ValidationReused(origin) => !c.external && origin.ByGate? && w.validation(i) == Some(ByGate)
       case GateRun(_, ExternalGate(ok)) => c.external && ok && w.externalGate(i)
       case GateRun(_, FactoryGate(outcome, skip, inner)) =>
         !c.external && outcome.Passed? && Gate.Truthful(w.gate(i), inner) && Gate.OfficialPassed(inner)
       case _ => false
  }

  /** An approval at moment `i`: one bound to this candidate, or a review that succeeded then. */
  ghost predicate ApprovalEvidence(w: World, c: Config, trace: seq<Event>, i: int) {
    && 0 <= i < |trace|
    && match trace[i]
       case ApprovalCheck(bound) => bound && !c.external && w.bound(i)
       case ReviewRound(review) => review == w.review(i) && review.Approves()
       case _ => false
  }

  lemma {:induction false} StepHappened(trace: seq<Event>, m: Milestone)
    requires m in Milestones(trace)
    ensures exists i :: 0 <= i < |trace| && MilestoneOf(trace[i]) == Some(m)
  {
    var n := |trace| - 1;
    if MilestoneOf(trace[n]) != Some(m) {
      StepHappened(trace[..n], m);
      var i :| 0 <= i < n && MilestoneOf(trace[..n][i]) == Some(m);
      assert MilestoneOf(trace[i]) == Some(m);
    }
  }

  lemma {:induction false} GateHeldBefore(trace: seq<Event>, p: nat)
    requires Summarize(trace).wellFormed && p < |trace| && trace[p].Publish?
    ensures exists g :: 0 <= g < p && MilestoneOf(trace[g]) == Some(GateHeld)
  {
    PublicationIsEarned(trace, p);
    assert THE_LINE[4] == GateHeld;
    StepHappened(trace[..p], GateHeld);
    var g :| 0 <= g < p && MilestoneOf(trace[..p][g]) == Some(GateHeld);
    assert trace[..p][g] == trace[g];
  }

  lemma {:induction false} GateHeldIsEvidence(w: World, c: Config, trace: seq<Event>, g: nat)
    requires g < |trace| && Answered(w, c, g, trace[g]) && MilestoneOf(trace[g]) == Some(GateHeld)
    ensures GateEvidence(w, c, trace, g)
  {
  }

  lemma {:induction false} LooksIsEvidence(w: World, c: Config, trace: seq<Event>, g: nat)
    requires g < |trace| && Answered(w, c, g, trace[g])
    ensures Looks(trace[g]) <==> LookEvidence(w, c, trace, g)
  {
  }

  /** In a truthful trace a gate loop that passes has run the official gate exactly when it does not skip it. */
  lemma {:induction false} TruthfulLooksRightly(w: World, c: Config, trace: seq<Event>, n: nat)
    requires Truthful(w, c, trace) && n <= |trace|
    ensures forall i :: 0 <= i < n ==> LooksRightly(Skips(c), trace[..n][i])
  {
    forall i | 0 <= i < n
      ensures LooksRightly(Skips(c), trace[..n][i])
    {
      assert Answered(w, c, i, trace[i]);
      if trace[i].GateRun? && trace[i].verdict.Passed() && trace[i].verdict.FactoryGate? {
        Gate.EarnedByTheGateExactly(trace[i].verdict.inner, c.skipValidation);
      }
    }
  }

  /**
   A gate has seen what is published, and no agent has changed it since, exactly when
   - after a fix that the review asked for: the gate is not skipped;
   - otherwise: the gate step rested on a gate, and the documentation check found no violation.
   */
  lemma {:induction false} PublishedSeenExactly(w: World, c: Config, trace: seq<Event>, p: nat)
    requires Summarize(trace).wellFormed && Truthful(w, c, trace) && p < |trace| && trace[p].Publish?
    ensures SeenByGate(trace, p) <==>
            if FixAgent(ReviewRequest) in trace[..p] then !Skips(c)
            else StepLooked(Skips(c), trace[..p]) && DocsCheck(Violations) !in trace[..p]
  {
    SummaryOfPrefix(trace, p);
    TruthfulLooksRightly(w, c, trace, p);
    FixesAreInPlace(trace[..p]);
    SeenIsInPlace(Skips(c), trace[..p]);
    GateLookedMeaning(Skips(c), trace[..p]);
    SeenMeaning(trace, p);
    CountsMeaning(trace[..p]);
  }

  /** The same, by the counts of the whole run. */
  lemma {:induction false} PublishedSeenByCounts(w: World, c: Config, trace: seq<Event>, p: nat)
    requires Summarize(trace).wellFormed && Truthful(w, c, trace) && p < |trace| && trace[p].Publish?
    ensures var s := Summarize(trace);
            SeenByGate(trace, p) <==> if s.reviewFixes > 0 then !Skips(c) else s.gateLooked && s.violations == 0
  {
    SummaryOfPrefix(trace, p);
    TruthfulLooksRightly(w, c, trace, p);
    FixesAreInPlace(trace[..p]);
    SeenIsInPlace(Skips(c), trace[..p]);
    SeenMeaning(trace, p);
    CountsStay(trace, p, |trace|);
    assert trace[..|trace|] == trace;
  }

  /** Between a fix that a review asked for and the next round a gate sees it exactly when gates are not skipped. */
  lemma {:induction false} FixesAreSeenBeforeNextRoundExactly(w: World, c: Config, trace: seq<Event>, f: nat, r: nat)
    requires Summarize(trace).wellFormed && Truthful(w, c, trace) && f < r < |trace|
    requires trace[f] == FixAgent(ReviewRequest) && trace[r].ReviewRound?
    ensures (exists g :: f < g < r && trace[g].GateRun? && LookEvidence(w, c, trace, g)) <==> !Skips(c)
  {
    FixesAreGatedBeforeNextRound(trace, f, r);
    TruthfulLooksRightly(w, c, trace, |trace|);
    assert trace[..|trace|] == trace;
    forall g | f < g < r && trace[g].GateRun?
      ensures LooksRightly(Skips(c), trace[g]) && (Looks(trace[g]) <==> LookEvidence(w, c, trace, g))
    {
      assert Answered(w, c, g, trace[g]);
      LooksIsEvidence(w, c, trace, g);
    }
  }

  /**
   Whatever the world answers, the gate step passed before a publication: by a validation on file, the
   project's own gate, or a gate loop that earned its success, perhaps by a skip.
   */
  lemma {:induction false} PublicationRestsOnAGate(w: World, c: Config, trace: seq<Event>, p: nat)
    requires Summarize(trace).wellFormed && Truthful(w, c, trace) && p < |trace| && trace[p].Publish?
    ensures exists g :: g < p && GateEvidence(w, c, trace, g)
    ensures !c.noCommit
  {
    GateHeldBefore(trace, p);
    var g :| 0 <= g < p && MilestoneOf(trace[g]) == Some(GateHeld);
    assert Answered(w, c, g, trace[g]) && Answered(w, c, p, trace[p]);
    GateHeldIsEvidence(w, c, trace, g);
  }

  /**
   Before a publication a gate saw some state of the tree exactly when the gate step rested on a gate, or a fix
   that the review asked for went through a gate that is not skipped.
   */
  lemma {:induction false} PublicationRestsOnALookExactly(w: World, c: Config, trace: seq<Event>, p: nat)
    requires Summarize(trace).wellFormed && Truthful(w, c, trace) && p < |trace| && trace[p].Publish?
    ensures (exists g :: g < p && LookEvidence(w, c, trace, g)) <==>
            StepLooked(Skips(c), trace[..p]) || (!Skips(c) && FixAgent(ReviewRequest) in trace[..p])
  {
    SummaryOfPrefix(trace, p);
    StepsComeInOrder(trace[..p]);
    TruthfulLooksRightly(w, c, trace, p);
    GateLookedMeaning(Skips(c), trace[..p]);
    forall g | 0 <= g < p
      ensures Looks(trace[g]) <==> LookEvidence(w, c, trace, g)
      ensures Looks(trace[g]) ==>
        StepLooked(Skips(c), trace[..p]) || (!Skips(c) && FixAgent(ReviewRequest) in trace[..p])
    {
      assert Answered(w, c, g, trace[g]) && trace[..p][g] == trace[g];
      LooksIsEvidence(w, c, trace, g);
      if Looks(trace[g]) {
        LookBelongs(Skips(c), trace, g, p);
      }
    }
    if StepLooked(Skips(c), trace[..p]) {
      var g := GateLookedAt(trace[..p]);
      assert Looks(trace[g]);
    } else if !Skips(c) && FixAgent(ReviewRequest) in trace[..p] {
      PublishedSeenExactly(w, c, trace, p);
      var g :| SeenSince(trace, g, p);
    }
  }

  /** And an approval was given that no later fix had made stale. */
  lemma {:induction false} PublicationRestsOnAReview(w: World, c: Config, trace: seq<Event>, p: nat)
    requires Summarize(trace).wellFormed && Truthful(w, c, trace) && p < |trace| && trace[p].Publish?
    ensures exists a :: a < p && ApprovalEvidence(w, c, trace, a) && forall i :: a < i < p ==> !Fixes(trace[i])
  {
    PublicationIsEarned(trace, p);
    var a :| ApprovedAt(trace[..p], a);
    assert trace[..p][a] == trace[a] && Answered(w, c, a, trace[a]);
    assert ApprovalEvidence(w, c, trace, a);
    assert forall i :: a < i < p ==> trace[i] == trace[..p][i];
  }

  /** The sync that began at `start` ended well at `i`: no conflict, or a rebase that was settled, none in progress. */
  ghost predicate SyncedAt(w: World, trace: seq<Event>, i: int, start: nat) {
    && 0 <= i < |trace| && trace[i] == Synced(start, true) && start <= i <= start + 1
    && (w.rebase(start).Some? ==> SettledBy(w.rebase(start).value, w.settle(start)))
  }

  ghost predicate SettledBy(replay: Replay, settle: Settler) {
    var (left, ok) := Rebase.Outcome(replay, settle);
    ok && !left.InProgress() && (left.Finished? <==> !Rebase.LeftUnfinished(replay, settle))
  }

  lemma {:induction false} SyncIsEvidence(w: World, c: Config, trace: seq<Event>, i: nat)
    requires i < |trace| && Answered(w, c, i, trace[i]) && MilestoneOf(trace[i]) == Some(InSyncWithBase)
    ensures SyncedAt(w, trace, i, trace[i].start)
  {
    var start := trace[i].start;
    if w.rebase(start).Some? {
      Rebase.SettlementIsExact(w.rebase(start).value, w.settle(start));
    }
  }

  /** And the branch was on its base: there was no conflict, or the rebase was settled and none is in progress. */
  lemma {:induction false} PublicationRestsOnASync(w: World, c: Config, trace: seq<Event>, p: nat)
    requires Summarize(trace).wellFormed && Truthful(w, c, trace) && p < |trace| && trace[p].Publish?
    ensures exists i, start :: SyncedAt(w, trace, i, start) && i < p
  {
    PublicationIsEarned(trace, p);
    assert THE_LINE[3] == InSyncWithBase;
    StepHappened(trace[..p], InSyncWithBase);
    var i :| 0 <= i < p && MilestoneOf(trace[..p][i]) == Some(InSyncWithBase);
    assert trace[..p][i] == trace[i] && Answered(w, c, i, trace[i]);
    SyncIsEvidence(w, c, trace, i);
  }
}

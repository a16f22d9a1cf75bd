/**
 What can happen in one delivery of run_ticket.py, and what a trace of it comes to.
 */
module DeliveryTrace {
  import opened Prelude
  import G = GateTrace
  import Gate

  const REVIEW_ATTEMPTS: nat := 4
  const DOCS_ATTEMPTS: nat := 2

  /** The artifacts a stage requires before it goes on. */
  datatype Artifact =
    | PlanArtifact | ResearchArtifact | BuildArtifact | ValidationArtifact | VerdictArtifact | MergeArtifact
    | DeployArtifact

  datatype Purpose = RebaseConflict | DocsSync | ReviewRequest | RedCi

  /** Where the gate runs: on the way to the review, or again after a fix the review asked for. */
  datatype Place = OnDelivery | AfterReviewFix

  datatype GateVerdict =
    | ExternalGate(ok: bool)    // the project's own declared commands
    | FactoryGate(outcome: Gate.Outcome, skip: bool, inner: seq<G.Event>)    // the self-correcting loop
  {
    predicate Passed() {
      if ExternalGate? then ok else outcome.Passed?
    }
    /** Passed by a gate that ran on the tree as it is left, not by a skip. */
    predicate Looked() {
      Passed() && (FactoryGate? ==> Gate.OfficialPassed(inner))
    }
    /** Whether a fix agent ran inside. */
    predicate Fixed() {
      FactoryGate? && exists i :: 0 <= i < |inner| && inner[i].FixAgent?
    }
  }

  /**
   What a validation on file rests on: a gate that passed on this candidate, a run with --skip-validation, or,
   when it does not name its candidate, a gate or a skip on some tree (it is kept for a bound approval).
   */
  datatype ValidatedBy = ByGate | BySkip | Unbound

  datatype DocsAnswer = InSync | Violations | NotVerified

  datatype ReviewOutcome = Success | Retry | OtherOutcome

  datatype ReviewAnswer =
    | ReviewCrashed
    | Reviewed(outcome: ReviewOutcome, routeWait: bool, notBefore: bool, development: bool)
  {
    predicate Approves() {
      Reviewed? && outcome.Success?
    }
  }

  datatype PublishAnswer = NoReport | Report(ok: bool, ciFailed: bool)

  datatype Event =
    | Require(artifact: Artifact, present: bool)
    | CancelCheck(seen: bool)
    | Synced(start: nat, ok: bool)          // the rebase that began at that moment is settled, or is not
    | ValidationReused(origin: ValidatedBy)
    | GateRun(place: Place, verdict: GateVerdict)
    | DocsCheck(answer: DocsAnswer)
    | ApprovalCheck(bound: bool)            // an earlier approval still bound to this candidate
    | ReviewRound(review: ReviewAnswer)
    | FixAgent(purpose: Purpose)
    | FixCommit(purpose: Purpose, ok: bool, changed: bool)
    | Publish(pushed: bool, report: PublishAnswer)

  /** The fix agent ran during this event. */
  predicate Fixes(e: Event) {
    e.FixAgent? || (e.GateRun? && e.verdict.Fixed())
  }

  predicate Approves(e: Event) {
    (e.ApprovalCheck? && e.bound) || (e.ReviewRound? && e.review.Approves())
  }

  /** A gate has seen this very tree: it passed now, in either place, or when the validation on file was written. */
  predicate Looks(e: Event) {
    (e.ValidationReused? && e.origin.ByGate?) || (e.GateRun? && e.verdict.Looked())
  }

  datatype Milestone =
    | PlanReady | ResearchReady | BuildReady | InSyncWithBase | GateHeld | DocsHeld | ReviewHeld | ValidationOnFile
    | VerdictOnFile

  /** The step of the line, if any, that an event completes. */
  function MilestoneOf(e: Event): Option<Milestone> {
    match e
    case Require(PlanArtifact, true) => Some(PlanReady)
    case Require(ResearchArtifact, true) => Some(ResearchReady)
    case Require(BuildArtifact, true) => Some(BuildReady)
    case Require(ValidationArtifact, true) => Some(ValidationOnFile)
    case Require(VerdictArtifact, true) => Some(VerdictOnFile)
    case Synced(_, true) => Some(InSyncWithBase)
    case ValidationReused(_) => Some(GateHeld)
    case GateRun(OnDelivery, verdict) => if verdict.Passed() then Some(GateHeld) else None
    case DocsCheck(answer) => if answer.Violations? then None else Some(DocsHeld)
    case _ => if Approves(e) then Some(ReviewHeld) else None
  }

  const THE_LINE: seq<Milestone> :=
    [PlanReady, ResearchReady, BuildReady, InSyncWithBase, GateHeld, DocsHeld, ReviewHeld, ValidationOnFile,
      VerdictOnFile]

  const LINE_LENGTH: nat := 9

  /** The step that comes after `n` of them. */
  function NextStep(n: nat): (m: Option<Milestone>)
    ensures |THE_LINE| == LINE_LENGTH && m == if n < LINE_LENGTH then Some(THE_LINE[n]) else None
  {
    match n
    case 0 => Some(PlanReady)
    case 1 => Some(ResearchReady)
    case 2 => Some(BuildReady)
    case 3 => Some(InSyncWithBase)
    case 4 => Some(GateHeld)
    case 5 => Some(DocsHeld)
    case 6 => Some(ReviewHeld)
    case 7 => Some(ValidationOnFile)
    case 8 => Some(VerdictOnFile)
    case _ => None
  }

  function Milestones(trace: seq<Event>): seq<Milestone> {
    if trace == [] then []
    else
      var m := MilestoneOf(trace[|trace| - 1]);
      Milestones(trace[..|trace| - 1]) + if m.Some? then [m.value] else []
  }

  /** Where a fix the review asked for stands: its commit and then a passing gate must follow. */
  datatype FixState = Closed | AwaitsCommit | AwaitsGate

  datatype Summary = Summary(
    reached: nat,          // steps of the line completed
    cancelSeen: bool,
    approved: bool,        // approved, and no fix agent ran since
    rounds: nat,
    reviewFix: FixState,
    publishes: nat,
    report: Option<PublishAnswer>,
    lateFixes: nat,        // fix-agent calls after a publication
    violations: nat,       // documentation checks that found violations
    docsFixes: nat,
    reviewFixes: nat,
    gateLooked: bool,      // the gate step rests on a gate, not on a skip
    seen: bool,            // no fix agent ran since a gate last saw the tree
    wellFormed: bool)

  const NOTHING_YET: Summary := Summary(0, false, false, 0, Closed, 0, None, 0, 0, 0, 0, false, false, true)

  function ReviewFixAfter(before: FixState, e: Event): FixState {
    match e
    case FixAgent(ReviewRequest) => AwaitsCommit
    case FixCommit(ReviewRequest, true, _) => AwaitsGate
    case GateRun(AfterReviewFix, verdict) => if verdict.Passed() then Closed else before
    case _ => before
  }

  function Next(s: Summary, e: Event): Summary {
    Summary(
      s.reached + (if MilestoneOf(e).Some? then 1 else 0),
      s.cancelSeen || (e.CancelCheck? && e.seen),
      Approves(e) || (s.approved && !Fixes(e)),
      s.rounds + (if e.ReviewRound? then 1 else 0),
      ReviewFixAfter(s.reviewFix, e),
      s.publishes + (if e.Publish? then 1 else 0),
      if e.Publish? then Some(e.report) else s.report,
      s.lateFixes + (if Fixes(e) && s.publishes > 0 then 1 else 0),
      s.violations + (if e.DocsCheck? && e.answer.Violations? then 1 else 0),
      s.docsFixes + (if e.FixAgent? && e.purpose.DocsSync? then 1 else 0),
      s.reviewFixes + (if e.FixAgent? && e.purpose.ReviewRequest? then 1 else 0),
      if MilestoneOf(e) == Some(GateHeld) then Looks(e) else s.gateLooked,
      Looks(e) || (s.seen && !Fixes(e)),
      s.wellFormed && Follows(s, e))
  }

  /** Which step may send the development agent: the rebase, the documentation, the review, a red CI. */
  predicate MayFix(s: Summary, purpose: Purpose) {
    match purpose
    case RebaseConflict => s.reached == 3
    case DocsSync => s.reached == 5 && s.violations == 1 && s.docsFixes == 0
    case ReviewRequest => s.reached == 6 && s.rounds > 0 && s.reviewFix.Closed?
    case RedCi => s.publishes > 0
  }

  /** What must have happened before `e` may. */
  predicate Follows(s: Summary, e: Event) {
    && (MilestoneOf(e).Some? ==> MilestoneOf(e) == NextStep(s.reached))
    && (e.Publish? ==> s.reached == LINE_LENGTH && s.approved && s.publishes == 0)
    && (e.ReviewRound? ==> s.reached == 6 && s.reviewFix.Closed? && s.rounds < REVIEW_ATTEMPTS)
    && (e.GateRun? ==> if e.place.AfterReviewFix? then s.reviewFix.AwaitsGate? else s.reached == 4)
    && (e.DocsCheck? ==> s.reached == 5 && s.violations == s.docsFixes < DOCS_ATTEMPTS)
    && (e.ApprovalCheck? ==> s.reached == 6 && s.rounds == 0)
    && (e.FixAgent? ==> MayFix(s, e.purpose))
    && (e.FixCommit? && e.purpose.ReviewRequest? ==> s.reviewFix.AwaitsCommit?)
    && (Fixes(e) && s.publishes > 0 ==>
       e.FixAgent? && e.purpose.RedCi? && s.report == Some(Report(false, true)) && s.lateFixes == 0)
    && (s.cancelSeen ==> e.CancelCheck? || (e.Require? && s.publishes > 0))
  }

  function Summarize(trace: seq<Event>): Summary {
    if trace == [] then NOTHING_YET else Next(Summarize(trace[..|trace| - 1]), trace[|trace| - 1])
  }

  ghost predicate IsFold(trace: seq<Event>, past: seq<Summary>) {
    && |past| == |trace| + 1
    && past[0] == NOTHING_YET
    && forall i {:trigger trace[i]} :: 0 <= i < |trace| ==> past[i + 1] == Next(past[i], trace[i])
  }

  lemma {:induction false} FoldGrows(trace: seq<Event>, past: seq<Summary>, e: Event)
    requires IsFold(trace, past)
    ensures IsFold(trace + [e], past + [Next(past[|trace|], e)])
  {
  }

  lemma {:induction false} FoldIsSummarize(trace: seq<Event>, past: seq<Summary>)
    requires IsFold(trace, past)
    ensures past[|trace|] == Summarize(trace)
  {
    if trace != [] {
      var n := |trace| - 1;
      FoldIsSummarize(trace[..n], past[..n + 1]);
      assert past[n + 1] == Next(past[n], trace[n]);
    }
  }

  // ---- what a well-formed trace promises

  lemma {:induction false} SummaryOfPrefix(trace: seq<Event>, n: nat)
    requires n <= |trace| && Summarize(trace).wellFormed
    ensures Summarize(trace[..n]).wellFormed
    ensures n < |trace| ==> Follows(Summarize(trace[..n]), trace[n])
  {
    if n < |trace| - 1 {
      SummaryOfPrefix(trace[..|trace| - 1], n);
      assert trace[..|trace| - 1][..n] == trace[..n];
    } else if n == |trace| {
      assert trace[..n] == trace;
    }
  }

  lemma {:induction false} SummaryMeaning(trace: seq<Event>)
    ensures var s := Summarize(trace);
            && (s.cancelSeen <==> CancelCheck(true) in trace)
            && (s.publishes > 0 <==> exists i :: 0 <= i < |trace| && trace[i].Publish?)
            && (s.approved ==> exists a :: ApprovedAt(trace, a))
  {
    if trace != [] {
      var n := |trace| - 1;
      var before := trace[..n];
      SummaryMeaning(before);
      assert trace == before + [trace[n]];
      assert forall i :: 0 <= i < n ==> trace[i] == before[i];
      if Approves(trace[n]) {
        assert ApprovedAt(trace, n);
      } else if Summarize(trace).approved {
        var a :| ApprovedAt(before, a);
        assert ApprovedAt(trace, a);
      }
    }
  }

  /** The review approved at `a`, and no fix agent ran after that. */
  ghost predicate ApprovedAt(trace: seq<Event>, a: int) {
    0 <= a < |trace| && Approves(trace[a]) && forall i :: a < i < |trace| ==> !Fixes(trace[i])
  }

  /** At every moment of a run the steps completed are the first ones of the line, in its order, each once. */
  lemma {:induction false} StepsComeInOrder(trace: seq<Event>)
    requires Summarize(trace).wellFormed
    ensures Summarize(trace).reached <= LINE_LENGTH == |THE_LINE|
    ensures Milestones(trace) == THE_LINE[..Summarize(trace).reached]
  {
    if trace != [] {
      StepsComeInOrder(trace[..|trace| - 1]);
    }
  }

  /**
   A publication comes after every step of the line, in the line's order and each exactly once; no
   checkpoint before it saw a cancellation, and no fix agent ran between the approval and it.
   */
  lemma {:induction false} PublicationIsEarned(trace: seq<Event>, p: nat)
    requires Summarize(trace).wellFormed && p < |trace| && trace[p].Publish?
    ensures Milestones(trace[..p]) == THE_LINE
    ensures CancelCheck(true) !in trace[..p]
    ensures exists a :: ApprovedAt(trace[..p], a)
    ensures forall i :: 0 <= i < p ==> !trace[..p][i].Publish?
  {
    SummaryOfPrefix(trace, p);
    SummaryMeaning(trace[..p]);
    StepsComeInOrder(trace[..p]);
  }

  /** Once a checkpoint saw the cancellation nothing runs: no agent, no gate, no review, no publication. */
  lemma {:induction false} NothingRunsAfterCancel(trace: seq<Event>, i: nat, j: nat)
    requires Summarize(trace).wellFormed && i < j < |trace| && trace[i] == CancelCheck(true)
    ensures trace[j].CancelCheck? || trace[j].Require?
  {
    SummaryOfPrefix(trace, j);
    SummaryMeaning(trace[..j]);
    assert trace[..j][i] == CancelCheck(true);
  }

  /** No delivery publishes twice. */
  lemma {:induction false} PublishedOnce(trace: seq<Event>, p: nat, q: nat)
    requires Summarize(trace).wellFormed && p < |trace| && trace[p].Publish?
    requires q < |trace| && trace[q].Publish?
    ensures p == q
  {
    if q != p {
      PublicationIsEarned(trace, if q < p then p else q);
      assert false;
    }
  }

  /** After a publication the fix agent runs at most once, and only for a red CI. */
  lemma {:induction false} AfterPublicationOnlyCiRepair(trace: seq<Event>, p: nat, i: nat)
    requires Summarize(trace).wellFormed && p < i < |trace| && trace[p].Publish? && Fixes(trace[i])
    ensures trace[i] == FixAgent(RedCi)
    ensures trace[p].report == Report(false, true)
    ensures forall j :: p < j < |trace| && Fixes(trace[j]) ==> j == i
  {
    SummaryOfPrefix(trace, i);
    ReportIsTheLast(trace, p, i);
    forall j | p < j < |trace| && Fixes(trace[j])
      ensures j == i
    {
      if j < i {
        LateFixCounted(trace, p, j, i);
      } else if i < j {
        SummaryOfPrefix(trace, j);
        ReportIsTheLast(trace, p, j);
        LateFixCounted(trace, p, i, j);
      }
    }
  }

  lemma {:induction false} ReportIsTheLast(trace: seq<Event>, p: nat, n: nat)
    requires Summarize(trace).wellFormed && p < n <= |trace| && trace[p].Publish?
    ensures Summarize(trace[..n]).report == Some(trace[p].report) && Summarize(trace[..n]).publishes > 0
    decreases n
  {
    assert trace[..n][..n - 1] == trace[..n - 1];
    if p < n - 1 {
      ReportIsTheLast(trace, p, n - 1);
      if trace[n - 1].Publish? {
        PublishedOnce(trace, p, n - 1);
      }
    }
  }

  lemma {:induction false} LateFixCounted(trace: seq<Event>, p: nat, j: nat, n: nat)
    requires Summarize(trace).wellFormed && p < j < n <= |trace| && trace[p].Publish? && Fixes(trace[j])
    ensures Summarize(trace[..n]).lateFixes > 0
    decreases n
  {
    assert trace[..n][..n - 1] == trace[..n - 1];
    if j < n - 1 {
      LateFixCounted(trace, p, j, n - 1);
    } else {
      ReportIsTheLast(trace, p, j);
    }
  }

  /**
   Every fix a review asked for was committed and passed the gate step before the next round looked at it. The
   step passes by a skip as well; `Delivery.FixesAreSeenBeforeNextRoundExactly` says when a gate saw the fix.
   */
  lemma {:induction false} FixesAreGatedBeforeNextRound(trace: seq<Event>, f: nat, r: nat)
    requires Summarize(trace).wellFormed && f < r < |trace|
    requires trace[f] == FixAgent(ReviewRequest) && trace[r].ReviewRound?
    ensures exists g :: f < g < r && trace[g].GateRun? && trace[g].place.AfterReviewFix? && trace[g].verdict.Passed()
  {
    SummaryOfPrefix(trace, r);
    ClosedMeansGated(trace[..r], f);
    var g :| f < g < r && trace[..r][g].GateRun? && trace[..r][g].place.AfterReviewFix?
      && trace[..r][g].verdict.Passed();
    assert trace[g] == trace[..r][g];
  }

  lemma {:induction false} ClosedMeansGated(trace: seq<Event>, f: nat)
    requires f < |trace| && trace[f] == FixAgent(ReviewRequest) && Summarize(trace).reviewFix.Closed?
    ensures exists g ::
      f < g < |trace| && trace[g].GateRun? && trace[g].place.AfterReviewFix? && trace[g].verdict.Passed()
  {
    var n := |trace| - 1;
    var before := trace[..n];
    var e := trace[n];
    if !(e.GateRun? && e.place.AfterReviewFix? && e.verdict.Passed()) {
      ClosedMeansGated(before, f);
      var g :| f < g < n && before[g].GateRun? && before[g].place.AfterReviewFix? && before[g].verdict.Passed();
      assert trace[g] == before[g];
    } else {
      assert f < n;
      assert trace[n].GateRun?;
    }
  }

  // ---- which tree is published

  /** A gate saw the tree, and no fix agent ran between that and moment `p`. */
  ghost predicate SeenByGate(trace: seq<Event>, p: nat)
    requires p <= |trace|
  {
    exists g :: SeenSince(trace, g, p)
  }

  ghost predicate SeenSince(trace: seq<Event>, g: int, p: nat)
    requires p <= |trace|
  {
    0 <= g < p && Looks(trace[g]) && forall f :: g < f < p ==> !Fixes(trace[f])
  }

  lemma {:induction false} SeenMeaning(trace: seq<Event>, p: nat)
    requires p <= |trace|
    ensures Summarize(trace[..p]).seen <==> SeenByGate(trace, p)
  {
    if p > 0 {
      var n := p - 1;
      SeenMeaning(trace, n);
      assert trace[..p][..n] == trace[..n];
      if !Fixes(trace[n]) {
        if g :| SeenSince(trace, g, n) {
          assert SeenSince(trace, g, p);
        }
      }
      assert Looks(trace[n]) ==> SeenSince(trace, n, p);
      if g :| SeenSince(trace, g, p) && g < n {
        assert SeenSince(trace, g, n);
      }
    }
  }

  lemma {:induction false} CountsMeaning(trace: seq<Event>)
    ensures var s := Summarize(trace);
            && (s.violations > 0 <==> DocsCheck(Violations) in trace)
            && (s.reviewFixes > 0 <==> FixAgent(ReviewRequest) in trace)
            && (s.docsFixes > 0 <==> FixAgent(DocsSync) in trace)
  {
    if trace != [] {
      var n := |trace| - 1;
      CountsMeaning(trace[..n]);
      assert trace == trace[..n] + [trace[n]];
    }
  }

  /** Before a publication: where the documentation and the review stand. */
  ghost predicate FixesInPlace(s: Summary) {
    && (s.reached < 5 ==> s.violations == 0)
    && (s.reached < 6 ==> s.rounds == 0)
    && (s.rounds == 0 ==> s.reviewFixes == 0)
    && (s.reviewFixes == 0 ==> s.reviewFix.Closed?)
    && s.docsFixes <= s.violations
    && (s.reached >= 6 ==> s.docsFixes == s.violations)
    && (s.reached >= 7 ==> s.reviewFix.Closed?)
  }

  lemma {:induction false} FixesStayInPlace(s: Summary, e: Event)
    requires FixesInPlace(s) && Follows(s, e) && Next(s, e).publishes == 0
    ensures FixesInPlace(Next(s, e))
  {
  }

  lemma {:induction false} FixesAreInPlace(trace: seq<Event>)
    requires Summarize(trace).wellFormed && Summarize(trace).publishes == 0
    ensures FixesInPlace(Summarize(trace))
  {
    if trace != [] {
      FixesAreInPlace(trace[..|trace| - 1]);
      FixesStayInPlace(Summarize(trace[..|trace| - 1]), trace[|trace| - 1]);
    }
  }

  /** A gate loop that passes has run the gate exactly when it does not skip it. */
  predicate LooksRightly(skips: bool, e: Event) {
    e.GateRun? && e.verdict.Passed() ==> (e.verdict.Looked() <==> !skips)
  }

  /** What of the tree a gate has seen, by how the fixes stand. */
  ghost predicate SeenInPlace(skips: bool, s: Summary) {
    if s.reached < 5 then !s.seen
    else s.seen <==> s.reviewFix.Closed? && if s.reviewFixes > 0 then !skips else s.gateLooked && s.docsFixes == 0
  }

  lemma {:induction false} SeenStaysInPlace(skips: bool, s: Summary, e: Event)
    requires FixesInPlace(s) && SeenInPlace(skips, s) && LooksRightly(skips, e)
    requires Follows(s, e) && Next(s, e).publishes == 0
    ensures SeenInPlace(skips, Next(s, e))
  {
  }

  lemma {:induction false} SeenIsInPlace(skips: bool, trace: seq<Event>)
    requires Summarize(trace).wellFormed && Summarize(trace).publishes == 0
    requires forall i :: 0 <= i < |trace| ==> LooksRightly(skips, trace[i])
    ensures SeenInPlace(skips, Summarize(trace))
  {
    if trace != [] {
      var before := trace[..|trace| - 1];
      FixesAreInPlace(before);
      SeenIsInPlace(skips, before);
      SeenStaysInPlace(skips, Summarize(before), trace[|trace| - 1]);
    }
  }

  /** The gate step rested on a gate: on file, or now. */
  ghost predicate StepLooked(skips: bool, trace: seq<Event>) {
    ValidationReused(ByGate) in trace || (!skips && forall origin :: ValidationReused(origin) !in trace)
  }

  lemma {:induction false} GateLookedMeaning(skips: bool, trace: seq<Event>)
    requires Summarize(trace).wellFormed
    requires forall i :: 0 <= i < |trace| ==> LooksRightly(skips, trace[i])
    ensures var s := Summarize(trace);
            if s.reached >= 5 then s.gateLooked <==> StepLooked(skips, trace)
            else forall origin :: ValidationReused(origin) !in trace
  {
    if trace != [] {
      var n := |trace| - 1;
      GateLookedMeaning(skips, trace[..n]);
      assert trace == trace[..n] + [trace[n]];
    }
  }

  /** Neither the gate step, the documentation nor the review had a turn between the two. */
  predicate KeepsCounts(s: Summary, t: Summary) {
    t.gateLooked == s.gateLooked && t.violations == s.violations && t.reviewFixes == s.reviewFixes
  }

  /** And by the later one all steps are done. */
  predicate SameCounts(s: Summary, t: Summary) {
    t.reached >= LINE_LENGTH && KeepsCounts(s, t)
  }

  lemma {:induction false} CountsStayPut(s: Summary, e: Event)
    requires s.reached >= LINE_LENGTH && Follows(s, e)
    ensures SameCounts(s, Next(s, e))
  {
  }

  lemma {:induction false} CountsStayOnce(trace: seq<Event>, n: nat)
    requires Summarize(trace).wellFormed && n < |trace| && Summarize(trace[..n]).reached >= LINE_LENGTH
    ensures SameCounts(Summarize(trace[..n]), Summarize(trace[..n + 1]))
  {
    SummaryOfPrefix(trace, n);
    assert trace[..n + 1][..n] == trace[..n];
    CountsStayPut(Summarize(trace[..n]), trace[n]);
  }

  lemma {:induction false} CountsStay(trace: seq<Event>, p: nat, n: nat)
    requires Summarize(trace).wellFormed && p < n <= |trace| && Summarize(trace[..p]).reached >= LINE_LENGTH
    ensures SameCounts(Summarize(trace[..p]), Summarize(trace[..n]))
    decreases n
  {
    var m := n - 1;
    if p < m {
      CountsStay(trace, p, m);
    }
    CountsStayOnce(trace, m);
  }

  lemma {:induction false} GateLookedAt(trace: seq<Event>) returns (g: nat)
    requires Summarize(trace).gateLooked
    ensures g < |trace| && Looks(trace[g])
  {
    var n := |trace| - 1;
    if MilestoneOf(trace[n]) == Some(GateHeld) {
      g := n;
    } else {
      g := GateLookedAt(trace[..n]);
    }
  }

  /** Once the gate step is done it does not come again. */
  predicate SameLook(s: Summary, t: Summary) {
    t.reached >= 5 && t.gateLooked == s.gateLooked
  }

  lemma {:induction false} SameLookOnce(trace: seq<Event>, n: nat)
    requires Summarize(trace).wellFormed && n < |trace| && Summarize(trace[..n]).reached >= 5
    ensures SameLook(Summarize(trace[..n]), Summarize(trace[..n + 1]))
  {
    SummaryOfPrefix(trace, n);
    assert trace[..n + 1][..n] == trace[..n];
  }

  lemma {:induction false} GateLookedStays(trace: seq<Event>, m: nat, n: nat)
    requires Summarize(trace).wellFormed && m <= n <= |trace| && Summarize(trace[..m]).reached >= 5
    ensures SameLook(Summarize(trace[..m]), Summarize(trace[..n]))
    decreases n
  {
    if m < n {
      var k := n - 1;
      GateLookedStays(trace, m, k);
      SameLookOnce(trace, k);
    }
  }

  lemma {:induction false} NothingPublishedBefore(trace: seq<Event>, g: nat, p: nat)
    requires Summarize(trace).wellFormed && g <= p < |trace| && trace[p].Publish?
    ensures Summarize(trace[..g]).publishes == 0
  {
    SummaryMeaning(trace[..g]);
    if i :| 0 <= i < g && trace[..g][i].Publish? {
      PublishedOnce(trace, i, p);
    }
  }

  /** A look before a publication is the gate step's, or that of a fix which the review asked for. */
  lemma {:induction false} LookBelongs(skips: bool, trace: seq<Event>, g: nat, p: nat)
    requires Summarize(trace).wellFormed && g < p < |trace| && trace[p].Publish? && Looks(trace[g])
    requires forall i :: 0 <= i < p ==> LooksRightly(skips, trace[..p][i])
    ensures StepLooked(skips, trace[..p]) || (!skips && FixAgent(ReviewRequest) in trace[..p])
  {
    SummaryOfPrefix(trace, g);
    SummaryOfPrefix(trace, p);
    assert trace[..p][g] == trace[g];
    if trace[g].GateRun? && trace[g].place.AfterReviewFix? {
      NothingPublishedBefore(trace, g, p);
      FixesAreInPlace(trace[..g]);
      CountsMeaning(trace[..g]);
      assert trace[..p][..g] == trace[..g];
    } else {
      assert trace[..g + 1][..g] == trace[..g];
      GateLookedStays(trace, g + 1, p);
      GateLookedMeaning(skips, trace[..p]);
    }
  }
}

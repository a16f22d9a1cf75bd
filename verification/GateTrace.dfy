/**
 The vocabulary of the gate loop of run_ticket.py: what can happen, what is logged, and the laws of
 the log that hold of every well-formed trace.
 */
module GateTrace {
  import opened Prelude

  const GATE_FIX_ATTEMPTS: nat := 2
  const GATE_REMOTE_RETRIES: nat := 2
  const RESOURCE_WAIT_CODE: int := 75

  /** Seconds slept before each retry on another worker. */
  function Backoff(retry: nat): nat {
    if retry == 0 then 15 else 45
  }

  datatype Stage = Focal | Official

  datatype Cause =
    | FocalTimeout
    | FocalTestsFailed
    | GateFailed
    | FixCommitFailed
    | FixAgentNoChanges
    | InsufficientRam
    | RemoteUnavailable
    | DirtyWorktree
    | GateTimeout
    | InfraNoTests
    | BaseRed

  datatype FocalReport = NoTargets | FocalPassed | FocalTimedOut(exit: int) | FocalFailed(exit: int)

  datatype FixResult = CommitError | Committed(changed: bool)

  /** One execution of the official gate, with what the text classifiers say about its output. */
  datatype GateResult = GateResult(
    code: int,
    killed: bool,        // cancelled while it ran
    resourceWait: bool,  // a step exited with 75
    unavailable: bool,   // no remote worker took it
    dirty: bool,         // it refused a dirty candidate
    timedOut: bool,
    noTests: bool,       // nothing discovered, a step died by signal
    baseRed: bool)       // only tests the diff does not touch failed

  datatype Event =
    | CancelCheck(seen: bool)
    | FocalRun(report: FocalReport)
    | FixAgent(stage: Stage)
    | FixCommit(stage: Stage, result: FixResult)
    | RamCheck(ok: bool)
    | OfficialRun(run: GateResult)
    | RemoteRetry(retry: nat)
    | Verdict(cause: Cause)   // what a failed official run is classified as
    | Skipped                 // --skip-validation

  datatype Entry =
    | TimeoutEntry(attempt: nat, stage: Stage, cause: Cause)
    | InfraEntry(attempt: nat, stage: Stage, cause: Cause)
    | ReinvocationEntry(attempt: nat, stage: Stage, cause: Cause, changed: bool)
    | RemoteRetryEntry(attempt: nat, retry: nat, backoff: nat)
  {
    predicate Terminal() {
      TimeoutEntry? || InfraEntry?
    }
  }

  /** The classification of a failed run, in the order the source tests it. */
  function Classify(r: GateResult): Cause {
    if r.resourceWait then InsufficientRam
    else if r.unavailable then RemoteUnavailable
    else if r.dirty then DirtyWorktree
    else if r.timedOut then GateTimeout
    else if r.noTests then InfraNoTests
    else if r.baseRed then BaseRed
    else GateFailed
  }

  predicate FocalProceeds(e: Event) {
    e.FocalRun? && (e.report.NoTargets? || e.report.FocalPassed?)
  }

  // ---- the log as a function of the trace

  /** What an event adds to the log after `fixes` calls of the fix agent. */
  function EntriesOf(fixes: nat, e: Event): seq<Entry> {
    match e
    case FocalRun(FocalTimedOut(_)) => [TimeoutEntry(fixes + 1, Focal, FocalTimeout)]
    case FixCommit(stage, CommitError) => [InfraEntry(fixes, stage, FixCommitFailed)]
    case FixCommit(stage, Committed(changed)) =>
      [ReinvocationEntry(fixes, stage, if stage == Focal then FocalTestsFailed else GateFailed, changed)]
    case RamCheck(false) => [InfraEntry(fixes + 1, Official, InsufficientRam)]
    case RemoteRetry(retry) => [RemoteRetryEntry(fixes + 1, retry + 1, Backoff(retry))]
    case Verdict(GateFailed) => []
    case Verdict(GateTimeout) => [TimeoutEntry(fixes + 1, Official, GateTimeout)]
    case Verdict(cause) => [InfraEntry(fixes + 1, Official, cause)]
    case _ => []
  }

  /** What a trace comes to: fix-agent calls, remote retries, the last run of the gate, the last two events, the log. */
  datatype Summary = Summary(
    fixes: nat,
    retries: nat,
    run: Option<GateResult>,
    previous: Option<Event>,
    last: Option<Event>,
    focal: bool,               // the last focal run passed and no fix came after it
    since: Option<GateResult>, // the gate's last run after it, when only the owner was asked since
    log: seq<Entry>,
    wellFormed: bool)

  const NOTHING_YET: Summary := Summary(0, 0, None, None, None, false, None, [], true)

  function Next(s: Summary, e: Event): Summary {
    Summary(
      s.fixes + (if e.FixAgent? then 1 else 0),
      s.retries + (if e.RemoteRetry? then 1 else 0),
      if e.OfficialRun? then Some(e.run) else s.run,
      s.last,
      Some(e),
      FocalProceeds(e) || (s.focal && !e.FixAgent? && !e.FocalRun?),
      if e.OfficialRun? then Some(e.run) else if e.CancelCheck? then s.since else None,
      s.log + EntriesOf(s.fixes, e),
      s.wellFormed && Follows(s, e))
  }

  function Summarize(trace: seq<Event>): Summary {
    if trace == [] then NOTHING_YET else Next(Summarize(trace[..|trace| - 1]), trace[|trace| - 1])
  }

  /** An event after which nothing may be tried any more. */
  predicate Final(e: Event) {
    match e
    case FocalRun(FocalTimedOut(_)) => true
    case FixCommit(_, CommitError) => true
    case RamCheck(false) => true
    case Verdict(cause) => cause != GateFailed
    case _ => false
  }

  /**
   Whether `e` may come next: nothing after a final event, a commit right after each fix, no work right
   after a cancellation was seen, a bounded number of fixes, and a verdict only on a failed run, as that
   run is classified.
   */
  predicate Follows(s: Summary, e: Event) {
    && (s.last.Some? ==>
          && !Final(s.last.value)
          && (s.last.value.FixAgent? ==> e.FixCommit? && e.stage == s.last.value.stage)
          && (s.last.value.CancelCheck? && s.last.value.seen ==> e.CancelCheck?))
    && (e.FixCommit? ==> s.last.Some? && s.last.value.FixAgent? && s.last.value.stage == e.stage)
    && (e.FixAgent? ==> s.fixes < GATE_FIX_ATTEMPTS)
    && (e.Verdict? ==> s.run.Some? && s.run.value.code != 0 && e.cause == Classify(s.run.value))
  }

  // ---- the shape of the log, for every well-formed trace

  function Reinvocations(log: seq<Entry>): nat {
    if log == [] then 0 else Reinvocations(log[..|log| - 1]) + if log[|log| - 1].ReinvocationEntry? then 1 else 0
  }

  function FailedCommits(log: seq<Entry>): nat {
    if log == [] then 0
    else
      var last := log[|log| - 1];
      FailedCommits(log[..|log| - 1]) + if last.InfraEntry? && last.cause == FixCommitFailed then 1 else 0
  }

  lemma {:induction false} CountsOfConcat(a: seq<Entry>, b: seq<Entry>)
    requires |b| <= 1
    ensures Reinvocations(a + b) == Reinvocations(a) + Reinvocations(b)
    ensures FailedCommits(a + b) == FailedCommits(a) + FailedCommits(b)
  {
    if b == [] {
      assert a + b == a;
    } else {
      assert (a + b)[..|a|] == a;
      assert b[..0] == [];
    }
  }

  ghost predicate OnlyLastIsTerminal(log: seq<Entry>) {
    forall i :: 0 <= i < |log| - 1 ==> !log[i].Terminal()
  }

  ghost predicate AttemptsIncrease(log: seq<Entry>) {
    forall i, j :: 0 <= i < j < |log| && log[i].ReinvocationEntry? && log[j].ReinvocationEntry? ==>
      log[i].attempt < log[j].attempt
  }

  ghost predicate AttemptsWithin(log: seq<Entry>, n: nat) {
    forall i :: 0 <= i < |log| && log[i].ReinvocationEntry? ==> 1 <= log[i].attempt <= n
  }

  lemma {:induction false} EntriesShape(fixes: nat, e: Event)
    ensures var more := EntriesOf(fixes, e);
            && |more| <= 1
            && (more != [] && more[0].Terminal() <==> Final(e))
            && (more != [] && more[0].ReinvocationEntry? <==> e.FixCommit? && e.result.Committed?)
            && (more != [] && more[0].ReinvocationEntry? ==> more[0].attempt == fixes)
            && (more != [] && more[0].InfraEntry? && more[0].cause == FixCommitFailed
                <==> (e.FixCommit? && e.result.CommitError?) || e == Verdict(FixCommitFailed))
  {
  }

  /** A timeout or infrastructure entry is the only one, the last one, and stands for the last event. */
  lemma {:induction false} TerminalEntryIsLast(trace: seq<Event>)
    requires Summarize(trace).wellFormed
    ensures var s := Summarize(trace);
            && OnlyLastIsTerminal(s.log)
            && ((s.last.Some? && Final(s.last.value)) <==> (s.log != [] && s.log[|s.log| - 1].Terminal()))
  {
    if trace != [] {
      var before, e := trace[..|trace| - 1], trace[|trace| - 1];
      TerminalEntryIsLast(before);
      EntriesShape(Summarize(before).fixes, e);
    }
  }

  /** The fix-agent call whose commit is still to come. */
  function Pending(s: Summary): nat {
    if s.last.Some? && s.last.value.FixAgent? then 1 else 0
  }

  /** The reinvocations are numbered upwards, each by the number of fix-agent calls made so far. */
  lemma {:induction false} ReinvocationsAreNumbered(trace: seq<Event>)
    requires Summarize(trace).wellFormed
    ensures var s := Summarize(trace);
            AttemptsIncrease(s.log) && Pending(s) <= s.fixes && AttemptsWithin(s.log, s.fixes - Pending(s))
  {
    if trace != [] {
      var before, e := trace[..|trace| - 1], trace[|trace| - 1];
      ReinvocationsAreNumbered(before);
      EntriesShape(Summarize(before).fixes, e);
    }
  }

  /** Every call of the fix agent has left a reinvocation or a failed commit, but for the one still running. */
  lemma {:induction false} FixesAreAccounted(trace: seq<Event>)
    requires Summarize(trace).wellFormed
    ensures var s := Summarize(trace);
            s.fixes == Reinvocations(s.log) + FailedCommits(s.log) + Pending(s) && s.fixes <= GATE_FIX_ATTEMPTS
  {
    if trace != [] {
      var before, e := trace[..|trace| - 1], trace[|trace| - 1];
      FixesAreAccounted(before);
      var more := EntriesOf(Summarize(before).fixes, e);
      EntriesShape(Summarize(before).fixes, e);
      CountsOfConcat(Summarize(before).log, more);
      if more != [] {
        assert more[..0] == [];
      }
    }
  }

  /** `fixes` counts the fix-agent calls. */
  lemma {:induction false} FixesCountsCalls(trace: seq<Event>)
    ensures Summarize(trace).fixes == |Filter((e: Event) => e.FixAgent?, trace)|
  {
    if trace != [] {
      var before, e := trace[..|trace| - 1], trace[|trace| - 1];
      FixesCountsCalls(before);
      assert trace == before + [e];
      FilterConcat((e: Event) => e.FixAgent?, before, [e]);
      assert [e][1..] == [];
    }
  }

  // ---- what a success rests on, said about the trace

  /** A focal pass at `p`; neither a fix nor another focal run after it. */
  ghost predicate FocalStands(trace: seq<Event>, p: nat) {
    p < |trace| && FocalProceeds(trace[p]) && forall i :: p < i < |trace| ==> !trace[i].FixAgent? && !trace[i].FocalRun?
  }

  /** The gate's last run is at `q`; only the owner was asked since. */
  ghost predicate RanAt(trace: seq<Event>, q: nat, run: GateResult) {
    q < |trace| && trace[q] == OfficialRun(run) && forall i :: q < i < |trace| ==> trace[i].CancelCheck?
  }

  lemma {:induction false} FocalIsStanding(trace: seq<Event>) returns (p: nat)
    requires Summarize(trace).focal
    ensures FocalStands(trace, p)
  {
    var before, e := trace[..|trace| - 1], trace[|trace| - 1];
    if FocalProceeds(e) {
      p := |trace| - 1;
    } else {
      p := FocalIsStanding(before);
    }
  }

  lemma {:induction false} RunIsStanding(trace: seq<Event>) returns (q: nat)
    requires Summarize(trace).since.Some?
    ensures RanAt(trace, q, Summarize(trace).since.value)
  {
    var before, e := trace[..|trace| - 1], trace[|trace| - 1];
    if e.OfficialRun? {
      q := |trace| - 1;
    } else {
      q := RunIsStanding(before);
    }
  }
}

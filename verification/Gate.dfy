/**
 The gate loop of run_ticket.py: focal tests, the official gate, and up to two self-corrections.

 The agent, git, the tests, the machine's memory and the owner's cancellation are a `World` that may
 answer anything at every moment; the moment is the length of the trace.
 */
module Gate {
  import opened Prelude
  import opened GateTrace

  datatype World = World(
    cancelled: nat -> bool,
    focal: nat -> FocalReport,
    fix: nat -> FixResult,
    ram: nat -> bool,          // false: memory for two workers did not become free in time
    official: nat -> GateResult)

  datatype StepResult = Proceed | Continue | Break | Cancel | Pass

  datatype Outcome =
    | Passed
    | Cancelled
    | Exhausted(cause: Cause, exitCode: int)

  /** The event is what the world answered at that moment. */
  predicate Answered(w: World, i: nat, e: Event) {
    match e
    case CancelCheck(seen) => seen == w.cancelled(i)
    case FocalRun(report) => report == w.focal(i)
    case FixCommit(_, result) => result == w.fix(i)
    case RamCheck(ok) => ok == w.ram(i)
    case OfficialRun(run) => run == w.official(i)
    case _ => true
  }

  ghost predicate Truthful(w: World, trace: seq<Event>) {
    forall i :: 0 <= i < |trace| ==> Answered(w, i, trace[i])
  }

  ghost predicate IsFold(trace: seq<Event>, past: seq<Summary>) {
    && |past| == |trace| + 1
    && past[0] == NOTHING_YET
    && forall i {:trigger trace[i]} :: 0 <= i < |trace| ==> past[i + 1] == Next(past[i], trace[i])
  }

  lemma {:induction false} FoldIsSummarize(trace: seq<Event>, past: seq<Summary>)
    requires IsFold(trace, past)
    ensures past[|trace|] == Summarize(trace)
  {
    if trace != [] {
      var n := |trace| - 1;
      FoldIsSummarize(trace[..n], past[..n + 1]);
      assert past[n + 1] == Next(past[n], trace[n]);
    }
  }

  /** Something happened, and no fix waits for its commit. */
  ghost predicate Settled(s: Summary) {
    s.last.Some? && !s.last.value.FixAgent?
  }

  ghost predicate CanGoOn(s: Summary) {
    s.last.Some? ==> !Final(s.last.value) && !s.last.value.FixAgent? && s.last.value != CancelCheck(true)
  }

  /** The official gate never ran. */
  ghost predicate NoOfficial(trace: seq<Event>) {
    forall i :: 0 <= i < |trace| ==> !trace[i].OfficialRun?
  }

  /** The official gate returned 0, and no fix agent ran after that. */
  predicate OfficialPassed(trace: seq<Event>) {
    exists q :: 0 <= q < |trace| && PassedAt(trace[q]) && forall i :: q < i < |trace| ==> !trace[i].FixAgent?
  }

  predicate PassedAt(e: Event) {
    e.OfficialRun? && e.run.code == 0 && !e.run.killed
  }

  /** Nobody cancels, and the focal pre-check never stands in the way. */
  ghost predicate Smooth(w: World) {
    forall n :: !w.cancelled(n) && (w.focal(n).NoTargets? || w.focal(n).FocalPassed?)
  }

  /** What a success rests on: a focal pass, no fix after it, and after it the official gate's last run returning 0. */
  ghost predicate Earned(trace: seq<Event>, skip: bool) {
    if skip then exists p :: FocalStands(trace, p) && trace[|trace| - 1] == Skipped
    else exists p, q, run :: FocalStands(trace, p) && RanAt(trace, q, run) && p < q && run.code == 0 && !run.killed
  }

  /** The same, said about what the trace comes to. */
  predicate Succeeds(s: Summary, skip: bool) {
    && s.focal
    && if skip then s.last == Some(Skipped)
       else && s.since.Some? && s.since.value.code == 0 && !s.since.value.killed
            && s.last.Some? && s.last.value.CancelCheck?
  }

  lemma {:induction false} SuccessIsEarned(trace: seq<Event>, skip: bool)
    requires Succeeds(Summarize(trace), skip)
    ensures Earned(trace, skip)
  {
    var p := FocalIsStanding(trace);
    if !skip {
      var q := RunIsStanding(trace);
      assert p != q;
      assert !(q < p);
    }
  }

  lemma {:induction false} NoRunMeansNoOfficial(trace: seq<Event>)
    requires Summarize(trace).run.None?
    ensures NoOfficial(trace)
  {
    if trace != [] {
      NoRunMeansNoOfficial(trace[..|trace| - 1]);
    }
  }

  /** A success that was not skipped is the official gate's, and one that was skipped never is. */
  lemma {:induction false} EarnedByTheGateExactly(trace: seq<Event>, skip: bool)
    requires Earned(trace, skip) && (skip ==> NoOfficial(trace))
    ensures OfficialPassed(trace) <==> !skip
  {
    if !skip {
      var p: nat, q: nat, run :| FocalStands(trace, p) && RanAt(trace, q, run) && p < q && run.code == 0 && !run.killed;
      assert PassedAt(trace[q]);
    }
  }

  /** What the trace must end with for each recorded cause. */
  ghost predicate Explains(cause: Cause, exitCode: int, s: Summary) {
    && s.last.Some?
    && var last := s.last.value;
       match cause
       case FocalTimeout => last.FocalRun? && last.report.FocalTimedOut?
       case FocalTestsFailed => last.FocalRun? && last.report.FocalFailed? && s.fixes == GATE_FIX_ATTEMPTS
       case FixCommitFailed => last.FixCommit? && last.result.CommitError?
       case FixAgentNoChanges =>
         last == CancelCheck(false) && s.previous.Some? && s.previous.value.FixCommit?
           && s.previous.value.result == Committed(false)
       case InsufficientRam => last == RamCheck(false)
         || (last == Verdict(InsufficientRam) && exitCode == RESOURCE_WAIT_CODE)
       case GateFailed => last == Verdict(GateFailed) && s.fixes == GATE_FIX_ATTEMPTS
       case _ => last == Verdict(cause)
  }

  ghost predicate EndsCancelled(s: Summary) {
    && s.last.Some?
    && (s.last.value == CancelCheck(true)
       || (s.run.Some? && s.run.value.killed && (s.last.value.CancelCheck? || s.last.value.OfficialRun?)))
  }

  /** The state of the loop: the source's GateState and attempts log, and the trace of what happened. */
  class GateLoop {
    const w: World
    const skip: bool
    var attempt: nat
    var lastCause: Cause
    var lastExitCode: int
    var log: seq<Entry>
    var trace: seq<Event>
    ghost var s: Summary          // what the trace comes to
    ghost var past: seq<Summary>  // what each of its prefixes came to

    constructor (w: World, skip: bool)
      ensures this.w == w && this.skip == skip
      ensures attempt == 0 && lastCause == GateFailed && lastExitCode == 1 && log == [] && trace == []
        && s == NOTHING_YET
      ensures Valid()
    {
      this.w, this.skip := w, skip;
      attempt, lastCause, lastExitCode, log, trace := 0, GateFailed, 1, [], [];
      s, past := NOTHING_YET, [NOTHING_YET];
    }

    /** The trace is well formed and truthful, and the log is its log. */
    ghost predicate Valid()
      reads this
    {
      && IsFold(trace, past) && s == past[|trace|] && s.wellFormed && log == s.log
      && Truthful(w, trace)
      && (skip ==> s.run.None?)
      && lastExitCode != 0
    }

    /** The loop may go on: no final event, no fix waiting for its commit, one fix per attempt so far. */
    ghost predicate Open()
      reads this
    {
      && Valid()
      && s.fixes == attempt <= GATE_FIX_ATTEMPTS
      && CanGoOn(s)
    }

    /** Appends an event to the trace, and to the log what the source logs for it. */
    method Happen(e: Event, entries: seq<Entry>)
      requires Valid() && Follows(s, e) && Answered(w, |trace|, e) && (skip ==> !e.OfficialRun?)
      requires entries == EntriesOf(s.fixes, e)
      modifies `trace, `log, `s, `past
      ensures Valid() && trace == old(trace) + [e]
      ensures s == Next(old(s), e)
    {
      s := Next(s, e);
      past := past + [s];
      trace := trace + [e];
      log := log + entries;
    }

    /** Asks whether the owner cancelled. */
    method CheckCancel() returns (seen: bool)
      requires Valid() && (s.last.Some? ==> !Final(s.last.value) && !s.last.value.FixAgent?)
      modifies `trace, `log, `s, `past
      ensures Valid() && s == Next(old(s), CancelCheck(seen)) && (Smooth(w) ==> !seen)
      ensures s.fixes == old(s.fixes) && s.retries == old(s.retries) && s.focal == old(s.focal) && Settled(s)
      ensures if seen then EndsCancelled(s) else CanGoOn(old(s)) ==> CanGoOn(s)
    {
      seen := w.cancelled(|trace|);
      Happen(CancelCheck(seen), []);
    }

    /** The fix agent runs and its changes are committed; the result decides how the loop goes on. */
    method Fix(stage: Stage) returns (step: StepResult)
      requires Open() && attempt < GATE_FIX_ATTEMPTS
      requires lastCause == if stage == Focal then FocalTestsFailed else GateFailed
      modifies `trace, `log, `s, `past, `lastCause
      ensures Valid() && s.fixes == attempt + 1 && s.retries == old(s.retries) && Settled(s)
      ensures step == Continue || step == Break || step == Cancel
      ensures step == Continue ==> CanGoOn(s)
      ensures step == Break ==> Explains(lastCause, lastExitCode, s)
      ensures step == Cancel ==> EndsCancelled(s)
    {
      Happen(FixAgent(stage), []);
      var result := w.fix(|trace|);
      if result.CommitError? {
        lastCause := FixCommitFailed;
        Happen(FixCommit(stage, result), [InfraEntry(attempt + 1, stage, lastCause)]);
        return Break;
      }
      Happen(FixCommit(stage, result), [ReinvocationEntry(attempt + 1, stage, lastCause, result.changed)]);
      var seen := CheckCancel();
      if seen {
        return Cancel;
      }
      if !result.changed {
        lastCause := FixAgentNoChanges;
        return Break;
      }
      return Continue;
    }

    /** Focal pre-check of one attempt. */
    method FocalStep() returns (step: StepResult)
      requires Open()
      modifies `trace, `log, `s, `past, `lastCause, `lastExitCode
      ensures Valid() && s.retries == old(s.retries) && Settled(s)
      ensures step != Pass && (Smooth(w) ==> step == Proceed)
      ensures step == Proceed ==> Open() && s.focal
      ensures step == Continue ==> s.fixes == attempt + 1 <= GATE_FIX_ATTEMPTS && CanGoOn(s)
      ensures step == Break ==> Explains(lastCause, lastExitCode, s)
      ensures step == Cancel ==> EndsCancelled(s)
    {
      var report := w.focal(|trace|);
      if report.NoTargets? || report.FocalPassed? {
        Happen(FocalRun(report), []);
        return Proceed;
      }
      lastExitCode := if report.exit != 0 then report.exit else 1;
      if report.FocalTimedOut? {
        lastCause := FocalTimeout;
        Happen(FocalRun(report), [TimeoutEntry(attempt + 1, Focal, lastCause)]);
        return Break;
      }
      Happen(FocalRun(report), []);
      lastCause := FocalTestsFailed;
      if attempt >= GATE_FIX_ATTEMPTS {
        return Break;
      }
      step := Fix(Focal);
    }

    /** Re-runs the gate on other workers while none takes it, a bounded number of times. */
    method RetryRemoteUnavailable(run: GateResult) returns (last: GateResult)
      requires Open() && s.focal && s.since == Some(run) == s.run && !skip
      requires s.last.Some? && (s.last.value.CancelCheck? || s.last.value.OfficialRun?)
      modifies `trace, `log, `s, `past
      ensures Valid() && s.fixes == attempt && s.focal && s.since == Some(last) == s.run
      ensures s.last.Some? && (s.last.value.CancelCheck? || s.last.value.OfficialRun?)
      ensures s.retries <= old(s.retries) + GATE_REMOTE_RETRIES
    {
      last := run;
      for retry := 0 to GATE_REMOTE_RETRIES
        invariant Open() && s.focal && s.since == Some(last) == s.run
        invariant s.last.Some? && (s.last.value.CancelCheck? || s.last.value.OfficialRun?)
        invariant s.retries <= old(s.retries) + retry
      {
        if !last.unavailable {
          break;
        }
        var seen := CheckCancel();
        if seen {
          break;
        }
        Happen(RemoteRetry(retry), [RemoteRetryEntry(attempt + 1, retry + 1, Backoff(retry))]);
        last := w.official(|trace|);
        Happen(OfficialRun(last), []);
      }
    }

    /** Memory, the gate itself, and the retries on other workers. */
    method RunOfficial() returns (step: StepResult, run: GateResult)
      requires Open() && s.focal && !skip
      modifies `trace, `log, `s, `past, `lastCause, `lastExitCode
      ensures Valid() && s.fixes == attempt
      ensures step == Proceed || step == Break || step == Cancel
      ensures step == Proceed ==> Open() && s.focal && s.since == Some(run) == s.run && !run.killed
      ensures step == Proceed ==> s.last == Some(CancelCheck(false))
      ensures step == Break ==> Explains(lastCause, lastExitCode, s)
      ensures step == Cancel ==> EndsCancelled(s)
      ensures s.retries <= old(s.retries) + GATE_REMOTE_RETRIES
    {
      var ram := w.ram(|trace|);
      run := w.official(0);
      if !ram {
        lastCause, lastExitCode := InsufficientRam, 1;
        Happen(RamCheck(false), [InfraEntry(attempt + 1, Official, lastCause)]);
        return Break, run;
      }
      Happen(RamCheck(true), []);
      run := w.official(|trace|);
      Happen(OfficialRun(run), []);
      var stopped := Interrupted(run);
      if stopped {
        return Cancel, run;
      }
      run := RetryRemoteUnavailable(run);
      stopped := Interrupted(run);
      return if stopped then Cancel else Proceed, run;
    }

    /** The gate was killed, or the owner cancelled meanwhile. */
    method Interrupted(run: GateResult) returns (stopped: bool)
      requires Valid() && s.since == Some(run) == s.run
      requires s.last.Some? && !Final(s.last.value) && (s.last.value.CancelCheck? || s.last.value.OfficialRun?)
      modifies `trace, `log, `s, `past
      ensures Valid() && s.fixes == old(s.fixes) && s.retries == old(s.retries) && s.focal == old(s.focal)
      ensures s.since == Some(run) == s.run
      ensures stopped ==> EndsCancelled(s)
      ensures !stopped ==> !run.killed && s.last == Some(CancelCheck(false))
    {
      stopped := run.killed;
      if !stopped {
        stopped := CheckCancel();
      }
    }

    /** Official gate of one attempt. */
    method OfficialStep() returns (step: StepResult)
      requires Open() && s.focal
      modifies `trace, `log, `s, `past, `lastCause, `lastExitCode
      ensures Valid() && Settled(s)
      ensures step != Proceed && (skip ==> step == Pass)
      ensures step == Pass ==> Succeeds(s, skip)
      ensures step == Continue ==> s.fixes == attempt + 1 <= GATE_FIX_ATTEMPTS && CanGoOn(s)
      ensures step == Break ==> Explains(lastCause, lastExitCode, s)
      ensures step == Cancel ==> EndsCancelled(s)
      ensures s.retries <= old(s.retries) + GATE_REMOTE_RETRIES
    {
      if skip {
        Happen(Skipped, []);
        return Pass;
      }
      var run: GateResult;
      step, run := RunOfficial();
      if step != Proceed {
        return;
      }
      if run.code == 0 {
        return Pass;
      }
      var infra := ClassifyFailure(run);
      if infra {
        return Break;
      }
      lastCause := GateFailed;
      if attempt >= GATE_FIX_ATTEMPTS {
        return Break;
      }
      step := Fix(Official);
    }

    /** Records the failed run; true when it is an infrastructure failure, which no code change can fix. */
    method ClassifyFailure(run: GateResult) returns (infra: bool)
      requires Open() && s.run == Some(run) && run.code != 0
      modifies `trace, `log, `s, `past, `lastCause, `lastExitCode
      ensures Valid() && s.fixes == attempt && s.retries == old(s.retries) && s.last == Some(Verdict(Classify(run)))
      ensures infra <==> Classify(run) != GateFailed
      ensures infra ==> Explains(lastCause, lastExitCode, s)
    {
      lastExitCode := run.code;
      var cause := Classify(run);
      if cause == GateFailed {
        Happen(Verdict(cause), []);
        return false;
      }
      lastCause := cause;
      if cause == InsufficientRam {
        lastExitCode := RESOURCE_WAIT_CODE;
      }
      Happen(Verdict(cause),
             [if cause == GateTimeout then TimeoutEntry(attempt + 1, Official, cause)
               else InfraEntry(attempt + 1, Official, cause)]);
      return true;
    }

    /** One attempt; `Continue` means a fix was made and committed. */
    method Attempt(n: nat) returns (step: StepResult)
      requires Valid() && s.fixes == n <= GATE_FIX_ATTEMPTS && CanGoOn(s)
      modifies this
      ensures Valid() && Settled(s)
      ensures step != Proceed && (skip && Smooth(w) ==> step == Pass)
      ensures step == Pass ==> Succeeds(s, skip)
      ensures step == Continue ==> s.fixes == n + 1 <= GATE_FIX_ATTEMPTS && CanGoOn(s)
      ensures step == Break ==> Explains(lastCause, lastExitCode, s)
      ensures step == Cancel ==> EndsCancelled(s)
      ensures step != Break ==> !Final(s.last.value)
      ensures s.retries <= old(s.retries) + GATE_REMOTE_RETRIES
    {
      attempt := n;
      var seen := CheckCancel();
      if seen {
        return Cancel;
      }
      step := FocalStep();
      if step == Proceed {
        seen := CheckCancel();
        if seen {
          return Cancel;
        }
        step := OfficialStep();
      }
    }
  }

  /** The three ways to give up that leave no timeout or infrastructure entry. */
  predicate Quiet(cause: Cause) {
    cause == FocalTestsFailed || cause == GateFailed || cause == FixAgentNoChanges
  }

  /** Any other cause is the cause of the log's last entry. */
  lemma {:induction false} CauseIsLogged(trace: seq<Event>, cause: Cause, exitCode: int)
    requires trace != [] && Summarize(trace).wellFormed && Explains(cause, exitCode, Summarize(trace))
    ensures var log := Summarize(trace).log;
            !Quiet(cause) ==> log != [] && log[|log| - 1].Terminal() && log[|log| - 1].cause == cause
    ensures Quiet(cause) <==> !Final(trace[|trace| - 1])
  {
  }

  /**
   The loop: at most three attempts, each a focal pre-check and then the official gate. It always ends,
   with a success that was earned, a cancellation, or a cause that its trace explains and its log shows.
   */
  method RunGate(w: World, skip: bool) returns (outcome: Outcome, log: seq<Entry>, trace: seq<Event>)
    ensures trace != [] && Summarize(trace).wellFormed && Truthful(w, trace)
    ensures log == Summarize(trace).log
    ensures outcome.Passed? ==> Earned(trace, skip)
    ensures skip ==> NoOfficial(trace) && (Smooth(w) ==> outcome.Passed?)
    ensures outcome.Exhausted? ==> Explains(outcome.cause, outcome.exitCode, Summarize(trace)) && outcome.exitCode != 0
    ensures outcome.Cancelled? ==> EndsCancelled(Summarize(trace))
    ensures Final(trace[|trace| - 1]) ==> outcome.Exhausted?
    ensures Pending(Summarize(trace)) == 0
    ensures Summarize(trace).retries <= (GATE_FIX_ATTEMPTS + 1) * GATE_REMOTE_RETRIES
  {
    var st := new GateLoop(w, skip);
    for attempt := 0 to GATE_FIX_ATTEMPTS + 1
      invariant fresh(st) && st.w == w && st.skip == skip
      invariant attempt <= GATE_FIX_ATTEMPTS
      invariant st.Valid() && st.s.fixes == attempt && CanGoOn(st.s)
      invariant st.s.retries <= attempt * GATE_REMOTE_RETRIES
      invariant skip && Smooth(w) ==> attempt == 0
    {
      var step := st.Attempt(attempt);
      if step != Continue {
        FoldIsSummarize(st.trace, st.past);
        outcome := if step == Pass then Passed
                   else if step == Cancel then Cancelled
                   else Exhausted(st.lastCause, st.lastExitCode);
        if step == Pass {
          SuccessIsEarned(st.trace, skip);
        }
        if skip {
          NoRunMeansNoOfficial(st.trace);
        }
        return outcome, st.log, st.trace;
      }
    }
    assert false;
  }

  /** What the loop promises of its attempts log, whatever happened. */
  lemma {:induction false} AttemptsLogShape(trace: seq<Event>)
    requires Summarize(trace).wellFormed && Pending(Summarize(trace)) == 0
    ensures var log := Summarize(trace).log;
            && OnlyLastIsTerminal(log)
            && AttemptsIncrease(log)
            && |Filter((e: Event) => e.FixAgent?, trace)| ==
               Reinvocations(log) + FailedCommits(log) <= GATE_FIX_ATTEMPTS
  {
    TerminalEntryIsLast(trace);
    ReinvocationsAreNumbered(trace);
    FixesAreAccounted(trace);
    FixesCountsCalls(trace);
  }

  /** A cancellation request does not go away. */
  ghost predicate Sticky(w: World) {
    forall i: nat, j: nat :: i <= j && w.cancelled(i) ==> w.cancelled(j)
  }

  /** Once a cancellation was seen nothing runs any more: no agent, no test, no gate. */
  lemma {:induction false} NothingRunsAfterCancel(w: World, trace: seq<Event>, i: nat, j: nat)
    requires Sticky(w) && Truthful(w, trace) && Summarize(trace).wellFormed
    requires i <= j < |trace| && trace[i] == CancelCheck(true)
    ensures trace[j] == CancelCheck(true)
  {
    var before := trace[..|trace| - 1];
    if j < |before| {
      assert Truthful(w, before);
      NothingRunsAfterCancel(w, before, i, j);
    } else if i < j {
      assert Truthful(w, before);
      NothingRunsAfterCancel(w, before, i, j - 1);
      assert Summarize(before).last == Some(before[j - 1]);
      assert Answered(w, i, trace[i]) && Answered(w, j, trace[j]);
    }
  }
}

/**
 Settling a rebase that stopped on conflicts (run_ticket.py).

 A rebase in progress is the list of the commits where the replay will stop, the first being the one
 it stopped at; commits without conflicts are replayed by git without a stop and do not appear.
 */
module Rebase {

  datatype FileName = Demands | OwnerActions | Other(name: string)

  /** The two ledgers the factory regenerates; origin/main's copy wins. */
  predicate IsLedger(f: FileName) {
    f == Demands || f == OwnerActions
  }

  /** A commit whose replay conflicts; `empties`: nothing of it is left once its conflicts are resolved. */
  datatype Stop = Stop(conflicts: set<FileName>, empties: bool)

  datatype Replay =
    | NotStarted                                  // git refused to start: no rebase in progress, nothing replayed
    | Aborted
    | Finished
    | Stopped(stops: seq<Stop>, unmerged: set<FileName>)
  {
    predicate InProgress() {
      Stopped?
    }
    ghost predicate Valid() {
      Stopped? ==> stops != [] && unmerged <= stops[0].conflicts && forall i :: 0 <= i < |stops| ==>
        stops[i].conflicts != {}
    }
  }

  /** The replay goes on after the first stop. */
  function Advance(stops: seq<Stop>): Replay
    requires stops != []
  {
    if |stops| == 1 then Finished else Stopped(stops[1..], stops[1].conflicts)
  }

  /** `git rebase --continue`: refused with unmerged files, or when the commit became empty. */
  function ContinueResult(r: Replay): (Replay, bool)
    requires r.Stopped? && r.stops != []
  {
    if r.unmerged != {} || r.stops[0].empties then (r, false)
    else (Advance(r.stops), Advance(r.stops).Finished?)
  }

  /** `git rebase --skip`: the return code is 0 only when nothing stops the replay any more. */
  function SkipResult(r: Replay): (Replay, bool)
    requires r.Stopped? && r.stops != []
  {
    (Advance(r.stops), Advance(r.stops).Finished?)
  }

  datatype Settled =
    | Concluded                        // no rebase in progress any more
    | Conflicted(files: set<FileName>)
    | NotConcluded                     // the skip hit another conflict, or the iterations ran out

  const MAX_ITERATIONS: nat := 200

  /** The ledger loop as a function of the replay and the iterations left. */
  function Drive(r: Replay, iterations: nat): (Replay, Settled)
    requires r.Valid()
    decreases iterations
  {
    if iterations == 0 then (r, NotConcluded)
    else if !r.InProgress() then (r, Concluded)
    else
      var others := set f | f in r.unmerged && !IsLedger(f);
      var resolved := Stopped(r.stops, others);
      if others != {} then (resolved, Conflicted(others))
      else
        var (after, ok) := ContinueResult(resolved);
        if !ok && !(after.Stopped? && after.unmerged != {}) then
          var (skipped, done) := SkipResult(after);
          if !done then (skipped, NotConcluded) else Drive(skipped, iterations - 1)
        else Drive(after, iterations - 1)
  }

  /** What the settlement returns and leaves behind. */
  function Outcome(r: Replay, agent: Replay -> Replay): (Replay, bool)
    requires r.Valid() && forall x :: agent(x).Valid()
  {
    var (first, result) := Drive(r, MAX_ITERATIONS);
    if result.Concluded? then (first, true)
    else
      var (second, again) := Drive(agent(first), MAX_ITERATIONS);
      if again.Concluded? then (second, true) else (Aborted, false)
  }

  lemma {:induction false} DriveConcludes(r: Replay, n: nat)
    requires r.Valid()
    ensures Drive(r, n).0.Valid()
    ensures Drive(r, n).1.Concluded? ==> !Drive(r, n).0.InProgress()
    ensures Drive(r, n).1.Concluded? && r.InProgress() ==> Drive(r, n).0.Finished?
    ensures !r.InProgress() ==> Drive(r, n).0 == r
    decreases n
  {
    if n > 0 && r.InProgress() && (set f | f in r.unmerged && !IsLedger(f)) == {} {
      var resolved := Stopped(r.stops, {});
      var (after, ok) := ContinueResult(resolved);
      if !ok && !(after.Stopped? && after.unmerged != {}) {
        assert after == resolved;
        DriveConcludes(SkipResult(after).0, n - 1);
      } else {
        DriveConcludes(after, n - 1);
      }
    }
  }

  ghost predicate LedgersOnly(files: set<FileName>) {
    forall f :: f in files ==> IsLedger(f)
  }

  /** Every file still to be resolved is a ledger. */
  ghost predicate LedgerConflictsOnly(r: Replay)
    requires r.Valid() && r.Stopped?
  {
    LedgersOnly(r.unmerged) && forall i :: 0 < i < |r.stops| ==> LedgersOnly(r.stops[i].conflicts)
  }

  /** No commit that becomes empty is followed by another conflict. */
  ghost predicate NoSkipOntoConflict(r: Replay)
    requires r.Stopped?
  {
    forall i :: 0 <= i < |r.stops| - 1 ==> !r.stops[i].empties
  }

  /**
   The ledger loop finishes the replay by itself exactly when only ledgers conflict, the stops are fewer
   than the iterations, and no skipped commit is followed by another conflict.
   */
  lemma {:induction false} LedgersSettleAlone(r: Replay, n: nat)
    requires r.Valid() && r.Stopped?
    ensures Drive(r, n).1.Concluded? <==> LedgerConflictsOnly(r) && |r.stops| < n && NoSkipOntoConflict(r)
    decreases n
  {
    if n > 0 {
      var others := set f | f in r.unmerged && !IsLedger(f);
      if others == {} {
        assert LedgersOnly(r.unmerged) by {
          forall f | f in r.unmerged ensures IsLedger(f) { assert f !in others; }
        }
        var next := Advance(r.stops);
        if next.Stopped? {
          assert forall i :: 0 <= i < |next.stops| ==> next.stops[i] == r.stops[i + 1];
          assert forall i :: 0 < i < |r.stops| ==> r.stops[i] == next.stops[i - 1];
          if !r.stops[0].empties {
            assert Drive(r, n) == Drive(next, n - 1);
            LedgersSettleAlone(next, n - 1);
          }
        } else {
          assert Drive(r, n) == Drive(Finished, n - 1);
        }
      } else {
        var f :| f in others;
        assert !LedgersOnly(r.unmerged);
      }
    }
  }

  /** Nobody has to be asked: there is no rebase in progress, or the ledger loop finishes it by itself. */
  ghost predicate SettlesAlone(r: Replay)
    requires r.Valid()
  {
    r.Stopped? ==> LedgerConflictsOnly(r) && |r.stops| < MAX_ITERATIONS && NoSkipOntoConflict(r)
  }

  lemma {:induction false} SettlesAloneExactly(r: Replay)
    requires r.Valid()
    ensures Drive(r, MAX_ITERATIONS).1.Concluded? <==> SettlesAlone(r)
  {
    if r.Stopped? {
      LedgersSettleAlone(r, MAX_ITERATIONS);
    }
  }

  /** The working copy during a rebase. */
  class Worktree {
    var replay: Replay
    var agentCalls: nat

    constructor (replay: Replay)
      ensures this.replay == replay && agentCalls == 0
    {
      this.replay, agentCalls := replay, 0;
    }

    /** Takes origin/main's copy of every conflicted ledger and continues, up to 200 times. */
    method ContinueTakingLedgers() returns (result: Settled)
      requires replay.Valid()
      modifies `replay
      ensures (replay, result) == Drive(old(replay), MAX_ITERATIONS)
      ensures replay.Valid()
    {
      for i := 0 to MAX_ITERATIONS
        invariant replay.Valid()
        invariant Drive(replay, MAX_ITERATIONS - i) == Drive(old(replay), MAX_ITERATIONS)
      {
        if !replay.InProgress() {
          return Concluded;
        }
        var conflicts := replay.unmerged;
        var remaining := set f | f in conflicts && !IsLedger(f);
        replay := Stopped(replay.stops, remaining);
        if remaining != {} {
          return Conflicted(remaining);
        }
        var (continued, ok) := ContinueResult(replay);
        replay := continued;
        if !ok && !(replay.Stopped? && replay.unmerged != {}) {
          var (skipped, done) := SkipResult(replay);
          replay := skipped;
          if !done {
            return NotConcluded;
          }
        }
      }
      return NotConcluded;
    }

    /** Settles the rebase; the agent, called at most once, may leave anything behind. */
    method Resolve(agent: Replay -> Replay) returns (ok: bool)
      requires replay.Valid() && forall r :: agent(r).Valid()
      modifies this
      ensures !replay.InProgress()
      ensures (replay, ok) == Outcome(old(replay), agent)
      ensures agentCalls == old(agentCalls) + if SettlesAlone(old(replay)) then 0 else 1
    {
      SettlesAloneExactly(replay);
      var result := ContinueTakingLedgers();
      if !result.Concluded? {
        agentCalls := agentCalls + 1;
        replay := agent(replay);
        result := ContinueTakingLedgers();
      }
      DriveConcludes(if agentCalls == old(agentCalls) then old(replay)
        else agent(Drive(old(replay), MAX_ITERATIONS).0), MAX_ITERATIONS);
      if !result.Concluded? {
        replay := Aborted;
        return false;
      }
      return true;
    }
  }

  /**
   Someone left no rebase in progress without finishing it: git never started it, or the agent, asked about
   what the ledger loop could not settle, gave it up.
   */
  ghost predicate LeftUnfinished(r: Replay, agent: Replay -> Replay)
    requires r.Valid() && forall x :: agent(x).Valid()
  {
    if !r.Stopped? then !r.Finished?
    else !SettlesAlone(r) && var left := agent(Drive(r, MAX_ITERATIONS).0); left.NotStarted? || left.Aborted?
  }

  /**
   Settlement never leaves a rebase in progress, a failure is always an abort, and success means that the
   replay finished, except when the replay was left unfinished by git or by the agent.
   */
  lemma {:induction false} SettlementIsExact(r: Replay, agent: Replay -> Replay)
    requires r.Valid() && forall x :: agent(x).Valid()
    ensures var (final, ok) := Outcome(r, agent);
            && !final.InProgress()
            && (!ok ==> final.Aborted?)
            && (final.Finished? <==> ok && !LeftUnfinished(r, agent))
  {
    SettlesAloneExactly(r);
    DriveConcludes(r, MAX_ITERATIONS);
    DriveConcludes(agent(Drive(r, MAX_ITERATIONS).0), MAX_ITERATIONS);
  }

  /** The exception is real: a rebase git refused to start is reported as "rebased successfully". */
  lemma {:induction false} RefusedRebaseIsReportedDone(agent: Replay -> Replay)
    requires forall x :: agent(x).Valid()
    ensures Outcome(NotStarted, agent) == (NotStarted, true)
    ensures LeftUnfinished(NotStarted, agent)
  {
  }

  /** With exactly as many ledger stops as iterations the replay is done, but the loop does not notice. */
  lemma {:induction false} LastIterationGoesUnnoticed(r: Replay)
    requires r.Valid() && r.Stopped? && LedgerConflictsOnly(r) && NoSkipOntoConflict(r)
    ensures Drive(r, |r.stops|) == (Finished, NotConcluded)
    decreases |r.stops|
  {
    assert {} == set f | f in r.unmerged && !IsLedger(f);
    var next := Advance(r.stops);
    if next.Stopped? {
      assert forall i :: 0 <= i < |next.stops| ==> next.stops[i] == r.stops[i + 1];
      assert Drive(r, |r.stops|) == Drive(next, |r.stops| - 1);
      LastIterationGoesUnnoticed(next);
    } else {
      assert Drive(r, |r.stops|) == Drive(Finished, 0);
    }
  }
}

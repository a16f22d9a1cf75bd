/**
 Any number of snapshot runs and other writers of `main`, interleaved in any way. A push lands only on the
 commit it was made on, as a fast-forward; a run may die at any moment.
 */
module SnapshotRaces {
  import opened Snapshot

  type Files = c: Content | DistinctPaths(c) witness []

  datatype Phase = Idle | Fetched(base: seq<Tree>) | Committed(base: seq<Tree>, tree: Tree)

  /** `landed`: the commits that snapshots made, by their index in the history. */
  datatype System = System(history: seq<Tree>, runs: map<nat, Phase>, landed: set<nat>)

  datatype Step =
    | OtherWriter(tree: Tree)
    | Fetch(run: nat)
    | Prepare(run: nat, files: Files)
    | Push(run: nat)
    | Die(run: nat)

  function PhaseOf(s: System, run: nat): Phase {
    if run in s.runs then s.runs[run] else Idle
  }

  function Next(s: System, step: Step): System {
    match step
    case OtherWriter(tree) => s.(history := s.history + [tree])
    case Fetch(run) => s.(runs := s.runs[run := Fetched(s.history)])
    case Prepare(run, files) =>
      (match PhaseOf(s, run)
       case Fetched(base) => s.(runs := s.runs[run := Prepared(base, files)])
       case _ => s)
    case Push(run) =>
      (match PhaseOf(s, run)
       case Committed(base, tree) =>
         if s.history == base then System(s.history + [tree], s.runs[run := Idle], s.landed + {|base|})
         else s.(runs := s.runs[run := Idle])
       case _ => s)
    case Die(run) => s.(runs := s.runs[run := Idle])
  }

  /** The guard and the commit: nothing to push when the guard refuses or nothing changed. */
  function Prepared(base: seq<Tree>, files: Files): Phase {
    if base == [] || Losses(Tip(base), files) != [] || Overlay(Tip(base), files) == Tip(base) then Idle
    else Committed(base, Overlay(Tip(base), files))
  }

  function Runs(s: System, steps: seq<Step>): System {
    if steps == [] then s else Next(Runs(s, steps[..|steps| - 1]), steps[|steps| - 1])
  }

  function Start(history: seq<Tree>): System {
    System(history, map[], {})
  }

  ghost predicate PhaseHolds(s: System, phase: Phase) {
    match phase
    case Idle => true
    case Fetched(base) => base <= s.history
    case Committed(base, tree) => base != [] && base <= s.history && KeepsLedgers(Tip(base), tree)
  }

  ghost predicate LandedKeeps(s: System, i: nat) {
    0 < i < |s.history| && KeepsLedgers(s.history[i - 1], s.history[i])
  }

  ghost predicate Inv(s: System) {
    && (forall run :: run in s.runs ==> PhaseHolds(s, s.runs[run]))
    && (forall i :: i in s.landed ==> LandedKeeps(s, i))
  }

  /** A longer history changes nothing about what was said of a shorter one. */
  lemma {:induction false} GrowingKeeps(s: System, t: System)
    requires Inv(s) && s.history <= t.history
    ensures forall run :: run in s.runs ==> PhaseHolds(t, s.runs[run])
    ensures forall i :: i in s.landed ==> LandedKeeps(t, i)
  {
  }

  lemma {:induction false} StepKeepsInv(s: System, step: Step)
    requires Inv(s)
    ensures Inv(Next(s, step)) && s.history <= Next(s, step).history
  {
    var t := Next(s, step);
    GrowingKeeps(s, t);
    match step {
      case Prepare(run, files) =>
        if PhaseOf(s, run).Fetched? && Prepared(PhaseOf(s, run).base, files).Committed? {
          GuardIsExact(Tip(PhaseOf(s, run).base), files);
          GuardedOverlayKeeps(Tip(PhaseOf(s, run).base), files);
        }
      case Push(run) =>
        if PhaseOf(s, run).Committed? && s.history == PhaseOf(s, run).base {
          assert PhaseHolds(s, s.runs[run]);
          assert LandedKeeps(t, |s.history|);
        }
      case _ =>
    }
  }

  lemma {:induction false} RunsKeepInv(s: System, steps: seq<Step>)
    requires Inv(s)
    ensures Inv(Runs(s, steps)) && s.history <= Runs(s, steps).history
  {
    if steps != [] {
      RunsKeepInv(s, steps[..|steps| - 1]);
      StepKeepsInv(Runs(s, steps[..|steps| - 1]), steps[|steps| - 1]);
    }
  }

  /**
   Over every interleaving: each snapshot that landed keeps, in every ledger, each id and at least as many
   rows as the commit it landed on, removes no file, and no commit that was on `main` is ever discarded.
   */
  lemma {:induction false} SnapshotsLoseNothing(history: seq<Tree>, steps: seq<Step>, i: nat)
    requires i in Runs(Start(history), steps).landed
    ensures var s := Runs(Start(history), steps);
            && history <= s.history
            && 0 < i < |s.history|
            && KeepsLedgers(s.history[i - 1], s.history[i])
  {
    RunsKeepInv(Start(history), steps);
    assert LandedKeeps(Runs(Start(history), steps), i);
  }

  /** A commit by another writer is never discarded either. */
  lemma {:induction false} NoCommitIsDiscarded(s: System, steps: seq<Step>, more: seq<Step>)
    requires Inv(s)
    ensures Runs(s, steps).history <= Runs(s, steps + more).history
  {
    if more == [] {
      assert steps + more == steps;
    } else {
      var n := |more| - 1;
      NoCommitIsDiscarded(s, steps, more[..n]);
      assert (steps + more)[..|steps + more| - 1] == steps + more[..n];
      RunsKeepInv(s, steps + more[..n]);
      StepKeepsInv(Runs(s, steps + more[..n]), more[n]);
    }
  }

  /** If the other writers between two moments of `main` lose nothing, nothing is lost between them. */
  lemma {:induction false} IdsSurvive(history: seq<Tree>, steps: seq<Step>, lo: nat, hi: nat)
    requires var s := Runs(Start(history), steps);
             && lo <= hi < |s.history|
             && forall k :: lo < k <= hi && k !in s.landed ==> KeepsLedgers(s.history[k - 1], s.history[k])
    ensures KeepsLedgers(Runs(Start(history), steps).history[lo], Runs(Start(history), steps).history[hi])
    decreases hi
  {
    if lo < hi {
      var s := Runs(Start(history), steps);
      IdsSurvive(history, steps, lo, hi - 1);
      if hi in s.landed {
        SnapshotsLoseNothing(history, steps, hi);
      }
      KeepsOn(s.history[lo], s.history[hi - 1], s.history[hi]);
    }
  }

  lemma {:induction false} KeepsOn(a: Tree, b: Tree, c: Tree)
    requires KeepsLedgers(a, b) && KeepsLedgers(b, c)
    ensures KeepsLedgers(a, c)
  {
  }

  function Others(trees: seq<Tree>): seq<Step> {
    if trees == [] then [] else Others(trees[..|trees| - 1]) + [OtherWriter(trees[|trees| - 1])]
  }

  lemma {:induction false} OthersAppend(s: System, steps: seq<Step>, trees: seq<Tree>)
    ensures Runs(s, steps + Others(trees)) == Runs(s, steps).(history := Runs(s, steps).history + trees)
  {
    if trees == [] {
      assert steps + Others(trees) == steps;
    } else {
      var n := |trees| - 1;
      OthersAppend(s, steps, trees[..n]);
      var all := steps + Others(trees);
      assert all[..|all| - 1] == steps + Others(trees[..n]);
      assert trees[..n] + [trees[n]] == trees;
    }
  }

  /** One undisturbed run of the program is one schedule of the system: it lands the same commit, or none. */
  lemma {:induction false} RunIsASchedule(history: seq<Tree>, files: Files, others: seq<Tree>, run: nat)
    requires history != []
    ensures var s := Runs(Start(history), [Fetch(run)] + Others(others) + [Prepare(run, files)] + [Push(run)]);
            s.history == history + others +
              if others == [] && Guarded(Tip(history), files) && Overlay(Tip(history), files) != Tip(history)
              then [Overlay(Tip(history), files)] else []
  {
    var a := [Fetch(run)];
    assert a[..0] == [];
    OthersAppend(Start(history), a, others);
    var b := a + Others(others);
    var c := b + [Prepare(run, files)];
    var d := c + [Push(run)];
    assert c[..|c| - 1] == b && d[..|d| - 1] == c;
    GuardIsExact(Tip(history), files);
    assert Runs(Start(history), b).runs == map[run := Fetched(history)];
    assert others != [] ==> |history + others| > |history|;
  }
}

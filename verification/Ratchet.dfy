/** The complexity ratchet of scripts/complexity_ratchet.py: function sizes against a baseline that only tightens. */
module Ratchet {
  import opened Prelude

  const LIMIT: int := 150

  /** Sizes by qualified function name. */
  type Sizes = map<string, int>

  datatype Problem = New(key: string, size: int) | Grew(key: string, size: int, allowed: int)

  /** What the baseline, or else the limit, lets a function have. */
  function Allowed(baseline: Sizes, limit: int, key: string): int {
    if key in baseline then baseline[key] else limit
  }

  function ProblemOf(current: Sizes, baseline: Sizes, limit: int, key: string): Option<Problem>
    requires key in current
  {
    if key !in baseline then if current[key] > limit then Some(New(key, current[key])) else None
    else if current[key] > baseline[key] then Some(Grew(key, current[key], baseline[key])) else None
  }

  /** No function is larger than it may be. */
  predicate Holds(current: Sizes, baseline: Sizes, limit: int) {
    forall key :: key in current ==> current[key] <= Allowed(baseline, limit, key)
  }

  /** The problems of the functions in `keys`, all of them and no others. */
  ghost predicate AreProblems(problems: seq<Problem>, current: Sizes, baseline: Sizes, limit: int, keys: set<string>)
    requires keys <= current.Keys
  {
    && (forall key :: key in keys && ProblemOf(current, baseline, limit, key).Some? ==>
       ProblemOf(current, baseline, limit, key).value in problems)
    && (forall p :: p in problems ==> p.key in keys && ProblemOf(current, baseline, limit, p.key) == Some(p))
  }

  lemma {:induction false} OneMoreProblem(problems: seq<Problem>, current: Sizes, baseline: Sizes, limit: int,
      keys: set<string>, key: string)
    requires keys <= current.Keys && key in current && AreProblems(problems, current, baseline, limit, keys)
    ensures var p := ProblemOf(current, baseline, limit, key);
            AreProblems(problems + if p.Some? then [p.value] else [], current, baseline, limit, keys + {key})
  {
  }

  method Compare(current: Sizes, baseline: Sizes, limit: int) returns (problems: seq<Problem>)
    ensures AreProblems(problems, current, baseline, limit, current.Keys)
    ensures problems == [] <==> Holds(current, baseline, limit)
  {
    problems := [];
    var rest := current.Keys;
    while rest != {}
      invariant rest <= current.Keys
      invariant AreProblems(problems, current, baseline, limit, current.Keys - rest)
      decreases |rest|
    {
      var key :| key in rest;
      OneMoreProblem(problems, current, baseline, limit, current.Keys - rest, key);
      assert current.Keys - (rest - {key}) == current.Keys - rest + {key};
      rest := rest - {key};
      var size := current[key];
      if key !in baseline {
        if size > limit {
          problems := problems + [New(key, size)];
        }
      } else if size > baseline[key] {
        problems := problems + [Grew(key, size, baseline[key])];
      }
    }
    assert current.Keys - rest == current.Keys;
    if problems != [] {
      var p := problems[0];
      assert p in problems && current[p.key] > Allowed(baseline, limit, p.key);
    }
    forall key | key in current && problems == []
      ensures current[key] <= Allowed(baseline, limit, key)
    {
      assert ProblemOf(current, baseline, limit, key).None?;
    }
  }

  /** The baseline an update writes: the functions above the limit, none larger than it was recorded. */
  function Rebuilt(current: Sizes, baseline: Sizes, limit: int): Sizes {
    map key | key in current && current[key] > limit ::
      if key in baseline && baseline[key] < current[key] then baseline[key] else current[key]
  }

  method BuildBaseline(current: Sizes, baseline: Sizes, limit: int) returns (rebuilt: Sizes)
    ensures rebuilt == Rebuilt(current, baseline, limit)
  {
    rebuilt := map[];
    var rest := current.Keys;
    while rest != {}
      invariant rest <= current.Keys
      invariant forall key :: key in rebuilt <==> key in current && key !in rest && current[key] > limit
      invariant forall key :: key in rebuilt ==> rebuilt[key] == Rebuilt(current, baseline, limit)[key]
      decreases |rest|
    {
      var key :| key in rest;
      rest := rest - {key};
      if current[key] > limit {
        var recorded := if key in baseline then baseline[key] else current[key];
        rebuilt := rebuilt[key := if recorded < current[key] then recorded else current[key]];
      }
    }
  }

  // ---- the program, and any history of its runs

  datatype Visit = Visit(current: Sizes, update: bool)

  /** The baseline file after a run; without one, the run records what it finds. */
  function After(baseline: Option<Sizes>, v: Visit): Option<Sizes> {
    if baseline.None? then Some(Rebuilt(v.current, map[], LIMIT))
    else if Holds(v.current, baseline.value, LIMIT) && v.update then Some(Rebuilt(v.current, baseline.value, LIMIT))
    else baseline
  }

  predicate Accepts(baseline: Option<Sizes>, v: Visit) {
    baseline.None? || Holds(v.current, baseline.value, LIMIT)
  }

  class BaselineFile {
    var functions: Option<Sizes>

    constructor (functions: Option<Sizes>)
      ensures this.functions == functions
    {
      this.functions := functions;
    }

    method Check(v: Visit) returns (ok: bool)
      modifies this
      ensures functions == After(old(functions), v)
      ensures ok <==> Accepts(old(functions), v)
    {
      var bootstrap := functions.None?;
      var baseline := if bootstrap then map[] else functions.value;
      if !bootstrap {
        var problems := Compare(v.current, baseline, LIMIT);
        if problems != [] {
          return false;
        }
      }
      if v.update || bootstrap {
        var rebuilt := BuildBaseline(v.current, baseline, LIMIT);
        functions := Some(rebuilt);
      }
      return true;
    }
  }

  function Runs(baseline: Option<Sizes>, visits: seq<Visit>): Option<Sizes> {
    if visits == [] then baseline else After(Runs(baseline, visits[..|visits| - 1]), visits[|visits| - 1])
  }

  /** Every recorded function is above the limit. */
  predicate Grandfathers(baseline: Sizes) {
    forall key :: key in baseline ==> baseline[key] > LIMIT
  }

  /** `after` records no function that `before` does not, and allows no function more. */
  ghost predicate Tighter(before: Sizes, after: Sizes) {
    after.Keys <= before.Keys && forall key :: Allowed(after, LIMIT, key) <= Allowed(before, LIMIT, key)
  }

  /**
   An accepted update tightens the baseline exactly when no recorded size is below the limit: such an entry
   is dropped, and its function may grow to the limit again.
   */
  lemma {:induction false} UpdateTightensExactly(baseline: Sizes, current: Sizes)
    requires Holds(current, baseline, LIMIT)
    ensures Tighter(baseline, Rebuilt(current, baseline, LIMIT)) <==> forall key :: key in baseline ==>
      baseline[key] >= LIMIT
  {
    var rebuilt := Rebuilt(current, baseline, LIMIT);
    forall key | key in baseline && baseline[key] < LIMIT
      ensures Allowed(rebuilt, LIMIT, key) > Allowed(baseline, LIMIT, key)
    {
      assert key !in rebuilt;
    }
    forall key | key in rebuilt
      ensures key in baseline && rebuilt[key] <= baseline[key]
    {
      assert current[key] <= Allowed(baseline, LIMIT, key);
    }
  }

  /** A tree passes against the baseline that its own run leaves behind. */
  lemma {:induction false} AcceptedTreePassesItsBaseline(baseline: Option<Sizes>, v: Visit)
    requires Accepts(baseline, v)
    ensures After(baseline, v).Some? && Holds(v.current, After(baseline, v).value, LIMIT)
  {
  }

  lemma {:induction false} RunsOnlyTighten(baseline: Sizes, visits: seq<Visit>)
    requires Grandfathers(baseline)
    ensures Runs(Some(baseline), visits).Some?
    ensures Grandfathers(Runs(Some(baseline), visits).value) && Tighter(baseline, Runs(Some(baseline), visits).value)
  {
    if visits != [] {
      var n := |visits| - 1;
      RunsOnlyTighten(baseline, visits[..n]);
      var before := Runs(Some(baseline), visits[..n]).value;
      if Holds(visits[n].current, before, LIMIT) {
        UpdateTightensExactly(before, visits[n].current);
      }
    }
  }

  /** Runs one after the other are one run of the concatenation. */
  lemma {:induction false} RunsConcat(baseline: Option<Sizes>, first: seq<Visit>, second: seq<Visit>)
    ensures Runs(baseline, first + second) == Runs(Runs(baseline, first), second)
  {
    if second == [] {
      assert first + second == first;
    } else {
      var n := |second| - 1;
      assert (first + second)[..|first + second| - 1] == first + second[..n];
      RunsConcat(baseline, first, second[..n]);
    }
  }

  /**
   Over any history that began without a baseline: between two moments the recorded functions only get
   fewer and no function's allowance grows.
   */
  lemma {:induction false} HistoryOnlyTightens(visits: seq<Visit>, i: nat, j: nat)
    requires 0 < i <= j <= |visits|
    ensures Runs(None, visits[..i]).Some? && Runs(None, visits[..j]).Some?
    ensures Grandfathers(Runs(None, visits[..j]).value)
    ensures Tighter(Runs(None, visits[..i]).value, Runs(None, visits[..j]).value)
  {
    assert visits[..i] == visits[..1] + visits[1..i];
    assert visits[..1][..0] == [];
    RunsConcat(None, visits[..1], visits[1..i]);
    var first := Runs(None, visits[..1]);
    assert first == Some(Rebuilt(visits[0].current, map[], LIMIT));
    RunsOnlyTighten(first.value, visits[1..i]);
    assert visits[..j] == visits[..i] + visits[i..j];
    RunsConcat(None, visits[..i], visits[i..j]);
    RunsOnlyTighten(Runs(None, visits[..i]).value, visits[i..j]);
  }

  /**
   So a tree accepted at any later moment is within every earlier allowance; above the limit it has only
   functions that were above it when the baseline began, and none larger than it was then.
   */
  lemma {:induction false} AcceptedNeverExceedsTheStart(visits: seq<Visit>, j: nat, key: string)
    requires 0 < j < |visits| && Accepts(Runs(None, visits[..j]), visits[j]) && key in visits[j].current
    ensures var size := visits[j].current[key];
            size <= LIMIT || (key in visits[0].current && size <= visits[0].current[key])
  {
    HistoryOnlyTightens(visits, 1, j);
    assert visits[..1][..0] == [];
    var first := Runs(None, visits[..1]).value;
    assert first == Rebuilt(visits[0].current, map[], LIMIT);
    assert Allowed(Runs(None, visits[..j]).value, LIMIT, key) <= Allowed(first, LIMIT, key);
  }
}

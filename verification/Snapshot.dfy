/**
 The daily ledger snapshot of scripts/snapshot_queue.py: fetch, render, guard, commit, and a push that
 only lands on the commit it was made on.
 */
module Snapshot {
  import opened Prelude

  /** A row of a ledger; `id`: the text of its id, when it has one. */
  datatype Row = Dict(id: Option<string>, body: string) | NotDict

  datatype Actions = NoActions | ActionRows(rows: seq<Row>) | NotAList

  /** A file, as its JSON. */
  datatype Doc = NotJson(text: string) | List(items: seq<Row>) | Object(actions: Actions) | Scalar

  type Path = string
  type Tree = map<Path, Doc>

  /** The rows of a ledger: a list, or the list under `actions`; anything else has none. */
  function LedgerRows(doc: Doc): seq<Row> {
    match doc
    case List(rows) => Filter((row: Row) => row.Dict?, rows)
    case Object(ActionRows(rows)) => Filter((row: Row) => row.Dict?, rows)
    case _ => []
  }

  /** A file that is not there reads as an empty text. */
  function RowsAt(tree: Tree, rel: Path): seq<Row> {
    if rel in tree then LedgerRows(tree[rel]) else []
  }

  function Ids(rows: seq<Row>): set<string> {
    set i | 0 <= i < |rows| && rows[i].Dict? && rows[i].id.Some? :: rows[i].id.value
  }

  /** Every id stays, and there are at least as many rows. */
  predicate KeepsRows(before: seq<Row>, after: seq<Row>) {
    Ids(before) <= Ids(after) && |before| <= |after|
  }

  /** No ledger shrinks and no file disappears. */
  ghost predicate KeepsLedgers(before: Tree, after: Tree) {
    && before.Keys <= after.Keys
    && forall rel :: rel in before ==> KeepsRows(RowsAt(before, rel), RowsAt(after, rel))
  }

  /** The files of one snapshot, in the order they are written; no path twice. */
  type Content = seq<(Path, Doc)>

  ghost predicate DistinctPaths(content: Content) {
    forall i, j :: 0 <= i < j < |content| ==> content[i].0 != content[j].0
  }

  datatype Violation = LostIds(rel: Path, ids: set<string>) | FewerRows(rel: Path, before: nat, after: nat)

  /** What one file of the snapshot would lose. */
  function Loss(tree: Tree, file: (Path, Doc)): Option<Violation> {
    var before, after := RowsAt(tree, file.0), LedgerRows(file.1);
    if Ids(before) - Ids(after) != {} then Some(LostIds(file.0, Ids(before) - Ids(after)))
    else if |after| < |before| then Some(FewerRows(file.0, |before|, |after|))
    else None
  }

  lemma {:induction false} NoLossKeepsRows(tree: Tree, file: (Path, Doc))
    ensures Loss(tree, file).None? <==> KeepsFile(tree, file)
  {
    var before, after := Ids(RowsAt(tree, file.0)), Ids(LedgerRows(file.1));
    assert before - after == {} <==> before <= after by {
      if before - after == {} {
        forall id | id in before
          ensures id in after
        {
          assert id !in before - after;
        }
      }
    }
  }

  /** The losses of each file, and of the files that have one. */
  function LossOfEach(tree: Tree, content: Content): seq<Option<Violation>> {
    seq(|content|, i requires 0 <= i < |content| => Loss(tree, content[i]))
  }

  function Somes<T>(xs: seq<Option<T>>): seq<T> {
    if xs == [] then [] else Somes(xs[..|xs| - 1]) + if xs[|xs| - 1].Some? then [xs[|xs| - 1].value] else []
  }

  function Losses(tree: Tree, content: Content): seq<Violation> {
    Somes(LossOfEach(tree, content))
  }

  predicate KeepsFile(tree: Tree, file: (Path, Doc)) {
    KeepsRows(RowsAt(tree, file.0), LedgerRows(file.1))
  }

  ghost predicate Guarded(tree: Tree, content: Content) {
    forall i :: 0 <= i < |content| ==> KeepsFile(tree, content[i])
  }

  lemma {:induction false} NoneIsSome<T>(xs: seq<Option<T>>)
    ensures Somes(xs) == [] <==> forall i :: 0 <= i < |xs| ==> xs[i].None?
  {
    if xs != [] {
      NoneIsSome(xs[..|xs| - 1]);
    }
  }

  /** The guard lets a snapshot through exactly when no file of it loses an id or a row. */
  lemma {:induction false} GuardIsExact(tree: Tree, content: Content)
    ensures Losses(tree, content) == [] <==> Guarded(tree, content)
  {
    var each := LossOfEach(tree, content);
    NoneIsSome(each);
    forall i | 0 <= i < |content|
      ensures each[i].None? <==> KeepsFile(tree, content[i])
    {
      NoLossKeepsRows(tree, content[i]);
    }
  }

  method ShrunkLedgers(tree: Tree, content: Content) returns (violations: seq<Violation>)
    ensures violations == Losses(tree, content)
    ensures violations == [] <==> Guarded(tree, content)
  {
    violations := [];
    for i := 0 to |content|
      invariant violations == Somes(LossOfEach(tree, content)[..i])
    {
      var rel, doc := content[i].0, content[i].1;
      var before, after := RowsAt(tree, rel), LedgerRows(doc);
      var missing := Ids(before) - Ids(after);
      assert LossOfEach(tree, content)[..i + 1][..i] == LossOfEach(tree, content)[..i];
      if missing != {} {
        violations := violations + [LostIds(rel, missing)];
      } else if |after| < |before| {
        violations := violations + [FewerRows(rel, |before|, |after|)];
      }
    }
    assert LossOfEach(tree, content)[..|content|] == LossOfEach(tree, content);
    GuardIsExact(tree, content);
  }

  /** The tree with the files of the snapshot written over it. */
  function Overlay(tree: Tree, content: Content): Tree {
    if content == [] then tree
    else Overlay(tree, content[..|content| - 1])[content[|content| - 1].0 := content[|content| - 1].1]
  }

  lemma {:induction false} OverlayAt(tree: Tree, content: Content, rel: Path)
    requires DistinctPaths(content)
    ensures tree.Keys <= Overlay(tree, content).Keys
    ensures forall i :: 0 <= i < |content| && content[i].0 == rel ==>
      rel in Overlay(tree, content) && Overlay(tree, content)[rel] == content[i].1
    ensures (forall i :: 0 <= i < |content| ==> content[i].0 != rel) && rel in tree ==>
      Overlay(tree, content)[rel] == tree[rel]
  {
    if content != [] {
      var n := |content| - 1;
      OverlayAt(tree, content[..n], rel);
      assert forall i :: 0 <= i < n ==> content[..n][i] == content[i];
    }
  }

  /** A guarded snapshot loses nothing, in the ledgers it writes and in every other file. */
  lemma {:induction false} GuardedOverlayKeeps(tree: Tree, content: Content)
    requires Guarded(tree, content) && DistinctPaths(content)
    ensures KeepsLedgers(tree, Overlay(tree, content))
  {
    OverlayAt(tree, content, "");
    forall rel | rel in tree
      ensures KeepsRows(RowsAt(tree, rel), RowsAt(Overlay(tree, content), rel))
    {
      OverlayAt(tree, content, rel);
      if i :| 0 <= i < |content| && content[i].0 == rel {
        assert KeepsFile(tree, content[i]) && RowsAt(Overlay(tree, content), rel) == LedgerRows(content[i].1);
      }
    }
  }

  // ---- one run

  type Day = nat

  /** What the outside answers during one run; `others`: what other writers land after its fetch. */
  datatype World = World(fetchOk: bool, worktreeOk: bool, commitOk: bool, pushOk: bool, markerWritable: bool,
      others: seq<Tree>)

  datatype Result = Skipped | NoChanges | Pushed | Refused(violations: seq<Violation>) | Failed

  function Tip(history: seq<Tree>): Tree
    requires history != []
  {
    history[|history| - 1]
  }

  /** `main` on the remote and the marker in the state root. */
  class Repository {
    var history: seq<Tree>
    var marker: Option<Day>

    constructor (history: seq<Tree>, marker: Option<Day>)
      ensures this.history == history && this.marker == marker
    {
      this.history, this.marker := history, marker;
    }

    method WriteMarker(w: World, day: Day)
      modifies `marker
      ensures marker == if w.markerWritable then Some(day) else old(marker)
    {
      if w.markerWritable {
        marker := Some(day);
      }
    }

    /** What is there after other writers landed their commits. */
    method Elsewhere(others: seq<Tree>)
      modifies `history
      ensures history == old(history) + others
    {
      history := history + others;
    }

    method RunSnapshot(w: World, content: Content, day: Day, useMarker: bool, force: bool) returns (result: Result)
      requires history != [] && DistinctPaths(content)
      modifies this
      ensures history == old(history) + (if result.Skipped? || !w.fetchOk then [] else w.others)
                         + if result.Pushed? then [Overlay(Tip(old(history)), content)] else []
      ensures marker == if (result.NoChanges? || result.Pushed?) && w.markerWritable then Some(day) else old(marker)
      ensures result.Skipped? <==> useMarker && !force && old(marker) == Some(day)
      ensures result.Refused? ==> result.violations == Losses(Tip(old(history)), content) != []
      ensures result.NoChanges? || result.Pushed? ==>
        Guarded(Tip(old(history)), content) && KeepsLedgers(Tip(old(history)), Overlay(Tip(old(history)), content))
      ensures result.NoChanges? ==> Overlay(Tip(old(history)), content) == Tip(old(history))
      ensures result.Pushed? ==> w.others == [] && Overlay(Tip(old(history)), content) != Tip(old(history))
      ensures !result.Skipped? && w.fetchOk && w.worktreeOk && w.commitOk && w.pushOk && w.others == []
        && Guarded(Tip(old(history)), content)
        ==> result == if Overlay(Tip(old(history)), content) == Tip(old(history)) then NoChanges else Pushed
    {
      if useMarker && !force && marker == Some(day) {
        return Skipped;
      }
      if !w.fetchOk {
        return Failed;
      }
      var base := history;
      Elsewhere(w.others);
      if !w.worktreeOk {
        return Failed;
      }
      var tree := Tip(base);
      var violations := ShrunkLedgers(tree, content);
      if violations != [] {
        return Refused(violations);
      }
      GuardedOverlayKeeps(tree, content);
      for i := 0 to |content|
        invariant tree == Overlay(Tip(base), content[..i]) && history == base + w.others && marker == old(marker)
      {
        assert content[..i + 1][..i] == content[..i];
        tree := tree[content[i].0 := content[i].1];
      }
      assert content[..|content|] == content;
      if tree == Tip(base) {
        WriteMarker(w, day);
        return NoChanges;
      }
      if !w.commitOk {
        return Failed;
      }
      if !w.pushOk || history != base {
        return Failed;
      }
      history := history + [tree];
      WriteMarker(w, day);
      return Pushed;
    }
  }
}

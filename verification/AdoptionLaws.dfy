/**
 What an adoption promises: all or nothing, exactly the bundle, and no byte the project owns.
 */
module AdoptionLaws {
  import opened Prelude
  import opened Adoption
  import opened AdoptionApply

  // ---- the undo log

  predicate Writes(item: PlannedFile) {
    item.action == Remove || item.action == Create || item.action == Update || item.action == Conflict
  }

  /** No path is written twice, and the lock not before the end. */
  ghost predicate WritesOnce(items: seq<PlannedFile>) {
    && (forall i, j :: 0 <= i < j < |items| && Writes(items[i]) && Writes(items[j]) ==>
       items[i].name.path != items[j].name.path)
    && (forall i :: 0 <= i < |items| && Writes(items[i]) ==> items[i].name.path != LockFile)
  }

  /** The log holds the original of every path that may have changed. */
  ghost predicate LogsOriginals(t: Txn, original: Tree) {
    && (forall p :: p in t.originals ==> t.originals[p] == Lookup(original, p))
    && (forall p: Path :: p !in t.originals ==> Lookup(t.tree, p) == Lookup(original, p))
  }

  lemma {:induction false} RollbackRestores(t: Txn, original: Tree)
    requires LogsOriginals(t, original)
    ensures RolledBack(t) == original
  {
  }

  lemma {:induction false} TouchKeepsLog(t: Txn, p: Path, content: Option<Content>, original: Tree, faults: Faults)
    requires LogsOriginals(t, original) && p !in t.originals
    ensures LogsOriginals(Touched(t, p, content, faults).txn, original)
    ensures Touched(t, p, content, faults).txn.originals.Keys == t.originals.Keys + {p}
  {
  }

  /** One item logs what it writes and leaves the rest of the log alone. */
  lemma {:induction false} ItemKeepsLog(item: PlannedFile, t: Txn, original: Tree, req: Request, faults: Faults)
    requires |req.mk.start| > 0 && |req.mk.end| > 0
    requires LogsOriginals(t, original) && (Writes(item) ==> item.name.path !in t.originals)
    ensures var u := ApplyItem(item, t, req, faults).txn;
            && LogsOriginals(u, original)
            && u.originals.Keys <= t.originals.Keys + (if Writes(item) then {item.name.path} else {})
  {
    if item.action == Remove {
      TouchKeepsLog(t, item.name.path, None, original, faults);
    } else if Writes(item) {
      var desired := DesiredContent(item, t.tree, req);
      if desired.Data? {
        TouchKeepsLog(t, item.name.path, Some(desired.content), original, faults);
      }
    }
  }

  lemma {:induction false} LoopKeepsLog(items: seq<PlannedFile>, t: Txn, original: Tree, req: Request, faults: Faults)
    requires |req.mk.start| > 0 && |req.mk.end| > 0
    requires LogsOriginals(t, original) && WritesOnce(items)
    requires forall i :: 0 <= i < |items| && Writes(items[i]) ==> items[i].name.path !in t.originals
    requires LockFile !in t.originals
    ensures var u := ApplyItems(items, t, req, faults).txn; LogsOriginals(u, original) && LockFile !in u.originals
  {
    if items != [] {
      ItemKeepsLog(items[0], t, original, req, faults);
      var step := ApplyItem(items[0], t, req, faults);
      if step.Went? {
        var rest := items[1..];
        assert forall i :: 0 <= i < |rest| ==> rest[i] == items[i + 1];
        LoopKeepsLog(rest, step.txn, original, req, faults);
      }
    }
  }

  /** Any plan that writes each path once is all or nothing, whatever write fails and however. */
  lemma {:induction false} WritingOnceIsAtomic(tree: Tree, plan: seq<PlannedFile>, req: Request, faults: Faults)
    requires |req.mk.start| > 0 && |req.mk.end| > 0 && WritesOnce(plan)
    ensures RolledBack(Transaction(tree, plan, req, faults).txn) == tree
  {
    LoopKeepsLog(plan, Start(tree), tree, req, faults);
    var loop := ApplyItems(plan, Start(tree), req, faults);
    if loop.Went? {
      TouchKeepsLog(loop.txn, LockFile, Some(LockDocument(NewLock(loop.txn.hashes, req), LAYOUT)), tree, faults);
    }
    RollbackRestores(Transaction(tree, plan, req, faults).txn, tree);
  }

  // ---- what a plan of the source contains

  /** Which item the plan has for each of its positions. */
  lemma {:induction false} PlanParts(tree: Tree, req: Request, ms: seq<Path>, ns: seq<Name>, plan: seq<PlannedFile>,
      i: nat)
    requires |req.mk.start| > 0 && |req.mk.end| > 0
    requires Enumerates(ms, Payload(req).Keys) && Enumerates(ns, Retired(tree, req))
    requires plan == PlannedFiles(tree, req, ms, ns) && i < |plan|
    ensures i < |ms| ==> ms[i] in Payload(req) && plan[i] == ManagedItem(tree, req, ms[i])
    ensures |ms| <= i < |ms| + |ns| ==>
              ns[i - |ms|] in Retired(tree, req) && plan[i] == RetiredItem(tree, ns[i - |ms|])
    ensures i == |ms| + |ns| ==> plan[i] == AgentsItem(tree, req)
    ensures i == |ms| + |ns| + 1 ==> plan[i] == SeededItem(tree, req, Mission)
    ensures i == |ms| + |ns| + 2 ==> plan[i] == SeededItem(tree, req, Rules)
    ensures i == |ms| + |ns| + 3 ==> plan[i] == SeededItem(tree, req, Harness)
    ensures i <= |ms| + |ns| + 3
  {
  }

  /** The bundle, or the block inside AGENTS.md, is to replace what is at `p` now. */
  predicate Outdated(tree: Tree, req: Request, p: Path)
    requires |req.mk.start| > 0 && |req.mk.end| > 0
  {
    && p in tree
    && if p == Agents then MergeAgents(req, Some(tree[p])) != NewAgents(tree[p])
       else p in Payload(req) && Payload(req)[p] != tree[p]
  }

  /**
   The old lock gives one file two owners: it lists it under two names that the bundle does not have, or
   under one such name while the bundle, or the block, is to replace the file as well.
   */
  predicate TwiceOwned(tree: Tree, req: Request)
    requires |req.mk.start| > 0 && |req.mk.end| > 0
  {
    || (exists m, n ::
          m in Retired(tree, req) && n in Retired(tree, req) && m != n && m.path == n.path && m.path in tree)
    || (exists n :: n in Retired(tree, req) && Outdated(tree, req, n.path))
  }

  /** A lock cannot hold its own digest, under whatever name, so no ready plan touches it. */
  lemma {:induction false} LockIsNeverListed(tree: Tree, req: Request)
    requires |req.mk.start| > 0 && |req.mk.end| > 0 && ReadyFor(tree, req)
    ensures !Listed(tree, req, LockFile)
  {
  }

  /** Which items of a ready plan write. */
  lemma {:induction false} WhoWrites(tree: Tree, req: Request, ms: seq<Path>, ns: seq<Name>, plan: seq<PlannedFile>,
      i: nat)
    requires GoodRequest(req) && ReadyFor(tree, req)
    requires Enumerates(ms, Payload(req).Keys) && Enumerates(ns, Retired(tree, req))
    requires plan == PlannedFiles(tree, req, ms, ns) && i < |plan|
    ensures |ms| <= i < |ms| + |ns| ==> (Writes(plan[i]) <==> ns[i - |ms|].path in tree)
    ensures i < |ms| ==> (Writes(plan[i]) <==> ms[i] !in tree || Outdated(tree, req, ms[i]))
    ensures i == |ms| + |ns| ==> (Writes(plan[i]) <==> Agents !in tree || Outdated(tree, req, Agents))
    ensures i > |ms| + |ns| ==> (Writes(plan[i]) <==> plan[i].name.path !in tree) && IsGovernance(plan[i].name.path)
  {
    PlanParts(tree, req, ms, ns, plan, i);
  }

  /** A ready plan writes each file once exactly when the old lock gives none of them two owners. */
  lemma {:induction false} ReadyPlanWritesOnce(tree: Tree, req: Request, plan: seq<PlannedFile>)
    requires GoodRequest(req) && ReadyFor(tree, req) && IsPlanOf(plan, tree, req)
    ensures WritesOnce(plan) <==> !TwiceOwned(tree, req)
  {
    var ms, ns :| Enumerates(ms, Payload(req).Keys) && Enumerates(ns, Retired(tree, req))
                  && plan == PlannedFiles(tree, req, ms, ns);
    if TwiceOwned(tree, req) {
      TwiceOwnedIsWrittenTwice(tree, req, ms, ns, plan);
    } else {
      forall i, j | 0 <= i < j < |plan| && Writes(plan[i]) && Writes(plan[j])
        ensures plan[i].name.path != plan[j].name.path
      {
        OwnersDiffer(tree, req, ms, ns, plan, i, j);
      }
      forall i | 0 <= i < |plan| && Writes(plan[i])
        ensures plan[i].name.path != LockFile
      {
        PlanParts(tree, req, ms, ns, plan, i);
        LockIsNeverListed(tree, req);
      }
    }
  }

  lemma {:induction false} OwnersDiffer(tree: Tree, req: Request, ms: seq<Path>, ns: seq<Name>,
      plan: seq<PlannedFile>, i: nat, j: nat)
    requires GoodRequest(req) && ReadyFor(tree, req) && !TwiceOwned(tree, req)
    requires Enumerates(ms, Payload(req).Keys) && Enumerates(ns, Retired(tree, req))
    requires plan == PlannedFiles(tree, req, ms, ns) && i < j < |plan| && Writes(plan[i]) && Writes(plan[j])
    ensures plan[i].name.path != plan[j].name.path
  {
    PlanParts(tree, req, ms, ns, plan, i);
    PlanParts(tree, req, ms, ns, plan, j);
    WhoWrites(tree, req, ms, ns, plan, i);
    WhoWrites(tree, req, ms, ns, plan, j);
  }

  lemma {:induction false} TwiceOwnedIsWrittenTwice(tree: Tree, req: Request, ms: seq<Path>, ns: seq<Name>,
      plan: seq<PlannedFile>)
    requires GoodRequest(req) && ReadyFor(tree, req) && TwiceOwned(tree, req)
    requires Enumerates(ms, Payload(req).Keys) && Enumerates(ns, Retired(tree, req))
    requires plan == PlannedFiles(tree, req, ms, ns)
    ensures exists i, j :: WrittenTwiceAt(plan, i, j)
  {
    if m, n :| m in Retired(tree, req) && n in Retired(tree, req) && m != n && m.path == n.path && m.path in tree {
      var i := PositionOf(tree, req, ms, ns, plan, m);
      var j := PositionOf(tree, req, ms, ns, plan, n);
      InEitherOrder(plan, i, j);
    } else {
      var n :| n in Retired(tree, req) && Outdated(tree, req, n.path);
      var j := PositionOf(tree, req, ms, ns, plan, n);
      var i := ReplacedAt(tree, req, ms, ns, plan, n.path);
      InEitherOrder(plan, i, j);
    }
  }

  lemma {:induction false} InEitherOrder(plan: seq<PlannedFile>, i: nat, j: nat)
    requires i < |plan| && j < |plan| && i != j && Writes(plan[i]) && Writes(plan[j])
    requires plan[i].name.path == plan[j].name.path
    ensures exists a, b :: WrittenTwiceAt(plan, a, b)
  {
    assert WrittenTwiceAt(plan, if i < j then i else j, if i < j then j else i);
  }

  /** Where the plan replaces a file that the bundle, or the block, is to replace. */
  lemma {:induction false} ReplacedAt(tree: Tree, req: Request, ms: seq<Path>, ns: seq<Name>, plan: seq<PlannedFile>,
      p: Path) returns (i: nat)
    requires GoodRequest(req) && ReadyFor(tree, req)
    requires Enumerates(ms, Payload(req).Keys) && Enumerates(ns, Retired(tree, req))
    requires plan == PlannedFiles(tree, req, ms, ns) && Outdated(tree, req, p)
    ensures (i < |ms| || i == |ms| + |ns|) && i < |plan| && plan[i].name.path == p && Writes(plan[i])
  {
    if p == Agents {
      i := |ms| + |ns|;
    } else {
      assert p in ms;
      i :| 0 <= i < |ms| && ms[i] == p;
    }
    PlanParts(tree, req, ms, ns, plan, i);
    WhoWrites(tree, req, ms, ns, plan, i);
  }

  /** Where the plan removes the file that a listed name names. */
  lemma {:induction false} PositionOf(tree: Tree, req: Request, ms: seq<Path>, ns: seq<Name>, plan: seq<PlannedFile>,
      n: Name)
      returns (i: nat)
    requires GoodRequest(req) && ReadyFor(tree, req)
    requires Enumerates(ms, Payload(req).Keys) && Enumerates(ns, Retired(tree, req))
    requires plan == PlannedFiles(tree, req, ms, ns) && n in Retired(tree, req) && n.path in tree
    ensures |ms| <= i < |ms| + |ns| && i < |plan| && plan[i].name == n && Writes(plan[i])
  {
    assert n in ns;
    var k :| 0 <= k < |ns| && ns[k] == n;
    i := |ms| + k;
    PlanParts(tree, req, ms, ns, plan, i);
    WhoWrites(tree, req, ms, ns, plan, i);
  }

  ghost predicate WrittenTwiceAt(plan: seq<PlannedFile>, i: int, j: int) {
    0 <= i < j < |plan| && Writes(plan[i]) && Writes(plan[j]) && plan[i].name.path == plan[j].name.path
  }

  // ---- all or nothing, exactly when

  function FailFrom(k: nat): Faults {
    n => if n < k then Quiet else FailsBefore
  }

  const NEVER: Faults := n => Quiet

  lemma {:induction false} ItemWritesAtMostOnce(item: PlannedFile, t: Txn, req: Request, faults: Faults)
    requires |req.mk.start| > 0 && |req.mk.end| > 0
    ensures t.writes <= ApplyItem(item, t, req, faults).txn.writes <= t.writes + 1
  {
  }

  lemma {:induction false} TouchFeelsOneFault(t: Txn, p: Path, content: Option<Content>, faults: Faults, other: Faults)
    ensures Touched(t, p, content, faults).txn.writes == t.writes + 1
    ensures other(t.writes) == faults(t.writes) ==> Touched(t, p, content, other) == Touched(t, p, content, faults)
  {
  }

  /** What an item does depends on the faults at its own write only. */
  lemma {:induction false} ItemFeelsOneFault(item: PlannedFile, t: Txn, req: Request, faults: Faults, other: Faults)
    requires |req.mk.start| > 0 && |req.mk.end| > 0
    requires ApplyItem(item, t, req, faults).txn.writes == t.writes || other(t.writes) == faults(t.writes)
    ensures ApplyItem(item, t, req, other) == ApplyItem(item, t, req, faults)
  {
    if item.action == Remove {
      TouchFeelsOneFault(t, item.name.path, None, faults, other);
    } else if Touches(item, t, req) {
      TouchFeelsOneFault(t, item.name.path, WrittenBy(item, t, req), faults, other);
    }
  }

  lemma {:induction false} WritesGrow(items: seq<PlannedFile>, t: Txn, req: Request, faults: Faults)
    requires |req.mk.start| > 0 && |req.mk.end| > 0
    ensures t.writes <= ApplyItems(items, t, req, faults).txn.writes
  {
    if items != [] {
      ItemWritesAtMostOnce(items[0], t, req, faults);
      WritesGrow(items[1..], ApplyItem(items[0], t, req, faults).txn, req, faults);
    }
  }

  /** Faults that start after a run do not change the run. */
  lemma {:induction false} LateFaultsAreNotFelt(items: seq<PlannedFile>, t: Txn, req: Request, k: nat)
    requires |req.mk.start| > 0 && |req.mk.end| > 0
    requires ApplyItems(items, t, req, NEVER).Went? && ApplyItems(items, t, req, NEVER).txn.writes <= k
    ensures ApplyItems(items, t, req, FailFrom(k)) == ApplyItems(items, t, req, NEVER)
  {
    if items != [] {
      var u := ApplyItem(items[0], t, req, NEVER).txn;
      WritesGrow(items[1..], u, req, NEVER);
      ItemWritesAtMostOnce(items[0], t, req, NEVER);
      ItemFeelsOneFault(items[0], t, req, NEVER, FailFrom(k));
      LateFaultsAreNotFelt(items[1..], u, req, k);
    }
  }

  lemma {:induction false} RaisedInTheMiddle(before: seq<PlannedFile>, item: PlannedFile, rest: seq<PlannedFile>,
      tree: Tree, req: Request, faults: Faults, t: Txn)
    requires |req.mk.start| > 0 && |req.mk.end| > 0
    requires ApplyItems(before, Start(tree), req, faults) == Went(t)
    requires ApplyItem(item, t, req, faults).Raised?
    ensures Transaction(tree, before + ([item] + rest), req, faults) == ApplyItem(item, t, req, faults)
  {
    ApplyItemsConcat(before, [item] + rest, Start(tree), req, faults);
  }

  // ---- a ready plan goes through when nothing fails

  lemma {:induction false} FileGoesThrough(item: PlannedFile, t: Txn, req: Request)
    requires GoodRequest(req) && (InPayload(item, req) || item.action == Remove || item.action == Unchanged)
    ensures ApplyItem(item, t, req, NEVER).Went?
    ensures var after := Lookup(ApplyItem(item, t, req, NEVER).txn.tree, Agents);
            after == None || after == Lookup(t.tree, Agents)
  {
  }

  /** The bundle and the retired files; at most AGENTS.md was removed on the way. */
  lemma {:induction false} FilesGoThrough(items: seq<PlannedFile>, t: Txn, req: Request)
    requires GoodRequest(req)
    requires forall i :: 0 <= i < |items| ==>
      InPayload(items[i], req) || items[i].action == Remove || items[i].action == Unchanged
    ensures ApplyItems(items, t, req, NEVER).Went?
    ensures var after := Lookup(ApplyItems(items, t, req, NEVER).txn.tree, Agents);
            after == None || after == Lookup(t.tree, Agents)
  {
    if items != [] {
      var step := ApplyItem(items[0], t, req, NEVER);
      var rest := items[1..];
      assert forall i :: 0 <= i < |rest| ==> rest[i] == items[i + 1];
      FileGoesThrough(items[0], t, req);
      FilesGoThrough(rest, step.txn, req);
    }
  }

  lemma {:induction false} GovernanceGoesThrough(tree: Tree, t: Txn, req: Request)
    requires |req.mk.start| > 0 && |req.mk.end| > 0 && MergeAgents(req, Lookup(tree, Agents)).NewAgents?
    requires Lookup(t.tree, Agents) == None || Lookup(t.tree, Agents) == Lookup(tree, Agents)
    ensures ApplyItems(GovernanceItems(tree, req), t, req, NEVER).Went?
  {
    var agents := [AgentsItem(tree, req)];
    var rest := [SeededItem(tree, req, Mission), SeededItem(tree, req, Rules)] + HarnessItems(tree, req);
    assert GovernanceItems(tree, req) == agents + rest;
    ApplyItemsConcat(agents, rest, t, req, NEVER);
    assert agents[1..] == [];
    SeedsGoThrough(rest, ApplyItem(agents[0], t, req, NEVER).txn, req);
  }

  lemma {:induction false} SeedsGoThrough(items: seq<PlannedFile>, t: Txn, req: Request)
    requires |req.mk.start| > 0 && |req.mk.end| > 0
    requires forall i :: 0 <= i < |items| ==> items[i].name != Plain(Agents)
    ensures ApplyItems(items, t, req, NEVER).Went?
  {
    if items != [] {
      var rest := items[1..];
      assert forall i :: 0 <= i < |rest| ==> rest[i] == items[i + 1];
      SeedsGoThrough(rest, ApplyItem(items[0], t, req, NEVER).txn, req);
    }
  }

  lemma {:induction false} PlanStarts(tree: Tree, req: Request, ms: seq<Path>, ns: seq<Name>, plan: seq<PlannedFile>)
    requires GoodRequest(req) && ReadyFor(tree, req)
    requires Enumerates(ms, Payload(req).Keys) && Enumerates(ns, Retired(tree, req))
    requires plan == PlannedFiles(tree, req, ms, ns)
    ensures var files := ManagedItems(tree, req, ms) + RetiredItems(tree, ns);
            forall i :: 0 <= i < |files| ==>
              InPayload(files[i], req) || files[i].action == Remove || files[i].action == Unchanged
  {
  }

  lemma {:induction false} ReadyPlanGoesThrough(tree: Tree, req: Request, plan: seq<PlannedFile>, j: nat)
    requires GoodRequest(req) && ReadyFor(tree, req) && IsPlanOf(plan, tree, req) && j <= |plan|
    ensures ApplyItems(plan[..j], Start(tree), req, NEVER).Went?
  {
    var ms, ns :| Enumerates(ms, Payload(req).Keys) && Enumerates(ns, Retired(tree, req))
                  && plan == PlannedFiles(tree, req, ms, ns);
    var files := ManagedItems(tree, req, ms) + RetiredItems(tree, ns);
    PlanStarts(tree, req, ms, ns, plan);
    FilesGoThrough(files, Start(tree), req);
    GovernanceGoesThrough(tree, ApplyItems(files, Start(tree), req, NEVER).txn, req);
    ApplyItemsConcat(files, GovernanceItems(tree, req), Start(tree), req, NEVER);
    assert plan == plan[..j] + plan[j..];
    ApplyItemsConcat(plan[..j], plan[j..], Start(tree), req, NEVER);
  }

  // ---- the file that is lost

  /** The next item from `from` on that writes `p`, or the end. */
  function NextWriter(plan: seq<PlannedFile>, p: Path, from: nat): (i: nat)
    requires from <= |plan|
    ensures from <= i <= |plan| && (i < |plan| ==> Writes(plan[i]) && plan[i].name.path == p)
    ensures forall k :: from <= k < i ==> !(Writes(plan[k]) && plan[k].name.path == p)
    decreases |plan| - from
  {
    if from == |plan| || (Writes(plan[from]) && plan[from].name.path == p) then from else NextWriter(plan, p, from + 1)
  }

  lemma {:induction false} OtherKeeps(item: PlannedFile, t: Txn, req: Request, faults: Faults, p: Path)
    requires |req.mk.start| > 0 && |req.mk.end| > 0 && !(Writes(item) && item.name.path == p)
    ensures Lookup(ApplyItem(item, t, req, faults).txn.tree, p) == Lookup(t.tree, p)
  {
  }

  lemma {:induction false} NoWriterKeeps(items: seq<PlannedFile>, t: Txn, req: Request, faults: Faults, p: Path)
    requires |req.mk.start| > 0 && |req.mk.end| > 0
    requires forall i :: 0 <= i < |items| ==> !(Writes(items[i]) && items[i].name.path == p)
    requires ApplyItems(items, t, req, faults).Went?
    ensures Lookup(ApplyItems(items, t, req, faults).txn.tree, p) == Lookup(t.tree, p)
  {
    if items != [] {
      var rest := items[1..];
      assert forall i :: 0 <= i < |rest| ==> rest[i] == items[i + 1];
      OtherKeeps(items[0], t, req, faults, p);
      NoWriterKeeps(rest, ApplyItem(items[0], t, req, faults).txn, req, faults, p);
    }
  }

  /** The item writes or removes its file when its turn comes. */
  predicate Touches(item: PlannedFile, t: Txn, req: Request)
    requires |req.mk.start| > 0 && |req.mk.end| > 0
  {
    item.action == Remove || (Writes(item) && DesiredContent(item, t.tree, req).Data?)
  }

  function WrittenBy(item: PlannedFile, t: Txn, req: Request): Option<Content>
    requires |req.mk.start| > 0 && |req.mk.end| > 0 && Touches(item, t, req)
  {
    if item.action == Remove then None else Some(DesiredContent(item, t.tree, req).content)
  }

  /** A write that goes through leaves its content; one that fails before it took effect logs what was there. */
  lemma {:induction false} TouchEffect(item: PlannedFile, t: Txn, req: Request, faults: Faults)
    requires |req.mk.start| > 0 && |req.mk.end| > 0 && Touches(item, t, req)
    ensures var p, u := item.name.path, ApplyItem(item, t, req, faults);
            && (faults(t.writes).Quiet? ==> Lookup(u.txn.tree, p) == WrittenBy(item, t, req))
            && (faults(t.writes).FailsBefore? ==> u.Raised? && Lookup(RolledBack(u.txn), p) == Lookup(t.tree, p))
  {
  }

  /** When its turn comes the item writes something else than the original. */
  ghost predicate WritesOther(item: PlannedFile, tree: Tree, t: Txn, req: Request)
    requires |req.mk.start| > 0 && |req.mk.end| > 0
  {
    && Touches(item, t, req)
    && (Lookup(t.tree, item.name.path) == Lookup(tree, item.name.path) ==>
          WrittenBy(item, t, req) != Lookup(tree, item.name.path))
  }

  lemma {:induction false} ManagedWritesOther(tree: Tree, req: Request, m: Path, t: Txn)
    requires GoodRequest(req) && m in Payload(req) && ManagedItem(tree, req, m).action != Conflict
    requires Writes(ManagedItem(tree, req, m))
    ensures WritesOther(ManagedItem(tree, req, m), tree, t, req)
  {
  }

  lemma {:induction false} RetiredWritesOther(tree: Tree, req: Request, n: Name, t: Txn)
    requires GoodRequest(req) && n in PreviousHashes(tree) && RetiredItem(tree, n).action != Conflict
    requires Writes(RetiredItem(tree, n))
    ensures WritesOther(RetiredItem(tree, n), tree, t, req)
  {
  }

  lemma {:induction false} AgentsWritesOther(tree: Tree, req: Request, t: Txn)
    requires GoodRequest(req) && MergeAgents(req, Lookup(tree, Agents)).NewAgents?
    requires Writes(AgentsItem(tree, req)) && ApplyItem(AgentsItem(tree, req), t, req, NEVER).Went?
    ensures WritesOther(AgentsItem(tree, req), tree, t, req)
  {
  }

  lemma {:induction false} SeededWritesOther(tree: Tree, req: Request, g: Path, t: Txn)
    requires GoodRequest(req) && IsGovernance(g) && Writes(SeededItem(tree, req, g))
    ensures WritesOther(SeededItem(tree, req, g), tree, t, req)
  {
  }

  /** In a ready plan the first write of a file changes it. */
  lemma {:induction false} FirstWriteChanges(tree: Tree, req: Request, plan: seq<PlannedFile>, i: nat, t: Txn)
    requires GoodRequest(req) && ReadyFor(tree, req) && IsPlanOf(plan, tree, req)
    requires i < |plan| && Writes(plan[i]) && ApplyItem(plan[i], t, req, NEVER).Went?
    ensures WritesOther(plan[i], tree, t, req)
  {
    var ms, ns :| Enumerates(ms, Payload(req).Keys) && Enumerates(ns, Retired(tree, req))
                  && plan == PlannedFiles(tree, req, ms, ns);
    PlanParts(tree, req, ms, ns, plan, i);
    if i < |ms| {
      ManagedWritesOther(tree, req, ms[i], t);
    } else if i < |ms| + |ns| {
      RetiredWritesOther(tree, req, ns[i - |ms|], t);
    } else if i == |ms| + |ns| {
      AgentsWritesOther(tree, req, t);
    } else {
      var g := if i == |ms| + |ns| + 1 then Mission else if i == |ms| + |ns| + 2 then Rules else Harness;
      SeededWritesOther(tree, req, g, t);
    }
  }

  lemma {:induction false} FirstEffect(tree: Tree, req: Request, plan: seq<PlannedFile>, i: nat, t: Txn)
    requires GoodRequest(req) && ReadyFor(tree, req) && IsPlanOf(plan, tree, req)
    requires i < |plan| && Writes(plan[i]) && ApplyItem(plan[i], t, req, NEVER).Went?
    requires Lookup(t.tree, plan[i].name.path) == Lookup(tree, plan[i].name.path)
    ensures Lookup(ApplyItem(plan[i], t, req, NEVER).txn.tree, plan[i].name.path) != Lookup(tree, plan[i].name.path)
  {
    FirstWriteChanges(tree, req, plan, i, t);
    TouchEffect(plan[i], t, req, NEVER);
  }

  lemma {:induction false} AfterItems(tree: Tree, req: Request, plan: seq<PlannedFile>, i: nat, j: nat)
    requires |req.mk.start| > 0 && |req.mk.end| > 0
    requires i < j <= |plan| && ApplyItems(plan[..j], Start(tree), req, NEVER).Went?
    ensures ApplyItems(plan[..i], Start(tree), req, NEVER).Went?
    ensures var t := ApplyItems(plan[..i], Start(tree), req, NEVER).txn;
            && ApplyItem(plan[i], t, req, NEVER).Went?
            && ApplyItems(plan[i + 1..j], ApplyItem(plan[i], t, req, NEVER).txn, req, NEVER) ==
               ApplyItems(plan[..j], Start(tree), req, NEVER)
  {
    assert plan[..j] == plan[..i] + ([plan[i]] + plan[i + 1..j]);
    ApplyItemsConcat(plan[..i], [plan[i]] + plan[i + 1..j], Start(tree), req, NEVER);
    assert ([plan[i]] + plan[i + 1..j])[1..] == plan[i + 1..j];
  }

  lemma {:induction false} OriginalUntilFirst(tree: Tree, req: Request, plan: seq<PlannedFile>, p: Path, i: nat)
    requires |req.mk.start| > 0 && |req.mk.end| > 0
    requires i == NextWriter(plan, p, 0) && ApplyItems(plan[..i], Start(tree), req, NEVER).Went?
    ensures Lookup(ApplyItems(plan[..i], Start(tree), req, NEVER).txn.tree, p) == Lookup(tree, p)
  {
    var before := plan[..i];
    assert forall k :: 0 <= k < |before| ==> before[k] == plan[k];
    NoWriterKeeps(before, Start(tree), req, NEVER, p);
  }

  lemma {:induction false} KeptUntilNext(tree: Tree, req: Request, plan: seq<PlannedFile>, p: Path, i: nat, j: nat)
    requires |req.mk.start| > 0 && |req.mk.end| > 0
    requires i < j <= |plan| && j == NextWriter(plan, p, i + 1) && ApplyItems(plan[..j], Start(tree), req, NEVER).Went?
    ensures ApplyItems(plan[..i], Start(tree), req, NEVER).Went?
    ensures var t := ApplyItems(plan[..i], Start(tree), req, NEVER).txn;
            && ApplyItem(plan[i], t, req, NEVER).Went?
            && Lookup(ApplyItems(plan[..j], Start(tree), req, NEVER).txn.tree, p) ==
               Lookup(ApplyItem(plan[i], t, req, NEVER).txn.tree, p)
  {
    AfterItems(tree, req, plan, i, j);
    var between := plan[i + 1..j];
    assert forall k :: 0 <= k < |between| ==> between[k] == plan[i + 1 + k];
    NoWriterKeeps(between, ApplyItem(plan[i], ApplyItems(plan[..i], Start(tree), req, NEVER).txn, req, NEVER).txn,
                  req, NEVER, p);
  }

  /** Between the first two writes of a file its content is not the original. */
  lemma {:induction false} ChangedByFirstWrite(tree: Tree, req: Request, plan: seq<PlannedFile>, i: nat, j: nat)
    requires GoodRequest(req) && ReadyFor(tree, req) && IsPlanOf(plan, tree, req) && WrittenTwiceAt(plan, i, j)
    requires i == NextWriter(plan, plan[i].name.path, 0) && j == NextWriter(plan, plan[i].name.path, i + 1)
    requires ApplyItems(plan[..j], Start(tree), req, NEVER).Went?
    ensures Lookup(ApplyItems(plan[..j], Start(tree), req, NEVER).txn.tree, plan[i].name.path) !=
      Lookup(tree, plan[i].name.path)
  {
    var p := plan[i].name.path;
    KeptUntilNext(tree, req, plan, p, i, j);
    OriginalUntilFirst(tree, req, plan, p, i);
    FirstEffect(tree, req, plan, i, ApplyItems(plan[..i], Start(tree), req, NEVER).txn);
  }

  lemma {:induction false} FailsThere(plan: seq<PlannedFile>, j: nat, t: Txn, u: Txn, tree: Tree, req: Request,
      faults: Faults)
    requires |req.mk.start| > 0 && |req.mk.end| > 0 && j < |plan|
    requires ApplyItems(plan[..j], Start(tree), req, faults) == Went(t)
    requires ApplyItem(plan[j], t, req, faults) == Raised(u)
    ensures Transaction(tree, plan, req, faults) == Raised(u)
  {
    assert plan == plan[..j] + ([plan[j]] + plan[j + 1..]);
    RaisedInTheMiddle(plan[..j], plan[j], plan[j + 1..], tree, req, faults, t);
  }

  lemma {:induction false} WriterTouches(tree: Tree, req: Request, plan: seq<PlannedFile>, j: nat, t: Txn)
    requires GoodRequest(req) && ReadyFor(tree, req) && IsPlanOf(plan, tree, req)
    requires j < |plan| && Writes(plan[j]) && ApplyItems(plan[..j], Start(tree), req, NEVER) == Went(t)
    ensures Touches(plan[j], t, req)
  {
    ReadyPlanGoesThrough(tree, req, plan, j + 1);
    AfterItems(tree, req, plan, j, j + 1);
    FirstWriteChanges(tree, req, plan, j, t);
  }

  /** When a write fails before it takes effect, the rollback puts back what that write found. */
  lemma {:induction false} RollbackKeepsWhatItFound(tree: Tree, req: Request, plan: seq<PlannedFile>, j: nat, t: Txn)
    requires |req.mk.start| > 0 && |req.mk.end| > 0
    requires j < |plan| && Touches(plan[j], t, req) && ApplyItems(plan[..j], Start(tree), req, NEVER) == Went(t)
    ensures var end := Transaction(tree, plan, req, FailFrom(t.writes));
            end.Raised? && Lookup(RolledBack(end.txn), plan[j].name.path) == Lookup(t.tree, plan[j].name.path)
  {
    var faults := FailFrom(t.writes);
    LateFaultsAreNotFelt(plan[..j], Start(tree), req, t.writes);
    TouchEffect(plan[j], t, req, faults);
    FailsThere(plan, j, t, ApplyItem(plan[j], t, req, faults).txn, tree, req, faults);
  }

  /** The family that breaks the undo log: some failure leaves a file changed that the call was to restore. */
  lemma {:induction false} TwiceOwnedIsLost(tree: Tree, req: Request, plan: seq<PlannedFile>) returns (faults: Faults)
    requires GoodRequest(req) && ReadyFor(tree, req) && IsPlanOf(plan, tree, req) && TwiceOwned(tree, req)
    ensures Transaction(tree, plan, req, faults).Raised?
    ensures RolledBack(Transaction(tree, plan, req, faults).txn) != tree
  {
    var ms, ns :| Enumerates(ms, Payload(req).Keys) && Enumerates(ns, Retired(tree, req))
                  && plan == PlannedFiles(tree, req, ms, ns);
    TwiceOwnedIsWrittenTwice(tree, req, ms, ns, plan);
    var a, b :| WrittenTwiceAt(plan, a, b);
    var i := NextWriter(plan, plan[a].name.path, 0);
    var j := NextWriter(plan, plan[a].name.path, i + 1);
    ReadyPlanGoesThrough(tree, req, plan, j);
    var t := ApplyItems(plan[..j], Start(tree), req, NEVER).txn;
    ChangedByFirstWrite(tree, req, plan, i, j);
    WriterTouches(tree, req, plan, j, t);
    RollbackKeepsWhatItFound(tree, req, plan, j, t);
    faults := FailFrom(t.writes);
  }

  /**
   Adoption is all or nothing, for every write that may fail and in either way, exactly when the old lock
   gives no file two owners.
   */
  lemma {:induction false} AdoptionIsAtomic(tree: Tree, req: Request, plan: seq<PlannedFile>)
    requires GoodRequest(req) && ReadyFor(tree, req) && IsPlanOf(plan, tree, req)
    ensures (forall faults :: Transaction(tree, plan, req, faults).Raised?
                              ==> RolledBack(Transaction(tree, plan, req, faults).txn) == tree)
            <==> !TwiceOwned(tree, req)
  {
    if TwiceOwned(tree, req) {
      var faults := TwiceOwnedIsLost(tree, req, plan);
      assert RolledBack(Transaction(tree, plan, req, faults).txn) != tree;
    } else {
      ReadyPlanWritesOnce(tree, req, plan);
      forall faults { WritingOnceIsAtomic(tree, plan, req, faults); }
    }
  }
}

/**
 Applying an adoption plan: the write loop of core/adoption/service.py with its undo log.

 Any write or removal may raise, before or after it took effect. The specification functions run the
 loop on values; `Project.Apply` is proved to do the same in place.
 */
module AdoptionApply {
  import opened Prelude
  import opened AgentsBlock
  import opened Adoption

  /** What the k-th write or removal of a call does. */
  datatype Fault = Quiet | FailsBefore | FailsAfter

  type Faults = nat -> Fault

  datatype Report = Report(
    created: seq<Name>,
    updated: seq<Name>,
    removed: seq<Name>,
    adopted: seq<Name>,
    same: seq<Name>)

  /** The state of the loop: the tree, the undo log, and what has been recorded so far. */
  datatype Txn = Txn(
    tree: Tree,
    originals: map<Path, Option<Content>>,
    writes: nat,
    hashes: map<Path, Digest>,
    report: Report)

  datatype Step = Went(txn: Txn) | Raised(txn: Txn)

  function Start(tree: Tree): Txn {
    Txn(tree, map[], 0, map[], Report([], [], [], [], []))
  }

  function Put(tree: Tree, p: Path, content: Option<Content>): Tree {
    match content
    case None => tree - {p}
    case Some(c) => tree[p := c]
  }

  /** Records the original bytes, then writes or removes. */
  function Touched(t: Txn, p: Path, content: Option<Content>, faults: Faults): Step {
    var logged := t.(originals := t.originals[p := Lookup(t.tree, p)], writes := t.writes + 1);
    match faults(t.writes)
    case Quiet => Went(logged.(tree := Put(t.tree, p, content)))
    case FailsBefore => Raised(logged)
    case FailsAfter => Raised(logged.(tree := Put(t.tree, p, content)))
  }

  /** The item is one of the bundle's, under the bundle's own name. */
  predicate InPayload(item: PlannedFile, req: Request) {
    item.name.spelling == "" && item.name.path in Payload(req)
  }

  datatype Desired = Nothing | Data(content: Content) | Refuses

  function DesiredContent(item: PlannedFile, tree: Tree, req: Request): Desired
    requires |req.mk.start| > 0 && |req.mk.end| > 0
  {
    if InPayload(item, req) then Data(Payload(req)[item.name.path])
    else if item.name == Plain(Agents) then
      match MergeAgents(req, Lookup(tree, Agents))
      case NewAgents(content) => Data(content)
      case _ => Refuses
    else if item.name.spelling == "" && IsGovernance(item.name.path) && item.action == Create then
      // an absent default cannot be planned for creation, see HarnessItems
      match Seed(req, item.name.path)
      case Some(content) => Data(content)
      case None => Data(req.defaultHarness)
    else Nothing
  }

  function ApplyItem(item: PlannedFile, t: Txn, req: Request, faults: Faults): Step
    requires |req.mk.start| > 0 && |req.mk.end| > 0
  {
    match item.action
    case Preserve => Went(t)
    case Remove =>
      (match Touched(t, item.name.path, None, faults)
       case Went(u) => Went(u.(report := u.report.(removed := u.report.removed + [item.name])))
       case Raised(u) => Raised(u))
    case Unchanged =>
      Went(Record(t.(report := t.report.(same := t.report.same + [item.name])), item, req))
    case Adopt =>
      Went(Record(t.(report := t.report.(adopted := t.report.adopted + [item.name])), item, req))
    case _ =>
      (match DesiredContent(item, t.tree, req)
       case Nothing => Went(t)
       case Refuses => Raised(t)
       case Data(content) =>
         match Touched(t, item.name.path, Some(content), faults)
         case Raised(u) => Raised(u)
         case Went(u) =>
           var listed := if item.action == Create
                         then u.(report := u.report.(created := u.report.created + [item.name]))
                         else u.(report := u.report.(updated := u.report.updated + [item.name]));
           Went(if InPayload(item, req) then listed.(hashes := listed.hashes[item.name.path := Sha256(content)])
             else listed))
  }

  function Record(t: Txn, item: PlannedFile, req: Request): Txn {
    if InPayload(item, req)
    then t.(hashes := t.hashes[item.name.path := if item.desired.Some? then item.desired.value else Literal("")])
    else t
  }

  /** The loop over the plan; an exception ends it. */
  function ApplyItems(items: seq<PlannedFile>, t: Txn, req: Request, faults: Faults): Step
    requires |req.mk.start| > 0 && |req.mk.end| > 0
  {
    if items == [] then Went(t)
    else
      match ApplyItem(items[0], t, req, faults)
      case Raised(u) => Raised(u)
      case Went(u) => ApplyItems(items[1..], u, req, faults)
  }

  function NewLock(hashes: map<Path, Digest>, req: Request): Lock {
    var payload := Payload(req);
    var managed := (map p | p in payload :: Sha256(payload[p])) + hashes;
    Lock(req.commit, req.source, req.level,
         map p | p in managed :: Plain(p) := managed[p],
         map p | p in req.seeds :: Sha256(req.seeds[p]),
         Sha256(Text(Block(req.mk, req.middle))),
         req.commands)
  }

  const LAYOUT: string := "indent=2"

  function WriteLock(t: Txn, req: Request, faults: Faults): Step {
    Touched(t, LockFile, Some(LockDocument(NewLock(t.hashes, req), LAYOUT)), faults)
  }

  /** Everything inside the `try`. */
  function Transaction(tree: Tree, files: seq<PlannedFile>, req: Request, faults: Faults): Step
    requires |req.mk.start| > 0 && |req.mk.end| > 0
  {
    match ApplyItems(files, Start(tree), req, faults)
    case Raised(t) => Raised(t)
    case Went(t) => WriteLock(t, req, faults)
  }

  /** The `except` branch: every logged path gets its original back. */
  function Restored(tree: Tree, originals: map<Path, Option<Content>>): Tree {
    (tree - originals.Keys) + map p | p in originals && originals[p].Some? :: originals[p].value
  }

  function RolledBack(t: Txn): Tree {
    Restored(t.tree, t.originals)
  }

  lemma {:induction false} ApplyItemsConcat(a: seq<PlannedFile>, b: seq<PlannedFile>, t: Txn, req: Request,
      faults: Faults)
    requires |req.mk.start| > 0 && |req.mk.end| > 0
    ensures ApplyItems(a + b, t, req, faults) ==
            match ApplyItems(a, t, req, faults)
            case Raised(u) => Raised(u)
            case Went(u) => ApplyItems(b, u, req, faults)
  {
    if a == [] {
      assert a + b == b;
    } else {
      assert (a + b)[1..] == a[1..] + b;
      if ApplyItem(a[0], t, req, faults).Went? {
        ApplyItemsConcat(a[1..], b, ApplyItem(a[0], t, req, faults).txn, req, faults);
      }
    }
  }

  lemma {:induction false} SameTree(a: Tree, b: Tree)
    requires forall p: Path :: Lookup(a, p) == Lookup(b, p)
    ensures a == b
  {
    assert forall p :: p in a <==> Lookup(a, p).Some?;
    assert forall p :: p in b <==> Lookup(b, p).Some?;
    assert forall p :: p in a ==> a[p] == Lookup(a, p).value;
    assert forall p :: p in b ==> b[p] == Lookup(b, p).value;
  }

  datatype Outcome =
    | Blocked                  // nothing was attempted
    | Failed                   // an exception was raised inside the transaction and the undo log was replayed
    | Applied(report: Report)

  /** A project's working tree. */
  class Project {
    var files: Tree

    constructor (tree: Tree)
      ensures files == tree
    {
      files := tree;
    }

    /** Writes back or unlinks every logged path, one at a time. */
    method Rollback(originals: map<Path, Option<Content>>)
      modifies this
      ensures files == Restored(old(files), originals)
    {
      var order := Enumerate(originals.Keys);
      for i := 0 to |order|
        invariant forall p :: p in order[..i] ==> Lookup(files, p) == originals[p]
        invariant forall p :: p !in order[..i] ==> Lookup(files, p) == Lookup(old(files), p)
      {
        files := Put(files, order[i], originals[order[i]]);
      }
      assert order[..|order|] == order;
      SameTree(files, Restored(old(files), originals));
    }

    /** Logs the original of `p`, then writes or unlinks it. */
    method Touch(p: Path, content: Option<Content>, log: map<Path, Option<Content>>, fault: Fault)
        returns (originals: map<Path, Option<Content>>, raised: bool)
      modifies this
      ensures originals == log[p := Lookup(old(files), p)]
      ensures raised <==> !fault.Quiet?
      ensures files == if fault.FailsBefore? then old(files) else Put(old(files), p, content)
    {
      originals := log[p := Lookup(files, p)];
      if !fault.FailsBefore? {
        files := Put(files, p, content);
      }
      raised := !fault.Quiet?;
    }

    /** One turn of the loop; the locals of the loop travel in `before` and `after`. */
    method ApplyOne(item: PlannedFile, before: Txn, req: Request, faults: Faults) returns (after: Txn, raised: bool)
      requires |req.mk.start| > 0 && |req.mk.end| > 0
      requires files == before.tree
      modifies this
      ensures files == after.tree
      ensures ApplyItem(item, before, req, faults) == if raised then Raised(after) else Went(after)
    {
      var originals, hashes, report, writes := before.originals, before.hashes, before.report, before.writes;
      raised := false;
      if item.action == Remove {
        originals, raised := Touch(item.name.path, None, originals, faults(writes));
        writes := writes + 1;
        if !raised {
          report := report.(removed := report.removed + [item.name]);
        }
      } else if item.action == Unchanged || item.action == Adopt {
        report := if item.action == Adopt then report.(adopted := report.adopted + [item.name])
                  else report.(same := report.same + [item.name]);
        if InPayload(item, req) {
          hashes := hashes[item.name.path := if item.desired.Some? then item.desired.value else Literal("")];
        }
      } else if item.action != Preserve {
        var desired := DesiredContent(item, files, req);
        if desired.Refuses? {
          raised := true;
        } else if desired.Data? {
          originals, raised := Touch(item.name.path, Some(desired.content), originals, faults(writes));
          writes := writes + 1;
          if !raised {
            report := if item.action == Create then report.(created := report.created + [item.name])
                      else report.(updated := report.updated + [item.name]);
            if InPayload(item, req) {
              hashes := hashes[item.name.path := Sha256(desired.content)];
            }
          }
        }
      }
      after := Txn(files, originals, writes, hashes, report);
    }

    /** The loop over the plan. */
    method ApplyAll(plan: seq<PlannedFile>, req: Request, faults: Faults) returns (t: Txn, raised: bool)
      requires |req.mk.start| > 0 && |req.mk.end| > 0
      modifies this
      ensures files == t.tree
      ensures ApplyItems(plan, Start(old(files)), req, faults) == if raised then Raised(t) else Went(t)
    {
      t, raised := Start(files), false;
      for i := 0 to |plan|
        invariant files == t.tree && !raised
        invariant ApplyItems(plan[..i], Start(old(files)), req, faults) == Went(t)
      {
        ApplyOneMore(plan, i, old(files), req, faults);
        t, raised := ApplyOne(plan[i], t, req, faults);
        if raised {
          return;
        }
      }
      assert plan[..|plan|] == plan;
    }

    /** Plans, applies in place and, on any exception, replays the undo log. */
    method Apply(req: Request, faults: Faults) returns (outcome: Outcome)
      requires |req.mk.start| > 0 && |req.mk.end| > 0
      modifies this
      ensures outcome.Blocked? <==> !old(ReadyFor(files, req))
      ensures outcome.Blocked? ==> files == old(files)
      ensures !outcome.Blocked? ==>
        exists plan :: IsPlanOf(plan, old(files), req) && Ends(old(files), plan, req, faults, files, outcome)
    {
      ghost var before := files;
      var planned := PlanAdoption(files, req);
      if !planned.Planned? || !planned.plan.Ready() {
        return Blocked;
      }
      var t, raised := ApplyAll(planned.plan.files, req, faults);
      var originals := t.originals;
      if !raised {
        var lock := LockDocument(NewLock(t.hashes, req), LAYOUT);
        originals, raised := Touch(LockFile, Some(lock), originals, faults(t.writes));
      }
      if raised {
        Rollback(originals);
        outcome := Failed;
      } else {
        outcome := Applied(t.report);
      }
      assert Ends(before, planned.plan.files, req, faults, files, outcome);
    }
  }

  /** How the call ends for the tree and for the caller, given what happened inside the `try`. */
  ghost predicate Ends(before: Tree, plan: seq<PlannedFile>, req: Request, faults: Faults, after: Tree,
      outcome: Outcome)
    requires |req.mk.start| > 0 && |req.mk.end| > 0
  {
    match Transaction(before, plan, req, faults)
    case Raised(t) => outcome.Failed? && after == RolledBack(t)
    case Went(t) => outcome == Applied(t.report) && after == t.tree
  }

  lemma {:induction false} ApplyOneMore(plan: seq<PlannedFile>, i: nat, tree: Tree, req: Request, faults: Faults)
    requires |req.mk.start| > 0 && |req.mk.end| > 0
    requires i < |plan| && ApplyItems(plan[..i], Start(tree), req, faults).Went?
    ensures var t := ApplyItems(plan[..i], Start(tree), req, faults).txn;
            match ApplyItem(plan[i], t, req, faults)
            case Raised(u) => ApplyItems(plan, Start(tree), req, faults) == Raised(u)
            case Went(u) => ApplyItems(plan[..i + 1], Start(tree), req, faults) == Went(u)
  {
    assert plan[..i + 1] == plan[..i] + [plan[i]];
    assert plan == plan[..i] + plan[i..];
    ApplyItemsConcat(plan[..i], [plan[i]], Start(tree), req, faults);
    ApplyItemsConcat(plan[..i], plan[i..], Start(tree), req, faults);
  }
}

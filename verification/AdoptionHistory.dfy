/**
 What a successful adoption leaves behind, and what any sequence of them leaves behind.
 */
module AdoptionHistory {
  import opened Prelude
  import opened AgentsBlock
  import opened Adoption
  import opened AdoptionApply
  import opened AdoptionLaws

  function HashesOf(req: Request): map<Path, Digest> {
    map p | p in Payload(req) :: Sha256(Payload(req)[p])
  }

  /** The lock's list of the bundle, each file under its own name. */
  function NamesOf(hashes: map<Path, Digest>): map<Name, Digest> {
    map p | p in hashes :: Plain(p) := hashes[p]
  }

  function AgentsBlockDigest(req: Request): Digest {
    Sha256(Text(Block(req.mk, req.middle)))
  }

  /** The old lock lists an existing file under a name the bundle does not have: the plan removes it. */
  predicate Claimed(tree: Tree, req: Request, p: Path) {
    p in tree && Listed(tree, req, p)
  }

  /** What the target holds at `p` after a successful adoption, said without plan and loop. */
  function Expected(tree: Tree, req: Request, p: Path): Option<Content>
    requires |req.mk.start| > 0 && |req.mk.end| > 0
  {
    if p == LockFile then Some(LockDocument(NewLock(HashesOf(req), req), LAYOUT))
    else if Claimed(tree, req, p) then
      if p == Agents && Outdated(tree, req, p) then Some(FreshAgents(req)) else None
    else if p == Agents then
      match MergeAgents(req, Lookup(tree, Agents))
      case NewAgents(content) => Some(content)
      case _ => Lookup(tree, Agents)
    else if IsGovernance(p) then
      if p in tree then Some(tree[p]) else Seed(req, p)
    else if p in Payload(req) then Some(Payload(req)[p])
    else Lookup(tree, p)
  }

  /** The file that is written when there is no AGENTS.md. */
  function FreshAgents(req: Request): Content {
    Text(Block(req.mk, req.middle) + "\n")
  }

  // ---- the loop, phase by phase

  ghost predicate HashesArePayload(hashes: map<Path, Digest>, req: Request) {
    forall p :: p in hashes ==> p in Payload(req) && hashes[p] == Sha256(Payload(req)[p])
  }

  /** A plan records the payload's own digest for a payload path. */
  ghost predicate RecordsPayload(items: seq<PlannedFile>, req: Request) {
    forall i :: 0 <= i < |items| && InPayload(items[i], req) ==>
      items[i].desired == Some(Sha256(Payload(req)[items[i].name.path]))
  }

  lemma {:induction false} ItemKeepsHashes(item: PlannedFile, t: Txn, req: Request, faults: Faults)
    requires |req.mk.start| > 0 && |req.mk.end| > 0
    requires HashesArePayload(t.hashes, req)
    requires InPayload(item, req) ==> item.desired == Some(Sha256(Payload(req)[item.name.path]))
    ensures HashesArePayload(ApplyItem(item, t, req, faults).txn.hashes, req)
  {
  }

  lemma {:induction false} LoopKeepsHashes(items: seq<PlannedFile>, t: Txn, req: Request, faults: Faults)
    requires |req.mk.start| > 0 && |req.mk.end| > 0
    requires HashesArePayload(t.hashes, req) && RecordsPayload(items, req)
    ensures HashesArePayload(ApplyItems(items, t, req, faults).txn.hashes, req)
  {
    if items != [] {
      var rest := items[1..];
      assert forall i :: 0 <= i < |rest| ==> rest[i] == items[i + 1];
      ItemKeepsHashes(items[0], t, req, faults);
      LoopKeepsHashes(rest, ApplyItem(items[0], t, req, faults).txn, req, faults);
    }
  }

  /** After the bundle's items each bundle path holds the bundle's content, and no other path changed. */
  lemma {:induction false} ManagedPhase(tree: Tree, req: Request, ms: seq<Path>, t: Txn, faults: Faults, p: Path)
    requires GoodRequest(req) && Distinct(ms)
    requires forall m :: m in ms ==> m in Payload(req) && ManagedItem(tree, req, m).action != Conflict
    requires p in ms ==> Lookup(t.tree, p) == Lookup(tree, p)
    requires ApplyItems(ManagedItems(tree, req, ms), t, req, faults).Went?
    ensures Lookup(ApplyItems(ManagedItems(tree, req, ms), t, req, faults).txn.tree, p)
         == if p in ms then Some(Payload(req)[p]) else Lookup(t.tree, p)
  {
    if ms != [] {
      var m, rest := ms[0], ms[1..];
      assert ManagedItems(tree, req, ms)[1..] == ManagedItems(tree, req, rest);
      ManagedStep(tree, req, m, t, faults, p);
      assert m !in rest;
      ManagedPhase(tree, req, rest, ApplyItem(ManagedItem(tree, req, m), t, req, faults).txn, faults, p);
    }
  }

  lemma {:induction false} ManagedStep(tree: Tree, req: Request, m: Path, t: Txn, faults: Faults, p: Path)
    requires GoodRequest(req) && m in Payload(req) && ManagedItem(tree, req, m).action != Conflict
    requires p == m ==> Lookup(t.tree, p) == Lookup(tree, p)
    requires ApplyItem(ManagedItem(tree, req, m), t, req, faults).Went?
    ensures Lookup(ApplyItem(ManagedItem(tree, req, m), t, req, faults).txn.tree, p)
         == if p == m then Some(Payload(req)[p]) else Lookup(t.tree, p)
  {
  }

  /** After the retired items every existing file that one of them names is gone, and no other path changed. */
  lemma {:induction false} RetiredPhase(tree: Tree, ns: seq<Name>, t: Txn, req: Request, faults: Faults, p: Path)
    requires |req.mk.start| > 0 && |req.mk.end| > 0
    requires forall n :: n in ns ==> n in PreviousHashes(tree) && RetiredItem(tree, n).action != Conflict
    requires ApplyItems(RetiredItems(tree, ns), t, req, faults).Went?
    ensures Lookup(ApplyItems(RetiredItems(tree, ns), t, req, faults).txn.tree, p)
         == if p in tree && (exists n :: n in ns && n.path == p) then None else Lookup(t.tree, p)
  {
    if ns != [] {
      var n, rest := ns[0], ns[1..];
      assert RetiredItems(tree, ns)[1..] == RetiredItems(tree, rest);
      RetiredStep(tree, n, t, req, faults, p);
      RetiredPhase(tree, rest, ApplyItem(RetiredItem(tree, n), t, req, faults).txn, req, faults, p);
      assert forall x :: x in ns <==> x == n || x in rest;
    }
  }

  lemma {:induction false} RetiredStep(tree: Tree, n: Name, t: Txn, req: Request, faults: Faults, p: Path)
    requires |req.mk.start| > 0 && |req.mk.end| > 0
    requires n in PreviousHashes(tree) && RetiredItem(tree, n).action != Conflict
    requires ApplyItem(RetiredItem(tree, n), t, req, faults).Went?
    ensures Lookup(ApplyItem(RetiredItem(tree, n), t, req, faults).txn.tree, p)
         == if p == n.path && p in tree then None else Lookup(t.tree, p)
  {
  }

  /** What the governance items make of `p`, given what the earlier phases left there. */
  function GovernanceTarget(tree: Tree, req: Request, found: Option<Content>, p: Path): Option<Content>
    requires |req.mk.start| > 0 && |req.mk.end| > 0
  {
    if p == Agents then
      if Agents in tree && !Outdated(tree, req, Agents) then found
      else match MergeAgents(req, found)
           case NewAgents(content) => Some(content)
           case _ => found
    else if IsGovernance(p) && p !in tree && Seed(req, p).Some? then Seed(req, p)
    else found
  }

  lemma {:induction false} AgentsStep(tree: Tree, t: Txn, req: Request, faults: Faults, p: Path)
    requires GoodRequest(req) && MergeAgents(req, Lookup(tree, Agents)).NewAgents?
    requires ApplyItem(AgentsItem(tree, req), t, req, faults).Went?
    ensures Lookup(ApplyItem(AgentsItem(tree, req), t, req, faults).txn.tree, p)
         == if p == Agents then GovernanceTarget(tree, req, Lookup(t.tree, Agents), Agents) else Lookup(t.tree, p)
  {
  }

  lemma {:induction false} SeededStep(tree: Tree, t: Txn, req: Request, faults: Faults, g: Path, p: Path)
    requires GoodRequest(req) && IsGovernance(g) && (g in tree || Seed(req, g).Some?)
    requires ApplyItem(SeededItem(tree, req, g), t, req, faults).Went?
    ensures Lookup(ApplyItem(SeededItem(tree, req, g), t, req, faults).txn.tree, p)
         == if p == g then GovernanceTarget(tree, req, Lookup(t.tree, g), g) else Lookup(t.tree, p)
  {
  }

  /** The governance files that the plan has an item for. */
  function SeededPaths(tree: Tree, req: Request): seq<Path> {
    [Mission, Rules] + if Harness !in tree && Seed(req, Harness).None? then [] else [Harness]
  }

  function SeededItems(tree: Tree, req: Request, gs: seq<Path>): seq<PlannedFile> {
    seq(|gs|, i requires 0 <= i < |gs| => SeededItem(tree, req, gs[i]))
  }

  lemma {:induction false} SeedsPhase(tree: Tree, t: Txn, req: Request, faults: Faults, gs: seq<Path>, p: Path)
    requires GoodRequest(req) && Distinct(gs)
    requires forall g :: g in gs ==> IsGovernance(g) && (g in tree || Seed(req, g).Some?)
    requires ApplyItems(SeededItems(tree, req, gs), t, req, faults).Went?
    ensures Lookup(ApplyItems(SeededItems(tree, req, gs), t, req, faults).txn.tree, p)
         == if p in gs then GovernanceTarget(tree, req, Lookup(t.tree, p), p) else Lookup(t.tree, p)
    decreases |gs|
  {
    if gs != [] {
      var g, rest := gs[0], gs[1..];
      assert SeededItems(tree, req, gs)[1..] == SeededItems(tree, req, rest);
      SeededStep(tree, t, req, faults, g, p);
      assert g !in rest;
      SeedsPhase(tree, ApplyItem(SeededItem(tree, req, g), t, req, faults).txn, req, faults, rest, p);
    }
  }

  lemma {:induction false} GovernancePhase(tree: Tree, t: Txn, req: Request, faults: Faults, p: Path)
    requires GoodRequest(req) && MergeAgents(req, Lookup(tree, Agents)).NewAgents?
    requires ApplyItems(GovernanceItems(tree, req), t, req, faults).Went?
    ensures Lookup(ApplyItems(GovernanceItems(tree, req), t, req, faults).txn.tree, p)
         == GovernanceTarget(tree, req, Lookup(t.tree, p), p)
  {
    var items := GovernanceItems(tree, req);
    AgentsStep(tree, t, req, faults, p);
    assert items[1..] == SeededItems(tree, req, SeededPaths(tree, req));
    SeedsPhase(tree, ApplyItem(items[0], t, req, faults).txn, req, faults, SeededPaths(tree, req), p);
  }

  /** A loop that goes through leaves the expected content at every path but the lock's. */
  lemma {:induction false} LoopIsExpected(tree: Tree, req: Request, plan: seq<PlannedFile>, faults: Faults, p: Path)
    requires GoodRequest(req) && ReadyFor(tree, req) && IsPlanOf(plan, tree, req)
    requires ApplyItems(plan, Start(tree), req, faults).Went? && p != LockFile
    ensures Lookup(ApplyItems(plan, Start(tree), req, faults).txn.tree, p) == Expected(tree, req, p)
  {
    var ms, ns :| Enumerates(ms, Payload(req).Keys) && Enumerates(ns, Retired(tree, req))
                  && plan == PlannedFiles(tree, req, ms, ns);
    var managed, retired, rest := ManagedItems(tree, req, ms), RetiredItems(tree, ns), GovernanceItems(tree, req);
    ApplyItemsConcat(managed + retired, rest, Start(tree), req, faults);
    ApplyItemsConcat(managed, retired, Start(tree), req, faults);
    var t1 := ApplyItems(managed, Start(tree), req, faults).txn;
    var t2 := ApplyItems(retired, t1, req, faults).txn;
    ManagedPhase(tree, req, ms, Start(tree), faults, p);
    RetiredPhase(tree, ns, t1, req, faults, p);
    GovernancePhase(tree, t2, req, faults, p);
    PhasesAreExpected(tree, req, ms, ns, p);
  }

  /** The three phases, one after the other, come to what is expected. */
  lemma {:induction false} PhasesAreExpected(tree: Tree, req: Request, ms: seq<Path>, ns: seq<Name>, p: Path)
    requires GoodRequest(req) && ReadyFor(tree, req) && p != LockFile
    requires Enumerates(ms, Payload(req).Keys) && Enumerates(ns, Retired(tree, req))
    ensures var managed := if p in ms then Some(Payload(req)[p]) else Lookup(tree, p);
            var left := if p in tree && (exists n :: n in ns && n.path == p) then None else managed;
            GovernanceTarget(tree, req, left, p) == Expected(tree, req, p)
  {
  }

  lemma {:induction false} PlanRecordsPayload(tree: Tree, req: Request, plan: seq<PlannedFile>)
    requires GoodRequest(req) && IsPlanOf(plan, tree, req)
    ensures RecordsPayload(plan, req)
  {
    var ms, ns :| Enumerates(ms, Payload(req).Keys) && Enumerates(ns, Retired(tree, req))
                  && plan == PlannedFiles(tree, req, ms, ns);
    forall i | 0 <= i < |plan| && InPayload(plan[i], req)
      ensures plan[i].desired == Some(Sha256(Payload(req)[plan[i].name.path]))
    {
      PlanParts(tree, req, ms, ns, plan, i);
    }
  }

  lemma {:induction false} LockIsExpected(hashes: map<Path, Digest>, req: Request)
    requires HashesArePayload(hashes, req)
    ensures NewLock(hashes, req) == NewLock(HashesOf(req), req)
    ensures NewLock(hashes, req).managed == NamesOf(HashesOf(req))
  {
    assert HashesOf(req) + hashes == HashesOf(req) == HashesOf(req) + HashesOf(req);
  }

  lemma {:induction false} TouchedThere(t: Txn, p: Path, content: Option<Content>, faults: Faults, q: Path)
    requires Touched(t, p, content, faults).Went?
    ensures Lookup(Touched(t, p, content, faults).txn.tree, q) == if q == p then content else Lookup(t.tree, q)
  {
  }

  lemma {:induction false} LockWriteIsLast(u: Txn, req: Request, faults: Faults, p: Path)
    requires WriteLock(u, req, faults).Went? && HashesArePayload(u.hashes, req)
    ensures Lookup(WriteLock(u, req, faults).txn.tree, p)
         == if p == LockFile then Some(LockDocument(NewLock(HashesOf(req), req), LAYOUT)) else Lookup(u.tree, p)
  {
    LockIsExpected(u.hashes, req);
    TouchedThere(u, LockFile, Some(LockDocument(NewLock(u.hashes, req), LAYOUT)), faults, p);
  }

  /** A transaction that goes through leaves exactly the expected tree, whatever the old lock lists. */
  lemma {:induction false} SuccessIsExactlyExpected(tree: Tree, req: Request, plan: seq<PlannedFile>, faults: Faults,
      p: Path)
    requires GoodRequest(req) && ReadyFor(tree, req) && IsPlanOf(plan, tree, req)
    requires Transaction(tree, plan, req, faults).Went?
    ensures Lookup(Transaction(tree, plan, req, faults).txn.tree, p) == Expected(tree, req, p)
  {
    PlanRecordsPayload(tree, req, plan);
    LoopKeepsHashes(plan, Start(tree), req, faults);
    LockWriteIsLast(ApplyItems(plan, Start(tree), req, faults).txn, req, faults, p);
    if p != LockFile {
      LoopIsExpected(tree, req, plan, faults, p);
    }
  }

  /** The expected tree as a value. */
  function Installed(tree: Tree, req: Request): Tree
    requires |req.mk.start| > 0 && |req.mk.end| > 0
  {
    map p |
      && p in tree.Keys + Payload(req).Keys + {Agents, Mission, Rules, Harness, LockFile}
      && Expected(tree, req, p).Some?
      :: Expected(tree, req, p).value
  }

  lemma {:induction false} InstalledIsExpected(tree: Tree, req: Request, p: Path)
    requires |req.mk.start| > 0 && |req.mk.end| > 0
    ensures Lookup(Installed(tree, req), p) == Expected(tree, req, p)
  {
  }

  lemma {:induction false} SuccessIsInstalled(tree: Tree, req: Request, plan: seq<PlannedFile>, faults: Faults)
    requires GoodRequest(req) && ReadyFor(tree, req) && IsPlanOf(plan, tree, req)
    requires Transaction(tree, plan, req, faults).Went?
    ensures Transaction(tree, plan, req, faults).txn.tree == Installed(tree, req)
  {
    var after := Transaction(tree, plan, req, faults).txn.tree;
    forall p: Path
      ensures Lookup(after, p) == Lookup(Installed(tree, req), p)
    {
      SuccessIsExactlyExpected(tree, req, plan, faults, p);
      InstalledIsExpected(tree, req, p);
    }
    SameTree(after, Installed(tree, req));
  }

  /** A call of `Project.Apply` that was not blocked ended with `outcome` and left `after`. */
  ghost predicate Adopts(before: Tree, req: Request, after: Tree, outcome: Outcome)
    requires |req.mk.start| > 0 && |req.mk.end| > 0
  {
    && ReadyFor(before, req)
    && exists plan, faults :: IsPlanOf(plan, before, req) && Ends(before, plan, req, faults, after, outcome)
  }

  /**
   How `Project.Apply` ends, for its caller. A success leaves exactly the expected tree, whatever the old
   lock lists; a failure leaves the tree as it was, for every failure exactly when no file has two owners.
   */
  lemma {:induction false} ApplyIsAllOrNothing(before: Tree, req: Request, after: Tree, outcome: Outcome)
    requires GoodRequest(req) && Adopts(before, req, after, outcome)
    ensures outcome.Applied? ==> after == Installed(before, req)
    ensures outcome.Failed? && !TwiceOwned(before, req) ==> after == before
  {
    var plan, faults :| IsPlanOf(plan, before, req) && Ends(before, plan, req, faults, after, outcome);
    if outcome.Failed? {
      AdoptionIsAtomic(before, req, plan);
    } else {
      SuccessIsInstalled(before, req, plan, faults);
    }
  }

  // ---- a process that is interrupted

  lemma {:induction false} NoWriterLeft(plan: seq<PlannedFile>, p: Path, i: nat, j: nat)
    requires WritesOnce(plan) && i < j <= |plan| && i == NextWriter(plan, p, 0)
    ensures forall k :: j <= k < |plan| ==> !(Writes(plan[k]) && plan[k].name.path == p)
  {
  }

  lemma {:induction false} DoneBeforeTheCut(tree: Tree, req: Request, plan: seq<PlannedFile>, j: nat, p: Path)
    requires |req.mk.start| > 0 && |req.mk.end| > 0
    requires WritesOnce(plan) && NextWriter(plan, p, 0) < j <= |plan|
    requires ApplyItems(plan[..j], Start(tree), req, NEVER).Went? && ApplyItems(plan, Start(tree), req, NEVER).Went?
    ensures Lookup(ApplyItems(plan[..j], Start(tree), req, NEVER).txn.tree, p) ==
            Lookup(ApplyItems(plan, Start(tree), req, NEVER).txn.tree, p)
  {
    var before, rest := plan[..j], plan[j..];
    assert before + rest == plan;
    ApplyItemsConcat(before, rest, Start(tree), req, NEVER);
    NoWriterLeft(plan, p, NextWriter(plan, p, 0), j);
    assert forall k :: 0 <= k < |rest| ==> rest[k] == plan[j + k];
    NoWriterKeeps(rest, ApplyItems(before, Start(tree), req, NEVER).txn, req, NEVER, p);
  }

  /**
   An interrupt that is no exception, a KeyboardInterrupt, ends the loop without the rollback. If no file has
   two owners it leaves exactly the files whose turn had come as a success leaves them, and all others, the
   lock among them, as they were.
   */
  lemma {:induction false} InterruptedTreeIs(tree: Tree, req: Request, plan: seq<PlannedFile>, j: nat, p: Path)
    requires GoodRequest(req) && ReadyFor(tree, req) && IsPlanOf(plan, tree, req) && !TwiceOwned(tree, req)
    requires j <= |plan|
    ensures ApplyItems(plan[..j], Start(tree), req, NEVER).Went?
    ensures Lookup(ApplyItems(plan[..j], Start(tree), req, NEVER).txn.tree, p) ==
            if NextWriter(plan, p, 0) < j then Expected(tree, req, p) else Lookup(tree, p)
  {
    ReadyPlanGoesThrough(tree, req, plan, j);
    ReadyPlanWritesOnce(tree, req, plan);
    if NextWriter(plan, p, 0) < j {
      ReadyPlanGoesThrough(tree, req, plan, |plan|);
      assert plan[..|plan|] == plan;
      DoneBeforeTheCut(tree, req, plan, j, p);
      LoopIsExpected(tree, req, plan, NEVER, p);
    } else {
      var before := plan[..j];
      assert forall k :: 0 <= k < |before| ==> before[k] == plan[k];
      NoWriterKeeps(before, Start(tree), req, NEVER, p);
    }
  }

  // ---- what the caller is told

  function NamesWith(items: seq<PlannedFile>, action: Action): seq<Name> {
    if items == [] then []
    else (if items[0].action == action then [items[0].name] else []) + NamesWith(items[1..], action)
  }

  function Extended(r: Report, items: seq<PlannedFile>): Report {
    Report(r.created + NamesWith(items, Create), r.updated + NamesWith(items, Update),
           r.removed + NamesWith(items, Remove),
           r.adopted + NamesWith(items, Adopt), r.same + NamesWith(items, Unchanged))
  }

  /** An item that is to be created or updated has a content to write. */
  predicate Deliverable(item: PlannedFile, req: Request) {
    match item.action
    case Conflict => false
    case Update => InPayload(item, req) || item.name == Plain(Agents)
    case Create => InPayload(item, req)
      || (item.name.spelling == "" && (item.name.path == Agents || IsGovernance(item.name.path)))
    case _ => true
  }

  lemma {:induction false} NamesOfOne(item: PlannedFile, action: Action)
    ensures NamesWith([item], action) == if item.action == action then [item.name] else []
  {
    assert [item][1..] == [];
  }

  lemma {:induction false} ItemIsReported(item: PlannedFile, t: Txn, req: Request, faults: Faults)
    requires |req.mk.start| > 0 && |req.mk.end| > 0 && Deliverable(item, req)
    requires ApplyItem(item, t, req, faults).Went?
    ensures ApplyItem(item, t, req, faults).txn.report == Extended(t.report, [item])
  {
    forall action { NamesOfOne(item, action); }
  }

  lemma {:induction false} LoopIsReported(items: seq<PlannedFile>, t: Txn, req: Request, faults: Faults)
    requires |req.mk.start| > 0 && |req.mk.end| > 0
    requires forall i :: 0 <= i < |items| ==> Deliverable(items[i], req)
    requires ApplyItems(items, t, req, faults).Went?
    ensures ApplyItems(items, t, req, faults).txn.report == Extended(t.report, items)
  {
    if items != [] {
      var rest := items[1..];
      ItemIsReported(items[0], t, req, faults);
      assert forall i :: 0 <= i < |rest| ==> rest[i] == items[i + 1];
      LoopIsReported(rest, ApplyItem(items[0], t, req, faults).txn, req, faults);
      ReportsJoin(t.report, items[0], rest);
      assert items == [items[0]] + rest;
    }
  }

  lemma {:induction false} ReportsJoin(r: Report, item: PlannedFile, rest: seq<PlannedFile>)
    ensures Extended(Extended(r, [item]), rest) == Extended(r, [item] + rest)
  {
    assert ([item] + rest)[1..] == rest;
    assert [item][1..] == [];
    forall a, before: seq<Name>
      ensures (before + NamesWith([item], a)) + NamesWith(rest, a) == before + NamesWith([item] + rest, a)
    {
    }
  }

  lemma {:induction false} PlanIsDeliverable(tree: Tree, req: Request, plan: seq<PlannedFile>, i: nat)
    requires GoodRequest(req) && ReadyFor(tree, req) && IsPlanOf(plan, tree, req) && i < |plan|
    ensures Deliverable(plan[i], req)
  {
    var ms, ns :| Enumerates(ms, Payload(req).Keys) && Enumerates(ns, Retired(tree, req))
                  && plan == PlannedFiles(tree, req, ms, ns);
    PlanParts(tree, req, ms, ns, plan, i);
  }

  /** The result lists every planned path once, under the action it was planned with. */
  lemma {:induction false} ReportIsThePlan(tree: Tree, req: Request, plan: seq<PlannedFile>, faults: Faults)
    requires GoodRequest(req) && ReadyFor(tree, req) && IsPlanOf(plan, tree, req)
    requires Transaction(tree, plan, req, faults).Went?
    ensures Transaction(tree, plan, req, faults).txn.report == Extended(Report([], [], [], [], []), plan)
  {
    forall i | 0 <= i < |plan| {
      PlanIsDeliverable(tree, req, plan, i);
    }
    LoopIsReported(plan, Start(tree), req, faults);
  }

  // ---- what is never lost

  /** The text around the block is the same in both contents. */
  ghost predicate SameSurroundings(mk: Markers, was: Content, now: Content) {
    && was.Text? && now.Text?
    && exists before, after :: SurroundedBy(mk, was.text, before, after) && SurroundedBy(mk, now.text, before, after)
  }

  /** There are only blanks around the block, or instead of it: the project has no text in the file. */
  ghost predicate OnlyTheBlock(mk: Markers, c: Content) {
    c.Text? && SurroundedBy(mk, c.text, "", "\n")
  }

  /** What the project owns at `p` is still there. */
  ghost predicate StillThere(tree: Tree, req: Request, after: Tree, p: Path) {
    match p
    case LockFile => true
    case Agents => Agents in tree ==> Agents in after && SameSurroundings(req.mk, tree[Agents], after[Agents])
    case File(_) =>
      Lookup(after, p) != Lookup(tree, p) && p in tree ==>
        exists n :: n in PreviousHashes(tree) && n.path == p && PreviousHashes(tree)[n] == Sha256(tree[p])
    case _ => p in tree ==> Lookup(after, p) == Some(tree[p])
  }

  /** The old lock takes something of the project's for its own. */
  ghost predicate ClaimsProjectText(tree: Tree, req: Request, p: Path)
    requires |req.mk.start| > 0 && |req.mk.end| > 0
  {
    && Claimed(tree, req, p)
    && (IsGovernance(p) || (p == Agents && !(Outdated(tree, req, p) && OnlyTheBlock(req.mk, tree[p]))))
  }

  lemma {:induction false} FreshIsOnlyTheBlock(req: Request)
    requires GoodMarkers(req.mk) && '<' !in req.middle
    ensures OnlyTheBlock(req.mk, FreshAgents(req)) && !Clean(req.mk, FreshAgents(req).text)
  {
    var t := Block(req.mk, req.middle) + "\n";
    assert Clean(req.mk, "\n") && Clean(req.mk, "");
    BlockIsFound(req.mk, "", req.middle, "\n");
    assert "" + Block(req.mk, req.middle) + "\n" == t;
    CutBlock("", Block(req.mk, req.middle), "\n");
    assert RStrip(t[..0]) == "";
    assert MarkedAt(req.mk, t, 0, |req.mk.start| + |req.middle|);
  }

  lemma {:induction false} SurroundingsAreUnique(mk: Markers, text: string, b1: string, a1: string, b2: string,
      a2: string)
    requires SurroundedBy(mk, text, b1, a1) && SurroundedBy(mk, text, b2, a2)
    ensures b1 == b2 && a1 == a2
  {
  }

  lemma {:induction false} AgentsAreStillThereExactly(tree: Tree, req: Request)
    requires GoodRequest(req) && ReadyFor(tree, req)
    ensures StillThere(tree, req, Installed(tree, req), Agents) <==> !ClaimsProjectText(tree, req, Agents)
  {
    InstalledIsExpected(tree, req, Agents);
    if Agents in tree {
      if !Listed(tree, req, Agents) {
        MergedKeepsSurroundings(req, tree[Agents]);
      } else if Outdated(tree, req, Agents) {
        FreshKeepsOnlyBlanks(req, tree[Agents]);
      }
    }
  }

  lemma {:induction false} MergedKeepsSurroundings(req: Request, c: Content)
    requires GoodRequest(req) && MergeAgents(req, Some(c)).NewAgents?
    ensures SameSurroundings(req.mk, c, MergeAgents(req, Some(c)).content)
  {
    MergeIsDefined(req.mk, c.text, req.middle);
    MergeReplacesOnlyTheBlock(req.mk, c.text, req.middle, req.middle);
  }

  /** A fresh file has the surroundings of the old one exactly when those were only blanks. */
  lemma {:induction false} FreshKeepsOnlyBlanks(req: Request, c: Content)
    requires GoodRequest(req)
    ensures SameSurroundings(req.mk, c, FreshAgents(req)) <==> OnlyTheBlock(req.mk, c)
  {
    FreshIsOnlyTheBlock(req);
    forall before, end | SurroundedBy(req.mk, FreshAgents(req).text, before, end)
      ensures before == "" && end == "\n"
    {
      SurroundingsAreUnique(req.mk, FreshAgents(req).text, before, end, "", "\n");
    }
  }

  lemma {:induction false} FileIsStillThere(tree: Tree, req: Request, p: Path)
    requires GoodRequest(req) && ReadyFor(tree, req) && p.File?
    ensures StillThere(tree, req, Installed(tree, req), p)
  {
    InstalledIsExpected(tree, req, p);
    if p in tree && Listed(tree, req, p) {
      var n :| n in Retired(tree, req) && n.path == p;
      assert RetiredItem(tree, n).action != Conflict;
    } else if p in tree && p in Payload(req) {
      assert ManagedItem(tree, req, p).action != Conflict;
      assert Plain(p).path == p;
    }
  }

  lemma {:induction false} StillThereExactly(tree: Tree, req: Request, p: Path)
    requires GoodRequest(req) && ReadyFor(tree, req)
    ensures StillThere(tree, req, Installed(tree, req), p) <==> !ClaimsProjectText(tree, req, p)
  {
    if p.File? {
      FileIsStillThere(tree, req, p);
    } else if p == Agents {
      AgentsAreStillThereExactly(tree, req);
    } else {
      InstalledIsExpected(tree, req, p);
    }
  }

  /**
   After a success what the project owns at `p` is still there: a path is overwritten or removed only if the
   old lock recorded its content, and governance files and the text around the block stay. This holds
   exactly when the old lock does not claim `p` as a governance file, or as an AGENTS.md with text around
   the block or with an up-to-date block.
   */
  lemma {:induction false} NoProjectByteIsLost(tree: Tree, req: Request, after: Tree, outcome: Outcome, p: Path)
    requires GoodRequest(req) && Adopts(tree, req, after, outcome) && outcome.Applied?
    ensures StillThere(tree, req, after, p) <==> !ClaimsProjectText(tree, req, p)
  {
    ApplyIsAllOrNothing(tree, req, after, outcome);
    StillThereExactly(tree, req, p);
  }

  lemma {:induction false} GovernanceOfInstalled(tree: Tree, req: Request, p: Path)
    requires |req.mk.start| > 0 && |req.mk.end| > 0 && IsGovernance(p) && p in tree
    ensures Lookup(Installed(tree, req), p) == if Listed(tree, req, p) then None else Some(tree[p])
  {
  }

  /** An existing governance file stays exactly as it is unless the old lock lists it, and then it is removed. */
  lemma {:induction false} GovernanceStaysExactly(tree: Tree, req: Request, after: Tree, outcome: Outcome, p: Path)
    requires GoodRequest(req) && Adopts(tree, req, after, outcome) && outcome.Applied?
    requires IsGovernance(p) && p in tree
    ensures Lookup(after, p) == if Listed(tree, req, p) then None else Some(tree[p])
  {
    ApplyIsAllOrNothing(tree, req, after, outcome);
    GovernanceOfInstalled(tree, req, p);
  }

  lemma {:induction false} UnplannedOfInstalled(tree: Tree, req: Request, p: Path)
    requires |req.mk.start| > 0 && |req.mk.end| > 0 && p.File? && p !in Payload(req)
    requires forall n :: n in PreviousHashes(tree) ==> n.path != p
    ensures Lookup(Installed(tree, req), p) == Lookup(tree, p)
  {
  }

  /** A path that neither the bundle nor the old lock names is not touched. */
  lemma {:induction false} UnplannedPathsStay(tree: Tree, req: Request, after: Tree, outcome: Outcome, p: Path)
    requires GoodRequest(req) && Adopts(tree, req, after, outcome) && outcome.Applied?
    requires p.File? && p !in Payload(req) && forall n :: n in PreviousHashes(tree) ==> n.path != p
    ensures Lookup(after, p) == Lookup(tree, p)
  {
    ApplyIsAllOrNothing(tree, req, after, outcome);
    UnplannedOfInstalled(tree, req, p);
  }

  // ---- a ready adoption can succeed

  lemma {:induction false} SomeEnumeration<T(!new)>(s: set<T>) returns (xs: seq<T>)
    ensures Enumerates(xs, s)
  {
    if s == {} {
      xs := [];
    } else {
      var x :| x in s;
      var rest := SomeEnumeration(s - {x});
      xs := rest + [x];
    }
  }

  lemma {:induction false} ReadyAdoptionSucceeds(tree: Tree, req: Request) returns (after: Tree, outcome: Outcome)
    requires GoodRequest(req) && ReadyFor(tree, req)
    ensures Adopts(tree, req, after, outcome) && outcome.Applied?
  {
    var ms := SomeEnumeration(Payload(req).Keys);
    var ns := SomeEnumeration(Retired(tree, req));
    var plan := PlannedFiles(tree, req, ms, ns);
    ReadyPlanGoesThrough(tree, req, plan, |plan|);
    assert plan[..|plan|] == plan;
    var end := Transaction(tree, plan, req, NEVER);
    after, outcome := end.txn.tree, Applied(end.txn.report);
    assert Ends(tree, plan, req, NEVER, after, outcome);
  }

  /** And one whose old lock gives a file two owners can fail and leave the project changed. */
  lemma {:induction false} TwiceOwnedCallIsLost(tree: Tree, req: Request) returns (after: Tree)
    requires GoodRequest(req) && ReadyFor(tree, req) && TwiceOwned(tree, req)
    ensures Adopts(tree, req, after, Failed) && after != tree
  {
    var ms := SomeEnumeration(Payload(req).Keys);
    var ns := SomeEnumeration(Retired(tree, req));
    var plan := PlannedFiles(tree, req, ms, ns);
    var faults := TwiceOwnedIsLost(tree, req, plan);
    after := RolledBack(Transaction(tree, plan, req, faults).txn);
    assert Ends(tree, plan, req, faults, after, Failed);
  }
}

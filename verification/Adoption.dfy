/**
 Planning an adoption: what core/adoption/service.py decides for every path before it writes one.

 File contents are text, other bytes, or a document the lock schema accepts. A digest names the
 content it was computed from, so two contents have the same digest exactly when they are equal.
 */
module Adoption {
  import opened Prelude
  import opened AgentsBlock

  /** The five names the service treats specially, and every other relative path. */
  datatype Path = Agents | Mission | Rules | Harness | LockFile | File(name: string)

  /**
   A path as a lock may write it. `spelling` is what joining the name to the target drops, such as `./` or
   a doubled `/`; it is empty for the path itself. Two spellings are two names of one file.
   */
  datatype Name = Name(path: Path, spelling: string)

  function Plain(p: Path): Name {
    Name(p, "")
  }

  datatype Content =
    | Text(text: string)
    | Binary(bytes: seq<bv8>)
    | LockDocument(lock: Lock, layout: string)

  /** `Literal` is any string found in a lock that is not the SHA-256 of a content. */
  datatype Digest = Sha256(of: Content) | Literal(text: string)

  datatype Lock = Lock(
    commit: string,
    repository: string,
    level: nat,
    managed: map<Name, Digest>,
    seeded: map<Path, Digest>,
    agentsBlock: Digest,
    commands: seq<string>)

  type Tree = map<Path, Content>

  /**
   A harness document: one with an executable step, one without (or no JSON), or one whose steps are a number
   or `true`, over which the search for an executable step raises TypeError.
   */
  datatype Checks = Executable | NoChecks | NotIterable

  /** What one call is given: the bundle of the source checkout, the seeds, and the facts read from git and disk. */
  datatype Request = Request(
    bundle: map<Path, Content>,
    ignored: set<Path>,          // what `git check-ignore` reports for the bundle's paths
    mk: Markers,
    middle: string,              // the generated text of the managed block at `level`
    level: nat,
    seeds: map<Path, Content>,
    repository: bool,            // the target is a git repository
    clean: bool,                 // and has no dirty path
    commands: seq<string>,
    defaultMission: Content,
    defaultRules: Content,
    defaultHarness: Content,
    checks: Content -> Checks,   // what the document is as a harness
    commit: string,
    source: string)

  /** The files the service creates when they are missing and otherwise leaves to the project. */
  predicate IsGovernance(p: Path) {
    p == Mission || p == Rules || p == Harness
  }

  const ENTRY: Path := File(".factory/darkfac.py")

  /** What every bundle of the source satisfies: generated paths only, the runtime wrapper among them. */
  ghost predicate GoodRequest(req: Request) {
    && GoodMarkers(req.mk)
    && '<' !in req.middle
    && ENTRY in req.bundle
    && forall p :: p in req.bundle ==> p.File?
  }

  function Lookup<K, V>(m: map<K, V>, k: K): Option<V> {
    if k in m then Some(m[k]) else None
  }

  function DigestOf(c: Option<Content>): Option<Digest> {
    match c
    case None => None
    case Some(content) => Some(Sha256(content))
  }

  // ---- the bundle after the consumer's ignore rules

  predicate OptionalMirror(p: Path) {
    p.File? && ".claude/skills/" <= p.name
  }

  function Payload(req: Request): map<Path, Content> {
    map p | p in req.bundle && !(p in req.ignored && OptionalMirror(p)) :: req.bundle[p]
  }

  predicate RequiredPathIgnored(req: Request) {
    exists p :: p in req.bundle && p in req.ignored && !OptionalMirror(p)
  }

  // ---- the previous lock

  datatype Previous = NoLock | BadLock | Locked(lock: Lock)

  function LoadLock(tree: Tree): Previous {
    if LockFile !in tree then NoLock
    else
      match tree[LockFile]
      case LockDocument(lock, _) => Locked(lock)
      case _ => BadLock
  }

  function PreviousHashes(tree: Tree): map<Name, Digest> {
    match LoadLock(tree)
    case Locked(lock) => lock.managed
    case _ => map[]
  }

  // ---- one action per path

  datatype Action = Create | Adopt | Update | Remove | Unchanged | Preserve | Conflict

  /** A planned file, under the name it is planned by. */
  datatype PlannedFile = PlannedFile(name: Name, action: Action, desired: Option<Digest>, current: Option<Digest>)

  /** An empty string in a hand-written lock counts as no hash. */
  predicate Truthy(d: Option<Digest>) {
    d.Some? && d.value != Literal("")
  }

  function ManagedAction(current: Option<Content>, desired: Content, previous: Option<Digest>): Action {
    if current.None? then Create
    else if current == Some(desired) then if Truthy(previous) then Unchanged else Adopt
    else if Truthy(previous) && DigestOf(current) == previous then Update
    else Conflict
  }

  function RetiredAction(current: Option<Content>, previous: Digest): Action {
    if current.None? then Unchanged
    else if DigestOf(current) == Some(previous) then Remove
    else Conflict
  }

  datatype AgentsMerge = NewAgents(content: Content) | AgentsRefused | AgentsCrashed

  function MergeAgents(req: Request, existing: Option<Content>): AgentsMerge
    requires |req.mk.start| > 0 && |req.mk.end| > 0
  {
    if existing.Some? && !existing.value.Text? then AgentsRefused
    else
      match Merge(req.mk, if existing.Some? then Some(existing.value.text) else None, req.middle)
      case Merged(text) => NewAgents(Text(text))
      case Malformed => AgentsRefused
      case Crashed => AgentsCrashed
  }

  function AgentsAction(current: Option<Content>, merge: AgentsMerge): Action {
    match merge
    case NewAgents(content) =>
      if current == Some(content) then Unchanged else if current.None? then Create else Update
    case _ => Conflict
  }

  /** The content a missing governance file is created with. */
  function Seed(req: Request, p: Path): Option<Content> {
    if p in req.seeds then Some(req.seeds[p])
    else match p
      case Mission => Some(req.defaultMission)
      case Rules => Some(req.defaultRules)
      case Harness => if req.commands == [] then None else Some(req.defaultHarness)
      case _ => None
  }

  function ManagedItem(tree: Tree, req: Request, p: Path): PlannedFile
    requires p in Payload(req)
  {
    var desired := Payload(req)[p];
    var current := Lookup(tree, p);
    var action := ManagedAction(current, desired, Lookup(PreviousHashes(tree), Plain(p)));
    PlannedFile(Plain(p), action, Some(Sha256(desired)), DigestOf(current))
  }

  function RetiredItem(tree: Tree, n: Name): PlannedFile
    requires n in PreviousHashes(tree)
  {
    var current := Lookup(tree, n.path);
    PlannedFile(n, RetiredAction(current, PreviousHashes(tree)[n]), None, DigestOf(current))
  }

  function AgentsItem(tree: Tree, req: Request): PlannedFile
    requires |req.mk.start| > 0 && |req.mk.end| > 0
  {
    var current := Lookup(tree, Agents);
    var merge := MergeAgents(req, current);
    PlannedFile(Plain(Agents), AgentsAction(current, merge),
                if merge.NewAgents? then Some(Sha256(merge.content)) else None, DigestOf(current))
  }

  function SeededItem(tree: Tree, req: Request, p: Path): PlannedFile {
    var current := Lookup(tree, p);
    if current.None? then PlannedFile(Plain(p), Create, DigestOf(Seed(req, p)), None)
    else PlannedFile(Plain(p), Preserve, None, DigestOf(current))
  }

  function HarnessItems(tree: Tree, req: Request): seq<PlannedFile> {
    if Harness !in tree && Seed(req, Harness).None? then [] else [SeededItem(tree, req, Harness)]
  }

  function GovernanceItems(tree: Tree, req: Request): seq<PlannedFile>
    requires |req.mk.start| > 0 && |req.mk.end| > 0
  {
    [AgentsItem(tree, req), SeededItem(tree, req, Mission), SeededItem(tree, req, Rules)] + HarnessItems(tree, req)
  }

  // ---- the whole plan

  ghost predicate Enumerates<T(!new)>(xs: seq<T>, s: set<T>) {
    Distinct(xs) && forall x :: x in xs <==> x in s
  }

  /** The names of the old lock that the bundle does not have. */
  function Retired(tree: Tree, req: Request): set<Name> {
    set n | n in PreviousHashes(tree) && !(n.spelling == "" && n.path in Payload(req))
  }

  /** The old lock lists the file at `p` under such a name. */
  predicate Listed(tree: Tree, req: Request, p: Path) {
    exists n :: n in Retired(tree, req) && n.path == p
  }

  ghost function ManagedItems(tree: Tree, req: Request, ps: seq<Path>): seq<PlannedFile>
    requires forall p :: p in ps ==> p in Payload(req)
  {
    seq(|ps|, i requires 0 <= i < |ps| => ManagedItem(tree, req, ps[i]))
  }

  ghost function RetiredItems(tree: Tree, ns: seq<Name>): seq<PlannedFile>
    requires forall n :: n in ns ==> n in PreviousHashes(tree)
  {
    seq(|ns|, i requires 0 <= i < |ns| => RetiredItem(tree, ns[i]))
  }

  /** The planned files, given the order in which the two dictionaries are walked. */
  ghost function PlannedFiles(tree: Tree, req: Request, managed: seq<Path>, retired: seq<Name>): seq<PlannedFile>
    requires |req.mk.start| > 0 && |req.mk.end| > 0
    requires Enumerates(managed, Payload(req).Keys) && Enumerates(retired, Retired(tree, req))
  {
    ManagedItems(tree, req, managed) + RetiredItems(tree, retired) + GovernanceItems(tree, req)
  }

  datatype Blocker =
    | RequiredIgnored
    | NotARepository
    | DirtyWorktree
    | LockUnreadable
    | ManagedConflict(path: Path)
    | RetiredConflict(name: Name)
    | AgentsBroken
    | HarnessNotExecutable
    | NoValidationCommand

  datatype Plan = Plan(files: seq<PlannedFile>, blockers: seq<Blocker>) {
    predicate Ready() {
      blockers == [] && forall i :: 0 <= i < |files| ==> files[i].action != Conflict
    }
  }

  datatype PlanResult =
    | Planned(plan: Plan)
    | SeedsRefused  // a seed for a file the project may not be seeded with
    | PlanCrashed   // AGENTS.md with its markers in the wrong order, or a harness whose steps are no list

  predicate SeedsAllowed(req: Request) {
    forall p :: p in req.seeds ==> IsGovernance(p)
  }

  /** The harness that the project has, or would get. */
  function HarnessContent(tree: Tree, req: Request): Option<Content> {
    if Harness in tree then Some(tree[Harness]) else Seed(req, Harness)
  }

  predicate HarnessIs(tree: Tree, req: Request, checks: Checks) {
    HarnessContent(tree, req).Some? && req.checks(HarnessContent(tree, req).value) == checks
  }

  /** When a plan is ready, said path by path and without the plan. */
  ghost predicate ReadyFor(tree: Tree, req: Request)
    requires |req.mk.start| > 0 && |req.mk.end| > 0
  {
    && SeedsAllowed(req)
    && req.repository && req.clean
    && !RequiredPathIgnored(req)
    && !LoadLock(tree).BadLock?
    && (forall p :: p in Payload(req) ==> ManagedItem(tree, req, p).action != Conflict)
    && (forall n :: n in Retired(tree, req) ==> RetiredItem(tree, n).action != Conflict)
    && MergeAgents(req, Lookup(tree, Agents)).NewAgents?
    && HarnessIs(tree, req, Executable)
  }

  predicate PreconditionFails(b: Blocker, tree: Tree, req: Request) {
    match b
    case RequiredIgnored => RequiredPathIgnored(req)
    case NotARepository => !req.repository
    case DirtyWorktree => req.repository && !req.clean
    case LockUnreadable => LoadLock(tree).BadLock?
    case _ => false
  }

  predicate GovernanceFails(b: Blocker, tree: Tree, req: Request)
    requires |req.mk.start| > 0 && |req.mk.end| > 0
  {
    match b
    case AgentsBroken => MergeAgents(req, Lookup(tree, Agents)).AgentsRefused?
    case NoValidationCommand => HarnessContent(tree, req).None?
    case HarnessNotExecutable => HarnessIs(tree, req, NoChecks)
    case _ => false
  }

  /** Exactly when each blocker is reported. */
  ghost predicate Blocks(b: Blocker, tree: Tree, req: Request)
    requires |req.mk.start| > 0 && |req.mk.end| > 0
  {
    match b
    case ManagedConflict(p) => p in Payload(req) && ManagedItem(tree, req, p).action == Conflict
    case RetiredConflict(n) => n in Retired(tree, req) && RetiredItem(tree, n).action == Conflict
    case _ => PreconditionFails(b, tree, req) || GovernanceFails(b, tree, req)
  }

  /** AGENTS.md has one marker of each kind, the end before the start. */
  ghost predicate AgentsMisordered(mk: Markers, tree: Tree) {
    Agents in tree && tree[Agents].Text? && Misordered(mk, tree[Agents].text)
  }

  method Enumerate<T(==,!new)>(s: set<T>) returns (xs: seq<T>)
    ensures Enumerates(xs, s)
  {
    xs := [];
    var rest := s;
    while rest != {}
      invariant rest <= s
      invariant Enumerates(xs, s - rest)
    {
      var x :| x in rest;
      rest := rest - {x};
      xs := xs + [x];
    }
  }

  method PlanManaged(tree: Tree, req: Request)
    returns (files: seq<PlannedFile>, blockers: seq<Blocker>, ghost ps: seq<Path>)
    ensures Enumerates(ps, Payload(req).Keys) && files == ManagedItems(tree, req, ps)
    ensures forall b :: b in blockers <==>
      b.ManagedConflict? && b.path in Payload(req) && ManagedItem(tree, req, b.path).action == Conflict
  {
    files, blockers := [], [];
    var order := Enumerate(Payload(req).Keys);
    ps := order;
    for i := 0 to |order|
      invariant files == ManagedItems(tree, req, order[..i])
      invariant forall b :: b in blockers <==>
        b.ManagedConflict? && b.path in order[..i] && ManagedItem(tree, req, b.path).action == Conflict
    {
      var item := ManagedItem(tree, req, order[i]);
      if item.action == Conflict {
        blockers := blockers + [ManagedConflict(order[i])];
      }
      files := files + [item];
    }
    assert order[..|order|] == order;
  }

  method PlanRetired(tree: Tree, req: Request)
    returns (files: seq<PlannedFile>, blockers: seq<Blocker>, ghost ns: seq<Name>)
    ensures Enumerates(ns, Retired(tree, req)) && files == RetiredItems(tree, ns)
    ensures forall b :: b in blockers <==>
      b.RetiredConflict? && b.name in Retired(tree, req) && RetiredItem(tree, b.name).action == Conflict
  {
    files, blockers := [], [];
    var order := Enumerate(Retired(tree, req));
    ns := order;
    assert forall n :: n in order ==> n in PreviousHashes(tree);
    for i := 0 to |order|
      invariant files == RetiredItems(tree, order[..i])
      invariant forall b :: b in blockers <==>
        b.RetiredConflict? && b.name in order[..i] && RetiredItem(tree, b.name).action == Conflict
    {
      assert order[i] in order;
      var item := RetiredItem(tree, order[i]);
      if item.action == Conflict {
        blockers := blockers + [RetiredConflict(order[i])];
      }
      files := files + [item];
    }
    assert order[..|order|] == order;
  }

  method Preconditions(tree: Tree, req: Request) returns (blockers: seq<Blocker>)
    ensures forall b :: b in blockers <==> PreconditionFails(b, tree, req)
  {
    blockers := if RequiredPathIgnored(req) then [RequiredIgnored] else [];
    if !req.repository {
      blockers := blockers + [NotARepository];
    } else if !req.clean {
      blockers := blockers + [DirtyWorktree];
    }
    if LoadLock(tree).BadLock? {
      blockers := blockers + [LockUnreadable];
    }
  }

  /** The blockers of the governance files; false when the search for an executable step raises. */
  method PlanGovernance(tree: Tree, req: Request) returns (blockers: seq<Blocker>, ok: bool)
    requires |req.mk.start| > 0 && |req.mk.end| > 0
    ensures ok <==> !HarnessIs(tree, req, NotIterable)
    ensures ok ==> forall b :: b in blockers <==> GovernanceFails(b, tree, req)
  {
    ok := true;
    blockers := if MergeAgents(req, Lookup(tree, Agents)).AgentsRefused? then [AgentsBroken] else [];
    var harness := HarnessContent(tree, req);
    if harness.None? {
      blockers := blockers + [NoValidationCommand];
    } else if req.checks(harness.value).NotIterable? {
      ok := false;
    } else if req.checks(harness.value).NoChecks? {
      blockers := blockers + [HarnessNotExecutable];
    }
  }

  /** Some enumeration of the two dictionaries lists exactly these files. */
  ghost predicate IsPlanOf(files: seq<PlannedFile>, tree: Tree, req: Request)
    requires |req.mk.start| > 0 && |req.mk.end| > 0
  {
    exists ms, ns ::
      && Enumerates(ms, Payload(req).Keys)
      && Enumerates(ns, Retired(tree, req))
      && files == PlannedFiles(tree, req, ms, ns)
  }

  /** Computes a complete plan without changing the target. */
  method PlanAdoption(tree: Tree, req: Request) returns (r: PlanResult)
    requires |req.mk.start| > 0 && |req.mk.end| > 0
    ensures r.SeedsRefused? <==> !SeedsAllowed(req)
    ensures GoodMarkers(req.mk) ==>
      (r.PlanCrashed? <==> SeedsAllowed(req) && (AgentsMisordered(req.mk, tree) || HarnessIs(tree, req, NotIterable)))
    ensures r.Planned? ==> IsPlanOf(r.plan.files, tree, req)
    ensures r.Planned? ==> forall b :: b in r.plan.blockers <==> Blocks(b, tree, req)
    ensures r.Planned? && r.plan.Ready() <==> ReadyFor(tree, req)
  {
    if !SeedsAllowed(req) {
      return SeedsRefused;
    }
    var blockers := Preconditions(tree, req);
    var managed, managedBlockers, ms := PlanManaged(tree, req);
    var retired, retiredBlockers, ns := PlanRetired(tree, req);
    blockers := blockers + managedBlockers + retiredBlockers;

    var merge := MergeAgents(req, Lookup(tree, Agents));
    AgentsCrashExactly(tree, req);
    if merge.AgentsCrashed? {
      return PlanCrashed;
    }
    var governanceBlockers, ok := PlanGovernance(tree, req);
    if !ok {
      return PlanCrashed;
    }
    blockers := blockers + governanceBlockers;
    var files := managed + retired + GovernanceItems(tree, req);
    r := Planned(Plan(files, blockers));
    ReadyPlan(tree, req, ms, ns, r.plan);
  }

  /** Planning raises exactly on a text AGENTS.md whose markers are in the wrong order. */
  lemma {:induction false} AgentsCrashExactly(tree: Tree, req: Request)
    requires |req.mk.start| > 0 && |req.mk.end| > 0
    ensures GoodMarkers(req.mk) ==>
      (MergeAgents(req, Lookup(tree, Agents)).AgentsCrashed? <==> AgentsMisordered(req.mk, tree))
  {
    if GoodMarkers(req.mk) && Agents in tree && tree[Agents].Text? {
      MergeCrashesExactly(req.mk, tree[Agents].text, req.middle);
    }
  }

  lemma {:induction false} ReadyIsUnblocked(tree: Tree, req: Request, b: Blocker)
    requires |req.mk.start| > 0 && |req.mk.end| > 0 && ReadyFor(tree, req)
    ensures !Blocks(b, tree, req)
  {
  }

  lemma {:induction false} UnblockedIsReady(tree: Tree, req: Request)
    requires |req.mk.start| > 0 && |req.mk.end| > 0 && SeedsAllowed(req)
    requires !MergeAgents(req, Lookup(tree, Agents)).AgentsCrashed? && !HarnessIs(tree, req, NotIterable)
    requires forall b :: !Blocks(b, tree, req)
    ensures ReadyFor(tree, req)
  {
    assert !Blocks(RequiredIgnored, tree, req) && !Blocks(NotARepository, tree, req)
      && !Blocks(DirtyWorktree, tree, req);
    assert !Blocks(LockUnreadable, tree, req) && !Blocks(AgentsBroken, tree, req);
    assert !Blocks(NoValidationCommand, tree, req) && !Blocks(HarnessNotExecutable, tree, req);
    assert forall p :: p in Payload(req) ==> !Blocks(ManagedConflict(p), tree, req);
    assert forall n :: n in Retired(tree, req) ==> !Blocks(RetiredConflict(n), tree, req);
  }

  /** Nothing blocks exactly when the path-by-path condition holds. */
  lemma {:induction false} ReadyMeansUnblocked(tree: Tree, req: Request)
    requires |req.mk.start| > 0 && |req.mk.end| > 0
    requires SeedsAllowed(req)
    requires !MergeAgents(req, Lookup(tree, Agents)).AgentsCrashed? && !HarnessIs(tree, req, NotIterable)
    ensures ReadyFor(tree, req) <==> forall b :: !Blocks(b, tree, req)
  {
    if ReadyFor(tree, req) {
      forall b { ReadyIsUnblocked(tree, req, b); }
    } else if forall b :: !Blocks(b, tree, req) {
      UnblockedIsReady(tree, req);
    }
  }

  lemma {:induction false} ReadyHasNoConflict(tree: Tree, req: Request, ms: seq<Path>, ns: seq<Name>)
    requires |req.mk.start| > 0 && |req.mk.end| > 0
    requires Enumerates(ms, Payload(req).Keys) && Enumerates(ns, Retired(tree, req)) && ReadyFor(tree, req)
    ensures var files := PlannedFiles(tree, req, ms, ns); forall i :: 0 <= i < |files| ==> files[i].action != Conflict
  {
  }

  /** No blocker is reported, and so no item conflicts, exactly when the path-by-path condition holds. */
  lemma {:induction false} ReadyPlan(tree: Tree, req: Request, ms: seq<Path>, ns: seq<Name>, plan: Plan)
    requires |req.mk.start| > 0 && |req.mk.end| > 0
    requires Enumerates(ms, Payload(req).Keys) && Enumerates(ns, Retired(tree, req))
    requires plan.files == PlannedFiles(tree, req, ms, ns)
    requires SeedsAllowed(req)
    requires !MergeAgents(req, Lookup(tree, Agents)).AgentsCrashed? && !HarnessIs(tree, req, NotIterable)
    requires forall b :: b in plan.blockers <==> Blocks(b, tree, req)
    ensures plan.Ready() <==> ReadyFor(tree, req)
  {
    ReadyMeansUnblocked(tree, req);
    EmptyHasNoMember(plan.blockers);
    if ReadyFor(tree, req) {
      ReadyHasNoConflict(tree, req, ms, ns);
    } else {
      var b :| Blocks(b, tree, req);
      assert b in plan.blockers;
    }
  }
}

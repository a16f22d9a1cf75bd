/**
 The redeploy run of scripts/dokploy_redeploy.py: trigger, wait, prove the served commit, converge the
 nodes, check the titles, back up; four flags that are carried through all of it, and one exit code.
 */
module Redeploy {
  import opened Prelude
  import opened Waiting

  /** `key`: the name in lower case. */
  datatype Service = Service(name: string, key: string, compose: bool)

  predicate IsDarkhub(s: Service) {
    s.key == "darkhub" && s.compose
  }

  const CODE_BEARING: string := "darkfac-cloud"

  /** An explicit commit that is not one, the commit, or none to be found. */
  datatype Candidate = Invalid | Sha(sha: string) | NoCandidate

  datatype Preparation = Ready | ComposeRefused | ImageUntouched

  datatype Config = Config(
    selected: seq<Service>,
    candidate: Candidate,
    subject: Option<string>,       // of the candidate commit; never empty
    preparation: Preparation,
    wait: bool,
    force: bool,
    skipNodeSync: bool,
    skipBackup: bool,
    timeout: real)
  {
    predicate DarkhubSelected() {
      exists i :: 0 <= i < |selected| && IsDarkhub(selected[i])
    }
    predicate CandidateRequired() {
      DarkhubSelected() || exists i :: 0 <= i < |selected| && selected[i].key == CODE_BEARING
    }
    function ExpectedSha(): Option<string> {
      if CandidateRequired() && candidate.Sha? then Some(candidate.sha) else None
    }
    function LocalSubject(): Option<string> {
      if ExpectedSha().Some? then subject else None
    }
  }

  /** How one service can be started: refused, or accepted, for the Hub with or without the blue-green switch. */
  datatype Start = StartRefused | Started(bluegreen: bool)

  datatype NodeState = Converged | Excluded | Diverged

  datatype Node = Node(name: string, state: NodeState, dirty: bool, blocksBackup: bool)

  /** What the outside answers, service by service and phase by phase. */
  datatype World = World(
    baseline: nat -> Option<Deployment>,
    start: nat -> Start,
    now: nat -> int,
    deployed: nat -> Option<string>,
    rebuild: nat -> bool,
    ticks: nat -> Ticks,
    health: Probes,
    recovery: Option<Probes>,      // None: the one retrigger of a joined deployment failed
    nodes: seq<Node>)
  {
    ghost predicate Ends(timeout: real) {
      && (forall j :: ticks(j).Ends(timeout))
      && health.Ends(timeout) && (recovery.Some? ==> recovery.value.Ends(timeout))
    }
  }

  datatype Flags = Flags(allOk: bool, backupOk: bool, otherFailure: bool, dirty: bool)

  // ---- triggering

  datatype Disposition = Rejected | Skipped | Joined | Switched | Waiting

  /** What becomes of the `i`-th selected service. */
  function DispositionOf(w: World, c: Config, i: nat): Disposition
    requires i < |c.selected|
  {
    if IsDarkhub(c.selected[i]) then
      match PlanDarkhub(c.force, w.baseline(i), w.now(i), w.deployed(i), w.rebuild(i))
      case Skip => Skipped
      case Join => Joined
      case Trigger => if w.start(i).StartRefused? then Rejected else if w.start(i).bluegreen then Switched else Waiting
    else if w.start(i).StartRefused? then Rejected
    else Waiting
  }

  /** The first `n` services that a deployment is waited for, in their order. */
  function Triggered(w: World, c: Config, n: nat): seq<Service>
    requires n <= |c.selected|
  {
    if n == 0 then []
    else
      var d := DispositionOf(w, c, n - 1);
      Triggered(w, c, n - 1) + if d.Joined? || d.Waiting? then [c.selected[n - 1]] else []
  }

  /** The baseline each waited name is compared with: none for a joined deployment. */
  function Baselines(w: World, c: Config, n: nat): map<string, Option<Deployment>>
    requires n <= |c.selected|
  {
    if n == 0 then map[]
    else
      var d := DispositionOf(w, c, n - 1);
      var before := Baselines(w, c, n - 1);
      if d.Joined? then before[c.selected[n - 1].name := None]
      else if d.Waiting? then before[c.selected[n - 1].name := w.baseline(n - 1)]
      else before
  }

  function BaselineOf(baselines: map<string, Option<Deployment>>, name: string): Option<Deployment> {
    if name in baselines then baselines[name] else None
  }

  ghost predicate AnyRejected(w: World, c: Config, n: nat)
    requires n <= |c.selected|
  {
    exists i :: 0 <= i < n && DispositionOf(w, c, i).Rejected?
  }

  ghost predicate AnyJoined(w: World, c: Config, n: nat)
    requires n <= |c.selected|
  {
    exists i :: 0 <= i < n && DispositionOf(w, c, i).Joined?
  }

  method TriggerAll(w: World, c: Config)
    returns (triggered: seq<Service>, baselines: map<string, Option<Deployment>>, joined: bool, failed: bool)
    ensures triggered == Triggered(w, c, |c.selected|) && baselines == Baselines(w, c, |c.selected|)
    ensures joined <==> AnyJoined(w, c, |c.selected|)
    ensures failed <==> AnyRejected(w, c, |c.selected|)
  {
    triggered, baselines, joined, failed := [], map[], false, false;
    for i := 0 to |c.selected|
      invariant triggered == Triggered(w, c, i) && baselines == Baselines(w, c, i)
      invariant joined <==> AnyJoined(w, c, i)
      invariant failed <==> AnyRejected(w, c, i)
    {
      var svc := c.selected[i];
      var baseline := w.baseline(i);
      ghost var d := DispositionOf(w, c, i);
      if IsDarkhub(svc) {
        var action := PlanDarkhub(c.force, baseline, w.now(i), w.deployed(i), w.rebuild(i));
        if action == Skip {
          continue;
        }
        if action == Join {
          triggered := triggered + [svc];
          baselines := baselines[svc.name := None];
          joined := true;
          continue;
        }
        if w.start(i) == Started(true) {
          continue;
        }
      }
      if w.start(i).StartRefused? {
        failed := true;
        continue;
      }
      triggered := triggered + [svc];
      baselines := baselines[svc.name := baseline];
    }
  }

  // ---- waiting

  ghost predicate WaitedFor(w: World, c: Config, triggered: seq<Service>, baselines: map<string, Option<Deployment>>,
      results: seq<WaitResult>) {
    && |results| <= |triggered|
    && forall j :: 0 <= j < |results| ==>
       IsWait(w.ticks(j), BaselineOf(baselines, triggered[j].name), c.timeout, results[j])
  }

  predicate AllDone(results: seq<WaitResult>) {
    forall j :: 0 <= j < |results| ==> results[j].outcome.ReachedDone?
  }

  method WaitAll(w: World, c: Config, triggered: seq<Service>, baselines: map<string, Option<Deployment>>)
    returns (results: seq<WaitResult>, failed: bool)
    requires w.Ends(c.timeout)
    ensures |results| == |triggered| && WaitedFor(w, c, triggered, baselines, results)
    ensures failed <==> !AllDone(results)
  {
    results, failed := [], false;
    for j := 0 to |triggered|
      invariant |results| == j && WaitedFor(w, c, triggered, baselines, results)
      invariant failed <==> !AllDone(results)
    {
      var result := WaitForService(w.ticks(j), BaselineOf(baselines, triggered[j].name), c.timeout);
      results := results + [result];
      if !result.outcome.ReachedDone? {
        failed := true;
      }
    }
  }

  // ---- the served commit

  predicate DarkhubIn(triggered: seq<Service>) {
    exists j :: 0 <= j < |triggered| && triggered[j].key == "darkhub"
  }

  /** The Hub served the candidate: within the time, or after the one retrigger a joined deployment gets. */
  ghost predicate HubProved(w: World, c: Config, joined: bool) {
    && c.candidate.Sha?
    && (|| Served(w.health, c.candidate.sha, c.timeout)
        || (joined && w.recovery.Some? && Served(w.recovery.value, c.candidate.sha, c.timeout)))
  }

  method ProveHub(w: World, c: Config, joined: bool) returns (proved: bool)
    requires w.Ends(c.timeout) && c.candidate.Sha?
    ensures proved <==> HubProved(w, c, joined)
  {
    proved := WaitForSha(w.health, c.candidate.sha, c.timeout);
    if !proved && joined && w.recovery.Some? {
      proved := WaitForSha(w.recovery.value, c.candidate.sha, c.timeout);
    }
  }

  // ---- the nodes

  predicate Blocks(n: Node) {
    n.state.Diverged? && n.name != "Desktop" && !(n.name == "Notebook" && !n.blocksBackup)
  }

  /** The first node of that name. */
  function FindNode(nodes: seq<Node>, name: string): Option<Node> {
    if nodes == [] then None else if nodes[0].name == name then Some(nodes[0]) else FindNode(nodes[1..], name)
  }

  predicate VpsConverged(nodes: seq<Node>) {
    var vps := FindNode(nodes, "VPS");
    vps.Some? && vps.value.state.Converged?
  }

  predicate AnyDiverged(nodes: seq<Node>) {
    exists i :: 0 <= i < |nodes| && nodes[i].state.Diverged?
  }

  predicate AnyBlocking(nodes: seq<Node>) {
    exists i :: 0 <= i < |nodes| && Blocks(nodes[i])
  }

  predicate AnyDirty(nodes: seq<Node>) {
    exists i :: 0 <= i < |nodes| && nodes[i].state.Diverged? && nodes[i].dirty
  }

  predicate AnyOtherwise(nodes: seq<Node>) {
    exists i :: 0 <= i < |nodes| && nodes[i].state.Diverged? && !nodes[i].dirty
  }

  /** What the nodes do to the flags. */
  function AfterNodes(flags: Flags, nodes: seq<Node>): Flags {
    Flags(
      flags.allOk && !AnyDiverged(nodes) && VpsConverged(nodes),
      flags.backupOk && !AnyBlocking(nodes) && VpsConverged(nodes),
      flags.otherFailure || AnyOtherwise(nodes),
      AnyDirty(nodes))
  }

  method SyncNodes(nodes: seq<Node>, before: Flags) returns (flags: Flags)
    ensures flags == AfterNodes(before, nodes)
  {
    flags := before.(dirty := false);
    for i := 0 to |nodes|
      invariant flags == Flags(
        before.allOk && !AnyDiverged(nodes[..i]), before.backupOk && !AnyBlocking(nodes[..i]),
        before.otherFailure || AnyOtherwise(nodes[..i]), AnyDirty(nodes[..i]))
    {
      var node := nodes[i];
      OneMoreNode(nodes, i);
      if !node.state.Diverged? {
        continue;
      }
      flags := flags.(allOk := false);
      if node.name != "Desktop" && (node.name != "Notebook" || node.blocksBackup) {
        flags := flags.(backupOk := false);
      }
      if node.dirty {
        flags := flags.(dirty := true);
      } else {
        flags := flags.(otherFailure := true);
      }
    }
    assert nodes[..|nodes|] == nodes;
    var vps := FindNode(nodes, "VPS");
    if vps.None? || !vps.value.state.Converged? {
      flags := flags.(allOk := false, backupOk := false);
    }
  }

  lemma {:induction false} OneMoreNode(nodes: seq<Node>, i: nat)
    requires i < |nodes|
    ensures AnyDiverged(nodes[..i + 1]) <==> AnyDiverged(nodes[..i]) || nodes[i].state.Diverged?
    ensures AnyBlocking(nodes[..i + 1]) <==> AnyBlocking(nodes[..i]) || Blocks(nodes[i])
    ensures AnyDirty(nodes[..i + 1]) <==> AnyDirty(nodes[..i]) || (nodes[i].state.Diverged? && nodes[i].dirty)
    ensures AnyOtherwise(nodes[..i + 1]) <==> AnyOtherwise(nodes[..i]) || (nodes[i].state.Diverged? && !nodes[i].dirty)
  {
  }

  // ---- the titles

  /** The title of the first deployment waited for under that name; empty when there is none. */
  function TitleOf(triggered: seq<Service>, results: seq<WaitResult>, name: string): string
    requires |results| == |triggered|
  {
    if triggered == [] then ""
    else if triggered[0].name == name then
      if results[0].deployment.Some? then results[0].deployment.value.title else ""
    else TitleOf(triggered[1..], results[1..], name)
  }

  /** Every code-bearing service that was waited for carries the candidate's subject, when that is known. */
  predicate TitlesMatch(c: Config, triggered: seq<Service>, results: seq<WaitResult>)
    requires |results| == |triggered|
  {
    c.LocalSubject().Some? ==>
      forall j :: 0 <= j < |triggered| && triggered[j].name == CODE_BEARING ==>
        TitleOf(triggered, results, triggered[j].name) == c.LocalSubject().value
  }

  method CheckTitles(c: Config, triggered: seq<Service>, results: seq<WaitResult>, before: Flags) returns (flags: Flags)
    requires |results| == |triggered|
    ensures flags == if TitlesMatch(c, triggered, results) then before
      else before.(allOk := false, backupOk := false, otherFailure := true)
  {
    flags := before;
    if c.LocalSubject().None? {
      return;
    }
    ghost var failed := false;
    for j := 0 to |triggered|
      invariant failed <==> exists k ::
        && 0 <= k < j && triggered[k].name == CODE_BEARING
        && TitleOf(triggered, results, triggered[k].name) != c.LocalSubject().value
      invariant flags == if failed then before.(allOk := false, backupOk := false, otherFailure := true) else before
    {
      var title := TitleOf(triggered, results, triggered[j].name);
      if triggered[j].name == CODE_BEARING && title != c.LocalSubject().value {
        flags := flags.(allOk := false, backupOk := false, otherFailure := true);
        failed := true;
      }
    }
  }

  // ---- the run

  const EXIT_OK: int := 0
  const EXIT_DEPLOY_FAILED: int := 1
  const EXIT_USAGE_ERROR: int := 2
  const EXIT_NODE_DIRTY: int := 3

  /** Why nothing is deployed at all. */
  function EarlyExit(c: Config): Option<int> {
    if c.candidate.Invalid? then Some(EXIT_USAGE_ERROR)
    else if c.CandidateRequired() && c.ExpectedSha().None? then Some(EXIT_DEPLOY_FAILED)
    else if c.DarkhubSelected() && !c.wait then Some(EXIT_USAGE_ERROR)
    else if c.DarkhubSelected() && c.preparation.ComposeRefused? then Some(EXIT_DEPLOY_FAILED)
    else if c.DarkhubSelected() && c.preparation.ImageUntouched? && !c.force then Some(EXIT_OK)
    else None
  }

  /** The services that were waited for. */
  function AllTriggered(w: World, c: Config): seq<Service> {
    Triggered(w, c, |c.selected|)
  }

  ghost predicate DeployOk(w: World, c: Config, results: seq<WaitResult>) {
    && !AnyRejected(w, c, |c.selected|)
    && AllDone(results)
    && (c.DarkhubSelected() && DarkhubIn(AllTriggered(w, c)) ==> HubProved(w, c, AnyJoined(w, c, |c.selected|)))
  }

  predicate SyncRuns(c: Config) {
    !c.skipNodeSync && c.ExpectedSha().Some?
  }

  ghost predicate Succeeds(w: World, c: Config, results: seq<WaitResult>)
    requires |results| == |AllTriggered(w, c)|
  {
    && DeployOk(w, c, results) && TitlesMatch(c, AllTriggered(w, c), results)
    && (SyncRuns(c) ==> !AnyDiverged(w.nodes) && VpsConverged(w.nodes))
  }

  ghost predicate MayBackUp(w: World, c: Config, results: seq<WaitResult>)
    requires |results| == |AllTriggered(w, c)|
  {
    && DeployOk(w, c, results) && TitlesMatch(c, AllTriggered(w, c), results)
    && (c.skipNodeSync || (c.ExpectedSha().Some? && !AnyBlocking(w.nodes) && VpsConverged(w.nodes)))
  }

  /** The deployments hold and the titles match, some checkout is dirty, and no node diverged otherwise. */
  ghost predicate OnlyDirty(w: World, c: Config, results: seq<WaitResult>)
    requires |results| == |AllTriggered(w, c)|
  {
    && DeployOk(w, c, results) && TitlesMatch(c, AllTriggered(w, c), results)
    && SyncRuns(c) && AnyDirty(w.nodes) && !AnyOtherwise(w.nodes)
  }

  /** The flags once the deployments ended: a single bit. */
  function Uniform(ok: bool): Flags {
    Flags(ok, ok, !ok, false)
  }

  /** The phases up to the served commit. */
  method Deploy(w: World, c: Config) returns (ok: bool, triggered: seq<Service>, results: seq<WaitResult>)
    requires w.Ends(c.timeout) && EarlyExit(c).None?
    ensures triggered == AllTriggered(w, c)
    ensures c.wait ==> |results| == |triggered| && WaitedFor(w, c, triggered, Baselines(w, c, |c.selected|), results)
    ensures ok <==> if c.wait then DeployOk(w, c, results) else !AnyRejected(w, c, |c.selected|)
  {
    var baselines, joined, rejected;
    triggered, baselines, joined, rejected := TriggerAll(w, c);
    ok, results := !rejected, [];
    if !c.wait {
      return;
    }
    var failed: bool;
    results, failed := WaitAll(w, c, triggered, baselines);
    ok := ok && !failed;
    if c.DarkhubSelected() && DarkhubIn(triggered) {
      var proved := ProveHub(w, c, joined);
      ok := ok && proved;
    }
  }

  method Run(w: World, c: Config) returns (exit: int, backedUp: bool, results: seq<WaitResult>)
    requires w.Ends(c.timeout)
    ensures EarlyExit(c).Some? ==> exit == EarlyExit(c).value && !backedUp && results == []
    ensures EarlyExit(c).None? && !c.wait ==>
      !backedUp && exit == if AnyRejected(w, c, |c.selected|) then EXIT_DEPLOY_FAILED else EXIT_OK
    ensures EarlyExit(c).None? && c.wait ==>
      && |results| == |AllTriggered(w, c)|
         && WaitedFor(w, c, AllTriggered(w, c), Baselines(w, c, |c.selected|), results)
      && (exit == EXIT_OK <==> Succeeds(w, c, results))
      && (exit == EXIT_NODE_DIRTY <==> OnlyDirty(w, c, results))
      && (exit == EXIT_DEPLOY_FAILED <==> !Succeeds(w, c, results) && !OnlyDirty(w, c, results))
      && (backedUp <==> !c.skipBackup && MayBackUp(w, c, results))
  {
    if EarlyExit(c).Some? {
      return EarlyExit(c).value, false, [];
    }
    var ok, triggered;
    ok, triggered, results := Deploy(w, c);
    if !c.wait {
      return if ok then EXIT_OK else EXIT_DEPLOY_FAILED, false, results;
    }
    var flags := Uniform(ok);
    if !c.skipNodeSync {
      if c.ExpectedSha().None? {
        flags := flags.(backupOk := false);
      } else {
        flags := SyncNodes(w.nodes, flags);
      }
    }
    flags := CheckTitles(c, triggered, results, flags);
    exit := if flags.allOk then EXIT_OK
            else if flags.dirty && !flags.otherFailure then EXIT_NODE_DIRTY
            else EXIT_DEPLOY_FAILED;
    backedUp := !c.skipBackup && flags.backupOk;
  }

  // ---- what the flags mean together

  /** A successful run may always back up, unless it had no candidate commit to prove anything about. */
  lemma {:induction false} SuccessAllowsBackup(w: World, c: Config, results: seq<WaitResult>)
    requires |results| == |AllTriggered(w, c)| && Succeeds(w, c, results)
    ensures MayBackUp(w, c, results) <==> c.skipNodeSync || c.ExpectedSha().Some?
  {
  }

  /** A backup without a successful run is owed only to the Desktop or to a Notebook that blocks nothing. */
  lemma {:induction false} BackupWithoutSuccess(w: World, c: Config, results: seq<WaitResult>)
    requires |results| == |AllTriggered(w, c)| && MayBackUp(w, c, results) && !Succeeds(w, c, results)
    ensures SyncRuns(c)
    ensures exists i :: 0 <= i < |w.nodes| && w.nodes[i].state.Diverged?
    ensures forall i :: 0 <= i < |w.nodes| && w.nodes[i].state.Diverged? ==>
      w.nodes[i].name == "Desktop" || (w.nodes[i].name == "Notebook" && !w.nodes[i].blocksBackup)
  {
  }

  /**
   What a backup rests on: every deployment waited for is done and another one than its baseline, or a later
   one under the same id (any at all for a joined Hub, which has no baseline); and the candidate is proved.
   */
  lemma {:induction false} BackupRestsOnEvidence(w: World, c: Config, results: seq<WaitResult>, j: nat)
    requires |results| == |AllTriggered(w, c)| && MayBackUp(w, c, results) && j < |results|
    requires WaitedFor(w, c, AllTriggered(w, c), Baselines(w, c, |c.selected|), results)
    ensures var svc := AllTriggered(w, c)[j];
            && IsNew(BaselineOf(Baselines(w, c, |c.selected|), svc.name), results[j].deployment)
            && results[j].deployment.value.status.Done?
            && (IsDarkhub(svc) && c.DarkhubSelected() ==> HubProved(w, c, AnyJoined(w, c, |c.selected|)))
            && (svc.name == CODE_BEARING && c.LocalSubject().Some? ==>
                  TitleOf(AllTriggered(w, c), results, svc.name) == c.LocalSubject().value)
    ensures !c.skipNodeSync ==> VpsConverged(w.nodes)
  {
  }

  /**
   A dirty exit: some checkout is dirty and no node diverged for another reason. It says nothing about a VPS
   that is missing or excluded: with it the VPS may be unconverged, exactly when it is missing, excluded or
   itself dirty, and then there is no backup.
   */
  lemma {:induction false} DirtyExitMeans(w: World, c: Config, results: seq<WaitResult>)
    requires |results| == |AllTriggered(w, c)| && OnlyDirty(w, c, results)
    ensures !Succeeds(w, c, results)
    ensures exists i :: 0 <= i < |w.nodes| && w.nodes[i].state.Diverged? && w.nodes[i].dirty
    ensures forall i :: 0 <= i < |w.nodes| && w.nodes[i].state.Diverged? ==> w.nodes[i].dirty
    ensures var vps := FindNode(w.nodes, "VPS");
            !VpsConverged(w.nodes) <==>
              vps.None? || vps.value.state.Excluded? || (vps.value.state.Diverged? && vps.value.dirty)
    ensures MayBackUp(w, c, results) <==> VpsConverged(w.nodes) && !AnyBlocking(w.nodes)
  {
    FoundNodeIsThere(w.nodes, "VPS");
  }

  lemma {:induction false} FoundNodeIsThere(nodes: seq<Node>, name: string)
    ensures FindNode(nodes, name).Some? ==> FindNode(nodes, name).value in nodes
  {
    if nodes != [] && nodes[0].name != name {
      FoundNodeIsThere(nodes[1..], name);
    }
  }

  /** Dirty exits without a converged VPS: there may be none, or an excluded one. */
  method DirtyWithoutVps(others: seq<Node>) returns (exit: int, backedUp: bool)
    requires !VpsConverged(others) && !AnyOtherwise(others)
    ensures exit == EXIT_NODE_DIRTY && !backedUp
  {
    var nodes := [Node("Notebook", Diverged, true, true)] + others;
    var results;
    exit, backedUp, results := Run(SmallWorld(nodes, "subject"), SmallConfig("darkfac-cloud"));
    SmallRun(nodes, "subject", "darkfac-cloud", results);
    assert nodes[0].state.Diverged? && nodes[1..] == others;
    assert forall i :: 0 < i < |nodes| ==> nodes[i] == others[i - 1];
  }

  method DirtyWithoutVpsExample() returns (missing: int, excluded: int)
    ensures missing == excluded == EXIT_NODE_DIRTY
  {
    var backedUp;
    missing, backedUp := DirtyWithoutVps([]);
    excluded, backedUp := DirtyWithoutVps([Node("VPS", Excluded, false, true)]);
  }

  // ---- when nothing is deployed

  /**
   The run says that all is well without deploying anything, also of the other services selected, exactly when
   the Hub is among them, is to be waited for and not forced, and the candidate leaves its image untouched.
   */
  lemma {:induction false} NothingIsDeployedExactly(c: Config)
    ensures EarlyExit(c) == Some(EXIT_OK) <==>
            && c.candidate.Sha? && c.DarkhubSelected() && c.wait && !c.force && c.preparation.ImageUntouched?
  {
  }

  /** For one: a database that was selected together with the Hub. */
  method UntouchedImageExample() returns (c: Config, exit: int, backedUp: bool, results: seq<WaitResult>)
    ensures |c.selected| == 2 && !IsDarkhub(c.selected[1]) && c.wait
    ensures exit == EXIT_OK && results == [] && !backedUp
  {
    var hub, database := Service("DarkHub", "darkhub", true), Service("postgres", "postgres", true);
    c := SmallConfig("").(selected := [hub, database], preparation := ImageUntouched);
    assert IsDarkhub(c.selected[0]);
    assert database.key[0] != "darkhub"[0];
    exit, backedUp, results := Run(SmallWorld([], ""), c);
  }

  // ---- whose title is checked

  /** Every service that was waited for as code-bearing, in whatever capitals, carries the candidate's subject. */
  predicate CodeTitlesMatch(c: Config, triggered: seq<Service>, results: seq<WaitResult>)
    requires |results| == |triggered|
  {
    c.LocalSubject().Some? ==>
      forall j :: 0 <= j < |triggered| && triggered[j].key == CODE_BEARING ==>
        TitleOf(triggered, results, triggered[j].name) == c.LocalSubject().value
  }

  /**
   A service counts as code-bearing, and makes the candidate required, by its name in lower case; its title
   is checked by the name as it is. So the check covers all of them exactly when each is written in lower
   case, or there is no subject to compare with.
   */
  lemma {:induction false} TitlesAreCheckedExactly(c: Config, triggered: seq<Service>)
    ensures (forall results :: |results| == |triggered| && TitlesMatch(c, triggered, results) ==>
      CodeTitlesMatch(c, triggered, results))
       <==> c.LocalSubject().None?
            || forall j :: 0 <= j < |triggered| && triggered[j].key == CODE_BEARING ==>
               triggered[j].name == CODE_BEARING
  {
    if c.LocalSubject().Some? {
      var subject := c.LocalSubject().value;
      var results := seq(|triggered|, k requires 0 <= k < |triggered| => TitledResult(triggered[k], subject));
      forall j | 0 <= j < |triggered|
        ensures TitleOf(triggered, results, triggered[j].name) ==
          TitledResult(triggered[j], subject).deployment.value.title
      {
        TitlesByName(triggered, results, subject, triggered[j]);
      }
      assert TitlesMatch(c, triggered, results);
    }
  }

  /** A result that passes the check whatever the service is, with another title where nobody looks. */
  function TitledResult(svc: Service, subject: string): WaitResult {
    var title := if svc.name == CODE_BEARING then subject else subject + "?";
    WaitResult(ReachedDone, Some(Deployment("", Done, title, None)))
  }

  lemma {:induction false} TitlesByName(triggered: seq<Service>, results: seq<WaitResult>, subject: string,
      svc: Service)
    requires |results| == |triggered| && svc in triggered
    requires forall k :: 0 <= k < |triggered| ==> results[k] == TitledResult(triggered[k], subject)
    ensures TitleOf(triggered, results, svc.name) == TitledResult(svc, subject).deployment.value.title
  {
    if triggered[0].name != svc.name {
      TitlesByName(triggered[1..], results[1..], subject, svc);
    }
  }

  /** One service, a deployment of it that is done at the first poll, and a candidate with a subject. */
  function SmallConfig(name: string): Config {
    Config([Service(name, CODE_BEARING, true)], Sha("c"), Some("subject"), Ready, true, false, false, false, 1.0)
  }

  function SmallWorld(nodes: seq<Node>, title: string): World {
    var done := Deployment("d", Done, title, None);
    World(n => None, n => Started(false), n => 0, n => None, n => false,
          n => Ticks(k => k as real, k => [done], 0), Probes(k => k as real, k => None, 0), None, nodes)
  }

  lemma {:induction false} SmallRun(nodes: seq<Node>, title: string, name: string, results: seq<WaitResult>)
    requires var w, c := SmallWorld(nodes, title), SmallConfig(name);
             |results| == |AllTriggered(w, c)|
               && WaitedFor(w, c, AllTriggered(w, c), Baselines(w, c, |c.selected|), results)
    ensures var w, c := SmallWorld(nodes, title), SmallConfig(name);
            && AllTriggered(w, c) == c.selected && DeployOk(w, c, results)
            && TitleOf(AllTriggered(w, c), results, name) == title
  {
    var w, c := SmallWorld(nodes, title), SmallConfig(name);
    assert Triggered(w, c, 0) == [];
    assert DispositionOf(w, c, 0).Waiting?;
    var baseline := BaselineOf(Baselines(w, c, 1), name);
    var k: nat :| k <= w.ticks(0).bound && EndsAt(w.ticks(0), baseline, c.timeout, k, results[0]);
  }

  /** A service of another name than the checked one: the title of its deployment decides nothing. */
  lemma {:induction false} UncheckedTitleSucceeds(nodes: seq<Node>, title: string, name: string,
      results: seq<WaitResult>)
    requires var w, c := SmallWorld(nodes, title), SmallConfig(name);
             |results| == |AllTriggered(w, c)| && AllTriggered(w, c) == c.selected && DeployOk(w, c, results)
    requires name != CODE_BEARING && VpsConverged(nodes) && !AnyDiverged(nodes)
    ensures var w, c := SmallWorld(nodes, title), SmallConfig(name);
            Succeeds(w, c, results) && MayBackUp(w, c, results)
  {
  }

  /** A run that succeeds and backs up although the code-bearing deployment is another commit's. */
  method UncheckedTitleRun(name: string, title: string) returns (exit: int, backedUp: bool, results: seq<WaitResult>)
    requires name != CODE_BEARING
    ensures exit == EXIT_OK && backedUp && |results| == 1
    ensures var c := SmallConfig(name); c.selected[0].key == CODE_BEARING && TitleOf(c.selected, results, name) == title
  {
    var c := SmallConfig(name);
    var nodes := [Node("VPS", Converged, false, true)];
    exit, backedUp, results := Run(SmallWorld(nodes, title), c);
    SmallRun(nodes, title, name, results);
    UncheckedTitleSucceeds(nodes, title, name, results);
  }

  /** For one: the service is written DarkFac-Cloud. */
  method CapitalsExample() returns (exit: int, backedUp: bool, results: seq<WaitResult>)
    ensures var c := SmallConfig("DarkFac-Cloud");
            && exit == EXIT_OK && backedUp && |results| == 1 && c.selected[0].key == CODE_BEARING
            && TitleOf(c.selected, results, "DarkFac-Cloud") == "other" && c.subject == Some("subject")
  {
    assert "DarkFac-Cloud"[0] != CODE_BEARING[0];
    exit, backedUp, results := UncheckedTitleRun("DarkFac-Cloud", "other");
  }
}

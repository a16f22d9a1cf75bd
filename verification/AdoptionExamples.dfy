/**
 Calls that lose something: one input for each of the ways that the laws of adoption leave open.
 */
module AdoptionExamples {
  import opened Prelude
  import opened AgentsBlock
  import opened Adoption
  import opened AdoptionApply
  import opened AdoptionLaws
  import opened AdoptionHistory
  import opened AdoptionVerify

  const OLD: Content := Text("rules")
  const NEW: Content := Text("wrapper")

  /** A clean repository, a bundle of one file, and nothing to seed. */
  function SmallRequest(mk: Markers, middle: string): Request {
    Request(map[ENTRY := NEW], {}, mk, middle, 2, map[], true, true, [], OLD, OLD, OLD, c => Executable, "", "")
  }

  /** A project with a harness and a lock that lists `managed`, besides `files`. */
  function SmallProject(files: Tree, managed: map<Name, Digest>): Tree {
    files[Harness := OLD][LockFile := LockDocument(Lock("", "", 0, managed, map[], Literal(""), []), LAYOUT)]
  }

  lemma {:induction false} SmallRequestIsGood(mk: Markers, middle: string)
    requires GoodMarkers(mk) && '<' !in middle
    ensures GoodRequest(SmallRequest(mk, middle))
    ensures Payload(SmallRequest(mk, middle)) == map[ENTRY := NEW]
  {
  }

  lemma {:induction false} SmallProjectLock(files: Tree, managed: map<Name, Digest>)
    ensures PreviousHashes(SmallProject(files, managed)) == managed
    ensures !LoadLock(SmallProject(files, managed)).BadLock?
  {
  }

  /** A call of the example is ready when the lock tells the truth about one file and AGENTS.md can be merged. */
  lemma {:induction false} SmallIsReady(mk: Markers, middle: string, p: Path, c: Content, managed: map<Name, Digest>)
    requires GoodMarkers(mk) && '<' !in middle
    requires p == Agents || p == Mission || p == ENTRY
    requires managed == if p == ENTRY then map[Plain(p) := Sha256(c), Name(p, "/") := Sha256(c)]
      else map[Plain(p) := Sha256(c)]
    requires MergeAgents(SmallRequest(mk, middle), if p == Agents then Some(c) else None).NewAgents?
    ensures var tree, req := SmallProject(map[p := c], managed), SmallRequest(mk, middle);
            && GoodRequest(req) && ReadyFor(tree, req)
            && Retired(tree, req) == {if p == ENTRY then Name(p, "/") else Plain(p)}
            && Lookup(tree, p) == Some(c)
  {
    SmallRequestIsGood(mk, middle);
    SmallProjectLock(map[p := c], managed);
  }

  /** A governance file that the old lock lists, under its current digest, is removed by a successful call. */
  lemma {:induction false} ListedMissionExample(mk: Markers, middle: string)
      returns (tree: Tree, req: Request, after: Tree, outcome: Outcome)
    requires GoodMarkers(mk) && '<' !in middle
    ensures GoodRequest(req) && Adopts(tree, req, after, outcome) && outcome.Applied?
    ensures Mission in tree && Mission !in after && !TwiceOwned(tree, req)
  {
    var managed := map[Plain(Mission) := Sha256(OLD)];
    tree, req := SmallProject(map[Mission := OLD], managed), SmallRequest(mk, middle);
    SmallRequestIsGood(mk, middle);
    FreshMerges(req);
    SmallIsReady(mk, middle, Mission, OLD, managed);
    after, outcome := ReadyAdoptionSucceeds(tree, req);
    OneNameIsOneOwner(tree, req, Plain(Mission));
    GovernanceStaysExactly(tree, req, after, outcome, Mission);
  }

  lemma {:induction false} OneNameIsOneOwner(tree: Tree, req: Request, n: Name)
    requires |req.mk.start| > 0 && |req.mk.end| > 0
    requires Retired(tree, req) == {n} && !Outdated(tree, req, n.path)
    ensures !TwiceOwned(tree, req) && Listed(tree, req, n.path)
  {
  }

  /** An up-to-date AGENTS.md that the old lock lists is removed, and the adopted project does not verify. */
  lemma {:induction false} ListedAgentsExample(mk: Markers, middle: string)
      returns (tree: Tree, req: Request, after: Tree, outcome: Outcome)
    requires GoodMarkers(mk) && '<' !in middle
    ensures GoodRequest(req) && Adopts(tree, req, after, outcome) && outcome.Applied?
    ensures Agents in tree && Agents !in after && !InOrder(after, mk, true) && !TwiceOwned(tree, req)
  {
    req := SmallRequest(mk, middle);
    SmallRequestIsGood(mk, middle);
    FreshMerges(req);
    var settled := MergeAgents(req, Some(FreshAgents(req))).content;
    var managed := map[Plain(Agents) := Sha256(settled)];
    tree := SmallProject(map[Agents := settled], managed);
    SmallIsReady(mk, middle, Agents, settled, managed);
    after, outcome := ReadyAdoptionSucceeds(tree, req);
    OneNameIsOneOwner(tree, req, Plain(Agents));
    ListedAgentsGo(tree, req, after, outcome);
  }

  lemma {:induction false} ListedAgentsGo(tree: Tree, req: Request, after: Tree, outcome: Outcome)
    requires GoodRequest(req) && Adopts(tree, req, after, outcome) && outcome.Applied?
    requires Retired(tree, req) == {Plain(Agents)} && Agents in tree && !Outdated(tree, req, Agents)
    ensures Agents !in after && !InOrder(after, req.mk, true)
  {
    assert Plain(Agents) in Retired(tree, req) && Needed(tree, req, Agents);
    AdoptedVerifiesExactly(tree, req, after, outcome);
    ApplyIsAllOrNothing(tree, req, after, outcome);
    InstalledIsExpected(tree, req, Agents);
  }

  lemma {:induction false} PlainTextIsOutdated(req: Request)
    requires GoodRequest(req)
    ensures MergeAgents(req, Some(OLD)).NewAgents? && MergeAgents(req, Some(OLD)) != NewAgents(OLD)
  {
  }

  /** A listed AGENTS.md that is to be updated: a failing call loses it for good. */
  lemma {:induction false} OutdatedAgentsExample(mk: Markers, middle: string)
      returns (tree: Tree, req: Request, after: Tree)
    requires GoodMarkers(mk) && '<' !in middle
    ensures GoodRequest(req) && Adopts(tree, req, after, Failed) && after != tree
    ensures PreviousHashes(tree) == map[Plain(Agents) := Sha256(OLD)] && Lookup(tree, Agents) == Some(OLD)
  {
    var managed := map[Plain(Agents) := Sha256(OLD)];
    tree, req := SmallProject(map[Agents := OLD], managed), SmallRequest(mk, middle);
    SmallRequestIsGood(mk, middle);
    SmallProjectLock(map[Agents := OLD], managed);
    PlainTextIsOutdated(req);
    SmallIsReady(mk, middle, Agents, OLD, managed);
    after := TwiceOwnedCallIsLost(tree, req);
  }

  /** Two spellings of one bundle path: a success leaves the file missing, and a failure does not restore it. */
  lemma {:induction false} AliasExample(mk: Markers, middle: string)
      returns (tree: Tree, req: Request, after: Tree, outcome: Outcome, failed: Tree)
    requires GoodMarkers(mk) && '<' !in middle
    ensures GoodRequest(req) && Adopts(tree, req, after, outcome) && outcome.Applied?
    ensures PreviousHashes(tree).Keys == {Plain(ENTRY), Name(ENTRY, "/")}
    ensures ENTRY in Payload(req) && ENTRY !in after
    ensures Adopts(tree, req, failed, Failed) && failed != tree
  {
    var managed := map[Plain(ENTRY) := Sha256(OLD), Name(ENTRY, "/") := Sha256(OLD)];
    tree, req := SmallProject(map[ENTRY := OLD], managed), SmallRequest(mk, middle);
    SmallRequestIsGood(mk, middle);
    SmallProjectLock(map[ENTRY := OLD], managed);
    FreshMerges(req);
    SmallIsReady(mk, middle, ENTRY, OLD, managed);
    after, outcome := ReadyAdoptionSucceeds(tree, req);
    ListedEntryGoes(tree, req, after, outcome);
    failed := TwiceOwnedCallIsLost(tree, req);
  }

  lemma {:induction false} ListedEntryGoes(tree: Tree, req: Request, after: Tree, outcome: Outcome)
    requires GoodRequest(req) && Adopts(tree, req, after, outcome) && outcome.Applied?
    requires Retired(tree, req) == {Name(ENTRY, "/")}
    requires Payload(req) == map[ENTRY := NEW] && Lookup(tree, ENTRY) == Some(OLD)
    ensures ENTRY !in after && TwiceOwned(tree, req)
  {
    assert Name(ENTRY, "/") in Retired(tree, req);
    assert OLD != NEW by { assert |OLD.text| != |NEW.text|; }
    assert Outdated(tree, req, ENTRY);
    ApplyIsAllOrNothing(tree, req, after, outcome);
    InstalledFile(tree, req, ENTRY);
  }
}

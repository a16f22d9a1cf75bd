/**
 Verification of an adopted project, and the laws that hold over any number of adoptions.
 */
module AdoptionVerify {
  import opened Prelude
  import opened AgentsBlock
  import opened Adoption
  import opened AdoptionApply
  import opened AdoptionLaws
  import opened AdoptionHistory

  datatype Problem =
    | ManagedMissing(name: Name)
    | ManagedDrift(name: Name)
    | BlockMissing
    | BlockDrift
    | HarnessMissing
    | NoRepository

  datatype Verification =
    | NoValidLock                // missing or unreadable: not ready
    | VerificationCrashed        // markers in the wrong order: unpacking the split raises ValueError
    | Checked(count: nat, problems: seq<Problem>)
  {
    predicate Ready() {
      Checked? && problems == [] && count > 0
    }
  }

  function BlockOf(mk: Markers, tree: Tree): Extraction
    requires |mk.start| > 0 && |mk.end| > 0
  {
    if Agents !in tree then Extract(mk, "")
    else if tree[Agents].Text? then Extract(mk, tree[Agents].text)
    else NoBlock
  }

  /** When the report is ready, said without the loop. */
  ghost predicate InOrder(tree: Tree, mk: Markers, repository: bool)
    requires |mk.start| > 0 && |mk.end| > 0
  {
    && LoadLock(tree).Locked?
    && PreviousHashes(tree) != map[]
    && (forall n :: n in PreviousHashes(tree) ==> DigestOf(Lookup(tree, n.path)) == Some(PreviousHashes(tree)[n]))
    && BlockOf(mk, tree).Extracted?
    && Sha256(Text(BlockOf(mk, tree).block)) == LoadLock(tree).lock.agentsBlock
    && Harness in tree
    && repository
  }

  /** What is wrong with the file that a lock's name names. */
  predicate IsDrift(x: Problem, tree: Tree, managed: map<Name, Digest>) {
    match x
    case ManagedMissing(n) => n in managed && n.path !in tree
    case ManagedDrift(n) => n in managed && n.path in tree && Sha256(tree[n.path]) != managed[n]
    case _ => false
  }

  /** The loop over the managed files: how many exist, and what is wrong with which. */
  method CheckManaged(tree: Tree, managed: map<Name, Digest>) returns (count: nat, problems: seq<Problem>)
    ensures forall x :: x in problems <==> IsDrift(x, tree, managed)
    ensures problems == [] ==> (count > 0 <==> managed != map[])
  {
    problems, count := [], 0;
    var order := Enumerate(managed.Keys);
    for i := 0 to |order|
      invariant count <= i && (problems == [] ==> count == i)
      invariant forall x :: x in problems <==> IsDrift(x, tree, managed) && x.name in order[..i]
    {
      var n := order[i];
      assert n in managed && n !in order[..i];
      if n.path !in tree {
        problems := problems + [ManagedMissing(n)];
      } else {
        count := count + 1;
        if Sha256(tree[n.path]) != managed[n] {
          problems := problems + [ManagedDrift(n)];
        }
      }
    }
    assert order[..|order|] == order;
    if |order| == 0 {
      assert forall n :: n in managed ==> n in order;
    } else {
      assert order[0] in managed;
    }
  }

  /** Provenance, drift of the managed files, the managed block, the harness and git. */
  method VerifyAdoption(tree: Tree, mk: Markers, repository: bool) returns (r: Verification)
    requires |mk.start| > 0 && |mk.end| > 0
    ensures r.Ready() <==> InOrder(tree, mk, repository)
    ensures r.NoValidLock? <==> !LoadLock(tree).Locked?
    ensures GoodMarkers(mk) ==> (r.VerificationCrashed? <==> LoadLock(tree).Locked? && AgentsMisordered(mk, tree))
    ensures r.Checked? ==> forall x :: IsDrift(x, tree, PreviousHashes(tree)) ==> x in r.problems
    ensures r.Checked? ==> forall x :: x in r.problems && (x.ManagedMissing? || x.ManagedDrift?) ==>
      IsDrift(x, tree, PreviousHashes(tree))
  {
    var loaded := LoadLock(tree);
    if !loaded.Locked? {
      return NoValidLock;
    }
    var count, problems := CheckManaged(tree, loaded.lock.managed);
    ManagedInOrder(tree, loaded.lock.managed, problems);
    var block := BlockOf(mk, tree);
    BlockCrashesExactly(mk, tree);
    if block.ExtractCrashed? {
      return VerificationCrashed;
    }
    var others: seq<Problem> := [];
    if block.NoBlock? {
      others := [BlockMissing];
    } else if Sha256(Text(block.block)) != loaded.lock.agentsBlock {
      others := [BlockDrift];
    }
    if Harness !in tree {
      others := others + [HarnessMissing];
    }
    if !repository {
      others := others + [NoRepository];
    }
    return Checked(count, problems + others);
  }

  /** Verification raises exactly on a text AGENTS.md whose markers are in the wrong order. */
  lemma {:induction false} BlockCrashesExactly(mk: Markers, tree: Tree)
    requires |mk.start| > 0 && |mk.end| > 0
    ensures GoodMarkers(mk) ==> (BlockOf(mk, tree).ExtractCrashed? <==> AgentsMisordered(mk, tree))
  {
    if GoodMarkers(mk) {
      if Agents in tree && tree[Agents].Text? {
        ExtractCrashesExactly(mk, tree[Agents].text);
      }
      EmptyHasNoBlock(mk);
    }
  }

  lemma {:induction false} EmptyHasNoBlock(mk: Markers)
    requires GoodMarkers(mk)
    ensures Extract(mk, "") == NoBlock
  {
  }

  lemma {:induction false} ManagedInOrder(tree: Tree, managed: map<Name, Digest>, problems: seq<Problem>)
    requires forall x :: x in problems <==> IsDrift(x, tree, managed)
    ensures problems == [] <==> forall n :: n in managed ==> DigestOf(Lookup(tree, n.path)) == Some(managed[n])
  {
    EmptyHasNoMember(problems);
    if n :| n in managed && DigestOf(Lookup(tree, n.path)) != Some(managed[n]) {
      assert IsDrift(if n.path in tree then ManagedDrift(n) else ManagedMissing(n), tree, managed);
    }
  }

  // ---- one adoption

  lemma {:induction false} EntryIsNeverOptional()
    ensures !OptionalMirror(ENTRY)
  {
    assert ".claude/skills/"[1] != ".factory/darkfac.py"[1];
  }

  /** What the old lock claims that the adopted project needs. */
  predicate Undermined(tree: Tree, req: Request)
    requires |req.mk.start| > 0 && |req.mk.end| > 0
  {
    exists n :: n in Retired(tree, req) && n.path in tree && Needed(tree, req, n.path)
  }

  predicate Needed(tree: Tree, req: Request, p: Path)
    requires |req.mk.start| > 0 && |req.mk.end| > 0
  {
    p in Payload(req) || p == Harness || (p == Agents && !Outdated(tree, req, p))
  }

  lemma {:induction false} InstalledLockFile(tree: Tree, req: Request)
    requires |req.mk.start| > 0 && |req.mk.end| > 0
    ensures Lookup(Installed(tree, req), LockFile) == Some(LockDocument(NewLock(HashesOf(req), req), LAYOUT))
  {
  }

  lemma {:induction false} InstalledLock(tree: Tree, req: Request)
    requires |req.mk.start| > 0 && |req.mk.end| > 0
    ensures var t := Installed(tree, req);
            && LoadLock(t).Locked?
            && PreviousHashes(t) == LoadLock(t).lock.managed == NamesOf(HashesOf(req))
            && LoadLock(t).lock.agentsBlock == AgentsBlockDigest(req)
  {
  }

  lemma {:induction false} InstalledFile(tree: Tree, req: Request, p: Path)
    requires GoodRequest(req) && p in Payload(req)
    ensures Lookup(Installed(tree, req), p) == if Claimed(tree, req, p) then None else Some(Payload(req)[p])
  {
  }

  /** The managed files verify exactly when the old lock claims none of them under another name. */
  lemma {:induction false} InstalledManagedExactly(tree: Tree, req: Request)
    requires GoodRequest(req)
    ensures NamesOf(HashesOf(req)) != map[]
    ensures (forall n :: n in NamesOf(HashesOf(req)) ==>
      DigestOf(Lookup(Installed(tree, req), n.path)) == Some(NamesOf(HashesOf(req))[n]))
       <==> forall p :: p in Payload(req) ==> !Claimed(tree, req, p)
  {
    EntryIsNeverOptional();
    assert Plain(ENTRY) in NamesOf(HashesOf(req));
    forall p | p in Payload(req)
      ensures Lookup(Installed(tree, req), p) == if Claimed(tree, req, p) then None else Some(Payload(req)[p])
      ensures Plain(p) in NamesOf(HashesOf(req)) && NamesOf(HashesOf(req))[Plain(p)] == Sha256(Payload(req)[p])
    {
      InstalledFile(tree, req, p);
    }
  }

  /** The block verifies exactly when the old lock does not claim an up-to-date AGENTS.md. */
  lemma {:induction false} InstalledBlockExactly(tree: Tree, req: Request)
    requires GoodRequest(req) && ReadyFor(tree, req)
    ensures BlockOf(req.mk, Installed(tree, req)) ==
            if Claimed(tree, req, Agents) && !Outdated(tree, req, Agents) then NoBlock
              else Extracted(Block(req.mk, req.middle))
  {
    InstalledIsExpected(tree, req, Agents);
    FreshFileSettlesAfterOneMerge(req.mk, req.middle, req.middle);
    EmptyHasNoBlock(req.mk);
    if Agents in tree {
      MergeIsDefined(req.mk, tree[Agents].text, req.middle);
      MergeReplacesOnlyTheBlock(req.mk, tree[Agents].text, req.middle, req.middle);
    }
  }

  lemma {:induction false} InstalledHarnessExactly(tree: Tree, req: Request)
    requires GoodRequest(req) && ReadyFor(tree, req)
    ensures Harness in Installed(tree, req) <==> !Claimed(tree, req, Harness)
  {
  }

  lemma {:induction false} InstalledInOrderExactly(tree: Tree, req: Request)
    requires GoodRequest(req) && ReadyFor(tree, req)
    ensures InOrder(Installed(tree, req), req.mk, true) <==> !Undermined(tree, req)
  {
    InstalledLock(tree, req);
    InstalledManagedExactly(tree, req);
    InstalledBlockExactly(tree, req);
    InstalledHarnessExactly(tree, req);
    UnderminedParts(tree, req);
  }

  lemma {:induction false} UnderminedParts(tree: Tree, req: Request)
    requires |req.mk.start| > 0 && |req.mk.end| > 0
    ensures Undermined(tree, req) <==>
      || (exists p :: p in Payload(req) && Claimed(tree, req, p))
      || Claimed(tree, req, Harness)
      || (Claimed(tree, req, Agents) && !Outdated(tree, req, Agents))
  {
  }

  /**
   A project that was just adopted verifies exactly when the old lock did not claim, under a name the
   bundle does not have, a file of the bundle, the harness, or an AGENTS.md that is up to date.
   */
  lemma {:induction false} AdoptedVerifiesExactly(tree: Tree, req: Request, after: Tree, outcome: Outcome)
    requires GoodRequest(req) && Adopts(tree, req, after, outcome) && outcome.Applied?
    ensures InOrder(after, req.mk, true) <==> !Undermined(tree, req)
  {
    ApplyIsAllOrNothing(tree, req, after, outcome);
    InstalledInOrderExactly(tree, req);
  }

  // ---- the same bundle again

  /** Nothing to do but, at most, the block of a freshly created AGENTS.md. */
  ghost predicate Quiet(tree: Tree, req: Request)
    requires |req.mk.start| > 0 && |req.mk.end| > 0
  {
    && ReadyFor(tree, req)
    && Retired(tree, req) == {}
    && (forall p :: p in Payload(req) ==> ManagedItem(tree, req, p).action == Unchanged)
    && Mission in tree && Rules in tree && Harness in tree
    && (AgentsItem(tree, req).action == Unchanged || AgentsItem(tree, req).action == Update)
  }

  /** The old lock claims a file of the bundle, a governance file, or an up-to-date AGENTS.md. */
  predicate Disturbed(tree: Tree, req: Request)
    requires |req.mk.start| > 0 && |req.mk.end| > 0
  {
    exists n :: n in Retired(tree, req) && n.path in tree && (Needed(tree, req, n.path) || IsGovernance(n.path))
  }

  lemma {:induction false} DisturbedParts(tree: Tree, req: Request)
    requires |req.mk.start| > 0 && |req.mk.end| > 0
    ensures Disturbed(tree, req) <==>
      || (exists p :: p in Payload(req) && Claimed(tree, req, p))
      || Claimed(tree, req, Mission) || Claimed(tree, req, Rules) || Claimed(tree, req, Harness)
      || (Claimed(tree, req, Agents) && !Outdated(tree, req, Agents))
  {
  }

  lemma {:induction false} AgainRetiresNothing(tree: Tree, req: Request)
    requires |req.mk.start| > 0 && |req.mk.end| > 0
    ensures Retired(Installed(tree, req), req) == {}
    ensures forall p: Path :: !Listed(Installed(tree, req), req, p)
  {
  }

  lemma {:induction false} AgainFile(tree: Tree, req: Request, p: Path)
    requires GoodRequest(req) && p in Payload(req)
    ensures ManagedItem(Installed(tree, req), req, p).action == if Claimed(tree, req, p) then Create else Unchanged
  {
    InstalledLock(tree, req);
    InstalledFile(tree, req, p);
    assert Plain(p) in NamesOf(HashesOf(req));
  }

  /** What planning AGENTS.md again comes to, by what the first adoption found. */
  lemma {:induction false} AgainAgents(tree: Tree, req: Request)
    requires GoodRequest(req) && ReadyFor(tree, req)
    ensures var t := Installed(tree, req);
            && MergeAgents(req, Lookup(t, Agents)).NewAgents?
            && AgentsItem(t, req).action ==
               if Claimed(tree, req, Agents) then (if Outdated(tree, req, Agents) then Update else Create)
               else if Agents in tree then Unchanged else Update
  {
    InstalledIsExpected(tree, req, Agents);
    FreshMerges(req);
    if Agents in tree {
      MergeSettles(req, tree[Agents]);
    }
  }

  /** A merge that went through is a fixed point. */
  lemma {:induction false} MergeSettles(req: Request, c: Content)
    requires GoodRequest(req) && MergeAgents(req, Some(c)).NewAgents?
    ensures MergeAgents(req, Some(MergeAgents(req, Some(c)).content)) == MergeAgents(req, Some(c))
  {
    MergeIsDefined(req.mk, c.text, req.middle);
    MergeReplacesOnlyTheBlock(req.mk, c.text, req.middle, req.middle);
  }

  /** A fresh file is not, but one merge later it is. */
  lemma {:induction false} FreshMerges(req: Request)
    requires GoodRequest(req)
    ensures MergeAgents(req, None) == NewAgents(FreshAgents(req))
    ensures var again := MergeAgents(req, Some(FreshAgents(req)));
            again.NewAgents? && again.content != FreshAgents(req) && MergeAgents(req, Some(again.content)) == again
  {
    FreshFileSettlesAfterOneMerge(req.mk, req.middle, req.middle);
  }

  lemma {:induction false} AgainGovernance(tree: Tree, req: Request, g: Path)
    requires GoodRequest(req) && ReadyFor(tree, req) && IsGovernance(g)
    ensures g in Installed(tree, req) <==> !Claimed(tree, req, g)
    ensures g in tree && g in Installed(tree, req) ==> Installed(tree, req)[g] == tree[g]
    ensures g !in tree ==> Lookup(Installed(tree, req), g) == Seed(req, g)
  {
  }

  lemma {:induction false} AgainFiles(tree: Tree, req: Request)
    requires GoodRequest(req)
    ensures var t := Installed(tree, req);
            && (forall p :: p in Payload(req) ==> ManagedItem(t, req, p).action != Conflict)
            && ((forall p :: p in Payload(req) ==> ManagedItem(t, req, p).action == Unchanged)
                <==> forall p :: p in Payload(req) ==> !Claimed(tree, req, p))
  {
    forall p | p in Payload(req)
      ensures ManagedItem(Installed(tree, req), req, p).action == if Claimed(tree, req, p) then Create else Unchanged
    {
      AgainFile(tree, req, p);
    }
  }

  /** The project stays ready, unless its harness was claimed and cannot be created again. */
  lemma {:induction false} AgainIsReady(tree: Tree, req: Request)
    requires GoodRequest(req) && ReadyFor(tree, req)
    ensures ReadyFor(Installed(tree, req), req) <==> HarnessIs(Installed(tree, req), req, Executable)
    ensures !Claimed(tree, req, Harness) ==> HarnessIs(Installed(tree, req), req, Executable)
  {
    AgainRetiresNothing(tree, req);
    InstalledLockFile(tree, req);
    AgainFiles(tree, req);
    AgainAgents(tree, req);
    AgainGovernance(tree, req, Harness);
  }

  lemma {:induction false} AgainIsQuietExactly(tree: Tree, req: Request)
    requires GoodRequest(req) && ReadyFor(tree, req)
    ensures Quiet(Installed(tree, req), req) <==> !Disturbed(tree, req)
  {
    AgainRetiresNothing(tree, req);
    AgainIsReady(tree, req);
    AgainFiles(tree, req);
    AgainAgents(tree, req);
    AgainGovernance(tree, req, Mission);
    AgainGovernance(tree, req, Rules);
    AgainGovernance(tree, req, Harness);
    DisturbedParts(tree, req);
  }

  /**
   Planning the same request again finds nothing to do but, at most, the block of a freshly created
   AGENTS.md, exactly when the old lock claimed nothing that the bundle, the governance or an up-to-date
   AGENTS.md is made of.
   */
  lemma {:induction false} ReplanIsQuietExactly(tree: Tree, req: Request, after: Tree, outcome: Outcome)
    requires GoodRequest(req) && Adopts(tree, req, after, outcome) && outcome.Applied?
    ensures Quiet(after, req) <==> !Disturbed(tree, req)
    ensures AgentsItem(after, req).action == Unchanged <==> Agents in tree && !Listed(tree, req, Agents)
  {
    ApplyIsAllOrNothing(tree, req, after, outcome);
    AgainIsQuietExactly(tree, req);
    AgainAgents(tree, req);
  }

  lemma {:induction false} RemovedSeedComesBack(tree: Tree, req: Request, g: Path)
    requires |req.mk.start| > 0 && |req.mk.end| > 0
    requires ReadyFor(tree, req) && IsGovernance(g) && g !in tree
    ensures Seed(req, g).Some?
  {
  }

  lemma {:induction false} AgainAt(tree: Tree, req: Request, p: Path)
    requires GoodRequest(req) && ReadyFor(tree, req) && ReadyFor(Installed(tree, req), req)
    requires p != Agents
    ensures Lookup(Installed(Installed(tree, req), req), p) == Lookup(Installed(tree, req), p)
       <==> !(Claimed(tree, req, p) && (p in Payload(req) || IsGovernance(p)))
  {
    var once := Installed(tree, req);
    AgainRetiresNothing(tree, req);
    InstalledIsExpected(tree, req, p);
    if IsGovernance(p) && p !in once {
      RemovedSeedComesBack(once, req, p);
    }
    InstalledIsExpected(once, req, p);
  }

  lemma {:induction false} AgainAtAgents(tree: Tree, req: Request)
    requires GoodRequest(req) && ReadyFor(tree, req)
    ensures Lookup(Installed(Installed(tree, req), req), Agents) == Lookup(Installed(tree, req), Agents)
       <==> Agents in tree && !Listed(tree, req, Agents)
  {
    var once := Installed(tree, req);
    AgainRetiresNothing(tree, req);
    AgainAgents(tree, req);
    InstalledIsExpected(once, req, Agents);
  }

  /** Adopting again changes nothing exactly when AGENTS.md was there and the old lock claimed nothing needed. */
  lemma {:induction false} AgainChangesNothingExactly(tree: Tree, req: Request)
    requires GoodRequest(req) && ReadyFor(tree, req) && ReadyFor(Installed(tree, req), req)
    ensures Installed(Installed(tree, req), req) == Installed(tree, req)
       <==> !Disturbed(tree, req) && Agents in tree && !Listed(tree, req, Agents)
  {
    var once := Installed(tree, req);
    var twice := Installed(once, req);
    AgainAtAgents(tree, req);
    DisturbedParts(tree, req);
    forall p: Path | p != Agents
      ensures Lookup(twice, p) == Lookup(once, p) <==>
        !(Claimed(tree, req, p) && (p in Payload(req) || IsGovernance(p)))
    {
      AgainAt(tree, req, p);
    }
    if forall p: Path :: Lookup(twice, p) == Lookup(once, p) {
      SameTree(twice, once);
    }
  }

  lemma {:induction false} NothingRetiredNothingDisturbed(tree: Tree, req: Request)
    requires |req.mk.start| > 0 && |req.mk.end| > 0 && Retired(tree, req) == {}
    ensures !Disturbed(tree, req) && !TwiceOwned(tree, req) && !Undermined(tree, req)
    ensures forall p: Path :: !Listed(tree, req, p)
  {
  }

  /**
   The second adoption of a bundle leaves the tree as the first did exactly when AGENTS.md was there at
   first and the old lock claimed nothing that is needed; from the second on the tree is a fixed point
   exactly when the first left an AGENTS.md.
   */
  lemma {:induction false} SecondAdoptionSettles(tree: Tree, req: Request, once: Tree, twice: Tree, o1: Outcome,
      o2: Outcome)
    requires GoodRequest(req) && Adopts(tree, req, once, o1) && o1.Applied? && Adopts(once, req, twice, o2)
      && o2.Applied?
    ensures twice == once <==> !Disturbed(tree, req) && Agents in tree && !Listed(tree, req, Agents)
    ensures ReadyFor(twice, req) && (Installed(twice, req) == twice <==> Agents in once)
  {
    ApplyIsAllOrNothing(tree, req, once, o1);
    ApplyIsAllOrNothing(once, req, twice, o2);
    AgainChangesNothingExactly(tree, req);
    AgainRetiresNothing(tree, req);
    NothingRetiredNothingDisturbed(once, req);
    AgainIsReady(once, req);
    AgainChangesNothingExactly(once, req);
  }

  // ---- any sequence of adoptions

  /** Successful adoptions one after the other, nothing edited in between; the first lock may list anything. */
  ghost predicate History(trees: seq<Tree>, reqs: seq<Request>) {
    && |trees| == |reqs| + 1
    && forall i :: 0 <= i < |reqs| ==> AdoptedTo(trees[i], reqs[i], trees[i + 1])
  }

  ghost predicate AdoptedTo(before: Tree, req: Request, after: Tree) {
    GoodRequest(req) && exists outcome: Outcome :: outcome.Applied? && Adopts(before, req, after, outcome)
  }

  lemma {:induction false} AdoptedIsInstalled(before: Tree, req: Request, after: Tree)
    requires AdoptedTo(before, req, after)
    ensures GoodRequest(req) && ReadyFor(before, req) && after == Installed(before, req)
  {
    var outcome: Outcome :| outcome.Applied? && Adopts(before, req, after, outcome);
    ApplyIsAllOrNothing(before, req, after, outcome);
  }

  /** A path that the initial lock named, under any name, or that one of the first `n` bundles had. */
  ghost predicate EverManaged(trees: seq<Tree>, reqs: seq<Request>, n: nat, p: Path)
    requires n <= |reqs| && 0 < |trees|
  {
    (exists k :: k in PreviousHashes(trees[0]) && k.path == p) || exists i :: 0 <= i < n && p in Payload(reqs[i])
  }

  /** What a lock of the service's own lists of a bundle that another one replaces. */
  lemma {:induction false} OwnLockLists(tree: Tree, req: Request, next: Request, p: Path)
    requires GoodRequest(req)
    ensures Listed(Installed(tree, req), next, p) <==> p in Payload(req) && p !in Payload(next)
  {
    InstalledLock(tree, req);
    var t := Installed(tree, req);
    if p in Payload(req) && p !in Payload(next) {
      assert Plain(p) in Retired(t, next);
    }
  }

  /** AGENTS.md is to be updated: if it is removed first, a fresh one takes its place. */
  ghost predicate Recreated(tree: Tree, req: Request, p: Path) {
    GoodRequest(req) && p == Agents && Outdated(tree, req, p)
  }

  /** The first adoption: a path of the old lock is gone afterwards, unless it is created anew. */
  lemma {:induction false} FirstRetires(tree: Tree, req: Request, p: Path)
    requires GoodRequest(req) && ReadyFor(tree, req) && p !in Payload(req)
    requires exists k :: k in PreviousHashes(tree) && k.path == p
    ensures p !in Installed(tree, req) <==> p.File? || (Claimed(tree, req, p) && !Recreated(tree, req, p))
  {
  }

  /** A later one: only generated files are ever retired. */
  lemma {:induction false} LaterRetires(tree: Tree, req: Request, p: Path)
    requires GoodRequest(req) && ReadyFor(tree, req) && p !in Payload(req) && p != LockFile
    requires p.File? ==> p !in tree || Listed(tree, req, p)
    requires !p.File? ==> !Listed(tree, req, p)
    ensures p !in Installed(tree, req) <==> p.File?
  {
  }

  /**
   A path that was ever managed and is not in the last bundle is gone, exactly but for the files that the
   service creates anew: the governance files, and AGENTS.md, which only a first old lock can have named.
   */
  lemma {:induction false} RetiredStayGone(trees: seq<Tree>, reqs: seq<Request>, n: nat, p: Path)
    requires History(trees, reqs) && 0 < n <= |reqs|
    requires EverManaged(trees, reqs, n, p) && p !in Payload(reqs[n - 1])
    ensures p !in trees[n] <==>
      p.File? || (n == 1 && Claimed(trees[0], reqs[0], p) && !Recreated(trees[0], reqs[0], p))
  {
    var tree, req := trees[n - 1], reqs[n - 1];
    AdoptedIsInstalled(tree, req, trees[n]);
    if n == 1 {
      FirstRetires(tree, req, p);
    } else {
      AdoptedIsInstalled(trees[n - 2], reqs[n - 2], tree);
      OwnLockLists(trees[n - 2], reqs[n - 2], req, p);
      NeverTheLock(trees, reqs, n, p);
      if p.File? && p !in Payload(reqs[n - 2]) {
        assert EverManaged(trees, reqs, n - 1, p);
        RetiredStayGone(trees, reqs, n - 1, p);
      }
      LaterRetires(tree, req, p);
    }
  }

  lemma {:induction false} NeverTheLock(trees: seq<Tree>, reqs: seq<Request>, n: nat, p: Path)
    requires History(trees, reqs) && 0 < n <= |reqs| && EverManaged(trees, reqs, n, p)
    ensures p != LockFile
  {
    AdoptedIsInstalled(trees[0], reqs[0], trees[1]);
    LockIsNeverListed(trees[0], reqs[0]);
    if i :| 0 <= i < n && p in Payload(reqs[i]) {
      AdoptedIsInstalled(trees[i], reqs[i], trees[i + 1]);
    } else {
      var k :| k in PreviousHashes(trees[0]) && k.path == p;
      assert k in Retired(trees[0], reqs[0]);
    }
  }

  /** A tree that the service left claims nothing but generated files, so the next adoption is undisturbed. */
  lemma {:induction false} OwnLockClaimsLittle(tree: Tree, req: Request, next: Request)
    requires GoodRequest(req) && GoodRequest(next)
    ensures var t := Installed(tree, req);
            !Undermined(t, next) && !Disturbed(t, next) && !TwiceOwned(t, next)
            && forall p :: p in Payload(next) ==> !Claimed(t, next, p)
  {
  }

  /**
   After any number of successful adoptions of any bundles the lock lists exactly the last bundle's
   digests. The managed files on disk are exactly the last bundle, and verification reports ready, always
   after the second adoption, and after the first exactly when the old lock claimed none of them.
   */
  lemma {:induction false} LastBundleWins(trees: seq<Tree>, reqs: seq<Request>)
    requires History(trees, reqs) && 0 < |reqs|
    ensures var last, tree := reqs[|reqs| - 1], trees[|reqs|];
            && LoadLock(tree).Locked? && LoadLock(tree).lock.managed == NamesOf(HashesOf(last))
            && ((forall p :: p in Payload(last) ==> Lookup(tree, p) == Some(Payload(last)[p]))
                <==> |reqs| > 1 || forall p :: p in Payload(last) ==> !Claimed(trees[0], last, p))
            && (InOrder(tree, last.mk, true) <==> |reqs| > 1 || !Undermined(trees[0], last))
  {
    var n := |reqs|;
    var last, before := reqs[n - 1], trees[n - 1];
    AdoptedIsInstalled(before, last, trees[n]);
    InstalledLock(before, last);
    InstalledInOrderExactly(before, last);
    forall p | p in Payload(last)
      ensures Lookup(trees[n], p) == if Claimed(before, last, p) then None else Some(Payload(last)[p])
    {
      InstalledFile(before, last, p);
    }
    if n > 1 {
      AdoptedIsInstalled(trees[n - 2], reqs[n - 2], before);
      OwnLockClaimsLittle(trees[n - 2], reqs[n - 2], last);
    }
  }
}

/**
 The resumable bootstrap of a greenfield project (core/adoption/bootstrap.py): five steps, each of which
 reuses what is already there, and a state file that records the steps done.
 */
module Bootstrap {
  import opened Prelude

  datatype Step = Preflight | Remote | GitRemote | Push | Registry

  const STEPS: seq<Step> := [Preflight, Remote, GitRemote, Push, Registry]

  type Commit = nat

  datatype Commands = Commands(setup: seq<string>, validate: seq<string>, build: seq<string>, smoke: seq<string>)

  datatype Entry = Entry(
    name: string, path: string, prefix: string, url: string, branch: string, commands: Commands,
      environment: Option<string>)

  datatype Provider =
    | GitHub(slug: string, authorized: bool, ownerAllowed: bool, reported: Option<string>)
    | LocalBare(path: string, credentials: bool)

  /** The arguments of a run and what it reads of the project, the same in every run. */
  datatype Args = Args(
    id: string,
    provider: Provider,
    name: Option<string>,
    path: string,
    prefix: string,
    branch: string,
    validate: seq<string>,              // validate_commands, empty when not given
    explicit: Option<Commands>,         // project_commands
    detected: seq<string>,
    requireTests: bool,
    hasTests: bool,
    environment: Option<string>,
    ancestors: Commit -> set<Commit>)   // of a commit, itself included
  {
    ghost predicate Valid() {
      branch != "" && forall c :: c in ancestors(c)
    }
  }

  /** `usable`: false for a directory that was made and never became a repository. */
  datatype Repo = Repo(isPrivate: bool, usable: bool)

  /** Everything outside the process that a run may change, apart from the state file. */
  datatype Durable = Durable(
    repo: Option<Repo>,
    refs: map<string, Commit>,          // the branches of the remote repository
    origin: Option<string>,
    branch: string,                     // checked out locally; empty when none is
    head: Option<Commit>,               // None: nothing committed yet
    others: map<string, Commit>,        // the local branches that are not checked out
    registry: map<string, Entry>)

  datatype Code =
    | MissingTests | MissingCommands | MissingCredentials | NotAuthorized | OwnerNotAllowed | NotPrivate
    | OriginConflict | GitFailed | RegistryConflict

  // ---- the arguments

  function EffectiveCommands(a: Args): seq<string> {
    if a.validate != [] then a.validate
    else if a.explicit.Some? && a.explicit.value.validate != [] then a.explicit.value.validate
    else a.detected
  }

  /** Explicit commands win; the validate list fills what they leave out. */
  function MergedCommands(explicit: Option<Commands>, validate: seq<string>): Commands {
    if explicit.None? then Commands([], validate, [], [])
    else if explicit.value.validate == [] then explicit.value.(validate := validate)
    else explicit.value
  }

  function WithGit(url: string): string {
    if |url| >= 4 && url[|url| - 4..] == ".git" then url else url + ".git"
  }

  /** The address of a repository that is already there. */
  function ViewUrl(p: Provider): string {
    match p
    case GitHub(slug, _, _, reported) =>
      WithGit(if reported.Some? && reported.value != "" then reported.value else "https://github.com/" + slug)
    case LocalBare(path, _) => path
  }

  /** The address of a repository that was created just now. */
  function CreatedUrl(p: Provider): string {
    match p
    case GitHub(slug, _, _, _) => "https://github.com/" + slug + ".git"
    case LocalBare(path, _) => path
  }

  function Refusal(a: Args): Option<Code> {
    if a.requireTests && !a.hasTests then Some(MissingTests)
    else if EffectiveCommands(a) == [] then Some(MissingCommands)
    else match a.provider
         case GitHub(_, authorized, _, _) => if authorized then None else Some(NotAuthorized)
         case LocalBare(_, credentials) => if credentials then None else Some(MissingCredentials)
  }

  function RemoteRefusal(a: Args, d: Durable): Option<Code> {
    match a.provider
    case LocalBare(_, _) => None
    case GitHub(_, _, ownerAllowed, _) =>
      if !ownerAllowed then Some(OwnerNotAllowed)
      else if d.repo.Some? && !d.repo.value.isPrivate then Some(NotPrivate)
      else None
  }

  function WantedEntry(a: Args, url: string): Entry {
    Entry(if a.name.Some? then a.name.value else a.id, a.path, a.prefix, url, a.branch,
          MergedCommands(a.explicit, EffectiveCommands(a)), a.environment)
  }

  // ---- what an uninterrupted run comes to, said in one piece

  function AddressFor(a: Args, d: Durable): string {
    if d.repo.Some? then ViewUrl(a.provider) else CreatedUrl(a.provider)
  }

  predicate OriginConflicts(url: string, d: Durable) {
    d.origin.Some? && d.origin.value != url
  }

  /** Another branch than the default one is to be renamed, and there is none. */
  predicate CannotRename(a: Args, d: Durable) {
    d.branch == "" && a.branch != ""
  }

  /**
   `git branch -M`: the branch that is checked out takes the default name, over a branch that has it. A
   branch without a commit has nothing to move, so then the existing one is what is checked out.
   */
  function Renamed(a: Args, d: Durable): Durable {
    if d.branch == a.branch then d
    else
      var head := if d.head.None? && a.branch in d.others then Some(d.others[a.branch]) else d.head;
      d.(branch := a.branch, head := head, others := d.others - {a.branch})
  }

  predicate PushAccepted(a: Args, d: Durable) {
    && d.head.Some?
    && (d.repo.Some? && d.repo.value.usable)
    && (a.branch in d.refs ==> d.refs[a.branch] in a.ancestors(d.head.value))
  }

  predicate EntryConflicts(a: Args, url: string, d: Durable) {
    a.id in d.registry && (d.registry[a.id].url != url || d.registry[a.id].path != a.path)
  }

  /** The entry in the end: an empty validate list brings all four lists of the run, an absent environment its own. */
  function Filled(a: Args, url: string, existing: Entry): Entry {
    var withCommands := if existing.commands.validate == [] then existing.(commands := WantedEntry(a, url).commands)
      else existing;
    if withCommands.environment.None? then withCommands.(environment := a.environment) else withCommands
  }

  function FinalEntry(a: Args, url: string, d: Durable): Entry {
    if a.id in d.registry then Filled(a, url, d.registry[a.id]) else WantedEntry(a, url)
  }

  /** Why an uninterrupted run on `d` is blocked, if it is, and what it leaves behind. */
  function Goal(a: Args, d: Durable): (Option<Code>, Durable) {
    if Refusal(a).Some? then (Refusal(a), d)
    else if RemoteRefusal(a, d).Some? then (RemoteRefusal(a, d), d)
    else AfterRemote(a, AddressFor(a, d), if d.repo.Some? then d else d.(repo := Some(Repo(true, true))))
  }

  function AfterRemote(a: Args, url: string, d: Durable): (Option<Code>, Durable) {
    if OriginConflicts(url, d) then (Some(OriginConflict), d)
    else if CannotRename(a, d) then (Some(GitFailed), d.(origin := Some(url)))
    else AfterBranch(a, url, Renamed(a, d.(origin := Some(url))))
  }

  function AfterBranch(a: Args, url: string, d: Durable): (Option<Code>, Durable) {
    if !PushAccepted(a, d) then (Some(GitFailed), d)
    else AfterPush(a, url, d.(refs := d.refs[a.branch := d.head.value]))
  }

  function AfterPush(a: Args, url: string, d: Durable): (Option<Code>, Durable) {
    if EntryConflicts(a, url, d) then (Some(RegistryConflict), d)
    else (None, d.(registry := d.registry[a.id := FinalEntry(a, url, d)]))
  }

  /** A repository made now and one found later have the same address, or neither suits the origin there is. */
  predicate UrlsAgree(a: Args, d: Durable) {
    || d.repo.Some?
    || ViewUrl(a.provider) == CreatedUrl(a.provider)
    || (d.origin.Some? && d.origin.value != ViewUrl(a.provider) && d.origin.value != CreatedUrl(a.provider))
  }

  /** A run cut off right after creating the repository changes the outcome exactly when the addresses disagree. */
  lemma {:induction false} CreationKeepsGoalExactly(a: Args, d: Durable)
    requires d.repo.None? && Refusal(a).None? && RemoteRefusal(a, d).None?
    ensures Goal(a, d.(repo := Some(Repo(true, true)))) == Goal(a, d) <==> UrlsAgree(a, d)
  {
  }

  /** GitHub's own address for a repository, or none, agrees with the one given at creation. */
  lemma {:induction false} UsualAddressAgrees(slug: string, reported: Option<string>)
    requires reported == None || reported == Some("https://github.com/" + slug)
    requires |slug| >= 4 ==> slug[|slug| - 4..] != ".git"
    requires |slug| > 0 && '/' in slug
    ensures ViewUrl(GitHub(slug, true, true, reported)) == CreatedUrl(GitHub(slug, true, true, reported))
  {
    var base := "https://github.com/" + slug;
    if |slug| >= 4 {
      assert base[|base| - 4..] == slug[|slug| - 4..];
    } else {
      var i :| 0 <= i < |slug| && slug[i] == '/';
      assert base[|base| - |slug| + i] == '/';
      assert base[|base| - 4..][4 - |slug| + i] == '/';
      assert ".git"[4 - |slug| + i] != '/';
    }
  }

  /** A directory left by an interrupted local creation is taken for a repository, and every later push fails. */
  lemma {:induction false} HalfMadeRepositoryIsStuck(a: Args, d: Durable)
    requires a.provider.LocalBare? && d.repo.None? && Goal(a, d).0.None?
    ensures Goal(a, d.(repo := Some(Repo(true, false)))).0 == Some(GitFailed)
  {
  }

  /**
   A complete run that succeeds is a fixed point, the next one finding everything and changing nothing,
   exactly when the addresses agree, as they do whenever the repository was there.
   */
  lemma {:induction false} GoalIsStableExactly(a: Args, d: Durable)
    requires a.Valid() && Goal(a, d).0.None?
    ensures Goal(a, Goal(a, d).1) == Goal(a, d) <==> UrlsAgree(a, d)
  {
    var url := AddressFor(a, d);
    var after := Goal(a, d).1;
    SuccessIsStable(a, url, if d.repo.Some? then d else d.(repo := Some(Repo(true, true))));
    if !UrlsAgree(a, d) {
      assert OriginConflicts(AddressFor(a, after), after);
    }
  }

  lemma {:induction false} SuccessIsStable(a: Args, url: string, d: Durable)
    requires a.Valid() && AfterRemote(a, url, d).0.None?
    ensures var after := AfterRemote(a, url, d).1;
            after.origin == Some(url) && after.repo == d.repo && AfterRemote(a, url, after) == (None, after)
  {
    var after := AfterRemote(a, url, d).1;
    assert after.branch == a.branch && after.head.Some? && after.origin == Some(url);
    assert after.refs[a.branch := after.head.value] == after.refs;
    assert Renamed(a, after.(origin := Some(url))) == after && PushAccepted(a, after);
    assert after.registry[a.id := after.registry[a.id]] == after.registry;
    assert AfterPush(a, url, after) == (None, after);
  }

  /** Whatever an uninterrupted run meets: an origin, other branches of the remote and other projects stay. */
  lemma {:induction false} OthersAreNeverChanged(a: Args, d: Durable, id: string, b: string)
    ensures d.origin.Some? ==> Goal(a, d).1.origin == d.origin
    ensures id in d.registry && id != a.id ==>
      id in Goal(a, d).1.registry && Goal(a, d).1.registry[id] == d.registry[id]
    ensures b in d.refs && b != a.branch ==> b in Goal(a, d).1.refs && Goal(a, d).1.refs[b] == d.refs[b]
  {
    OthersAfterRemote(a, AddressFor(a, d), if d.repo.Some? then d else d.(repo := Some(Repo(true, true))), id, b);
  }

  lemma {:induction false} OthersAfterRemote(a: Args, url: string, d: Durable, id: string, b: string)
    ensures var after := AfterRemote(a, url, d).1;
            && (d.origin.Some? ==> after.origin == d.origin)
            && (id in d.registry && id != a.id ==> id in after.registry && after.registry[id] == d.registry[id])
            && (b in d.refs && b != a.branch ==> b in after.refs && after.refs[b] == d.refs[b])
  {
  }

  /** Where a local branch points, checked out or not. */
  function LocalHead(d: Durable, b: string): Option<Commit> {
    if b == d.branch then d.head else if b in d.others then Some(d.others[b]) else None
  }

  /** The run comes as far as the branch. */
  predicate ReachesBranch(a: Args, d: Durable) {
    Refusal(a).None? && RemoteRefusal(a, d).None? && !OriginConflicts(AddressFor(a, d), d)
  }

  /** The run overwrites the default branch with the one that is checked out. */
  predicate Overwrites(a: Args, d: Durable) {
    ReachesBranch(a, d) && d.branch != "" && d.branch != a.branch && d.head.Some?
  }

  lemma {:induction false} LocalsAfterRemote(a: Args, url: string, d: Durable)
    requires a.branch != "" && d.branch !in d.others
    ensures var after := AfterRemote(a, url, d).1;
            if OriginConflicts(url, d) || d.branch == "" || d.branch == a.branch
            then after.branch == d.branch && after.others == d.others && after.head == d.head
            else after.branch == a.branch && after.others == d.others - {a.branch}
                 && after.head == if d.head.None? && a.branch in d.others then Some(d.others[a.branch]) else d.head
  {
  }

  lemma {:induction false} LocalsOfGoal(a: Args, d: Durable, b: string)
    requires a.Valid() && d.branch !in d.others && b in d.others
    ensures LocalHead(Goal(a, d).1, b) == if b == a.branch && Overwrites(a, d) then d.head else Some(d.others[b])
  {
    if Refusal(a).None? && RemoteRefusal(a, d).None? {
      LocalsAfterRemote(a, AddressFor(a, d), if d.repo.Some? then d else d.(repo := Some(Repo(true, true))));
    }
  }

  /**
   Every local branch that is not checked out keeps its commit, except exactly when the default branch
   exists, is not the one checked out, and is overwritten with another commit.
   */
  lemma {:induction false} LocalBranchIsLostExactly(a: Args, d: Durable)
    requires a.Valid() && d.branch !in d.others
    ensures (exists b :: b in d.others && LocalHead(Goal(a, d).1, b) != Some(d.others[b]))
       <==> a.branch in d.others && Overwrites(a, d) && d.head != Some(d.others[a.branch])
    ensures forall b :: b in d.others && b != a.branch ==> LocalHead(Goal(a, d).1, b) == Some(d.others[b])
  {
    forall b | b in d.others
      ensures LocalHead(Goal(a, d).1, b) == if b == a.branch && Overwrites(a, d) then d.head else Some(d.others[b])
    {
      LocalsOfGoal(a, d, b);
    }
  }

  /** For one: a project on `feature` whose default branch exists already. */
  lemma {:induction false} LostBranchExample(a: Args) returns (d: Durable)
    requires a.Valid() && Refusal(a).None? && a.branch != "feature" && a.provider.LocalBare?
    ensures Goal(a, d).0.None? && LocalHead(d, a.branch) == Some(1) && LocalHead(Goal(a, d).1, a.branch) == Some(2)
    ensures forall b :: LocalHead(Goal(a, d).1, b) != Some(1)
  {
    d := Durable(None, map[], None, "feature", Some(2), map[a.branch := 1], map[]);
    LocalsOfGoal(a, d, a.branch);
  }

  // ---- the project's own entry

  /** The run comes as far as the registry: the branch has its name and the push lands. */
  predicate ReachesRegistry(a: Args, d: Durable) {
    && ReachesBranch(a, d) && !CannotRename(a, d)
    && (d.repo.Some? ==> d.repo.value.usable)
    && var head := Renamed(a, d).head;
       head.Some? && (a.branch in d.refs ==> d.refs[a.branch] in a.ancestors(head.value))
  }

  /** The run writes over the entry that is there. */
  predicate WritesEntry(a: Args, d: Durable) {
    ReachesRegistry(a, d) && !EntryConflicts(a, AddressFor(a, d), d)
  }

  lemma {:induction false} SucceedsExactly(a: Args, d: Durable)
    ensures Goal(a, d).0.None? <==> WritesEntry(a, d)
  {
  }

  /**
   A conflicting entry blocks and stays. Otherwise an absent environment is filled, and the four lists of
   commands stay together if there is a validate list, and are replaced together if there is none.
   */
  lemma {:induction false} OwnEntryExactly(a: Args, d: Durable)
    requires a.id in d.registry
    ensures var before := d.registry[a.id];
            && a.id in Goal(a, d).1.registry
            && var after := Goal(a, d).1.registry[a.id];
               && after == before.(commands := after.commands, environment := after.environment)
               && after.commands == (if WritesEntry(a, d) && before.commands.validate == []
                                     then MergedCommands(a.explicit, EffectiveCommands(a)) else before.commands)
               && after.environment == (if WritesEntry(a, d) && before.environment.None?
                                        then a.environment else before.environment)
    ensures EntryConflicts(a, AddressFor(a, d), d) ==> Goal(a, d).0.Some? && !WritesEntry(a, d)
  {
    SucceedsExactly(a, d);
    EntryAfterRemote(a, AddressFor(a, d), if d.repo.Some? then d else d.(repo := Some(Repo(true, true))));
  }

  lemma {:induction false} EntryAfterRemote(a: Args, url: string, d: Durable)
    requires a.id in d.registry
    ensures a.id in AfterRemote(a, url, d).1.registry
    ensures AfterRemote(a, url, d).1.registry[a.id] ==
            if AfterRemote(a, url, d).0.None? then Filled(a, url, d.registry[a.id]) else d.registry[a.id]
  {
  }

  predicate ListIsLost(before: seq<string>, after: seq<string>) {
    before != [] && after != before
  }

  /** One of the lists that an entry had is another one, or gone. */
  predicate LosesList(before: Commands, after: Commands) {
    || ListIsLost(before.setup, after.setup)
    || ListIsLost(before.validate, after.validate)
    || ListIsLost(before.build, after.build)
    || ListIsLost(before.smoke, after.smoke)
  }

  /**
   A list of commands that the entry had is lost exactly when the run comes to write the entry, the entry has
   no validate list, and its setup, build or smoke commands are not the ones of this run.
   */
  lemma {:induction false} EntryListIsLostExactly(a: Args, d: Durable)
    requires a.id in d.registry
    ensures a.id in Goal(a, d).1.registry
    ensures var before := d.registry[a.id].commands;
            LosesList(before, Goal(a, d).1.registry[a.id].commands) <==>
              && WritesEntry(a, d) && before.validate == []
              && LosesList(before, MergedCommands(a.explicit, EffectiveCommands(a)))
  {
    OwnEntryExactly(a, d);
  }

  /** For one: an entry with setup, build and smoke commands, and a run that was given none. */
  lemma {:induction false} LostListExample(a: Args) returns (d: Durable)
    requires a.Valid() && Refusal(a).None? && a.provider.LocalBare? && a.explicit.None?
    ensures Goal(a, d).0.None? && a.id in d.registry && a.id in Goal(a, d).1.registry
    ensures d.registry[a.id].commands == Commands(["npm ci"], [], ["npm run build"], ["curl /health"])
    ensures Goal(a, d).1.registry[a.id].commands == Commands([], EffectiveCommands(a), [], [])
  {
    var entry := Entry("", a.path, "", CreatedUrl(a.provider), "",
                       Commands(["npm ci"], [], ["npm run build"], ["curl /health"]), None);
    d := Durable(None, map[], None, a.branch, Some(1), map[], map[a.id := entry]);
    OwnEntryExactly(a, d);
    SucceedsExactly(a, d);
  }
}

/**
 Running the bootstrap: every durable effect can be the last one of a run, because the process dies there
 or because a command fails there.
 */
module BootstrapRun {
  import opened Prelude
  import opened Bootstrap

  datatype Fault = Go | Fails | Dies

  /** A block of the project itself, or a command that failed. */
  datatype Failure = Refused(code: Code) | CommandFailed

  datatype State = State(
    id: string, completed: seq<Step>, remoteUrl: Option<string>, remoteCreated: bool, lastError: Option<Failure>)

  datatype StateFile = Absent | Unreadable | Saved(state: State)

  datatype Result = Result(url: string, branch: string, validate: seq<string>, reused: seq<Step>)

  datatype Outcome = Done(result: Result) | Blocked(failure: Failure) | Died

  /** A state file of another project, or an unreadable one, counts as none. */
  function LoadState(file: StateFile, id: string): State {
    if file.Saved? && file.state.id == id then file.state else State(id, [], None, false, None)
  }

  // ---- what is recorded

  /** How a run records a step. */
  function Marked(completed: seq<Step>, step: Step): seq<Step> {
    if step in completed then completed else completed + [step]
  }

  /** The list once a run that loaded `loaded` has recorded its first `n` steps. */
  function MarkedUpTo(loaded: seq<Step>, n: nat): seq<Step>
    requires n <= |STEPS|
  {
    if n == 0 then loaded else Marked(MarkedUpTo(loaded, n - 1), STEPS[n - 1])
  }

  /** A list that some run which loaded `loaded` has come by. */
  ghost predicate OnTrack(loaded: seq<Step>, completed: seq<Step>) {
    exists m :: 0 <= m <= |STEPS| && completed == MarkedUpTo(loaded, m)
  }

  lemma {:induction false} MarkedHasSteps(loaded: seq<Step>, n: nat)
    requires n <= |STEPS|
    ensures loaded <= MarkedUpTo(loaded, n)
    ensures forall i :: 0 <= i < n ==> STEPS[i] in MarkedUpTo(loaded, n)
  {
    if n > 0 {
      MarkedHasSteps(loaded, n - 1);
    }
  }

  /** What is recorded is a prefix of the five steps exactly when what was loaded is one. */
  lemma {:induction false} PrefixIsKeptExactly(loaded: seq<Step>, n: nat)
    requires n <= |STEPS|
    ensures MarkedUpTo(loaded, n) <= STEPS <==> loaded <= STEPS
    ensures loaded <= STEPS ==> MarkedUpTo(loaded, n) == STEPS[..if |loaded| > n then |loaded| else n]
  {
    MarkedHasSteps(loaded, n);
    if n > 0 {
      PrefixIsKeptExactly(loaded, n - 1);
    }
  }

  lemma {:induction false} TrackIsKept(loaded: seq<Step>, completed: seq<Step>)
    requires OnTrack(loaded, completed)
    ensures loaded <= completed && (completed <= STEPS <==> loaded <= STEPS)
  {
    var m :| 0 <= m <= |STEPS| && completed == MarkedUpTo(loaded, m);
    PrefixIsKeptExactly(loaded, m);
    MarkedHasSteps(loaded, m);
  }

  lemma {:induction false} AllAreMarked(loaded: seq<Step>, step: Step)
    ensures step in MarkedUpTo(loaded, |STEPS|)
  {
    MarkedHasSteps(loaded, |STEPS|);
    var i := match step case Preflight => 0 case Remote => 1 case GitRemote => 2 case Push => 3 case Registry => 4;
    assert STEPS[i] == step;
  }

  /** What the recorded steps claim is there. */
  ghost predicate Honest(a: Args, completed: seq<Step>, d: Durable) {
    && completed <= STEPS
    && (|completed| >= 2 ==> d.repo.Some?)
    && (|completed| >= 3 ==> d.origin.Some? && d.branch == a.branch)
    && (|completed| >= 4 ==> d.head.Some? && a.branch in d.refs && d.refs[a.branch] == d.head.value)
    && (|completed| >= 5 ==> a.id in d.registry)
  }

  lemma {:induction false} HonestMarks(a: Args, loaded: seq<Step>, n: nat, d: Durable)
    requires n < |STEPS| && Honest(a, MarkedUpTo(loaded, n), d) && Honest(a, STEPS[..n + 1], d)
    ensures Honest(a, MarkedUpTo(loaded, n + 1), d)
  {
    MarkedHasSteps(loaded, n);
    PrefixIsKeptExactly(loaded, n);
    PrefixIsKeptExactly(loaded, n + 1);
    assert loaded <= STEPS;
  }

  // ---- what no run changes

  /**
   The project's own entry: its commands stay, or are those of the run if it had no validate list; and so with
   an environment that it did not have.
   */
  predicate KeepsEntry(a: Args, before: Entry, after: Entry) {
    && after == before.(commands := after.commands, environment := after.environment)
    && (before.path != a.path ==> after == before)
    && (|| after.commands == before.commands
        || (before.commands.validate == [] && after.commands == MergedCommands(a.explicit, EffectiveCommands(a))))
    && (after.environment == before.environment || (before.environment.None? && after.environment == a.environment))
  }

  /**
   Local branches: the commit that is checked out stays, under its name or the default one, and so does every
   other branch, but for one that has the default name when it is taken.
   */
  ghost predicate KeepsLocals(a: Args, before: Durable, after: Durable) {
    && (after.branch == before.branch || after.branch == a.branch)
    && (after.head == before.head || (before.head.None? && after.branch == a.branch))
    && (before.branch !in before.others ==> after.branch !in after.others)
    && (before.branch !in before.others ==> forall b :: b in before.others ==>
          LocalHead(after, b) == Some(before.others[b]) || (b == a.branch != before.branch && before.head.Some?))
  }

  /**
   What every run keeps, complete or cut off: an origin, other branches of the remote and other projects stay,
   and the local branches and the project's own entry change only as said above.
   */
  ghost predicate Keeps(a: Args, before: Durable, after: Durable) {
    && KeepsLocals(a, before, after)
    && (before.origin.Some? ==> after.origin == before.origin)
    && (forall b :: b in before.refs && b != a.branch ==> b in after.refs && after.refs[b] == before.refs[b])
    && (forall id :: id in before.registry && id != a.id ==>
       id in after.registry && after.registry[id] == before.registry[id])
    && (a.id in before.registry ==>
       a.id in after.registry && KeepsEntry(a, before.registry[a.id], after.registry[a.id]))
  }

  lemma {:induction false} KeepsOn(a: Args, x: Durable, y: Durable, z: Durable)
    requires Keeps(a, x, y) && Keeps(a, y, z)
    ensures Keeps(a, x, z)
  {
  }

  /** However many runs end wherever, a list is lost exactly when the entry was rewritten and had no validate list. */
  lemma {:induction false} CutOffLosesListExactly(a: Args, before: Durable, after: Durable)
    requires Keeps(a, before, after) && a.id in before.registry
    ensures var was, now := before.registry[a.id].commands, after.registry[a.id].commands;
            LosesList(was, now) <==>
              now != was && was.validate == [] && LosesList(was, MergedCommands(a.explicit, EffectiveCommands(a)))
  {
  }

  ghost predicate Faulty(f: nat -> Fault) {
    exists t :: !f(t).Go?
  }

  function WithRepo(d: Durable, usable: bool): Durable {
    if d.repo.Some? then d else d.(repo := Some(Repo(true, usable)))
  }

  /** The run was cut off inside the creation of a local repository. */
  predicate HalfMade(a: Args, before: Durable, after: Durable) {
    a.provider.LocalBare? && before.repo.None? && after == before.(repo := Some(Repo(true, false)))
  }

  /** The commands a run reports: the registered ones of an entry that was there, else its own. */
  function ReportedCommands(a: Args, d: Durable): seq<string> {
    if a.id in d.registry && d.registry[a.id].commands.validate != [] then d.registry[a.id].commands.validate
      else EffectiveCommands(a)
  }

  /** What the steps after the repository find in place. */
  function Found(a: Args, d: Durable): seq<Step> {
    (if d.origin.Some? then [GitRemote] else []) + (if a.id in d.registry then [Registry] else [])
  }

  /** What a run that succeeds reports, from what it found. */
  function Report(a: Args, d: Durable, reused: seq<Step>): Result {
    Result(
      AddressFor(a, d), a.branch, ReportedCommands(a, d),
      reused + (if d.repo.Some? then [Remote] else []) + Found(a, d))
  }

  /** A run cut off at the repository leads where it led before, unless the repository is half made. */
  lemma {:induction false} CutAtCreation(a: Args, before: Durable, after: Durable)
    requires Refusal(a).None?
    requires
      || after == before
      || (RemoteRefusal(a, before).None? && before.repo.None? && after == WithRepo(before, true))
      || HalfMade(a, before, after)
    ensures UrlsAgree(a, before) && !HalfMade(a, before, after) ==>
      Goal(a, after) == Goal(a, before) && UrlsAgree(a, after)
  {
  }

  /** And so does one cut off later. */
  lemma {:induction false} CutShort(a: Args, before: Durable, url: string, d1: Durable, after: Durable)
    requires Refusal(a).None? && RemoteRefusal(a, before).None?
    requires url == AddressFor(a, before) && d1 == WithRepo(before, true)
    requires AfterRemote(a, url, after) == AfterRemote(a, url, d1) && after.repo == d1.repo
    requires OriginConflicts(url, d1) ==> after == d1
    ensures Goal(a, before) == AfterRemote(a, url, after)
    ensures UrlsAgree(a, before) ==> Goal(a, after) == Goal(a, before) && UrlsAgree(a, after)
  {
  }

  /** Everything but the registry is as the run wants it. */
  ghost predicate InPlace(a: Args, url: string, d: Durable) {
    && a.Valid() && d.origin == Some(url) && d.branch == a.branch && PushAccepted(a, d)
    && a.branch in d.refs && d.refs[a.branch] == d.head.value
  }

  lemma {:induction false} OnlyTheRegistryIsLeft(a: Args, url: string, d: Durable)
    requires InPlace(a, url, d)
    ensures AfterRemote(a, url, d) == AfterPush(a, url, d)
  {
    assert d.refs[a.branch := d.head.value] == d.refs;
    assert d.(origin := Some(url), refs := d.refs) == d;
  }

  /** Writing an entry on the way to the final one changes nothing about where the run leads. */
  lemma {:induction false} Refill(a: Args, url: string, d: Durable, entry: Entry)
    requires InPlace(a, url, d) && !EntryConflicts(a, url, d)
    requires entry.url == url && entry.path == a.path && Filled(a, url, entry) == FinalEntry(a, url, d)
    ensures AfterRemote(a, url, d.(registry := d.registry[a.id := entry])) == AfterRemote(a, url, d)
  {
    var d2 := d.(registry := d.registry[a.id := entry]);
    OnlyTheRegistryIsLeft(a, url, d);
    OnlyTheRegistryIsLeft(a, url, d2);
    assert d.registry[a.id := entry][a.id := FinalEntry(a, url, d)] == d.registry[a.id := FinalEntry(a, url, d)];
  }

  lemma {:induction false} Completed(a: Args, url: string, d: Durable)
    requires InPlace(a, url, d) && a.id in d.registry && !EntryConflicts(a, url, d)
    requires Filled(a, url, d.registry[a.id]) == d.registry[a.id]
    ensures AfterRemote(a, url, d) == (None, d)
  {
    OnlyTheRegistryIsLeft(a, url, d);
    assert d.registry[a.id := d.registry[a.id]] == d.registry;
  }

  lemma {:induction false} OriginLeadsOn(a: Args, url: string, d: Durable)
    requires !OriginConflicts(url, d)
    ensures var added := d.(origin := Some(url));
            AfterRemote(a, url, added) == AfterRemote(a, url, d) && Keeps(a, d, added)
  {
  }

  lemma {:induction false} RenameLeadsOn(a: Args, url: string, d: Durable)
    requires a.Valid() && d.origin == Some(url) && !CannotRename(a, d)
    ensures AfterRemote(a, url, Renamed(a, d)) == AfterRemote(a, url, d) && Keeps(a, d, Renamed(a, d))
  {
  }

  /** Why the origin or the branch stops a run. */
  function GitRefusal(a: Args, url: string, d: Durable): Option<Code> {
    if OriginConflicts(url, d) then Some(OriginConflict) else if CannotRename(a, d) then Some(GitFailed) else None
  }

  predicate IsRefusal(outcome: Outcome) {
    outcome.Blocked? && outcome.failure.Refused?
  }

  lemma {:induction false} PushTwice(a: Args, url: string, d: Durable)
    requires a.Valid() && PushAccepted(a, d) && d.origin == Some(url) && d.branch == a.branch
    ensures var d3 := d.(refs := d.refs[a.branch := d.head.value]);
            AfterRemote(a, url, d3) == AfterRemote(a, url, d) && Keeps(a, d, d3)
  {
    var refs := d.refs[a.branch := d.head.value];
    var d3 := d.(refs := refs);
    assert refs[a.branch := d.head.value] == refs;
    assert d.(origin := Some(url)) == d && d3.(origin := Some(url)) == d3 && d3.(refs := refs) == d3;
  }

  /** A stop is the block the project calls for, or a point where the schedule says so. */
  ghost predicate Stops(outcome: Outcome, refusal: Option<Code>, f: nat -> Fault, from: nat, to: nat) {
    match outcome
    case Done(_) => false
    case Blocked(Refused(code)) => refusal == Some(code)
    case _ => exists t :: from <= t < to && !f(t).Go?
  }

  /**
   The first run reports the commands it registered unless it was given two different lists; a later run
   reports the registered ones.
   */
  lemma {:induction false} ReportsWhatItRegistersExactly(a: Args, d: Durable)
    requires Goal(a, d).0.None? && a.id !in d.registry
    ensures ReportedCommands(a, d) == Goal(a, d).1.registry[a.id].commands.validate
       <==> || a.validate == []
            || a.explicit.None? || a.explicit.value.validate == [] || a.explicit.value.validate == a.validate
  {
  }

  class Machine {
    const a: Args
    var d: Durable
    var file: StateFile
    var state: State
    var tick: nat
    var reused: seq<Step>
    ghost var loaded: seq<Step>  // what this run found recorded
    ghost var honest: bool       // and whether it was true
    ghost var marks: nat         // the steps it has recorded

    constructor (a: Args, d: Durable, file: StateFile)
      ensures this.a == a && this.d == d && this.file == file
    {
      this.a, this.d, this.file := a, d, file;
      this.state, this.tick, this.reused := LoadState(file, a.id), 0, [];
      this.loaded, this.honest, this.marks := [], false, 0;
    }

    /** The list that a run would load now. */
    function OnFile(): seq<Step>
      reads this
    {
      LoadState(file, a.id).completed
    }

    /**
     This run has recorded its first `marks` steps, the file perhaps fewer of them; and if what was loaded
     was true, so is what is recorded.
     */
    ghost predicate Recording()
      reads this
    {
      && a.Valid() && marks <= |STEPS| && state.id == a.id
      && state.completed == MarkedUpTo(loaded, marks) && OnTrack(loaded, OnFile())
      && (honest ==> Honest(a, state.completed, d) && Honest(a, OnFile(), d))
    }

    ghost predicate Recorded(n: nat)
      reads this
    {
      Recording() && marks == n
    }

    /** The next point where the run may end. */
    method Point(f: nat -> Fault) returns (fault: Fault)
      modifies `tick
      ensures fault == f(old(tick)) && tick == old(tick) + 1
    {
      fault := f(tick);
      tick := tick + 1;
    }

    /** Replaces the state file; false when the process dies before that. */
    method Save(f: nat -> Fault) returns (ok: bool)
      requires Recording()
      modifies `file, `tick
      ensures Recording() && tick == old(tick) + 1
      ensures if ok then file == Saved(state) else file == old(file) && !f(old(tick)).Go?
    {
      var fault := Point(f);
      ok := fault.Go?;
      if ok {
        assert OnTrack(loaded, state.completed);
        file := Saved(state);
      }
    }

    /** Records a step; false when the process dies before the state file is replaced. */
    method Mark(step: Step, f: nat -> Fault, n: nat) returns (ok: bool)
      requires n < |STEPS| && STEPS[n] == step && Recorded(n)
      requires honest ==> Honest(a, STEPS[..n + 1], d)
      modifies `state, `file, `tick, `marks
      ensures Recorded(n + 1) && (ok ==> file == Saved(state) && state.lastError.None?)
      ensures !ok ==> file == old(file) && !f(old(tick)).Go?
      ensures state.remoteUrl == old(state.remoteUrl)
      ensures tick == old(tick) + 1
    {
      NextMark(n);
      if step !in state.completed {
        state := state.(completed := state.completed + [step]);
      }
      marks := n + 1;
      state := state.(lastError := None);
      ok := Save(f);
    }

    lemma {:induction false} NextMark(n: nat)
      requires n < |STEPS| && (honest ==> Honest(a, MarkedUpTo(loaded, n), d) && Honest(a, STEPS[..n + 1], d))
      ensures MarkedUpTo(loaded, n + 1) == Marked(MarkedUpTo(loaded, n), STEPS[n])
        && OnTrack(loaded, MarkedUpTo(loaded, n + 1))
      ensures honest ==> Honest(a, MarkedUpTo(loaded, n + 1), d)
    {
      if honest {
        HonestMarks(a, loaded, n, d);
      }
    }

    /** Credentials and commands. */
    method PreflightStep(f: nat -> Fault) returns (stop: Option<Outcome>)
      requires Recorded(0)
      modifies `state, `file, `tick, `marks
      ensures Recording()
      ensures stop.None? ==> Recorded(1) && Refusal(a).None?
      ensures stop.Some? ==> Stops(stop.value, Refusal(a), f, old(tick), tick)
    {
      if Refusal(a).Some? {
        return Some(Blocked(Refused(Refusal(a).value)));
      }
      var fault := Point(f);
      if !fault.Go? {
        return Some(if fault.Fails? then Blocked(CommandFailed) else Died);
      }
      var ok := Mark(Preflight, f, 0);
      return if ok then None else Some(Died);
    }

    /** Creates the repository; a local one is a directory before it is a repository. */
    method CreateRepository(f: nat -> Fault) returns (fault: Fault)
      requires Recorded(1) && d.repo.None?
      modifies `d, `state, `tick
      ensures Recorded(1) && state.remoteUrl == old(state.remoteUrl) && tick >= old(tick)
      ensures if fault.Go? then d == WithRepo(old(d), true) else HalfMade(a, old(d), d)
      ensures !fault.Go? ==> exists t :: old(tick) <= t < tick && !f(t).Go?
    {
      fault := Go;
      if a.provider.LocalBare? {
        d := WithRepo(d, false);
        fault := Point(f);
        if !fault.Go? {
          return;
        }
      }
      d := d.(repo := Some(Repo(true, true)));
      state := state.(remoteCreated := true);
    }

    /** The repository: reused when it exists, else created. */
    method RemoteStep(f: nat -> Fault) returns (stop: Option<Outcome>, url: string)
      requires Recorded(1)
      modifies `d, `state, `file, `tick, `reused, `marks
      ensures Recording()
      ensures stop.None? ==>
        && Recorded(2) && RemoteRefusal(a, old(d)).None?
        && d == WithRepo(old(d), true) && url == AddressFor(a, old(d)) && state.remoteUrl == Some(url)
        && reused == old(reused) + if old(d).repo.Some? then [Remote] else []
      ensures stop.Some? ==> Stops(stop.value, RemoteRefusal(a, old(d)), f, old(tick), tick)
      ensures stop.Some? ==>
        || d == old(d)
        || HalfMade(a, old(d), d)
        || (RemoteRefusal(a, old(d)).None? && old(d).repo.None? && d == WithRepo(old(d), true))
      ensures stop.Some? && IsRefusal(stop.value) ==> d == old(d)
    {
      url := AddressFor(a, d);
      var fault := Point(f);
      if !fault.Go? {
        return Some(if fault.Fails? then Blocked(CommandFailed) else Died), url;
      }
      if RemoteRefusal(a, d).Some? {
        return Some(Blocked(Refused(RemoteRefusal(a, d).value))), url;
      }
      if d.repo.None? {
        fault := CreateRepository(f);
        if !fault.Go? {
          return Some(if fault.Fails? then Blocked(CommandFailed) else Died), url;
        }
      } else {
        reused := reused + [Remote];
      }
      state := state.(remoteUrl := Some(url));
      var ok := Mark(Remote, f, 1);
      return if ok then None else Some(Died), url;
    }

    /** The origin, added when there is none; false when the run ends before that. */
    method AddOrigin(url: string, f: nat -> Fault) returns (fault: Fault)
      requires Recorded(2) && d.repo.Some? && !OriginConflicts(url, d)
      modifies `d, `tick, `reused
      ensures Recorded(2) && tick >= old(tick)
      ensures d == if fault.Go? then old(d).(origin := Some(url)) else old(d)
      ensures reused == old(reused) + if old(d).origin.Some? then [GitRemote] else []
      ensures !fault.Go? ==> exists t :: old(tick) <= t < tick && !f(t).Go?
    {
      fault := Go;
      if d.origin.Some? {
        reused := reused + [GitRemote];
      } else {
        fault := Point(f);
        if fault.Go? {
          d := d.(origin := Some(url));
        }
      }
    }

    /** The branch, renamed to the default one. */
    method RenameStep(url: string, f: nat -> Fault) returns (stop: Option<Outcome>)
      requires Recorded(2) && d.repo.Some? && d.origin == Some(url)
      modifies `d, `state, `file, `tick, `marks
      ensures Recording()
      ensures AfterRemote(a, url, d) == AfterRemote(a, url, old(d)) && Keeps(a, old(d), d) && d.repo == old(d).repo
      ensures stop.None? ==> Recorded(3) && !CannotRename(a, old(d)) && d == Renamed(a, old(d))
      ensures stop.Some? ==> Stops(stop.value, if CannotRename(a, old(d)) then Some(GitFailed)
        else None, f, old(tick), tick)
      ensures stop.Some? && IsRefusal(stop.value) ==> AfterRemote(a, url, old(d)) == (Some(stop.value.failure.code), d)
      ensures state.remoteUrl == old(state.remoteUrl)
    {
      var fault := Point(f);
      if !fault.Go? {
        return Some(if fault.Fails? then Blocked(CommandFailed) else Died);
      }
      if CannotRename(a, d) {
        assert d.(origin := Some(url)) == d;
        return Some(Blocked(Refused(GitFailed)));
      }
      RenameLeadsOn(a, url, d);
      d := Renamed(a, d);
      var ok := Mark(GitRemote, f, 2);
      return if ok then None else Some(Died);
    }

    /** The origin, never replaced, and the branch. */
    method GitRemoteStep(url: string, f: nat -> Fault) returns (stop: Option<Outcome>)
      requires Recorded(2) && d.repo.Some?
      modifies `d, `state, `file, `tick, `reused, `marks
      ensures Recording()
      ensures AfterRemote(a, url, d) == AfterRemote(a, url, old(d)) && Keeps(a, old(d), d) && d.repo == old(d).repo
      ensures stop.None? ==>
        && Recorded(3) && GitRefusal(a, url, old(d)).None? && d == Renamed(a, old(d).(origin := Some(url)))
        && reused == old(reused) + if old(d).origin.Some? then [GitRemote] else []
      ensures stop.Some? ==> Stops(stop.value, GitRefusal(a, url, old(d)), f, old(tick), tick)
      ensures stop.Some? && IsRefusal(stop.value) ==> AfterRemote(a, url, old(d)) == (Some(stop.value.failure.code), d)
      ensures state.remoteUrl == old(state.remoteUrl) && (OriginConflicts(url, old(d)) ==> d == old(d))
    {
      if OriginConflicts(url, d) {
        return Some(Blocked(Refused(OriginConflict)));
      }
      var fault := AddOrigin(url, f);
      if !fault.Go? {
        return Some(if fault.Fails? then Blocked(CommandFailed) else Died);
      }
      ghost var added := d;
      OriginLeadsOn(a, url, old(d));
      stop := RenameStep(url, f);
      KeepsOn(a, old(d), added, d);
    }

    /** The push; git refuses it when there is nothing to push, nowhere to push it, or other work there. */
    method PushStep(url: string, f: nat -> Fault) returns (stop: Option<Outcome>)
      requires Recorded(3) && d.repo.Some? && d.origin == Some(url) && d.branch == a.branch
      modifies `d, `state, `file, `tick, `marks
      ensures Recording()
      ensures AfterRemote(a, url, d) == AfterRemote(a, url, old(d)) && Keeps(a, old(d), d)
      ensures stop.None? ==>
        Recorded(4) && PushAccepted(a, old(d)) && d == old(d).(refs := old(d).refs[a.branch := old(d).head.value])
      ensures stop.Some? ==> Stops(stop.value, if PushAccepted(a, old(d)) then None
        else Some(GitFailed), f, old(tick), tick)
      ensures state.remoteUrl == old(state.remoteUrl) && d == old(d).(refs := d.refs)
      ensures stop.Some? && IsRefusal(stop.value) ==> d == old(d)
    {
      var fault := Point(f);
      if !fault.Go? {
        return Some(if fault.Fails? then Blocked(CommandFailed) else Died);
      }
      if !PushAccepted(a, d) {
        return Some(Blocked(Refused(GitFailed)));
      }
      PushTwice(a, url, d);
      d := d.(refs := d.refs[a.branch := d.head.value]);
      var ok := Mark(Push, f, 3);
      return if ok then None else Some(Died);
    }

    /** Writes the registry with this project's entry; false when the process ends before that. */
    method Register(url: string, entry: Entry, f: nat -> Fault) returns (ok: bool)
      requires Recorded(4) && InPlace(a, url, d) && !EntryConflicts(a, url, d)
      requires entry.url == url && entry.path == a.path && Filled(a, url, entry) == FinalEntry(a, url, d)
      modifies `d, `tick
      ensures Recorded(4) && InPlace(a, url, d) && !EntryConflicts(a, url, d)
      ensures AfterRemote(a, url, d) == AfterRemote(a, url, old(d))
      ensures d == if ok then old(d).(registry := old(d).registry[a.id := entry]) else old(d)
      ensures tick == old(tick) + 1 && (!ok ==> !f(old(tick)).Go?)
    {
      var fault := Point(f);
      ok := fault.Go?;
      if ok {
        Refill(a, url, d, entry);
        d := d.(registry := d.registry[a.id := entry]);
      }
    }

    /** Fills what the entry that is there leaves empty, in up to two writes. */
    method FillEntry(url: string, f: nat -> Fault) returns (ok: bool, commands: seq<string>)
      requires Recorded(4) && InPlace(a, url, d) && a.id in d.registry && !EntryConflicts(a, url, d)
      modifies `d, `tick
      ensures Recorded(4) && InPlace(a, url, d) && a.id in d.registry && !EntryConflicts(a, url, d)
      ensures AfterRemote(a, url, d) == AfterRemote(a, url, old(d))
      ensures ok ==> Filled(a, url, d.registry[a.id]) == d.registry[a.id]
      ensures ok ==> commands == ReportedCommands(a, old(d))
      ensures d == old(d).(registry := d.registry) && Keeps(a, old(d), d)
      ensures tick >= old(tick) && (!ok ==> exists t :: old(tick) <= t < tick && !f(t).Go?)
    {
      var existing := d.registry[a.id];
      commands, ok := EffectiveCommands(a), true;
      if existing.commands.validate != [] {
        commands := existing.commands.validate;
      } else {
        existing := existing.(commands := WantedEntry(a, url).commands);
        ok := Register(url, existing, f);
        if !ok {
          return;
        }
      }
      if existing.environment.None? && a.environment.Some? {
        existing := existing.(environment := a.environment);
        ok := Register(url, existing, f);
      }
    }

    /** The registry entry: a new one, or what is empty in the one that is there. */
    method RegistryStep(url: string, f: nat -> Fault) returns (stop: Option<Outcome>, commands: seq<string>)
      requires Recorded(4) && InPlace(a, url, d)
      modifies `d, `state, `file, `tick, `reused, `marks
      ensures Recording()
      ensures AfterRemote(a, url, d) == AfterRemote(a, url, old(d))
      ensures stop.None? ==>
        && Recorded(5) && file == Saved(state) && state.lastError.None? && state.remoteUrl == old(state.remoteUrl)
        && AfterRemote(a, url, old(d)) == (None, d)
        && commands == ReportedCommands(a, old(d))
        && reused == old(reused) + if a.id in old(d).registry then [Registry] else []
      ensures stop.Some? ==> Stops(stop.value, if EntryConflicts(a, url, old(d)) then Some(RegistryConflict)
        else None, f, old(tick), tick)
      ensures Keeps(a, old(d), d)
      ensures d == old(d).(registry := d.registry) && (stop.Some? && IsRefusal(stop.value) ==> d == old(d))
    {
      commands := EffectiveCommands(a);
      var ok: bool;
      if a.id in d.registry {
        if d.registry[a.id].url != url || d.registry[a.id].path != a.path {
          return Some(Blocked(Refused(RegistryConflict))), commands;
        }
        reused := reused + [Registry];
        ok, commands := FillEntry(url, f);
      } else {
        ok := Register(url, WantedEntry(a, url), f);
      }
      if !ok {
        return Some(Died), commands;
      }
      Completed(a, url, d);
      ok := Mark(Registry, f, 4);
      return if ok then None else Some(Died), commands;
    }

    /** The push and the registry. */
    method Publish(url: string, f: nat -> Fault) returns (outcome: Outcome)
      requires Recorded(3) && d.repo.Some? && d.origin == Some(url) && d.branch == a.branch
        && state.remoteUrl == Some(url)
      modifies `d, `state, `file, `tick, `reused, `marks
      ensures Recording()
      ensures AfterRemote(a, url, d) == AfterRemote(a, url, old(d)) && d.repo == old(d).repo && Keeps(a, old(d), d)
      ensures outcome.Done? ==>
        && AfterRemote(a, url, old(d)) == (None, d)
        && Recorded(|STEPS|) && file == Saved(state) && state.lastError.None? && state.remoteUrl == Some(url)
        && outcome.result == Result(url, a.branch, ReportedCommands(a, old(d)),
                                    old(reused) + if a.id in old(d).registry then [Registry] else [])
      ensures IsRefusal(outcome) ==> AfterRemote(a, url, old(d)) == (Some(outcome.failure.code), d)
      ensures !outcome.Done? && !IsRefusal(outcome) ==> Faulty(f)
    {
      var stop := PushStep(url, f);
      if stop.Some? {
        return stop.value;
      }
      ghost var d3 := d;
      var commands: seq<string>;
      stop, commands := RegistryStep(url, f);
      KeepsOn(a, old(d), d3, d);
      if stop.Some? {
        return stop.value;
      }
      return Done(Result(url, a.branch, commands, reused));
    }

    /** The steps that follow the repository. */
    method Connect(url: string, f: nat -> Fault) returns (outcome: Outcome)
      requires Recorded(2) && d.repo.Some? && state.remoteUrl == Some(url)
      modifies `d, `state, `file, `tick, `reused, `marks
      ensures Recording()
      ensures AfterRemote(a, url, d) == AfterRemote(a, url, old(d)) && d.repo == old(d).repo
      ensures OriginConflicts(url, old(d)) ==> d == old(d)
      ensures Keeps(a, old(d), d)
      ensures outcome.Done? ==>
        && AfterRemote(a, url, old(d)) == (None, d)
        && Recorded(|STEPS|) && file == Saved(state) && state.lastError.None? && state.remoteUrl == Some(url)
        && outcome.result == Result(url, a.branch, ReportedCommands(a, old(d)), old(reused) + Found(a, old(d)))
      ensures IsRefusal(outcome) ==> AfterRemote(a, url, old(d)) == (Some(outcome.failure.code), d)
      ensures !outcome.Done? && !IsRefusal(outcome) ==> Faulty(f)
    {
      var stop := GitRemoteStep(url, f);
      if stop.Some? {
        return stop.value;
      }
      ghost var d2 := d;
      outcome := Publish(url, f);
      KeepsOn(a, old(d), d2, d);
    }

    /** The five steps. */
    method Attempt(f: nat -> Fault) returns (outcome: Outcome)
      requires Recorded(0)
      modifies `d, `state, `file, `tick, `reused, `marks
      ensures Recording()
      ensures outcome.Done? ==>
        && Goal(a, old(d)) == (None, d)
        && Recorded(|STEPS|) && file == Saved(state) && state.lastError.None?
        && state.remoteUrl == Some(outcome.result.url) && outcome.result == Report(a, old(d), old(reused))
      ensures IsRefusal(outcome) ==> Goal(a, old(d)) == (Some(outcome.failure.code), d)
      ensures !outcome.Done? && !IsRefusal(outcome) ==> Faulty(f)
      ensures UrlsAgree(a, old(d)) && !HalfMade(a, old(d), d) ==> Goal(a, d) == Goal(a, old(d)) && UrlsAgree(a, d)
      ensures Keeps(a, old(d), d) && (old(d).repo.Some? ==> d.repo == old(d).repo)
    {
      var stop := PreflightStep(f);
      if stop.Some? {
        return stop.value;
      }
      ghost var before := d;
      var url: string;
      stop, url := RemoteStep(f);
      if stop.Some? {
        CutAtCreation(a, before, d);
        return stop.value;
      }
      ghost var d1 := d;
      outcome := Connect(url, f);
      CutShort(a, before, url, d1, d);
    }

    /** Loads what earlier runs recorded. */
    method Begin()
      requires a.Valid()
      modifies `state, `tick, `reused, `loaded, `honest, `marks
      ensures Recorded(0) && loaded == OnFile() && reused == [] && (honest <==> Honest(a, OnFile(), d))
    {
      state, tick, reused := LoadState(file, a.id), 0, [];
      loaded, honest, marks := OnFile(), Honest(a, OnFile(), d), 0;
      assert OnTrack(loaded, MarkedUpTo(loaded, 0));
    }

    /** Records why the run is blocked; false when the process dies before that. */
    method RecordBlock(failure: Failure, f: nat -> Fault) returns (ok: bool)
      requires Recording()
      modifies `state, `file, `tick
      ensures Recording() && (!ok ==> Faulty(f))
      ensures ok ==> file == Saved(state) && state.lastError == Some(failure)
    {
      state := state.(lastError := Some(failure));
      ok := Save(f);
    }

    /** What a run does to the recorded list: it stays the prefix that it was, or was not, and stays true if it was. */
    twostate predicate RecordsRightly()
      reads this
    {
      && (OnFile() <= STEPS <==> old(OnFile()) <= STEPS)
      && (Honest(a, old(OnFile()), old(d)) ==> Honest(a, OnFile(), d))
    }

    /** One run: what was recorded is loaded first, whatever it says, and a block is recorded last. */
    method Run(f: nat -> Fault) returns (outcome: Outcome)
      requires a.Valid()
      modifies this
      ensures RecordsRightly()
      ensures outcome.Done? ==>
        && Goal(a, old(d)) == (None, d)
        && file.Saved? && old(OnFile()) <= OnFile() && (forall step: Step :: step in OnFile())
           && file.state.lastError.None?
        && file.state.remoteUrl == Some(outcome.result.url) && outcome.result == Report(a, old(d), [])
      ensures IsRefusal(outcome) ==>
        && Goal(a, old(d)) == (Some(outcome.failure.code), d)
        && file.Saved? && file.state.lastError == Some(outcome.failure)
      ensures !outcome.Done? && !IsRefusal(outcome) ==> Faulty(f)
      ensures UrlsAgree(a, old(d)) && !HalfMade(a, old(d), d) ==> Goal(a, d) == Goal(a, old(d)) && UrlsAgree(a, d)
      ensures Keeps(a, old(d), d) && (old(d).repo.Some? ==> d.repo == old(d).repo)
    {
      Begin();
      outcome := Attempt(f);
      if outcome.Blocked? {
        var ok := RecordBlock(outcome.failure, f);
        if !ok {
          outcome := Died;
        }
      }
      TrackIsKept(loaded, OnFile());
      forall step: Step { AllAreMarked(loaded, step); }
    }

    /**
     Any number of runs that end anywhere, and then one more, whatever the state file says: if that one gets
     to its end, the repository, the origin, the branch, what was pushed and the registry are what a single
     uninterrupted run would have made of the beginning. `stuck`: some run ended inside the creation of a
     local repository.
     */
    method Resume(schedules: seq<nat -> Fault>, last: nat -> Fault) returns (outcome: Outcome, stuck: bool)
      requires a.Valid() && UrlsAgree(a, d)
      modifies this
      ensures RecordsRightly() && Keeps(a, old(d), d)
      ensures stuck ==> a.provider.LocalBare? && old(d).repo.None?
      ensures !stuck && outcome.Done? ==> Goal(a, old(d)) == (None, d) && forall step: Step :: step in OnFile()
      ensures !stuck && IsRefusal(outcome) ==> Goal(a, old(d)) == (Some(outcome.failure.code), d)
      ensures !Faulty(last) ==> outcome.Done? || IsRefusal(outcome)
    {
      stuck := false;
      for i := 0 to |schedules|
        invariant RecordsRightly() && Keeps(a, old(d), d)
        invariant stuck ==> a.provider.LocalBare? && old(d).repo.None?
        invariant !stuck ==> Goal(a, d) == Goal(a, old(d)) && UrlsAgree(a, d) && (old(d).repo.Some? ==> d.repo.Some?)
      {
        var before := d;
        outcome := Run(schedules[i]);
        KeepsOn(a, old(d), before, d);
        stuck := stuck || HalfMade(a, before, d);
      }
      ghost var before := d;
      outcome := Run(last);
      KeepsOn(a, old(d), before, d);
    }
  }
}

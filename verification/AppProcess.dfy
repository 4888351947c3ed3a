/**
 Launching applications. An application's preparation commands run in order before it starts, and what was
 prepared is undone in reverse, by a cursor into the list of the application launched last.
 */
module AppProcess {

  import opened Wrappers

  datatype Prep = Prep(doCmd: string, undoCmd: string)

  datatype App = App(id: string, prep: seq<Prep>, detached: seq<string>, cmd: string, waitAll: bool, autoDetach: bool)

  const NO_APP: App := App([], [], [], [], false, false)

  /** What the platform answers: whether a command could be started, waited for, and how it ended. */
  datatype Spawn = Started | PermissionDenied | OtherError

  datatype Outcome = Outcome(spawn: Spawn, waitFails: bool, exitCode: int)

  /** Commands handed to the platform; `launch` counts the launches. */
  datatype Ran =
    | Do(launch: nat, index: nat, cmd: string)
    | Undo(launch: nat, index: nat, cmd: string)
    | Detached(launch: nat, cmd: string)
    | Started(launch: nat, cmd: string)

  /** A launch in the log: how many entries were passed, and what ran after those. */
  datatype Launch = LaunchOf(app: App, passed: nat, rest: seq<Ran>)

  datatype State = State(app: App, appId: int, cursor: nat, placebo: bool, process: bool, log: seq<Ran>,
      launches: seq<Launch>)

  const START: State := State(NO_APP, -1, 0, false, false, [], [])

  function Digit(n: nat): string
    requires n < 10
  {
    ["0123456789"[n]]
  }

  /** std::to_string */
  function Decimal(n: int): string
    decreases if n < 0 then 1 - n else n
  {
    if n < 0 then "-" + Decimal(-n) else if n < 10 then Digit(n) else Decimal(n / 10) + Digit(n % 10)
  }

  function FindApp(apps: seq<App>, id: string): Option<App> {
    if apps == [] then None else if apps[0].id == id then Some(apps[0]) else FindApp(apps[1..], id)
  }

  // The log of one launch.

  /** Entries without a command are passed without running anything. */
  function DoOne(launch: nat, index: nat, p: Prep): seq<Ran> {
    if p.doCmd == [] then [] else [Do(launch, index, p.doCmd)]
  }

  function UndoOne(launch: nat, index: nat, p: Prep): seq<Ran> {
    if p.undoCmd == [] then [] else [Undo(launch, index, p.undoCmd)]
  }

  /** The commands of the first `n` entries, first to last. */
  function Dos(launch: nat, prep: seq<Prep>, n: nat): seq<Ran>
    requires n <= |prep|
  {
    if n == 0 then [] else Dos(launch, prep, n - 1) + DoOne(launch, n - 1, prep[n - 1])
  }

  /** The undo commands of the first `n` entries, last to first. */
  function Undos(launch: nat, prep: seq<Prep>, n: nat): seq<Ran>
    requires n <= |prep|
  {
    if n == 0 then [] else UndoOne(launch, n - 1, prep[n - 1]) + Undos(launch, prep, n - 1)
  }

  /**
   A preparation command that cannot be started stops the launch, unless it only lacks permission and there is
   no command to protect.
   */
  predicate Stops(app: App, o: Outcome) {
    (o.spawn != Spawn.Started && !(app.cmd == [] && o.spawn == PermissionDenied)) || o.waitFails || o.exitCode != 0
  }

  /** The first entry from `i` on that stops the launch, or the end. */
  function PassedTo(app: App, outcomes: nat -> Outcome, i: nat): (r: nat)
    requires i <= |app.prep|
    ensures i <= r <= |app.prep|
    decreases |app.prep| - i
  {
    if i == |app.prep| then i
    else if app.prep[i].doCmd != [] && Stops(app, outcomes(i)) then i
    else PassedTo(app, outcomes, i + 1)
  }

  function DetachedOf(launch: nat, cmds: seq<string>): seq<Ran> {
    if cmds == [] then [] else DetachedOf(launch, cmds[..|cmds| - 1]) + [Detached(launch, cmds[|cmds| - 1])]
  }

  /** What runs after the entries passed: the command that failed, or the application itself. */
  function RestOf(launch: nat, app: App, passed: nat): seq<Ran>
    requires passed <= |app.prep|
  {
    if passed < |app.prep| then [Do(launch, passed, app.prep[passed].doCmd)]
    else DetachedOf(launch, app.detached) + if app.cmd == [] then [] else [Ran.Started(launch, app.cmd)]
  }

  // The operations.

  /** terminate */
  function Terminated(s: State): State
    requires s.cursor <= |s.app.prep|
  {
    s.(appId := -1, cursor := 0, placebo := false, process := false,
       log := s.log + Undos(|s.launches|, s.app.prep, s.cursor))
  }

  /** execute up to its end; the guard that terminates again is still armed. */
  function Launched(s: State, app: App, appId: int, outcomes: nat -> Outcome): State {
    var n := |s.launches| + 1;
    var passed := PassedTo(app, outcomes, 0);
    var rest := RestOf(n, app, passed);
    s.(app := app, appId := appId, cursor := passed,
       log := s.log + Dos(n, app.prep, passed) + rest, launches := s.launches + [LaunchOf(app, passed, rest)])
  }

  /** execute */
  function Executed(s: State, apps: seq<App>, appId: int, outcomes: nat -> Outcome, main: Spawn): (State, int)
    requires s.cursor <= |s.app.prep|
  {
    var clean := Terminated(s);
    match FindApp(apps, Decimal(appId))
    case None => (clean, 404)
    case Some(app) =>
      var launched := Launched(clean, app, appId, outcomes);
      if launched.cursor < |app.prep| then (Terminated(launched), -1)
      else if app.cmd == [] then (launched.(placebo := true), 0)
      else if main != Spawn.Started then (Terminated(launched), -1)
      else (launched.(process := true), 0)
  }

  /** What running() finds out about the processes. */
  datatype Probe = Probe(groupRunning: bool, processRunning: bool, exitCode: int, within5s: bool)

  /** running */
  function Probed(s: State, p: Probe): (State, int)
    requires s.cursor <= |s.app.prep|
  {
    if s.placebo then (s, s.appId)
    else if s.app.waitAll && p.groupRunning then (s, s.appId)
    else if p.processRunning then (s, s.appId)
    else if s.app.autoDetach && p.exitCode == 0 && p.within5s then (s.(placebo := true), s.appId)
    else if s.process then (Terminated(s), 0)
    else (s, 0)
  }

  datatype Call =
    | CallExecute(apps: seq<App>, appId: int, outcomes: nat -> Outcome, main: Spawn)
    | CallRunning(p: Probe)
    | CallTerminate

  function Apply(s: State, c: Call): (r: State)
    requires s.cursor <= |s.app.prep|
    ensures r.cursor <= |r.app.prep|
  {
    match c
    case CallExecute(apps, appId, outcomes, main) => Executed(s, apps, appId, outcomes, main).0
    case CallRunning(p) => Probed(s, p).0
    case CallTerminate => Terminated(s)
  }

  // The whole log.

  ghost predicate LaunchOk(n: nat, l: Launch) {
    l.passed <= |l.app.prep| && l.rest == RestOf(n, l.app, l.passed)
  }

  /**
   A launch that is over: what was passed ran, then the rest, then the undo commands of what was passed,
   backwards.
   */
  function Whole(n: nat, l: Launch): seq<Ran> {
    if l.passed > |l.app.prep| then [] else Dos(n, l.app.prep, l.passed) + l.rest + Undos(n, l.app.prep, l.passed)
  }

  ghost predicate LaunchesOk(launches: seq<Launch>) {
    forall i :: 0 <= i < |launches| ==> LaunchOk(i + 1, launches[i])
  }

  /** Launches one after the other, each undone before the next begins. */
  function Story(launches: seq<Launch>): seq<Ran> {
    if launches == [] then []
    else Story(launches[..|launches| - 1]) + Whole(|launches|, launches[|launches| - 1])
  }

  /** The log, with what terminate() would still undo, is the story of all launches. */
  ghost predicate Inv(s: State) {
    && s.cursor <= |s.app.prep|
    && LaunchesOk(s.launches)
    && s.log + Undos(|s.launches|, s.app.prep, s.cursor) == Story(s.launches)
  }

  lemma TerminateKeeps(s: State)
    requires Inv(s)
    ensures Inv(Terminated(s)) && Terminated(s).log == Story(s.launches)
  {
    assert Terminated(s).log + [] == Terminated(s).log;
  }

  lemma StoryAppend(launches: seq<Launch>, l: Launch)
    ensures Story(launches + [l]) == Story(launches) + Whole(|launches| + 1, l)
  {
    var all := launches + [l];
    assert all[..|all| - 1] == launches && all[|all| - 1] == l;
    assert Story(all) == Story(all[..|all| - 1]) + Whole(|all|, all[|all| - 1]);
  }

  lemma Regroup(a: seq<Ran>, b: seq<Ran>, c: seq<Ran>, d: seq<Ran>)
    ensures a + b + c + d == a + (b + c + d)
  {
  }

  lemma LaunchedKeeps(s: State, app: App, appId: int, outcomes: nat -> Outcome)
    requires Inv(s) && s.cursor == 0
    ensures Inv(Launched(s, app, appId, outcomes))
  {
    var n, passed := |s.launches| + 1, PassedTo(app, outcomes, 0);
    var l := LaunchOf(app, passed, RestOf(n, app, passed));
    StoryAppend(s.launches, l);
    assert s.log + [] == s.log;
    Regroup(s.log, Dos(n, app.prep, passed), l.rest, Undos(n, app.prep, passed));
  }

  lemma ApplyKeeps(s: State, c: Call)
    requires Inv(s)
    ensures Inv(Apply(s, c))
  {
    match c
    case CallExecute(apps, appId, outcomes, main) =>
      var clean := Terminated(s);
      TerminateKeeps(s);
      var found := FindApp(apps, Decimal(appId));
      if found.Some? {
        var launched := Launched(clean, found.value, appId, outcomes);
        LaunchedKeeps(clean, found.value, appId, outcomes);
        TerminateKeeps(launched);
      }
    case CallRunning(p) => TerminateKeeps(s);
    case CallTerminate => TerminateKeeps(s);
  }

  function Run(calls: seq<Call>): (s: State)
    ensures s.cursor <= |s.app.prep|
  {
    if calls == [] then START else Apply(Run(calls[..|calls| - 1]), calls[|calls| - 1])
  }

  lemma {:induction false} RunInv(calls: seq<Call>)
    ensures Inv(Run(calls))
  {
    if calls != [] {
      RunInv(calls[..|calls| - 1]);
      ApplyKeeps(Run(calls[..|calls| - 1]), calls[|calls| - 1]);
    }
  }

  /**
   In every run of launches, failures and terminations: after terminate() the cursor is back at the start,
   and the log is the launches one by one, each with the undo commands of exactly the entries it had passed,
   in reverse and once each, before anything of the next launch.
   */
  lemma {:induction false} UndoIsStack(calls: seq<Call>)
    ensures var s := Run(calls + [CallTerminate]);
            && s.cursor == 0 && s.appId == -1 && !s.placebo
            && LaunchesOk(s.launches) && s.log == Story(s.launches)
    ensures Run(calls + [CallTerminate]).launches == Run(calls).launches
  {
    assert (calls + [CallTerminate])[..|calls|] == calls;
    RunInv(calls);
    TerminateKeeps(Run(calls));
  }

  // What the story says about single commands.

  predicate InOrder(log: seq<Ran>) {
    forall i, j :: 0 <= i < j < |log| ==> log[i].launch <= log[j].launch
  }

  predicate AllOf(n: nat, log: seq<Ran>) {
    forall i :: 0 <= i < |log| ==> log[i].launch == n
  }

  lemma {:induction false} PartsOf(n: nat, prep: seq<Prep>, k: nat)
    requires k <= |prep|
    ensures AllOf(n, Dos(n, prep, k)) && AllOf(n, Undos(n, prep, k))
  {
    if k > 0 {
      PartsOf(n, prep, k - 1);
    }
  }

  lemma {:induction false} DetachedPart(n: nat, cmds: seq<string>)
    ensures AllOf(n, DetachedOf(n, cmds))
  {
    if cmds != [] {
      DetachedPart(n, cmds[..|cmds| - 1]);
    }
  }

  lemma {:induction false} StoryInOrder(launches: seq<Launch>)
    requires LaunchesOk(launches)
    ensures InOrder(Story(launches))
    ensures forall i :: 0 <= i < |Story(launches)| ==> Story(launches)[i].launch <= |launches|
  {
    if launches != [] {
      var n, l := |launches|, launches[|launches| - 1];
      StoryInOrder(launches[..n - 1]);
      PartsOf(n, l.app.prep, l.passed);
      DetachedPart(n, l.app.detached);
      assert AllOf(n, Whole(n, l));
    }
  }

  /** No command of an earlier launch, undo commands included, runs after one of a later launch. */
  lemma {:induction false} UndoneBeforeNext(calls: seq<Call>)
    ensures InOrder(Run(calls).log)
  {
    var s := Run(calls);
    RunInv(calls);
    StoryInOrder(s.launches);
    assert forall i :: 0 <= i < |s.log| ==> s.log[i] == Story(s.launches)[i];
  }

  predicate Ascending(log: seq<Ran>) {
    forall a, b :: 0 <= a < b < |log| ==> log[a].Do? && log[b].Do? && log[a].index < log[b].index
  }

  predicate Descending(log: seq<Ran>) {
    forall a, b :: 0 <= a < b < |log| ==> log[a].Undo? && log[b].Undo? && log[a].index > log[b].index
  }

  predicate IsDone(n: nat, prep: seq<Prep>, k: nat, r: Ran)
    requires k <= |prep|
  {
    r.Do? && r.launch == n && r.index < k && prep[r.index].doCmd == r.cmd != []
  }

  predicate IsUndone(n: nat, prep: seq<Prep>, k: nat, r: Ran)
    requires k <= |prep|
  {
    r.Undo? && r.launch == n && r.index < k && prep[r.index].undoCmd == r.cmd != []
  }

  /** Exactly the entries passed are done, each at most once, forwards. */
  lemma {:induction false} DoneExactly(n: nat, prep: seq<Prep>, k: nat)
    requires k <= |prep|
    ensures forall r :: r in Dos(n, prep, k) <==> IsDone(n, prep, k, r)
    ensures Ascending(Dos(n, prep, k))
  {
    if k > 0 {
      var dos := Dos(n, prep, k - 1);
      DoneExactly(n, prep, k - 1);
      assert forall a :: 0 <= a < |dos| ==> dos[a] in dos;
    }
  }

  /** Exactly the entries passed are undone, each at most once, backwards. */
  lemma {:induction false} UndoneExactly(n: nat, prep: seq<Prep>, k: nat)
    requires k <= |prep|
    ensures forall r :: r in Undos(n, prep, k) <==> IsUndone(n, prep, k, r)
    ensures Descending(Undos(n, prep, k))
  {
    if k > 0 {
      var undos := Undos(n, prep, k - 1);
      UndoneExactly(n, prep, k - 1);
      assert forall a :: 0 <= a < |undos| ==> undos[a] in undos;
    }
  }

  /** A launch passes all entries up to the first that stops it. */
  lemma {:induction false} PassedToFirstStop(app: App, outcomes: nat -> Outcome, i: nat)
    requires i <= |app.prep|
    ensures var r := PassedTo(app, outcomes, i);
            && (forall j :: i <= j < r ==> app.prep[j].doCmd == [] || !Stops(app, outcomes(j)))
            && (r < |app.prep| ==> app.prep[r].doCmd != [] && Stops(app, outcomes(r)))
    decreases |app.prep| - i
  {
    if i < |app.prep| && !(app.prep[i].doCmd != [] && Stops(app, outcomes(i))) {
      PassedToFirstStop(app, outcomes, i + 1);
    }
  }

  ghost predicate AllPass(app: App, outcomes: nat -> Outcome) {
    forall j :: 0 <= j < |app.prep| ==> app.prep[j].doCmd == [] || !Stops(app, outcomes(j))
  }

  /** An application is reported as launched just when every entry passed and its own command, if any, started. */
  lemma {:induction false} LaunchSucceedsIff(s: State, apps: seq<App>, appId: int, outcomes: nat -> Outcome,
                                        main: Spawn)
    requires s.cursor <= |s.app.prep|
    ensures var found, (s', code) := FindApp(apps, Decimal(appId)), Executed(s, apps, appId, outcomes, main);
            && (code == 404 <==> found.None?)
            && (code == 0 <==>
                found.Some? && AllPass(found.value, outcomes) && (found.value.cmd == [] || main == Spawn.Started))
            && (code == 0 ==> s'.appId == appId && s'.cursor == |s'.app.prep|)
            && (code != 0 ==> s'.appId == -1 && s'.cursor == 0)
  {
    var found := FindApp(apps, Decimal(appId));
    if found.Some? {
      PassedToFirstStop(found.value, outcomes, 0);
    }
  }

  class ProcManager {
    var app: App
    var appId: int
    var prepIt: nat
    var placebo: bool
    var process: bool
    var log: seq<Ran>
    var launched: nat
    ghost var launches: seq<Launch>

    ghost predicate Valid()
      reads this
    {
      prepIt <= |app.prep| && launched == |launches|
    }

    ghost function View(): State
      reads this
    {
      State(app, appId, prepIt, placebo, process, log, launches)
    }

    constructor ()
      ensures Valid() && View() == START
    {
      app, appId, prepIt, placebo, process, log, launched, launches := NO_APP, -1, 0, false, false, [], 0, [];
    }

    method Terminate()
      requires Valid()
      modifies `appId, `prepIt, `placebo, `process, `log
      ensures Valid() && View() == Terminated(old(View()))
    {
      placebo := false;
      process := false;
      while prepIt != 0
        invariant prepIt <= |app.prep| && !placebo && !process
        invariant log + Undos(launched, app.prep, prepIt) == old(log) + Undos(launched, app.prep, old(prepIt))
        decreases prepIt
      {
        var cmd := app.prep[prepIt - 1];
        UndoStep(log, launched, app.prep, prepIt);
        if cmd.undoCmd != [] {
          log := log + [Undo(launched, prepIt - 1, cmd.undoCmd)];
        }
        prepIt := prepIt - 1;
      }
      assert log + [] == log;
      appId := -1;
    }

    /** The preparation loop; the cursor stays at the entry that stops it. */
    method Prepare(outcomes: nat -> Outcome) returns (ok: bool)
      requires prepIt == 0
      modifies `prepIt, `log
      ensures prepIt == PassedTo(app, outcomes, 0) && (ok <==> prepIt == |app.prep|)
      ensures log == old(log) + Dos(launched, app.prep, prepIt) + if ok then [] else RestOf(launched, app, prepIt)
    {
      ghost var before := log;
      assert log == before + Dos(launched, app.prep, 0);
      while prepIt != |app.prep|
        invariant prepIt <= |app.prep| && PassedTo(app, outcomes, 0) == PassedTo(app, outcomes, prepIt)
        invariant log == before + Dos(launched, app.prep, prepIt)
        decreases |app.prep| - prepIt
      {
        var cmd := app.prep[prepIt];
        DoStep(before, launched, app.prep, prepIt);
        if cmd.doCmd == [] {
          prepIt := prepIt + 1;
          continue;
        }
        log := log + [Do(launched, prepIt, cmd.doCmd)];
        var child := outcomes(prepIt);
        if child.spawn != Spawn.Started {
          if !(app.cmd == [] && child.spawn == PermissionDenied) {
            return false;
          }
        }
        if child.waitFails {
          return false;
        }
        if child.exitCode != 0 {
          return false;
        }
        prepIt := prepIt + 1;
      }
      assert log == log + [];
      ok := true;
    }

    method SpawnDetached()
      modifies `log
      ensures log == old(log) + DetachedOf(launched, app.detached)
    {
      var i := 0;
      assert app.detached[..0] == [];
      while i < |app.detached|
        invariant 0 <= i <= |app.detached|
        invariant log == old(log) + DetachedOf(launched, app.detached[..i])
      {
        assert app.detached[..i + 1][..i] == app.detached[..i];
        log := log + [Detached(launched, app.detached[i])];
        i := i + 1;
      }
      assert app.detached[..i] == app.detached;
    }

    method Find(apps: seq<App>, id: string) returns (found: Option<App>)
      ensures found == FindApp(apps, id)
    {
      var i := 0;
      assert apps[0..] == apps;
      while i < |apps|
        invariant 0 <= i <= |apps|
        invariant FindApp(apps, id) == FindApp(apps[i..], id)
      {
        assert apps[i..][1..] == apps[i + 1..];
        if apps[i].id == id {
          return Some(apps[i]);
        }
        i := i + 1;
      }
      found := None;
    }

    method Execute(apps: seq<App>, id: int, outcomes: nat -> Outcome, main: Spawn) returns (code: int)
      requires Valid()
      modifies this
      ensures Valid() && (View(), code) == Executed(old(View()), apps, id, outcomes, main)
    {
      Terminate();
      var found := Find(apps, Decimal(id));
      if found.None? {
        return 404;
      }
      ghost var clean := View();
      code := Launch(found.value, id, outcomes, main);
      if code != 0 {
        Terminate();
      }
    }

    method Running(p: Probe) returns (id: int)
      requires Valid()
      modifies `appId, `prepIt, `placebo, `process, `log
      ensures Valid() && (View(), id) == Probed(old(View()), p)
    {
      if placebo {
        return appId;
      } else if app.waitAll && p.groupRunning {
        return appId;
      } else if p.processRunning {
        return appId;
      } else if app.autoDetach && p.exitCode == 0 && p.within5s {
        placebo := true;
        return appId;
      }
      if process {
        Terminate();
      }
      return 0;
    }

    /** The detached commands and the application's own. */
    method StartApp(main: Spawn) returns (ok: bool)
      modifies `log, `placebo, `process
      ensures log == old(log) + RestOf(launched, app, |app.prep|)
      ensures placebo == (old(placebo) || app.cmd == [])
      ensures process == (old(process) || (app.cmd != [] && main == Spawn.Started))
      ensures ok <==> app.cmd == [] || main == Spawn.Started
    {
      ghost var before := log;
      SpawnDetached();
      if app.cmd == [] {
        placebo := true;
        assert log == before + (DetachedOf(launched, app.detached) + []);
        return true;
      }
      log := log + [Ran.Started(launched, app.cmd)];
      if main != Spawn.Started {
        return false;
      }
      process := true;
      ok := true;
    }

    /** execute between the first termination and the guard. */
    method Launch(found: App, id: int, outcomes: nat -> Outcome, main: Spawn) returns (code: int)
      requires Valid() && prepIt == 0
      modifies this
      ensures Valid()
      ensures View() == Launched(old(View()), found, id, outcomes).(placebo := placebo, process := process)
      ensures code == if prepIt < |app.prep| || (app.cmd != [] && main != Spawn.Started) then -1 else 0
      ensures placebo == (old(placebo) || (code == 0 && app.cmd == []))
      ensures process == (old(process) || (code == 0 && app.cmd != []))
    {
      appId := id;
      app := found;
      prepIt := 0;
      launched := launched + 1;
      var ok := PrepareAndStart(outcomes, main);
      code := if ok then 0 else -1;
      launches := launches + [LaunchOf(app, prepIt, RestOf(launched, app, prepIt))];
    }

    /** The commands of a launch, up to the first that stops it. */
    method PrepareAndStart(outcomes: nat -> Outcome, main: Spawn) returns (ok: bool)
      requires prepIt == 0
      modifies `prepIt, `log, `placebo, `process
      ensures prepIt == PassedTo(app, outcomes, 0) <= |app.prep|
      ensures log == old(log) + Dos(launched, app.prep, prepIt) + RestOf(launched, app, prepIt)
      ensures ok <==> prepIt == |app.prep| && (app.cmd == [] || main == Spawn.Started)
      ensures placebo == (old(placebo) || (ok && app.cmd == []))
      ensures process == (old(process) || (ok && app.cmd != []))
    {
      ok := Prepare(outcomes);
      if ok {
        ok := StartApp(main);
      }
    }
  }

  lemma UndoStep(log: seq<Ran>, n: nat, prep: seq<Prep>, k: nat)
    requires 0 < k <= |prep|
    ensures prep[k - 1].undoCmd == [] ==> log + Undos(n, prep, k) == log + Undos(n, prep, k - 1)
    ensures log + Undos(n, prep, k) == (log + UndoOne(n, k - 1, prep[k - 1])) + Undos(n, prep, k - 1)
  {
  }

  lemma DoStep(log: seq<Ran>, n: nat, prep: seq<Prep>, k: nat)
    requires k < |prep|
    ensures log + Dos(n, prep, k + 1) == (log + Dos(n, prep, k)) + DoOne(n, k, prep[k])
    ensures prep[k].doCmd == [] ==> log + Dos(n, prep, k + 1) == log + Dos(n, prep, k)
  {
  }
}

/**
 What launching and asking do, without reference to how they do it: which application an identifier means,
 exactly when its launch succeeds, and when asking whether it runs ends it.
 */
module AppLaunches {

  import opened Wrappers
  import opened AppProcess

  // Identifiers are compared as text.

  predicate DecimalDigits(s: string) {
    forall i :: 0 <= i < |s| ==> '0' <= s[i] <= '9'
  }

  /** The number that decimal digits stand for. */
  function Value(s: string): nat
    requires DecimalDigits(s)
  {
    if s == [] then 0 else 10 * Value(s[..|s| - 1]) + (s[|s| - 1] - '0') as nat
  }

  lemma DigitReads(d: nat)
    requires d < 10
    ensures DecimalDigits(Digit(d)) && |Digit(d)| == 1 && (Digit(d)[0] - '0') as nat == d
  {
  }

  /** A natural number is written in decimal digits that read back as it, without leading zeros. */
  lemma {:induction false} DecimalReads(n: nat)
    ensures var s := Decimal(n);
            && s != [] && DecimalDigits(s) && Value(s) == n
            && (s[0] == '0' ==> n == 0) && (n < 10 ==> |s| == 1)
    decreases n
  {
    DigitReads(n % 10);
    if n < 10 {
      assert Digit(n)[..0] == [];
    } else {
      DecimalReads(n / 10);
      assert Decimal(n)[..|Decimal(n)| - 1] == Decimal(n / 10);
    }
  }

  /** A negative number gets a sign, so that different identifiers are different texts. */
  lemma {:induction false} DecimalApart(a: int, b: int)
    requires Decimal(a) == Decimal(b)
    ensures a == b
  {
    DecimalReads(if a < 0 then -a else a);
    DecimalReads(if b < 0 then -b else b);
    if a < 0 {
      assert Decimal(a)[1..] == Decimal(-a);
    }
    if b < 0 {
      assert Decimal(b)[1..] == Decimal(-b);
    }
  }

  // Launching.

  /** The `i`-th application is the first with this identifier. */
  ghost predicate FirstWith(apps: seq<App>, id: string, i: nat) {
    i < |apps| && apps[i].id == id && forall j :: 0 <= j < i ==> apps[j].id != id
  }

  lemma {:induction false} FoundIsFirst(apps: seq<App>, id: string)
    ensures FindApp(apps, id).None? <==> forall i :: 0 <= i < |apps| ==> apps[i].id != id
    ensures forall i: nat :: FirstWith(apps, id, i) ==> FindApp(apps, id) == Some(apps[i])
  {
    if apps != [] {
      FoundIsFirst(apps[1..], id);
      if apps[0].id != id {
        assert forall i: nat :: 0 < i < |apps| ==> apps[i] == apps[1..][i - 1];
        forall i: nat | FirstWith(apps, id, i)
          ensures FindApp(apps, id) == Some(apps[i])
        {
          assert FirstWith(apps[1..], id, i - 1);
        }
      }
    }
  }

  /** What must hold of a preparation command for the launch to go on. */
  predicate Harmless(app: App, o: Outcome) {
    && !o.waitFails && o.exitCode == 0
    && match o.spawn
       case Started => true
       case PermissionDenied => app.cmd == []       // nobody may have logged in yet
       case OtherError => false
  }

  /** All preparation commands and the application's own, if it has one, do well. */
  ghost predicate LaunchesWell(app: App, outcomes: nat -> Outcome, main: Spawn) {
    && (forall j :: 0 <= j < |app.prep| && app.prep[j].doCmd != [] ==> Harmless(app, outcomes(j)))
    && (app.cmd != [] ==> main == Spawn.Started)
  }

  /** An identifier that no application has is answered by 404; otherwise the first application with it is launched. */
  lemma {:induction false} UnknownIsRefused(s: State, apps: seq<App>, appId: int, outcomes: nat -> Outcome, main: Spawn)
    requires s.cursor <= |s.app.prep|
    ensures Executed(s, apps, appId, outcomes, main).1 == 404
            <==> forall i :: 0 <= i < |apps| ==> apps[i].id != Decimal(appId)
  {
    FoundIsFirst(apps, Decimal(appId));
  }

  /** The launch of an application succeeds exactly if all goes well, and otherwise answers -1. */
  lemma {:induction false} LaunchIff(s: State, apps: seq<App>, appId: int, outcomes: nat -> Outcome, main: Spawn,
                                     i: nat)
    requires s.cursor <= |s.app.prep| && FirstWith(apps, Decimal(appId), i)
    ensures var (s', code) := Executed(s, apps, appId, outcomes, main);
            && code == (if LaunchesWell(apps[i], outcomes, main) then 0 else -1)
            && (code == 0 ==> s'.app == apps[i] && s'.appId == appId && s'.placebo == (apps[i].cmd == [])
                              && s'.process == (apps[i].cmd != []))
            && (code == -1 ==> s'.appId == -1 && !s'.placebo && !s'.process)
  {
    FoundIsFirst(apps, Decimal(appId));
    PassedToFirstStop(apps[i], outcomes, 0);
    assert forall o :: Stops(apps[i], o) <==> !Harmless(apps[i], o);
  }

  // Asking.

  /** The application counts as running. */
  predicate Alive(s: State, p: Probe) {
    || s.placebo || p.processRunning || (s.app.waitAll && p.groupRunning)
    || (s.app.autoDetach && p.exitCode == 0 && p.within5s)
  }

  /**
   While it does, asking answers its identifier and runs nothing; when it no longer does, what it had started is
   undone, once. An application that has detached itself counts as running from then on.
   */
  lemma {:induction false} RunningIff(s: State, p: Probe)
    requires Inv(s)
    ensures var (s', id) := Probed(s, p);
            && id == (if Alive(s, p) then s.appId else 0)
            && (Alive(s, p) || !s.process ==> s'.log == s.log && s'.appId == s.appId && s'.cursor == s.cursor)
            && (!Alive(s, p) && s.process ==> s'.appId == -1 && s'.cursor == 0 && s'.log == Story(s.launches))
            && (s'.placebo <==> s.placebo || (Alive(s, p) && !p.processRunning && !(s.app.waitAll && p.groupRunning)))
  {
    TerminateKeeps(s);
  }
}

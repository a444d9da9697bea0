/** What a control operation does to the modes of the apps (provision/docker/app-manager.js). */
module AppModes {
  import opened AppManager
  import opened Strings

  // ---- What is said of an operation ----

  /** How often an app is started by the operation. */
  function Launches(es: seq<Event>, a: string): nat {
    if es == [] then 0 else (if es[0].DoLaunch? && es[0].app == a then 1 else 0) + Launches(es[1..], a)
  }

  /** A build of the app fails. */
  predicate FailedBuild(es: seq<Event>, a: string) {
    exists i :: 0 <= i < |es| && es[i].DoLaunch? && es[i].app == a && !es[i].built
  }

  /** The request is about this app, which is in mode `was`; one for all apps passes over those in its mode. */
  predicate Addressed(r: Request, a: string, was: string) {
    match r
    case ModeOne(b, _) => a == b
    case ModeAll(mode) => was != mode
    case Restart(b) => a == b
    case Reinstall => true
  }

  /** The mode the app should end in. */
  function Asked(r: Request, a: string, was: string): string {
    if r.ModeAll? || (r.ModeOne? && r.app == a) then r.mode else was
  }

  // ---- The launches of a script ----

  /** How the script starts the app, each time it does. */
  function Kinds(todo: seq<Action>, a: string): seq<Kind> {
    if todo == [] then []
    else (if todo[0].Launch? && todo[0].app == a then [todo[0].kind] else []) + Kinds(todo[1..], a)
  }

  lemma {:induction false} KindsAppend(x: seq<Action>, y: seq<Action>, a: string)
    ensures Kinds(x + y, a) == Kinds(x, a) + Kinds(y, a)
  {
    if x == [] {
      assert x + y == y;
    } else {
      assert (x + y)[1..] == x[1..] + y;
      KindsAppend(x[1..], y, a);
    }
  }

  lemma {:induction false} KindsOfStops(names: seq<string>, a: string)
    ensures Kinds(StopAll(names), a) == []
  {
    if names != [] {
      assert StopAll(names)[1..] == StopAll(names[1..]);
      KindsOfStops(names[1..], a);
    }
  }

  lemma {:induction false} KindsOfLaunches(names: seq<string>, a: string)
    requires Distinct(names)
    ensures Kinds(LaunchAll(names), a) == if a in names then [Rebuild] else []
  {
    if names != [] {
      assert LaunchAll(names)[1..] == LaunchAll(names[1..]);
      KindsOfLaunches(names[1..], a);
    }
  }

  lemma {:induction false} KindsOfSwitches(names: seq<string>, mode: string, modes: map<string, string>, a: string)
    requires Distinct(names)
    ensures Kinds(SwitchAll(names, mode, modes), a) ==
            if a in names && !(a in modes && modes[a] == mode) then [SetMode(mode)] else []
  {
    if names != [] {
      KindsOfSwitches(names[1..], mode, modes, a);
      if !(names[0] in modes && modes[names[0]] == mode) {
        var pair := [Stop(names[0]), Launch(names[0], SetMode(mode))];
        KindsAppend(pair, SwitchAll(names[1..], mode, modes), a);
        assert pair[1..] == [pair[1]] && [pair[1]][1..] == [];
      }
    }
  }

  lemma KindsOfEnd(a: string)
    ensures Kinds([Save, Watch], a) == []
  {
    var end := [Save, Watch];
    assert end[0] == Save && end[1..] == [Watch] && [Watch][0] == Watch && [Watch][1..] == [];
    assert Kinds(end[1..], a) == [];
  }

  lemma KindsOfOne(b: string, kind: Kind, rest: seq<Action>, a: string)
    requires Kinds(rest, a) == []
    ensures Kinds([Stop(b), Launch(b, kind)] + rest, a) == if a == b then [kind] else []
  {
    var script := [Stop(b), Launch(b, kind)] + rest;
    assert script[1..] == [Launch(b, kind)] + rest && script[1..][1..] == rest;
  }

  /** A script starts exactly the apps the request is about, once each. */
  lemma KindsOfScript(names: seq<string>, r: Request, modes: map<string, string>, a: string)
    requires Distinct(names) && a in names && a in modes
    ensures var kinds := Kinds(Script(names, r, modes), a);
      && |kinds| == (if Addressed(r, a, modes[a]) then 1 else 0)
      && (kinds != [] ==>
            kinds[0] == match r case Restart(_) => AsRecorded case Reinstall => Rebuild case _ => SetMode(r.mode))
  {
    KindsOfEnd(a);
    match r
    case ModeOne(b, m) =>
      KindsOfOne(b, SetMode(m), [Save, Watch], a);
      assert Script(names, r, modes) == [Stop(b), Launch(b, SetMode(m))] + [Save, Watch];
    case ModeAll(m) =>
      KindsOfSwitches(names, m, modes, a);
      KindsAppend(SwitchAll(names, m, modes), [Save, Watch], a);
    case Restart(b) =>
      KindsOfOne(b, AsRecorded, [], a);
      assert Script(names, r, modes) == [Stop(b), Launch(b, AsRecorded)] + [];
    case Reinstall =>
      KindsOfStops(names, a);
      KindsOfLaunches(names, a);
      KindsAppend(LaunchAll(names), [Save, Watch], a);
      KindsAppend(StopAll(names), LaunchAll(names) + [Save, Watch], a);
  }

  // ---- Runs of one operation ----

  predicate NoBegin(es: seq<Event>) {
    forall e :: e in es ==> !e.Begin?
  }

  /** One event: what it starts is taken from the script. */
  lemma OneLaunch(s: System, e: Event, names: seq<string>, a: string)
    requires Possible(s, e) && !e.Begin?
    ensures Kinds(s.todo, a) ==
            (if e.DoLaunch? && e.app == a then [e.kind] else []) + Kinds(Step(s, e, names).todo, a)
  {
  }

  lemma {:induction false} LaunchesAreKinds(s: System, es: seq<Event>, names: seq<string>, timers: Timers, a: string)
    requires Run(s, es, names, timers) && NoBegin(es) && After(s, es, names, timers).todo == []
    ensures Launches(es, a) == |Kinds(s.todo, a)|
    decreases |es|
  {
    if es != [] {
      OneLaunch(s, es[0], names, a);
      LaunchesAreKinds(Step(s, es[0], names), es[1..], names, timers, a);
    }
  }

  lemma {:induction false} NoLaunchNoBuild(es: seq<Event>, a: string)
    ensures FailedBuild(es, a) ==> Launches(es, a) > 0
    ensures es != [] ==>
      (FailedBuild(es, a) <==> (es[0].DoLaunch? && es[0].app == a && !es[0].built) || FailedBuild(es[1..], a))
  {
    if es != [] {
      NoLaunchNoBuild(es[1..], a);
      if i :| 0 <= i < |es| && es[i].DoLaunch? && es[i].app == a && !es[i].built {
        if i > 0 { assert es[1..][i - 1] == es[i]; }
      }
      if i :| 0 <= i < |es[1..]| && es[1..][i].DoLaunch? && es[1..][i].app == a && !es[1..][i].built {
        assert es[i + 1] == es[1..][i];
      }
    }
  }

  /** The app's mode after one event. */
  lemma ModeStep(s: System, e: Event, names: seq<string>, a: string)
    requires Possible(s, e) && a in s.apps
    ensures var t := Step(s, e, names);
      && a in t.apps
      && t.apps[a].rec.mode ==
           if e.DoLaunch? && e.app == a then LaunchMode(e.kind, s.apps[a].rec.mode, e.built) else s.apps[a].rec.mode
  {
  }

  /** An app that is started at most once. */
  lemma {:induction false} ModeAfter(s: System, es: seq<Event>, names: seq<string>, timers: Timers, a: string)
    requires Run(s, es, names, timers) && NoBegin(es) && After(s, es, names, timers).todo == []
    requires a in s.apps && |Kinds(s.todo, a)| <= 1
    ensures var t, was := After(s, es, names, timers), s.apps[a].rec.mode;
      && a in t.apps
      && t.apps[a].rec.mode ==
           if Kinds(s.todo, a) == [] then was else LaunchMode(Kinds(s.todo, a)[0], was, !FailedBuild(es, a))
    decreases |es|
  {
    if es != [] {
      var next := Step(s, es[0], names);
      OneLaunch(s, es[0], names, a);
      ModeStep(s, es[0], names, a);
      NoLaunchNoBuild(es, a);
      NoLaunchNoBuild(es[1..], a);
      LaunchesAreKinds(next, es[1..], names, timers, a);
      ModeAfter(next, es[1..], names, timers, a);
    }
  }

  /** From a state with nothing in hand: the launches and the modes of an operation. */
  lemma Operation(
    s: System, r: Request, es: seq<Event>, names: seq<string>, timers: Timers, a: string)
    requires s.todo == [] && Distinct(names) && a in names && a in s.apps && NoBegin(es)
    requires Run(s, [Begin(r)] + es, names, timers) && After(s, [Begin(r)] + es, names, timers).todo == []
    ensures var t, was := After(s, [Begin(r)] + es, names, timers), s.apps[a].rec.mode;
      && a in t.apps
      && Launches(es, a) == (if Addressed(r, a, was) then 1 else 0)
      && t.apps[a].rec.mode ==
           if Asked(r, a, was) == "prod" && FailedBuild(es, a) && !r.Restart? then "dev" else Asked(r, a, was)
  {
    var next := Step(s, Begin(r), names);
    assert ([Begin(r)] + es)[1..] == es && ([Begin(r)] + es)[0] == Begin(r);
    assert next.todo == Script(names, r, Modes(s.apps));
    KindsOfScript(names, r, Modes(s.apps), a);
    LaunchesAreKinds(next, es, names, timers, a);
    NoLaunchNoBuild(es, a);
    ModeAfter(next, es, names, timers, a);
  }

  /**
   * A request accepted after any run, up to the moment nothing is in hand again. Exactly the apps it is
   * about have been started, once each. An app ends in the mode asked for - its old one unless the
   * request names another - or in dev, if that was prod and its build failed; and so it is saved.
   */
  lemma OperationSetsModes(
    s0: System, before: seq<Event>, r: Request, es: seq<Event>, names: seq<string>, timers: Timers, a: string)
    requires Init(s0, names) && Run(s0, before, names, timers) && After(s0, before, names, timers).todo == []
    requires var s := After(s0, before, names, timers);
      && NoBegin(es) && Run(s, [Begin(r)] + es, names, timers)
      && After(s, [Begin(r)] + es, names, timers).todo == [] && a in s.apps
    ensures var s := After(s0, before, names, timers);
      var t, was := After(s, [Begin(r)] + es, names, timers), s.apps[a].rec.mode;
      && a in t.apps
      && Launches(es, a) == (if Addressed(r, a, was) then 1 else 0)
      && t.apps[a].rec.mode ==
           (if Asked(r, a, was) == "prod" && FailedBuild(es, a) && !r.Restart? then "dev" else Asked(r, a, was))
      && t.saved == Modes(t.apps)
  {
    var s := After(s0, before, names, timers);
    SameApps(s0, before, names, timers);
    Operation(s, r, es, names, timers, a);
    InitInv(s0, names, timers);
    RunKeepsPlan(s0, before, names, timers);
    RunKeepsPlan(s, [Begin(r)] + es, names, timers);
  }
}

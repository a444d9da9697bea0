/** The app process supervisor as a timed state machine (provision/docker/app-manager.js). */
module AppManager {
  import opened Strings

  // Delays in milliseconds.
  const RESTART_DELAY := 2000
  const TERM_TIMEOUT := 5000
  const KILL_GRACE := 500

  // ---- The manager's own record of an app ----

  /** An entry of the `apps` map: the last process object, its pid while it is thought to run. */
  datatype Record = Record(mode: string, proc: Option<nat>, pid: Option<nat>, stopping: bool, restarts: nat)

  /** The exit handler that `startApp` installs; it arms a restart timer unless the app is being stopped. */
  function AfterExit(r: Record): Record {
    if r.stopping then r else r.(pid := None, restarts := r.restarts + 1)
  }

  /** What the manager records when `startApp` returned a process, or nothing. */
  function AfterStart(r: Record, started: Option<nat>): Record {
    if started.Some? then r.(proc := started, pid := started) else r
  }

  /** The end of the wait in `stopApp`. */
  function Cleared(r: Record): Record {
    r.(proc := None, pid := None)
  }

  /** The end of `stopApp`, with the port free. */
  function Released(r: Record): Record {
    r.(stopping := false)
  }

  // ---- The system ----

  /** Where `stopApp` stands with an app; `Down` is after it returned and before the next start. */
  datatype Phase = Up | Terminating(kill: int) | Killed(done: int) | FreeingPort | Down

  datatype Process = Process(id: nat, mode: string)

  /** An app: its record, its live processes with the mode they were launched in, its restart timers. */
  datatype App = App(rec: Record, phase: Phase, live: set<Process>, timers: seq<int>)

  /** How a control operation starts an app again. */
  datatype Kind = SetMode(mode: string) | AsRecorded | Rebuild

  /** What a control operation still has to do. */
  datatype Action = Stop(app: string) | Launch(app: string, kind: Kind) | Save | Watch

  /**
   * The shared watcher: `appLibProc`, whether that process has an exit code (one that a signal has
   * ended has none), the live processes, those of them sent SIGTERM, and when restarts are due.
   */
  datatype Watcher = Watcher(handle: Option<nat>, exited: bool, live: set<nat>, dying: set<nat>, restarts: seq<int>)

  datatype System = System(
    now: int, apps: map<string, App>, todo: seq<Action>, saved: map<string, string>, watcher: Watcher, nextId: nat)

  datatype Event =
    | Tick(delay: int)                               // time passes
    | Exit(app: string, process: Process)            // a process dies, by itself or by a signal
    | Fire(app: string, started: bool)               // a restart timer runs
    | TermTimeout(app: string)                       // five seconds after SIGTERM
    | GraceOver(app: string)                         // half a second after SIGKILL
    | PortFree(app: string)                          // waitForPortFree is done and stopApp returns
    | Begin(request: Request)                        // a control request is accepted
    | BeginStop(app: string)                         // the operation calls stopApp
    | DoLaunch(app: string, kind: Kind, built: bool, started: bool)
    | DoSave
    | DoWatch
    | WatcherExit(id: nat, signalled: bool)          // with or without an exit code
    | WatcherRestart

  datatype Request = ModeOne(app: string, mode: string) | ModeAll(mode: string) | Restart(app: string) | Reinstall

  function Modes(apps: map<string, App>): map<string, string> {
    map a | a in apps :: apps[a].rec.mode
  }

  predicate AnyDev(modes: map<string, string>) {
    exists a :: a in modes && modes[a] == "dev"
  }

  // ---- The scripts of the control operations ----

  function StopAll(names: seq<string>): seq<Action> {
    if names == [] then [] else [Stop(names[0])] + StopAll(names[1..])
  }

  function LaunchAll(names: seq<string>): seq<Action> {
    if names == [] then [] else [Launch(names[0], Rebuild)] + LaunchAll(names[1..])
  }

  /** Apps already in the wanted mode are passed over. */
  function SwitchAll(names: seq<string>, mode: string, modes: map<string, string>): seq<Action> {
    if names == [] then []
    else if names[0] in modes && modes[names[0]] == mode then SwitchAll(names[1..], mode, modes)
    else [Stop(names[0]), Launch(names[0], SetMode(mode))] + SwitchAll(names[1..], mode, modes)
  }

  function Script(names: seq<string>, r: Request, modes: map<string, string>): seq<Action> {
    match r
    case ModeOne(a, m) => [Stop(a), Launch(a, SetMode(m)), Save, Watch]
    case ModeAll(m) => SwitchAll(names, m, modes) + [Save, Watch]
    case Restart(a) => [Stop(a), Launch(a, AsRecorded)]
    case Reinstall => StopAll(names) + (LaunchAll(names) + [Save, Watch])
  }

  // ---- Steps ----

  function With(s: System, a: string, app: App): System {
    s.(apps := s.apps[a := app])
  }

  /** `startApp(def, mode)` for app `x`; without a process the record stays as it was. */
  function Started(x: App, id: nat, started: bool): App {
    if started then x.(rec := AfterStart(x.rec, Some(id)), live := x.live + {Process(id, x.rec.mode)}) else x
  }

  /** The mode an operation records before it starts the app again; a failed build falls back to dev. */
  function LaunchMode(kind: Kind, mode: string, built: bool): string {
    match kind
    case SetMode(m) => if m == "prod" && !built then "dev" else m
    case AsRecorded => mode
    case Rebuild => if mode == "prod" && !built then "dev" else mode
  }

  function OnExit(x: App, p: Process, now: int): App {
    var timers := if x.rec.stopping then x.timers else x.timers + [now + RESTART_DELAY];
    var y := x.(live := x.live - {p}, rec := AfterExit(x.rec), timers := timers);
    if StopAwaits(x, p) then y.(rec := Cleared(y.rec), phase := FreeingPort) else y
  }

  /** `stopApp` waits for this process. */
  predicate StopAwaits(x: App, p: Process) {
    (x.phase.Terminating? || x.phase.Killed?) && x.rec.proc == Some(p.id)
  }

  /** `isAppLibRunning`. */
  predicate WatcherRunning(w: Watcher) {
    w.handle.Some? && !w.exited
  }

  /** `updateAppLibWatcher`; a stopped watcher is only sent SIGTERM and dies later. */
  function UpdateWatcher(w: Watcher, dev: bool, id: nat): Watcher {
    if dev && !WatcherRunning(w) then w.(handle := Some(id), exited := false, live := w.live + {id})
    else if !dev && WatcherRunning(w) then w.(handle := None, dying := w.dying + {w.handle.value} * w.live)
    else w
  }

  /** The watcher's exit handler. */
  function WatcherExited(w: Watcher, id: nat, signalled: bool, dev: bool, now: int): Watcher {
    var exited := if w.handle == Some(id) then !signalled else w.exited;
    var v := w.(exited := exited, live := w.live - {id}, dying := w.dying - {id});
    if dev then v.(restarts := v.restarts + [now + RESTART_DELAY]) else v.(handle := None)
  }

  /** The watcher's restart timer, which starts a watcher whatever has happened since. */
  function WatcherRestarted(w: Watcher, id: nat): Watcher
    requires w.restarts != []
  {
    w.(handle := Some(id), exited := false, live := w.live + {id}, restarts := w.restarts[1..])
  }

  predicate RequestOk(r: Request, apps: map<string, App>) {
    match r
    case ModeOne(a, m) => a in apps && m in {"dev", "prod"}
    case ModeAll(m) => m in {"dev", "prod"}
    case Restart(a) => a in apps
    case Reinstall => true
  }

  predicate NextIs(s: System, act: Action) {
    s.todo != [] && s.todo[0] == act
  }

  /** When an event can happen, the order of timers aside. */
  predicate Possible(s: System, e: Event) {
    match e
    case Tick(d) => d > 0
    case Exit(a, p) => a in s.apps && p in s.apps[a].live
    case Fire(a, started) =>
      a in s.apps && s.apps[a].timers != [] && s.apps[a].timers[0] <= s.now && (s.apps[a].rec.mode == "dev" ==> started)
    case TermTimeout(a) => a in s.apps && s.apps[a].phase.Terminating? && s.apps[a].phase.kill <= s.now
    case GraceOver(a) => a in s.apps && s.apps[a].phase.Killed? && s.apps[a].phase.done <= s.now && s.apps[a].live == {}
    case PortFree(a) => NextIs(s, Stop(a)) && a in s.apps && s.apps[a].phase.FreeingPort?
    case Begin(r) => s.todo == [] && RequestOk(r, s.apps)
    case BeginStop(a) => NextIs(s, Stop(a)) && a in s.apps && s.apps[a].phase.Up?
    case DoLaunch(a, k, built, started) =>
      NextIs(s, Launch(a, k)) && a in s.apps && (LaunchMode(k, s.apps[a].rec.mode, built) == "dev" ==> started)
    case DoSave => NextIs(s, Save)
    case DoWatch => NextIs(s, Watch)
    case WatcherExit(w, _) => w in s.watcher.live
    case WatcherRestart => s.watcher.restarts != [] && s.watcher.restarts[0] <= s.now
  }

  /**
   * What is known of the app timers: nothing; or they are late by any amount, but the one armed after
   * SIGKILL does not overtake a restart timer that was due before it; or they run in any order, restart
   * timers at most `lag` late.
   */
  datatype Timers = Free | GraceInOrder | AnyOrder(lag: nat)

  /** No restart timer is due before `due`. */
  predicate NoneBefore(restarts: seq<int>, due: int) {
    forall i :: 0 <= i < |restarts| ==> due <= restarts[i]
  }

  predicate OnTime(restarts: seq<int>, now: int, lag: nat) {
    forall i :: 0 <= i < |restarts| ==> now <= restarts[i] + lag
  }

  predicate Enabled(s: System, e: Event, timers: Timers) {
    && Possible(s, e)
    && match timers
       case Free => true
       case AnyOrder(lag) => e.Tick? ==> forall a :: a in s.apps ==> OnTime(s.apps[a].timers, s.now + e.delay, lag)
       case GraceInOrder => e.GraceOver? ==> NoneBefore(s.apps[e.app].timers, s.apps[e.app].phase.done)
  }

  function Step(s: System, e: Event, names: seq<string>): System
    requires Possible(s, e)
  {
    match e
    case Tick(d) => s.(now := s.now + d)
    case Exit(a, p) => With(s, a, OnExit(s.apps[a], p, s.now))
    case Fire(a, started) => With(s, a, OnFire(s.apps[a], s.nextId, started)).(nextId := s.nextId + 1)
    case TermTimeout(a) => With(s, a, s.apps[a].(phase := Killed(s.now + KILL_GRACE)))
    case GraceOver(a) => With(s, a, s.apps[a].(rec := Cleared(s.apps[a].rec), phase := FreeingPort))
    case PortFree(a) => With(s, a, Returned(s.apps[a])).(todo := s.todo[1..])
    case Begin(r) => s.(todo := Script(names, r, Modes(s.apps)))
    case BeginStop(a) =>
      if s.apps[a].rec.proc.None? then With(s, a, s.apps[a].(phase := Down)).(todo := s.todo[1..])
      else With(s, a, Terminated(s.apps[a], s.now))
    case DoLaunch(a, k, built, started) =>
      With(s, a, Launched(s.apps[a], k, built, s.nextId, started)).(todo := s.todo[1..], nextId := s.nextId + 1)
    case DoSave => s.(saved := Modes(s.apps), todo := s.todo[1..])
    case DoWatch =>
      var watcher := UpdateWatcher(s.watcher, AnyDev(Modes(s.apps)), s.nextId);
      s.(watcher := watcher, todo := s.todo[1..], nextId := s.nextId + 1)
    case WatcherExit(w, signalled) =>
      s.(watcher := WatcherExited(s.watcher, w, signalled, AnyDev(Modes(s.apps)), s.now))
    case WatcherRestart => s.(watcher := WatcherRestarted(s.watcher, s.nextId), nextId := s.nextId + 1)
  }

  /** The restart timer's callback. */
  function OnFire(x: App, id: nat, started: bool): App
    requires x.timers != []
  {
    var y := x.(timers := x.timers[1..]);
    if x.rec.stopping then y else Started(y, id, started)
  }

  function Terminated(x: App, now: int): App {
    x.(rec := x.rec.(stopping := true), phase := Terminating(now + TERM_TIMEOUT))
  }

  function Returned(x: App): App {
    x.(rec := Released(x.rec), phase := Down)
  }

  function Launched(x: App, k: Kind, built: bool, id: nat, started: bool): App {
    Started(x.(rec := x.rec.(mode := LaunchMode(k, x.rec.mode, built)), phase := Up), id, started)
  }

  // ---- Runs ----

  /** Each app has a name of its own. */
  predicate Distinct(names: seq<string>) {
    forall i, j :: 0 <= i < j < |names| ==> names[i] != names[j]
  }

  /** What `main` leaves: every app started in its mode, or not started for want of a build. */
  predicate Init(s: System, names: seq<string>) {
    && s.apps.Keys == (set n | n in names) && Distinct(names)
    && s.todo == [] && s.saved == Modes(s.apps)
    && s.watcher.restarts == [] && s.watcher.dying == {} && !s.watcher.exited
    && (forall i :: i in s.watcher.live ==> i < s.nextId)
    && (if AnyDev(Modes(s.apps)) then s.watcher.handle.Some? && s.watcher.live == {s.watcher.handle.value}
        else s.watcher.handle.None? && s.watcher.live == {})
    && forall a :: a in s.apps ==>
      var x := s.apps[a];
      && x.phase.Up? && x.timers == [] && !x.rec.stopping && x.rec.restarts == 0
      && x.rec.pid == x.rec.proc && x.live == Expected(x.rec)
  }

  predicate Run(s: System, es: seq<Event>, names: seq<string>, timers: Timers)
    decreases |es|
  {
    es == [] || (Enabled(s, es[0], timers) && Run(Step(s, es[0], names), es[1..], names, timers))
  }

  function After(s: System, es: seq<Event>, names: seq<string>, timers: Timers): System
    requires Run(s, es, names, timers)
    decreases |es|
  {
    if es == [] then s else After(Step(s, es[0], names), es[1..], names, timers)
  }

  // ---- The invariant ----

  /** The processes the record speaks of: the one with the recorded pid, in the recorded mode. */
  function Expected(r: Record): set<Process> {
    if r.pid.Some? then {Process(r.pid.value, r.mode)} else {}
  }

  /** `stopping` is set exactly from the SIGTERM to the end of `stopApp`. */
  predicate StopMarked(x: App) {
    x.rec.stopping <==> x.phase.Terminating? || x.phase.Killed? || x.phase.FreeingPort?
  }

  /** What every app keeps. */
  predicate AppOk(x: App, now: int, timers: Timers) {
    && StopMarked(x)
    && x.live == Expected(x.rec)
    && (x.rec.pid.Some? ==> x.rec.proc == x.rec.pid)
    && (x.phase.FreeingPort? || x.phase.Down? ==> x.rec.proc.None?)
    && (x.timers != [] ==>
          |x.timers| == 1 && x.rec.proc.Some? && x.rec.pid.None? && TimerOk(x.timers[0], x.phase, now, timers))
  }

  /** A pending restart timer is due well inside the stop window of the dead process. */
  predicate TimerOk(t: int, phase: Phase, now: int, timers: Timers) {
    && t - RESTART_DELAY <= now
    && (timers.AnyOrder? ==> now <= t + timers.lag)
    && (phase.Terminating? ==> t - RESTART_DELAY + TERM_TIMEOUT <= phase.kill)
    && (phase.Killed? ==> t - RESTART_DELAY + TERM_TIMEOUT + KILL_GRACE <= phase.done)
  }

  predicate AppsOk(s: System, timers: Timers) {
    forall a :: a in s.apps ==> AppOk(s.apps[a], s.now, timers)
  }

  /** No restart timer outlives the stop window: the end of the window is in order, or no timer is that late. */
  predicate Sound(timers: Timers) {
    timers.GraceInOrder? || (timers.AnyOrder? && timers.lag < 3500)
  }

  /** The script in hand stops each app before it starts it, beginning with the apps in `down`. */
  predicate Balanced(todo: seq<Action>, down: set<string>) {
    if todo == [] then down == {}
    else
      match todo[0]
      case Stop(a) => a !in down && Balanced(todo[1..], down + {a})
      case Launch(a, _) => a in down && Balanced(todo[1..], down - {a})
      case _ => Balanced(todo[1..], down)
  }

  function DownApps(s: System): set<string> {
    set a | a in s.apps && s.apps[a].phase.Down?
  }

  predicate ScriptOk(s: System) {
    && Balanced(s.todo, DownApps(s))
    && forall a :: a in s.apps && !s.apps[a].phase.Up? && !s.apps[a].phase.Down? ==> NextIs(s, Stop(a))
  }

  /** One step keeps every app's invariant. */
  lemma StepKeepsApps(s: System, e: Event, names: seq<string>, timers: Timers)
    requires AppsOk(s, timers) && ScriptOk(s) && Enabled(s, e, timers) && Sound(timers)
    ensures AppsOk(Step(s, e, names), timers)
  {
    if e.Exit? {
      assert AppOk(OnExit(s.apps[e.app], e.process, s.now), s.now, timers);
    } else if e.Fire? {
      assert AppOk(OnFire(s.apps[e.app], s.nextId, e.started), s.now, timers);
    } else if e.DoLaunch? {
      assert e.app in DownApps(s);
    }
  }

  // ---- Scripts ----

  lemma {:induction false} StopsThen(names: seq<string>, rest: seq<Action>, down: set<string>)
    requires Distinct(names)
    requires forall n :: n in names ==> n !in down
    requires Balanced(rest, down + (set n | n in names))
    ensures Balanced(StopAll(names) + rest, down)
  {
    if names == [] {
      assert StopAll(names) + rest == rest && down + (set n | n in names) == down;
    } else {
      var tail := names[1..];
      assert (StopAll(names) + rest)[1..] == StopAll(tail) + rest;
      assert down + (set n | n in names) == (down + {names[0]}) + (set n | n in tail);
      StopsThen(tail, rest, down + {names[0]});
    }
  }

  lemma {:induction false} LaunchesThen(names: seq<string>, rest: seq<Action>)
    requires Distinct(names)
    requires Balanced(rest, {})
    ensures Balanced(LaunchAll(names) + rest, set n | n in names)
  {
    if names == [] {
      assert LaunchAll(names) + rest == rest && (set n | n in names) == {};
    } else {
      var tail := names[1..];
      assert (LaunchAll(names) + rest)[1..] == LaunchAll(tail) + rest;
      assert (set n | n in names) - {names[0]} == set n | n in tail;
      LaunchesThen(tail, rest);
    }
  }

  lemma {:induction false} SwitchesThen(names: seq<string>, mode: string, modes: map<string, string>, rest: seq<Action>)
    requires Balanced(rest, {})
    ensures Balanced(SwitchAll(names, mode, modes) + rest, {})
  {
    var script := SwitchAll(names, mode, modes) + rest;
    if names == [] {
      assert script == rest;
    } else {
      var tail := SwitchAll(names[1..], mode, modes) + rest;
      SwitchesThen(names[1..], mode, modes, rest);
      if !(names[0] in modes && modes[names[0]] == mode) {
        assert script == [Stop(names[0]), Launch(names[0], SetMode(mode))] + tail;
        assert script[1..][1..] == tail;
        assert {} + {names[0]} - {names[0]} == {};
      }
    }
  }

  lemma ScriptBalanced(names: seq<string>, r: Request, modes: map<string, string>)
    requires Distinct(names)
    ensures Balanced(Script(names, r, modes), {})
  {
    match r
    case ModeOne(a, m) =>
      assert Script(names, r, modes)[1..][1..] == [Save, Watch] && {} + {a} - {a} == {};
    case ModeAll(m) => SwitchesThen(names, m, modes, [Save, Watch]);
    case Restart(a) =>
      assert Script(names, r, modes)[1..][1..] == [] && {} + {a} - {a} == {};
    case Reinstall =>
      LaunchesThen(names, [Save, Watch]);
      assert {} + (set n | n in names) == set n | n in names;
      StopsThen(names, LaunchAll(names) + [Save, Watch], {});
  }

  /** Every mode change in hand is followed by a save and a look at the watcher. */
  predicate Closing(todo: seq<Action>) {
    if todo == [] then true
    else
      var rest := todo[1..];
      && (todo[0].Launch? && !todo[0].kind.AsRecorded? ==> Save in rest && Watch in rest)
      && (todo[0].Watch? ==> rest == [])
      && Closing(rest)
  }

  lemma {:induction false} StopsClose(names: seq<string>, rest: seq<Action>)
    requires Closing(rest)
    ensures Closing(StopAll(names) + rest)
  {
    if names == [] {
      assert StopAll(names) + rest == rest;
    } else {
      assert (StopAll(names) + rest)[1..] == StopAll(names[1..]) + rest;
      StopsClose(names[1..], rest);
    }
  }

  lemma {:induction false} LaunchesClose(names: seq<string>)
    ensures Closing(LaunchAll(names) + [Save, Watch])
  {
    var end := [Save, Watch];
    assert end[0] == Save && end[1] == Watch && end[1..] == [Watch] && [Watch][1..] == [];
    if names == [] {
      assert LaunchAll(names) + end == end;
    } else {
      var tail := LaunchAll(names[1..]) + end;
      assert (LaunchAll(names) + end)[1..] == tail;
      LaunchesClose(names[1..]);
      assert tail[|tail| - 2] == Save && tail[|tail| - 1] == Watch;
    }
  }

  lemma {:induction false} SwitchesClose(names: seq<string>, mode: string, modes: map<string, string>)
    ensures Closing(SwitchAll(names, mode, modes) + [Save, Watch])
  {
    var end := [Save, Watch];
    assert end[1..] == [Watch] && [Watch][1..] == [];
    var script := SwitchAll(names, mode, modes) + end;
    if names == [] {
      assert script == end;
    } else {
      SwitchesClose(names[1..], mode, modes);
      var tail := SwitchAll(names[1..], mode, modes) + end;
      if !(names[0] in modes && modes[names[0]] == mode) {
        assert script[1..][1..] == tail;
        assert tail[|tail| - 2] == Save && tail[|tail| - 1] == Watch;
      }
    }
  }

  lemma ScriptCloses(names: seq<string>, r: Request, modes: map<string, string>)
    ensures Closing(Script(names, r, modes))
  {
    var script, end := Script(names, r, modes), [Save, Watch];
    match r
    case ModeOne(a, m) =>
      assert script[1..] == [Launch(a, SetMode(m)), Save, Watch] && script[1..][1..] == end;
      assert end[0] == Save && end[1] == Watch && end[1..] == [Watch] && [Watch][1..] == [];
    case ModeAll(m) => SwitchesClose(names, m, modes);
    case Restart(a) => assert script[1..][1..] == [];
    case Reinstall =>
      LaunchesClose(names);
      StopsClose(names, LaunchAll(names) + end);
  }

  // ---- The saved file ----

  /** With no save to come the file holds the recorded modes. */
  predicate BooksOk(s: System) {
    Closing(s.todo) && (Save !in s.todo ==> s.saved == Modes(s.apps))
  }

  lemma SameModes(s: System, e: Event, names: seq<string>)
    requires Possible(s, e) && !(e.DoLaunch? && !e.kind.AsRecorded?)
    ensures Modes(Step(s, e, names).apps) == Modes(s.apps)
  {
    var t := Step(s, e, names);
    assert t.apps.Keys == s.apps.Keys;
    forall a | a in s.apps ensures t.apps[a].rec.mode == s.apps[a].rec.mode {}
  }

  lemma StepKeepsBooks(s: System, e: Event, names: seq<string>)
    requires BooksOk(s) && Possible(s, e)
    ensures BooksOk(Step(s, e, names))
  {
    if e.Begin? { ScriptCloses(names, e.request, Modes(s.apps)); }
    if !(e.DoLaunch? && !e.kind.AsRecorded?) { SameModes(s, e, names); }
    if s.todo != [] {
      assert forall act :: act in s.todo ==> act == s.todo[0] || act in s.todo[1..];
      assert forall act :: act in s.todo[1..] ==> act in s.todo;
    }
  }

  lemma StepKeepsScript(s: System, e: Event, names: seq<string>)
    requires ScriptOk(s) && Possible(s, e)
    requires Distinct(names)
    ensures ScriptOk(Step(s, e, names))
  {
    var t := Step(s, e, names);
    if e.Begin? {
      ScriptBalanced(names, e.request, Modes(s.apps));
      assert DownApps(t) == DownApps(s) == {};
    } else if e.PortFree? || (e.BeginStop? && s.apps[e.app].rec.proc.None?) {
      assert DownApps(t) == DownApps(s) + {e.app};
    } else if e.DoLaunch? {
      assert DownApps(t) == DownApps(s) - {e.app};
    } else {
      assert DownApps(t) == DownApps(s);
    }
  }

  /** What needs nothing known of the timers. */
  ghost predicate PlanOk(s: System) {
    ScriptOk(s) && BooksOk(s) && forall a :: a in s.apps ==> StopMarked(s.apps[a])
  }

  lemma StepKeepsPlan(s: System, e: Event, names: seq<string>)
    requires PlanOk(s) && Possible(s, e) && Distinct(names)
    ensures PlanOk(Step(s, e, names))
  {
    StepKeepsScript(s, e, names);
    StepKeepsBooks(s, e, names);
    if e.DoLaunch? { assert e.app in DownApps(s); }
  }

  // ---- Whole runs ----

  ghost predicate Inv(s: System, timers: Timers) {
    AppsOk(s, timers) && PlanOk(s)
  }

  lemma {:induction false} RunKeepsInv(s: System, es: seq<Event>, names: seq<string>, timers: Timers)
    requires Inv(s, timers) && Run(s, es, names, timers) && Sound(timers) && Distinct(names)
    ensures Inv(After(s, es, names, timers), timers)
    decreases |es|
  {
    if es != [] {
      StepKeepsApps(s, es[0], names, timers);
      StepKeepsPlan(s, es[0], names);
      RunKeepsInv(Step(s, es[0], names), es[1..], names, timers);
    }
  }

  /** In whatever order and however late timers run. */
  lemma {:induction false} RunKeepsPlan(s: System, es: seq<Event>, names: seq<string>, timers: Timers)
    requires PlanOk(s) && Run(s, es, names, timers) && Distinct(names)
    ensures PlanOk(After(s, es, names, timers))
    decreases |es|
  {
    if es != [] {
      StepKeepsPlan(s, es[0], names);
      RunKeepsPlan(Step(s, es[0], names), es[1..], names, timers);
    }
  }

  lemma InitInv(s: System, names: seq<string>, timers: Timers)
    requires Init(s, names)
    ensures Inv(s, timers)
  {
    assert DownApps(s) == {};
  }

  /** At most one live process, and it is the recorded one. */
  predicate Single(s: System) {
    forall a, p, q :: a in s.apps && p in s.apps[a].live && q in s.apps[a].live ==> p == q
  }

  /**
   * In every reachable state each app has at most one live process. It is the one the manager
   * reports as running, and it was launched in the mode recorded for the app.
   */
  lemma OneProcessPerApp(s: System, es: seq<Event>, names: seq<string>, timers: Timers, a: string)
    requires Init(s, names) && Run(s, es, names, timers) && Sound(timers)
    requires a in After(s, es, names, timers).apps
    ensures var x := After(s, es, names, timers).apps[a];
      && (x.live == {} <==> x.rec.pid.None?)
      && (forall p :: p in x.live ==> x.rec.proc == x.rec.pid == Some(p.id) && p.mode == x.rec.mode && x.live == {p})
  {
    InitInv(s, names, timers);
    RunKeepsInv(s, es, names, timers);
  }

  /** A restart timer runs while `stopping` suppresses it, or before any replacement is started. */
  lemma RestartTimerIsSafe(s: System, es: seq<Event>, names: seq<string>, timers: Timers, a: string)
    requires Init(s, names) && Run(s, es, names, timers) && Sound(timers)
    requires a in After(s, es, names, timers).apps && After(s, es, names, timers).apps[a].timers != []
    ensures var x := After(s, es, names, timers).apps[a];
      |x.timers| == 1 && x.live == {} && (x.rec.stopping || x.phase.Up?)
  {
    InitInv(s, names, timers);
    RunKeepsInv(s, es, names, timers);
  }

  /** With no operation in flight every app is up again and the saved file holds the recorded modes. */
  lemma NothingLeftBehind(s: System, es: seq<Event>, names: seq<string>, timers: Timers)
    requires Init(s, names) && Run(s, es, names, timers) && After(s, es, names, timers).todo == []
    ensures var t := After(s, es, names, timers);
      t.saved == Modes(t.apps) && forall a :: a in t.apps ==> t.apps[a].phase.Up? && !t.apps[a].rec.stopping
  {
    InitInv(s, names, timers);
    RunKeepsPlan(s, es, names, timers);
    var t := After(s, es, names, timers);
    forall a | a in t.apps ensures t.apps[a].phase.Up? {
      assert a !in DownApps(t);
    }
  }

  // ---- The margin is exact ----

  ghost predicate AlwaysSingle(timers: Timers) {
    forall s, es, names :: Init(s, names) && Run(s, es, names, timers) ==> Single(After(s, es, names, timers))
  }

  /**
   * Were timers free to overtake each other, single processes would be guaranteed exactly when
   * restart timers are less than 3500 ms late.
   */
  lemma MarginIsExact(lag: nat)
    ensures AlwaysSingle(AnyOrder(lag)) <==> lag < 3500
  {
    var timers := AnyOrder(lag);
    if lag < 3500 {
      forall s, es, names | Init(s, names) && Run(s, es, names, timers) ensures Single(After(s, es, names, timers)) {
        InitInv(s, names, timers);
        RunKeepsInv(s, es, names, timers);
      }
    } else {
      var s, es, names := LateTimer(timers);
      assert !Single(After(s, es, names, timers));
    }
  }

  /** The system with one app called portal. */
  function Portal(now: int, r: Record, phase: Phase, live: set<Process>, timers: seq<int>, todo: seq<Action>): System {
    System(now, map["portal" := App(r, phase, live, timers)], todo, map["portal" := "dev"],
      Watcher(Some(1), false, {1}, {}, []), 2)
  }

  /** The app crashes at time 0. */
  lemma Crash(timers: Timers) returns (s: System, es: seq<Event>)
    ensures Init(s, ["portal"]) && Run(s, es, ["portal"], timers)
    ensures After(s, es, ["portal"], timers) == Portal(0, Record("dev", Some(0), None, false, 1), Up, {}, [2000], [])
  {
    var a, p := "portal", Process(0, "dev");
    s := Portal(0, Record("dev", Some(0), Some(0), false, 0), Up, {p}, [], []);
    assert Modes(s.apps)[a] == "dev" && s.saved == Modes(s.apps);
    assert {p} - {p} == {} && [] + [0 + RESTART_DELAY] == [2000];
    var t;
    es, t := Extend(s, [], s, Exit(a, p), [a], timers);
  }

  /** A restart request arrives at once. */
  lemma CrashThenStop(timers: Timers) returns (s: System, es: seq<Event>)
    ensures Init(s, ["portal"]) && Run(s, es, ["portal"], timers)
    ensures After(s, es, ["portal"], timers) ==
            Portal(0, Record("dev", Some(0), None, true, 1), Terminating(5000), {}, [2000],
              [Stop("portal"), Launch("portal", AsRecorded)])
  {
    var a := "portal";
    s, es := Crash(timers);
    var t := After(s, es, [a], timers);
    es, t := Extend(s, es, t, Begin(Restart(a)), [a], timers);
    assert t == Portal(0, Record("dev", Some(0), None, false, 1), Up, {}, [2000], [Stop(a), Launch(a, AsRecorded)]);
    es, t := Extend(s, es, t, BeginStop(a), [a], timers);
  }

  /** At 5500 the app is down and its restart timer still pending. */
  lemma DownWithTimer(timers: Timers) returns (s: System, es: seq<Event>, t: System)
    requires timers.AnyOrder? && timers.lag >= 3500
    ensures Init(s, ["portal"]) && Run(s, es, ["portal"], timers) && t == After(s, es, ["portal"], timers)
    ensures t == Portal(5500, Record("dev", None, None, false, 1), Down, {}, [2000], [Launch("portal", AsRecorded)])
  {
    var a, names := "portal", ["portal"];
    s, es := CrashThenStop(timers);
    t := After(s, es, names, timers);
    es, t := Extend(s, es, t, Tick(TERM_TIMEOUT), names, timers);
    es, t := Extend(s, es, t, TermTimeout(a), names, timers);
    es, t := Extend(s, es, t, Tick(KILL_GRACE), names, timers);
    assert t == Portal(5500, Record("dev", Some(0), None, true, 1), Killed(5500), {}, [2000],
      [Stop(a), Launch(a, AsRecorded)]);
    es, t := Extend(s, es, t, GraceOver(a), names, timers);
    es, t := Extend(s, es, t, PortFree(a), names, timers);
  }

  /** The operation starts the app, then the late timer starts it again. */
  lemma LateTimer(timers: Timers) returns (s: System, es: seq<Event>, names: seq<string>)
    requires timers.AnyOrder? && timers.lag >= 3500
    ensures Init(s, names) && Run(s, es, names, timers) && !Single(After(s, es, names, timers))
  {
    var a := "portal";
    var t;
    names := ["portal"];
    s, es, t := DownWithTimer(timers);
    es, t := Extend(s, es, t, DoLaunch(a, AsRecorded, true, true), names, timers);
    es, t := Extend(s, es, t, Fire(a, true), names, timers);
    assert Process(2, "dev") in t.apps[a].live && Process(3, "dev") in t.apps[a].live;
  }

  lemma Extend(s: System, es: seq<Event>, t: System, e: Event, names: seq<string>, timers: Timers)
    returns (es': seq<Event>, t': System)
    requires Run(s, es, names, timers) && t == After(s, es, names, timers) && Enabled(t, e, timers)
    ensures es' == es + [e] && Run(s, es', names, timers) && t' == After(s, es', names, timers) == Step(t, e, names)
  {
    es', t' := es + [e], Step(t, e, names);
    RunSnoc(s, es, e, names, timers);
  }

  lemma {:induction false} RunSnoc(s: System, es: seq<Event>, e: Event, names: seq<string>, timers: Timers)
    requires Run(s, es, names, timers) && Enabled(After(s, es, names, timers), e, timers)
    ensures Run(s, es + [e], names, timers)
    ensures After(s, es + [e], names, timers) == Step(After(s, es, names, timers), e, names)
    decreases |es|
  {
    if es == [] {
      assert (es + [e])[1..] == [];
    } else {
      assert (es + [e])[1..] == es[1..] + [e];
      RunSnoc(Step(s, es[0], names), es[1..], e, names, timers);
    }
  }

  // ---- Modes saved to a file ----

  predicate ValidMode(m: string) {
    m == "dev" || m == "prod"
  }

  /** The mode an app starts in: the saved one, else the override, else the default, which nothing validates. */
  function InitialMode(a: string, default: string, overrides: map<string, string>, saved: map<string, string>): string {
    if a in saved && ValidMode(saved[a]) then saved[a]
    else if a in overrides && ValidMode(overrides[a]) then overrides[a]
    else if default == "" then "dev" else default
  }

  function InitialModes(
    names: seq<string>, default: string, overrides: map<string, string>, saved: map<string, string>)
    : map<string, string>
  {
    map a | a in names :: InitialMode(a, default, overrides, saved)
  }

  /**
   * A restart recovers the saved modes under every environment exactly when all of them are valid.
   * Modes that come from an unchecked CORE_APPS_MODE are not.
   */
  lemma RecoversModes(names: seq<string>, saved: map<string, string>)
    requires saved.Keys == (set n | n in names)
    ensures (forall default, overrides :: InitialModes(names, default, overrides, saved) == saved)
            <==> (forall a :: a in saved ==> ValidMode(saved[a]))
  {
    if forall a :: a in saved ==> ValidMode(saved[a]) {
      forall default, overrides ensures InitialModes(names, default, overrides, saved) == saved {}
    } else {
      var a :| a in saved && !ValidMode(saved[a]);
      var other := if saved[a] == "other" then "another" else "other";
      assert InitialModes(names, other, map[], saved)[a] == other != saved[a];
    }
  }

  /**
   * What a new manager starts an app in: the saved mode if it is dev or prod; without one the overriding
   * mode if it is; without either the default, dev if that is empty. Other apps' entries do not matter.
   */
  lemma StartsIn(
    names: seq<string>, default: string, overrides: map<string, string>, saved: map<string, string>, a: string)
    requires a in names
    ensures var modes := InitialModes(names, default, overrides, saved);
      && modes.Keys == (set n | n in names)
      && var kept := a in saved && saved[a] in {"dev", "prod"};
        var forced := a in overrides && overrides[a] in {"dev", "prod"};
        && (kept ==> modes[a] == saved[a])
        && (!kept && forced ==> modes[a] == overrides[a])
        && (!kept && !forced ==> modes[a] == if default == "" then "dev" else default)
  {
  }

  /** Every recorded mode is valid, and so is every mode the operation in hand will record. */
  predicate ModesValid(s: System) {
    && (forall a :: a in s.apps ==> ValidMode(s.apps[a].rec.mode))
    && WillBeValid(s.todo)
  }

  predicate WillBeValid(todo: seq<Action>) {
    forall act :: act in todo && act.Launch? && act.kind.SetMode? ==> ValidMode(act.kind.mode)
  }

  lemma {:induction false} SwitchedAre(names: seq<string>, mode: string, modes: map<string, string>)
    ensures forall act :: act in SwitchAll(names, mode, modes) && act.Launch? ==> act.kind == SetMode(mode)
  {
    if names != [] { SwitchedAre(names[1..], mode, modes); }
  }

  lemma {:induction false} StoppedAre(names: seq<string>)
    ensures forall act :: act in StopAll(names) ==> act.Stop?
  {
    if names != [] { StoppedAre(names[1..]); }
  }

  lemma {:induction false} LaunchedAre(names: seq<string>)
    ensures forall act :: act in LaunchAll(names) ==> act.Launch? && act.kind == Rebuild
  {
    if names != [] { LaunchedAre(names[1..]); }
  }

  lemma ScriptIsValid(names: seq<string>, r: Request, modes: map<string, string>)
    requires r.ModeOne? || r.ModeAll? ==> ValidMode(r.mode)
    ensures WillBeValid(Script(names, r, modes))
  {
    if r.ModeAll? { SwitchedAre(names, r.mode, modes); }
    StoppedAre(names);
    LaunchedAre(names);
  }

  lemma StepKeepsModes(s: System, e: Event, names: seq<string>)
    requires ModesValid(s) && Possible(s, e)
    ensures ModesValid(Step(s, e, names))
  {
    if e.Begin? { ScriptIsValid(names, e.request, Modes(s.apps)); }
    if s.todo != [] { assert s.todo[0] in s.todo && forall act :: act in s.todo[1..] ==> act in s.todo; }
  }

  lemma {:induction false} RunKeepsModes(s: System, es: seq<Event>, names: seq<string>, timers: Timers)
    requires ModesValid(s) && Run(s, es, names, timers)
    ensures ModesValid(After(s, es, names, timers))
    decreases |es|
  {
    if es != [] {
      StepKeepsModes(s, es[0], names);
      RunKeepsModes(Step(s, es[0], names), es[1..], names, timers);
    }
  }

  lemma {:induction false} SameApps(s: System, es: seq<Event>, names: seq<string>, timers: Timers)
    requires Run(s, es, names, timers)
    ensures After(s, es, names, timers).apps.Keys == s.apps.Keys
    decreases |es|
  {
    if es != [] { SameApps(Step(s, es[0], names), es[1..], names, timers); }
  }

  /**
   * After any run, with no operation in flight, the file the run has saved gives a new manager the
   * recorded modes under every environment exactly if these are valid - as they are if the first were.
   */
  lemma RestartRecoversModes(s: System, es: seq<Event>, names: seq<string>, timers: Timers)
    requires Init(s, names) && Run(s, es, names, timers) && After(s, es, names, timers).todo == []
    ensures var modes := Modes(After(s, es, names, timers).apps);
      && ((forall default, overrides ::
              InitialModes(names, default, overrides, After(s, es, names, timers).saved) == modes)
            <==> (forall a :: a in modes ==> ValidMode(modes[a])))
      && ((forall a :: a in s.apps ==> ValidMode(s.apps[a].rec.mode)) ==>
            forall a :: a in modes ==> ValidMode(modes[a]))
  {
    NothingLeftBehind(s, es, names, timers);
    SameApps(s, es, names, timers);
    RecoversModes(names, After(s, es, names, timers).saved);
    if forall a :: a in s.apps ==> ValidMode(s.apps[a].rec.mode) { RunKeepsModes(s, es, names, timers); }
  }

  /** Entries of `from` for known apps and with a valid mode replace those of `modes`. */
  method Override(modes: map<string, string>, from: map<string, string>) returns (r: map<string, string>)
    ensures r == map a | a in modes :: if a in from && ValidMode(from[a]) then from[a] else modes[a]
  {
    r := modes;
    var todo := from.Keys;
    while todo != {}
      invariant todo <= from.Keys && r.Keys == modes.Keys
      invariant forall a :: a in modes ==>
        r[a] == if a in from && a !in todo && ValidMode(from[a]) then from[a] else modes[a]
      decreases todo
    {
      var a :| a in todo;
      if a in r && (from[a] == "dev" || from[a] == "prod") {
        r := r[a := from[a]];
      }
      todo := todo - {a};
    }
  }

  method GetInitialModes(
      names: seq<string>, default: string, overrides: map<string, string>, saved: map<string, string>)
    returns (modes: map<string, string>)
    ensures modes == InitialModes(names, default, overrides, saved)
  {
    var globalDefault := if default == "" then "dev" else default;
    modes := map[];
    for i := 0 to |names|
      invariant modes.Keys == set k | 0 <= k < i :: names[k]
      invariant forall a :: a in modes ==> modes[a] == globalDefault
    {
      modes := modes[names[i] := globalDefault];
    }
    modes := Override(modes, overrides);
    modes := Override(modes, saved);
  }
}

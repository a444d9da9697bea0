/** The app manager's handlers, run in place (provision/docker/app-manager.js), as steps of `AppManager`. */
module AppHandlers {
  import opened Strings
  import opened AppManager

  function Records(apps: map<string, App>): map<string, Record> {
    map a | a in apps :: apps[a].rec
  }

  class Manager {
    var apps: map<string, Record>
    var appLibProc: Option<nat>
    var modesFile: map<string, string>

    /** What the manager knows of `s`. */
    ghost predicate Tracks(s: System)
      reads this
    {
      apps == Records(s.apps) && appLibProc == s.watcher.handle && modesFile == s.saved
    }

    constructor (apps: map<string, Record>, appLibProc: Option<nat>, modesFile: map<string, string>)
      ensures this.apps == apps && this.appLibProc == appLibProc && this.modesFile == modesFile
    {
      this.apps, this.appLibProc, this.modesFile := apps, appLibProc, modesFile;
    }

    method HasAnyDevApp(ghost s: System) returns (r: bool)
      requires Tracks(s)
      ensures r == AnyDev(Modes(s.apps))
    {
      var todo := apps.Keys;
      while todo != {}
        invariant todo <= apps.Keys
        invariant forall a :: a in apps && a !in todo ==> apps[a].mode != "dev"
        decreases todo
      {
        var a :| a in todo;
        if apps[a].mode == "dev" {
          assert Modes(s.apps)[a] == "dev";
          return true;
        }
        todo := todo - {a};
      }
      return false;
    }

    method SaveModes(ghost s: System, ghost names: seq<string>)
      requires Tracks(s) && Possible(s, DoSave)
      modifies this`modesFile
      ensures Tracks(Step(s, DoSave, names))
    {
      var modes: map<string, string> := map[];
      var todo := apps.Keys;
      while todo != {}
        invariant todo <= apps.Keys && modes.Keys == apps.Keys - todo
        invariant forall a :: a in modes ==> modes[a] == apps[a].mode
        decreases todo
      {
        var a :| a in todo;
        modes := modes[a := apps[a].mode];
        todo := todo - {a};
      }
      modesFile := modes;
    }

    /** What `stopApp` does when its wait is over. */
    method Forget(name: string)
      requires name in apps
      modifies this`apps
      ensures apps == old(apps)[name := Cleared(old(apps)[name])]
    {
      apps := apps[name := apps[name].(proc := None)];
      apps := apps[name := apps[name].(pid := None)];
    }

    /** The exit handlers: that of `startApp`, and that of `stopApp` if it waits for this process. */
    method OnExit(ghost s: System, name: string, ghost p: Process, awaited: bool, ghost names: seq<string>)
      returns (armed: bool)
      requires Tracks(s) && Possible(s, Exit(name, p)) && awaited == StopAwaits(s.apps[name], p)
      modifies this`apps
      ensures Tracks(Step(s, Exit(name, p), names))
      ensures armed <==> Step(s, Exit(name, p), names).apps[name].timers != s.apps[name].timers
    {
      armed := false;
      if !apps[name].stopping {
        apps := apps[name := apps[name].(pid := None)];
        apps := apps[name := apps[name].(restarts := apps[name].restarts + 1)];
        armed := true;
      }
      if awaited { Forget(name); }
    }

    /** `stopApp` up to its wait; without a process object there is nothing to wait for. */
    method BeginStop(ghost s: System, name: string, ghost names: seq<string>) returns (waits: bool)
      requires Tracks(s) && Possible(s, Event.BeginStop(name))
      modifies this`apps
      ensures Tracks(Step(s, Event.BeginStop(name), names))
      ensures waits <==> Step(s, Event.BeginStop(name), names).apps[name].phase.Terminating?
    {
      if apps[name].proc.None? { return false; }
      apps := apps[name := apps[name].(stopping := true)];
      return true;
    }

    /** `stopApp` when the killed process has had its time; `stopping` stays set until the port is free. */
    method ClearStopped(ghost s: System, name: string, ghost names: seq<string>)
      requires Tracks(s) && Possible(s, GraceOver(name))
      modifies this`apps
      ensures Tracks(Step(s, GraceOver(name), names))
    {
      Forget(name);
    }

    /** `stopApp` once the port is free. */
    method FinishStop(ghost s: System, name: string, ghost names: seq<string>)
      requires Tracks(s) && Possible(s, PortFree(name))
      modifies this`apps
      ensures Tracks(Step(s, PortFree(name), names))
    {
      apps := apps[name := apps[name].(stopping := false)];
    }

    /** The restart timer's callback; `spawned` is what `startApp` returns if it is called. */
    method OnRestartTimer(ghost s: System, name: string, spawned: Option<nat>, ghost names: seq<string>)
      requires Tracks(s) && spawned in {None, Some(s.nextId)} && Possible(s, Fire(name, spawned.Some?))
      modifies this`apps
      ensures Tracks(Step(s, Fire(name, spawned.Some?), names))
    {
      if !apps[name].stopping { Record(name, spawned); }
    }

    /** A process that was spawned becomes the app's recorded one, with its pid. */
    method Record(name: string, spawned: Option<nat>)
      requires name in apps
      modifies this`apps
      ensures apps == old(apps)[name := AfterStart(old(apps)[name], spawned)]
    {
      if spawned.Some? {
        apps := apps[name := apps[name].(proc := spawned)];
        apps := apps[name := apps[name].(pid := spawned)];
      }
    }

    /** The mode an operation settles on: dev if a production build has failed. */
    method SettleMode(name: string, kind: Kind, built: bool)
      requires name in apps
      modifies this`apps
      ensures apps == old(apps)[name := old(apps)[name].(mode := LaunchMode(kind, old(apps)[name].mode, built))]
    {
      match kind {
        case SetMode(mode) =>
          if mode == "prod" && !built {
            apps := apps[name := apps[name].(mode := "dev")];
          } else {
            apps := apps[name := apps[name].(mode := mode)];
          }
        case AsRecorded =>
        case Rebuild =>
          if apps[name].mode == "prod" && !built {
            apps := apps[name := apps[name].(mode := "dev")];
          }
      }
    }

    /** A control operation after `stopApp` and any build: settle the mode, start the app. */
    method Relaunch(ghost s: System, name: string, kind: Kind, built: bool, spawned: Option<nat>,
      ghost names: seq<string>)
      requires Tracks(s) && spawned in {None, Some(s.nextId)} && Possible(s, DoLaunch(name, kind, built, spawned.Some?))
      modifies this`apps
      ensures Tracks(Step(s, DoLaunch(name, kind, built, spawned.Some?), names))
    {
      SettleMode(name, kind, built);
      Record(name, spawned);
    }

    /** `running` is `isAppLibRunning()`, `spawned` what `startAppLib` returns if it is called. */
    method UpdateAppLibWatcher(ghost s: System, running: bool, spawned: nat, ghost names: seq<string>)
      returns (signalled: bool)
      requires Tracks(s) && Possible(s, DoWatch) && running == WatcherRunning(s.watcher) && spawned == s.nextId
      modifies this`appLibProc
      ensures Tracks(Step(s, DoWatch, names))
      ensures signalled <==> running && !AnyDev(Modes(s.apps))
    {
      signalled := false;
      var needsWatcher := HasAnyDevApp(s);
      if needsWatcher && !running {
        appLibProc := Some(spawned);
      } else if !needsWatcher && running {
        signalled := true;
        appLibProc := None;
      }
    }

    /** The watcher's exit handler; `armed` says whether it sets a restart timer. */
    method OnWatcherExit(ghost s: System, ghost id: nat, ghost signalled: bool, ghost names: seq<string>)
      returns (armed: bool)
      requires Tracks(s) && Possible(s, WatcherExit(id, signalled))
      modifies this`appLibProc
      ensures Tracks(Step(s, WatcherExit(id, signalled), names))
      ensures armed <==> Step(s, WatcherExit(id, signalled), names).watcher.restarts != s.watcher.restarts
    {
      armed := HasAnyDevApp(s);
      if !armed { appLibProc := None; }
    }

    /** The watcher's restart timer. */
    method OnWatcherRestart(ghost s: System, spawned: nat, ghost names: seq<string>)
      requires Tracks(s) && Possible(s, WatcherRestart) && spawned == s.nextId
      modifies this`appLibProc
      ensures Tracks(Step(s, WatcherRestart, names))
    {
      appLibProc := Some(spawned);
    }
  }
}

/** When the shared package watcher follows the modes (provision/docker/app-manager.js). */
module AppWatcher {
  import opened AppManager
  import opened Strings

  function Dev(s: System): bool { AnyDev(Modes(s.apps)) }

  /** No restart is outstanding, and no watcher that was sent SIGTERM is still alive. */
  predicate Settled(w: Watcher) { w.restarts == [] && w.dying == {} }

  /** One watcher runs, the one the manager knows, if some app is in dev, and none otherwise. */
  predicate Matches(s: System) {
    if Dev(s) then s.watcher.handle.Some? && s.watcher.live == {s.watcher.handle.value} else s.watcher.live == {}
  }

  /**
   * The moment of a look at the watcher is good: no restart is outstanding, and no watcher is alive
   * but the known one - and, if no app is in dev, those that were told to go. If some app is in dev,
   * the one restart of a watcher ended by a signal does no harm either: that watcher counts as running.
   */
  predicate GoodMoment(w: Watcher, dev: bool) {
    || (w.restarts == [] && forall i :: i in w.live ==> w.handle == Some(i) || (!dev && i in w.dying))
    || (dev && WatcherRunning(w) && |w.restarts| == 1 && w.live == {})
  }

  /** With a dev app: the known watcher, or one restart to come. Without: at most watchers told to go. */
  predicate Right(w: Watcher, dev: bool) {
    if dev then
      || (w.restarts == [] && w.dying == {} && w.handle.Some? && w.live == {w.handle.value})
      || (|w.restarts| == 1 && w.live == {})
    else w.restarts == [] && w.live <= w.dying
  }

  /** Watcher ids are fresh; the known watcher has not been told to go, and if it is dead a restart is to come. */
  predicate Wellformed(w: Watcher, nextId: nat) {
    && w.dying <= w.live
    && (forall i :: i in w.live ==> i < nextId)
    && (w.handle.Some? ==> w.handle.value !in w.dying)
    && (w.handle.Some? && w.handle.value in w.live ==> !w.exited)
    && (w.handle.Some? && w.handle.value !in w.live ==> w.restarts != [])
  }

  /** A look at the watcher leaves it right exactly if the moment is good. */
  lemma UpdateIsRight(w: Watcher, dev: bool, id: nat)
    requires Wellformed(w, id)
    ensures Wellformed(UpdateWatcher(w, dev, id), id + 1)
    ensures Right(UpdateWatcher(w, dev, id), dev) <==> GoodMoment(w, dev)
  {
    var v := UpdateWatcher(w, dev, id);
    if dev {
      if GoodMoment(w, dev) && w.restarts == [] {
        assert forall i :: i in v.live ==> v.handle == Some(i);
        assert v.live == {v.handle.value};
      }
    }
  }

  // ---- Exits and restarts, with no request in between ----

  /** Only time and the watcher: nothing is asked of the manager. */
  predicate Quiet(es: seq<Event>) {
    forall e :: e in es ==> e.Tick? || e.WatcherExit? || e.WatcherRestart?
  }

  /** However the watcher goes on by itself: whenever nothing is outstanding it matches the modes. */
  ghost predicate StaysMatched(s: System, names: seq<string>) {
    forall es :: Quiet(es) && Run(s, es, names, Free) && Settled(After(s, es, names, Free).watcher) ==>
      Matches(After(s, es, names, Free))
  }

  lemma {:induction false} RightStaysMatched(s: System, es: seq<Event>, names: seq<string>)
    requires Quiet(es) && Run(s, es, names, Free) && Wellformed(s.watcher, s.nextId) && Right(s.watcher, Dev(s))
    requires Settled(After(s, es, names, Free).watcher)
    ensures Matches(After(s, es, names, Free))
    decreases |es|
  {
    if es != [] {
      assert es[0] in es;
      RightStaysMatched(Step(s, es[0], names), es[1..], names);
    }
  }

  /** The watchers that will be alive once nothing is outstanding. */
  function Coming(w: Watcher, dev: bool): nat {
    |if dev then w.live else w.live - w.dying| + |w.restarts|
  }

  lemma ComingStays(s: System, e: Event, names: seq<string>)
    requires Possible(s, e) && Wellformed(s.watcher, s.nextId)
    requires e.Tick? || e.WatcherRestart? || (e.WatcherExit? && e.id in s.watcher.dying)
    ensures Coming(Step(s, e, names).watcher, Dev(s)) == Coming(s.watcher, Dev(s))
  {
    var w, v := s.watcher, Step(s, e, names).watcher;
    if e.WatcherExit? {
      if !Dev(s) { assert v.live - v.dying == w.live - w.dying; }
    } else if e.WatcherRestart? {
      assert (w.live + {s.nextId}) - w.dying == (w.live - w.dying) + {s.nextId};
    }
  }

  function Outstanding(w: Watcher): nat { 2 * |w.dying| + |w.restarts| }

  function Early(s: System): nat {
    if s.watcher.restarts != [] && s.watcher.restarts[0] > s.now then 1 else 0
  }

  /** A step towards having nothing outstanding. */
  lemma SettlingStep(s: System, names: seq<string>) returns (e: Event)
    requires Wellformed(s.watcher, s.nextId) && !Settled(s.watcher)
    ensures (e.Tick? || e.WatcherExit? || e.WatcherRestart?) && Possible(s, e)
    ensures var t := Step(s, e, names);
      && Wellformed(t.watcher, t.nextId) && Dev(t) == Dev(s) && Coming(t.watcher, Dev(s)) == Coming(s.watcher, Dev(s))
      && (Outstanding(t.watcher) < Outstanding(s.watcher)
          || (Outstanding(t.watcher) == Outstanding(s.watcher) && Early(t) < Early(s)))
  {
    var w := s.watcher;
    if w.dying != {} {
      var id :| id in w.dying;
      e := WatcherExit(id, true);
    } else {
      e := if w.restarts[0] > s.now then Tick(w.restarts[0] - s.now) else WatcherRestart;
    }
    ComingStays(s, e, names);
  }

  /** Left alone the watcher can settle, and then that many are alive. */
  lemma {:induction false} Settles(s: System, names: seq<string>) returns (es: seq<Event>)
    requires Wellformed(s.watcher, s.nextId)
    ensures Quiet(es) && Run(s, es, names, Free)
    ensures var t := After(s, es, names, Free);
      Settled(t.watcher) && Dev(t) == Dev(s) && |t.watcher.live| == Coming(s.watcher, Dev(s))
    decreases Outstanding(s.watcher), Early(s)
  {
    var w := s.watcher;
    if Settled(w) {
      es := [];
      assert w.live - w.dying == w.live;
    } else {
      var e := SettlingStep(s, names);
      var rest := Settles(Step(s, e, names), names);
      es := [e] + rest;
      assert es[1..] == rest;
    }
  }

  lemma NotRightIsTooMany(w: Watcher, dev: bool, nextId: nat)
    requires Wellformed(w, nextId) && !Right(w, dev) && (dev ==> WatcherRunning(w))
    ensures Coming(w, dev) > if dev then 1 else 0
  {
    if dev {
      if w.handle.value in w.live {
        var others := w.live - {w.handle.value};
        assert w.live == {w.handle.value} + others && w.dying <= others;
      }
    } else if w.restarts == [] {
      var id :| id in w.live && id !in w.dying;
      assert id in w.live - w.dying;
    }
  }

  lemma NotRightBreaks(s: System, names: seq<string>)
    requires Wellformed(s.watcher, s.nextId) && !Right(s.watcher, Dev(s)) && (Dev(s) ==> WatcherRunning(s.watcher))
    ensures !StaysMatched(s, names)
  {
    NotRightIsTooMany(s.watcher, Dev(s), s.nextId);
    var es := Settles(s, names);
    assert !Matches(After(s, es, names, Free));
  }

  /** After a look at the watcher it stays matched, left to itself, exactly if the moment was good. */
  lemma LookIsExact(s: System, names: seq<string>)
    requires Possible(s, DoWatch) && Wellformed(s.watcher, s.nextId)
    ensures StaysMatched(Step(s, DoWatch, names), names) <==> GoodMoment(s.watcher, Dev(s))
  {
    var t := Step(s, DoWatch, names);
    UpdateIsRight(s.watcher, Dev(s), s.nextId);
    if GoodMoment(s.watcher, Dev(s)) { RightIsEnough(t, names); } else { NotRightBreaks(t, names); }
  }

  lemma RightIsEnough(s: System, names: seq<string>)
    requires Wellformed(s.watcher, s.nextId) && Right(s.watcher, Dev(s))
    ensures StaysMatched(s, names)
  {
    forall es | Quiet(es) && Run(s, es, names, Free) && Settled(After(s, es, names, Free).watcher)
      ensures Matches(After(s, es, names, Free)) {
      RightStaysMatched(s, es, names);
    }
  }

  // ---- Whole runs ----

  /** With no look to come the watcher is right. */
  predicate WatchOk(s: System) {
    Closing(s.todo) && Wellformed(s.watcher, s.nextId) && (Watch !in s.todo ==> Right(s.watcher, Dev(s)))
  }

  /** Every look at the watcher comes at a good moment. */
  predicate AllGood(s: System, es: seq<Event>, names: seq<string>, timers: Timers)
    requires Run(s, es, names, timers)
    decreases |es|
  {
    es == [] ||
    ((es[0].DoWatch? ==> GoodMoment(s.watcher, Dev(s))) && AllGood(Step(s, es[0], names), es[1..], names, timers))
  }

  lemma StepKeepsWatch(s: System, e: Event, names: seq<string>)
    requires WatchOk(s) && Possible(s, e) && (e.DoWatch? ==> GoodMoment(s.watcher, Dev(s)))
    ensures WatchOk(Step(s, e, names))
  {
    if e.Begin? { ScriptCloses(names, e.request, Modes(s.apps)); }
    if e.DoWatch? { UpdateIsRight(s.watcher, Dev(s), s.nextId); }
    if !(e.DoLaunch? && !e.kind.AsRecorded?) { SameModes(s, e, names); }
    if s.todo != [] { assert forall act :: act in s.todo ==> act == s.todo[0] || act in s.todo[1..]; }
  }

  lemma {:induction false} RunKeepsWatch(s: System, es: seq<Event>, names: seq<string>, timers: Timers)
    requires WatchOk(s) && Run(s, es, names, timers) && AllGood(s, es, names, timers)
    ensures WatchOk(After(s, es, names, timers))
    decreases |es|
  {
    if es != [] {
      StepKeepsWatch(s, es[0], names);
      RunKeepsWatch(Step(s, es[0], names), es[1..], names, timers);
    }
  }

  /**
   * If every look at the watcher comes at a good moment, then with no operation in flight and nothing
   * outstanding exactly one watcher runs if some app is in dev, and none otherwise.
   */
  lemma WatcherMatchesModes(s: System, es: seq<Event>, names: seq<string>, timers: Timers)
    requires Init(s, names) && Run(s, es, names, timers) && AllGood(s, es, names, timers)
    requires After(s, es, names, timers).todo == [] && Settled(After(s, es, names, timers).watcher)
    ensures Matches(After(s, es, names, timers))
  {
    RunKeepsWatch(s, es, names, timers);
  }

  /** In every state of the run with no operation in flight the watcher stays matched. */
  ghost predicate AlwaysMatched(s: System, es: seq<Event>, names: seq<string>)
    requires Run(s, es, names, Free)
    decreases |es|
  {
    && (s.todo == [] ==> StaysMatched(s, names))
    && (es != [] ==> AlwaysMatched(Step(s, es[0], names), es[1..], names))
  }

  lemma {:induction false} AlwaysMatchedIff(s: System, es: seq<Event>, names: seq<string>)
    requires WatchOk(s) && Run(s, es, names, Free)
    ensures AlwaysMatched(s, es, names) <==> AllGood(s, es, names, Free)
    decreases |es|
  {
    if s.todo == [] { RightIsEnough(s, names); }
    if es != [] {
      var t := Step(s, es[0], names);
      if es[0].DoWatch? && !GoodMoment(s.watcher, Dev(s)) {
        LookIsExact(s, names);
        assert t.todo == [];
      } else {
        StepKeepsWatch(s, es[0], names);
        AlwaysMatchedIff(t, es[1..], names);
      }
    }
  }

  /**
   * Over any run the watcher stays matched in every state with no operation in flight if and only if
   * every look at the watcher came at a good moment.
   */
  lemma MatchedExactly(s: System, es: seq<Event>, names: seq<string>)
    requires Init(s, names) && Run(s, es, names, Free)
    ensures AlwaysMatched(s, es, names) <==> AllGood(s, es, names, Free)
  {
    AlwaysMatchedIff(s, es, names);
  }

  // ---- A run that ends with two watchers ----

  /** A system with one app called portal. */
  function One(x: App, todo: seq<Action>, saved: string, now: int, w: Watcher, nextId: nat): System {
    System(now, map["portal" := x], todo, map["portal" := saved], w, nextId)
  }

  function UpIn(id: nat, mode: string): App {
    App(Record(mode, Some(id), Some(id), false, 0), Up, {Process(id, mode)}, [])
  }

  function DownIn(mode: string): App {
    App(Record(mode, None, None, false, 0), Down, {}, [])
  }

  function Todo(next: string): seq<Action> {
    [Stop("portal"), Launch("portal", SetMode(next)), Save, Watch]
  }

  function StoppingIn(id: nat, mode: string, now: int): App {
    App(Record(mode, Some(id), Some(id), true, 0), Terminating(now + TERM_TIMEOUT), {Process(id, mode)}, [])
  }

  /** A mode change is asked for. */
  lemma AskPortal(s0: System, es0: seq<Event>, s: System, id: nat, mode: string, next: string)
    returns (es: seq<Event>, t: System)
    requires Run(s0, es0, ["portal"], GraceInOrder) && s == After(s0, es0, ["portal"], GraceInOrder)
    requires s == One(UpIn(id, mode), [], mode, s.now, s.watcher, s.nextId) && next in {"dev", "prod"}
    ensures Run(s0, es, ["portal"], GraceInOrder) && t == After(s0, es, ["portal"], GraceInOrder)
    ensures t == One(StoppingIn(id, mode, s.now), Todo(next), mode, s.now, s.watcher, s.nextId)
  {
    es, t := Extend(s0, es0, s, Begin(ModeOne("portal", next)), ["portal"], GraceInOrder);
    assert t == One(UpIn(id, mode), Todo(next), mode, s.now, s.watcher, s.nextId);
    es, t := Extend(s0, es, t, BeginStop("portal"), ["portal"], GraceInOrder);
  }

  /** The process dies at once and its port is free. */
  lemma StopPortal(s0: System, es0: seq<Event>, s: System, id: nat, mode: string, next: string)
    returns (es: seq<Event>, t: System)
    requires Run(s0, es0, ["portal"], GraceInOrder) && s == After(s0, es0, ["portal"], GraceInOrder)
    requires s == One(StoppingIn(id, mode, s.now), Todo(next), mode, s.now, s.watcher, s.nextId)
    ensures Run(s0, es, ["portal"], GraceInOrder) && t == After(s0, es, ["portal"], GraceInOrder)
    ensures t == One(DownIn(mode), Todo(next)[1..], mode, s.now, s.watcher, s.nextId)
  {
    var p := Process(id, mode);
    es, t := Extend(s0, es0, s, Exit("portal", p), ["portal"], GraceInOrder);
    assert {p} - {p} == {};
    assert t.apps["portal"] == App(Record(mode, None, None, true, 0), FreeingPort, {}, []);
    es, t := Extend(s0, es, t, PortFree("portal"), ["portal"], GraceInOrder);
  }

  /** Portal starts in its new mode. */
  lemma StartPortal(s0: System, es0: seq<Event>, s: System, mode: string, next: string)
    returns (es: seq<Event>, t: System)
    requires Run(s0, es0, ["portal"], GraceInOrder) && s == After(s0, es0, ["portal"], GraceInOrder)
    requires s == One(DownIn(mode), Todo(next)[1..], mode, s.now, s.watcher, s.nextId)
    ensures Run(s0, es, ["portal"], GraceInOrder) && t == After(s0, es, ["portal"], GraceInOrder)
    ensures t == One(UpIn(s.nextId, next), [Save, Watch], mode, s.now, s.watcher, s.nextId + 1)
  {
    es, t := Extend(s0, es0, s, DoLaunch("portal", SetMode(next), true, true), ["portal"], GraceInOrder);
    assert Todo(next)[1..][1..] == [Save, Watch];
    assert {} + {Process(s.nextId, next)} == {Process(s.nextId, next)};
  }

  /** The mode is saved and the watcher is looked at. */
  lemma ClosePortal(s0: System, es0: seq<Event>, s: System, id: nat, mode: string, next: string)
    returns (es: seq<Event>, t: System)
    requires Run(s0, es0, ["portal"], GraceInOrder) && s == After(s0, es0, ["portal"], GraceInOrder)
    requires s == One(UpIn(id, next), [Save, Watch], mode, s.now, s.watcher, s.nextId)
    ensures Run(s0, es, ["portal"], GraceInOrder) && t == After(s0, es, ["portal"], GraceInOrder)
    ensures t == One(UpIn(id, next), [], next, s.now, UpdateWatcher(s.watcher, next == "dev", s.nextId), s.nextId + 1)
  {
    assert [Save, Watch][1..] == [Watch] && [Watch][1..] == [];
    assert Modes(s.apps) == map["portal" := next] && Modes(s.apps)["portal"] == next;
    es, t := Extend(s0, es0, s, DoSave, ["portal"], GraceInOrder);
    es, t := Extend(s0, es, t, DoWatch, ["portal"], GraceInOrder);
  }

  /** A whole mode change. */
  lemma SwitchPortal(s0: System, es0: seq<Event>, s: System, id: nat, mode: string, next: string)
    returns (es: seq<Event>, t: System)
    requires Run(s0, es0, ["portal"], GraceInOrder) && s == After(s0, es0, ["portal"], GraceInOrder)
    requires s == One(UpIn(id, mode), [], mode, s.now, s.watcher, s.nextId) && next in {"dev", "prod"}
    ensures Run(s0, es, ["portal"], GraceInOrder) && t == After(s0, es, ["portal"], GraceInOrder)
    ensures var w := UpdateWatcher(s.watcher, next == "dev", s.nextId + 1);
      t == One(UpIn(s.nextId, next), [], next, s.now, w, s.nextId + 2)
  {
    es, t := AskPortal(s0, es0, s, id, mode, next);
    es, t := StopPortal(s0, es, t, id, mode, next);
    es, t := StartPortal(s0, es, t, mode, next);
    es, t := ClosePortal(s0, es, t, s.nextId, mode, next);
  }

  /** The last dev app goes to prod and back before the old watcher has died. */
  lemma ThereAndBack() returns (s: System, es: seq<Event>, t: System)
    ensures Init(s, ["portal"]) && Run(s, es, ["portal"], GraceInOrder) && t == After(s, es, ["portal"], GraceInOrder)
    ensures t == One(UpIn(4, "dev"), [], "dev", 0, Watcher(Some(5), false, {1, 5}, {1}, []), 6)
  {
    s := One(UpIn(0, "dev"), [], "dev", 0, Watcher(Some(1), false, {1}, {}, []), 2);
    assert Modes(s.apps)["portal"] == "dev" && s.saved == Modes(s.apps);
    es, t := [], s;
    es, t := SwitchPortal(s, es, t, 0, "dev", "prod");
    assert t.watcher == Watcher(None, false, {1}, {1}, []) && t.nextId == 4;
    es, t := SwitchPortal(s, es, t, 2, "prod", "dev");
  }

  /** The old watcher's exit then arms a restart, and two watchers run with nothing outstanding. */
  lemma TwoWatchers() returns (s: System, es: seq<Event>)
    ensures Init(s, ["portal"]) && Run(s, es, ["portal"], GraceInOrder)
    ensures var t := After(s, es, ["portal"], GraceInOrder);
      t.todo == [] && Settled(t.watcher) && Dev(t) && t.watcher.live == {5, 6}
  {
    var names := ["portal"];
    var t;
    s, es, t := ThereAndBack();
    assert Modes(t.apps)["portal"] == "dev";
    es, t := Extend(s, es, t, WatcherExit(1, true), names, GraceInOrder);
    assert t.watcher == Watcher(Some(5), false, {5}, {}, [RESTART_DELAY]);
    es, t := Extend(s, es, t, Tick(RESTART_DELAY), names, GraceInOrder);
    es, t := Extend(s, es, t, WatcherRestart, names, GraceInOrder);
  }
}

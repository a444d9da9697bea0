/** Crashed apps are started again and their restarts counted (provision/docker/app-manager.js). */
module AppCrashes {
  import opened AppManager
  import opened Strings

  /** An app in dev that is not being dealt with runs, or is about to be started again. */
  predicate Attended(x: App) {
    x.phase.Up? && x.rec.mode == "dev" ==> x.live != {} || x.timers != []
  }

  predicate AllAttended(s: System) {
    forall a :: a in s.apps ==> Attended(s.apps[a])
  }

  lemma StepKeepsAttended(s: System, e: Event, names: seq<string>)
    requires AllAttended(s) && PlanOk(s) && Possible(s, e)
    ensures AllAttended(Step(s, e, names))
  {
    if e.Exit? {
      var x := s.apps[e.app];
      assert !x.rec.stopping ==> |OnExit(x, e.process, s.now).timers| > 0;
    } else if e.Fire? {
      var x, p := s.apps[e.app], Process(s.nextId, s.apps[e.app].rec.mode);
      assert p in x.live + {p};
    }
  }

  lemma {:induction false} RunKeepsAttended(s: System, es: seq<Event>, names: seq<string>, timers: Timers)
    requires AllAttended(s) && PlanOk(s) && Run(s, es, names, timers) && Distinct(names)
    ensures AllAttended(After(s, es, names, timers))
    decreases |es|
  {
    if es != [] {
      StepKeepsAttended(s, es[0], names);
      StepKeepsPlan(s, es[0], names);
      RunKeepsAttended(Step(s, es[0], names), es[1..], names, timers);
    }
  }

  /**
   * If every app in dev ran at first, then in every reachable state one that is not being stopped or
   * started by an operation has its process or a single restart timer due within two seconds.
   */
  lemma CrashesAreAnswered(s: System, es: seq<Event>, names: seq<string>, timers: Timers, a: string)
    requires Init(s, names) && Run(s, es, names, timers) && Sound(timers)
    requires forall b :: b in s.apps && s.apps[b].rec.mode == "dev" ==> s.apps[b].live != {}
    requires a in After(s, es, names, timers).apps
    ensures var t := After(s, es, names, timers);
      var x := t.apps[a];
      x.phase.Up? && x.rec.mode == "dev" && x.live == {} ==> |x.timers| == 1 && x.timers[0] <= t.now + 2000
  {
    InitInv(s, names, timers);
    RunKeepsInv(s, es, names, timers);
    RunKeepsAttended(s, es, names, timers);
  }

  /** How often a process of the app has died without being stopped. */
  function Crashes(s: System, es: seq<Event>, names: seq<string>, timers: Timers, a: string): nat
    requires Run(s, es, names, timers)
    decreases |es|
  {
    if es == [] then 0
    else
      (if es[0].Exit? && es[0].app == a && !s.apps[a].rec.stopping then 1 else 0)
      + Crashes(Step(s, es[0], names), es[1..], names, timers, a)
  }

  lemma CountStep(s: System, e: Event, names: seq<string>, a: string)
    requires Possible(s, e) && a in s.apps
    ensures a in Step(s, e, names).apps
    ensures Step(s, e, names).apps[a].rec.restarts ==
            s.apps[a].rec.restarts + if e.Exit? && e.app == a && !s.apps[a].rec.stopping then 1 else 0
  {
  }

  /** The restarts the manager reports are the app's crashes. */
  lemma {:induction false} RestartsAreCrashes(s: System, es: seq<Event>, names: seq<string>, timers: Timers, a: string)
    requires Run(s, es, names, timers) && a in s.apps
    ensures a in After(s, es, names, timers).apps
    ensures After(s, es, names, timers).apps[a].rec.restarts ==
            s.apps[a].rec.restarts + Crashes(s, es, names, timers, a)
    decreases |es|
  {
    if es != [] {
      CountStep(s, es[0], names, a);
      RestartsAreCrashes(Step(s, es[0], names), es[1..], names, timers, a);
    }
  }
}

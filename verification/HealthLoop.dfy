/** The supervisor loop of the MLX servers (scripts/host-agent/host-agent.py, `_mlx_healthcheck_loop`). */
module HealthLoop {
  /** What survives from one turn of the loop to the next. */
  datatype LoopState = LoopState(failures: nat, cycle: nat, wasRunning: bool, firstCheck: bool)

  datatype Server = Server(running: bool, healthy: bool)

  /**
   * What one turn meets: the two servers' status, or an error reading it; what a probe would say;
   * whether stopping the servers would raise; whether a PID file exists. Of a stop only the status read
   * at its beginning can raise, as on a PID file that has become stale and cannot be removed.
   */
  datatype Turn =
    | NoStatus
    | Turn(primary: Server, fast: Server, probe: bool, stopRaises: bool, pidFile: bool)

  datatype Reason = Hang | FastDown | Outage

  datatype Event = BothHealthy | PrimaryUp | OtherStatus | Probe(ok: bool) | Restart(reason: Reason)

  /** The probe period and whether to start the servers on boot. */
  datatype Config = Config(every: nat, autoStart: bool)

  const START := LoopState(0, 0, false, true)

  predicate AllHealthy(t: Turn) {
    t.Turn? && t.primary.running && t.primary.healthy && t.fast.running && t.fast.healthy
  }

  /** The turn's effect and what happens in it, in order. */
  function Next(st: LoopState, t: Turn, config: Config): (LoopState, seq<Event>) {
    if t.NoStatus? then (st.(firstCheck := false), [])
    else if AllHealthy(t) then WhenHealthy(st, t, config)
    else if t.primary.running && !t.primary.healthy then
      (LoopState(st.failures, 0, true, false), [PrimaryUp])
    else if t.primary.running && !t.fast.running then
      if t.stopRaises then (LoopState(st.failures, 0, true, false), [PrimaryUp])
      else (LoopState(0, 0, true, false), [PrimaryUp, Restart(FastDown)])
    else if t.pidFile || st.wasRunning || (st.firstCheck && config.autoStart) then
      (LoopState(0, 0, false, false), [OtherStatus, Restart(Outage)])
    else (LoopState(st.failures, 0, st.wasRunning, false), [OtherStatus])
  }

  function WhenHealthy(st: LoopState, t: Turn, config: Config): (LoopState, seq<Event>)
    requires t.Turn?
  {
    if st.cycle + 1 < config.every then (LoopState(st.failures, st.cycle + 1, true, false), [BothHealthy])
    else if t.probe then (LoopState(0, 0, true, false), [BothHealthy, Probe(true)])
    else if st.failures + 1 < 2 || t.stopRaises then
      (LoopState(st.failures + 1, 0, true, false), [BothHealthy, Probe(false)])
    else (LoopState(0, 0, true, false), [BothHealthy, Probe(false), Restart(Hang)])
  }

  function After(turns: seq<Turn>, config: Config): LoopState {
    if turns == [] then START else Next(After(turns[..|turns| - 1], config), turns[|turns| - 1], config).0
  }

  /** Everything that happens over the turns. */
  function History(turns: seq<Turn>, config: Config): seq<Event> {
    if turns == [] then []
    else
      var n := |turns| - 1;
      History(turns[..n], config) + Next(After(turns[..n], config), turns[n], config).1
  }

  /** The body of the loop. */
  method OneTurn(st: LoopState, t: Turn, config: Config) returns (next: LoopState, events: seq<Event>)
    ensures (next, events) == Next(st, t, config)
  {
    var inferenceFailures, cycle, wasRunning, firstCheck := st.failures, st.cycle, st.wasRunning, st.firstCheck;
    events := [];
    if t.Turn? {
      var primary, fast := t.primary, t.fast;
      if primary.running && primary.healthy && fast.running && fast.healthy {
        wasRunning := true;
        cycle := cycle + 1;
        events := [BothHealthy];
        if cycle >= config.every {
          cycle := 0;
          events := [BothHealthy, Probe(t.probe)];
          if t.probe {
            inferenceFailures := 0;
          } else {
            inferenceFailures := inferenceFailures + 1;
            if inferenceFailures >= 2 && !t.stopRaises {
              events := [BothHealthy, Probe(false), Restart(Hang)];
              inferenceFailures := 0;
              cycle := 0;
            }
          }
        }
      } else if primary.running && !primary.healthy {
        wasRunning := true;
        cycle := 0;
        events := [PrimaryUp];
      } else if primary.running && primary.healthy && !fast.running {
        wasRunning := true;
        cycle := 0;
        events := [PrimaryUp];
        if !t.stopRaises {
          events := [PrimaryUp, Restart(FastDown)];
          inferenceFailures := 0;
        }
      } else {
        cycle := 0;
        events := [OtherStatus];
        if t.pidFile || wasRunning || (firstCheck && config.autoStart) {
          wasRunning := false;
          events := [OtherStatus, Restart(Outage)];
          inferenceFailures := 0;
        }
      }
    }
    firstCheck := false;
    next := LoopState(inferenceFailures, cycle, wasRunning, firstCheck);
  }

  method Run(turns: seq<Turn>, config: Config) returns (events: seq<Event>, st: LoopState)
    ensures events == History(turns, config) && st == After(turns, config)
  {
    st, events := START, [];
    for i := 0 to |turns|
      invariant st == After(turns[..i], config) && events == History(turns[..i], config)
    {
      assert turns[..i + 1][..i] == turns[..i];
      var more;
      st, more := OneTurn(st, turns[i], config);
      events := events + more;
    }
    assert turns[..|turns|] == turns;
  }

  // ---- The counters count ----

  function FailedStep(n: nat, e: Event): nat {
    if e == Probe(false) then n + 1 else if e.Probe? || e.Restart? then 0 else n
  }

  /** Failed probes since the last successful one or restart. */
  function FailedInARow(events: seq<Event>): nat {
    if events == [] then 0 else FailedStep(FailedInARow(events[..|events| - 1]), events[|events| - 1])
  }

  function HealthyStep(n: nat, e: Event): nat {
    if e.BothHealthy? then n + 1 else if e.Restart? then n else 0
  }

  /** Both-healthy observations since the last other status observation or probe. */
  function HealthyInARow(events: seq<Event>): nat {
    if events == [] then 0 else HealthyStep(HealthyInARow(events[..|events| - 1]), events[|events| - 1])
  }

  /** The loop's two counters are those runs, and the cycle stays below the period. */
  lemma {:induction false} CountersCount(turns: seq<Turn>, config: Config)
    ensures After(turns, config).failures == FailedInARow(History(turns, config))
    ensures After(turns, config).cycle == HealthyInARow(History(turns, config))
    ensures config.every >= 1 ==> After(turns, config).cycle < config.every
  {
    if turns != [] {
      var n := |turns| - 1;
      CountersCount(turns[..n], config);
      assert History(turns[..n], config) + [] == History(turns[..n], config);
      TurnCounts(After(turns[..n], config), History(turns[..n], config), turns[n], config);
    }
  }

  lemma TwoMore(events: seq<Event>, a: Event, b: Event)
    ensures FailedInARow(events + [a, b]) == FailedStep(FailedStep(FailedInARow(events), a), b)
    ensures HealthyInARow(events + [a, b]) == HealthyStep(HealthyStep(HealthyInARow(events), a), b)
  {
    assert events + [a, b] == events + [a] + [b];
  }

  /** `more` takes the counts to `failures` and `cycle`. */
  ghost predicate Counts(events: seq<Event>, more: seq<Event>, failures: nat, cycle: nat) {
    FailedInARow(events + more) == failures && HealthyInARow(events + more) == cycle
  }

  lemma HealthyTurnCounts(st: LoopState, events: seq<Event>, t: Turn, config: Config)
    requires t.Turn? && Counts(events, [], st.failures, st.cycle)
    ensures var (st', more) := WhenHealthy(st, t, config); Counts(events, more, st'.failures, st'.cycle)
  {
    assert events + [] == events;
    TwoMore(events, BothHealthy, Probe(t.probe));
  }

  lemma TurnCounts(st: LoopState, events: seq<Event>, t: Turn, config: Config)
    requires Counts(events, [], st.failures, st.cycle)
    ensures var (st', more) := Next(st, t, config); Counts(events, more, st'.failures, st'.cycle)
  {
    if AllHealthy(t) {
      HealthyTurnCounts(st, events, t, config);
    } else {
      assert events + [] == events;
      TwoMore(events, PrimaryUp, Restart(FastDown));
      TwoMore(events, OtherStatus, Restart(Outage));
    }
  }

  // ---- Restarts of a hung server ----

  /** Where in the history a position of the last turn is. */
  lemma Split(turns: seq<Turn>, config: Config, k: nat)
    requires turns != [] && k < |History(turns, config)|
    ensures var n := |turns| - 1;
      var before, more := History(turns[..n], config), Next(After(turns[..n], config), turns[n], config).1;
      && (k < |before| ==> History(turns, config)[..k] == before[..k] && History(turns, config)[k] == before[k])
      && (k >= |before| ==>
            && History(turns, config)[..k] == before + more[..k - |before|]
            && History(turns, config)[k] == more[k - |before|])
  {
  }

  /** A restart for a hang comes at two failed probes in a row. */
  lemma {:induction false} HangNeedsTwo(turns: seq<Turn>, config: Config, k: nat)
    requires config.every >= 1 && k < |History(turns, config)| && History(turns, config)[k] == Restart(Hang)
    ensures FailedInARow(History(turns, config)[..k]) >= 2
  {
    var n := |turns| - 1;
    var before := History(turns[..n], config);
    Split(turns, config, k);
    if k < |before| {
      HangNeedsTwo(turns[..n], config, k);
    } else {
      CountersCount(turns[..n], config);
      var more := Next(After(turns[..n], config), turns[n], config).1;
      assert k - |before| == 2 && more[..2] == [BothHealthy, Probe(false)];
      TwoMore(before, BothHealthy, Probe(false));
    }
  }

  /** A probe comes when the both-healthy observations in a row reach the period. */
  lemma {:induction false} ProbeNeedsPeriod(turns: seq<Turn>, config: Config, k: nat)
    requires config.every >= 1 && k < |History(turns, config)| && History(turns, config)[k].Probe?
    ensures HealthyInARow(History(turns, config)[..k]) == config.every
  {
    var n := |turns| - 1;
    var before := History(turns[..n], config);
    Split(turns, config, k);
    if k < |before| {
      ProbeNeedsPeriod(turns[..n], config, k);
    } else {
      CountersCount(turns[..n], config);
      var more := Next(After(turns[..n], config), turns[n], config).1;
      assert k - |before| == 1 && more[..1] == [BothHealthy];
    }
  }

  /** The failed probes that `FailedInARow` counts: the last one, with no success or restart after it. */
  lemma {:induction false} LastFailure(events: seq<Event>) returns (j: nat)
    requires FailedInARow(events) > 0
    ensures j < |events| && events[j] == Probe(false) && FailedInARow(events[..j]) == FailedInARow(events) - 1
    ensures forall m :: j < m < |events| ==> events[m] != Probe(true) && !events[m].Restart?
  {
    var n := |events| - 1;
    if events[n] == Probe(false) {
      j := n;
    } else {
      j := LastFailure(events[..n]);
      assert events[..n][..j] == events[..j];
      forall m | j < m < |events| ensures events[m] != Probe(true) && !events[m].Restart? {
        if m < n { assert events[..n][m] == events[m]; }
      }
    }
  }

  /**
   * A restart for a hang follows two failed probes, with no successful probe and no restart after the first of
   * them.
   */
  lemma HangFollowsTwoFailures(turns: seq<Turn>, config: Config, k: nat) returns (i: nat, j: nat)
    requires config.every >= 1 && k < |History(turns, config)| && History(turns, config)[k] == Restart(Hang)
    ensures i < j < k && History(turns, config)[i] == History(turns, config)[j] == Probe(false)
    ensures forall m :: i < m < k ==> History(turns, config)[m] != Probe(true) && !History(turns, config)[m].Restart?
  {
    var events := History(turns, config);
    HangNeedsTwo(turns, config, k);
    j := LastFailure(events[..k]);
    assert events[..k][..j] == events[..j];
    i := LastFailure(events[..j]);
    forall m | i < m < k ensures events[m] != Probe(true) && !events[m].Restart? {
      if m < j { assert events[..j][m] == events[m]; } else { assert events[..k][m] == events[m]; }
    }
  }

  function CountHealthy(events: seq<Event>): nat {
    if events == [] then 0
    else CountHealthy(events[..|events| - 1]) + if events[|events| - 1].BothHealthy? then 1 else 0
  }

  /** The observations `HealthyInARow` counts. */
  lemma {:induction false} HealthySince(events: seq<Event>) returns (i: nat)
    ensures i <= |events| && CountHealthy(events[i..]) == HealthyInARow(events)
    ensures forall m :: i <= m < |events| ==> events[m].BothHealthy? || events[m].Restart?
    ensures i > 0 ==> events[i - 1].Probe? || events[i - 1].PrimaryUp? || events[i - 1].OtherStatus?
  {
    if events == [] {
      i := 0;
    } else {
      var n := |events| - 1;
      if events[n].BothHealthy? || events[n].Restart? {
        i := HealthySince(events[..n]);
        assert events[i..][..n - i] == events[..n][i..] && events[i..][n - i] == events[n];
        forall m | i <= m < |events| ensures events[m].BothHealthy? || events[m].Restart? {
          if m < n { assert events[..n][m] == events[m]; }
        }
        if i > 0 { assert events[..n][i - 1] == events[i - 1]; }
      } else {
        i := |events|;
        assert events[i..] == [];
      }
    }
  }

  /** Before each probe come exactly a period of both-healthy observations, with no other observation among them. */
  lemma ProbeFollowsPeriod(turns: seq<Turn>, config: Config, k: nat) returns (i: nat)
    requires config.every >= 1 && k < |History(turns, config)| && History(turns, config)[k].Probe?
    ensures i <= k && CountHealthy(History(turns, config)[i..k]) == config.every
    ensures forall m :: i <= m < k ==> History(turns, config)[m].BothHealthy? || History(turns, config)[m].Restart?
  {
    var events := History(turns, config);
    ProbeNeedsPeriod(turns, config, k);
    i := HealthySince(events[..k]);
    assert events[..k][i..] == events[i..k];
    forall m | i <= m < k ensures events[m].BothHealthy? || events[m].Restart? { assert events[..k][m] == events[m]; }
  }

  /** The turn of a due probe that fails with one failure recorded, and then the stop raises. */
  predicate Overruns(st: LoopState, t: Turn, config: Config) {
    AllHealthy(t) && st.cycle + 1 >= config.every && st.failures == 1 && !t.probe && t.stopRaises
  }

  lemma {:induction false} NoOverrun(turns: seq<Turn>, config: Config)
    requires forall n :: 0 <= n < |turns| ==> !Overruns(After(turns[..n], config), turns[n], config)
    ensures After(turns, config).failures <= 1
  {
    if turns != [] {
      var last := |turns| - 1;
      forall n | 0 <= n < last ensures !Overruns(After(turns[..last][..n], config), turns[..last][n], config) {
        assert turns[..last][..n] == turns[..n];
      }
      NoOverrun(turns[..last], config);
    }
  }

  /** Over any run more than one failure is recorded at some point if and only if some turn overruns. */
  lemma MoreThanOneFailure(turns: seq<Turn>, config: Config)
    ensures (exists n :: 0 <= n <= |turns| && After(turns[..n], config).failures > 1) <==>
            (exists n :: 0 <= n < |turns| && Overruns(After(turns[..n], config), turns[n], config))
  {
    if n :| 0 <= n < |turns| && Overruns(After(turns[..n], config), turns[n], config) {
      assert turns[..n + 1][..n] == turns[..n];
      assert After(turns[..n + 1], config).failures > 1;
    }
    if n :| 0 <= n <= |turns| && After(turns[..n], config).failures > 1 {
      if forall m :: 0 <= m < |turns| ==> !Overruns(After(turns[..m], config), turns[m], config) {
        forall m | 0 <= m < n ensures turns[..n][..m] == turns[..m] {}
        NoOverrun(turns[..n], config);
      }
    }
  }

  /** Two due probes that fail, the stop after the second raising: two failures are recorded. */
  lemma TwoRecorded(pidFile: bool)
    ensures var up := Server(true, true);
      var turns := [Turn(up, up, false, false, pidFile), Turn(up, up, false, true, pidFile)];
      Overruns(After(turns[..1], Config(1, false)), turns[1], Config(1, false))
      && After(turns, Config(1, false)).failures == 2
  {
    var up := Server(true, true);
    var turns := [Turn(up, up, false, false, pidFile), Turn(up, up, false, true, pidFile)];
    assert turns[..1][..0] == [] && turns[..1][0] == turns[0];
  }

  /** What happens over further turns from a given state. */
  function From(st: LoopState, turns: seq<Turn>, config: Config): seq<Event>
    decreases |turns|
  {
    if turns == [] then [] else Next(st, turns[0], config).1 + From(Next(st, turns[0], config).0, turns[1..], config)
  }

  lemma {:induction false} HistoryFrom(before: seq<Turn>, turns: seq<Turn>, config: Config)
    ensures History(before + turns, config) == History(before, config) + From(After(before, config), turns, config)
    decreases |turns|
  {
    if turns == [] {
      assert before + turns == before;
    } else {
      var next := before + [turns[0]];
      assert next[..|next| - 1] == before;
      assert before + turns == next + turns[1..];
      HistoryFrom(next, turns[1..], config);
    }
  }

  /** A hung server is caught: at most two periods of both-healthy turns with failing probes force a restart. */
  lemma {:induction false} HangIsCaught(st: LoopState, hung: seq<Turn>, config: Config)
    requires st.cycle < config.every
    requires forall t :: t in hung ==> AllHealthy(t) && !t.probe && !t.stopRaises
    requires |hung| >= (if st.failures == 0 then 2 * config.every else config.every) - st.cycle
    ensures Restart(Hang) in From(st, hung, config)
    decreases |hung|
  {
    assert hung[0] in hung;
    var (st', more) := Next(st, hung[0], config);
    if st.cycle + 1 < config.every || st.failures == 0 {
      HangIsCaught(st', hung[1..], config);
    } else {
      assert more[2] == Restart(Hang);
    }
  }

  /** The same after any history. */
  lemma HangIsCaughtAfter(before: seq<Turn>, hung: seq<Turn>, config: Config)
    requires config.every >= 1 && |hung| >= 2 * config.every
    requires forall t :: t in hung ==> AllHealthy(t) && !t.probe && !t.stopRaises
    ensures History(before, config) <= History(before + hung, config)
    ensures Restart(Hang) in History(before + hung, config)[|History(before, config)|..]
  {
    CountersCount(before, config);
    HistoryFrom(before, hung, config);
    HangIsCaught(After(before, config), hung, config);
  }

  // ---- Restarts after an outage ----

  /** An outage restart with no running primary seen since. */
  function Waiting(events: seq<Event>): bool {
    if events == [] then false
    else
      var e := events[|events| - 1];
      if e == Restart(Outage) then true
      else if e.BothHealthy? || e.PrimaryUp? then false
      else Waiting(events[..|events| - 1])
  }

  lemma WaitingMore(events: seq<Event>, e: Event)
    ensures Waiting(events + [e]) == (e == Restart(Outage) || (!e.BothHealthy? && !e.PrimaryUp? && Waiting(events)))
  {
    assert (events + [e])[..|events|] == events;
  }

  predicate NoPidFiles(turns: seq<Turn>) {
    forall t :: t in turns ==> t.NoStatus? || !t.pidFile
  }

  /** While waiting, the loop remembers neither a running primary nor its first check. */
  lemma {:induction false} WaitingForgets(turns: seq<Turn>, config: Config)
    requires NoPidFiles(turns)
    ensures Waiting(History(turns, config)) ==> !After(turns, config).wasRunning && !After(turns, config).firstCheck
  {
    if turns != [] {
      var n := |turns| - 1;
      WaitingForgets(turns[..n], config);
      WaitingTurn(After(turns[..n], config), History(turns[..n], config), turns[n], config);
    }
  }

  lemma WaitingTurn(st: LoopState, before: seq<Event>, t: Turn, config: Config)
    requires Waiting(before) ==> !st.wasRunning && !st.firstCheck
    ensures var (st', more) := Next(st, t, config); Waiting(before + more) ==> !st'.wasRunning && !st'.firstCheck
  {
    var more := Next(st, t, config).1;
    if t.NoStatus? {
      assert before + more == before;
    } else if AllHealthy(t) {
      WaitingHealthy(before, more);
    } else {
      WaitingMore(before, OtherStatus);
      WaitingMore(before, PrimaryUp);
      WaitingMore(before + [PrimaryUp], Restart(FastDown));
      assert before + [PrimaryUp] + [Restart(FastDown)] == before + [PrimaryUp, Restart(FastDown)];
    }
  }

  lemma WaitingHealthy(before: seq<Event>, more: seq<Event>)
    requires more in {[BothHealthy], [BothHealthy, Probe(true)], [BothHealthy, Probe(false)],
        [BothHealthy, Probe(false), Restart(Hang)]}
    ensures !Waiting(before + more)
  {
    var one := before + [BothHealthy];
    WaitingMore(before, BothHealthy);
    WaitingMore(one, Probe(true));
    WaitingMore(one, Probe(false));
    WaitingMore(one + [Probe(false)], Restart(Hang));
    assert before + [BothHealthy, Probe(true)] == one + [Probe(true)];
    assert before + [BothHealthy, Probe(false)] == one + [Probe(false)];
    assert before + [BothHealthy, Probe(false), Restart(Hang)] == one + [Probe(false)] + [Restart(Hang)];
  }

  /** No outage restart comes while one is waiting. */
  lemma {:induction false} NoSecondOutage(turns: seq<Turn>, config: Config, k: nat)
    requires NoPidFiles(turns) && k < |History(turns, config)| && History(turns, config)[k] == Restart(Outage)
    ensures !Waiting(History(turns, config)[..k])
  {
    var n := |turns| - 1;
    var before := History(turns[..n], config);
    Split(turns, config, k);
    if k < |before| {
      NoSecondOutage(turns[..n], config, k);
    } else {
      var more := Next(After(turns[..n], config), turns[n], config).1;
      assert k - |before| == 1 && more[..1] == [OtherStatus];
      WaitingMore(before, OtherStatus);
      if Waiting(before) { WaitingForgets(turns[..n], config); }
    }
  }

  lemma {:induction false} StillWaiting(events: seq<Event>, a: nat, b: nat)
    requires a < b <= |events| && events[a] == Restart(Outage)
    requires forall m :: a < m < b ==> !events[m].BothHealthy? && !events[m].PrimaryUp?
    ensures Waiting(events[..b])
    decreases b
  {
    assert events[..b][..b - 1] == events[..b - 1] && events[..b][b - 1] == events[b - 1];
    if b - 1 > a { StillWaiting(events, a, b - 1); }
  }

  /** Without PID files, between two outage restarts a running primary has been seen. */
  lemma OneStartPerOutage(turns: seq<Turn>, config: Config, a: nat, b: nat)
    requires NoPidFiles(turns) && a < b < |History(turns, config)|
    requires History(turns, config)[a] == History(turns, config)[b] == Restart(Outage)
    ensures exists m :: a < m < b && (History(turns, config)[m].BothHealthy? || History(turns, config)[m].PrimaryUp?)
  {
    var events := History(turns, config);
    NoSecondOutage(turns, config, b);
    if forall m :: a < m < b ==> !events[m].BothHealthy? && !events[m].PrimaryUp? { StillWaiting(events, a, b); }
  }

  // ---- What each turn answers ----

  /** A running primary has been seen, and no outage restart has come since. */
  ghost predicate SeenUp(events: seq<Event>) {
    exists m :: 0 <= m < |events| && (events[m].BothHealthy? || events[m].PrimaryUp?)
                && forall k :: m < k < |events| ==> events[k] != Restart(Outage)
  }

  lemma SeenUpMore(events: seq<Event>, e: Event)
    ensures SeenUp(events + [e]) <==> e.BothHealthy? || e.PrimaryUp? || (e != Restart(Outage) && SeenUp(events))
  {
    var more := events + [e];
    assert more[|events|] == e;
    if m :| 0 <= m < |events| && (events[m].BothHealthy? || events[m].PrimaryUp?)
            && forall k :: m < k < |events| ==> events[k] != Restart(Outage) {
      assert more[m] == events[m];
    }
    if m :| 0 <= m < |more| && (more[m].BothHealthy? || more[m].PrimaryUp?)
            && forall k :: m < k < |more| ==> more[k] != Restart(Outage) {
      if m < |events| {
        assert events[m] == more[m];
        forall k | m < k < |events| ensures events[k] != Restart(Outage) { assert more[k] == events[k]; }
      }
    }
  }

  lemma SeenUpTwo(events: seq<Event>, a: Event, b: Event)
    ensures SeenUp(events + [a, b]) <==>
      b.BothHealthy? || b.PrimaryUp? ||
      (b != Restart(Outage) && (a.BothHealthy? || a.PrimaryUp? || (a != Restart(Outage) && SeenUp(events))))
  {
    SeenUpMore(events, a);
    SeenUpMore(events + [a], b);
    assert events + [a, b] == events + [a] + [b];
  }

  /** That is what the loop remembers, and its first check is over after one turn. */
  lemma {:induction false} RemembersSeenUp(turns: seq<Turn>, config: Config)
    ensures After(turns, config).wasRunning <==> SeenUp(History(turns, config))
    ensures After(turns, config).firstCheck <==> turns == []
  {
    if turns != [] {
      var n := |turns| - 1;
      var st, events := After(turns[..n], config), History(turns[..n], config);
      RemembersSeenUp(turns[..n], config);
      assert events + [] == events;
      SeenUpMore(events, BothHealthy);
      SeenUpMore(events, PrimaryUp);
      SeenUpMore(events, OtherStatus);
      SeenUpTwo(events, BothHealthy, Probe(turns[n].Turn? && turns[n].probe));
      SeenUpTwo(events, PrimaryUp, Restart(FastDown));
      SeenUpTwo(events, OtherStatus, Restart(Outage));
      SeenUpMore(events + [BothHealthy, Probe(false)], Restart(Hang));
      assert events + [BothHealthy, Probe(false)] + [Restart(Hang)] ==
        events + [BothHealthy, Probe(false), Restart(Hang)];
    }
  }

  lemma OneMoreTurn(turns: seq<Turn>, t: Turn, config: Config)
    ensures History(turns + [t], config) == History(turns, config) + Next(After(turns, config), t, config).1
  {
    assert (turns + [t])[..|turns|] == turns;
  }

  /**
   * A turn that finds no running primary, or only the fast server unhealthy, ends in a restart if and
   * only if there is a PID file, or a running primary has been seen since the last such restart, or it
   * is the first turn and the servers are to be started on boot.
   */
  lemma OutageIsAnswered(turns: seq<Turn>, t: Turn, config: Config)
    requires t.Turn?
    requires !t.primary.running || (t.primary.healthy && t.fast.running && !t.fast.healthy)
    ensures History(turns + [t], config) == History(turns, config) +
              if t.pidFile || SeenUp(History(turns, config)) || (turns == [] && config.autoStart)
              then [OtherStatus, Restart(Outage)] else [OtherStatus]
  {
    OneMoreTurn(turns, t, config);
    RemembersSeenUp(turns, config);
  }

  /** A healthy primary whose fast server is down ends in a restart of both unless the stop raises. */
  lemma FastDownIsAnswered(turns: seq<Turn>, t: Turn, config: Config)
    requires t.Turn? && t.primary.running && t.primary.healthy && !t.fast.running
    ensures History(turns + [t], config) ==
            History(turns, config) + if t.stopRaises then [PrimaryUp] else [PrimaryUp, Restart(FastDown)]
  {
    OneMoreTurn(turns, t, config);
  }

  /**
   * With both servers healthy there is a probe exactly when the period is reached, and a restart
   * exactly when that probe fails, an earlier one has failed, and the stop does not raise.
   */
  lemma HealthyIsAnswered(turns: seq<Turn>, t: Turn, config: Config)
    requires t.Turn? && t.primary.running && t.primary.healthy && t.fast.running && t.fast.healthy
    ensures var events := History(turns, config);
      History(turns + [t], config) == events +
        if HealthyInARow(events) + 1 < config.every then [BothHealthy]
        else if !t.probe && FailedInARow(events) >= 1 && !t.stopRaises
        then [BothHealthy, Probe(false), Restart(Hang)]
        else [BothHealthy, Probe(t.probe)]
  {
    OneMoreTurn(turns, t, config);
    CountersCount(turns, config);
  }

  /** A primary that runs without answering is left alone, and so is everything if the status cannot be read. */
  lemma OtherwiseWaits(turns: seq<Turn>, t: Turn, config: Config)
    requires t.NoStatus? || (t.primary.running && !t.primary.healthy)
    ensures History(turns + [t], config) == History(turns, config) + if t.NoStatus? then [] else [PrimaryUp]
  {
    OneMoreTurn(turns, t, config);
  }
}

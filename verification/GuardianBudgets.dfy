/** The restart budgets over whole runs of the guardian, told from the run alone. */
module GuardianBudgets {
  import opened Options
  import opened Supervisor
  import opened GuardianSpec
  import opened GuardianRuns

  // ---------------------------------------------------------------- the global limiter

  /** The event is a failure the policy answers with a restart. */
  ghost predicate AsksLimiter(c: Setup, w: World, e: Event) {
    e.ChildFailed? && e.sub.name != "" && !w.g.shuttingDown && OnFailure(c.policy, StateOf(w.g, e.sub), w.now).1.Restart?
  }

  ghost predicate GrantedAt(c: Setup, w: World, e: Event) {
    AsksLimiter(c, w, e) && AllowGlobal(w.g.history, w.now, c.globalWindow, c.globalLimit).1
  }

  /** When restarts were granted in the first `k` steps. */
  ghost function Grants(c: Setup, events: seq<Event>, run: seq<World>, k: nat): seq<int>
    requires |run| == |events| + 1 && k <= |events|
  {
    if k == 0 then []
    else Grants(c, events, run, k - 1) + (if GrantedAt(c, run[k - 1], events[k - 1]) then [run[k - 1].now] else [])
  }

  lemma {:induction false} StartEachFrame(w: World, subs: seq<Subsystem>, fails: set<Subsystem>)
    ensures var v := StartEach(w, subs, fails); v.g.history == w.g.history && v.now == w.now
  {
    if subs != [] {
      StartEachFrame(w, subs[..|subs| - 1], fails);
    }
  }

  lemma StartAllFrame(c: Setup, w: World, fails: set<Subsystem>)
    ensures StartAll(c, w, fails).g.history == w.g.history && StartAll(c, w, fails).now == w.now
  {
    StartEachFrame(w.(g := w.g.(started := true)), c.managed, fails);
  }

  lemma StepHistory(c: Setup, w: World, e: Event)
    requires Enabled(w, e)
    ensures var v := Step(c, w, e);
            && v.now >= w.now
            && v.g.history == (if AsksLimiter(c, w, e) then AllowGlobal(w.g.history, w.now, c.globalWindow, c.globalLimit).0
                               else w.g.history)
  {
    match e
    case Started(fails) => StartAllFrame(c, w, fails);
    case Start(fails) => StartAllFrame(c, w, fails);
    case Reload(fails) => StartAllFrame(c, StopAll(c, w), fails);
    case ChildFailed(s, err, u) =>
    case _ =>
  }

  ghost predicate LimiterOk(c: Setup, w: World, grants: seq<int>) {
    LimiterInv(w.g.history, grants, w.now, c.globalWindow, c.globalLimit) && NonDecreasing(grants)
  }

  lemma StepKeepsLimiter(c: Setup, w: World, e: Event, grants: seq<int>)
    requires ValidSetup(c) && Enabled(w, e) && LimiterOk(c, w, grants)
    ensures LimiterOk(c, Step(c, w, e), grants + (if GrantedAt(c, w, e) then [w.now] else []))
  {
    StepHistory(c, w, e);
    LimiterMoves(c, w, Step(c, w, e), grants, AsksLimiter(c, w, e));
  }

  lemma LaterClock(history: seq<int>, grants: seq<int>, now: int, later: int, window: int, limit: int)
    requires LimiterInv(history, grants, now, window, limit) && now <= later
    ensures LimiterInv(history, grants, later, window, limit)
  {
  }

  lemma GrantsOrdered(history: seq<int>, grants: seq<int>, now: int, window: int, limit: int)
    requires LimiterInv(history, grants, now, window, limit) && NonDecreasing(grants)
    ensures NonDecreasing(grants + [now])
  {
  }

  lemma LimiterMoves(c: Setup, w: World, v: World, grants: seq<int>, asks: bool)
    requires LimiterOk(c, w, grants) && v.now >= w.now
    requires v.g.history == if asks then AllowGlobal(w.g.history, w.now, c.globalWindow, c.globalLimit).0 else w.g.history
    ensures var ok := asks && AllowGlobal(w.g.history, w.now, c.globalWindow, c.globalLimit).1;
            LimiterOk(c, v, grants + (if ok then [w.now] else []))
  {
    var (history, ok) := AllowGlobal(w.g.history, w.now, c.globalWindow, c.globalLimit);
    assert grants + [] == grants;
    if asks {
      AllowKeepsInv(w.g.history, grants, w.now, w.now, c.globalWindow, c.globalLimit);
      GrantsOrdered(w.g.history, grants, w.now, c.globalWindow, c.globalLimit);
      LaterClock(history, if ok then grants + [w.now] else grants, w.now, v.now, c.globalWindow, c.globalLimit);
    } else {
      LaterClock(w.g.history, grants, w.now, v.now, c.globalWindow, c.globalLimit);
    }
  }

  lemma {:induction false} RunKeepsLimiter(c: Setup, events: seq<Event>, run: seq<World>, k: nat)
    requires ValidSetup(c) && IsRun(c, events, run) && k <= |events|
    ensures LimiterOk(c, run[k], Grants(c, events, run, k))
  {
    if k > 0 {
      RunKeepsLimiter(c, events, run, k - 1);
      assert StepAt(c, events, run, k - 1);
      StepKeepsLimiter(c, run[k - 1], events[k - 1], Grants(c, events, run, k - 1));
    }
  }

  /** A restart that asks the limiter gets its retry scheduled, whatever the limiter says. */
  lemma AskingSchedules(c: Setup, w: World, e: Event, v: World)
    requires ValidSetup(c) && ChildrenOk(w) && RetriesOk(w) && Enabled(w, e) && AsksLimiter(c, w, e) && v == Step(c, w, e)
    ensures HasRetry(v, e.sub)
  {
    FailChildKeeps(c, w, e.sub, e.err, e.u);
  }

  lemma AskingSchedulesInRun(c: Setup, events: seq<Event>, run: seq<World>, k: nat)
    requires ValidSetup(c) && IsRun(c, events, run) && k < |events| && AsksLimiter(c, run[k], events[k])
    ensures HasRetry(run[k + 1], events[k].sub)
  {
    EveryRunKeepsInv(c, events, run, k);
    assert StepAt(c, events, run, k);
    AskingSchedules(c, run[k], events[k], run[k + 1]);
  }

  /** What the limiter says follows from the grants so far. */
  lemma GrantExactly(c: Setup, w: World, e: Event, grants: seq<int>)
    requires LimiterOk(c, w, grants) && AsksLimiter(c, w, e)
    ensures GrantedAt(c, w, e) <==> CountFrom(grants, w.now - c.globalWindow) < c.globalLimit
  {
    WindowCounts(w.g.history, grants, w.now, w.now, c.globalWindow);
  }

  /**
   * In every run no global window holds more than the global limit of granted restarts. A restart the policy decides on is
   * granted exactly when fewer than the limit were granted within the window; a retry is scheduled either way.
   */
  lemma GrantsStayWithinBudget(c: Setup, events: seq<Event>, run: seq<World>, k: nat)
    requires ValidSetup(c) && IsRun(c, events, run) && k < |events|
    ensures AtMostPerWindow(Grants(c, events, run, k), c.globalWindow, c.globalLimit)
    ensures AsksLimiter(c, run[k], events[k]) ==>
              (GrantedAt(c, run[k], events[k]) <==>
               CountFrom(Grants(c, events, run, k), run[k].now - c.globalWindow) < c.globalLimit)
    ensures AsksLimiter(c, run[k], events[k]) ==> HasRetry(run[k + 1], events[k].sub)
  {
    RunKeepsLimiter(c, events, run, k);
    if AsksLimiter(c, run[k], events[k]) {
      GrantExactly(c, run[k], events[k], Grants(c, events, run, k));
      AskingSchedulesInRun(c, events, run, k);
    }
  }

  // ---------------------------------------------------------------- the restarts of one subsystem

  /** What an event means to the policy's record of a subsystem. */
  ghost function IncidentAt(c: Setup, w: World, e: Event, s: Subsystem): seq<Incident> {
    match e
    case ChildFailed(t, _, _) => if t == s && s.name != "" && !w.g.shuttingDown then [Failed(w.now)] else []
    case Started(fails) => RecoveryAt(c, w, fails, s)
    case Start(fails) => RecoveryAt(c, w, fails, s)
    case Reload(fails) => RecoveryAt(c, w.(g := w.g.(started := false)), fails, s)
    case _ => []
  }

  /** A start that finds the subsystem in a cooldown marks it recovered. */
  ghost function RecoveryAt(c: Setup, w: World, fails: set<Subsystem>, s: Subsystem): seq<Incident> {
    if !w.g.started && s in c.managed && s !in fails && Degraded(StateOf(w.g, s), w.now) then [Recovered] else []
  }

  ghost function Incidents(c: Setup, events: seq<Event>, run: seq<World>, k: nat, s: Subsystem): seq<Incident>
    requires |run| == |events| + 1 && k <= |events|
  {
    if k == 0 then [] else Incidents(c, events, run, k - 1, s) + IncidentAt(c, run[k - 1], events[k - 1], s)
  }

  /** The policy state an incident leaves. */
  function After(c: Config, st: RestartState, log: seq<Incident>): RestartState
    requires |log| <= 1
  {
    if log == [] then st else if log[0].Recovered? then MarkRecovered(st) else OnFailure(c, st, log[0].at).0
  }

  lemma {:induction false} StartEachStates(w: World, subs: seq<Subsystem>, fails: set<Subsystem>, s: Subsystem)
    requires forall i, j :: 0 <= i < j < |subs| ==> subs[i] != subs[j]
    ensures var st, v := StateOf(w.g, s), StartEach(w, subs, fails);
            v.now == w.now && StateOf(v.g, s) == if s in subs && s !in fails && Degraded(st, w.now) then MarkRecovered(st) else st
  {
    if subs != [] {
      var init := subs[..|subs| - 1];
      assert forall t :: t in subs <==> t in init || t == subs[|subs| - 1];
      StartEachStates(w, init, fails, s);
    }
  }

  lemma StartAllStates(c: Setup, w: World, fails: set<Subsystem>, s: Subsystem)
    requires ValidSetup(c)
    ensures StateOf(StartAll(c, w, fails).g, s) == After(c.policy, StateOf(w.g, s), RecoveryAt(c, w, fails, s))
  {
    StartEachStates(w.(g := w.g.(started := true)), c.managed, fails, s);
  }

  lemma FailStates(c: Setup, w: World, t: Subsystem, err: string, u: real, s: Subsystem)
    ensures StateOf(FailChild(c, w, t, err, u).g, s) ==
            After(c.policy, StateOf(w.g, s), IncidentAt(c, w, ChildFailed(t, err, u), s))
  {
    if t.name != "" && !w.g.shuttingDown {
      var r := RecordFailure(w, t, err);
      var (st, d) := OnFailure(c.policy, StateOf(r.g, t), r.now);
      ActOnFrame(c, Outdate(r, t, st), t, d, u);
    }
  }

  lemma StepStates(c: Setup, w: World, e: Event, s: Subsystem)
    requires ValidSetup(c) && Inv(c, w) && Enabled(w, e)
    ensures StateOf(Step(c, w, e).g, s) == After(c.policy, StateOf(w.g, s), IncidentAt(c, w, e, s))
  {
    match e
    case Started(fails) => StartAllStates(c, w, fails, s);
    case Start(fails) => StartAllStates(c, w, fails, s);
    case Reload(fails) => StartAllStates(c, StopAll(c, w), fails, s);
    case ChildFailed(t, err, u) => FailStates(c, w, t, err, u, s);
    case RetryDue(r, ok) => RetryNeverMarksRecovered(w, r, ok);
    case _ =>
  }

  ghost predicate Recorded(c: Setup, w: World, log: seq<Incident>, start: int, s: Subsystem) {
    && Ordered(log, start) && LatestBefore(log, start) <= w.now
    && ObserveAll(c.policy, log, start).st == StateOf(w.g, s)
  }

  lemma OrderedGrows(log: seq<Incident>, start: int, e: Incident, now: int)
    requires Ordered(log, start) && LatestBefore(log, start) <= now && (e.Failed? ==> e.at == now)
    ensures Ordered(log + [e], start) && LatestBefore(log + [e], start) <= now
  {
    var all := log + [e];
    assert all[..|log|] == log;
    forall i | 0 <= i < |all| && all[i].Failed? ensures all[i].at >= LatestBefore(all[..i], start) {
      assert i < |log| ==> all[..i] == log[..i];
    }
  }

  lemma ObservedGrows(c: Config, log: seq<Incident>, start: int, e: Incident)
    ensures ObserveAll(c, log + [e], start).st == After(c, ObserveAll(c, log, start).st, [e])
  {
    assert (log + [e])[..|log|] == log;
  }

  lemma OneMoreIncident(c: Setup, w: World, v: World, log: seq<Incident>, start: int, s: Subsystem, more: seq<Incident>)
    requires Recorded(c, w, log, start, s) && |more| <= 1 && (more != [] && more[0].Failed? ==> more[0].at == w.now)
    requires w.now <= v.now && StateOf(v.g, s) == After(c.policy, StateOf(w.g, s), more)
    ensures Recorded(c, v, log + more, start, s)
  {
    if more == [] {
      assert log + more == log;
    } else {
      OrderedGrows(log, start, more[0], w.now);
      ObservedGrows(c.policy, log, start, more[0]);
      assert more == [more[0]];
    }
  }

  lemma IncidentShape(c: Setup, w: World, e: Event, s: Subsystem)
    ensures var more := IncidentAt(c, w, e, s); |more| <= 1 && (more != [] && more[0].Failed? ==> more[0].at == w.now)
  {
  }

  lemma StepRecords(c: Setup, w: World, e: Event, v: World, log: seq<Incident>, start: int, s: Subsystem)
    requires ValidSetup(c) && Inv(c, w) && Enabled(w, e) && v == Step(c, w, e) && Recorded(c, w, log, start, s)
    ensures Recorded(c, v, log + IncidentAt(c, w, e, s), start, s)
  {
    IncidentShape(c, w, e, s);
    StepStates(c, w, e, s);
    StepHistory(c, w, e);
    OneMoreIncident(c, w, v, log, start, s, IncidentAt(c, w, e, s));
  }

  lemma StepRecordsAt(c: Setup, events: seq<Event>, run: seq<World>, k: nat, log: seq<Incident>, log': seq<Incident>,
                      s: Subsystem)
    requires ValidSetup(c) && IsRun(c, events, run) && k < |events| && Recorded(c, run[k], log, run[0].now, s)
    requires log' == log + IncidentAt(c, run[k], events[k], s)
    ensures Recorded(c, run[k + 1], log', run[0].now, s)
  {
    EveryRunKeepsInv(c, events, run, k);
    assert StepAt(c, events, run, k);
    StepRecords(c, run[k], events[k], run[k + 1], log, run[0].now, s);
  }

  lemma BootRecords(c: Setup, events: seq<Event>, run: seq<World>, s: Subsystem)
    requires IsRun(c, events, run)
    ensures Recorded(c, run[0], [], run[0].now, s)
  {
  }

  lemma IncidentsGrow(c: Setup, events: seq<Event>, run: seq<World>, k: nat, s: Subsystem)
    requires |run| == |events| + 1 && k < |events|
    ensures Incidents(c, events, run, k + 1, s) == Incidents(c, events, run, k, s) + IncidentAt(c, run[k], events[k], s)
  {
  }

  lemma {:induction false} RunRecords(c: Setup, events: seq<Event>, run: seq<World>, k: nat, s: Subsystem, log: seq<Incident>)
    requires ValidSetup(c) && IsRun(c, events, run) && k <= |events| && log == Incidents(c, events, run, k, s)
    ensures Recorded(c, run[k], log, run[0].now, s)
  {
    if k == 0 {
      BootRecords(c, events, run, s);
    } else {
      var before := Incidents(c, events, run, k - 1, s);
      RunRecords(c, events, run, k - 1, s, before);
      IncidentsGrow(c, events, run, k - 1, s);
      StepRecordsAt(c, events, run, k - 1, before, log, s);
    }
  }

  /**
   * In every run, and for every subsystem, no restart window holds more than the limit of the restarts decided on since it
   * last recovered, and the counter a snapshot shows is the number decided on in all.
   */
  lemma RestartsStayWithinBudgetInRuns(c: Setup, events: seq<Event>, run: seq<World>, k: nat, s: Subsystem)
    requires ValidSetup(c) && IsRun(c, events, run) && k <= |events|
    ensures var t := ObserveAll(c.policy, Incidents(c, events, run, k, s), run[0].now);
            && AtMostPerWindow(Restarts(t.history), c.policy.restartWindow, c.policy.restartLimit)
            && RowOf(run[k].g, s).restartCount == t.granted
  {
    RunRecords(c, events, run, k, s, Incidents(c, events, run, k, s));
    RestartsStayWithinBudget(c.policy, Incidents(c, events, run, k, s), run[0].now);
  }
}

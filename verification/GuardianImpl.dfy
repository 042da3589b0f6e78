/** The guardian actor as an object whose handlers update its maps; every handler is the step of the same name. */
module GuardianImpl {
  import opened Options
  import opened Supervisor
  import opened GuardianSpec
  import opened GuardianRuns
  import opened GuardianDelays

  function At(gens: map<Subsystem, nat>, s: Subsystem): nat {
    if s in gens then gens[s] else 0
  }

  lemma BumpNone(gens: map<Subsystem, nat>)
    ensures Bumped(gens, {}) == gens
  {
  }

  lemma HaltNone(health: map<Subsystem, Health>, now: int)
    ensures Halted(health, {}, now) == health
  {
  }

  /** The part of the guardian that cancelling retries works on. */
  datatype Pending = Pending(scheduled: map<Subsystem, nat>, gens: map<Subsystem, nat>, armed: map<nat, Timer>)

  /** Half way through the cancellations, with those in `done` made. */
  ghost predicate Cancelling(was: Pending, done: set<Subsystem>, p: Pending) {
    && done <= was.scheduled.Keys && p.scheduled == was.scheduled - done && p.gens == Bumped(was.gens, done)
    && p.armed == was.armed - PidsOf(was.scheduled, done)
  }

  lemma CancelOneMore(was: Pending, done: set<Subsystem>, p: Pending, s: Subsystem)
    requires Cancelling(was, done, p) && s in p.scheduled
    ensures Cancelling(was, done + {s},
                       Pending(p.scheduled - {s}, p.gens[s := At(p.gens, s) + 1], p.armed - {p.scheduled[s]}))
  {
  }

  lemma CancelledAll(was: Pending, p: Pending)
    requires Cancelling(was, was.scheduled.Keys, p)
    ensures p.scheduled == map[] && p.gens == Bumped(was.gens, was.scheduled.Keys) && p.armed == was.armed - was.scheduled.Values
  {
  }

  /** The part of the guardian that stopping children works on. */
  datatype Staff = Staff(children: map<Subsystem, nat>, live: set<nat>, health: map<Subsystem, Health>)

  ghost predicate Poisoning(was: Staff, done: set<Subsystem>, now: int, p: Staff) {
    && p.children == was.children - done && p.live == was.live - PidsOf(was.children, done)
    && p.health == Halted(was.health, done, now)
  }

  lemma PoisonOneMore(was: Staff, done: set<Subsystem>, now: int, p: Staff, s: Subsystem)
    requires Poisoning(was, done, now, p)
    ensures var h := (if s in p.health then p.health[s] else NO_HEALTH).(running := false, connected := false,
                                                                        lastTransition := now);
            Poisoning(was, done + {s}, now,
                      Staff(p.children - {s}, if s in p.children then p.live - {p.children[s]} else p.live, p.health[s := h]))
  {
  }

  lemma StartOneMore(w: World, subs: seq<Subsystem>, i: nat, fails: set<Subsystem>)
    requires i < |subs|
    ensures StartEach(w, subs[..i + 1], fails) == StartOne(StartEach(w, subs[..i], fails), subs[i], subs[i] !in fails)
  {
    assert subs[..i + 1][..i] == subs[..i];
  }

  lemma RestartSchedules(c: Setup, w: World, s: Subsystem, backoff: int, u: real, history: seq<int>, granted: bool, delay: int)
    requires (history, granted) == AllowGlobal(w.g.history, w.now, c.globalWindow, c.globalLimit)
    requires delay == RestartDelay(c, history, granted, w.now, backoff, u)
    ensures ActOn(c, w, s, Restart(backoff), u) == Schedule(w.(g := w.g.(history := history)), s, delay)
  {
  }

  class RuntimeGuardian {
    const c: Setup
    const policy: SupervisorPolicy
    var children: map<Subsystem, nat>
    var scheduledRetry: map<Subsystem, nat>
    var retryGen: map<Subsystem, nat>
    var health: map<Subsystem, Health>
    var globalHistory: seq<int>
    var started: bool
    var shuttingDown: bool
    var cachedSnapshot: Option<map<Subsystem, Row>>
    // the engine, as far as the guardian acts on it
    var live: set<nat>
    var armed: map<nat, Timer>
    var queue: multiset<Retry>
    var now: int
    var next: nat
    var phase: Phase

    ghost function View(): World
      reads this, policy
    {
      World(Guardian(children, scheduledRetry, retryGen, policy.states, health, globalHistory, started, shuttingDown,
                     cachedSnapshot),
            live, armed, queue, now, next, phase)
    }

    ghost predicate Sound()
      reads this, policy
    {
      ValidSetup(c) && policy.cfg == c.policy && Inv(c, View())
    }

    constructor (c: Setup, now: int)
      requires ValidSetup(c)
      ensures this.c == c && View() == Boot(now) && Sound() && fresh(policy)
    {
      this.c := c;
      AcceptedConfigIsValid(c.policy);
      policy := new SupervisorPolicy(c.policy);
      children, scheduledRetry, retryGen, health := map[], map[], map[], map[];
      globalHistory, started, shuttingDown, cachedSnapshot := [], false, false, None;
      live, armed, queue, this.now, next, phase := {}, map[], multiset{}, now, 0, Fresh;
    }

    function Gen(s: Subsystem): nat
      reads this
    {
      if s in retryGen then retryGen[s] else 0
    }

    function HealthAt(s: Subsystem): Health
      reads this
    {
      if s in health then health[s] else NO_HEALTH
    }

    /** The bookkeeping of a successful spawn. */
    method AdoptChild(s: Subsystem)
      modifies `children, `live, `next, `health, `cachedSnapshot
      ensures children == old(children)[s := old(next)] && live == old(live) + {old(next)} && next == old(next) + 1
      ensures health == old(health)[s := old(HealthAt(s)).(running := true, lastError := "", lastTransition := now)]
      ensures cachedSnapshot == None
    {
      children, live, next := children[s := next], live + {next}, next + 1;
      health, cachedSnapshot := health[s := HealthAt(s).(running := true, lastError := "", lastTransition := now)], None;
    }

    /** startSubsystem */
    method StartSubsystem(s: Subsystem, spawned: bool)
      modifies this, policy
      ensures View() == StartOne(old(View()), s, spawned)
    {
      if !spawned {
        health, cachedSnapshot := health[s := HealthAt(s).(lastError := "spawn failed", running := false)], None;
        return;
      }
      AdoptChild(s);
      if Degraded(policy.StateOf(s), now) {
        policy.Recover(s);
      }
    }

    method StartManaged(fails: set<Subsystem>)
      modifies this, policy
      ensures View() == GuardianSpec.StartAll(c, old(View()), fails)
    {
      if started {
        return;
      }
      started := true;
      ghost var w := View();
      var i := 0;
      while i < |c.managed|
        invariant 0 <= i <= |c.managed| && View() == StartEach(w, c.managed[..i], fails)
      {
        StartOneMore(w, c.managed, i, fails);
        StartSubsystem(c.managed[i], c.managed[i] !in fails);
        i := i + 1;
      }
      assert c.managed[..i] == c.managed;
    }
  
    method CancelRetries()
      modifies `scheduledRetry, `retryGen, `armed
      ensures scheduledRetry == map[] && retryGen == Bumped(old(retryGen), old(scheduledRetry.Keys))
      ensures armed == old(armed) - old(scheduledRetry.Values)
    {
      ghost var was := Pending(scheduledRetry, retryGen, armed);
      BumpNone(retryGen);
      var left := scheduledRetry.Keys;
      while left != {}
        invariant left <= was.scheduled.Keys
        invariant Cancelling(was, was.scheduled.Keys - left, Pending(scheduledRetry, retryGen, armed))
        decreases left
      {
        var s :| s in left;
        CancelOneMore(was, was.scheduled.Keys - left, Pending(scheduledRetry, retryGen, armed), s);
        assert was.scheduled.Keys - left + {s} == was.scheduled.Keys - (left - {s});
        armed, retryGen := armed - {scheduledRetry[s]}, retryGen[s := At(retryGen, s) + 1];
        scheduledRetry, left := scheduledRetry - {s}, left - {s};
      }
      assert was.scheduled.Keys - {} == was.scheduled.Keys;
      CancelledAll(was, Pending(scheduledRetry, retryGen, armed));
    }

    method PoisonManaged()
      modifies `children, `health, `live
      ensures children == old(children) - Managed(c) && live == old(live) - PidsOf(old(children), Managed(c))
      ensures health == Halted(old(health), Managed(c), now)
    {
      ghost var was, done := Staff(children, live, health), {};
      HaltNone(health, now);
      var i := |c.managed|;
      while i > 0
        invariant 0 <= i <= |c.managed| && done == set s | s in c.managed[i..]
        invariant Poisoning(was, done, now, Staff(children, live, health))
      {
        i := i - 1;
        var s := c.managed[i];
        assert c.managed[i..] == [s] + c.managed[i + 1..];
        PoisonOneMore(was, done, now, Staff(children, live, health), s);
        if s in children {
          live := live - {children[s]};
        }
        children := children - {s};
        health := health[s := HealthAt(s).(running := false, connected := false, lastTransition := now)];
        done := done + {s};
      }
      assert c.managed[0..] == c.managed;
    }

    /** stopAll */
    method StopManaged()
      modifies this
      ensures View() == GuardianSpec.StopAll(c, old(View()))
    {
      CancelRetries();
      PoisonManaged();
      started, cachedSnapshot := false, None;
    }
  
    /** retrySubsystem */
    method RetrySubsystem(r: Retry, spawned: bool)
      modifies this, policy
      ensures View() == Retried(old(View()), r, spawned)
    {
      if shuttingDown || Gen(r.sub) != r.gen {
        return;
      }
      scheduledRetry := scheduledRetry - {r.sub};
      if Degraded(policy.StateOf(r.sub), now) {
        return;
      }
      StartSubsystem(r.sub, spawned);
    }

    /**
     * retrySubsystem on a queued message: an outdated retry changes nothing but the queue; an accepted one never meets a
     * child, and no other subsystem is touched.
     */
    method TakeRetry(r: Retry, spawned: bool)
      requires Sound() && phase == Up && r in queue
      modifies this, policy
      ensures Sound() && View() == HandleRetry(old(View()), r, spawned)
      ensures old(!shuttingDown && Gen(r.sub) == r.gen) ==> r.sub !in old(children) && (r.sub in children <==> spawned)
      ensures old(shuttingDown || Gen(r.sub) != r.gen) ==> View().g == old(View().g)
      ensures policy.states == old(policy.states) && forall t :: t != r.sub ==> (t in children <==> t in old(children))
    {
      RetryMeans(c, View(), r, spawned);
      queue := queue - multiset{r};
      assert View() == old(View()).(queue := old(queue) - multiset{r});
      RetrySubsystem(r, spawned);
    }

    /** scheduleFn for the current generation, then replaceScheduledRetry */
    method ScheduleRetry(s: Subsystem, delay: int)
      modifies `armed, `scheduledRetry, `next
      ensures View() == Schedule(old(View()), s, delay)
    {
      var id, retry := next, Retry(s, Gen(s));
      if s in scheduledRetry {
        armed := armed - {scheduledRetry[s]};
      }
      armed, next := armed[id := Timer(now + delay, retry)], next + 1;
      scheduledRetry := scheduledRetry[s := id];
    }

    /** allowGlobalRestart */
    method AllowGlobalRestart() returns (granted: bool)
      modifies `globalHistory
      ensures (globalHistory, granted) == AllowGlobal(old(globalHistory), now, c.globalWindow, c.globalLimit)
    {
      globalHistory := PruneFailures(globalHistory, now, c.globalWindow);
      if |globalHistory| >= c.globalLimit {
        return false;
      }
      globalHistory := globalHistory + [now];
      granted := true;
    }

    /** nextGlobalRetryDelay; on a history pruned at this moment it changes nothing */
    method NextGlobalRetryDelay() returns (delay: int)
      modifies `globalHistory
      ensures globalHistory == Prune(old(globalHistory), now, c.globalWindow)
      ensures delay == NextGlobalDelay(old(globalHistory), now, c.globalWindow, c.globalLimit)
    {
      globalHistory := PruneFailures(globalHistory, now, c.globalWindow);
      if |globalHistory| < c.globalLimit || |globalHistory| == 0 {
        return 0;
      }
      delay := globalHistory[0] + c.globalWindow - now;
      if delay < 0 {
        delay := 0;
      }
    }

    /** The part of handleChildFailed after the policy has decided. */
    method Act(s: Subsystem, d: Decision, u: real)
      modifies `armed, `scheduledRetry, `next, `globalHistory
      ensures View() == ActOn(c, old(View()), s, d, u)
    {
      match d
      case Cooling(_) =>
      case Degrade(until) =>
        ScheduleRetry(s, if until - now < 0 then 0 else until - now);
      case Restart(backoff) =>
        ActRestart(s, backoff, u);
    }

    method ActRestart(s: Subsystem, backoff: int, u: real)
      modifies `armed, `scheduledRetry, `next, `globalHistory
      ensures View() == ActOn(c, old(View()), s, Restart(backoff), u)
    {
      ghost var w := View();
      var granted := AllowGlobalRestart();
      PruneDropsOldest(w.g.history, now, c.globalWindow);
      var delay := DelayRestart(granted, backoff, u);
      ScheduleRetry(s, delay);
      RestartSchedules(c, w, s, backoff, u, globalHistory, granted, delay);
    }

    /** How long a restart waits, granted or not; the history has been pruned at this moment. */
    method DelayRestart(granted: bool, backoff: int, u: real) returns (delay: int)
      requires !granted ==> globalHistory == Prune(globalHistory, now, c.globalWindow)
      modifies `globalHistory
      ensures globalHistory == old(globalHistory)
      ensures delay == RestartDelay(c, globalHistory, granted, now, backoff, u)
    {
      if granted {
        return ApplyJitter(backoff, c.policy.jitter, u);
      }
      delay := NextGlobalRetryDelay();
      if delay <= 0 {
        delay := SECOND;
      }
    }

    /** What handleChildFailed records before it asks the policy. */
    method RecordChildFailure(s: Subsystem, err: string)
      modifies `health, `live, `children, `cachedSnapshot
      ensures View() == RecordFailure(old(View()), s, err)
    {
      if s in children {
        live := live - {children[s]};
      }
      var h := HealthAt(s).(lastError := err, lastFailureAt := now, running := false, connected := false,
                            lastTransition := now);
      health, children, cachedSnapshot := health[s := h], children - {s}, None;
    }

    /**
     * handleChildFailed: the subsystem ends up without a child, and with a retry pending exactly if it was not cooling
     * down, due when the failures and grants so far say; every other subsystem keeps its child and its record.
     */
    method HandleChildFailed(s: Subsystem, err: string, u: real)
      requires Sound() && phase == Up && 0.0 <= u < 1.0
      modifies this, policy
      ensures Sound() && View() == FailChild(c, old(View()), s, err, u)
      ensures FailureEffect(old(View()), s, View())
      ensures s.name != "" && !shuttingDown ==>
                forall t, grants :: AccountsFor(c, old(View()), s, t, grants) ==>
                  ArmsAsTold(c, old(View()), ChildFailed(s, err, u), t, grants, View())
    {
      ghost var w := View();
      Fail(s, err, u);
      FailureMeans(c, w, s, err, u, View());
      if s.name != "" && !w.g.shuttingDown {
        forall t, grants | AccountsFor(c, w, s, t, grants) ensures ArmsAsTold(c, w, ChildFailed(s, err, u), t, grants, View()) {
          ReportArmsAsTold(c, w, ChildFailed(s, err, u), t, grants, View());
        }
      }
    }

    /** The generation is bumped whatever the policy decides. */
    method Fail(s: Subsystem, err: string, u: real)
      requires policy.cfg == c.policy
      modifies this, policy
      ensures View() == FailChild(c, old(View()), s, err, u)
    {
      if s.name == "" {
        return;
      }
      if shuttingDown {
        cachedSnapshot := None;
        return;
      }
      RecordChildFailure(s, err);
      Decide(s, u);
    }

    method Decide(s: Subsystem, u: real)
      requires policy.cfg == c.policy
      modifies this, policy
      ensures var (st, d) := OnFailure(c.policy, old(policy.StateOf(s)), now);
              View() == ActOn(c, Outdate(old(View()), s, st), s, d, u)
    {
      var d := policy.Fail(s, now);
      retryGen := retryGen[s := Gen(s) + 1];
      assert View() == Outdate(old(View()), s, policy.StateOf(s));
      Act(s, d, u);
    }

    /** handleHeartbeat */
    method HandleHeartbeat(s: Subsystem, connected: bool, messageAt: Option<int>, publishAt: Option<int>)
      modifies `health, `cachedSnapshot
      ensures View() == Beat(old(View()), s, connected, messageAt, publishAt)
    {
      if s.name == "" {
        return;
      }
      var h := HealthAt(s).(connected := connected);
      if messageAt.Some? {
        h := h.(lastMessageAt := messageAt.value);
      }
      if publishAt.Some? {
        h := h.(lastPublishAt := publishAt.value);
      }
      health, cachedSnapshot := health[s := h], None;
    }

    /** buildSnapshot: cached or not, what it returns is what a fresh build would be */
    method Snapshot() returns (r: map<Subsystem, Row>)
      modifies `cachedSnapshot
      ensures View() == BuildSnapshot(c, old(View()))
      ensures old(CacheOk(c, View())) ==> r == Rebuild(c, old(View().g))
    {
      if cachedSnapshot.Some? {
        return cachedSnapshot.value;
      }
      r := map[];
      var i := 0;
      while i < |c.managed|
        invariant 0 <= i <= |c.managed| && r.Keys == set s | s in c.managed[..i]
        invariant forall s :: s in r ==> r[s] == RowOf(View().g, s)
      {
        var s := c.managed[i];
        var st := policy.StateOf(s);
        r := r[s := Row(HealthAt(s), if s in children then Some(children[s]) else None, st.restartCount, st.degradedUntil)];
        assert c.managed[..i + 1] == c.managed[..i] + [s];
        i := i + 1;
      }
      assert c.managed[..i] == c.managed;
      assert r == Rebuild(c, View().g);
      cachedSnapshot := Some(r);
    }

    /** Receive: every message is its step, so all that holds of every run holds of this object. */
    method Receive(e: Event)
      requires Sound() && Enabled(View(), e) && !e.Advance? && !e.Fire?
      modifies this, policy
      ensures View() == Step(c, old(View()), e) && Sound()
    {
      StepKeepsInv(c, View(), e);
      match e
      case Started(fails) => StartManaged(fails); phase := Up;
      case Start(fails) => StartManaged(fails);
      case Stop => shuttingDown := true; StopManaged();
      case Reload(fails) => StopManaged(); StartManaged(fails);
      case ChildFailed(s, err, u) => HandleChildFailed(s, err, u);
      case Heartbeat(s, connected, m, p) => HandleHeartbeat(s, connected, m, p);
      case Snapshot => var r := Snapshot();
      case RetryDue(r, spawned) => TakeRetry(r, spawned);
      case Stopped => StopManaged(); phase := Down;
      case _ =>
    }
  }
}

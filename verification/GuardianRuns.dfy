/** What holds of the guardian in every reachable world. */
module GuardianRuns {
  import opened Options
  import opened Supervisor
  import opened GuardianSpec

  // ---------------------------------------------------------------- one event

  lemma StartAllKeeps(c: Setup, w: World, fails: set<Subsystem>)
    requires ValidSetup(c) && ChildrenOk(w) && RetriesOk(w)
    requires !w.g.started ==> w.g.scheduled == map[] && forall s :: s in c.managed ==> s !in w.g.children
    ensures var v := StartAll(c, w, fails);
            && ChildrenOk(v) && RetriesOk(v) && v.g.started && v.g.shuttingDown == w.g.shuttingDown && v.phase == w.phase
            && (!w.g.started ==> v.g.scheduled == map[] && forall s :: s in c.managed ==> (s in v.g.children <==> s !in fails))
            && (CacheOk(c, w) ==> CacheOk(c, v))
  {
    if !w.g.started {
      var x := w.(g := w.g.(started := true));
      SameRetries(w, x);
      StartEachKeeps(x, c.managed, fails);
    }
  }

  /** Retries look only at timers, queue, schedule, generations, children and policy states. */
  lemma SameRetries(w: World, v: World)
    requires RetriesOk(w)
    requires v.armed == w.armed && v.queue == w.queue && v.now == w.now && v.next == w.next
    requires v.g.scheduled == w.g.scheduled && v.g.gens == w.g.gens && v.g.children == w.g.children && v.g.states == w.g.states
    ensures RetriesOk(v)
  {
  }

  lemma StopAllKeeps(c: Setup, w: World)
    requires ChildrenOk(w) && RetriesOk(w)
    ensures var v := StopAll(c, w);
            && ChildrenOk(v) && RetriesOk(v) && CacheOk(c, v) && v.phase == w.phase && v.g.shuttingDown == w.g.shuttingDown
            && !v.g.started && v.g.scheduled == map[] && forall s :: s in c.managed ==> s !in v.g.children
  {
    StopAllChildren(c, w);
    StopAllRetries(c, w);
  }

  /** Stopping leaves alive exactly the children of subsystems the guardian does not manage. */
  lemma StopLeavesOnlyUnmanaged(c: Setup, w: World)
    requires ChildrenOk(w)
    ensures forall x :: x in StopAll(c, w).live <==> exists s :: s in w.g.children && s !in c.managed && w.g.children[s] == x
  {
  }

  lemma StartStopStep(c: Setup, w: World, e: Event)
    requires ValidSetup(c) && Inv(c, w) && Enabled(w, e)
    requires e.Started? || e.Start? || e.Stop? || e.Reload? || e.Stopped?
    ensures Inv(c, Step(c, w, e))
  {
    var x := if e.Stop? then w.(g := w.g.(shuttingDown := true)) else w;
    SameRetries(w, x);
    StopAllKeeps(c, x);
    match e
    case Started(fails) => StartAllKeeps(c, w, fails); SameRetries(StartAll(c, w, fails), Step(c, w, e));
    case Start(fails) => StartAllKeeps(c, w, fails);
    case Reload(fails) => StartAllKeeps(c, StopAll(c, w), fails);
    case Stopped => SameRetries(StopAll(c, w), Step(c, w, e));
    case _ =>
  }

  lemma RetryStep(c: Setup, w: World, r: Retry, ok: bool)
    requires Inv(c, w) && w.phase == Up && r in w.queue
    ensures Inv(c, HandleRetry(w, r, ok))
  {
    HandleRetryKeeps(w, r, ok);
    if !w.g.started {
      assert w.g.shuttingDown;
    }
  }

  lemma FailStep(c: Setup, w: World, s: Subsystem, err: string, u: real)
    requires ValidSetup(c) && Inv(c, w) && w.phase == Up && 0.0 <= u < 1.0
    ensures Inv(c, FailChild(c, w, s, err, u))
  {
    if s.name != "" {
      if w.g.shuttingDown {
        SameRetries(w, FailChild(c, w, s, err, u));
      } else {
        FailChildKeeps(c, w, s, err, u);
      }
    }
  }

  lemma QuietStep(c: Setup, w: World, e: Event)
    requires Inv(c, w) && Enabled(w, e) && (e.Heartbeat? || e.Snapshot?)
    ensures Inv(c, Step(c, w, e))
  {
    SameRetries(w, Step(c, w, e));
    if e.Snapshot? {
      RebuildIgnoresCache(c, w.g, Some(Rebuild(c, w.g)));
    }
  }

  lemma RebuildIgnoresCache(c: Setup, g: Guardian, cache: Option<map<Subsystem, Row>>)
    ensures Rebuild(c, g.(cache := cache)) == Rebuild(c, g)
  {
  }

  lemma EngineStep(c: Setup, w: World, e: Event)
    requires Inv(c, w) && Enabled(w, e) && (e.Advance? || e.Fire?)
    ensures Inv(c, Step(c, w, e))
  {
    if e.Advance? {
      AdvanceRetries(w, e.to);
    } else {
      FireRetries(w, e.id);
    }
  }

  lemma StepKeepsInv(c: Setup, w: World, e: Event)
    requires ValidSetup(c) && Inv(c, w) && Enabled(w, e)
    ensures Inv(c, Step(c, w, e))
  {
    match e
    case ChildFailed(s, err, u) => FailStep(c, w, s, err, u);
    case RetryDue(r, ok) => RetryStep(c, w, r, ok);
    case Advance(_) => EngineStep(c, w, e);
    case Fire(_) => EngineStep(c, w, e);
    case Heartbeat(_, _, _, _) => QuietStep(c, w, e);
    case Snapshot => QuietStep(c, w, e);
    case _ => StartStopStep(c, w, e);
  }

  // ---------------------------------------------------------------- no retry is lost

  /** While the guardian is up, every managed subsystem has its child or a retry on the way. */
  ghost predicate NothingLost(c: Setup, w: World) {
    w.phase == Up && w.g.started && !w.g.shuttingDown ==>
      forall s :: s in c.managed ==> s in w.g.children || HasRetry(w, s)
  }

  /**
   * The event takes a managed subsystem's last hope: a failure inside its cooldown, a retry that is accepted but fails to
   * spawn, or a start or reload in which its spawn fails.
   */
  ghost predicate Strands(c: Setup, w: World, e: Event) {
    match e
    case ChildFailed(s, _, _) => s in c.managed && s.name != "" && !w.g.shuttingDown && Degraded(StateOf(w.g, s), w.now)
    case RetryDue(r, spawned) => r.sub in c.managed && !w.g.shuttingDown && IsCurrent(w.g, r) && !spawned
    case Started(fails) => exists s :: s in c.managed && s in fails
    case Reload(fails) => !w.g.shuttingDown && exists s :: s in c.managed && s in fails
    case _ => false
  }

  lemma FireLosesNothing(w: World, id: nat, s: Subsystem)
    requires id in w.armed && HasRetry(w, s)
    ensures HasRetry(w.(armed := w.armed - {id}, queue := w.queue + multiset{w.armed[id].retry}), s)
  {
    var v, r := w.(armed := w.armed - {id}, queue := w.queue + multiset{w.armed[id].retry}), Retry(s, GenOf(w.g, s));
    if r !in w.queue && w.armed[id].retry != r {
      var j :| j in w.armed && w.armed[j].retry == r;
      assert j in v.armed && v.armed[j].retry == r;
    }
  }

  lemma RetryLosesNothing(w: World, r: Retry, ok: bool, s: Subsystem)
    requires RetriesOk(w) && r in w.queue && !w.g.shuttingDown && (s in w.g.children || HasRetry(w, s))
    requires IsCurrent(w.g, r) && r.sub == s ==> ok
    ensures var v := HandleRetry(w, r, ok); s in v.g.children || HasRetry(v, s)
  {
    if IsCurrent(w.g, r) {
      AcceptedRetryStarts(w, r, ok);
    }
    var v, q := HandleRetry(w, r, ok), Retry(s, GenOf(w.g, s));
    if s !in w.g.children && q != r {
      assert q in w.queue ==> q in v.queue;
      if q !in w.queue {
        var id :| id in w.armed && w.armed[id].retry == q;
        assert id in v.armed && v.armed[id].retry == q;
      }
    }
  }

  lemma ActOnLosesNothing(c: Setup, w: World, s: Subsystem, d: Decision, u: real, t: Subsystem)
    requires RetriesOk(w) && NoCurrent(w, s) && t != s && HasRetry(w, t)
    ensures HasRetry(ActOn(c, w, s, d, u), t)
  {
    match d
    case Cooling(_) =>
    case Degrade(until) =>
      ScheduleLeavesOthers(w, s, if until - w.now < 0 then 0 else until - w.now, t);
    case Restart(delay) =>
      var (history, granted) := AllowGlobal(w.g.history, w.now, c.globalWindow, c.globalLimit);
      var x := w.(g := w.g.(history := history));
      HistoryIsNoRetry(w, s, history);
      HasRetrySame(w, x, t);
      ScheduleLeavesOthers(x, s, RestartDelay(c, history, granted, w.now, delay, u), t);
  }

  lemma HasRetrySame(w: World, v: World, t: Subsystem)
    requires HasRetry(w, t) && v.queue == w.queue && v.armed == w.armed && GenOf(v.g, t) == GenOf(w.g, t)
    ensures HasRetry(v, t)
  {
  }

  /** A failure of one subsystem costs no other its child or its retry. */
  lemma FailLeavesOthers(c: Setup, w: World, s: Subsystem, err: string, u: real, t: Subsystem)
    requires ValidSetup(c) && ChildrenOk(w) && RetriesOk(w) && 0.0 <= u < 1.0 && s.name != "" && !w.g.shuttingDown
    requires t != s && (t in w.g.children || HasRetry(w, t))
    ensures var v := FailChild(c, w, s, err, u); t in v.g.children || HasRetry(v, t)
  {
    var r := RecordFailure(w, s, err);
    RecordFailureKeeps(w, s, err);
    var (st, d) := OnFailure(c.policy, StateOf(r.g, s), r.now);
    OutdateKeeps(r, s, st);
    ActOnFrame(c, Outdate(r, s, st), s, d, u);
    if t !in w.g.children {
      HasRetrySame(w, Outdate(r, s, st), t);
      ActOnLosesNothing(c, Outdate(r, s, st), s, d, u, t);
    }
  }

  ghost predicate StartsOrStops(e: Event) {
    e.Started? || e.Start? || e.Reload? || e.Stop? || e.Stopped?
  }

  /** What a start or reload leaves: a managed subsystem has its child, or its spawn failed and nothing is left to retry it. */
  lemma StartedOrStranded(c: Setup, w: World, fails: set<Subsystem>, s: Subsystem)
    requires ValidSetup(c) && ChildrenOk(w) && RetriesOk(w) && s in c.managed && !w.g.started
    requires w.g.scheduled == map[] && forall t :: t in c.managed ==> t !in w.g.children
    ensures var v := StartAll(c, w, fails);
            (s in v.g.children <==> s !in fails) && (s in fails ==> !HasRetry(v, s))
  {
    StartAllKeeps(c, w, fails);
    UnscheduledHasNoCurrent(StartAll(c, w, fails), s);
  }

  lemma StartStopLosses(c: Setup, w: World, e: Event)
    requires ValidSetup(c) && Inv(c, w) && Enabled(w, e) && NothingLost(c, w) && StartsOrStops(e)
    ensures NothingLost(c, Step(c, w, e)) <==> !Strands(c, w, e)
  {
    if e.Started? {
      forall s | s in c.managed ensures var v := StartAll(c, w, e.fails); s in v.g.children || HasRetry(v, s) <==> s !in e.fails {
        StartedOrStranded(c, w, e.fails, s);
      }
      StartAllKeeps(c, w, e.fails);
      LostSame(c, StartAll(c, w, e.fails), Step(c, w, e));
    } else if e.Reload? {
      StopAllKeeps(c, w);
      forall s | s in c.managed
        ensures var v := Step(c, w, e); s in v.g.children || HasRetry(v, s) <==> s !in e.fails
      {
        StartedOrStranded(c, StopAll(c, w), e.fails, s);
      }
      StartAllKeeps(c, StopAll(c, w), e.fails);
    } else if e.Start? {
      StartAllKeeps(c, w, e.fails);
    }
  }

  lemma LostSame(c: Setup, w: World, v: World)
    requires v == w.(phase := v.phase)
    ensures forall s :: s in c.managed ==> (s in v.g.children || HasRetry(v, s) <==> s in w.g.children || HasRetry(w, s))
  {
    forall s | s in c.managed ensures HasRetry(v, s) <==> HasRetry(w, s) {
      if HasRetry(w, s) { HasRetrySame(w, v, s); }
      if HasRetry(v, s) { HasRetrySame(v, w, s); }
    }
  }

  /** An event other than a start or stop keeps what a managed subsystem has, unless it strands that one. */
  lemma QuietLosesNothing(c: Setup, w: World, e: Event, s: Subsystem)
    requires ValidSetup(c) && Inv(c, w) && Enabled(w, e) && !Strands(c, w, e) && !StartsOrStops(e)
    requires s in c.managed && !w.g.shuttingDown && (s in w.g.children || HasRetry(w, s))
    ensures s in Step(c, w, e).g.children || HasRetry(Step(c, w, e), s)
  {
    if e.ChildFailed? {
      if e.sub.name != "" {
        if e.sub == s {
          FailChildKeeps(c, w, s, e.err, e.u);
        } else {
          FailLeavesOthers(c, w, e.sub, e.err, e.u, s);
        }
      }
    } else if e.RetryDue? {
      RetryLosesNothing(w, e.r, e.spawned, s);
    } else if e.Fire? {
      if s !in w.g.children {
        FireLosesNothing(w, e.id, s);
      }
    } else if s !in w.g.children {
      HasRetrySame(w, Step(c, w, e), s);
    }
  }

  lemma QuietStrands(c: Setup, w: World, e: Event)
    requires ValidSetup(c) && Inv(c, w) && Enabled(w, e) && Strands(c, w, e) && !StartsOrStops(e)
    ensures !NothingLost(c, Step(c, w, e))
  {
    if e.ChildFailed? {
      FailureInCooldownStrands(c, w, e.sub, e.err, e.u);
      FailStepFrame(c, w, e);
    } else {
      FailedSpawnStrands(w, e.r);
    }
  }

  lemma QuietFrame(c: Setup, w: World, e: Event)
    requires ValidSetup(c) && Inv(c, w) && Enabled(w, e) && !StartsOrStops(e)
    ensures var v := Step(c, w, e);
            v.phase == w.phase && v.g.started == w.g.started && v.g.shuttingDown == w.g.shuttingDown
  {
    if e.ChildFailed? {
      FailStepFrame(c, w, e);
    }
  }

  /** The exact condition: where nothing is lost, an event loses something if and only if it strands a managed subsystem. */
  lemma LosesExactlyWhenStranding(c: Setup, w: World, e: Event)
    requires ValidSetup(c) && Inv(c, w) && Enabled(w, e) && NothingLost(c, w)
    ensures NothingLost(c, Step(c, w, e)) <==> !Strands(c, w, e)
  {
    if StartsOrStops(e) {
      StartStopLosses(c, w, e);
    } else if Strands(c, w, e) {
      QuietStrands(c, w, e);
    } else {
      QuietFrame(c, w, e);
      var v := Step(c, w, e);
      if v.phase == Up && v.g.started && !v.g.shuttingDown {
        forall s | s in c.managed ensures s in v.g.children || HasRetry(v, s) {
          QuietLosesNothing(c, w, e, s);
        }
      }
    }
  }

  /** What a failure report changes besides its own subsystem: nothing about children and policy states. */
  lemma FailFrame(c: Setup, w: World, s: Subsystem, err: string, u: real)
    requires !w.g.shuttingDown && s.name != ""
    ensures var v := FailChild(c, w, s, err, u);
            && v.g.children == w.g.children - {s} && v.now == w.now && v.phase == w.phase && v.g.started == w.g.started
            && !v.g.shuttingDown && (forall t :: t != s ==> StateOf(v.g, t) == StateOf(w.g, t))
            && StateOf(v.g, s) == OnFailure(c.policy, StateOf(w.g, s), w.now).0
  {
    var r := RecordFailure(w, s, err);
    var (st, d) := OnFailure(c.policy, StateOf(r.g, s), r.now);
    ActOnFrame(c, Outdate(r, s, st), s, d, u);
  }

  /** What is left after a failure report of `s`: no child, a retry unless it was cooling down, and all others as they were. */
  ghost predicate FailureEffect(w: World, s: Subsystem, v: World) {
    && (s.name != "" && !w.g.shuttingDown ==>
        s !in v.g.children && (HasRetry(v, s) <==> !Degraded(StateOf(w.g, s), w.now)))
    && (forall t :: t != s ==> StateOf(v.g, t) == StateOf(w.g, t) && (t in v.g.children <==> t in w.g.children))
  }

  /** What a failure report means: its subsystem loses its child and waits for a retry unless it was cooling down. */
  lemma FailureMeans(c: Setup, w: World, s: Subsystem, err: string, u: real, v: World)
    requires ValidSetup(c) && Inv(c, w) && w.phase == Up && 0.0 <= u < 1.0 && v == FailChild(c, w, s, err, u)
    ensures Inv(c, v) && FailureEffect(w, s, v)
  {
    FailStep(c, w, s, err, u);
    if s.name != "" && !w.g.shuttingDown {
      FailChildKeeps(c, w, s, err, u);
      FailFrame(c, w, s, err, u);
    }
  }

  /** What a queued retry means: accepted only if current, it then finds no child and leaves one if its spawn succeeds. */
  lemma RetryMeans(c: Setup, w: World, r: Retry, ok: bool)
    requires Inv(c, w) && w.phase == Up && r in w.queue
    ensures var v, accepted := HandleRetry(w, r, ok), !w.g.shuttingDown && IsCurrent(w.g, r);
            && Inv(c, v) && v.g.states == w.g.states
            && (accepted ==> r.sub !in w.g.children && (r.sub in v.g.children <==> ok))
            && (!accepted ==> v.g == w.g)
            && (forall t :: t != r.sub ==> (t in v.g.children <==> t in w.g.children))
  {
    RetryStep(c, w, r, ok);
    RetryNeverMarksRecovered(w, r, ok);
    if IsCurrent(w.g, r) && !w.g.shuttingDown {
      AcceptedRetry(w, r);
      AcceptedRetryStarts(w, r, ok);
    }
  }

  lemma FailStepFrame(c: Setup, w: World, e: Event)
    requires ValidSetup(c) && Inv(c, w) && Enabled(w, e) && e.ChildFailed?
    ensures var v := Step(c, w, e);
            v.phase == w.phase && v.g.started == w.g.started && v.g.shuttingDown == w.g.shuttingDown
  {
    if e.sub.name != "" && !w.g.shuttingDown {
      FailChildKeeps(c, w, e.sub, e.err, e.u);
    }
  }

  /** A failure report inside a cooldown takes the pending retry away and leaves nothing in its place. */
  lemma FailureInCooldownStrands(c: Setup, w: World, s: Subsystem, err: string, u: real)
    requires ValidSetup(c) && Inv(c, w) && w.phase == Up && 0.0 <= u < 1.0 && s.name != "" && !w.g.shuttingDown
    requires Degraded(StateOf(w.g, s), w.now)
    ensures var v := FailChild(c, w, s, err, u); s !in v.g.children && !HasRetry(v, s)
  {
  }

  /** An accepted retry whose spawn fails leaves its subsystem with neither child nor retry. */
  lemma FailedSpawnStrands(w: World, r: Retry)
    requires RetriesOk(w) && r in w.queue && IsCurrent(w.g, r) && !w.g.shuttingDown
    ensures var v := HandleRetry(w, r, false); r.sub !in v.g.children && !HasRetry(v, r.sub)
  {
  }

  // ---------------------------------------------------------------- whole runs

  ghost predicate Steps(c: Setup, w: World, e: Event, v: World) {
    Enabled(w, e) && v == Step(c, w, e)
  }

  ghost predicate StepAt(c: Setup, events: seq<Event>, run: seq<World>, i: nat)
    requires i < |events| && |run| == |events| + 1
  {
    Steps(c, run[i], events[i], run[i + 1])
  }

  ghost predicate IsRun(c: Setup, events: seq<Event>, run: seq<World>) {
    && |run| == |events| + 1 && (exists now :: run[0] == Boot(now))
    && forall i :: 0 <= i < |events| ==> StepAt(c, events, run, i)
  }

  lemma {:induction false} EveryRunKeepsInv(c: Setup, events: seq<Event>, run: seq<World>, k: nat)
    requires ValidSetup(c) && IsRun(c, events, run) && k < |run|
    ensures Inv(c, run[k])
  {
    if k > 0 {
      EveryRunKeepsInv(c, events, run, k - 1);
      assert StepAt(c, events, run, k - 1);
      StepKeepsInv(c, run[k - 1], events[k - 1]);
    }
  }

  /**
   * In every reachable world, whatever the interleaving of failures, timers, stale retries, reloads and stops: the live
   * children are exactly the recorded ones, one per subsystem; a subsystem has at most one pending retry of its current
   * generation, queued or on a timer, and none while it has a child; a queued one is accepted, since no cooldown makes the
   * handler discard it; and a cached snapshot says what a rebuild would.
   */
  lemma NoOrphanEver(c: Setup, events: seq<Event>, run: seq<World>, k: nat, s: Subsystem)
    requires ValidSetup(c) && IsRun(c, events, run) && k < |run|
    ensures var w := run[k];
            && w.live == w.g.children.Values
            && (forall t :: s in w.g.children && t in w.g.children && w.g.children[s] == w.g.children[t] ==> s == t)
            && (HasRetry(w, s) ==> OneRetry(w, s) && s !in w.g.children)
            && (Retry(s, GenOf(w.g, s)) in w.queue ==> !Degraded(StateOf(w.g, s), w.now))
            && (w.g.cache.Some? ==> w.g.cache.value == Rebuild(c, w.g))
  {
    EveryRunKeepsInv(c, events, run, k);
    if HasRetry(run[k], s) {
      PendingIsUnique(run[k], s);
    }
  }

  /** Exactly one retry of the current generation is pending: one queued and no timer, or one timer and none queued. */
  ghost predicate OneRetry(w: World, s: Subsystem) {
    var r := Retry(s, GenOf(w.g, s));
    if r in w.queue then w.queue[r] == 1 && forall id :: id in w.armed ==> w.armed[id].retry != r
    else exists id :: id in w.armed && w.armed[id].retry == r && OnlyTimer(w, id)
  }

  ghost predicate OnlyTimer(w: World, id: nat)
    requires id in w.armed
  {
    forall j :: j in w.armed && w.armed[j].retry == w.armed[id].retry ==> j == id
  }

  lemma PendingIsUnique(w: World, s: Subsystem)
    requires RetriesOk(w) && HasRetry(w, s)
    ensures OneRetry(w, s) && s !in w.g.children
    ensures Retry(s, GenOf(w.g, s)) in w.queue ==> !Degraded(StateOf(w.g, s), w.now)
  {
    var r := Retry(s, GenOf(w.g, s));
    if r in w.queue {
      AcceptedRetry(w, r);
    } else {
      var id :| id in w.armed && w.armed[id].retry == r;
      assert ArmedOk(w, id);
      assert OnlyTimer(w, id);
    }
  }

  lemma {:induction false} NothingLostSoFar(c: Setup, events: seq<Event>, run: seq<World>, k: nat)
    requires ValidSetup(c) && IsRun(c, events, run) && k < |run|
    requires forall i :: 0 <= i < k ==> !Strands(c, run[i], events[i])
    ensures NothingLost(c, run[k])
  {
    if k > 0 {
      assert !Strands(c, run[k - 1], events[k - 1]);
      NothingLostSoFar(c, events, run, k - 1);
      EveryRunKeepsInv(c, events, run, k - 1);
      assert StepAt(c, events, run, k - 1);
      LosesExactlyWhenStranding(c, run[k - 1], events[k - 1]);
    }
  }

  /**
   * As long as no event strands a managed subsystem, in particular while spawns succeed and no failure lands in a cooldown,
   * every managed subsystem of a guardian that is up has its child, or exactly one pending retry of the current generation.
   */
  lemma NoRetryEverLost(c: Setup, events: seq<Event>, run: seq<World>, k: nat, s: Subsystem)
    requires ValidSetup(c) && IsRun(c, events, run) && k < |run|
    requires forall i :: 0 <= i < k ==> !Strands(c, run[i], events[i])
    requires run[k].phase == Up && run[k].g.started && !run[k].g.shuttingDown && s in c.managed
    ensures s !in run[k].g.children ==> OneRetry(run[k], s)
  {
    NothingLostSoFar(c, events, run, k);
    EveryRunKeepsInv(c, events, run, k);
    if s !in run[k].g.children {
      PendingIsUnique(run[k], s);
    }
  }
}

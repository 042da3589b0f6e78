/** Runs of the guardian that show where a promise ends: lost retries, survivors of a stop, crowds of restarts. */
module GuardianScenarios {
  import opened Options
  import opened Supervisor
  import opened GuardianSpec
  import opened GuardianRuns

  /** A run and the world it has reached. */
  ghost predicate Reaches(c: Setup, events: seq<Event>, run: seq<World>, w: World) {
    IsRun(c, events, run) && run[|events|] == w
  }

  lemma Extend(c: Setup, events: seq<Event>, run: seq<World>, w: World, e: Event)
    requires Reaches(c, events, run, w) && Enabled(w, e)
    ensures Reaches(c, events + [e], run + [Step(c, w, e)], Step(c, w, e))
  {
    var v := Step(c, w, e);
    forall i | 0 <= i < |events + [e]| ensures StepAt(c, events + [e], run + [v], i) {
      assert i < |events| ==> StepAt(c, events, run, i);
    }
  }

  lemma ReachedKeepsInv(c: Setup, events: seq<Event>, run: seq<World>, w: World)
    requires ValidSetup(c) && Reaches(c, events, run, w)
    ensures Inv(c, w)
  {
    EveryRunKeepsInv(c, events, run, |events|);
  }

  ghost predicate Running(w: World) {
    w.phase == Up && w.g.started && !w.g.shuttingDown
  }

  lemma {:induction false} StartEachKeepsNew(w: World, subs: seq<Subsystem>, fails: set<Subsystem>)
    requires w.g.states == map[]
    ensures StartEach(w, subs, fails).g.states == map[] && StartEach(w, subs, fails).now == w.now
  {
    if subs != [] {
      StartEachKeepsNew(w, subs[..|subs| - 1], fails);
    }
  }

  /** The guardian up and running, with no failure on record. */
  lemma StartsClean(c: Setup, fails: set<Subsystem>) returns (events: seq<Event>, run: seq<World>, w: World)
    requires ValidSetup(c)
    ensures Reaches(c, events, run, w) && Running(w) && Inv(c, w) && w.g.states == map[] && |events| == 1
    ensures events[0] == Started(fails)
  {
    var boot := Boot(0);
    assert Reaches(c, [], [boot], boot);
    StartEachKeepsNew(boot.(g := boot.g.(started := true)), c.managed, fails);
    StartAllKeeps(c, boot, fails);
    Extend(c, [], [boot], boot, Started(fails));
    w := Step(c, boot, Started(fails));
    events, run := [] + [Started(fails)], [boot] + [w];
    ReachedKeepsInv(c, events, run, w);
  }

  /** The guardian takes in one failure report. */
  lemma Fails(c: Setup, events: seq<Event>, run: seq<World>, w: World, s: Subsystem)
    returns (events': seq<Event>, run': seq<World>, v: World)
    requires ValidSetup(c) && Reaches(c, events, run, w) && Running(w) && s.name != ""
    ensures Reaches(c, events', run', v) && Running(v) && Inv(c, v) && v == FailChild(c, w, s, "boom", 0.0)
    ensures HasRetry(v, s) <==> !Degraded(StateOf(w.g, s), w.now)
  {
    var e := ChildFailed(s, "boom", 0.0);
    ReachedKeepsInv(c, events, run, w);
    FailFrame(c, w, s, "boom", 0.0);
    FailChildKeeps(c, w, s, "boom", 0.0);
    Extend(c, events, run, w, e);
    v := Step(c, w, e);
    events', run' := events + [e], run + [v];
    ReachedKeepsInv(c, events', run', v);
  }

  /** A pending retry can be brought to the front of the queue by letting time pass and its timer fire. */
  lemma Queues(c: Setup, events: seq<Event>, run: seq<World>, w: World, s: Subsystem)
    returns (events': seq<Event>, run': seq<World>, v: World)
    requires ValidSetup(c) && Reaches(c, events, run, w) && Running(w) && HasRetry(w, s)
    ensures Reaches(c, events', run', v) && Running(v) && Inv(c, v) && v.g == w.g && Retry(s, GenOf(v.g, s)) in v.queue
  {
    var r := Retry(s, GenOf(w.g, s));
    if r in w.queue {
      events', run', v := events, run, w;
    } else {
      var id :| id in w.armed && w.armed[id].retry == r;
      var later := Advance(if w.armed[id].due < w.now then w.now else w.armed[id].due);
      var x := Step(c, w, later);
      Extend(c, events, run, w, later);
      Extend(c, events + [later], run + [x], x, Fire(id));
      v := Step(c, x, Fire(id));
      events', run' := events + [later] + [Fire(id)], run + [x] + [v];
    }
    ReachedKeepsInv(c, events', run', v);
  }

  // ---------------------------------------------------------------- stranded subsystems

  /** `n` failures on record, all at this moment, and no cooldown. */
  ghost predicate FailedNow(w: World, s: Subsystem, n: nat) {
    var st := StateOf(w.g, s);
    |st.failures| == n && (forall i :: 0 <= i < n ==> st.failures[i] == w.now) && st.degradedUntil == None
  }

  lemma OneMoreFailure(c: Config, st: RestartState, now: int)
    requires ValidConfig(c) && (forall i :: 0 <= i < |st.failures| ==> st.failures[i] == now) && st.degradedUntil == None
    ensures var st' := OnFailure(c, st, now).0;
            && st'.failures == st.failures + [now]
            && (if |st.failures| < c.restartLimit then st'.degradedUntil == None else Degraded(st', now))
  {
    assert Prune(st.failures, now, c.restartWindow) == st.failures;
  }

  /** As many failures at one moment as the policy answers with a restart. */
  lemma {:induction false} FailsOver(c: Setup, s: Subsystem, n: nat) returns (events: seq<Event>, run: seq<World>, w: World)
    requires ValidSetup(c) && s.name != "" && n <= c.policy.restartLimit
    ensures Reaches(c, events, run, w) && Running(w) && Inv(c, w) && FailedNow(w, s, n)
  {
    if n == 0 {
      events, run, w := StartsClean(c, {});
    } else {
      events, run, w := FailsOver(c, s, n - 1);
      var before := w;
      events, run, w := Fails(c, events, run, w, s);
      FailFrame(c, before, s, "boom", 0.0);
      OneMoreFailure(c.policy, StateOf(before.g, s), before.now);
    }
  }

  /**
   * A failure inside the cooldown strands, whatever the limit of restarts: two more failures than that at one moment do. The
   * first of the two starts the cooldown, and the second comes in it.
   */
  lemma CooldownStrandsARun(c: Setup, s: Subsystem) returns (events: seq<Event>, run: seq<World>, w: World)
    requires ValidSetup(c) && s in c.managed && s.name != ""
    ensures Reaches(c, events, run, w) && Running(w) && s !in w.g.children && !HasRetry(w, s) && !NothingLost(c, w)
  {
    events, run, w := FailsOver(c, s, c.policy.restartLimit);
    var first := w;
    events, run, w := Fails(c, events, run, w, s);
    FailFrame(c, first, s, "boom", 0.0);
    OneMoreFailure(c.policy, StateOf(first.g, s), first.now);
    var second := w;
    events, run, w := Fails(c, events, run, w, s);
    FailFrame(c, second, s, "boom", 0.0);
  }

  /** A spawn that fails at start strands its subsystem for good. */
  lemma FailedStartStrandsARun(c: Setup, s: Subsystem) returns (events: seq<Event>, run: seq<World>, w: World)
    requires ValidSetup(c) && s in c.managed
    ensures Reaches(c, events, run, w) && events == [Started({s})] && !NothingLost(c, w)
  {
    events, run, w := StartsClean(c, {s});
    assert StepAt(c, events, run, 0);
    EveryRunKeepsInv(c, events, run, 0);
    LosesExactlyWhenStranding(c, run[0], Started({s}));
  }

  /** So does a retry whose spawn fails. */
  lemma FailedRetryStrandsARun(c: Setup, s: Subsystem) returns (events: seq<Event>, run: seq<World>, w: World)
    requires ValidSetup(c) && s in c.managed && s.name != ""
    ensures Reaches(c, events, run, w) && !NothingLost(c, w)
  {
    events, run, w := StartsClean(c, {});
    events, run, w := Fails(c, events, run, w, s);
    events, run, w := Queues(c, events, run, w, s);
    var r := Retry(s, GenOf(w.g, s));
    FailedSpawnStrands(w, r);
    Extend(c, events, run, w, RetryDue(r, false));
    events, run, w := events + [RetryDue(r, false)], run + [Step(c, w, RetryDue(r, false))], Step(c, w, RetryDue(r, false));
  }

  /** Any subsystem the guardian does not manage can get a child through a failure report, and that child outlives a stop. */
  lemma UnmanagedOutlivesStop(c: Setup, s: Subsystem) returns (events: seq<Event>, run: seq<World>, w: World)
    requires ValidSetup(c) && s !in c.managed && s.name != ""
    ensures Reaches(c, events, run, w) && w.g.shuttingDown && s in w.g.children && w.g.children[s] in w.live
  {
    events, run, w := StartsClean(c, {});
    events, run, w := Fails(c, events, run, w, s);
    events, run, w := Queues(c, events, run, w, s);
    var r := Retry(s, GenOf(w.g, s));
    events, run, w := Restarts(c, events, run, w, s);
    Extend(c, events, run, w, Stop);
    events, run, w := events + [Stop], run + [Step(c, w, Stop)], Step(c, w, Stop);
    ReachedKeepsInv(c, events, run, w);
  }

  // ---------------------------------------------------------------- a crowd of restarts

  /** Every pending retry is due: each of them can be handled without time passing. */
  ghost predicate AllDue(w: World) {
    forall id :: id in w.armed ==> w.armed[id].due <= w.now
  }

  lemma {:induction false} LatestDue(armed: map<nat, Timer>, now: int) returns (t: int)
    ensures now <= t && forall id :: id in armed ==> armed[id].due <= t
    decreases |armed.Keys|
  {
    if armed.Keys == {} {
      t := now;
    } else {
      var id :| id in armed.Keys;
      var rest := armed - {id};
      assert rest.Keys == armed.Keys - {id};
      var u := LatestDue(rest, now);
      t := if armed[id].due > u then armed[id].due else u;
      forall j | j in armed ensures armed[j].due <= t {
        assert j == id || j in rest;
      }
    }
  }

  /** The first `n` subsystems of a list have their retry pending. */
  ghost predicate Waiting(w: World, subs: seq<Subsystem>, from: nat, to: nat) {
    forall i :: from <= i < to && i < |subs| ==> HasRetry(w, subs[i])
  }

  ghost predicate DistinctNamed(subs: seq<Subsystem>) {
    && (forall i, j :: 0 <= i < j < |subs| ==> subs[i] != subs[j])
    && (forall i :: 0 <= i < |subs| ==> subs[i].name != "")
  }

  lemma FailKeepsWaiting(c: Setup, w: World, s: Subsystem, t: Subsystem)
    requires ValidSetup(c) && Inv(c, w) && Running(w) && s.name != "" && t != s && HasRetry(w, t)
    ensures HasRetry(FailChild(c, w, s, "boom", 0.0), t)
  {
    PendingIsUnique(w, t);
    FailLeavesOthers(c, w, s, "boom", 0.0, t);
    FailFrame(c, w, s, "boom", 0.0);
  }

  /** Every subsystem of the list fails once, one after the other, and all wait for their retry. */
  lemma {:induction false} AllFail(c: Setup, subs: seq<Subsystem>, n: nat)
    returns (events: seq<Event>, run: seq<World>, w: World)
    requires ValidSetup(c) && DistinctNamed(subs) && n <= |subs|
    ensures Reaches(c, events, run, w) && Running(w) && Inv(c, w) && Waiting(w, subs, 0, n)
    ensures forall i :: n <= i < |subs| ==> StateOf(w.g, subs[i]) == NEW_STATE
  {
    if n == 0 {
      events, run, w := StartsClean(c, {});
    } else {
      events, run, w := AllFail(c, subs, n - 1);
      var before := w;
      events, run, w := Fails(c, events, run, w, subs[n - 1]);
      FailFrame(c, before, subs[n - 1], "boom", 0.0);
      forall i | 0 <= i < n ensures HasRetry(w, subs[i]) {
        if i < n - 1 {
          FailKeepsWaiting(c, before, subs[n - 1], subs[i]);
        }
      }
    }
  }

  /** Handling one due retry starts its child at once and leaves the others waiting. */
  lemma StartsNow(c: Setup, events: seq<Event>, run: seq<World>, w: World, s: Subsystem)
    returns (events': seq<Event>, run': seq<World>, v: World)
    requires ValidSetup(c) && Reaches(c, events, run, w) && Running(w) && AllDue(w) && HasRetry(w, s)
    ensures Reaches(c, events', run', v) && Running(v) && AllDue(v) && v.now == w.now && s in v.g.children
    ensures forall t :: t in w.g.children ==> t in v.g.children
    ensures forall t :: t != s && HasRetry(w, t) ==> HasRetry(v, t)
    ensures Prolongs(events, run, events', run', w.now)
  {
    var x;
    events', run', x := FiresNow(c, events, run, w, s);
    var mid, midRun := events', run';
    events', run', v := Restarts(c, events', run', x, s);
    var r := Retry(s, GenOf(x.g, s));
    forall t | t != s && HasRetry(w, t) ensures HasRetry(v, t) {
      ReachedKeepsInv(c, mid, midRun, x);
      PendingIsUnique(x, t);
      RetryLosesNothing(x, r, true, t);
    }
  }

  /** One run continues another, and time stands still meanwhile. */
  ghost predicate Prolongs(events: seq<Event>, run: seq<World>, events': seq<Event>, run': seq<World>, now: int) {
    && |run| <= |run'| && run <= run' && events <= events'
    && forall i :: |run| <= i < |run'| ==> run'[i].now == now
  }

  lemma FiresNow(c: Setup, events: seq<Event>, run: seq<World>, w: World, s: Subsystem)
    returns (events': seq<Event>, run': seq<World>, v: World)
    requires ValidSetup(c) && Reaches(c, events, run, w) && Running(w) && AllDue(w) && HasRetry(w, s)
    ensures Reaches(c, events', run', v) && Running(v) && AllDue(v) && v.now == w.now && v.g == w.g
    ensures Retry(s, GenOf(v.g, s)) in v.queue && forall t :: HasRetry(w, t) ==> HasRetry(v, t)
    ensures Prolongs(events, run, events', run', w.now)
  {
    var r := Retry(s, GenOf(w.g, s));
    if r in w.queue {
      events', run', v := events, run, w;
    } else {
      var id :| id in w.armed && w.armed[id].retry == r;
      Extend(c, events, run, w, Fire(id));
      v := Step(c, w, Fire(id));
      events', run' := events + [Fire(id)], run + [v];
      forall t | HasRetry(w, t) ensures HasRetry(v, t) {
        FireLosesNothing(w, id, t);
      }
    }
  }

  /** The retry at the front of the queue is accepted and its spawn succeeds. */
  lemma Restarts(c: Setup, events: seq<Event>, run: seq<World>, w: World, s: Subsystem)
    returns (events': seq<Event>, run': seq<World>, v: World)
    requires ValidSetup(c) && Reaches(c, events, run, w) && Running(w) && Retry(s, GenOf(w.g, s)) in w.queue
    ensures Reaches(c, events', run', v) && Running(v) && v == HandleRetry(w, Retry(s, GenOf(w.g, s)), true)
    ensures v.now == w.now && v.armed == w.armed && v.g.children.Keys == w.g.children.Keys + {s}
    ensures Prolongs(events, run, events', run', w.now)
  {
    var r := Retry(s, GenOf(w.g, s));
    ReachedKeepsInv(c, events, run, w);
    AcceptedRetryStarts(w, r, true);
    Extend(c, events, run, w, RetryDue(r, true));
    v := Step(c, w, RetryDue(r, true));
    events', run' := events + [RetryDue(r, true)], run + [v];
  }

  /**
   * A retry does not ask the global limiter again when it falls due, so nothing bounds how many children are started at one
   * moment: whatever the limits, any number of subsystems can be started by their retries without time passing.
   */
  lemma {:induction false} AnyNumberStartAtOnce(c: Setup, subs: seq<Subsystem>, n: nat)
    returns (events: seq<Event>, run: seq<World>, w: World, p: nat)
    requires ValidSetup(c) && DistinctNamed(subs) && n <= |subs|
    ensures Reaches(c, events, run, w) && Running(w) && AllDue(w) && p <= |events|
    ensures forall i :: p <= i <= |events| ==> run[i].now == w.now
    ensures forall i :: 0 <= i < |subs| ==> HasRetry(run[p], subs[i]) && subs[i] !in run[p].g.children
    ensures forall i :: 0 <= i < n ==> subs[i] in w.g.children
    ensures Waiting(w, subs, n, |subs|)
  {
    if n == 0 {
      events, run, w := AllFail(c, subs, |subs|);
      var t := LatestDue(w.armed, w.now);
      Extend(c, events, run, w, Advance(t));
      var v := Step(c, w, Advance(t));
      forall i | 0 <= i < |subs| ensures HasRetry(v, subs[i]) && subs[i] !in v.g.children {
        HasRetrySame(w, v, subs[i]);
        PendingIsUnique(w, subs[i]);
      }
      events, run, w := events + [Advance(t)], run + [v], v;
      p := |events|;
    } else {
      events, run, w, p := AnyNumberStartAtOnce(c, subs, n - 1);
      var events0, run0 := events, run;
      events, run, w := StartsNow(c, events, run, w, subs[n - 1]);
      assert run[p] == run0[p];
    }
  }
}

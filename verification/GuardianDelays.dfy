/** When a scheduled retry falls due, told from the failures and grants of the run alone. */
module GuardianDelays {
  import opened Options
  import opened Supervisor
  import opened GuardianSpec
  import opened GuardianRuns
  import opened GuardianBudgets

  /** The earliest of these moments that is no earlier than the cutoff. */
  function OldestFrom(times: seq<int>, cutoff: int): Option<int> {
    if times == [] then None
    else
      var before, last := OldestFrom(times[..|times| - 1], cutoff), times[|times| - 1];
      if before.Some? then before else if last >= cutoff then Some(last) else None
  }

  /**
   * What a report outside a cooldown leads to, from the failures since the last recovery and the grants so far: degrading
   * waits out the cooldown; a granted restart waits base doubled once for each recent failure, up to the cap, moved by the
   * jitter; a refused one waits until the oldest grant in the window leaves it, or a second if that is now.
   */
  ghost predicate DueAsTold(c: Setup, failures: seq<int>, grants: seq<int>, now: int, u: real, due: int) {
    var recent, granted := CountFrom(failures, now - c.policy.restartWindow), CountFrom(grants, now - c.globalWindow);
    if recent >= c.policy.restartLimit then due == now + c.policy.cooldown
    else if granted < c.globalLimit then
      Jittered(Smaller(c.policy.baseBackoff * Pow2(recent), c.policy.maxBackoff), c.policy.jitter, u, due - now)
    else
      var oldest := OldestFrom(grants, now - c.globalWindow);
      && oldest.Some?
      && due == if oldest.value + c.globalWindow > now then oldest.value + c.globalWindow else now + 1_000_000_000
  }

  /** A delay moved by at most the jitter's share of it, to where the draw says. */
  ghost predicate Jittered(delay: int, jitter: real, u: real, d: int) {
    var x := Mul(delay as real, 1.0 + Mul(jitter, 2.0 * u - 1.0));
    && d >= 0 && x - 1.0 < d as real <= x && (jitter == 0.0 ==> d == delay)
    && Mul(delay as real, 1.0 - jitter) - 1.0 < d as real <= Mul(delay as real, 1.0 + jitter)
  }

  // ---------------------------------------------------------------- the refused restart

  lemma {:induction false} OldestInSuffix(times: seq<int>, cutoff: int, n: nat)
    requires n < |times| && (forall i :: 0 <= i < n ==> times[i] < cutoff) && (forall i :: n <= i < |times| ==> times[i] >= cutoff)
    ensures OldestFrom(times, cutoff) == Some(times[n])
  {
    var init := times[..|times| - 1];
    if n < |init| {
      OldestInSuffix(init, cutoff, n);
    } else {
      NoneFrom(init, cutoff);
    }
  }

  lemma {:induction false} NoneFrom(times: seq<int>, cutoff: int)
    requires forall i :: 0 <= i < |times| ==> times[i] < cutoff
    ensures OldestFrom(times, cutoff) == None
  {
    if times != [] {
      NoneFrom(times[..|times| - 1], cutoff);
    }
  }

  /** Of the grants, the limiter keeps exactly those in the window. */
  lemma KeptGrants(history: seq<int>, grants: seq<int>, now: int, window: int, kept: seq<int>)
    requires Window(history, grants, now, window) && NonDecreasing(grants) && kept == Prune(history, now, window)
    ensures |kept| <= |grants| && |kept| == CountFrom(grants, now - window)
    ensures kept != [] ==> OldestFrom(grants, now - window) == Some(kept[0]) && now - window <= kept[0] <= now
  {
    WindowCounts(history, grants, now, now, window);
    PruneKeepsWindow(history, grants, now, now, window);
    PruneDropsOldest(history, now, window);
    var n := |grants| - |kept|;
    if kept != [] {
      assert grants[n] == kept[0];
      OldestInSuffix(grants, now - window, n);
    }
  }

  lemma PruneTwice(history: seq<int>, now: int, window: int, kept: seq<int>)
    requires kept == Prune(history, now, window)
    ensures Prune(kept, now, window) == kept
  {
    PruneDropsOldest(history, now, window);
  }

  /** The limiter's history says when the oldest grant leaves the window. */
  lemma RefusedWaits(history: seq<int>, grants: seq<int>, now: int, window: int, limit: int)
    requires Window(history, grants, now, window) && NonDecreasing(grants) && window > 0 && limit > 0
    requires CountFrom(grants, now - window) >= limit
    ensures var (kept, ok) := AllowGlobal(history, now, window, limit);
            var oldest := OldestFrom(grants, now - window);
            && !ok && oldest.Some? && oldest.value <= now && oldest.value >= now - window
            && NextGlobalDelay(kept, now, window, limit) == oldest.value + window - now
  {
    var kept := Prune(history, now, window);
    KeptGrants(history, grants, now, window, kept);
    PruneTwice(history, now, window, kept);
  }

  // ---------------------------------------------------------------- what one report arms

  /** How long the retry waits, given what the policy decided. */
  ghost function WaitOf(c: Setup, w: World, d: Decision, u: real): int
    requires !d.Cooling?
  {
    if d.Degrade? then if d.until - w.now < 0 then 0 else d.until - w.now
    else
      var (history, granted) := AllowGlobal(w.g.history, w.now, c.globalWindow, c.globalLimit);
      RestartDelay(c, history, granted, w.now, d.delay, u)
  }

  lemma ActArms(c: Setup, w: World, s: Subsystem, d: Decision, u: real, v: World)
    requires !d.Cooling? && v == ActOn(c, w, s, d, u)
    ensures w.next in v.armed && v.armed[w.next] == Timer(w.now + WaitOf(c, w, d, u), Retry(s, GenOf(w.g, s)))
    ensures v.g.gens == w.g.gens
  {
  }

  lemma ReportArms(c: Setup, w: World, s: Subsystem, err: string, u: real, d: Decision, v: World)
    requires s.name != "" && !w.g.shuttingDown && v == FailChild(c, w, s, err, u)
    requires d == OnFailure(c.policy, StateOf(w.g, s), w.now).1 && !d.Cooling?
    ensures w.next in v.armed && v.armed[w.next] == Timer(w.now + WaitOf(c, w, d, u), Retry(s, GenOf(v.g, s)))
  {
    var r := RecordFailure(w, s, err);
    var o := Outdate(r, s, OnFailure(c.policy, StateOf(r.g, s), r.now).0);
    ActArms(c, o, s, d, u, v);
    assert WaitOf(c, o, d, u) == WaitOf(c, w, d, u);
  }

  lemma WaitIsTold(c: Setup, w: World, t: Track, d: Decision, grants: seq<int>, u: real)
    requires ValidSetup(c) && LimiterOk(c, w, grants) && 0.0 <= u < 1.0
    requires DecidesFromHistory(c.policy, t, w.now) && d == OnFailure(c.policy, t.st, w.now).1 && !d.Cooling?
    ensures DueAsTold(c, Times(t.history), grants, w.now, u, w.now + WaitOf(c, w, d, u))
  {
    var granted := CountFrom(grants, w.now - c.globalWindow);
    WindowCounts(w.g.history, grants, w.now, w.now, c.globalWindow);
    if d.Restart? {
      if granted < c.globalLimit {
        BackoffIsPositive(c.policy, CountFrom(Times(t.history), w.now - c.policy.restartWindow), d.delay);
        JitterBounds(d.delay, c.policy.jitter, u);
        JitterIsLinear(d.delay, c.policy.jitter, u);
      } else {
        RefusedWaits(w.g.history, grants, w.now, c.globalWindow, c.globalLimit);
      }
    }
  }

  lemma TimerIsTold(c: Setup, w: World, t: Track, e: Event, grants: seq<int>, v: World)
    requires ValidSetup(c) && LimiterOk(c, w, grants) && Reported(w, e) && Enabled(w, e) && v == Step(c, w, e)
    requires t.st == StateOf(w.g, e.sub) && DecidesFromHistory(c.policy, t, w.now) && !OnFailure(c.policy, t.st, w.now).1.Cooling?
    ensures w.next in v.armed && v.armed[w.next].retry == Retry(e.sub, GenOf(v.g, e.sub))
    ensures DueAsTold(c, Times(t.history), grants, w.now, e.u, v.armed[w.next].due)
  {
    var d := OnFailure(c.policy, t.st, w.now).1;
    ReportArms(c, w, e.sub, e.err, e.u, d, v);
    WaitIsTold(c, w, t, d, grants, e.u);
  }

  /** A record of the failures of `s` and of the grants that accounts for what the guardian remembers of them. */
  ghost predicate AccountsFor(c: Setup, w: World, s: Subsystem, t: Track, grants: seq<int>) {
    LimiterOk(c, w, grants) && t.st == StateOf(w.g, s) && DecidesFromHistory(c.policy, t, w.now)
  }

  /** By such a record: a report in the cooldown arms nothing, any other arms a retry that falls due as told. */
  ghost predicate ArmsAsTold(c: Setup, w: World, e: Event, t: Track, grants: seq<int>, v: World)
    requires e.ChildFailed?
  {
    if Cooling(c, t.history, w.now) then v.armed == w.armed
    else && w.next in v.armed && v.armed[w.next].retry == Retry(e.sub, GenOf(v.g, e.sub))
         && DueAsTold(c, Times(t.history), grants, w.now, e.u, v.armed[w.next].due)
  }

  lemma ReportArmsAsTold(c: Setup, w: World, e: Event, t: Track, grants: seq<int>, v: World)
    requires ValidSetup(c) && Reported(w, e) && Enabled(w, e) && v == FailChild(c, w, e.sub, e.err, e.u)
    requires AccountsFor(c, w, e.sub, t, grants)
    ensures ArmsAsTold(c, w, e, t, grants, v)
  {
    if !Cooling(c, t.history, w.now) {
      TimerIsTold(c, w, t, e, grants, v);
    }
  }

  lemma BackoffIsPositive(c: Config, n: nat, delay: int)
    requires ValidConfig(c) && delay == Smaller(c.baseBackoff * Pow2(n), c.maxBackoff)
    ensures delay > 0
  {
    MulGrows(c.baseBackoff, Pow2(n));
  }

  // ---------------------------------------------------------------- over whole runs

  /** The failures of a subsystem since it last recovered, as the run shows them. */
  ghost function FailuresBefore(c: Setup, events: seq<Event>, run: seq<World>, k: nat, s: Subsystem): seq<Failure>
    requires |run| == |events| + 1 && k <= |events|
  {
    ObserveAll(c.policy, Incidents(c, events, run, k, s), run[0].now).history
  }

  ghost predicate Cooling(c: Setup, failures: seq<Failure>, now: int) {
    var end := CooldownEnd(failures, c.policy.cooldown);
    end.Some? && now < end.value
  }

  /** A failure report the guardian takes in. */
  ghost predicate Reported(w: World, e: Event) {
    e.ChildFailed? && e.sub.name != "" && !w.g.shuttingDown
  }

  lemma DecisionAt(c: Setup, events: seq<Event>, run: seq<World>, k: nat, s: Subsystem)
    requires ValidSetup(c) && IsRun(c, events, run) && k <= |events|
    ensures var t := ObserveAll(c.policy, Incidents(c, events, run, k, s), run[0].now);
            t.st == StateOf(run[k].g, s) && DecidesFromHistory(c.policy, t, run[k].now)
  {
    var log := Incidents(c, events, run, k, s);
    RunRecords(c, events, run, k, s, log);
    DecisionExactly(c.policy, log, run[0].now, run[k].now);
  }

  /**
   * In every run: after a report outside the cooldown exactly one retry of the current generation is pending, on a timer,
   * and it falls due when the failures and grants so far say; after a report inside it none is.
   */
  lemma RetryFallsDue(c: Setup, events: seq<Event>, run: seq<World>, k: nat) returns (id: nat)
    requires ValidSetup(c) && IsRun(c, events, run) && k < |events| && Reported(run[k], events[k])
    ensures var s, w, v := events[k].sub, run[k], run[k + 1];
            var failures := FailuresBefore(c, events, run, k, s);
            if Cooling(c, failures, w.now) then !HasRetry(v, s)
            else && OneRetry(v, s) && id in v.armed && v.armed[id].retry == Retry(s, GenOf(v.g, s))
                 && DueAsTold(c, Times(failures), Grants(c, events, run, k), w.now, events[k].u, v.armed[id].due)
  {
    var s, w, v := events[k].sub, run[k], run[k + 1];
    id := w.next;
    assert StepAt(c, events, run, k);
    DecisionAt(c, events, run, k, s);
    FailLeaves(c, events, run, k);
    var t := ObserveAll(c.policy, Incidents(c, events, run, k, s), run[0].now);
    if !OnFailure(c.policy, t.st, w.now).1.Cooling? {
      RunKeepsLimiter(c, events, run, k);
      TimerIsTold(c, w, t, events[k], Grants(c, events, run, k), v);
    }
  }

  lemma FailLeaves(c: Setup, events: seq<Event>, run: seq<World>, k: nat)
    requires ValidSetup(c) && IsRun(c, events, run) && k < |events| && Reported(run[k], events[k])
    ensures var s, w, v := events[k].sub, run[k], run[k + 1];
            && (HasRetry(v, s) <==> !OnFailure(c.policy, StateOf(w.g, s), w.now).1.Cooling?)
            && (HasRetry(v, s) ==> OneRetry(v, s))
  {
    var s, w, v := events[k].sub, run[k], run[k + 1];
    assert StepAt(c, events, run, k);
    EveryRunKeepsInv(c, events, run, k);
    EveryRunKeepsInv(c, events, run, k + 1);
    FailChildKeeps(c, w, s, events[k].err, events[k].u);
    if HasRetry(v, s) {
      PendingIsUnique(v, s);
    }
  }
}

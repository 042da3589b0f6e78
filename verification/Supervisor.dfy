/** Restart policy: failure windows, degradation, exponential backoff with jitter. Times and durations are integers. */
module Supervisor {
  import opened Options

  datatype Subsystem = Subsystem(name: string)

  datatype Config = Config(
    baseBackoff: int, maxBackoff: int, jitter: real, restartWindow: int, restartLimit: int, cooldown: int)

  /** What NewSupervisorPolicy guarantees once defaults are filled in and the arguments are checked. */
  predicate ValidConfig(c: Config) {
    && 0 < c.baseBackoff <= c.maxBackoff && 0.0 <= c.jitter <= 1.0
    && 0 < c.restartWindow && 0 < c.restartLimit && 0 < c.cooldown
  }

  /** NewSupervisorPolicy, in nanoseconds */
  function WithDefaults(c: Config): Config {
    Config(if c.baseBackoff <= 0 then 250_000_000 else c.baseBackoff,
           if c.maxBackoff <= 0 then 5_000_000_000 else c.maxBackoff,
           c.jitter,
           if c.restartWindow <= 0 then 30_000_000_000 else c.restartWindow,
           if c.restartLimit <= 0 then 5 else c.restartLimit,
           if c.cooldown <= 0 then 30_000_000_000 else c.cooldown)
  }

  predicate ConfigAccepted(c: Config) {
    WithDefaults(c).maxBackoff >= WithDefaults(c).baseBackoff && 0.0 <= c.jitter <= 1.0
  }

  lemma AcceptedConfigIsValid(c: Config)
    ensures ConfigAccepted(c) <==> ValidConfig(WithDefaults(c))
    ensures ValidConfig(c) ==> WithDefaults(c) == c
  {
  }

  // ---------------------------------------------------------------- backoff and jitter

  function Pow2(n: nat): (r: nat)
    ensures r >= 1
  {
    if n == 0 then 1 else 2 * Pow2(n - 1)
  }

  function Smaller(a: int, b: int): int {
    if a <= b then a else b
  }

  /** cappedExponentialBackoff over exact arithmetic */
  function CappedBackoff(base: int, cap: int, attempt: int): int {
    var raw := base * Pow2(if attempt < 0 then 0 else attempt);
    if raw <= 0 || raw > cap then cap else raw
  }

  /** Each delay is the smaller of base doubled per attempt and the cap; it never shrinks as attempts go on. */
  lemma BackoffIsCappedDoubling(base: int, cap: int, attempt: nat)
    requires 0 < base <= cap
    ensures CappedBackoff(base, cap, attempt) == Smaller(base * Pow2(attempt), cap)
    ensures base <= CappedBackoff(base, cap, attempt) <= CappedBackoff(base, cap, attempt + 1) <= cap
    ensures CappedBackoff(base, cap, attempt + 1) <= 2 * CappedBackoff(base, cap, attempt)
  {
    var p := Pow2(attempt);
    assert base * p >= base by { MulGrows(base, p); }
    assert base * Pow2(attempt + 1) == 2 * (base * p);
  }

  lemma MulGrows(a: int, b: int)
    requires a > 0 && b >= 1
    ensures a * b >= a
  {
  }

  function Mul(x: real, y: real): real {
    x * y
  }

  lemma MulMonotone(d: real, x: real, y: real)
    requires d >= 0.0 && x <= y
    ensures Mul(d, x) <= Mul(d, y)
  {
    assert d * (y - x) >= 0.0;
  }

  /** The jitter factor for the random draw `u`, clamped at zero */
  function Scale(jitter: real, u: real): real {
    var scale := 1.0 + Mul(jitter, u * 2.0 - 1.0);
    if scale < 0.0 then 0.0 else scale
  }

  /** applyJitter for the random draw `u` in [0, 1); conversion to a duration truncates */
  function ApplyJitter(delay: int, jitter: real, u: real): int {
    if delay <= 0 || jitter == 0.0 then delay else Mul(delay as real, Scale(jitter, u)).Floor
  }

  lemma ScaleBounds(jitter: real, u: real)
    requires 0.0 <= u < 1.0 && 0.0 <= jitter <= 1.0
    ensures 0.0 <= 1.0 - jitter <= Scale(jitter, u) <= 1.0 + jitter
  {
    MulMonotone(jitter, u * 2.0 - 1.0, 1.0);
    MulMonotone(jitter, -1.0, u * 2.0 - 1.0);
    assert Mul(jitter, 1.0) == jitter && Mul(jitter, -1.0) == -jitter;
  }

  /** Jitter moves a delay by at most its own share either way, never below zero. */
  lemma JitterBounds(delay: int, jitter: real, u: real)
    requires 0.0 <= u < 1.0 && 0.0 <= jitter <= 1.0 && delay >= 0
    ensures 0 <= ApplyJitter(delay, jitter, u)
    ensures Mul(delay as real, 1.0 - jitter) - 1.0 < ApplyJitter(delay, jitter, u) as real <= Mul(delay as real, 1.0 + jitter)
  {
    var d, k := delay as real, Scale(jitter, u);
    ScaleBounds(jitter, u);
    MulMonotone(d, 0.0, k);
    MulMonotone(d, 1.0 - jitter, k);
    MulMonotone(d, k, 1.0 + jitter);
    assert Mul(d, 0.0) == 0.0 && Mul(d, 1.0) == d;
    MulMonotone(d, 1.0 - jitter, 1.0);
    MulMonotone(d, 1.0, 1.0 + jitter);
  }

  /** The draw decides where in that range: from one end to the other as it runs from zero to one. */
  lemma JitterIsLinear(delay: int, jitter: real, u: real)
    requires 0.0 <= u < 1.0 && 0.0 <= jitter <= 1.0 && delay >= 0
    ensures var x := Mul(delay as real, 1.0 + Mul(jitter, 2.0 * u - 1.0));
            x - 1.0 < ApplyJitter(delay, jitter, u) as real <= x
    ensures jitter == 0.0 ==> ApplyJitter(delay, jitter, u) == delay
  {
    ScaleBounds(jitter, u);
    MulMonotone(jitter, -1.0, u * 2.0 - 1.0);
    assert Mul(jitter, -1.0) == -jitter;
    if jitter == 0.0 {
      assert Mul(jitter, 2.0 * u - 1.0) == 0.0 && Mul(delay as real, 1.0) == delay as real;
    } else if delay == 0 {
      assert Mul(0.0, 1.0 + Mul(jitter, 2.0 * u - 1.0)) == 0.0;
    }
  }

  // ---------------------------------------------------------------- the failure window

  /** pruneFailures: drop the leading events before the cutoff */
  function Prune(events: seq<int>, now: int, window: int): seq<int> {
    if events != [] && events[0] < now - window then Prune(events[1..], now, window) else events
  }

  lemma {:induction false} PruneDropsOldest(events: seq<int>, now: int, window: int)
    ensures var r := Prune(events, now, window);
            && |r| <= |events| && r == events[|events| - |r|..]
            && (forall i :: 0 <= i < |events| - |r| ==> events[i] < now - window)
            && (r != [] ==> r[0] >= now - window)
  {
    if events != [] && events[0] < now - window {
      PruneDropsOldest(events[1..], now, window);
    }
  }

  method PruneFailures(events: seq<int>, now: int, window: int) returns (r: seq<int>)
    ensures r == Prune(events, now, window)
  {
    var idx := 0;
    assert events[0..] == events;
    while idx < |events| && events[idx] < now - window
      invariant 0 <= idx <= |events|
      invariant Prune(events, now, window) == Prune(events[idx..], now, window)
    {
      assert events[idx..][1..] == events[idx + 1..];
      idx := idx + 1;
    }
    r := events[idx..];
  }

  /** `kept` is the recent end of the time line `all`, and what is not kept lies before the window. */
  ghost predicate Window(kept: seq<int>, all: seq<int>, clock: int, window: int) {
    && |kept| <= |all| && kept == all[|all| - |kept|..]
    && (forall i :: 0 <= i < |all| ==> all[i] <= clock)
    && (forall i :: 0 <= i < |all| - |kept| ==> all[i] < clock - window)
  }

  lemma PruneKeepsWindow(kept: seq<int>, all: seq<int>, clock: int, now: int, window: int)
    requires Window(kept, all, clock, window) && (all != [] ==> clock <= now)
    ensures Window(Prune(kept, now, window), all, now, window)
  {
    var r := Prune(kept, now, window);
    PruneDropsOldest(kept, now, window);
    var gone := |all| - |kept|;
    forall i | 0 <= i < |all| - |r| ensures all[i] < now - window {
      if i >= gone {
        assert all[i] == kept[i - gone];
      }
    }
    assert r == all[|all| - |r|..];
  }

  lemma AppendKeepsWindow(kept: seq<int>, all: seq<int>, now: int, window: int)
    requires Window(kept, all, now, window)
    ensures Window(kept + [now], all + [now], now, window)
  {
  }

  /** degradedUntil is absent until a subsystem first degrades and after it recovers. */
  datatype RestartState = RestartState(failures: seq<int>, degradedUntil: Option<int>, restartCount: nat)

  const NEW_STATE := RestartState([], None, 0)

  predicate Degraded(st: RestartState, now: int) {
    st.degradedUntil.Some? && now < st.degradedUntil.value
  }

  /** The delay of a Restart is before jitter. */
  datatype Decision = Cooling(until: int) | Degrade(until: int) | Restart(delay: int)

  function OnFailure(c: Config, st: RestartState, now: int): (RestartState, Decision) {
    if Degraded(st, now) then (st, Cooling(st.degradedUntil.value))
    else
      var failures := Prune(st.failures, now, c.restartWindow) + [now];
      if |failures| > c.restartLimit then
        (st.(failures := failures, degradedUntil := Some(now + c.cooldown)), Degrade(now + c.cooldown))
      else
        (st.(failures := failures, restartCount := st.restartCount + 1),
         Restart(CappedBackoff(c.baseBackoff, c.maxBackoff, |failures| - 1)))
  }

  function MarkRecovered(st: RestartState): RestartState {
    st.(failures := [], degradedUntil := None)
  }

  class SupervisorPolicy {
    const cfg: Config
    var states: map<Subsystem, RestartState>

    /** The second half of NewSupervisorPolicy: the defaults are filled in, and the policy starts with no failures. */
    constructor (cfg: Config)
      requires ConfigAccepted(cfg)
      ensures this.cfg == WithDefaults(cfg) && ValidConfig(this.cfg) && states == map[]
    {
      AcceptedConfigIsValid(cfg);
      this.cfg, states := WithDefaults(cfg), map[];
    }

    function StateOf(s: Subsystem): RestartState
      reads this
    {
      if s in states then states[s] else NEW_STATE
    }

    method Fail(s: Subsystem, now: int) returns (d: Decision)
      modifies this
      ensures (StateOf(s), d) == OnFailure(cfg, old(StateOf(s)), now)
      ensures states == old(states)[s := StateOf(s)]
    {
      var st := StateOf(s);
      states := states[s := st];
      if Degraded(st, now) {
        return Cooling(st.degradedUntil.value);
      }
      var failures := PruneFailures(st.failures, now, cfg.restartWindow);
      failures := failures + [now];
      if |failures| > cfg.restartLimit {
        states := states[s := st.(failures := failures, degradedUntil := Some(now + cfg.cooldown))];
        return Degrade(now + cfg.cooldown);
      }
      states := states[s := st.(failures := failures, restartCount := st.restartCount + 1)];
      d := Restart(CappedBackoff(cfg.baseBackoff, cfg.maxBackoff, |failures| - 1));
    }

    method Recover(s: Subsystem)
      modifies this
      ensures states == old(states)[s := StateOf(s)] && StateOf(s) == MarkRecovered(old(StateOf(s)))
      ensures ValidConfig(cfg) ==> forall now :: OnFailure(cfg, StateOf(s), now).1 == Restart(cfg.baseBackoff)
    {
      states := states[s := StateOf(s).(failures := [], degradedUntil := None)];
    }
  }

  /** NewSupervisorPolicy: a policy exactly when the defaulted configuration is valid, and then with that one */
  method NewSupervisorPolicy(cfg: Config) returns (p: Option<SupervisorPolicy>)
    ensures p.Some? <==> ValidConfig(WithDefaults(cfg))
    ensures p.Some? ==> fresh(p.value) && p.value.cfg == WithDefaults(cfg) && p.value.states == map[]
  {
    AcceptedConfigIsValid(cfg);
    if WithDefaults(cfg).maxBackoff < WithDefaults(cfg).baseBackoff || cfg.jitter < 0.0 || cfg.jitter > 1.0 {
      return None;
    }
    var policy := new SupervisorPolicy(cfg);
    return Some(policy);
  }

  // ---------------------------------------------------------------- the budget over whole runs

  /** A failure outside a cooldown, and whether the policy answered it with a restart. */
  datatype Failure = Failure(at: int, restarted: bool)

  datatype Incident = Failed(at: int) | Recovered

  function Times(h: seq<Failure>): seq<int> {
    seq(|h|, i requires 0 <= i < |h| => h[i].at)
  }

  /** The policy state, the failures since the last recovery, and the restarts granted in all. */
  datatype Track = Track(st: RestartState, history: seq<Failure>, granted: nat, clock: int)

  function Observe(c: Config, t: Track, e: Incident): Track {
    match e
    case Recovered => t.(st := MarkRecovered(t.st), history := [])
    case Failed(now) =>
      var (st, d) := OnFailure(c, t.st, now);
      if d.Cooling? then t.(clock := now)
      else Track(st, t.history + [Failure(now, d.Restart?)], t.granted + (if d.Restart? then 1 else 0), now)
  }

  function ObserveAll(c: Config, log: seq<Incident>, start: int): Track {
    if log == [] then Track(NEW_STATE, [], 0, start)
    else Observe(c, ObserveAll(c, log[..|log| - 1], start), log[|log| - 1])
  }

  /** Failures are reported at times that never run back from `start` on. */
  predicate Ordered(log: seq<Incident>, start: int) {
    forall i :: 0 <= i < |log| && log[i].Failed? ==> log[i].at >= LatestBefore(log[..i], start)
  }

  function LatestBefore(log: seq<Incident>, start: int): int {
    if log == [] then start
    else if log[|log| - 1].Failed? then log[|log| - 1].at
    else LatestBefore(log[..|log| - 1], start)
  }

  ghost predicate NonDecreasing(s: seq<int>) {
    forall i, j :: 0 <= i < j < |s| ==> s[i] <= s[j]
  }

  /** Every restart closes a window holding at most `limit` failures, itself included. */
  ghost predicate WithinBudget(h: seq<Failure>, window: int, limit: int) {
    forall i, j :: 0 <= i <= j < |h| && h[j].restarted && h[j].at - h[i].at <= window ==> j - i + 1 <= limit
  }

  ghost predicate TrackInv(c: Config, t: Track) {
    && Window(t.st.failures, Times(t.history), t.clock, c.restartWindow) && NonDecreasing(Times(t.history))
    && WithinBudget(t.history, c.restartWindow, c.restartLimit)
    && t.st.restartCount == t.granted && t.st.degradedUntil == CooldownEnd(t.history, c.cooldown)
  }

  /** When the cooldown after the last failure that was not answered with a restart ends. */
  function CooldownEnd(h: seq<Failure>, cooldown: int): Option<int> {
    if h == [] then None
    else if !h[|h| - 1].restarted then Some(h[|h| - 1].at + cooldown)
    else CooldownEnd(h[..|h| - 1], cooldown)
  }

  lemma BudgetExtends(h: seq<Failure>, kept: seq<int>, now: int, window: int, limit: int, restarted: bool)
    requires WithinBudget(h, window, limit) && Window(kept, Times(h), now, window)
    requires restarted ==> |kept| < limit
    ensures WithinBudget(h + [Failure(now, restarted)], window, limit)
  {
    var g := h + [Failure(now, restarted)];
    assert forall i :: 0 <= i < |h| - |kept| ==> Times(h)[i] < now - window;
    forall i, j | 0 <= i <= j < |g| && g[j].restarted && g[j].at - g[i].at <= window ensures j - i + 1 <= limit {
      if j == |h| && i < |h| {
        assert Times(h)[i] == h[i].at;
      }
    }
  }

  lemma ObserveKeepsInv(c: Config, t: Track, e: Incident)
    requires ValidConfig(c) && TrackInv(c, t) && (e.Failed? ==> t.clock <= e.at)
    ensures TrackInv(c, Observe(c, t, e))
  {
    if e.Failed? && !Degraded(t.st, e.at) {
      FailureKeepsInv(c, t, e.at);
    }
  }

  lemma FailureKeepsInv(c: Config, t: Track, now: int)
    requires ValidConfig(c) && TrackInv(c, t) && t.clock <= now && !Degraded(t.st, now)
    ensures TrackInv(c, Observe(c, t, Failed(now)))
  {
    var kept := Prune(t.st.failures, now, c.restartWindow);
    var restarted := |kept| < c.restartLimit;
    PruneKeepsWindow(t.st.failures, Times(t.history), t.clock, now, c.restartWindow);
    HistoryGrows(t.history, kept, now, c.restartWindow, c.cooldown, restarted);
    BudgetExtends(t.history, kept, now, c.restartWindow, c.restartLimit, restarted);
  }

  lemma HistoryGrows(h: seq<Failure>, kept: seq<int>, now: int, window: int, cooldown: int, restarted: bool)
    requires Window(kept, Times(h), now, window) && NonDecreasing(Times(h))
    ensures var g := h + [Failure(now, restarted)];
            && Window(kept + [now], Times(g), now, window) && NonDecreasing(Times(g))
            && CooldownEnd(g, cooldown) == if restarted then CooldownEnd(h, cooldown) else Some(now + cooldown)
  {
    var g := h + [Failure(now, restarted)];
    assert g[..|h|] == h && Times(g) == Times(h) + [now];
    AppendKeepsWindow(kept, Times(h), now, window);
  }

  lemma {:induction false} ObserveAllInv(c: Config, log: seq<Incident>, start: int)
    requires ValidConfig(c) && Ordered(log, start)
    ensures TrackInv(c, ObserveAll(c, log, start)) && ObserveAll(c, log, start).clock == LatestBefore(log, start)
  {
    if log != [] {
      var init, e := log[..|log| - 1], log[|log| - 1];
      assert forall i :: 0 <= i < |init| ==> init[..i] == log[..i];
      ObserveAllInv(c, init, start);
      ObserveKeepsInv(c, ObserveAll(c, init, start), e);
    }
  }

  /** The restart decisions among the failures, oldest first. */
  function Restarts(h: seq<Failure>): seq<int> {
    if h == [] then []
    else Restarts(h[..|h| - 1]) + (if h[|h| - 1].restarted then [h[|h| - 1].at] else [])
  }

  /** Any `window`-long stretch of time holds at most `limit` of these moments. */
  ghost predicate AtMostPerWindow(s: seq<int>, window: int, limit: int) {
    forall i, j :: 0 <= i <= j < |s| && s[j] - s[i] <= window ==> j - i + 1 <= limit
  }

  /** Where among the failures a restart decision sits: at least as far from the end as among the restarts. */
  lemma {:induction false} RestartPosition(h: seq<Failure>, i: nat) returns (k: nat)
    requires i < |Restarts(h)|
    ensures k < |h| && h[k].at == Restarts(h)[i] && |Restarts(h)| - i <= |h| - k
  {
    var init := h[..|h| - 1];
    if i < |Restarts(init)| {
      k := RestartPosition(init, i);
    } else {
      k := |h| - 1;
    }
  }

  lemma {:induction false} BudgetBoundsRestarts(h: seq<Failure>, window: int, limit: int, i: nat, j: nat)
    requires WithinBudget(h, window, limit) && i <= j < |Restarts(h)| && Restarts(h)[j] - Restarts(h)[i] <= window
    ensures j - i + 1 <= limit
    decreases |h|
  {
    var init := h[..|h| - 1];
    if j < |Restarts(init)| {
      BudgetBoundsRestarts(init, window, limit, i, j);
    } else {
      var k := RestartPosition(h, i);
      assert h[|h| - 1].restarted && h[|h| - 1].at - h[k].at <= window;
    }
  }

  /**
   * However failures and recoveries follow each other, with failures reported at times that never run back: no stretch of
   * time as long as the restart window holds more than `restartLimit` of the restarts granted since the last recovery, and
   * the restart counter says how many were granted in all.
   */
  lemma RestartsStayWithinBudget(c: Config, log: seq<Incident>, start: int)
    requires ValidConfig(c) && Ordered(log, start)
    ensures AtMostPerWindow(Restarts(ObserveAll(c, log, start).history), c.restartWindow, c.restartLimit)
    ensures ObserveAll(c, log, start).st.restartCount == ObserveAll(c, log, start).granted
  {
    ObserveAllInv(c, log, start);
    var h := ObserveAll(c, log, start).history;
    forall i, j | 0 <= i <= j < |Restarts(h)| && Restarts(h)[j] - Restarts(h)[i] <= c.restartWindow
      ensures j - i + 1 <= c.restartLimit
    {
      BudgetBoundsRestarts(h, c.restartWindow, c.restartLimit, i, j);
    }
  }

  /** How many of these moments are no earlier than the cutoff. */
  function CountFrom(times: seq<int>, cutoff: int): nat {
    if times == [] then 0
    else CountFrom(times[..|times| - 1], cutoff) + (if times[|times| - 1] >= cutoff then 1 else 0)
  }

  lemma {:induction false} CountSuffix(times: seq<int>, cutoff: int, n: nat)
    requires n <= |times|
    requires forall i :: 0 <= i < n ==> times[i] < cutoff
    requires forall i :: n <= i < |times| ==> times[i] >= cutoff
    ensures CountFrom(times, cutoff) == |times| - n
  {
    if times != [] {
      CountSuffix(times[..|times| - 1], cutoff, if n == |times| then n - 1 else n);
    }
  }

  lemma WindowCounts(failures: seq<int>, all: seq<int>, clock: int, now: int, window: int)
    requires Window(failures, all, clock, window) && NonDecreasing(all) && clock <= now
    ensures |Prune(failures, now, window)| == CountFrom(all, now - window)
  {
    var kept := Prune(failures, now, window);
    PruneKeepsWindow(failures, all, clock, now, window);
    PruneDropsOldest(failures, now, window);
    var n := |all| - |kept|;
    forall i | n <= i < |all| ensures all[i] >= now - window {
      assert all[n] == kept[0];
    }
    CountSuffix(all, now - window, n);
  }

  /** The answer to a failure now, in terms of the failures in the track. */
  ghost predicate DecidesFromHistory(c: Config, t: Track, now: int) {
    var recent, d := CountFrom(Times(t.history), now - c.restartWindow), OnFailure(c, t.st, now).1;
    var end := CooldownEnd(t.history, c.cooldown);
    && (d.Cooling? <==> end.Some? && now < end.value)
    && (d.Restart? <==> !d.Cooling? && recent < c.restartLimit)
    && (d.Restart? ==> d.delay == Smaller(c.baseBackoff * Pow2(recent), c.maxBackoff))
    && (d.Degrade? ==> d.until == now + c.cooldown)
  }

  /**
   * What a failure is answered with, told from the failures since the last recovery: nothing until the cooldown after the
   * last degrading one is over; otherwise a restart exactly when fewer than `restartLimit` of them lie within the window,
   * after base doubled once for each.
   */
  lemma DecisionExactly(c: Config, log: seq<Incident>, start: int, now: int)
    requires ValidConfig(c) && Ordered(log, start) && LatestBefore(log, start) <= now
    ensures DecidesFromHistory(c, ObserveAll(c, log, start), now)
  {
    ObserveAllInv(c, log, start);
    DecisionInTrack(c, ObserveAll(c, log, start), now);
  }

  lemma DecisionInTrack(c: Config, t: Track, now: int)
    requires ValidConfig(c) && TrackInv(c, t) && t.clock <= now
    ensures DecidesFromHistory(c, t, now)
  {
    WindowCounts(t.st.failures, Times(t.history), t.clock, now, c.restartWindow);
    DecisionFromWindow(c, t.st, now);
  }

  lemma DecisionFromWindow(c: Config, st: RestartState, now: int)
    requires ValidConfig(c)
    ensures var recent, d := |Prune(st.failures, now, c.restartWindow)|, OnFailure(c, st, now).1;
            && (d.Cooling? <==> Degraded(st, now))
            && (d.Restart? <==> !Degraded(st, now) && recent < c.restartLimit)
            && (d.Restart? ==> d.delay == Smaller(c.baseBackoff * Pow2(recent), c.maxBackoff))
            && (d.Degrade? ==> d.until == now + c.cooldown)
  {
  }

  // ---------------------------------------------------------------- the global limiter

  /** allowGlobalRestart: the pruned history, with the grant recorded if there is one */
  function AllowGlobal(history: seq<int>, now: int, window: int, limit: int): (seq<int>, bool) {
    var kept := Prune(history, now, window);
    if |kept| >= limit then (kept, false) else (kept + [now], true)
  }

  /** nextGlobalRetryDelay, for a positive window and limit */
  function NextGlobalDelay(history: seq<int>, now: int, window: int, limit: int): int {
    var kept := Prune(history, now, window);
    if |kept| < limit || kept == [] then 0
    else if kept[0] + window - now < 0 then 0 else kept[0] + window - now
  }

  lemma PruneLater(history: seq<int>, now: int, later: int, window: int)
    requires NonDecreasing(history) && now <= later
    ensures Prune(Prune(history, now, window), later, window) == Prune(history, later, window)
    decreases |history|
  {
  }

  lemma {:induction false} PruneWhole(history: seq<int>, now: int, window: int)
    ensures |Prune(history, now, window)| == |history| <==> history == [] || history[0] >= now - window
  {
    PruneDropsOldest(history, now, window);
    if history != [] && history[0] < now - window {
      PruneDropsOldest(history[1..], now, window);
    }
  }

  /**
   * The delay is the exact threshold: with the budget spent, and nothing granted in between, a grant is refused at every
   * moment up to and including now plus the delay, and given at every moment after it.
   */
  lemma NextGlobalDelayIsExact(history: seq<int>, now: int, later: int, window: int, limit: int)
    requires NonDecreasing(history) && window > 0 && limit > 0 && now <= later
    requires |Prune(history, now, window)| == limit && history[|history| - 1] <= now
    ensures NextGlobalDelay(history, now, window, limit) >= 0
    ensures AllowGlobal(history, later, window, limit).1 <==> later > now + NextGlobalDelay(history, now, window, limit)
  {
    var kept := Prune(history, now, window);
    PruneDropsOldest(history, now, window);
    PruneLater(history, now, later, window);
    PruneWhole(kept, later, window);
    PruneDropsOldest(kept, later, window);
  }

  /** The grants made by a run of requests, and the limiter's history alongside. */
  function GrantAll(times: seq<int>, window: int, limit: int): (seq<int>, seq<int>) {
    if times == [] then ([], [])
    else
      var (history, grants) := GrantAll(times[..|times| - 1], window, limit);
      var (history', ok) := AllowGlobal(history, times[|times| - 1], window, limit);
      (history', if ok then grants + [times[|times| - 1]] else grants)
  }

  ghost predicate LimiterInv(history: seq<int>, grants: seq<int>, clock: int, window: int, limit: int) {
    Window(history, grants, clock, window) && AtMostPerWindow(grants, window, limit)
  }

  lemma GrantKeepsInv(kept: seq<int>, grants: seq<int>, now: int, window: int, limit: int)
    requires LimiterInv(kept, grants, now, window, limit) && |kept| < limit
    ensures LimiterInv(kept + [now], grants + [now], now, window, limit)
  {
  }

  lemma AllowKeepsInv(history: seq<int>, grants: seq<int>, clock: int, now: int, window: int, limit: int)
    requires LimiterInv(history, grants, clock, window, limit) && (grants != [] ==> clock <= now)
    ensures var (history', ok) := AllowGlobal(history, now, window, limit);
            LimiterInv(history', if ok then grants + [now] else grants, now, window, limit)
  {
    var kept := Prune(history, now, window);
    PruneKeepsWindow(history, grants, clock, now, window);
    if |kept| < limit {
      GrantKeepsInv(kept, grants, now, window, limit);
    }
  }

  lemma {:induction false} GrantAllInv(times: seq<int>, window: int, limit: int)
    requires NonDecreasing(times) && window > 0 && limit > 0
    ensures LimiterInv(GrantAll(times, window, limit).0, GrantAll(times, window, limit).1,
                       if times == [] then 0 else times[|times| - 1], window, limit)
    ensures times == [] ==> GrantAll(times, window, limit).1 == []
  {
    if times != [] {
      var init, now := times[..|times| - 1], times[|times| - 1];
      GrantAllInv(init, window, limit);
      var (history, grants) := GrantAll(init, window, limit);
      AllowKeepsInv(history, grants, if init == [] then 0 else init[|init| - 1], now, window, limit);
    }
  }

  /** No stretch of time as long as the global window holds more than the global limit of granted restarts. */
  lemma GlobalGrantsStayWithinBudget(times: seq<int>, window: int, limit: int)
    requires NonDecreasing(times) && window > 0 && limit > 0
    ensures AtMostPerWindow(GrantAll(times, window, limit).1, window, limit)
  {
    GrantAllInv(times, window, limit);
  }
}

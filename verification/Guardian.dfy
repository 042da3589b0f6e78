/** The runtime guardian with its engine: children, retry timers, queued retries, and every message it handles. */
module GuardianSpec {
  import opened Options
  import opened Supervisor

  datatype Setup = Setup(managed: seq<Subsystem>, policy: Config, globalWindow: int, globalLimit: int)

  ghost predicate ValidSetup(c: Setup) {
    && (forall i, j :: 0 <= i < j < |c.managed| ==> c.managed[i] != c.managed[j])
    && ValidConfig(c.policy) && c.globalWindow > 0 && c.globalLimit > 0
  }

  datatype Retry = Retry(sub: Subsystem, gen: nat)

  datatype Timer = Timer(due: int, retry: Retry)

  datatype Health = Health(running: bool, connected: bool, lastError: string, lastFailureAt: int, lastTransition: int,
                           lastMessageAt: int, lastPublishAt: int)

  const NO_HEALTH := Health(false, false, "", 0, 0, 0, 0)

  /** One subsystem's line of a snapshot, without the clock-derived degraded flag. */
  datatype Row = Row(health: Health, child: Option<nat>, restartCount: nat, cooldownUntil: Option<int>)

  datatype Guardian = Guardian(
    children: map<Subsystem, nat>,       // recorded child actors, absent for nil
    scheduled: map<Subsystem, nat>,      // the timer each pending retry can be cancelled through
    gens: map<Subsystem, nat>,           // retry generations
    states: map<Subsystem, RestartState>,
    health: map<Subsystem, Health>,
    history: seq<int>,                   // global restart history
    started: bool,
    shuttingDown: bool,
    cache: Option<map<Subsystem, Row>>)

  datatype Phase = Fresh | Up | Down

  /** The guardian and the engine around it. Actors and timers get identifiers from one counter. */
  datatype World = World(
    g: Guardian,
    live: set<nat>,                      // spawned and not poisoned
    armed: map<nat, Timer>,              // timers neither fired nor stopped
    queue: multiset<Retry>,              // retries fired but not yet handled, in any order
    now: int,
    next: nat,
    phase: Phase)

  const EMPTY_GUARDIAN := Guardian(map[], map[], map[], map[], map[], [], false, false, None)

  function Boot(now: int): World {
    World(EMPTY_GUARDIAN, {}, map[], multiset{}, now, 0, Fresh)
  }

  function GenOf(g: Guardian, s: Subsystem): nat {
    if s in g.gens then g.gens[s] else 0
  }

  function StateOf(g: Guardian, s: Subsystem): RestartState {
    if s in g.states then g.states[s] else NEW_STATE
  }

  function HealthOf(g: Guardian, s: Subsystem): Health {
    if s in g.health then g.health[s] else NO_HEALTH
  }

  // ---------------------------------------------------------------- handlers

  /** startSubsystem, when the spawn succeeds or fails as told */
  function StartOne(w: World, s: Subsystem, ok: bool): World {
    var g := w.g;
    var h := HealthOf(g, s);
    if !ok then
      w.(g := g.(health := g.health[s := h.(lastError := "spawn failed", running := false)], cache := None))
    else
      var st := StateOf(g, s);
      w.(g := g.(children := g.children[s := w.next],
                 health := g.health[s := h.(running := true, lastError := "", lastTransition := w.now)],
                 states := if Degraded(st, w.now) then g.states[s := MarkRecovered(st)] else g.states,
                 cache := None),
         live := w.live + {w.next}, next := w.next + 1)
  }

  function StartEach(w: World, subs: seq<Subsystem>, fails: set<Subsystem>): World {
    if subs == [] then w
    else
      var s := subs[|subs| - 1];
      StartOne(StartEach(w, subs[..|subs| - 1], fails), s, s !in fails)
  }

  function StartAll(c: Setup, w: World, fails: set<Subsystem>): World {
    if w.g.started then w else StartEach(w.(g := w.g.(started := true)), c.managed, fails)
  }

  function Bumped(gens: map<Subsystem, nat>, subs: set<Subsystem>): map<Subsystem, nat> {
    map s | s in gens.Keys + subs :: (if s in gens then gens[s] else 0) + (if s in subs then 1 else 0)
  }

  function Halted(health: map<Subsystem, Health>, subs: set<Subsystem>, now: int): map<Subsystem, Health> {
    map s | s in health.Keys + subs ::
      var h := if s in health then health[s] else NO_HEALTH;
      if s in subs then h.(running := false, connected := false, lastTransition := now) else h
  }

  ghost function PidsOf(children: map<Subsystem, nat>, subs: set<Subsystem>): set<nat> {
    set s | s in children && s in subs :: children[s]
  }

  ghost function Managed(c: Setup): set<Subsystem> {
    set s | s in c.managed
  }

  /** stopAll: cancel and outdate every scheduled retry, then poison every managed child */
  ghost function StopAll(c: Setup, w: World): World {
    var g := w.g;
    w.(g := g.(children := g.children - Managed(c), scheduled := map[], gens := Bumped(g.gens, g.scheduled.Keys),
               health := Halted(g.health, Managed(c), w.now), started := false, cache := None),
       live := w.live - PidsOf(g.children, Managed(c)),
       armed := w.armed - g.scheduled.Values)
  }

  /** retrySubsystem */
  function Retried(w: World, r: Retry, ok: bool): World {
    if w.g.shuttingDown || GenOf(w.g, r.sub) != r.gen then w
    else
      var w := w.(g := w.g.(scheduled := w.g.scheduled - {r.sub}));
      if Degraded(StateOf(w.g, r.sub), w.now) then w else StartOne(w, r.sub, ok)
  }

  /** A queued retry taken off the queue and handled. */
  function HandleRetry(w: World, r: Retry, ok: bool): World {
    Retried(w.(queue := w.queue - multiset{r}), r, ok)
  }

  /** scheduleFn and replaceScheduledRetry, for the current generation */
  function Schedule(w: World, s: Subsystem, delay: int): World {
    var kept := if s in w.g.scheduled then w.armed - {w.g.scheduled[s]} else w.armed;
    w.(armed := kept[w.next := Timer(w.now + delay, Retry(s, GenOf(w.g, s)))],
       g := w.g.(scheduled := w.g.scheduled[s := w.next]), next := w.next + 1)
  }

  /** What handleChildFailed records before it asks the policy. */
  function RecordFailure(w: World, s: Subsystem, err: string): World {
    var g := w.g;
    var h := HealthOf(g, s).(lastError := err, lastFailureAt := w.now, running := false, connected := false,
                             lastTransition := w.now);
    w.(g := g.(health := g.health[s := h], children := g.children - {s}, cache := None),
       live := if s in g.children then w.live - {g.children[s]} else w.live)
  }

  /** The policy's answer stored and the generation bumped, which outdates every pending retry of `s`. */
  function Outdate(w: World, s: Subsystem, st: RestartState): World {
    w.(g := w.g.(states := w.g.states[s := st], gens := w.g.gens[s := GenOf(w.g, s) + 1]))
  }

  const SECOND := 1_000_000_000

  /** How long handleChildFailed waits before the retry, once the restart has gone through the global limiter. */
  function RestartDelay(c: Setup, history: seq<int>, granted: bool, now: int, delay: int, u: real): int {
    if granted then ApplyJitter(delay, c.policy.jitter, u)
    else
      var wait := NextGlobalDelay(history, now, c.globalWindow, c.globalLimit);
      if wait <= 0 then SECOND else wait
  }

  /** What follows the policy's decision. */
  function ActOn(c: Setup, w: World, s: Subsystem, d: Decision, u: real): World {
    match d
    case Cooling(_) => w
    case Degrade(until) => Schedule(w, s, if until - w.now < 0 then 0 else until - w.now)
    case Restart(delay) =>
      var (history, granted) := AllowGlobal(w.g.history, w.now, c.globalWindow, c.globalLimit);
      Schedule(w.(g := w.g.(history := history)), s, RestartDelay(c, history, granted, w.now, delay, u))
  }

  /** handleChildFailed; `u` is the random draw for jitter */
  function FailChild(c: Setup, w: World, s: Subsystem, err: string, u: real): World {
    if s.name == "" then w
    else if w.g.shuttingDown then w.(g := w.g.(cache := None))
    else
      var r := RecordFailure(w, s, err);
      var (st, d) := OnFailure(c.policy, StateOf(r.g, s), r.now);
      ActOn(c, Outdate(r, s, st), s, d, u)
  }

  /** handleHeartbeat; an absent time leaves the recorded one alone */
  function Beat(w: World, s: Subsystem, connected: bool, messageAt: Option<int>, publishAt: Option<int>): World {
    if s.name == "" then w
    else
      var h := HealthOf(w.g, s).(connected := connected);
      var h := if messageAt.Some? then h.(lastMessageAt := messageAt.value) else h;
      var h := if publishAt.Some? then h.(lastPublishAt := publishAt.value) else h;
      w.(g := w.g.(health := w.g.health[s := h], cache := None))
  }

  function RowOf(g: Guardian, s: Subsystem): Row {
    Row(HealthOf(g, s), if s in g.children then Some(g.children[s]) else None,
        StateOf(g, s).restartCount, StateOf(g, s).degradedUntil)
  }

  function Rebuild(c: Setup, g: Guardian): map<Subsystem, Row> {
    map s | s in c.managed :: RowOf(g, s)
  }

  /** buildSnapshot: the cached one if there is one */
  function BuildSnapshot(c: Setup, w: World): World {
    if w.g.cache.Some? then w else w.(g := w.g.(cache := Some(Rebuild(c, w.g))))
  }

  // ---------------------------------------------------------------- events

  datatype Event =
    | Advance(to: int)
    | Fire(id: nat)
    | Started(fails: set<Subsystem>)
    | Start(fails: set<Subsystem>)
    | Stop
    | Reload(fails: set<Subsystem>)
    | ChildFailed(sub: Subsystem, err: string, u: real)
    | Heartbeat(sub: Subsystem, connected: bool, messageAt: Option<int>, publishAt: Option<int>)
    | Snapshot
    | RetryDue(r: Retry, spawned: bool)
    | Stopped

  /** The clock never runs back, timers never fire early, Started comes first and Stopped last. */
  predicate Enabled(w: World, e: Event) {
    match e
    case Advance(to) => to >= w.now
    case Fire(id) => id in w.armed && w.armed[id].due <= w.now
    case Started(_) => w.phase == Fresh
    case RetryDue(r, _) => w.phase == Up && r in w.queue
    case ChildFailed(_, _, u) => w.phase == Up && 0.0 <= u < 1.0
    case _ => w.phase == Up
  }

  ghost function Step(c: Setup, w: World, e: Event): World
    requires Enabled(w, e)
  {
    match e
    case Advance(to) => w.(now := to)
    case Fire(id) => w.(armed := w.armed - {id}, queue := w.queue + multiset{w.armed[id].retry})
    case Started(fails) => StartAll(c, w, fails).(phase := Up)
    case Start(fails) => StartAll(c, w, fails)
    case Stop => StopAll(c, w.(g := w.g.(shuttingDown := true)))
    case Reload(fails) => StartAll(c, StopAll(c, w), fails)
    case ChildFailed(s, err, u) => FailChild(c, w, s, err, u)
    case Heartbeat(s, connected, m, p) => Beat(w, s, connected, m, p)
    case Snapshot => BuildSnapshot(c, w)
    case RetryDue(r, ok) => HandleRetry(w, r, ok)
    case Stopped => StopAll(c, w).(phase := Down)
  }

  // ---------------------------------------------------------------- the invariant

  /** Exactly the recorded children are alive, each recorded once. */
  ghost predicate ChildrenOk(w: World) {
    && w.live == w.g.children.Values
    && (forall s, t :: s in w.g.children && t in w.g.children && w.g.children[s] == w.g.children[t] ==> s == t)
    && (forall s :: s in w.g.children ==> w.g.children[s] < w.next)
  }

  ghost predicate IsCurrent(g: Guardian, r: Retry) {
    r.gen == GenOf(g, r.sub)
  }

  /** Past this moment the subsystem is not cooling down. */
  ghost predicate PastCooldown(g: Guardian, s: Subsystem, t: int) {
    StateOf(g, s).degradedUntil.Some? ==> t >= StateOf(g, s).degradedUntil.value
  }

  /** A retry of the current generation waits for a subsystem without a child, and can still be cancelled. */
  ghost predicate Awaited(w: World, r: Retry) {
    r.sub in w.g.scheduled && r.sub !in w.g.children
  }

  ghost predicate ArmedOk(w: World, id: nat)
    requires id in w.armed
  {
    var t := w.armed[id];
    && id < w.next && t.retry.gen <= GenOf(w.g, t.retry.sub)
    && (IsCurrent(w.g, t.retry) ==>
        Awaited(w, t.retry) && w.g.scheduled[t.retry.sub] == id && t.retry !in w.queue && PastCooldown(w.g, t.retry.sub, t.due))
  }

  ghost predicate QueuedOk(w: World, r: Retry) {
    && r.gen <= GenOf(w.g, r.sub)
    && (IsCurrent(w.g, r) ==> Awaited(w, r) && w.queue[r] == 1 && PastCooldown(w.g, r.sub, w.now))
  }

  ghost predicate RetriesOk(w: World) {
    && (forall id :: id in w.armed ==> ArmedOk(w, id))
    && (forall r :: r in w.queue ==> QueuedOk(w, r))
    && (forall s :: s in w.g.scheduled ==> HandleOk(w, s))
  }

  /** The cancel handle of a subsystem stops a timer of that subsystem, or none at all. */
  ghost predicate HandleOk(w: World, s: Subsystem)
    requires s in w.g.scheduled
  {
    var id := w.g.scheduled[s];
    id < w.next && (id in w.armed ==> w.armed[id].retry.sub == s)
  }

  ghost predicate LifecycleOk(c: Setup, w: World) {
    && (!w.g.started ==> w.g.scheduled == map[] && forall s :: s in c.managed ==> s !in w.g.children)
    && (w.phase == Up && !w.g.started ==> w.g.shuttingDown)
    && (w.phase == Fresh ==> !w.g.started && !w.g.shuttingDown)
  }

  ghost predicate CacheOk(c: Setup, w: World) {
    w.g.cache.Some? ==> w.g.cache.value == Rebuild(c, w.g)
  }

  ghost predicate Inv(c: Setup, w: World) {
    ChildrenOk(w) && RetriesOk(w) && LifecycleOk(c, w) && CacheOk(c, w)
  }

  // ---------------------------------------------------------------- every handler keeps it

  /** Without a scheduled retry there is no pending retry of the current generation. */
  lemma UnscheduledHasNoCurrent(w: World, s: Subsystem)
    requires RetriesOk(w) && s !in w.g.scheduled
    ensures forall id :: id in w.armed && w.armed[id].retry.sub == s ==> !IsCurrent(w.g, w.armed[id].retry)
    ensures Retry(s, GenOf(w.g, s)) !in w.queue
  {
  }

  lemma StartOneChildren(w: World, s: Subsystem, ok: bool)
    requires ChildrenOk(w) && s !in w.g.children
    ensures ChildrenOk(StartOne(w, s, ok))
  {
    var v := StartOne(w, s, ok);
    if ok {
      assert v.g.children.Values == w.g.children.Values + {w.next} by {
        assert v.g.children[s] == w.next;
        forall x | x in w.g.children.Values ensures x in v.g.children.Values {
          var t :| t in w.g.children && w.g.children[t] == x;
          assert v.g.children[t] == x;
        }
      }
    }
  }

  lemma StartOneRetries(w: World, s: Subsystem, ok: bool)
    requires RetriesOk(w) && s !in w.g.scheduled
    ensures RetriesOk(StartOne(w, s, ok))
  {
    var v := StartOne(w, s, ok);
    UnscheduledHasNoCurrent(w, s);
    forall id | id in v.armed ensures ArmedOk(v, id) {
      assert ArmedOk(w, id);
    }
    forall r | r in v.queue ensures QueuedOk(v, r) {
      assert QueuedOk(w, r);
    }
  }

  /** What a round of starts leaves alone, and what it may add. */
  ghost predicate OnlyStarted(w: World, v: World, subs: seq<Subsystem>) {
    && v.g.scheduled == w.g.scheduled && v.g.gens == w.g.gens && v.armed == w.armed && v.queue == w.queue
    && v.now == w.now && v.phase == w.phase && v.g.started == w.g.started && v.g.shuttingDown == w.g.shuttingDown
    && (forall s :: s in v.g.children ==> s in w.g.children || s in subs)
  }

  lemma StartOneFrame(w: World, s: Subsystem, ok: bool, v: World)
    requires v == StartOne(w, s, ok)
    ensures OnlyStarted(w, v, [s]) && v.g.cache.None?
    ensures forall t :: t in v.g.children <==> t in w.g.children || (t == s && ok)
  {
  }

  ghost predicate AllDifferent(subs: seq<Subsystem>) {
    forall i, j :: 0 <= i < j < |subs| ==> subs[i] != subs[j]
  }

  /** A round of starts leaves everything else alone, and brings up exactly the subsystems whose start does not fail. */
  lemma {:induction false} StartEachAdds(w: World, subs: seq<Subsystem>, fails: set<Subsystem>)
    requires AllDifferent(subs) && forall s :: s in subs ==> s !in w.g.children
    ensures var v := StartEach(w, subs, fails);
            && OnlyStarted(w, v, subs) && (subs != [] ==> v.g.cache.None?)
            && forall s :: s in subs ==> (s in v.g.children <==> s !in fails)
  {
    if subs != [] {
      var init, s := subs[..|subs| - 1], subs[|subs| - 1];
      assert subs == init + [s] && s !in init;
      StartEachAdds(w, init, fails);
      StartOneFrame(StartEach(w, init, fails), s, s !in fails, StartEach(w, subs, fails));
    }
  }

  lemma StartOneKeeps(w: World, s: Subsystem, ok: bool, v: World)
    requires ChildrenOk(w) && RetriesOk(w) && s !in w.g.children && s !in w.g.scheduled && v == StartOne(w, s, ok)
    ensures ChildrenOk(v) && RetriesOk(v)
  {
    StartOneChildren(w, s, ok);
    StartOneRetries(w, s, ok);
  }

  lemma {:induction false} StartEachOk(w: World, subs: seq<Subsystem>, fails: set<Subsystem>, v: World)
    requires ChildrenOk(w) && RetriesOk(w) && AllDifferent(subs) && v == StartEach(w, subs, fails)
    requires forall s :: s in subs ==> s !in w.g.children && s !in w.g.scheduled
    ensures ChildrenOk(v) && RetriesOk(v)
  {
    if subs != [] {
      var init, s := subs[..|subs| - 1], subs[|subs| - 1];
      var u := StartEach(w, init, fails);
      assert s in subs && subs == init + [s] && s !in init;
      StartEachOk(w, init, fails, u);
      StartEachAdds(w, init, fails);
      StartOneKeeps(u, s, s !in fails, v);
    }
  }

  lemma StartEachKeeps(w: World, subs: seq<Subsystem>, fails: set<Subsystem>)
    requires ChildrenOk(w) && RetriesOk(w)
    requires forall i, j :: 0 <= i < j < |subs| ==> subs[i] != subs[j]
    requires forall s :: s in subs ==> s !in w.g.children && s !in w.g.scheduled
    ensures var v := StartEach(w, subs, fails); ChildrenOk(v) && RetriesOk(v) && OnlyStarted(w, v, subs)
    ensures forall s :: s in subs ==> (s in StartEach(w, subs, fails).g.children <==> s !in fails)
    ensures subs != [] ==> StartEach(w, subs, fails).g.cache.None?
  {
    StartEachAdds(w, subs, fails);
    StartEachOk(w, subs, fails, StartEach(w, subs, fails));
  }

  lemma StopAllChildren(c: Setup, w: World)
    requires ChildrenOk(w)
    ensures ChildrenOk(StopAll(c, w))
  {
    var v := StopAll(c, w);
    forall x ensures x in v.live <==> x in v.g.children.Values {
      if x in v.live {
        var s :| s in w.g.children && w.g.children[s] == x;
        assert s !in c.managed && v.g.children[s] == x;
      }
      if x in v.g.children.Values {
        var s :| s in v.g.children && v.g.children[s] == x;
        assert w.g.children[s] == x;
      }
    }
  }

  /** Afterwards nothing is scheduled, so no retry that is still around can be accepted. */
  lemma StopAllRetries(c: Setup, w: World)
    requires RetriesOk(w)
    ensures RetriesOk(StopAll(c, w))
  {
  }

  lemma FireRetries(w: World, id: nat)
    requires RetriesOk(w) && id in w.armed && w.armed[id].due <= w.now
    ensures RetriesOk(w.(armed := w.armed - {id}, queue := w.queue + multiset{w.armed[id].retry}))
  {
  }

  lemma AdvanceRetries(w: World, to: int)
    requires RetriesOk(w) && to >= w.now
    ensures RetriesOk(w.(now := to))
  {
  }

  // ---------------------------------------------------------------- failures and retries

  lemma RecordFailureKeeps(w: World, s: Subsystem, err: string)
    requires ChildrenOk(w) && RetriesOk(w)
    ensures ChildrenOk(RecordFailure(w, s, err)) && RetriesOk(RecordFailure(w, s, err))
  {
    var v := RecordFailure(w, s, err);
    forall x ensures x in v.live <==> x in v.g.children.Values {
      if x in v.live {
        var t :| t in w.g.children && w.g.children[t] == x;
        assert v.g.children[t] == x;
      }
      if x in v.g.children.Values {
        var t :| t in v.g.children && v.g.children[t] == x;
        assert w.g.children[t] == x;
      }
    }
    forall id | id in v.armed ensures ArmedOk(v, id) {
      assert ArmedOk(w, id);
    }
    forall r | r in v.queue ensures QueuedOk(v, r) {
      assert QueuedOk(w, r);
    }
  }

  ghost predicate NoCurrent(w: World, s: Subsystem) {
    && (forall id :: id in w.armed && w.armed[id].retry.sub == s ==> w.armed[id].retry.gen < GenOf(w.g, s))
    && (forall r :: r in w.queue && r.sub == s ==> r.gen < GenOf(w.g, s))
  }

  lemma OutdateKeeps(w: World, s: Subsystem, st: RestartState)
    requires RetriesOk(w)
    ensures RetriesOk(Outdate(w, s, st)) && NoCurrent(Outdate(w, s, st), s)
  {
  }

  lemma ScheduleKeepsArmed(w: World, s: Subsystem, delay: int, v: World, id: nat)
    requires RetriesOk(w) && NoCurrent(w, s) && s !in w.g.children && PastCooldown(w.g, s, w.now + delay)
    requires v == Schedule(w, s, delay) && id in v.armed
    ensures ArmedOk(v, id)
  {
    assert id != w.next ==> ArmedOk(w, id);
  }

  lemma ScheduleKeepsQueued(w: World, s: Subsystem, delay: int, v: World, r: Retry)
    requires RetriesOk(w) && NoCurrent(w, s) && s !in w.g.children && PastCooldown(w.g, s, w.now + delay)
    requires v == Schedule(w, s, delay) && r in v.queue
    ensures QueuedOk(v, r)
  {
    assert QueuedOk(w, r);
  }

  lemma ScheduleKeepsHandle(w: World, s: Subsystem, delay: int, v: World, t: Subsystem)
    requires RetriesOk(w) && v == Schedule(w, s, delay) && t in v.g.scheduled
    ensures HandleOk(v, t)
  {
    assert t != s ==> HandleOk(w, t);
  }

  lemma ScheduleKeeps(w: World, s: Subsystem, delay: int)
    requires RetriesOk(w) && NoCurrent(w, s) && s !in w.g.children && PastCooldown(w.g, s, w.now + delay)
    ensures RetriesOk(Schedule(w, s, delay))
  {
    var v := Schedule(w, s, delay);
    forall id | id in v.armed ensures ArmedOk(v, id) {
      ScheduleKeepsArmed(w, s, delay, v, id);
    }
    forall r | r in v.queue ensures QueuedOk(v, r) {
      ScheduleKeepsQueued(w, s, delay, v, r);
    }
    forall t | t in v.g.scheduled ensures HandleOk(v, t) {
      ScheduleKeepsHandle(w, s, delay, v, t);
    }
  }

  /** A retry of the current generation is pending for the subsystem. */
  ghost predicate HasRetry(w: World, s: Subsystem) {
    var r := Retry(s, GenOf(w.g, s));
    r in w.queue || exists id :: id in w.armed && w.armed[id].retry == r
  }

  /** Scheduling for one subsystem takes no other subsystem's retry away. */
  lemma ScheduleLeavesOthers(w: World, s: Subsystem, delay: int, t: Subsystem)
    requires RetriesOk(w) && t != s && HasRetry(w, t)
    ensures HasRetry(Schedule(w, s, delay), t)
  {
    var v, r := Schedule(w, s, delay), Retry(t, GenOf(w.g, t));
    if r !in w.queue {
      var id :| id in w.armed && w.armed[id].retry == r;
      assert ArmedOk(w, id);
      assert s in w.g.scheduled ==> HandleOk(w, s);
      assert id in v.armed && v.armed[id].retry == r;
    }
  }

  lemma ScheduleHasRetry(w: World, s: Subsystem, delay: int)
    ensures HasRetry(Schedule(w, s, delay), s)
  {
    assert w.next in Schedule(w, s, delay).armed;
  }

  lemma RestartDelayNotNegative(c: Setup, history: seq<int>, granted: bool, now: int, failures: nat, u: real)
    requires ValidSetup(c) && 0.0 <= u < 1.0
    ensures RestartDelay(c, history, granted, now, CappedBackoff(c.policy.baseBackoff, c.policy.maxBackoff, failures), u) >= 0
  {
  }

  lemma ActOnFrame(c: Setup, w: World, s: Subsystem, d: Decision, u: real)
    ensures var v := ActOn(c, w, s, d, u);
            && v.g.children == w.g.children && v.live == w.live && v.next >= w.next && v.queue == w.queue
            && v.g.cache == w.g.cache && v.phase == w.phase && v.now == w.now && v.g.gens == w.g.gens
            && v.g.started == w.g.started && v.g.shuttingDown == w.g.shuttingDown && v.g.states == w.g.states
            && (forall t :: t != s ==> (t in v.g.scheduled <==> t in w.g.scheduled))
  {
  }

  /** Acting on a decision schedules a retry unless the subsystem was cooling down. */
  lemma ActOnHasRetry(c: Setup, w: World, s: Subsystem, d: Decision, u: real)
    requires NoCurrent(w, s)
    ensures HasRetry(ActOn(c, w, s, d, u), s) <==> !d.Cooling?
  {
    match d
    case Cooling(_) =>
      var r := Retry(s, GenOf(w.g, s));
      assert r.sub == s;
    case Degrade(until) =>
      ScheduleHasRetry(w, s, if until - w.now < 0 then 0 else until - w.now);
    case Restart(delay) =>
      var (history, granted) := AllowGlobal(w.g.history, w.now, c.globalWindow, c.globalLimit);
      ScheduleHasRetry(w.(g := w.g.(history := history)), s, RestartDelay(c, history, granted, w.now, delay, u));
  }

  /** What a decision says about the state it comes with: when a cooldown ends, and that a restart is outside one. */
  ghost predicate Explains(c: Setup, st: RestartState, d: Decision, attempt: nat, now: int) {
    match d
    case Cooling(_) => true
    case Degrade(until) => st.degradedUntil == Some(until) && until >= now
    case Restart(delay) => delay == CappedBackoff(c.policy.baseBackoff, c.policy.maxBackoff, attempt) && !Degraded(st, now)
  }

  lemma OnFailureExplains(c: Setup, was: RestartState, now: int)
    requires ValidSetup(c)
    ensures var (st, d) := OnFailure(c.policy, was, now);
            Explains(c, st, d, |Prune(was.failures, now, c.policy.restartWindow)|, now) && (d.Cooling? <==> Degraded(was, now))
  {
  }

  lemma ScheduledRetries(w: World, s: Subsystem, delay: int, v: World)
    requires RetriesOk(w) && NoCurrent(w, s) && s !in w.g.children && PastCooldown(w.g, s, w.now + delay)
    requires v == Schedule(w, s, delay)
    ensures RetriesOk(v)
  {
    ScheduleKeeps(w, s, delay);
  }

  lemma DegradeSchedules(c: Setup, w: World, s: Subsystem, until: int, u: real)
    requires until >= w.now
    ensures ActOn(c, w, s, Degrade(until), u) == Schedule(w, s, until - w.now)
  {
  }

  /** The retry never fires before the cooldown is over. */
  lemma ActOnRetries(c: Setup, w: World, s: Subsystem, d: Decision, attempt: nat, u: real)
    requires ValidSetup(c) && 0.0 <= u < 1.0 && s !in w.g.children && Explains(c, StateOf(w.g, s), d, attempt, w.now)
    requires RetriesOk(w) && NoCurrent(w, s)
    ensures RetriesOk(ActOn(c, w, s, d, u))
  {
    match d
    case Cooling(_) =>
    case Degrade(until) =>
      DegradeSchedules(c, w, s, until, u);
      ScheduledRetries(w, s, until - w.now, ActOn(c, w, s, d, u));
    case Restart(delay) =>
      RestartRetries(c, w, s, attempt, u);
  }

  lemma RestartRetries(c: Setup, w: World, s: Subsystem, attempt: nat, u: real)
    requires ValidSetup(c) && 0.0 <= u < 1.0 && s !in w.g.children && PastCooldown(w.g, s, w.now)
    requires RetriesOk(w) && NoCurrent(w, s)
    ensures RetriesOk(ActOn(c, w, s, Restart(CappedBackoff(c.policy.baseBackoff, c.policy.maxBackoff, attempt)), u))
  {
    var delay := CappedBackoff(c.policy.baseBackoff, c.policy.maxBackoff, attempt);
    var (history, granted) := AllowGlobal(w.g.history, w.now, c.globalWindow, c.globalLimit);
    HistoryIsNoRetry(w, s, history);
    RestartDelayNotNegative(c, history, granted, w.now, attempt, u);
    ScheduleKeeps(w.(g := w.g.(history := history)), s, RestartDelay(c, history, granted, w.now, delay, u));
  }

  lemma HistoryIsNoRetry(w: World, s: Subsystem, history: seq<int>)
    requires RetriesOk(w) && NoCurrent(w, s)
    ensures RetriesOk(w.(g := w.g.(history := history))) && NoCurrent(w.(g := w.g.(history := history)), s)
  {
    var x := w.(g := w.g.(history := history));
    forall id | id in x.armed ensures ArmedOk(x, id) {
      assert ArmedOk(w, id);
    }
    forall r | r in x.queue ensures QueuedOk(x, r) {
      assert QueuedOk(w, r);
    }
  }

  /**
   * A failure report leaves every invariant standing, and leaves a retry pending for the subsystem exactly when the
   * report did not land inside its cooldown.
   */
  lemma FailChildKeeps(c: Setup, w: World, s: Subsystem, err: string, u: real)
    requires ValidSetup(c) && ChildrenOk(w) && RetriesOk(w) && 0.0 <= u < 1.0
    requires s.name != "" && !w.g.shuttingDown
    ensures var v := FailChild(c, w, s, err, u);
            && ChildrenOk(v) && RetriesOk(v) && s !in v.g.children && v.g.cache.None?
            && (HasRetry(v, s) <==> !Degraded(StateOf(w.g, s), w.now))
            && v.g.started == w.g.started && !v.g.shuttingDown && v.phase == w.phase && v.now == w.now
  {
    var r := RecordFailure(w, s, err);
    RecordFailureKeeps(w, s, err);
    var was := StateOf(r.g, s);
    var (st, d) := OnFailure(c.policy, was, r.now);
    OutdateKeeps(r, s, st);
    var o := Outdate(r, s, st);
    ActOnFrame(c, o, s, d, u);
    ActOnHasRetry(c, o, s, d, u);
    OnFailureExplains(c, was, r.now);
    ActOnRetries(c, o, s, d, |Prune(was.failures, r.now, c.policy.restartWindow)|, u);
  }

  /** An accepted retry finds no child, no other retry of its generation is left, and no cooldown stands in its way. */
  lemma AcceptedRetry(w: World, r: Retry)
    requires RetriesOk(w) && r in w.queue && IsCurrent(w.g, r)
    ensures r.sub !in w.g.children && r.sub in w.g.scheduled && w.queue[r] == 1
    ensures forall id :: id in w.armed ==> w.armed[id].retry != r
    ensures !Degraded(StateOf(w.g, r.sub), w.now)
  {
  }

  lemma DequeueKeeps(w: World, r: Retry)
    requires RetriesOk(w) && r in w.queue
    ensures RetriesOk(w.(queue := w.queue - multiset{r}))
    ensures IsCurrent(w.g, r) ==> RetriesOk(w.(queue := w.queue - multiset{r}, g := w.g.(scheduled := w.g.scheduled - {r.sub})))
  {
    var v := w.(queue := w.queue - multiset{r});
    var x := v.(g := v.g.(scheduled := v.g.scheduled - {r.sub}));
    assert QueuedOk(w, r);
    forall id | id in w.armed ensures ArmedOk(v, id) && (IsCurrent(w.g, r) ==> ArmedOk(x, id)) {
      assert ArmedOk(w, id);
    }
    forall q | q in v.queue ensures QueuedOk(v, q) && (IsCurrent(w.g, r) ==> QueuedOk(x, q)) {
      assert QueuedOk(w, q);
    }
  }

  /** Accepting a retry leads to a start in a world where nothing else is pending for the subsystem. */
  lemma AcceptedRetryStarts(w: World, r: Retry, ok: bool)
    requires RetriesOk(w) && r in w.queue && IsCurrent(w.g, r) && !w.g.shuttingDown
    ensures HandleRetry(w, r, ok) ==
            StartOne(w.(queue := w.queue - multiset{r}, g := w.g.(scheduled := w.g.scheduled - {r.sub})), r.sub, ok)
  {
  }

  lemma HandleRetryKeeps(w: World, r: Retry, ok: bool)
    requires ChildrenOk(w) && RetriesOk(w) && r in w.queue
    ensures ChildrenOk(HandleRetry(w, r, ok)) && RetriesOk(HandleRetry(w, r, ok))
  {
    DequeueKeeps(w, r);
    if !w.g.shuttingDown && IsCurrent(w.g, r) {
      AcceptedRetry(w, r);
      AcceptedRetryStarts(w, r, ok);
      var x := w.(queue := w.queue - multiset{r}, g := w.g.(scheduled := w.g.scheduled - {r.sub}));
      StartOneChildren(x, r.sub, ok);
      StartOneRetries(x, r.sub, ok);
    }
  }

  /** The recovery bookkeeping of startSubsystem is never reached from a retry: its cooldown is always over by then. */
  lemma RetryNeverMarksRecovered(w: World, r: Retry, ok: bool)
    requires RetriesOk(w) && r in w.queue
    ensures HandleRetry(w, r, ok).g.states == w.g.states
  {
  }
}

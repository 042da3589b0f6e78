/** What a snapshot says of each subsystem, told from what happened to it. */
module GuardianHealth {
  import opened Options
  import opened Supervisor
  import opened GuardianSpec
  import opened GuardianRuns
  import opened GuardianBudgets

  datatype Note =
    | Broke(at: int, err: string)
    | Beaten(connected: bool, messageAt: Option<int>, publishAt: Option<int>)
    | Halt(at: int)
    | Spawned(at: int)
    | NotSpawned

  // ---------------------------------------------------------------- what happens to a subsystem

  function SpawnNote(w: World, ok: bool): Note {
    if ok then Spawned(w.now) else NotSpawned
  }

  /** Only a retry of the current generation is acted on, and not during shutdown. */
  ghost function NotesAt(c: Setup, w: World, e: Event, s: Subsystem): seq<Note> {
    match e
    case ChildFailed(t, err, _) => if t == s && s.name != "" && !w.g.shuttingDown then [Broke(w.now, err)] else []
    case Heartbeat(t, connected, m, p) => if t == s && s.name != "" then [Beaten(connected, m, p)] else []
    case Started(fails) => if !w.g.started && s in c.managed then [SpawnNote(w, s !in fails)] else []
    case Start(fails) => if !w.g.started && s in c.managed then [SpawnNote(w, s !in fails)] else []
    case Reload(fails) => if s in c.managed then [Halt(w.now), SpawnNote(w, s !in fails)] else []
    case RetryDue(r, ok) => if r == Retry(s, GenOf(w.g, s)) && !w.g.shuttingDown then [SpawnNote(w, ok)] else []
    case Stop => if s in c.managed then [Halt(w.now)] else []
    case Stopped => if s in c.managed then [Halt(w.now)] else []
    case _ => []
  }

  ghost function Notes(c: Setup, events: seq<Event>, run: seq<World>, k: nat, s: Subsystem): seq<Note>
    requires |run| == |events| + 1 && k <= |events|
  {
    if k == 0 then [] else Notes(c, events, run, k - 1, s) + NotesAt(c, run[k - 1], events[k - 1], s)
  }

  // ---------------------------------------------------------------- what that tells

  function Front(log: seq<Note>): seq<Note>
    requires log != []
  {
    log[..|log| - 1]
  }

  function Last(log: seq<Note>): Note
    requires log != []
  {
    log[|log| - 1]
  }

  /** The last thing that started or ended it was a spawn. */
  function Running(log: seq<Note>): bool {
    if log == [] then false else if Last(log).Beaten? then Running(Front(log)) else Last(log).Spawned?
  }

  /** What it last said itself, unless it failed or was stopped since. */
  function Connected(log: seq<Note>): bool {
    if log == [] then false
    else match Last(log)
      case Beaten(connected, _, _) => connected
      case Broke(_, _) => false
      case Halt(_) => false
      case _ => Connected(Front(log))
  }

  /** The last error, gone with the next spawn. */
  function ErrorText(log: seq<Note>): string {
    if log == [] then ""
    else match Last(log)
      case Broke(_, err) => err
      case NotSpawned => "spawn failed"
      case Spawned(_) => ""
      case _ => ErrorText(Front(log))
  }

  function FailureTime(log: seq<Note>): int {
    if log == [] then 0 else if Last(log).Broke? then Last(log).at else FailureTime(Front(log))
  }

  function TransitionTime(log: seq<Note>): int {
    if log == [] then 0
    else match Last(log)
      case Broke(at, _) => at
      case Halt(at) => at
      case Spawned(at) => at
      case _ => TransitionTime(Front(log))
  }

  function MessageTime(log: seq<Note>): int {
    if log == [] then 0
    else if Last(log).Beaten? && Last(log).messageAt.Some? then Last(log).messageAt.value
    else MessageTime(Front(log))
  }

  function PublishTime(log: seq<Note>): int {
    if log == [] then 0
    else if Last(log).Beaten? && Last(log).publishAt.Some? then Last(log).publishAt.value
    else PublishTime(Front(log))
  }

  ghost predicate Tells(log: seq<Note>, h: Health) {
    && h.running == Running(log) && h.connected == Connected(log) && h.lastError == ErrorText(log)
    && h.lastFailureAt == FailureTime(log) && h.lastTransition == TransitionTime(log)
    && h.lastMessageAt == MessageTime(log) && h.lastPublishAt == PublishTime(log)
  }

  // ---------------------------------------------------------------- one event

  /** What a note changes. */
  function Noted(h: Health, n: Note): Health {
    match n
    case Broke(at, err) =>
      h.(lastError := err, lastFailureAt := at, running := false, connected := false, lastTransition := at)
    case Beaten(connected, m, p) =>
      h.(connected := connected, lastMessageAt := if m.Some? then m.value else h.lastMessageAt,
         lastPublishAt := if p.Some? then p.value else h.lastPublishAt)
    case Halt(at) => h.(running := false, connected := false, lastTransition := at)
    case Spawned(at) => h.(running := true, lastError := "", lastTransition := at)
    case NotSpawned => h.(lastError := "spawn failed", running := false)
  }

  function NotedAll(h: Health, notes: seq<Note>): Health
    requires |notes| <= 2
  {
    if notes == [] then h else if |notes| == 1 then Noted(h, notes[0]) else Noted(Noted(h, notes[0]), notes[1])
  }

  lemma TellsOneMore(log: seq<Note>, h: Health, n: Note)
    requires Tells(log, h)
    ensures Tells(log + [n], Noted(h, n))
  {
    var more := log + [n];
    assert Front(more) == log && Last(more) == n;
    TellsRest(log, more, h, n);
  }

  lemma TellsRest(log: seq<Note>, more: seq<Note>, h: Health, n: Note)
    requires Tells(log, h) && more != [] && Front(more) == log && Last(more) == n
    ensures Tells(more, Noted(h, n))
  {
  }

  /** Whether a subsystem has a child after some notes, given whether it had one before. */
  ghost predicate Alive(had: bool, notes: seq<Note>)
    requires |notes| <= 2
  {
    if notes == [] || Last(notes).Beaten? then had else Last(notes).Spawned?
  }

  lemma {:induction false} StartEachChildren(w: World, subs: seq<Subsystem>, fails: set<Subsystem>, s: Subsystem)
    ensures s !in subs ==> (s in StartEach(w, subs, fails).g.children <==> s in w.g.children)
  {
    if subs != [] {
      StartEachChildren(w, subs[..|subs| - 1], fails, s);
    }
  }

  lemma StartOneHealth(w: World, t: Subsystem, ok: bool, s: Subsystem, v: World)
    requires v == StartOne(w, t, ok)
    ensures v.now == w.now
    ensures HealthOf(v.g, s) == if s == t then Noted(HealthOf(w.g, s), SpawnNote(w, ok)) else HealthOf(w.g, s)
  {
  }

  lemma {:induction false} StartEachHealth(w: World, subs: seq<Subsystem>, fails: set<Subsystem>, s: Subsystem, v: World)
    requires AllDifferent(subs) && v == StartEach(w, subs, fails)
    ensures v.now == w.now
    ensures HealthOf(v.g, s) == if s in subs then Noted(HealthOf(w.g, s), SpawnNote(w, s !in fails)) else HealthOf(w.g, s)
  {
    if subs != [] {
      var init, t := subs[..|subs| - 1], subs[|subs| - 1];
      assert subs == init + [t] && t !in init;
      var u := StartEach(w, init, fails);
      StartEachHealth(w, init, fails, s, u);
      StartOneHealth(u, t, t !in fails, s, v);
    }
  }

  lemma StopAllHealth(c: Setup, w: World, s: Subsystem, v: World)
    requires v == StopAll(c, w)
    ensures v.now == w.now && !v.g.started
    ensures HealthOf(v.g, s) == if s in c.managed then Noted(HealthOf(w.g, s), Halt(w.now)) else HealthOf(w.g, s)
    ensures s in v.g.children <==> s in w.g.children && s !in c.managed
  {
  }

  lemma StartAllHealth(c: Setup, w: World, fails: set<Subsystem>, s: Subsystem, v: World)
    requires ValidSetup(c) && v == StartAll(c, w, fails) && (!w.g.started ==> forall t :: t in c.managed ==> t !in w.g.children)
    ensures s in v.g.children <==> if !w.g.started && s in c.managed then s !in fails else s in w.g.children
    ensures HealthOf(v.g, s) ==
            if !w.g.started && s in c.managed then Noted(HealthOf(w.g, s), SpawnNote(w, s !in fails)) else HealthOf(w.g, s)
  {
    if !w.g.started {
      var x := w.(g := w.g.(started := true));
      StartEachHealth(x, c.managed, fails, s, v);
      StartEachAdds(x, c.managed, fails);
      StartEachChildren(x, c.managed, fails, s);
    }
  }

  lemma ActOnHealth(c: Setup, w: World, s: Subsystem, d: Decision, u: real, v: World)
    requires v == ActOn(c, w, s, d, u)
    ensures v.g.health == w.g.health && v.g.children == w.g.children
  {
  }

  lemma RecordHealth(w: World, t: Subsystem, err: string, s: Subsystem, v: World)
    requires v == RecordFailure(w, t, err)
    ensures HealthOf(v.g, s) == if s == t then Noted(HealthOf(w.g, s), Broke(w.now, err)) else HealthOf(w.g, s)
    ensures s in v.g.children <==> s in w.g.children && s != t
  {
  }

  lemma FailHealth(c: Setup, w: World, e: Event, s: Subsystem, v: World)
    requires e.ChildFailed? && v == FailChild(c, w, e.sub, e.err, e.u)
    ensures HealthOf(v.g, s) == NotedAll(HealthOf(w.g, s), NotesAt(c, w, e, s))
    ensures s in v.g.children <==> Alive(s in w.g.children, NotesAt(c, w, e, s))
  {
    if e.sub.name != "" && !w.g.shuttingDown {
      var r := RecordFailure(w, e.sub, e.err);
      RecordHealth(w, e.sub, e.err, s, r);
      var (st, d) := OnFailure(c.policy, StateOf(r.g, e.sub), r.now);
      ActOnHealth(c, Outdate(r, e.sub, st), e.sub, d, e.u, v);
    }
  }

  lemma RetryHealth(c: Setup, w: World, e: Event, s: Subsystem, v: World)
    requires Inv(c, w) && Enabled(w, e) && e.RetryDue? && v == HandleRetry(w, e.r, e.spawned)
    ensures HealthOf(v.g, s) == NotedAll(HealthOf(w.g, s), NotesAt(c, w, e, s))
    ensures s in v.g.children <==> Alive(s in w.g.children, NotesAt(c, w, e, s))
  {
    if !w.g.shuttingDown && IsCurrent(w.g, e.r) {
      AcceptedRetry(w, e.r);
      AcceptedRetryStarts(w, e.r, e.spawned);
      var x := w.(queue := w.queue - multiset{e.r}, g := w.g.(scheduled := w.g.scheduled - {e.r.sub}));
      StartOneHealth(x, e.r.sub, e.spawned, s, v);
      StartOneFrame(x, e.r.sub, e.spawned, v);
    }
  }

  lemma StartStopHealth(c: Setup, w: World, e: Event, s: Subsystem, v: World)
    requires ValidSetup(c) && Inv(c, w) && Enabled(w, e) && v == Step(c, w, e)
    requires e.Started? || e.Start? || e.Reload? || e.Stop? || e.Stopped?
    ensures HealthOf(v.g, s) == NotedAll(HealthOf(w.g, s), NotesAt(c, w, e, s))
    ensures s in v.g.children <==> Alive(s in w.g.children, NotesAt(c, w, e, s))
  {
    match e
    case Started(fails) => StartAllHealth(c, w, fails, s, StartAll(c, w, fails));
    case Start(fails) => StartAllHealth(c, w, fails, s, v);
    case Reload(fails) =>
      StopAllHealth(c, w, s, StopAll(c, w));
      StartAllHealth(c, StopAll(c, w), fails, s, v);
    case Stop => StopAllHealth(c, w.(g := w.g.(shuttingDown := true)), s, v);
    case Stopped => StopAllHealth(c, w, s, StopAll(c, w));
  }

  lemma QuietHealth(c: Setup, w: World, e: Event, s: Subsystem, v: World)
    requires Enabled(w, e) && v == Step(c, w, e) && (e.Advance? || e.Fire? || e.Heartbeat? || e.Snapshot?)
    ensures HealthOf(v.g, s) == NotedAll(HealthOf(w.g, s), NotesAt(c, w, e, s))
    ensures s in v.g.children <==> Alive(s in w.g.children, NotesAt(c, w, e, s))
  {
  }

  lemma StepHealth(c: Setup, w: World, e: Event, s: Subsystem, v: World)
    requires ValidSetup(c) && Inv(c, w) && Steps(c, w, e, v)
    ensures HealthOf(v.g, s) == NotedAll(HealthOf(w.g, s), NotesAt(c, w, e, s))
    ensures s in v.g.children <==> Alive(s in w.g.children, NotesAt(c, w, e, s))
  {
    match e
    case ChildFailed(_, _, _) => FailHealth(c, w, e, s, v);
    case RetryDue(_, _) => RetryHealth(c, w, e, s, v);
    case Advance(_) => QuietHealth(c, w, e, s, v);
    case Fire(_) => QuietHealth(c, w, e, s, v);
    case Heartbeat(_, _, _, _) => QuietHealth(c, w, e, s, v);
    case Snapshot => QuietHealth(c, w, e, s, v);
    case _ => StartStopHealth(c, w, e, s, v);
  }

  lemma TellsMore(log: seq<Note>, h: Health, notes: seq<Note>)
    requires Tells(log, h) && |notes| <= 2
    ensures Tells(log + notes, NotedAll(h, notes))
  {
    if notes == [] {
      assert log + notes == log;
    } else {
      TellsOneMore(log, h, notes[0]);
      if |notes| == 1 {
        assert notes == [notes[0]];
      } else {
        TellsOneMore(log + [notes[0]], Noted(h, notes[0]), notes[1]);
        assert log + notes == (log + [notes[0]]) + [notes[1]];
      }
    }
  }

  lemma RunningAlive(log: seq<Note>, notes: seq<Note>)
    requires |notes| <= 2 && (|notes| == 2 ==> !Last(notes).Beaten?)
    ensures Running(log + notes) == Alive(Running(log), notes)
  {
    if notes == [] {
      assert log + notes == log;
    } else {
      assert Last(log + notes) == Last(notes);
      if |notes| == 1 {
        assert Front(log + notes) == log;
      }
    }
  }

  // ---------------------------------------------------------------- whole runs

  ghost predicate OnRecord(w: World, s: Subsystem, log: seq<Note>) {
    Tells(log, HealthOf(w.g, s)) && (s in w.g.children <==> Running(log))
  }

  lemma StepRecorded(c: Setup, w: World, e: Event, s: Subsystem, v: World, log: seq<Note>)
    requires ValidSetup(c) && Inv(c, w) && Steps(c, w, e, v) && OnRecord(w, s, log)
    ensures OnRecord(v, s, log + NotesAt(c, w, e, s))
  {
    StepHealth(c, w, e, s, v);
    NotesShape(c, w, e, s);
    TellsMore(log, HealthOf(w.g, s), NotesAt(c, w, e, s));
    RunningAlive(log, NotesAt(c, w, e, s));
  }

  lemma NotesShape(c: Setup, w: World, e: Event, s: Subsystem)
    ensures |NotesAt(c, w, e, s)| <= 2 && (|NotesAt(c, w, e, s)| == 2 ==> !Last(NotesAt(c, w, e, s)).Beaten?)
  {
  }

  /** In every run the health on record is what the notes on the subsystem say, and it is running exactly if it has a child. */
  lemma {:induction false} HealthIsTold(c: Setup, events: seq<Event>, run: seq<World>, k: nat, s: Subsystem)
    requires ValidSetup(c) && IsRun(c, events, run) && k <= |events|
    ensures OnRecord(run[k], s, Notes(c, events, run, k, s))
  {
    if k > 0 {
      HealthIsTold(c, events, run, k - 1, s);
      EveryRunKeepsInv(c, events, run, k - 1);
      assert StepAt(c, events, run, k - 1);
      StepRecorded(c, run[k - 1], events[k - 1], s, run[k], Notes(c, events, run, k - 1, s));
    }
  }

  /**
   * In every run a cached snapshot has a row for exactly the managed subsystems. A row says running exactly if it names a
   * child, that child is alive, and every field is what the notes on the subsystem say; its counter is the number of
   * restarts decided on, and its cooldown the one after the last failure since recovery that was not restarted.
   */
  lemma SnapshotTells(c: Setup, events: seq<Event>, run: seq<World>, k: nat, s: Subsystem)
    requires ValidSetup(c) && IsRun(c, events, run) && k <= |events| && run[k].g.cache.Some?
    ensures s in run[k].g.cache.value <==> s in c.managed
    ensures s in c.managed ==>
              var row := run[k].g.cache.value[s];
              var t := ObserveAll(c.policy, Incidents(c, events, run, k, s), run[0].now);
              && Tells(Notes(c, events, run, k, s), row.health) && (row.health.running <==> row.child.Some?)
              && (row.child.Some? ==> row.child.value in run[k].live)
              && row.restartCount == t.granted && row.cooldownUntil == CooldownEnd(t.history, c.policy.cooldown)
  {
    EveryRunKeepsInv(c, events, run, k);
    HealthIsTold(c, events, run, k, s);
    RestartsStayWithinBudgetInRuns(c, events, run, k, s);
    var log := Incidents(c, events, run, k, s);
    RunRecords(c, events, run, k, s, log);
    ObserveAllInv(c.policy, log, run[0].now);
  }
}

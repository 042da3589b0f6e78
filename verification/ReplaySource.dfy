/** readLoop itself: the merge heap, the loop variables, and one method per piece of the Go function. */
module ReadLoopImpl {
  import opened Options
  import opened Order
  import opened MergeHeap
  import opened ReplayMerge
  import opened ReplayEnds

  class Loop<T(!new)> {
    const cfg: Config
    const less: (T, T) -> bool
    const h: Heap<T>
    var last: Option<T>
    var emitted: nat
    var idle: nat
    var status: Status
    var out: seq<T>
    var log: seq<Effect<T>>
    ghost var arrived: seq<T>
    ghost var dropped: multiset<T>

    ghost predicate Valid()
      reads this, h
    {
      h.Valid() && h.less == less
    }

    ghost function View(): State<T>
      reads this, h
    {
      State(multiset(h.items), last, emitted, idle, status, arrived, out, dropped, log)
    }

    constructor (cfg: Config, less: (T, T) -> bool)
      requires StrictWeak(less)
      ensures Valid() && fresh(h) && this.cfg == cfg && this.less == less && View() == Init()
    {
      this.cfg, this.less := cfg, less;
      h := new Heap(less);
      last, emitted, idle, status, out, log := None, 0, 0, Running, [], [];
      arrived, dropped := [], multiset{};
    }

    /** The part of emitOne after the heap pop; `before` is the state the pop started from. */
    method SendPopped(x: T, d: Delivery, ghost before: State<T>)
      requires View() == before.(buf := before.buf - multiset{x})
      modifies this
      ensures View() == EmitPopped(less, before, d, x)
    {
      if last.Some? && less(x, last.value) {
        status, dropped := Failed(OrderGuard), dropped + multiset{x};
        return;
      }
      match d
      case SendCancelled =>
        dropped := dropped + multiset{x};
      case Sent(acked) =>
        out, log := out + [x], log + [Emit(x)];
        if !acked {
          status := Failed(AckFailed);
          return;
        }
        log, last, emitted := log + [Ack(x)], Some(x), emitted + 1;
        assert log == before.log + [Emit(x), Ack(x)];
    }

    method EmitOne(d: Delivery)
      requires Valid()
      modifies this, h
      ensures Valid() && EmitStep(less, old(View()), d, View())
    {
      if |h.items| == 0 {
        return;
      }
      var x := h.Pop();
      SendPopped(x, d, old(View()));
      assert Emits(less, old(View()), d, View(), x);
    }

    method ReceiveMessage(t: Turn<T>)
      requires Valid() && t.fetch.Delivered?
      modifies this, h
      ensures Valid() && Deliver(cfg, less, old(View()), t, View())
    {
      var m, kind := t.fetch.m, t.fetch.kind;
      idle := 0;
      if kind == Undecodable && !cfg.skipUndecodable {
        status := Failed(DecodeFailed);
      } else if kind != InWindow {
        log := log + [Skip(m)];
        if !t.skipAcked {
          status := Failed(AckFailed);
          return;
        }
        log := log + [Ack(m)];
        assert log == old(log) + [Skip(m), Ack(m)];
      } else if last.Some? && less(m, last.value) {
        status := Failed(BehindFrontier);
      } else {
        h.Push(m);
        arrived := arrived + [m];
        assert View() == Pushing(old(View()).(idle := 0), m);
        if |h.items| > BufferSize(cfg) {
          EmitOne(t.delivery);
        }
      }
    }

    method HandleQuiet(pending: Pending)
      requires Valid() && |h.items| == 0
      modifies this
      ensures Valid() && View() == Quiet(cfg, old(View()), pending)
    {
      if idle >= cfg.idleTimeoutLimit {
        match pending
        case PendingUnknown => status := Failed(PendingFailed);
        case PendingCount(n) =>
          if n == 0 {
            status := Finished;
          }
      }
    }

    method HandleTimeout(t: Turn<T>)
      requires Valid()
      modifies this, h
      ensures Valid() && TimeOut(cfg, less, old(View()), t, View())
    {
      ghost var s := View();
      idle := idle + 1;
      assert View() == s.(idle := s.idle + 1) && |s.buf| == |h.items|;
      if |h.items| > 0 {
        EmitOne(t.delivery);
      } else {
        HandleQuiet(t.pending);
      }
    }

    /** One turn of the loop; from a safe state it takes, sends, skips and stops exactly when the answers call for it. */
    method TakeTurn(t: Turn<T>)
      requires Valid()
      modifies this, h
      ensures Valid() && Next(cfg, less, old(View()), t, View())
      ensures StrictWeak(less) && old(Safe(cfg, less, View()) && status == Running) ==>
                TurnsRightly(cfg, less, old(View()), t, View())
    {
      ghost var s := View();
      Dispatch(t);
      if StrictWeak(less) && Safe(cfg, less, s) && s.status == Running {
        NextTurns(cfg, less, s, t, View());
      }
    }

    method Dispatch(t: Turn<T>)
      requires Valid()
      modifies this, h
      ensures Valid() && Next(cfg, less, old(View()), t, View())
    {
      if t.cancelled {
        status := Finished;
      } else if cfg.maxMessages > 0 && emitted >= cfg.maxMessages {
        status := Finished;
      } else if cfg.maxMessages > 0 && emitted + |h.items| >= cfg.maxMessages {
        EmitOne(t.delivery);
      } else {
        match t.fetch
        case Delivered(m, kind) =>
          ReceiveMessage(t);
        case TimedOut =>
          HandleTimeout(t);
        case FetchCancelled =>
          status := Finished;
        case FetchBroken =>
          status := Failed(FetchFailed);
      }
    }

    /** A turn in which the next undelivered message of `ms` arrives, or nothing does. */
    method TakeCleanTurn(ms: seq<T>)
      requires Valid() && status == Running && CleanInv(cfg, less, ms, View())
      modifies this, h
      ensures Valid() && CleanInv(cfg, less, ms, View())
      ensures status == Running ==> Remaining(cfg, ms, View()) < old(Remaining(cfg, ms, View()))
    {
      ghost var s := View();
      var taken := emitted + |h.items|;
      var t := Turn(false, if taken < |ms| then Delivered(ms[taken], InWindow) else TimedOut, true, PendingCount(0), Sent(true));
      assert t == CleanTurn(ms, s) by {
        CleanCount(cfg, less, ms, s);
      }
      TakeTurn(t);
      CleanStep(cfg, less, ms, s, View());
    }
  }

  lemma OneMoreTurn<T(!new)>(cfg: Config, less: (T, T) -> bool, turns: seq<Turn<T>>, run: seq<State<T>>, i: nat, v: State<T>)
    requires i < |turns| && IsRun(cfg, less, turns[..i], run)
    requires run[i].status == Running && Next(cfg, less, run[i], turns[i], v)
    ensures IsRun(cfg, less, turns[..i + 1], run + [v])
  {
    var done, more := turns[..i + 1], run + [v];
    forall k | 0 <= k <= i ensures StepAt(cfg, less, done, more, k) {
      assert k < i ==> StepAt(cfg, less, turns[..i], run, k);
    }
  }

  /** readLoop against any sequence of environment answers: what it does is a run of the transition system. */
  method ReadLoop<T(!new)>(cfg: Config, less: (T, T) -> bool, turns: seq<Turn<T>>)
    returns (out: seq<T>, log: seq<Effect<T>>, status: Status, ghost run: seq<State<T>>)
    requires StrictWeak(less)
    ensures 1 <= |run| <= |turns| + 1 && IsRun(cfg, less, turns[..|run| - 1], run)
    ensures status == Running ==> |run| == |turns| + 1
    ensures var end := run[|run| - 1]; out == end.out && log == end.log && status == end.status
    ensures Sorted(less, out) && AckDiscipline(log) && status != Failed(OrderGuard)
    ensures AllRight(cfg, less, turns[..|run| - 1], run)
  {
    var loop := new Loop(cfg, less);
    var i := 0;
    run := [loop.View()];
    while i < |turns| && loop.status == Running
      invariant 0 <= i <= |turns| && |run| == i + 1
      invariant fresh(loop) && fresh(loop.h) && loop.Valid() && loop.cfg == cfg && loop.less == less
      invariant IsRun(cfg, less, turns[..i], run) && run[i] == loop.View()
    {
      loop.TakeTurn(turns[i]);
      OneMoreTurn(cfg, less, turns, run, i, loop.View());
      run := run + [loop.View()];
      i := i + 1;
    }
    out, log, status := loop.out, loop.log, loop.status;
    EveryRunIsSafe(cfg, less, turns[..i], run, i);
    forall k | 0 <= k < i ensures RightAt(cfg, less, turns[..i], run, k) {
      EveryTurnIsRight(cfg, less, turns[..i], run, k);
    }
  }

  lemma CleanOutput<T(!new)>(cfg: Config, less: (T, T) -> bool, ms: seq<T>, s: State<T>)
    requires CleanInv(cfg, less, ms, s)
    ensures Sorted(less, s.out) && |s.arrived| <= |ms| && multiset(s.out) <= multiset(ms[..|s.arrived|])
    ensures |s.out| >= |s.arrived| - BufferSize(cfg)
  {
    assert multiset(s.arrived) == multiset(s.out) + s.buf;
    assert |multiset(s.arrived)| == |s.arrived|;
  }

  /**
   * readLoop over a stream that delivers `ms` in order and then goes quiet: it always stops, with the exact outcome. `taken`
   * is how many messages it had accepted; if it fails, it fails on the one after those.
   */
  method ReplayAll<T(!new)>(cfg: Config, less: (T, T) -> bool, ms: seq<T>)
    returns (out: seq<T>, status: Status, ghost taken: nat)
    requires StrictWeak(less)
    ensures status == Finished || status == Failed(BehindFrontier)
    ensures status == Finished <==> DisorderWithin(less, ms, Intake(cfg, |ms|), BufferSize(cfg))
    ensures status == Finished ==> taken == Intake(cfg, |ms|) && multiset(out) == multiset(ms[..taken])
    ensures status != Finished ==> FirstViolation(less, ms, Intake(cfg, |ms|), BufferSize(cfg), taken)
    ensures taken <= |ms| && Sorted(less, out) && multiset(out) <= multiset(ms[..taken])
    ensures |out| >= taken - BufferSize(cfg)
  {
    var loop := new Loop(cfg, less);
    while loop.status == Running
      invariant fresh(loop) && fresh(loop.h) && loop.Valid() && loop.cfg == cfg && loop.less == less
      invariant CleanInv(cfg, less, ms, loop.View())
      decreases loop.status == Running, Remaining(cfg, ms, loop.View())
    {
      loop.TakeCleanTurn(ms);
    }
    out, status, taken := loop.out, loop.status, |loop.arrived|;
    CleanOutput(cfg, less, ms, loop.View());
  }
}

/** The replay source over real envelopes: decoding, the time window, and the envelope order. */
module ReplaySource {
  import opened Order
  import opened EnvelopeOrder
  import opened ReplayMerge
  import opened ReplayEnds
  import ReadLoopImpl

  /** A fetched message; `env` is meaningful when the payload decodes. */
  datatype Message = Message(handle: nat, decodes: bool, env: Envelope)

  /** Milliseconds; a non-positive start means no window is configured. */
  datatype Window = Window(start: int, cutoff: int)

  predicate InsideWindow(w: Window, e: Envelope) {
    w.start > 0 ==> w.start <= e.tsIngest <= w.cutoff
  }

  function KindOf(w: Window, m: Message): Kind {
    if !m.decodes then Undecodable else if InsideWindow(w, m.env) then InWindow else OutsideWindow
  }

  predicate MessageLess(a: Message, b: Message) {
    EnvelopeLess(a.env, b.env)
  }

  datatype RawFetch = Fetched(m: Message) | FetchTimeout | FetchCancel | FetchError

  datatype Answer = Answer(cancelled: bool, fetch: RawFetch, skipAcked: bool, pending: Pending, delivery: Delivery)

  function TurnOf(w: Window, a: Answer): Turn<Message> {
    var fetch := match a.fetch
                 case Fetched(m) => Delivered(m, KindOf(w, m))
                 case FetchTimeout => TimedOut
                 case FetchCancel => FetchCancelled
                 case FetchError => FetchBroken;
    Turn(a.cancelled, fetch, a.skipAcked, a.pending, a.delivery)
  }

  lemma MessageLessIsStrictWeak()
    ensures StrictWeak(MessageLess)
  {
    EnvelopeLessIsStrictWeak();
    forall a: Message, b: Message, c: Message
      ensures MessageLess(a, b) && MessageLess(b, c) ==> MessageLess(a, c)
      ensures !MessageLess(b, a) && !MessageLess(c, b) ==> !MessageLess(c, a)
    {
      assert MessageLess(a, b) == EnvelopeLess(a.env, b.env);
    }
  }

  lemma ArrivedWasAnswered(cfg: Config, w: Window, answers: seq<Answer>, turns: seq<Turn<Message>>,
                           run: seq<State<Message>>, k: nat, m: Message)
    requires |turns| == |answers| && k <= |turns| && forall i :: 0 <= i < |answers| ==> turns[i] == TurnOf(w, answers[i])
    requires IsRun(cfg, MessageLess, turns[..k], run) && m in multiset(run[k].arrived)
    ensures Wanted(w, m) && exists a :: a in answers && a.fetch == Fetched(m)
  {
    AcceptedWereInWindow(cfg, MessageLess, turns[..k], run, k, m);
    var j :| 0 <= j < k && turns[..k][j].fetch == Delivered(m, InWindow);
    assert answers[j] in answers && answers[j].fetch == Fetched(m);
  }

  /** In the window: decoded, and ingested within it if there is one. */
  predicate Wanted(w: Window, m: Message) {
    m.decodes && (w.start <= 0 || (m.env.tsIngest >= w.start && m.env.tsIngest <= w.cutoff))
  }

  lemma WantedIsInWindow(w: Window, m: Message)
    ensures KindOf(w, m) == InWindow <==> Wanted(w, m)
    ensures KindOf(w, m) == Undecodable <==> !m.decodes
  {
  }

  /** The wanted messages fetched in the first `k` turns, in order. */
  ghost function WantedOf(w: Window, answers: seq<Answer>, k: nat): seq<Message>
    requires k <= |answers|
  {
    if k == 0 then []
    else
      var a := answers[k - 1];
      WantedOf(w, answers, k - 1) + (if a.fetch.Fetched? && Wanted(w, a.fetch.m) then [a.fetch.m] else [])
  }

  /** Nobody cancels anything. */
  ghost predicate Undisturbed(answers: seq<Answer>) {
    forall i :: 0 <= i < |answers| ==> !answers[i].cancelled && !answers[i].fetch.FetchCancel? && answers[i].delivery.Sent?
  }

  ghost predicate TurnsOf(w: Window, answers: seq<Answer>, turns: seq<Turn<Message>>) {
    |turns| == |answers| && forall i :: 0 <= i < |answers| ==> turns[i] == TurnOf(w, answers[i])
  }

  /** Without a cap and undisturbed, everything wanted is taken in, and nothing is given up. */
  lemma {:induction false} AllWantedTaken(cfg: Config, w: Window, answers: seq<Answer>, turns: seq<Turn<Message>>,
                                          run: seq<State<Message>>, k: nat)
    requires TurnsOf(w, answers, turns) && |run| == |turns| + 1 && AllRight(cfg, MessageLess, turns, run) && k <= |turns|
    requires run[0] == Init() && Undisturbed(answers) && cfg.maxMessages <= 0
    requires forall i :: 0 <= i <= k ==> run[i].status != Failed(BehindFrontier)
    ensures run[k].arrived == WantedOf(w, answers, k) && |run[k].dropped| == 0
  {
    if k > 0 {
      AllWantedTaken(cfg, w, answers, turns, run, k - 1);
      assert RightAt(cfg, MessageLess, turns, run, k - 1);
      assert turns[k - 1] == TurnOf(w, answers[k - 1]) && run[k].status != Failed(BehindFrontier);
      if answers[k - 1].fetch.Fetched? {
        WantedIsInWindow(w, answers[k - 1].fetch.m);
      }
    }
  }

  /** It ends on a timeout with nothing pending and nothing held. */
  lemma LastTurn(cfg: Config, s: State<Message>, t: Turn<Message>, quiet: nat, s': State<Message>)
    requires EndsRightly(cfg, MessageLess, s, t, quiet, s'.status) && MovesRightly(cfg, MessageLess, s, t, s')
    requires !t.cancelled && !t.fetch.FetchCancelled? && cfg.maxMessages <= 0 && s'.status == Finished
    ensures t.fetch == TimedOut && t.pending == PendingCount(0) && Unsent(s) == 0 && Unsent(s') == 0
  {
  }

  lemma OutIsAll(s: State<Message>, all: seq<Message>)
    requires Conserved(s) && s.arrived == all && |s.dropped| == 0 && Unsent(s) == 0
    ensures multiset(s.out) == multiset(all)
  {
    UnsentIsBuffered(s);
  }

  /** A replay came to its own end: everything wanted was put out, and the last answers said there is no more. */
  ghost predicate CameToItsEnd(w: Window, answers: seq<Answer>, out: seq<Message>) {
    && multiset(out) == multiset(WantedOf(w, answers, |answers|)) && |answers| > 0
    && answers[|answers| - 1].fetch == FetchTimeout && answers[|answers| - 1].pending == PendingCount(0)
  }

  lemma RunFacts(cfg: Config, turns: seq<Turn<Message>>, run: seq<State<Message>>)
    requires IsRun(cfg, MessageLess, turns, run) && StrictWeak(MessageLess)
    ensures |run| == |turns| + 1 && run[0] == Init() && Conserved(run[|turns|])
    ensures forall i :: 0 <= i < |turns| ==> run[i].status == Running
  {
    EveryRunIsSafe(cfg, MessageLess, turns, run, |turns|);
    forall i | 0 <= i < |turns| ensures run[i].status == Running {
      assert StepAt(cfg, MessageLess, turns, run, i);
    }
  }

  lemma FinishedIsComplete(cfg: Config, w: Window, answers: seq<Answer>, turns: seq<Turn<Message>>, run: seq<State<Message>>)
    requires TurnsOf(w, answers, turns) && |run| == |turns| + 1 && run[0] == Init() && Conserved(run[|turns|])
    requires forall i :: 0 <= i < |turns| ==> run[i].status == Running
    requires AllRight(cfg, MessageLess, turns, run) && Undisturbed(answers) && cfg.maxMessages <= 0
    requires run[|turns|].status == Finished
    ensures CameToItsEnd(w, answers, run[|turns|].out)
  {
    var n := |turns|;
    assert n > 0;
    assert RightAt(cfg, MessageLess, turns, run, n - 1) && turns[n - 1] == TurnOf(w, answers[n - 1]);
    LastTurn(cfg, run[n - 1], turns[n - 1], QuietBefore(cfg, turns, run, n - 1), run[n]);
    AllWantedTaken(cfg, w, answers, turns, run, n);
    OutIsAll(run[n], WantedOf(w, answers, n));
  }

  /** By time of ingestion, and at equal times by the other fields in turn. */
  ghost predicate NoLater(a: Message, b: Message) {
    && a.env.tsIngest <= b.env.tsIngest
    && (Precedes(KeyOf(a.env), KeyOf(b.env)) || KeyOf(a.env) == KeyOf(b.env))
  }

  ghost predicate OldestFirstIn(out: seq<Message>) {
    forall i, j :: 0 <= i < j < |out| ==> NoLater(out[i], out[j])
  }

  /**
   * Whatever happens outside, the replayed envelopes are in order, oldest first, decoded, inside the window, and fetched by
   * this run. Undisturbed and without a cap, a replay that finishes has put out everything wanted it was given, and only
   * finishes when nothing came and nothing was pending.
   */
  method Read(cfg: Config, w: Window, answers: seq<Answer>)
    returns (out: seq<Message>, log: seq<Effect<Message>>, status: Status, ghost used: nat)
    ensures used <= |answers| && (status == Running ==> used == |answers|)
    ensures OldestFirstIn(out)
    ensures forall m :: m in out ==> Wanted(w, m) && exists a :: a in answers && a.fetch == Fetched(m)
    ensures AckDiscipline(log) && status != Failed(OrderGuard)
    ensures status != Failed(AckFailed) ==> AllAcked(log)
    ensures cfg.maxMessages > 0 ==> |out| <= cfg.maxMessages
    ensures status == Finished && Undisturbed(answers[..used]) && cfg.maxMessages <= 0 ==>
              CameToItsEnd(w, answers[..used], out)
  {
    MessageLessIsStrictWeak();
    var turns := seq(|answers|, i requires 0 <= i < |answers| => TurnOf(w, answers[i]));
    ghost var run;
    out, log, status, run := ReadLoopImpl.ReadLoop(cfg, MessageLess, turns);
    used := |run| - 1;
    ReadMeans(cfg, w, answers, turns, run, used, run[used]);
  }

  lemma ReadMeans(cfg: Config, w: Window, answers: seq<Answer>, turns: seq<Turn<Message>>, run: seq<State<Message>>, k: nat,
                  end: State<Message>)
    requires TurnsOf(w, answers, turns) && k <= |turns| && IsRun(cfg, MessageLess, turns[..k], run) && StrictWeak(MessageLess)
    requires AllRight(cfg, MessageLess, turns[..k], run) && Sorted(MessageLess, end.out) && end == run[k]
    ensures OldestFirstIn(end.out)
    ensures forall m :: m in end.out ==> Wanted(w, m) && exists a :: a in answers && a.fetch == Fetched(m)
    ensures end.status != Failed(AckFailed) ==> AllAcked(end.log)
    ensures cfg.maxMessages > 0 ==> |end.out| <= cfg.maxMessages
    ensures end.status == Finished && Undisturbed(answers[..k]) && cfg.maxMessages <= 0 ==>
              CameToItsEnd(w, answers[..k], end.out)
  {
    EndOfRead(cfg, w, answers, turns, run, k);
    SortedByEnvelope(end.out);
    EndsComplete(cfg, w, answers, turns, run, k);
  }

  lemma EndsComplete(cfg: Config, w: Window, answers: seq<Answer>, turns: seq<Turn<Message>>, run: seq<State<Message>>, k: nat)
    requires TurnsOf(w, answers, turns) && k <= |turns| && IsRun(cfg, MessageLess, turns[..k], run) && StrictWeak(MessageLess)
    requires AllRight(cfg, MessageLess, turns[..k], run)
    ensures run[k].status == Finished && Undisturbed(answers[..k]) && cfg.maxMessages <= 0 ==>
              CameToItsEnd(w, answers[..k], run[k].out)
  {
    RunFacts(cfg, turns[..k], run);
    if run[k].status == Finished && Undisturbed(answers[..k]) && cfg.maxMessages <= 0 {
      FinishedIsComplete(cfg, w, answers[..k], turns[..k], run);
    }
  }

  lemma SortedByEnvelope(out: seq<Message>)
    requires Sorted(MessageLess, out)
    ensures OldestFirstIn(out)
  {
    forall i, j | 0 <= i < j < |out| ensures NoLater(out[i], out[j]) {
      assert !MessageLess(out[j], out[i]);
      InOrder(out[i].env, out[j].env);
    }
  }

  lemma EndOfRead(cfg: Config, w: Window, answers: seq<Answer>, turns: seq<Turn<Message>>, run: seq<State<Message>>, k: nat)
    requires |turns| == |answers| && k <= |turns| && forall i :: 0 <= i < |answers| ==> turns[i] == TurnOf(w, answers[i])
    requires IsRun(cfg, MessageLess, turns[..k], run)
    ensures forall m :: m in run[k].out ==> Wanted(w, m) && exists a :: a in answers && a.fetch == Fetched(m)
    ensures var end := run[k];
            && (end.status != Failed(AckFailed) ==> AllAcked(end.log))
            && (cfg.maxMessages > 0 ==> |end.out| <= cfg.maxMessages)
  {
    MessageLessIsStrictWeak();
    EveryRunIsSafe(cfg, MessageLess, turns[..k], run, k);
    forall m | m in run[k].out ensures Wanted(w, m) && exists a :: a in answers && a.fetch == Fetched(m) {
      assert m in multiset(run[k].arrived);
      ArrivedWasAnswered(cfg, w, answers, turns, run, k, m);
    }
  }
}

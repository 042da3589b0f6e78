/** The replay read loop as a transition system over every answer its environment can give. */
module ReplayMerge {
  import opened Options
  import opened Order
  import opened MergeHeap

  datatype Config = Config(maxMessages: int, idleTimeoutLimit: int, mergeBufferSize: int, skipUndecodable: bool)

  const DEFAULT_MERGE_BUFFER := 4096

  /** newEnvelopeHeap */
  function BufferSize(cfg: Config): nat {
    if cfg.mergeBufferSize <= 0 then DEFAULT_MERGE_BUFFER else cfg.mergeBufferSize
  }

  datatype Kind = Undecodable | OutsideWindow | InWindow

  datatype Fetch<T> = Delivered(m: T, kind: Kind) | TimedOut | FetchCancelled | FetchBroken

  /** The answer to the consumer-info query. */
  datatype Pending = PendingUnknown | PendingCount(count: nat)

  /** How the send-or-cancel select of one emission went, and whether the ack after it succeeded. */
  datatype Delivery = SendCancelled | Sent(acked: bool)

  /** Everything the environment may decide during one turn of the loop. */
  datatype Turn<T> = Turn(cancelled: bool, fetch: Fetch<T>, skipAcked: bool, pending: Pending, delivery: Delivery)

  datatype Reason = OrderGuard | BehindFrontier | AckFailed | DecodeFailed | FetchFailed | PendingFailed

  datatype Status = Running | Finished | Failed(reason: Reason)

  /** What a consumer of the output and the broker can observe, in order. */
  datatype Effect<T> = Emit(m: T) | Skip(m: T) | Ack(m: T)

  datatype State<T> = State(
    buf: multiset<T>,       // the merge heap's contents
    last: Option<T>,        // lastEmitted, when hasLast
    emitted: nat,
    idle: nat,
    status: Status,
    arrived: seq<T>,        // messages accepted into the heap, oldest first
    out: seq<T>,            // messages put on the output channel
    dropped: multiset<T>,   // popped, but cancelled before reaching the channel
    log: seq<Effect<T>>)

  function Init<T>(): State<T> {
    State(multiset{}, None, 0, 0, Running, [], [], multiset{}, [])
  }

  function Dropping<T>(s: State<T>, x: T): State<T> {
    s.(buf := s.buf - multiset{x}, dropped := s.dropped + multiset{x})
  }

  function SendingUnacked<T>(s: State<T>, x: T): State<T> {
    s.(buf := s.buf - multiset{x}, out := s.out + [x], log := s.log + [Emit(x)], status := Failed(AckFailed))
  }

  function Sending<T>(s: State<T>, x: T): State<T> {
    s.(buf := s.buf - multiset{x}, out := s.out + [x], log := s.log + [Emit(x), Ack(x)],
       last := Some(x), emitted := s.emitted + 1)
  }

  /** emitOne once the heap has handed over `x`. */
  ghost function EmitPopped<T>(less: (T, T) -> bool, s: State<T>, d: Delivery, x: T): State<T> {
    if s.last.Some? && less(x, s.last.value) then Dropping(s, x).(status := Failed(OrderGuard))
    else match d
      case SendCancelled => Dropping(s, x)
      case Sent(acked) => if acked then Sending(s, x) else SendingUnacked(s, x)
  }

  ghost predicate Emits<T>(less: (T, T) -> bool, s: State<T>, d: Delivery, s': State<T>, x: T) {
    Minimal(less, s.buf, x) && s' == EmitPopped(less, s, d, x)
  }

  /** emitOne: the heap may hand over any element that no buffered one precedes. */
  ghost predicate EmitStep<T(!new)>(less: (T, T) -> bool, s: State<T>, d: Delivery, s': State<T>) {
    if |s.buf| == 0 then s' == s
    else exists x :: Emits(less, s, d, s', x)
  }

  function Pushing<T>(s: State<T>, m: T): State<T> {
    s.(buf := s.buf + multiset{m}, arrived := s.arrived + [m])
  }

  /** A decoded in-window message: frontier check, push, and one emission if the buffer is now over its size. */
  ghost predicate Accept<T(!new)>(cfg: Config, less: (T, T) -> bool, s: State<T>, m: T, d: Delivery, s': State<T>) {
    if s.last.Some? && less(m, s.last.value) then s' == s.(status := Failed(BehindFrontier))
    else if |Pushing(s, m).buf| > BufferSize(cfg) then EmitStep(less, Pushing(s, m), d, s')
    else s' == Pushing(s, m)
  }

  function Skipping<T>(s: State<T>, m: T, acked: bool): State<T> {
    if acked then s.(log := s.log + [Skip(m), Ack(m)])
    else s.(log := s.log + [Skip(m)], status := Failed(AckFailed))
  }

  ghost predicate Deliver<T(!new)>(cfg: Config, less: (T, T) -> bool, s: State<T>, t: Turn<T>, s': State<T>)
    requires t.fetch.Delivered?
  {
    var r := s.(idle := 0);
    if t.fetch.kind == Undecodable && !cfg.skipUndecodable then s' == r.(status := Failed(DecodeFailed))
    else if t.fetch.kind != InWindow then s' == Skipping(r, t.fetch.m, t.skipAcked)
    else Accept(cfg, less, r, t.fetch.m, t.delivery, s')
  }

  /** A timeout with nothing buffered: past the idle limit, an empty backlog ends the run. */
  function Quiet<T>(cfg: Config, s: State<T>, pending: Pending): State<T> {
    if s.idle < cfg.idleTimeoutLimit then s
    else match pending
      case PendingUnknown => s.(status := Failed(PendingFailed))
      case PendingCount(n) => if n == 0 then s.(status := Finished) else s
  }

  ghost predicate TimeOut<T(!new)>(cfg: Config, less: (T, T) -> bool, s: State<T>, t: Turn<T>, s': State<T>) {
    if |s.buf| > 0 then EmitStep(less, s.(idle := s.idle + 1), t.delivery, s')
    else s' == Quiet(cfg, s.(idle := s.idle + 1), t.pending)
  }

  /** One turn of readLoop. */
  ghost predicate Next<T(!new)>(cfg: Config, less: (T, T) -> bool, s: State<T>, t: Turn<T>, s': State<T>) {
    if t.cancelled then s' == s.(status := Finished)
    else if cfg.maxMessages > 0 && s.emitted >= cfg.maxMessages then s' == s.(status := Finished)
    else if cfg.maxMessages > 0 && s.emitted + |s.buf| >= cfg.maxMessages then EmitStep(less, s, t.delivery, s')
    else match t.fetch
      case Delivered(_, _) => Deliver(cfg, less, s, t, s')
      case TimedOut => TimeOut(cfg, less, s, t, s')
      case FetchCancelled => s' == s.(status := Finished)
      case FetchBroken => s' == s.(status := Failed(FetchFailed))
  }

  /** A run: it starts empty, and every state but the last is running and takes one turn to the next. */
  ghost predicate IsRun<T(!new)>(cfg: Config, less: (T, T) -> bool, turns: seq<Turn<T>>, run: seq<State<T>>) {
    && |run| == |turns| + 1 && run[0] == Init()
    && forall i :: 0 <= i < |turns| ==> StepAt(cfg, less, turns, run, i)
  }

  ghost predicate StepAt<T(!new)>(cfg: Config, less: (T, T) -> bool, turns: seq<Turn<T>>, run: seq<State<T>>, i: nat)
    requires i < |turns| < |run|
  {
    run[i].status == Running && Next(cfg, less, run[i], turns[i], run[i + 1])
  }

  // ---------------------------------------------------------------- safety of every run

  /** Each ack directly follows the emission or the deliberate skip of the same message. */
  ghost predicate AckDiscipline<T>(log: seq<Effect<T>>) {
    forall i :: 0 <= i < |log| && log[i].Ack? ==> i > 0 && !log[i - 1].Ack? && log[i - 1].m == log[i].m
  }

  /** Nothing emitted or skipped is left without its ack. */
  ghost predicate AllAcked<T>(log: seq<Effect<T>>) {
    forall i :: 0 <= i < |log| && !log[i].Ack? ==> i + 1 < |log| && log[i + 1].Ack? && log[i + 1].m == log[i].m
  }

  /** The output is sorted and nothing buffered comes before anything emitted. */
  ghost predicate FrontierHolds<T>(less: (T, T) -> bool, out: seq<T>, buf: multiset<T>) {
    Sorted(less, out) && forall x, i :: x in buf && 0 <= i < |out| ==> !less(x, out[i])
  }

  ghost predicate LogInOrder<T>(s: State<T>) {
    AckDiscipline(s.log) && (s.status != Failed(AckFailed) ==> s.emitted == |s.out| && AllAcked(s.log))
  }

  ghost predicate WithinBounds<T>(cfg: Config, s: State<T>) {
    && (cfg.maxMessages > 0 ==> s.emitted + |s.buf| <= cfg.maxMessages && |s.out| + |s.buf| <= cfg.maxMessages)
    && |s.buf| <= BufferSize(cfg)
  }

  ghost predicate Conserved<T>(s: State<T>) {
    multiset(s.arrived) == multiset(s.out) + s.buf + s.dropped
  }

  ghost predicate Safe<T>(cfg: Config, less: (T, T) -> bool, s: State<T>) {
    && FrontierHolds(less, s.out, s.buf)
    && s.status != Failed(OrderGuard)
    && WithinBounds(cfg, s)
    && Conserved(s)
    && LogInOrder(s)
    && (s.status == Running ==> s.last == LastOf(s.out))
  }

  function LastOf<T>(s: seq<T>): Option<T> {
    if s == [] then None else Some(s[|s| - 1])
  }

  /** A message at or after the frontier is at or after everything emitted. */
  lemma FrontierCoversOut<T(!new)>(less: (T, T) -> bool, out: seq<T>, m: T)
    requires StrictWeak(less) && Sorted(less, out)
    requires out != [] ==> !less(m, out[|out| - 1])
    ensures forall i :: 0 <= i < |out| ==> !less(m, out[i])
  {
  }

  lemma EmitKeepsFrontier<T(!new)>(less: (T, T) -> bool, out: seq<T>, buf: multiset<T>, x: T)
    requires FrontierHolds(less, out, buf) && Minimal(less, buf, x)
    ensures FrontierHolds(less, out, buf - multiset{x})
    ensures FrontierHolds(less, out + [x], buf - multiset{x})
  {
  }

  lemma LogGrows<T>(log: seq<Effect<T>>, e: Effect<T>)
    requires AckDiscipline(log) && AllAcked(log) && !e.Ack?
    ensures AckDiscipline(log + [e])
    ensures AckDiscipline(log + [e, Ack(e.m)]) && AllAcked(log + [e, Ack(e.m)])
  {
  }

  lemma MovingKeepsConserved<T>(all: multiset<T>, out: seq<T>, buf: multiset<T>, dropped: multiset<T>, x: T)
    requires all == multiset(out) + buf + dropped && x in buf
    ensures all == multiset(out + [x]) + (buf - multiset{x}) + dropped
    ensures all == multiset(out) + (buf - multiset{x}) + (dropped + multiset{x})
    ensures |buf - multiset{x}| == |buf| - 1
  {
  }

  /** What has to hold just before an emission, when the buffer may be one over its size. */
  ghost predicate ReadyToEmit<T>(cfg: Config, less: (T, T) -> bool, s: State<T>) {
    && s.status == Running && s.last == LastOf(s.out)
    && FrontierHolds(less, s.out, s.buf) && Conserved(s) && LogInOrder(s)
    && |s.buf| <= BufferSize(cfg) + 1 && (cfg.maxMessages > 0 ==> s.emitted + |s.buf| <= cfg.maxMessages)
  }

  lemma DroppingKeepsSafe<T(!new)>(cfg: Config, less: (T, T) -> bool, s: State<T>, x: T)
    requires ReadyToEmit(cfg, less, s) && Minimal(less, s.buf, x)
    ensures Safe(cfg, less, Dropping(s, x))
  {
  }

  lemma SendingKeepsSafe<T(!new)>(cfg: Config, less: (T, T) -> bool, s: State<T>, x: T)
    requires ReadyToEmit(cfg, less, s) && Minimal(less, s.buf, x)
    ensures Safe(cfg, less, Sending(s, x)) && |Sending(s, x).buf| == |s.buf| - 1
  {
    MovingKeepsConserved(multiset(s.arrived), s.out, s.buf, s.dropped, x);
    EmitKeepsFrontier(less, s.out, s.buf, x);
    LogGrows(s.log, Emit(x));
  }

  lemma SendingUnackedKeepsSafe<T(!new)>(cfg: Config, less: (T, T) -> bool, s: State<T>, x: T)
    requires ReadyToEmit(cfg, less, s) && Minimal(less, s.buf, x)
    ensures Safe(cfg, less, SendingUnacked(s, x))
  {
    MovingKeepsConserved(multiset(s.arrived), s.out, s.buf, s.dropped, x);
    EmitKeepsFrontier(less, s.out, s.buf, x);
    LogGrows(s.log, Emit(x));
  }

  /** Emitting keeps the output sorted and never trips the order guard. */
  lemma EmitKeepsSafe<T(!new)>(cfg: Config, less: (T, T) -> bool, s: State<T>, d: Delivery, s': State<T>)
    requires ReadyToEmit(cfg, less, s) && |s.buf| > 0 && EmitStep(less, s, d, s')
    ensures Safe(cfg, less, s')
  {
    var x :| Emits(less, s, d, s', x);
    DroppingKeepsSafe(cfg, less, s, x);
    SendingKeepsSafe(cfg, less, s, x);
    SendingUnackedKeepsSafe(cfg, less, s, x);
  }

  lemma PushingKeepsConserved<T>(arrived: seq<T>, out: seq<T>, buf: multiset<T>, dropped: multiset<T>, m: T)
    requires multiset(arrived) == multiset(out) + buf + dropped
    ensures multiset(arrived + [m]) == multiset(out) + (buf + multiset{m}) + dropped
    ensures |buf + multiset{m}| == |buf| + 1
  {
  }

  lemma PushingKeepsFrontier<T(!new)>(less: (T, T) -> bool, out: seq<T>, buf: multiset<T>, m: T)
    requires StrictWeak(less) && FrontierHolds(less, out, buf) && (out != [] ==> !less(m, out[|out| - 1]))
    ensures FrontierHolds(less, out, buf + multiset{m})
  {
    FrontierCoversOut(less, out, m);
  }

  lemma PushingIsReady<T(!new)>(cfg: Config, less: (T, T) -> bool, s: State<T>, m: T)
    requires StrictWeak(less) && s.status == Running && Safe(cfg, less, s)
    requires s.last.Some? ==> !less(m, s.last.value)
    requires cfg.maxMessages > 0 ==> s.emitted + |s.buf| < cfg.maxMessages
    ensures ReadyToEmit(cfg, less, Pushing(s, m))
    ensures |s.buf| < BufferSize(cfg) ==> Safe(cfg, less, Pushing(s, m))
  {
    PushingKeepsConserved(s.arrived, s.out, s.buf, s.dropped, m);
    PushingKeepsFrontier(less, s.out, s.buf, m);
  }

  lemma AcceptKeepsSafe<T(!new)>(cfg: Config, less: (T, T) -> bool, s: State<T>, m: T, d: Delivery, s': State<T>)
    requires StrictWeak(less) && s.status == Running && Safe(cfg, less, s) && Accept(cfg, less, s, m, d, s')
    requires cfg.maxMessages > 0 ==> s.emitted + |s.buf| < cfg.maxMessages
    ensures Safe(cfg, less, s')
  {
    if !(s.last.Some? && less(m, s.last.value)) {
      PushingIsReady(cfg, less, s, m);
      if |Pushing(s, m).buf| > BufferSize(cfg) {
        EmitKeepsSafe(cfg, less, Pushing(s, m), d, s');
      }
    }
  }

  lemma TimeOutKeepsSafe<T(!new)>(cfg: Config, less: (T, T) -> bool, s: State<T>, t: Turn<T>, s': State<T>)
    requires s.status == Running && Safe(cfg, less, s) && TimeOut(cfg, less, s, t, s')
    ensures Safe(cfg, less, s')
  {
    if |s.buf| > 0 {
      assert ReadyToEmit(cfg, less, s.(idle := s.idle + 1));
      EmitKeepsSafe(cfg, less, s.(idle := s.idle + 1), t.delivery, s');
    }
  }

  lemma NextKeepsSafe<T(!new)>(cfg: Config, less: (T, T) -> bool, s: State<T>, t: Turn<T>, s': State<T>)
    requires StrictWeak(less) && s.status == Running && Safe(cfg, less, s) && Next(cfg, less, s, t, s')
    ensures Safe(cfg, less, s')
  {
    if t.cancelled || (cfg.maxMessages > 0 && s.emitted >= cfg.maxMessages) {
    } else if cfg.maxMessages > 0 && s.emitted + |s.buf| >= cfg.maxMessages {
      EmitKeepsSafe(cfg, less, s, t.delivery, s');
    } else if t.fetch.TimedOut? {
      TimeOutKeepsSafe(cfg, less, s, t, s');
    } else if t.fetch.Delivered? {
      LogGrows(s.log, Skip(t.fetch.m));
      assert Safe(cfg, less, s.(idle := 0));
      if t.fetch.kind == InWindow {
        AcceptKeepsSafe(cfg, less, s.(idle := 0), t.fetch.m, t.delivery, s');
      }
    }
  }

  /**
   * Whatever the timeouts, skips, cancellations and failures, in every state of every run the output is sorted,
   * the order guard has not fired, what is out plus what is buffered is within the cap, the buffer is within its size, nothing is
   * lost or duplicated, and an ack only ever follows the emission or skip of its own message.
   */
  lemma {:induction false} EveryRunIsSafe<T(!new)>(
    cfg: Config, less: (T, T) -> bool, turns: seq<Turn<T>>, run: seq<State<T>>, k: nat)
    requires StrictWeak(less) && IsRun(cfg, less, turns, run) && k < |run|
    ensures Safe(cfg, less, run[k])
  {
    if k > 0 {
      EveryRunIsSafe(cfg, less, turns, run, k - 1);
      assert StepAt(cfg, less, turns, run, k - 1);
      NextKeepsSafe(cfg, less, run[k - 1], turns[k - 1], run[k]);
    }
  }

  lemma NextAccepts<T(!new)>(cfg: Config, less: (T, T) -> bool, s: State<T>, t: Turn<T>, s': State<T>)
    requires Next(cfg, less, s, t, s')
    ensures s'.arrived == s.arrived ||
            (t.fetch.Delivered? && t.fetch.kind == InWindow && s'.arrived == s.arrived + [t.fetch.m])
  {
  }

  /** Only decoded in-window deliveries are ever accepted, so with conservation nothing else reaches the output. */
  lemma {:induction false} AcceptedWereInWindow<T(!new)>(
    cfg: Config, less: (T, T) -> bool, turns: seq<Turn<T>>, run: seq<State<T>>, k: nat, x: T)
    requires IsRun(cfg, less, turns, run) && k < |run| && x in run[k].arrived
    ensures exists j :: 0 <= j < k && turns[j].fetch == Delivered(x, InWindow)
  {
    assert k > 0;
    assert StepAt(cfg, less, turns, run, k - 1);
    NextAccepts(cfg, less, run[k - 1], turns[k - 1], run[k]);
    if x in run[k - 1].arrived {
      AcceptedWereInWindow(cfg, less, turns, run, k - 1, x);
    } else {
      assert turns[k - 1].fetch == Delivered(x, InWindow);
    }
  }

  // ---------------------------------------------------------------- the exact merge-buffer bound

  /** How many elements of `s` come strictly after `m`. */
  function CountAfter<T>(less: (T, T) -> bool, s: seq<T>, m: T): nat {
    if s == [] then 0 else CountAfter(less, s[..|s| - 1], m) + (if less(m, s[|s| - 1]) then 1 else 0)
  }

  /** Every one of the first `n` messages has at most `bound` strictly later messages delivered before it. */
  ghost predicate DisorderWithin<T>(less: (T, T) -> bool, ms: seq<T>, n: nat, bound: nat)
    requires n <= |ms|
  {
    forall i :: 0 <= i < n ==> CountAfter(less, ms[..i], ms[i]) <= bound
  }

  lemma {:induction false} CountAtLeast<T(!new)>(less: (T, T) -> bool, s: seq<T>, m: T, part: multiset<T>)
    requires part <= multiset(s) && forall x :: x in part ==> less(m, x)
    ensures CountAfter(less, s, m) >= |part|
  {
    if s != [] {
      var x := s[|s| - 1];
      assert s == s[..|s| - 1] + [x];
      CountAtLeast(less, s[..|s| - 1], m, part - multiset{x});
    }
  }

  lemma {:induction false} CountAtMost<T(!new)>(less: (T, T) -> bool, s: seq<T>, m: T, part: multiset<T>)
    requires part <= multiset(s) && forall x :: x in multiset(s) - part ==> !less(m, x)
    ensures CountAfter(less, s, m) <= |part|
  {
    if s != [] {
      var x := s[|s| - 1];
      assert s == s[..|s| - 1] + [x];
      CountAtMost(less, s[..|s| - 1], m, part - multiset{x});
    }
  }

  /** The undisturbed environment: it delivers `ms` in order, then only times out, and every ack succeeds. */
  function CleanTurn<T>(ms: seq<T>, s: State<T>): Turn<T> {
    Turn(false, if |s.arrived| < |ms| then Delivered(ms[|s.arrived|], InWindow) else TimedOut,
         true, PendingCount(0), Sent(true))
  }

  ghost predicate IsCleanRun<T(!new)>(cfg: Config, less: (T, T) -> bool, ms: seq<T>, run: seq<State<T>>) {
    && run != [] && run[0] == Init()
    && forall i :: 0 <= i < |run| - 1 ==>
         run[i].status == Running && Next(cfg, less, run[i], CleanTurn(ms, run[i]), run[i + 1])
  }

  /** How many of the messages a run takes in: all of them, unless the cap stops it first. */
  function Intake(cfg: Config, n: nat): nat {
    if 0 < cfg.maxMessages < n then cfg.maxMessages else n
  }

  ghost predicate CleanInv<T>(cfg: Config, less: (T, T) -> bool, ms: seq<T>, s: State<T>) {
    var n, k := Intake(cfg, |ms|), |s.arrived|;
    && Safe(cfg, less, s)
    && k <= n && s.arrived == ms[..k] && s.dropped == multiset{}
    && DisorderWithin(less, ms, k, BufferSize(cfg))
    && match s.status
       case Running => (k < n ==> s.idle == 0 && |s.buf| == if k < BufferSize(cfg) then k else BufferSize(cfg))
       case Finished => k == n && |s.buf| == 0
       case Failed(r) => r == BehindFrontier && k < n && CountAfter(less, ms[..k], ms[k]) > BufferSize(cfg)
  }

  /** The frontier check is exact: it rejects a message just when more messages than the buffer holds outrank it. */
  lemma FrontierCheckIsExact<T(!new)>(cfg: Config, less: (T, T) -> bool, ms: seq<T>, s: State<T>)
    requires StrictWeak(less) && CleanInv(cfg, less, ms, s) && s.status == Running && |s.arrived| < Intake(cfg, |ms|)
    ensures var m := ms[|s.arrived|];
            s.last.Some? && less(m, s.last.value) <==> CountAfter(less, s.arrived, m) > BufferSize(cfg)
  {
    var m := ms[|s.arrived|];
    if s.last.Some? && less(m, s.last.value) {
      var part := s.buf + multiset{s.last.value};
      assert s.last.value == s.out[|s.out| - 1] && s.last.value in multiset(s.out);
      assert part <= multiset(s.arrived);
      assert forall x :: x in part ==> less(m, x);
      assert |s.arrived| == |multiset(s.arrived)| == |s.out| + |s.buf|;
      CountAtLeast(less, s.arrived, m, part);
    } else {
      FrontierCoversOut(less, s.out, m);
      forall x | x in multiset(s.arrived) - s.buf ensures !less(m, x) {
        assert x in multiset(s.out);
      }
      CountAtMost(less, s.arrived, m, s.buf);
    }
  }

  lemma CleanEmit<T(!new)>(cfg: Config, less: (T, T) -> bool, s: State<T>, s': State<T>)
    requires ReadyToEmit(cfg, less, s) && |s.buf| > 0 && EmitStep(less, s, Sent(true), s')
    ensures Safe(cfg, less, s') && s'.status == Running && |s'.buf| == |s.buf| - 1 && s'.emitted == s.emitted + 1
    ensures s'.arrived == s.arrived && s'.dropped == s.dropped && s'.idle == s.idle
  {
    var x :| Emits(less, s, Sent(true), s', x);
    SendingKeepsSafe(cfg, less, s, x);
  }

  /** Without drops, every accepted message is either emitted or buffered. */
  lemma CleanCount<T>(cfg: Config, less: (T, T) -> bool, ms: seq<T>, s: State<T>)
    requires CleanInv(cfg, less, ms, s) && s.status != Failed(AckFailed)
    ensures s.emitted + |s.buf| == |s.arrived|
  {
    assert |s.arrived| == |multiset(s.arrived)| == |multiset(s.out)| + |s.buf|;
  }

  lemma DisorderExtends<T>(less: (T, T) -> bool, ms: seq<T>, k: nat, bound: nat)
    requires k < |ms| && DisorderWithin(less, ms, k, bound) && CountAfter(less, ms[..k], ms[k]) <= bound
    ensures DisorderWithin(less, ms, k + 1, bound) && ms[..k] + [ms[k]] == ms[..k + 1]
  {
  }

  /** What accepting one more message does to a clean state: the buffer fills up to its size and then stays there. */
  lemma CleanAccept<T(!new)>(cfg: Config, less: (T, T) -> bool, s: State<T>, m: T, s': State<T>)
    requires StrictWeak(less) && Safe(cfg, less, s) && s.status == Running
    requires cfg.maxMessages > 0 ==> s.emitted + |s.buf| < cfg.maxMessages
    requires s.last.Some? ==> !less(m, s.last.value)
    requires Accept(cfg, less, s, m, Sent(true), s')
    ensures Safe(cfg, less, s') && s'.status == Running && s'.idle == s.idle && s'.dropped == s.dropped
    ensures s'.arrived == s.arrived + [m]
    ensures |s'.buf| == if |s.buf| < BufferSize(cfg) then |s.buf| + 1 else BufferSize(cfg)
  {
    PushingIsReady(cfg, less, s, m);
    if |Pushing(s, m).buf| > BufferSize(cfg) {
      CleanEmit(cfg, less, Pushing(s, m), s');
    }
  }

  lemma CleanTake<T(!new)>(cfg: Config, less: (T, T) -> bool, ms: seq<T>, s: State<T>, s': State<T>)
    requires StrictWeak(less) && CleanInv(cfg, less, ms, s) && s.status == Running
    requires |s.arrived| < Intake(cfg, |ms|)
    requires Next(cfg, less, s, CleanTurn(ms, s), s')
    ensures CleanInv(cfg, less, ms, s')
    ensures s'.status == Running ==> |s'.arrived| == |s.arrived| + 1 && |s'.buf| <= |s.buf| + 1 && s'.idle == s.idle
  {
    var k, m := |s.arrived|, ms[|s.arrived|];
    CleanCount(cfg, less, ms, s);
    FrontierCheckIsExact(cfg, less, ms, s);
    assert Accept(cfg, less, s, m, Sent(true), s');
    if s.last.Some? && less(m, s.last.value) {
      assert s' == s.(status := Failed(BehindFrontier));
    } else {
      CleanAccept(cfg, less, s, m, s');
      DisorderExtends(less, ms, k, BufferSize(cfg));
    }
  }

  lemma CleanEmitStep<T(!new)>(cfg: Config, less: (T, T) -> bool, ms: seq<T>, s: State<T>, s': State<T>)
    requires CleanInv(cfg, less, ms, s.(idle := 0)) && s.status == Running
    requires |s.arrived| == Intake(cfg, |ms|) && |s.buf| > 0 && EmitStep(less, s, Sent(true), s')
    ensures CleanInv(cfg, less, ms, s') && s'.status == Running
    ensures s'.arrived == s.arrived && s'.idle == s.idle && |s'.buf| < |s.buf|
  {
    assert ReadyToEmit(cfg, less, s);
    CleanEmit(cfg, less, s, s');
  }

  lemma CleanDrain<T(!new)>(cfg: Config, less: (T, T) -> bool, ms: seq<T>, s: State<T>, s': State<T>)
    requires CleanInv(cfg, less, ms, s) && s.status == Running
    requires |s.arrived| == Intake(cfg, |ms|)
    requires Next(cfg, less, s, CleanTurn(ms, s), s')
    ensures CleanInv(cfg, less, ms, s')
    ensures s'.status == Running ==> s'.arrived == s.arrived && s'.idle >= s.idle &&
                                     (|s'.buf| < |s.buf| || (s'.buf == s.buf && s.idle < s'.idle < cfg.idleTimeoutLimit))
  {
    CleanCount(cfg, less, ms, s);
    assert CleanInv(cfg, less, ms, s.(idle := 0));
    if cfg.maxMessages > 0 && s.emitted >= cfg.maxMessages {
    } else if cfg.maxMessages > 0 && s.emitted + |s.buf| >= cfg.maxMessages {
      CleanEmitStep(cfg, less, ms, s, s');
    } else if |s.buf| > 0 {
      assert EmitStep(less, s.(idle := s.idle + 1), Sent(true), s');
      CleanEmitStep(cfg, less, ms, s.(idle := s.idle + 1), s');
    }
  }

  /** What is left to do in a clean run; it shrinks with every turn that does not end the run. */
  function Remaining<T>(cfg: Config, ms: seq<T>, s: State<T>): int {
    2 * (Intake(cfg, |ms|) - |s.arrived|) + |s.buf| +
    (if s.idle < cfg.idleTimeoutLimit then cfg.idleTimeoutLimit - s.idle else 0)
  }

  lemma CleanStep<T(!new)>(cfg: Config, less: (T, T) -> bool, ms: seq<T>, s: State<T>, s': State<T>)
    requires StrictWeak(less) && CleanInv(cfg, less, ms, s) && s.status == Running
    requires Next(cfg, less, s, CleanTurn(ms, s), s')
    ensures CleanInv(cfg, less, ms, s')
    ensures s'.status == Running ==> Remaining(cfg, ms, s') < Remaining(cfg, ms, s)
  {
    if |s.arrived| < Intake(cfg, |ms|) {
      CleanTake(cfg, less, ms, s, s');
    } else {
      CleanDrain(cfg, less, ms, s, s');
    }
  }

  lemma {:induction false} CleanRunInv<T(!new)>(
    cfg: Config, less: (T, T) -> bool, ms: seq<T>, run: seq<State<T>>, k: nat)
    requires StrictWeak(less) && IsCleanRun(cfg, less, ms, run) && k < |run|
    ensures CleanInv(cfg, less, ms, run[k])
    ensures run[k].status == Running ==> k + Remaining(cfg, ms, run[k]) <= Remaining(cfg, ms, run[0])
  {
    if k > 0 {
      CleanRunInv(cfg, less, ms, run, k - 1);
      CleanStep(cfg, less, ms, run[k - 1], run[k]);
    }
  }

  /** The first message that more than `bound` earlier ones outrank. */
  ghost predicate FirstViolation<T>(less: (T, T) -> bool, ms: seq<T>, n: nat, bound: nat, k: nat)
    requires n <= |ms|
  {
    k < n && CountAfter(less, ms[..k], ms[k]) > bound && DisorderWithin(less, ms, k, bound)
  }

  /**
   * The exact merge-buffer bound. A clean run over `ms` stops within a number of turns fixed beforehand. Once stopped it
   * succeeded if and only if every message it takes in is outranked by at most a buffer's worth of earlier ones; then it
   * emitted a sorted permutation of them. Otherwise it failed on the first message that breaks the bound, and nowhere else.
   */
  lemma ExactMergeBound<T(!new)>(cfg: Config, less: (T, T) -> bool, ms: seq<T>, run: seq<State<T>>)
    requires StrictWeak(less) && IsCleanRun(cfg, less, ms, run)
    ensures var n, bound, end := Intake(cfg, |ms|), BufferSize(cfg), run[|run| - 1];
            && (end.status == Running ==> |run| <= 2 * n + (if cfg.idleTimeoutLimit > 0 then cfg.idleTimeoutLimit else 0) + 1)
            && (end.status != Running ==>
                && (end.status == Finished <==> DisorderWithin(less, ms, n, bound))
                && (end.status == Finished ==> Sorted(less, end.out) && multiset(end.out) == multiset(ms[..n]))
                && (end.status != Finished ==> end.status == Failed(BehindFrontier) &&
                                               FirstViolation(less, ms, n, bound, |end.arrived|)))
  {
    CleanRunInv(cfg, less, ms, run, |run| - 1);
  }
}

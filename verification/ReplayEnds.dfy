/** When a replay takes, sends, skips and stops, told from the environment's answers and what has been sent so far. */
module ReplayEnds {
  import opened Options
  import opened Order
  import opened MergeHeap
  import opened ReplayMerge

  // ---------------------------------------------------------------- what a turn is to do

  /** Messages accepted and neither sent nor given up. */
  ghost function Unsent<T>(s: State<T>): int {
    |s.arrived| - |s.out| - |s.dropped|
  }

  ghost predicate CapReached<T>(cfg: Config, s: State<T>) {
    cfg.maxMessages > 0 && |s.out| >= cfg.maxMessages
  }

  /** No message is asked for any more: what is held already makes up the cap. */
  ghost predicate Draining<T>(cfg: Config, s: State<T>) {
    cfg.maxMessages > 0 && |s.out| + Unsent(s) >= cfg.maxMessages
  }

  ghost predicate Asks<T>(cfg: Config, s: State<T>, t: Turn<T>) {
    !t.cancelled && !Draining(cfg, s)
  }

  ghost predicate Gets<T>(cfg: Config, s: State<T>, t: Turn<T>, kind: Kind) {
    Asks(cfg, s, t) && t.fetch.Delivered? && t.fetch.kind == kind
  }

  ghost predicate Behind<T>(less: (T, T) -> bool, s: State<T>, m: T) {
    s.out != [] && less(m, s.out[|s.out| - 1])
  }

  ghost predicate Takes<T>(cfg: Config, less: (T, T) -> bool, s: State<T>, t: Turn<T>) {
    Gets(cfg, s, t, InWindow) && !Behind(less, s, t.fetch.m)
  }

  ghost predicate Skips<T>(cfg: Config, s: State<T>, t: Turn<T>) {
    Gets(cfg, s, t, OutsideWindow) || (Gets(cfg, s, t, Undecodable) && cfg.skipUndecodable)
  }

  ghost predicate Quiets<T>(cfg: Config, s: State<T>, t: Turn<T>) {
    Asks(cfg, s, t) && t.fetch.TimedOut?
  }

  /** A message leaves the buffer: to make up the cap, because the buffer is over its size, or because nothing came. */
  ghost predicate Sends<T>(cfg: Config, less: (T, T) -> bool, s: State<T>, t: Turn<T>) {
    || (!t.cancelled && Draining(cfg, s) && !CapReached(cfg, s))
    || (Takes(cfg, less, s, t) && Unsent(s) >= BufferSize(cfg))
    || (Quiets(cfg, s, t) && Unsent(s) > 0)
  }

  /** Nothing came, nothing is held, and with this it has been quiet for long enough to ask what is pending. */
  ghost predicate Inquires<T>(cfg: Config, s: State<T>, t: Turn<T>, quiet: nat) {
    Quiets(cfg, s, t) && Unsent(s) == 0 && quiet + 1 >= cfg.idleTimeoutLimit
  }

  /** How a turn ends, after `quiet` timeouts since the last delivery: every way to stop on its own cause and no other. */
  ghost predicate EndsRightly<T>(cfg: Config, less: (T, T) -> bool, s: State<T>, t: Turn<T>, quiet: nat, end: Status) {
    && (end == Finished <==>
        || t.cancelled || CapReached(cfg, s) || (Asks(cfg, s, t) && t.fetch.FetchCancelled?)
        || (Inquires(cfg, s, t, quiet) && t.pending == PendingCount(0)))
    && (end == Failed(PendingFailed) <==> Inquires(cfg, s, t, quiet) && t.pending == PendingUnknown)
    && (end == Failed(FetchFailed) <==> Asks(cfg, s, t) && t.fetch.FetchBroken?)
    && (end == Failed(DecodeFailed) <==> Gets(cfg, s, t, Undecodable) && !cfg.skipUndecodable)
    && (end == Failed(BehindFrontier) <==> Gets(cfg, s, t, InWindow) && Behind(less, s, t.fetch.m))
    && (end == Failed(AckFailed) <==>
        (Skips(cfg, s, t) && !t.skipAcked) || (Sends(cfg, less, s, t) && t.delivery == Sent(false)))
    && end != Failed(OrderGuard)
  }

  /** What a turn accepts, puts out and gives up. */
  ghost predicate MovesRightly<T>(cfg: Config, less: (T, T) -> bool, s: State<T>, t: Turn<T>, s': State<T>) {
    && s'.arrived == s.arrived + (if Takes(cfg, less, s, t) then [t.fetch.m] else [])
    && s.out <= s'.out && |s'.out| == |s.out| + (if Sends(cfg, less, s, t) && t.delivery.Sent? then 1 else 0)
    && |s'.dropped| == |s.dropped| + (if Sends(cfg, less, s, t) && t.delivery.SendCancelled? then 1 else 0)
    && s'.log == s.log + (if Skips(cfg, s, t) then Acked(Skip(t.fetch.m), t.skipAcked)
                          else if |s'.out| > |s.out| then Acked(Emit(s'.out[|s.out|]), t.delivery == Sent(true))
                          else [])
  }

  function Acked<T>(e: Effect<T>, acked: bool): seq<Effect<T>> {
    if acked then [e, Ack(e.m)] else [e]
  }

  // ---------------------------------------------------------------- every turn does that

  lemma UnsentIsBuffered<T>(s: State<T>)
    requires Conserved(s)
    ensures Unsent(s) == |s.buf|
  {
    assert |multiset(s.arrived)| == |s.arrived| && |multiset(s.out)| == |s.out|;
  }

  /** What one emission does, whichever minimal message it hands over. */
  ghost predicate Emitted<T>(s: State<T>, d: Delivery, s': State<T>) {
    && s'.arrived == s.arrived && s'.idle == s.idle && s.out <= s'.out
    && |s'.out| == |s.out| + (if d.Sent? then 1 else 0) && |s'.dropped| == |s.dropped| + (if d.Sent? then 0 else 1)
    && s'.status == (if d == Sent(false) then Failed(AckFailed) else s.status)
    && s'.log == s.log + (if d.Sent? then Acked(Emit(s'.out[|s.out|]), d == Sent(true)) else [])
  }

  lemma EmitEmits<T(!new)>(cfg: Config, less: (T, T) -> bool, s: State<T>, d: Delivery, s': State<T>)
    requires ReadyToEmit(cfg, less, s) && |s.buf| > 0 && EmitStep(less, s, d, s')
    ensures Emitted(s, d, s')
  {
    var x :| Emits(less, s, d, s', x);
    GuardPasses(less, s, x);
    PoppedIsEmitted(less, s, d, x, s');
  }

  lemma GuardPasses<T>(less: (T, T) -> bool, s: State<T>, x: T)
    requires s.last == LastOf(s.out) && FrontierHolds(less, s.out, s.buf) && x in s.buf
    ensures s.last.Some? ==> !less(x, s.last.value)
  {
  }

  lemma PoppedIsEmitted<T>(less: (T, T) -> bool, s: State<T>, d: Delivery, x: T, s': State<T>)
    requires s.status == Running && (s.last.Some? ==> !less(x, s.last.value)) && s' == EmitPopped(less, s, d, x)
    ensures Emitted(s, d, s')
  {
  }

  ghost predicate TurnsRightly<T>(cfg: Config, less: (T, T) -> bool, s: State<T>, t: Turn<T>, s': State<T>) {
    && EndsRightly(cfg, less, s, t, s.idle, s'.status) && MovesRightly(cfg, less, s, t, s')
    && s'.idle == if Quiets(cfg, s, t) then s.idle + 1 else if Asks(cfg, s, t) && t.fetch.Delivered? then 0 else s.idle
  }

  lemma TakenAndSent<T>(cfg: Config, less: (T, T) -> bool, s: State<T>, t: Turn<T>, p: State<T>, s': State<T>)
    requires s.status == Running && Takes(cfg, less, s, t) && Unsent(s) >= BufferSize(cfg)
    requires p == Pushing(s.(idle := 0), t.fetch.m) && Emitted(p, t.delivery, s')
    ensures TurnsRightly(cfg, less, s, t, s')
  {
  }

  lemma TakenOnly<T>(cfg: Config, less: (T, T) -> bool, s: State<T>, t: Turn<T>, s': State<T>)
    requires s.status == Running && Takes(cfg, less, s, t) && 0 <= Unsent(s) < BufferSize(cfg)
    requires s' == Pushing(s.(idle := 0), t.fetch.m)
    ensures TurnsRightly(cfg, less, s, t, s')
  {
  }

  lemma TakenBehind<T>(cfg: Config, less: (T, T) -> bool, s: State<T>, t: Turn<T>, s': State<T>)
    requires s.status == Running && Gets(cfg, s, t, InWindow) && Behind(less, s, t.fetch.m) && Unsent(s) >= 0
    requires s' == s.(idle := 0, status := Failed(BehindFrontier))
    ensures TurnsRightly(cfg, less, s, t, s')
  {
  }

  lemma PushIsReady<T(!new)>(cfg: Config, less: (T, T) -> bool, s: State<T>, t: Turn<T>, p: State<T>)
    requires StrictWeak(less) && s.status == Running && Safe(cfg, less, s) && Takes(cfg, less, s, t)
    requires p == Pushing(s.(idle := 0), t.fetch.m)
    ensures ReadyToEmit(cfg, less, p) && |p.buf| == |s.buf| + 1 && |s.buf| == Unsent(s)
  {
    UnsentIsBuffered(s);
    PushingIsReady(cfg, less, s.(idle := 0), t.fetch.m);
  }

  lemma AcceptTurns<T(!new)>(cfg: Config, less: (T, T) -> bool, s: State<T>, t: Turn<T>, s': State<T>)
    requires StrictWeak(less) && s.status == Running && Safe(cfg, less, s) && Gets(cfg, s, t, InWindow)
    requires Accept(cfg, less, s.(idle := 0), t.fetch.m, t.delivery, s')
    ensures TurnsRightly(cfg, less, s, t, s')
  {
    if Behind(less, s, t.fetch.m) {
      UnsentIsBuffered(s);
      TakenBehind(cfg, less, s, t, s');
    } else {
      var p := Pushing(s.(idle := 0), t.fetch.m);
      PushIsReady(cfg, less, s, t, p);
      if |p.buf| > BufferSize(cfg) {
        EmitEmits(cfg, less, p, t.delivery, s');
        TakenAndSent(cfg, less, s, t, p, s');
      } else {
        TakenOnly(cfg, less, s, t, s');
      }
    }
  }

  lemma TimeOutTurns<T(!new)>(cfg: Config, less: (T, T) -> bool, s: State<T>, t: Turn<T>, s': State<T>)
    requires s.status == Running && Safe(cfg, less, s) && Quiets(cfg, s, t) && TimeOut(cfg, less, s, t, s')
    ensures TurnsRightly(cfg, less, s, t, s')
  {
    UnsentIsBuffered(s);
    if |s.buf| > 0 {
      EmitEmits(cfg, less, s.(idle := s.idle + 1), t.delivery, s');
    }
  }

  lemma DrainTurns<T(!new)>(cfg: Config, less: (T, T) -> bool, s: State<T>, t: Turn<T>, s': State<T>)
    requires s.status == Running && Safe(cfg, less, s) && !t.cancelled && Draining(cfg, s) && !CapReached(cfg, s)
    requires EmitStep(less, s, t.delivery, s')
    ensures TurnsRightly(cfg, less, s, t, s')
  {
    UnsentIsBuffered(s);
    EmitEmits(cfg, less, s, t.delivery, s');
  }

  lemma NextTurns<T(!new)>(cfg: Config, less: (T, T) -> bool, s: State<T>, t: Turn<T>, s': State<T>)
    requires StrictWeak(less) && s.status == Running && Safe(cfg, less, s) && Next(cfg, less, s, t, s')
    ensures TurnsRightly(cfg, less, s, t, s')
  {
    UnsentIsBuffered(s);
    if !t.cancelled && Draining(cfg, s) && !CapReached(cfg, s) {
      DrainTurns(cfg, less, s, t, s');
    } else if Quiets(cfg, s, t) {
      TimeOutTurns(cfg, less, s, t, s');
    } else if Gets(cfg, s, t, InWindow) {
      AcceptTurns(cfg, less, s, t, s');
    }
  }

  // ---------------------------------------------------------------- over whole runs

  /** Timeouts since the last delivery, up to turn `k`. */
  ghost function QuietBefore<T>(cfg: Config, turns: seq<Turn<T>>, run: seq<State<T>>, k: nat): nat
    requires k <= |turns| < |run|
  {
    if k == 0 then 0
    else if Quiets(cfg, run[k - 1], turns[k - 1]) then QuietBefore(cfg, turns, run, k - 1) + 1
    else if Asks(cfg, run[k - 1], turns[k - 1]) && turns[k - 1].fetch.Delivered? then 0
    else QuietBefore(cfg, turns, run, k - 1)
  }

  lemma IdleStep<T>(cfg: Config, less: (T, T) -> bool, turns: seq<Turn<T>>, run: seq<State<T>>, k: nat)
    requires k < |turns| < |run| && TurnsRightly(cfg, less, run[k], turns[k], run[k + 1])
    requires run[k].idle == QuietBefore(cfg, turns, run, k)
    ensures run[k + 1].idle == QuietBefore(cfg, turns, run, k + 1)
  {
  }

  /** Turn `k` of a run does what its answers call for, and ends as they say. */
  ghost predicate RightAt<T>(cfg: Config, less: (T, T) -> bool, turns: seq<Turn<T>>, run: seq<State<T>>, k: nat)
    requires k < |turns| < |run|
  {
    && EndsRightly(cfg, less, run[k], turns[k], QuietBefore(cfg, turns, run, k), run[k + 1].status)
    && MovesRightly(cfg, less, run[k], turns[k], run[k + 1])
  }

  ghost predicate AllRight<T>(cfg: Config, less: (T, T) -> bool, turns: seq<Turn<T>>, run: seq<State<T>>)
    requires |turns| < |run|
  {
    forall k :: 0 <= k < |turns| ==> RightAt(cfg, less, turns, run, k)
  }

  lemma TurnAt<T(!new)>(cfg: Config, less: (T, T) -> bool, turns: seq<Turn<T>>, run: seq<State<T>>, k: nat)
    requires StrictWeak(less) && IsRun(cfg, less, turns, run) && k < |turns|
    ensures TurnsRightly(cfg, less, run[k], turns[k], run[k + 1])
  {
    EveryRunIsSafe(cfg, less, turns, run, k);
    assert StepAt(cfg, less, turns, run, k);
    NextTurns(cfg, less, run[k], turns[k], run[k + 1]);
  }

  lemma IdleStepAt<T(!new)>(cfg: Config, less: (T, T) -> bool, turns: seq<Turn<T>>, run: seq<State<T>>, k: nat)
    requires StrictWeak(less) && IsRun(cfg, less, turns, run) && k < |turns| && run[k].idle == QuietBefore(cfg, turns, run, k)
    ensures run[k + 1].idle == QuietBefore(cfg, turns, run, k + 1)
  {
    TurnAt(cfg, less, turns, run, k);
    IdleStep(cfg, less, turns, run, k);
  }

  lemma {:induction false} IdleIsQuiet<T(!new)>(cfg: Config, less: (T, T) -> bool, turns: seq<Turn<T>>, run: seq<State<T>>,
                                                k: nat)
    requires StrictWeak(less) && IsRun(cfg, less, turns, run) && k <= |turns|
    ensures run[k].idle == QuietBefore(cfg, turns, run, k)
  {
    if k > 0 {
      IdleIsQuiet(cfg, less, turns, run, k - 1);
      IdleStepAt(cfg, less, turns, run, k - 1);
    }
  }

  /**
   * In every run every turn takes, sends, skips and stops exactly when the answers call for it. In particular it finishes
   * exactly if it was cancelled, the cap is reached, the fetch was cancelled, or nothing came with nothing left to send,
   * nothing pending, and as many timeouts in a row as the limit; and it fails for each reason exactly on that reason.
   */
  lemma EveryTurnIsRight<T(!new)>(cfg: Config, less: (T, T) -> bool, turns: seq<Turn<T>>, run: seq<State<T>>, k: nat)
    requires StrictWeak(less) && IsRun(cfg, less, turns, run) && k < |turns|
    ensures RightAt(cfg, less, turns, run, k)
  {
    IdleIsQuiet(cfg, less, turns, run, k);
    TurnAt(cfg, less, turns, run, k);
  }
}

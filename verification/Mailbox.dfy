/** Results of processed envelopes, handed from the workers to the handler that waits for one. */
module Mailbox {

  /** The text that processedEnvelopeKey builds. */
  datatype Key = Key(text: string)

  datatype Problem = NoProblem | Retryable(why: string) | Permanent(why: string)

  datatype Outcome = Outcome(id: int, problem: Problem)

  type Queues = map<Key, seq<Outcome>>

  function QueueOf(q: Queues, k: Key): seq<Outcome> {
    if k in q then q[k] else []
  }

  function Appended(q: Queues, k: Key, r: Outcome): Queues {
    q[k := QueueOf(q, k) + [r]]
  }

  /** What is left once the oldest result of a key is taken; a key without results is not kept. */
  function Popped(q: Queues, k: Key): Queues {
    if |QueueOf(q, k)| <= 1 then q - {k} else q[k := q[k][1..]]
  }

  /** The handler: not called, about to look for its result, waiting for a token after finding none, or returned. */
  datatype Handler = Idle | Looking(key: Key) | Blocked(key: Key) | Returned(key: Key, success: bool)

  /** `owing` counts the workers that have appended a result and have not yet tried to place a token. */
  datatype State = State(queues: Queues, token: bool, owing: nat, handler: Handler)

  const EMPTY := State(map[], false, 0, Idle)

  datatype Event =
    | Append(key: Key, result: Outcome)
    | Notify
    | Call(key: Key)
    | CallCanceled(key: Key)
    | Look
    | Wake
    | TimeOut
    | Leave

  predicate Enabled(s: State, e: Event) {
    match e
    case Append(_, _) => true
    case Notify => s.owing > 0
    case Call(_) => s.handler.Idle?
    case CallCanceled(_) => s.handler.Idle?
    case Look => s.handler.Looking?
    case Wake => s.handler.Blocked? && s.token
    case TimeOut => s.handler.Blocked?
    case Leave => s.handler.Returned?
  }

  /** What the handler makes of a result: a problem that retrying cannot cure counts as done. */
  predicate Accepts(r: Outcome) {
    !r.problem.Retryable?
  }

  /** There is no problem, or none that retrying could cure. */
  ghost predicate Final(p: Problem) {
    p == NoProblem || exists why :: p == Permanent(why)
  }

  lemma AcceptsFinal(r: Outcome)
    ensures Accepts(r) <==> Final(r.problem)
  {
    if r.problem.Permanent? {
      assert r.problem == Permanent(r.problem.why);
    }
  }

  function Step(s: State, e: Event): State
    requires Enabled(s, e)
  {
    match e
    case Append(k, r) => s.(queues := Appended(s.queues, k, r), owing := s.owing + 1)
    case Notify => s.(token := true, owing := s.owing - 1)
    case Call(k) => s.(handler := Looking(k))
    case CallCanceled(k) => s.(handler := Returned(k, false))
    case Look =>
      var k := s.handler.key;
      if QueueOf(s.queues, k) == [] then s.(handler := Blocked(k))
      else s.(queues := Popped(s.queues, k), handler := Returned(k, Accepts(QueueOf(s.queues, k)[0])))
    case Wake => s.(token := false, handler := Looking(s.handler.key))
    case TimeOut => s.(handler := Returned(s.handler.key, false))
    case Leave => s.(handler := Idle)
  }

  ghost predicate Steps(s: State, e: Event, t: State) {
    Enabled(s, e) && t == Step(s, e)
  }

  ghost predicate StepAt(log: seq<Event>, run: seq<State>, i: nat)
    requires i < |log| && |run| == |log| + 1
  {
    Steps(run[i], log[i], run[i + 1])
  }

  ghost predicate IsRun(log: seq<Event>, run: seq<State>) {
    && |run| == |log| + 1 && run[0] == EMPTY
    && forall i :: 0 <= i < |log| ==> StepAt(log, run, i)
  }

  // ---------------------------------------------------------------- no lost wake-up

  /** A blocked handler whose result is there has a token waiting for it, or a worker about to place one. */
  ghost predicate WillWake(s: State) {
    && (s.handler.Blocked? && QueueOf(s.queues, s.handler.key) != [] ==> s.token || s.owing > 0)
    && (forall k :: k in s.queues ==> s.queues[k] != [])
  }

  lemma StepKeepsWillWake(s: State, e: Event)
    requires WillWake(s) && Enabled(s, e)
    ensures WillWake(Step(s, e))
  {
  }

  lemma {:induction false} NoLostWakeUp(log: seq<Event>, run: seq<State>, n: nat)
    requires IsRun(log, run) && n < |run|
    ensures WillWake(run[n])
  {
    if n > 0 {
      NoLostWakeUp(log, run, n - 1);
      assert StepAt(log, run, n - 1);
      StepKeepsWillWake(run[n - 1], log[n - 1]);
    }
  }

  /** So a blocked handler whose result is there gets it, with no further append: through a token, a wake and a look. */
  lemma BlockedHandlerCanFinish(s: State)
    requires WillWake(s) && s.handler.Blocked? && QueueOf(s.queues, s.handler.key) != []
    ensures !s.token ==> Enabled(s, Notify)
    ensures var t := if s.token then s else Step(s, Notify);
            && Enabled(t, Wake) && Enabled(Step(t, Wake), Look)
            && Step(Step(t, Wake), Look).handler == Returned(s.handler.key, Final(QueueOf(s.queues, s.handler.key)[0].problem))
  {
    AcceptsFinal(QueueOf(s.queues, s.handler.key)[0]);
  }

  // ---------------------------------------------------------------- first in, first out

  /** What an event appends under a key. */
  function Pushes(e: Event, k: Key): seq<Outcome> {
    if e.Append? && e.key == k then [e.result] else []
  }

  /** What an event takes from under a key. */
  function Takes(s: State, e: Event, k: Key): seq<Outcome> {
    if e.Look? && s.handler == Looking(k) && QueueOf(s.queues, k) != [] then [QueueOf(s.queues, k)[0]] else []
  }

  /** The results appended under a key, in order. */
  function PushedTo(log: seq<Event>, k: Key): seq<Outcome> {
    if log == [] then [] else PushedTo(log[..|log| - 1], k) + Pushes(log[|log| - 1], k)
  }

  /** The results the handler took under a key, in order. */
  function TakenFrom(log: seq<Event>, run: seq<State>, k: Key): seq<Outcome>
    requires |run| == |log| + 1
  {
    if log == [] then []
    else TakenFrom(log[..|log| - 1], run[..|log|], k) + Takes(run[|log| - 1], log[|log| - 1], k)
  }

  lemma StepIsFifo(s: State, e: Event, k: Key)
    requires Enabled(s, e)
    ensures QueueOf(s.queues, k) + Pushes(e, k) == Takes(s, e, k) + QueueOf(Step(s, e).queues, k)
  {
  }

  lemma RunPrefix(log: seq<Event>, run: seq<State>, n: nat)
    requires IsRun(log, run) && n <= |log|
    ensures IsRun(log[..n], run[..n + 1])
  {
    var log', run' := log[..n], run[..n + 1];
    forall i | 0 <= i < n ensures StepAt(log', run', i) {
      assert StepAt(log, run, i);
    }
  }

  lemma Regroup(a: seq<Outcome>, b: seq<Outcome>, c: seq<Outcome>, d: seq<Outcome>, e: seq<Outcome>)
    requires b + c == d + e
    ensures (a + b) + c == (a + d) + e
  {
    assert (a + b) + c == a + (b + c);
    assert (a + d) + e == a + (d + e);
  }

  /** What has been taken under a key and what is still queued is what was appended, in order: nothing lost or doubled. */
  lemma {:induction false} FirstInFirstOut(log: seq<Event>, run: seq<State>, k: Key)
    requires IsRun(log, run)
    ensures PushedTo(log, k) == TakenFrom(log, run, k) + QueueOf(run[|log|].queues, k)
  {
    if log != [] {
      var n := |log| - 1;
      RunPrefix(log, run, n);
      FirstInFirstOut(log[..n], run[..n + 1], k);
      assert StepAt(log, run, n);
      StepIsFifo(run[n], log[n], k);
      Regroup(TakenFrom(log[..n], run[..n + 1], k), QueueOf(run[n].queues, k), Pushes(log[n], k),
              Takes(run[n], log[n], k), QueueOf(run[n + 1].queues, k));
    }
  }

  /**
   * The handler returns success exactly when the next result appended under its key, in order, is one without a problem
   * or with a problem that retrying cannot cure; in particular never on a timeout or a cancellation.
   */
  lemma SuccessMeansResult(log: seq<Event>, run: seq<State>, n: nat, k: Key)
    requires IsRun(log, run) && n < |log| && !run[n].handler.Returned?
    requires run[n + 1].handler.Returned? && run[n + 1].handler.key == k
    ensures var taken := |TakenFrom(log[..n], run[..n + 1], k)|;
            run[n + 1].handler.success <==>
            log[n].Look? && taken < |PushedTo(log[..n], k)| && Final(PushedTo(log[..n], k)[taken].problem)
  {
    RunPrefix(log, run, n);
    FirstInFirstOut(log[..n], run[..n + 1], k);
    assert StepAt(log, run, n);
    if log[n].Look? {
      AcceptsFinal(QueueOf(run[n].queues, k)[0]);
    }
  }

  // ---------------------------------------------------------------- the object

  /** The results filed under a key, in order. */
  ghost function Under(history: seq<(Key, Outcome)>, k: Key): seq<Outcome> {
    if history == [] then []
    else
      var (key, r) := history[|history| - 1];
      Under(history[..|history| - 1], k) + (if key == k then [r] else [])
  }

  lemma UnderOneMore(history: seq<(Key, Outcome)>, key: Key, r: Outcome, k: Key)
    ensures Under(history + [(key, r)], k) == Under(history, k) + (if key == k then [r] else [])
  {
    assert (history + [(key, r)])[..|history|] == history;
  }

  /** Under a key, what was popped and what is queued is what was pushed, in order; an empty queue is not kept. */
  ghost predicate Filed(pushed: seq<(Key, Outcome)>, popped: seq<(Key, Outcome)>, q: Queues, k: Key) {
    Under(pushed, k) == Under(popped, k) + QueueOf(q, k) && (k in q ==> q[k] != [])
  }

  lemma PushFiles(pushed: seq<(Key, Outcome)>, popped: seq<(Key, Outcome)>, q: Queues, k: Key, r: Outcome, x: Key)
    requires Filed(pushed, popped, q, x)
    ensures Filed(pushed + [(k, r)], popped, Appended(q, k, r), x)
  {
    UnderOneMore(pushed, k, r, x);
    assert (Under(popped, x) + QueueOf(q, x)) + [r] == Under(popped, x) + (QueueOf(q, x) + [r]);
  }

  lemma FirstMovesOver(a: seq<Outcome>, q: seq<Outcome>)
    requires q != []
    ensures a + q == (a + [q[0]]) + q[1..]
  {
    assert q == [q[0]] + q[1..];
  }

  lemma PoppedQueues(q: Queues, k: Key, x: Key)
    requires k in q && q[k] != []
    ensures QueueOf(Popped(q, k), x) == (if x == k then q[k][1..] else QueueOf(q, x))
    ensures x in Popped(q, k) && (x in q ==> q[x] != []) ==> Popped(q, k)[x] != []
  {
  }

  lemma PopFiles(pushed: seq<(Key, Outcome)>, popped: seq<(Key, Outcome)>, q: Queues, k: Key, x: Key)
    requires Filed(pushed, popped, q, x) && k in q && q[k] != []
    ensures Filed(pushed, popped + [(k, q[k][0])], Popped(q, k), x)
  {
    UnderOneMore(popped, k, q[k][0], x);
    PoppedQueues(q, k, x);
    FirstMovesOver(Under(popped, k), q[k]);
  }

  lemma NoneIsLeft(pushed: seq<(Key, Outcome)>, popped: seq<(Key, Outcome)>, q: Queues, k: Key)
    requires Filed(pushed, popped, q, k)
    ensures k !in q || |q[k]| == 0 <==> |Under(popped, k)| == |Under(pushed, k)|
    ensures |Under(popped, k)| <= |Under(pushed, k)|
  {
  }

  lemma FirstIsNext(pushed: seq<(Key, Outcome)>, popped: seq<(Key, Outcome)>, q: Queues, k: Key)
    requires Filed(pushed, popped, q, k) && k in q && q[k] != []
    ensures |Under(popped, k)| < |Under(pushed, k)| && Under(pushed, k)[|Under(popped, k)|] == q[k][0]
  {
  }

  class ResultMailbox {
    var byKey: Queues
    var token: bool

    /** Everything pushed and everything popped so far. */
    ghost var pushed: seq<(Key, Outcome)>
    ghost var popped: seq<(Key, Outcome)>

    ghost predicate Valid()
      reads this
    {
      forall k :: Filed(pushed, popped, byKey, k)
    }

    constructor ()
      ensures Valid() && pushed == [] && popped == [] && !token
    {
      byKey, token, pushed, popped := map[], false, [], [];
    }

    /** push: the locked half appends, the other half places a token unless there is one */
    method Push(k: Key, r: Outcome)
      requires Valid()
      modifies this
      ensures Valid() && pushed == old(pushed) + [(k, r)] && popped == old(popped) && token
    {
      var queue := QueueOf(byKey, k);
      byKey, pushed := byKey[k := queue + [r]], pushed + [(k, r)];
      forall x ensures Filed(pushed, popped, byKey, x) {
        PushFiles(old(pushed), popped, old(byKey), k, r, x);
      }
      if !token {
        token := true;
      }
    }

    method TakeFirst(k: Key)
      requires k in byKey && byKey[k] != []
      modifies `byKey
      ensures byKey == Popped(old(byKey), k)
    {
      var queue := byKey[k];
      if |queue| == 1 {
        byKey := byKey - {k};
      } else {
        byKey := byKey[k := queue[1..]];
      }
    }

    /** pop: there is a result exactly when more were pushed than popped under the key, and it is the next in that order */
    method Pop(k: Key) returns (r: Outcome, ok: bool)
      requires Valid()
      modifies `byKey, `popped
      ensures Valid() && (ok <==> |Under(old(popped), k)| < |Under(pushed, k)|)
      ensures popped == if ok then old(popped) + [(k, r)] else old(popped)
      ensures ok ==> r == Under(pushed, k)[|Under(old(popped), k)|]
    {
      NoneIsLeft(pushed, popped, byKey, k);
      if k !in byKey || |byKey[k]| == 0 {
        return Outcome(0, NoProblem), false;
      }
      var queue := byKey[k];
      TakeFirst(k);
      popped := popped + [(k, queue[0])];
      forall x ensures Filed(pushed, popped, byKey, x) {
        PopFiles(pushed, old(popped), old(byKey), k, x);
      }
      FirstIsNext(pushed, old(popped), old(byKey), k);
      return queue[0], true;
    }
  }
}

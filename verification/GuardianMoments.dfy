/** How many children retries can start at one moment: exactly as many as have a retry due. */
module GuardianMoments {
  import opened Supervisor
  import opened GuardianSpec
  import opened GuardianRuns

  /** A retry of the current generation can be handled without time passing: it is queued, or its timer is due. */
  ghost predicate DueRetry(w: World, s: Subsystem) {
    var r := Retry(s, GenOf(w.g, s));
    r in w.queue || exists id :: DueTimer(w, id, r)
  }

  ghost predicate DueTimer(w: World, id: nat, r: Retry) {
    id in w.armed && w.armed[id].retry == r && w.armed[id].due <= w.now
  }

  ghost function DueSubs(w: World): set<Subsystem> {
    (set r | r in w.queue && IsCurrent(w.g, r) :: r.sub) +
    (set id | id in w.armed && w.armed[id].due <= w.now && IsCurrent(w.g, w.armed[id].retry) :: w.armed[id].retry.sub)
  }

  lemma DueSubsMean(w: World, s: Subsystem)
    ensures s in DueSubs(w) <==> DueRetry(w, s)
  {
    var r := Retry(s, GenOf(w.g, s));
    if DueRetry(w, s) && r !in w.queue {
      var id :| DueTimer(w, id, r);
      assert w.armed[id].retry.sub in DueSubs(w);
    }
    if s in DueSubs(w) && r !in w.queue {
      var id :| id in w.armed && w.armed[id].due <= w.now && IsCurrent(w.g, w.armed[id].retry) && w.armed[id].retry.sub == s;
      assert DueTimer(w, id, r);
    }
  }

  /** An event that takes no time and is no report, start or stop: timers fire, retries are handled, the rest is read-only. */
  predicate AtOnce(w: World, e: Event) {
    e.Fire? || e.RetryDue? || e.Heartbeat? || e.Snapshot? || e == Advance(w.now)
  }

  ghost predicate OnceAt(c: Setup, es: seq<Event>, ws: seq<World>, i: nat)
    requires i < |es| && |ws| == |es| + 1
  {
    AtOnce(ws[i], es[i]) && Steps(c, ws[i], es[i], ws[i + 1])
  }

  /** What can follow a world at the same moment. */
  ghost predicate Moment(c: Setup, w: World, es: seq<Event>, ws: seq<World>) {
    && |ws| == |es| + 1 && ws[0] == w
    && forall i :: 0 <= i < |es| ==> OnceAt(c, es, ws, i)
  }

  // ---------------------------------------------------------------- no others start

  lemma FireDues(w: World, id: nat, v: World, s: Subsystem)
    requires id in w.armed && w.armed[id].due <= w.now
    requires v == w.(armed := w.armed - {id}, queue := w.queue + multiset{w.armed[id].retry})
    ensures DueRetry(v, s) <==> DueRetry(w, s)
  {
    var r := Retry(s, GenOf(w.g, s));
    if DueRetry(w, s) && r !in v.queue {
      var j :| DueTimer(w, j, r);
      assert DueTimer(v, j, r);
    }
    if DueRetry(v, s) && r !in w.queue {
      if r in v.queue {
        assert DueTimer(w, id, r);
      } else {
        var j :| DueTimer(v, j, r);
        assert DueTimer(w, j, r);
      }
    }
  }

  lemma HandleDues(w: World, r: Retry, ok: bool, v: World, s: Subsystem)
    requires r in w.queue && v == HandleRetry(w, r, ok)
    ensures DueRetry(v, s) ==> DueRetry(w, s)
    ensures s in v.g.children && s !in w.g.children ==> DueRetry(w, s)
  {
    var q := Retry(s, GenOf(w.g, s));
    if DueRetry(v, s) && q !in v.queue {
      var j :| DueTimer(v, j, q);
      assert DueTimer(w, j, q);
    }
  }

  lemma SameDues(w: World, v: World, s: Subsystem)
    requires v.queue == w.queue && v.armed == w.armed && v.now == w.now && v.g.gens == w.g.gens
    ensures DueRetry(v, s) <==> DueRetry(w, s)
  {
    var r := Retry(s, GenOf(w.g, s));
    if DueRetry(v, s) && r !in w.queue {
      var j :| DueTimer(v, j, r);
      assert DueTimer(w, j, r);
    }
    if DueRetry(w, s) && r !in w.queue {
      var j :| DueTimer(w, j, r);
      assert DueTimer(v, j, r);
    }
  }

  /** Within a moment no retry falls due that was not, and only a subsystem with a due retry gets a child. */
  lemma OnlyDueStart(c: Setup, w: World, e: Event, v: World, s: Subsystem)
    requires AtOnce(w, e) && Steps(c, w, e, v)
    ensures DueRetry(v, s) ==> DueRetry(w, s)
    ensures s in v.g.children && s !in w.g.children ==> DueRetry(w, s)
    ensures s in w.g.children ==> s in v.g.children
  {
    match e
    case Fire(id) => FireDues(w, id, v, s);
    case RetryDue(r, ok) => HandleDues(w, r, ok, v, s);
    case _ => SameDues(w, v, s);
  }

  lemma {:induction false} OnlyDueStartInMoment(c: Setup, w: World, es: seq<Event>, ws: seq<World>, n: nat, s: Subsystem)
    requires Moment(c, w, es, ws) && n <= |es|
    ensures DueRetry(ws[n], s) ==> DueRetry(w, s)
    ensures s in ws[n].g.children && s !in w.g.children ==> DueRetry(w, s)
    ensures s in w.g.children ==> s in ws[n].g.children
  {
    if n > 0 {
      OnlyDueStartInMoment(c, w, es, ws, n - 1, s);
      assert OnceAt(c, es, ws, n - 1);
      OnlyDueStart(c, ws[n - 1], es[n - 1], ws[n], s);
    }
  }

  // ---------------------------------------------------------------- all of them can

  lemma Single(c: Setup, w: World, e: Event, v: World)
    requires AtOnce(w, e) && Steps(c, w, e, v)
    ensures Moment(c, w, [e], [w, v])
  {
    assert OnceAt(c, [e], [w, v], 0);
  }

  lemma Join(c: Setup, w: World, es: seq<Event>, ws: seq<World>, es': seq<Event>, ws': seq<World>)
    requires Moment(c, w, es, ws) && Moment(c, ws[|es|], es', ws')
    ensures Moment(c, w, es + es', ws[..|es|] + ws')
  {
    forall i | 0 <= i < |es + es'| ensures OnceAt(c, es + es', ws[..|es|] + ws', i) {
      if i < |es| {
        assert OnceAt(c, es, ws, i);
      } else {
        assert OnceAt(c, es', ws', i - |es|);
      }
    }
  }

  ghost predicate Accepting(w: World) {
    w.phase == Up && !w.g.shuttingDown
  }

  lemma FireKeepsDueSubs(c: Setup, w: World, id: nat, v: World)
    requires Enabled(w, Fire(id)) && v == Step(c, w, Fire(id))
    ensures DueSubs(v) == DueSubs(w)
  {
    forall s ensures s in DueSubs(v) <==> s in DueSubs(w) {
      FireDues(w, id, v, s);
      DueSubsMean(w, s);
      DueSubsMean(v, s);
    }
  }

  lemma OthersStayDue(w: World, r: Retry, v: World, t: Subsystem)
    requires r in w.queue && v == HandleRetry(w, r, true) && t != r.sub && DueRetry(w, t)
    ensures DueRetry(v, t)
  {
    var q := Retry(t, GenOf(w.g, t));
    if q in w.queue {
      assert q in v.queue;
    } else {
      var j :| DueTimer(w, j, q);
      assert DueTimer(v, j, q);
    }
  }

  lemma DueIsPending(w: World, s: Subsystem)
    requires RetriesOk(w) && DueRetry(w, s)
    ensures HasRetry(w, s) && s !in w.g.children
  {
    var r := Retry(s, GenOf(w.g, s));
    if r !in w.queue {
      var j :| DueTimer(w, j, r);
    }
    PendingIsUnique(w, s);
  }

  lemma DueAfterRestart(w: World, r: Retry, v: World, s: Subsystem)
    requires RetriesOk(v) && r in w.queue && v == HandleRetry(w, r, true) && r.sub in v.g.children
    ensures s in DueSubs(v) <==> s in DueSubs(w) && s != r.sub
  {
    DueSubsMean(w, s);
    DueSubsMean(v, s);
    HandleDues(w, r, true, v, s);
    if s == r.sub && DueRetry(v, s) {
      DueIsPending(v, s);
    } else if s != r.sub && DueRetry(w, s) {
      OthersStayDue(w, r, v, s);
    }
  }

  lemma DueSubsAfterRestart(w: World, r: Retry, v: World)
    requires RetriesOk(v) && r in w.queue && v == HandleRetry(w, r, true) && r.sub in v.g.children
    ensures DueSubs(v) == DueSubs(w) - {r.sub}
  {
    forall s ensures s in DueSubs(v) <==> s in DueSubs(w) && s != r.sub {
      DueAfterRestart(w, r, v, s);
    }
  }

  /** A queued current retry is accepted: its subsystem has its child and is due no more, the others still are. */
  lemma RestartsOne(c: Setup, w: World, r: Retry, v: World)
    requires ValidSetup(c) && Inv(c, w) && Accepting(w) && r in w.queue && IsCurrent(w.g, r)
    requires v == Step(c, w, RetryDue(r, true))
    ensures Inv(c, v) && Accepting(v) && v.g.children.Keys == w.g.children.Keys + {r.sub}
    ensures DueSubs(v) == DueSubs(w) - {r.sub}
  {
    StepKeepsInv(c, w, RetryDue(r, true));
    AcceptedRetryStarts(w, r, true);
    DueSubsAfterRestart(w, r, v);
  }

  /** If the retry is still on its timer, the timer can fire at once. */
  lemma CanBeQueued(c: Setup, w: World, s: Subsystem) returns (es: seq<Event>, ws: seq<World>)
    requires ValidSetup(c) && Inv(c, w) && Accepting(w) && DueRetry(w, s)
    ensures Moment(c, w, es, ws)
    ensures var v := ws[|es|];
            Inv(c, v) && Accepting(v) && v.g == w.g && Retry(s, GenOf(v.g, s)) in v.queue && DueSubs(v) == DueSubs(w)
  {
    var r := Retry(s, GenOf(w.g, s));
    if r in w.queue {
      return [], [w];
    }
    var id :| DueTimer(w, id, r);
    var v := Step(c, w, Fire(id));
    StepKeepsInv(c, w, Fire(id));
    FireKeepsDueSubs(c, w, id, v);
    Single(c, w, Fire(id), v);
    return [Fire(id)], [w, v];
  }

  lemma OneCanStart(c: Setup, w: World, s: Subsystem) returns (es: seq<Event>, ws: seq<World>)
    requires ValidSetup(c) && Inv(c, w) && Accepting(w) && DueRetry(w, s)
    ensures Moment(c, w, es, ws)
    ensures var v := ws[|es|];
            Inv(c, v) && Accepting(v) && v.g.children.Keys == w.g.children.Keys + {s} && DueSubs(v) == DueSubs(w) - {s}
  {
    es, ws := CanBeQueued(c, w, s);
    var x := ws[|es|];
    var e := RetryDue(Retry(s, GenOf(x.g, s)), true);
    var v := Step(c, x, e);
    RestartsOne(c, x, e.r, v);
    Single(c, x, e, v);
    Join(c, w, es, ws, [e], [x, v]);
    es, ws := es + [e], ws[..|es|] + [x, v];
  }

  /** Every due retry can be handled within the moment. */
  lemma {:induction false} AllDueCanStart(c: Setup, w: World) returns (es: seq<Event>, ws: seq<World>)
    requires ValidSetup(c) && Inv(c, w) && Accepting(w)
    ensures Moment(c, w, es, ws) && ws[|es|].g.children.Keys == w.g.children.Keys + DueSubs(w)
    decreases DueSubs(w)
  {
    if DueSubs(w) == {} {
      return [], [w];
    }
    var s :| s in DueSubs(w);
    DueSubsMean(w, s);
    es, ws := OneCanStart(c, w, s);
    var es', ws' := AllDueCanStart(c, ws[|es|]);
    Join(c, w, es, ws, es', ws');
    es, ws := es + es', ws[..|es|] + ws';
  }

  // ---------------------------------------------------------------- the exact number

  ghost function StartedIn(w: World, es: seq<Event>, ws: seq<World>): set<Subsystem>
    requires |ws| == |es| + 1
  {
    ws[|es|].g.children.Keys - w.g.children.Keys
  }

  /** Retries can start `n` children before time passes or another report comes in. */
  ghost predicate CanStartAtOnce(c: Setup, w: World, n: nat) {
    exists es, ws :: Moment(c, w, es, ws) && |StartedIn(w, es, ws)| >= n
  }

  lemma FewerInSubset(a: set<Subsystem>, b: set<Subsystem>)
    requires a <= b
    ensures |a| <= |b|
  {
    assert b == a + (b - a);
  }

  lemma StartedAreDue(c: Setup, w: World, es: seq<Event>, ws: seq<World>)
    requires Moment(c, w, es, ws)
    ensures StartedIn(w, es, ws) <= DueSubs(w) && |StartedIn(w, es, ws)| <= |DueSubs(w)|
    ensures w.g.children.Keys <= ws[|es|].g.children.Keys
  {
    forall s ensures s in StartedIn(w, es, ws) ==> s in DueSubs(w)
      ensures s in w.g.children ==> s in ws[|es|].g.children
    {
      OnlyDueStartInMoment(c, w, es, ws, |es|, s);
      DueSubsMean(w, s);
    }
    FewerInSubset(StartedIn(w, es, ws), DueSubs(w));
  }

  /**
   * The exact condition. In a guardian that is up, retries can start `n` children at one moment if and only if `n`
   * subsystems have a retry due; with one more than the global limit for `n`, this says when the limit is exceeded. The
   * subsystems they can start are exactly those.
   */
  lemma StartsAtOnceExactly(c: Setup, w: World, n: nat)
    requires ValidSetup(c) && Inv(c, w) && Accepting(w)
    ensures CanStartAtOnce(c, w, n) <==> n <= |DueSubs(w)|
    ensures exists es, ws :: Moment(c, w, es, ws) && StartedIn(w, es, ws) == DueSubs(w)
  {
    var es, ws := AllDueCanStart(c, w);
    forall s | s in DueSubs(w) ensures s !in w.g.children {
      DueSubsMean(w, s);
      DueIsPending(w, s);
    }
    assert StartedIn(w, es, ws) == DueSubs(w);
    if CanStartAtOnce(c, w, n) {
      var es', ws' :| Moment(c, w, es', ws') && |StartedIn(w, es', ws')| >= n;
      StartedAreDue(c, w, es', ws');
    }
  }

  lemma MomentOfRun(c: Setup, events: seq<Event>, run: seq<World>, p: nat, q: nat)
    requires IsRun(c, events, run) && p <= q <= |events|
    requires forall i :: p <= i < q ==> AtOnce(run[i], events[i])
    ensures Moment(c, run[p], events[p..q], run[p..q + 1])
  {
    var es, ws := events[p..q], run[p..q + 1];
    forall i | 0 <= i < |es| ensures OnceAt(c, es, ws, i) {
      assert StepAt(c, events, run, p + i);
      assert AtOnce(run[p + i], events[p + i]);
    }
  }

  /**
   * In every run, over a stretch in which no time passes and no report, start or stop comes in, the children that appear
   * belong to subsystems that had a retry due when it began: more than the global limit only if more than that were due.
   */
  lemma StartsWithinAMoment(c: Setup, events: seq<Event>, run: seq<World>, p: nat, q: nat)
    requires IsRun(c, events, run) && p <= q <= |events|
    requires forall i :: p <= i < q ==> AtOnce(run[i], events[i])
    ensures run[q].g.children.Keys - run[p].g.children.Keys <= DueSubs(run[p])
    ensures |run[q].g.children.Keys - run[p].g.children.Keys| <= |DueSubs(run[p])|
  {
    MomentOfRun(c, events, run, p, q);
    StartedAreDue(c, run[p], events[p..q], run[p..q + 1]);
  }
}

/**
 * The retry tracker told from the calls alone. The ring of slots is a queue: a partition ages by one with each newcomer,
 * and leaves when as many newcomers as there are slots have come after it.
 */
module RetryTally {
  import opened Options
  import opened Text
  import opened RetryBudget

  /** What is held of a partition: the retries counted, and the newcomers since it came. */
  datatype Held = Held(attempts: nat, age: nat)

  type Tally = map<Key, Held>

  /** A retry the tracker has to count, as the caller sees it. */
  predicate Counting(e: Call) {
    e.before.disposition == Nak && BudgetReason(e.before.reason) && e.delivered.None?
  }

  /** One newcomer later: everybody is older, and whoever has reached the number of slots is gone. */
  function Aged(t: Tally, slots: nat): Tally {
    map k | k in t && t[k].age + 1 < slots :: Held(t[k].attempts, t[k].age + 1)
  }

  function CountIn(t: Tally, slots: nat, k: Key): Tally {
    if k in t then t[k := Held(t[k].attempts + 1, t[k].age)] else Aged(t, slots)[k := Held(1, 0)]
  }

  /** One call, from what was asked; what came out of it is not looked at. */
  function TallyStep(t: Tally, slots: nat, budget: int, e: Call): Tally {
    if e.before.disposition != Nak then t - {e.key}
    else if !BudgetReason(e.before.reason) then t
    else if e.delivered.Some? then if e.delivered.value >= budget then t - {e.key} else t
    else
      var u := CountIn(t, slots, e.key);
      if u[e.key].attempts >= budget then u - {e.key} else u
  }

  function TallyAfter(slots: nat, budget: int, log: seq<Call>, n: nat): Tally
    requires n <= |log|
  {
    if n == 0 then map[] else TallyStep(TallyAfter(slots, budget, log, n - 1), slots, budget, log[n - 1])
  }

  function Attempts(t: Tally, k: Key): nat {
    if k in t then t[k].attempts else 0
  }

  // ---------------------------------------------------------------- the ring is that queue

  /** How many slots were taken since this one. */
  ghost function Age(t: Tracker, k: Key): nat
    requires Bijective(t) && k in t.entries
  {
    assert Placed(t, k);
    var slot := t.entries[k].slot;
    if slot < t.next then t.next - 1 - slot else t.next + |t.ring| - 1 - slot
  }

  ghost function TallyOf(t: Tracker): Tally
    requires Bijective(t)
  {
    map k | k in t.entries :: Held(t.entries[k].attempts, Age(t, k))
  }

  lemma NewcomerAges(t: Tracker, k: Key, t': Tracker, x: Key)
    requires Bijective(t) && !Blank(k) && k !in t.entries && t' == Increment(t, k).0 && Bijective(t')
    ensures x in t'.entries <==> x == k || (x in t.entries && Age(t, x) + 1 < |t.ring|)
    ensures x in t'.entries ==>
              Held(t'.entries[x].attempts, Age(t', x)) ==
              if x == k then Held(1, 0) else Held(t.entries[x].attempts, Age(t, x) + 1)
  {
    if x in t.entries {
      assert Placed(t, x);
    }
    assert k != FREE;
  }

  lemma IncrementIsCount(t: Tracker, k: Key, t': Tracker)
    requires Bijective(t) && !Blank(k) && t' == Increment(t, k).0 && Bijective(t')
    ensures TallyOf(t') == CountIn(TallyOf(t), |t.ring|, k)
  {
    if k in t.entries {
      CountedAgain(t, k, t');
    } else {
      forall x ensures SameIn(TallyOf(t'), CountIn(TallyOf(t), |t.ring|, k), x) {
        NewcomerAges(t, k, t', x);
      }
      SameTallies(TallyOf(t'), CountIn(TallyOf(t), |t.ring|, k));
    }
  }

  lemma CountedAgain(t: Tracker, k: Key, t': Tracker)
    requires Bijective(t) && !Blank(k) && k in t.entries && t' == Increment(t, k).0 && Bijective(t')
    ensures TallyOf(t') == CountIn(TallyOf(t), |t.ring|, k)
  {
    forall x ensures SameIn(TallyOf(t'), CountIn(TallyOf(t), |t.ring|, k), x) {
      if x in t.entries {
        SameAge(t, t', x);
      }
    }
    SameTallies(TallyOf(t'), CountIn(TallyOf(t), |t.ring|, k));
  }

  lemma SameAge(t: Tracker, t': Tracker, x: Key)
    requires Bijective(t) && Bijective(t') && x in t.entries && x in t'.entries
    requires t.next == t'.next && |t.ring| == |t'.ring| && t.entries[x].slot == t'.entries[x].slot
    ensures Age(t, x) == Age(t', x)
  {
  }

  ghost predicate SameIn(a: Tally, b: Tally, k: Key) {
    (k in a <==> k in b) && (k in a ==> a[k] == b[k])
  }

  lemma SameTallies(a: Tally, b: Tally)
    requires forall k :: SameIn(a, b, k)
    ensures a == b
  {
    forall k ensures k in a <==> k in b {
      assert SameIn(a, b, k);
    }
    forall k | k in a ensures a[k] == b[k] {
      assert SameIn(a, b, k);
    }
  }

  lemma ResetForgets(t: Tracker, k: Key, t': Tracker)
    requires Bijective(t) && !Blank(k) && t' == Reset(t, k) && Bijective(t')
    ensures TallyOf(t') == TallyOf(t) - {k}
  {
    forall x ensures SameIn(TallyOf(t'), TallyOf(t) - {k}, x) {
      if x in t'.entries {
        SameAge(t, t', x);
      }
    }
    SameTallies(TallyOf(t'), TallyOf(t) - {k});
  }

  /** A newcomer evicts the partition that is as old as the ring allows, if there is one. */
  lemma EvictsTheOldest(t: Tracker, k: Key, x: Key)
    requires Bijective(t) && !Blank(k)
    ensures Increment(t, k).2 == Some(x) <==> k !in t.entries && x in t.entries && Age(t, x) + 1 == |t.ring|
  {
    if x in t.entries {
      assert Placed(t, x);
    }
  }

  lemma ApplyIsTally(t: Tracker, budget: int, e: Call, t': Tracker)
    requires Bijective(t) && budget >= 1 && Steps(budget, t, e, t')
    ensures Bijective(t') && |t'.ring| == |t.ring| && TallyOf(t') == TallyStep(TallyOf(t), |t.ring|, budget, e)
  {
    ApplyKeepsBijection(t, budget, e.delivered, e.key, e.before);
    if e.before.disposition != Nak || (BudgetReason(e.before.reason) && e.delivered.Some?) {
      ResetKeepsBijection(t, e.key);
      ResetForgets(t, e.key, Reset(t, e.key));
    } else if Counting(e) {
      var u := Increment(t, e.key).0;
      IncrementKeepsBijection(t, e.key);
      IncrementIsCount(t, e.key, u);
      ResetKeepsBijection(u, e.key);
      ResetForgets(u, e.key, Reset(u, e.key));
    }
  }

  /** In every run the tracker holds exactly what the calls say, whatever the ring has been through. */
  lemma {:induction false} RunIsTally(budget: int, log: seq<Call>, run: seq<Tracker>, n: nat)
    requires IsRun(budget, log, run) && n <= |log|
    ensures Bijective(run[n]) && |run[n].ring| == |run[0].ring|
    ensures TallyOf(run[n]) == TallyAfter(|run[0].ring|, budget, log, n)
  {
    if n == 0 {
      NewIsBijective(|run[0].ring|);
    } else {
      RunIsTally(budget, log, run, n - 1);
      assert StepAt(budget, log, run, n - 1);
      ApplyIsTally(run[n - 1], budget, log[n - 1], run[n]);
    }
  }

  // ---------------------------------------------------------------- what a call decides, and whom it evicts

  /** The call counts a partition that is not held. */
  predicate NewAt(slots: nat, budget: int, log: seq<Call>, n: nat)
    requires n < |log|
  {
    Counting(log[n]) && log[n].key !in TallyAfter(slots, budget, log, n)
  }

  /**
   * Without delivery counts a partition that is held gets at most budget - 1 retries in a row, and is terminated exactly on
   * the failure after those. How many it has had is told from the calls alone; a call evicts a partition exactly if it
   * counts a newcomer while that partition is as old as the ring allows.
   */
  lemma RetriesInARow(budget: int, log: seq<Call>, run: seq<Tracker>, n: nat)
    requires IsRun(budget, log, run) && n < |log|
    ensures var slots := |run[0].ring|;
            var t := TallyAfter(slots, budget, log, n);
            && (forall k :: Attempts(t, k) <= budget - 1)
            && (Counting(log[n]) ==> (log[n].after == EXHAUSTED <==> Attempts(t, log[n].key) == budget - 1))
            && (forall k :: log[n].evicted == Some(k) <==> NewAt(slots, budget, log, n) && k in t && t[k].age == slots - 1)
  {
    RunTracks(budget, log, run, n);
    RunIsTally(budget, log, run, n);
    var t, slots := TallyAfter(|run[0].ring|, budget, log, n), |run[0].ring|;
    forall k ensures Attempts(t, k) <= budget - 1 {
      assert Counts(run[n], log[..n], budget, k);
    }
    assert StepAt(budget, log, run, n);
    forall k ensures log[n].evicted == Some(k) <==> NewAt(slots, budget, log, n) && k in t && t[k].age == slots - 1 {
      EvictsTheOldest(run[n], log[n].key, k);
    }
  }

  /** A partition's retries in a row, as the log reports them, are what the calls alone say. */
  lemma StreakFromCalls(budget: int, log: seq<Call>, run: seq<Tracker>, n: nat, k: Key)
    requires IsRun(budget, log, run) && n <= |log|
    ensures Streak(log[..n], k) == Attempts(TallyAfter(|run[0].ring|, budget, log, n), k)
  {
    RunTracks(budget, log, run, n);
    RunIsTally(budget, log, run, n);
    assert Counts(run[n], log[..n], budget, k);
  }

  // ---------------------------------------------------------------- newcomers since an insertion

  function Newcomers(slots: nat, budget: int, log: seq<Call>, lo: nat, hi: nat): nat
    requires lo <= hi <= |log|
    decreases hi
  {
    if lo == hi then 0
    else Newcomers(slots, budget, log, lo, hi - 1) + (if NewAt(slots, budget, log, hi - 1) then 1 else 0)
  }

  predicate HeldAt(slots: nat, budget: int, log: seq<Call>, n: nat, k: Key)
    requires n <= |log|
  {
    k in TallyAfter(slots, budget, log, n)
  }

  /** The partition came with call `i` and has been held ever since. */
  ghost predicate HeldSince(slots: nat, budget: int, log: seq<Call>, i: nat, n: nat, k: Key)
    requires i < n <= |log|
  {
    && NewAt(slots, budget, log, i) && log[i].key == k
    && forall j :: i < j <= n ==> HeldAt(slots, budget, log, j, k)
  }

  lemma {:induction false} AgeCountsNewcomers(slots: nat, budget: int, log: seq<Call>, i: nat, n: nat, k: Key)
    requires i < n <= |log| && HeldSince(slots, budget, log, i, n, k)
    ensures HeldAt(slots, budget, log, n, k)
    ensures TallyAfter(slots, budget, log, n)[k].age == Newcomers(slots, budget, log, i + 1, n)
  {
    assert HeldAt(slots, budget, log, n, k);
    if n > i + 1 {
      AgeCountsNewcomers(slots, budget, log, i, n - 1, k);
    }
  }

  /** A partition is evicted exactly by the newcomer that makes as many since its own insertion as there are slots. */
  lemma EvictedExactly(budget: int, log: seq<Call>, run: seq<Tracker>, i: nat, n: nat, k: Key)
    requires IsRun(budget, log, run) && i < n < |log| && HeldSince(|run[0].ring|, budget, log, i, n, k)
    ensures log[n].evicted == Some(k) <==> Newcomers(|run[0].ring|, budget, log, i + 1, n + 1) == |run[0].ring|
  {
    RetriesInARow(budget, log, run, n);
    AgeCountsNewcomers(|run[0].ring|, budget, log, i, n, k);
    RunIsTally(budget, log, run, n);
    assert k in run[n].entries && Placed(run[n], k);
  }

  function CallsOf(log: seq<Call>, lo: nat, hi: nat, k: Key): nat
    requires lo <= hi <= |log|
    decreases hi
  {
    if lo == hi then 0 else CallsOf(log, lo, hi - 1, k) + (if log[hi - 1].key == k then 1 else 0)
  }

  ghost predicate AllRetried(log: seq<Call>, lo: nat, hi: nat, k: Key)
    requires lo <= hi <= |log|
  {
    forall j :: lo <= j < hi && log[j].key == k ==> Counting(log[j]) && log[j].after.disposition == Nak
  }

  /** A call that does not bring the newcomers up to the number of slots, and retries the partition if it is about it. */
  lemma HeldOneMore(budget: int, log: seq<Call>, run: seq<Tracker>, i: nat, n: nat, k: Key)
    requires IsRun(budget, log, run) && i < n < |log| && HeldSince(|run[0].ring|, budget, log, i, n, k)
    requires Newcomers(|run[0].ring|, budget, log, i + 1, n + 1) < |run[0].ring|
    requires log[n].key == k ==> Counting(log[n]) && log[n].after.disposition == Nak
    ensures HeldAt(|run[0].ring|, budget, log, n + 1, k)
    ensures Attempts(TallyAfter(|run[0].ring|, budget, log, n + 1), k) ==
            Attempts(TallyAfter(|run[0].ring|, budget, log, n), k) + (if log[n].key == k then 1 else 0)
  {
    AgeCountsNewcomers(|run[0].ring|, budget, log, i, n, k);
    RetriesInARow(budget, log, run, n);
  }

  lemma HeldFromTheStart(budget: int, log: seq<Call>, run: seq<Tracker>, i: nat)
    requires IsRun(budget, log, run) && i < |log| && NewAt(|run[0].ring|, budget, log, i) && log[i].after.disposition == Nak
    ensures HeldAt(|run[0].ring|, budget, log, i + 1, log[i].key)
    ensures Attempts(TallyAfter(|run[0].ring|, budget, log, i + 1), log[i].key) == 1
  {
    RetriesInARow(budget, log, run, i);
  }

  lemma {:induction false} HeldWhileFew(budget: int, log: seq<Call>, run: seq<Tracker>, i: nat, n: nat, k: Key)
    requires IsRun(budget, log, run) && i < n <= |log| && NewAt(|run[0].ring|, budget, log, i) && log[i].key == k
    requires AllRetried(log, i, n, k) && Newcomers(|run[0].ring|, budget, log, i + 1, n) < |run[0].ring|
    ensures HeldSince(|run[0].ring|, budget, log, i, n, k)
    ensures Attempts(TallyAfter(|run[0].ring|, budget, log, n), k) == CallsOf(log, i, n, k)
  {
    if n == i + 1 {
      HeldFromTheStart(budget, log, run, i);
    } else {
      HeldWhileFew(budget, log, run, i, n - 1, k);
      HeldOneMore(budget, log, run, i, n - 1, k);
    }
  }

  /**
   * With fewer newcomers since its insertion than there are slots, a partition that is retried every time has been retried
   * at most budget - 1 times.
   */
  lemma BoundHoldsWhileFew(budget: int, log: seq<Call>, run: seq<Tracker>, i: nat, n: nat, k: Key)
    requires IsRun(budget, log, run) && i < n <= |log| && NewAt(|run[0].ring|, budget, log, i) && log[i].key == k
    requires AllRetried(log, i, n, k) && Newcomers(|run[0].ring|, budget, log, i + 1, n) < |run[0].ring|
    ensures CallsOf(log, i, n, k) <= budget - 1
  {
    HeldWhileFew(budget, log, run, i, n, k);
    RunTracks(budget, log, run, n);
    RunIsTally(budget, log, run, n);
    assert Counts(run[n], log[..n], budget, k);
  }

  // ---------------------------------------------------------------- retried for ever

  /** No partition comes back before as many others as there are slots have come. */
  ghost predicate Rotates(ks: seq<Key>, slots: nat) {
    forall i, j :: 0 <= i < j < |ks| && j - i <= slots ==> ks[i] != ks[j]
  }

  const FAILED := Decision(Nak, Transient, false)

  ghost predicate Follows(log: seq<Call>, ks: seq<Key>) {
    |log| == |ks| && forall i :: 0 <= i < |log| ==> log[i].key == ks[i] && log[i].delivered == None && log[i].before == FAILED
  }

  /** Whoever is held came once, less than a ring of calls ago. */
  ghost predicate Recent(t: Tally, slots: nat, ks: seq<Key>, n: nat)
    requires n <= |ks|
  {
    forall k :: k in t ==> t[k].attempts == 1 && t[k].age < slots && t[k].age < n && ks[n - 1 - t[k].age] == k
  }

  lemma OneMoreIsRecent(t: Tally, slots: nat, e: Call, ks: seq<Key>, n: nat)
    requires slots >= 1 && 0 < n <= |ks| && e.key == ks[n - 1] && e.key !in t && Recent(t, slots, ks, n - 1)
    ensures Recent(CountIn(t, slots, e.key), slots, ks, n)
  {
    var u := CountIn(t, slots, e.key);
    forall k | k in u ensures u[k].attempts == 1 && u[k].age < slots && u[k].age < n && ks[n - 1 - u[k].age] == k {
      assert k != e.key ==> k in t && u[k].age == t[k].age + 1;
    }
  }

  lemma RecentDoNotReturn(t: Tally, slots: nat, ks: seq<Key>, n: nat)
    requires Rotates(ks, slots) && n < |ks| && Recent(t, slots, ks, n)
    ensures ks[n] !in t
  {
  }

  /** Such calls are all newcomers. */
  lemma {:induction false} AllAreNew(slots: nat, budget: int, log: seq<Call>, ks: seq<Key>, n: nat)
    requires budget >= 2 && slots >= 1 && Rotates(ks, slots) && Follows(log, ks) && n <= |ks|
    ensures Recent(TallyAfter(slots, budget, log, n), slots, ks, n)
    ensures n < |ks| ==> NewAt(slots, budget, log, n)
  {
    if n > 0 {
      AllAreNew(slots, budget, log, ks, n - 1);
      OneMoreIsRecent(TallyAfter(slots, budget, log, n - 1), slots, log[n - 1], ks, n);
    }
    if n < |ks| {
      RecentDoNotReturn(TallyAfter(slots, budget, log, n), slots, ks, n);
    }
  }

  /** So every one of them is retried. */
  lemma {:induction false} NeverTerminated(slots: nat, budget: int, ks: seq<Key>) returns (log: seq<Call>, run: seq<Tracker>)
    requires budget >= 2 && slots >= 1 && Rotates(ks, slots) && forall i :: 0 <= i < |ks| ==> !Blank(ks[i])
    ensures IsRun(budget, log, run) && Follows(log, ks) && run[0] == NewTracker(slots)
    ensures forall i :: 0 <= i < |log| ==> log[i].after.disposition == Nak
  {
    if ks == [] {
      log, run := [], [NewTracker(slots)];
    } else {
      var n := |ks| - 1;
      log, run := NeverTerminated(slots, budget, ks[..n]);
      RunTracks(budget, log, run, n);
      var e, t' := CallOf(run[n], budget, None, ks[n], FAILED), ApplyBudget(run[n], budget, None, ks[n], FAILED).tracker;
      ExtendRun(budget, log, run, e, t');
      log, run := log + [e], run + [t'];
      AllAreNew(slots, budget, log, ks, n);
      RetriesInARow(budget, log, run, n);
    }
  }

  /** Different partitions, as many as one likes. */
  function Member(i: nat): Key {
    Key(seq(i + 1, _ => 'x'))
  }

  lemma MembersDiffer(i: nat, j: nat)
    ensures !Blank(Member(i)) && (i != j ==> Member(i) != Member(j))
  {
    assert |Member(i).text| == i + 1 && |Member(j).text| == j + 1;
    assert Member(i).text[0] == 'x' && Member(i).text[i] == 'x';
  }

  lemma RemaindersDiffer(i: nat, j: nat, m: nat)
    requires i < j && j - i < m
    ensures i % m != j % m
  {
    if i % m == j % m {
      NoMultipleBetween(j - i, j / m - i / m, m);
    }
  }

  lemma NoMultipleBetween(d: int, q: int, m: nat)
    requires 0 < d < m
    ensures d != q * m
  {
    if q >= 1 {
      assert q * m >= m;
    } else {
      assert q * m <= 0;
    }
  }

  /**
   * Eviction does void the bound, whatever the number of slots: one partition more than there are slots, taking turns, are
   * retried for ever.
   */
  lemma EvictionVoidsTheBound(budget: int, slots: nat, n: nat) returns (log: seq<Call>, run: seq<Tracker>)
    requires budget >= 2 && slots >= 1
    ensures IsRun(budget, log, run) && run[0] == NewTracker(slots) && |log| == n
    ensures forall i :: 0 <= i < n ==> log[i].key == Member(i % (slots + 1)) && log[i].after.disposition == Nak
  {
    var ks := seq(n, i requires 0 <= i < n => Member(i % (slots + 1)));
    forall i, j | 0 <= i < j < n && j - i <= slots ensures ks[i] != ks[j] {
      RemaindersDiffer(i, j, slots + 1);
      MembersDiffer(i % (slots + 1), j % (slots + 1));
    }
    forall i | 0 <= i < n ensures !Blank(ks[i]) {
      MembersDiffer(i % (slots + 1), 0);
    }
    log, run := NeverTerminated(slots, budget, ks);
  }
}

/** How often a failing delivery may be retried: a bounded tracker of partitions, and the budget it feeds. */
module RetryBudget {
  import opened Options
  import opened Text

  /** A partition, `venue|instrument`; the empty text marks a free slot of the ring. */
  datatype Key = Key(text: string)

  const FREE := Key("")

  datatype Slot = Slot(attempts: nat, slot: nat)

  datatype Tracker = Tracker(ring: seq<Key>, entries: map<Key, Slot>, next: nat)

  function NewTracker(maxSize: nat): Tracker {
    Tracker(seq(maxSize, _ => FREE), map[], 0)
  }

  predicate Blank(k: Key) {
    TrimSpace(k.text) == ""
  }

  /** Occupied slots and entries are in bijection. */
  ghost predicate Bijective(t: Tracker) {
    && t.next < |t.ring|
    && (forall i :: 0 <= i < |t.ring| && t.ring[i] != FREE ==> t.ring[i] in t.entries && t.entries[t.ring[i]].slot == i)
    && (forall k :: k in t.entries ==> Placed(t, k))
  }

  ghost predicate Placed(t: Tracker, k: Key)
    requires k in t.entries
  {
    t.entries[k].slot < |t.ring| && t.ring[t.entries[k].slot] == k && !Blank(k)
  }

  function Turn(slot: nat, maxSize: nat): (r: nat)
    requires slot < maxSize
    ensures r < maxSize
  {
    if slot + 1 == maxSize then 0 else slot + 1
  }

  lemma TurnIsModular(slot: nat, maxSize: nat)
    requires slot < maxSize
    ensures Turn(slot, maxSize) == (slot + 1) % maxSize
  {
  }

  /** increment: the new count, and the partition that lost its slot, if any */
  function Increment(t: Tracker, k: Key): (Tracker, nat, Option<Key>)
    requires t.next < |t.ring|
  {
    if Blank(k) then (t, 0, None)
    else if k in t.entries then
      var n := t.entries[k].attempts + 1;
      (t.(entries := t.entries[k := Slot(n, t.entries[k].slot)]), n, None)
    else
      var victim := t.ring[t.next];
      var kept := if victim == FREE then t.entries else t.entries - {victim};
      (Tracker(t.ring[t.next := k], kept[k := Slot(1, t.next)], Turn(t.next, |t.ring|)), 1,
       if victim == FREE then None else Some(victim))
  }

  /** reset */
  function Reset(t: Tracker, k: Key): Tracker {
    if Blank(k) || k !in t.entries then t
    else
      var slot := t.entries[k].slot;
      Tracker(if slot < |t.ring| then t.ring[slot := FREE] else t.ring, t.entries - {k}, t.next)
  }

  lemma NewIsBijective(maxSize: nat)
    requires maxSize > 0
    ensures Bijective(NewTracker(maxSize))
  {
  }

  lemma IncrementKeepsBijection(t: Tracker, k: Key)
    requires Bijective(t)
    ensures Bijective(Increment(t, k).0) && |Increment(t, k).0.ring| == |t.ring|
  {
  }

  lemma ResetKeepsBijection(t: Tracker, k: Key)
    requires Bijective(t)
    ensures Bijective(Reset(t, k)) && |Reset(t, k).ring| == |t.ring|
  {
  }

  lemma {:induction false} FewerThanListed(s: seq<Key>, keys: set<Key>)
    requires forall k :: k in keys ==> k in s
    ensures |keys| <= |s|
  {
    if s == [] {
      assert keys == {};
    } else {
      FewerThanListed(s[1..], keys - {s[0]});
      if s[0] !in keys {
        assert keys - {s[0]} == keys;
      }
    }
  }

  /** So the tracker never holds more partitions than the ring has slots. */
  lemma TrackerIsBounded(t: Tracker)
    requires Bijective(t)
    ensures |t.entries| <= |t.ring|
  {
    forall k | k in t.entries ensures k in t.ring {
      assert Placed(t, k);
    }
    FewerThanListed(t.ring, t.entries.Keys);
    assert |t.entries| == |t.entries.Keys|;
  }

  // ---------------------------------------------------------------- decisions

  datatype Disposition = Ack | Nak | Term

  datatype Reason =
    | Ok | DecodeFailed | ValidationFailed | UnknownType | UnknownVersion | Transient | Exhausted | QuarantineFailed

  datatype Decision = Decision(disposition: Disposition, reason: Reason, quarantine: bool)

  const EXHAUSTED := Decision(Term, Exhausted, false)

  const MAX_BUDGET := 3

  /** withTransientRetryBudget */
  function Budget(maxDeliver: int): (r: int)
    ensures 1 <= r <= MAX_BUDGET && (maxDeliver > 0 ==> r <= maxDeliver)
  {
    if 0 < maxDeliver < MAX_BUDGET then maxDeliver else MAX_BUDGET
  }

  const FALLBACK_CAPACITY := 1024

  /** isRetryBudgetReason */
  predicate BudgetReason(r: Reason) {
    r.Transient? || r.QuarantineFailed?
  }

  datatype Applied = Applied(tracker: Tracker, decision: Decision, evicted: Option<Key>)

  /** applyTransientRetryBudget; `delivered` is the delivery count, if the broker tells */
  function ApplyBudget(t: Tracker, budget: int, delivered: Option<int>, k: Key, d: Decision): Applied
    requires t.next < |t.ring|
  {
    if d.disposition != Nak then Applied(Reset(t, k), d, None)
    else if !BudgetReason(d.reason) || budget <= 0 then Applied(t, d, None)
    else if delivered.Some? then
      if delivered.value >= budget then Applied(Reset(t, k), EXHAUSTED, None) else Applied(t, d, None)
    else
      var (t', n, evicted) := Increment(t, k);
      if n >= budget then Applied(Reset(t', k), EXHAUSTED, evicted) else Applied(t', d, evicted)
  }

  lemma ApplyKeepsBijection(t: Tracker, budget: int, delivered: Option<int>, k: Key, d: Decision)
    requires Bijective(t)
    ensures var r := ApplyBudget(t, budget, delivered, k, d).tracker; Bijective(r) && |r.ring| == |t.ring|
  {
    ResetKeepsBijection(t, k);
    IncrementKeepsBijection(t, k);
    ResetKeepsBijection(Increment(t, k).0, k);
  }

  // ---------------------------------------------------------------- over whole runs

  /** One decision put through the budget, with what came out. */
  datatype Call = Call(key: Key, delivered: Option<int>, before: Decision, after: Decision, evicted: Option<Key>)

  /** A retry the tracker has to count: the broker did not. */
  predicate Counted(e: Call) {
    e.after.disposition == Nak && BudgetReason(e.before.reason) && e.delivered.None?
  }

  /** The retries granted to a partition in a row without delivery counts, since it last did anything else or was evicted. */
  function Streak(log: seq<Call>, k: Key): nat {
    if log == [] then 0
    else
      var e, rest := log[|log| - 1], log[..|log| - 1];
      if e.key == k && e.after.disposition != Nak then 0
      else if e.key == k && Counted(e) then Streak(rest, k) + 1
      else if e.evicted == Some(k) then 0
      else Streak(rest, k)
  }

  ghost predicate Counts(t: Tracker, log: seq<Call>, budget: int, k: Key) {
    if k in t.entries then 1 <= t.entries[k].attempts < budget && t.entries[k].attempts == Streak(log, k)
    else Streak(log, k) == 0
  }

  ghost predicate Tracks(t: Tracker, log: seq<Call>, budget: int) {
    Bijective(t) && forall k :: Counts(t, log, budget, k)
  }

  function CallOf(t: Tracker, budget: int, delivered: Option<int>, k: Key, d: Decision): Call
    requires t.next < |t.ring|
  {
    var r := ApplyBudget(t, budget, delivered, k, d);
    Call(k, delivered, d, r.decision, r.evicted)
  }

  lemma ApplyTracks(t: Tracker, log: seq<Call>, budget: int, delivered: Option<int>, k: Key, d: Decision)
    requires Tracks(t, log, budget) && budget >= 1 && !Blank(k)
    ensures Tracks(ApplyBudget(t, budget, delivered, k, d).tracker, log + [CallOf(t, budget, delivered, k, d)], budget)
  {
    var r := ApplyBudget(t, budget, delivered, k, d).tracker;
    ApplyKeepsBijection(t, budget, delivered, k, d);
    var log' := log + [CallOf(t, budget, delivered, k, d)];
    forall x ensures Counts(r, log', budget, x) {
      ApplyCounts(t, log, budget, delivered, k, d, x);
    }
  }

  lemma ApplyCounts(t: Tracker, log: seq<Call>, budget: int, delivered: Option<int>, k: Key, d: Decision, x: Key)
    requires Bijective(t) && Counts(t, log, budget, x) && Counts(t, log, budget, k) && budget >= 1 && !Blank(k)
    ensures Counts(ApplyBudget(t, budget, delivered, k, d).tracker, log + [CallOf(t, budget, delivered, k, d)], budget, x)
  {
    var e := CallOf(t, budget, delivered, k, d);
    assert (log + [e])[..|log|] == log;
    assert k != FREE && (x in t.entries ==> Placed(t, x));
  }

  ghost predicate Steps(budget: int, t: Tracker, e: Call, t': Tracker) {
    && t.next < |t.ring| && !Blank(e.key) && e == CallOf(t, budget, e.delivered, e.key, e.before)
    && t' == ApplyBudget(t, budget, e.delivered, e.key, e.before).tracker
  }

  ghost predicate StepAt(budget: int, log: seq<Call>, run: seq<Tracker>, i: nat)
    requires i < |log| && |run| == |log| + 1
  {
    Steps(budget, run[i], log[i], run[i + 1])
  }

  ghost predicate IsRun(budget: int, log: seq<Call>, run: seq<Tracker>) {
    && budget >= 1 && |run| == |log| + 1 && |run[0].ring| > 0 && run[0] == NewTracker(|run[0].ring|)
    && forall i :: 0 <= i < |log| ==> StepAt(budget, log, run, i)
  }

  lemma {:induction false} RunTracks(budget: int, log: seq<Call>, run: seq<Tracker>, n: nat)
    requires IsRun(budget, log, run) && n <= |log|
    ensures Tracks(run[n], log[..n], budget)
  {
    if n == 0 {
      NewIsBijective(|run[0].ring|);
      assert log[..0] == [];
    } else {
      var e := log[n - 1];
      RunTracks(budget, log, run, n - 1);
      assert StepAt(budget, log, run, n - 1);
      ApplyTracks(run[n - 1], log[..n - 1], budget, e.delivered, e.key, e.before);
      assert log[..n] == log[..n - 1] + [e];
    }
  }

  /** With delivery counts, which grow from one delivery of a message to the next, only the first budget - 1 are retried. */
  lemma {:induction false} RetriesWithCounts(t: Tracker, budget: int, counts: seq<int>, i: nat, k: Key, d: Decision)
    requires t.next < |t.ring| && budget >= 1 && i < |counts| && d.disposition == Nak && BudgetReason(d.reason)
    requires counts[0] >= 1 && forall a, b :: 0 <= a < b < |counts| ==> counts[a] < counts[b]
    ensures ApplyBudget(t, budget, Some(counts[i]), k, d).decision.disposition == Nak ==> i < budget - 1
  {
    AtLeastPosition(counts, i);
  }

  lemma {:induction false} AtLeastPosition(counts: seq<int>, i: nat)
    requires i < |counts| && counts[0] >= 1 && forall a, b :: 0 <= a < b < |counts| ==> counts[a] < counts[b]
    ensures counts[i] >= i + 1
  {
    if i > 0 { AtLeastPosition(counts, i - 1); }
  }

  lemma ExtendRun(budget: int, log: seq<Call>, run: seq<Tracker>, e: Call, t': Tracker)
    requires IsRun(budget, log, run) && Steps(budget, run[|log|], e, t')
    ensures IsRun(budget, log + [e], run + [t'])
  {
    forall i | 0 <= i < |log + [e]| ensures StepAt(budget, log + [e], run + [t'], i) {
      assert i < |log| ==> StepAt(budget, log, run, i);
    }
  }

  // ---------------------------------------------------------------- the object

  class RetryBudgetTracker {
    const ring: array<Key>
    var entries: map<Key, Slot>
    var next: nat

    ghost function View(): Tracker
      reads this, ring
    {
      Tracker(ring[..], entries, next)
    }

    /** newRetryBudgetTracker */
    constructor (maxSize: int)
      ensures View() == NewTracker(if maxSize <= 0 then FALLBACK_CAPACITY else maxSize) && Bijective(View()) && fresh(ring)
    {
      var n := if maxSize <= 0 then FALLBACK_CAPACITY else maxSize;
      ring := new Key[n](_ => FREE);
      entries, next := map[], 0;
      new;
      NewIsBijective(n);
      assert ring[..] == seq(n, _ => FREE);
    }

    method IncrementPartition(k: Key) returns (attempts: nat, evicted: Option<Key>)
      requires Bijective(View())
      modifies `entries, `next, ring
      ensures Bijective(View()) && (View(), attempts, evicted) == Increment(old(View()), k)
    {
      IncrementKeepsBijection(View(), k);
      if Blank(k) {
        return 0, None;
      }
      if k in entries {
        attempts := entries[k].attempts + 1;
        entries := entries[k := Slot(attempts, entries[k].slot)];
        return attempts, None;
      }
      var slot := next;
      var victim := ring[slot];
      var kept := entries;
      evicted := None;
      if victim != FREE {
        kept := entries - {victim};
        evicted := Some(victim);
      }
      ring[slot] := k;
      TurnIsModular(slot, ring.Length);
      entries, next := kept[k := Slot(1, slot)], (slot + 1) % ring.Length;
      attempts := 1;
    }

    method ResetPartition(k: Key)
      requires Bijective(View())
      modifies `entries, ring
      ensures Bijective(View()) && View() == Reset(old(View()), k)
    {
      ResetKeepsBijection(View(), k);
      if Blank(k) || k !in entries {
        return;
      }
      if entries[k].slot < ring.Length {
        ring[entries[k].slot] := FREE;
      }
      entries := entries - {k};
    }
  }
}

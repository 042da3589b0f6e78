/** What a bounded map with expiry does over whole runs, against references read off the log of calls. */
module RecencyRuns {
  import opened Options
  import opened RecencyMap

  /** A call with what it answered and the key it pushed out for want of room. */
  datatype Call<K, V> = Call(op: Op<K, V>, cadence: Cadence, now: int, answer: Option<V>, victim: Option<K>)

  ghost function Victim<K, V>(s: State<K, V>, maxSize: nat, op: Op<K, V>): Option<K> {
    if op.Put? && !Has(s.list, op.key) && |s.list| >= maxSize && s.list != [] then Some(s.list[|s.list| - 1].key) else None
  }

  ghost predicate Steps<K, V>(ttl: int, maxSize: nat, s: State<K, V>, e: Call<K, V>, s': State<K, V>) {
    var r := Apply(s, ttl, maxSize, e.op, e.cadence, e.now);
    s' == r.state && e.answer == r.answer && e.victim == Victim(s, maxSize, e.op)
  }

  ghost predicate StepAt<K, V>(ttl: int, maxSize: nat, log: seq<Call<K, V>>, run: seq<State<K, V>>, i: nat)
    requires i < |log| && |run| == |log| + 1
  {
    Steps(ttl, maxSize, run[i], log[i], run[i + 1])
  }

  ghost predicate IsRun<K, V>(ttl: int, maxSize: nat, log: seq<Call<K, V>>, run: seq<State<K, V>>) {
    && |run| == |log| + 1 && run[0].list == [] && run[0].ops == 0 && maxSize >= 1
    && (forall i :: 0 <= i < |log| ==> StepAt(ttl, maxSize, log, run, i))
    && (forall i, j :: 0 <= i < j < |log| ==> log[i].now <= log[j].now)
  }

  /** What the log says is held for a key: its last value, unless deleted or pushed out since. */
  ghost function Held<K, V>(log: seq<Call<K, V>>, ttl: int, k: K): Option<(V, Option<int>)> {
    if log == [] then None
    else
      var e := log[|log| - 1];
      if e.op.Put? && e.op.key == k then Some((e.op.value, NextExpiry(ttl, e.now)))
      else if e.op == Delete(k) || e.victim == Some(k) then None
      else Held(log[..|log| - 1], ttl, k)
  }

  /** The last call that used a key: stored it, or looked it up and found it. */
  ghost function LastUse<K, V>(log: seq<Call<K, V>>, k: K): int {
    if log == [] then -1
    else if Uses(log[|log| - 1], k) then |log| - 1
    else LastUse(log[..|log| - 1], k)
  }

  ghost predicate Uses<K, V>(e: Call<K, V>, k: K) {
    (e.op.Put? && e.op.key == k) || (e.op == Get(k) && e.answer.Some?)
  }

  // ---------------------------------------------------------------- the invariant

  ghost predicate Faithful<K, V>(l: seq<Item<K, V>>, log: seq<Call<K, V>>, ttl: int) {
    forall it :: it in l ==> Held(log, ttl, it.key) == Some((it.value, it.expiresAt))
  }

  /** What the log says is held and not expired is there. */
  ghost predicate Complete<K(!new), V>(l: seq<Item<K, V>>, log: seq<Call<K, V>>, ttl: int, clock: int) {
    forall k :: Held(log, ttl, k).Some? && !Expired(ttl, Held(log, ttl, k).value.1, clock) ==> Has(l, k)
  }

  ghost predicate ByRecency<K, V>(l: seq<Item<K, V>>, log: seq<Call<K, V>>) {
    forall i, j :: 0 <= i < j < |l| ==> LastUse(log, l[i].key) > LastUse(log, l[j].key)
  }

  ghost predicate Inv<K(!new), V>(l: seq<Item<K, V>>, log: seq<Call<K, V>>, ttl: int, maxSize: nat, clock: int) {
    Distinct(l) && |l| <= maxSize && Faithful(l, log, ttl) && Complete(l, log, ttl, clock) && ByRecency(l, log)
  }

  lemma {:induction false} LastUseInLog<K, V>(log: seq<Call<K, V>>, k: K)
    ensures LastUse(log, k) < |log|
  {
    if log != [] { LastUseInLog(log[..|log| - 1], k); }
  }

  lemma LogGrows<K, V>(log: seq<Call<K, V>>, e: Call<K, V>, ttl: int, k: K)
    ensures !Uses(e, k) ==> LastUse(log + [e], k) == LastUse(log, k)
    ensures Uses(e, k) ==> LastUse(log + [e], k) == |log|
    ensures !(e.op.Put? && e.op.key == k) && e.op != Delete(k) && e.victim != Some(k) ==>
              Held(log + [e], ttl, k) == Held(log, ttl, k)
    ensures e.op.Put? && e.op.key == k ==> Held(log + [e], ttl, k) == Some((e.op.value, NextExpiry(ttl, e.now)))
  {
  }

  /** Taking expired entries out breaks nothing. */
  lemma ExpiryKeepsInv<K(!new), V>(l: seq<Item<K, V>>, r: seq<Item<K, V>>, log: seq<Call<K, V>>, ttl: int, maxSize: nat, now: int)
    requires Inv(l, log, ttl, maxSize, now) && Keeps(r, l) && |r| <= |l|
    requires forall it :: it in r ==> it in l
    requires forall it :: it in l && it !in r ==> Expired(ttl, it.expiresAt, now)
    ensures Inv(r, log, ttl, maxSize, now)
  {
    KeepsDistinct(r, l);
    forall i, j | 0 <= i < j < |r| ensures LastUse(log, r[i].key) > LastUse(log, r[j].key) {
      var a, b := KeepsOrder(r, l, i, j);
    }
    forall k | Held(log, ttl, k).Some? && !Expired(ttl, Held(log, ttl, k).value.1, now) ensures Has(r, k) {
      var i :| 0 <= i < |l| && l[i].key == k;
      assert l[i] in l;
      assert l[i] in r;
    }
  }

  lemma SweepKeepsInv<K(!new), V>(l: seq<Item<K, V>>, log: seq<Call<K, V>>, ttl: int, maxSize: nat, now: int)
    requires Inv(l, log, ttl, maxSize, now)
    ensures Inv(Live(l, ttl, now), log, ttl, maxSize, now)
  {
    LiveMeans(l, ttl, now);
    LiveKeeps(l, ttl, now);
    ExpiryKeepsInv(l, Live(l, ttl, now), log, ttl, maxSize, now);
  }

  lemma KeepsRecency<K, V>(r: seq<Item<K, V>>, l: seq<Item<K, V>>, log: seq<Call<K, V>>, e: Call<K, V>)
    requires Keeps(r, l) && ByRecency(l, log) && forall it :: it in r ==> !Uses(e, it.key)
    ensures ByRecency(r, log + [e])
  {
    forall i, j | 0 <= i < j < |r| ensures LastUse(log + [e], r[i].key) > LastUse(log + [e], r[j].key) {
      var a, b := KeepsOrder(r, l, i, j);
      assert r[i] in r && r[j] in r;
      LogGrows(log, e, 0, r[i].key);
      LogGrows(log, e, 0, r[j].key);
    }
  }

  ghost predicate Untouched<K, V>(e: Call<K, V>, k: K) {
    !(e.op.Put? && e.op.key == k) && e.op != Delete(k) && e.victim != Some(k)
  }

  lemma KeepsFaithful<K, V>(r: seq<Item<K, V>>, l: seq<Item<K, V>>, log: seq<Call<K, V>>, e: Call<K, V>, ttl: int)
    requires Faithful(l, log, ttl) && forall it :: it in r ==> it in l && Untouched(e, it.key)
    ensures Faithful(r, log + [e], ttl)
  {
  }

  /** A call that only takes entries out, each of them deleted or expired. */
  lemma DropKeepsInv<K(!new), V>(l: seq<Item<K, V>>, r: seq<Item<K, V>>, log: seq<Call<K, V>>, e: Call<K, V>,
                                 ttl: int, maxSize: nat, clock: int)
    requires Inv(l, log, ttl, maxSize, clock) && clock <= e.now && Keeps(r, l) && |r| <= |l|
    requires !e.op.Put? && e.answer.None? && e.victim.None?
    requires forall it :: it in r ==> it in l && e.op != Delete(it.key)
    requires forall it :: it in l && it !in r ==> e.op == Delete(it.key) || Expired(ttl, it.expiresAt, e.now)
    ensures Inv(r, log + [e], ttl, maxSize, e.now)
  {
    KeepsDistinct(r, l);
    KeepsRecency(r, l, log, e);
    KeepsFaithful(r, l, log, e, ttl);
    forall k | Held(log + [e], ttl, k).Some? && !Expired(ttl, Held(log + [e], ttl, k).value.1, e.now) ensures Has(r, k) {
      assert e.op != Delete(k);
      LogGrows(log, e, ttl, k);
      var i :| 0 <= i < |l| && l[i].key == k;
      assert l[i] in l;
      assert l[i] in r;
    }
  }

  /** A call that puts one entry in front, and takes out the one it replaces and the one it pushes out. */
  lemma FrontKeepsInv<K(!new), V>(l: seq<Item<K, V>>, r: seq<Item<K, V>>, it: Item<K, V>, log: seq<Call<K, V>>, e: Call<K, V>,
                                  ttl: int, maxSize: nat, clock: int)
    requires Inv(l, log, ttl, maxSize, clock) && clock <= e.now && Keeps(r, l) && |r| < maxSize
    requires Uses(e, it.key) && Held(log + [e], ttl, it.key) == Some((it.value, it.expiresAt))
    requires forall x :: x in r ==> x in l && x.key != it.key && e.victim != Some(x.key)
    requires forall x :: x in l && x !in r ==> x.key == it.key || e.victim == Some(x.key)
    requires e.victim != Some(it.key)
    ensures Inv([it] + r, log + [e], ttl, maxSize, e.now)
  {
    KeepsDistinct(r, l);
    KeepsRecency(r, l, log, e);
    KeepsFaithful(r, l, log, e, ttl);
    FrontRecency(r, it, log, e);
    forall i | 0 <= i < |r| ensures r[i].key != it.key {
      assert r[i] in r;
    }
    forall k | Held(log + [e], ttl, k).Some? && !Expired(ttl, Held(log + [e], ttl, k).value.1, e.now)
      ensures Has([it] + r, k)
    {
      FrontComplete(l, r, it, log, e, ttl, clock, k);
    }
  }

  lemma FrontRecency<K, V>(r: seq<Item<K, V>>, it: Item<K, V>, log: seq<Call<K, V>>, e: Call<K, V>)
    requires ByRecency(r, log + [e]) && Uses(e, it.key) && forall x :: x in r ==> x.key != it.key && !Uses(e, x.key)
    ensures ByRecency([it] + r, log + [e])
  {
    LogGrows(log, e, 0, it.key);
    forall j | 0 <= j < |r| ensures LastUse(log + [e], r[j].key) < |log| {
      assert r[j] in r;
      LogGrows(log, e, 0, r[j].key);
      LastUseInLog(log, r[j].key);
    }
  }

  lemma FrontComplete<K(!new), V>(l: seq<Item<K, V>>, r: seq<Item<K, V>>, it: Item<K, V>, log: seq<Call<K, V>>, e: Call<K, V>,
                                  ttl: int, clock: int, k: K)
    requires Complete(l, log, ttl, clock) && clock <= e.now && Uses(e, it.key)
    requires forall x :: x in l && x !in r ==> x.key == it.key || e.victim == Some(x.key)
    requires Held(log + [e], ttl, k).Some? && !Expired(ttl, Held(log + [e], ttl, k).value.1, e.now)
    ensures Has([it] + r, k)
  {
    if k == it.key {
      assert ([it] + r)[0].key == k;
    } else {
      assert (log + [e])[..|log|] == log;
      LogGrows(log, e, ttl, k);
      var i :| 0 <= i < |l| && l[i].key == k;
      assert l[i] in l;
      assert l[i] in r;
      var j :| 0 <= j < |r| && r[j] == l[i];
      assert ([it] + r)[j + 1].key == k;
    }
  }

  // ---------------------------------------------------------------- each call

  lemma FindIsThe<K, V>(l: seq<Item<K, V>>, it: Item<K, V>)
    requires Distinct(l) && it in l
    ensures forall x :: x in l && x.key == it.key ==> x == it
  {
  }

  /** What the lookup answers is what the log says is held, if it has not expired. */
  lemma GetAnswers<K(!new), V>(s: State<K, V>, k: K, log: seq<Call<K, V>>, ttl: int, maxSize: nat, clock: int, now: int)
    requires Inv(s.list, log, ttl, maxSize, clock) && clock <= now
    ensures var h := Held(log, ttl, k);
            GetCore(s, ttl, k, now).answer == if h.Some? && !Expired(ttl, h.value.1, now) then Some(h.value.0) else None
  {
  }

  lemma GetKeepsInv<K(!new), V>(s: State<K, V>, log: seq<Call<K, V>>, e: Call<K, V>, ttl: int, maxSize: nat, clock: int)
    requires Inv(s.list, log, ttl, maxSize, clock) && clock <= e.now
    requires e.op.Get? && e.victim.None? && e.answer == GetCore(s, ttl, e.op.key, e.now).answer
    ensures Inv(GetCore(s, ttl, e.op.key, e.now).state.list, log + [e], ttl, maxSize, e.now)
  {
    var l, k := s.list, e.op.key;
    var found := Find(l, k);
    WithoutMeans(l, k);
    WithoutKeeps(l, k);
    if found.None? {
      WholeKeeps(l);
      DropKeepsInv(l, l, log, e, ttl, maxSize, clock);
    } else {
      FindIsThe(l, found.value);
      if Expired(ttl, found.value.expiresAt, e.now) {
        DropKeepsInv(l, Without(l, k), log, e, ttl, maxSize, clock);
      } else {
        LogGrows(log, e, ttl, k);
        FrontKeepsInv(l, Without(l, k), found.value, log, e, ttl, maxSize, clock);
      }
    }
  }

  lemma {:induction false} WholeKeeps<K, V>(l: seq<Item<K, V>>)
    ensures Keeps(l, l)
  {
    if l != [] { WholeKeeps(l[1..]); }
  }

  /** Storing a key takes out at most one entry: the one it replaces, or the one it pushes out. */
  lemma PutTakesOut<K, V>(s: State<K, V>, ttl: int, maxSize: nat, k: K, v: V, now: int, gone: K)
    requires Distinct(s.list) && |s.list| <= maxSize && maxSize >= 1
    requires gone == if Has(s.list, k) then k else var x := Victim(s, maxSize, Put(k, v)); if x.Some? then x.value else k
    ensures PutCore(s, ttl, maxSize, k, v, now).state.list == [Item(k, v, NextExpiry(ttl, now))] + Without(s.list, gone)
    ensures |Without(s.list, gone)| < maxSize
  {
    WithoutMeans(s.list, gone);
    if Victim(s, maxSize, Put(k, v)).Some? {
      assert s.list[|s.list| - 1].key == gone;
    }
  }

  lemma PutKeepsInv<K(!new), V>(s: State<K, V>, log: seq<Call<K, V>>, e: Call<K, V>, ttl: int, maxSize: nat, clock: int)
    requires Inv(s.list, log, ttl, maxSize, clock) && clock <= e.now && maxSize >= 1
    requires e.op.Put? && e.victim == Victim(s, maxSize, e.op)
    ensures Inv(PutCore(s, ttl, maxSize, e.op.key, e.op.value, e.now).state.list, log + [e], ttl, maxSize, e.now)
  {
    var l, k := s.list, e.op.key;
    var it := Item(k, e.op.value, NextExpiry(ttl, e.now));
    LogGrows(log, e, ttl, k);
    var gone := if Has(l, k) then k else if e.victim.Some? then e.victim.value else k;
    PutTakesOut(s, ttl, maxSize, k, e.op.value, e.now, gone);
    WithoutMeans(l, gone);
    WithoutKeeps(l, gone);
    FrontKeepsInv(l, Without(l, gone), it, log, e, ttl, maxSize, clock);
  }

  lemma DeleteKeepsInv<K(!new), V>(s: State<K, V>, log: seq<Call<K, V>>, e: Call<K, V>, ttl: int, maxSize: nat, clock: int)
    requires Inv(s.list, log, ttl, maxSize, clock) && clock <= e.now
    requires e.op.Delete? && e.victim.None? && e.answer.None?
    ensures Inv(DeleteCore(s, e.op.key).state.list, log + [e], ttl, maxSize, e.now)
  {
    var l, k := s.list, e.op.key;
    WithoutMeans(l, k);
    WithoutKeeps(l, k);
    DropKeepsInv(l, Without(l, k), log, e, ttl, maxSize, clock);
  }

  lemma StepKeepsInv<K(!new), V>(s: State<K, V>, log: seq<Call<K, V>>, e: Call<K, V>, s': State<K, V>,
                                 ttl: int, maxSize: nat, clock: int)
    requires Inv(s.list, log, ttl, maxSize, clock) && clock <= e.now && maxSize >= 1 && Steps(ttl, maxSize, s, e, s')
    ensures Inv(s'.list, log + [e], ttl, maxSize, e.now)
  {
    var t := Counted(s);
    match e.op
    case Get(k) =>
      GetKeepsInv(t, log, e, ttl, maxSize, clock);
      SweepKeepsInv(GetCore(t, ttl, k, e.now).state.list, log + [e], ttl, maxSize, e.now);
    case Put(k, v) =>
      PutKeepsInv(t, log, e, ttl, maxSize, clock);
      SweepKeepsInv(PutCore(t, ttl, maxSize, k, v, e.now).state.list, log + [e], ttl, maxSize, e.now);
    case Delete(k) =>
      DeleteKeepsInv(t, log, e, ttl, maxSize, clock);
      SweepKeepsInv(DeleteCore(t, k).state.list, log + [e], ttl, maxSize, e.now);
    case Sweep =>
      WholeKeeps(s.list);
      DropKeepsInv(s.list, s.list, log, e, ttl, maxSize, clock);
      SweepKeepsInv(s.list, log + [e], ttl, maxSize, e.now);
  }

  // ---------------------------------------------------------------- whole runs

  ghost function ClockAt<K, V>(log: seq<Call<K, V>>, n: nat): int
    requires n <= |log|
  {
    if n > 0 then log[n - 1].now else if log != [] then log[0].now else 0
  }

  lemma {:induction false} RunKeepsInv<K(!new), V>(ttl: int, maxSize: nat, log: seq<Call<K, V>>, run: seq<State<K, V>>, n: nat)
    requires IsRun(ttl, maxSize, log, run) && n <= |log|
    ensures Inv(run[n].list, log[..n], ttl, maxSize, ClockAt(log, n))
  {
    if n == 0 {
      assert log[..n] == [];
    } else {
      var e := log[n - 1];
      RunKeepsInv(ttl, maxSize, log, run, n - 1);
      assert StepAt(ttl, maxSize, log, run, n - 1);
      assert log[..n] == log[..n - 1] + [e];
      StepKeepsInv(run[n - 1], log[..n - 1], e, run[n], ttl, maxSize, ClockAt(log, n - 1));
    }
  }

  /** In every run keys stay distinct, the size stays within bounds, and the list is in order of last use. */
  lemma SizeAndOrder<K(!new), V>(ttl: int, maxSize: nat, log: seq<Call<K, V>>, run: seq<State<K, V>>, n: nat)
    requires IsRun(ttl, maxSize, log, run) && n <= |log|
    ensures Distinct(run[n].list) && |run[n].list| <= maxSize && ByRecency(run[n].list, log[..n])
  {
    RunKeepsInv(ttl, maxSize, log, run, n);
  }

  /**
   * A lookup answers exactly what was last stored under the key, provided it was neither deleted nor pushed out since and
   * has not expired: whatever the cadence of sweeping, an expired value is never returned and a live one never missed.
   */
  lemma GetIsExact<K(!new), V>(ttl: int, maxSize: nat, log: seq<Call<K, V>>, run: seq<State<K, V>>, n: nat)
    requires IsRun(ttl, maxSize, log, run) && n < |log| && log[n].op.Get?
    ensures var h := Held(log[..n], ttl, log[n].op.key);
            log[n].answer == if h.Some? && !Expired(ttl, h.value.1, log[n].now) then Some(h.value.0) else None
  {
    RunKeepsInv(ttl, maxSize, log, run, n);
    assert StepAt(ttl, maxSize, log, run, n);
    GetAnswers(run[n].(ops := run[n].ops + 1), log[n].op.key, log[..n], ttl, maxSize, ClockAt(log, n), log[n].now);
  }

  ghost predicate Replaces<K, V>(e: Call<K, V>, k: K) {
    (e.op.Put? && e.op.key == k) || e.op == Delete(k) || e.victim == Some(k)
  }

  /** Call `p` stored the value, and no later call stored, deleted or pushed out the key. */
  ghost predicate LastStored<K, V>(log: seq<Call<K, V>>, p: nat, k: K, v: V) {
    p < |log| && log[p].op == Put(k, v) && forall i :: p < i < |log| ==> !Replaces(log[i], k)
  }

  lemma {:induction false} HeldIsLastStored<K, V>(log: seq<Call<K, V>>, ttl: int, k: K) returns (p: nat)
    ensures Held(log, ttl, k).Some? ==>
              LastStored(log, p, k, Held(log, ttl, k).value.0) && Held(log, ttl, k).value.1 == NextExpiry(ttl, log[p].now)
    ensures Held(log, ttl, k).None? ==> forall q, v :: !LastStored(log, q, k, v)
    ensures Held(log, ttl, k).Some? ==> forall q, v :: LastStored(log, q, k, v) ==> q == p
  {
    p := 0;
    if log != [] {
      var n := |log| - 1;
      if Replaces(log[n], k) {
        p := n;
      } else {
        p := HeldIsLastStored(log[..n], ttl, k);
        forall q: nat, v ensures LastStored(log, q, k, v) <==> LastStored(log[..n], q, k, v) {
        }
      }
    }
  }

  /**
   * The same in times: a lookup returns a value exactly if some call stored it, none stored, deleted or pushed out the key
   * since, and, where there is a time to live, less than that has passed.
   */
  lemma GetByAge<K(!new), V(!new)>(ttl: int, maxSize: nat, log: seq<Call<K, V>>, run: seq<State<K, V>>, n: nat, v: V)
    requires IsRun(ttl, maxSize, log, run) && n < |log| && log[n].op.Get?
    ensures log[n].answer == Some(v) <==>
            exists p: nat :: LastStored(log[..n], p, log[n].op.key, v) && (ttl <= 0 || log[n].now < log[p].now + ttl)
  {
    GetIsExact(ttl, maxSize, log, run, n);
    var k, before := log[n].op.key, log[..n];
    var p := HeldIsLastStored(before, ttl, k);
    if Held(before, ttl, k).Some? {
      assert LastStored(before, p, k, Held(before, ttl, k).value.0) && before[p] == log[p];
    }
  }

  /** What is pushed out is the least recently used key, and only out of a full map. */
  lemma LeastRecentlyUsedGoes<K(!new), V>(ttl: int, maxSize: nat, log: seq<Call<K, V>>, run: seq<State<K, V>>, n: nat)
    requires IsRun(ttl, maxSize, log, run) && n < |log| && log[n].victim.Some?
    ensures |run[n].list| == maxSize && Has(run[n].list, log[n].victim.value)
    ensures forall it :: it in run[n].list && it.key != log[n].victim.value ==>
              LastUse(log[..n], log[n].victim.value) < LastUse(log[..n], it.key)
  {
    RunKeepsInv(ttl, maxSize, log, run, n);
    assert StepAt(ttl, maxSize, log, run, n);
    var l := run[n].list;
    assert l[|l| - 1].key == log[n].victim.value;
    forall it | it in l && it.key != log[n].victim.value
      ensures LastUse(log[..n], log[n].victim.value) < LastUse(log[..n], it.key)
    {
      var i :| 0 <= i < |l| && l[i] == it;
    }
  }

  // ---------------------------------------------------------------- when expired entries go

  /** How many of the calls count as operations: all but explicit sweeps. */
  ghost function Operations<K, V>(log: seq<Call<K, V>>): nat {
    if log == [] then 0 else Operations(log[..|log| - 1]) + (if log[|log| - 1].op.Sweep? then 0 else 1)
  }

  lemma {:induction false} OpsAreCounted<K, V>(ttl: int, maxSize: nat, log: seq<Call<K, V>>, run: seq<State<K, V>>, n: nat)
    requires IsRun(ttl, maxSize, log, run) && n <= |log|
    ensures run[n].ops == Operations(log[..n])
  {
    if n > 0 {
      OpsAreCounted(ttl, maxSize, log, run, n - 1);
      assert StepAt(ttl, maxSize, log, run, n - 1);
      assert log[..n][..n - 1] == log[..n - 1];
    }
  }

  /** By the count of operations or by the clock, this call is one that sweeps. */
  ghost predicate SweepsAt<K, V>(ttl: int, log: seq<Call<K, V>>, n: nat, lastSweep: int)
    requires n < |log|
  {
    var e := log[n];
    e.op.Sweep? ||
    (ttl > 0 &&
     ((e.cadence.everyOps > 0 && Operations(log[..n + 1]) % e.cadence.everyOps == 0) ||
      (e.cadence.minInterval > 0 && e.now >= lastSweep + e.cadence.minInterval)))
  }

  /** In every run: a call that sweeps leaves no expired entry behind, and the clock of sweeps moves with exactly those calls. */
  lemma SweepsOnTime<K, V>(ttl: int, maxSize: nat, log: seq<Call<K, V>>, run: seq<State<K, V>>, n: nat)
    requires IsRun(ttl, maxSize, log, run) && n < |log|
    ensures if SweepsAt(ttl, log, n, run[n].lastSweep)
            then run[n + 1].lastSweep == log[n].now &&
                 forall it :: it in run[n + 1].list && ttl > 0 && it.expiresAt.Some? ==> log[n].now < it.expiresAt.value
            else run[n + 1].lastSweep == run[n].lastSweep
  {
    assert StepAt(ttl, maxSize, log, run, n);
    OpsAreCounted(ttl, maxSize, log, run, n + 1);
    var e := log[n];
    if e.op.Sweep? {
      LiveMeans(run[n].list, ttl, e.now);
    } else {
      var core := CoreOf(run[n], ttl, maxSize, e.op, e.now);
      LiveMeans(core.state.list, ttl, e.now);
    }
  }

  /** A call before it sweeps. */
  ghost function CoreOf<K, V>(s: State<K, V>, ttl: int, maxSize: nat, op: Op<K, V>, now: int): (r: Result<K, V>)
    requires !op.Sweep?
    ensures r.state.ops == s.ops + 1 && r.state.lastSweep == s.lastSweep
    ensures forall cadence :: Apply(s, ttl, maxSize, op, cadence, now) == MaybeSweep(r, ttl, cadence, now)
  {
    match op
    case Get(k) => GetCore(Counted(s), ttl, k, now)
    case Put(k, v) => PutCore(Counted(s), ttl, maxSize, k, v, now)
    case Delete(k) => DeleteCore(Counted(s), k)
  }
}

/** Which removals a bounded map with expiry reports, and what the cadence of sweeping can show. */
module RecencyReports {
  import opened Options
  import opened RecencyMap
  import opened RecencyRuns

  // ---------------------------------------------------------------- every removal is reported once

  ghost predicate NoRepeats<K, V>(evs: seq<Eviction<K, V>>) {
    forall i, j :: 0 <= i < j < |evs| ==> evs[i].key != evs[j].key
  }

  ghost predicate Names<K, V>(l: seq<Item<K, V>>, ev: Eviction<K, V>) {
    exists it :: it in l && it.key == ev.key && it.value == ev.value
  }

  ghost predicate Told<K, V>(evs: seq<Eviction<K, V>>, it: Item<K, V>) {
    exists ev :: ev in evs && ev.key == it.key && ev.value == it.value
  }

  function Why<K(==), V(==)>(op: Op<K, V>, victim: Option<K>, k: K): Reason {
    if victim == Some(k) then Size else if op == Delete(k) then Unknown else Ttl
  }

  /** The reports are one for each entry that went, with its value and the reason, and none for an entry that stayed. */
  ghost predicate Accounts<K, V>(before: seq<Item<K, V>>, after: seq<Item<K, V>>, evs: seq<Eviction<K, V>>,
                                 op: Op<K, V>, victim: Option<K>) {
    && NoRepeats(evs)
    && (forall ev :: ev in evs ==> Names(before, ev) && !Has(after, ev.key) && ev.reason == Why(op, victim, ev.key))
    && (forall it :: it in before && !Has(after, it.key) ==> Told(evs, it))
  }

  lemma {:induction false} ExpirationsMean<K, V>(l: seq<Item<K, V>>, ttl: int, now: int)
    requires Distinct(l)
    ensures var evs := Expirations(l, ttl, now);
            && NoRepeats(evs)
            && (forall ev :: ev in evs ==>
                exists it :: it in l && Eviction(it.key, it.value, Ttl) == ev && Expired(ttl, it.expiresAt, now))
            && (forall it :: it in l && Expired(ttl, it.expiresAt, now) ==> Eviction(it.key, it.value, Ttl) in evs)
  {
    if l != [] {
      ExpirationsMean(l[1..], ttl, now);
      assert forall it :: it in l <==> it == l[0] || it in l[1..];
      var rest := Expirations(l[1..], ttl, now);
      forall ev | ev in rest ensures ev.key != l[0].key {
        var it :| it in l[1..] && Eviction(it.key, it.value, Ttl) == ev && Expired(ttl, it.expiresAt, now);
        var j :| 0 <= j < |l[1..]| && l[1..][j] == it;
        assert l[j + 1] == it;
      }
    }
  }

  lemma HasIn<K, V>(l: seq<Item<K, V>>, it: Item<K, V>)
    requires it in l
    ensures Has(l, it.key)
  {
  }

  lemma HasGives<K, V>(l: seq<Item<K, V>>, k: K) returns (it: Item<K, V>)
    requires Has(l, k)
    ensures it in l && it.key == k
  {
    var i :| 0 <= i < |l| && l[i].key == k;
    it := l[i];
  }

  /** A sweep after the call proper: every entry it takes was there before the call. */
  lemma SweepAccounts<K, V>(before: seq<Item<K, V>>, mid: seq<Item<K, V>>, evs: seq<Eviction<K, V>>, op: Op<K, V>,
                            victim: Option<K>, ttl: int, now: int)
    requires Accounts(before, mid, evs, op, victim) && Distinct(before) && Distinct(mid)
    requires forall it :: it in mid && Expired(ttl, it.expiresAt, now) ==> it in before
    requires forall it :: it in mid ==> Why(op, victim, it.key) == Ttl
    ensures Accounts(before, Live(mid, ttl, now), evs + Expirations(mid, ttl, now), op, victim)
  {
    var after, more := Live(mid, ttl, now), Expirations(mid, ttl, now);
    LiveMeans(mid, ttl, now);
    ExpirationsMean(mid, ttl, now);
    forall ev | ev in more
      ensures Has(mid, ev.key) && Names(before, ev) && !Has(after, ev.key) && ev.reason == Why(op, victim, ev.key)
    {
      var it :| it in mid && Eviction(it.key, it.value, Ttl) == ev && Expired(ttl, it.expiresAt, now);
      HasIn(mid, it);
      FindIsThe(mid, it);
      if Has(after, ev.key) {
        var x := HasGives(after, ev.key);
      }
    }
    forall ev | ev in evs ensures !Has(after, ev.key) {
      if Has(after, ev.key) {
        var x := HasGives(after, ev.key);
        HasIn(mid, x);
      }
    }
    forall it | it in before && !Has(after, it.key) ensures Told(evs + more, it) {
      SweepTells(before, mid, evs, op, victim, ttl, now, it);
    }
  }

  lemma SweepTells<K, V>(before: seq<Item<K, V>>, mid: seq<Item<K, V>>, evs: seq<Eviction<K, V>>, op: Op<K, V>,
                         victim: Option<K>, ttl: int, now: int, it: Item<K, V>)
    requires Accounts(before, mid, evs, op, victim) && Distinct(before) && Distinct(mid)
    requires forall x :: x in mid && Expired(ttl, x.expiresAt, now) ==> x in before
    requires it in before && !Has(Live(mid, ttl, now), it.key)
    ensures Told(evs + Expirations(mid, ttl, now), it)
  {
    if Has(mid, it.key) {
      var x := HasGives(mid, it.key);
      LiveMeans(mid, ttl, now);
      if !Expired(ttl, x.expiresAt, now) {
        HasIn(Live(mid, ttl, now), x);
      }
      FindIsThe(before, it);
      ExpirationsMean(mid, ttl, now);
      assert Eviction(x.key, x.value, Ttl) in evs + Expirations(mid, ttl, now);
    } else {
      var ev :| ev in evs && ev.key == it.key && ev.value == it.value;
      assert ev in evs + Expirations(mid, ttl, now);
    }
  }

  /** Taking one entry out, reported once. */
  lemma OneGone<K, V>(l: seq<Item<K, V>>, front: seq<Item<K, V>>, gone: Item<K, V>, reason: Reason, op: Op<K, V>,
                      victim: Option<K>)
    requires Distinct(l) && gone in l && reason == Why(op, victim, gone.key)
    requires forall x :: x in front ==> x.key != gone.key
    ensures Accounts(l, front + Without(l, gone.key), [Eviction(gone.key, gone.value, reason)], op, victim)
  {
    var after, ev := front + Without(l, gone.key), Eviction(gone.key, gone.value, reason);
    WithoutMeans(l, gone.key);
    FindIsThe(l, gone);
    if Has(after, gone.key) {
      var x := HasGives(after, gone.key);
    }
    forall it | it in l && !Has(after, it.key) ensures Told([ev], it) {
      if it.key != gone.key {
        assert it in after;
        HasIn(after, it);
      }
      assert ev in [ev];
    }
  }

  /** Nothing goes: every key is still there, one value perhaps replaced. */
  lemma NoneGone<K, V>(l: seq<Item<K, V>>, it: Item<K, V>, op: Op<K, V>)
    ensures Accounts(l, l, [], op, None) && Accounts(l, [it] + Without(l, it.key), [], op, None)
  {
    var after := [it] + Without(l, it.key);
    WithoutMeans(l, it.key);
    forall x | x in l ensures Has(l, x.key) && Has(after, x.key) {
      HasIn(l, x);
      assert after[0] == it;
      if x.key != it.key {
        assert x in after;
        HasIn(after, x);
      }
    }
  }

  lemma GetAccounts<K, V>(s: State<K, V>, ttl: int, k: K, now: int)
    requires Distinct(s.list)
    ensures var r := GetCore(s, ttl, k, now);
            && Accounts(s.list, r.state.list, r.removed, Get(k), None) && Distinct(r.state.list)
            && forall it :: it in r.state.list ==> it in s.list
  {
    var found := Find(s.list, k);
    if found.None? {
      NothingGone(s.list, Get(k));
    } else if Expired(ttl, found.value.expiresAt, now) {
      TakeOut(s.list, found.value, Ttl, Get(k));
    } else {
      NoneGone(s.list, found.value, Get(k));
      TouchDistinct(s.list, found.value);
    }
  }

  lemma TouchDistinct<K, V>(l: seq<Item<K, V>>, it: Item<K, V>)
    requires Distinct(l) && it in l
    ensures Distinct([it] + Without(l, it.key)) && forall x :: x in [it] + Without(l, it.key) ==> x in l
  {
    WithoutMeans(l, it.key);
    WithoutKeeps(l, it.key);
    KeepsDistinct(Without(l, it.key), l);
    FrontDistinct(it, Without(l, it.key));
  }

  lemma TakeOut<K, V>(l: seq<Item<K, V>>, it: Item<K, V>, reason: Reason, op: Op<K, V>)
    requires Distinct(l) && it in l && reason == Why(op, None, it.key)
    ensures Accounts(l, Without(l, it.key), [Eviction(it.key, it.value, reason)], op, None)
    ensures Distinct(Without(l, it.key)) && forall x :: x in Without(l, it.key) ==> x in l && x.key != it.key
  {
    WithoutMeans(l, it.key);
    WithoutKeeps(l, it.key);
    KeepsDistinct(Without(l, it.key), l);
    OneGone(l, [], it, reason, op, None);
    assert [] + Without(l, it.key) == Without(l, it.key);
  }

  lemma NothingGone<K, V>(l: seq<Item<K, V>>, op: Op<K, V>)
    ensures Accounts(l, l, [], op, None)
  {
  }

  lemma FrontDistinct<K, V>(it: Item<K, V>, l: seq<Item<K, V>>)
    requires Distinct(l) && !Has(l, it.key)
    ensures Distinct([it] + l)
  {
  }

  lemma DeleteAccounts<K, V>(s: State<K, V>, k: K)
    requires Distinct(s.list)
    ensures var r := DeleteCore(s, k);
            && Accounts(s.list, r.state.list, r.removed, Delete(k), None) && Distinct(r.state.list)
            && forall it :: it in r.state.list ==> it in s.list && it.key != k
  {
    var found := Find(s.list, k);
    if found.Some? {
      TakeOut(s.list, found.value, Unknown, Delete(k));
    } else {
      NothingGone(s.list, Delete(k));
      forall it | it in s.list ensures it.key != k {
        HasIn(s.list, it);
      }
    }
  }

  lemma PutAccounts<K, V>(s: State<K, V>, ttl: int, maxSize: nat, k: K, v: V, now: int)
    requires Distinct(s.list)
    ensures var r := PutCore(s, ttl, maxSize, k, v, now);
            var victim := Victim(s, maxSize, Put(k, v));
            && Accounts(s.list, r.state.list, r.removed, Put(k, v), victim) && Distinct(r.state.list)
            && (forall it :: it in r.state.list && Expired(ttl, it.expiresAt, now) ==> it in s.list)
            && (forall it :: it in r.state.list ==> Why(Put(k, v), victim, it.key) == Ttl)
  {
    var it, l := Item(k, v, NextExpiry(ttl, now)), s.list;
    var victim := Victim(s, maxSize, Put(k, v));
    if victim.Some? {
      var tail := l[|l| - 1];
      WithoutMeans(l, tail.key);
      WithoutKeeps(l, tail.key);
      KeepsDistinct(Without(l, tail.key), l);
      assert tail in l;
      HasIn(l, tail);
      OneGone(l, [it], tail, Size, Put(k, v), victim);
      if Has(Without(l, tail.key), k) {
        var x := HasGives(Without(l, tail.key), k);
        HasIn(l, x);
      }
      FrontDistinct(it, Without(l, tail.key));
    } else {
      WithoutMeans(l, k);
      WithoutKeeps(l, k);
      KeepsDistinct(Without(l, k), l);
      NoneGone(l, it, Put(k, v));
      FrontDistinct(it, Without(l, k));
    }
  }

  lemma MaybeSweepAccounts<K, V>(before: seq<Item<K, V>>, r: Result<K, V>, op: Op<K, V>, victim: Option<K>,
                                 ttl: int, cadence: Cadence, now: int, v: Result<K, V>)
    requires v == MaybeSweep(r, ttl, cadence, now)
    requires Accounts(before, r.state.list, r.removed, op, victim) && Distinct(before) && Distinct(r.state.list)
    requires forall it :: it in r.state.list && Expired(ttl, it.expiresAt, now) ==> it in before
    requires forall it :: it in r.state.list ==> Why(op, victim, it.key) == Ttl
    ensures Accounts(before, v.state.list, v.removed, op, victim)
  {
    SweepAccounts(before, r.state.list, r.removed, op, victim, ttl, now);
  }

  lemma GetReports<K, V>(s: State<K, V>, ttl: int, k: K, cadence: Cadence, now: int, r: Result<K, V>)
    requires Distinct(s.list) && r == MaybeSweep(GetCore(s, ttl, k, now), ttl, cadence, now)
    ensures Accounts(s.list, r.state.list, r.removed, Get(k), None)
  {
    GetAccounts(s, ttl, k, now);
    MaybeSweepAccounts(s.list, GetCore(s, ttl, k, now), Get(k), None, ttl, cadence, now, r);
  }

  lemma PutReports<K, V>(s: State<K, V>, ttl: int, maxSize: nat, k: K, v: V, cadence: Cadence, now: int, r: Result<K, V>)
    requires Distinct(s.list) && r == MaybeSweep(PutCore(s, ttl, maxSize, k, v, now), ttl, cadence, now)
    ensures Accounts(s.list, r.state.list, r.removed, Put(k, v), Victim(s, maxSize, Put(k, v)))
  {
    PutAccounts(s, ttl, maxSize, k, v, now);
    MaybeSweepAccounts(s.list, PutCore(s, ttl, maxSize, k, v, now), Put(k, v), Victim(s, maxSize, Put(k, v)), ttl, cadence,
                       now, r);
  }

  lemma DeleteReports<K, V>(s: State<K, V>, ttl: int, k: K, cadence: Cadence, now: int, r: Result<K, V>)
    requires Distinct(s.list) && r == MaybeSweep(DeleteCore(s, k), ttl, cadence, now)
    ensures Accounts(s.list, r.state.list, r.removed, Delete(k), None)
  {
    DeleteAccounts(s, k);
    MaybeSweepAccounts(s.list, DeleteCore(s, k), Delete(k), None, ttl, cadence, now, r);
  }

  lemma SweepReports<K, V>(s: State<K, V>, ttl: int, now: int)
    requires Distinct(s.list)
    ensures Accounts(s.list, Live(s.list, ttl, now), Expirations(s.list, ttl, now), Sweep, None)
  {
    NothingGone(s.list, Sweep);
    SweepAccounts(s.list, s.list, [], Sweep, None, ttl, now);
    assert [] + Expirations(s.list, ttl, now) == Expirations(s.list, ttl, now);
  }

  /** Whatever the call, its reports are exactly the entries it took out, each once, with value and reason. */
  lemma EachRemovalReportedOnce<K, V>(s: State<K, V>, ttl: int, maxSize: nat, op: Op<K, V>, cadence: Cadence, now: int,
                                      r: Result<K, V>)
    requires Distinct(s.list) && r == Apply(s, ttl, maxSize, op, cadence, now)
    ensures Accounts(s.list, r.state.list, r.removed, op, Victim(s, maxSize, op))
  {
    var t := Counted(s);
    assert t.list == s.list && Victim(t, maxSize, op) == Victim(s, maxSize, op);
    match op
    case Get(k) => GetReports(t, ttl, k, cadence, now, r);
    case Put(k, v) => PutReports(t, ttl, maxSize, k, v, cadence, now, r);
    case Delete(k) => DeleteReports(t, ttl, k, cadence, now, r);
    case Sweep => SweepReports(s, ttl, now);
  }

  // ---------------------------------------------------------------- the cadence of sweeping

  lemma {:induction false} LiveLater<K, V>(l: seq<Item<K, V>>, ttl: int, now: int, later: int)
    requires now <= later
    ensures Live(Live(l, ttl, now), ttl, later) == Live(l, ttl, later)
  {
    if l != [] {
      LiveLater(l[1..], ttl, now, later);
      var a := [l[0]];
      assert a[1..] == [] && l == a + l[1..];
      LiveAppends(a, l[1..], ttl, now);
      LiveAppends(a, l[1..], ttl, later);
      LiveAppends(Live(a, ttl, now), Live(l[1..], ttl, now), ttl, later);
    }
  }

  lemma {:induction false} LiveAppends<K, V>(a: seq<Item<K, V>>, b: seq<Item<K, V>>, ttl: int, now: int)
    ensures Live(a + b, ttl, now) == Live(a, ttl, now) + Live(b, ttl, now)
  {
    if a == [] {
      assert a + b == b;
    } else {
      assert (a + b)[1..] == a[1..] + b;
      LiveAppends(a[1..], b, ttl, now);
    }
  }

  lemma {:induction false} WithoutAppends<K, V>(a: seq<Item<K, V>>, b: seq<Item<K, V>>, k: K)
    ensures Without(a + b, k) == Without(a, k) + Without(b, k)
  {
    if a == [] {
      assert a + b == b;
    } else {
      assert (a + b)[1..] == a[1..] + b;
      WithoutAppends(a[1..], b, k);
    }
  }

  lemma {:induction false} LiveWithout<K, V>(l: seq<Item<K, V>>, k: K, ttl: int, now: int)
    ensures Live(Without(l, k), ttl, now) == Without(Live(l, ttl, now), k)
  {
    if l != [] {
      LiveWithout(l[1..], k, ttl, now);
      var a := [l[0]];
      assert a[1..] == [] && l == a + l[1..];
      LiveAppends(a, l[1..], ttl, now);
      WithoutAppends(a, l[1..], k);
      LiveAppends(Without(a, k), Without(l[1..], k), ttl, now);
      WithoutAppends(Live(a, ttl, now), Live(l[1..], ttl, now), k);
    }
  }

  /** Of two lists that agree on what is live now. */
  ghost predicate Agree<K, V>(l: seq<Item<K, V>>, m: seq<Item<K, V>>, ttl: int, now: int) {
    Live(l, ttl, now) == Live(m, ttl, now)
  }

  lemma AgreeLater<K, V>(l: seq<Item<K, V>>, m: seq<Item<K, V>>, ttl: int, now: int, later: int)
    requires Agree(l, m, ttl, now) && now <= later
    ensures Agree(l, m, ttl, later)
  {
    LiveLater(l, ttl, now, later);
    LiveLater(m, ttl, now, later);
  }

  /** A lookup depends on the live entries only. */
  lemma FindLive<K, V>(l: seq<Item<K, V>>, k: K, ttl: int, now: int)
    requires Distinct(l)
    ensures Find(Live(l, ttl, now), k) ==
            if Find(l, k).Some? && !Expired(ttl, Find(l, k).value.expiresAt, now) then Find(l, k) else None
  {
    LiveMeans(l, ttl, now);
    var f, g := Find(l, k), Find(Live(l, ttl, now), k);
    if f.Some? {
      FindIsThe(l, f.value);
      if !Expired(ttl, f.value.expiresAt, now) {
        HasIn(Live(l, ttl, now), f.value);
      }
    }
    if g.Some? {
      HasIn(l, g.value);
    }
  }

  /** The key a store pushes out, if it was still live. */
  ghost function LiveVictim<K, V>(s: State<K, V>, ttl: int, maxSize: nat, op: Op<K, V>, now: int): Option<K> {
    if Victim(s, maxSize, op).Some? && !Expired(ttl, s.list[|s.list| - 1].expiresAt, now) then Victim(s, maxSize, op) else None
  }

  /** What a call leaves live, as a function of what was live before and of the live key it pushed out. */
  ghost function LiveAfter<K, V>(l: seq<Item<K, V>>, ttl: int, op: Op<K, V>, victim: Option<K>, now: int): seq<Item<K, V>> {
    match op
    case Get(k) => if Find(l, k).Some? then [Find(l, k).value] + Without(l, k) else l
    case Put(k, v) =>
      [Item(k, v, NextExpiry(ttl, now))] + (if victim.Some? then Without(Without(l, k), victim.value) else Without(l, k))
    case Delete(k) => Without(l, k)
    case Sweep => l
  }

  lemma LiveAfterGet<K, V>(s: State<K, V>, ttl: int, k: K, now: int)
    requires Distinct(s.list)
    ensures var r, l := GetCore(s, ttl, k, now), Live(s.list, ttl, now);
            && Live(r.state.list, ttl, now) == LiveAfter(l, ttl, Get(k), None, now)
            && r.answer == if Find(l, k).Some? then Some(Find(l, k).value.value) else None
  {
    var f := Find(s.list, k);
    FindLive(s.list, k, ttl, now);
    LiveWithout(s.list, k, ttl, now);
    if f.Some? {
      LiveAppends([f.value], Without(s.list, k), ttl, now);
      WithoutMeans(Live(s.list, ttl, now), k);
    }
  }

  lemma LiveAfterDelete<K, V>(s: State<K, V>, ttl: int, k: K, now: int)
    ensures Live(DeleteCore(s, k).state.list, ttl, now) == LiveAfter(Live(s.list, ttl, now), ttl, Delete(k), None, now)
  {
    LiveWithout(s.list, k, ttl, now);
    WithoutMeans(s.list, k);
  }

  lemma LiveAfterPut<K, V>(s: State<K, V>, ttl: int, maxSize: nat, k: K, v: V, now: int)
    requires Distinct(s.list)
    ensures Live(PutCore(s, ttl, maxSize, k, v, now).state.list, ttl, now) ==
            LiveAfter(Live(s.list, ttl, now), ttl, Put(k, v), LiveVictim(s, ttl, maxSize, Put(k, v), now), now)
  {
    var l, it := s.list, Item(k, v, NextExpiry(ttl, now));
    var victim := Victim(s, maxSize, Put(k, v));
    WithoutMeans(l, k);
    LiveWithout(l, k, ttl, now);
    if victim.Some? {
      var tail := l[|l| - 1];
      LiveWithout(l, tail.key, ttl, now);
      LiveAppends([it], Without(l, tail.key), ttl, now);
      FindLive(l, tail.key, ttl, now);
      assert tail in l;
      HasIn(l, tail);
      FindIsThe(l, tail);
      WithoutMeans(Live(l, ttl, now), tail.key);
    } else {
      LiveAppends([it], Without(l, k), ttl, now);
    }
  }

  lemma SweepLeavesLive<K, V>(r: Result<K, V>, ttl: int, cadence: Cadence, now: int)
    ensures var v := MaybeSweep(r, ttl, cadence, now);
            Live(v.state.list, ttl, now) == Live(r.state.list, ttl, now) && v.answer == r.answer
  {
    LiveLater(r.state.list, ttl, now, now);
  }

  /** What a call leaves live and what it answers depend on the live entries and the live victim alone. */
  lemma LiveAfterCall<K, V>(s: State<K, V>, ttl: int, maxSize: nat, op: Op<K, V>, cadence: Cadence, now: int)
    requires Distinct(s.list)
    ensures var r, l := Apply(s, ttl, maxSize, op, cadence, now), Live(s.list, ttl, now);
            && Live(r.state.list, ttl, now) == LiveAfter(l, ttl, op, LiveVictim(s, ttl, maxSize, op, now), now)
            && r.answer == if op.Get? && Find(l, op.key).Some? then Some(Find(l, op.key).value.value) else None
  {
    var t := Counted(s);
    match op
    case Get(k) =>
      LiveAfterGet(t, ttl, k, now);
      SweepLeavesLive(GetCore(t, ttl, k, now), ttl, cadence, now);
    case Put(k, v) =>
      LiveAfterPut(t, ttl, maxSize, k, v, now);
      SweepLeavesLive(PutCore(t, ttl, maxSize, k, v, now), ttl, cadence, now);
    case Delete(k) =>
      LiveAfterDelete(t, ttl, k, now);
      SweepLeavesLive(DeleteCore(t, k), ttl, cadence, now);
    case Sweep =>
      LiveLater(s.list, ttl, now, now);
  }

  lemma VictimWasLive<K, V>(s: State<K, V>, ttl: int, maxSize: nat, op: Op<K, V>, now: int)
    requires LiveVictim(s, ttl, maxSize, op, now).Some?
    ensures op.Put? && Has(Live(s.list, ttl, now), LiveVictim(s, ttl, maxSize, op, now).value)
    ensures LiveVictim(s, ttl, maxSize, op, now).value != op.key
  {
    var tail := s.list[|s.list| - 1];
    LiveMeans(s.list, ttl, now);
    assert tail in s.list;
    HasIn(s.list, tail);
    HasIn(Live(s.list, ttl, now), tail);
  }

  /**
   * Two maps that agree on what is live, swept at whatever cadence, answer a call alike, and still agree on what is live
   * afterwards exactly when the call pushed the same live key, or none, out of both.
   */
  lemma CadenceShowsOnlyThroughCapacity<K, V>(s: State<K, V>, t: State<K, V>, ttl: int, maxSize: nat, op: Op<K, V>,
                                              cs: Cadence, ct: Cadence, now: int)
    requires Distinct(s.list) && Distinct(t.list) && Agree(s.list, t.list, ttl, now)
    ensures Apply(s, ttl, maxSize, op, cs, now).answer == Apply(t, ttl, maxSize, op, ct, now).answer
    ensures Agree(Apply(s, ttl, maxSize, op, cs, now).state.list, Apply(t, ttl, maxSize, op, ct, now).state.list, ttl, now) <==>
            LiveVictim(s, ttl, maxSize, op, now) == LiveVictim(t, ttl, maxSize, op, now)
  {
    LiveAfterCall(s, ttl, maxSize, op, cs, now);
    LiveAfterCall(t, ttl, maxSize, op, ct, now);
    var l := Live(s.list, ttl, now);
    var a, b := LiveVictim(s, ttl, maxSize, op, now), LiveVictim(t, ttl, maxSize, op, now);
    if a.Some? {
      VictimWasLive(s, ttl, maxSize, op, now);
    }
    if b.Some? {
      VictimWasLive(t, ttl, maxSize, op, now);
    }
    if a != b && op.Put? {
      DifferentVictims(l, op.key, a, b);
      var it := Item(op.key, op.value, NextExpiry(ttl, now));
      assert LiveAfter(l, ttl, op, a, now)[1..] != LiveAfter(l, ttl, op, b, now)[1..];
    }
  }

  function Less<K(==), V>(l: seq<Item<K, V>>, victim: Option<K>): seq<Item<K, V>> {
    if victim.Some? then Without(l, victim.value) else l
  }

  lemma DifferentVictims<K, V>(l: seq<Item<K, V>>, k: K, a: Option<K>, b: Option<K>)
    requires a != b
    requires a.Some? ==> Has(l, a.value) && a.value != k
    requires b.Some? ==> Has(l, b.value) && b.value != k
    ensures Less(Without(l, k), a) != Less(Without(l, k), b)
  {
    if a.Some? {
      OnlyOneLess(l, k, a.value, b);
    } else {
      OnlyOneLess(l, k, b.value, a);
    }
  }

  lemma OnlyOneLess<K, V>(l: seq<Item<K, V>>, k: K, a: K, b: Option<K>)
    requires Has(l, a) && a != k && b != Some(a)
    ensures Has(Less(Without(l, k), b), a) && !Has(Without(Without(l, k), a), a)
  {
    var it := HasGives(l, a);
    WithoutMeans(l, k);
    WithoutMeans(Without(l, k), a);
    if b.Some? {
      WithoutMeans(Without(l, k), b.value);
    }
    HasIn(Less(Without(l, k), b), it);
  }

  /** Two runs of the same calls at the same times, swept at different cadences. */
  ghost predicate SameCalls<K, V>(log: seq<Call<K, V>>, log': seq<Call<K, V>>) {
    |log| == |log'| && forall i :: 0 <= i < |log| ==> log[i].op == log'[i].op && log[i].now == log'[i].now
  }

  ghost predicate SameVictims<K, V>(ttl: int, maxSize: nat, log: seq<Call<K, V>>, run: seq<State<K, V>>,
                                    run': seq<State<K, V>>, i: nat)
    requires i < |log| && i < |run| && i < |run'|
  {
    LiveVictim(run[i], ttl, maxSize, log[i].op, log[i].now) == LiveVictim(run'[i], ttl, maxSize, log[i].op, log[i].now)
  }

  lemma {:induction false} RunsAgree<K(!new), V>(ttl: int, maxSize: nat, log: seq<Call<K, V>>, run: seq<State<K, V>>,
                                                 log': seq<Call<K, V>>, run': seq<State<K, V>>, n: nat)
    requires IsRun(ttl, maxSize, log, run) && IsRun(ttl, maxSize, log', run') && SameCalls(log, log') && n <= |log|
    requires forall i :: 0 <= i < n ==> SameVictims(ttl, maxSize, log, run, run', i)
    ensures Agree(run[n].list, run'[n].list, ttl, ClockAt(log, n))
  {
    if n > 0 {
      var e, e' := log[n - 1], log'[n - 1];
      RunsAgree(ttl, maxSize, log, run, log', run', n - 1);
      AgreeLater(run[n - 1].list, run'[n - 1].list, ttl, ClockAt(log, n - 1), e.now);
      SizeAndOrder(ttl, maxSize, log, run, n - 1);
      SizeAndOrder(ttl, maxSize, log', run', n - 1);
      assert StepAt(ttl, maxSize, log, run, n - 1) && StepAt(ttl, maxSize, log', run', n - 1);
      assert SameVictims(ttl, maxSize, log, run, run', n - 1);
      CadenceShowsOnlyThroughCapacity(run[n - 1], run'[n - 1], ttl, maxSize, e.op, e.cadence, e'.cadence, e.now);
    }
  }

  /** As long as no live key is pushed out of one map but not the other, the cadence of sweeping never shows. */
  lemma CadenceNeverShows<K(!new), V>(ttl: int, maxSize: nat, log: seq<Call<K, V>>, run: seq<State<K, V>>,
                                      log': seq<Call<K, V>>, run': seq<State<K, V>>, n: nat)
    requires IsRun(ttl, maxSize, log, run) && IsRun(ttl, maxSize, log', run') && SameCalls(log, log') && n < |log|
    requires forall i :: 0 <= i < n ==> SameVictims(ttl, maxSize, log, run, run', i)
    ensures log[n].answer == log'[n].answer
  {
    var e, e' := log[n], log'[n];
    RunsAgree(ttl, maxSize, log, run, log', run', n);
    AgreeLater(run[n].list, run'[n].list, ttl, ClockAt(log, n), e.now);
    SizeAndOrder(ttl, maxSize, log, run, n);
    SizeAndOrder(ttl, maxSize, log', run', n);
    assert StepAt(ttl, maxSize, log, run, n) && StepAt(ttl, maxSize, log', run', n);
    CadenceShowsOnlyThroughCapacity(run[n], run'[n], ttl, maxSize, e.op, e.cadence, e'.cadence, e.now);
  }

  // ---------------------------------------------------------------- two runs in which the cadence shows

  /** The calls of a script, at their times, in a map that is swept at one cadence. */
  ghost predicate Follows<K, V>(log: seq<Call<K, V>>, script: seq<(Op<K, V>, int)>, cadence: Cadence) {
    && |log| == |script|
    && forall i :: 0 <= i < |log| ==> log[i].op == script[i].0 && log[i].now == script[i].1 && log[i].cadence == cadence
  }

  /** Every script can be followed, from the empty map on. */
  lemma {:induction false} ScriptRuns<K, V>(ttl: int, maxSize: nat, script: seq<(Op<K, V>, int)>, cadence: Cadence)
    returns (log: seq<Call<K, V>>, run: seq<State<K, V>>)
    requires maxSize >= 1 && forall i, j :: 0 <= i < j < |script| ==> script[i].1 <= script[j].1
    ensures IsRun(ttl, maxSize, log, run) && Follows(log, script, cadence) && run[0] == State([], 0, 0)
  {
    if script == [] {
      return [], [State([], 0, 0)];
    }
    var n := |script| - 1;
    var log0, run0 := ScriptRuns(ttl, maxSize, script[..n], cadence);
    var (op, now) := script[n];
    var r := Apply(run0[n], ttl, maxSize, op, cadence, now);
    log := log0 + [Call(op, cadence, now, r.answer, Victim(run0[n], maxSize, op))];
    run := run0 + [r.state];
    forall i | 0 <= i <= n ensures StepAt(ttl, maxSize, log, run, i) {
      assert i < n ==> StepAt(ttl, maxSize, log0, run0, i);
    }
  }

  const A := Item(1, 1, Some(10))
  const B := Item(2, 2, Some(15))
  const C := Item(3, 3, Some(22))

  /** Two keys stored, the older one looked up again; past its expiry a miss, then a third key, then the second one again. */
  const SCRIPT: seq<(Op<int, int>, int)> :=
    [(Put(1, 1), 0), (Put(2, 2), 5), (Get(1), 6), (Get(9), 12), (Put(3, 3), 12), (Get(2), 13)]

  lemma PairOfItems(x: Item<int, int>, y: Item<int, int>, k: int, ttl: int, now: int)
    ensures Find([x, y], k) == if x.key == k then Some(x) else if y.key == k then Some(y) else None
    ensures Without([x, y], k) == (if x.key == k then [] else [x]) + (if y.key == k then [] else [y])
    ensures Live([x, y], ttl, now) == (if Expired(ttl, x.expiresAt, now) then [] else [x]) +
                                      (if Expired(ttl, y.expiresAt, now) then [] else [y])
  {
    var l, rest := [x, y], [y];
    assert l[1..] == rest && rest[1..] == [];
    assert Find(rest, k) == (if y.key == k then Some(y) else None);
    assert Without(rest, k) == (if y.key == k then [] else [y]) + Without([], k);
    assert Live(rest, ttl, now) == (if Expired(ttl, y.expiresAt, now) then [] else [y]) + Live([], ttl, now);
  }

  lemma FirstTwo(cadence: Cadence)
    requires cadence == Cadence(0, 0) || cadence == Cadence(4, 0)
    ensures Apply(State([], 0, 0), 10, 2, Put(1, 1), cadence, 0).state == State([A], 1, 0)
    ensures Apply(State([A], 1, 0), 10, 2, Put(2, 2), cadence, 5).state == State([B, A], 2, 0)
  {
  }

  lemma TheFirstAgain(cadence: Cadence)
    requires cadence == Cadence(0, 0) || cadence == Cadence(4, 0)
    ensures Apply(State([B, A], 2, 0), 10, 2, Get(1), cadence, 6).state == State([A, B], 3, 0)
  {
    PairOfItems(B, A, 1, 10, 6);
  }

  lemma AMiss()
    ensures Apply(State([A, B], 3, 0), 10, 2, Get(9), Cadence(0, 0), 12).state == State([A, B], 4, 0)
    ensures Apply(State([A, B], 3, 0), 10, 2, Get(9), Cadence(4, 0), 12).state == State([B], 4, 12)
  {
    PairOfItems(A, B, 9, 10, 12);
  }

  lemma TheThird()
    ensures Apply(State([A, B], 4, 0), 10, 2, Put(3, 3), Cadence(0, 0), 12).state == State([C, A], 5, 0)
    ensures Apply(State([B], 4, 12), 10, 2, Put(3, 3), Cadence(4, 0), 12).state == State([C, B], 5, 12)
  {
    PairOfItems(A, B, 2, 10, 12);
  }

  lemma TheSecond()
    ensures Apply(State([C, A], 5, 0), 10, 2, Get(2), Cadence(0, 0), 13).answer == None
    ensures Apply(State([C, B], 5, 12), 10, 2, Get(2), Cadence(4, 0), 13).answer == Some(2)
  {
    PairOfItems(C, A, 2, 10, 13);
    PairOfItems(C, B, 2, 10, 13);
  }

  lemma NextState<K, V>(ttl: int, maxSize: nat, log: seq<Call<K, V>>, run: seq<State<K, V>>, script: seq<(Op<K, V>, int)>,
                        cadence: Cadence, i: nat, op: Op<K, V>, now: int, s: State<K, V>)
    requires IsRun(ttl, maxSize, log, run) && Follows(log, script, cadence) && i < |script| && script[i] == (op, now)
    requires run[i] == s
    ensures var r := Apply(s, ttl, maxSize, op, cadence, now); run[i + 1] == r.state && log[i].answer == r.answer
  {
    assert StepAt(ttl, maxSize, log, run, i);
  }

  lemma FirstStored(log: seq<Call<int, int>>, run: seq<State<int, int>>, cadence: Cadence)
    requires IsRun(10, 2, log, run) && Follows(log, SCRIPT, cadence) && run[0] == State([], 0, 0)
    requires cadence == Cadence(0, 0) || cadence == Cadence(4, 0)
    ensures run[1] == State([A], 1, 0)
  {
    FirstTwo(cadence);
    NextState(10, 2, log, run, SCRIPT, cadence, 0, Put(1, 1), 0, State([], 0, 0));
  }

  lemma SecondStored(log: seq<Call<int, int>>, run: seq<State<int, int>>, cadence: Cadence)
    requires IsRun(10, 2, log, run) && Follows(log, SCRIPT, cadence) && run[1] == State([A], 1, 0)
    requires cadence == Cadence(0, 0) || cadence == Cadence(4, 0)
    ensures run[2] == State([B, A], 2, 0)
  {
    FirstTwo(cadence);
    NextState(10, 2, log, run, SCRIPT, cadence, 1, Put(2, 2), 5, State([A], 1, 0));
  }

  lemma FirstThree(log: seq<Call<int, int>>, run: seq<State<int, int>>, cadence: Cadence)
    requires IsRun(10, 2, log, run) && Follows(log, SCRIPT, cadence) && run[0] == State([], 0, 0)
    requires cadence == Cadence(0, 0) || cadence == Cadence(4, 0)
    ensures run[3] == State([A, B], 3, 0)
  {
    FirstStored(log, run, cadence);
    SecondStored(log, run, cadence);
    TheFirstAgain(cadence);
    NextState(10, 2, log, run, SCRIPT, cadence, 2, Get(1), 6, State([B, A], 2, 0));
  }

  lemma NeverSwept(log: seq<Call<int, int>>, run: seq<State<int, int>>)
    requires IsRun(10, 2, log, run) && Follows(log, SCRIPT, Cadence(0, 0)) && run[0] == State([], 0, 0)
    ensures log[5].answer == None
  {
    FirstThree(log, run, Cadence(0, 0));
    AMiss();
    TheThird();
    TheSecond();
    NextState(10, 2, log, run, SCRIPT, Cadence(0, 0), 3, Get(9), 12, State([A, B], 3, 0));
    NextState(10, 2, log, run, SCRIPT, Cadence(0, 0), 4, Put(3, 3), 12, State([A, B], 4, 0));
    NextState(10, 2, log, run, SCRIPT, Cadence(0, 0), 5, Get(2), 13, State([C, A], 5, 0));
  }

  lemma SweptInTime(log: seq<Call<int, int>>, run: seq<State<int, int>>)
    requires IsRun(10, 2, log, run) && Follows(log, SCRIPT, Cadence(4, 0)) && run[0] == State([], 0, 0)
    ensures log[5].answer == Some(2)
  {
    FirstThree(log, run, Cadence(4, 0));
    AMiss();
    TheThird();
    TheSecond();
    NextState(10, 2, log, run, SCRIPT, Cadence(4, 0), 3, Get(9), 12, State([A, B], 3, 0));
    NextState(10, 2, log, run, SCRIPT, Cadence(4, 0), 4, Put(3, 3), 12, State([B], 4, 12));
    NextState(10, 2, log, run, SCRIPT, Cadence(4, 0), 5, Get(2), 13, State([C, B], 5, 12));
  }

  /**
   * It can show: the same six calls at the same times, never swept and swept every fourth call. A key used last but expired
   * first, swept in time, saves a live one from being pushed out.
   */
  lemma CadenceCanShow()
    returns (log: seq<Call<int, int>>, run: seq<State<int, int>>, log': seq<Call<int, int>>, run': seq<State<int, int>>)
    ensures IsRun(10, 2, log, run) && Follows(log, SCRIPT, Cadence(0, 0)) && log[5].answer == None
    ensures IsRun(10, 2, log', run') && Follows(log', SCRIPT, Cadence(4, 0)) && log'[5].answer == Some(2)
  {
    log, run := ScriptRuns(10, 2, SCRIPT, Cadence(0, 0));
    log', run' := ScriptRuns(10, 2, SCRIPT, Cadence(4, 0));
    NeverSwept(log, run);
    SweptInTime(log', run');
  }
}

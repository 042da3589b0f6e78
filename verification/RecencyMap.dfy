/** A bounded map with expiry as one list of entries, most recently used first. */
module RecencyMap {
  import opened Options

  /** The expiry is absent when the map has no time to live. */
  datatype Item<K, V> = Item(key: K, value: V, expiresAt: Option<int>)

  datatype Reason = Size | Ttl | Unknown

  datatype Eviction<K, V> = Eviction(key: K, value: V, reason: Reason)

  datatype State<K, V> = State(list: seq<Item<K, V>>, ops: nat, lastSweep: int)

  /** How often expired entries are swept out: every so many operations, or when so much time has passed. */
  datatype Cadence = Cadence(everyOps: nat, minInterval: int)

  datatype Op<K, V> = Get(key: K) | Put(key: K, value: V) | Delete(key: K) | Sweep

  datatype Result<K, V> = Result(state: State<K, V>, answer: Option<V>, removed: seq<Eviction<K, V>>)

  function NextExpiry(ttl: int, now: int): Option<int> {
    if ttl <= 0 then None else Some(now + ttl)
  }

  predicate Expired(ttl: int, expiresAt: Option<int>, now: int) {
    ttl > 0 && expiresAt.Some? && expiresAt.value <= now
  }

  predicate Due(ttl: int, cadence: Cadence, ops: nat, lastSweep: int, now: int) {
    ttl > 0 &&
    ((cadence.everyOps > 0 && ops % cadence.everyOps == 0) || (cadence.minInterval > 0 && now - lastSweep >= cadence.minInterval))
  }

  // ---------------------------------------------------------------- the list

  ghost predicate Has<K, V>(l: seq<Item<K, V>>, k: K) {
    exists i :: 0 <= i < |l| && l[i].key == k
  }

  ghost predicate Distinct<K, V>(l: seq<Item<K, V>>) {
    forall i, j :: 0 <= i < j < |l| ==> l[i].key != l[j].key
  }

  function Find<K(==), V>(l: seq<Item<K, V>>, k: K): (r: Option<Item<K, V>>)
    ensures r.Some? <==> Has(l, k)
    ensures r.Some? ==> r.value in l && r.value.key == k
  {
    if l == [] then None
    else if l[0].key == k then Some(l[0])
    else
      assert forall i :: 0 < i < |l| ==> l[i] == l[1..][i - 1];
      Find(l[1..], k)
  }

  function Without<K(==), V>(l: seq<Item<K, V>>, k: K): seq<Item<K, V>> {
    if l == [] then []
    else (if l[0].key == k then [] else [l[0]]) + Without(l[1..], k)
  }

  function Live<K, V>(l: seq<Item<K, V>>, ttl: int, now: int): seq<Item<K, V>> {
    if l == [] then []
    else (if Expired(ttl, l[0].expiresAt, now) then [] else [l[0]]) + Live(l[1..], ttl, now)
  }

  ghost function Expirations<K, V>(l: seq<Item<K, V>>, ttl: int, now: int): seq<Eviction<K, V>> {
    if l == [] then []
    else (if Expired(ttl, l[0].expiresAt, now) then [Eviction(l[0].key, l[0].value, Ttl)] else []) +
         Expirations(l[1..], ttl, now)
  }

  // ---------------------------------------------------------------- operations

  /** maybeSweepLocked, after the operation has been counted */
  ghost function MaybeSweep<K, V>(r: Result<K, V>, ttl: int, cadence: Cadence, now: int): Result<K, V> {
    if Due(ttl, cadence, r.state.ops, r.state.lastSweep, now) then
      Result(State(Live(r.state.list, ttl, now), r.state.ops, now), r.answer,
             r.removed + Expirations(r.state.list, ttl, now))
    else r
  }

  ghost function GetCore<K, V>(s: State<K, V>, ttl: int, k: K, now: int): Result<K, V> {
    var found := Find(s.list, k);
    if found.None? then Result(s, None, [])
    else
      var it := found.value;
      if Expired(ttl, it.expiresAt, now) then
        Result(s.(list := Without(s.list, k)), None, [Eviction(k, it.value, Ttl)])
      else Result(s.(list := [it] + Without(s.list, k)), Some(it.value), [])
  }

  /** The list once there is room for one more, and what had to go for it: the tail. */
  ghost function MakeRoom<K, V>(s: State<K, V>, maxSize: nat): Result<K, V> {
    if |s.list| >= maxSize && s.list != [] then
      var tail := s.list[|s.list| - 1];
      Result(s.(list := Without(s.list, tail.key)), None, [Eviction(tail.key, tail.value, Size)])
    else Result(s, None, [])
  }

  ghost function PutCore<K, V>(s: State<K, V>, ttl: int, maxSize: nat, k: K, v: V, now: int): Result<K, V> {
    var it := Item(k, v, NextExpiry(ttl, now));
    if Has(s.list, k) then Result(s.(list := [it] + Without(s.list, k)), None, [])
    else
      var r := MakeRoom(s, maxSize);
      r.(state := r.state.(list := [it] + r.state.list))
  }

  ghost function DeleteCore<K, V>(s: State<K, V>, k: K): Result<K, V> {
    var found := Find(s.list, k);
    if found.None? then Result(s, None, [])
    else Result(s.(list := Without(s.list, k)), None, [Eviction(k, found.value.value, Unknown)])
  }

  function Counted<K, V>(s: State<K, V>): State<K, V> {
    s.(ops := s.ops + 1)
  }

  /** One call at time `now`. */
  ghost function Apply<K, V>(s: State<K, V>, ttl: int, maxSize: nat, op: Op<K, V>, cadence: Cadence, now: int): Result<K, V> {
    var t := Counted(s);
    match op
    case Get(k) => MaybeSweep(GetCore(t, ttl, k, now), ttl, cadence, now)
    case Put(k, v) => MaybeSweep(PutCore(t, ttl, maxSize, k, v, now), ttl, cadence, now)
    case Delete(k) => MaybeSweep(DeleteCore(t, k), ttl, cadence, now)
    case Sweep => Result(State(Live(s.list, ttl, now), s.ops, now), None, Expirations(s.list, ttl, now))
  }

  // ---------------------------------------------------------------- facts about the list

  lemma {:induction false} WithoutMeans<K, V>(l: seq<Item<K, V>>, k: K)
    ensures forall it :: it in Without(l, k) ==> it in l && it.key != k
    ensures forall it :: it in l && it.key != k ==> it in Without(l, k)
    ensures |Without(l, k)| <= |l| && (Has(l, k) ==> |Without(l, k)| < |l|)
    ensures !Has(l, k) ==> Without(l, k) == l
    ensures !Has(Without(l, k), k)
  {
    if l != [] {
      WithoutMeans(l[1..], k);
      assert forall it :: it in l <==> it == l[0] || it in l[1..];
      assert Has(l[1..], k) ==> Has(l, k) by {
        if i :| 0 <= i < |l[1..]| && l[1..][i].key == k { assert l[i + 1].key == k; }
      }
      if !Has(l, k) { assert l[0].key != k; }
      if Has(l, k) && l[0].key != k {
        var i :| 0 <= i < |l| && l[i].key == k;
        assert l[1..][i - 1].key == k;
      }
    }
  }

  lemma {:induction false} LiveMeans<K, V>(l: seq<Item<K, V>>, ttl: int, now: int)
    ensures forall it :: it in Live(l, ttl, now) ==> it in l && !Expired(ttl, it.expiresAt, now)
    ensures forall it :: it in l && !Expired(ttl, it.expiresAt, now) ==> it in Live(l, ttl, now)
    ensures |Live(l, ttl, now)| <= |l|
  {
    if l != [] {
      LiveMeans(l[1..], ttl, now);
      assert forall it :: it in l <==> it == l[0] || it in l[1..];
    }
  }

  /** `sub` keeps some entries of `l` in their order. */
  ghost predicate Keeps<K, V>(sub: seq<Item<K, V>>, l: seq<Item<K, V>>)
    decreases |l|
  {
    if l == [] then sub == []
    else (sub != [] && sub[0] == l[0] && Keeps(sub[1..], l[1..])) || Keeps(sub, l[1..])
  }

  lemma {:induction false} WithoutKeeps<K, V>(l: seq<Item<K, V>>, k: K)
    ensures Keeps(Without(l, k), l)
  {
    if l != [] {
      WithoutKeeps(l[1..], k);
      assert Without(l, k) == Without(l[1..], k) || Without(l, k)[1..] == Without(l[1..], k);
    }
  }

  lemma {:induction false} LiveKeeps<K, V>(l: seq<Item<K, V>>, ttl: int, now: int)
    ensures Keeps(Live(l, ttl, now), l)
  {
    if l != [] {
      LiveKeeps(l[1..], ttl, now);
      assert Live(l, ttl, now) == Live(l[1..], ttl, now) || Live(l, ttl, now)[1..] == Live(l[1..], ttl, now);
    }
  }

  /** Two kept entries stand in the same order in the longer list. */
  lemma {:induction false} KeepsOrder<K, V>(sub: seq<Item<K, V>>, l: seq<Item<K, V>>, i: nat, j: nat) returns (a: nat, b: nat)
    requires Keeps(sub, l) && i < j < |sub|
    ensures a < b < |l| && l[a] == sub[i] && l[b] == sub[j]
    decreases |l|
  {
    if Keeps(sub, l[1..]) {
      a, b := KeepsOrder(sub, l[1..], i, j);
      a, b := a + 1, b + 1;
    } else if i > 0 {
      a, b := KeepsOrder(sub[1..], l[1..], i - 1, j - 1);
      a, b := a + 1, b + 1;
    } else {
      a := 0;
      b := KeepsAt(sub[1..], l[1..], j - 1);
      b := b + 1;
    }
  }

  lemma {:induction false} KeepsAt<K, V>(sub: seq<Item<K, V>>, l: seq<Item<K, V>>, j: nat) returns (b: nat)
    requires Keeps(sub, l) && j < |sub|
    ensures b < |l| && l[b] == sub[j]
    decreases |l|
  {
    if Keeps(sub, l[1..]) {
      b := KeepsAt(sub, l[1..], j);
      b := b + 1;
    } else if j > 0 {
      b := KeepsAt(sub[1..], l[1..], j - 1);
      b := b + 1;
    } else {
      b := 0;
    }
  }

  lemma KeepsDistinct<K, V>(sub: seq<Item<K, V>>, l: seq<Item<K, V>>)
    requires Keeps(sub, l) && Distinct(l)
    ensures Distinct(sub)
  {
    forall i, j | 0 <= i < j < |sub| ensures sub[i].key != sub[j].key {
      var a, b := KeepsOrder(sub, l, i, j);
    }
  }
}

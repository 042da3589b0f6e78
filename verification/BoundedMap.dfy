/** The bounded map itself: a map of entries and a list of keys that together stand for one recency list. */
module BoundedMapImpl {
  import opened Options
  import opened RecencyMap
  import opened RecencyRuns
  import opened RecencyReports
  import opened KeyList
  import opened ElementList

  /** `element` is the handle of the key's element on the list. */
  datatype Entry<K, V> = Entry(key: K, value: V, expiresAt: Option<int>, element: nat)

  function ItemOf<K, V>(k: K, e: Entry<K, V>): Item<K, V> {
    Item(k, e.value, e.expiresAt)
  }

  // ---------------------------------------------------------------- the map and its elements

  /**
   * The list holds one element for every key of the map and no other: the entry of that key knows its key, and its handle is
   * the handle of that element and of no other.
   */
  ghost predicate Linked<K, V>(lru: seq<Node<K>>, items: map<K, Entry<K, V>>, next: nat) {
    if lru == [] then items == map[]
    else
      var n, rest := lru[0], lru[1..];
      && n.key in items && items[n.key].key == n.key && items[n.key].element == n.id
      && n.id < next && Absent(rest, n.id) && Linked(rest, items - {n.key}, next)
  }

  /** The entries in the order of the list. */
  ghost function Entries<K, V>(lru: seq<Node<K>>, items: map<K, Entry<K, V>>, next: nat): seq<Item<K, V>>
    requires Linked(lru, items, next)
  {
    if lru == [] then []
    else [ItemOf(lru[0].key, items[lru[0].key])] + Entries(lru[1..], items - {lru[0].key}, next)
  }

  /** The handle of an entry is on the list, on the element that carries the entry's key. */
  lemma {:induction false} HandleIsRight<K, V>(lru: seq<Node<K>>, items: map<K, Entry<K, V>>, next: nat, k: K)
    requires Linked(lru, items, next) && k in items
    ensures items[k].key == k && Node(items[k].element, k) in lru
    ensures forall n :: n in lru && n.id == items[k].element ==> n.key == k
  {
    var n0 := lru[0];
    if n0.key == k {
      forall n | n in lru && n.id == n0.id ensures n.key == k {
        if n != n0 {
          AbsentMeans(lru[1..], n0.id, n);
        }
      }
    } else {
      HandleIsRight(lru[1..], items - {n0.key}, next, k);
      AbsentMeans(lru[1..], n0.id, Node(items[k].element, k));
    }
  }

  lemma {:induction false} ListSize<K, V>(lru: seq<Node<K>>, items: map<K, Entry<K, V>>, next: nat)
    requires Linked(lru, items, next)
    ensures |lru| == |items| == |Entries(lru, items, next)|
  {
    if lru != [] {
      ListSize(lru[1..], items - {lru[0].key}, next);
      OneLess(items, lru[0].key);
    }
  }

  /** Looking a key up in the map is looking it up in the list of entries. */
  lemma {:induction false} SameLookup<K, V>(lru: seq<Node<K>>, items: map<K, Entry<K, V>>, next: nat, k: K)
    requires Linked(lru, items, next)
    ensures Find(Entries(lru, items, next), k) == if k in items then Some(ItemOf(k, items[k])) else None
    ensures k in items ==> items[k].key == k
  {
    if lru != [] {
      SameLookup(lru[1..], items - {lru[0].key}, next, k);
      assert Entries(lru, items, next)[1..] == Entries(lru[1..], items - {lru[0].key}, next);
    }
  }

  lemma {:induction false} LinkedDistinct<K, V>(lru: seq<Node<K>>, items: map<K, Entry<K, V>>, next: nat)
    requires Linked(lru, items, next)
    ensures Distinct(Entries(lru, items, next))
  {
    if lru != [] {
      var k0, rest := lru[0].key, items - {lru[0].key};
      LinkedDistinct(lru[1..], rest, next);
      SameLookup(lru[1..], rest, next, k0);
      FrontDistinct(ItemOf(k0, items[k0]), Entries(lru[1..], rest, next));
    }
  }

  lemma {:induction false} TailOfList<K, V>(lru: seq<Node<K>>, items: map<K, Entry<K, V>>, next: nat)
    requires Linked(lru, items, next) && lru != []
    ensures var l, tail := Entries(lru, items, next), lru[|lru| - 1].key;
            tail in items && items[tail].key == tail && |l| == |lru| && l[|lru| - 1] == ItemOf(tail, items[tail])
  {
    if lru[1..] != [] {
      TailOfList(lru[1..], items - {lru[0].key}, next);
    }
  }

  /** Taking an entry out of the map by its key and off the list by its handle takes out the same line. */
  lemma {:induction false} RemoveLinked<K, V>(lru: seq<Node<K>>, items: map<K, Entry<K, V>>, next: nat, k: K)
    requires Linked(lru, items, next) && k in items
    ensures Linked(Removed(lru, items[k].element), items - {k}, next)
    ensures Entries(Removed(lru, items[k].element), items - {k}, next) == Without(Entries(lru, items, next), k)
    ensures Picked(lru, items[k].element) == [Node(items[k].element, k)]
  {
    var n, rest, id := lru[0], items - {lru[0].key}, items[k].element;
    assert Entries(lru, items, next)[1..] == Entries(lru[1..], rest, next);
    if n.key == k {
      NothingToRemove(lru[1..], id);
      assert Removed(lru, id) == lru[1..];
      SameLookup(lru[1..], rest, next, k);
      WithoutMeans(Entries(lru[1..], rest, next), k);
    } else {
      RemoveLinked(lru[1..], rest, next, k);
      HandleIsRight(lru[1..], rest, next, k);
      AbsentMeans(lru[1..], n.id, Node(id, k));
      StaysAbsent(lru[1..], id, n.id);
      assert Removed(lru, id)[1..] == Removed(lru[1..], id);
      assert (items - {k}) - {n.key} == rest - {k};
    }
  }

  lemma {:induction false} UnusedHandle<K, V>(lru: seq<Node<K>>, items: map<K, Entry<K, V>>, next: nat)
    requires Linked(lru, items, next)
    ensures Absent(lru, next) && Linked(lru, items, next + 1)
    ensures Entries(lru, items, next + 1) == Entries(lru, items, next)
  {
    if lru != [] {
      UnusedHandle(lru[1..], items - {lru[0].key}, next);
    }
  }

  /** An element put in front of a list that has neither its key nor its handle. */
  lemma FrontLinked<K, V>(n: Node<K>, lru: seq<Node<K>>, rest: map<K, Entry<K, V>>, next: nat, e: Entry<K, V>)
    requires Linked(lru, rest, next) && Absent(lru, n.id) && n.key !in rest && n.id < next && e.key == n.key && e.element == n.id
    ensures Linked([n] + lru, rest[n.key := e], next)
    ensures Entries([n] + lru, rest[n.key := e], next) == [ItemOf(n.key, e)] + Entries(lru, rest, next)
  {
    assert ([n] + lru)[1..] == lru;
    assert rest[n.key := e] - {n.key} == rest;
  }

  lemma MoveLinked<K, V>(lru: seq<Node<K>>, items: map<K, Entry<K, V>>, next: nat, k: K, e: Entry<K, V>)
    requires Linked(lru, items, next) && k in items && e.key == k && e.element == items[k].element
    ensures Linked(MovedToFront(lru, e.element), items[k := e], next)
    ensures Entries(MovedToFront(lru, e.element), items[k := e], next) ==
            [ItemOf(k, e)] + Without(Entries(lru, items, next), k)
  {
    RemoveLinked(lru, items, next, k);
    StaysAbsent(lru, e.element, e.element);
    HandleBelow(lru, items, next, k);
    FrontLinked(Node(e.element, k), Removed(lru, e.element), items - {k}, next, e);
    assert (items - {k})[k := e] == items[k := e];
  }

  lemma {:induction false} HandleBelow<K, V>(lru: seq<Node<K>>, items: map<K, Entry<K, V>>, next: nat, k: K)
    requires Linked(lru, items, next) && k in items
    ensures items[k].element < next
  {
    if lru[0].key != k {
      HandleBelow(lru[1..], items - {lru[0].key}, next, k);
    }
  }

  lemma PushLinked<K, V>(lru: seq<Node<K>>, items: map<K, Entry<K, V>>, next: nat, k: K, e: Entry<K, V>)
    requires Linked(lru, items, next) && k !in items && e.key == k && e.element == next
    ensures Linked([Node(next, k)] + lru, items[k := e], next + 1)
    ensures Entries([Node(next, k)] + lru, items[k := e], next + 1) == [ItemOf(k, e)] + Without(Entries(lru, items, next), k)
  {
    UnusedHandle(lru, items, next);
    FrontLinked(Node(next, k), lru, items, next + 1, e);
    SameLookup(lru, items, next, k);
    WithoutMeans(Entries(lru, items, next), k);
  }

  // ---------------------------------------------------------------- sweeping, one entry at a time

  /** Half way through a sweep of `was`: the keys in `left` are still to be looked at. */
  ghost predicate Sweeping<K, V>(was: seq<Item<K, V>>, l: seq<Item<K, V>>, left: set<K>, ttl: int, now: int,
                                 gone: seq<Eviction<K, V>>) {
    && Live(l, ttl, now) == Live(was, ttl, now)
    && (forall it :: it in l && it.key !in left ==> !Expired(ttl, it.expiresAt, now))
    && multiset(gone) + multiset(Expirations(l, ttl, now)) == multiset(Expirations(was, ttl, now))
  }

  lemma {:induction false} ExpirationsWithout<K, V>(l: seq<Item<K, V>>, it: Item<K, V>, ttl: int, now: int)
    requires Distinct(l) && it in l && Expired(ttl, it.expiresAt, now)
    ensures multiset(Expirations(l, ttl, now)) ==
            multiset{Eviction(it.key, it.value, Ttl)} + multiset(Expirations(Without(l, it.key), ttl, now))
  {
    var rest := l[1..];
    WithoutMeans(rest, it.key);
    if l[0] == it {
      if Has(rest, it.key) {
        var x := HasGives(rest, it.key);
      }
      assert Without(l, it.key) == rest;
    } else {
      assert it in rest;
      FindIsThe(l, it);
      ExpirationsWithout(rest, it, ttl, now);
      assert Without(l, it.key) == [l[0]] + Without(rest, it.key);
      assert ([l[0]] + Without(rest, it.key))[1..] == Without(rest, it.key);
    }
  }

  lemma SweepStarts<K, V>(lru: seq<Node<K>>, items: map<K, Entry<K, V>>, next: nat, ttl: int, now: int)
    requires Linked(lru, items, next)
    ensures Sweeping(Entries(lru, items, next), Entries(lru, items, next), items.Keys, ttl, now, [])
  {
    var l := Entries(lru, items, next);
    forall it | it in l ensures it.key in items {
      var i :| 0 <= i < |l| && l[i] == it;
      assert Has(l, it.key);
      SameLookup(lru, items, next, it.key);
    }
  }

  lemma SweepOneMore<K, V>(was: seq<Item<K, V>>, l: seq<Item<K, V>>, left: set<K>, ttl: int, now: int,
                           gone: seq<Eviction<K, V>>, it: Item<K, V>)
    requires Sweeping(was, l, left, ttl, now, gone) && Distinct(l) && it in l
    ensures if Expired(ttl, it.expiresAt, now)
            then Sweeping(was, Without(l, it.key), left - {it.key}, ttl, now, gone + [Eviction(it.key, it.value, Ttl)])
            else Sweeping(was, l, left - {it.key}, ttl, now, gone)
  {
    FindIsThe(l, it);
    WithoutMeans(l, it.key);
    if Expired(ttl, it.expiresAt, now) {
      LiveWithout(l, it.key, ttl, now);
      LiveMeans(l, ttl, now);
      NotHas(Live(l, ttl, now), it.key);
      WithoutMeans(Live(l, ttl, now), it.key);
      ExpirationsWithout(l, it, ttl, now);
    }
  }

  lemma NotHas<K, V>(l: seq<Item<K, V>>, k: K)
    requires forall it :: it in l ==> it.key != k
    ensures !Has(l, k)
  {
  }

  lemma {:induction false} NothingExpired<K, V>(l: seq<Item<K, V>>, ttl: int, now: int)
    requires forall it :: it in l ==> !Expired(ttl, it.expiresAt, now)
    ensures Live(l, ttl, now) == l && Expirations(l, ttl, now) == []
  {
    if l != [] {
      assert l[0] in l;
      NothingExpired(l[1..], ttl, now);
    }
  }

  lemma SweptAll<K, V>(was: seq<Item<K, V>>, l: seq<Item<K, V>>, ttl: int, now: int, gone: seq<Eviction<K, V>>)
    requires Sweeping(was, l, {}, ttl, now, gone)
    ensures l == Live(was, ttl, now) && multiset(gone) == multiset(Expirations(was, ttl, now))
  {
    NothingExpired(l, ttl, now);
  }

  // ---------------------------------------------------------------- the object

  /** `fired` in the results is what the eviction callback was called with, in order; without a callback it is empty. */
  class BoundedMap<K(==, !new), V> {
    const maxSize: nat
    const ttl: int
    var items: map<K, Entry<K, V>>
    var lru: seq<Node<K>>
    var nextElement: nat
    var opCount: nat
    var lastSweep: int
    var cadence: Cadence
    var hasCallback: bool

    ghost predicate Valid()
      reads this
    {
      maxSize >= 1 && |items| <= maxSize && Linked(lru, items, nextElement)
    }

    ghost function View(): State<K, V>
      requires Valid()
      reads this
    {
      State(Entries(lru, items, nextElement), opCount, lastSweep)
    }

    /** NewBoundedMap: a bound that is not positive becomes one */
    constructor (maxSize: int, ttl: int, now: int)
      ensures Valid() && View() == State([], 0, now)
      ensures this.maxSize == (if maxSize <= 0 then 1 else maxSize) && this.ttl == ttl && !hasCallback
    {
      this.maxSize := if maxSize <= 0 then 1 else maxSize;
      this.ttl, items, lru, nextElement, opCount, lastSweep := ttl, map[], [], 0, 0, now;
      cadence, hasCallback := Cadence(0, 0), false;
    }

    /** evictLocked: the entry goes from the map by its key and from the list by its handle */
    method Evict(e: Entry<K, V>, reason: Reason) returns (ev: Eviction<K, V>)
      requires Valid() && e.key in items && items[e.key] == e
      modifies `items, `lru
      ensures Valid() && View() == old(View()).(list := Without(old(View().list), e.key)) && items == old(items) - {e.key}
      ensures ev == Eviction(e.key, e.value, reason)
    {
      RemoveLinked(lru, items, nextElement, e.key);
      items, lru := items - {e.key}, Removed(lru, e.element);
      ev := Eviction(e.key, e.value, reason);
    }

    /** One turn of the sweep's loop. */
    method SweepOne(k: K, now: int, gone: seq<Eviction<K, V>>, ghost was: seq<Item<K, V>>, ghost left: set<K>)
      returns (gone': seq<Eviction<K, V>>)
      requires Valid() && k in left && left <= items.Keys && Sweeping(was, View().list, left, ttl, now, gone)
      modifies `items, `lru
      ensures Valid() && left - {k} <= items.Keys && Sweeping(was, View().list, left - {k}, ttl, now, gone')
    {
      LinkedDistinct(lru, items, nextElement);
      SameLookup(lru, items, nextElement, k);
      SweepOneMore(was, View().list, left, ttl, now, gone, ItemOf(k, items[k]));
      if Expired(ttl, items[k].expiresAt, now) {
        var ev := Evict(items[k], Ttl);
        return gone + [ev];
      }
      return gone;
    }

    method SweepEach(now: int) returns (gone: seq<Eviction<K, V>>)
      requires Valid()
      modifies `items, `lru
      ensures Valid() && Sweeping(old(View().list), View().list, {}, ttl, now, gone)
    {
      ghost var was := View().list;
      SweepStarts(lru, items, nextElement, ttl, now);
      gone := [];
      var left := items.Keys;
      while left != {}
        invariant Valid() && left <= items.Keys && Sweeping(was, View().list, left, ttl, now, gone)
        decreases left
      {
        var k :| k in left;
        gone := SweepOne(k, now, gone, was, left);
        left := left - {k};
      }
    }

    /** sweepLocked: the entries taken out, in the order the map was walked */
    method SweepLocked(now: int) returns (gone: seq<Eviction<K, V>>)
      requires Valid()
      modifies `items, `lru
      ensures Valid() && View() == old(View()).(list := Live(old(View().list), ttl, now))
      ensures multiset(gone) == multiset(Expirations(old(View().list), ttl, now))
    {
      if ttl <= 0 || |items| == 0 {
        NothingExpired(View().list, ttl, now);
        return [];
      }
      gone := SweepEach(now);
      SweptAll(old(View().list), View().list, ttl, now, gone);
    }
  
    /** maybeSweepLocked, after a call proper that came out as `core` */
    method MaybeSweepLocked(now: int, gone: seq<Eviction<K, V>>, ghost core: Result<K, V>, ghost r: Result<K, V>)
      returns (gone': seq<Eviction<K, V>>)
      requires Valid() && View() == core.state && gone == core.removed && r == MaybeSweep(core, ttl, cadence, now)
      modifies `items, `lru, `lastSweep
      ensures Valid() && View() == r.state && multiset(gone') == multiset(r.removed)
    {
      gone' := gone;
      if Due(ttl, cadence, opCount, lastSweep, now) {
        var swept := SweepLocked(now);
        lastSweep, gone' := now, gone + swept;
      }
    }

    /** A resident entry written again, and its element moved to the front. */
    method Refresh(e: Entry<K, V>)
      requires Valid() && e.key in items && e.element == items[e.key].element
      modifies `items, `lru
      ensures Valid() && View() == old(View()).(list := [ItemOf(e.key, e)] + Without(old(View().list), e.key))
    {
      MoveLinked(lru, items, nextElement, e.key, e);
      items, lru := items[e.key := e], MovedToFront(lru, e.element);
    }

    /** A new entry, with a new element at the front. */
    method Push(k: K, v: V, expiresAt: Option<int>)
      requires Valid() && k !in items && |items| < maxSize
      modifies `items, `lru, `nextElement
      ensures Valid() && View() == old(View()).(list := [Item(k, v, expiresAt)] + Without(old(View().list), k))
    {
      var e := Entry(k, v, expiresAt, nextElement);
      PushLinked(lru, items, nextElement, k, e);
      items, lru, nextElement := items[k := e], [Node(nextElement, k)] + lru, nextElement + 1;
    }

    /** What the callback sees of the entries taken out. */
    function Fired(gone: seq<Eviction<K, V>>): seq<Eviction<K, V>>
      reads this
    {
      if hasCallback then gone else []
    }

    method GetLocked(k: K, now: int) returns (answer: Option<V>, gone: seq<Eviction<K, V>>)
      requires Valid()
      modifies `items, `lru
      ensures Valid()
      ensures var r := GetCore(old(View()), ttl, k, now); View() == r.state && answer == r.answer && gone == r.removed
    {
      SameLookup(lru, items, nextElement, k);
      if k !in items {
        return None, [];
      }
      var e := items[k];
      if Expired(ttl, e.expiresAt, now) {
        var ev := Evict(e, Ttl);
        return None, [ev];
      }
      Refresh(e);
      return Some(e.value), [];
    }

    /** Get */
    method Get(k: K, now: int) returns (answer: Option<V>, ghost removed: seq<Eviction<K, V>>, fired: seq<Eviction<K, V>>)
      requires Valid()
      modifies `items, `lru, `lastSweep, `opCount
      ensures Valid() && fired == Fired(removed)
      ensures var r := Apply(old(View()), ttl, maxSize, RecencyMap.Get(k), cadence, now);
              View() == r.state && answer == r.answer && multiset(removed) == multiset(r.removed)
    {
      ghost var r := Apply(View(), ttl, maxSize, RecencyMap.Get(k), cadence, now);
      ghost var core := GetCore(Counted(View()), ttl, k, now);
      opCount := opCount + 1;
      var gone;
      answer, gone := GetLocked(k, now);
      gone := MaybeSweepLocked(now, gone, core, r);
      removed, fired := gone, Fired(gone);
    }

    /** Making room for a new key: the tail of the list goes if the map is full. */
    method EvictTail() returns (gone: seq<Eviction<K, V>>)
      requires Valid()
      modifies `items, `lru
      ensures Valid() && |items| < maxSize && items.Keys <= old(items.Keys)
      ensures var r := MakeRoom(old(View()), maxSize); View() == r.state && gone == r.removed
    {
      ListSize(lru, items, nextElement);
      if |items| >= maxSize {
        TailOfList(lru, items, nextElement);
        var tail := lru[|lru| - 1].key;
        OneLess(items, tail);
        var ev := Evict(items[tail], Size);
        return [ev];
      }
      return [];
    }

    method PutLocked(k: K, v: V, now: int) returns (gone: seq<Eviction<K, V>>)
      requires Valid()
      modifies `items, `lru, `nextElement
      ensures Valid()
      ensures var r := PutCore(old(View()), ttl, maxSize, k, v, now); View() == r.state && gone == r.removed
    {
      SameLookup(lru, items, nextElement, k);
      if k in items {
        Refresh(items[k].(value := v, expiresAt := NextExpiry(ttl, now)));
        return [];
      }
      gone := EvictTail();
      SameLookup(lru, items, nextElement, k);
      WithoutMeans(View().list, k);
      Push(k, v, NextExpiry(ttl, now));
    }

    /** Put */
    method Put(k: K, v: V, now: int) returns (ghost removed: seq<Eviction<K, V>>, fired: seq<Eviction<K, V>>)
      requires Valid()
      modifies `items, `lru, `nextElement, `lastSweep, `opCount
      ensures Valid() && fired == Fired(removed)
      ensures var r := Apply(old(View()), ttl, maxSize, RecencyMap.Put(k, v), cadence, now);
              View() == r.state && multiset(removed) == multiset(r.removed)
    {
      ghost var r := Apply(View(), ttl, maxSize, RecencyMap.Put(k, v), cadence, now);
      ghost var core := PutCore(Counted(View()), ttl, maxSize, k, v, now);
      opCount := opCount + 1;
      var gone := PutLocked(k, v, now);
      gone := MaybeSweepLocked(now, gone, core, r);
      removed, fired := gone, Fired(gone);
    }

    method DeleteLocked(k: K) returns (gone: seq<Eviction<K, V>>)
      requires Valid()
      modifies `items, `lru
      ensures Valid()
      ensures var r := DeleteCore(old(View()), k); View() == r.state && gone == r.removed
    {
      SameLookup(lru, items, nextElement, k);
      if k in items {
        var ev := Evict(items[k], Unknown);
        return [ev];
      }
      return [];
    }

    /** Delete */
    method Delete(k: K, now: int) returns (ghost removed: seq<Eviction<K, V>>, fired: seq<Eviction<K, V>>)
      requires Valid()
      modifies `items, `lru, `lastSweep, `opCount
      ensures Valid() && fired == Fired(removed)
      ensures var r := Apply(old(View()), ttl, maxSize, RecencyMap.Delete(k), cadence, now);
              View() == r.state && multiset(removed) == multiset(r.removed)
    {
      ghost var r := Apply(View(), ttl, maxSize, RecencyMap.Delete(k), cadence, now);
      ghost var core := DeleteCore(Counted(View()), k);
      opCount := opCount + 1;
      var gone := DeleteLocked(k);
      gone := MaybeSweepLocked(now, gone, core, r);
      removed, fired := gone, Fired(gone);
    }

    /** Sweep */
    method Sweep(now: int) returns (count: nat, ghost removed: seq<Eviction<K, V>>, fired: seq<Eviction<K, V>>)
      requires Valid()
      modifies `items, `lru, `lastSweep
      ensures Valid() && fired == Fired(removed) && count == |removed|
      ensures var r := Apply(old(View()), ttl, maxSize, RecencyMap.Sweep, cadence, now);
              View() == r.state && multiset(removed) == multiset(r.removed)
    {
      var gone := SweepLocked(now);
      lastSweep := now;
      count, removed, fired := |gone|, gone, Fired(gone);
    }
  }
}

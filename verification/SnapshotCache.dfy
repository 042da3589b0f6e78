/** A bounded cache in front of a slow source, which gives up its lock while it asks the source. */
module SnapshotCacheSpec {
  import opened Options
  import opened KeyList

  /** A trimmed subject. */
  datatype Key = Key(text: string)

  type Payload = seq<bv8>

  datatype Entry = Entry(payload: Payload, cachedAt: int)

  datatype Cache = Cache(entries: map<Key, Entry>, order: seq<Key>)

  datatype Limits = Limits(ttl: int, maxEntries: nat)

  /** The first critical section: a hit, or a miss that drops what is too old. */
  function Lookup(c: Cache, k: Key, now: int, ttl: int): (Cache, Option<Payload>) {
    if k !in c.entries then (c, None)
    else if now - c.entries[k].cachedAt <= ttl then (c, Some(c.entries[k].payload))
    else (Cache(c.entries - {k}, Unlinked(c.order, k)), None)
  }

  /** The eviction loop, for the key just stored */
  function Trim(c: Cache, k: Key, maxEntries: nat): Cache
    decreases |c.order|
  {
    if |c.entries| > maxEntries && |c.order| > 0 then
      var oldest, rest := c.order[0], c.order[1..];
      Trim(Cache(if oldest == k then c.entries else c.entries - {oldest}, rest), k, maxEntries)
    else c
  }

  function Added(c: Cache, k: Key, e: Entry): Cache {
    Cache(c.entries[k := e], if k in c.entries then c.order else c.order + [k])
  }

  /** The second critical section. */
  function Store(c: Cache, k: Key, e: Entry, maxEntries: nat): Cache {
    Trim(Added(c, k, e), k, maxEntries)
  }

  ghost predicate Valid(c: Cache, maxEntries: nat) {
    Matches(c.order, c.entries) && |c.entries| <= maxEntries && maxEntries >= 1
  }

  lemma LookupKeepsValid(c: Cache, k: Key, now: int, lim: Limits)
    requires Valid(c, lim.maxEntries)
    ensures Valid(Lookup(c, k, now, lim.ttl).0, lim.maxEntries)
    ensures var kept := Lookup(c, k, now, lim.ttl).0.entries;
            forall x :: x in kept ==> x in c.entries && kept[x] == c.entries[x]
  {
    UnlinkMatches(c.order, c.entries, k);
    if k in c.entries {
      OneLess(c.entries, k);
    }
  }

  lemma AddedMatches(c: Cache, k: Key, e: Entry)
    requires Matches(c.order, c.entries)
    ensures Matches(Added(c, k, e).order, Added(c, k, e).entries)
    ensures |Added(c, k, e).entries| == |c.entries| + (if k in c.entries then 0 else 1)
  {
    if k in c.entries {
      UpdateMatches(c.order, c.entries, k, e);
    } else {
      AppendMatches(c.order, c.entries, k, e);
    }
  }

  /**
   * The loop turns at most once, and the key it takes is never the one just stored: an update of a resident key needs no
   * room, and a new key is at the other end of the order.
   */
  lemma TrimTurnsOnce(c: Cache, k: Key, e: Entry, maxEntries: nat)
    requires Valid(c, maxEntries)
    ensures var a, r := Added(c, k, e), Store(c, k, e, maxEntries);
            if k !in c.entries && |c.entries| == maxEntries
            then a.order[0] != k && r == Cache(a.entries - {a.order[0]}, a.order[1..])
            else r == a
    ensures Valid(Store(c, k, e, maxEntries), maxEntries)
    ensures k in Store(c, k, e, maxEntries).entries && Store(c, k, e, maxEntries).entries[k] == e
  {
    var a := Added(c, k, e);
    AddedMatches(c, k, e);
    SameSize(c.order, c.entries);
    if |a.entries| > maxEntries {
      SameKeys(c.order, c.entries, k);
      assert a.order[0] == c.order[0] && c.order[0] in c.order;
      OneLess(a.entries, a.order[0]);
      var next := Cache(a.entries - {a.order[0]}, a.order[1..]);
      assert Trim(a, k, maxEntries) == Trim(next, k, maxEntries) == next;
    }
  }

  // ---------------------------------------------------------------- callers, interleaved

  /** A call to the source: when it began and what it gave. */
  datatype Fetch = Fetch(key: Key, begun: int, payload: Payload)

  datatype Caller =
    | Arrived(key: Key, now: int)
    | Missed(key: Key, now: int)
    | Asking(key: Key, now: int, begun: int)
    | Answered(key: Key, now: int, payload: Payload)
    | Finished(key: Key, now: int, result: Option<Payload>, hit: bool)

  datatype World = World(cache: Cache, callers: map<nat, Caller>, fetches: set<Fetch>, clock: int)

  datatype Event =
    | Tick(to: int)
    | Arrive(id: nat, key: Key)
    | LookUp(id: nat)
    | Ask(id: nat)
    | Answer(id: nat, payload: Option<Payload>)
    | Keep(id: nat)

  predicate Enabled(w: World, e: Event) {
    match e
    case Tick(to) => to >= w.clock
    case Arrive(id, _) => id !in w.callers
    case LookUp(id) => id in w.callers && w.callers[id].Arrived?
    case Ask(id) => id in w.callers && w.callers[id].Missed?
    case Answer(id, _) => id in w.callers && w.callers[id].Asking?
    case Keep(id) => id in w.callers && w.callers[id].Answered?
  }

  function Step(lim: Limits, w: World, e: Event): World
    requires Enabled(w, e)
  {
    match e
    case Tick(to) => w.(clock := to)
    case Arrive(id, k) => w.(callers := w.callers[id := Arrived(k, w.clock)])
    case LookUp(id) =>
      var caller := w.callers[id];
      if caller.key.text == "" then w.(callers := w.callers[id := Missed(caller.key, caller.now)])
      else
        var (cache, found) := Lookup(w.cache, caller.key, caller.now, lim.ttl);
        w.(cache := cache,
           callers := w.callers[id := if found.Some? then Finished(caller.key, caller.now, found, true)
                                      else Missed(caller.key, caller.now)])
    case Ask(id) =>
      w.(callers := w.callers[id := Asking(w.callers[id].key, w.callers[id].now, w.clock)])
    case Answer(id, payload) =>
      var caller := w.callers[id];
      w.(fetches := if payload.Some? then w.fetches + {Fetch(caller.key, caller.begun, payload.value)} else w.fetches,
         callers := w.callers[id := if caller.key.text == "" || payload.None? || payload.value == []
                                    then Finished(caller.key, caller.now, payload, false)
                                    else Answered(caller.key, caller.now, payload.value)])
    case Keep(id) =>
      var caller := w.callers[id];
      w.(cache := Store(w.cache, caller.key, Entry(caller.payload, caller.now), lim.maxEntries),
         callers := w.callers[id := Finished(caller.key, caller.now, Some(caller.payload), false)])
  }

  /** The payload came from a call to the source for this key that began at `at` or later. */
  ghost predicate From(fetches: set<Fetch>, k: Key, payload: Payload, at: int) {
    exists f :: f in fetches && f.key == k && f.payload == payload && f.begun >= at
  }

  ghost predicate CallerOk(lim: Limits, w: World, caller: Caller) {
    && caller.now <= w.clock
    && (caller.Asking? ==> caller.begun >= caller.now)
    && (caller.Answered? ==> From(w.fetches, caller.key, caller.payload, caller.now))
    && (caller.Finished? && caller.hit ==>
        caller.result.Some? && From(w.fetches, caller.key, caller.result.value, caller.now - lim.ttl))
  }

  ghost predicate Sourced(w: World) {
    forall k :: k in w.cache.entries ==> From(w.fetches, k, w.cache.entries[k].payload, w.cache.entries[k].cachedAt)
  }

  ghost predicate Inv(lim: Limits, w: World) {
    && Valid(w.cache, lim.maxEntries) && Sourced(w)
    && forall id :: id in w.callers ==> CallerOk(lim, w, w.callers[id])
  }

  lemma LaterCallers(lim: Limits, w: World, v: World, caller: Caller)
    requires CallerOk(lim, w, caller) && w.fetches <= v.fetches && w.clock <= v.clock
    ensures CallerOk(lim, v, caller)
  {
  }

  lemma StepKeepsInv(lim: Limits, w: World, e: Event)
    requires Inv(lim, w) && Enabled(w, e)
    ensures Inv(lim, Step(lim, w, e))
  {
    var v := Step(lim, w, e);
    forall id | id in v.callers ensures CallerOk(lim, v, v.callers[id]) {
      if id in w.callers && v.callers[id] == w.callers[id] {
        LaterCallers(lim, w, v, w.callers[id]);
      } else {
        StepCaller(lim, w, e, id);
      }
    }
    StepCache(lim, w, e);
  }

  lemma StepCaller(lim: Limits, w: World, e: Event, id: nat)
    requires Inv(lim, w) && Enabled(w, e) && !e.Tick? && e.id == id
    ensures id in Step(lim, w, e).callers && CallerOk(lim, Step(lim, w, e), Step(lim, w, e).callers[id])
  {
  }

  lemma StepCache(lim: Limits, w: World, e: Event)
    requires Inv(lim, w) && Enabled(w, e)
    ensures Valid(Step(lim, w, e).cache, lim.maxEntries) && Sourced(Step(lim, w, e))
  {
    var v := Step(lim, w, e);
    if e.LookUp? {
      LookupKeepsValid(w.cache, w.callers[e.id].key, w.callers[e.id].now, lim);
    } else if e.Keep? {
      var caller := w.callers[e.id];
      assert CallerOk(lim, w, caller);
      TrimTurnsOnce(w.cache, caller.key, Entry(caller.payload, caller.now), lim.maxEntries);
    }
  }

  // ---------------------------------------------------------------- whole runs

  ghost predicate Steps(lim: Limits, w: World, e: Event, v: World) {
    Enabled(w, e) && v == Step(lim, w, e)
  }

  ghost predicate StepAt(lim: Limits, log: seq<Event>, run: seq<World>, i: nat)
    requires i < |log| && |run| == |log| + 1
  {
    Steps(lim, run[i], log[i], run[i + 1])
  }

  ghost predicate IsRun(lim: Limits, log: seq<Event>, run: seq<World>) {
    && lim.maxEntries >= 1 && |run| == |log| + 1 && run[0] == World(Cache(map[], []), map[], {}, run[0].clock)
    && forall i :: 0 <= i < |log| ==> StepAt(lim, log, run, i)
  }

  lemma {:induction false} RunKeepsInv(lim: Limits, log: seq<Event>, run: seq<World>, n: nat)
    requires IsRun(lim, log, run) && n < |run|
    ensures Inv(lim, run[n])
  {
    if n > 0 {
      RunKeepsInv(lim, log, run, n - 1);
      assert StepAt(lim, log, run, n - 1);
      StepKeepsInv(lim, run[n - 1], log[n - 1]);
    }
  }

  /** However the callers interleave, the order lists every cached key once and no other, and the bound holds. */
  lemma OrderListsKeys(lim: Limits, log: seq<Event>, run: seq<World>, n: nat)
    requires IsRun(lim, log, run) && n < |run|
    ensures var c := run[n].cache;
            && (forall i, j :: 0 <= i < j < |c.order| ==> c.order[i] != c.order[j])
            && (forall k :: k in c.order <==> k in c.entries)
            && |c.order| == |c.entries| <= lim.maxEntries
  {
    RunKeepsInv(lim, log, run, n);
    var c := run[n].cache;
    NoRepeats(c.order, c.entries);
    SameSize(c.order, c.entries);
    forall k ensures k in c.order <==> k in c.entries {
      SameKeys(c.order, c.entries, k);
    }
  }

  /** The cache has something for the caller that was stored no longer than the time to live before it arrived. */
  ghost predicate Fresh(lim: Limits, c: Cache, caller: Caller) {
    caller.key.text != "" && caller.key in c.entries && caller.now <= c.entries[caller.key].cachedAt + lim.ttl
  }

  ghost predicate SameBut(a: map<Key, Entry>, b: map<Key, Entry>, k: Key) {
    forall x :: x != k ==> (x in a <==> x in b) && (x in a && x in b ==> a[x] == b[x])
  }

  /** A fresh entry is returned as it is. Anything else is a miss, after which the key is not cached. */
  ghost predicate LooksRightly(lim: Limits, w: World, id: nat, v: World)
    requires id in w.callers && id in v.callers
  {
    var caller := w.callers[id];
    && SameBut(w.cache.entries, v.cache.entries, caller.key)
    && (if Fresh(lim, w.cache, caller)
        then v.cache == w.cache &&
             v.callers[id] == Finished(caller.key, caller.now, Some(w.cache.entries[caller.key].payload), true)
        else v.callers[id] == Missed(caller.key, caller.now) && (caller.key.text != "" ==> caller.key !in v.cache.entries))
  }

  /** What the source gives is returned at once, unless it can be kept first: then it is something, for a subject. */
  ghost predicate AnswersRightly(w: World, id: nat, payload: Option<Payload>, v: World)
    requires id in w.callers && id in v.callers
  {
    var caller := w.callers[id];
    && v.cache == w.cache
    && (v.callers[id] == Finished(caller.key, caller.now, payload, false) ||
        exists p :: payload == Some(p) && v.callers[id] == Answered(caller.key, caller.now, p))
    && (v.callers[id].Answered? <==> caller.key.text != "" && exists p :: payload == Some(p) && |p| > 0)
  }

  /** What is kept is cached as of the caller's arrival and returned. Only a newcomer to a full cache costs an entry: the oldest. */
  ghost predicate KeepsRightly(lim: Limits, w: World, id: nat, v: World)
    requires id in w.callers && id in v.callers && w.callers[id].Answered?
  {
    var caller := w.callers[id];
    var k, before, after := caller.key, w.cache.entries, v.cache.entries;
    && v.callers[id] == Finished(k, caller.now, Some(caller.payload), false)
    && k in after && after[k] == Entry(caller.payload, caller.now)
    && (if k !in before && |before| == lim.maxEntries
        then w.cache.order != [] && w.cache.order[0] !in after && SameBut(before - {w.cache.order[0]}, after, k)
        else SameBut(before, after, k))
  }

  /** In every run: what each critical section and each answer of the source does to the cache and to the caller. */
  lemma EveryCallIsRight(lim: Limits, log: seq<Event>, run: seq<World>, n: nat)
    requires IsRun(lim, log, run) && n < |log| && !log[n].Tick? && !log[n].Arrive?
    ensures var w, v, id := run[n], run[n + 1], log[n].id;
            && id in w.callers && id in v.callers
            && (log[n].LookUp? ==> LooksRightly(lim, w, id, v))
            && (log[n].Ask? ==> v == w.(callers := w.callers[id := Asking(w.callers[id].key, w.callers[id].now, w.clock)]))
            && (log[n].Answer? ==> AnswersRightly(w, id, log[n].payload, v))
            && (log[n].Keep? ==> w.callers[id].Answered? && KeepsRightly(lim, w, id, v))
    ensures forall id :: id in run[n].callers && id != log[n].id ==>
              id in run[n + 1].callers && run[n + 1].callers[id] == run[n].callers[id]
  {
    RunKeepsInv(lim, log, run, n);
    assert StepAt(lim, log, run, n);
    if log[n].Keep? {
      KeepMeans(lim, run[n], log[n].id, run[n + 1]);
    }
  }

  lemma KeepMeans(lim: Limits, w: World, id: nat, v: World)
    requires Inv(lim, w) && Enabled(w, Keep(id)) && v == Step(lim, w, Keep(id))
    ensures KeepsRightly(lim, w, id, v)
  {
    var caller := w.callers[id];
    TrimTurnsOnce(w.cache, caller.key, Entry(caller.payload, caller.now), lim.maxEntries);
    SameSize(w.cache.order, w.cache.entries);
  }

  /** A hit gives what some call to the source for that subject gave, and that call began no earlier than ttl before. */
  lemma HitsAreFresh(lim: Limits, log: seq<Event>, run: seq<World>, n: nat, id: nat)
    requires IsRun(lim, log, run) && n < |run| && id in run[n].callers
    requires run[n].callers[id].Finished? && run[n].callers[id].hit
    ensures var c := run[n].callers[id];
            c.result.Some? && From(run[n].fetches, c.key, c.result.value, c.now - lim.ttl)
  {
    RunKeepsInv(lim, log, run, n);
    assert CallerOk(lim, run[n], run[n].callers[id]);
  }
}

/** The cache as an object: its order is a slice, compacted in place and cut from the front. */
module SnapshotCacheImpl {
  import opened Options
  import opened KeyList
  import opened SnapshotCacheSpec

  lemma {:induction false} UnlinkedAppends(a: seq<Key>, b: seq<Key>, k: Key)
    ensures Unlinked(a + b, k) == Unlinked(a, k) + Unlinked(b, k)
    ensures |Unlinked(a, k)| <= |a|
  {
    if a == [] {
      assert a + b == b;
    } else {
      assert (a + b)[1..] == a[1..] + b;
      UnlinkedAppends(a[1..], b, k);
    }
  }

  /** Half way: what is read is compacted below `end`, what is not yet read or lies outside is untouched. */
  ghost predicate Compacting(orig: seq<Key>, cur: seq<Key>, lo: nat, end: nat, i: nat, k: Key) {
    && lo <= end <= i <= |cur| == |orig| && cur[i..] == orig[i..] && cur[..lo] == orig[..lo]
    && cur[lo..end] == Unlinked(orig[lo..i], k)
  }

  lemma CompactOneMore(orig: seq<Key>, cur: seq<Key>, lo: nat, end: nat, i: nat, k: Key)
    requires Compacting(orig, cur, lo, end, i, k) && i < |cur|
    ensures if cur[i] == k then Compacting(orig, cur, lo, end, i + 1, k)
            else Compacting(orig, cur[end := cur[i]], lo, end + 1, i + 1, k)
  {
    assert cur[i] == cur[i..][0] == orig[i];
    assert cur[i + 1..] == cur[i..][1..] == orig[i + 1..];
    OneMoreUnlinked(orig, lo, i, k);
    if cur[i] != k {
      var next := cur[end := cur[i]];
      assert next[i + 1..] == cur[i + 1..] && next[..lo] == cur[..lo];
      assert next[lo..end + 1] == cur[lo..end] + [cur[i]];
    }
  }

  lemma OneMoreUnlinked(orig: seq<Key>, lo: nat, i: nat, k: Key)
    requires lo <= i < |orig|
    ensures Unlinked(orig[lo..i + 1], k) == Unlinked(orig[lo..i], k) + (if orig[i] == k then [] else [orig[i]])
  {
    assert orig[lo..i + 1] == orig[lo..i] + [orig[i]];
    assert [orig[i]][1..] == [];
    UnlinkedAppends(orig[lo..i], [orig[i]], k);
  }

  /** removeOrderKey on the slice buf[lo..hi]: the survivors move down over the key, in order, in the same array. */
  method Compact(buf: array<Key>, lo: nat, hi: nat, k: Key) returns (end: nat)
    requires lo <= hi <= buf.Length
    modifies buf
    ensures lo <= end <= hi && buf[lo..end] == Unlinked(old(buf[lo..hi]), k)
    ensures buf[..lo] == old(buf[..lo]) && buf[hi..] == old(buf[hi..])
  {
    end := lo;
    var i := lo;
    ghost var orig := buf[..];
    while i < hi
      invariant i <= hi && Compacting(orig, buf[..], lo, end, i, k)
    {
      var current := buf[i];
      CompactOneMore(orig, buf[..], lo, end, i, k);
      if current != k {
        ghost var cur := buf[..];
        buf[end] := current;
        assert buf[..] == cur[end := current];
        end := end + 1;
      }
      i := i + 1;
    }
  }

  class SnapshotCache {
    const lim: Limits
    var entries: map<Key, Entry>
    var buf: array<Key>
    var lo: nat
    var hi: nat

    ghost predicate Ok()
      reads this
    {
      lo <= hi <= buf.Length
    }

    ghost function View(): Cache
      requires Ok()
      reads this, buf
    {
      Cache(entries, buf[lo..hi])
    }

    constructor (lim: Limits)
      requires lim.maxEntries >= 1
      ensures Ok() && View() == Cache(map[], []) && this.lim == lim && fresh(buf)
    {
      this.lim, entries, lo, hi := lim, map[], 0, 0;
      buf := new Key[lim.maxEntries](_ => Key(""));
    }

    /** The first critical section of GetLatest. */
    method LookUp(k: Key, now: int) returns (found: Option<Payload>)
      requires Ok()
      modifies this, buf
      ensures Ok() && buf == old(buf) && (View(), found) == Lookup(old(View()), k, now, lim.ttl)
    {
      if k !in entries {
        return None;
      }
      if now - entries[k].cachedAt <= lim.ttl {
        return Some(entries[k].payload);
      }
      entries := entries - {k};
      hi := Compact(buf, lo, hi, k);
      return None;
    }

    /** append(order, k): in place if there is room behind the slice, in a new array otherwise */
    method AppendKey(k: Key)
      requires Ok()
      modifies this, buf
      ensures Ok() && entries == old(entries) && (buf == old(buf) || fresh(buf)) && buf[lo..hi] == old(buf[lo..hi]) + [k]
    {
      if hi == buf.Length {
        var n := hi - lo;
        var bigger := new Key[2 * n + 1](_ => Key(""));
        forall i | 0 <= i < n { bigger[i] := buf[lo + i]; }
        assert bigger[..n] == buf[lo..hi];
        buf, lo, hi := bigger, 0, n;
      }
      buf[hi] := k;
      hi := hi + 1;
    }

    /** The second critical section of GetLatest. */
    method Keep(k: Key, payload: Payload, now: int)
      requires Ok() && Valid(View(), lim.maxEntries)
      modifies this, buf
      ensures Ok() && (buf == old(buf) || fresh(buf))
      ensures View() == Store(old(View()), k, Entry(payload, now), lim.maxEntries) && Valid(View(), lim.maxEntries)
    {
      ghost var was := View();
      TrimTurnsOnce(was, k, Entry(payload, now), lim.maxEntries);
      if k !in entries {
        AppendKey(k);
      }
      entries := entries[k := Entry(payload, now)];
      assert View() == Added(was, k, Entry(payload, now));
      EvictOldest(k, was, Entry(payload, now));
    }

    /** The eviction loop. Its branch for the key just stored is dead. */
    method EvictOldest(k: Key, ghost was: Cache, ghost e: Entry)
      requires Ok() && Valid(was, lim.maxEntries) && View() == Added(was, k, e)
      modifies `entries, `lo
      ensures Ok() && View() == Store(was, k, e, lim.maxEntries)
    {
      TrimTurnsOnce(was, k, e, lim.maxEntries);
      AddedMatches(was, k, e);
      while |entries| > lim.maxEntries && lo < hi
        invariant Ok() && (View() == Added(was, k, e) || View() == Store(was, k, e, lim.maxEntries))
        invariant |entries| <= lim.maxEntries || View() == Added(was, k, e)
        decreases hi - lo
      {
        var oldest := buf[lo];
        lo := lo + 1;
        if oldest == k {
          assert false;
        } else {
          entries := entries - {oldest};
        }
      }
    }
  }
}

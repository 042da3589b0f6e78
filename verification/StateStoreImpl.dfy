/** The store as the program keeps it: a map of entries whose books are slices on shared backing arrays. */
module StateStoreImpl {
  import opened Options
  import opened Levels
  import opened Slices
  import opened BookEvents
  import opened BookMeaning
  import opened Reconstruction
  import opened StoreSpec

  datatype StateEntry = StateEntry(book: Book, lastSeq: int, lastSeen: int)

  // ---------------------------------------------------------------- one book and its contents

  datatype Sides = Sides(bids: seq<Level>, asks: seq<Level>)

  type GoodSides = x: Sides | GoodSide(x.bids, true) && GoodSide(x.asks, false) witness Sides([], [])

  ghost function SidesView(x: GoodSides): View {
    StrictIsDistinct(x.bids, true);
    StrictIsDistinct(x.asks, false);
    View(PriceMap(x.bids), PriceMap(x.asks))
  }

  ghost function ArraysOf(b: Book): set<array<Level>> {
    {b.bids.arr, b.asks.arr}
  }

  /** The book's two slices hold `x`, on arrays of their own. */
  ghost predicate Holds(b: Book, x: Sides)
    reads b.bids.arr, b.asks.arr
  {
    && b.bids.arr != b.asks.arr && InBounds(b.bids) && InBounds(b.asks)
    && Elems(b.bids) == x.bids && Elems(b.asks) == x.asks
  }

  method FirstSnapshot(bids: Slice, asks: Slice) returns (b: Book, p: Option<Problem>, ghost x: GoodSides)
    requires InBounds(bids) && InBounds(asks)
    ensures fresh(ArraysOf(b)) && Holds(b, x)
    ensures p.None? <==> Accepted(Snapshot(Elems(bids), Elems(asks)))
    ensures p.None? ==> SidesView(x) == Apply(EMPTY_VIEW, Snapshot(Elems(bids), Elems(asks)))
  {
    b := NewBook();
    b, p := ApplySnapshot(b, bids, asks);
    x := Sides(Elems(b.bids), Elems(b.asks));
  }

  method DeltaOn(b: Book, bids: Slice, asks: Slice, ghost x: GoodSides)
    returns (b': Book, p: Option<Problem>, ghost x': GoodSides)
    requires Holds(b, x) && InBounds(bids) && InBounds(asks)
    modifies ArraysOf(b)
    ensures forall a :: a in ArraysOf(b') ==> a in ArraysOf(b) || fresh(a)
    ensures Holds(b', x') && SidesView(x') == Apply(SidesView(x), Delta(old(Elems(bids)), old(Elems(asks))))
    ensures p.None? <==> Accepted(Delta(old(Elems(bids)), old(Elems(asks))))
    ensures p.Some? ==> b' == b && x' == x
  {
    b', p := ApplyDelta(b, bids, asks);
    x' := Sides(Elems(b'.bids), Elems(b'.asks));
  }

  /** Copies of both sides that share nothing with the book. */
  method CopyOut(b: Book, ghost x: GoodSides) returns (copy: Book)
    requires Holds(b, x)
    ensures fresh(ArraysOf(copy)) && Holds(copy, x)
  {
    var bids, asks := TakeSnapshot(b);
    copy := Book(bids, asks);
  }

  // ---------------------------------------------------------------- the bookkeeping loops

  function Without(m: map<StreamKey, StateEntry>, gone: seq<StreamKey>): map<StreamKey, StateEntry> {
    map k | k in m && k !in gone :: m[k]
  }

  ghost predicate Mirrors(m: map<StreamKey, StateEntry>, s: Store) {
    && m.Keys == s.entries.Keys
    && forall k :: k in m ==> m[k].lastSeen == s.entries[k].lastSeen && m[k].lastSeq == s.entries[k].lastSeq
  }

  /** The loop of evictExpiredLocked; `s` is what the store means. */
  method ScanFront(lim: Limits, m: map<StreamKey, StateEntry>, order: seq<StreamKey>, now: int, ghost s: Store)
    returns (m': map<StreamKey, StateEntry>, order': seq<StreamKey>)
    requires Mirrors(m, s) && order == s.order
    ensures var n := ScanExpired(lim, s, now, 0); m' == Without(m, order[..n]) && order' == order[n..]
  {
    m', order' := m, order;
    ghost var n := 0;
    while |order'| > 0
      invariant 0 <= n <= |order| && order' == order[n..] && m' == Without(m, order[..n])
      invariant ScanExpired(lim, s, now, 0) == ScanExpired(lim, s, now, n)
      decreases |order'|
    {
      var k := order'[0];
      assert k == order[n] && order[..n + 1] == order[..n] + [k];
      if k in m' && now - m'[k].lastSeen <= lim.ttl {
        break;
      }
      m' := m' - {k};
      order' := order'[1..];
      n := n + 1;
    }
  }

  /** The loop of evictCapacityLocked: it runs at most once, because one entry at a time is added. */
  method TrimToCapacity(lim: Limits, m: map<StreamKey, StateEntry>, order: seq<StreamKey>)
    returns (m': map<StreamKey, StateEntry>, order': seq<StreamKey>)
    requires |m| <= lim.maxEntries + 1 && (|m| > lim.maxEntries ==> order != [] && order[0] in m)
    ensures if |m| > lim.maxEntries then m' == m - {order[0]} && order' == order[1..] else m' == m && order' == order
  {
    m', order' := m, order;
    while |m'| > lim.maxEntries && |order'| > 0
      invariant (m' == m && order' == order) ||
                (|m| > lim.maxEntries && m' == m - {order[0]} && order' == order[1..] && |m'| <= lim.maxEntries)
      decreases |order'|
    {
      var k := order'[0];
      order' := order'[1..];
      if k !in m' {
        continue;
      }
      assert m'.Keys == (m' - {k}).Keys + {k};
      m' := m' - {k};
    }
  }

  lemma PutShape(lim: Limits, s: Store, key: StreamKey, a: Entry)
    requires WellFormed(lim, s)
    ensures var full, grown := key !in s.entries && |s.entries| == lim.maxEntries, Grown(s, key, a);
            && grown.order != [] && grown.order[0] in grown.entries
            && (full <==> |grown.entries| > lim.maxEntries) && |grown.entries| <= lim.maxEntries + 1
            && Put(lim, s, key, a) ==
               if full then Store(grown.entries - {grown.order[0]}, grown.order[1..]) else grown
  {
  }

  /** putLocked on the program's map and list. */
  method PutIn(lim: Limits, m: map<StreamKey, StateEntry>, order: seq<StreamKey>, key: StreamKey, e: StateEntry,
               ghost s: Store, ghost a: Entry)
    returns (m': map<StreamKey, StateEntry>, order': seq<StreamKey>)
    requires m.Keys == s.entries.Keys && order == s.order && WellFormed(lim, s)
    ensures var r := Put(lim, s, key, a); m'.Keys == r.entries.Keys && order' == r.order
    ensures forall k :: k in m' ==> (k == key || k in m) && m'[k] == if k == key then e else m[k]
  {
    PutShape(lim, s, key, a);
    var m1, order1 := m[key := e], if key in m then order else order + [key];
    assert m1.Keys == Grown(s, key, a).entries.Keys;
    assert |m1| == |m1.Keys| && |Grown(s, key, a).entries| == |Grown(s, key, a).entries.Keys|;
    m', order' := TrimToCapacity(lim, m1, order1);
  }

  // ---------------------------------------------------------------- the store

  ghost function BidArrays(m: map<StreamKey, StateEntry>): set<array<Level>> {
    set k | k in m :: m[k].book.bids.arr
  }

  ghost function AskArrays(m: map<StreamKey, StateEntry>): set<array<Level>> {
    set k | k in m :: m[k].book.asks.arr
  }

  /** Every array the store writes to. */
  ghost function StoreArrays(m: map<StreamKey, StateEntry>): set<array<Level>> {
    BidArrays(m) + AskArrays(m)
  }

  lemma ArraysInStore(m: map<StreamKey, StateEntry>, k: StreamKey)
    requires k in m
    ensures ArraysOf(m[k].book) <= StoreArrays(m)
  {
  }

  lemma FewerArrays(m: map<StreamKey, StateEntry>, n: map<StreamKey, StateEntry>)
    requires forall k :: k in m ==> k in n && m[k] == n[k]
    ensures StoreArrays(m) <= StoreArrays(n)
  {
    forall a | a in StoreArrays(m) ensures a in StoreArrays(n) {
      var k :| k in m && a in ArraysOf(m[k].book);
      ArraysInStore(n, k);
    }
  }

  /** Replacing one entry's book brings in no array but the new book's own. */
  lemma ArraysAfterPut(m: map<StreamKey, StateEntry>, key: StreamKey, e: StateEntry, m': map<StreamKey, StateEntry>)
    requires forall k :: k in m' ==> if k == key then m'[k] == e else k in m && m'[k] == m[k]
    ensures StoreArrays(m') <= StoreArrays(m) + ArraysOf(e.book)
  {
    forall a | a in StoreArrays(m') ensures a in StoreArrays(m) + ArraysOf(e.book) {
      var k :| k in m' && a in ArraysOf(m'[k].book);
      if k != key {
        ArraysInStore(m, k);
      }
    }
  }

  lemma NewcomerIsApart(m: map<StreamKey, StateEntry>, b: Book)
    requires ArraysOf(b) !! StoreArrays(m)
    ensures forall k :: k in m ==> ArraysOf(b) !! ArraysOf(m[k].book)
  {
    forall k | k in m ensures ArraysOf(b) !! ArraysOf(m[k].book) {
      ArraysInStore(m, k);
    }
  }

  /** No two streams share a backing array. */
  ghost predicate Separate(m: map<StreamKey, StateEntry>) {
    forall j, k :: j in m && k in m && j != k ==> ArraysOf(m[j].book) !! ArraysOf(m[k].book)
  }

  ghost predicate HoldsAll(m: map<StreamKey, StateEntry>, x: map<StreamKey, GoodSides>)
    reads BidArrays(m), AskArrays(m)
  {
    m.Keys <= x.Keys && forall k :: k in m ==> Holds(m[k].book, x[k])
  }

  /** What the entries mean, given the contents of their books. */
  ghost function Meaning(m: map<StreamKey, StateEntry>, x: map<StreamKey, GoodSides>): map<StreamKey, Entry>
    requires m.Keys <= x.Keys
  {
    map k | k in m :: Entry(SidesView(x[k]), m[k].lastSeq, m[k].lastSeen)
  }

  lemma MeaningOfScanned(lim: Limits, m: map<StreamKey, StateEntry>, x: map<StreamKey, GoodSides>, s: Store, now: int)
    requires m.Keys <= x.Keys && s.entries == Meaning(m, x)
    ensures Mirrors(m, s)
    ensures Meaning(Without(m, s.order[..ScanExpired(lim, s, now, 0)]), x) == EvictExpired(lim, s, now).entries
  {
  }

  /** evictExpiredLocked on the program's map and list. */
  method ExpireIn(lim: Limits, m: map<StreamKey, StateEntry>, order: seq<StreamKey>, now: int,
                  ghost x: map<StreamKey, GoodSides>)
    returns (m': map<StreamKey, StateEntry>, order': seq<StreamKey>)
    requires m.Keys <= x.Keys
    ensures forall k :: k in m' ==> k in m && m'[k] == m[k]
    ensures Store(Meaning(m', x), order') == EvictExpired(lim, Store(Meaning(m, x), order), now)
  {
    ghost var s := Store(Meaning(m, x), order);
    MeaningOfScanned(lim, m, x, s, now);
    m', order' := ScanFront(lim, m, order, now, s);
  }

  lemma MeaningOfPut(lim: Limits, m: map<StreamKey, StateEntry>, x: map<StreamKey, GoodSides>, s: Store,
                     key: StreamKey, e: StateEntry, y: GoodSides, m': map<StreamKey, StateEntry>)
    requires m.Keys <= x.Keys && s.entries == Meaning(m, x) && WellFormed(lim, s)
    requires m'.Keys == Put(lim, s, key, Entry(SidesView(y), e.lastSeq, e.lastSeen)).entries.Keys
    requires forall k :: k in m' ==> (k == key || k in m) && m'[k] == if k == key then e else m[k]
    ensures m'.Keys <= x[key := y].Keys
    ensures Meaning(m', x[key := y]) == Put(lim, s, key, Entry(SidesView(y), e.lastSeq, e.lastSeen)).entries
  {
  }

  /** What putting the entry leads to, for the program and for its meaning. */
  method PlanPut(lim: Limits, m: map<StreamKey, StateEntry>, order: seq<StreamKey>, key: StreamKey, e: StateEntry,
                 ghost x: map<StreamKey, GoodSides>, ghost y: GoodSides)
    returns (m': map<StreamKey, StateEntry>, order': seq<StreamKey>)
    requires m.Keys <= x.Keys && WellFormed(lim, Store(Meaning(m, x), order))
    ensures key in m' && m'[key] == e && forall k :: k in m' && k != key ==> k in m && m'[k] == m[k]
    ensures m'.Keys <= x[key := y].Keys
    ensures Store(Meaning(m', x[key := y]), order') ==
            Put(lim, Store(Meaning(m, x), order), key, Entry(SidesView(y), e.lastSeq, e.lastSeen))
  {
    ghost var s, a := Store(Meaning(m, x), order), Entry(SidesView(y), e.lastSeq, e.lastSeen);
    m', order' := PutIn(lim, m, order, key, e, s, a);
    MeaningOfPut(lim, m, x, s, key, e, y, m');
    PutKeeps(lim, s, key, a);
  }

  lemma MeaningOfEdit(m: map<StreamKey, StateEntry>, x: map<StreamKey, GoodSides>, key: StreamKey, e: StateEntry, y: GoodSides)
    requires m.Keys <= x.Keys && key in m
    ensures Meaning(m[key := e], x[key := y]) == Meaning(m, x)[key := Entry(SidesView(y), e.lastSeq, e.lastSeen)]
  {
  }

  lemma ExpiryKeepsWellFormed(lim: Limits, s: Store, now: int)
    requires WellFormed(lim, s)
    ensures WellFormed(lim, EvictExpired(lim, s, now))
  {
    EvictExpiredKeeps(lim, s, now);
  }

  /** What a delta does, told from its two checks. */
  lemma EditIsAct(lim: Limits, s: Store, op: Op, inOrder: bool, v: Store)
    requires op.update.Delta? && (inOrder <==> op.key in s.entries && op.seqNo > s.entries[op.key].lastSeq)
    requires if inOrder && Accepted(op.update)
             then v == s.(entries := s.entries[op.key := Entry(Apply(s.entries[op.key].view, op.update), op.seqNo, op.now)])
             else v == s
    ensures v == Act(lim, s, op) && (Admitted(s, op) <==> inOrder && Accepted(op.update))
  {
  }

  class StateStore {
    const lim: Limits
    var entries: map<StreamKey, StateEntry>
    var order: seq<StreamKey>

    /** The contents of each resident book. */
    ghost var sides: map<StreamKey, GoodSides>

    ghost predicate Sound()
      reads this, StoreArrays(entries)
    {
      Separate(entries) && HoldsAll(entries, sides)
    }

    ghost predicate Valid()
      reads this, StoreArrays(entries)
    {
      Sound() && WellFormed(lim, View())
    }

    ghost function View(): Store
      requires entries.Keys <= sides.Keys
      reads this
    {
      Store(Meaning(entries, sides), order)
    }

    constructor (maxEntries: int, ttl: int)
      ensures Valid() && View() == Store(map[], [])
      ensures lim == Limits(if maxEntries <= 0 then 10000 else maxEntries, if ttl <= 0 then 3600000000000 else ttl)
    {
      lim := Limits(if maxEntries <= 0 then 10000 else maxEntries, if ttl <= 0 then 3600000000000 else ttl);
      entries, order, sides := map[], [], map[];
    }

    method Narrow(m: map<StreamKey, StateEntry>, rest: seq<StreamKey>)
      requires Sound() && forall k :: k in m ==> k in entries && m[k] == entries[k]
      modifies this
      ensures Sound() && entries == m && order == rest && sides == old(sides)
    {
      assert Separate(m) && HoldsAll(m, sides);
      entries, order := m, rest;
    }

    /** evictExpiredLocked */
    method DropExpired(now: int)
      requires Valid()
      modifies this
      ensures Valid() && View() == EvictExpired(lim, old(View()), now)
      ensures forall k :: k in entries ==> k in old(entries) && entries[k] == old(entries)[k]
      ensures sides == old(sides) && StoreArrays(entries) <= old(StoreArrays(entries))
    {
      ExpiryKeepsWellFormed(lim, View(), now);
      var m, rest := ExpireIn(lim, entries, order, now, sides);
      FewerArrays(m, entries);
      Narrow(m, rest);
    }

    /** Store an entry holding `x`, on arrays no other entry uses, once `m` and `rest` are what putting it leads to. */
    method Install(key: StreamKey, e: StateEntry, m: map<StreamKey, StateEntry>, rest: seq<StreamKey>, ghost x: GoodSides)
      requires Separate(entries) && key in m && m[key] == e && Holds(e.book, x)
      requires forall k :: k in m && k != key ==> k in entries && m[k] == entries[k]
      requires forall k :: k in m && k != key ==> k in sides && Holds(m[k].book, sides[k])
      requires forall k :: k in m && k != key ==> ArraysOf(e.book) !! ArraysOf(m[k].book)
      modifies this
      ensures Sound() && entries == m && order == rest && sides == old(sides)[key := x]
    {
      entries, order, sides := m, rest, sides[key := x];
    }

    /** The checks both operations make once expired entries are gone. */
    method SequenceProblem(key: StreamKey, seqNo: int, mustExist: bool) returns (p: Option<Problem>)
      requires entries.Keys <= sides.Keys
      ensures p.None? <==> if key in View().entries then seqNo > View().entries[key].lastSeq else !mustExist
      ensures p == Some(NotFound) <==> mustExist && key !in View().entries
    {
      if key !in entries {
        return if mustExist then Some(NotFound) else None;
      }
      if seqNo <= entries[key].lastSeq {
        return Some(OutOfOrder(entries[key].lastSeq));
      }
      return None;
    }

    /** putLocked of a new book on arrays of its own. */
    method PutBook(key: StreamKey, e: StateEntry, ghost x: GoodSides)
      requires Valid() && Holds(e.book, x) && ArraysOf(e.book) !! StoreArrays(entries)
      modifies this
      ensures Sound() && View() == Put(lim, old(View()), key, Entry(SidesView(x), e.lastSeq, e.lastSeen))
      ensures StoreArrays(entries) <= old(StoreArrays(entries)) + ArraysOf(e.book)
    {
      NewcomerIsApart(entries, e.book);
      var m, rest := PlanPut(lim, entries, order, key, e, sides, x);
      ArraysAfterPut(entries, key, e, m);
      Install(key, e, m, rest, x);
    }

    /** Build the snapshot's book and put it. */
    method BuildBook(key: StreamKey, seqNo: int, bids: Slice, asks: Slice, now: int, ghost u: BookUpdate)
      returns (p: Option<Problem>)
      requires Valid() && InBounds(bids) && InBounds(asks) && u == Snapshot(Elems(bids), Elems(asks))
      modifies this
      ensures Sound() && (p.None? <==> Accepted(u))
      ensures View() == if p.Some? then old(View()) else Put(lim, old(View()), key, Entry(Apply(EMPTY_VIEW, u), seqNo, now))
      ensures forall a :: a in StoreArrays(entries) ==> a in old(StoreArrays(entries)) || fresh(a)
    {
      var book;
      ghost var x;
      book, p, x := FirstSnapshot(bids, asks);
      if p.None? {
        PutBook(key, StateEntry(book, seqNo, now), x);
      }
    }

    /** UpsertSnapshot past its expiry pass. */
    method InsertSnapshot(key: StreamKey, seqNo: int, bids: Slice, asks: Slice, now: int, ghost u: BookUpdate)
      returns (p: Option<Problem>)
      requires Valid() && InBounds(bids) && InBounds(asks) && u == Snapshot(Elems(bids), Elems(asks))
      modifies this
      ensures Sound() && View() == Act(lim, old(View()), Op(key, seqNo, u, now))
      ensures p.None? <==> Admitted(old(View()), Op(key, seqNo, u, now))
      ensures forall a :: a in StoreArrays(entries) ==> a in old(StoreArrays(entries)) || fresh(a)
    {
      p := SequenceProblem(key, seqNo, false);
      if p.None? {
        p := BuildBook(key, seqNo, bids, asks, now, u);
      }
    }

    /** No array is written at all: the caller's slices are only read, and the new book is on arrays of its own. */
    method UpsertSnapshot(key: StreamKey, seqNo: int, bids: Slice, asks: Slice, now: int) returns (p: Option<Problem>)
      requires Valid() && InBounds(bids) && InBounds(asks)
      modifies this
      ensures Valid() && View() == Step(lim, old(View()), Op(key, seqNo, Snapshot(Elems(bids), Elems(asks)), now))
      ensures p.None? <==> AdmittedAt(lim, old(View()), Op(key, seqNo, Snapshot(Elems(bids), Elems(asks)), now))
      ensures forall a :: a in StoreArrays(entries) ==> a in old(StoreArrays(entries)) || fresh(a)
    {
      ghost var op := Op(key, seqNo, Snapshot(Elems(bids), Elems(asks)), now);
      DropExpired(now);
      ActKeeps(lim, View(), op);
      p := InsertSnapshot(key, seqNo, bids, asks, now, op.update);
    }

    /** Edit a resident book in place and write its slices back. */
    method EditBook(key: StreamKey, seqNo: int, bids: Slice, asks: Slice, now: int, ghost u: BookUpdate)
      returns (p: Option<Problem>)
      requires Sound() && key in entries && InBounds(bids) && InBounds(asks) && u == Delta(Elems(bids), Elems(asks))
      modifies this, ArraysOf(entries[key].book)
      ensures Sound() && key in entries && (p.None? <==> Accepted(u))
      ensures View() == if p.Some? then old(View())
                        else old(View()).(entries := old(View()).entries[key :=
                               Entry(Apply(old(View()).entries[key].view, u), seqNo, now)])
      ensures forall a :: a in StoreArrays(entries) ==> a in old(StoreArrays(entries)) || fresh(a)
    {
      var book;
      ghost var x;
      book, p, x := DeltaOn(entries[key].book, bids, asks, sides[key]);
      if p.None? {
        var e := StateEntry(book, seqNo, now);
        MeaningOfEdit(entries, sides, key, e, x);
        ArraysInStore(entries, key);
        ArraysAfterPut(entries, key, e, entries[key := e]);
        Install(key, e, entries[key := e], order, x);
      }
    }

    /** A resident book copied out, on arrays the store does not have. */
    method CopyResident(key: StreamKey) returns (out: Book)
      requires Sound() && key in entries
      ensures Sound() && Holds(out, sides[key]) && fresh(ArraysOf(out)) && ArraysOf(out) !! StoreArrays(entries)
    {
      out := CopyOut(entries[key].book, sides[key]);
    }

    /** ApplyDelta between its expiry pass and its copy. */
    method EditChecked(key: StreamKey, seqNo: int, bids: Slice, asks: Slice, now: int, ghost u: BookUpdate)
      returns (p: Option<Problem>)
      requires Valid() && InBounds(bids) && InBounds(asks) && u == Delta(Elems(bids), Elems(asks))
      modifies this, StoreArrays(entries)
      ensures Sound() && View() == Act(lim, old(View()), Op(key, seqNo, u, now)) && (p.None? ==> key in entries)
      ensures p.None? <==> Admitted(old(View()), Op(key, seqNo, u, now))
      ensures forall a :: a in StoreArrays(entries) ==> a in old(StoreArrays(entries)) || fresh(a)
    {
      ghost var s := View();
      p := SequenceProblem(key, seqNo, true);
      ghost var inOrder := p.None?;
      if p.None? {
        ArraysInStore(entries, key);
        p := EditBook(key, seqNo, bids, asks, now, u);
      }
      EditIsAct(lim, s, Op(key, seqNo, u, now), inOrder, View());
    }

    /** ApplyDelta past its expiry pass. */
    method EditSnapshot(key: StreamKey, seqNo: int, bids: Slice, asks: Slice, now: int, ghost u: BookUpdate)
      returns (p: Option<Problem>, out: Option<Book>)
      requires Valid() && InBounds(bids) && InBounds(asks) && u == Delta(Elems(bids), Elems(asks))
      modifies this, StoreArrays(entries)
      ensures Sound() && View() == Act(lim, old(View()), Op(key, seqNo, u, now))
      ensures p.None? <==> Admitted(old(View()), Op(key, seqNo, u, now))
      ensures p.None? ==> key in entries && IsCopy(out, sides[key])
      ensures p.None? ==> fresh(ArraysOf(out.value)) && ArraysOf(out.value) !! StoreArrays(entries)
      ensures forall a :: a in StoreArrays(entries) ==> a in old(StoreArrays(entries)) || fresh(a)
    {
      p := EditChecked(key, seqNo, bids, asks, now, u);
      out := None;
      if p.None? {
        var copy := CopyResident(key);
        out := Some(copy);
      }
    }

    /**
     * Of all arrays only the store's own are written. What comes back is a copy on arrays of its own, which the store will
     * never write to.
     */
    method ApplyDeltaTo(key: StreamKey, seqNo: int, bids: Slice, asks: Slice, now: int)
      returns (p: Option<Problem>, out: Option<Book>)
      requires Valid() && InBounds(bids) && InBounds(asks)
      modifies this, StoreArrays(entries)
      ensures Valid() && View() == Step(lim, old(View()), Op(key, seqNo, Delta(old(Elems(bids)), old(Elems(asks))), now))
      ensures p.None? <==> AdmittedAt(lim, old(View()), Op(key, seqNo, Delta(old(Elems(bids)), old(Elems(asks))), now))
      ensures p.None? ==> key in entries && IsCopy(out, sides[key])
      ensures p.None? ==> fresh(ArraysOf(out.value)) && ArraysOf(out.value) !! StoreArrays(entries)
      ensures forall a :: a in StoreArrays(entries) ==> a in old(StoreArrays(entries)) || fresh(a)
    {
      ghost var op := Op(key, seqNo, Delta(Elems(bids), Elems(asks)), now);
      DropExpired(now);
      ActKeeps(lim, View(), op);
      p, out := EditSnapshot(key, seqNo, bids, asks, now, op.update);
    }
  }

  /** The returned slices hold exactly the resident book's sides. */
  ghost predicate IsCopy(out: Option<Book>, x: GoodSides)
    reads if out.Some? then ArraysOf(out.value) else {}
  {
    out.Some? && Holds(out.value, x)
  }

  /** One more operation on the store, with the update's sides on arrays of their own. */
  method Feed(store: StateStore, op: Op)
    requires store.Valid()
    modifies store, StoreArrays(store.entries)
    ensures store.Valid() && store.View() == Step(store.lim, old(store.View()), op)
    ensures forall a :: a in StoreArrays(store.entries) ==> a in old(StoreArrays(store.entries)) || fresh(a)
  {
    var bids := NewSlice(op.update.bids);
    var asks := NewSlice(op.update.asks);
    if op.update.Snapshot? {
      var p := store.UpsertSnapshot(op.key, op.seqNo, bids, asks, op.now);
    } else {
      var p, out := store.ApplyDeltaTo(op.key, op.seqNo, bids, asks, op.now);
    }
  }

  /** A run of operations. */
  ghost function StepAll(lim: Limits, s: Store, ops: seq<Op>): Store
    decreases |ops|
  {
    if ops == [] then s else StepAll(lim, Step(lim, s, ops[0]), ops[1..])
  }

  /** A copy, if there is one, on arrays the store does not have. */
  ghost predicate Apart(copy: Option<Book>, x: GoodSides, arrays: set<array<Level>>)
    reads if copy.Some? then ArraysOf(copy.value) else {}
  {
    copy.Some? ==> Holds(copy.value, x) && ArraysOf(copy.value) !! arrays
  }

  method FeedApart(store: StateStore, op: Op, copy: Option<Book>, ghost x: GoodSides)
    requires store.Valid() && Apart(copy, x, StoreArrays(store.entries))
    modifies store, StoreArrays(store.entries)
    ensures store.Valid() && store.View() == Step(store.lim, old(store.View()), op)
    ensures Apart(copy, x, StoreArrays(store.entries))
    ensures forall a :: a in StoreArrays(store.entries) ==> a in old(StoreArrays(store.entries)) || fresh(a)
  {
    Feed(store, op);
  }

  /** All the operations take effect on the store, and none of them on a book that is apart from it. */
  method FeedAll(store: StateStore, ops: seq<Op>, copy: Option<Book>, ghost x: GoodSides)
    requires store.Valid() && Apart(copy, x, StoreArrays(store.entries))
    modifies store, StoreArrays(store.entries)
    ensures store.Valid() && store.View() == StepAll(store.lim, old(store.View()), ops)
    ensures copy.Some? ==> Holds(copy.value, x)
    decreases |ops|
  {
    if |ops| > 0 {
      FeedApart(store, ops[0], copy, x);
      FeedAll(store, ops[1..], copy, x);
    }
  }

  /** The stream's book right after an operation. */
  ghost function TakenView(lim: Limits, s: Store, op: Op): View {
    var t := Step(lim, s, op);
    if op.key in t.entries then t.entries[op.key].view else EMPTY_VIEW
  }

  lemma TakenIs(lim: Limits, s: Store, op: Op, t: Store, m: map<StreamKey, StateEntry>, x: map<StreamKey, GoodSides>,
                order: seq<StreamKey>)
    requires m.Keys <= x.Keys && t == Store(Meaning(m, x), order) && t == Step(lim, s, op) && op.key in m
    ensures SidesView(x[op.key]) == TakenView(lim, s, op)
  {
  }

  const NO_SIDES: GoodSides := Sides([], [])

  /** A delta whose copy is kept, with what it showed. */
  method Take(store: StateStore, key: StreamKey, seqNo: int, bids: Slice, asks: Slice, now: int, ghost op: Op)
    returns (p: Option<Problem>, out: Option<Book>, ghost taken: GoodSides)
    requires store.Valid() && InBounds(bids) && InBounds(asks) && op == Op(key, seqNo, Delta(Elems(bids), Elems(asks)), now)
    modifies store, StoreArrays(store.entries)
    ensures store.Valid() && store.View() == Step(store.lim, old(store.View()), op)
    ensures p.None? <==> AdmittedAt(store.lim, old(store.View()), op)
    ensures p.None? ==> IsCopy(out, taken) && SidesView(taken) == TakenView(store.lim, old(store.View()), op)
    ensures p.None? ==> fresh(ArraysOf(out.value)) && ArraysOf(out.value) !! StoreArrays(store.entries)
    ensures forall a :: a in StoreArrays(store.entries) ==> a in old(StoreArrays(store.entries)) || fresh(a)
  {
    p, out := store.ApplyDeltaTo(key, seqNo, bids, asks, now);
    taken := NO_SIDES;
    if p.None? {
      taken := store.sides[key];
      TakenIs(store.lim, old(store.View()), op, store.View(), store.entries, store.sides, store.order);
    }
  }

  /**
   * A snapshot the store has returned never changes, whatever is done to the store afterwards: further deltas on the same
   * stream, replacements, evictions.
   */
  method ReturnedSnapshotStaysPut(store: StateStore, key: StreamKey, seqNo: int, bids: Slice, asks: Slice, now: int,
                                  ghost op: Op, later: seq<Op>)
    returns (p: Option<Problem>, out: Option<Book>, ghost taken: GoodSides)
    requires store.Valid() && InBounds(bids) && InBounds(asks) && op == Op(key, seqNo, Delta(Elems(bids), Elems(asks)), now)
    modifies store, StoreArrays(store.entries)
    ensures store.Valid() && (p.None? <==> AdmittedAt(store.lim, old(store.View()), op))
    ensures store.View() == StepAll(store.lim, Step(store.lim, old(store.View()), op), later)
    ensures p.None? ==> IsCopy(out, taken) && SidesView(taken) == TakenView(store.lim, old(store.View()), op)
  {
    p, out, taken := Take(store, key, seqNo, bids, asks, now, op);
    FeedAll(store, later, if p.None? then out else None, taken);
  }
}

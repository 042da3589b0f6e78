/** Book reconstruction: Go slices edited in place through binary search, proved against the price-to-size maps. */
module Reconstruction {
  import opened Options
  import opened Levels
  import opened Slices
  import opened BookEvents
  import opened BookMeaning

  // ---------------------------------------------------------------- what each edit means for the map

  ghost function SetLevel(m: map<real, real>, u: Level): map<real, real> {
    if u.size == 0.0 then m - {u.price} else m[u.price := u.size]
  }

  /** A position that splits a side into the prices before and the prices after. */
  ghost predicate SplitsAt(s: seq<Level>, price: real, desc: bool, idx: int) {
    && 0 <= idx <= |s|
    && (forall i :: 0 <= i < idx ==> Before(s[i].price, price, desc))
    && (forall i :: idx <= i < |s| ==> Before(price, s[i].price, desc))
  }

  lemma RemoveKeepsStrict(s: seq<Level>, idx: nat, desc: bool)
    requires Strict(s, desc) && idx < |s|
    ensures Strict(s[..idx] + s[idx + 1..], desc)
  {
  }

  lemma RemoveMembers(s: seq<Level>, idx: nat, desc: bool, l: Level)
    requires Strict(s, desc) && idx < |s|
    ensures l in s[..idx] + s[idx + 1..] <==> l in s && l.price != s[idx].price
  {
  }

  lemma MapWithout(s: seq<Level>, r: seq<Level>, p: real)
    requires DistinctPrices(s) && DistinctPrices(r) && forall l :: l in r <==> l in s && l.price != p
    ensures PriceMap(r) == PriceMap(s) - {p}
  {
  }

  lemma RemoveAt(s: seq<Level>, idx: nat, desc: bool)
    requires Strict(s, desc) && idx < |s|
    ensures var r := s[..idx] + s[idx + 1..];
            Strict(r, desc) && DistinctPrices(s) && DistinctPrices(r) && PriceMap(r) == PriceMap(s) - {s[idx].price}
  {
    var r := s[..idx] + s[idx + 1..];
    RemoveKeepsStrict(s, idx, desc);
    StrictIsDistinct(s, desc);
    StrictIsDistinct(r, desc);
    forall l ensures l in r <==> l in s && l.price != s[idx].price {
      RemoveMembers(s, idx, desc, l);
    }
    MapWithout(s, r, s[idx].price);
  }

  lemma InsertAt(s: seq<Level>, idx: nat, u: Level, desc: bool)
    requires Strict(s, desc) && SplitsAt(s, u.price, desc, idx)
    ensures var r := s[..idx] + [u] + s[idx..];
            Strict(r, desc) && DistinctPrices(s) && DistinctPrices(r) && PriceMap(r) == PriceMap(s)[u.price := u.size]
  {
    var r := s[..idx] + [u] + s[idx..];
    InsertStrict(s, idx, u, desc);
    StrictIsDistinct(s, desc);
    StrictIsDistinct(r, desc);
    InsertElements(s, idx, u);
  }

  lemma InsertStrict(s: seq<Level>, idx: nat, u: Level, desc: bool)
    requires Strict(s, desc) && SplitsAt(s, u.price, desc, idx)
    ensures Strict(s[..idx] + [u] + s[idx..], desc)
  {
  }

  lemma InsertElements(s: seq<Level>, idx: nat, u: Level)
    requires idx <= |s|
    ensures forall l :: l in s[..idx] + [u] + s[idx..] <==> l in s || l == u
  {
  }

  lemma ReplaceAt(s: seq<Level>, idx: nat, u: Level, desc: bool)
    requires Strict(s, desc) && idx < |s| && s[idx].price == u.price
    ensures var r := s[idx := u];
            Strict(r, desc) && DistinctPrices(s) && DistinctPrices(r) && PriceMap(r) == PriceMap(s)[u.price := u.size]
  {
    var r := s[idx := u];
    StrictIsDistinct(s, desc);
    StrictIsDistinct(r, desc);
    forall l ensures l in r <==> l == u || (l in s && l.price != u.price) {
      assert r[idx] == u;
      if l in s && l.price != u.price {
        var i :| 0 <= i < |s| && s[i] == l;
        assert r[i] == l;
      }
    }
  }

  // ---------------------------------------------------------------- binary search

  method FindLevel(s: Slice, price: real, desc: bool) returns (idx: nat, found: bool)
    requires InBounds(s) && Strict(Elems(s), desc)
    ensures found ==> idx < s.len && s.arr[idx].price == price
    ensures !found ==> SplitsAt(Elems(s), price, desc, idx)
  {
    var lo, hi := 0, s.len;
    while lo < hi
      invariant 0 <= lo <= hi <= s.len
      invariant forall i :: 0 <= i < lo ==> Before(s.arr[i].price, price, desc)
      invariant forall i :: hi <= i < s.len ==> Before(price, s.arr[i].price, desc)
    {
      var mid := (lo + hi) / 2;
      var cur := s.arr[mid].price;
      assert forall i :: 0 <= i < s.len ==> s.arr[i] == Elems(s)[i];
      if cur == price {
        return mid, true;
      }
      if desc {
        if cur < price { hi := mid; } else { lo := mid + 1; }
      } else {
        if cur > price { hi := mid; } else { lo := mid + 1; }
      }
    }
    return lo, false;
  }

  // ---------------------------------------------------------------- in-place edits

  /** copy(levels[idx:], levels[idx+1:]), dropping the last element */
  method CutAt(s: Slice, idx: nat) returns (r: Slice)
    requires InBounds(s) && idx < s.len
    modifies s.arr
    ensures r == Slice(s.arr, s.len - 1)
    ensures Elems(r) == old(Elems(s))[..idx] + old(Elems(s))[idx + 1..]
  {
    var i := idx;
    while i + 1 < s.len
      invariant idx <= i < s.len
      invariant forall k :: 0 <= k < s.len ==> s.arr[k] == old(s.arr[if idx <= k < i then k + 1 else k])
    {
      s.arr[i] := s.arr[i + 1];
      i := i + 1;
    }
    r := Slice(s.arr, s.len - 1);
  }

  /** append one element of room; when the backing array is full, Go moves the contents to a larger one */
  method Grow(s: Slice) returns (r: Slice)
    requires InBounds(s)
    ensures InBounds(r) && r.len == s.len + 1 && (r.arr == s.arr || fresh(r.arr))
    ensures forall k :: 0 <= k < s.len ==> r.arr[k] == s.arr[k]
  {
    if s.len < s.arr.Length {
      r := Slice(s.arr, s.len + 1);
    } else {
      var arr := new Level[2 * s.len + 1](_ => Level(0.0, 0.0));
      forall i | 0 <= i < s.len {
        arr[i] := s.arr[i];
      }
      r := Slice(arr, s.len + 1);
    }
  }

  /** Shift the elements from `idx` on up by one, within an array with room for it. */
  method ShiftUp(arr: array<Level>, idx: nat, len: nat)
    requires idx <= len < arr.Length
    modifies arr
    ensures forall k :: 0 <= k < idx ==> arr[k] == old(arr[k])
    ensures forall k :: idx < k <= len ==> arr[k] == old(arr[k - 1])
  {
    var i := len;
    while i > idx
      invariant idx <= i <= len
      invariant forall k :: 0 <= k < i ==> arr[k] == old(arr[k])
      invariant forall k :: i < k <= len ==> arr[k] == old(arr[k - 1])
    {
      arr[i] := arr[i - 1];
      i := i - 1;
    }
  }

  lemma Opened(a: seq<Level>, was: seq<Level>, idx: nat, u: Level)
    requires |a| == |was| + 1 && idx <= |was| && a[idx] == u
    requires (forall k :: 0 <= k < idx ==> a[k] == was[k]) && (forall k :: idx < k <= |was| ==> a[k] == was[k - 1])
    ensures a == was[..idx] + [u] + was[idx..]
  {
  }

  /** append, then copy(levels[idx+1:], levels[idx:]), then store */
  method OpenAt(s: Slice, idx: nat, u: Level) returns (r: Slice)
    requires InBounds(s) && idx <= s.len
    modifies s.arr
    ensures InBounds(r) && r.len == s.len + 1 && (r.arr == s.arr || fresh(r.arr))
    ensures Elems(r) == old(Elems(s))[..idx] + [u] + old(Elems(s))[idx..]
  {
    r := Grow(s);
    ghost var was := Elems(s);
    assert forall k :: 0 <= k < s.len ==> r.arr[k] == was[k];
    ShiftUp(r.arr, idx, s.len);
    r.arr[idx] := u;
    Opened(Elems(r), was, idx, u);
  }

  method ApplyLevel(s: Slice, u: Level, desc: bool) returns (r: Slice)
    requires InBounds(s) && Strict(Elems(s), desc)
    modifies s.arr
    ensures InBounds(r) && (r.arr == s.arr || fresh(r.arr)) && Strict(Elems(r), desc)
    ensures DistinctPrices(old(Elems(s))) && DistinctPrices(Elems(r))
    ensures PriceMap(Elems(r)) == SetLevel(PriceMap(old(Elems(s))), u)
  {
    StrictIsDistinct(Elems(s), desc);
    if s.len == 0 {
      if u.size == 0.0 {
        r := NewSlice([]);
      } else {
        r := NewSlice([u]);
      }
      return;
    }
    var idx, found := FindLevel(s, u.price, desc);
    ghost var was := Elems(s);
    if u.size == 0.0 {
      if !found {
        return s;
      }
      RemoveAt(was, idx, desc);
      r := CutAt(s, idx);
      return;
    }
    if found {
      ReplaceAt(was, idx, u, desc);
      s.arr[idx] := u;
      assert Elems(s) == was[idx := u];
      return s;
    }
    InsertAt(was, idx, u, desc);
    r := OpenAt(s, idx, u);
  }

  // ---------------------------------------------------------------- whole sides and books

  ghost function SetAll(m: map<real, real>, us: seq<Level>): map<real, real> {
    if us == [] then m else SetLevel(SetAll(m, us[..|us| - 1]), us[|us| - 1])
  }

  lemma OverlayStep(m: map<real, real>, d: map<real, real>, u: Level)
    ensures SetLevel(Overlay(m, d), u) == Overlay(m, d[u.price := u.size])
  {
  }

  lemma SplitsAtEnd(us: seq<Level>, desc: bool)
    requires Strict(us, desc) && us != []
    ensures SplitsAt(us[..|us| - 1], us[|us| - 1].price, desc, |us| - 1)
  {
  }

  /** Setting a normalised side level by level amounts to laying its map over the old one and dropping the zeros. */
  lemma {:induction false} SetAllIsOverlay(m: map<real, real>, us: seq<Level>, desc: bool)
    requires Strict(us, desc)
    ensures DistinctPrices(us) && SetAll(m, us) == Overlay(m, PriceMap(us))
  {
    StrictIsDistinct(us, desc);
    if us != [] {
      var init, u := us[..|us| - 1], us[|us| - 1];
      SetAllIsOverlay(m, init, desc);
      SplitsAtEnd(us, desc);
      InsertAt(init, |init|, u, desc);
      assert us == init[..|init|] + [u] + init[|init|..];
      OverlayStep(m, PriceMap(init), u);
    }
  }

  /** What a side promises between operations: strictly ordered, positive prices, positive sizes. */
  ghost predicate GoodSide(s: seq<Level>, desc: bool) {
    Strict(s, desc) && AllValid(s, true)
  }

  lemma OverlayKeepsPositive(was: seq<Level>, us: seq<Level>, now: seq<Level>)
    requires DistinctPrices(was) && DistinctPrices(us) && DistinctPrices(now)
    requires AllValid(was, true) && AllValid(us, false)
    requires PriceMap(now) == Overlay(PriceMap(was), PriceMap(us))
    ensures AllValid(now, true)
  {
    forall i | 0 <= i < |now| ensures ValidLevel(now[i], true) {
      var p := now[i].price;
      assert now[i] in now && p in PriceMap(now);
      if p in PriceMap(us) {
        var l :| l in us && l.price == p;
        var j :| 0 <= j < |us| && us[j] == l;
      } else {
        assert p in PriceMap(was);
        var l :| l in was && l.price == p;
        var j :| 0 <= j < |was| && was[j] == l;
      }
    }
  }

  /** One of ApplyDelta's two loops. */
  method ApplySide(s: Slice, us: Slice, desc: bool) returns (r: Slice)
    requires InBounds(s) && GoodSide(Elems(s), desc) && s.arr != us.arr
    requires InBounds(us) && Strict(Elems(us), desc) && AllValid(Elems(us), false)
    modifies s.arr
    ensures InBounds(r) && (r.arr == s.arr || fresh(r.arr)) && GoodSide(Elems(r), desc)
    ensures DistinctPrices(Elems(us)) && DistinctPrices(old(Elems(s))) && DistinctPrices(Elems(r))
    ensures PriceMap(Elems(r)) == Overlay(PriceMap(old(Elems(s))), PriceMap(Elems(us)))
  {
    ghost var was, todo := Elems(s), Elems(us);
    StrictIsDistinct(was, desc);
    r := s;
    var i := 0;
    while i < us.len
      invariant 0 <= i <= us.len && Elems(us) == todo
      invariant InBounds(r) && (r.arr == s.arr || fresh(r.arr)) && r.arr != us.arr
      invariant Strict(Elems(r), desc) && DistinctPrices(Elems(r))
      invariant PriceMap(Elems(r)) == SetAll(PriceMap(was), todo[..i])
    {
      assert us.arr[i] == todo[i] && todo[..i + 1][..i] == todo[..i];
      r := ApplyLevel(r, us.arr[i], desc);
      i := i + 1;
    }
    assert todo[..i] == todo;
    SetAllIsOverlay(PriceMap(was), todo, desc);
    OverlayKeepsPositive(was, todo, Elems(r));
  }

  /** A Go struct of two slices: copying it shares the backing arrays. */
  datatype Book = Book(bids: Slice, asks: Slice)

  ghost predicate GoodBook(b: Book)
    reads b.bids.arr, b.asks.arr
  {
    && InBounds(b.bids) && InBounds(b.asks) && b.bids.arr != b.asks.arr
    && GoodSide(Elems(b.bids), true) && GoodSide(Elems(b.asks), false)
  }

  ghost function ViewOf(b: Book): View
    requires GoodBook(b)
    reads b.bids.arr, b.asks.arr
  {
    StrictIsDistinct(Elems(b.bids), true);
    StrictIsDistinct(Elems(b.asks), false);
    View(PriceMap(Elems(b.bids)), PriceMap(Elems(b.asks)))
  }

  method NewBook() returns (b: Book)
    ensures GoodBook(b) && fresh(b.bids.arr) && fresh(b.asks.arr) && ViewOf(b) == View(map[], map[])
  {
    var bids := NewSlice([]);
    var asks := NewSlice([]);
    b := Book(bids, asks);
  }

  /** The caller's slices are only read: the book gets arrays of its own. */
  method ApplySnapshot(b: Book, bids: Slice, asks: Slice) returns (b': Book, p: Option<Problem>)
    requires GoodBook(b) && InBounds(bids) && InBounds(asks)
    ensures p.None? <==> Accepted(Snapshot(Elems(bids), Elems(asks)))
    ensures GoodBook(b') && ViewOf(b') == Apply(ViewOf(b), Snapshot(Elems(bids), Elems(asks)))
    ensures if p.Some? then b' == b
            else fresh(b'.bids.arr) && fresh(b'.asks.arr) &&
                 Elems(b'.bids) == Canon(Elems(bids), true) && Elems(b'.asks) == Canon(Elems(asks), false)
  {
    var nb, na;
    nb, na, p := NormalizeBookOrdering(bids, asks, false);
    if p.Some? {
      return b, p;
    }
    CanonIsMaxPerPrice(Elems(bids), true);
    CanonIsMaxPerPrice(Elems(asks), false);
    b' := Book(nb, na);
  }

  lemma OverlaidBy(v: View, x: seq<Level>, y: seq<Level>, nb: map<real, real>, na: map<real, real>)
    requires Accepted(Delta(x, y)) && nb == SideMap(x, true) && na == SideMap(y, false)
    ensures Apply(v, Delta(x, y)) == View(Overlay(v.bids, nb), Overlay(v.asks, na))
  {
  }

  lemma NormalSide(x: seq<Level>, desc: bool, n: seq<Level>)
    requires n == Canon(x, desc) && SideAccepted(x, desc, true)
    ensures Strict(n, desc) && DistinctPrices(n) && AllValid(n, false) && SideMap(x, desc) == PriceMap(n)
  {
    CanonIsMaxPerPrice(x, desc);
  }

  /** Only the book's own arrays are written; the caller's slices are cloned before they are sorted. */
  method ApplyDelta(b: Book, bids: Slice, asks: Slice) returns (b': Book, p: Option<Problem>)
    requires GoodBook(b) && InBounds(bids) && InBounds(asks)
    modifies b.bids.arr, b.asks.arr
    ensures p.None? <==> Accepted(Delta(old(Elems(bids)), old(Elems(asks))))
    ensures p.Some? ==> b' == b && unchanged(b.bids.arr) && unchanged(b.asks.arr)
    ensures b'.bids.arr == b.bids.arr || fresh(b'.bids.arr)
    ensures b'.asks.arr == b.asks.arr || fresh(b'.asks.arr)
    ensures GoodBook(b') && ViewOf(b') == Apply(old(ViewOf(b)), Delta(old(Elems(bids)), old(Elems(asks))))
  {
    ghost var x, y := Elems(bids), Elems(asks);
    var nb, na;
    nb, na, p := NormalizeBookOrdering(bids, asks, true);
    if p.Some? {
      return b, p;
    }
    NormalSide(x, true, Elems(nb));
    NormalSide(y, false, Elems(na));
    OverlaidBy(ViewOf(b), x, y, PriceMap(Elems(nb)), PriceMap(Elems(na)));
    b' := EditSides(b, nb, na);
  }

  /** Both loops of ApplyDelta, over normalised sides on arrays of their own. */
  method EditSides(b: Book, nb: Slice, na: Slice) returns (b': Book)
    requires GoodBook(b) && InBounds(nb) && InBounds(na) && {nb.arr, na.arr} !! {b.bids.arr, b.asks.arr}
    requires Strict(Elems(nb), true) && AllValid(Elems(nb), false) && Strict(Elems(na), false) && AllValid(Elems(na), false)
    modifies b.bids.arr, b.asks.arr
    ensures b'.bids.arr == b.bids.arr || fresh(b'.bids.arr)
    ensures b'.asks.arr == b.asks.arr || fresh(b'.asks.arr)
    ensures GoodBook(b') && DistinctPrices(Elems(nb)) && DistinctPrices(Elems(na))
    ensures ViewOf(b') == View(Overlay(old(ViewOf(b)).bids, PriceMap(Elems(nb))), Overlay(old(ViewOf(b)).asks, PriceMap(Elems(na))))
  {
    var sb := ApplySide(b.bids, nb, true);
    assert Elems(b.asks) == old(Elems(b.asks));
    var sa := ApplySide(b.asks, na, false);
    b' := Book(sb, sa);
  }

  /** Book.Snapshot clones both sides: the copies are on arrays that nobody else has. */
  method TakeSnapshot(b: Book) returns (bids: Slice, asks: Slice)
    requires InBounds(b.bids) && InBounds(b.asks)
    ensures fresh(bids.arr) && fresh(asks.arr) && bids.arr != asks.arr && InBounds(bids) && InBounds(asks)
    ensures Elems(bids) == Elems(b.bids) && Elems(asks) == Elems(b.asks)
  {
    bids := CloneLevels(b.bids);
    asks := CloneLevels(b.asks);
  }

  method ApplyUpdate(b: Book, u: BookUpdate) returns (b': Book)
    requires GoodBook(b)
    modifies b.bids.arr, b.asks.arr
    ensures b'.bids.arr == b.bids.arr || fresh(b'.bids.arr)
    ensures b'.asks.arr == b.asks.arr || fresh(b'.asks.arr)
    ensures GoodBook(b') && ViewOf(b') == Apply(old(ViewOf(b)), u)
  {
    var bids := NewSlice(u.bids);
    var asks := NewSlice(u.asks);
    var p;
    match u {
      case Snapshot(_, _) => b', p := ApplySnapshot(b, bids, asks);
      case Delta(_, _) => b', p := ApplyDelta(b, bids, asks);
    }
  }

  lemma ApplyOneMore(v: View, us: seq<BookUpdate>, i: nat)
    requires i < |us|
    ensures ApplyAll(v, us[..i + 1]) == Apply(ApplyAll(v, us[..i]), us[i])
  {
    assert us[..i + 1][..i] == us[..i];
  }

  method ApplyUpdates(b: Book, us: seq<BookUpdate>) returns (b': Book)
    requires GoodBook(b)
    modifies b.bids.arr, b.asks.arr
    ensures GoodBook(b') && ViewOf(b') == ApplyAll(old(ViewOf(b)), us)
  {
    b' := b;
    var i := 0;
    while i < |us|
      invariant 0 <= i <= |us|
      invariant b'.bids.arr == b.bids.arr || fresh(b'.bids.arr)
      invariant b'.asks.arr == b.asks.arr || fresh(b'.asks.arr)
      invariant GoodBook(b') && ViewOf(b') == ApplyAll(old(ViewOf(b)), us[..i])
    {
      ApplyOneMore(old(ViewOf(b)), us, i);
      b' := ApplyUpdate(b', us[i]);
      i := i + 1;
    }
    assert us[..i] == us;
  }

  /** A snapshot taken before any stream of further updates still shows the book as it was. */
  method SnapshotStaysPut(b: Book, us: seq<BookUpdate>) returns (bids: Slice, asks: Slice, b': Book)
    requires GoodBook(b)
    modifies b.bids.arr, b.asks.arr
    ensures InBounds(bids) && InBounds(asks) && Elems(bids) == old(Elems(b.bids)) && Elems(asks) == old(Elems(b.asks))
    ensures GoodBook(b') && ViewOf(b') == ApplyAll(old(ViewOf(b)), us)
  {
    bids, asks := TakeSnapshot(b);
    b' := ApplyUpdates(b, us);
  }

  /** Bids from the highest price down, asks from the lowest up, and every price and size positive. */
  ghost predicate InNumbers(bids: seq<Level>, asks: seq<Level>) {
    && (forall i, j :: 0 <= i < j < |bids| ==> bids[i].price > bids[j].price)
    && (forall i, j :: 0 <= i < j < |asks| ==> asks[i].price < asks[j].price)
    && (forall i :: 0 <= i < |bids| ==> bids[i].price > 0.0 && bids[i].size > 0.0)
    && (forall i :: 0 <= i < |asks| ==> asks[i].price > 0.0 && asks[i].size > 0.0)
  }

  lemma GoodInNumbers(bids: seq<Level>, asks: seq<Level>)
    requires GoodSide(bids, true) && GoodSide(asks, false)
    ensures InNumbers(bids, asks)
  {
  }

  /** Reconstruction from any stream of updates, rejected ones included, agrees with the maps. */
  method Reconstruct(us: seq<BookUpdate>) returns (b: Book)
    ensures GoodBook(b) && ViewOf(b) == ApplyAll(View(map[], map[]), us)
    ensures InNumbers(Elems(b.bids), Elems(b.asks))
  {
    b := NewBook();
    var i := 0;
    while i < |us|
      invariant 0 <= i <= |us| && fresh(b.bids.arr) && fresh(b.asks.arr)
      invariant GoodBook(b) && ViewOf(b) == ApplyAll(View(map[], map[]), us[..i])
    {
      ApplyOneMore(View(map[], map[]), us, i);
      b := ApplyUpdate(b, us[i]);
      i := i + 1;
    }
    assert us[..i] == us;
    GoodInNumbers(Elems(b.bids), Elems(b.asks));
  }

  /** Round trip: a snapshot of a good book is accepted and rebuilds exactly that book. */
  lemma SnapshotRoundTrip(bids: seq<Level>, asks: seq<Level>)
    requires GoodSide(bids, true) && GoodSide(asks, false)
    ensures Accepted(Snapshot(bids, asks)) && Canon(bids, true) == bids && Canon(asks, false) == asks
  {
    CanonOfStrict(bids, true);
    CanonOfStrict(asks, false);
  }

  /** A book's sides are determined by what it means: equal maps, equal contents, whatever the update history. */
  lemma MeaningDeterminesSide(a: seq<Level>, b: seq<Level>, desc: bool)
    requires Strict(a, desc) && Strict(b, desc) && DistinctPrices(a) && DistinctPrices(b) && PriceMap(a) == PriceMap(b)
    ensures a == b
  {
    SameMapSameLevels(a, b);
    StrictDeterminedByMap(a, b, desc);
  }
}

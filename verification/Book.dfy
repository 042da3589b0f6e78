/** Book snapshots and deltas as they arrive, and NormalizeBookOrdering. */
module BookEvents {
  import opened Options
  import opened Levels
  import opened Slices

  predicate ValidLevel(l: Level, strictPositiveSize: bool) {
    l.price > 0.0 && (if strictPositiveSize then l.size > 0.0 else l.size >= 0.0)
  }

  ghost predicate AllValid(s: seq<Level>, strictPositiveSize: bool) {
    forall i :: 0 <= i < |s| ==> ValidLevel(s[i], strictPositiveSize)
  }

  function LevelProblem(l: Level): Problem {
    if l.price <= 0.0 then BadPrice(l.price) else BadSize(l.size)
  }

  /** validateLevels reports the first offending level, its price before its size. */
  method ValidateLevels(levels: seq<Level>, strictPositiveSize: bool) returns (p: Option<Problem>)
    ensures p.None? <==> AllValid(levels, strictPositiveSize)
    ensures p.None? <==> forall i :: 0 <= i < |levels| ==>
              levels[i].price > 0.0 && levels[i].size >= 0.0 && (strictPositiveSize ==> levels[i].size != 0.0)
    ensures p.Some? ==> exists i :: 0 <= i < |levels| && AllValid(levels[..i], strictPositiveSize) &&
                                    if levels[i].price > 0.0
                                    then p == Some(BadSize(levels[i].size)) && !ValidLevel(levels[i], strictPositiveSize)
                                    else p == Some(BadPrice(levels[i].price))
  {
    var i := 0;
    while i < |levels|
      invariant 0 <= i <= |levels| && AllValid(levels[..i], strictPositiveSize)
    {
      var lvl := levels[i];
      if !ValidLevel(lvl, strictPositiveSize) {
        p := Some(LevelProblem(lvl));
        return;
      }
      i := i + 1;
    }
    p := None;
  }

  /** A side is accepted when its canonical form validates. */
  ghost predicate SideAccepted(s: seq<Level>, desc: bool, delta: bool) {
    AllValid(Canon(s, desc), !delta)
  }

  /** The price is positive, and some size quoted at it is: in a delta, where zero deletes, not negative. */
  ghost predicate QuotedWell(s: seq<Level>, l: Level, delta: bool) {
    l.price > 0.0 && exists k :: k in s && k.price == l.price && (k.size > 0.0 || (delta && k.size == 0.0))
  }

  ghost predicate AllQuotedWell(s: seq<Level>, delta: bool) {
    forall l {:trigger QuotedWell(s, l, delta)} :: l in s ==> QuotedWell(s, l, delta)
  }

  lemma AcceptedIsQuotedWell(s: seq<Level>, desc: bool, delta: bool, l: Level)
    requires SideAccepted(s, desc, delta) && l in s
    ensures QuotedWell(s, l, delta)
  {
    CanonIsMaxPerPrice(s, desc);
    var c := Canon(s, desc);
    assert l.price in PriceMap(c);
    var k :| k in c && k.price == l.price;
    assert k in s;
    var i :| 0 <= i < |c| && c[i] == k;
    assert ValidLevel(c[i], !delta);
  }

  lemma QuotedWellIsAccepted(s: seq<Level>, desc: bool, delta: bool, i: nat)
    requires i < |Canon(s, desc)| && AllQuotedWell(s, delta)
    ensures ValidLevel(Canon(s, desc)[i], !delta)
  {
    CanonIsMaxPerPrice(s, desc);
    var l := Canon(s, desc)[i];
    assert l in Canon(s, desc) && QuotedWell(s, l, delta);
    var k :| k in s && k.price == l.price && (k.size > 0.0 || (delta && k.size == 0.0));
    assert k.size <= PriceMap(Canon(s, desc))[k.price] == l.size;
  }

  /**
   * In terms of the input: every price is positive, and at each price the largest quoted size is positive
   * (for a delta: not negative). A non-positive size is tolerated when a larger one at the same price outdoes it.
   */
  lemma SideAcceptedExactly(s: seq<Level>, desc: bool, delta: bool)
    ensures SideAccepted(s, desc, delta) <==> AllQuotedWell(s, delta)
  {
    if SideAccepted(s, desc, delta) {
      forall l | l in s ensures QuotedWell(s, l, delta) {
        AcceptedIsQuotedWell(s, desc, delta, l);
      }
    }
    if AllQuotedWell(s, delta) {
      var c := Canon(s, desc);
      forall i | 0 <= i < |c| ensures ValidLevel(c[i], !delta) {
        QuotedWellIsAccepted(s, desc, delta, i);
      }
    }
  }

  /** NormalizeBookOrdering works on clones: what it returns is on arrays of its own, and the caller's are only read. */
  method NormalizeBookOrdering(bids: Slice, asks: Slice, delta: bool) returns (nb: Slice, na: Slice, p: Option<Problem>)
    requires InBounds(bids) && InBounds(asks)
    ensures fresh(nb.arr) && fresh(na.arr) && nb.arr != na.arr && InBounds(nb) && InBounds(na)
    ensures p.None? <==> SideAccepted(Elems(bids), true, delta) && SideAccepted(Elems(asks), false, delta)
    ensures p.None? ==> Elems(nb) == Canon(Elems(bids), true) && Elems(na) == Canon(Elems(asks), false)
    ensures p.Some? ==> nb.len == 0 && na.len == 0 && (p.value.BadPrice? || p.value.BadSize?)
  {
    nb := CloneLevels(bids);
    na := CloneLevels(asks);
    SortInPlace(nb, true);
    SortInPlace(na, false);
    nb := CollapseByPrice(nb);
    na := CollapseByPrice(na);
    p := ValidateLevels(nb.arr[..nb.len], !delta);
    if p.None? {
      p := ValidateLevels(na.arr[..na.len], !delta);
    }
    if p.Some? {
      nb, na := Slice(nb.arr, 0), Slice(na.arr, 0);
    }
  }

  datatype BookUpdate = Snapshot(bids: seq<Level>, asks: seq<Level>) | Delta(bids: seq<Level>, asks: seq<Level>)

  ghost predicate Accepted(u: BookUpdate) {
    SideAccepted(u.bids, true, u.Delta?) && SideAccepted(u.asks, false, u.Delta?)
  }

  /** An update is accepted exactly when both sides quote every price well. */
  lemma AcceptedExactly(u: BookUpdate)
    ensures Accepted(u) <==> AllQuotedWell(u.bids, u.Delta?) && AllQuotedWell(u.asks, u.Delta?)
  {
    SideAcceptedExactly(u.bids, true, u.Delta?);
    SideAcceptedExactly(u.asks, false, u.Delta?);
  }
}

/** What a book means: two price-to-size maps, and what each update does to them. */
module BookMeaning {
  import opened Levels
  import opened BookEvents

  datatype View = View(bids: map<real, real>, asks: map<real, real>)

  ghost function SideMap(s: seq<Level>, desc: bool): map<real, real> {
    CanonIsMaxPerPrice(s, desc);
    PriceMap(Canon(s, desc))
  }

  /** Override with the delta's sizes, then forget the prices it sets to zero. */
  ghost function Overlay(m: map<real, real>, d: map<real, real>): map<real, real> {
    map p | p in m.Keys + d.Keys && (p in d ==> d[p] != 0.0) :: if p in d then d[p] else m[p]
  }

  ghost function Apply(v: View, u: BookUpdate): View {
    if !Accepted(u) then v
    else if u.Snapshot? then View(SideMap(u.bids, true), SideMap(u.asks, false))
    else View(Overlay(v.bids, SideMap(u.bids, true)), Overlay(v.asks, SideMap(u.asks, false)))
  }

  ghost function ApplyAll(v: View, us: seq<BookUpdate>): View {
    if us == [] then v else Apply(ApplyAll(v, us[..|us| - 1]), us[|us| - 1])
  }

  lemma OnePriceMap(l: Level, m: map<real, real>)
    requires IsMaxPerPrice([l], m)
    ensures m == map[l.price := l.size]
  {
    assert l in [l];
    forall p | p in m ensures p == l.price && m[p] == l.size {
      assert Level(p, m[p]) in [l];
    }
  }

  lemma NoPriceMap(m: map<real, real>)
    requires IsMaxPerPrice([], m)
    ensures m == map[]
  {
    assert forall p :: p in m ==> Level(p, m[p]) in [];
  }

  lemma SideMapIsMax(s: seq<Level>, desc: bool, m: map<real, real>)
    requires m == SideMap(s, desc)
    ensures IsMaxPerPrice(s, m)
  {
    CanonIsMaxPerPrice(s, desc);
  }

  /** What a side that quotes one price says. */
  lemma OneLevelSide(p: real, size: real, desc: bool)
    ensures SideMap([Level(p, size)], desc) == map[p := size] && SideMap([], desc) == map[]
  {
    var one, none := SideMap([Level(p, size)], desc), SideMap([], desc);
    SideMapIsMax([Level(p, size)], desc, one);
    SideMapIsMax([], desc, none);
    OnePriceMap(Level(p, size), one);
    NoPriceMap(none);
  }

  lemma OneLevelAccepted(p: real, size: real)
    requires p > 0.0 && size >= 0.0
    ensures Accepted(Delta([Level(p, size)], [])) && Accepted(Delta([], [Level(p, size)]))
  {
    assert QuotedWell([Level(p, size)], Level(p, size), true) by {
      assert Level(p, size) in [Level(p, size)];
    }
    AcceptedExactly(Delta([Level(p, size)], []));
    AcceptedExactly(Delta([], [Level(p, size)]));
  }

  /** A delta that quotes one price at size zero is accepted and takes that price out, and nothing else, whatever the book. */
  lemma ZeroDeletes(v: View, p: real)
    requires p > 0.0
    ensures Apply(v, Delta([Level(p, 0.0)], [])) == View(v.bids - {p}, v.asks)
    ensures Apply(v, Delta([], [Level(p, 0.0)])) == View(v.bids, v.asks - {p})
  {
    OneLevelAccepted(p, 0.0);
    OneLevelSide(p, 0.0, true);
    OneLevelSide(p, 0.0, false);
    OverlayOne(v.bids, p, 0.0);
    OverlayOne(v.asks, p, 0.0);
  }

  /** One that quotes it at a positive size sets it, and nothing else. */
  lemma PositiveSets(v: View, p: real, size: real)
    requires p > 0.0 && size > 0.0
    ensures Apply(v, Delta([Level(p, size)], [])) == View(v.bids[p := size], v.asks)
    ensures Apply(v, Delta([], [Level(p, size)])) == View(v.bids, v.asks[p := size])
  {
    OneLevelAccepted(p, size);
    OneLevelSide(p, size, true);
    OneLevelSide(p, size, false);
    OverlayOne(v.bids, p, size);
    OverlayOne(v.asks, p, size);
  }

  lemma OverlayOne(m: map<real, real>, p: real, size: real)
    ensures Overlay(m, map[p := size]) == if size == 0.0 then m - {p} else m[p := size]
    ensures Overlay(m, map[]) == m
  {
  }

  function SideOf(u: BookUpdate, desc: bool): seq<Level> {
    if desc then u.bids else u.asks
  }

  ghost function ViewSide(v: View, desc: bool): map<real, real> {
    if desc then v.bids else v.asks
  }

  /** The update decides what the book says at price `p`: an accepted snapshot always does, a delta where it quotes `p`. */
  ghost predicate Decides(u: BookUpdate, desc: bool, p: real) {
    Accepted(u) && (u.Snapshot? || p in SideMap(SideOf(u, desc), desc))
  }

  ghost predicate NothingDecidesAfter(us: seq<BookUpdate>, desc: bool, p: real, k: int) {
    forall j :: 0 <= j < |us| && k < j ==> !Decides(us[j], desc, p)
  }

  /**
   * Last write wins, over every run of updates: what the book says at a price is what the last deciding update says,
   * the price being absent when that update drops it; with no deciding update it is what the book started with.
   */
  lemma {:induction false} LastWriteWins(v: View, us: seq<BookUpdate>, desc: bool, p: real, k: int)
    requires -1 <= k < |us| && NothingDecidesAfter(us, desc, p, k)
    requires k >= 0 ==> Decides(us[k], desc, p)
    ensures var end := ViewSide(ApplyAll(v, us), desc);
            if k < 0 then
              var start := ViewSide(v, desc);
              (p in end <==> p in start) && (p in end ==> end[p] == start[p])
            else
              var said := SideMap(SideOf(us[k], desc), desc);
              (p in end <==> p in said && said[p] != 0.0) && (p in end ==> end[p] == said[p])
  {
    if us != [] {
      var init, u := us[..|us| - 1], us[|us| - 1];
      if k == |us| - 1 {
        if u.Snapshot? {
          SnapshotSizesPositive(u, desc, p);
        }
      } else {
        assert NothingDecidesAfter(init, desc, p, k) && !Decides(u, desc, p);
        LastWriteWins(v, init, desc, p, k);
      }
    }
  }

  lemma SnapshotSizesPositive(u: BookUpdate, desc: bool, p: real)
    requires u.Snapshot? && Accepted(u)
    ensures var said := SideMap(SideOf(u, desc), desc); p in said ==> said[p] > 0.0
  {
  }
}

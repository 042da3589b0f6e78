/** Price levels: sorting, collapsing, validating, and the canonical form they add up to. Finite floats are exact reals. */
module Levels {

  datatype Level = Level(price: real, size: real)

  datatype Problem =
    | BadPrice(price: real)
    | BadSize(size: real)
    | BadTimestamp
    | BadUpdateIds
    | NotSorted
    | OutOfOrder(lastSeq: int)
    | NotFound

  /** Bids run from the highest price down, asks from the lowest up. */
  predicate Before(p: real, q: real, desc: bool) {
    if desc then p > q else p < q
  }

  /** The comparison sortLevels hands to the sort: price first, larger size first at equal price. */
  predicate LevelLess(a: Level, b: Level, desc: bool) {
    if a.price == b.price then a.size > b.size else Before(a.price, b.price, desc)
  }

  ghost predicate LevelsSorted(s: seq<Level>, desc: bool) {
    forall i, j :: 0 <= i < j < |s| ==> !LevelLess(s[j], s[i], desc)
  }

  /** Strictly ordered by price, hence at most one level per price. */
  ghost predicate Strict(s: seq<Level>, desc: bool) {
    forall i, j :: 0 <= i < j < |s| ==> Before(s[i].price, s[j].price, desc)
  }

  // ---------------------------------------------------------------- sorting

  lemma AppendSorted(s: seq<Level>, x: Level, desc: bool)
    requires LevelsSorted(s, desc) && forall y :: y in multiset(s) ==> !LevelLess(x, y, desc)
    ensures LevelsSorted(s + [x], desc)
  {
  }

  /** In a sorted sequence only the last element has to be compared with a newcomer. */
  lemma LastDominates(s: seq<Level>, x: Level, desc: bool)
    requires LevelsSorted(s, desc) && (s != [] ==> !LevelLess(x, s[|s| - 1], desc))
    ensures forall y :: y in multiset(s) ==> !LevelLess(x, y, desc)
  {
  }

  /** Stable insertion from the right. */
  function InsertLevel(s: seq<Level>, x: Level, desc: bool): seq<Level> {
    if s == [] || !LevelLess(x, s[|s| - 1], desc) then s + [x]
    else InsertLevel(s[..|s| - 1], x, desc) + [s[|s| - 1]]
  }

  lemma {:induction false} InsertLevelKeepsSorted(s: seq<Level>, x: Level, desc: bool)
    requires LevelsSorted(s, desc)
    ensures LevelsSorted(InsertLevel(s, x, desc), desc)
    ensures multiset(InsertLevel(s, x, desc)) == multiset(s) + multiset{x}
  {
    if s == [] || !LevelLess(x, s[|s| - 1], desc) {
      LastDominates(s, x, desc);
      AppendSorted(s, x, desc);
    } else {
      var init, last := s[..|s| - 1], s[|s| - 1];
      assert s == init + [last];
      InsertLevelKeepsSorted(init, x, desc);
      LastDominates(init, last, desc);
      AppendSorted(InsertLevel(init, x, desc), last, desc);
    }
  }

  /** sortLevels */
  function SortLevels(s: seq<Level>, desc: bool): seq<Level> {
    if s == [] then [] else InsertLevel(SortLevels(s[..|s| - 1], desc), s[|s| - 1], desc)
  }

  lemma {:induction false} SortLevelsSorts(s: seq<Level>, desc: bool)
    ensures LevelsSorted(SortLevels(s, desc), desc) && multiset(SortLevels(s, desc)) == multiset(s)
  {
    if s != [] {
      assert s == s[..|s| - 1] + [s[|s| - 1]];
      SortLevelsSorts(s[..|s| - 1], desc);
      InsertLevelKeepsSorted(SortLevels(s[..|s| - 1], desc), s[|s| - 1], desc);
    }
  }

  lemma HeadIsLeast(a: seq<Level>, b: seq<Level>, desc: bool)
    requires LevelsSorted(a, desc) && multiset(a) == multiset(b) && a != [] && b != []
    ensures !LevelLess(b[0], a[0], desc)
  {
    assert b[0] in multiset(a);
    var i :| 0 <= i < |a| && a[i] == b[0];
  }

  lemma SameLength(a: seq<Level>, b: seq<Level>)
    requires multiset(a) == multiset(b)
    ensures |a| == |b|
  {
    assert |a| == |multiset(a)| && |b| == |multiset(b)|;
  }

  lemma SameTails(a: seq<Level>, b: seq<Level>)
    requires multiset(a) == multiset(b) && a != [] && b != [] && a[0] == b[0]
    ensures multiset(a[1..]) == multiset(b[1..])
  {
    assert a == [a[0]] + a[1..] && b == [b[0]] + b[1..];
    assert multiset(a[1..]) == multiset(a) - multiset{a[0]} && multiset(b[1..]) == multiset(b) - multiset{b[0]};
  }

  /** Any algorithm that sorts by this comparison gives this result. */
  lemma {:induction false} SortedIsUnique(a: seq<Level>, b: seq<Level>, desc: bool)
    requires LevelsSorted(a, desc) && LevelsSorted(b, desc) && multiset(a) == multiset(b)
    ensures a == b
  {
    SameLength(a, b);
    if a != [] {
      HeadIsLeast(a, b, desc);
      HeadIsLeast(b, a, desc);
      SameTails(a, b);
      SortedIsUnique(a[1..], b[1..], desc);
      assert a == [a[0]] + a[1..] && b == [b[0]] + b[1..];
    }
  }

  // ---------------------------------------------------------------- collapsing

  function Collapse(s: seq<Level>): seq<Level> {
    if s == [] then []
    else
      var c, l := Collapse(s[..|s| - 1]), s[|s| - 1];
      if c != [] && c[|c| - 1].price == l.price then c else c + [l]
  }

  lemma StrictGrows(c: seq<Level>, l: Level, desc: bool)
    requires Strict(c, desc) && (c != [] ==> Before(c[|c| - 1].price, l.price, desc))
    ensures Strict(c + [l], desc)
  {
  }

  lemma {:induction false} CollapseStrict(s: seq<Level>, desc: bool)
    requires LevelsSorted(s, desc)
    ensures var c := Collapse(s);
            && Strict(c, desc) && (forall l :: l in c ==> l in s)
            && (s != [] ==> c != [] && c[|c| - 1].price == s[|s| - 1].price)
  {
    if s != [] {
      var init, l := s[..|s| - 1], s[|s| - 1];
      CollapseStrict(init, desc);
      var c := Collapse(init);
      if c != [] && c[|c| - 1].price != l.price {
        assert init != [] && !LevelLess(l, init[|init| - 1], desc);
        assert Before(c[|c| - 1].price, l.price, desc);
        StrictGrows(c, l, desc);
      }
    }
  }

  /** What collapsing drops is outdone, at its own price, by something it keeps. */
  lemma {:induction false} CollapseCovers(s: seq<Level>, desc: bool, i: nat) returns (k: Level)
    requires LevelsSorted(s, desc) && i < |s|
    ensures k in Collapse(s) && k.price == s[i].price && k.size >= s[i].size
  {
    var init, l := s[..|s| - 1], s[|s| - 1];
    var c := Collapse(init);
    if i < |init| {
      k := CollapseCovers(init, desc, i);
    } else if c != [] && c[|c| - 1].price == l.price {
      k := c[|c| - 1];
      CollapseStrict(init, desc);
      assert k in init;
    } else {
      k := l;
    }
  }

  // ---------------------------------------------------------------- the price-to-size view

  ghost predicate DistinctPrices(s: seq<Level>) {
    forall k, l :: k in s && l in s && k.price == l.price ==> k == l
  }

  ghost function PriceMap(s: seq<Level>): map<real, real>
    requires DistinctPrices(s)
  {
    map l | l in s :: l.price := l.size
  }

  lemma StrictIsDistinct(s: seq<Level>, desc: bool)
    requires Strict(s, desc)
    ensures DistinctPrices(s)
  {
  }

  /** The map sends each price occurring in `s` to the largest size quoted there. */
  ghost predicate IsMaxPerPrice(s: seq<Level>, m: map<real, real>) {
    && (forall p :: p in m ==> Level(p, m[p]) in s)
    && (forall l :: l in s ==> l.price in m && l.size <= m[l.price])
  }

  /** A strictly ordered side is determined by its map. */
  lemma {:induction false} StrictDeterminedByMap(a: seq<Level>, b: seq<Level>, desc: bool)
    requires Strict(a, desc) && Strict(b, desc)
    requires forall l :: l in a <==> l in b
    ensures a == b
  {
    if a != [] || b != [] {
      assert a != [] ==> a[0] in b;
      assert b != [] ==> b[0] in a;
      assert a[0] in b && b[0] in a;
      assert a[0] == b[0];
      assert a == [a[0]] + a[1..] && b == [b[0]] + b[1..];
      forall l ensures l in a[1..] <==> l in b[1..] {
        assert l in a[1..] ==> l in a && l != a[0];
        assert l in b[1..] ==> l in b && l != b[0];
      }
      StrictDeterminedByMap(a[1..], b[1..], desc);
    }
  }

  // ---------------------------------------------------------------- canonical form

  /** One side of NormalizeBookOrdering, before validation. */
  function Canon(s: seq<Level>, desc: bool): seq<Level> {
    Collapse(SortLevels(s, desc))
  }

  /** Canonical form keeps exactly the distinct prices, in book order, each with its largest size. */
  lemma CanonIsMaxPerPrice(s: seq<Level>, desc: bool)
    ensures var c := Canon(s, desc);
            Strict(c, desc) && DistinctPrices(c) && IsMaxPerPrice(s, PriceMap(c)) && forall l :: l in c ==> l in s
  {
    var t := SortLevels(s, desc);
    var c := Collapse(t);
    SortLevelsSorts(s, desc);
    CollapseStrict(t, desc);
    StrictIsDistinct(c, desc);
    forall l ensures l in s <==> l in t {
      assert l in s <==> l in multiset(s);
      assert l in t <==> l in multiset(t);
    }
    forall l | l in s ensures l.price in PriceMap(c) && l.size <= PriceMap(c)[l.price] {
      var i :| 0 <= i < |t| && t[i] == l;
      var k := CollapseCovers(t, desc, i);
    }
  }

  /** Canonical bids run from the highest price down, canonical asks from the lowest up. */
  lemma BidsDownAsksUp(s: seq<Level>, i: nat, j: nat)
    requires i < j
    ensures j < |Canon(s, true)| ==> Canon(s, true)[i].price > Canon(s, true)[j].price
    ensures j < |Canon(s, false)| ==> Canon(s, false)[i].price < Canon(s, false)[j].price
  {
    CanonIsMaxPerPrice(s, true);
    CanonIsMaxPerPrice(s, false);
  }

  lemma MaxPerPriceIsUnique(s: seq<Level>, t: seq<Level>, m: map<real, real>, n: map<real, real>)
    requires forall l :: l in s <==> l in t
    requires IsMaxPerPrice(s, m) && IsMaxPerPrice(t, n)
    ensures m == n
  {
    forall p | p in m ensures p in n && m[p] == n[p] {
      assert Level(p, m[p]) in t && p in n && Level(p, n[p]) in s;
    }
    forall p | p in n ensures p in m {
      assert Level(p, n[p]) in s;
    }
  }

  lemma SameMapSameLevels(a: seq<Level>, b: seq<Level>)
    requires DistinctPrices(a) && DistinctPrices(b) && PriceMap(a) == PriceMap(b)
    ensures forall l :: l in a <==> l in b
  {
    forall l ensures l in a <==> l in b {
      if l in a {
        assert l.price in PriceMap(a);
        assert l.price in PriceMap(b);
        assert PriceMap(b)[l.price] == l.size;
      }
      if l in b {
        assert l.price in PriceMap(b);
        assert l.price in PriceMap(a);
        assert PriceMap(a)[l.price] == l.size;
      }
    }
  }

  /** The result depends only on which levels occur: not on their order, and not on how often each is repeated. */
  lemma CanonIgnoresOrder(s: seq<Level>, t: seq<Level>, desc: bool)
    requires forall l :: l in s <==> l in t
    ensures Canon(s, desc) == Canon(t, desc)
  {
    CanonIsMaxPerPrice(s, desc);
    CanonIsMaxPerPrice(t, desc);
    var a, b := Canon(s, desc), Canon(t, desc);
    MaxPerPriceIsUnique(s, t, PriceMap(a), PriceMap(b));
    SameMapSameLevels(a, b);
    StrictDeterminedByMap(a, b, desc);
  }

  /** A side already in book order is its own canonical form. */
  lemma CanonOfStrict(s: seq<Level>, desc: bool)
    requires Strict(s, desc)
    ensures Canon(s, desc) == s
  {
    StrictIsDistinct(s, desc);
    CanonIsMaxPerPrice(s, desc);
    var c := Canon(s, desc);
    assert IsMaxPerPrice(s, PriceMap(s));
    MaxPerPriceIsUnique(s, s, PriceMap(c), PriceMap(s));
    SameMapSameLevels(c, s);
    StrictDeterminedByMap(c, s, desc);
  }

  lemma CanonIdempotent(s: seq<Level>, desc: bool)
    ensures Canon(Canon(s, desc), desc) == Canon(s, desc)
  {
    CanonIsMaxPerPrice(s, desc);
    CanonOfStrict(Canon(s, desc), desc);
  }
}

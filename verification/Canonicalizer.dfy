/** Precision rounding and NormalizeBookDelta, over exact decimals. */
module Canonicalizer {
  import opened Options
  import opened Levels
  import opened Slices
  import opened BookEvents

  datatype PrecisionRule = PrecisionRule(priceDecimals: int, sizeDecimals: int)

  function Pow10(n: nat): (r: real)
    ensures r > 0.0
  {
    if n == 0 then 1.0 else 10.0 * Pow10(n - 1)
  }

  /** math.Round: to the nearest integer, halves away from zero */
  function Round(x: real): int {
    if x >= 0.0 then (x + 0.5).Floor else -((-x + 0.5).Floor)
  }

  function ToTicks(v: real, decimals: nat): real {
    v * Pow10(decimals)
  }

  function FromTicks(k: int, decimals: nat): real {
    k as real / Pow10(decimals)
  }

  function RoundToDecimals(v: real, decimals: int): real {
    if decimals < 0 then v else FromTicks(Round(ToTicks(v, decimals)), decimals)
  }

  lemma RoundOfInt(k: int)
    ensures Round(k as real) == k
  {
  }

  lemma TicksRoundTrip(k: int, decimals: nat)
    ensures ToTicks(FromTicks(k, decimals), decimals) == k as real
  {
  }

  /**
   * A negative number of decimals leaves a value alone. Otherwise the result is a whole number of units of the last
   * decimal, at most half a unit away, and of two that are as close the one further from zero.
   */
  lemma RoundIsNearest(v: real, decimals: int)
    ensures decimals < 0 ==> RoundToDecimals(v, decimals) == v
    ensures decimals >= 0 ==> IsNearest(ToTicks(RoundToDecimals(v, decimals), decimals), ToTicks(v, decimals))
  {
    if decimals >= 0 {
      var x := ToTicks(v, decimals);
      TicksRoundTrip(Round(x), decimals);
      RoundNear(x);
    }
  }

  /** `k` is the whole number nearest to `x`. */
  ghost predicate IsNearest(k: real, x: real) {
    k == k.Floor as real && -0.5 <= k - x <= 0.5 && (k - x == 0.5 ==> x >= 0.0) && (k - x == -0.5 ==> x < 0.0)
  }

  lemma RoundNear(x: real)
    ensures IsNearest(Round(x) as real, x)
  {
  }

  lemma {:induction false} TenTimesPerDecimal(a: nat, b: nat)
    ensures Pow10(a + b) == Pow10(a) * Pow10(b) && Pow10(0) == 1.0 && Pow10(1) == 10.0
  {
    if a > 0 {
      TenTimesPerDecimal(a - 1, b);
    }
  }

  lemma RoundIsIdempotent(v: real, decimals: int)
    ensures RoundToDecimals(RoundToDecimals(v, decimals), decimals) == RoundToDecimals(v, decimals)
  {
    if decimals >= 0 {
      var k := Round(ToTicks(v, decimals));
      TicksRoundTrip(k, decimals);
      RoundOfInt(k);
    }
  }

  function RoundLevel(l: Level, rule: PrecisionRule): Level {
    Level(RoundToDecimals(l.price, rule.priceDecimals), RoundToDecimals(l.size, rule.sizeDecimals))
  }

  ghost predicate Rounded(s: seq<Level>, rule: PrecisionRule) {
    forall l :: l in s ==> RoundLevel(l, rule) == l
  }

  ghost function RoundAll(s: seq<Level>, rule: PrecisionRule): seq<Level> {
    seq(|s|, i requires 0 <= i < |s| => RoundLevel(s[i], rule))
  }

  method NormalizeLevelsWithRule(levels: seq<Level>, rule: PrecisionRule) returns (out: seq<Level>)
    ensures out == RoundAll(levels, rule)
  {
    out := [];
    for i := 0 to |levels|
      invariant out == RoundAll(levels, rule)[..i]
    {
      out := out + [RoundLevel(levels[i], rule)];
    }
  }

  lemma RoundAllIsRounded(s: seq<Level>, rule: PrecisionRule)
    ensures Rounded(RoundAll(s, rule), rule)
  {
    forall l | l in RoundAll(s, rule) ensures RoundLevel(l, rule) == l {
      var i :| 0 <= i < |s| && l == RoundLevel(s[i], rule);
      RoundIsIdempotent(s[i].price, rule.priceDecimals);
      RoundIsIdempotent(s[i].size, rule.sizeDecimals);
    }
  }

  /** One side as both normalisers compute it: round every level, then bring the side into canonical form. */
  ghost function NormalSide(s: seq<Level>, rule: PrecisionRule, desc: bool): seq<Level> {
    Canon(RoundAll(s, rule), desc)
  }

  /** Rounding can merge prices, so it has to come before collapsing; after that a second pass changes nothing. */
  lemma NormalSideIdempotent(s: seq<Level>, rule: PrecisionRule, desc: bool)
    ensures Strict(NormalSide(s, rule, desc), desc)
    ensures NormalSide(NormalSide(s, rule, desc), rule, desc) == NormalSide(s, rule, desc)
  {
    var c := NormalSide(s, rule, desc);
    CanonIsMaxPerPrice(RoundAll(s, rule), desc);
    RoundAllIsRounded(s, rule);
    forall i | 0 <= i < |c| ensures RoundAll(c, rule)[i] == c[i] {
      assert c[i] in c;
    }
    assert RoundAll(c, rule) == c;
    CanonOfStrict(c, desc);
  }

  /** No level comes before its predecessor; equal prices may stand side by side. */
  ghost predicate InOrder(levels: seq<Level>, desc: bool) {
    forall i :: 1 <= i < |levels| ==> !Before(levels[i].price, levels[i - 1].price, desc)
  }

  /** isSorted */
  method IsSorted(levels: seq<Level>, desc: bool) returns (b: bool)
    ensures b <==> InOrder(levels, desc)
  {
    var i := 1;
    while i < |levels|
      invariant 1 <= i && forall k :: 1 <= k < i && k < |levels| ==> !Before(levels[k].price, levels[k - 1].price, desc)
    {
      if Before(levels[i].price, levels[i - 1].price, desc) {
        return false;
      }
      i := i + 1;
    }
    b := true;
  }

  datatype BookDelta = BookDelta(
    bids: seq<Level>, asks: seq<Level>, firstId: int, finalId: int, prevFinal: int, timestamp: int, isSnapshot: bool)

  datatype Result<+T> = Ok(value: T) | Err(problem: Problem)

  /** ExchangeAdapter.NormalizeTimestamp */
  function NormalizeTimestamp(raw: int, fallback: int): (r: int)
    ensures r > 0
  {
    if raw > 0 then raw else if fallback > 0 then fallback else 1
  }

  predicate UpdateIdsOk(d: BookDelta) {
    d.isSnapshot || (d.firstId > 0 && d.finalId > 0 && d.finalId >= d.firstId)
  }

  /** Every price is positive, every size zero or more. */
  ghost predicate Quotable(levels: seq<Level>) {
    forall i :: 0 <= i < |levels| ==> levels[i].price > 0.0 && levels[i].size >= 0.0
  }

  ghost predicate NeverRises(levels: seq<Level>) {
    forall i :: 1 <= i < |levels| ==> levels[i - 1].price >= levels[i].price
  }

  ghost predicate NeverFalls(levels: seq<Level>) {
    forall i :: 1 <= i < |levels| ==> levels[i - 1].price <= levels[i].price
  }

  /** A snapshot needs no update identifiers; anything else needs a positive range of them. */
  ghost predicate Identified(d: BookDelta) {
    d.isSnapshot || 0 < d.firstId <= d.finalId
  }

  /** BookDelta.Validate, checks in source order */
  method ValidateDelta(d: BookDelta) returns (p: Option<Problem>)
    ensures p.None? <==> d.timestamp > 0 && Quotable(d.bids) && Quotable(d.asks) && Identified(d) &&
                         NeverRises(d.bids) && NeverFalls(d.asks)
    ensures p == Some(BadTimestamp) <==> d.timestamp <= 0
    ensures p == Some(NotSorted) ==> !NeverRises(d.bids) || !NeverFalls(d.asks)
  {
    if d.timestamp <= 0 {
      return Some(BadTimestamp);
    }
    p := ValidateLevels(d.bids, false);
    if p.Some? { return; }
    p := ValidateLevels(d.asks, false);
    if p.Some? { return; }
    if !UpdateIdsOk(d) {
      return Some(BadUpdateIds);
    }
    var bidsSorted := IsSorted(d.bids, true);
    if !bidsSorted {
      return Some(NotSorted);
    }
    var asksSorted := IsSorted(d.asks, false);
    if !asksSorted {
      return Some(NotSorted);
    }
  }

  /** The identifiers a snapshot-style delta ends up with: a missing one takes the other's value. */
  function FillIds(d: BookDelta): BookDelta {
    if !d.isSnapshot then d
    else
      var d := if d.firstId == 0 then d.(firstId := d.finalId) else d;
      if d.finalId == 0 then d.(finalId := d.firstId) else d
  }

  ghost predicate DeltaAccepted(d: BookDelta, rule: PrecisionRule) {
    SideAccepted(RoundAll(d.bids, rule), true, true) && SideAccepted(RoundAll(d.asks, rule), false, true) && UpdateIdsOk(d)
  }

  ghost function NormalDelta(d: BookDelta, rule: PrecisionRule, fallbackTs: int): BookDelta {
    FillIds(d.(bids := NormalSide(d.bids, rule, true), asks := NormalSide(d.asks, rule, false),
               timestamp := NormalizeTimestamp(d.timestamp, fallbackTs)))
  }

  /** The normal form of a side: the best size at each quoted price, in the order `desc` tells. */
  ghost predicate BestPerPrice(n: seq<Level>, quoted: seq<Level>, desc: bool) {
    && (forall i, j :: 0 <= i < j < |n| ==> if desc then n[i].price > n[j].price else n[i].price < n[j].price)
    && (forall l :: l in n ==> l in quoted)
    && (forall q {:trigger Outdone(n, q)} :: q in quoted ==> Outdone(n, q))
  }

  ghost predicate Outdone(n: seq<Level>, q: Level) {
    exists l :: l in n && l.price == q.price && l.size >= q.size
  }

  lemma NormalSideMeans(s: seq<Level>, rule: PrecisionRule, desc: bool)
    ensures BestPerPrice(NormalSide(s, rule, desc), RoundAll(s, rule), desc)
  {
    var n, quoted := NormalSide(s, rule, desc), RoundAll(s, rule);
    CanonIsMaxPerPrice(quoted, desc);
    forall q | q in quoted ensures Outdone(n, q) {
      var l :| l in n && l.price == q.price;
      assert PriceMap(n)[q.price] == l.size;
    }
  }

  /** The first that is positive, or else one. */
  ghost predicate FirstPositive(r: int, a: int, b: int) {
    if a > 0 then r == a else if b > 0 then r == b else r == 1
  }

  /** The identifiers are kept, but a missing one of a snapshot takes the value of the other. */
  ghost predicate Filled(d: BookDelta, n: BookDelta) {
    && (!d.isSnapshot || d.firstId != 0 ==> n.firstId == d.firstId) && (d.isSnapshot && d.firstId == 0 ==> n.firstId == d.finalId)
    && (!d.isSnapshot || d.finalId != 0 ==> n.finalId == d.finalId) && (d.isSnapshot && d.finalId == 0 ==> n.finalId == d.firstId)
  }

  /** Which deltas are accepted, in numbers, and what each part of the normal form is. */
  lemma NormalDeltaMeans(d: BookDelta, rule: PrecisionRule, fallbackTs: int)
    ensures DeltaAccepted(d, rule) <==>
            AllQuotedWell(RoundAll(d.bids, rule), true) && AllQuotedWell(RoundAll(d.asks, rule), true) && Identified(d)
    ensures var n := NormalDelta(d, rule, fallbackTs);
            && BestPerPrice(n.bids, RoundAll(d.bids, rule), true) && BestPerPrice(n.asks, RoundAll(d.asks, rule), false)
            && FirstPositive(n.timestamp, d.timestamp, fallbackTs) && Filled(d, n)
            && n.isSnapshot == d.isSnapshot && n.prevFinal == d.prevFinal
  {
    SideAcceptedExactly(RoundAll(d.bids, rule), true, true);
    SideAcceptedExactly(RoundAll(d.asks, rule), false, true);
    NormalSideMeans(d.bids, rule, true);
    NormalSideMeans(d.asks, rule, false);
  }

  lemma NormalPasses(n: BookDelta)
    requires Strict(n.bids, true) && Strict(n.asks, false) && AllValid(n.bids, false) && AllValid(n.asks, false)
    ensures Quotable(n.bids) && Quotable(n.asks) && NeverRises(n.bids) && NeverFalls(n.asks)
  {
  }

  /** Normalisation fails only on bad levels or bad update ids: the sortedness checks at its end never do. */
  method NormalizeBookDelta(d: BookDelta, rule: PrecisionRule, fallbackTs: int) returns (r: Result<BookDelta>)
    ensures r.Ok? <==> DeltaAccepted(d, rule)
    ensures r.Ok? ==> r.value == NormalDelta(d, rule, fallbackTs)
    ensures r != Err(NotSorted) && r != Err(BadTimestamp)
  {
    var rb := NormalizeLevelsWithRule(d.bids, rule);
    var ra := NormalizeLevelsWithRule(d.asks, rule);
    var sb := NewSlice(rb);
    var sa := NewSlice(ra);
    var cb, ca, p := NormalizeBookOrdering(sb, sa, true);
    if p.Some? {
      return Err(p.value);
    }
    var nb, na := cb.arr[..cb.len], ca.arr[..ca.len];
    NormalSideIdempotent(d.bids, rule, true);
    NormalSideIdempotent(d.asks, rule, false);
    var out := FillIds(d.(bids := nb, asks := na, timestamp := NormalizeTimestamp(d.timestamp, fallbackTs)));
    NormalPasses(out);
    p := ValidateDelta(out);
    if p.Some? {
      return Err(p.value);
    }
    r := Ok(out);
  }

  /** An accepted delta normalises to something that is accepted again and is its own normal form, whatever the fallback. */
  lemma NormalizeDeltaIdempotent(d: BookDelta, rule: PrecisionRule, fallbackTs: int, laterFallbackTs: int)
    requires DeltaAccepted(d, rule)
    ensures var n := NormalDelta(d, rule, fallbackTs);
            DeltaAccepted(n, rule) && NormalDelta(n, rule, laterFallbackTs) == n
  {
    NormalSideIdempotent(d.bids, rule, true);
    NormalSideIdempotent(d.asks, rule, false);
  }

  /** The normal form depends only on which levels were quoted, not on the order they came in. */
  lemma NormalDeltaIgnoresOrder(d: BookDelta, e: BookDelta, rule: PrecisionRule, fallbackTs: int)
    requires e == d.(bids := e.bids, asks := e.asks)
    requires (forall l :: l in d.bids <==> l in e.bids) && (forall l :: l in d.asks <==> l in e.asks)
    ensures NormalDelta(d, rule, fallbackTs) == NormalDelta(e, rule, fallbackTs)
  {
    RoundAllMembers(d.bids, e.bids, rule);
    RoundAllMembers(d.asks, e.asks, rule);
    CanonIgnoresOrder(RoundAll(d.bids, rule), RoundAll(e.bids, rule), true);
    CanonIgnoresOrder(RoundAll(d.asks, rule), RoundAll(e.asks, rule), false);
  }

  lemma RoundAllMembers(s: seq<Level>, t: seq<Level>, rule: PrecisionRule)
    requires forall l :: l in s <==> l in t
    ensures forall l :: l in RoundAll(s, rule) <==> l in RoundAll(t, rule)
  {
    forall l ensures l in RoundAll(s, rule) <==> l in RoundAll(t, rule) {
      if l in RoundAll(s, rule) {
        var i :| 0 <= i < |s| && RoundAll(s, rule)[i] == l;
        assert s[i] in t;
        var j :| 0 <= j < |t| && t[j] == s[i];
        assert RoundAll(t, rule)[j] == l;
      }
      if l in RoundAll(t, rule) {
        var i :| 0 <= i < |t| && RoundAll(t, rule)[i] == l;
        assert t[i] in s;
        var j :| 0 <= j < |s| && s[j] == t[i];
        assert RoundAll(s, rule)[j] == l;
      }
    }
  }
}

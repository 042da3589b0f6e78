/** Go's container/heap over a slice, as the replay merge buffer uses it. */
module MergeHeap {
  import opened Order

  /** Index `p` is the parent of index `i` in the implicit binary tree. */
  predicate Parent(p: int, i: int) {
    0 <= p && (i == 2 * p + 1 || i == 2 * p + 2)
  }

  /** Heap order on every edge. */
  ghost predicate IsHeap<T>(less: (T, T) -> bool, s: seq<T>) {
    forall p, i :: 0 <= p < i < |s| && Parent(p, i) ==> !less(s[i], s[p])
  }

  /** Heap order where only the element at `hole` may precede its parent. */
  ghost predicate HeapButUp<T>(less: (T, T) -> bool, s: seq<T>, hole: int) {
    && (forall p, i :: 0 <= p < i < |s| && Parent(p, i) && i != hole ==> !less(s[i], s[p]))
    && (forall p, i :: 0 <= p < i < |s| && Parent(p, hole) && Parent(hole, i) ==> !less(s[i], s[p]))
  }

  /** Heap order where only the element at `hole` may follow one of its children. */
  ghost predicate HeapButDown<T>(less: (T, T) -> bool, s: seq<T>, hole: int) {
    && (forall p, i :: 0 <= p < i < |s| && Parent(p, i) && p != hole ==> !less(s[i], s[p]))
    && (forall p, i :: 0 <= p < i < |s| && Parent(p, hole) && Parent(hole, i) ==> !less(s[i], s[p]))
  }

  ghost predicate Minimal<T>(less: (T, T) -> bool, m: multiset<T>, x: T) {
    x in m && forall y :: y in m ==> !less(y, x)
  }

  lemma {:induction false} RootBelowIndex<T(!new)>(less: (T, T) -> bool, s: seq<T>, i: nat)
    requires StrictWeak(less) && IsHeap(less, s) && i < |s|
    ensures !less(s[i], s[0])
  {
    if i > 0 { RootBelowIndex(less, s, (i - 1) / 2); }
  }

  /** The root of a heap precedes or ties with everything in it. */
  lemma RootIsMinimal<T(!new)>(less: (T, T) -> bool, s: seq<T>)
    requires StrictWeak(less) && IsHeap(less, s) && s != []
    ensures Minimal(less, multiset(s), s[0])
  {
    forall y | y in multiset(s) ensures !less(y, s[0]) {
      var i :| 0 <= i < |s| && s[i] == y;
      RootBelowIndex(less, s, i);
    }
  }

  function Swapped<T>(s: seq<T>, i: nat, j: nat): (r: seq<T>)
    requires i < |s| && j < |s|
    ensures |r| == |s| && multiset(r) == multiset(s)
  {
    var r := s[i := s[j]][j := s[i]];
    assert i == j ==> r == s;
    r
  }

  lemma SwapUp<T(!new)>(less: (T, T) -> bool, s: seq<T>, p: nat, j: nat)
    requires StrictWeak(less) && j < |s| && Parent(p, j)
    requires HeapButUp(less, s, j) && less(s[j], s[p])
    ensures HeapButUp(less, Swapped(s, p, j), p)
  {
  }

  lemma SwapDown<T(!new)>(less: (T, T) -> bool, s: seq<T>, i: nat, j: nat)
    requires StrictWeak(less) && j < |s| && Parent(i, j)
    requires HeapButDown(less, s, i) && less(s[j], s[i])
    requires forall k :: 0 <= k < |s| && Parent(i, k) ==> !less(s[k], s[j])
    ensures HeapButDown(less, Swapped(s, i, j), j)
  {
  }

  class Heap<T(!new)> {
    const less: (T, T) -> bool
    var items: seq<T>

    constructor (less: (T, T) -> bool)
      ensures this.less == less && items == []
    {
      this.less := less;
      items := [];
    }

    ghost predicate Valid()
      reads this
    {
      StrictWeak(less) && IsHeap(less, items)
    }

    /** container/heap.up */
    method Up(j0: nat)
      requires j0 < |items| && StrictWeak(less) && HeapButUp(less, items, j0)
      modifies this
      ensures Valid() && multiset(items) == old(multiset(items)) && |items| == old(|items|)
    {
      var j := j0;
      while true
        invariant 0 <= j < |items| == old(|items|)
        invariant HeapButUp(less, items, j)
        invariant multiset(items) == old(multiset(items))
        decreases j
      {
        var i := if j == 0 then 0 else (j - 1) / 2;
        if i == j || !less(items[j], items[i]) {
          break;
        }
        SwapUp(less, items, i, j);
        items := Swapped(items, i, j);
        j := i;
      }
    }

    /** container/heap.down from the root, over the slice already shortened by one */
    method Down()
      requires StrictWeak(less) && HeapButDown(less, items, 0)
      modifies this
      ensures Valid() && multiset(items) == old(multiset(items)) && |items| == old(|items|)
    {
      var i := 0;
      while true
        invariant 0 <= i && |items| == old(|items|)
        invariant HeapButDown(less, items, i)
        invariant multiset(items) == old(multiset(items))
        decreases |items| - i
      {
        var j := 2 * i + 1;
        if j >= |items| {
          break;
        }
        if j + 1 < |items| && less(items[j + 1], items[j]) {
          j := j + 1;
        }
        if !less(items[j], items[i]) {
          break;
        }
        SwapDown(less, items, i, j);
        items := Swapped(items, i, j);
        i := j;
      }
    }

    /** heap.Push */
    method Push(x: T)
      requires Valid()
      modifies this
      ensures Valid() && multiset(items) == old(multiset(items)) + multiset{x}
      ensures |items| == old(|items|) + 1
    {
      items := items + [x];
      Up(|items| - 1);
    }

    /** heap.Pop */
    method Pop() returns (x: T)
      requires Valid() && items != []
      modifies this
      ensures Valid() && Minimal(less, old(multiset(items)), x)
      ensures multiset(items) == old(multiset(items)) - multiset{x}
      ensures |items| == old(|items|) - 1
    {
      RootIsMinimal(less, items);
      var n := |items| - 1;
      items := Swapped(items, 0, n);
      x := items[n];
      assert items == items[..n] + [x];
      items := items[..n];
      Down();
    }
  }
}

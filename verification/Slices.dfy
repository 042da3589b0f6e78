/** Go slices of levels: windows on backing arrays, cloned, sorted in place, and collapsed. */
module Slices {
  import opened Levels

  /** A Go slice: a window on a backing array that other slices may share. */
  datatype Slice = Slice(arr: array<Level>, len: nat)

  ghost predicate InBounds(s: Slice) {
    s.len <= s.arr.Length
  }

  ghost function Elems(s: Slice): seq<Level>
    requires InBounds(s)
    reads s.arr
  {
    s.arr[..s.len]
  }

  /** A slice literal, on a backing array of its own. */
  method NewSlice(s: seq<Level>) returns (r: Slice)
    ensures InBounds(r) && fresh(r.arr) && Elems(r) == s
  {
    var arr := new Level[|s|](i requires 0 <= i < |s| => s[i]);
    r := Slice(arr, |s|);
  }

  /** cloneLevels: the same contents on a new array, so neither copy shows what is later done to the other */
  method CloneLevels(s: Slice) returns (r: Slice)
    requires InBounds(s)
    ensures InBounds(r) && fresh(r.arr) && Elems(r) == Elems(s)
  {
    var arr := new Level[s.len](_ => Level(0.0, 0.0));
    var i := 0;
    while i < s.len
      invariant 0 <= i <= s.len && arr[..i] == s.arr[..i]
    {
      arr[i] := s.arr[i];
      i := i + 1;
    }
    r := Slice(arr, s.len);
  }

  lemma SortKeepsSize(s: seq<Level>, desc: bool)
    ensures |SortLevels(s, desc)| == |s|
  {
    SortLevelsSorts(s, desc);
    SameLength(SortLevels(s, desc), s);
  }

  /** sortLevels: the slice is overwritten with the one sorted permutation of its contents */
  method SortInPlace(s: Slice, desc: bool)
    requires InBounds(s)
    modifies s.arr
    ensures Elems(s) == SortLevels(old(Elems(s)), desc) && s.arr[s.len..] == old(s.arr[s.len..])
  {
    var sorted := SortLevels(s.arr[..s.len], desc);
    SortKeepsSize(s.arr[..s.len], desc);
    var i := 0;
    while i < s.len
      invariant 0 <= i <= s.len && s.arr[..i] == sorted[..i] && s.arr[s.len..] == old(s.arr[s.len..])
    {
      s.arr[i] := sorted[i];
      i := i + 1;
    }
  }

  /** collapseByPrice: the first level of every run of equal prices, on a new array */
  method CollapseByPrice(s: Slice) returns (r: Slice)
    requires InBounds(s)
    ensures InBounds(r) && fresh(r.arr) && Elems(r) == Collapse(Elems(s))
  {
    var arr := new Level[s.len](_ => Level(0.0, 0.0));
    var n, i := 0, 0;
    while i < s.len
      invariant 0 <= n <= i <= s.len && arr[..n] == Collapse(s.arr[..i])
    {
      var lvl := s.arr[i];
      assert s.arr[..i + 1][..i] == s.arr[..i];
      if !(n > 0 && arr[n - 1].price == lvl.price) {
        ghost var kept := arr[..n];
        arr[n] := lvl;
        n := n + 1;
        assert arr[..n] == kept + [lvl];
      }
      i := i + 1;
    }
    r := Slice(arr, n);
  }
}

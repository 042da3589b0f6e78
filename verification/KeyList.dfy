/** A map together with a list that holds each of its keys once: the shape of every bounded store here. */
module KeyList {

  /** The list holds every key of the map once and no other. */
  ghost predicate Matches<K, V>(order: seq<K>, m: map<K, V>) {
    if order == [] then m == map[] else order[0] in m && Matches(order[1..], m - {order[0]})
  }

  /** The list with a key taken out. */
  function Unlinked<K(==)>(order: seq<K>, k: K): seq<K> {
    if order == [] then [] else (if order[0] == k then [] else [order[0]]) + Unlinked(order[1..], k)
  }

  lemma {:induction false} SameKeys<K, V>(order: seq<K>, m: map<K, V>, k: K)
    requires Matches(order, m)
    ensures k in order <==> k in m
  {
    if order != [] {
      SameKeys(order[1..], m - {order[0]}, k);
    }
  }

  lemma {:induction false} SameSize<K, V>(order: seq<K>, m: map<K, V>)
    requires Matches(order, m)
    ensures |order| == |m|
  {
    if order != [] {
      var rest := m - {order[0]};
      SameSize(order[1..], rest);
      OneLess(m, order[0]);
    }
  }

  lemma OneLess<K, V>(m: map<K, V>, k: K)
    requires k in m
    ensures |m - {k}| == |m| - 1
  {
  }

  /** No key comes twice. */
  lemma {:induction false} NoRepeats<K, V>(order: seq<K>, m: map<K, V>)
    requires Matches(order, m)
    ensures forall i, j :: 0 <= i < j < |order| ==> order[i] != order[j]
  {
    if order != [] {
      NoRepeats(order[1..], m - {order[0]});
      SameKeys(order[1..], m - {order[0]}, order[0]);
    }
  }

  lemma {:induction false} UnlinkAbsent<K>(order: seq<K>, k: K)
    requires k !in order
    ensures Unlinked(order, k) == order
  {
    if order != [] {
      UnlinkAbsent(order[1..], k);
    }
  }

  lemma {:induction false} UnlinkMatches<K, V>(order: seq<K>, m: map<K, V>, k: K)
    requires Matches(order, m)
    ensures Matches(Unlinked(order, k), m - {k})
  {
    if order != [] {
      var k0, rest := order[0], m - {order[0]};
      if k0 == k {
        SameKeys(order[1..], rest, k);
        UnlinkAbsent(order[1..], k);
        assert Unlinked(order, k) == order[1..];
      } else {
        UnlinkMatches(order[1..], rest, k);
        assert Unlinked(order, k)[1..] == Unlinked(order[1..], k);
        assert (m - {k}) - {k0} == rest - {k};
      }
    }
  }

  lemma {:induction false} AppendMatches<K, V>(order: seq<K>, m: map<K, V>, k: K, v: V)
    requires Matches(order, m) && k !in m
    ensures Matches(order + [k], m[k := v])
  {
    if order == [] {
      assert m[k := v] - {k} == map[];
      assert ([k])[1..] == [];
    } else {
      var k0 := order[0];
      AppendMatches(order[1..], m - {k0}, k, v);
      assert (order + [k])[1..] == order[1..] + [k];
      assert m[k := v] - {k0} == (m - {k0})[k := v];
    }
  }

  lemma {:induction false} UpdateMatches<K, V>(order: seq<K>, m: map<K, V>, k: K, v: V)
    requires Matches(order, m) && k in m
    ensures Matches(order, m[k := v])
  {
    var k0 := order[0];
    if k0 == k {
      assert m[k := v] - {k} == m - {k};
    } else {
      UpdateMatches(order[1..], m - {k0}, k, v);
      assert m[k := v] - {k0} == (m - {k0})[k := v];
    }
  }
}

/** A linked list whose elements are known by handles: an element is moved and removed through its handle, never by value. */
module ElementList {

  datatype Node<K> = Node(id: nat, key: K)

  /** The element behind a handle, if it is on the list. */
  function Picked<K>(l: seq<Node<K>>, id: nat): seq<Node<K>> {
    if l == [] then [] else (if l[0].id == id then [l[0]] else []) + Picked(l[1..], id)
  }

  function Removed<K>(l: seq<Node<K>>, id: nat): seq<Node<K>> {
    if l == [] then [] else (if l[0].id == id then [] else [l[0]]) + Removed(l[1..], id)
  }

  /** A handle that is not on the list moves nothing. */
  function MovedToFront<K>(l: seq<Node<K>>, id: nat): seq<Node<K>> {
    Picked(l, id) + Removed(l, id)
  }

  ghost predicate Absent<K>(l: seq<Node<K>>, id: nat) {
    l == [] || (l[0].id != id && Absent(l[1..], id))
  }

  lemma {:induction false} AbsentMeans<K>(l: seq<Node<K>>, id: nat, n: Node<K>)
    requires Absent(l, id) && n in l
    ensures n.id != id
  {
    if l[0] != n {
      AbsentMeans(l[1..], id, n);
    }
  }

  lemma {:induction false} NothingToRemove<K>(l: seq<Node<K>>, id: nat)
    requires Absent(l, id)
    ensures Removed(l, id) == l && Picked(l, id) == []
  {
    if l != [] {
      NothingToRemove(l[1..], id);
    }
  }

  lemma {:induction false} StaysAbsent<K>(l: seq<Node<K>>, id: nat, other: nat)
    requires Absent(l, other) || id == other
    ensures Absent(Removed(l, id), other)
  {
    if l != [] {
      StaysAbsent(l[1..], id, other);
      if l[0].id != id {
        assert Removed(l, id)[1..] == Removed(l[1..], id);
      } else {
        assert Removed(l, id) == Removed(l[1..], id);
      }
    }
  }
}

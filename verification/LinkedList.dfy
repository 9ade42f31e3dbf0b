/**
 The doubly linked list the cache keeps its entries on: Go's container/list, a ring of
 elements through a sentinel root. `order` is the list the links spell out.
 */
module LinkedList {

  class Element<T> {
    var next: Element<T>
    var prev: Element<T>
    var value: T

    /** A fresh element is linked to itself. */
    constructor (v: T)
      ensures next == this && prev == this && value == v
    {
      next, prev, value := this, this, v;
    }
  }

  class List<T> {
    const root: Element<T>
    var len: nat
    ghost var order: seq<Element<T>>

    ghost predicate Valid()
      reads this, root, order
    {
      && len == |order|
      && root !in order
      && (forall i, j :: 0 <= i < j < |order| ==> order[i] != order[j])
      && root.next == At(0) && root.prev == At(|order| - 1)
      && (forall i :: 0 <= i < |order| ==> Linked(i))
    }

    /** The links of the element at position i point to its neighbours. */
    ghost predicate Linked(i: nat)
      requires i < |order|
      reads this, order
    {
      order[i].next == At(i + 1) && order[i].prev == At(i - 1)
    }

    /** The element at a position, the sentinel standing at both ends. */
    ghost function At(i: int): Element<T>
      reads this
    {
      if 0 <= i < |order| then order[i] else root
    }

    constructor (blank: T)
      ensures Valid() && fresh(root) && order == []
    {
      root := new Element(blank);
      len, order := 0, [];
    }

    method Unlink(e: Element<T>, ghost i: nat)
      requires Valid() && i < |order| && order[i] == e
      modifies this`len, this`order, root`next, root`prev, order`next, order`prev
      ensures Valid() && order == old(order[..i] + order[i + 1..])
    {
      ghost var o := order;
      ghost var p, n := At(i - 1), At(i + 1);
      assert Linked(i);
      e.prev.next := e.next;
      e.next.prev := e.prev;
      len, order := len - 1, o[..i] + o[i + 1..];
      forall j | 0 <= j < |order| ensures Linked(j) {
        ghost var was := if j < i then j else j + 1;
        assert order[j] == o[was];
        assert old(Linked(was));
        assert order[j].next == if was == i - 1 then n else old(At(was + 1));
        assert order[j].prev == if was == i + 1 then p else old(At(was - 1));
        assert At(j + 1) == if was == i - 1 then n else old(At(was + 1));
        assert At(j - 1) == if was == i + 1 then p else old(At(was - 1));
      }
    }

    method LinkFront(e: Element<T>)
      requires Valid() && e !in order && e != root
      modifies this`len, this`order, root`next, root`prev, order`next, order`prev, e`next, e`prev
      ensures Valid() && order == [e] + old(order)
    {
      ghost var o := order;
      var n := root.next;
      e.prev := root;
      e.next := n;
      root.next := e;
      n.prev := e;
      len, order := len + 1, [e] + o;
      forall j | 0 <= j < |order| ensures Linked(j) {
        if j > 0 {
          assert order[j] == o[j - 1];
          assert old(Linked(j - 1));
          assert order[j].prev == if j == 1 then e else old(o[j - 1].prev);
        }
      }
    }

    method PushFront(v: T) returns (e: Element<T>)
      requires Valid()
      modifies this`len, this`order, root`next, root`prev, order`next, order`prev
      ensures Valid() && fresh(e) && e.value == v && order == [e] + old(order)
    {
      e := new Element(v);
      LinkFront(e);
    }

    method MoveToFront(e: Element<T>, ghost i: nat)
      requires Valid() && i < |order| && order[i] == e
      modifies this`len, this`order, root`next, root`prev, order`next, order`prev
      ensures Valid() && order == [e] + old(order[..i] + order[i + 1..])
    {
      if root.next == e {
        assert order == [e] + (order[..i] + order[i + 1..]);
        return;
      }
      Unlink(e, i);
      LinkFront(e);
    }

    method Back() returns (e: Element<T>)
      requires Valid() && len > 0
      ensures order != [] && e == order[|order| - 1]
    {
      e := root.prev;
    }
  }
}

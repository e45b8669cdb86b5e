/**
  The doubly linked ring behind the recency order of the L1 cache.  The ring runs through a
  root element, so `root.next` is the front of the list and `root.prev` its back.
 */
module LinkedList {

  class Element {
    const value: string
    var prev: Element?
    var next: Element?

    constructor (value: string)
      ensures this.value == value
    {
      this.value := value;
    }
  }

  /** The list without the element at a position. */
  function Removed<T>(s: seq<T>, i: nat): seq<T>
    requires i < |s|
  {
    s[..i] + s[i + 1..]
  }

  class List {
    const root: Element
    /** The elements from front to back. */
    ghost var elements: seq<Element>

    ghost function RingAt(i: int): Element
      reads this
    {
      if 1 <= i <= |elements| then elements[i - 1] else root
    }

    /** The ring is linked both ways between two neighbouring positions. */
    ghost predicate LinkedAt(i: int)
      reads this, root, elements
    {
      RingAt(i).next == RingAt(i + 1) && RingAt(i + 1).prev == RingAt(i)
    }

    ghost predicate Valid()
      reads this, root, elements
    {
      && root !in elements
      && (forall i, j :: 0 <= i < j < |elements| ==> elements[i] != elements[j])
      && (forall i :: 0 <= i <= |elements| ==> LinkedAt(i))
    }

    constructor ()
      ensures Valid() && elements == [] && fresh(root)
    {
      var r := new Element("");
      root := r;
      elements := [];
      new;
      r.next, r.prev := r, r;
    }

    method Back() returns (e: Element?)
      requires Valid()
      ensures e == if elements == [] then null else elements[|elements| - 1]
    {
      assert LinkedAt(0) && LinkedAt(|elements|);
      e := if root.next == root then null else root.prev;
    }

    method PushFront(value: string) returns (e: Element)
      requires Valid()
      modifies this, root, elements
      ensures Valid() && fresh(e) && e.value == value
      ensures elements == [e] + old(elements)
    {
      e := new Element(value);
      InsertAfterRoot(e);
    }

    method InsertAfterRoot(e: Element)
      requires Valid() && e != root && e !in elements
      modifies this, root, elements, e
      ensures Valid() && elements == [e] + old(elements)
    {
      assert LinkedAt(0);
      var front := root.next;
      e.prev, e.next := root, front;
      root.next := e;
      front.prev := e;
      elements := [e] + elements;
      forall i | 2 <= i <= |elements|
        ensures LinkedAt(i)
      {
        assert old(LinkedAt(i - 1));
        assert RingAt(i) == old(RingAt(i - 1)) && RingAt(i + 1) == old(RingAt(i));
      }
      assert LinkedAt(0) && LinkedAt(1);
    }

    /** The position of an element exists only in the proof. */
    method Remove(e: Element, ghost i: nat)
      requires Valid() && i < |elements| && elements[i] == e
      modifies this, root, elements
      ensures Valid() && elements == Removed(old(elements), i)
    {
      assert LinkedAt(i) && LinkedAt(i + 1);
      var before, after := e.prev, e.next;
      assert before == RingAt(i) && after == RingAt(i + 2);
      before.next := after;
      after.prev := before;
      elements := Removed(elements, i);
      forall k | 0 <= k <= |elements|
        ensures LinkedAt(k)
      {
        if k < i {
          assert old(LinkedAt(k));
          assert RingAt(k) == old(RingAt(k)) && RingAt(k + 1) == old(RingAt(k + 1));
        } else {
          assert old(LinkedAt(k + 1));
          assert RingAt(k + 1) == old(RingAt(k + 2));
          assert RingAt(k) == if k == i then before else old(RingAt(k + 1));
        }
      }
    }

    method MoveToFront(e: Element, ghost i: nat)
      requires Valid() && i < |elements| && elements[i] == e
      modifies this, root, elements
      ensures Valid() && elements == [e] + Removed(old(elements), i)
    {
      assert LinkedAt(0);
      if root.next == e {
        assert i == 0 && elements == [e] + Removed(elements, 0);
        return;
      }
      Remove(e, i);
      InsertAfterRoot(e);
    }
  }
}

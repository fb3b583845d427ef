/**
 * The generic LIFO stack of lodoovka_vm/stack.swift. The Swift `struct`
 * with `mutating` methods is an object here whose one field, `elements` (Swift's `array`),
 * the methods update in place.
 */
module Stacks {
  import opened Options

  /** The last element of a sequence, as Swift's `array.last`. */
  function Last<T>(a: seq<T>): (r: Option<T>)
    ensures r.None? <==> a == []
    ensures r.Some? ==> a == a[..|a| - 1] + [r.value]
  {
    if |a| > 0 then Some(a[|a| - 1]) else None
  }

  class Stack<T> {
    var elements: seq<T>

    constructor ()
      ensures elements == []
    {
      elements := [];
    }

    /** The top of the stack: absent exactly when the stack is empty. */
    function Tip(): (r: Option<T>)
      reads this
      ensures r.None? <==> elements == []
      ensures r.Some? ==> elements == elements[..|elements| - 1] + [r.value]
    {
      Last(elements)
    }

    method Push(x: T)
      modifies this
      ensures elements == old(elements) + [x]
      ensures Tip() == Some(x)
    {
      elements := elements + [x];
    }

    /** Removes and returns the top element; on an empty stack returns nothing and changes nothing. */
    method Pop() returns (r: Option<T>)
      modifies this
      ensures r == old(Last(elements))
      ensures old(elements) == [] ==> elements == []
      ensures old(elements) != [] ==> elements == old(elements)[..|old(elements)| - 1]
      ensures old(elements) == elements + (if r.Some? then [r.value] else [])
    {
      if |elements| > 0 {
        r := Some(elements[|elements| - 1]);
        elements := elements[..|elements| - 1];
      } else {
        r := None;
      }
    }
  }

  /** A push followed by a pop hands back the pushed value and restores the stack. */
  method PushPopRoundTrip<T>(s: Stack<T>, x: T) returns (r: Option<T>)
    modifies s
    ensures r == Some(x)
    ensures s.elements == old(s.elements)
  {
    s.Push(x);
    r := s.Pop();
  }
}

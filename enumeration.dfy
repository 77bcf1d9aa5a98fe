/** Enumerations of a set: how the model walks a Go map, whose order is unspecified. */
module Enumeration {

  /** `order` lists each element of `s` exactly once. */
  ghost predicate Enumerates<T(!new)>(order: seq<T>, s: set<T>)
  {
    && (forall i, j :: 0 <= i < j < |order| ==> order[i] != order[j])
    && (forall x :: x in order <==> x in s)
  }

  /** Visiting one more, new element extends the enumeration. */
  lemma EnumeratesAppend<T(!new)>(order: seq<T>, s: set<T>, x: T)
    requires Enumerates(order, s) && x !in s
    ensures Enumerates(order + [x], s + {x})
  {
  }
}

/** Sorting the elements of a set by a total order, as a function of the set. */
module Orders {

  type Order<!T> = set<T> -> seq<T>

  /** The elements of the set, each once. */
  ghost predicate Lists<T(!new)>(elements: seq<T>, s: set<T>) {
    && (forall x :: x in elements <==> x in s)
    && (forall i, j | 0 <= i < j < |elements| :: elements[i] != elements[j])
  }

  ghost predicate Sorts<T(!new)>(order: Order<T>) {
    forall s: set<T> :: Lists(order(s), s)
  }
}

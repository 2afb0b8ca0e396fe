/** Shared result types. */
module Basics {

  datatype Option<+T> = None | Some(value: T)

  /** A service either returns a value or raises, in which case its transaction is rolled back. */
  datatype Result<+T, +E> = Ok(value: T) | Err(error: E)

  /** `order` lists each element of `ids` exactly once: the rows one SQL statement returns, in
      whatever order the database produced them. */
  ghost predicate Enumerates<T(!new)>(order: seq<T>, ids: set<T>) {
    && (forall x :: x in order <==> x in ids)
    && (forall i, j :: 0 <= i < j < |order| ==> order[i] != order[j])
  }

  lemma NothingListed<T(!new)>(order: seq<T>)
    requires Enumerates(order, {})
    ensures order == []
  {
    FirstIsMember(order);
  }

  lemma FirstIsMember<T>(s: seq<T>)
    ensures s == [] || s[0] in s
  {
  }

  /** Some listing of a finite set. */
  ghost function Listing<T(!new)>(ids: set<T>): (order: seq<T>)
    ensures Enumerates(order, ids)
  {
    if ids == {} then []
    else
      var x :| x in ids;
      [x] + Listing(ids - {x})
  }
}

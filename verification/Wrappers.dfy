/** Shared by the models: a value that may be missing (null, undefined, an absent Redis key), a look-up by key, and lists
    without repetition. */
module Wrappers {
  datatype Option<+T> = None | Some(value: T)

  /** The last row with this key. */
  function Find<T, K(==)>(rows: seq<T>, key: T -> K, k: K): (r: Option<nat>)
    ensures r.Some? ==> r.value < |rows| && key(rows[r.value]) == k
    ensures r.Some? ==> forall i :: r.value < i < |rows| ==> key(rows[i]) != k
    ensures r.None? ==> forall i :: 0 <= i < |rows| ==> key(rows[i]) != k
  {
    if rows == [] then None
    else if key(rows[|rows| - 1]) == k then Some(|rows| - 1)
    else Find(rows[..|rows| - 1], key, k)
  }

  predicate Distinct<T(==)>(xs: seq<T>) { forall i, j :: 0 <= i < j < |xs| ==> xs[i] != xs[j] }
}

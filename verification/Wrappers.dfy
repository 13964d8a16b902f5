/** The two result shapes and the one list operation the other modules share. */
module Wrappers {
  datatype Option<+T> = None | Some(value: T)

  datatype Result<+T, +E> = Ok(value: T) | Err(error: E)

  /** Each element once, where it first stands. */
  function Unique<T(==,!new)>(xs: seq<T>): (unique: seq<T>)
    ensures forall x :: x in unique <==> x in xs
    ensures forall i, j :: 0 <= i < j < |unique| ==> unique[i] != unique[j]
  {
    if xs == [] then []
    else
      var before, last := Unique(xs[..|xs| - 1]), xs[|xs| - 1];
      assert xs == xs[..|xs| - 1] + [last];
      if last in before then before else before + [last]
  }
}

/** Optional values and outcomes, for Go's `ok` flags and error returns. */
module Wrappers {
  datatype Option<+T> = None | Some(value: T)
  datatype Result<+T, +E> = Ok(value: T) | Err(error: E)

  /** The present values of a list, in order. */
  function Somes<T>(xs: seq<Option<T>>): seq<T> {
    if xs == [] then []
    else
      var n := |xs| - 1;
      Somes(xs[..n]) + if xs[n].Some? then [xs[n].value] else []
  }

  lemma SomesLast<T>(xs: seq<Option<T>>)
    requires xs != []
    ensures var n := |xs| - 1;
            Somes(xs) == if xs[n].Some? then Somes(xs[..n]) + [xs[n].value] else Somes(xs[..n])
  {}

  lemma SomesStep<T>(xs: seq<Option<T>>, i: nat)
    requires i < |xs|
    ensures Somes(xs[..i + 1]) == if xs[i].Some? then Somes(xs[..i]) + [xs[i].value] else Somes(xs[..i])
  {
    assert xs[..i + 1][..i] == xs[..i];
  }
}

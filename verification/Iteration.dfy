/** Go's iteration over a map: every key once, in an order nobody chooses. */
module Iteration {

  ghost predicate Enumerates<K>(order: seq<K>, keys: set<K>) {
    && (forall i | 0 <= i < |order| :: order[i] in keys)
    && (forall k <- keys :: k in order)
    && (forall i, j | 0 <= i < j < |order| :: order[i] != order[j])
  }

  method IterationOrder<K(==)>(keys: set<K>) returns (order: seq<K>)
    ensures Enumerates(order, keys) && |order| == |keys|
  {
    order := [];
    var todo := keys;
    while todo != {}
      invariant forall k <- keys :: (k in todo) != (k in order)
      invariant todo <= keys && forall k <- order :: k in keys
      invariant forall i, j | 0 <= i < j < |order| :: order[i] != order[j]
      invariant |order| + |todo| == |keys|
      decreases todo
    {
      var k :| k in todo;
      order := order + [k];
      todo := todo - {k};
    }
  }
}

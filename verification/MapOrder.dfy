/** Go ranges over a map in an unspecified order: any enumeration of its keys. */
module MapOrder {

  ghost predicate Distinct<T>(order: seq<T>) {
    forall i, j :: 0 <= i < j < |order| ==> order[i] != order[j]
  }

  ghost predicate Enumerates<T>(order: seq<T>, keys: set<T>) {
    && Distinct(order)
    && (forall k :: k in keys ==> k in order)
    && (forall i :: 0 <= i < |order| ==> order[i] in keys)
  }

  lemma EnumeratesConcat<T>(o1: seq<T>, k1: set<T>, o2: seq<T>, k2: set<T>)
    requires Enumerates(o1, k1) && Enumerates(o2, k2) && k1 !! k2
    ensures Enumerates(o1 + o2, k1 + k2)
  {
    var o := o1 + o2;
    forall i, j | 0 <= i < j < |o| ensures o[i] != o[j] {
      if i < |o1| <= j {
        assert o[i] in k1 && o[j] in k2;
      }
    }
    forall k | k in k1 + k2 ensures k in o {
      if k in k1 {
        assert k in o1;
      } else {
        assert k in o2;
      }
    }
  }

  lemma EnumeratesCons<T>(k: T, rest: seq<T>, keys: set<T>)
    requires k in keys && Enumerates(rest, keys - {k})
    ensures Enumerates([k] + rest, keys)
  {
    EnumeratesConcat([k], {k}, rest, keys - {k});
    assert {k} + (keys - {k}) == keys;
  }

  lemma {:induction false} SomeOrder<T>(keys: set<T>) returns (order: seq<T>)
    ensures Enumerates(order, keys)
    decreases |keys|
  {
    if k :| k in keys {
      var rest := SomeOrder(keys - {k});
      EnumeratesCons(k, rest, keys);
      order := [k] + rest;
    } else {
      order := [];
    }
  }

  /** Some enumeration of the keys; which one is left open. */
  method AnyOrder<T(==)>(keys: set<T>) returns (order: seq<T>)
    ensures Enumerates(order, keys)
    decreases |keys|
  {
    if k :| k in keys {
      var rest := AnyOrder(keys - {k});
      EnumeratesCons(k, rest, keys);
      order := [k] + rest;
    } else {
      order := [];
    }
  }
}

/** Loops over Go maps: `range` visits every key once, in an order of its own each time. */
module GoMaps {

  /** `order` lists `keys`, each once, in any order. */
  ghost predicate Enumerates<T(!new)>(order: seq<T>, keys: set<T>) {
    && (forall i, j :: 0 <= i < j < |order| ==> order[i] != order[j])
    && (forall k :: k in order <==> k in keys)
  }

  lemma EnumeratesMore<T(!new)>(order: seq<T>, keys: set<T>, key: T)
    requires Enumerates(order, keys) && key !in keys
    ensures Enumerates(order + [key], keys + {key})
    ensures Enumerates([key] + order, keys + {key})
  {
  }

  /** The keys in the order of one `range` loop. */
  method Range<T(==,!new)>(keys: set<T>) returns (order: seq<T>)
    ensures Enumerates(order, keys)
  {
    var rest := keys;
    order := [];
    while rest != {}
      invariant rest <= keys
      invariant Enumerates(order, keys - rest)
      decreases |rest|
    {
      var key :| key in rest;
      EnumeratesMore(order, keys - rest, key);
      rest := rest - {key};
      order := order + [key];
      assert keys - rest == keys - (rest + {key}) + {key};
    }
    assert keys - rest == keys;
  }

  lemma {:induction false} SomeOrder<T(!new)>(keys: set<T>) returns (order: seq<T>)
    ensures Enumerates(order, keys)
  {
    if keys == {} {
      order := [];
    } else {
      var key :| key in keys;
      order := SomeOrder(keys - {key});
      EnumeratesMore(order, keys - {key}, key);
      assert keys == (keys - {key}) + {key};
      order := order + [key];
    }
  }
}

/** Iterating over a map, in whatever order. */
module Maps {
  /** The keys are all those of the map, each once. */
  ghost predicate Enumerates<K, V>(entries: map<K, V>, keys: seq<K>, values: seq<V>) {
    && |keys| == |values| == |entries|
    && (forall i, j :: 0 <= i < j < |keys| ==> keys[i] != keys[j])
    && (forall i :: 0 <= i < |keys| ==> keys[i] in entries && values[i] == entries[keys[i]])
    && (forall k :: k in entries ==> k in keys)
  }

  /** Collects the values of a map in a loop; `keys` records the order taken. */
  method Collect<K(==), V>(entries: map<K, V>) returns (values: seq<V>, ghost keys: seq<K>)
    ensures Enumerates(entries, keys, values)
  {
    values, keys := [], [];
    var rest := entries.Keys;
    while rest != {}
      invariant rest <= entries.Keys && |values| + |rest| == |entries.Keys|
      invariant |keys| == |values|
      invariant forall i, j :: 0 <= i < j < |keys| ==> keys[i] != keys[j]
      invariant forall i :: 0 <= i < |keys| ==> keys[i] in entries && keys[i] !in rest && values[i] == entries[keys[i]]
      invariant forall k :: k in entries ==> k in rest || k in keys
      decreases |rest|
    {
      var k :| k in rest;
      values, keys := values + [entries[k]], keys + [k];
      rest := rest - {k};
    }
  }
}

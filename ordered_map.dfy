/** A string-keyed dictionary that remembers insertion order, as Python's
    dict does: iteration follows `keys`, and assigning to a key that is
    already present keeps its position. */
module OrderedMaps {

  predicate Distinct(keys: seq<string>) {
    forall i, j :: 0 <= i < j < |keys| ==> keys[i] != keys[j]
  }

  datatype OrderedMap<V> = OrderedMap(keys: seq<string>, entries: map<string, V>) {

    /** Every key is listed exactly once, and only keys of the map are listed. */
    ghost predicate Valid() {
      && Distinct(keys)
      && (forall k :: k in keys ==> k in entries)
      && (forall k :: k in entries ==> k in keys)
    }

    /** `d[key] = value` */
    function Put(key: string, value: V): (r: OrderedMap<V>)
      requires Valid()
      ensures r.Valid()
      ensures r.entries == entries[key := value]
      ensures key in entries ==> r.keys == keys
      ensures key !in entries ==> r.keys == keys + [key]
    {
      if key in entries then OrderedMap(keys, entries[key := value])
      else OrderedMap(keys + [key], entries[key := value])
    }
  }

  function Empty<V>(): (r: OrderedMap<V>)
    ensures r.Valid() && r.keys == [] && r.entries == map[]
  {
    OrderedMap([], map[])
  }

  /** `len(d)`: the number of entries equals the number of listed keys. */
  lemma {:induction false} SizeIsKeyCount<V>(m: OrderedMap<V>)
    requires m.Valid()
    ensures |m.entries| == |m.keys|
    decreases |m.keys|
  {
    if m.keys != [] {
      var last := m.keys[|m.keys| - 1];
      var rest := OrderedMap(m.keys[..|m.keys| - 1], m.entries - {last});
      assert rest.Valid() by {
        forall k | k in rest.entries ensures k in rest.keys {
          var i :| 0 <= i < |m.keys| && m.keys[i] == k;
          assert i != |m.keys| - 1;
        }
      }
      SizeIsKeyCount(rest);
    }
  }

  /** Storing under a new key adds one entry; under a present key the size stays. */
  lemma PutSize<V>(m: OrderedMap<V>, key: string, value: V)
    requires m.Valid()
    ensures |m.Put(key, value).entries| == |m.entries| + (if key in m.entries then 0 else 1)
    ensures |m.Put(key, value).keys| == |m.keys| + (if key in m.entries then 0 else 1)
  {
    SizeIsKeyCount(m);
    SizeIsKeyCount(m.Put(key, value));
  }
}

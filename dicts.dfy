/** A Python `dict` as a value: the keys in insertion order and the mapping.
    Assigning to an existing key keeps its position; a new key goes last. */
module Dicts {
  import opened Common

  datatype Dict<K(==,!new), V> = Dict(keys: seq<K>, entries: map<K, V>)
  {
    /** The key order lists each key of the mapping exactly once. */
    ghost predicate Valid()
    {
      Distinct(keys) && (forall k :: k in keys <==> k in entries)
    }

    /** `d[k] = v`. */
    function Put(k: K, v: V): (d: Dict<K, V>)
      requires Valid()
      ensures d.Valid()
      ensures d.entries == entries[k := v]
      ensures k in entries ==> d.keys == keys
      ensures k !in entries ==> d.keys == keys + [k]
    {
      if k in entries then Dict(keys, entries[k := v]) else Dict(keys + [k], entries[k := v])
    }
  }

  /** `{}`. */
  function Empty<K(==,!new), V>(): (d: Dict<K, V>)
    ensures d.Valid() && d.keys == [] && d.entries == map[]
  {
    Dict([], map[])
  }

  /** `dict.fromkeys(ks)`: every key of `ks`, in order, mapped to `v`. */
  function FromKeys<K(==,!new), V>(ks: seq<K>, v: V): (d: Dict<K, V>)
    requires Distinct(ks)
    ensures d.Valid() && d.keys == ks
    ensures forall k :: k in d.entries ==> d.entries[k] == v
  {
    Dict(ks, map k | k in ks :: v)
  }
}

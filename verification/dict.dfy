/**
 A Python `dict`: a finite map that also remembers the order in which its keys were
 first inserted. Iterating `.keys()`, `.values()` or `.items()` follows that order,
 and overwriting an existing key keeps the key where it was.
 */
module Dict {

  datatype Dict<K, V> = Dict(keys: seq<K>, values: map<K, V>) {

    /** The order lists every key of the map exactly once. */
    predicate Valid() {
      && (forall i, j :: 0 <= i < j < |keys| ==> keys[i] != keys[j])
      && values.Keys == set k | k in keys
    }
  }

  /** `d[k] = v`: the value is replaced in place, a new key goes last. */
  function Put<K, V>(d: Dict<K, V>, k: K, v: V): (r: Dict<K, V>)
    requires d.Valid()
    ensures r.Valid()
    ensures r.values == d.values[k := v]
    ensures k in d.values ==> r.keys == d.keys
    ensures k !in d.values ==> r.keys == d.keys + [k]
  {
    if k in d.values then Dict(d.keys, d.values[k := v]) else Dict(d.keys + [k], d.values[k := v])
  }

  /** `{}`. */
  function Empty<K, V>(): (r: Dict<K, V>)
    ensures r.Valid() && r.keys == [] && r.values == map[]
  {
    Dict([], map[])
  }
}

/** A Python `dict` as the import command uses it: key assignment and
    iteration over `items()`. Iteration follows first-insertion order, and
    assigning to a key that is already present replaces its value but keeps
    its position. */
module PyDict {

  /** `keys` is the iteration order, `values` the key/value association. */
  datatype Dict<K(==,!new), V> = Dict(keys: seq<K>, values: map<K, V>)

  /** Every key appears once in the order, and exactly the stored keys do. */
  ghost predicate Valid<K(!new), V>(d: Dict<K, V>)
  {
    && (forall i, j :: 0 <= i < j < |d.keys| ==> d.keys[i] != d.keys[j])
    && (forall k :: k in d.values <==> k in d.keys)
  }

  /** `{}` */
  function Empty<K(==,!new), V>(): (d: Dict<K, V>)
    ensures Valid(d) && d.keys == [] && d.values == map[]
  {
    Dict([], map[])
  }

  /** `d[k] = v` */
  function Put<K(==,!new), V>(d: Dict<K, V>, k: K, v: V): (e: Dict<K, V>)
    requires Valid(d)
    ensures Valid(e)
    ensures e.values == d.values[k := v]
    ensures |e.keys| == |d.keys| + (if k in d.values then 0 else 1)
    ensures e.keys[..|d.keys|] == d.keys && k in e.keys
  {
    if k in d.values then Dict(d.keys, d.values[k := v])
    else Dict(d.keys + [k], d.values[k := v])
  }
}

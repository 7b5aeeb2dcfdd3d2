/** Python's `dict`: a finite map that remembers the order in which its keys
    were first inserted. Assigning to a key already present replaces its value
    and keeps its place; a new key goes to the end. */
module Dicts {

  datatype Dict<K(==), V> = Dict(keys: seq<K>, items: map<K, V>) {

    /** Every key is listed once, in insertion order, and the listed keys are
        exactly the keys that have a value. */
    ghost predicate Valid() {
      && (forall i, j :: 0 <= i < j < |keys| ==> keys[i] != keys[j])
      && (forall i :: 0 <= i < |keys| ==> keys[i] in items)
      && (forall k :: k in items ==> k in keys)
    }

    /** `d[k] = v` */
    function Set(k: K, v: V): (d: Dict<K, V>)
      ensures Valid() ==> d.Valid()
      ensures d.items == items[k := v]
      ensures k in items ==> d.keys == keys
      ensures k !in items ==> d.keys == keys + [k]
    {
      if k in items then Dict(keys, items[k := v]) else Dict(keys + [k], items[k := v])
    }
  }

  /** `{}` */
  function Empty<K(==), V>(): (d: Dict<K, V>)
    ensures d.Valid() && d.keys == [] && d.items == map[]
  {
    Dict([], map[])
  }
}

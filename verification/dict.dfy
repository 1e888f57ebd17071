/** Insertion-ordered dictionaries with string keys. This is how the program's
    JavaScript objects used as dictionaries (`for..in` over non-numeric keys),
    `d3.map` and `FMap` enumerate their entries: setting an existing key keeps
    its place, a new key goes last. */
module Dict {
  import opened Wrappers

  datatype Dict<V> = Dict(keys: seq<string>, entries: map<string, V>) {

    ghost predicate Valid() {
      && (forall i, j :: 0 <= i < j < |keys| ==> keys[i] != keys[j])
      && (forall k :: k in entries <==> k in keys)
    }

    predicate Has(k: string) {
      k in entries
    }

    function Get(k: string): (r: Option<V>)
      ensures r.Some? <==> k in entries
      ensures r.Some? ==> r.value == entries[k]
    {
      if k in entries then Some(entries[k]) else None
    }

    function Set(k: string, v: V): (d: Dict<V>)

      ensures d.entries == entries[k := v]
      ensures k in entries ==> d.keys == keys
      ensures k !in entries ==> d.keys == keys + [k]
    {
      if k in entries then Dict(keys, entries[k := v]) else Dict(keys + [k], entries[k := v])
    }

    /** Setting a key keeps the keys distinct and in step with the entries. */
    lemma SetKeepsValid(k: string, v: V)
      requires Valid()
      ensures Set(k, v).Valid()
    {
    }

    /** The values in key order, as `d3.map().values()` and `Object.keys(o).map(k => o[k])`. */
    function Values(): (vs: seq<V>)
      requires Valid()
      ensures |vs| == |keys|
      ensures forall i :: 0 <= i < |keys| ==> vs[i] == entries[keys[i]]
    {
      seq(|keys|, i requires 0 <= i < |keys| => entries[keys[i]])
    }
  }

  function Empty<V>(): (d: Dict<V>)
    ensures d.Valid() && d.keys == [] && d.entries == map[]
  {
    Dict([], map[])
  }
}

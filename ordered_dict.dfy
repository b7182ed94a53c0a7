/** A JavaScript plain object used as a dictionary. Its string keys keep the
    order in which they were first assigned, which is the order
    `Object.keys` reports; assigning an existing key changes its value and
    leaves its place. (Keys that look like array indices are ordered
    differently by JavaScript; the plugin's keys all begin with "/" and never
    do.) */
module OrderedDict {
  import opened Strings

  datatype Dict<V> = Dict(order: seq<string>, entries: map<string, V>) {

    /** Every key is listed once, and the list holds exactly the keys. */
    ghost predicate Valid() {
      Distinct(order) && forall k :: k in order <==> k in entries
    }

    /** `o[k] = v`. */
    function Put(k: string, v: V): (r: Dict<V>)
      requires Valid()
      ensures r.Valid()
      ensures r.entries == entries[k := v]
      ensures order <= r.order
    {
      if k in entries then Dict(order, entries[k := v]) else Dict(order + [k], entries[k := v])
    }
  }

  function Empty<V>(): (r: Dict<V>)
    ensures r.Valid() && r.entries == map[]
  {
    Dict([], map[])
  }

  /** Assigning the same key twice leaves the object as one assignment of the
      second value would. */
  lemma PutPut<V>(d: Dict<V>, k: string, v1: V, v2: V)
    requires d.Valid()
    ensures d.Put(k, v1).Put(k, v2) == d.Put(k, v2)
  {
    assert d.entries[k := v1][k := v2] == d.entries[k := v2];
  }

  /** `Object.keys(o).sort().reduce((a, c) => ((a[c] = o[c]), a), {})`: a
      fresh object with the same keys and values, whose keys were assigned in
      ascending order. */
  function Rebuild<V>(d: Dict<V>): (r: Dict<V>)
    requires d.Valid()
    ensures r.Valid()
    ensures r.entries == d.entries
    ensures StrictlyAscending(r.order)
  {
    SortAscending(d.order);
    var sorted := Sort(d.order);
    AscendingIsDistinct(sorted);
    assert forall k :: k in sorted <==> k in multiset(d.order);
    Dict(sorted, d.entries)
  }
}

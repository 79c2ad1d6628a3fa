/**
 * lib/utils/weak-map.js: `getInternal()` returns a function `internal(object)` that
 * looks `object` up in a private WeakMap and, on a miss, stores and returns a new
 * empty record. Only the map semantics are modelled; collection of unreachable keys
 * is not.
 */
module WeakMap {

  /** A record `{}` of private properties. */
  class Record<V> {
    var props: map<string, V>

    constructor ()
      ensures props == map[]
    {
      props := map[];
    }
  }

  /** The state behind one `internal` function: its own WeakMap. */
  class Internal<V> {
    var table: map<object, Record<V>>

    /** `getInternal()`: every call creates a fresh, empty table. */
    constructor ()
      ensures table == map[]
    {
      table := map[];
    }

    /**
     * `internal(object)`: the first call for `o` creates and stores a fresh empty
     * record; later calls return that identical record. Other keys, their records
     * and every other table stay as they were.
     */
    method Get(o: object) returns (r: Record<V>)
      modifies this
      ensures o in old(table) ==> r == old(table)[o] && table == old(table)
      ensures o !in old(table) ==> fresh(r) && r.props == map[] && table == old(table)[o := r]
    {
      if o !in table {
        var record := new Record<V>();
        table := table[o := record];
      }
      r := table[o];
    }
  }

  /** Two lookups of the same object return the same record without touching it. */
  method RepeatedLookupsAgree<V>(t: Internal<V>, o: object) returns (first: Record<V>, second: Record<V>)
    modifies t
    ensures first == second && o in t.table && t.table[o] == first
    ensures o in old(t.table) ==> t.table == old(t.table)
  {
    first := t.Get(o);
    second := t.Get(o);
  }
}

/** A Go map from strings, as a heap object: whoever holds a reference sees every write. */
module Tables {

  class Table<V> {
    var entries: map<string, V>

    constructor ()
      ensures entries == map[]
    {
      entries := map[];
    }

    method Put(key: string, value: V)
      modifies this
      ensures entries == old(entries)[key := value]
    {
      entries := entries[key := value];
    }

    method Delete(key: string)
      modifies this
      ensures entries == old(entries) - {key}
    {
      entries := entries - {key};
    }

    /** A copying loop of `cloneRepositoryState`: the entries, in map order, go into a map of the
        clone's own. */
    method Clone() returns (copy: Table<V>)
      ensures fresh(copy) && copy.entries == entries
    {
      copy := new Table();
      var rest := entries.Keys;
      while rest != {}
        invariant rest <= entries.Keys && fresh(copy)
        invariant copy.entries == map k | k in entries && k !in rest :: entries[k]
        decreases rest
      {
        var k :| k in rest;
        copy.Put(k, entries[k]);
        rest := rest - {k};
      }
    }
  }
}

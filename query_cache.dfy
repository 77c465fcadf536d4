/** The client query cache the pages share: cached data per query key. Writing `undefined`
    (no data) makes a key read as absent. Invalidation only records the key as stale; the
    refetch it triggers is not part of this model. */
module QueryCache {
  import opened Wrappers

  /** getQueryData on a plain map: the cached list, if any. */
  function Lookup<K(!new), V>(entries: map<K, seq<V>>, key: K): (r: Option<seq<V>>)
    ensures r.Some? <==> key in entries
    ensures r.Some? ==> r.value == entries[key]
  {
    if key in entries then Some(entries[key]) else None
  }

  /** setQueryData on a plain map: `key` now reads `data`, whatever it held before, and every
      other key reads as before. */
  function Write<K(!new), V>(entries: map<K, seq<V>>, key: K, data: Option<seq<V>>): (r: map<K, seq<V>>)
    ensures Lookup(r, key) == data
    ensures forall k :: k != key ==> Lookup(r, k) == Lookup(entries, k)
  {
    match data
    case None => entries - {key}
    case Some(v) => entries[key := v]
  }

  /** Writing back what a key held before, after any single write to it, restores the whole
      cache exactly: this is the snapshot-and-restore rollback. */
  lemma WriteBackRestores<K(!new), V>(entries: map<K, seq<V>>, key: K, data: Option<seq<V>>)
    ensures Write(Write(entries, key, data), key, Lookup(entries, key)) == entries
  {
    var r := Write(Write(entries, key, data), key, Lookup(entries, key));
    assert forall k :: k in r <==> Lookup(r, k).Some?;
    assert forall k :: k in entries <==> Lookup(entries, k).Some?;
    assert r.Keys == entries.Keys;
  }

  class Cache<K(==,!new), V> {
    var entries: map<K, seq<V>>
    var stale: set<K>

    constructor ()
      ensures entries == map[] && stale == {}
    {
      entries, stale := map[], {};
    }

    function GetQueryData(key: K): (r: Option<seq<V>>)
      reads this
      ensures r.Some? <==> key in entries
      ensures r.Some? ==> r.value == entries[key]
    {
      Lookup(entries, key)
    }

    method SetQueryData(key: K, data: Option<seq<V>>)
      modifies this
      ensures entries == Write(old(entries), key, data) && stale == old(stale)
    {
      entries := Write(entries, key, data);
    }

    /** invalidateQueries: marks `key` stale; the data stays until a refetch replaces it. */
    method InvalidateQueries(key: K)
      modifies this
      ensures entries == old(entries) && stale == old(stale) + {key}
    {
      stale := stale + {key};
    }
  }
}

// `getOrSetComputed(map, key, callback)` on a JavaScript Map.
module MapUtil {
  import opened Common

  /**
   * A JavaScript Map. A key can be present with the value `undefined`,
   * written `None` here; `get` answers `undefined` for it as for a missing key.
   */
  class JsMap<K(==), V> {
    var entries: map<K, Option<V>>

    constructor ()
      ensures entries == map[]
    {
      entries := map[];
    }

    /** `map.get(key)`. */
    function Get(key: K): (r: Option<V>)
      reads this
      ensures r.Some? <==> key in entries && entries[key].Some?
      ensures r.Some? ==> entries[key] == r
    {
      if key in entries then entries[key] else None
    }

    /** `map.set(key, value)`. */
    method Set(key: K, value: Option<V>)
      modifies this
      ensures entries == old(entries)[key := value]
    {
      entries := entries[key := value];
    }
  }

  /**
   * A stored defined value is returned without calling `callback`; otherwise
   * (absent or `undefined`) `callback(key)` is called once, stored under
   * `key` and returned. `called` records whether the callback ran.
   */
  method GetOrSetComputed<K, V>(m: JsMap<K, V>, key: K, callback: K -> Option<V>)
    returns (r: Option<V>, called: bool)
    modifies m
    ensures called <==> old(m.Get(key)).None?
    ensures !called ==> r == old(m.Get(key)) && m.entries == old(m.entries)
    ensures called ==> r == callback(key) && m.entries == old(m.entries)[key := callback(key)]
    ensures m.entries - {key} == old(m.entries) - {key}
  {
    var existing := m.Get(key);
    if existing.Some? {
      return existing, false;
    }
    var value := callback(key);
    m.Set(key, value);
    return value, true;
  }
}

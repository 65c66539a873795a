/**
  The three operations the service performs on the metadata dictionary:
  `get` with a default, `setdefault` and `pop` with a default.
 */
module Dicts {

  /** `m.get(key, default)` */
  function Get<K, V>(m: map<K, V>, key: K, default: V): V {
    if key in m then m[key] else default
  }

  /**
    `m.setdefault(key, default)` as a state change: afterwards the key is
    present, an existing value is kept and every other key is untouched.
   */
  function SetDefault<K, V>(m: map<K, V>, key: K, default: V): (r: map<K, V>)
    ensures r.Keys == m.Keys + {key}
    ensures key in m ==> r == m
    ensures key !in m ==> r[key] == default
    ensures forall k :: k in m ==> r[k] == m[k]
  {
    if key in m then m else m[key := default]
  }

  /**
    `m.pop(key, None)` as a state change: the key is gone, every other
    entry is kept, and an absent key changes nothing.
   */
  function Pop<K, V>(m: map<K, V>, key: K): (r: map<K, V>)
    ensures r.Keys == m.Keys - {key}
    ensures forall k :: k in r ==> r[k] == m[k]
    ensures key !in m ==> r == m
  {
    m - {key}
  }
}

/** The usual optional value, and lookup of a key that may be missing. */
module Wrappers {
  datatype Option<+T> = None | Some(value: T)

  /** Python's `d.get(key)`. */
  function Get<K, V>(m: map<K, V>, key: K): Option<V> {
    if key in m then Some(m[key]) else None
  }

  /** Python's `d.pop(key, None)`, as the map it leaves. */
  function Pop<K(!new), V>(m: map<K, V>, key: K): (rest: map<K, V>)
    ensures forall k :: Get(rest, k) == if k == key then None else Get(m, k)
  {
    m - {key}
  }

  /** The map with `key` set to what `v` holds, or without it when `v` holds nothing. */
  function Put<K(!new), V>(m: map<K, V>, key: K, v: Option<V>): (r: map<K, V>)
    ensures forall k :: Get(r, k) == if k == key then v else Get(m, k)
  {
    match v
    case Some(value) => m[key := value]
    case None => Pop(m, key)
  }
}

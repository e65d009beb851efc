/** Optional values and map lookup with a default of "absent". */
module Wrappers {

  datatype Option<+T> = None | Some(value: T)

  /** Python's `dict.get(k)`: the value under `k`, or None when the key is missing. */
  function Get<K, V>(m: map<K, V>, k: K): (r: Option<V>)
    ensures r.Some? <==> k in m
    ensures r.Some? ==> m[k] == r.value
  {
    if k in m then Some(m[k]) else None
  }
}

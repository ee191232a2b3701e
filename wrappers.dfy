/** The optional value used for SQL NULL, for lookups that may find nothing and for absent credentials. */
module Wrappers {

  datatype Option<+T> = None | Some(value: T)

  /** Looks a key up in a map, as a primary-key query does. */
  function Lookup<K, V>(m: map<K, V>, k: K): (r: Option<V>)
    ensures r.Some? <==> k in m
    ensures r.Some? ==> r.value == m[k]
  {
    if k in m then Some(m[k]) else None
  }
}

/** Optional values: JavaScript's `undefined` for an absent environment variable
    or an absent error argument. */
module Wrappers {

  datatype Option<+T> = None | Some(value: T)

  /** The value of `key` in `m`, or None when the key is absent
      (JavaScript's `process.env[key]` reading `undefined`). */
  function Lookup<K, V>(m: map<K, V>, key: K): (r: Option<V>)
    ensures r.Some? <==> key in m
    ensures r.Some? ==> r.value == m[key]
  {
    if key in m then Some(m[key]) else None
  }
}

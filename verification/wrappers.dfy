/** Optional values: `None` stands for JavaScript `null`/`undefined`, a SQL
    NULL or a missing map entry, depending on where it is used. */
module Wrappers {

  datatype Option<+T> = None | Some(value: T) {

    /** The wrapped value, or `default` when there is none (JavaScript `??`). */
    function GetOr(default: T): T
    {
      match this
      case Some(v) => v
      case None => default
    }
  }

  /** Lookup in a finite map, `None` when the key is absent (`Map.get`, `dict.get`). */
  function Get<K, V>(m: map<K, V>, k: K): (r: Option<V>)
    ensures r.Some? <==> k in m
    ensures r.Some? ==> r.value == m[k]
  {
    if k in m then Some(m[k]) else None
  }

  /** JavaScript truthiness of an optional string: present and not empty. */
  predicate Truthy(s: Option<string>)
  {
    s.Some? && s.value != ""
  }

  /** `s || ""` */
  function OrEmpty(s: Option<string>): string
  {
    if Truthy(s) then s.value else ""
  }

  /** `s || null` */
  function OrNull(s: Option<string>): (r: Option<string>)
    ensures r.Some? ==> r.value != ""
  {
    if Truthy(s) then s else None
  }
}

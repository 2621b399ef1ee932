/**
 * The keyed operations both DAOs perform alike: the `get` by primary key
 * they inherit from Dropwizard's `AbstractDAO`, and the session `merge`
 * (insert or overwrite) and `delete` that each DAO's own `update` and
 * `delete` call.
 */
module Table {
  import opened Wrappers

  /** The lookup by primary key. */
  function Find<V>(m: map<string, V>, key: string): (r: Option<V>)
    ensures r.Some? <==> key in m
    ensures r.Some? ==> r.value == m[key]
  {
    if key in m then Some(m[key]) else None
  }

  /** A merge: the record is written under `key`, inserting or overwriting. */
  function Put<V>(m: map<string, V>, key: string, v: V): (r: map<string, V>)
    ensures r.Keys == m.Keys + {key}
    ensures r[key] == v
    ensures forall k | k in m && k != key :: r[k] == m[k]
  {
    m[key := v]
  }

  /** Removes a stored record; deleting a missing one is a failure of the session. */
  function Remove<V>(m: map<string, V>, key: string): (r: map<string, V>)
    requires key in m
    ensures r.Keys == m.Keys - {key}
    ensures forall k | k in r :: r[k] == m[k]
  {
    m - {key}
  }
}

/** Maps built from a set of keys. */
module Maps {

  /** The map that gives each key what f does. */
  ghost function Tabulate<K(!new), V>(keys: set<K>, f: K -> V): (m: map<K, V>)
    ensures m.Keys == keys && forall k :: k in keys ==> m[k] == f(k)
  {
    if keys == {} then map[]
    else
      var k :| k in keys;
      Tabulate(keys - {k}, f)[k := f(k)]
  }

  ghost function Constant<K(!new), V>(keys: set<K>, v: V): (m: map<K, V>)
    ensures m.Keys == keys && forall k :: k in keys ==> m[k] == v
  {
    Tabulate(keys, _ => v)
  }
}

/**
 The two `std::map<std::string, std::string>` operations the tool uses.
 */
module StdMap {

  type Table = map<string, string>

  /** `std::map::insert`: adds `k` with value `v` only when `k` is not a key
      yet; an existing entry keeps its value. */
  function Insert(m: Table, k: string, v: string): (r: Table)
    ensures r.Keys == m.Keys + {k}
    ensures forall j :: j in m ==> r[j] == m[j]
    ensures k !in m ==> r[k] == v
  {
    if k in m then m else m[k := v]
  }

  /** `std::map::operator[]`: the value at `k`, together with the map after
      the call, which holds a value-initialised (empty) string at `k` when
      `k` was not a key. */
  function Subscript(m: Table, k: string): (r: (string, Table))
    ensures r.1.Keys == m.Keys + {k}
    ensures forall j :: j in m ==> r.1[j] == m[j]
    ensures r.0 == r.1[k]
    ensures k !in m ==> r.0 == ""
  {
    if k in m then (m[k], m) else ("", m[k := ""])
  }

  /** `b` holds every entry of `a` with the same value. */
  predicate Extends(a: Table, b: Table)
  {
    forall k :: k in a ==> k in b && b[k] == a[k]
  }
}

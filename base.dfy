// Shared vocabulary of the services: optional values, HTTP outcomes, and the
// "range over a Go map, appending to a slice" loop that several handlers use.

module Base {

  datatype Option<T> = None | Some(value: T)

  /** No element occurs twice. */
  ghost predicate Distinct<T>(s: seq<T>)
  {
    forall i, j :: 0 <= i < j < |s| ==> s[i] != s[j]
  }

  /**
   * `for _, v := range m { if keep(v) { out = append(out, v) } }`.
   * Go visits the keys in an unspecified order; the ghost `keys` records the
   * order this run chose.  Every kept entry is returned exactly once.
   */
  method CollectValues<K, V>(m: map<K, V>, keep: V -> bool) returns (vs: seq<V>, ghost keys: seq<K>)
    ensures |vs| == |keys| && Distinct(keys)
    ensures forall i :: 0 <= i < |keys| ==> keys[i] in m && vs[i] == m[keys[i]] && keep(vs[i])
    ensures forall k :: k in m && keep(m[k]) ==> k in keys
    ensures (forall k :: k in m ==> keep(m[k])) ==> |vs| == |m|
  {
    var rest := m.Keys;
    ghost var done: set<K> := {};
    vs, keys := [], [];
    while rest != {}
      invariant done + rest == m.Keys && done !! rest
      invariant Collected(m, keep, done, vs, keys)
      decreases rest
    {
      var k :| k in rest;
      CollectStep(m, keep, done, vs, keys, k);
      if keep(m[k]) {
        vs, keys := vs + [m[k]], keys + [k];
      }
      rest, done := rest - {k}, done + {k};
    }
    assert done == m.Keys;
  }

  /** `vs` holds, in the order of `keys`, the kept values of the keys in `done`, each once. */
  ghost predicate Collected<K, V>(m: map<K, V>, keep: V -> bool, done: set<K>, vs: seq<V>, keys: seq<K>)
  {
    && |vs| == |keys| && Distinct(keys)
    && (forall i :: 0 <= i < |keys| ==> keys[i] in done && keys[i] in m && vs[i] == m[keys[i]] && keep(vs[i]))
    && (forall k :: k in done && k in m && keep(m[k]) ==> k in keys)
    && ((forall k :: k in m ==> keep(m[k])) ==> |keys| == |done|)
  }

  lemma CollectStep<K, V>(m: map<K, V>, keep: V -> bool, done: set<K>, vs: seq<V>, keys: seq<K>, k: K)
    requires Collected(m, keep, done, vs, keys) && k in m && k !in done
    ensures keep(m[k]) ==> Collected(m, keep, done + {k}, vs + [m[k]], keys + [k])
    ensures !keep(m[k]) ==> Collected(m, keep, done + {k}, vs, keys)
  {
    if keep(m[k]) {
      var keys' := keys + [k];
      assert forall i :: 0 <= i < |keys| ==> keys'[i] == keys[i];
      assert Distinct(keys');
    }
  }
}

module Http {

  const StatusOK := 200
  const StatusCreated := 201
  const StatusBadRequest := 400
  const StatusUnauthorized := 401
  const StatusForbidden := 403
  const StatusNotFound := 404

  /** A handler's answer: a success status with its payload, or an error status with the `error` text. */
  datatype Outcome<T> = Ok(status: int, value: T) | Fail(status: int, error: string)
}

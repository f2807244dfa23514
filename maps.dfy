/**
 * Restricting a dictionary to the keys that still exist elsewhere, the
 * garbage-collection step the cleanup pass runs on every dictionary it
 * cleans (registry buckets, role-override maps).
 */
module Maps {

  /** The entries of `m` whose key is in `keep`. */
  function Restrict<K, V>(m: map<K, V>, keep: set<K>): (r: map<K, V>)
    ensures r.Keys == m.Keys * keep
    ensures forall k :: k in r ==> r[k] == m[k]
  {
    map k | k in m && k in keep :: m[k]
  }

  /** Restricting is a no-op exactly when every key is kept. */
  lemma RestrictUnchanged<K, V>(m: map<K, V>, keep: set<K>)
    ensures Restrict(m, keep) == m <==> m.Keys <= keep
  {
    if m.Keys <= keep {
      assert Restrict(m, keep).Keys == m.Keys;
    } else {
      var k :| k in m && k !in keep;
      assert k !in Restrict(m, keep);
    }
  }

  /** Restricting twice to the same keys changes nothing more. */
  lemma RestrictIdempotent<K, V>(m: map<K, V>, keep: set<K>)
    ensures Restrict(Restrict(m, keep), keep) == Restrict(m, keep)
  {
    RestrictUnchanged(Restrict(m, keep), keep);
  }

  /** Some element of a non-empty set: the next key a loop over a snapshot visits. */
  method Pick<T>(s: set<T>) returns (x: T)
    requires s != {}
    ensures x in s
  {
    x :| x in s;
  }

  /**
   * The deletion loop `for k in d.copy(): if k not kept: del d[k]`: it
   * iterates a snapshot of the keys and deletes from the live dictionary.
   * `changed` is the cleanup pass's `cleaned` flag for this dictionary.
   */
  method PruneKeys<K, V(==)>(m: map<K, V>, keep: set<K>) returns (r: map<K, V>, changed: bool)
    ensures r == Restrict(m, keep)
    ensures changed <==> r != m
  {
    r, changed := m, false;
    var todo := m.Keys;
    while todo != {}
      invariant todo <= m.Keys
      invariant r.Keys == (m.Keys - todo) * keep + todo
      invariant forall k :: k in r ==> r[k] == m[k]
      invariant changed <==> exists k :: k in m && k !in todo && k !in keep
      decreases todo
    {
      var k := Pick(todo);
      if k !in keep {
        r := r - {k};
        changed := true;
      }
      todo := todo - {k};
    }
    RestrictUnchanged(m, keep);
  }
}

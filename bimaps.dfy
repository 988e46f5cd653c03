/** The two-way store behind the player cache: Guava's `HashBiMap<UUID, String>`,
    kept as its two hash tables, the forward map from UUID to name and the
    backward map (its `inverse()` view) from name to UUID. */
module BiMaps {
  import opened Wrappers
  import opened Uuids

  /** `BiMap.put` refuses a name that another UUID already holds. */
  datatype BiMapError = ValueAlreadyPresent

  datatype BiMap = BiMap(forward: map<Uuid, string>, backward: map<string, Uuid>)
  {
    /** The two tables describe the same one-to-one relation. */
    ghost predicate Valid()
    {
      && (forall u | u in forward :: forward[u] in backward && backward[forward[u]] == u)
      && (forall n | n in backward :: backward[n] in forward && forward[backward[n]] == n)
    }

    /** `cache.get(u)`. */
    function Get(u: Uuid): (r: Option<string>)
      ensures r.Some? <==> u in forward
      ensures r.Some? ==> r.value == forward[u]
    {
      if u in forward then Some(forward[u]) else None
    }

    /** `cache.inverse().get(n)`. */
    function InverseGet(n: string): (r: Option<Uuid>)
      requires Valid()
      ensures r.Some? <==> n in forward.Values
      ensures r.Some? ==> r.value in forward && forward[r.value] == n
    {
      if n in backward then
        assert forward[backward[n]] == n;
        Some(backward[n])
      else
        assert forall u | u in forward :: forward[u] != n;
        None
    }

    /** `HashBiMap.put(u, n)`: returns the previous name of `u`. Rewriting the
        same pair changes nothing; a name held by another UUID is refused;
        otherwise `u` is bound to `n` and its old name leaves the inverse view. */
    function Put(u: Uuid, n: string): (r: Result<(Option<string>, BiMap), BiMapError>)
      ensures r.Failure? <==> n in backward && Get(u) != Some(n)
      ensures r.Success? ==> r.value.0 == Get(u) && r.value.1.forward == forward[u := n]
    {
      if u in forward && forward[u] == n then Success((Some(n), this))
      else if n in backward then Failure(ValueAlreadyPresent)
      else if u in forward then Success((Some(forward[u]), BiMap(forward[u := n], (backward - {forward[u]})[n := u])))
      else Success((None, BiMap(forward[u := n], backward[n := u])))
    }
  }

  /** `HashBiMap.create()`, and the contents after `clear()`. */
  function Empty(): (b: BiMap)
    ensures b.Valid() && b.forward == map[]
  {
    BiMap(map[], map[])
  }

  /** No two UUIDs share a name. */
  ghost predicate Injective(m: map<Uuid, string>)
  {
    forall u, v | u in m && v in m && u != v :: m[u] != m[v]
  }

  lemma ValidIsInjective(b: BiMap)
    requires b.Valid()
    ensures Injective(b.forward)
  {
    forall u, v | u in b.forward && v in b.forward && u != v
      ensures b.forward[u] != b.forward[v]
    {
      assert b.backward[b.forward[u]] == u;
      assert b.backward[b.forward[v]] == v;
    }
  }

  /** In a consistent store a name has an entry in the inverse view exactly
      when some UUID has that name. */
  lemma BackwardKeysAreNames(b: BiMap, n: string)
    requires b.Valid()
    ensures n in b.backward <==> n in b.forward.Values
  {
    if n in b.backward {
      assert b.forward[b.backward[n]] == n;
    } else {
      forall u | u in b.forward ensures b.forward[u] != n {
        assert b.backward[b.forward[u]] == u;
      }
    }
  }

  /** The inverse view is determined by the forward map. */
  lemma ValidDeterminedByForward(b1: BiMap, b2: BiMap)
    requires b1.Valid() && b2.Valid() && b1.forward == b2.forward
    ensures b1 == b2
  {
    forall n | n in b1.backward ensures n in b2.backward && b2.backward[n] == b1.backward[n] {
      var u := b1.backward[n];
      assert b2.forward[u] == n;
    }
    forall n | n in b2.backward ensures n in b1.backward {
      var u := b2.backward[n];
      assert b1.forward[u] == n;
    }
    assert b1.backward == b2.backward;
  }

  /** What `put` promises on a consistent store: it fails exactly when the name
      belongs to another UUID, and then nothing changes; otherwise it reports
      the previous name, binds `u` to `n` in both directions, drops the old
      name from the inverse view, and keeps the store consistent. */
  lemma PutSpec(b: BiMap, u: Uuid, n: string)
    requires b.Valid()
    ensures b.Put(u, n).Failure? <==> (b.InverseGet(n).Some? && b.InverseGet(n) != Some(u))
    ensures b.Put(u, n).Success? ==>
      var (prev, after) := b.Put(u, n).value;
      && prev == b.Get(u)
      && after.Valid()
      && after.forward == b.forward[u := n]
      && after.InverseGet(n) == Some(u)
      && (prev.Some? && prev.value != n ==> after.InverseGet(prev.value).None?)
  {
    if b.Put(u, n).Success? {
      var (prev, after) := b.Put(u, n).value;
      if !(u in b.forward && b.forward[u] == n) {
        assert n !in b.backward;
        assert after.Valid() by {
          if u in b.forward {
            var old_n := b.forward[u];
            forall n' | n' in after.backward
              ensures after.backward[n'] in after.forward && after.forward[after.backward[n']] == n'
            {
              if n' != n {
                assert n' in b.backward && n' != old_n;
                assert b.backward[n'] != u;
              }
            }
            forall v | v in after.forward
              ensures after.forward[v] in after.backward && after.backward[after.forward[v]] == v
            {
              if v != u {
                assert b.forward[v] != old_n by { assert b.backward[old_n] == u; }
              }
            }
          } else {
            forall n' | n' in after.backward
              ensures after.backward[n'] in after.forward && after.forward[after.backward[n']] == n'
            {
              if n' != n {
                assert b.backward[n'] != u;
              }
            }
          }
        }
        if prev.Some? && prev.value != n {
          assert prev.value !in after.backward;
          assert forall v | v in after.forward :: after.forward[v] != prev.value;
        }
      }
    }
  }
}

/** Types and map helpers shared by the store engines and the servers. */
module Common {

  /** A Go `byte`. */
  newtype uint8 = x: int | 0 <= x < 256

  /** A Go `[]byte` value; a nil slice and an empty slice are both `[]`. */
  type Bytes = seq<uint8>

  datatype Option<+T> = None | Some(value: T)

  /** The errors a `Store` backend returns; `StoreErrorKeyNotFound` is the only one. */
  datatype StoreError = KeyNotFound

  /** Sum of the lengths of all values of `m`: the `MemoryUsageBytes` of a `Stats` reply. */
  ghost function TotalBytes(m: map<string, Bytes>): nat
    decreases |m|
  {
    if m == map[] then 0
    else
      var k :| k in m;
      |m[k]| + TotalBytes(m - {k})
  }

  /** Taking any key out first gives the same sum: the sum does not depend on iteration order. */
  lemma {:induction false} TotalBytesRemove(m: map<string, Bytes>, k: string)
    requires k in m
    ensures TotalBytes(m) == |m[k]| + TotalBytes(m - {k})
    decreases |m|
  {
    var j :| j in m && TotalBytes(m) == |m[j]| + TotalBytes(m - {j});
    if j != k {
      var rest := m - {j};
      assert k in rest;
      TotalBytesRemove(rest, k);
      assert m - {k} - {j} == rest - {k};
      assert j in m - {k};
      TotalBytesRemove(m - {k}, j);
      assert (m - {k})[j] == m[j];
    }
  }

  /** The sum of one more entry is the old sum plus that value's length. */
  lemma TotalBytesAdd(m: map<string, Bytes>, k: string, v: Bytes)
    requires k !in m
    ensures TotalBytes(m[k := v]) == TotalBytes(m) + |v|
  {
    TotalBytesRemove(m[k := v], k);
    assert m[k := v] - {k} == m;
  }

  /** A sequence that lists every element of `s` exactly once. */
  ghost predicate Enumerates<T>(order: seq<T>, s: set<T>)
  {
    && (forall i :: 0 <= i < |order| ==> order[i] in s)
    && (forall x :: x in s ==> x in order)
    && (forall i, j :: 0 <= i < j < |order| ==> order[i] != order[j])
  }

  /** The keys of `m`, each exactly once and in an unspecified order, as Go's
      iteration over a map (or a `sync.Map` `Range`) yields them. */
  method CollectKeys<V>(m: map<string, V>) returns (keys: seq<string>)
    ensures Enumerates(keys, m.Keys)
    ensures |keys| == |m|
  {
    keys := [];
    var rest := m.Keys;
    while rest != {}
      invariant rest <= m.Keys
      invariant Enumerates(keys, m.Keys - rest)
      invariant |keys| + |rest| == |m.Keys|
      decreases rest
    {
      var k :| k in rest;
      keys := keys + [k];
      rest := rest - {k};
    }
  }

  /** An entry-by-entry copy of `m`. */
  method CopyEntries(m: map<string, Bytes>) returns (copy: map<string, Bytes>)
    ensures copy == m
  {
    copy := map[];
    var rest := m.Keys;
    while rest != {}
      invariant rest <= m.Keys
      invariant copy.Keys == m.Keys - rest
      invariant forall k :: k in copy ==> copy[k] == m[k]
      decreases rest
    {
      var k :| k in rest;
      copy := copy[k := m[k]];
      rest := rest - {k};
    }
  }

  /** Adds up the value lengths of `m` in an unspecified order. */
  method SumValueLengths(m: map<string, Bytes>) returns (total: nat)
    ensures total == TotalBytes(m)
  {
    total := 0;
    var rest := m.Keys;
    assert Restrict(m, rest) == m;
    while rest != {}
      invariant rest <= m.Keys
      invariant total + TotalBytes(Restrict(m, rest)) == TotalBytes(m)
      decreases rest
    {
      var k :| k in rest;
      TotalBytesRemove(Restrict(m, rest), k);
      assert Restrict(m, rest) - {k} == Restrict(m, rest - {k});
      total := total + |m[k]|;
      rest := rest - {k};
    }
    assert Restrict(m, rest) == map[];
  }

  /** The entries of `m` whose key is in `keys`. */
  function Restrict(m: map<string, Bytes>, keys: set<string>): map<string, Bytes>
  {
    map k | k in m && k in keys :: m[k]
  }
}

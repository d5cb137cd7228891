/** Cardinality facts. */
module SetFacts {
  lemma SubsetSize<T>(a: set<T>, b: set<T>)
    requires a <= b
    ensures |a| <= |b|
    ensures |a| == |b| ==> a == b
  {
    assert b == a + (b - a);
  }

  /** {0, ..., n - 1}. */
  ghost function Below(n: nat): (s: set<nat>)
    ensures |s| == n && forall c: nat :: c in s <==> c < n
  {
    if n == 0 then {} else Below(n - 1) + {n - 1}
  }

  /** Pigeonhole: keys sent one-to-one into `values` are no more than the values. */
  lemma {:induction false} InjectionSize<K, V>(m: map<K, V>, keys: set<K>, values: set<V>)
    requires keys <= m.Keys
    requires forall i :: i in keys ==> m[i] in values
    requires forall i, j :: i in keys && j in keys && i != j ==> m[i] != m[j]
    ensures |keys| <= |values|
  {
    if keys != {} {
      var i :| i in keys;
      InjectionSize(m, keys - {i}, values - {m[i]});
    }
  }

  lemma {:induction false} InjectiveImageSize<K, V>(m: map<K, V>, keys: set<K>, image: set<V>)
    requires keys <= m.Keys
    requires forall i, j :: i in keys && j in keys && i != j ==> m[i] != m[j]
    requires forall v :: v in image <==> exists i :: i in keys && m[i] == v
    ensures |keys| == |image|
  {
    if keys != {} {
      var i :| i in keys;
      InjectiveImageSize(m, keys - {i}, image - {m[i]});
    }
  }
}

/** Vocabulary shared by the models of ClusterLink's components. */
module Common {

  /** A value that may be absent, as a Go map lookup or pointer may be. */
  datatype Option<+T> = None | Some(value: T)

  /** A Kubernetes namespaced name. */
  datatype Name = Name(namespace: string, name: string)

  /** The integers 0 to n - 1. */
  function Below(n: nat): (s: set<int>)
    ensures forall i :: i in s <==> 0 <= i < n
  {
    if n == 0 then {} else Below(n - 1) + {n - 1}
  }

  lemma AddSize<T>(s: set<T>, x: T)
    requires x !in s
    ensures |s + {x}| == |s| + 1
  {
  }

  lemma {:induction false} BelowSize(n: nat)
    ensures |Below(n)| == n
  {
    if n > 0 {
      BelowSize(n - 1);
      AddSize(Below(n - 1), n - 1);
    }
  }

  lemma {:induction false} SubsetSize<T>(small: set<T>, big: set<T>)
    requires small <= big
    ensures |small| <= |big|
    ensures |small| == |big| ==> small == big
  {
    if small == {} {
    } else {
      var x :| x in small;
      SubsetSize(small - {x}, big - {x});
    }
  }

  lemma RemovedSize<T>(s: set<T>, x: T)
    requires x in s
    ensures |s - {x}| < |s|
  {
  }

  predicate Distinct<T(==)>(s: seq<T>) {
    forall i, j :: 0 <= i < j < |s| ==> s[i] != s[j]
  }

  function Elements<T>(s: seq<T>): set<T> {
    set x | x in s
  }

  lemma {:induction false} DistinctSize<T>(s: seq<T>)
    requires Distinct(s)
    ensures |Elements(s)| == |s|
  {
    if s == [] {
    } else {
      DistinctSize(s[1..]);
      assert Elements(s) == {s[0]} + Elements(s[1..]);
      assert s[0] !in s[1..];
    }
  }

  lemma DistinctSnoc<T>(s: seq<T>, x: T)
    requires Distinct(s) && x !in Elements(s)
    ensures Distinct(s + [x]) && Elements(s + [x]) == Elements(s) + {x}
  {
    assert forall i :: 0 <= i < |s| ==> s[i] in Elements(s);
  }

  lemma DistinctInit<T>(s: seq<T>)
    requires s != [] && Distinct(s)
    ensures var p, x := s[..|s| - 1], s[|s| - 1];
            Distinct(p) && x !in Elements(p) && Elements(s) == Elements(p) + {x}
  {
    assert s == s[..|s| - 1] + [s[|s| - 1]];
  }

  /** The entries of a map at the given keys. */
  function Pick<K, V>(m: map<K, V>, keys: set<K>): map<K, V> {
    map k | k in keys && k in m :: m[k]
  }

  lemma PickGrows<K, V>(m: map<K, V>, keys: set<K>, k: K, v: V)
    requires k !in m && keys <= m.Keys
    ensures Pick(m[k := v], keys + {k}) == Pick(m, keys)[k := v]
    ensures Pick(m[k := v], keys) == Pick(m, keys)
  {
  }

  lemma MergeOne<K, V>(a: map<K, V>, b: map<K, V>, k: K, v: V)
    ensures a + b[k := v] == (a + b)[k := v]
  {
  }

  lemma PickMerged<K, V>(a: map<K, V>, b: map<K, V>)
    ensures Pick(a + b, b.Keys) == b
  {
  }

  lemma RemoveOne<K, V>(m: map<K, V>, keys: set<K>, k: K)
    ensures m - (keys + {k}) == m - keys - {k}
  {
  }

  lemma DistinctCons<T>(x: T, s: seq<T>)
    requires Distinct(s) && x !in Elements(s)
    ensures Distinct([x] + s) && Elements([x] + s) == {x} + Elements(s)
  {
    assert forall i :: 0 <= i < |s| ==> s[i] in Elements(s);
  }

  /** The elements of a set, listed in some order. */
  method List<T>(s: set<T>) returns (q: seq<T>)
    ensures Distinct(q) && Elements(q) == s
  {
    q := [];
    var left := s;
    while left != {}
      invariant left <= s && Distinct(q) && Elements(q) == s - left
      decreases left
    {
      var x :| x in left;
      DistinctSnoc(q, x);
      q := q + [x];
      left := left - {x};
    }
  }
}

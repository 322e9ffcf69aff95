/** Counting the entries of a map that satisfy a condition. */
module Counting {
  function Bit(b: bool): nat { if b then 1 else 0 }

  /** The keys whose value satisfies `f`. */
  function Where<K, V>(m: map<K, V>, f: V -> bool): set<K> { set k | k in m && f(m[k]) }

  lemma Without<T>(a: set<T>, x: T)
    ensures |a| == |a - {x}| + Bit(x in a)
  {
    if x in a { assert a == (a - {x}) + {x}; } else { assert a == a - {x}; }
  }

  lemma WherePut<K, V>(m: map<K, V>, k: K, v: V, f: V -> bool)
    ensures |Where(m[k := v], f)| == |Where(m, f)| - Bit(k in m && f(m[k])) + Bit(f(v))
  {
    var a, b := Where(m, f), Where(m[k := v], f);
    assert a - {k} == b - {k};
    Without(a, k);
    Without(b, k);
  }

  lemma WhereRemove<K, V>(m: map<K, V>, k: K, f: V -> bool)
    ensures |Where(m - {k}, f)| == |Where(m, f)| - Bit(k in m && f(m[k]))
  {
    assert Where(m, f) - {k} == Where(m - {k}, f);
    Without(Where(m, f), k);
  }

  lemma CardMono<T>(a: set<T>, b: set<T>)
    requires a <= b
    ensures |a| <= |b|
  {
    assert b == a + (b - a);
  }

  lemma SubsetOfSameSize<T>(a: set<T>, b: set<T>)
    requires a <= b && |a| == |b|
    ensures a == b
  {
    assert b == a + (b - a);
  }
}

/** Small result types shared by every module. */
module Common {

  /** Python's `X | None`. */
  datatype Option<+T> = None | Some(value: T)

  /** A value, or the exception that was raised instead. */
  datatype Result<+T, +E> = Success(value: T) | Failure(error: E)

  function Lookup<K, V>(m: map<K, V>, k: K): Option<V> {
    if k in m then Some(m[k]) else None
  }

  ghost predicate Apart<K, V>(m: map<K, V>, n: map<K, V>) {
    forall k :: k in n ==> k !in m
  }

  /** Moving one entry from the second of two maps to the first leaves their union alone. */
  lemma MovedAcross<K, V>(m: map<K, V>, n: map<K, V>, k: K)
    requires k in n && Apart(m, n)
    ensures m[k := n[k]] + (n - {k}) == m + n
    ensures Apart(m[k := n[k]], n - {k})
  {
  }

  /** The entries of `n` whose keys `m` has too. */
  function Overlap<K, V>(m: map<K, V>, n: map<K, V>): map<K, V> {
    map k | k in n && k in m :: n[k]
  }

  lemma MovedBack<K, V>(m: map<K, V>, n: map<K, V>, k: K)
    requires k in n && k !in m
    ensures (n - {k}) + m[k := n[k]] == n + m
    ensures Overlap(m[k := n[k]], n - {k}) == Overlap(m, n)
  {
  }

  lemma MovedAside<K, V>(m: map<K, V>, n: map<K, V>, r: map<K, V>, k: K)
    requires k in n && k in m
    ensures (n - {k}) + m == n + m
    ensures r[k := n[k]] + Overlap(m, n - {k}) == r + Overlap(m, n)
  {
  }

  lemma NoOverlap<K, V>(m: map<K, V>, n: map<K, V>)
    requires Apart(m, n)
    ensures Overlap(m, n) == map[] && n + m == m + n
  {
  }

  lemma SubsetSize<T>(a: set<T>, b: set<T>)
    requires a <= b
    ensures |a| <= |b|
  {
    assert b == a + (b - a);
  }

  lemma UpdatedTwice<K, V>(m: map<K, V>, k: K, v: V, w: V)
    ensures m[k := v][k := w] == m[k := w]
  {
  }
}

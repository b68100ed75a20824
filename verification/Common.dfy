/** Small generic pieces shared by the modules: options, and counting the
    entries of a map that satisfy a predicate. */
module Common {
  datatype Option<+T> = None | Some(value: T)

  newtype byte = x: int | 0 <= x < 256
  type Bytes = seq<byte>

  ghost function Where<K, V>(m: map<K, V>, p: V -> bool): set<K> {
    set k | k in m && p(m[k])
  }

  ghost function Count<K, V>(m: map<K, V>, p: V -> bool): nat {
    |Where(m, p)|
  }

  lemma RemoveSize<T>(s: set<T>, x: T)
    ensures |s - {x}| == |s| - (if x in s then 1 else 0)
  {
    if x !in s { assert s - {x} == s; }
  }

  /** Overwriting one key changes the count by what it had and what it gets. */
  lemma CountUpdate<K, V>(m: map<K, V>, k: K, v: V, p: V -> bool)
    ensures Count(m[k := v], p)
         == Count(m, p) - (if k in m && p(m[k]) then 1 else 0) + (if p(v) then 1 else 0)
  {
    var before, after := Where(m, p), Where(m[k := v], p);
    assert after - {k} == before - {k};
    assert k in before <==> k in m && p(m[k]);
    assert k in after <==> p(v);
    RemoveSize(before, k);
    RemoveSize(after, k);
  }

  lemma SubsetSize<T>(a: set<T>, b: set<T>)
    requires a <= b
    ensures |a| <= |b|
  {
    assert b == a + (b - a);
  }

  lemma CountMonotone<K, V>(m: map<K, V>, p: V -> bool, q: V -> bool)
    requires forall k :: k in m && p(m[k]) ==> q(m[k])
    ensures Count(m, p) <= Count(m, q)
  {
    SubsetSize(Where(m, p), Where(m, q));
  }

  /** The integers from a up to (not including) b; they are b - a in number. */
  ghost function Range(a: int, b: int): (r: set<int>)
    requires a <= b
    ensures |r| == b - a
    ensures forall i :: i in r <==> a <= i < b
    decreases b - a
  {
    if a == b then {} else Range(a, b - 1) + {b - 1}
  }

  /** A sequence without repetition whose elements all lie in s is no longer than s is large. */
  lemma DistinctWithin<T>(xs: seq<T>, s: set<T>)
    requires forall i, j :: 0 <= i < j < |xs| ==> xs[i] != xs[j]
    requires forall i :: 0 <= i < |xs| ==> xs[i] in s
    ensures |xs| <= |s|
  {
    if xs != [] {
      var last := xs[|xs| - 1];
      DistinctWithin(xs[..|xs| - 1], s - {last});
    }
  }

  /** ... and if it is as long, it covers s. */
  lemma DistinctCovers<T>(xs: seq<T>, s: set<T>, x: T)
    requires forall i, j :: 0 <= i < j < |xs| ==> xs[i] != xs[j]
    requires forall i :: 0 <= i < |xs| ==> xs[i] in s
    requires |xs| == |s| && x in s
    ensures x in xs
  {
    if x !in xs {
      DistinctWithin(xs, s - {x});
    }
  }

  lemma Assoc<T>(a: seq<T>, b: seq<T>, c: seq<T>)
    ensures a + b + c == a + (b + c)
  {}

  /** c does not occur in s. */
  predicate Free(s: string, c: char) { forall i :: 0 <= i < |s| ==> s[i] != c }
}

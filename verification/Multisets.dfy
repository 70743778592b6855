/** The values of a finite map, counted with multiplicity. */
module Multisets {

  function Without<K, V>(m: map<K, V>, k: K): (r: map<K, V>)
    ensures r.Keys == m.Keys - {k}
  {
    map j | j in m && j != k :: m[j]
  }

  function Restrict<K, V>(m: map<K, V>, keys: set<K>): (r: map<K, V>)
    ensures r.Keys == m.Keys * keys
  {
    map k | k in m && k in keys :: m[k]
  }

  function Exclude<K, V>(m: map<K, V>, keys: set<K>): (r: map<K, V>)
    ensures r.Keys == m.Keys - keys
  {
    map k | k in m && k !in keys :: m[k]
  }

  ghost function ValuesOf<K, V>(m: map<K, V>): multiset<V>
    decreases m.Keys
  {
    if m == map[] then multiset{}
    else
      var k :| k in m;
      multiset{m[k]} + ValuesOf(Without(m, k))
  }

  lemma SomeKey<K, V>(m: map<K, V>) returns (k: K)
    requires m != map[]
    ensures k in m
    ensures ValuesOf(m) == multiset{m[k]} + ValuesOf(Without(m, k))
  {
    k :| k in m && ValuesOf(m) == multiset{m[k]} + ValuesOf(Without(m, k));
  }

  lemma {:induction false} ValuesOfRemove<K, V>(m: map<K, V>, k: K)
    requires k in m
    ensures ValuesOf(m) == multiset{m[k]} + ValuesOf(Without(m, k))
    decreases m.Keys
  {
    var first := SomeKey(m);
    if first != k {
      hide ValuesOf;
      ValuesOfRemove(Without(m, first), k);
      ValuesOfRemove(Without(m, k), first);
      assert Without(Without(m, first), k) == Without(Without(m, k), first);
    }
  }

  lemma SplitWithout<K, V>(m: map<K, V>, k: K, keys: set<K>)
    requires k in m
    ensures k in keys ==> Without(Restrict(m, keys), k) == Restrict(Without(m, k), keys)
    ensures k in keys ==> Exclude(m, keys) == Exclude(Without(m, k), keys) && Restrict(m, keys)[k] == m[k]
    ensures k !in keys ==> Without(Exclude(m, keys), k) == Exclude(Without(m, k), keys)
    ensures k !in keys ==> Restrict(m, keys) == Restrict(Without(m, k), keys) && Exclude(m, keys)[k] == m[k]
  {
  }

  /** Splitting a map by its keys splits its values. */
  lemma {:induction false} ValuesOfSplit<K, V>(m: map<K, V>, keys: set<K>)
    ensures ValuesOf(m) == ValuesOf(Restrict(m, keys)) + ValuesOf(Exclude(m, keys))
    decreases m.Keys
  {
    if m == map[] {
      assert Restrict(m, keys) == map[] && Exclude(m, keys) == map[];
    } else {
      var k := SomeKey(m);
      SplitWithout(m, k, keys);
      hide ValuesOf, Restrict, Exclude, Without;
      ValuesOfSplit(Without(m, k), keys);
      if k in keys {
        ValuesOfRemove(Restrict(m, keys), k);
      } else {
        ValuesOfRemove(Exclude(m, keys), k);
      }
    }
  }

  lemma ValuesOfEmpty<K, V>(m: map<K, V>)
    ensures ValuesOf(m) == multiset{} <==> m == map[]
  {
    if m != map[] {
      var k := SomeKey(m);
      assert m[k] in ValuesOf(m);
    }
  }
}

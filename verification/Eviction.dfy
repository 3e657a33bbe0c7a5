/** How the bounded maps of src/dns.rs make room: drop what has expired, and if that frees nothing, half. */
module Eviction {
  import opened Bytes

  const MAX_CACHE_ENTRIES: nat := 10_000

  function Restrict<K, V>(m: map<K, V>, keys: set<K>): map<K, V> {
    map k | k in m && k in keys :: m[k]
  }

  /** `n` is `m` after room has been made, `live` holding the unexpired keys. */
  ghost predicate RoomMade<K, V>(m: map<K, V>, n: map<K, V>, live: set<K>) {
    if |m| < MAX_CACHE_ENTRIES then n == m
    else
      var swept := Restrict(m, live);
      if |swept| < MAX_CACHE_ENTRIES then n == swept
      else n.Keys <= swept.Keys && n == Restrict(swept, n.Keys) && |n| == |swept| - MAX_CACHE_ENTRIES / 2
  }

  lemma RestrictSize<K, V>(m: map<K, V>, keys: set<K>)
    ensures Restrict(m, keys).Keys == m.Keys * keys
    ensures |Restrict(m, keys)| == |m.Keys * keys| <= |m|
  {
    assert Restrict(m, keys).Keys == m.Keys * keys;
    CardinalityOfPart(m.Keys * keys, m.Keys);
  }

  lemma {:induction false} CardinalityOfPart<T>(s: set<T>, t: set<T>)
    requires s <= t
    ensures |s| + |t - s| == |t|
  {
    assert t == s + (t - s);
  }

  /** Which half goes is up to the hash map's iteration order, so any choice of that size will do. */
  method MakeRoom<K(==), V>(m: map<K, V>, live: set<K>) returns (n: map<K, V>)
    ensures RoomMade(m, n, live)
  {
    n := m;
    if |n| >= MAX_CACHE_ENTRIES {
      n := Restrict(n, live);
      if |n| >= MAX_CACHE_ENTRIES {
        ghost var swept := n;
        ghost var part := SubsetOfSize(n.Keys, MAX_CACHE_ENTRIES / 2);
        assert part <= n.Keys && |part| == MAX_CACHE_ENTRIES / 2;
        var victims: set<K> :| victims <= n.Keys && |victims| == MAX_CACHE_ENTRIES / 2;
        CardinalityOfPart(victims, n.Keys);
        n := Restrict(n, n.Keys - victims);
        RestrictSize(swept, swept.Keys - victims);
        assert swept.Keys * (swept.Keys - victims) == swept.Keys - victims;
      }
    }
  }

  /** Room is made without inventing or altering entries, below the bound when it was met before. */
  lemma RoomKept<K, V>(m: map<K, V>, n: map<K, V>, live: set<K>)
    requires RoomMade(m, n, live) && |m| <= MAX_CACHE_ENTRIES
    ensures |n| < MAX_CACHE_ENTRIES
    ensures n.Keys <= m.Keys && forall k :: k in n ==> n[k] == m[k]
  {
    RestrictSize(m, live);
  }

  /** An unexpired entry goes only when the map is full of unexpired entries, and then exactly half go. */
  lemma LiveEntriesLost<K, V>(m: map<K, V>, n: map<K, V>, live: set<K>)
    requires RoomMade(m, n, live) && |m| <= MAX_CACHE_ENTRIES && live <= m.Keys
    ensures !(live <= n.Keys) ==>
              live == m.Keys && |live| == 10_000 && |live - n.Keys| == 5_000
  {
    RestrictSize(m, live);
    assert m.Keys * live == live;
    CardinalityOfPart(live, m.Keys);
    if !(live <= n.Keys) {
      assert m.Keys - live == {};
      assert live == m.Keys;
      CardinalityOfPart(n.Keys, live);
    }
  }

  lemma OneMoreEntry<K, V>(m: map<K, V>, k: K, v: V)
    ensures |m[k := v]| <= |m| + 1
  {
    assert m[k := v].Keys == m.Keys + {k};
  }
}

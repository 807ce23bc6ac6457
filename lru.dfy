/**
 * An abstract least-recently-used cache, as the bot uses the `lru` crate:
 * a bounded map together with the recency order of its keys.
 *
 * `order` lists the keys from least to most recently used. `Put` and `Get`
 * make their key the most recent one; `Peek` reads without touching the
 * order; `Put` of a new key into a full cache first drops `order[0]`.
 */
module Lru {
  import opened Types

  /** `s` with every occurrence of `k` removed, the rest kept in order. */
  function Without<K(==,!new)>(s: seq<K>, k: K): seq<K> {
    if s == [] then []
    else if s[0] == k then Without(s[1..], k)
    else [s[0]] + Without(s[1..], k)
  }

  predicate Distinct<K(==,!new)>(s: seq<K>) {
    forall i, j :: 0 <= i < j < |s| ==> s[i] != s[j]
  }

  lemma {:induction false} WithoutFacts<K(!new)>(s: seq<K>, k: K)
    requires Distinct(s)
    ensures Distinct(Without(s, k))
    ensures forall x :: x in Without(s, k) <==> x in s && x != k
    ensures k in s ==> |Without(s, k)| == |s| - 1
    ensures k !in s ==> Without(s, k) == s
  {
    if s != [] {
      WithoutFacts(s[1..], k);
      assert Distinct(s[1..]) by {
        forall i, j | 0 <= i < j < |s[1..]| ensures s[1..][i] != s[1..][j] {
          assert s[1..][i] == s[i + 1] && s[1..][j] == s[j + 1];
        }
      }
      if s[0] != k {
        var w := [s[0]] + Without(s[1..], k);
        assert s[0] !in s[1..] by {
          forall i | 0 <= i < |s[1..]| ensures s[1..][i] != s[0] {
            assert s[1..][i] == s[i + 1];
          }
        }
        forall i, j | 0 <= i < j < |w| ensures w[i] != w[j] {
          if i == 0 {
            assert w[j] in Without(s[1..], k);
          }
        }
      }
      assert s == [s[0]] + s[1..];
    }
  }

  datatype Cache<K(==,!new), V> = Cache(cap: nat, order: seq<K>, entries: map<K, V>)
  {
    /** The cache invariant: the order lists each stored key exactly once, and there are at most `cap` of them. */
    ghost predicate Valid() {
      && 0 < cap
      && |order| <= cap
      && Distinct(order)
      && (forall k :: k in entries <==> k in order)
    }

    /** The value stored under `k`, without changing recency (`LruCache::peek`). */
    function Peek(k: K): (r: Option<V>)
      ensures r.Some? <==> k in entries
      ensures r.Some? ==> r.value == entries[k]
    {
      if k in entries then Some(entries[k]) else None
    }

    /**
     * `LruCache::get`: the value under `k`, and the cache with `k` promoted to
     * most recently used. A miss leaves the cache as it was.
     */
    function Get(k: K): (r: (Option<V>, Cache<K, V>))
      requires Valid()
      ensures r.1.Valid() && r.1.cap == cap
      ensures r.0 == Peek(k)
      ensures r.1.entries == entries
      ensures k in entries ==> r.1.order == Without(order, k) + [k]
      ensures k !in entries ==> r.1 == this
    {
      if k in entries then
        WithoutFacts(order, k);
        (Some(entries[k]), Cache(cap, Without(order, k) + [k], entries))
      else
        (None, this)
    }

    /**
     * `LruCache::put`: store `v` under `k` and make `k` most recently used.
     * A new key in a full cache evicts the least recently used key first.
     */
    function Put(k: K, v: V): (c: Cache<K, V>)
      requires Valid()
      ensures c.Valid() && c.cap == cap
      ensures k in c.entries && c.entries[k] == v
      ensures c.order[|c.order| - 1] == k
      ensures k in entries ==> c.entries == entries[k := v] && c.order == Without(order, k) + [k]
      ensures k !in entries && |order| < cap ==> c.entries == entries[k := v] && c.order == order + [k]
      ensures k !in entries && |order| == cap ==>
                c.entries == (entries - {order[0]})[k := v] && c.order == order[1..] + [k]
    {
      WithoutFacts(order, k);
      if k in entries then
        Cache(cap, Without(order, k) + [k], entries[k := v])
      else if |order| < cap then
        Cache(cap, order + [k], entries[k := v])
      else
        var lru := order[0];
        TailFacts(order);
        Cache(cap, order[1..] + [k], (entries - {lru})[k := v])
    }

    /** `LruCache::pop`: remove `k`, returning what it held. */
    function Pop(k: K): (r: (Option<V>, Cache<K, V>))
      requires Valid()
      ensures r.1.Valid() && r.1.cap == cap
      ensures r.0 == Peek(k)
      ensures r.1.entries == entries - {k}
      ensures r.1.order == Without(order, k)
      ensures k !in entries ==> r.1 == this
    {
      WithoutFacts(order, k);
      assert k !in entries ==> entries - {k} == entries;
      (Peek(k), Cache(cap, Without(order, k), entries - {k}))
    }
  }

  /** An empty cache of capacity `cap` (`LruCache::new`). */
  function Empty<K(==,!new), V>(cap: nat): (c: Cache<K, V>)
    requires 0 < cap
    ensures c.Valid() && c.cap == cap && c.entries == map[] && c.order == []
  {
    Cache(cap, [], map[])
  }

  /**
   * Eviction under capacity pressure only ever drops the least recently used
   * key: putting a new key into a full cache keeps every other key and value.
   */
  lemma PutFullEvictsOnlyLeastRecent<K(!new), V>(c: Cache<K, V>, k: K, v: V)
    requires c.Valid() && k !in c.entries && |c.order| == c.cap
    ensures c.Put(k, v).entries.Keys == c.entries.Keys - {c.order[0]} + {k}
    ensures forall x :: x in c.entries && x != c.order[0] ==> c.Put(k, v).entries[x] == c.entries[x]
    ensures |c.Put(k, v).entries| == |c.entries|
  {
    var d := c.Put(k, v);
    assert c.order[0] in c.entries;
    assert c.order[0] != k;
    assert d.entries.Keys == c.entries.Keys - {c.order[0]} + {k};
    assert |c.entries.Keys - {c.order[0]}| == |c.entries.Keys| - 1;
  }

  /** A `Get` hit changes only the recency order; the stored keys and values are those `Peek` sees. */
  lemma GetOnlyReorders<K(!new), V>(c: Cache<K, V>, k: K)
    requires c.Valid() && k in c.entries
    ensures c.Get(k).0 == Some(c.entries[k])
    ensures c.Get(k).1.entries == c.entries
    ensures multiset(c.Get(k).1.order) == multiset(c.order)
    ensures |c.Get(k).1.order| == |c.order| && c.Get(k).1.order[|c.order| - 1] == k
  {
    WithoutFacts(c.order, k);
    var o := c.Get(k).1.order;
    assert |o| == |c.order|;
    DistinctSameElementsSameMultiset(o, c.order);
  }

  /**
   * Recently used keys survive a `Put`: when the order ends in `recent`,
   * fewer keys than the capacity and not including `k`, it still ends in
   * `recent` followed by `k` afterwards, and those keys keep their values.
   */
  lemma PutKeepsRecent<K(!new), V>(c: Cache<K, V>, k: K, v: V, front: seq<K>, recent: seq<K>) returns (front': seq<K>)
    requires c.Valid() && c.order == front + recent && |recent| < c.cap && k !in recent
    ensures c.Put(k, v).order == front' + (recent + [k])
    ensures forall j :: 0 <= j < |recent| ==>
              recent[j] in c.Put(k, v).entries && c.Put(k, v).entries[recent[j]] == c.entries[recent[j]]
  {
    if k in c.entries {
      WithoutAbsent(recent, k);
      WithoutAppend(front, recent, k);
      front' := Without(front, k);
    } else if |c.order| < c.cap {
      front' := front;
    } else {
      assert c.order[1..] == front[1..] + recent;
      front' := front[1..];
    }
    PutKeepsRecentValues(c, k, v, front, recent);
  }

  lemma PutKeepsRecentValues<K(!new), V>(c: Cache<K, V>, k: K, v: V, front: seq<K>, recent: seq<K>)
    requires c.Valid() && c.order == front + recent && |recent| < c.cap && k !in recent
    ensures forall j :: 0 <= j < |recent| ==>
              recent[j] in c.Put(k, v).entries && c.Put(k, v).entries[recent[j]] == c.entries[recent[j]]
  {
    forall j | 0 <= j < |recent|
      ensures recent[j] in c.Put(k, v).entries && c.Put(k, v).entries[recent[j]] == c.entries[recent[j]]
    {
      var x := recent[j];
      assert c.order[|front| + j] == x;
      if k !in c.entries && |c.order| == c.cap {
        assert x != c.order[0];
      }
    }
  }

  lemma {:induction false} WithoutAppend<K(!new)>(a: seq<K>, b: seq<K>, k: K)
    ensures Without(a + b, k) == Without(a, k) + Without(b, k)
    decreases |a|
  {
    if a != [] {
      assert (a + b)[1..] == a[1..] + b;
      WithoutAppend(a[1..], b, k);
    } else {
      assert a + b == b;
    }
  }

  lemma {:induction false} WithoutAbsent<K(!new)>(s: seq<K>, k: K)
    requires k !in s
    ensures Without(s, k) == s
    decreases |s|
  {
    if s != [] {
      assert k !in s[1..];
      WithoutAbsent(s[1..], k);
      assert s == [s[0]] + s[1..];
    }
  }

  /** Dropping the head of a duplicate-free sequence drops exactly that element. */
  lemma TailFacts<K(!new)>(s: seq<K>)
    requires Distinct(s) && |s| > 0
    ensures Distinct(s[1..])
    ensures forall x :: x in s[1..] <==> x in s && x != s[0]
  {
    assert s == [s[0]] + s[1..];
    forall i, j | 0 <= i < j < |s[1..]| ensures s[1..][i] != s[1..][j] {
      assert s[1..][i] == s[i + 1] && s[1..][j] == s[j + 1];
    }
    forall i | 0 <= i < |s[1..]| ensures s[1..][i] != s[0] {
      assert s[1..][i] == s[i + 1];
    }
  }

  lemma DistinctSameElementsSameMultiset<K(!new)>(a: seq<K>, b: seq<K>)
    requires Distinct(a) && Distinct(b)
    requires forall x :: x in a <==> x in b
    ensures multiset(a) == multiset(b)
  {
    DistinctMultiset(a);
    DistinctMultiset(b);
    assert forall x :: multiset(a)[x] == multiset(b)[x];
  }

  lemma {:induction false} DistinctMultiset<K(!new)>(a: seq<K>)
    requires Distinct(a)
    ensures forall x :: multiset(a)[x] == if x in a then 1 else 0
  {
    if a != [] {
      assert Distinct(a[1..]) by {
        forall i, j | 0 <= i < j < |a[1..]| ensures a[1..][i] != a[1..][j] {
          assert a[1..][i] == a[i + 1] && a[1..][j] == a[j + 1];
        }
      }
      DistinctMultiset(a[1..]);
      assert a == [a[0]] + a[1..];
      assert a[0] !in a[1..] by {
        forall i | 0 <= i < |a[1..]| ensures a[1..][i] != a[0] {
          assert a[1..][i] == a[i + 1];
        }
      }
    }
  }
}

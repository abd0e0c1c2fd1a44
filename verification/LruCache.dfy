/** The response cache of the API server (`api/ckpool_api_server.go`, `LRUCache`): a map and
  * an order list kept in step, refining a reference cache in which every entry remembers
  * the moment of its last use and eviction picks the least recent one.
  */
module LruCache {
  import opened Basics

  datatype Entry<V> = Entry(data: V, stamp: int)

  // ---------------------------------------------------------------- reference

  /** The reference cache: entries and, per key, the number of the operation that last used it. */
  datatype Reference<K(==), V> = Reference(entries: map<K, Entry<V>>, used: map<K, nat>, clock: nat)

  ghost predicate LeastRecent<K(!new), V>(r: Reference<K, V>, k: K) {
    k in r.used && forall j :: j in r.used ==> r.used[k] <= r.used[j]
  }

  ghost predicate Touched<K, V>(r: Reference<K, V>, k: K, r': Reference<K, V>) {
    r' == r.(used := r.used[k := r.clock], clock := r.clock + 1)
  }

  ghost predicate Dropped<K, V>(r: Reference<K, V>, k: K, r': Reference<K, V>) {
    r' == r.(entries := r.entries - {k}, used := r.used - {k})
  }

  ghost predicate Stored<K, V>(r: Reference<K, V>, k: K, e: Entry<V>, r': Reference<K, V>) {
    r' == Reference(r.entries[k := e], r.used[k := r.clock], r.clock + 1)
  }

  /** Set: a full cache first loses exactly its least recently used entry. */
  ghost predicate SetStep<K(!new), V(!new)>(r: Reference<K, V>, capacity: int, k: K, e: Entry<V>, r': Reference<K, V>) {
    if capacity <= 0 then r' == r
    else if k in r.entries || |r.entries| < capacity then Stored(r, k, e, r')
    else exists oldest, mid :: LeastRecent(r, oldest) && Dropped(r, oldest, mid) && Stored(mid, k, e, r')
  }

  /** Get: an entry older than the time to live is dropped and not returned. */
  ghost predicate GetStep<K, V>(r: Reference<K, V>, k: K, now: int, ttl: int, result: Option<V>, r': Reference<K, V>) {
    if k !in r.entries then result == None && r' == r
    else if now - r.entries[k].stamp > ttl then result == None && Dropped(r, k, r')
    else result == Some(r.entries[k].data) && Touched(r, k, r')
  }

  ghost predicate GetPersistentStep<K, V>(r: Reference<K, V>, k: K, result: Option<V>, r': Reference<K, V>) {
    if k !in r.entries then result == None && r' == r
    else result == Some(r.entries[k].data) && Touched(r, k, r')
  }

  // ---------------------------------------------------------------- the order list

  /** The place of k in s, or |s|. */
  function IndexOf<K(==)>(s: seq<K>, k: K): (i: nat)
    ensures i <= |s| && (i < |s| ==> s[i] == k) && forall j :: 0 <= j < i ==> s[j] != k
  {
    if s == [] || s[0] == k then 0 else 1 + IndexOf(s[1..], k)
  }

  function Without<K(==)>(s: seq<K>, k: K): seq<K> {
    var i := IndexOf(s, k);
    if i < |s| then Cut(s, i) else s
  }

  ghost predicate Ascending<K>(order: seq<K>, used: map<K, nat>) {
    && (forall k :: k in order ==> k in used)
    && forall i, j :: 0 <= i < j < |order| ==> used[order[i]] < used[order[j]]
  }

  /** `order` lists the keys in use, once each, in the order of their last use. */
  ghost predicate Lists<K(!new), V>(order: seq<K>, r: Reference<K, V>) {
    && r.entries.Keys == r.used.Keys
    && (forall k :: k in order <==> k in r.used)
    && Ascending(order, r.used)
    && forall k :: k in r.used ==> r.used[k] < r.clock
  }

  lemma ListLength<K(!new), V(!new)>(order: seq<K>, r: Reference<K, V>)
    requires Lists(order, r)
    ensures Distinct(order) && |order| == |r.entries|
  {
    DistinctSize(order);
    assert (set k | k in order) == r.entries.Keys;
  }

  lemma {:induction false} DistinctSize<K(!new)>(s: seq<K>)
    requires Distinct(s)
    ensures |set k | k in s| == |s|
  {
    if s != [] {
      DistinctSize(s[1..]);
      assert (set k | k in s) == {s[0]} + (set k | k in s[1..]);
    }
  }

  function Cut<K>(s: seq<K>, i: nat): (t: seq<K>)
    requires i < |s|
    ensures |t| == |s| - 1
    ensures forall n :: 0 <= n < |t| ==> t[n] == s[if n < i then n else n + 1]
  {
    s[..i] + s[i + 1..]
  }

  lemma CutAscending<K>(s: seq<K>, used: map<K, nat>, i: nat)
    requires Ascending(s, used) && i < |s|
    ensures Ascending(Cut(s, i), used)
  {
    hide Cut;
    forall k | k in Cut(s, i) ensures k in used {
      var n :| 0 <= n < |s| - 1 && Cut(s, i)[n] == k;
    }
  }

  lemma CutMembers<K(!new)>(s: seq<K>, used: map<K, nat>, i: nat)
    requires Ascending(s, used) && i < |s|
    ensures forall j :: j in Cut(s, i) <==> j in s && j != s[i]
  {
    hide Cut;
    var t := Cut(s, i);
    forall j ensures j in t <==> j in s && j != s[i] {
      if j in t {
        var n :| 0 <= n < |t| && t[n] == j;
      }
      if j in s && j != s[i] {
        var n :| 0 <= n < |s| && s[n] == j;
        assert t[if n < i then n else n - 1] == j;
      }
    }
  }

  /** Cutting a key out leaves the others, in their order. */
  lemma WithoutKeeps<K(!new)>(s: seq<K>, used: map<K, nat>, k: K)
    requires Ascending(s, used) && k in s
    ensures Ascending(Without(s, k), used)
    ensures forall j :: j in Without(s, k) <==> j in s && j != k
  {
    hide Cut;
    var i := IndexOf(s, k);
    CutAscending(s, used, i);
    CutMembers(s, used, i);
  }

  lemma TouchKeepsList<K(!new), V(!new)>(order: seq<K>, r: Reference<K, V>, k: K, r': Reference<K, V>)
    requires Lists(order, r) && k in r.entries && Touched(r, k, r')
    ensures Lists(Without(order, k) + [k], r')
  {
    WithoutKeeps(order, r.used, k);
    hide Without;
    AppendNewest(Without(order, k), r.used, k, r.clock);
  }

  lemma AppendNewest<K(!new)>(t: seq<K>, used: map<K, nat>, k: K, clock: nat)
    requires Ascending(t, used) && k !in t && forall j :: j in t ==> used[j] < clock
    ensures Ascending(t + [k], used[k := clock])
  {
  }

  lemma DropKeepsList<K(!new), V(!new)>(order: seq<K>, r: Reference<K, V>, k: K, r': Reference<K, V>)
    requires Lists(order, r) && k in r.entries && Dropped(r, k, r')
    ensures Lists(Without(order, k), r')
  {
    WithoutKeeps(order, r.used, k);
    hide Without;
    FewerUses(Without(order, k), r.used, k);
  }

  lemma FewerUses<K(!new)>(t: seq<K>, used: map<K, nat>, k: K)
    requires Ascending(t, used) && k !in t
    ensures Ascending(t, used - {k})
  {
  }

  lemma NewEntry<K(!new), V(!new)>(order: seq<K>, r: Reference<K, V>, k: K, e: Entry<V>)
    requires Lists(order, r) && k in r.entries
    ensures Lists(order, r.(entries := r.entries[k := e]))
  {
  }

  lemma StoreKeepsList<K(!new), V(!new)>(order: seq<K>, r: Reference<K, V>, k: K, e: Entry<V>, r': Reference<K, V>)
    requires Lists(order, r) && k !in r.entries && Stored(r, k, e, r')
    ensures Lists(order + [k], r')
  {
    AppendNewest(order, r.used, k, r.clock);
  }

  lemma HeadIsLeastRecent<K(!new), V(!new)>(order: seq<K>, r: Reference<K, V>)
    requires Lists(order, r) && order != []
    ensures LeastRecent(r, order[0]) && order[0] in r.entries
    ensures forall k :: LeastRecent(r, k) <==> k == order[0]
  {
    forall k | k in r.used ensures r.used[order[0]] <= r.used[k] && (k != order[0] ==> r.used[order[0]] < r.used[k]) {
      var i :| 0 <= i < |order| && order[i] == k;
    }
  }

  lemma OneFewer<K(!new), V>(m: map<K, V>, k: K)
    requires k in m
    ensures |m - {k}| == |m| - 1
  {
    assert (m - {k}).Keys == m.Keys - {k};
    assert |m - {k}| == |(m - {k}).Keys|;
  }

  lemma OneMore<K(!new), V>(m: map<K, V>, k: K, v: V)
    requires k !in m
    ensures |m[k := v]| == |m| + 1
  {
    assert m[k := v].Keys == m.Keys + {k};
    assert |m[k := v]| == |m[k := v].Keys|;
  }

  lemma SameKeys<K(!new), V>(m: map<K, V>, k: K, v: V)
    requires k in m
    ensures m[k := v].Keys == m.Keys && |m[k := v]| == |m|
  {
    assert m[k := v].Keys == m.Keys;
    assert |m[k := v]| == |m[k := v].Keys|;
  }

  ghost predicate Fits<K, V>(m: map<K, V>, capacity: int) {
    |m| <= if capacity <= 0 then 0 else capacity
  }

  // ---------------------------------------------------------------- the cache

  class Cache<K(==,!new), V(!new)> {
    const capacity: int
    var cache: map<K, Entry<V>>
    var order: seq<K>
    ghost var used: map<K, nat>
    ghost var clock: nat

    ghost function View(): Reference<K, V>
      reads this
    {
      Reference(cache, used, clock)
    }

    ghost predicate Valid()
      reads this
    {
      Lists(order, View()) && Fits(cache, capacity)
    }

    constructor (capacity: int)
      ensures Valid() && this.capacity == capacity && View() == Reference(map[], map[], 0)
    {
      this.capacity := capacity;
      cache, order := map[], [];
      used, clock := map[], 0;
    }

    /** The loop of `touchLocked` and `removeLocked`: cut the first occurrence out. */
    method CutOut(key: K)
      modifies this`order
      ensures order == Without(old(order), key)
    {
      var index := 0;
      while index < |order|
        invariant 0 <= index <= |order| && order == old(order)
        invariant forall j :: 0 <= j < index ==> order[j] != key
      {
        if order[index] == key {
          assert index == IndexOf(order, key);
          order := order[..index] + order[index + 1..];
          return;
        }
        index := index + 1;
      }
    }

    /** `touchLocked`: the key becomes the most recently used. */
    method Touch(key: K)
      requires Valid() && key in cache
      modifies this`order, this`used, this`clock
      ensures Valid() && Touched(old(View()), key, View())
    {
      hide Lists, Without, Fits;
      TouchKeepsList(order, View(), key, Reference(cache, used[key := clock], clock + 1));
      CutOut(key);
      order := order + [key];
      used, clock := used[key := clock], clock + 1;
    }

    /** `removeLocked`. */
    method Remove(key: K)
      requires Valid() && key in cache
      modifies this`order, this`cache, this`used
      ensures Valid() && Dropped(old(View()), key, View())
      ensures |cache| == |old(cache)| - 1 && cache == old(cache) - {key}
    {
      hide Lists, Without;
      DropKeepsList(order, View(), key, Reference(cache - {key}, used - {key}, clock));
      OneFewer(cache, key);
      cache := cache - {key};
      CutOut(key);
      used := used - {key};
    }

    method Get(key: K, now: int, ttl: int) returns (result: Option<V>)
      requires Valid()
      modifies this
      ensures Valid()
      ensures GetStep(old(View()), key, now, ttl, result, View())
    {
      if key !in cache {
        return None;
      }
      var entry := cache[key];
      if now - entry.stamp > ttl {
        Remove(key);
        return None;
      }
      Touch(key);
      return Some(entry.data);
    }

    method GetPersistent(key: K) returns (result: Option<V>)
      requires Valid()
      modifies this
      ensures Valid()
      ensures GetPersistentStep(old(View()), key, result, View())
    {
      if key !in cache {
        return None;
      }
      var entry := cache[key];
      Touch(key);
      return Some(entry.data);
    }

    method Set(key: K, data: V, now: int)
      requires Valid()
      modifies this
      ensures Valid()
      ensures SetStep(old(View()), capacity, key, Entry(data, now), View())
    {
      if capacity <= 0 {
        return;
      }
      hide Lists, LeastRecent, Stored, Dropped;
      var entry := Entry(data, now);
      if key in cache {
        Replace(key, entry);
        return;
      }
      ghost var before := View();
      ListLength(order, before);
      if |cache| >= capacity {
        HeadIsLeastRecent(order, before);
        Remove(order[0]);
      }
      ghost var mid := View();
      Insert(key, entry);
    }

    /** The first half of `Set`: a key that is there. */
    method Replace(key: K, entry: Entry<V>)
      requires Valid() && key in cache
      modifies this
      ensures Valid() && Stored(old(View()), key, entry, View())
    {
      hide Lists;
      SameKeys(cache, key, entry);
      NewEntry(order, View(), key, entry);
      cache := cache[key := entry];
      Touch(key);
    }

    /** The end of `Set`: a key that is not there, with room for it. */
    method Insert(key: K, entry: Entry<V>)
      requires Valid() && key !in cache && |cache| < capacity
      modifies this
      ensures Valid() && Stored(old(View()), key, entry, View())
    {
      hide Lists;
      StoreKeepsList(order, View(), key, entry, Reference(cache[key := entry], used[key := clock], clock + 1));
      OneMore(cache, key, entry);
      cache := cache[key := entry];
      order := order + [key];
      used, clock := used[key := clock], clock + 1;
    }
  }

  /** A valid cache never holds more than its capacity, and its order list is a duplicate-free
    * listing of exactly its keys. */
  lemma ListingOfKeys<K(!new), V(!new)>(c: Cache<K, V>)
    requires c.Valid()
    ensures |c.order| == |c.cache| <= (if c.capacity <= 0 then 0 else c.capacity)
    ensures Distinct(c.order) && forall k :: k in c.order <==> k in c.cache
  {
    ListLength(c.order, c.View());
  }

  // ---------------------------------------------------------------- runs

  datatype Op<K, V> =
    | SetOp(key: K, data: V, now: int)
    | GetOp(key: K, now: int, ttl: int)
    | GetPersistentOp(key: K)

  ghost predicate OpStep<K(!new), V(!new)>(r: Reference<K, V>, capacity: int, op: Op<K, V>, r': Reference<K, V>) {
    match op
    case SetOp(k, d, now) => SetStep(r, capacity, k, Entry(d, now), r')
    case GetOp(k, now, ttl) => exists result :: GetStep(r, k, now, ttl, result, r')
    case GetPersistentOp(k) => exists result :: GetPersistentStep(r, k, result, r')
  }

  /** The reference is deterministic: at most one key is the least recently used, so which
    * entry a full cache loses is fixed by the run alone. */
  lemma EvictionIsDetermined<K(!new), V(!new)>(r: Reference<K, V>, order: seq<K>, capacity: int, op: Op<K, V>, a: Reference<K, V>, b: Reference<K, V>)
    requires Lists(order, r) && OpStep(r, capacity, op, a) && OpStep(r, capacity, op, b)
    ensures a == b
  {
    if op.SetOp? && order != [] {
      HeadIsLeastRecent(order, r);
    }
  }
}

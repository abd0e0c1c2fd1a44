/** What the response cache of the API server serves, over runs of its operations: an entry is there as long
  * as fewer keys than it holds have been asked for since, and it is served until it expires.
  */
module LruRuns {
  import opened Basics
  import opened LruCache

  /** No two keys were used at one time, and there is no more than there is room for. */
  ghost predicate Kept<K(!new), V>(r: Reference<K, V>, capacity: int) {
    && r.entries.Keys == r.used.Keys
    && (forall k :: k in r.used ==> r.used[k] < r.clock)
    && (forall j, k :: j in r.used && k in r.used && j != k ==> r.used[j] != r.used[k])
    && |r.entries| <= if capacity <= 0 then 0 else capacity
  }

  lemma ListedIsKept<K(!new), V(!new)>(c: Cache<K, V>)
    requires c.Valid()
    ensures Kept(c.View(), c.capacity)
  {
    var order, used := c.order, c.used;
    forall j, k | j in used && k in used && j != k ensures used[j] != used[k] {
      var a :| 0 <= a < |order| && order[a] == j;
      var b :| 0 <= b < |order| && order[b] == k;
      assert a < b || b < a;
    }
  }

  lemma TouchedKept<K(!new), V(!new)>(r: Reference<K, V>, capacity: int, k: K, r': Reference<K, V>)
    requires Kept(r, capacity) && k in r.entries && Touched(r, k, r')
    ensures Kept(r', capacity)
  {
  }

  lemma DroppedKept<K(!new), V(!new)>(r: Reference<K, V>, capacity: int, k: K, r': Reference<K, V>)
    requires Kept(r, capacity) && k in r.entries && Dropped(r, k, r')
    ensures Kept(r', capacity) && |r'.entries| == |r.entries| - 1
  {
    OneFewer(r.entries, k);
  }

  lemma StoredKept<K(!new), V(!new)>(r: Reference<K, V>, capacity: int, k: K, e: Entry<V>, r': Reference<K, V>)
    requires Kept(r, capacity) && (k in r.entries || |r.entries| < capacity) && Stored(r, k, e, r')
    ensures Kept(r', capacity)
  {
    if k in r.entries {
      SameKeys(r.entries, k, e);
    } else {
      OneMore(r.entries, k, e);
    }
  }

  lemma SetKept<K(!new), V(!new)>(r: Reference<K, V>, capacity: int, k: K, e: Entry<V>, r': Reference<K, V>)
    requires Kept(r, capacity) && SetStep(r, capacity, k, e, r')
    ensures Kept(r', capacity)
  {
    hide Kept, Stored, Dropped;
    if capacity > 0 {
      if k in r.entries || |r.entries| < capacity {
        StoredKept(r, capacity, k, e, r');
      } else {
        var oldest, mid :| LeastRecent(r, oldest) && Dropped(r, oldest, mid) && Stored(mid, k, e, r');
        Room(r, capacity);
        DroppedKept(r, capacity, oldest, mid);
        StoredKept(mid, capacity, k, e, r');
      }
    }
  }

  lemma Room<K(!new), V(!new)>(r: Reference<K, V>, capacity: int)
    requires Kept(r, capacity) && capacity > 0
    ensures |r.entries| <= capacity && r.entries.Keys == r.used.Keys
  {
  }

  lemma OpKept<K(!new), V(!new)>(r: Reference<K, V>, capacity: int, op: Op<K, V>, r': Reference<K, V>)
    requires Kept(r, capacity) && OpStep(r, capacity, op, r')
    ensures Kept(r', capacity)
  {
    hide Kept, Touched, Dropped, SetStep;
    if op.SetOp? {
      SetKept(r, capacity, op.key, Entry(op.data, op.now), r');
    } else if op.key in r.entries {
      if Touched(r, op.key, r') {
        TouchedKept(r, capacity, op.key, r');
      } else {
        DroppedKept(r, capacity, op.key, r');
      }
    }
  }

  // ----- the key used last -----

  ghost predicate UsedLast<K(!new), V>(r: Reference<K, V>, k: K) {
    k in r.used && k in r.entries && forall j :: j in r.used ==> r.used[j] <= r.used[k]
  }

  /** A key that is set, or got, is the one used last. */
  lemma SetIsUse<K(!new), V(!new)>(r: Reference<K, V>, capacity: int, k: K, e: Entry<V>, r': Reference<K, V>)
    requires Kept(r, capacity) && capacity > 0 && SetStep(r, capacity, k, e, r')
    ensures UsedLast(r', k) && r'.entries[k] == e
  {
  }

  lemma GetIsUse<K(!new), V(!new)>(r: Reference<K, V>, capacity: int, k: K, now: int, ttl: int, result: Option<V>, r': Reference<K, V>)
    requires Kept(r, capacity) && GetStep(r, k, now, ttl, result, r')
    ensures result.Some? <==> k in r.entries && now - r.entries[k].stamp <= ttl
    ensures result.Some? ==> result.value == r.entries[k].data && UsedLast(r', k) && r'.entries == r.entries
    ensures result.None? ==> k !in r'.entries
  {
  }

  // ----- runs -----

  ghost predicate Plays<K(!new), V(!new)>(states: seq<Reference<K, V>>, capacity: int, ops: seq<Op<K, V>>) {
    && |states| == |ops| + 1
    && forall i :: 0 <= i < |ops| ==> OpStep(states[i], capacity, ops[i], states[i + 1])
  }

  ghost function Asked<K(!new), V>(ops: seq<Op<K, V>>): set<K> {
    if ops == [] then {} else Asked(ops[..|ops| - 1]) + {ops[|ops| - 1].key}
  }

  /** k is as it was, and what was used after it has been asked for since. */
  ghost predicate StillThere<K(!new), V>(r: Reference<K, V>, k: K, e: Entry<V>, asked: set<K>) {
    && k in r.entries && k in r.used && r.entries[k] == e
    && forall j :: j in r.used && r.used[j] > r.used[k] ==> j in asked
  }

  lemma FullOfAsked<K(!new), V(!new)>(r: Reference<K, V>, capacity: int, k: K, e: Entry<V>, asked: set<K>, key: K)
    requires Kept(r, capacity) && StillThere(r, k, e, asked) && LeastRecent(r, k)
    requires |r.entries| >= capacity > 0 && key !in r.entries && k !in asked && key in asked
    ensures |asked| >= capacity
  {
    var others := r.entries.Keys - {k} + {key};
    forall j | j in others ensures j in asked {
      if j != key {
        assert r.used[k] <= r.used[j] && r.used[k] != r.used[j];
      }
    }
    assert |others| == |r.entries.Keys|;
    assert |r.entries.Keys| == |r.entries|;
    Larger(others, asked);
  }

  lemma {:induction false} Larger<K>(a: set<K>, b: set<K>)
    requires a <= b
    ensures |a| <= |b|
  {
    if a != {} {
      var x :| x in a;
      Larger(a - {x}, b - {x});
    }
  }

  lemma OpLeaves<K(!new), V(!new)>(r: Reference<K, V>, capacity: int, op: Op<K, V>, r': Reference<K, V>, k: K, e: Entry<V>,
                                   asked: set<K>)
    requires Kept(r, capacity) && capacity > 0 && OpStep(r, capacity, op, r') && op.key != k
    requires StillThere(r, k, e, asked) && op.key in asked && k !in asked && |asked| < capacity
    ensures StillThere(r', k, e, asked)
  {
    if op.SetOp? && op.key !in r.entries && |r.entries| >= capacity {
      var oldest, mid :| LeastRecent(r, oldest) && Dropped(r, oldest, mid) && Stored(mid, op.key, Entry(op.data, op.now), r');
      if oldest == k {
        FullOfAsked(r, capacity, k, e, asked, op.key);
      }
    }
  }

  lemma MoreAsked<K(!new), V(!new)>(r: Reference<K, V>, k: K, e: Entry<V>, asked: set<K>, more: set<K>)
    requires StillThere(r, k, e, asked)
    ensures StillThere(r, k, e, asked + more)
  {
  }

  /** An entry outlasts every run of operations on other keys that asks for fewer of them than the cache has
    * room for, whatever they set and get and whatever expires. */
  lemma {:induction false} RecentIsKept<K(!new), V(!new)>(states: seq<Reference<K, V>>, capacity: int, ops: seq<Op<K, V>>, k: K)
    requires Plays(states, capacity, ops) && Kept(states[0], capacity) && UsedLast(states[0], k)
    requires k !in Asked(ops) && |Asked(ops)| < capacity
    ensures Kept(states[|ops|], capacity) && StillThere(states[|ops|], k, states[0].entries[k], Asked(ops))
    decreases |ops|
  {
    hide Kept, OpStep, StillThere;
    var e := states[0].entries[k];
    if ops == [] {
      StartsThere(states[0], k);
    } else {
      var n := |ops| - 1;
      Larger(Asked(ops[..n]), Asked(ops));
      RecentIsKept(states[..n + 1], capacity, ops[..n], k);
      assert OpStep(states[n], capacity, ops[n], states[n + 1]);
      OpKept(states[n], capacity, ops[n], states[n + 1]);
      MoreAsked(states[n], k, e, Asked(ops[..n]), {ops[n].key});
      OpLeaves(states[n], capacity, ops[n], states[n + 1], k, e, Asked(ops));
    }
  }

  lemma StartsThere<K(!new), V(!new)>(r: Reference<K, V>, k: K)
    requires UsedLast(r, k)
    ensures StillThere(r, k, r.entries[k], {})
  {
  }

  /** So what is set is served: after any such run a Get returns it exactly until it is older than the time
    * to live, and a GetPersistent always. */
  lemma StoredIsServed<K(!new), V(!new)>(r: Reference<K, V>, states: seq<Reference<K, V>>, capacity: int, ops: seq<Op<K, V>>,
                                         k: K, data: V, stamp: int, now: int, ttl: int, got: Option<V>, always: Option<V>,
                                         after: Reference<K, V>, later: Reference<K, V>)
    requires Kept(r, capacity) && states != [] && SetStep(r, capacity, k, Entry(data, stamp), states[0])
    requires Plays(states, capacity, ops) && k !in Asked(ops) && |Asked(ops)| < capacity
    requires GetStep(states[|ops|], k, now, ttl, got, after) && GetPersistentStep(states[|ops|], k, always, later)
    ensures got == (if now - stamp <= ttl then Some(data) else None) && always == Some(data)
  {
    assert |states| == |ops| + 1;
    hide Kept, SetStep, Plays;
    SetKept(r, capacity, k, Entry(data, stamp), states[0]);
    SetIsUse(r, capacity, k, Entry(data, stamp), states[0]);
    RecentIsKept(states, capacity, ops, k);
    GetIsUse(states[|ops|], capacity, k, now, ttl, got, after);
  }

  /** A key that is not there comes only by being set, and never to a cache without room. */
  lemma OnlySetBrings<K(!new), V(!new)>(r: Reference<K, V>, capacity: int, op: Op<K, V>, r': Reference<K, V>, k: K)
    requires OpStep(r, capacity, op, r') && k !in r.entries && k in r'.entries
    ensures op.SetOp? && op.key == k && capacity > 0 && r'.entries[k] == Entry(op.data, op.now)
  {
  }
}

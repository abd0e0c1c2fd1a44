/** The bounded history of local chain tips (`src/sv2_bridge.c`): a ring of eight slots that
  * refines the list of the last eight tips pushed, and the place of a pool's tip in it.
  */
module TipRing {

  const SKEW := 7200

  datatype Relation = NoLocal | Same | Behind | Ahead
  datatype Plausibility = Plausible | WrongBits | TimeAhead | TimeBehind

  /** A tip hash with the difficulty bits and time of the template built on it. */
  datatype Tip<Hash> = Tip(hash: Hash, nbits: nat, ntime: nat)

  /** All tips ever pushed, a repeat of the newest one not counting. */
  function Pushed<Hash(==)>(history: seq<Tip<Hash>>, t: Tip<Hash>): seq<Tip<Hash>> {
    if history != [] && history[|history| - 1].hash == t.hash then history else history + [t]
  }

  function LastEight<Hash(==)>(history: seq<Tip<Hash>>): seq<Tip<Hash>> {
    if |history| <= 8 then history else history[|history| - 8..]
  }

  /** What a pool's tip is to a node that remembers the tips of `recent`, newest last. */
  function RelationTo<Hash(==)>(recent: seq<Tip<Hash>>, pool: Hash): Relation {
    if recent == [] then NoLocal
    else if recent[|recent| - 1].hash == pool then Same
    else if exists t :: t in recent && t.hash == pool then Behind
    else Ahead
  }

  class Ring<Hash(==, 0)> {
    const slots: array<Tip<Hash>>
    var count: nat
    var newest: nat
    ghost var history: seq<Tip<Hash>>

    ghost predicate Valid()
      reads this, slots
    {
      && slots.Length == 8
      && count == |LastEight(history)|
      && newest == (if history == [] then 0 else (|history| - 1) % 8)
      && forall k :: |history| - count <= k < |history| ==> slots[k % 8] == history[k]
    }

    constructor ()
      ensures Valid() && history == [] && fresh(slots)
    {
      slots := new Tip<Hash>[8];
      count, newest := 0, 0;
      history := [];
    }

    /** `sv2_tip_push`. */
    method Push(t: Tip<Hash>)
      requires Valid()
      modifies this, slots
      ensures Valid() && history == Pushed(old(history), t)
    {
      if count > 0 && slots[newest].hash == t.hash {
        return;
      }
      ghost var n := |history|;
      NextSlot(n);
      newest := if count > 0 then (newest + 1) % 8 else 0;
      Store(t);
    }

    /** The store behind the newest slot, and the count. */
    method Store(t: Tip<Hash>)
      requires slots.Length == 8 && count == |LastEight(history)| && newest == |history| % 8
      requires forall k :: |history| - count <= k < |history| ==> slots[k % 8] == history[k]
      modifies this`count, this`history, slots
      ensures Valid() && history == old(history) + [t]
    {
      ghost var n := |history|;
      ghost var before := slots[..];
      slots[newest] := t;
      if count < 8 {
        count := count + 1;
      }
      history := history + [t];
      forall k | n + 1 - count <= k < n ensures slots[k % 8] == history[k] {
        OtherSlot(n, k);
        assert before[k % 8] == history[k];
      }
    }

    /** `sv2_tip_relation`: membership in the list of the last eight tips. */
    method RelationOf(pool: Hash) returns (rel: Relation)
      requires Valid()
      ensures rel == RelationTo(LastEight(history), pool)
    {
      hide LastEight;
      if count == 0 {
        return NoLocal;
      }
      ghost var recent := LastEight(history);
      Newest();
      if slots[newest].hash == pool {
        return Same;
      }
      for i := 1 to count
        invariant forall k :: |recent| - i <= k < |recent| ==> recent[k].hash != pool
      {
        SlotBack(i);
        if slots[(newest - i + 8) % 8].hash == pool {
          return Behind;
        }
      }
      forall t | t in recent ensures t.hash != pool {
        var k :| 0 <= k < |recent| && recent[k] == t;
      }
      return Ahead;
    }

    lemma Newest()
      requires Valid() && count > 0
      ensures newest < 8 && |LastEight(history)| > 0 && slots[newest] == LastEight(history)[|LastEight(history)| - 1]
    {
    }

    /** i slots back from the newest is the tip i places from the end. */
    lemma SlotBack(i: nat)
      requires Valid() && i < count
      ensures slots[(newest - i + 8) % 8] == LastEight(history)[|LastEight(history)| - 1 - i]
    {
      hide LastEight;
      LastEightAt(history, i);
      StepsBack(|history| - 1, i);
      var k := |history| - 1 - i;
      assert slots[k % 8] == history[k];
    }

    /** `sv2_tip_plausible`: the difficulty bits and the time, compared in 64 bits. */
    method PlausibilityOf(nbits: nat, ntime: nat) returns (p: Plausibility)
      requires Valid()
      ensures p == Plausible <==> (history == [] ||
                (nbits == history[|history| - 1].nbits && -7200 <= ntime - history[|history| - 1].ntime <= 7200))
      ensures p == WrongBits <==> history != [] && nbits != history[|history| - 1].nbits
      ensures p == TimeAhead <==> (history != [] && nbits == history[|history| - 1].nbits &&
                ntime - history[|history| - 1].ntime > 7200)
    {
      if count == 0 {
        return Plausible;
      }
      if nbits != slots[newest].nbits {
        return WrongBits;
      }
      if ntime > slots[newest].ntime + SKEW {
        return TimeAhead;
      }
      if slots[newest].ntime > ntime + SKEW {
        return TimeBehind;
      }
      return Plausible;
    }
  }

  lemma LastEightAt<Hash>(history: seq<Tip<Hash>>, i: nat)
    requires i < |LastEight(history)|
    ensures |LastEight(history)| <= |history| && |LastEight(history)| <= 8
    ensures LastEight(history)[|LastEight(history)| - 1 - i] == history[|history| - 1 - i]
  {
  }

  lemma NextSlot(n: nat)
    ensures n > 0 ==> ((n - 1) % 8 + 1) % 8 == n % 8
  {
  }

  lemma OtherSlot(n: nat, k: nat)
    requires n - 8 < k < n
    ensures k % 8 != n % 8
  {
  }

  lemma StepsBack(last: nat, i: nat)
    requires i <= last && i < 8
    ensures (last % 8 - i + 8) % 8 == (last - i) % 8
  {
  }

  /** A pool tip our node has left within its last seven tip changes is BEHIND, never AHEAD. */
  lemma RecentTipIsNotAhead<Hash>(history: seq<Tip<Hash>>, later: seq<Tip<Hash>>, pool: Hash)
    requires history != [] && history[|history| - 1].hash == pool && |later| < 8
    ensures RelationTo(LastEight(history + later), pool) in {Same, Behind}
  {
    var recent := LastEight(history + later);
    var k := |recent| - 1 - |later|;
    assert recent[k] == history[|history| - 1];
  }
}

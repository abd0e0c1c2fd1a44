/** The payout of a coinbase that arrives split around its extranonce hole
  * (`coinbase_payout_script` in `src/libckpool.c`), on coinbases built by `src/sv2_cb.c`.
  */
module CoinbasePayout {
  import opened Basics
  import opened CoinbaseOutputs
  import opened CoinbaseParts
  import opened TxBytes

  const MAX_COUNT := 0x100

  /** The outputs of the transaction, if the two parts parse to their very end. */
  ghost function Outputs(cb1: seq<Byte>, hole: int, cb2: seq<Byte>): Option<seq<Output>> {
    if |cb1| < 42 || |cb2| < 5 || hole < 0 || cb1[4] != 1 then None
    else
      var size := ReadCompact(cb1[41..]);
      if size.None? || size.value.value > 0x100 then None
      else
        var left := size.value.value - (|cb1| - 41 - size.value.used) - hole;
        if left < 0 || left + 4 > |cb2| then None else OutputsOf(cb2[left + 4..])
  }

  /** A list of outputs with four bytes behind it. */
  ghost function OutputsOf(x: seq<Byte>): Option<seq<Output>> {
    var count := ReadCompact(x);
    if count.None? || count.value.value == 0 || count.value.value > MAX_COUNT || count.value.used > |x| then None
    else
      var outs := ReadOutputs(x[count.value.used..], count.value.value);
      if outs.None? || |x| - count.value.used - outs.value.1 != 4 then None else Some(outs.value.0)
  }

  /** Output i is the largest of the first n, and larger than all before it. */
  ghost predicate LargestAt(outs: seq<Output>, n: nat, i: nat) {
    && i < n <= |outs| && Signed(outs[i].value) >= 0
    && (forall k :: 0 <= k < n ==> Signed(outs[k].value) <= Signed(outs[i].value))
    && (forall k :: 0 <= k < i ==> Signed(outs[k].value) < Signed(outs[i].value))
  }

  /** i is the first of the largest among the first n; none, n, if all are negative. */
  ghost predicate FirstLargest(outs: seq<Output>, n: nat, i: nat) {
    && i <= n <= |outs|
    && (i < n ==> LargestAt(outs, n, i))
    && (i == n ==> forall k :: 0 <= k < n ==> Signed(outs[k].value) < 0)
  }

  datatype Payout = Payout(count: nat, script: seq<Byte>, value: int)

  /** The chosen output, unless its script is empty or does not fit. */
  function Chosen(outs: seq<Output>, best: nat, room: nat): Option<Payout> {
    if best < |outs| && 1 <= |outs[best].script| <= room
    then Some(Payout(|outs|, outs[best].script, Signed(outs[best].value)))
    else None
  }

  method FindPayout(cb1: seq<Byte>, hole: int, cb2: seq<Byte>, room: nat) returns (r: Option<Payout>, ghost best: nat)
    ensures Outputs(cb1, hole, cb2).None? ==> r == None
    ensures Outputs(cb1, hole, cb2).Some? ==>
              var outs := Outputs(cb1, hole, cb2).value;
              && FirstLargest(outs, |outs|, best)
              && r == Chosen(outs, best, room)
    ensures Outputs(cb1, hole, cb2).Some? ==>
              var outs := Outputs(cb1, hole, cb2).value;
              && best <= |outs|
              && (r.Some? <==> best < |outs| && 1 <= |outs[best].script| <= room)
              && (r.Some? ==>
                    && r.value == Payout(|outs|, outs[best].script, Signed(outs[best].value))
                    && (forall k :: 0 <= k < |outs| ==> Signed(outs[k].value) <= r.value.value)
                    && (forall k :: 0 <= k < best ==> Signed(outs[k].value) < r.value.value))
  {
    hide ReadCompact, OutputsOf;
    r, best := None, 0;
    if |cb1| < 42 || |cb2| < 5 || hole < 0 {
      return;
    }
    if cb1[4] != 1 {
      return;
    }
    var size := ReadCompact(cb1[41..]);
    if size.None? || size.value.value > 0x100 {
      return;
    }
    var left := size.value.value - (|cb1| - 41 - size.value.used) - hole;
    if left < 0 || left + 4 > |cb2| {
      return;
    }
    r, best := Scan(cb2[left + 4..], room);
  }

  method Scan(x: seq<Byte>, room: nat) returns (r: Option<Payout>, ghost best: nat)
    ensures OutputsOf(x).None? ==> r == None
    ensures OutputsOf(x).Some? ==>
              var outs := OutputsOf(x).value;
              && FirstLargest(outs, |outs|, best)
              && r == Chosen(outs, best, room)
  {
    hide ReadCompact, ReadOutput, ReadOutputs, FirstLargest, Signed;
    r, best := None, 0;
    var count := ReadCompact(x);
    if count.None? || count.value.value == 0 || count.value.value > MAX_COUNT {
      return;
    }
    SizeFits(x);
    var base := count.value.used;
    var n := count.value.value;
    ghost var body := x[base..];
    NoOutputs(body);
    NoneLargest();
    var p, found, bestValue, bestScript := base, false, -1, [];
    ghost var outs: seq<Output> := [];
    for i := 0 to n
      invariant base <= p <= |x| && |outs| == i && best <= i && ReadOutputs(body, i) == Some((outs, p - base))
      invariant FirstLargest(outs, i, best) && (found <==> best < i)
      invariant found ==> bestValue == Signed(outs[best].value) && bestScript == outs[best].script
      invariant !found ==> bestValue == -1
    {
      assert x[p..] == body[p - base..];
      var o := ReadOutput(x[p..]);
      if o.None? {
        StopsHere(body, i, n);
        return;
      }
      OutputsSnoc(body, i);
      var value := Signed(o.value.output.value);
      LargestSoFar(outs, o.value.output, best);
      if value > bestValue {
        found, bestValue, bestScript := true, value, o.value.output.script;
        best := i;
      } else if !found {
        best := i + 1;
      }
      outs := outs + [o.value.output];
      p := p + o.value.used;
    }
    if |x| - p != 4 || !found || bestScript == [] || |bestScript| > room {
      return;
    }
    r := Some(Payout(n, bestScript, bestValue));
  }

  lemma NoneLargest()
    ensures FirstLargest([], 0, 0)
  {
  }

  lemma LargestSoFar(outs: seq<Output>, o: Output, best: nat)
    requires FirstLargest(outs, |outs|, best)
    ensures var n := |outs|;
            && (best < n && Signed(o.value) <= Signed(outs[best].value) ==> FirstLargest(outs + [o], n + 1, best))
            && (best < n && Signed(o.value) > Signed(outs[best].value) ==> FirstLargest(outs + [o], n + 1, n))
            && (best == n && Signed(o.value) > -1 ==> FirstLargest(outs + [o], n + 1, n))
            && (best == n && Signed(o.value) <= -1 ==> FirstLargest(outs + [o], n + 1, n + 1))
  {
    hide Signed;
  }

  // ----- on coinbases built here -----

  /** An outputs blob that reads to its end. */
  ghost predicate Lists(blob: seq<Byte>, outs: seq<Output>) {
    && blob != [] && ReadCompact(blob) == Some(Sized(|outs|, 1)) && 1 <= |outs| <= MAX_COUNT
    && ReadOutputs(blob[1..], |outs|) == Some((outs, |blob| - 1))
  }

  lemma ListsWithTail(blob: seq<Byte>, outs: seq<Output>, tail: seq<Byte>)
    requires Lists(blob, outs) && |tail| == 4
    ensures OutputsOf(blob + tail) == Some(outs)
  {
    hide ReadCompact, ReadOutputs;
    CompactIsLocal(blob, blob[1..] + tail);
    assert blob[..1] + (blob[1..] + tail) == blob + tail;
    OutputsAreLocal(blob[1..], |outs|, tail);
    assert (blob + tail)[1..] == blob[1..] + tail;
    assert blob[1..][..|blob| - 1] == blob[1..];
  }

  /** Wherever in the scriptSig the hole is cut out, both parts together parse to the outputs. */
  lemma SplitParses(version: nat, scriptSig: seq<Byte>, sequence: nat, blob: seq<Byte>, locktime: nat,
                    outs: seq<Output>, from: nat, hole: nat)
    requires |scriptSig| < 0xfd && Lists(blob, outs) && from + hole <= |scriptSig|
    ensures var c := Coinbase(version, scriptSig, sequence, blob, locktime);
            |c| >= 42 + |scriptSig| && Outputs(c[..42 + from], hole, c[42 + from + hole..]) == Some(outs)
  {
    hide Le, Header, ReadOutputs, OutputsOf, LeValue;
    var c := Coinbase(version, scriptSig, sequence, blob, locktime);
    var cb1, cb2 := c[..42 + from], c[42 + from + hole..];
    var n := |scriptSig|;
    assert c == Header(version) + ([n] + scriptSig + Le(sequence, 4) + blob + Le(locktime, 4));
    assert cb1[4] == Header(version)[4] && cb1[41] == n;
    assert ReadCompact(cb1[41..]) == Some(Sized(n, 1));
    var left := n - from - hole;
    assert c == (Header(version) + [n] + scriptSig + Le(sequence, 4)) + (blob + Le(locktime, 4));
    assert cb2[left + 4..] == c[46 + n..] == blob + Le(locktime, 4);
    ListsWithTail(blob, outs, Le(locktime, 4));
  }

  /** So a coinbase built from the pool's payouts pays, as far as this search can tell, the first
    * of its largest outputs. */
  lemma BuiltPays(w: Payouts, value: nat, commitment: Option<Output>, version: nat, scriptSig: seq<Byte>, sequence: nat,
                  locktime: nat, from: nat, hole: nat)
    requires Walked(w) && Sum(w.outs[1..]) <= value < U64
    requires commitment.Some? ==> commitment.value.value < U64 && Payable(commitment.value)
    requires |scriptSig| < 0xfd && from + hole <= |scriptSig|
    ensures var c := Coinbase(version, scriptSig, sequence, Built(w, value, BytesOf(commitment)), locktime);
            |c| >= 42 + |scriptSig| &&
            Outputs(c[..42 + from], hole, c[42 + from + hole..]) == Some(Shared(w.outs, value) + TailOf(commitment))
  {
    hide ReadCompact, ReadOutputs, Built, Coinbase, Sum, BytesOf;
    FirstPayable(w);
    BuiltReads(w, value, commitment);
    var blob := Built(w, value, BytesOf(commitment));
    SplitParses(version, scriptSig, sequence, blob, locktime, Shared(w.outs, value) + TailOf(commitment), from, hole);
  }
}

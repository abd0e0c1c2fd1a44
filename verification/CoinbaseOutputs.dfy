/** The output list of a declared coinbase (`src/sv2_cb.c`): the pool's payouts are walked, the
  * first takes what the fixed ones leave of the reward, and a witness commitment is added.
  */
module CoinbaseOutputs {
  import opened Basics
  import opened TxBytes

  const MAX_OUTS := 16

  ghost predicate AllPayable(outs: seq<Output>) {
    forall i :: 0 <= i < |outs| ==> Payable(outs[i])
  }

  /** An empty script pays nobody, and a long one is no payout. */
  predicate Payable(o: Output) {
    1 <= |o.script| <= 255
  }

  // The payouts of a blob: the outputs, and the bytes of all but the first.
  datatype Payouts = Payouts(outs: seq<Output>, rest: seq<Byte>)

  /** `walk_outputs`; what follows the last output is not looked at. */
  ghost function Walk(blob: seq<Byte>): Option<Payouts> {
    var size := ReadCompact(blob);
    if size.None? || size.value.value < 1 || size.value.value > MAX_OUTS || size.value.used > |blob| then None
    else
      var x := blob[size.value.used..];
      var first, all := ReadOutput(x), ReadOutputs(x, size.value.value);
      if all.None? || first.None? || !AllPayable(all.value.0) || |all.value.0| < 1 || Sum(all.value.0[1..]) >= U64 then None
      else if first.value.used > all.value.1 || all.value.1 > |x| then None
      else Some(Payouts(all.value.0, x[first.value.used..all.value.1]))
  }

  lemma {:induction false} SumOfPrefix(outs: seq<Output>, i: nat)
    requires i <= |outs|
    ensures Sum(outs[..i]) <= Sum(outs)
  {
    SumOfJoin(outs[..i], outs[i..]);
    assert outs[..i] + outs[i..] == outs;
  }

  /** `read_output`. */
  method ReadPayout(blob: seq<Byte>, p: nat) returns (ok: bool, o: Output, p': nat)
    requires p <= |blob|
    ensures ok <==> ReadOutput(blob[p..]).Some? && Payable(ReadOutput(blob[p..]).value.output)
    ensures ok ==> o == ReadOutput(blob[p..]).value.output && p' == p + ReadOutput(blob[p..]).value.used <= |blob|
  {
    hide LeValue, ReadCompact;
    var x := blob[p..];
    ok, o, p' := false, Output(0, []), p;
    if |x| < 8 {
      return;
    }
    var size := ReadCompact(x[8..]);
    if size.None? || size.value.value > 255 || 8 + size.value.used + size.value.value > |x| || size.value.value == 0 {
      return;
    }
    var from := 8 + size.value.used;
    ok, o, p' := true, Output(LeValue(x[..8]), x[from..from + size.value.value]), p + from + size.value.value;
  }

  /** The first i outputs of x as the walk has them: payable, and the fixed values add up so far. */
  ghost predicate Walking(x: seq<Byte>, i: nat, at: nat, first: Output, fixed: nat) {
    && ReadOutputs(x, i).Some? && at == ReadOutputs(x, i).value.1 <= |x|
    && var outs := ReadOutputs(x, i).value.0;
    && |outs| == i >= 1 && outs[0] == first && AllPayable(outs) && fixed == Sum(outs[1..]) < U64
  }

  lemma WalkStarts(x: seq<Byte>)
    requires ReadOutput(x).Some? && Payable(ReadOutput(x).value.output)
    ensures ReadOutput(x).value.used <= |x|
    ensures Walking(x, 1, ReadOutput(x).value.used, ReadOutput(x).value.output, 0)
  {
    hide ReadOutput, ReadOutputs, Sum, AllPayable;
    NoOutputs(x);
    assert x[0..] == x;
    OutputsSnoc(x, 0);
    FirstAlone(ReadOutput(x).value.output);
    assert [] + [ReadOutput(x).value.output] == [ReadOutput(x).value.output];
  }

  lemma WalkNext(x: seq<Byte>, i: nat, n: nat, at: nat, first: Output, fixed: nat)
    requires i < n && Walking(x, i, at, first, fixed)
    requires ReadOutput(x[at..]).Some? && Payable(ReadOutput(x[at..]).value.output)
    ensures var o := ReadOutput(x[at..]).value;
            && (fixed + o.output.value < U64 ==> Walking(x, i + 1, at + o.used, first, fixed + o.output.value))
            && (fixed + o.output.value >= U64 ==>
                  (ReadOutputs(x, n).Some? ==> |ReadOutputs(x, n).value.0| == n && Sum(ReadOutputs(x, n).value.0[1..]) >= U64))
  {
    hide ReadOutput, ReadOutputs, Sum, AllPayable;
    var outs, v := ReadOutputs(x, i).value.0, ReadOutput(x[at..]).value.output;
    OutputsSnoc(x, i);
    assert (outs + [v])[1..] == outs[1..] + [v];
    SumSnoc(outs[1..], v);
    OneMorePayable(outs, v);
    if fixed + v.value >= U64 {
      WalkOverflowsAt(x, i + 1, n);
    }
  }

  lemma WalkStops(x: seq<Byte>, i: nat, n: nat, at: nat, first: Output, fixed: nat)
    requires i < n && Walking(x, i, at, first, fixed)
    requires ReadOutput(x[at..]).None? || !Payable(ReadOutput(x[at..]).value.output)
    ensures ReadOutputs(x, n).None? || !AllPayable(ReadOutputs(x, n).value.0)
  {
    hide ReadOutput, ReadOutputs, Sum, AllPayable;
    WalkFailsAt(x, i, n);
  }

  /** x begins with n outputs that pay, their fixed values in range. */
  ghost predicate PaysOut(x: seq<Byte>, n: nat) {
    && ReadOutputs(x, n).Some? && AllPayable(ReadOutputs(x, n).value.0) && |ReadOutputs(x, n).value.0| >= 1
    && Sum(ReadOutputs(x, n).value.0[1..]) < U64
  }

  /** The loop of `walk_outputs`, behind the count. */
  method WalkList(blob: seq<Byte>, base: nat, nout: nat) returns (ok: bool, first: Output, from: nat, to: nat, fixed: nat)
    requires base <= |blob| && nout >= 1
    ensures ok <==> PaysOut(blob[base..], nout)
    ensures ok ==> ReadOutput(blob[base..]).Some? && base <= from <= to <= |blob|
    ensures ok ==> from == base + ReadOutput(blob[base..]).value.used && Walking(blob[base..], nout, to - base, first, fixed)
  {
    hide ReadOutput, AllPayable, Sum, ReadOutputs, Walking;
    ok, first, from, to, fixed := false, Output(0, []), 0, 0, 0;
    ghost var x := blob[base..];
    FirstReads(x, nout);
    var got, p;
    got, first, p := ReadPayout(blob, base);
    if !got {
      return;
    }
    WalkStarts(x);
    from := p;
    for i := 1 to nout
      invariant from <= p <= |blob|
      invariant Walking(x, i, p - base, first, fixed)
    {
      var v;
      ghost var at := p - base;
      assert blob[p..] == x[at..];
      got, v, p := ReadPayout(blob, p);
      if !got {
        WalkStops(x, i, nout, at, first, fixed);
        return;
      }
      WalkNext(x, i, nout, at, first, fixed);
      if v.value > U64 - 1 - fixed {
        return;
      }
      fixed := fixed + v.value;
    }
    to := p;
    ok := true;
    WalkEnds(x, nout, to - base, first, fixed);
  }

  lemma WalkIs(blob: seq<Byte>)
    ensures var size := ReadCompact(blob);
            && (size.None? || size.value.value < 1 || size.value.value > MAX_OUTS ==> Walk(blob).None?)
            && (size.Some? && 1 <= size.value.value <= MAX_OUTS ==>
                  && size.value.used <= |blob|
                  && (Walk(blob).Some? <==> PaysOut(blob[size.value.used..], size.value.value)))
  {
    hide ReadCompact, ReadOutput, Sum, AllPayable;
    if ReadCompact(blob).Some? {
      SizeFits(blob);
      var x, n := blob[ReadCompact(blob).value.used..], ReadCompact(blob).value.value;
      if n >= 1 && ReadOutputs(x, n).Some? {
        OutputsAreLocal(x, n, []);
      }
    }
  }

  method WalkOutputs(blob: seq<Byte>) returns (ok: bool, nout: nat, first: Output, from: nat, to: nat, fixed: nat)
    ensures ok <==> Walk(blob).Some?
    ensures ok ==>
              var w := Walk(blob).value;
              && |w.outs| == nout >= 1 && first == w.outs[0] && fixed == Sum(w.outs[1..])
              && from <= to <= |blob| && w.rest == blob[from..to]
  {
    hide ReadCompact, ReadOutput, Walk, Walking, PaysOut, Sum;
    ok, nout, first, from, to, fixed := false, 0, Output(0, []), 0, 0, 0;
    WalkIs(blob);
    var size := ReadCompact(blob);
    if size.None? {
      return;
    }
    nout := size.value.value;
    if nout < 1 || nout > MAX_OUTS {
      return;
    }
    ok, first, from, to, fixed := WalkList(blob, size.value.used, nout);
    if ok {
      WalkFinds(blob, from, to, first, fixed);
    }
  }

  lemma WalkFinds(blob: seq<Byte>, from: nat, to: nat, first: Output, fixed: nat)
    requires ReadCompact(blob).Some? && Walk(blob).Some?
    requires ReadCompact(blob).value.used <= from <= to <= |blob|
    requires ReadOutput(blob[ReadCompact(blob).value.used..]).Some?
    requires from == ReadCompact(blob).value.used + ReadOutput(blob[ReadCompact(blob).value.used..]).value.used
    requires Walking(blob[ReadCompact(blob).value.used..], ReadCompact(blob).value.value, to - ReadCompact(blob).value.used, first, fixed)
    ensures var w := Walk(blob).value;
            && |w.outs| == ReadCompact(blob).value.value >= 1 && first == w.outs[0] && fixed == Sum(w.outs[1..])
            && w.rest == blob[from..to]
  {
    hide ReadCompact, ReadOutput, ReadOutputs, Sum, AllPayable;
    var base := ReadCompact(blob).value.used;
    assert blob[base..][from - base..to - base] == blob[from..to];
  }

  lemma WalkEnds(x: seq<Byte>, n: nat, at: nat, first: Output, fixed: nat)
    requires Walking(x, n, at, first, fixed)
    ensures ReadOutputs(x, n).Some? && at == ReadOutputs(x, n).value.1 <= |x|
    ensures var outs := ReadOutputs(x, n).value.0;
            |outs| == n >= 1 && outs[0] == first && AllPayable(outs) && fixed == Sum(outs[1..]) < U64
  {
    hide ReadOutputs, Sum, AllPayable;
  }

  /** A list whose first output does not read, or does not pay, is no list of payouts. */
  lemma FirstReads(x: seq<Byte>, n: nat)
    requires n >= 1
    ensures ReadOutput(x).None? || !Payable(ReadOutput(x).value.output) ==>
              ReadOutputs(x, n).None? || !AllPayable(ReadOutputs(x, n).value.0)
  {
    hide ReadOutput, ReadOutputs, AllPayable;
    NoOutputs(x);
    assert x[0..] == x;
    WalkFailsAt(x, 0, n);
  }

  lemma FirstAlone(o: Output)
    requires Payable(o)
    ensures AllPayable([o]) && Sum([o][1..]) == 0
  {
    assert [o][1..] == [];
  }

  lemma OneMorePayable(outs: seq<Output>, o: Output)
    ensures AllPayable(outs + [o]) <==> AllPayable(outs) && Payable(o)
  {
    if AllPayable(outs + [o]) {
      assert (outs + [o])[|outs|] == o;
      assert forall i :: 0 <= i < |outs| ==> (outs + [o])[i] == outs[i];
    }
  }

  /** A list of which the i-th output does not read, or does not pay, is no list of payouts. */
  lemma WalkFailsAt(x: seq<Byte>, i: nat, n: nat)
    requires i < n && ReadOutputs(x, i).Some? && ReadOutputs(x, i).value.1 <= |x|
    ensures var r := ReadOutput(x[ReadOutputs(x, i).value.1..]);
            r.None? || !Payable(r.value.output) ==> ReadOutputs(x, n).None? || !AllPayable(ReadOutputs(x, n).value.0)
  {
    hide ReadOutput, ReadOutputs;
    if ReadOutputs(x, n).Some? {
      OutputsPrefix(x, i, n);
    }
  }

  /** Nor is one whose fixed values are out of range early. */
  lemma WalkOverflowsAt(x: seq<Byte>, i: nat, n: nat)
    requires 1 <= i <= n && ReadOutputs(x, i).Some? && |ReadOutputs(x, i).value.0| == i
    requires Sum(ReadOutputs(x, i).value.0[1..]) >= U64
    ensures ReadOutputs(x, n).Some? ==> |ReadOutputs(x, n).value.0| == n && Sum(ReadOutputs(x, n).value.0[1..]) >= U64
  {
    hide ReadOutput, ReadOutputs, Sum;
    if ReadOutputs(x, n).Some? && i < n {
      OutputsPrefix(x, i, n);
      var all := ReadOutputs(x, n).value.0;
      assert all[..i][1..] == all[1..][..i - 1];
      SumOfPrefix(all[1..], i - 1);
    }
  }

  // ----- the outputs of a declared coinbase -----

  /** The outputs a coinbase worth `value` should have: the first payout takes the remainder. */
  function Shared(outs: seq<Output>, value: nat): seq<Output>
    requires |outs| >= 1 && Sum(outs[1..]) <= value
  {
    [Output(value - Sum(outs[1..]), outs[0].script)] + outs[1..]
  }

  /** What a walk finds: payable outputs, and the bytes all but the first are read from. */
  ghost predicate Walked(w: Payouts) {
    && 1 <= |w.outs| <= MAX_OUTS && AllPayable(w.outs)
    && ReadOutputs(w.rest, |w.outs| - 1) == Some((w.outs[1..], |w.rest|))
  }

  lemma WalkShape(blob: seq<Byte>)
    requires Walk(blob).Some?
    ensures Walked(Walk(blob).value)
  {
    hide ReadCompact, ReadOutput, AllPayable, Sum;
    SizeFits(blob);
    var w, base := Walk(blob).value, ReadCompact(blob).value.used;
    var x, n := blob[base..], ReadCompact(blob).value.value;
    OutputsAreLocal(x, n, []);
    var u := ReadOutput(x).value.used;
    OutputIsLocal(x, []);
    OutputsAreLocal(x[u..], n - 1, []);
    var tail := ReadOutputs(x[u..], n - 1).value;
    assert ([ReadOutput(x).value.output] + tail.0)[1..] == tail.0;
    assert x[u..][..tail.1] + [] == w.rest;
  }

  /** The bytes of `sv2_cb_build_outputs`: all but the first output are copied as they came. */
  ghost function Built(w: Payouts, value: nat, commitment: seq<Byte>): seq<Byte>
    requires Walked(w) && Sum(w.outs[1..]) <= value < U64
  {
    assert Payable(w.outs[0]);
    Compact(|w.outs| + if commitment == [] then 0 else 1)
    + WriteOutput(Output(value - Sum(w.outs[1..]), w.outs[0].script)) + w.rest + commitment
  }

  /** The blob is well formed and asks for no more than the block is worth. */
  ghost predicate Honoured(blob: seq<Byte>, value: nat) {
    Walk(blob).Some? && Walked(Walk(blob).value) && Sum(Walk(blob).value.outs[1..]) <= value
  }

  method BuildOutputs(blob: seq<Byte>, value: nat, commitment: seq<Byte>, room: nat) returns (out: Option<seq<Byte>>)
    requires value < U64
    ensures out.Some? <==> Honoured(blob, value) && |Built(Walk(blob).value, value, commitment)| <= room
    ensures out.Some? ==> out.value == Built(Walk(blob).value, value, commitment)
  {
    hide Walk, Sum, Le, Compact, Walked;
    var ok, nout, first, from, to, fixed := WalkOutputs(blob);
    if !ok {
      return None;
    }
    WalkShape(blob);
    if fixed > value {
      return None;
    }
    ghost var w := Walk(blob).value;
    FirstPayable(w);
    var total := nout + if commitment == [] then 0 else 1;
    var script := first.script;
    var need := |Compact(total)| + 8 + |Compact(|script|)| + |script| + (to - from) + |commitment|;
    assert |Built(w, value, commitment)| == need;
    if need > room {
      return None;
    }
    var p := Compact(total);
    p := p + (Le(value - fixed, 8) + Compact(|script|) + script);
    p := p + blob[from..to];
    p := p + commitment;
    return Some(p);
  }

  lemma FirstPayable(w: Payouts)
    requires Walked(w)
    ensures 1 <= |w.outs| <= MAX_OUTS && Payable(w.outs[0])
  {
  }

  /** `sv2_cb_output_at`. */
  ghost function OutputAt(blob: seq<Byte>, idx: int): Option<Output> {
    var size := ReadCompact(blob);
    if size.None? || size.value.value < 1 || size.value.value > MAX_OUTS || idx < 0 || idx >= size.value.value then None
    else if size.value.used > |blob| then None
    else
      var outs := ReadOutputs(blob[size.value.used..], idx + 1);
      if outs.None? || !AllPayable(outs.value.0) || |outs.value.0| != idx + 1 then None else Some(outs.value.0[idx])
  }

  method FindOutput(blob: seq<Byte>, idx: int) returns (o: Option<Output>)
    ensures o == OutputAt(blob, idx)
  {
    hide ReadCompact, ReadOutput, AllPayable, ReadOutputs;
    o := None;
    var size := ReadCompact(blob);
    if size.None? || size.value.value < 1 || size.value.value > MAX_OUTS || idx < 0 || idx >= size.value.value {
      return;
    }
    SizeFits(blob);
    var base := size.value.used;
    ghost var x := blob[base..];
    NoOutputs(x);
    NonePayable();
    var p := base;
    for i := 0 to idx
      invariant base <= p <= |blob|
      invariant ReadOutputs(x, i).Some? && p - base == ReadOutputs(x, i).value.1
      invariant |ReadOutputs(x, i).value.0| == i && AllPayable(ReadOutputs(x, i).value.0)
    {
      assert blob[p..] == x[p - base..];
      WalkFailsAt(x, i, idx + 1);
      ghost var outs := ReadOutputs(x, i).value.0;
      var got, v;
      got, v, p := ReadPayout(blob, p);
      if !got {
        return;
      }
      OutputsSnoc(x, i);
      OneMorePayable(outs, v);
    }
    assert blob[p..] == x[p - base..];
    WalkFailsAt(x, idx, idx + 1);
    ghost var outs := ReadOutputs(x, idx).value.0;
    var got, v, q := ReadPayout(blob, p);
    if got {
      OutputsSnoc(x, idx);
      OneMorePayable(outs, v);
      o := Some(v);
    }
  }

  lemma NonePayable()
    ensures AllPayable([])
  {
  }

  function TailOf(commitment: Option<Output>): seq<Output> {
    if commitment.Some? then [commitment.value] else []
  }

  function BytesOf(commitment: Option<Output>): seq<Byte>
    requires commitment.Some? ==> commitment.value.value < U64 && Payable(commitment.value)
  {
    if commitment.Some? then WriteOutput(commitment.value) else []
  }

  lemma TailReads(commitment: Option<Output>)
    requires commitment.Some? ==> commitment.value.value < U64 && Payable(commitment.value)
    ensures ReadOutputs(BytesOf(commitment), |TailOf(commitment)|) == Some((TailOf(commitment), |BytesOf(commitment)|))
    ensures BytesOf(commitment) == [] <==> commitment.None?
    ensures AllPayable(TailOf(commitment))
  {
    hide Le, Compact, ReadOutput;
    if commitment.Some? {
      var bytes := WriteOutput(commitment.value);
      OutputReadsBack(commitment.value, []);
      assert bytes + [] == bytes;
      OneOutput(bytes);
    }
  }

  /** Three stretches of outputs read as one. */
  lemma ThreeJoin(a: seq<Byte>, i: nat, b: seq<Byte>, j: nat, c: seq<Byte>, k: nat, x: seq<Output>, y: seq<Output>, z: seq<Output>)
    requires ReadOutputs(a, i) == Some((x, |a|)) && ReadOutputs(b, j) == Some((y, |b|)) && ReadOutputs(c, k) == Some((z, |c|))
    ensures ReadOutputs(a + b + c, i + j + k) == Some((x + y + z, |a + b + c|))
  {
    hide ReadOutputs;
    TwoJoin(a, i, b, j, x, y);
    TwoJoin(a + b, i + j, c, k, x + y, z);
  }

  lemma TwoJoin(a: seq<Byte>, i: nat, b: seq<Byte>, j: nat, x: seq<Output>, y: seq<Output>)
    requires ReadOutputs(a, i) == Some((x, |a|)) && ReadOutputs(b, j) == Some((y, |b|))
    ensures ReadOutputs(a + b, i + j) == Some((x + y, |a + b|))
  {
    hide ReadOutputs;
    OutputsAreLocal(a, i, b);
    assert a[..|a|] == a && (a + b)[|a|..] == b;
    OutputsJoin(a + b, i, j);
  }

  /** What is built reads back: the pool's scripts in order, the remainder on the first, the pool's
    * amounts on the rest, then the commitment. */
  lemma BuiltReads(w: Payouts, value: nat, commitment: Option<Output>)
    requires Walked(w) && Sum(w.outs[1..]) <= value < U64
    requires commitment.Some? ==> commitment.value.value < U64 && Payable(commitment.value)
    ensures var built := Built(w, value, BytesOf(commitment));
            var n := |w.outs| + |TailOf(commitment)|;
            && ReadCompact(built) == Some(Sized(n, 1)) && |built| > 1
            && ReadOutputs(built[1..], n) == Some((Shared(w.outs, value) + TailOf(commitment), |built| - 1))
  {
    hide Le, Sum, ReadOutputs, ReadOutput, ReadCompact, AllPayable, BytesOf;
    FirstPayable(w);
    TailReads(commitment);
    var first := Output(value - Sum(w.outs[1..]), w.outs[0].script);
    var n := |w.outs| + |TailOf(commitment)|;
    var head, bytes := WriteOutput(first), BytesOf(commitment);
    var built := Built(w, value, bytes);
    OutputReadsBack(first, []);
    assert head + [] == head;
    OneOutput(head);
    ThreeJoin(head, 1, w.rest, |w.outs| - 1, bytes, |TailOf(commitment)|, [first], w.outs[1..], TailOf(commitment));
    CompactReadsBack(n, head + w.rest + bytes);
    assert built == Compact(n) + (head + w.rest + bytes);
    assert built[1..] == head + w.rest + bytes;
    assert Shared(w.outs, value) + TailOf(commitment) == [first] + w.outs[1..] + TailOf(commitment);
  }

  /** `sv2_cb_output_at` returns every output built, exactly as long as the commitment does not
    * make them more than a list may have. */
  lemma BuiltReadsBack(w: Payouts, value: nat, commitment: Option<Output>, idx: nat)
    requires Walked(w) && Sum(w.outs[1..]) <= value < U64
    requires commitment.Some? ==> commitment.value.value < U64 && Payable(commitment.value)
    requires idx < |w.outs| + |TailOf(commitment)|
    ensures var outs := Shared(w.outs, value) + TailOf(commitment);
            |outs| == |w.outs| + |TailOf(commitment)| &&
            OutputAt(Built(w, value, BytesOf(commitment)), idx)
            == if |outs| <= MAX_OUTS then Some(outs[idx]) else None
  {
    hide ReadCompact, ReadOutputs, Built, BytesOf, Sum;
    BuiltReads(w, value, commitment);
    TailReads(commitment);
    var outs := Shared(w.outs, value) + TailOf(commitment);
    var built, n := Built(w, value, BytesOf(commitment)), |outs|;
    SharedPayable(w.outs, value);
    if idx + 1 < n {
      OutputsPrefix(built[1..], idx + 1, n);
      assert outs[..idx + 1][idx] == outs[idx];
    }
    forall i | 0 <= i < |outs| ensures Payable(outs[i]) {
      if i >= |w.outs| {
        assert outs[i] == TailOf(commitment)[i - |w.outs|];
      }
    }
  }

  lemma SharedPayable(outs: seq<Output>, value: nat)
    requires |outs| >= 1 && AllPayable(outs) && Sum(outs[1..]) <= value
    ensures AllPayable(Shared(outs, value)) && |Shared(outs, value)| == |outs|
  {
    assert Payable(outs[0]);
    assert forall i :: 1 <= i < |outs| ==> Shared(outs, value)[i] == outs[i];
  }

  /** With a commitment of no value, the outputs add up to exactly the reward. */
  lemma RewardIsConserved(w: Payouts, value: nat, commitment: Option<Output>)
    requires Walked(w) && Sum(w.outs[1..]) <= value < U64 && (commitment.Some? ==> commitment.value.value == 0)
    ensures Sum(Shared(w.outs, value) + TailOf(commitment)) == value
    ensures forall i :: 0 <= i < |w.outs| ==> Shared(w.outs, value)[i].script == w.outs[i].script
    ensures forall i :: 1 <= i < |w.outs| ==> Shared(w.outs, value)[i] == w.outs[i]
  {
    var first := [Output(value - Sum(w.outs[1..]), w.outs[0].script)];
    SumOfJoin(first + w.outs[1..], TailOf(commitment));
    SumOfJoin(first, w.outs[1..]);
    assert first[1..] == [] && (commitment.Some? ==> TailOf(commitment)[1..] == []);
  }

  // ----- one output too many -----

  const ONE_BYTE_SCRIPT := Output(0, [0x51])

  function Row(k: nat): seq<Output> {
    seq(k, _ => ONE_BYTE_SCRIPT)
  }

  lemma {:induction false} RowReads(k: nat) returns (bytes: seq<Byte>)
    ensures ReadOutputs(bytes, k) == Some((Row(k), |bytes|))
  {
    hide ReadOutput, ReadOutputs;
    if k == 0 {
      bytes := [];
      NoOutputs([]);
      assert Row(0) == [];
    } else {
      var rest := RowReads(k - 1);
      var one := OneReads();
      TwoJoin(one, 1, rest, k - 1, [ONE_BYTE_SCRIPT], Row(k - 1));
      bytes := one + rest;
      assert Row(k) == [ONE_BYTE_SCRIPT] + Row(k - 1);
    }
  }

  lemma OneReads() returns (bytes: seq<Byte>)
    ensures ReadOutputs(bytes, 1) == Some(([ONE_BYTE_SCRIPT], |bytes|))
  {
    hide ReadOutput, Le, Compact;
    bytes := WriteOutput(ONE_BYTE_SCRIPT);
    OutputReadsBack(ONE_BYTE_SCRIPT, []);
    assert bytes + [] == bytes;
    OneOutput(bytes);
  }

  lemma {:induction false} RowIsFree(k: nat)
    ensures Sum(Row(k)) == 0
  {
    if k > 0 {
      RowIsFree(k - 1);
      assert Row(k)[1..] == Row(k - 1);
    }
  }

  /** Sixteen payouts of that kind are a blob the walk takes. */
  lemma SixteenWalk() returns (blob: seq<Byte>)
    ensures Walk(blob).Some? && Walk(blob).value.outs == Row(16)
  {
    hide Le, Sum, ReadCompact, ReadOutput;
    var x := RowReads(16);
    RowIsFree(15);
    assert Row(16)[1..] == Row(15);
    CompactReadsBack(16, x);
    blob := Compact(16) + x;
    assert blob[1..] == x;
    FirstFits(x, 16);
  }

  lemma FirstFits(x: seq<Byte>, n: nat)
    requires n >= 1 && ReadOutputs(x, n).Some? && ReadOutputs(x, n).value.1 <= |x|
    ensures ReadOutput(x).Some? && ReadOutput(x).value.used <= ReadOutputs(x, n).value.1
  {
    hide ReadOutput;
  }

  /** A pool that asks for sixteen outputs gets a list its own reader refuses, if there is a
    * commitment: the blob is honoured, and none of the outputs built of it is found again. */
  lemma SixteenAndACommitment(value: nat, idx: nat) returns (blob: seq<Byte>, commitment: Option<Output>)
    requires value < U64 && idx <= 16
    ensures Honoured(blob, value) && |Walk(blob).value.outs| == 16
    ensures commitment.Some? && commitment.value.value == 0 && Payable(commitment.value)
    ensures OutputAt(Built(Walk(blob).value, value, BytesOf(commitment)), idx) == None
  {
    hide ReadOutputs, ReadCompact, Built, BytesOf, OutputAt, Sum, Walk;
    blob := SixteenWalk();
    commitment := Some(ONE_BYTE_SCRIPT);
    RowIsFree(15);
    assert Row(16)[1..] == Row(15);
    WalkShape(blob);
    BuiltReadsBack(Walk(blob).value, value, commitment, idx);
  }

  // ----- the blobs that are honoured -----

  lemma PayablesWalk(outs: seq<Output>)
    requires forall o :: o in outs ==> 1 <= |o.script| <= 255
    ensures AllPayable(outs)
  {
  }

  /** One to sixteen payouts, each with a script of 1 to 255 bytes, whose fixed amounts fit 64 bits, are walked
    * as they were written, whatever follows them. */
  lemma WrittenWalks(outs: seq<Output>, y: seq<Byte>)
    requires 1 <= |outs| <= 16 && forall o :: o in outs ==> o.value < U64 && 1 <= |o.script| <= 255
    requires Sum(outs[1..]) < U64
    ensures Walk(Compact(|outs|) + WriteOutputs(outs) + y) == Some(Payouts(outs, WriteOutputs(outs[1..])))
  {
    hide Le, LeValue, Compact, ReadCompact, ReadOutput, ReadOutputs, WriteOutput, WriteOutputs, Sum, AllPayable, Walk;
    var size, all, first, rest := Compact(|outs|), WriteOutputs(outs), WriteOutput(outs[0]), WriteOutputs(outs[1..]);
    FirstWritten(outs);
    Pieces(size, all, first, rest, y);
    CompactReadsBack(|outs|, all + y);
    OutputsReadBack(outs);
    OutputsAreLocal(all, |outs|, y);
    OutputReadsBack(outs[0], rest + y);
    PayablesWalk(outs);
    WalkMade(size + all + y, Sized(|outs|, |size|), outs, |all|, SizedOutput(outs[0], |first|));
  }

  lemma FirstWritten(outs: seq<Output>)
    requires outs != [] && forall o :: o in outs ==> o.value < U64 && |o.script| < U64
    ensures WriteOutputs(outs) == WriteOutput(outs[0]) + WriteOutputs(outs[1..])
  {
  }

  lemma Pieces(size: seq<Byte>, all: seq<Byte>, first: seq<Byte>, rest: seq<Byte>, y: seq<Byte>)
    requires all == first + rest
    ensures size + all + y == size + (all + y) && (size + all + y)[|size|..] == all + y
    ensures all[..|all|] + y == all + y == first + (rest + y) && (all + y)[|first|..|all|] == rest
  {
  }

  lemma WalkMade(blob: seq<Byte>, size: Sized, outs: seq<Output>, total: nat, first: SizedOutput)
    requires ReadCompact(blob) == Some(size) && 1 <= size.value <= 16 && size.used <= |blob|
    requires ReadOutputs(blob[size.used..], size.value) == Some((outs, total))
    requires ReadOutput(blob[size.used..]) == Some(first)
    requires AllPayable(outs) && |outs| >= 1 && Sum(outs[1..]) < U64 && first.used <= total <= |blob| - size.used
    ensures Walk(blob) == Some(Payouts(outs, blob[size.used..][first.used..total]))
  {
    hide ReadCompact, ReadOutput, ReadOutputs, Sum, AllPayable;
  }

  /** And honoured exactly if the fixed amounts come to no more than the block is worth. */
  lemma WrittenIsHonoured(outs: seq<Output>, y: seq<Byte>, value: nat)
    requires 1 <= |outs| <= 16 && forall o :: o in outs ==> o.value < U64 && 1 <= |o.script| <= 255
    requires Sum(outs[1..]) < U64
    ensures Honoured(Compact(|outs|) + WriteOutputs(outs) + y, value) <==> Sum(outs[1..]) <= value
  {
    hide Walk, Sum, Walked, Compact;
    WrittenWalks(outs, y);
    WalkShape(Compact(|outs|) + WriteOutputs(outs) + y);
  }

  /** Nothing else is walked. */
  lemma WalkedPays(blob: seq<Byte>)
    requires Walk(blob).Some?
    ensures var outs := Walk(blob).value.outs;
            1 <= |outs| <= 16 && (forall o :: o in outs ==> 1 <= |o.script| <= 255) && Sum(outs[1..]) < U64
  {
    hide LeValue, ReadCompact, ReadOutput, ReadOutputs, Sum;
    var size := ReadCompact(blob).value;
    OutputsAreLocal(blob[size.used..], size.value, []);
  }
}

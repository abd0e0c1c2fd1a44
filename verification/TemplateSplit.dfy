/** Which jobs the coinbase template can be made of (`splitCoinb2` in `api/coinbase_template.go`): a coinb2
  * splits exactly if it is written in the pool's layout, and then into the parts of that layout.
  */
module TemplateSplit {
  import opened Basics
  import opened CoinbaseTemplate
  import opened TxBytes

  const SEQUENCE: seq<Byte> := [0xff, 0xff, 0xff, 0xff]

  // The parts a coinb2 is written of.
  datatype Parts = Parts(push: seq<Byte>, count: seq<Byte>, value: seq<Byte>, script: seq<Byte>, others: seq<Byte>,
                         locktime: seq<Byte>)

  function Written(p: Parts): seq<Byte>
    requires |p.script| < 256
  {
    p.push + SEQUENCE + p.count + p.value + [|p.script|] + p.script + p.others + p.locktime
  }

  /** The scriptSig length that coinb1 declares leaves n bytes to coinb2. */
  predicate Leaves(coinb1: seq<Byte>, en1: nat, en2: nat, n: nat) {
    && |coinb1| > 41 && ReadCompact(coinb1[41..]).Some?
    && var size := ReadCompact(coinb1[41..]).value;
    size.value + 41 + size.used == |coinb1| + en1 + en2 + n
  }

  /** A push of the scriptSig with its length byte, or nothing; a sequence number; one to three outputs, the
    * script of the first with its length in one byte; a lock time. */
  predicate Shaped(p: Parts) {
    && (p.push != [] ==> p.push[0] == |p.push| - 1)
    && |p.value| == 8 && 1 <= |p.script| < 256 && |p.locktime| == 4
    && ReadCompact(p.count).Some? && ReadCompact(p.count).value.used == |p.count|
    && var n := ReadCompact(p.count).value.value;
    && 1 <= n <= 3 && ReadOutputs(p.others, n - 1).Some? && ReadOutputs(p.others, n - 1).value.1 == |p.others|
  }

  function Cut(p: Parts): Split {
    Split(p.push + SEQUENCE + p.count + p.value, p.script, p.others + p.locktime)
  }

  // ----- what is shaped splits -----

  lemma ShapedEnds(others: seq<Byte>, k: nat, locktime: seq<Byte>)
    requires ReadOutputs(others, k).Some? && ReadOutputs(others, k).value.1 == |others| && |locktime| == 4
    ensures EndsInLocktime(others + locktime, k)
  {
    hide ReadOutputs;
    OutputsAreLocal(others, k, locktime);
    assert others[..|others|] == others;
  }

  lemma ShapedPayee(p: Parts)
    requires Shaped(p)
    ensures Payee(Written(p), |p.push| + 4) == Some(Cut(p))
  {
    hide ReadCompact, ReadOutputs, EndsInLocktime;
    var x := Written(p);
    var at := |p.push| + 4;
    var n := ReadCompact(p.count).value.value;
    var rest := p.value + [|p.script|] + p.script + p.others + p.locktime;
    CompactIsLocal(p.count, rest);
    assert p.count[..|p.count|] == p.count;
    assert x[at..] == p.count + rest;
    var head := p.push + SEQUENCE + p.count + p.value;
    var tail := p.others + p.locktime;
    assert x == head + [|p.script|] + p.script + tail;
    PartsAround(head, p.script, tail);
    ShapedEnds(p.others, n - 1, p.locktime);
  }

  lemma PartsAround(head: seq<Byte>, script: seq<Byte>, tail: seq<Byte>)
    requires |script| < 256
    ensures var x := head + [|script|] + script + tail;
            var at := |head|;
            && at + 1 + |script| <= |x| && x[..at] == head && x[at] == |script|
            && x[at + 1..at + 1 + |script|] == script && x[at + 1 + |script|..] == tail
  {
  }

  lemma ShapedSplits(coinb1: seq<Byte>, en1: nat, en2: nat, p: Parts)
    requires Shaped(p) && Leaves(coinb1, en1, en2, |p.push|)
    ensures SplitOf(coinb1, en1, en2, Written(p)) == Some(Cut(p))
  {
    hide ReadCompact, ReadOutputs, Payee;
    ShapedPayee(p);
    var x := Written(p);
    assert x == p.push + SEQUENCE + (p.count + p.value + [|p.script|] + p.script + p.others + p.locktime);
    assert x[|p.push|..|p.push| + 4] == SEQUENCE;
    assert p.push != [] ==> x[0] == p.push[0];
  }

  // ----- what splits is shaped -----

  lemma EndsShaped(x: seq<Byte>, k: nat) returns (others: seq<Byte>, locktime: seq<Byte>)
    requires EndsInLocktime(x, k)
    ensures x == others + locktime && |locktime| == 4
    ensures ReadOutputs(others, k).Some? && ReadOutputs(others, k).value.1 == |others|
  {
    hide ReadOutputs;
    OutputsAreLocal(x, k, []);
    var n := ReadOutputs(x, k).value.1;
    others, locktime := x[..n], x[n..];
    assert x[..n] + [] == others;
  }

  lemma PayeeShaped(x: seq<Byte>, at: nat, push: seq<Byte>) returns (p: Parts)
    requires at <= |x| && Payee(x, at).Some? && x[..at] == push + SEQUENCE && (push != [] ==> push[0] == |push| - 1)
    ensures Shaped(p) && p.push == push && x == Written(p) && Payee(x, at).value == Cut(p)
  {
    hide ReadCompact, ReadOutputs, EndsInLocktime;
    var y := x[at..];
    SizeFits(y);
    var size := ReadCompact(y).value;
    var count := y[..size.used];
    CompactIsLocal(y, []);
    assert count + [] == count;
    var from := at + size.used;
    var to := from + 8;
    var n := x[to];
    var others, locktime := EndsShaped(x[to + 1 + n..], size.value - 1);
    p := Parts(push, count, x[from..to], x[to + 1..to + 1 + n], others, locktime);
    CutAround(x, to, n);
    assert x[..to] == x[..at] + count + x[from..to];
    assert x == x[..to] + [n] + p.script + (others + locktime);
  }

  lemma SplitShaped(coinb1: seq<Byte>, en1: nat, en2: nat, coinb2: seq<Byte>) returns (p: Parts)
    requires SplitOf(coinb1, en1, en2, coinb2).Some?
    ensures Shaped(p) && Leaves(coinb1, en1, en2, |p.push|) && coinb2 == Written(p)
    ensures SplitOf(coinb1, en1, en2, coinb2).value == Cut(p)
  {
    hide ReadCompact, ReadOutputs, Payee, Shaped;
    var sig := SigLength(coinb1, en1, en2).value;
    var push := coinb2[..sig];
    assert coinb2[..sig + 4] == push + SEQUENCE;
    p := PayeeShaped(coinb2, sig + 4, push);
    SizeFits(coinb1[41..]);
  }

  ghost predicate Lays(coinb1: seq<Byte>, en1: nat, en2: nat, coinb2: seq<Byte>, s: Split, p: Parts) {
    Shaped(p) && Leaves(coinb1, en1, en2, |p.push|) && coinb2 == Written(p) && s == Cut(p)
  }

  /** A coinb2 splits if and only if it is laid out like that, and into those parts. */
  lemma SplitIffShaped(coinb1: seq<Byte>, en1: nat, en2: nat, coinb2: seq<Byte>, s: Split)
    ensures SplitOf(coinb1, en1, en2, coinb2) == Some(s) <==> exists p :: Lays(coinb1, en1, en2, coinb2, s, p)
  {
    hide Shaped, Leaves, Cut, Written, SplitOf;
    if SplitOf(coinb1, en1, en2, coinb2) == Some(s) {
      var p := SplitShaped(coinb1, en1, en2, coinb2);
      assert Lays(coinb1, en1, en2, coinb2, s, p);
    }
    if p :| Lays(coinb1, en1, en2, coinb2, s, p) {
      ShapedSplits(coinb1, en1, en2, p);
    }
  }

  // ----- the jobs of a pool -----

  /** What a pool sends as the second part of a coinbase of these outputs. */
  function JobCoinb2(push: seq<Byte>, outs: seq<Output>, locktime: seq<Byte>): seq<Byte>
    requires |outs| < U64 && forall o :: o in outs ==> o.value < U64 && |o.script| < U64
  {
    push + [0xff, 0xff, 0xff, 0xff] + Compact(|outs|) + WriteOutputs(outs) + locktime
  }

  /** Every job of one to three outputs splits, whatever its push, values, scripts and lock time: a pool fee
    * and a witness output make no difference. */
  lemma JobSplits(coinb1: seq<Byte>, en1: nat, en2: nat, push: seq<Byte>, outs: seq<Output>, locktime: seq<Byte>)
    requires Leaves(coinb1, en1, en2, |push|) && (push != [] ==> push[0] == |push| - 1)
    requires 1 <= |outs| <= 3 && |locktime| == 4
    requires forall o :: o in outs ==> o.value < U64 && |o.script| < U64
    requires 1 <= |outs[0].script| < 253
    ensures SplitOf(coinb1, en1, en2, JobCoinb2(push, outs, locktime))
         == Some(Split(push + [0xff, 0xff, 0xff, 0xff] + [|outs|] + Le(outs[0].value, 8), outs[0].script,
                       WriteOutputs(outs[1..]) + locktime))
  {
    hide Shaped, Leaves, SplitOf, JobCoinb2;
    var p := JobParts(push, outs, locktime);
    ShapedSplits(coinb1, en1, en2, p);
  }

  lemma JobParts(push: seq<Byte>, outs: seq<Output>, locktime: seq<Byte>) returns (p: Parts)
    requires (push != [] ==> push[0] == |push| - 1) && 1 <= |outs| <= 3 && |locktime| == 4
    requires forall o :: o in outs ==> o.value < U64 && |o.script| < U64
    requires 1 <= |outs[0].script| < 253
    ensures p == Parts(push, [|outs|], Le(outs[0].value, 8), outs[0].script, WriteOutputs(outs[1..]), locktime)
    ensures Shaped(p) && JobCoinb2(push, outs, locktime) == Written(p)
  {
    hide Le, ReadOutputs, ReadCompact, WriteOutputs;
    p := Parts(push, [|outs|], Le(outs[0].value, 8), outs[0].script, WriteOutputs(outs[1..]), locktime);
    OneByte([|outs|]);
    OutputsReadBack(outs[1..]);
    FirstWritten(outs);
    var others := WriteOutputs(outs[1..]);
    assert Compact(|outs|) == [|outs|];
    assert (p.value + [|p.script|] + p.script + others) + locktime
        == p.value + [|p.script|] + p.script + others + locktime;
  }

  lemma FirstWritten(outs: seq<Output>)
    requires outs != [] && |outs[0].script| < 253 && forall o :: o in outs ==> o.value < U64 && |o.script| < U64
    ensures WriteOutputs(outs)
         == Le(outs[0].value, 8) + [|outs[0].script|] + outs[0].script + WriteOutputs(outs[1..])
  {
    hide Le;
  }
}

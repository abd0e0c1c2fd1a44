/** The coinbase template of the API server (`api/coinbase_template.go`): one job of the pool is
  * split around its payout script, and any other script is spliced in. What is assembled is
  * parsed back the way `api/ckpool_api_server.go` reads a coinbase.
  */
module CoinbaseTemplate {
  import opened Basics
  import opened TxBytes

  const SCRIPTSIG_AT := 41
  const RETRY_INTERVAL := 2

  // What is left of a coinb2: the head up to the first value, the payout script, and the rest.
  datatype Split = Split(head: seq<Byte>, script: seq<Byte>, coinb3: seq<Byte>)

  /** The scriptSig bytes at the head of coinb2, by the length coinb1 declares. */
  function SigLength(coinb1: seq<Byte>, en1: nat, en2: nat): Option<int> {
    if |coinb1| < SCRIPTSIG_AT then None
    else
      var size := ReadCompact(coinb1[SCRIPTSIG_AT..]);
      if size.None? then None
      else Some(size.value.value - (|coinb1| - SCRIPTSIG_AT - size.value.used) - en1 - en2)
  }

  /** Whether x is outputs and then exactly a lock time. */
  ghost predicate EndsInLocktime(x: seq<Byte>, k: nat) {
    ReadOutputs(x, k).Some? && |x| - ReadOutputs(x, k).value.1 == 4
  }

  /** `splitCoinb2`: the parts of coinb2, found by walking its structure. */
  ghost function SplitOf(coinb1: seq<Byte>, en1: nat, en2: nat, coinb2: seq<Byte>): Option<Split> {
    var sig := SigLength(coinb1, en1, en2);
    if sig.None? || sig.value < 0 || sig.value > |coinb2| || (sig.value > 0 && coinb2[0] != sig.value - 1) then None
    else if sig.value + 4 > |coinb2| || coinb2[sig.value..sig.value + 4] != [0xff, 0xff, 0xff, 0xff] then None
    else Payee(coinb2, sig.value + 4)
  }

  /** From the output count on. */
  ghost function Payee(coinb2: seq<Byte>, pos: nat): Option<Split>
    requires pos <= |coinb2|
  {
    var count := ReadCompact(coinb2[pos..]);
    if count.None? || count.value.value < 1 || count.value.value > 3 then None
    else
      var at := pos + count.value.used + 8;
      if at >= |coinb2| then None
      else
        var n := coinb2[at];
        var end := at + 1 + n;
        if n == 0 || end > |coinb2| || !EndsInLocktime(coinb2[end..], count.value.value - 1) then None
        else Some(Split(coinb2[..at], coinb2[at + 1..end], coinb2[end..]))
  }

  method SplitCoinb2(coinb1: seq<Byte>, en1: nat, en2: nat, coinb2: seq<Byte>) returns (r: Option<Split>)
    ensures r == SplitOf(coinb1, en1, en2, coinb2)
  {
    hide ReadCompact, ReadOutputs;
    if |coinb1| < SCRIPTSIG_AT {
      return None;
    }
    var size := ReadCompact(coinb1[SCRIPTSIG_AT..]);
    if size.None? {
      return None;
    }
    var sig: int := size.value.value - (|coinb1| - SCRIPTSIG_AT - size.value.used) - en1 - en2;
    if sig < 0 || sig > |coinb2| {
      return None;
    }
    if sig > 0 && coinb2[0] != sig - 1 {
      return None;
    }
    var pos: int := sig;
    if pos + 4 > |coinb2| || coinb2[pos..pos + 4] != [0xff, 0xff, 0xff, 0xff] {
      return None;
    }
    pos := pos + 4;
    var count := ReadCompact(coinb2[pos..]);
    if count.None? || count.value.value < 1 || count.value.value > 3 {
      return None;
    }
    pos := pos + count.value.used;
    if pos + 8 > |coinb2| {
      return None;
    }
    pos := pos + 8;
    var head := coinb2[..pos];
    if pos >= |coinb2| {
      return None;
    }
    var n: int := coinb2[pos];
    pos := pos + 1;
    if n == 0 || pos + n > |coinb2| {
      return None;
    }
    var script := coinb2[pos..pos + n];
    pos := pos + n;
    var coinb3 := coinb2[pos..];
    var ends := TailEnds(coinb3, count.value.value - 1);
    return if ends then Some(Split(head, script, coinb3)) else None;
  }

  /** The walk over the outputs behind the first. */
  method TailEnds(x: seq<Byte>, k: nat) returns (ok: bool)
    ensures ok <==> EndsInLocktime(x, k)
  {
    hide ReadCompact, LeValue;
    var tail := 0;
    ghost var outs: seq<Output> := [];
    NoOutputs(x);
    for i := 0 to k
      invariant tail <= |x| && |outs| == i && ReadOutputs(x, i) == Some((outs, tail))
    {
      Reading(x, i, k);
      if tail + 8 > |x| {
        return false;
      }
      assert x[tail..][8..] == x[tail + 8..];
      var size := ReadCompact(x[tail + 8..]);
      if size.None? || tail + 8 + size.value.used + size.value.value > |x| {
        return false;
      }
      OutputsSnoc(x, i);
      outs := outs + [ReadOutput(x[tail..]).value.output];
      tail := tail + 8 + size.value.used + size.value.value;
    }
    ok := |x| - tail == 4;
  }

  lemma Reading(x: seq<Byte>, i: nat, n: nat)
    requires i < n && ReadOutputs(x, i).Some? && ReadOutputs(x, i).value.1 <= |x|
    ensures ReadOutput(x[ReadOutputs(x, i).value.1..]).None? ==> ReadOutputs(x, n).None?
  {
    hide ReadOutput, ReadOutputs;
    if ReadOutput(x[ReadOutputs(x, i).value.1..]).None? {
      StopsHere(x, i, n);
    }
  }

  // ----- assembling -----

  datatype Template = Template(height: int, coinb1: seq<Byte>, en1: seq<Byte>, en2: nat, head: seq<Byte>, coinb3: seq<Byte>,
                               fetchedAt: int)

  /** A template that was split from this job. */
  ghost predicate FromJob(t: Template, coinb2: seq<Byte>, script: seq<Byte>) {
    SplitOf(t.coinb1, |t.en1|, t.en2, coinb2) == Some(Split(t.head, script, t.coinb3))
  }

  function Assembled(t: Template, script: seq<Byte>): seq<Byte>
    requires |script| < 256
  {
    t.coinb1 + t.en1 + Zeros(t.en2) + t.head + [|script|] + script + t.coinb3
  }

  method Assemble(t: Template, script: seq<Byte>) returns (out: seq<Byte>)
    requires |script| < 256
    ensures out == Assembled(t, script)
  {
    out := t.coinb1;
    out := out + t.en1;
    out := out + Zeros(t.en2);
    out := out + t.head;
    out := out + [|script|];
    out := out + script;
    out := out + t.coinb3;
  }

  lemma SplitJoins(coinb1: seq<Byte>, en1: nat, en2: nat, coinb2: seq<Byte>)
    requires SplitOf(coinb1, en1, en2, coinb2).Some?
    ensures var s := SplitOf(coinb1, en1, en2, coinb2).value;
            1 <= |s.script| < 256 && coinb2 == s.head + [|s.script|] + s.script + s.coinb3
  {
    hide ReadCompact, SigLength, Payee;
    PayeeJoins(coinb2, SigLength(coinb1, en1, en2).value + 4);
  }

  lemma PayeeJoins(coinb2: seq<Byte>, at: nat)
    requires at <= |coinb2| && Payee(coinb2, at).Some?
    ensures var s := Payee(coinb2, at).value;
            1 <= |s.script| < 256 && coinb2 == s.head + [|s.script|] + s.script + s.coinb3
  {
    hide ReadCompact, EndsInLocktime;
    var s := Payee(coinb2, at).value;
    CutAround(coinb2, |s.head|, |s.script|);
  }

  lemma CutAround(x: seq<Byte>, i: nat, n: nat)
    requires i + 1 + n <= |x|
    ensures x == x[..i] + [x[i]] + x[i + 1..i + 1 + n] + x[i + 1 + n..]
  {
  }

  /** With the job's own script the template gives back the job, its placeholder extranonce in. */
  lemma OwnScriptRebuilds(t: Template, coinb2: seq<Byte>, script: seq<Byte>)
    requires FromJob(t, coinb2, script)
    ensures 1 <= |script| < 256 && Assembled(t, script) == t.coinb1 + t.en1 + Zeros(t.en2) + coinb2
  {
    hide SplitOf;
    SplitJoins(t.coinb1, |t.en1|, t.en2, coinb2);
    assert Assembled(t, script) == t.coinb1 + t.en1 + Zeros(t.en2) + (t.head + [|script|] + script + t.coinb3);
  }

  // ----- reading a coinbase -----

  /** `coinbaseScriptSig`: the offset just past the single input, if all of it is there. */
  function PastInput(data: seq<Byte>): Option<nat> {
    if |data| < 4 then None
    else
      var inputs := ReadCompact(data[4..]);
      if inputs.None? || inputs.value.value == 0 || 4 + inputs.value.used + 36 > |data| then None
      else
        var at := 4 + inputs.value.used + 36;
        var size := ReadCompact(data[at..]);
        if size.None? then None
        else
          var next := at + size.value.used + size.value.value + 4;
          if next > |data| then None else Some(next)
  }

  /** The walk of `parseCoinbaseOutputs`: a clipped script is kept as far as it goes. */
  function Listed(x: seq<Byte>, k: nat): seq<Output>
    decreases k
  {
    if k == 0 || |x| < 8 then []
    else
      var size := ReadCompact(x[8..]);
      if size.None? || 8 + size.value.used > |x| then []
      else
        var from := 8 + size.value.used;
        var end := if from + size.value.value > |x| then |x| else from + size.value.value;
        [Output(LeValue(x[..8]), x[from..end])] + Listed(x[end..], k - 1)
  }

  function Parsed(data: seq<Byte>): seq<Output> {
    var next := PastInput(data);
    if next.None? || next.value > |data| then []
    else
      var count := ReadCompact(data[next.value..]);
      if count.None? || count.value.value == 0 || count.value.value > |data| || count.value.used > |data| - next.value then []
      else Listed(data[next.value + count.value.used..], count.value.value)
  }

  /** The total of a list of outputs, as signed 64-bit additions leave it. */
  function Total(outs: seq<Output>): int {
    Wrapped(Sum(outs))
  }

  /** It is their sum exactly while that is below 2^63. */
  lemma TotalIsSum(outs: seq<Output>)
    ensures Total(outs) == Sum(outs) <==> Sum(outs) < HALF
  {
    hide Sum;
  }

  lemma WrappedSum(sum: nat, value: nat)
    requires value < U64
    ensures Wrapped(Wrapped(sum) + Signed(value)) == Wrapped(sum + value)
  {
    var turns := sum / U64 + One(sum % U64 >= HALF) + One(value >= HALF);
    assert Wrapped(sum) + Signed(value) == sum + value - turns * U64;
    SameResidue(Wrapped(sum) + Signed(value), sum + value, -turns);
  }

  lemma SameResidue(a: int, b: int, turns: int)
    requires a == b + turns * U64
    ensures a % U64 == b % U64
  {
  }

  lemma ValueFits(bytes: seq<Byte>)
    requires |bytes| == 8
    ensures LeValue(bytes) < U64
  {
    hide LeValue;
    LeValueBelow(bytes);
    Bounds();
  }

  lemma NoTotal()
    ensures Wrapped(0) == 0
  {
  }

  lemma NoSum()
    ensures Sum([]) == 0
  {
  }

  lemma ListedEnds(x: seq<Byte>, k: nat)
    ensures k == 0 || |x| < 8 ==> Listed(x, k) == []
  {
  }

  /** One step of the walk, at an offset of the data. */
  lemma ListedAt(data: seq<Byte>, offset: nat, k: nat)
    requires k > 0 && offset + 8 <= |data|
    ensures ReadCompact(data[offset + 8..]).None? ==> Listed(data[offset..], k) == []
    ensures ReadCompact(data[offset + 8..]).Some? ==>
              var size := ReadCompact(data[offset + 8..]).value;
              var start := offset + 8 + size.used;
              var end := if start + size.value > |data| then |data| else start + size.value;
              start <= |data| &&
              Listed(data[offset..], k) == [Output(LeValue(data[offset..offset + 8]), data[start..end])] + Listed(data[end..], k - 1)
  {
    hide ReadCompact, LeValue;
    var x := data[offset..];
    assert x[8..] == data[offset + 8..] && x[..8] == data[offset..offset + 8];
    var size := ReadCompact(x[8..]);
    if size.Some? {
      SizeFits(x[8..]);
      var start := 8 + size.value.used;
      var end := if start + size.value.value > |x| then |x| else start + size.value.value;
      assert x[start..end] == data[offset + start..offset + end] && x[end..] == data[offset + end..];
    }
  }

  /** `parseCoinbaseOutputs`, with the total it returns. */
  method ParseOutputs(data: seq<Byte>) returns (outs: seq<Output>, total: int)
    ensures outs == Parsed(data) && total == Total(outs)
  {
    hide ReadCompact, LeValue, PastInput, Listed, Sum, Signed, Wrapped;
    NoSum();
    NoTotal();
    outs, total := [], 0;
    var next := PastInput(data);
    if next.None? || next.value > |data| {
      return;
    }
    var count := ReadCompact(data[next.value..]);
    if count.None? {
      return;
    }
    SizeFits(data[next.value..]);
    if count.value.value == 0 || count.value.value > |data| {
      return;
    }
    var from := next.value + count.value.used;
    ghost var x := data[from..];
    var offset, i := from, 0;
    while i < count.value.value
      invariant i <= count.value.value && from <= offset <= |data| && total == Total(outs)
      invariant Listed(x, count.value.value) == outs + Listed(data[offset..], count.value.value - i)
    {
      if offset + 8 > |data| {
        ListedEnds(data[offset..], count.value.value - i);
        break;
      }
      var size := ReadCompact(data[offset + 8..]);
      ListedAt(data, offset, count.value.value - i);
      if size.None? {
        break;
      }
      var start := offset + 8 + size.value.used;
      var end := start + size.value.value;
      if end > |data| {
        end := |data|;
      }
      var o := Output(LeValue(data[offset..offset + 8]), data[start..end]);
      ValueFits(data[offset..offset + 8]);
      SumSnoc(outs, o);
      WrappedSum(Sum(outs), o.value);
      outs, total := outs + [o], Wrapped(total + Signed(o.value));
      offset, i := end, i + 1;
    }
    ListedEnds(data[offset..], count.value.value - i);
  }

  /** Outputs that read are listed as they are. */
  lemma {:induction false} ReadIsListed(x: seq<Byte>, k: nat)
    requires ReadOutputs(x, k).Some?
    ensures Listed(x, k) == ReadOutputs(x, k).value.0
    decreases k
  {
    hide ReadCompact, LeValue;
    if k > 0 {
      OutputIsLocal(x, []);
      SizeFits(x[8..]);
      ReadIsListed(x[ReadOutput(x).value.used..], k - 1);
    }
  }

  // ----- splicing -----

  /** What a split says about its job: where the scriptSig ends in the head, how many outputs there
    * are, and that those behind the first end in a lock time. */
  ghost predicate Laid(t: Template, sig: nat, count: nat, used: nat) {
    && |t.coinb1| > SCRIPTSIG_AT && |t.head| == sig + 4 + used + 8 && 1 <= count <= 3 && used >= 1
    && ReadCompact(t.coinb1[SCRIPTSIG_AT..]).Some?
    && var size := ReadCompact(t.coinb1[SCRIPTSIG_AT..]).value;
    && size.used <= |t.coinb1| - SCRIPTSIG_AT
    && SCRIPTSIG_AT + size.used + size.value == |t.coinb1| + |t.en1| + t.en2 + sig
    && ReadCompact(t.head[sig + 4..sig + 4 + used]) == Some(Sized(count, used))
    && EndsInLocktime(t.coinb3, count - 1)
  }

  lemma SplitLays(t: Template, coinb2: seq<Byte>, script: seq<Byte>) returns (sig: nat, count: nat, used: nat)
    requires FromJob(t, coinb2, script)
    ensures Laid(t, sig, count, used)
  {
    hide ReadCompact, EndsInLocktime;
    var y := t.coinb1[SCRIPTSIG_AT..];
    SizeFits(y);
    assert |y| == |t.coinb1| - SCRIPTSIG_AT;
    sig := SigLength(t.coinb1, |t.en1|, t.en2).value;
    var x := coinb2[sig + 4..];
    SizeFits(x);
    count, used := ReadCompact(x).value.value, ReadCompact(x).value.used;
    CompactIsLocal(x, []);
    assert t.head[sig + 4..sig + 4 + used] == x[..used] + [];
  }

  /** The reader finds the output count where the head has it. */
  lemma InputFound(t: Template, sig: nat, count: nat, used: nat, script: seq<Byte>)
    requires Laid(t, sig, count, used) && t.coinb1[4] == 1 && |script| < 253
    ensures var data := Assembled(t, script);
            var next := |t.coinb1| + |t.en1| + t.en2 + sig + 4;
            && PastInput(data) == Some(next) && next + used + 9 <= |data|
            && ReadCompact(data[next..]) == Some(Sized(count, used))
            && data[next + used..] == t.head[sig + 4 + used..] + ([|script|] + script + t.coinb3)
  {
    hide EndsInLocktime;
    var data := Assembled(t, script);
    var next := |t.coinb1| + |t.en1| + t.en2 + sig + 4;
    InputAt(t, script);
    CountAt(t, sig, count, used, script);
  }

  lemma InputAt(t: Template, script: seq<Byte>)
    requires |t.coinb1| > SCRIPTSIG_AT && t.coinb1[4] == 1 && |script| < 256
    requires ReadCompact(t.coinb1[SCRIPTSIG_AT..]).Some?
    ensures var data := Assembled(t, script);
            var size := ReadCompact(t.coinb1[SCRIPTSIG_AT..]).value;
            var next := SCRIPTSIG_AT + size.used + size.value + 4;
            PastInput(data) == if next > |data| then None else Some(next)
  {
    hide LeValue, ReadCompact;
    var data := Assembled(t, script);
    var tail := t.en1 + Zeros(t.en2) + t.head + [|script|] + script + t.coinb3;
    assert data == t.coinb1 + tail;
    assert data[4] == 1;
    OneByte(data[4..]);
    var x := t.coinb1[SCRIPTSIG_AT..];
    var size := ReadCompact(x).value;
    SizeFits(x);
    CompactIsLocal(x, x[size.used..] + tail);
    assert x[..size.used] + (x[size.used..] + tail) == data[SCRIPTSIG_AT..];
  }

  lemma OneByte(x: seq<Byte>)
    requires x != [] && x[0] < 0xfd
    ensures ReadCompact(x) == Some(Sized(x[0], 1))
  {
  }

  lemma CountAt(t: Template, sig: nat, count: nat, used: nat, script: seq<Byte>)
    requires |t.head| == sig + 4 + used + 8 && ReadCompact(t.head[sig + 4..sig + 4 + used]) == Some(Sized(count, used)) && |script| < 256
    ensures var data := Assembled(t, script);
            var next := |t.coinb1| + |t.en1| + t.en2 + sig + 4;
            && next + used + 9 <= |data| && ReadCompact(data[next..]) == Some(Sized(count, used))
            && data[next + used..] == t.head[sig + 4 + used..] + ([|script|] + script + t.coinb3)
  {
    hide LeValue, ReadCompact;
    var data := Assembled(t, script);
    var before := t.coinb1 + t.en1 + Zeros(t.en2);
    var tail := [|script|] + script + t.coinb3;
    assert data == before + (t.head + tail);
    var next := |before| + sig + 4;
    var c := t.head[sig + 4..sig + 4 + used];
    assert data[next..] == (t.head + tail)[sig + 4..] == c + (t.head[sig + 4 + used..] + tail);
    CompactIsLocal(c, t.head[sig + 4 + used..] + tail);
    assert c[..used] == c;
    assert data[next + used..] == data[next..][used..];
  }

  /** The value of the first output, which the head ends in. */
  function FirstValue(t: Template): nat {
    if |t.head| < 8 then 0 else LeValue(t.head[|t.head| - 8..])
  }

  /** Whatever script is spliced in, the coinbase reads as that script at the value of the job's
    * first output, and the job's other outputs. */
  lemma SpliceReads(t: Template, sig: nat, count: nat, used: nat, script: seq<Byte>)
    requires Laid(t, sig, count, used) && t.coinb1[4] == 1 && |script| < 253
    ensures ReadOutputs(t.coinb3, count - 1).Some?
    ensures Parsed(Assembled(t, script)) == [Output(FirstValue(t), script)] + ReadOutputs(t.coinb3, count - 1).value.0
  {
    hide ReadCompact, LeValue, Listed, ReadOutputs, Assembled, PastInput;
    InputFound(t, sig, count, used, script);
    var data := Assembled(t, script);
    var next := |t.coinb1| + |t.en1| + t.en2 + sig + 4;
    var x := data[next + used..];
    var value := t.head[sig + 4 + used..];
    PayeeReads(value, script, t.coinb3);
    assert x == value + ([|script|] + script + t.coinb3);
    var first := value + [|script|] + script;
    assert x == first + t.coinb3;
    assert x[|first|..] == t.coinb3;
    OneOutput(x);
    OutputsJoin(x, 1, count - 1);
    ReadIsListed(x, count);
    assert value == t.head[|t.head| - 8..];
  }

  lemma PayeeReads(value: seq<Byte>, script: seq<Byte>, rest: seq<Byte>)
    requires |value| == 8 && |script| < 253
    ensures ReadOutput(value + ([|script|] + script + rest)) == Some(SizedOutput(Output(LeValue(value), script), 9 + |script|))
  {
    hide LeValue, ReadCompact;
    var x := value + ([|script|] + script + rest);
    assert x[8..] == [|script|] + script + rest && x[..8] == value;
    OneByte(x[8..]);
    assert x[9..9 + |script|] == script;
  }

  /** Splicing in another script changes the script of the first output and nothing else: the same
    * outputs, the same values, the same sum and so the same total. */
  lemma SpliceChangesOnlyThePayee(t: Template, coinb2: seq<Byte>, script: seq<Byte>, other: seq<Byte>)
    requires FromJob(t, coinb2, script) && |t.coinb1| > 4 && t.coinb1[4] == 1 && |script| < 253 && |other| < 253
    ensures var own, spliced := Parsed(Assembled(t, script)), Parsed(Assembled(t, other));
            && own != [] && own[0].script == script
            && spliced == own[0 := own[0].(script := other)]
            && Sum(spliced) == Sum(own) && Total(spliced) == Total(own)
  {
    hide Parsed, Assembled, FromJob, Laid, Wrapped;
    var sig, count, used := SplitLays(t, coinb2, script);
    SpliceReads(t, sig, count, used, script);
    SpliceReads(t, sig, count, used, other);
    var own, spliced := Parsed(Assembled(t, script)), Parsed(Assembled(t, other));
    assert own[1..] == spliced[1..];
  }
}

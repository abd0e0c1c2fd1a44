/** Bitcoin serialisation as the coinbase code uses it (`src/sv2_tx.c`, and `read_varint` in
  * `src/libckpool.c`): little-endian numbers, compact sizes and transaction outputs. A reader
  * works on the bytes still ahead and says how many it used.
  */
module TxBytes {
  import opened Basics

  // A number read, and how many bytes it took.
  datatype Sized = Sized(value: nat, used: nat)

  datatype Output = Output(value: nat, script: seq<Byte>)

  // An output read, and how many bytes it took.
  datatype SizedOutput = SizedOutput(output: Output, used: nat)

  const HALF := 0x8000_0000_0000_0000

  /** A 64-bit value as the signed number it is read into. */
  function Signed(value: nat): int {
    if value < HALF then value else value - U64
  }

  /** A signed sum as 64 bits keep it. */
  function Wrapped(n: int): int {
    Signed(n % U64)
  }

  function Bound(k: nat): nat {
    if k == 0 then 1 else 256 * Bound(k - 1)
  }

  lemma Bounds()
    ensures Bound(1) == 0x100 && Bound(2) == 0x1_0000 && Bound(4) == 0x1_0000_0000 && Bound(8) == U64
  {
    assert Bound(2) == 256 * Bound(1);
    assert Bound(3) == 256 * Bound(2);
    assert Bound(4) == 256 * Bound(3);
    assert Bound(5) == 256 * Bound(4);
    assert Bound(6) == 256 * Bound(5);
    assert Bound(7) == 256 * Bound(6);
  }

  /** The k low bytes of n, lowest first. */
  function Le(n: nat, k: nat): (s: seq<Byte>)
    ensures |s| == k
  {
    if k == 0 then [] else [n % 256] + Le(n / 256, k - 1)
  }

  function LeValue(s: seq<Byte>): nat {
    if s == [] then 0 else s[0] + 256 * LeValue(s[1..])
  }

  lemma {:induction false} LeRoundTrip(n: nat, k: nat)
    requires n < Bound(k)
    ensures LeValue(Le(n, k)) == n
  {
    if k > 0 {
      LeRoundTrip(n / 256, k - 1);
      assert Le(n, k)[1..] == Le(n / 256, k - 1);
    }
  }

  /** Lowest byte first. */
  lemma FourBytes(a: Byte, b: Byte, c: Byte, d: Byte)
    ensures LeValue([a, b, c, d]) == a + 0x100 * b + 0x1_0000 * c + 0x100_0000 * d
  {
    assert [a, b, c, d][1..] == [b, c, d] && [b, c, d][1..] == [c, d] && [c, d][1..] == [d] && [d][1..] == [];
    assert LeValue([d]) == d;
    assert LeValue([c, d]) == c + 256 * d;
    assert LeValue([b, c, d]) == b + 256 * LeValue([c, d]);
  }

  lemma {:induction false} LeValueBelow(s: seq<Byte>)
    ensures LeValue(s) < Bound(|s|)
  {
    if s != [] {
      LeValueBelow(s[1..]);
    }
  }

  /** `sv2_write_compact_size`. */
  function Compact(n: nat): seq<Byte>
    requires n < U64
  {
    if n < 0xfd then [n]
    else if n <= 0xffff then [0xfd] + Le(n, 2)
    else if n <= 0xffff_ffff then [0xfe] + Le(n, 4)
    else [0xff] + Le(n, 8)
  }

  /** How many bytes follow the first of a compact size. */
  function Tail(first: Byte): nat {
    if first < 0xfd then 0 else if first == 0xfd then 2 else if first == 0xfe then 4 else 8
  }

  /** `sv2_read_compact_size`, which does not insist on the shortest form. */
  function ReadCompact(x: seq<Byte>): Option<Sized> {
    if x == [] || |x| < 1 + Tail(x[0]) then None
    else if x[0] < 0xfd then Some(Sized(x[0], 1))
    else Some(Sized(LeValue(x[1..1 + Tail(x[0])]), 1 + Tail(x[0])))
  }

  lemma CompactReadsBack(n: nat, y: seq<Byte>)
    requires n < U64
    ensures ReadCompact(Compact(n) + y) == Some(Sized(n, |Compact(n)|))
  {
    hide Le, LeValue, Bound;
    Bounds();
    var x := Compact(n) + y;
    var k := Tail(x[0]);
    if n >= 0xfd {
      assert x[1..1 + k] == Le(n, k);
      LeRoundTrip(n, k);
    }
  }

  /** What is written is the shortest of all forms that read as n. */
  lemma CompactIsShortest(n: nat, x: seq<Byte>)
    requires n < U64 && ReadCompact(x).Some? && ReadCompact(x).value.value == n
    ensures |Compact(n)| <= ReadCompact(x).value.used
    ensures |Compact(n)| == if n < 253 then 1 else if n < 0x1_0000 then 3 else if n < 0x1_0000_0000 then 5 else 9
  {
    hide Le, LeValue, Bound;
    Bounds();
    var k := Tail(x[0]);
    if x[0] >= 0xfd {
      LeValueBelow(x[1..1 + k]);
    }
  }

  /** A compact size is read the same whatever follows it. */
  lemma CompactIsLocal(x: seq<Byte>, y: seq<Byte>)
    requires ReadCompact(x).Some?
    ensures 1 <= ReadCompact(x).value.used <= |x|
    ensures ReadCompact(x[..ReadCompact(x).value.used] + y) == ReadCompact(x)
  {
    hide LeValue;
    var u := ReadCompact(x).value.used;
    var z := x[..u] + y;
    assert z[0] == x[0];
    assert z[1..1 + Tail(x[0])] == x[1..1 + Tail(x[0])];
  }

  function WriteOutput(o: Output): seq<Byte>
    requires o.value < U64 && |o.script| < U64
  {
    Le(o.value, 8) + Compact(|o.script|) + o.script
  }

  /** An output: its value, the length of its script, the script. */
  function ReadOutput(x: seq<Byte>): Option<SizedOutput> {
    if |x| < 8 then None
    else
      var size := ReadCompact(x[8..]);
      if size.None? then None
      else
        var from, to := 8 + size.value.used, 8 + size.value.used + size.value.value;
        if to > |x| then None
        else Some(SizedOutput(Output(LeValue(x[..8]), x[from..to]), to))
  }

  lemma OutputIsLocal(x: seq<Byte>, y: seq<Byte>)
    requires ReadOutput(x).Some?
    ensures 9 <= ReadOutput(x).value.used <= |x|
    ensures ReadOutput(x[..ReadOutput(x).value.used] + y) == ReadOutput(x)
  {
    hide LeValue, ReadCompact;
    var size := ReadCompact(x[8..]).value;
    CompactIsLocal(x[8..], []);
    var u := ReadOutput(x).value.used;
    var z := x[..u] + y;
    CompactIsLocal(x[8..], x[8 + size.used..u] + y);
    assert z[8..] == x[8..][..size.used] + (x[8 + size.used..u] + y);
    assert z[..8] == x[..8] && z[8 + size.used..u] == x[8 + size.used..u];
  }

  lemma OutputReadsBack(o: Output, y: seq<Byte>)
    requires o.value < U64 && |o.script| < U64
    ensures ReadOutput(WriteOutput(o) + y) == Some(SizedOutput(o, |WriteOutput(o)|))
  {
    hide Le, LeValue, Bound, Compact, ReadCompact;
    Bounds();
    LeRoundTrip(o.value, 8);
    var x := WriteOutput(o) + y;
    CompactReadsBack(|o.script|, o.script + y);
    assert x[8..] == Compact(|o.script|) + (o.script + y);
    assert x[..8] == Le(o.value, 8);
    var from := 8 + |Compact(|o.script|)|;
    assert x[from..from + |o.script|] == o.script;
  }

  /** k outputs in a row, each satisfying a condition on its script length. */
  function ReadOutputs(x: seq<Byte>, k: nat): Option<(seq<Output>, nat)> {
    if k == 0 then Some(([], 0))
    else
      var first := ReadOutput(x);
      if first.None? || first.value.used > |x| then None
      else
        var rest := ReadOutputs(x[first.value.used..], k - 1);
        if rest.None? then None
        else Some(([first.value.output] + rest.value.0, first.value.used + rest.value.1))
  }

  /** The first of some outputs, and the rest. */
  lemma OutputsHead(x: seq<Byte>, k: nat)
    requires k > 0 && ReadOutputs(x, k).Some?
    ensures ReadOutput(x).Some? && ReadOutput(x).value.used <= |x|
    ensures var first := ReadOutput(x).value;
            var rest := ReadOutputs(x[first.used..], k - 1);
            rest.Some? && ReadOutputs(x, k) == Some(([first.output] + rest.value.0, first.used + rest.value.1))
  {
    hide ReadOutput;
  }

  lemma OutputsCons(x: seq<Byte>, k: nat, rest: seq<Output>, used: nat)
    requires k > 0 && ReadOutput(x).Some? && ReadOutput(x).value.used <= |x|
    requires ReadOutputs(x[ReadOutput(x).value.used..], k - 1) == Some((rest, used))
    ensures ReadOutputs(x, k) == Some(([ReadOutput(x).value.output] + rest, ReadOutput(x).value.used + used))
  {
    hide ReadOutput;
  }

  lemma {:induction false} OutputsAreLocal(x: seq<Byte>, k: nat, y: seq<Byte>)
    requires ReadOutputs(x, k).Some?
    ensures |ReadOutputs(x, k).value.0| == k && ReadOutputs(x, k).value.1 <= |x|
    ensures ReadOutputs(x[..ReadOutputs(x, k).value.1] + y, k) == ReadOutputs(x, k)
    decreases k
  {
    hide ReadOutput, ReadOutputs;
    if k == 0 {
      NoOutputs(x);
      NoOutputs(x[..0] + y);
    } else {
      OutputsHead(x, k);
      var u, n := ReadOutput(x).value.used, ReadOutputs(x, k).value.1;
      var rest := ReadOutputs(x[u..], k - 1).value;
      OutputsAreLocal(x[u..], k - 1, y);
      OutputIsLocal(x, x[u..n] + y);
      var z := x[..n] + y;
      assert z == x[..u] + (x[u..n] + y);
      assert z[u..] == x[u..][..n - u] + y;
      OutputsCons(z, k, rest.0, rest.1);
    }
  }

  /** Two stretches of outputs read as one. */
  lemma {:induction false} OutputsJoin(x: seq<Byte>, j: nat, k: nat)
    requires ReadOutputs(x, j).Some? && ReadOutputs(x, j).value.1 <= |x|
    requires ReadOutputs(x[ReadOutputs(x, j).value.1..], k).Some?
    ensures var a := ReadOutputs(x, j).value;
            var b := ReadOutputs(x[a.1..], k).value;
            ReadOutputs(x, j + k) == Some((a.0 + b.0, a.1 + b.1))
    decreases j
  {
    hide ReadOutput, ReadOutputs;
    var a := ReadOutputs(x, j).value;
    var b := ReadOutputs(x[a.1..], k).value;
    if j == 0 {
      NoOutputs(x);
      assert x[0..] == x && [] + b.0 == b.0;
    } else {
      OutputsHead(x, j);
      var u, first := ReadOutput(x).value.used, [ReadOutput(x).value.output];
      var c := ReadOutputs(x[u..], j - 1).value;
      assert x[u..][c.1..] == x[a.1..];
      OutputsJoin(x[u..], j - 1, k);
      OutputsCons(x, j + k, c.0 + b.0, c.1 + b.1);
      assert first + (c.0 + b.0) == first + c.0 + b.0;
    }
  }

  lemma OneOutput(x: seq<Byte>)
    requires ReadOutput(x).Some?
    ensures ReadOutput(x).value.used <= |x|
    ensures ReadOutputs(x, 1) == Some(([ReadOutput(x).value.output], ReadOutput(x).value.used))
  {
    hide ReadOutput;
    OutputIsLocal(x, []);
    var o := ReadOutput(x).value;
    assert ReadOutputs(x[o.used..], 0) == Some(([], 0));
    assert [o.output] + [] == [o.output];
  }

  lemma {:induction false} OutputsPrefix(x: seq<Byte>, i: nat, n: nat)
    requires i < n && ReadOutputs(x, n).Some?
    ensures ReadOutputs(x, i).Some? && ReadOutputs(x, i).value.1 <= |x| && |ReadOutputs(x, n).value.0| == n
    ensures ReadOutputs(x, i).value.0 == ReadOutputs(x, n).value.0[..i]
    ensures ReadOutput(x[ReadOutputs(x, i).value.1..]).Some?
    ensures ReadOutput(x[ReadOutputs(x, i).value.1..]).value.output == ReadOutputs(x, n).value.0[i]
    decreases i
  {
    hide ReadOutput;
    OutputsAreLocal(x, n, []);
    if i == 0 {
      assert x[0..] == x;
    } else {
      var u := ReadOutput(x).value.used;
      OutputsPrefix(x[u..], i - 1, n - 1);
      var a := ReadOutputs(x[u..], i - 1).value.1;
      assert x[u..][a..] == x[u + a..];
    }
  }

  lemma OutputsSnoc(x: seq<Byte>, i: nat)
    requires ReadOutputs(x, i).Some? && ReadOutputs(x, i).value.1 <= |x|
    requires ReadOutput(x[ReadOutputs(x, i).value.1..]).Some?
    ensures var a := ReadOutputs(x, i).value;
            var o := ReadOutput(x[a.1..]).value;
            a.1 + o.used <= |x| && ReadOutputs(x, i + 1) == Some((a.0 + [o.output], a.1 + o.used))
  {
    hide ReadOutput;
    OneOutput(x[ReadOutputs(x, i).value.1..]);
    OutputsJoin(x, i, 1);
  }

  lemma SizeFits(blob: seq<Byte>)
    requires ReadCompact(blob).Some?
    ensures 1 <= ReadCompact(blob).value.used <= |blob|
  {
    CompactIsLocal(blob, []);
  }

  lemma NoOutputs(x: seq<Byte>)
    ensures ReadOutputs(x, 0) == Some(([], 0))
  {
  }

  lemma StopsHere(x: seq<Byte>, i: nat, n: nat)
    requires i < n && ReadOutputs(x, i).Some? && ReadOutputs(x, i).value.1 <= |x|
    requires ReadOutput(x[ReadOutputs(x, i).value.1..]).None?
    ensures ReadOutputs(x, n).None?
  {
    hide ReadOutput, ReadOutputs;
    if ReadOutputs(x, n).Some? {
      OutputsPrefix(x, i, n);
    }
  }

  /** Outputs one behind the other. */
  function WriteOutputs(outs: seq<Output>): seq<Byte>
    requires forall o :: o in outs ==> o.value < U64 && |o.script| < U64
  {
    if outs == [] then [] else WriteOutput(outs[0]) + WriteOutputs(outs[1..])
  }

  lemma {:induction false} OutputsReadBack(outs: seq<Output>)
    requires forall o :: o in outs ==> o.value < U64 && |o.script| < U64
    ensures ReadOutputs(WriteOutputs(outs), |outs|) == Some((outs, |WriteOutputs(outs)|))
  {
    hide ReadOutputs, ReadOutput, WriteOutput;
    var x := WriteOutputs(outs);
    if outs == [] {
      NoOutputs(x);
    } else {
      var rest := WriteOutputs(outs[1..]);
      OutputReadsBack(outs[0], rest);
      OutputsReadBack(outs[1..]);
      assert x[|WriteOutput(outs[0])|..] == rest;
      OutputsCons(x, |outs|, outs[1..], |rest|);
      assert [outs[0]] + outs[1..] == outs;
    }
  }

  function Sum(outs: seq<Output>): nat {
    if outs == [] then 0 else outs[0].value + Sum(outs[1..])
  }

  lemma {:induction false} SumOfJoin(a: seq<Output>, b: seq<Output>)
    ensures Sum(a + b) == Sum(a) + Sum(b)
  {
    if a == [] {
      assert a + b == b;
    } else {
      SumOfJoin(a[1..], b);
      assert (a + b)[1..] == a[1..] + b;
    }
  }

  lemma SumSnoc(outs: seq<Output>, o: Output)
    ensures Sum(outs + [o]) == Sum(outs) + o.value
  {
    SumOfJoin(outs, [o]);
    assert Sum([o]) == o.value by {
      assert [o][1..] == [];
    }
  }
}

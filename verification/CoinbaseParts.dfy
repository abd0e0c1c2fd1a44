/** One coinbase in its several shapes: assembled for its txid and split for a declaration
  * (`src/sv2_cb.c`), and judged for finality (`src/coinbase_final.c`).
  */
module CoinbaseParts {
  import opened Basics
  import opened TxBytes

  const MAX_SCRIPTSIG := 100
  const U16 := 0x1_0000
  const FINAL_SEQUENCE := 0xffff_ffff
  const LOCKTIME_THRESHOLD := 500000000

  /** The legacy serialisation a coinbase's txid is taken over. */
  function Coinbase(version: nat, scriptSig: seq<Byte>, sequence: nat, outputs: seq<Byte>, locktime: nat): seq<Byte>
    requires |scriptSig| < 256
  {
    Header(version) + [|scriptSig|] + scriptSig + Le(sequence, 4) + outputs + Le(locktime, 4)
  }

  /** One input, and its null outpoint. */
  function NullInput(): (h: seq<Byte>)
    ensures |h| == 37 && h[0] == 1
  {
    [1] + seq(32, _ => 0) + seq(4, _ => 0xff)
  }

  function Header(version: nat): (h: seq<Byte>)
    ensures |h| == 41 && h[4] == 1
  {
    Le(version, 4) + NullInput()
  }

  /** `sv2_cb_assemble`. */
  method Assemble(version: nat, sequence: nat, locktime: nat, prefix: seq<Byte>, en1: seq<Byte>, extranonce: seq<Byte>,
                  outputs: seq<Byte>, room: nat) returns (out: Option<seq<Byte>>)
    ensures out.Some? <==> |prefix + en1 + extranonce| <= 255 && 50 + |prefix + en1 + extranonce| + |outputs| <= room
    ensures out.Some? ==> out.value == Coinbase(version, prefix + en1 + extranonce, sequence, outputs, locktime)
  {
    hide Le;
    var length := |prefix| + |en1| + |extranonce|;
    if length > 255 {
      return None;
    }
    var need := 4 + 1 + 36 + 1 + length + 4 + |outputs| + 4;
    if need > room {
      return None;
    }
    var p := Header(version);
    p := p + [length];
    ghost var head := p;
    p := p + prefix;
    p := p + en1;
    p := p + extranonce;
    assert p == head + (prefix + en1 + extranonce);
    p := p + Le(sequence, 4);
    p := p + outputs;
    p := p + Le(locktime, 4);
    return Some(p);
  }

  // Everything that describes one coinbase; the witness reserved value is 32 bytes.
  datatype Spec = Spec(version: nat, sequence: nat, locktime: nat, prefix: seq<Byte>, hole: nat,
                       outputs: seq<Byte>, reserved: Option<seq<Byte>>)

  /** `sv2_cb_declare_parts` takes this: there is a hole, the whole scriptSig is within the
    * consensus limit, and the parts fit their lengths on the wire. */
  predicate Declarable(s: Spec) {
    && s.outputs != [] && s.hole > 0 && |s.prefix| + s.hole <= MAX_SCRIPTSIG
    && (s.reserved.Some? ==> |s.reserved.value| == 32)
    && 8 + |s.outputs| + (if s.reserved.Some? then 34 else 0) < U16
  }

  method DeclareParts(s: Spec) returns (ok: bool, prefix: seq<Byte>, suffix: seq<Byte>)
    requires s.reserved.Some? ==> |s.reserved.value| == 32
    ensures ok <==> Declarable(s)
    ensures ok <==> s.outputs != [] && s.hole > 0 && |s.prefix| + s.hole <= 100
                    && |s.outputs| + (if s.reserved.Some? then 42 else 8) < 0x1_0000
    ensures ok ==> prefix == DeclaredPrefix(s) && suffix == DeclaredSuffix(s)
  {
    hide Le, NullInput;
    ok, prefix, suffix := false, [], [];
    if s.outputs == [] || s.hole == 0 {
      return;
    }
    var length := |s.prefix| + s.hole;
    if length > MAX_SCRIPTSIG {
      return;
    }
    var plen := 4 + (if s.reserved.Some? then 2 else 0) + 1 + 36 + |Compact(length)| + |s.prefix|;
    var slen := 4 + |s.outputs| + (if s.reserved.Some? then 2 + 32 else 0) + 4;
    if plen >= U16 || slen >= U16 {
      return;
    }
    var p := Le(s.version, 4);
    if s.reserved.Some? {
      p := p + [0, 1];
    }
    p := p + NullInput();
    p := p + Compact(length);
    p := p + s.prefix;
    prefix := p;
    p := Le(s.sequence, 4);
    p := p + s.outputs;
    if s.reserved.Some? {
      p := p + [1, 32];
      p := p + s.reserved.value;
    }
    p := p + Le(s.locktime, 4);
    suffix := p;
    ok := true;
  }

  function Marker(s: Spec): seq<Byte> {
    if s.reserved.Some? then [0, 1] else []
  }

  function Witness(s: Spec): seq<Byte> {
    if s.reserved.Some? then [1, 32] + s.reserved.value else []
  }

  function DeclaredPrefix(s: Spec): seq<Byte>
    requires Declarable(s)
  {
    Le(s.version, 4) + Marker(s) + NullInput() + Compact(|s.prefix| + s.hole) + s.prefix
  }

  function DeclaredSuffix(s: Spec): seq<Byte>
    requires Declarable(s)
  {
    Le(s.sequence, 4) + s.outputs + Witness(s) + Le(s.locktime, 4)
  }

  lemma DeclaredAround(s: Spec, hole: seq<Byte>)
    requires Declarable(s) && |hole| == s.hole
    ensures var whole := DeclaredPrefix(s) + hole + DeclaredSuffix(s);
            var n := |whole|;
            var m, w := |Marker(s)|, |Witness(s)|;
            && n >= 8 + m + w
            && whole[..4] + whole[4 + m..n - 4 - w] + whole[n - 4..]
               == Coinbase(s.version, s.prefix + hole, s.sequence, s.outputs, s.locktime)
            && whole[4..4 + m] == Marker(s) && whole[n - 4 - w..n - 4] == Witness(s)
  {
    hide Le, NullInput, Marker, Witness, Coinbase, DeclaredPrefix, DeclaredSuffix;
    var body := Inside(s, hole);
    DeclaredIs(s, hole);
    Around(Le(s.version, 4), Marker(s), body, Witness(s), Le(s.locktime, 4));
    CoinbaseIs(s, hole, body);
  }

  lemma MarkerIs(s: Spec)
    requires s.reserved.Some? ==> |s.reserved.value| == 32
    ensures s.reserved.Some? ==> Marker(s) == [0, 1] && Witness(s) == [1, 32] + s.reserved.value && |Witness(s)| == 34
    ensures s.reserved.None? ==> Marker(s) == [] && Witness(s) == []
  {
  }

  /** Declared, with the hole filled by any bytes of its length, and marker, flag and witness left out, is what
    * is assembled from the same bytes. */
  lemma DeclaredIsAssembled(s: Spec, hole: seq<Byte>)
    requires Declarable(s) && |hole| == s.hole
    ensures var whole := DeclaredPrefix(s) + hole + DeclaredSuffix(s);
            var n := |whole|;
            var m, w := if s.reserved.Some? then 2 else 0, if s.reserved.Some? then 34 else 0;
            && n >= 8 + m + w
            && whole[..4] + whole[4 + m..n - 4 - w] + whole[n - 4..]
               == Coinbase(s.version, s.prefix + hole, s.sequence, s.outputs, s.locktime)
            && (s.reserved.Some? ==> whole[4..6] == [0, 1] && whole[n - 38..n - 4] == [1, 32] + s.reserved.value)
  {
    hide Marker, Witness, Coinbase, DeclaredPrefix, DeclaredSuffix;
    DeclaredAround(s, hole);
    MarkerIs(s);
  }

  /** What lies between marker and witness. */
  function Inside(s: Spec, hole: seq<Byte>): seq<Byte>
    requires Declarable(s)
  {
    NullInput() + [|s.prefix| + s.hole] + s.prefix + hole + Le(s.sequence, 4) + s.outputs
  }

  lemma DeclaredIs(s: Spec, hole: seq<Byte>)
    requires Declarable(s)
    ensures DeclaredPrefix(s) + hole + DeclaredSuffix(s)
         == Le(s.version, 4) + Marker(s) + Inside(s, hole) + Witness(s) + Le(s.locktime, 4)
  {
    hide Le, NullInput, Marker, Witness;
    var head := Le(s.version, 4) + Marker(s);
    var inner := NullInput() + [|s.prefix| + s.hole] + s.prefix;
    var outer := Le(s.sequence, 4) + s.outputs;
    var tail := Witness(s) + Le(s.locktime, 4);
    assert DeclaredPrefix(s) == head + inner;
    assert DeclaredSuffix(s) == outer + tail;
    assert Inside(s, hole) == inner + hole + outer;
    Regroup(head, inner, hole, outer, tail);
    assert head + Inside(s, hole) + tail == head + Inside(s, hole) + Witness(s) + Le(s.locktime, 4);
  }

  lemma Regroup(a: seq<Byte>, b: seq<Byte>, c: seq<Byte>, d: seq<Byte>, e: seq<Byte>)
    ensures (a + b) + c + (d + e) == a + (b + c + d) + e
  {
  }

  lemma CoinbaseIs(s: Spec, hole: seq<Byte>, body: seq<Byte>)
    requires Declarable(s) && |hole| == s.hole
    requires body == Inside(s, hole)
    ensures Coinbase(s.version, s.prefix + hole, s.sequence, s.outputs, s.locktime)
         == Le(s.version, 4) + body + Le(s.locktime, 4)
  {
    hide Le, NullInput;
  }

  lemma Around(a: seq<Byte>, b: seq<Byte>, c: seq<Byte>, d: seq<Byte>, e: seq<Byte>)
    ensures var s := a + b + c + d + e;
            var i, j, k, l := |a|, |a| + |b|, |a| + |b| + |c|, |a| + |b| + |c| + |d|;
            s[..i] == a && s[i..j] == b && s[j..k] == c && s[k..l] == d && s[l..] == e
  {
  }

  /** An assembled coinbase reads as one input that spends the null outpoint, with its script behind a length
    * of one byte, then the sequence number, the outputs and the lock time. */
  lemma CoinbaseReads(version: nat, scriptSig: seq<Byte>, sequence: nat, outputs: seq<Byte>, locktime: nat)
    requires |scriptSig| < 256
    ensures var c := Coinbase(version, scriptSig, sequence, outputs, locktime);
            var n := |scriptSig|;
            && |c| == 50 + n + |outputs|
            && c[..4] == Le(version, 4) && c[4] == 1 && c[5..37] == Zeros(32) && c[37..41] == [0xff, 0xff, 0xff, 0xff]
            && c[41] == n && c[42..42 + n] == scriptSig && c[42 + n..46 + n] == Le(sequence, 4)
            && c[46 + n..46 + n + |outputs|] == outputs && c[46 + n + |outputs|..] == Le(locktime, 4)
  {
    hide Le;
    var c := Coinbase(version, scriptSig, sequence, outputs, locktime);
    var head := Header(version) + [|scriptSig|];
    Around(head, scriptSig, Le(sequence, 4), outputs, Le(locktime, 4));
    HeaderReads(version);
    assert c[..42] == head;
    assert c[..4] == head[..4] && c[5..37] == head[5..37] && c[37..41] == head[37..41] && c[4] == head[4] && c[41] == head[41];
  }

  lemma HeaderReads(version: nat)
    ensures var h := Header(version);
            h[..4] == Le(version, 4) && h[4] == 1 && h[5..37] == Zeros(32) && h[37..41] == [0xff, 0xff, 0xff, 0xff]
  {
    hide Le;
    var h := Header(version);
    assert h[5..37] == Zeros(32);
    assert h[37..41] == [0xff, 0xff, 0xff, 0xff];
  }

  // ----- finality -----

  datatype Finality = Final | NonFinal | Unknown | Malformed

  /** Bitcoin's rule for the single input of a coinbase, at this height and median time. */
  predicate IsFinal(sequence: nat, locktime: nat, height: int, time: int) {
    || locktime == 0
    || locktime < (if locktime < LOCKTIME_THRESHOLD then height else time)
    || sequence == FINAL_SEQUENCE
  }

  /** `coinbase_finality`. */
  method Finally(coinbase: seq<Byte>, height: int) returns (f: Finality, sequence: nat, locktime: nat)
    ensures f == Malformed <==> |coinbase| < 50 || coinbase[41] >= 0xfd || 50 + coinbase[41] > |coinbase|
    ensures f != Malformed ==> sequence == LeValue(coinbase[42 + coinbase[41]..46 + coinbase[41]])
    ensures f != Malformed ==> locktime == LeValue(coinbase[|coinbase| - 4..])
    ensures f == Final <==> f != Malformed && forall time :: 0 <= time ==> IsFinal(sequence, locktime, height, time)
    ensures f == NonFinal <==> f != Malformed && forall time :: 0 <= time ==> !IsFinal(sequence, locktime, height, time)
    ensures f == Final <==> f != Malformed && (locktime == 0 || sequence == 0xffff_ffff || (locktime < 500_000_000 && locktime < height))
    ensures f == NonFinal ==> 0 < locktime < 500_000_000
    ensures f == Unknown ==> locktime >= 500_000_000
  {
    f, sequence, locktime := Malformed, 0, 0;
    if |coinbase| < 50 {
      return;
    }
    var length: int := coinbase[41];
    if length >= 0xfd {
      return;
    }
    var at := 42 + length;
    if at + 8 > |coinbase| {
      return;
    }
    sequence := LeValue(coinbase[at..at + 4]);
    locktime := LeValue(coinbase[|coinbase| - 4..]);
    f := if locktime == 0 || sequence == FINAL_SEQUENCE then Final
         else if locktime < LOCKTIME_THRESHOLD then if locktime < height then Final else NonFinal
         else Unknown;
    ghost var early, late := IsFinal(sequence, locktime, height, 0), IsFinal(sequence, locktime, height, locktime + 1);
    assert f == Final <==> early;
    assert f == NonFinal <==> !late;
  }

  /** On a coinbase assembled here the two fields are found, whatever the scriptSig. */
  lemma FieldsFound(version: nat, scriptSig: seq<Byte>, sequence: nat, outputs: seq<Byte>, locktime: nat)
    requires |scriptSig| < 0xfd && sequence < U32 && locktime < U32
    ensures var c := Coinbase(version, scriptSig, sequence, outputs, locktime);
            && |c| >= 50 + |scriptSig| && c[41] == |scriptSig|
            && LeValue(c[42 + |scriptSig|..46 + |scriptSig|]) == sequence && LeValue(c[|c| - 4..]) == locktime
  {
    hide Le, LeValue, Header;
    Bounds();
    LeRoundTrip(sequence, 4);
    LeRoundTrip(locktime, 4);
    var c := Coinbase(version, scriptSig, sequence, outputs, locktime);
    Around(Header(version) + [|scriptSig|], scriptSig, Le(sequence, 4), outputs, Le(locktime, 4));
    assert c == Header(version) + [|scriptSig|] + scriptSig + Le(sequence, 4) + outputs + Le(locktime, 4);
    assert c[41] == (Header(version) + [|scriptSig|])[41];
  }
}

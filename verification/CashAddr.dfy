/** The CashAddr checksum (`src/cashaddr_simple.c`, "Checksum" section of the CashAddr
  * specification): a BCH code over GF(32) kept as eight 5-bit symbols in a 40-bit word.
  *
  * Symbols are 64-bit words as in the source's arithmetic; only values below 32 occur.
  */
module CashAddr {
  import opened Digits
  import BitGroups

  type Word = bv64

  const STATE: Word := 0x100_0000_0000

  /** Exclusive or, named so that proofs can use its laws without its bits. */
  function Xor(a: Word, b: Word): Word {
    a ^ b
  }

  function Choose(b: bool, generator: Word): Word {
    if b then generator else 0
  }

  /** The sum of those of five words that are picked. */
  function PicksOf(p1: bool, p2: bool, p3: bool, p4: bool, p5: bool, g1: Word, g2: Word, g3: Word, g4: Word, g5: Word): Word {
    Xor(Xor(Xor(Xor(Choose(p1, g1), Choose(p2, g2)), Choose(p3, g3)), Choose(p4, g4)), Choose(p5, g5))
  }

  /** The generators picked by the five bits of the symbol shifted out. */
  function Picks(p1: bool, p2: bool, p3: bool, p4: bool, p5: bool): Word {
    PicksOf(p1, p2, p3, p4, p5, 0x98_f2bc_8e61, 0x79_b76d_99e2, 0xf3_3e5f_b3c4, 0xae_2eab_e2a8, 0x1e_4f43_e470)
  }

  predicate Bit(c0: Word, mask: Word) {
    c0 & mask != 0
  }

  function Reduce(c0: Word): Word {
    Picks(Bit(c0, 0x01), Bit(c0, 0x02), Bit(c0, 0x04), Bit(c0, 0x08), Bit(c0, 0x10))
  }

  function Top(c: Word): Word {
    (c >> 35) & 0xff
  }

  function Rest(c: Word): Word {
    (c & 0x07_ffff_ffff) << 5
  }

  /** One round of `polymod`: shift a symbol in and reduce by the symbol shifted out. */
  function Step(c: Word, v: Word): Word {
    Xor(Xor(Rest(c), v), Reduce(Top(c)))
  }

  function Run(c: Word, values: seq<Word>): Word {
    if values == [] then c else Step(Run(c, values[..|values| - 1]), values[|values| - 1])
  }

  ghost predicate Symbols(s: seq<Word>) {
    forall i :: 0 <= i < |s| ==> s[i] < 32
  }

  /** `polymod`. */
  method Polymod(values: seq<Word>) returns (c: Word)
    ensures c == Run(1, values)
  {
    c := 1;
    for i := 0 to |values|
      invariant c == Run(1, values[..i])
    {
      assert values[..i + 1][..i] == values[..i];
      c := Step(c, values[i]);
    }
    assert values[..|values|] == values;
  }

  // ---------------------------------------------------------------- one round

  lemma ChooseLinear(x: bool, y: bool, g: Word)
    ensures Choose(x != y, g) == Xor(Choose(x, g), Choose(y, g))
  {
    if x {
      if y {
        assert g ^ g == 0;
      } else {
        assert g ^ 0 == g;
      }
    } else {
      assert 0 ^ Choose(y, g) == Choose(y, g);
    }
  }

  lemma XorAssoc(a: Word, b: Word, c: Word)
    ensures Xor(Xor(a, b), c) == Xor(a, Xor(b, c))
  {
  }

  lemma XorComm(a: Word, b: Word)
    ensures Xor(a, b) == Xor(b, a)
  {
  }

  lemma XorPairs(a: Word, b: Word, c: Word, d: Word)
    ensures Xor(Xor(a, b), Xor(c, d)) == Xor(Xor(a, c), Xor(b, d))
  {
    hide Xor;
    XorAssoc(a, b, Xor(c, d));
    XorAssoc(b, c, d);
    XorComm(b, c);
    XorAssoc(c, b, d);
    XorAssoc(a, c, Xor(b, d));
  }

  lemma PicksLinear(p1: bool, q1: bool, p2: bool, q2: bool, p3: bool, q3: bool, p4: bool, q4: bool, p5: bool, q5: bool,
                    g1: Word, g2: Word, g3: Word, g4: Word, g5: Word)
    ensures PicksOf(p1 != q1, p2 != q2, p3 != q3, p4 != q4, p5 != q5, g1, g2, g3, g4, g5)
         == Xor(PicksOf(p1, p2, p3, p4, p5, g1, g2, g3, g4, g5), PicksOf(q1, q2, q3, q4, q5, g1, g2, g3, g4, g5))
  {
    hide Xor, Choose;
    ChooseLinear(p1, q1, g1);
    ChooseLinear(p2, q2, g2);
    ChooseLinear(p3, q3, g3);
    ChooseLinear(p4, q4, g4);
    ChooseLinear(p5, q5, g5);
    var a1, b1 := Choose(p1, g1), Choose(q1, g1);
    var a2, b2 := Choose(p2, g2), Choose(q2, g2);
    var a3, b3 := Choose(p3, g3), Choose(q3, g3);
    var a4, b4 := Choose(p4, g4), Choose(q4, g4);
    var a5, b5 := Choose(p5, g5), Choose(q5, g5);
    XorPairs(a1, b1, a2, b2);
    XorPairs(Xor(a1, a2), Xor(b1, b2), a3, b3);
    XorPairs(Xor(Xor(a1, a2), a3), Xor(Xor(b1, b2), b3), a4, b4);
    XorPairs(Xor(Xor(Xor(a1, a2), a3), a4), Xor(Xor(Xor(b1, b2), b3), b4), a5, b5);
  }

  lemma BitOfXor(a: Word, b: Word, mask: Word)
    requires mask == 0x01 || mask == 0x02 || mask == 0x04 || mask == 0x08 || mask == 0x10
    ensures Bit(Xor(a, b), mask) == (Bit(a, mask) != Bit(b, mask))
  {
  }

  lemma BitsOfXor(u: Word, v: Word)
    ensures Bit(Xor(u, v), 0x01) == (Bit(u, 0x01) != Bit(v, 0x01)) && Bit(Xor(u, v), 0x02) == (Bit(u, 0x02) != Bit(v, 0x02))
    ensures Bit(Xor(u, v), 0x04) == (Bit(u, 0x04) != Bit(v, 0x04)) && Bit(Xor(u, v), 0x08) == (Bit(u, 0x08) != Bit(v, 0x08))
    ensures Bit(Xor(u, v), 0x10) == (Bit(u, 0x10) != Bit(v, 0x10))
  {
    hide Xor, Bit;
    BitOfXor(u, v, 0x01);
    BitOfXor(u, v, 0x02);
    BitOfXor(u, v, 0x04);
    BitOfXor(u, v, 0x08);
    BitOfXor(u, v, 0x10);
  }

  lemma ReduceOfXor(a: Word, b: Word)
    ensures Reduce(Xor(a, b)) == Picks(Bit(a, 0x01) != Bit(b, 0x01), Bit(a, 0x02) != Bit(b, 0x02), Bit(a, 0x04) != Bit(b, 0x04),
                                       Bit(a, 0x08) != Bit(b, 0x08), Bit(a, 0x10) != Bit(b, 0x10))
  {
    hide Xor, Picks, Bit;
    BitsOfXor(a, b);
  }

  lemma ReduceLinear(a: Word, b: Word)
    ensures Reduce(Xor(a, b)) == Xor(Reduce(a), Reduce(b))
  {
    hide Xor, PicksOf, Bit;
    ReduceOfXor(a, b);
    PicksLinear(Bit(a, 0x01), Bit(b, 0x01), Bit(a, 0x02), Bit(b, 0x02), Bit(a, 0x04), Bit(b, 0x04),
                Bit(a, 0x08), Bit(b, 0x08), Bit(a, 0x10), Bit(b, 0x10),
                0x98_f2bc_8e61, 0x79_b76d_99e2, 0xf3_3e5f_b3c4, 0xae_2eab_e2a8, 0x1e_4f43_e470);
  }

  lemma ShiftLinear(c: Word, d: Word)
    ensures Top(Xor(c, d)) == Xor(Top(c), Top(d)) && Rest(Xor(c, d)) == Xor(Rest(c), Rest(d))
  {
  }

  /** The round is linear over exclusive or. */
  lemma StepLinear(c: Word, v: Word, d: Word, w: Word)
    ensures Xor(Step(c, v), Step(d, w)) == Step(Xor(c, d), Xor(v, w))
  {
    hide Xor, Reduce, Top, Rest;
    ShiftLinear(c, d);
    ReduceLinear(Top(c), Top(d));
    XorPairs(Rest(c), v, Rest(d), w);
    XorPairs(Xor(Rest(c), v), Reduce(Top(c)), Xor(Rest(d), w), Reduce(Top(d)));
  }

  lemma XorIdentity(a: Word)
    ensures Xor(a, a) == 0 && Xor(a, 0) == a && Xor(0, a) == a
  {
  }

  lemma NothingPicked()
    ensures Reduce(0) == 0
  {
  }

  /** Before the first symbol has travelled through all eight places nothing is reduced. */
  lemma StepBelow(d: Word, x: Word, bound: Word, next: Word)
    requires d < bound <= 0x08_0000_0000 && x < 32 && next == bound << 5
    ensures Step(d, x) < next
    ensures d != 0 || x != 0 ==> Step(d, x) != 0
  {
    hide *;
    StepShifts(d, x, bound);
    LowBits(d, x, bound, Step(d, x), next);
  }

  lemma StepShifts(d: Word, x: Word, bound: Word)
    requires d < bound <= 0x08_0000_0000
    ensures Step(d, x) == (d << 5) ^ x
  {
    hide Xor, Reduce, Top, Rest;
    ShiftBelow(d, bound);
    NothingPicked();
    XorIdentity(Xor(d << 5, x));
    XorIs(d << 5, x);
  }

  lemma ShiftBelow(d: Word, bound: Word)
    requires d < bound <= 0x08_0000_0000
    ensures Top(d) == 0 && Rest(d) == d << 5
  {
  }

  lemma XorIs(a: Word, b: Word)
    ensures Xor(a, b) == a ^ b
  {
  }

  lemma LowBits(d: Word, x: Word, bound: Word, z: Word, next: Word)
    requires d < bound <= 0x08_0000_0000 && x < 32 && z == (d << 5) ^ x && next == bound << 5
    ensures z < next
    ensures d != 0 || x != 0 ==> z != 0
  {
  }

  /** Nothing but the zero state is shifted to zero: the low symbols of the five generators
    * are 1, 2, 4, 8 and 16. */
  lemma StepInjective(d: Word)
    requires d < STATE && Step(d, 0) == 0
    ensures d == 0
  {
  }

  lemma StepStaysInState(c: Word, v: Word)
    requires c < STATE && v < 32
    ensures Step(c, v) < STATE
  {
  }

  // ---------------------------------------------------------------- whole strings

  function Difference(a: seq<Word>, b: seq<Word>): (x: seq<Word>)
    requires |a| == |b|
    ensures |x| == |a| && forall i :: 0 <= i < |x| ==> x[i] == Xor(a[i], b[i])
  {
    seq(|a|, i requires 0 <= i < |a| => Xor(a[i], b[i]))
  }

  lemma {:induction false} RunLinear(c: Word, a: seq<Word>, d: Word, b: seq<Word>)
    requires |a| == |b|
    ensures Xor(Run(c, a), Run(d, b)) == Run(Xor(c, d), Difference(a, b))
  {
    hide Xor, Step;
    if a != [] {
      var n := |a| - 1;
      RunLinear(c, a[..n], d, b[..n]);
      assert Difference(a, b)[..n] == Difference(a[..n], b[..n]);
      StepLinear(Run(c, a[..n]), a[n], Run(d, b[..n]), b[n]);
    }
  }

  /** 2^(5 j): what j symbols from the zero state stay below. */
  function Bound(j: nat): Word
    requires j <= 8
  {
    if j == 0 then 0x1 else if j == 1 then 0x20 else if j == 2 then 0x400 else if j == 3 then 0x8000
    else if j == 4 then 0x10_0000 else if j == 5 then 0x200_0000 else if j == 6 then 0x4000_0000
    else if j == 7 then 0x8_0000_0000 else STATE
  }

  predicate Below(c: Word, j: nat)
    requires j <= 8
  {
    c < Bound(j)
  }

  /** Outside the burst a zero symbol keeps zero zero and nonzero nonzero. */
  lemma StepZero(c: Word)
    requires Below(c, 8)
    ensures Below(Step(c, 0), 8) && (Step(c, 0) == 0 <==> c == 0)
  {
    hide Step;
    StepStaysInState(c, 0);
    ZeroToZero();
    if Step(c, 0) == 0 {
      StepInjective(c);
    }
  }

  lemma ZeroToZero()
    ensures Step(0, 0) == 0
  {
  }

  /** Within the burst the state is the number its symbols spell. */
  lemma StepInBurst(c: Word, v: Word, j: nat)
    requires j < 8 && Below(c, j) && v < 32
    ensures Below(Step(c, v), j + 1) && (Step(c, v) == 0 <==> c == 0 && v == 0)
  {
    hide Step, Below;
    BurstGrows(c, v, j);
    if c == 0 && v == 0 {
      ZeroToZero();
    }
  }

  lemma BurstGrows(c: Word, v: Word, j: nat)
    requires j < 8 && Below(c, j) && v < 32
    ensures Below(Step(c, v), j + 1) && (c != 0 || v != 0 ==> Step(c, v) != 0)
  {
    hide Step;
    if j == 0 { StepBelow(c, v, 0x1, 0x20); }
    else if j == 1 { StepBelow(c, v, 0x20, 0x400); }
    else if j == 2 { StepBelow(c, v, 0x400, 0x8000); }
    else if j == 3 { StepBelow(c, v, 0x8000, 0x10_0000); }
    else if j == 4 { StepBelow(c, v, 0x10_0000, 0x200_0000); }
    else if j == 5 { StepBelow(c, v, 0x200_0000, 0x4000_0000); }
    else if j == 6 { StepBelow(c, v, 0x4000_0000, 0x8_0000_0000); }
    else { StepBelow(c, v, 0x8_0000_0000, STATE); }
  }

  lemma BelowZero(c: Word)
    ensures Below(c, 0) <==> c == 0
  {
  }

  ghost predicate ZeroIn(x: seq<Word>, lo: nat, hi: nat) {
    forall k :: lo <= k < hi && k < |x| ==> x[k] == 0
  }

  /** The state after n symbols of a string that is zero outside positions i to i+7: zero
    * exactly as long as no symbol has been nonzero. */
  lemma {:induction false} BurstState(x: seq<Word>, i: nat, n: nat)
    requires n <= |x| && Symbols(x) && ZeroIn(x, 0, i) && ZeroIn(x, i + 8, |x|)
    ensures Run(0, x[..n]) == 0 <==> ZeroIn(x, 0, n)
    ensures Below(Run(0, x[..n]), if n <= i then 0 else if n <= i + 8 then n - i else 8)
  {
    hide Step, Below;
    if n == 0 {
      BelowZero(0);
    } else {
      var m := n - 1;
      BurstState(x, i, m);
      assert x[..n][..m] == x[..m];
      var c := Run(0, x[..m]);
      if m < i {
        BelowZero(c);
        ZeroToZero();
      } else if m < i + 8 {
        StepInBurst(c, x[m], m - i);
      } else {
        StepZero(c);
      }
    }
  }

  /** Two payloads of one length that carry a valid checksum under one prefix are equal if
    * they agree outside a window of eight symbols. */
  lemma BurstDetected(prefix: seq<Word>, a: seq<Word>, b: seq<Word>, i: nat)
    requires |a| == |b| && Symbols(a) && Symbols(b)
    requires forall k :: 0 <= k < |a| && !(i <= k < i + 8) ==> a[k] == b[k]
    requires Run(1, prefix + a) == 1 && Run(1, prefix + b) == 1
    ensures a == b
  {
    hide Step, Xor;
    var x := Difference(prefix + a, prefix + b);
    RunLinear(1, prefix + a, 1, prefix + b);
    XorIdentity(1);
    forall k | 0 <= k < |x| ensures x[k] < 32 && (x[k] == 0 <==> (prefix + a)[k] == (prefix + b)[k]) {
      SymbolDifference((prefix + a)[k], (prefix + b)[k]);
    }
    var at := |prefix| + i;
    BurstState(x, at, |x|);
    assert x[..|x|] == x;
    forall k | 0 <= k < |a| ensures a[k] == b[k] {
      assert x[|prefix| + k] == 0;
      assert (prefix + a)[|prefix| + k] == a[k] && (prefix + b)[|prefix| + k] == b[k];
    }
  }

  lemma SymbolDifference(v: Word, w: Word)
    ensures Xor(v, w) == 0 <==> v == w
    ensures (v < 32 && w < 32) || v == w ==> Xor(v, w) < 32
  {
    hide Xor;
    XorIdentity(v);
    XorIdentity(w);
    XorAssoc(v, w, w);
    if v < 32 && w < 32 {
      SymbolsXor(v, w);
    }
  }

  lemma SymbolsXor(v: Word, w: Word)
    requires v < 32 && w < 32
    ensures Xor(v, w) < 32
  {
  }

  lemma NineSteps()
    ensures Step(0x0, 1) == 0x1
    ensures Step(0x1, 19) == 0x33
    ensures Step(0x33, 3) == 0x663
    ensures Step(0x663, 25) == 0xcc79
    ensures Step(0xcc79, 11) == 0x198f2b
    ensures Step(0x198f2b, 25) == 0x331e579
    ensures Step(0x331e579, 3) == 0x663caf23
    ensures Step(0x663caf23, 19) == 0xcc795e473
    ensures Step(0xcc795e473, 1) == 0x0
  {
  }

  /** The states a string leads through. */
  lemma {:induction false} RunThrough(s: seq<Word>, states: seq<Word>)
    requires |states| == |s| + 1 && forall k :: 0 <= k < |s| ==> Step(states[k], s[k]) == states[k + 1]
    ensures Run(states[0], s) == states[|s|]
  {
    hide Step;
    if s != [] {
      var n := |s| - 1;
      RunThrough(s[..n], states[..n + 1]);
    }
  }

  const NINE: seq<Word> := [1, 19, 3, 25, 11, 25, 3, 19, 1]

  /** Nine symbols lead the zero state back to zero. */
  lemma NineFromZero()
    ensures Run(0, NINE) == 0
  {
    NineSteps();
    hide Step;
    RunThrough(NINE, [0x0, 0x1, 0x33, 0x663, 0xcc79, 0x198f2b, 0x331e579, 0x663caf23, 0xcc795e473, 0x0]);
  }

  lemma {:induction false} RunSum(c: Word, a: seq<Word>, b: seq<Word>)
    ensures Run(c, a + b) == Run(Run(c, a), b)
    decreases |b|
  {
    hide Step;
    if b == [] {
      assert a + b == a;
    } else {
      var n := |b| - 1;
      RunSum(c, a, b[..n]);
      assert (a + b)[..|a| + n] == a + b[..n];
    }
  }

  function Blank(n: nat): (z: seq<Word>)
    ensures |z| == n && forall k :: 0 <= k < n ==> z[k] == 0
  {
    seq(n, _ => 0)
  }

  lemma {:induction false} RunBlank(n: nat)
    ensures Run(0, Blank(n)) == 0
  {
    hide Step;
    ZeroToZero();
    if n > 0 {
      RunBlank(n - 1);
      assert Blank(n)[..n - 1] == Blank(n - 1);
    }
  }

  /** Those nine with zeros around them. */
  function Nine(before: nat, after: nat): (x: seq<Word>)
    ensures |x| == before + 9 + after && Symbols(x) && x[before] == 1
    ensures forall k :: 0 <= k < |x| && !(before <= k < before + 9) ==> x[k] == 0
  {
    Blank(before) + NINE + Blank(after)
  }

  lemma NineStaysZero(before: nat, after: nat)
    ensures Run(0, Nine(before, after)) == 0
  {
    hide Step;
    NineFromZero();
    RunBlank(before);
    RunBlank(after);
    RunSum(0, Blank(before), NINE);
    RunSum(0, Blank(before) + NINE, Blank(after));
  }

  /** The payload with the nine symbols added from place i on. */
  function WithNine(a: seq<Word>, i: nat): (b: seq<Word>)
    requires i + 9 <= |a|
    ensures |b| == |a|
  {
    Difference(a, Nine(i, |a| - i - 9))
  }

  lemma AddedSymbol(v: Word, w: Word)
    requires v < 32 && w < 32
    ensures Xor(v, w) < 32 && (Xor(v, w) == v <==> w == 0)
  {
  }

  lemma NineAdded(a: seq<Word>, i: nat)
    requires Symbols(a) && i + 9 <= |a|
    ensures var b := WithNine(a, i);
            && Symbols(b) && b[i] != a[i]
            && forall k :: 0 <= k < |a| && !(i <= k < i + 9) ==> b[k] == a[k]
  {
    hide Xor, Nine;
    var nine := Nine(i, |a| - i - 9);
    forall k | 0 <= k < |a| ensures WithNine(a, i)[k] < 32 && (WithNine(a, i)[k] == a[k] <==> nine[k] == 0) {
      AddedSymbol(a[k], nine[k]);
    }
  }

  lemma {:induction false} RunAdded(c: Word, a: seq<Word>, x: seq<Word>)
    requires |a| == |x| && Run(0, x) == 0
    ensures Run(c, Difference(a, x)) == Run(c, a)
  {
    hide Xor, Step, Run, Difference;
    RunLinear(c, a, 0, x);
    XorIdentity(c);
    XorIdentity(Run(c, a));
  }

  /** Eight is as wide as the window can be: nine symbols, added to any payload with a valid checksum
    * at any place, leave it one with a valid checksum. */
  lemma BurstOfNineUndetected(prefix: seq<Word>, a: seq<Word>, i: nat)
    requires Symbols(a) && i + 9 <= |a| && Run(1, prefix + a) == 1
    ensures var b := WithNine(a, i);
            && Symbols(b) && b != a && Run(1, prefix + b) == 1
            && forall k :: 0 <= k < |a| && !(i <= k < i + 9) ==> b[k] == a[k]
  {
    hide Run, Nine, Difference, Symbols;
    NineAdded(a, i);
    NineStaysZero(i, |a| - i - 9);
    RunSum(1, prefix, a);
    RunSum(1, prefix, WithNine(a, i));
    RunAdded(Run(1, prefix), a, Nine(i, |a| - i - 9));
  }

  // ---------------------------------------------------------------- decoding

  ghost predicate ValidChecksum(prefix: seq<Word>, data: seq<Word>) {
    Run(1, prefix + [0] + data) == 1
  }

  /** The bytes of a payload without its eight checksum symbols. */
  function Numbers(data: seq<Word>): (r: seq<nat>)
    ensures |r| == |data|
  {
    seq(|data|, i requires 0 <= i < |data| => data[i] as nat)
  }

  datatype Address = Address(p2sh: bool, hash160: seq<nat>)

  datatype Decoded = Rejected | Accepted(address: Address)

  /** The payload without its checksum. */
  function Body(data: seq<Word>): seq<nat>
    requires |data| >= 8
  {
    Numbers(data[..|data| - 8])
  }

  /** The body spells a version byte of type 0 or 1 and 20 bytes of hash. */
  ghost predicate Spells(body: seq<nat>, version: nat, address: Address) {
    && BitGroups.ZeroPadded(body) && BitGroups.BytesOf(body, [version] + address.hash160)
    && |address.hash160| == 20 && version < 16 && address.p2sh == (version / 8 == 1)
  }

  /** What the decoder makes of the symbols of an address: prefix are the low five bits of
    * the expected network prefix, data the payload characters looked up in the charset. */
  ghost predicate Denotes(prefix: seq<Word>, data: seq<Word>, address: Address) {
    && 14 <= |data| <= 112 && |prefix| + 1 + |data| <= 133
    && ValidChecksum(prefix, data)
    && exists version: nat :: Spells(Body(data), version, address)
  }

  lemma OneReading(body: seq<nat>, v: nat, h: seq<nat>, w: nat, k: seq<nat>)
    requires BitGroups.BytesOf(body, [v] + h) && BitGroups.BytesOf(body, [w] + k)
    ensures v == w && h == k
  {
    ValueInjective(256, [v] + h, [w] + k);
    assert ([v] + h)[1..] == h && ([w] + k)[1..] == k && ([v] + h)[0] == v && ([w] + k)[0] == w;
  }

  /** `cashaddr_decode_checked` from the point where the charset lookup is done: an address
    * is accepted exactly when the symbols denote it. */
  method DecodeSymbols(prefix: seq<Word>, data: seq<Word>) returns (d: Decoded)
    requires 14 <= |data| <= 112
    ensures forall address :: Denotes(prefix, data, address) <==> d == Accepted(address)
  {
    if |prefix| + 1 + |data| > 133 {
      return Rejected;
    }
    var check := Polymod(prefix + [0] + data);
    if check != 1 {
      return Rejected;
    }
    var body := Body(data);
    var decoded := new nat[65](_ => 0);
    var ok, len := BitGroups.FiveToEight(body, decoded);
    if !ok || len != 21 {
      return Rejected;
    }
    var version, hash := decoded[0], decoded[1..21];
    assert decoded[..len] == [version] + hash;
    var address := Address(version / 8 % 16 == 1, hash);
    if version >= 128 || version / 8 % 16 > 1 {
      forall v: nat, other | Spells(body, v, other) ensures false {
        OneReading(body, v, other.hash160, version, hash);
      }
      return Rejected;
    }
    OnlyReading(prefix, data, version, address);
    return Accepted(address);
  }

  lemma OnlyReading(prefix: seq<Word>, data: seq<Word>, version: nat, address: Address)
    requires 14 <= |data| <= 112 && |prefix| + 1 + |data| <= 133 && ValidChecksum(prefix, data)
    requires Spells(Body(data), version, address)
    ensures forall other :: Denotes(prefix, data, other) <==> other == address
  {
    forall other, v: nat | Spells(Body(data), v, other) ensures other == address {
      OneReading(Body(data), v, other.hash160, version, address.hash160);
    }
  }

  /** Mistyping up to eight neighbouring characters of an accepted address never gives
    * another accepted address. */
  lemma MistypedIsRejected(prefix: seq<Word>, a: seq<Word>, b: seq<Word>, i: nat, address: Address)
    requires |a| == |b| && Symbols(a) && Symbols(b) && a != b
    requires forall k :: 0 <= k < |a| && !(i <= k < i + 8) ==> a[k] == b[k]
    requires Denotes(prefix, a, address)
    ensures forall other :: !Denotes(prefix, b, other)
  {
    forall other ensures !Denotes(prefix, b, other) {
      if Denotes(prefix, b, other) {
        BurstDetected(prefix + [0], a, b, i);
      }
    }
  }

  // ---------------------------------------------------------------- the kind of an address

  lemma Widths()
    ensures Pow(32, 33) == 32 * Pow(256, 20)
  {
    PowAdd(32, 4, 4);
    PowAdd(32, 8, 8);
    PowAdd(32, 16, 16);
    PowAdd(256, 5, 5);
    PowAdd(256, 10, 10);
    FourSymbols();
    FiveBytes();
  }

  lemma FourSymbols()
    ensures Pow(32, 4) == 0x10_0000
  {
    assert Pow(32, 2) == 32 * Pow(32, 1);
    assert Pow(32, 3) == 32 * Pow(32, 2);
  }

  lemma FiveBytes()
    ensures Pow(256, 5) == 0x100_0000_0000
  {
    assert Pow(256, 2) == 256 * Pow(256, 1);
    assert Pow(256, 3) == 256 * Pow(256, 2);
    assert Pow(256, 4) == 256 * Pow(256, 3);
  }

  /** The leading symbol is the leading five bits of the version byte, of which the sixth is zero. */
  lemma LeadingSymbol(first: nat, rest: nat, version: nat, hash: nat, p: nat)
    requires first * (32 * p) + rest == 4 * (version * p + hash) && rest < 32 * p && hash < p && version < 256
    ensures first == version / 8
  {
    var d, e := version / 8, version % 8;
    MulMonotone(e + 1, 8, p);
    assert (e + 1) * p == e * p + p;
    assert version * p == d * 8 * p + e * p by {
      assert version == d * 8 + e;
    }
    assert 4 * (d * 8 * p) == d * (32 * p);
    LastDigit(32 * p, first, rest, d, 4 * (e * p + hash));
  }

  /** An accepted address says what it is in its first character: `q` is symbol 0, `p` symbol 1. */
  lemma FirstCharacterTells(prefix: seq<Word>, data: seq<Word>, address: Address)
    requires Denotes(prefix, data, address)
    ensures |data| == 42 && data[0] as nat == if address.p2sh then 1 else 0
  {
    hide Value, Pow, ValidChecksum;
    var body := Body(data);
    var version: nat :| Spells(body, version, address);
    assert |body| == 34 && body[0] == data[0] as nat;
    assert BitGroups.P2(2) == 4 by {
      FourIs();
    }
    var bytes := [version] + address.hash160;
    assert Value(32, body) == 4 * Value(256, bytes);
    ValueCons(256, version, address.hash160);
    assert body == [body[0]] + body[1..];
    ValueCons(32, body[0], body[1..]);
    ValueBound(32, body[1..]);
    TailDigits(version, address.hash160);
    ValueBound(256, address.hash160);
    Widths();
    LeadingSymbol(body[0], Value(32, body[1..]), version, Value(256, address.hash160), Pow(256, 20));
  }

  lemma FourIs()
    ensures BitGroups.P2(2) == 4
  {
    assert Pow(2, 2) == 2 * Pow(2, 1);
  }

  lemma TailDigits(d: nat, s: seq<nat>)
    requires AreDigits(256, [d] + s)
    ensures AreDigits(256, s)
  {
    assert forall i :: 0 <= i < |s| ==> s[i] == ([d] + s)[i + 1];
  }
}

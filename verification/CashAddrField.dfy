/** The CashAddr checksum as the code over GF(32) that its specification defines: the strings it accepts
  * are the multiples of one polynomial of degree eight. Multiplication is that of the field, and knows
  * nothing of the 40-bit words the source computes in.
  */
module CashAddrField {
  import opened CashAddr

  /** A symbol times x, in the polynomials over GF(2) modulo x^5 + x^3 + 1. */
  function Doubled(v: Word): Word {
    if v & 0x10 == 0 then v << 1 else (v << 1) ^ 0x29
  }

  /** The product of two symbols. */
  function Times(v: Word, w: Word): Word {
    var two := Doubled(w);
    var four := Doubled(two);
    var eight := Doubled(four);
    PicksOf(Bit(v, 0x01), Bit(v, 0x02), Bit(v, 0x04), Bit(v, 0x08), Bit(v, 0x10), w, two, four, eight, Doubled(eight))
  }

  /** The generator polynomial times a symbol, from its coefficient of x^8 down. */
  function Scaled(v: Word): (s: seq<Word>)
    ensures |s| == 9 && forall i :: 0 <= i < 9 ==> s[i] == Times(v, NINE[i])
  {
    seq(9, i requires 0 <= i < 9 => Times(v, NINE[i]))
  }

  /** The generator polynomial times the polynomial q. */
  function Product(q: seq<Word>): (p: seq<Word>)
    ensures |p| == |q| + 8
  {
    if q == [] then Blank(8)
    else Difference(Scaled(q[0]) + Blank(|q| - 1), [0] + Product(q[1..]))
  }

  // ----- one multiple -----

  lemma TimesOne(v: Word)
    requires v < 32
    ensures Times(v, 1) == v
  {
  }

  lemma DoubledSmall(w: Word)
    requires w < 32
    ensures Doubled(w) < 32
  {
  }

  lemma PicksSmall(p1: bool, p2: bool, p3: bool, p4: bool, p5: bool, g1: Word, g2: Word, g3: Word, g4: Word, g5: Word)
    requires g1 < 32 && g2 < 32 && g3 < 32 && g4 < 32 && g5 < 32
    ensures PicksOf(p1, p2, p3, p4, p5, g1, g2, g3, g4, g5) < 32
  {
  }

  lemma TimesSmall(v: Word, w: Word)
    requires w < 32
    ensures Times(v, w) < 32
  {
    hide Doubled, PicksOf, Bit;
    var two := Doubled(w);
    var four := Doubled(two);
    var eight := Doubled(four);
    DoubledSmall(w);
    DoubledSmall(two);
    DoubledSmall(four);
    DoubledSmall(eight);
    PicksSmall(Bit(v, 0x01), Bit(v, 0x02), Bit(v, 0x04), Bit(v, 0x08), Bit(v, 0x10), w, two, four, eight, Doubled(eight));
  }

  lemma TimesOfXor(u: Word, v: Word, w: Word)
    ensures Times(Xor(u, v), w) == Xor(Times(u, w), Times(v, w))
  {
    hide Xor, PicksOf, Bit, Doubled;
    BitsOfXor(u, v);
    var two := Doubled(w);
    var four := Doubled(two);
    var eight := Doubled(four);
    PicksLinear(Bit(u, 0x01), Bit(v, 0x01), Bit(u, 0x02), Bit(v, 0x02), Bit(u, 0x04), Bit(v, 0x04),
                Bit(u, 0x08), Bit(v, 0x08), Bit(u, 0x10), Bit(v, 0x10), w, two, four, eight, Doubled(eight));
  }

  /** The generator polynomial times this symbol leads the zero state back to zero. */
  predicate Vanishes(v: Word) {
    Run(0, Scaled(v)) == 0
  }

  lemma VanishingSum(u: Word, v: Word)
    requires Vanishes(u) && Vanishes(v)
    ensures Vanishes(Xor(u, v))
  {
    hide Xor, Run, Times;
    RunLinear(0, Scaled(u), 0, Scaled(v));
    XorIdentity(0);
    forall i | 0 <= i < 9 ensures Scaled(Xor(u, v))[i] == Difference(Scaled(u), Scaled(v))[i] {
      TimesOfXor(u, v, NINE[i]);
    }
    assert Scaled(Xor(u, v)) == Difference(Scaled(u), Scaled(v));
  }

  lemma OneTimes()
    ensures Times(1, 1) == 1 && Times(1, 19) == 19 && Times(1, 3) == 3 && Times(1, 25) == 25 && Times(1, 11) == 11
  {
  }

  lemma OneVanishes()
    ensures Vanishes(1)
  {
    hide Run, Times;
    OneTimes();
    NineFromZero();
    assert Scaled(1) == NINE;
  }

  lemma TwoTimes()
    ensures Times(2, 1) == 2 && Times(2, 19) == 15 && Times(2, 3) == 6 && Times(2, 25) == 27 && Times(2, 11) == 22
  {
  }

  lemma TwoSteps()
    ensures Step(0x0, 2) == 0x2
    ensures Step(0x2, 15) == 0x4f
    ensures Step(0x4f, 6) == 0x9e6
    ensures Step(0x9e6, 27) == 0x13cdb
    ensures Step(0x13cdb, 22) == 0x279b76
    ensures Step(0x279b76, 27) == 0x4f36edb
    ensures Step(0x4f36edb, 6) == 0x9e6ddb66
    ensures Step(0x9e6ddb66, 15) == 0x13cdbb6ccf
    ensures Step(0x13cdbb6ccf, 2) == 0x0
  {
  }

  lemma TwoVanishes()
    ensures Vanishes(2)
  {
    TwoTimes();
    TwoSteps();
    hide Run, Times, Step;
    var s: seq<Word> := [2, 15, 6, 27, 22, 27, 6, 15, 2];
    assert Scaled(2) == s;
    RunThrough(s, [0x0, 0x2, 0x4f, 0x9e6, 0x13cdb, 0x279b76, 0x4f36edb, 0x9e6ddb66, 0x13cdbb6ccf, 0x0]);
  }

  lemma FourTimes()
    ensures Times(4, 1) == 4 && Times(4, 19) == 30 && Times(4, 3) == 12 && Times(4, 25) == 31 && Times(4, 11) == 5
  {
  }

  lemma FourSteps()
    ensures Step(0x0, 4) == 0x4
    ensures Step(0x4, 30) == 0x9e
    ensures Step(0x9e, 12) == 0x13cc
    ensures Step(0x13cc, 31) == 0x2799f
    ensures Step(0x2799f, 5) == 0x4f33e5
    ensures Step(0x4f33e5, 31) == 0x9e67cbf
    ensures Step(0x9e67cbf, 12) == 0x13ccf97ec
    ensures Step(0x13ccf97ec, 30) == 0x2799f2fd9e
    ensures Step(0x2799f2fd9e, 4) == 0x0
  {
  }

  lemma FourVanishes()
    ensures Vanishes(4)
  {
    FourTimes();
    FourSteps();
    hide Run, Times, Step;
    var s: seq<Word> := [4, 30, 12, 31, 5, 31, 12, 30, 4];
    assert Scaled(4) == s;
    RunThrough(s, [0x0, 0x4, 0x9e, 0x13cc, 0x2799f, 0x4f33e5, 0x9e67cbf, 0x13ccf97ec, 0x2799f2fd9e, 0x0]);
  }

  lemma EightTimes()
    ensures Times(8, 1) == 8 && Times(8, 19) == 21 && Times(8, 3) == 24 && Times(8, 25) == 23 && Times(8, 11) == 10
  {
  }

  lemma EightSteps()
    ensures Step(0x0, 8) == 0x8
    ensures Step(0x8, 21) == 0x115
    ensures Step(0x115, 24) == 0x22b8
    ensures Step(0x22b8, 23) == 0x45717
    ensures Step(0x45717, 10) == 0x8ae2ea
    ensures Step(0x8ae2ea, 23) == 0x115c5d57
    ensures Step(0x115c5d57, 24) == 0x22b8baaf8
    ensures Step(0x22b8baaf8, 21) == 0x4571755f15
    ensures Step(0x4571755f15, 8) == 0x0
  {
  }

  lemma EightVanishes()
    ensures Vanishes(8)
  {
    EightTimes();
    EightSteps();
    hide Run, Times, Step;
    var s: seq<Word> := [8, 21, 24, 23, 10, 23, 24, 21, 8];
    assert Scaled(8) == s;
    RunThrough(s, [0x0, 0x8, 0x115, 0x22b8, 0x45717, 0x8ae2ea, 0x115c5d57, 0x22b8baaf8, 0x4571755f15, 0x0]);
  }

  lemma SixteenTimes()
    ensures Times(16, 1) == 16 && Times(16, 19) == 3 && Times(16, 3) == 25 && Times(16, 25) == 7 && Times(16, 11) == 20
  {
  }

  lemma SixteenSteps()
    ensures Step(0x0, 16) == 0x10
    ensures Step(0x10, 3) == 0x203
    ensures Step(0x203, 25) == 0x4079
    ensures Step(0x4079, 7) == 0x80f27
    ensures Step(0x80f27, 20) == 0x101e4f4
    ensures Step(0x101e4f4, 7) == 0x203c9e87
    ensures Step(0x203c9e87, 25) == 0x40793d0f9
    ensures Step(0x40793d0f9, 3) == 0x80f27a1f23
    ensures Step(0x80f27a1f23, 16) == 0x0
  {
  }

  lemma SixteenVanishes()
    ensures Vanishes(16)
  {
    SixteenTimes();
    SixteenSteps();
    hide Run, Times, Step;
    var s: seq<Word> := [16, 3, 25, 7, 20, 7, 25, 3, 16];
    assert Scaled(16) == s;
    RunThrough(s, [0x0, 0x10, 0x203, 0x4079, 0x80f27, 0x101e4f4, 0x203c9e87, 0x40793d0f9, 0x80f27a1f23, 0x0]);
  }

  lemma ZeroVanishes()
    ensures Vanishes(0)
  {
    hide Xor;
    OneVanishes();
    VanishingSum(1, 1);
    XorIdentity(1);
  }

  lemma PartVanishes(v: Word, mask: Word)
    requires Vanishes(mask)
    ensures Vanishes(Choose(Bit(v, mask), mask))
  {
    hide Vanishes, Bit;
    ZeroVanishes();
  }

  lemma SumOfBits(v: Word)
    requires v < 32
    ensures v == PicksOf(Bit(v, 0x01), Bit(v, 0x02), Bit(v, 0x04), Bit(v, 0x08), Bit(v, 0x10), 0x01, 0x02, 0x04, 0x08, 0x10)
  {
  }

  /** The code's generator, whatever symbol it is multiplied with, leads the zero state back to zero: this
    * is what the five constants of a round are for. */
  lemma MultipleVanishes(v: Word)
    requires v < 32
    ensures Run(0, Scaled(v)) == 0
  {
    hide Vanishes, Xor, Choose, Bit;
    OneVanishes();
    TwoVanishes();
    FourVanishes();
    EightVanishes();
    SixteenVanishes();
    PartVanishes(v, 0x01);
    PartVanishes(v, 0x02);
    PartVanishes(v, 0x04);
    PartVanishes(v, 0x08);
    PartVanishes(v, 0x10);
    SumOfBits(v);
    var a, b, c := Choose(Bit(v, 0x01), 0x01), Choose(Bit(v, 0x02), 0x02), Choose(Bit(v, 0x04), 0x04);
    var d, e := Choose(Bit(v, 0x08), 0x08), Choose(Bit(v, 0x10), 0x10);
    VanishingSum(a, b);
    VanishingSum(Xor(a, b), c);
    VanishingSum(Xor(Xor(a, b), c), d);
    VanishingSum(Xor(Xor(Xor(a, b), c), d), e);
    VanishingIs(v);
  }

  lemma VanishingIs(v: Word)
    ensures Vanishes(v) <==> Run(0, Scaled(v)) == 0
  {
  }

  // ----- all multiples -----

  lemma ScaledSmall(v: Word)
    ensures Symbols(Scaled(v))
  {
    hide Times;
    forall i | 0 <= i < 9 ensures Scaled(v)[i] < 32 {
      TimesSmall(v, NINE[i]);
    }
  }

  lemma SumOfSymbols(a: seq<Word>, b: seq<Word>)
    requires |a| == |b| && Symbols(a) && Symbols(b)
    ensures Symbols(Difference(a, b))
  {
    hide Xor;
    forall i | 0 <= i < |a| ensures Difference(a, b)[i] < 32 {
      SymbolsXor(a[i], b[i]);
    }
  }

  /** The generator times v at the head of a string of n symbols. */
  function AtHead(v: Word, n: nat): (s: seq<Word>)
    requires n >= 9
    ensures |s| == n
  {
    Scaled(v) + Blank(n - 9)
  }

  lemma HeadVanishes(v: Word, n: nat)
    requires v < 32 && n >= 9
    ensures Run(0, AtHead(v, n)) == 0 && AtHead(v, n)[0] == v && Symbols(AtHead(v, n))
  {
    hide Run, Times;
    MultipleVanishes(v);
    RunBlank(n - 9);
    RunSum(0, Scaled(v), Blank(n - 9));
    ScaledSmall(v);
    TimesOne(v);
  }

  lemma LeadingZero(s: seq<Word>)
    ensures Run(0, [0] + s) == Run(0, s)
  {
    hide Step;
    ZeroToZero();
    RunSum(0, [0], s);
    assert Run(0, [0]) == Step(Run(0, [0][..0]), [0][0]);
  }

  lemma SumVanishes(a: seq<Word>, b: seq<Word>)
    requires |a| == |b| && Run(0, a) == 0
    ensures Run(0, Difference(a, b)) == Run(0, b)
  {
    hide Run, Xor;
    RunLinear(0, a, 0, b);
    XorIdentity(0);
    XorIdentity(Run(0, b));
  }

  /** Every multiple of the generator leads the zero state back to zero. */
  lemma {:induction false} ProductVanishes(q: seq<Word>)
    requires Symbols(q)
    ensures Run(0, Product(q)) == 0 && Symbols(Product(q))
  {
    hide Run, Xor, Scaled, Difference;
    if q == [] {
      RunBlank(8);
    } else {
      ProductVanishes(q[1..]);
      HeadVanishes(q[0], |q| + 8);
      LeadingZero(Product(q[1..]));
      SumVanishes(AtHead(q[0], |q| + 8), [0] + Product(q[1..]));
      SumOfSymbols(AtHead(q[0], |q| + 8), [0] + Product(q[1..]));
    }
  }

  lemma Twice(a: seq<Word>, b: seq<Word>)
    requires |a| == |b|
    ensures Difference(a, Difference(a, b)) == b
  {
    hide Xor;
    forall i | 0 <= i < |a| ensures Difference(a, Difference(a, b))[i] == b[i] {
      XorAssoc(a[i], a[i], b[i]);
      XorIdentity(a[i]);
      XorIdentity(b[i]);
    }
  }

  /** And nothing else does: long division by the generator. */
  lemma {:induction false} VanishingIsProduct(s: seq<Word>) returns (q: seq<Word>)
    requires |s| >= 8 && Symbols(s) && Run(0, s) == 0
    ensures Symbols(q) && |q| == |s| - 8 && s == Product(q)
    decreases |s|
  {
    hide Run, Xor, Scaled, Difference;
    if |s| == 8 {
      q := [];
      BurstState(s, 0, 8);
      assert s[..8] == s;
      assert s == Blank(8);
    } else {
      var head := AtHead(s[0], |s|);
      HeadVanishes(s[0], |s|);
      var t := Difference(head, s);
      SumVanishes(head, s);
      SumOfSymbols(head, s);
      XorIdentity(s[0]);
      assert t[0] == 0 by {
        DifferenceAt(head, s, 0);
      }
      assert t == [0] + t[1..];
      LeadingZero(t[1..]);
      var rest := VanishingIsProduct(t[1..]);
      q := [s[0]] + rest;
      assert q[1..] == rest;
      Twice(head, s);
    }
  }

  lemma DifferenceAt(a: seq<Word>, b: seq<Word>, i: nat)
    requires |a| == |b| && i < |a|
    ensures Difference(a, b)[i] == Xor(a[i], b[i])
  {
  }

  /** The word of the code an address stands for: the prefix, the separator and the payload behind a
    * leading one, with one taken off the last symbol. */
  function Codeword(prefix: seq<Word>, data: seq<Word>): (s: seq<Word>)
    requires data != []
    ensures |s| == |prefix| + 2 + |data|
  {
    var n := |data| - 1;
    [1] + prefix + [0] + data[..n] + [Xor(data[n], 1)]
  }

  ghost predicate IsMultiple(s: seq<Word>) {
    exists q :: Symbols(q) && s == Product(q)
  }

  lemma CodewordRuns(prefix: seq<Word>, data: seq<Word>)
    requires data != []
    ensures Run(0, Codeword(prefix, data)) == Xor(Run(1, prefix + [0] + data), 1)
  {
    hide Step, Xor, Run, Codeword, Difference;
    var all := prefix + [0] + data;
    var last := Blank(|all|) + [1];
    OneFromZero();
    RunSum(0, [1], all);
    RunBlank(|all|);
    RunSum(0, Blank(|all|), [1]);
    RunLinear(0, [1] + all, 0, last);
    XorIdentity(0);
    LastChanged(prefix, data, last);
  }

  lemma OneFromZero()
    ensures Run(0, [1]) == 1
  {
    hide Step;
    FromOne();
    assert Run(0, [1]) == Step(Run(0, [1][..0]), [1][0]);
  }

  lemma FromOne()
    ensures Step(0, 1) == 1
  {
  }

  lemma LastChanged(prefix: seq<Word>, data: seq<Word>, last: seq<Word>)
    requires data != [] && last == Blank(|prefix| + 1 + |data|) + [1]
    ensures Difference([1] + (prefix + [0] + data), last) == Codeword(prefix, data)
  {
    hide Xor;
    var s := [1] + (prefix + [0] + data);
    forall i | 0 <= i < |s| ensures Difference(s, last)[i] == Codeword(prefix, data)[i] {
      XorIdentity(s[i]);
    }
  }

  lemma CodewordSmall(prefix: seq<Word>, data: seq<Word>)
    requires data != [] && Symbols(prefix) && Symbols(data)
    ensures Symbols(Codeword(prefix, data))
  {
    hide Xor;
    SymbolsXor(data[|data| - 1], 1);
  }

  lemma OneOff(c: Word)
    ensures Xor(c, 1) == 0 <==> c == 1
  {
  }

  /** The checksum is right exactly if that word is a multiple of the generator polynomial. */
  lemma ValidIffMultiple(prefix: seq<Word>, data: seq<Word>)
    requires Symbols(prefix) && Symbols(data) && |data| >= 8
    ensures ValidChecksum(prefix, data) <==> IsMultiple(Codeword(prefix, data))
  {
    hide Run, Xor, Product, Codeword;
    var word := Codeword(prefix, data);
    CodewordRuns(prefix, data);
    CodewordSmall(prefix, data);
    OneOff(Run(1, prefix + [0] + data));
    if IsMultiple(word) {
      var q :| Symbols(q) && word == Product(q);
      ProductVanishes(q);
    }
    if ValidChecksum(prefix, data) {
      var q := VanishingIsProduct(word);
    }
  }
}

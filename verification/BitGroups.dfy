/** Regrouping bits between bytes and 5-bit symbols: `convert_bits_5to8`
  * (`src/cashaddr_simple.c`) and `convert_bits_to5` (`src/libckpool.c`).  Both keep their
  * unread bits at the bottom of a 32-bit accumulator whose upper bits fall off unnoticed.
  */
module BitGroups {
  import opened Digits

  function P2(n: nat): (p: nat)
    ensures p > 0
  {
    PowPositive(2, n);
    Pow(2, n)
  }

  /** The 5-bit strings that convert: symbols below 32 whose left-over bits, fewer than five,
    * are all zero. */
  ghost predicate ZeroPadded(s: seq<nat>) {
    AreDigits(32, s) && 5 * |s| % 8 < 5 && Value(32, s) % P2(5 * |s| % 8) == 0
  }

  /** b holds the leading bits of s. */
  ghost predicate BytesOf(s: seq<nat>, b: seq<nat>) {
    |b| == 5 * |s| / 8 && AreDigits(256, b) && Value(256, b) == Value(32, s) / P2(5 * |s| % 8)
  }

  lemma NextMultiple(m: nat, r: nat)
    requires r == m % 5
    ensures (m + (5 - r)) % 5 == 0
  {
    assert m + (5 - r) == 5 * (m / 5 + 1);
  }

  /** Zero bits appended to n bytes to fill the last symbol. */
  function Padding(n: nat): (p: nat)
    ensures p < 5 && (8 * n + p) % 5 == 0
  {
    var r := 8 * n % 5;
    if r == 0 then 0
    else
      NextMultiple(8 * n, r);
      5 - r
  }

  /** s holds the bits of b followed by the padding. */
  ghost predicate SymbolsOf(b: seq<nat>, s: seq<nat>) {
    |s| == (8 * |b| + Padding(|b|)) / 5 && AreDigits(32, s) && Value(32, s) == Value(256, b) * P2(Padding(|b|))
  }

  /** `(acc >> low) & (size - 1)`, size a power of two. */
  function Window(acc: nat, low: nat, size: nat): (r: nat)
    requires size > 0
    ensures r < size
  {
    assert acc / P2(low) >= 0;
    acc / P2(low) % size
  }

  /** `(acc << shift) & (size - 1)` in 32 bits. */
  function Aligned(acc: nat, shift: nat, size: nat): (r: nat)
    requires size > 0
    ensures r < size
  {
    assert acc * P2(shift) >= 0;
    acc * P2(shift) % 0x1_0000_0000 % size
  }

  // ---------------------------------------------------------------- one step

  lemma DivModUnique(a: nat, n: nat, q: nat, r: nat)
    requires r < n && a == q * n + r
    ensures a / n == q && a % n == r
  {
    LastDigit(n, a / n, a % n, q, r);
  }

  lemma Assoc(x: nat, y: nat, z: nat)
    ensures x * y * z == x * (y * z)
  {
  }

  lemma Distrib(x: nat, y: nat, z: nat)
    ensures (x + y) * z == x * z + y * z
  {
  }

  lemma ModOfMod(a: nat, m: nat, n: nat, k: nat)
    requires m == k * n > 0 && n > 0
    ensures a % m % n == a % n
  {
    var q, b := a / m, a % m;
    var t := b / n;
    Assoc(q, k, n);
    Distrib(q * k, t, n);
    DivModUnique(a, n, q * k + t, b % n);
  }

  lemma TwoTo32()
    ensures P2(32) == 0x1_0000_0000
  {
    assert Pow(2, 8) == 256;
    PowAdd(2, 8, 8);
    PowAdd(2, 16, 16);
  }

  lemma ModPow32(a: nat, n: nat)
    requires n <= 32
    ensures a % 0x1_0000_0000 % P2(n) == a % P2(n)
  {
    PowAdd(2, 32 - n, n);
    TwoTo32();
    ModOfMod(a, 0x1_0000_0000, P2(n), P2(32 - n));
  }

  lemma ShiftNumbers(q: nat, r: nat, x: nat, p: nat, w: nat, m: nat)
    requires r < p && x < w && m == p * w
    ensures r * w + x < m
    ensures (q * p + r) * w + x == q * m + (r * w + x)
  {
    MulMonotone(r + 1, p, w);
    Distrib(r, 1, w);
    Distrib(q * p, r, w);
    Assoc(q, p, w);
  }

  lemma ShiftWhole(acc: nat, x: nat, p: nat, w: nat, m: nat)
    requires p > 0 && x < w && m == p * w
    ensures 0 < m && acc % p * w + x < m && (acc * w + x) % m == acc % p * w + x
  {
    var q, r := acc / p, acc % p;
    ShiftNumbers(q, r, x, p, w, m);
    DivModUnique(acc * w + x, m, q, r * w + x);
  }

  lemma TakeNumbers(acc: nat, m: nat, p: nat, w: nat)
    requires p > 0 && w > 0 && m == w * p > 0
    ensures acc / p % w == acc % m / p
    ensures acc % p == acc % m % p
  {
    var pending := acc % m;
    TakeParts(acc, acc / m, pending / p, pending % p, m, p, w);
  }

  lemma TakeParts(acc: nat, high: nat, q: nat, r: nat, m: nat, p: nat, w: nat)
    requires p > 0 && w > 0 && m == w * p && r < p
    requires acc == high * m + (q * p + r) && q * p + r < m
    ensures acc / p % w == q && acc % p == r
  {
    Assoc(high, w, p);
    Distrib(high * w, q, p);
    DivModUnique(acc, p, high * w + q, r);
    MulMonotone(w, q, p);
    DivModUnique(high * w + q, w, high, q);
  }

  /** Shifting x into the accumulator: its unread bits are those of the number. */
  lemma ShiftIn(acc: nat, x: nat, bits: nat, width: nat)
    requires bits + width <= 32 && x < P2(width)
    ensures (acc * P2(width) + x) % 0x1_0000_0000 % P2(bits + width) == acc % P2(bits) * P2(width) + x
    ensures acc % P2(bits) * P2(width) + x < P2(bits + width)
  {
    hide P2;
    ModPow32(acc * P2(width) + x, bits + width);
    P2Sum(bits, width);
    ShiftWhole(acc, x, P2(bits), P2(width), P2(bits + width));
  }

  lemma P2Sum(a: nat, b: nat)
    ensures P2(a + b) == P2(a) * P2(b)
  {
    PowAdd(2, a, b);
  }

  /** Reading the top `width` of the `low + width` unread bits leaves the lower ones. */
  lemma TakeOut(acc: nat, low: nat, width: nat)
    ensures Window(acc, low, P2(width)) == acc % P2(low + width) / P2(low)
    ensures acc % P2(low) == acc % P2(low + width) % P2(low)
  {
    PowAdd(2, width, low);
    TakeNumbers(acc, P2(low + width), P2(low), P2(width));
  }

  /** v followed by one more digit of `width` bits. */
  function Append(v: nat, x: nat, width: nat): nat {
    assert v * P2(width) >= 0;
    v * P2(width) + x
  }

  /** The number v read so far is w, already written, followed by the low bits of acc. */
  ghost predicate Held(v: nat, w: nat, acc: nat, bits: nat) {
    v == w * P2(bits) + acc % P2(bits)
  }

  lemma HeldShift(v: nat, w: nat, acc: nat, bits: nat, x: nat, width: nat)
    requires bits + width <= 32 && x < P2(width) && Held(v, w, acc, bits)
    ensures Held(Append(v, x, width), w, Append(acc, x, width) % 0x1_0000_0000, bits + width)
  {
    ShiftIn(acc, x, bits, width);
    PowAdd(2, bits, width);
    Distrib(w * P2(bits), acc % P2(bits), P2(width));
    Assoc(w, P2(bits), P2(width));
  }

  lemma SplitHeld(w: nat, pending: nat, p: nat, size: nat, m: nat)
    requires p > 0 && m == size * p
    ensures w * m + pending == (w * size + pending / p) * p + pending % p
  {
    Assoc(w, size, p);
    Distrib(w * size, pending / p, p);
  }

  lemma HeldTake(v: nat, w: nat, acc: nat, low: nat, width: nat)
    requires Held(v, w, acc, low + width)
    ensures Window(acc, low, P2(width)) < P2(width)
    ensures Held(v, Append(w, Window(acc, low, P2(width)), width), acc, low)
  {
    TakeOut(acc, low, width);
    PowAdd(2, width, low);
    SplitHeld(w, acc % P2(low + width), P2(low), P2(width), P2(low + width));
  }

  // ---------------------------------------------------------------- symbols to bytes

  /** State of both loops: `s` read, `out` written, the rest in the accumulator. */
  ghost predicate Regrouped(from: nat, s: seq<nat>, to: nat, out: seq<nat>, acc: nat, bits: nat) {
    AreDigits(from, s) && AreDigits(to, out) && Held(Value(from, s), Value(to, out), acc, bits)
  }

  lemma Symbol32()
    ensures P2(5) == 32
  {
  }

  lemma Byte256()
    ensures P2(8) == 256
  {
  }

  lemma NothingRead(from: nat, s: seq<nat>, to: nat, out: seq<nat>)
    requires s == [] && out == []
    ensures Regrouped(from, s, to, out, 0, 0)
  {
  }

  lemma ReadSymbol(s: seq<nat>, i: nat, out: seq<nat>, acc: nat, bits: nat)
    requires i < |s| && s[i] < 32 && bits < 8 && Regrouped(32, s[..i], 256, out, acc, bits)
    ensures Regrouped(32, s[..i + 1], 256, out, (acc * 32 + s[i]) % 0x1_0000_0000, bits + 5)
  {
    hide P2, Value, Held;
    Symbol32();
    HeldShift(Value(32, s[..i]), Value(256, out), acc, bits, s[i], 5);
    assert s[..i + 1] == s[..i] + [s[i]];
    ValueSnoc(32, s[..i], s[i]);
  }

  lemma WriteByte(s: seq<nat>, out: seq<nat>, acc: nat, bits: nat)
    requires Regrouped(32, s, 256, out, acc, bits + 8)
    ensures Regrouped(32, s, 256, out + [Window(acc, bits, 256)], acc, bits)
  {
    hide P2, Value, Held;
    Byte256();
    HeldTake(Value(32, s), Value(256, out), acc, bits, 8);
    ValueSnoc(256, out, Window(acc, bits, 256));
  }

  /** `convert_bits_5to8`. */
  method FiveToEight(s: seq<nat>, out: array<nat>) returns (ok: bool, outlen: nat)
    requires 5 * |s| / 8 <= out.Length
    modifies out
    ensures ok <==> ZeroPadded(s)
    ensures ok ==> outlen <= out.Length && BytesOf(s, out[..outlen])
  {
    hide Regrouped;
    ok, outlen := false, 0;
    var acc, bits := 0, 0;
    NothingRead(32, s[..0], 256, out[..0]);
    for i := 0 to |s|
      invariant 0 <= bits < 8 && 8 * outlen + bits == 5 * i && outlen <= out.Length
      invariant Regrouped(32, s[..i], 256, out[..outlen], acc, bits)
    {
      if s[i] >= 32 {
        return;
      }
      ReadSymbol(s, i, out[..outlen], acc, bits);
      acc := (acc * 32 + s[i]) % 0x1_0000_0000;
      bits := bits + 5;
      if bits >= 8 {
        bits := bits - 8;
        ghost var written := out[..outlen];
        WriteByte(s[..i + 1], written, acc, bits);
        out[outlen] := Window(acc, bits, 256);
        outlen := outlen + 1;
        assert out[..outlen] == written + [Window(acc, bits, 256)];
      }
    }
    assert s[..|s|] == s;
    AllRead(s, out[..outlen], acc, bits);
    if bits >= 5 || (bits > 0 && Aligned(acc, 8 - bits, 256) != 0) {
      return;
    }
    ok := true;
  }

  lemma AllRead(s: seq<nat>, out: seq<nat>, acc: nat, bits: nat)
    requires bits < 8 && 8 * |out| + bits == 5 * |s| && Regrouped(32, s, 256, out, acc, bits)
    ensures AreDigits(32, s)
    ensures BytesOf(s, out) && bits == 5 * |s| % 8
    ensures bits > 0 && Aligned(acc, 8 - bits, 256) != 0 <==> Value(32, s) % P2(bits) != 0
  {
    DivModUnique(Value(32, s), P2(bits), Value(256, out), acc % P2(bits));
    LeftOver(acc, bits);
  }

  /** The shifted-out test of the left-over bits is a test of those bits. */
  lemma LeftOver(acc: nat, bits: nat)
    requires bits < 8
    ensures bits > 0 ==> (Aligned(acc, 8 - bits, 256) == 0 <==> acc % P2(bits) == 0)
    ensures bits == 0 ==> acc % P2(bits) == 0
  {
    ShiftIn(acc, 0, bits, 8 - bits);
    assert P2(8) == 256;
    MulMonotone(1, acc % P2(bits), P2(8 - bits));
  }

  // ---------------------------------------------------------------- bytes to symbols

  lemma ReadByte(b: seq<nat>, i: nat, out: seq<nat>, val: nat, bits: nat)
    requires i < |b| && b[i] < 256 && bits < 5 && Regrouped(256, b[..i], 32, out, val, bits)
    ensures Regrouped(256, b[..i + 1], 32, out, (val * 256 + b[i]) % 0x1_0000_0000, bits + 8)
  {
    hide P2, Value, Held;
    Byte256();
    HeldShift(Value(256, b[..i]), Value(32, out), val, bits, b[i], 8);
    assert b[..i + 1] == b[..i] + [b[i]];
    ValueSnoc(256, b[..i], b[i]);
  }

  lemma WriteSymbol(b: seq<nat>, out: seq<nat>, val: nat, bits: nat)
    requires Regrouped(256, b, 32, out, val, bits + 5)
    ensures Regrouped(256, b, 32, out + [Window(val, bits, 32)], val, bits)
  {
    hide P2, Value, Held;
    Symbol32();
    HeldTake(Value(256, b), Value(32, out), val, bits, 5);
    ValueSnoc(32, out, Window(val, bits, 32));
  }

  /** `convert_bits_to5`.  The source writes into a caller's buffer; here the symbols are
    * collected in order. */
  method EightToFive(b: seq<nat>) returns (out: seq<nat>)
    requires AreDigits(256, b)
    ensures SymbolsOf(b, out)
  {
    hide Regrouped;
    out := [];
    var val, bits := 0, 0;
    NothingRead(256, b[..0], 32, out);
    for i := 0 to |b|
      invariant 0 <= bits < 5 && 5 * |out| + bits == 8 * i
      invariant Regrouped(256, b[..i], 32, out, val, bits)
    {
      ReadByte(b, i, out, val, bits);
      val := (val * 256 + b[i]) % 0x1_0000_0000;
      bits := bits + 8;
      while bits >= 5
        invariant 0 <= bits < 13 && 5 * |out| + bits == 8 * (i + 1)
        invariant Regrouped(256, b[..i + 1], 32, out, val, bits)
      {
        bits := bits - 5;
        WriteSymbol(b[..i + 1], out, val, bits);
        out := out + [Window(val, bits, 32)];
      }
    }
    assert b[..|b|] == b;
    LastSymbol(b, out, val, bits);
    if bits > 0 {
      out := out + [Aligned(val, 5 - bits, 32)];
    }
  }

  lemma LastSymbol(b: seq<nat>, out: seq<nat>, val: nat, bits: nat)
    requires bits < 5 && 5 * |out| + bits == 8 * |b| && Regrouped(256, b, 32, out, val, bits)
    ensures SymbolsOf(b, if bits > 0 then out + [Aligned(val, 5 - bits, 32)] else out)
  {
    PaddingLeft(b, out, bits);
    if bits > 0 {
      LastBits(Value(256, b), out, val, bits);
    } else {
      NoBits(val);
    }
  }

  lemma NoBits(val: nat)
    ensures P2(0) == 1 && val % P2(0) == 0
  {
  }

  lemma PaddingLeft(b: seq<nat>, out: seq<nat>, bits: nat)
    requires bits < 5 && 5 * |out| + bits == 8 * |b|
    ensures Padding(|b|) == if bits > 0 then 5 - bits else 0
    ensures (8 * |b| + Padding(|b|)) / 5 == |out| + if bits > 0 then 1 else 0
  {
  }

  /** The left-over bits, moved to the top of a symbol, complete the number. */
  lemma LastBits(v: nat, out: seq<nat>, val: nat, bits: nat)
    requires 0 < bits < 5 && Held(v, Value(32, out), val, bits)
    ensures Aligned(val, 5 - bits, 32) < 32
    ensures Value(32, out + [Aligned(val, 5 - bits, 32)]) == v * P2(5 - bits)
  {
    hide P2, Value;
    ShiftIn(val, 0, bits, 5 - bits);
    Symbol32();
    P2Sum(bits, 5 - bits);
    ValueSnoc(32, out, val % P2(bits) * P2(5 - bits));
    Distrib(Value(32, out) * P2(bits), val % P2(bits), P2(5 - bits));
    Assoc(Value(32, out), P2(bits), P2(5 - bits));
  }

  // ---------------------------------------------------------------- inverse of each other

  /** Every byte string becomes an accepted symbol string, from which it comes back. */
  lemma BytesThereAndBack(b: seq<nat>, s: seq<nat>)
    requires AreDigits(256, b) && SymbolsOf(b, s)
    ensures ZeroPadded(s)
    ensures forall c :: BytesOf(s, c) <==> c == b
  {
    var pad := Padding(|b|);
    assert 5 * |s| == 8 * |b| + pad && 5 * |s| % 8 == pad && 5 * |s| / 8 == |b|;
    DivModUnique(Value(32, s), P2(pad), Value(256, b), 0);
    forall c | BytesOf(s, c) ensures c == b {
      ValueInjective(256, c, b);
    }
  }

  lemma WholeQuotient(v: nat, p: nat)
    requires p > 0 && v % p == 0
    ensures v == v / p * p
  {
  }

  /** Every accepted symbol string is what its bytes become. */
  lemma SymbolsThereAndBack(s: seq<nat>, b: seq<nat>)
    requires ZeroPadded(s) && BytesOf(s, b)
    ensures forall t :: SymbolsOf(b, t) <==> t == s
  {
    hide P2, Value, Padding;
    var pad := 5 * |s| % 8;
    SamePadding(|s|, |b|);
    WholeQuotient(Value(32, s), P2(pad));
    forall t | SymbolsOf(b, t) ensures t == s {
      ValueInjective(32, t, s);
    }
  }

  /** The bits left over of n symbols are the padding of the bytes they make. */
  lemma SamePadding(n: nat, bytes: nat)
    requires 5 * n % 8 < 5 && bytes == 5 * n / 8
    ensures Padding(bytes) == 5 * n % 8 && (8 * bytes + Padding(bytes)) / 5 == n
  {
    assert 8 * bytes + 5 * n % 8 == 5 * n;
  }
}

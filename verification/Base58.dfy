/** Legacy Base58Check addresses (`src/libckpool.c`): the strict decoder works on a 25-byte
  * big-endian accumulator in place, the encoder on a little-endian array of base-58 digits.
  */
module Base58 {
  import opened Digits

  /** The alphabet 1-9 A-H J-N P-Z a-k m-z. */
  function Symbol(d: nat): (c: char)
    requires d < 58
  {
    (if d < 9 then '1' as int + d
     else if d < 17 then 'A' as int + d - 9
     else if d < 22 then 'J' as int + d - 17
     else if d < 33 then 'P' as int + d - 22
     else if d < 44 then 'a' as int + d - 33
     else 'm' as int + d - 44) as char
  }

  /** The position of c in the alphabet, or 58 when strchr finds none. */
  function DigitOf(c: char): (d: nat)
    ensures d <= 58
    ensures forall e: nat :: e < 58 ==> (d == e <==> Symbol(e) == c)
  {
    if '1' <= c <= '9' then c as int - '1' as int
    else if 'A' <= c <= 'H' then c as int - 'A' as int + 9
    else if 'J' <= c <= 'N' then c as int - 'J' as int + 17
    else if 'P' <= c <= 'Z' then c as int - 'P' as int + 22
    else if 'a' <= c <= 'k' then c as int - 'a' as int + 33
    else if 'm' <= c <= 'z' then c as int - 'm' as int + 44
    else 58
  }

  /** The alphabet is all letters and digits but 0, O, I and l, in the order of their codes. */
  lemma AlphabetInOrder(c: char, d: nat, e: nat)
    ensures DigitOf(c) < 58 <==>
              (('0' <= c <= '9' || 'A' <= c <= 'Z' || 'a' <= c <= 'z') && c != '0' && c != 'O' && c != 'I' && c != 'l')
    ensures d < e < 58 ==> Symbol(d) < Symbol(e)
  {
  }

  function DigitsOf(s: string): (r: seq<nat>)
    ensures |r| == |s|
  {
    seq(|s|, i requires 0 <= i < |s| => DigitOf(s[i]))
  }

  ghost predicate IsBase58(s: string) {
    AreDigits(58, DigitsOf(s))
  }

  /** The first number that 25 bytes cannot hold. */
  ghost function Limit(): nat {
    Pow(256, 25)
  }

  /** The exact domain of the decoder: 1 to 100 alphabet characters, a value below 256^25. */
  ghost predicate Decodable(s: string) {
    1 <= |s| <= 100 && IsBase58(s) && Value(58, DigitsOf(s)) < Limit()
  }

  // ---------------------------------------------------------------- decoding

  lemma DecodableIs(s: string)
    ensures Decodable(s) <==>
              && 1 <= |s| <= 100 && Value(58, DigitsOf(s)) < Pow(256, 25)
              && forall i :: 0 <= i < |s| ==> DigitOf(s[i]) < 58
  {
    hide DigitOf, Value, Pow;
    var ds := DigitsOf(s);
    assert forall i :: 0 <= i < |s| ==> ds[i] == DigitOf(s[i]);
  }

  /** The suffix from j on, multiplied by 58 and added to, with the carry it leaves. */
  lemma CarryStep(p: nat, oldDigit: nat, newDigit: nat, carry: nat, carry': nat,
                  oldTail: nat, newTail: nat, add: nat)
    requires newDigit + 256 * carry' == carry + 58 * oldDigit
    requires newTail + carry * p == 58 * oldTail + add
    ensures newDigit * p + newTail + carry' * (256 * p) == 58 * (oldDigit * p + oldTail) + add
  {
    assert (newDigit + 256 * carry') * p == (carry + 58 * oldDigit) * p;
    assert newDigit * p + 256 * carry' * p == carry * p + 58 * oldDigit * p;
  }

  /** The bytes `after` with a carry in front are the bytes `before` times 58, plus `add`. */
  ghost predicate TimesPlus(after: seq<nat>, carry: nat, before: seq<nat>, add: nat) {
    && |after| == |before| && AreDigits(256, after)
    && Value(256, after) + carry * Pow(256, |after|) == 58 * Value(256, before) + add
  }

  lemma TimesPlusStarts(add: nat)
    ensures TimesPlus([], add, [], add)
  {
  }

  lemma TimesPlusNext(after: seq<nat>, carry: nat, before: seq<nat>, add: nat, b: nat)
    requires TimesPlus(after, carry, before, add)
    ensures var total := carry + 58 * b;
            TimesPlus([total % 256] + after, total / 256, [b] + before, add)
  {
    hide Value, Pow;
    var total := carry + 58 * b;
    ValueCons(256, total % 256, after);
    ValueCons(256, b, before);
    CarryStep(Pow(256, |after|), b, total % 256, carry, total / 256, Value(256, before), Value(256, after), add);
    NextPow(|after|);
    assert forall k :: 0 < k < |after| + 1 ==> ([total % 256] + after)[k] == after[k - 1];
  }

  lemma NextPow(n: nat)
    ensures Pow(256, n + 1) == 256 * Pow(256, n)
  {
  }

  /** `out := out * 58 + add` in 25 bytes, returning what does not fit. */
  method MulAdd(out: array<nat>, add: nat) returns (carry: nat)
    requires out.Length == 25 && AreDigits(256, out[..]) && add < 58
    modifies out
    ensures AreDigits(256, out[..])
    ensures Value(256, out[..]) + carry * Limit() == 58 * Value(256, old(out[..])) + add
  {
    hide TimesPlus, Value, Pow, AreDigits;
    carry := add;
    var j := 25;
    ghost var before := out[..];
    assert out[25..] == [] && before[25..] == [];
    TimesPlusStarts(add);
    while j > 0
      invariant 0 <= j <= 25 && out[..j] == before[..j]
      invariant TimesPlus(out[j..], carry, before[j..], add)
    {
      ghost var after, rest := out[j..], before[j..];
      j := j - 1;
      assert out[j] == out[..j + 1][j] == before[j];
      var total := carry + 58 * out[j];
      TimesPlusNext(after, carry, rest, add, before[j]);
      out[j] := total % 256;
      carry := total / 256;
      assert out[j..] == [out[j]] + after && before[j..] == [before[j]] + rest;
    }
    assert out[0..] == out[..] && before[0..] == before;
    TimesPlusIs(out[..], carry, before, add);
  }

  lemma TimesPlusIs(after: seq<nat>, carry: nat, before: seq<nat>, add: nat)
    requires TimesPlus(after, carry, before, add) && |after| == 25
    ensures AreDigits(256, after) && Value(256, after) + carry * Limit() == 58 * Value(256, before) + add
  {
    hide Value, Pow;
  }

  /** `bch_b58decode_strict`: succeeds on exactly the decodable strings, with the 25
    * big-endian bytes of their value. */
  method DecodeStrict(s: string, out: array<nat>) returns (ok: bool)
    requires out.Length == 25
    modifies out
    ensures ok <==> Decodable(s)
    ensures ok ==> AreDigits(256, out[..]) && Value(256, out[..]) == Value(58, DigitsOf(s))
  {
    if |s| == 0 || |s| > 100 {
      return false;
    }
    forall k | 0 <= k < 25 {
      out[k] := 0;
    }
    ghost var ds := DigitsOf(s);
    ZeroValue(out[..]);
    for i := 0 to |s|
      invariant AreDigits(256, out[..]) && AreDigits(58, ds[..i])
      invariant Value(256, out[..]) == Value(58, ds[..i])
    {
      var d := DigitOf(s[i]);
      assert ds[i] == d;
      if d == 58 {
        return false;
      }
      ghost var v := Value(256, out[..]);
      var carry := MulAdd(out, d);
      Shifted(ds, i, v, Value(256, out[..]), carry, Limit());
      if carry != 0 {
        return false;
      }
    }
    assert ds[..|s|] == ds;
    ValueBound(256, out[..]);
    ok := true;
  }

  /** One character more; a carry out of 25 bytes is final, since the value only grows. */
  lemma Shifted(ds: seq<nat>, i: nat, v: nat, w: nat, carry: nat, limit: nat)
    requires i < |ds| && v == Value(58, ds[..i]) && w + carry * limit == 58 * v + ds[i]
    ensures carry == 0 ==> w == Value(58, ds[..i + 1])
    ensures carry != 0 ==> Value(58, ds) >= limit
  {
    assert ds[..i + 1] == ds[..i] + [ds[i]];
    ValueSnoc(58, ds[..i], ds[i]);
    ValuePrefix(58, ds, i + 1);
    MulMonotone(1, carry, limit);
  }

  lemma ZeroValue(s: seq<nat>)
    requires forall i :: 0 <= i < |s| ==> s[i] == 0
    ensures Value(256, s) == 0
  {
    if s != [] {
      ZeroValue(s[..|s| - 1]);
    }
  }

  // ---------------------------------------------------------------- encoding

  /** The little-endian base-58 number in digits. */
  function Little(s: seq<nat>): nat {
    if s == [] then 0 else s[0] + 58 * Little(s[1..])
  }

  lemma {:induction false} LittleSnoc(s: seq<nat>, d: nat)
    ensures Little(s + [d]) == Little(s) + d * Pow(58, |s|)
  {
    if s == [] {
      assert [] + [d] == [d];
    } else {
      LittleSnoc(s[1..], d);
      assert (s + [d])[1..] == s[1..] + [d];
      assert 58 * (d * Pow(58, |s[1..]|)) == d * Pow(58, |s|);
    }
  }

  lemma {:induction false} LittleReverse(s: seq<nat>)
    ensures Little(s) == Value(58, Reverse(s))
  {
    if s != [] {
      LittleReverse(s[1..]);
      ValueSnoc(58, Reverse(s[1..]), s[0]);
    }
  }

  function Reverse(s: seq<nat>): (r: seq<nat>)
    ensures |r| == |s| && forall i :: 0 <= i < |s| ==> r[i] == s[|s| - 1 - i]
  {
    if s == [] then [] else Reverse(s[1..]) + [s[0]]
  }

  /** 35 base-58 digits hold any 25 bytes. */
  lemma ThirtyFiveDigits()
    ensures Pow(58, 35) > Pow(256, 25)
  {
    assert Pow(58, 7) == 2207984167552;
    assert Pow(256, 5) == 1099511627776;
    assert Pow(58, 14) > Pow(256, 10) by { PowAdd(58, 7, 7); PowAdd(256, 5, 5); }
    assert Pow(58, 28) > Pow(256, 20) by {
      PowAdd(58, 14, 14);
      PowAdd(256, 10, 10);
      MulMonotone(Pow(256, 10), Pow(58, 14), Pow(256, 10));
      MulMonotone(Pow(256, 10), Pow(58, 14), Pow(58, 14));
    }
    assert Pow(58, 35) > Pow(256, 25) by { PowAdd(58, 28, 7); PowAdd(256, 20, 5); }
  }

  /** Leading bytes that are zero. */
  function LeadingZeros(s: seq<nat>): (z: nat)
    ensures z <= |s| && (forall i :: 0 <= i < z ==> s[i] == 0) && (z < |s| ==> s[z] != 0)
  {
    if s == [] || s[0] != 0 then 0 else 1 + LeadingZeros(s[1..])
  }

  /** `digits[..len]` is the shortest little-endian form of v, or the single digit 0. */
  ghost predicate Shortest(digits: seq<nat>, v: nat) {
    && AreDigits(58, digits) && Little(digits) == v
    && 1 <= |digits| && (|digits| == 1 || digits[|digits| - 1] != 0)
  }

  /** A shortest form of a 25-byte number has at most 35 digits. */
  lemma ShortestFits(digits: seq<nat>, top: nat, v: nat)
    requires Little(digits) + top * Pow(58, |digits|) == v < Limit() && top > 0
    ensures |digits| < 35
  {
    if |digits| >= 35 {
      MulMonotone(1, top, Pow(58, |digits|));
      PowMonotone(58, 35, |digits|);
      ThirtyFiveDigits();
    }
  }

  /** The digits `after` with a carry behind are the digits `before` times 256, plus `byte`; and a
    * last digit that is not zero leaves one, or a carry. */
  ghost predicate Pushed(after: seq<nat>, carry: nat, before: seq<nat>, byte: nat) {
    && |after| == |before| && AreDigits(58, after)
    && Little(after) + carry * Pow(58, |after|) == 256 * Little(before) + byte
    && (before != [] && before[|before| - 1] != 0 ==> carry != 0 || after[|after| - 1] != 0)
  }

  lemma PushedStarts(byte: nat)
    ensures Pushed([], byte, [], byte)
  {
  }

  lemma PushedNext(after: seq<nat>, carry: nat, before: seq<nat>, byte: nat, b: nat)
    requires Pushed(after, carry, before, byte)
    ensures var total := carry + b * 256;
            Pushed(after + [total % 58], total / 58, before + [b], byte)
  {
    hide Little, Pow;
    PushDigit(before, after, b, carry + b * 256, byte);
  }

  lemma PushedIs(after: seq<nat>, carry: nat, before: seq<nat>, byte: nat)
    requires Pushed(after, carry, before, byte)
    ensures |after| == |before| && AreDigits(58, after) && Carried(after, carry, 256 * Little(before) + byte)
    ensures before != [] && before[|before| - 1] != 0 ==> carry != 0 || after[|after| - 1] != 0
  {
    hide Little, Pow;
  }

  /** The first inner loop of the encoder: `digits := digits * 256 + byte` as far as the
    * present digits go, with the carry out of the last one. */
  method MulDigits(digits: array<nat>, len: nat, byte: nat) returns (carry: nat)
    requires digits.Length == 40 && 1 <= len <= 35 && AreDigits(58, digits[..len])
    modifies digits
    ensures AreDigits(58, digits[..len])
    ensures Carried(digits[..len], carry, 256 * Little(old(digits[..len])) + byte)
    ensures old(digits[len - 1]) != 0 ==> carry != 0 || digits[len - 1] != 0
  {
    hide Pushed, Carried, AreDigits, Little;
    carry := byte;
    ghost var before := digits[..len];
    var j := 0;
    assert digits[..0] == [] && before[..0] == [];
    PushedStarts(byte);
    while j < len
      invariant 0 <= j <= len && digits[j..len] == before[j..]
      invariant Pushed(digits[..j], carry, before[..j], byte)
    {
      assert digits[j] == digits[j..len][0] == before[j];
      ghost var after := digits[..j];
      PushedNext(after, carry, before[..j], byte, before[j]);
      var total := carry + digits[j] * 256;
      digits[j] := total % 58;
      assert before[..j + 1] == before[..j] + [before[j]] && digits[..j + 1] == after + [digits[j]];
      carry := total / 58;
      j := j + 1;
    }
    assert before[..len] == before;
    PushedIs(digits[..len], carry, before, byte);
  }

  /** Both inner loops: the second appends what the carry still holds. */
  method PushByte(digits: array<nat>, len: nat, byte: nat, ghost v: nat) returns (len': nat)
    requires digits.Length == 40 && 1 <= len <= 35 && Shortest(digits[..len], v)
    requires 256 * v + byte < Limit()
    modifies digits
    ensures 1 <= len' <= 35 && Shortest(digits[..len'], 256 * v + byte)
  {
    hide Carried, Little, Pow;
    var carry := MulDigits(digits, len, byte);
    ghost var total := 256 * v + byte;
    len' := len;
    while carry > 0
      invariant len <= len' <= 35 && AreDigits(58, digits[..len'])
      invariant Carried(digits[..len'], carry, total)
      invariant len' == 1 || carry != 0 || digits[len' - 1] != 0
    {
      CarryOut(digits[..len'], carry, total);
      ghost var low := digits[..len'];
      digits[len'] := carry % 58;
      assert digits[..len' + 1] == low + [carry % 58];
      carry := carry / 58;
      len' := len' + 1;
    }
    NothingCarried(digits[..len'], total);
  }

  lemma NothingCarried(digits: seq<nat>, v: nat)
    requires Carried(digits, 0, v)
    ensures Little(digits) == v
  {
    hide Little, Pow;
  }

  ghost predicate Carried(digits: seq<nat>, carry: nat, v: nat) {
    Little(digits) + carry * Pow(58, |digits|) == v
  }

  lemma CarryOut(low: seq<nat>, carry: nat, v: nat)
    requires Carried(low, carry, v) && carry > 0 && v < Limit()
    ensures |low| < 35 && Carried(low + [carry % 58], carry / 58, v)
  {
    ShortestFits(low, carry, v);
    LittleSnoc(low, carry % 58);
    SplitCarry(carry, Pow(58, |low|));
  }

  lemma PushDigit(before: seq<nat>, after: seq<nat>, b: nat, total: nat, byte: nat)
    requires |before| == |after| && total >= b * 256
    requires Little(after) + (total - b * 256) * Pow(58, |after|) == 256 * Little(before) + byte
    ensures Little(after + [total % 58]) + total / 58 * Pow(58, |after| + 1) == 256 * Little(before + [b]) + byte
  {
    LittleSnoc(before, b);
    LittleSnoc(after, total % 58);
    PushNumbers(Little(before), Little(after), b, total, byte, Pow(58, |after|));
  }

  lemma PushNumbers(before: nat, after: nat, b: nat, total: nat, byte: nat, p: nat)
    requires total >= b * 256 && after + (total - b * 256) * p == 256 * before + byte
    ensures after + total % 58 * p + total / 58 * (58 * p) == 256 * (before + b * p) + byte
  {
    SplitCarry(total, p);
    var kept, moved := total - b * 256, 256 * b;
    Distribute(kept, moved, p);
    assert kept + moved == total;
    assert moved * p == 256 * (b * p) by { Associate(256, b, p); }
  }

  lemma Associate(x: nat, y: nat, z: nat)
    ensures x * y * z == x * (y * z)
  {
  }

  lemma Distribute(x: nat, y: nat, z: nat)
    ensures (x + y) * z == x * z + y * z
  {
  }

  lemma SplitCarry(carry: nat, p: nat)
    ensures carry * p == carry % 58 * p + carry / 58 * (58 * p)
  {
    Distribute(carry % 58, 58 * (carry / 58), p);
    Associate(58, carry / 58, p);
    Associate(carry / 58, 58, p);
  }

  /** How many base-58 digits v needs, none for 0. */
  function DigitCount(v: nat): nat {
    if v == 0 then 0 else 1 + DigitCount(v / 58)
  }

  lemma {:induction false} TrimmedLength(digits: seq<nat>)
    requires AreDigits(58, digits) && (digits != [] ==> digits[|digits| - 1] != 0)
    ensures |digits| == DigitCount(Little(digits))
  {
    if digits != [] {
      TrimmedLength(digits[1..]);
    }
  }

  /** What the encoder promises of the text for 25 payload bytes: one '1' for each leading
    * zero byte, then the shortest base-58 form of their value. */
  ghost predicate Encodes(payload: seq<nat>, text: string) {
    && IsBase58(text)
    && Value(58, DigitsOf(text)) == Value(256, payload)
    && |text| == LeadingZeros(payload) + DigitCount(Value(256, payload))
    && forall i :: 0 <= i < LeadingZeros(payload) ==> text[i] == '1'
  }

  ghost predicate Decodes(text: string, bytes: seq<nat>) {
    && Decodable(text)
    && |bytes| == 25 && AreDigits(256, bytes) && Value(256, bytes) == Value(58, DigitsOf(text))
  }

  /** The encoded form of any payload is accepted by the decoder and gives the payload back. */
  lemma DecodeInvertsEncode(payload: seq<nat>, text: string)
    requires |payload| == 25 && AreDigits(256, payload) && Encodes(payload, text)
    ensures forall bytes :: Decodes(text, bytes) <==> bytes == payload
  {
    ValueBound(256, payload);
    var v, z := Value(256, payload), LeadingZeros(payload);
    DigitCountFits(v);
    if z == 25 {
      ZeroValue(payload);
    }
    if v == 0 && z < 25 {
      NonzeroValue(payload, z);
    }
    forall bytes | Decodes(text, bytes) ensures bytes == payload {
      ValueInjective(256, bytes, payload);
    }
  }

  lemma DigitCountFits(v: nat)
    requires v < Limit()
    ensures DigitCount(v) <= 35
  {
    if DigitCount(v) > 35 {
      DigitCountBound(v);
      PowMonotone(58, 35, DigitCount(v) - 1);
      ThirtyFiveDigits();
    }
  }

  lemma {:induction false} DigitCountBound(v: nat)
    requires v > 0
    ensures Pow(58, DigitCount(v) - 1) <= v
  {
    if v >= 58 {
      DigitCountBound(v / 58);
    }
  }

  lemma {:induction false} NonzeroValue(s: seq<nat>, i: nat)
    requires i < |s| && s[i] != 0
    ensures Value(256, s) > 0
    decreases |s|
  {
    if i < |s| - 1 {
      NonzeroValue(s[..|s| - 1], i);
    }
  }

  /** No digits but a zero: the form before any byte but leading zeros. */
  lemma NothingYet(payload: seq<nat>, zeros: nat)
    requires zeros == LeadingZeros(payload)
    ensures Value(256, payload[..zeros]) == 0 && Shortest([0], 0)
  {
    ZeroValue(payload[..zeros]);
    assert [0][1..] == [];
  }

  lemma NextByte(payload: seq<nat>, i: nat)
    requires |payload| == 25 && AreDigits(256, payload) && i < 25
    ensures 256 * Value(256, payload[..i]) + payload[i] == Value(256, payload[..i + 1]) < Limit()
  {
    assert payload[..i + 1] == payload[..i] + [payload[i]];
    ValueSnoc(256, payload[..i], payload[i]);
    ValuePrefix(256, payload, i + 1);
    ValueBound(256, payload);
  }

  /** The digit loops of `b58check_encode`, from the first byte that is not zero. */
  method EncodeDigits(payload: seq<nat>, zeros: nat, digits: array<nat>) returns (len: nat)
    requires |payload| == 25 && AreDigits(256, payload) && zeros == LeadingZeros(payload)
    requires digits.Length == 40 && forall i :: 0 <= i < 40 ==> digits[i] == 0
    modifies digits
    ensures len <= 35 && AreDigits(58, digits[..len]) && Little(digits[..len]) == Value(256, payload)
    ensures len == DigitCount(Value(256, payload))
  {
    hide Shortest, Value, Little, Limit, DigitCount;
    len := 1;
    NothingYet(payload, zeros);
    assert digits[..1] == [0];
    for i := zeros to 25
      invariant 1 <= len <= 35 && Shortest(digits[..len], Value(256, payload[..i]))
    {
      NextByte(payload, i);
      len := PushByte(digits, len, payload[i], Value(256, payload[..i]));
    }
    assert payload[..25] == payload;
    ShortestIs(digits[..len], Value(256, payload));
    len := Trim(digits, len);
  }

  lemma ShortestIs(digits: seq<nat>, v: nat)
    requires Shortest(digits, v)
    ensures AreDigits(58, digits) && Little(digits) == v
  {
    hide Little;
  }

  /** The trailing zero digits, the highest ones, do not count. */
  method Trim(digits: array<nat>, len: nat) returns (len': nat)
    requires len <= digits.Length && AreDigits(58, digits[..len])
    ensures len' <= len && AreDigits(58, digits[..len']) && Little(digits[..len']) == Little(digits[..len])
    ensures len' == DigitCount(Little(digits[..len]))
  {
    hide Little, DigitCount;
    len' := len;
    while len' > 0 && digits[len' - 1] == 0
      invariant len' <= len && AreDigits(58, digits[..len']) && Little(digits[..len']) == Little(digits[..len])
    {
      assert digits[..len'] == digits[..len' - 1] + [0];
      LittleSnoc(digits[..len' - 1], 0);
      len' := len' - 1;
    }
    TrimmedLength(digits[..len']);
  }

  /** `b58check_encode` once version, hash and checksum form the payload.  Nothing is
    * written when the text and its terminator do not fit in outsz bytes. */
  method Encode(payload: seq<nat>, outsz: nat) returns (ok: bool, text: string)
    requires |payload| == 25 && AreDigits(256, payload)
    ensures ok <==> LeadingZeros(payload) + DigitCount(Value(256, payload)) < outsz
    ensures ok ==> Encodes(payload, text)
    ensures !ok ==> text == ""
  {
    ok, text := false, "";
    var zeros := LeadingZeros(payload);
    var digits := new nat[40](_ => 0);
    var len := EncodeDigits(payload, zeros, digits);
    if zeros + len >= outsz {
      return;
    }
    text := seq(zeros, _ => '1');
    var j := len;
    while j > 0
      invariant 0 <= j <= len && |text| == zeros + len - j
      invariant forall i :: 0 <= i < zeros ==> text[i] == '1'
      invariant forall i :: zeros <= i < |text| ==> text[i] == Symbol(digits[len - 1 - (i - zeros)])
    {
      text := text + [Symbol(digits[j - 1])];
      j := j - 1;
    }
    TextValue(text, zeros, digits[..len]);
    ok := true;
  }

  lemma TextValue(text: string, zeros: nat, ds: seq<nat>)
    requires AreDigits(58, ds) && |text| == zeros + |ds|
    requires forall i :: 0 <= i < zeros ==> text[i] == '1'
    requires forall i :: zeros <= i < |text| ==> text[i] == Symbol(ds[|ds| - 1 - (i - zeros)])
    ensures IsBase58(text) && Value(58, DigitsOf(text)) == Little(ds)
  {
    LittleReverse(ds);
    ValueLeadingZeros(58, zeros, Reverse(ds));
    assert DigitsOf(text) == seq(zeros, _ => 0) + Reverse(ds);
  }
}

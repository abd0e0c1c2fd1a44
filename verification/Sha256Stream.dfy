/** Streaming SHA-256 (`src/sha2.c`): a message fed in pieces of any size through a
  * 128-byte block buffer gives the digest of the message in one piece.
  *
  * The compression of one 64-byte block into the chaining state is the parameter
  * `compress`; everything around it, including the 32-bit `unsigned int` lengths, is
  * written out.
  */
module Sha256Stream {
  import opened Basics

  // ---------------------------------------------------------------- specification

  /** Compress the whole blocks of s, a trailing partial block being ignored. */
  function Blocks<S>(compress: (S, seq<Byte>) -> S, h: S, s: seq<Byte>): S
    decreases |s|
  {
    if |s| < 64 then h else Blocks(compress, compress(h, s[..64]), s[64..])
  }

  /** x as four big-endian bytes, its higher bits lost (the UNPACK32 macro). */
  function BigEndian32(x: nat): (r: seq<Byte>)
    ensures |r| == 4
  {
    [x / 0x100_0000 % 256, x / 0x1_0000 % 256, x / 0x100 % 256, x % 256]
  }

  /** The zero bytes between the 0x80 and the 64-bit length that fill the last block. */
  function ZeroCount(n: nat): (z: nat)
    ensures z < 64 && (n + 1 + z + 8) % 64 == 0
  {
    if n % 64 <= 55 then 55 - n % 64 else 119 - n % 64
  }

  /** Section 5.1.1 of FIPS 180-2: one 1 bit, the least number of zero bits that leaves
    * 64 bits of the last block, and the message length in bits as a 64-bit number. */
  function FipsPadding(n: nat): (r: seq<Byte>)
    requires n < 0x2000_0000_0000_0000
    ensures |r| == ZeroCount(n) + 9
  {
    [0x80] + Zeros(ZeroCount(n)) + BigEndian32(8 * n / 0x1_0000_0000) + BigEndian32(8 * n)
  }

  function Digest<S>(compress: (S, seq<Byte>) -> S, h0: S, m: seq<Byte>): S
    requires |m| < 0x2000_0000_0000_0000
  {
    Blocks(compress, h0, m + FipsPadding(|m|))
  }

  /** n bytes of padding as the code writes them: one word of bit length at the end. */
  function PadBytes(n: nat, lenBits: nat): (r: seq<Byte>)
    requires n >= 5
    ensures |r| == n
  {
    [0x80] + Zeros(n - 5) + BigEndian32(lenBits)
  }

  /** The code's padding of n message bytes: the low word of the bit length, modulo 2^32. */
  function CodePadding(n: nat): (r: seq<Byte>)
    ensures |r| == ZeroCount(n) + 9
  {
    PadBytes(ZeroCount(n) + 9, 8 * n % 0x1_0000_0000)
  }

  lemma BigEndian32Zero(x: nat)
    requires x < 0x1_0000_0000
    ensures BigEndian32(x) == [0, 0, 0, 0] <==> x == 0
  {
    if BigEndian32(x) == [0, 0, 0, 0] {
      assert x / 0x100_0000 < 256;
      assert x < 0x100_0000;
      assert x / 0x1_0000 < 256;
      assert x < 0x1_0000;
      assert x / 0x100 < 256;
    }
  }

  /** The one word of length is enough exactly for messages under 2^29 bytes. */
  lemma PaddingIsFipsIffShort(n: nat)
    requires n < 0x2000_0000_0000_0000
    ensures CodePadding(n) == FipsPadding(n) <==> n < 0x2000_0000
  {
    var z := ZeroCount(n);
    var code, fips := CodePadding(n), FipsPadding(n);
    assert BigEndian32(8 * n % 0x1_0000_0000) == BigEndian32(8 * n) by {
      assert 8 * n == 8 * n / 0x1_0000_0000 * 0x1_0000_0000 + 8 * n % 0x1_0000_0000;
      WordIgnoresHighBits(8 * n / 0x1_0000_0000, 8 * n % 0x1_0000_0000);
    }
    BigEndian32Zero(8 * n / 0x1_0000_0000);
    assert code[1 + z..1 + z + 4] == [0, 0, 0, 0];
    assert fips[1 + z..1 + z + 4] == BigEndian32(8 * n / 0x1_0000_0000);
    if BigEndian32(8 * n / 0x1_0000_0000) == [0, 0, 0, 0] {
      assert code == fips;
    }
  }

  /** The shortest message it fails on. */
  lemma MispaddedMessage()
    ensures CodePadding(0x2000_0000) != FipsPadding(0x2000_0000)
  {
    hide CodePadding, FipsPadding;
    PaddingIsFipsIffShort(0x2000_0000);
  }

  lemma WordIgnoresHighBits(q: nat, x: nat)
    requires x < 0x1_0000_0000
    ensures BigEndian32(q * 0x1_0000_0000 + x) == BigEndian32(x)
  {
    assert (q * 0x1_0000_0000 + x) / 0x100_0000 == q * 0x100 + x / 0x100_0000;
    assert (q * 0x1_0000_0000 + x) / 0x1_0000 == q * 0x1_0000 + x / 0x1_0000;
    assert (q * 0x1_0000_0000 + x) / 0x100 == q * 0x100_0000 + x / 0x100;
    MulMod(q, 0x100, x / 0x100_0000);
    MulMod(q, 0x1_0000, x / 0x1_0000);
    MulMod(q, 0x100_0000, x / 0x100);
    MulMod(q, 0x1_0000_0000, x);
  }

  lemma MulMod(q: nat, m: nat, x: nat)
    requires m % 256 == 0
    ensures (q * m + x) % 256 == x % 256
  {
    var k := m / 256;
    assert q * m == 256 * (q * k);
  }

  /** The number four bytes spell, highest first. */
  function Spelled(s: seq<Byte>): nat
    requires |s| == 4
  {
    var a: nat, b: nat, c: nat, d: nat := s[0], s[1], s[2], s[3];
    ((a * 0x100 + b) * 0x100 + c) * 0x100 + d
  }

  lemma BigEndianReads(x: nat)
    requires x < 0x1_0000_0000
    ensures Spelled(BigEndian32(x)) == x
  {
    var a, b, c := x / 0x100, x / 0x1_0000, x / 0x100_0000;
    assert a / 0x100 == b && b / 0x100 == c && c < 256;
    assert x == a * 0x100 + x % 0x100 && a == b * 0x100 + a % 0x100 && b == c * 0x100 + b % 0x100;
  }

  /** The standard's padding: a one bit, zeros to 64 bits short of the end of a block and no further, and the
    * number of bits. */
  lemma FipsPaddingReads(n: nat)
    requires n < 0x2000_0000_0000_0000
    ensures var r := FipsPadding(n);
            var z := |r|;
            && 9 <= z <= 72 && (n + z) % 64 == 0
            && r[0] == 0x80 && (forall i :: 1 <= i < z - 8 ==> r[i] == 0)
            && Spelled(r[z - 8..z - 4]) * 0x1_0000_0000 + Spelled(r[z - 4..]) == 8 * n
  {
    hide BigEndian32, ZeroCount;
    var high, low := 8 * n / 0x1_0000_0000, 8 * n % 0x1_0000_0000;
    assert 8 * n == high * 0x1_0000_0000 + low;
    BigEndianReads(high);
    BigEndianReads(low);
    WordIgnoresHighBits(high, low);
    var r := FipsPadding(n);
    var z := |r|;
    assert r[z - 8..z - 4] == BigEndian32(high) && r[z - 4..] == BigEndian32(low);
    assert forall i :: 1 <= i < z - 8 ==> r[i] == Zeros(ZeroCount(n))[i - 1];
  }

  /** Compressing whole blocks is associative with concatenation. */
  lemma {:induction false} BlocksConcat<S>(compress: (S, seq<Byte>) -> S, h: S, a: seq<Byte>, b: seq<Byte>)
    requires |a| % 64 == 0
    ensures Blocks(compress, h, a + b) == Blocks(compress, Blocks(compress, h, a), b)
    decreases |a|
  {
    if |a| == 0 {
      assert a + b == b;
    } else {
      assert (a + b)[..64] == a[..64] && (a + b)[64..] == a[64..] + b;
      BlocksConcat(compress, compress(h, a[..64]), a[64..], b);
    }
  }

  // ---------------------------------------------------------------- the context

  /** `sha256_ctx`.  `done` is what has been compressed so far; the bytes waiting in the
    * buffer follow it. */
  class Context<S> {
    const compress: (S, seq<Byte>) -> S
    const h0: S
    const block: array<Byte>
    var tot_len: nat
    var len: nat
    var h: S
    ghost var done: seq<Byte>

    ghost predicate Valid()
      reads this, block
    {
      && block.Length == 128
      && len < 64
      && Whole(done)
      && tot_len == |done| % 0x1_0000_0000
      && h == Blocks(compress, h0, done)
    }

    /** All bytes passed to Update so far. */
    ghost function Fed(): seq<Byte>
      requires Valid()
      reads this, block
    {
      done + block[..len]
    }

    constructor (compress: (S, seq<Byte>) -> S, h0: S)
      ensures Valid() && fresh(block) && Fed() == []
      ensures this.compress == compress && this.h0 == h0
    {
      this.compress, this.h0 := compress, h0;
      block := new Byte[128];
      h, tot_len, len := h0, 0, 0;
      done := [];
    }

    /** The block loop of `sha256_transf`. */
    method Transform(message: seq<Byte>, blocks: nat)
      requires 64 * blocks <= |message|
      modifies this`h
      ensures h == Blocks(compress, old(h), message[..64 * blocks])
    {
      for i := 0 to blocks
        invariant h == Blocks(compress, old(h), message[..64 * i])
      {
        var next := message[64 * i..64 * i + 64];
        assert message[..64 * (i + 1)] == message[..64 * i] + next;
        BlocksConcat(compress, old(h), message[..64 * i], next);
        assert next[..64] == next;
        h := compress(h, next);
      }
    }

    /** Copy bytes into the buffer (memcpy, memset). */
    method Fill(at: nat, bytes: seq<Byte>)
      requires at + |bytes| <= block.Length
      modifies block
      ensures forall k :: 0 <= k < block.Length ==>
        block[k] == if at <= k < at + |bytes| then bytes[k - at] else old(block[k])
    {
      forall k | 0 <= k < |bytes| {
        block[at + k] := bytes[k];
      }
    }

    /** `sha256_update`.  The `unsigned int` sum `len + |message|` decides whether a block is
      * complete. It is right exactly when that sum does not wrap: when it does, the bytes passed on
      * are 2^32 fewer than those fed, none of the message among them. */
    method Update(message: seq<Byte>)
      requires Valid() && |message| < 0x1_0000_0000
      modifies this, block
      ensures Valid()
      ensures old(len) + |message| < 0x1_0000_0000 ==> Fed() == old(Fed()) + message
      ensures old(len) + |message| >= 0x1_0000_0000 ==>
                && Fed() <= old(Fed()) && |Fed()| == |old(Fed())| + |message| - 0x1_0000_0000
                && Fed() != old(Fed()) + message
    {
      hide Blocks, Whole;
      var room := 64 - len;
      var take := if |message| < room then |message| else room;
      ghost var waiting := block[..len];
      Fill(len, message[..take]);
      assert block[..len + take] == waiting + message[..take];
      if (len + |message|) % 0x1_0000_0000 < 64 {
        len := (len + |message|) % 0x1_0000_0000;
        assert block[..len] == (waiting + message[..take])[..len];
        KeptOrLost(done, waiting, message, take, block[..len]);
        return;
      }
      assert done + waiting + message == done + block[..64] + message[take..];
      Roll(message[take..]);
    }

    /** The second half of `sha256_update`: the buffer holds a whole block. */
    method Roll(shifted: seq<Byte>)
      requires Valid() && |shifted| < 0x1_0000_0000
      modifies this, block
      ensures Valid() && Fed() == old(done + block[..64]) + shifted
    {
      hide Blocks, Whole;
      var blocks := |shifted| / 64;
      var rest := |shifted| % 64;
      CutBlocks(shifted, blocks, rest);
      var tail := shifted[64 * blocks..];
      TakeBlocks(shifted, blocks);
      Fill(0, tail);
      len := rest;
      assert block[..len] == tail;
    }

    /** The buffered block and all whole ones behind it. */
    method TakeBlocks(shifted: seq<Byte>, blocks: nat)
      requires Valid() && 64 * blocks <= |shifted|
      modifies this`h, this`tot_len, this`done
      ensures Valid() && done == old(done) + block[..64] + shifted[..64 * blocks]
    {
      hide Blocks, Whole;
      var first, body := block[..64], shifted[..64 * blocks];
      Transform(first, 1);
      Transform(shifted, blocks);
      WholeBlocks(body, blocks);
      TwoTransforms(compress, h0, done, first, body);
      RollLength(done, first, body, tot_len, blocks);
      tot_len := (tot_len + (blocks + 1) * 64) % 0x1_0000_0000;
      done := done + first + body;
    }

    /** The padding of `sha256_final`, written behind the waiting bytes. */
    method Pad(blocks: nat, lenBits: nat)
      requires 0 <= len < len + 5 <= blocks * 64 <= block.Length
      modifies block
      ensures block[..blocks * 64] == old(block[..len]) + PadBytes(blocks * 64 - len, lenBits)
    {
      var padded := blocks * 64;
      Fill(len, Zeros(padded - len));
      block[len] := 0x80;
      Fill(padded - 4, BigEndian32(lenBits));
    }

    /** `sha256_final`: pad in the buffer and compress the last one or two blocks. */
    method Final() returns (digest: S)
      requires Valid()
      modifies this, block
      ensures digest == Blocks(compress, h0, old(Fed()) + CodePadding(|old(Fed())|))
      ensures |old(Fed())| < 0x2000_0000 ==> digest == Digest(compress, h0, old(Fed()))
    {
      hide Blocks, Whole;
      var blocks := 1 + if 55 < len % 64 then 1 else 0;
      var lenBits := (tot_len + len) * 8 % 0x1_0000_0000;
      ghost var m, waiting := Fed(), block[..len];
      PadArithmetic(done, len, tot_len);
      Pad(blocks, lenBits);
      var last := block[..blocks * 64];
      assert last == waiting + CodePadding(|m|);
      LastBlocks(compress, h0, m, done, last);
      Transform(last, blocks);
      assert last[..64 * blocks] == last;
      digest := h;
    }
  }

  ghost predicate Whole(s: seq<Byte>) {
    |s| % 64 == 0
  }

  lemma LastBlocks<S>(compress: (S, seq<Byte>) -> S, h0: S, fed: seq<Byte>, done: seq<Byte>, last: seq<Byte>)
    requires Whole(done) && done + last == fed + CodePadding(|fed|)
    ensures Blocks(compress, Blocks(compress, h0, done), last) == Blocks(compress, h0, fed + CodePadding(|fed|))
    ensures |fed| < 0x2000_0000 ==> Blocks(compress, Blocks(compress, h0, done), last) == Digest(compress, h0, fed)
  {
    BlocksConcat(compress, h0, done, last);
    if |fed| < 0x2000_0000 {
      PaddingIsFipsIffShort(|fed|);
    }
  }

  lemma AddMod32(a: nat, b: nat)
    ensures (a % 0x1_0000_0000 + b) % 0x1_0000_0000 == (a + b) % 0x1_0000_0000
  {
    SameMod32(a % 0x1_0000_0000 + b, a + b, a / 0x1_0000_0000);
  }

  lemma SameMod32(x: nat, y: nat, turns: nat)
    requires y == x + turns * 0x1_0000_0000
    ensures x % 0x1_0000_0000 == y % 0x1_0000_0000
  {
  }

  lemma TimesMod32(a: nat, b: nat)
    ensures (a % 0x1_0000_0000 + b) * 8 % 0x1_0000_0000 == 8 * (a + b) % 0x1_0000_0000
  {
    var q := a / 0x1_0000_0000;
    SameMod32((a % 0x1_0000_0000 + b) * 8, 8 * (a + b), 8 * q);
  }

  lemma PadArithmetic(done: seq<Byte>, len: nat, tot_len: nat)
    requires Whole(done) && len < 64 && tot_len == |done| % 0x1_0000_0000
    ensures (tot_len + len) * 8 % 0x1_0000_0000 == 8 * (|done| + len) % 0x1_0000_0000
    ensures ZeroCount(|done| + len) + 9 == (if 55 < len % 64 then 128 else 64) - len
  {
    hide ZeroCount;
    TimesMod32(|done|, len);
    PadCount(|done|, len);
  }

  lemma PadCount(whole: nat, len: nat)
    requires whole % 64 == 0 && len < 64
    ensures ZeroCount(whole + len) + 9 == (if 55 < len % 64 then 128 else 64) - len
  {
    var q := whole / 64;
    assert whole + len == 64 * q + len;
    SmallRemainder(q, len);
  }

  lemma SmallRemainder(q: nat, len: nat)
    requires len < 64
    ensures (64 * q + len) % 64 == len
  {
  }

  /** What a call that completes no block has in the buffer: all of the message, or if the sum of the
    * lengths wrapped, only some of what was there before. */
  lemma KeptOrLost(done: seq<Byte>, waiting: seq<Byte>, message: seq<Byte>, take: nat, kept: seq<Byte>)
    requires |waiting| < 64 && |message| < 0x1_0000_0000 && take == (if |message| < 64 - |waiting| then |message| else 64 - |waiting|)
    requires |kept| == (|waiting| + |message|) % 0x1_0000_0000 < 64
    requires kept == (waiting + message[..take])[..|kept|]
    ensures |waiting| + |message| < 0x1_0000_0000 ==> done + kept == done + waiting + message
    ensures |waiting| + |message| >= 0x1_0000_0000 ==>
              && done + kept <= done + waiting && |done + kept| == |done + waiting| + |message| - 0x1_0000_0000
              && done + kept != done + waiting + message
  {
    if |waiting| + |message| >= 0x1_0000_0000 {
      assert kept == waiting[..|kept|];
      assert |done + kept| < |done + waiting + message|;
    } else {
      assert message[..take] == message && kept == waiting + message;
      assert done + (waiting + message) == done + waiting + message;
    }
  }

  lemma WholeBlocks(body: seq<Byte>, blocks: nat)
    requires |body| == 64 * blocks
    ensures Whole(body)
  {
  }

  lemma RollLength(done: seq<Byte>, first: seq<Byte>, body: seq<Byte>, tot_len: nat, blocks: nat)
    requires tot_len == |done| % 0x1_0000_0000 && |first| == 64 && |body| == 64 * blocks
    ensures (tot_len + (blocks + 1) * 64) % 0x1_0000_0000 == |done + first + body| % 0x1_0000_0000
  {
    AddMod32(|done|, (blocks + 1) * 64);
  }

  lemma CutBlocks(s: seq<Byte>, blocks: nat, rest: nat)
    requires blocks == |s| / 64 && rest == |s| % 64
    ensures 64 * blocks <= |s| && |s[..64 * blocks]| == 64 * blocks && Whole(s[..64 * blocks])
    ensures |s[64 * blocks..]| == rest && s == s[..64 * blocks] + s[64 * blocks..]
  {
  }

  /** What the two calls of the block loop have compressed once a buffered block is full. */
  lemma TwoTransforms<S>(compress: (S, seq<Byte>) -> S, h0: S, done: seq<Byte>, first: seq<Byte>, body: seq<Byte>)
    requires Whole(done) && |first| == 64 && Whole(body)
    ensures first[..64 * 1] == first && Whole(done + first) && Whole(done + first + body)
    ensures Blocks(compress, Blocks(compress, Blocks(compress, h0, done), first), body)
         == Blocks(compress, h0, done + first + body)
  {
    BlocksConcat(compress, h0, done, first);
    BlocksConcat(compress, h0, done + first, body);
  }

  lemma {:induction false} FlattenPrefix(pieces: seq<seq<Byte>>, i: nat)
    requires i <= |pieces|
    ensures |Flatten(pieces[..i])| <= |Flatten(pieces)|
    decreases |pieces|
  {
    if i < |pieces| {
      FlattenPrefix(pieces[..|pieces| - 1], i);
      assert pieces[..|pieces| - 1][..i] == pieces[..i];
    } else {
      assert pieces[..i] == pieces;
    }
  }

  /** However a message under 2^29 bytes is cut into Update calls, the digest is that of the
    * message as a whole. */
  method HashPieces<S>(compress: (S, seq<Byte>) -> S, h0: S, pieces: seq<seq<Byte>>) returns (digest: S)
    requires |Flatten(pieces)| < 0x2000_0000
    ensures digest == Digest(compress, h0, Flatten(pieces))
  {
    var ctx := new Context(compress, h0);
    for i := 0 to |pieces|
      invariant ctx.Valid() && fresh(ctx) && fresh(ctx.block)
      invariant ctx.Fed() == Flatten(pieces[..i])
    {
      assert pieces[..i + 1][..i] == pieces[..i];
      FlattenPrefix(pieces, i + 1);
      ctx.Update(pieces[i]);
    }
    assert pieces[..|pieces|] == pieces;
    digest := ctx.Final();
  }
}

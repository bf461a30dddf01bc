/** SHA-1 as written out by hand in src/main.rs, against RFC 3174: padding of section 4 and the
    digest of section 6.1. */
module Sha1 {
  import opened Prelude

  type Word = bv32

  type Bytes = seq<bv8>

  // ------------------------------------------------------ RFC 3174, section 4

  /** The k-byte big-endian form of n, modulo 256^k. */
  function BigEndian(n: nat, k: nat): (s: Bytes)
    ensures |s| == k
    decreases k
  {
    if k == 0 then [] else BigEndian(n / 256, k - 1) + [(n % 256) as bv8]
  }

  function BigEndianValue(s: Bytes): nat {
    if s == [] then 0 else BigEndianValue(s[..|s| - 1]) * 256 + s[|s| - 1] as int
  }

  function Power256(k: nat): nat { if k == 0 then 1 else 256 * Power256(k - 1) }

  function Zeros(k: nat): (s: Bytes)
    ensures |s| == k
  {
    if k == 0 then [] else Zeros(k - 1) + [0]
  }

  /** p pads m: a one bit, the fewest zero bits that complete a block, the 64-bit length in bits. */
  predicate Pads(p: Bytes, m: Bytes, zeros: nat) {
    p == m + [0x80] + Zeros(zeros) + BigEndian(|m| * 8, 8) && |p| % 64 == 0 && zeros < 64
  }

  function ZeroCount(len: nat): (z: nat)
    ensures z < 64 && (len + 1 + z) % 64 == 56
  {
    (119 - len % 64) % 64
  }

  function Padded(m: Bytes): Bytes { m + [0x80] + Zeros(ZeroCount(|m|)) + BigEndian(|m| * 8, 8) }

  lemma ZeroCountIsUnique(len: nat, z: nat)
    requires z < 64 && (len + 1 + z + 8) % 64 == 0
    ensures z == ZeroCount(len)
  {
  }

  lemma StillPadding(len: nat, z: nat)
    requires z <= ZeroCount(len) && (len + 1 + z) % 64 != 56
    ensures z < ZeroCount(len)
  {
  }

  /** The padding of a message exists and is unique, and Padded is it. */
  lemma PaddingIsUnique(m: Bytes, p: Bytes, zeros: nat)
    ensures Pads(Padded(m), m, ZeroCount(|m|))
    ensures Pads(p, m, zeros) ==> p == Padded(m)
  {
    PaddedLength(m);
    if Pads(p, m, zeros) {
      assert |p| == |m| + 1 + zeros + 8;
      ZeroCountIsUnique(|m|, zeros);
    }
  }

  lemma PaddedLength(m: Bytes)
    ensures |Padded(m)| == |m| + 9 + ZeroCount(|m|) && |Padded(m)| % 64 == 0
  {
    hide BigEndian, ZeroCount;
  }

  lemma {:induction false} BigEndianRoundTrip(n: nat, k: nat)
    requires n < Power256(k)
    ensures BigEndianValue(BigEndian(n, k)) == n
    decreases k
  {
    if k > 0 {
      var q := n / 256;
      assert n == 256 * q + n % 256;
      assert q < Power256(k - 1);
      BigEndianRoundTrip(q, k - 1);
      ByteValue(n % 256);
      var s := BigEndian(n, k);
      assert s[..|s| - 1] == BigEndian(n / 256, k - 1);
    }
  }

  /** Reads the message back out of its padding. */
  function Unpadded(p: Bytes): Bytes
    requires |p| >= 8
  {
    var len := BigEndianValue(p[|p| - 8..]) / 8;
    if len <= |p| then p[..len] else []
  }

  /** Below 2^61 bytes the length in bits fits its 64-bit field, so padding loses nothing. */
  lemma PaddingIsReversible(m: Bytes)
    requires |m| < 0x2000_0000_0000_0000
    ensures |Padded(m)| % 64 == 0 && |Padded(m)| > |m| + 8 && Unpadded(Padded(m)) == m
  {
    var p := Padded(m);
    PaddedLength(m);
    assert p[|p| - 8..] == BigEndian(|m| * 8, 8);
    assert Power256(8) == 0x1_0000_0000_0000_0000;
    BigEndianRoundTrip(|m| * 8, 8);
    assert p[..|m|] == m;
  }

  // ---------------------------------------------- RFC 3174, sections 3, 5 and 6.1

  /** The circular left shift S^n of section 3. */
  function Rotl(x: Word, n: bv6): Word
    requires n <= 32
  {
    (x << n) | (x >> (32 - n))
  }

  function FromBytes(b0: bv8, b1: bv8, b2: bv8, b3: bv8): Word {
    ((b0 as bv32) << 24) | ((b1 as bv32) << 16) | ((b2 as bv32) << 8) | (b3 as bv32)
  }

  function ToBytes(x: Word): (s: Bytes)
    ensures |s| == 4
  {
    [(x >> 24) as bv8, ((x >> 16) & 0xFF) as bv8, ((x >> 8) & 0xFF) as bv8, (x & 0xFF) as bv8]
  }

  function F(t: nat, b: Word, c: Word, d: Word): Word {
    if t < 20 then (b & c) | (!b & d)
    else if t < 40 then b ^ c ^ d
    else if t < 60 then (b & c) | (b & d) | (c & d)
    else b ^ c ^ d
  }

  function K(t: nat): Word {
    if t < 20 then 0x5A827999
    else if t < 40 then 0x6ED9EBA1
    else if t < 60 then 0x8F1BBCDC
    else 0xCA62C1D6
  }

  /** The message schedule word W(t) of one 64-byte block. */
  function W(block: Bytes, t: nat): Word
    requires |block| == 64
  {
    if t < 16 then FromBytes(block[4 * t], block[4 * t + 1], block[4 * t + 2], block[4 * t + 3])
    else Rotl(W(block, t - 3) ^ W(block, t - 8) ^ W(block, t - 14) ^ W(block, t - 16), 1)
  }

  /** The five working variables A to E, or the five hash words H0 to H4. */
  datatype Regs = Regs(a: Word, b: Word, c: Word, d: Word, e: Word)

  const INIT := Regs(0x67452301, 0xEFCDAB89, 0x98BADCFE, 0x10325476, 0xC3D2E1F0)

  /** Addition and subtraction modulo 2^32. */
  function Plus(x: Word, y: Word): Word { x + y }

  function Minus(x: Word, y: Word): Word { x - y }

  function Temp(t: nat, w: Word, r: Regs): Word {
    Plus(Plus(Plus(Plus(Rotl(r.a, 5), F(t, r.b, r.c, r.d)), r.e), K(t)), w)
  }

  function Round(t: nat, w: Word, r: Regs): Regs {
    Regs(Temp(t, w, r), r.a, Rotl(r.b, 30), r.c, r.d)
  }

  /** The first n rounds over a block. */
  function Rounds(block: Bytes, n: nat, r: Regs): Regs
    requires |block| == 64
  {
    if n == 0 then r else Round(n - 1, W(block, n - 1), Rounds(block, n - 1, r))
  }

  function Compress(h: Regs, block: Bytes): Regs
    requires |block| == 64
  {
    var r := Rounds(block, 80, h);
    Regs(Plus(h.a, r.a), Plus(h.b, r.b), Plus(h.c, r.c), Plus(h.d, r.d), Plus(h.e, r.e))
  }

  /** The hash words after the first n blocks. */
  function Blocks(data: Bytes, n: nat): Regs
    requires n * 64 <= |data|
  {
    if n == 0 then INIT else Compress(Blocks(data, n - 1), data[(n - 1) * 64..n * 64])
  }

  function Digest(m: Bytes): (d: Bytes)
    ensures |d| == 20
  {
    var p := Padded(m);
    PaddedLength(m);
    var h := Blocks(p, |p| / 64);
    ToBytes(h.a) + ToBytes(h.b) + ToBytes(h.c) + ToBytes(h.d) + ToBytes(h.e)
  }

  // ------------------------------------------------------- laws of the parts

  /** The same bits wherever the mask has one. */
  predicate Agree(x: Word, y: Word, mask: Word) { x & mask == y & mask }

  function Parity(b: Word, c: Word, d: Word): Word { b ^ c ^ d }

  function Majority(b: Word, c: Word, d: Word): Word { (b & c) | (b & d) | (c & d) }

  lemma FirstTwoCancel(b: Word, c: Word, d: Word, mask: Word)
    requires Agree(b, c, mask)
    ensures Agree(Parity(b, c, d), d, mask)
  {
  }

  lemma OuterTwoCancel(b: Word, c: Word, d: Word, mask: Word)
    requires Agree(b, d, mask)
    ensures Agree(Parity(b, c, d), c, mask)
  {
  }

  lemma LastTwoCancel(b: Word, c: Word, d: Word, mask: Word)
    requires Agree(c, d, mask)
    ensures Agree(Parity(b, c, d), b, mask)
  {
  }

  lemma FirstTwoDecide(b: Word, c: Word, d: Word, mask: Word)
    requires Agree(b, c, mask)
    ensures Agree(Majority(b, c, d), b, mask)
  {
  }

  lemma OuterTwoDecide(b: Word, c: Word, d: Word, mask: Word)
    requires Agree(b, d, mask)
    ensures Agree(Majority(b, c, d), b, mask)
  {
  }

  lemma LastTwoDecide(b: Word, c: Word, d: Word, mask: Word)
    requires Agree(c, d, mask)
    ensures Agree(Majority(b, c, d), c, mask)
  {
  }

  lemma FIsParity(t: nat, b: Word, c: Word, d: Word)
    requires 20 <= t < 40 || 60 <= t < 80
    ensures F(t, b, c, d) == Parity(b, c, d)
  {
  }

  lemma FIsMajority(t: nat, b: Word, c: Word, d: Word)
    requires 40 <= t < 60
    ensures F(t, b, c, d) == Majority(b, c, d)
  {
  }

  /** The function of section 5, bit by bit: a choice by b, then parity, then the majority, then parity again. */
  lemma ChoosesByB(t: nat, b: Word, c: Word, d: Word)
    requires t < 20
    ensures F(t, b, c, d) & b == c & b && F(t, b, c, d) & !b == d & !b
  {
  }

  /** Wherever two words agree, parity is the third; among three bits two always agree. */
  lemma IsParity(t: nat, b: Word, c: Word, d: Word, mask: Word)
    requires 20 <= t < 40 || 60 <= t < 80
    ensures Agree(b, c, mask) ==> Agree(F(t, b, c, d), d, mask)
    ensures Agree(b, d, mask) ==> Agree(F(t, b, c, d), c, mask)
    ensures Agree(c, d, mask) ==> Agree(F(t, b, c, d), b, mask)
  {
    FIsParity(t, b, c, d);
    hide *;
    if Agree(b, c, mask) { FirstTwoCancel(b, c, d, mask); }
    if Agree(b, d, mask) { OuterTwoCancel(b, c, d, mask); }
    if Agree(c, d, mask) { LastTwoCancel(b, c, d, mask); }
  }

  /** Wherever two words agree, the majority is what they agree on. */
  lemma IsMajority(t: nat, b: Word, c: Word, d: Word, mask: Word)
    requires 40 <= t < 60
    ensures Agree(b, c, mask) ==> Agree(F(t, b, c, d), b, mask)
    ensures Agree(b, d, mask) ==> Agree(F(t, b, c, d), b, mask)
    ensures Agree(c, d, mask) ==> Agree(F(t, b, c, d), c, mask)
  {
    FIsMajority(t, b, c, d);
    hide *;
    if Agree(b, c, mask) { FirstTwoDecide(b, c, d, mask); }
    if Agree(b, d, mask) { OuterTwoDecide(b, c, d, mask); }
    if Agree(c, d, mask) { LastTwoDecide(b, c, d, mask); }
  }

  /** The constants are the square roots of 2, 3, 5 and 10, times 2^30. */
  lemma ConstantsAreRoots(t: nat)
    requires t < 80
    ensures var n := if t < 20 then 2 else if t < 40 then 3 else if t < 60 then 5 else 10;
      var k := K(t) as int;
      k * k <= n * 0x1000_0000_0000_0000 < (k + 1) * (k + 1)
  {
  }

  lemma NoCarry(x: Word)
    requires x < 0x8000_0000
    ensures Rotl(x, 1) == x + x
  {
  }

  lemma Carry(x: Word)
    requires x >= 0x8000_0000
    ensures Rotl(x, 1) == x + x + 1
  {
  }

  lemma RotationByTwo(x: Word)
    ensures Rotl(x, 2) == Rotl(Rotl(x, 1), 1)
  {
  }

  lemma RotationByFive(x: Word)
    ensures Rotl(x, 5) == Rotl(Rotl(Rotl(x, 2), 2), 1)
  {
  }

  /** Rotating by one doubles modulo 2^32 and brings the carry back in, by 2 and by 5 repeats that, and by 30 is
      undone by 2: these are all the rotations there are in the digest. */
  lemma RotationsDouble(x: Word)
    ensures Rotl(x, 1) == if x < 0x8000_0000 then x + x else x + x + 1
    ensures Rotl(x, 2) == Rotl(Rotl(x, 1), 1)
    ensures Rotl(x, 5) == Rotl(Rotl(Rotl(x, 2), 2), 1)
    ensures Rotl(Rotl(x, 30), 2) == x
  {
    if x < 0x8000_0000 { NoCarry(x); } else { Carry(x); }
    RotationByTwo(x);
    RotationByFive(x);
    LeftThenRight(x);
    hide Rotl;
  }

  /** Words are big-endian numbers in base 256. */
  lemma WordsAreBigEndian(b0: bv8, b1: bv8, b2: bv8, b3: bv8)
    ensures FromBytes(b0, b1, b2, b3) == (((b0 as bv32) * 256 + (b1 as bv32)) * 256 + (b2 as bv32)) * 256 + (b3 as bv32)
  {
  }

  /** Writing a word out and reading it back gives the word. */
  lemma WordRoundTrip(x: Word)
    ensures var s := ToBytes(x); FromBytes(s[0], s[1], s[2], s[3]) == x
  {
  }

  // ------------------------------------------------- the rounds are a bijection

  /** Undoes Round. */
  function Unround(t: nat, w: Word, r: Regs): Regs {
    var b := Rotl(r.c, 2);
    Regs(r.b, b, r.d, r.e, Minus(Minus(Minus(r.a, w), K(t)), Plus(Rotl(r.b, 5), F(t, b, r.d, r.e))))
  }

  function Unrounds(block: Bytes, n: nat, r: Regs): Regs
    requires |block| == 64
  {
    if n == 0 then r else Unrounds(block, n - 1, Unround(n - 1, W(block, n - 1), r))
  }

  lemma LeftThenRight(x: Word)
    ensures Rotl(Rotl(x, 30), 2) == x
  {
  }

  lemma RightThenLeft(x: Word)
    ensures Rotl(Rotl(x, 2), 30) == x
  {
  }

  lemma PlusMinus(x: Word, y: Word)
    ensures Minus(Plus(x, y), y) == x && Minus(Plus(x, y), x) == y
    ensures Plus(Minus(x, y), y) == x && Plus(y, Minus(x, y)) == x
  {
  }

  lemma RoundUndone(t: nat, w: Word, r: Regs)
    ensures Unround(t, w, Round(t, w, r)) == r
  {
    hide Plus, Minus, Rotl, F, K;
    LeftThenRight(r.b);
    var x := Plus(Rotl(r.a, 5), F(t, r.b, r.c, r.d));
    PlusMinus(Plus(Plus(x, r.e), K(t)), w);
    PlusMinus(Plus(x, r.e), K(t));
    PlusMinus(x, r.e);
  }

  lemma RoundRedone(t: nat, w: Word, r: Regs)
    ensures Round(t, w, Unround(t, w, r)) == r
  {
    hide Plus, Minus, Rotl, F, K;
    RightThenLeft(r.c);
    var x := Plus(Rotl(r.b, 5), F(t, Rotl(r.c, 2), r.d, r.e));
    PlusMinus(Minus(Minus(r.a, w), K(t)), x);
    PlusMinus(Minus(r.a, w), K(t));
    PlusMinus(r.a, w);
  }

  /** For every block, any number of rounds is undone by the inverse rounds and undoes them:
      across all four ranges of f and k the rounds are a bijection on the five words. */
  lemma {:induction false} RoundsAreABijection(block: Bytes, n: nat, r: Regs)
    requires |block| == 64
    ensures Unrounds(block, n, Rounds(block, n, r)) == r
    ensures Rounds(block, n, Unrounds(block, n, r)) == r
  {
    if n > 0 {
      var w := W(block, n - 1);
      RoundUndone(n - 1, w, Rounds(block, n - 1, r));
      RoundsAreABijection(block, n - 1, r);
      RoundsAreABijection(block, n - 1, Unround(n - 1, w, r));
      RoundRedone(n - 1, w, r);
    }
  }

  // --------------------------------------------------------------- the hasher

  function ToRegs(h: seq<Word>): Regs
    requires |h| == 5
  {
    Regs(h[0], h[1], h[2], h[3], h[4])
  }

  class Sha1 {
    const state: array<Word>
    var buffer: Bytes
    var totalLen: nat

    /** Nothing has been compressed yet: the hasher only collects its input. */
    ghost predicate Collecting()
      reads this, state
    {
      state.Length == 5 && ToRegs(state[..]) == INIT && totalLen == |buffer|
    }

    constructor ()
      ensures Collecting() && buffer == [] && fresh(state)
    {
      state := new Word[5][0x67452301, 0xEFCDAB89, 0x98BADCFE, 0x10325476, 0xC3D2E1F0];
      buffer, totalLen := [], 0;
    }

    method Update(data: Bytes)
      requires Collecting()
      modifies this
      ensures Collecting() && buffer == old(buffer) + data
    {
      buffer := buffer + data;
      totalLen := totalLen + |data|;
    }

    method Finalize() returns (digest: Bytes)
      requires Collecting()
      modifies this, state
      ensures digest == Digest(old(buffer))
    {
      hide Compress, ToBytes, Padded;
      Pad();
      var data := buffer;
      buffer := [];
      for i := 0 to |data| / 64
        invariant state.Length == 5 && ToRegs(state[..]) == Blocks(data, i)
      {
        ProcessBlock(data[i * 64..(i + 1) * 64]);
      }
      digest := Output();
    }

    /** The padding loop of finalize. */
    method Pad()
      requires Collecting()
      modifies this
      ensures buffer == Padded(old(buffer))
      ensures state[..] == old(state[..])
    {
      hide BigEndian, ZeroCount;
      ghost var m := buffer;
      var bitLen := totalLen * 8;
      buffer := buffer + [0x80];
      ghost var zeros := 0;
      while |buffer| % 64 != 56
        invariant zeros <= ZeroCount(|m|) && buffer == m + [0x80] + Zeros(zeros)
        decreases ZeroCount(|m|) - zeros
      {
        StillPadding(|m|, zeros);
        buffer := buffer + [0];
        zeros := zeros + 1;
      }
      ZeroCountIsUnique(|m|, zeros);
      buffer := buffer + BigEndian(bitLen, 8);
    }

    /** The digest bytes of the five hash words. */
    method Output() returns (digest: Bytes)
      requires state.Length == 5
      ensures var h := ToRegs(state[..]);
        digest == ToBytes(h.a) + ToBytes(h.b) + ToBytes(h.c) + ToBytes(h.d) + ToBytes(h.e)
    {
      hide ToBytes;
      var result := new bv8[20];
      for i := 0 to 5
        invariant forall j, k :: 0 <= j < i && 0 <= k < 4 ==> result[4 * j + k] == ToBytes(state[j])[k]
      {
        var bytes := ToBytes(state[i]);
        result[4 * i], result[4 * i + 1], result[4 * i + 2], result[4 * i + 3] := bytes[0], bytes[1], bytes[2], bytes[3];
      }
      digest := result[..];
      FourByFour(digest, state[..]);
    }

    method ProcessBlock(block: Bytes)
      requires state.Length == 5 && |block| == 64
      modifies state
      ensures ToRegs(state[..]) == Compress(old(ToRegs(state[..])), block)
    {
      hide F, K, Rotl, Plus, W;
      var w := Schedule(block);
      var a, b, c, d, e := state[0], state[1], state[2], state[3], state[4];
      ghost var h := ToRegs(state[..]);
      for i := 0 to 80
        invariant Regs(a, b, c, d, e) == Rounds(block, i, h)
        invariant forall t :: 0 <= t < 80 ==> w[t] == W(block, t)
      {
        var f, k := F(i, b, c, d), K(i);
        var temp := Plus(Plus(Plus(Plus(Rotl(a, 5), f), e), k), w[i]);
        e := d;
        d := c;
        c := Rotl(b, 30);
        b := a;
        a := temp;
      }
      state[0] := Plus(state[0], a);
      state[1] := Plus(state[1], b);
      state[2] := Plus(state[2], c);
      state[3] := Plus(state[3], d);
      state[4] := Plus(state[4], e);
    }
  }

  lemma ScheduleWord(block: Bytes, t: nat)
    requires |block| == 64
    ensures t < 16 ==>
      W(block, t) == FromBytes(block[t * 4], block[t * 4 + 1], block[t * 4 + 2], block[t * 4 + 3])
    ensures t >= 16 ==>
      W(block, t) == Rotl(W(block, t - 3) ^ W(block, t - 8) ^ W(block, t - 14) ^ W(block, t - 16), 1)
  {
    hide Rotl, FromBytes;
  }

  /** The 80-word array of the message schedule. */
  method Schedule(block: Bytes) returns (w: array<Word>)
    requires |block| == 64
    ensures fresh(w) && w.Length == 80 && forall t :: 0 <= t < 80 ==> w[t] == W(block, t)
  {
    hide Rotl, FromBytes, W;
    w := new Word[80];
    for i := 0 to 16
      invariant forall t :: 0 <= t < i ==> w[t] == W(block, t)
    {
      ScheduleWord(block, i);
      w[i] := FromBytes(block[i * 4], block[i * 4 + 1], block[i * 4 + 2], block[i * 4 + 3]);
    }
    for i := 16 to 80
      invariant forall t :: 0 <= t < i ==> w[t] == W(block, t)
    {
      ScheduleWord(block, i);
      w[i] := Rotl(w[i - 3] ^ w[i - 8] ^ w[i - 14] ^ w[i - 16], 1);
    }
  }

  lemma FourByFour(bytes: Bytes, h: seq<Word>)
    requires |h| == 5 && |bytes| == 20
    requires forall j, k :: 0 <= j < 5 && 0 <= k < 4 ==> bytes[4 * j + k] == ToBytes(h[j])[k]
    ensures bytes == ToBytes(h[0]) + ToBytes(h[1]) + ToBytes(h[2]) + ToBytes(h[3]) + ToBytes(h[4])
  {
  }

  /** However a message is split over update calls, finalize gives the digest of the whole. */
  method HashPieces(pieces: seq<Bytes>) returns (digest: Bytes)
    ensures digest == Digest(Joined(pieces))
  {
    var hasher := new Sha1();
    for i := 0 to |pieces|
      invariant hasher.Collecting() && hasher.buffer == Joined(pieces[..i])
      invariant fresh(hasher) && fresh(hasher.state)
    {
      hasher.Update(pieces[i]);
      assert pieces[..i + 1][..i] == pieces[..i];
    }
    assert pieces[..|pieces|] == pieces;
    digest := hasher.Finalize();
  }
}

/** Worked examples, one round after the other: the digest of "abc" of RFC 3174, section 7.3, and the accept key
    of RFC 6455, section 1.3. */
module KnownAnswers {
  import opened Prelude
  import opened Sha1
  import AcceptKey
  import Base64

  // ----------------------------------------------------------------- vocabulary

  /** Eight bytes in a row. */
  predicate From8(s: Bytes, i: nat, b0: bv8, b1: bv8, b2: bv8, b3: bv8, b4: bv8, b5: bv8, b6: bv8, b7: bv8) {
    i + 8 <= |s| && s[i] == b0 && s[i + 1] == b1 && s[i + 2] == b2 && s[i + 3] == b3
    && s[i + 4] == b4 && s[i + 5] == b5 && s[i + 6] == b6 && s[i + 7] == b7
  }

  /** Sixteen words of the message schedule in a row. */
  predicate Words16(block: Bytes, t: nat, w0: Word, w1: Word, w2: Word, w3: Word, w4: Word, w5: Word, w6: Word, w7: Word,
                    w8: Word, w9: Word, w10: Word, w11: Word, w12: Word, w13: Word, w14: Word, w15: Word)
    requires |block| == 64
  {
    && W(block, t) == w0 && W(block, t + 1) == w1 && W(block, t + 2) == w2 && W(block, t + 3) == w3
    && W(block, t + 4) == w4 && W(block, t + 5) == w5 && W(block, t + 6) == w6 && W(block, t + 7) == w7
    && W(block, t + 8) == w8 && W(block, t + 9) == w9 && W(block, t + 10) == w10 && W(block, t + 11) == w11
    && W(block, t + 12) == w12 && W(block, t + 13) == w13 && W(block, t + 14) == w14 && W(block, t + 15) == w15
  }

  lemma {:induction false} ZerosAre(k: nat)
    ensures forall i :: 0 <= i < k ==> Zeros(k)[i] == 0
  {
    if k > 0 {
      ZerosAre(k - 1);
    }
  }

  lemma ShortLength(n: nat)
    requires n < 65536
    ensures From8(BigEndian(n, 8), 0, 0, 0, 0, 0, 0, 0, (n / 256) as bv8, (n % 256) as bv8)
  {
    assert n / 256 / 256 == 0;
    var none: Bytes := [];
    assert BigEndian(0, 0) == none;
    assert BigEndian(0, 1) == [0];
    assert BigEndian(0, 2) == [0, 0];
    assert BigEndian(0, 3) == [0, 0, 0];
    assert BigEndian(0, 4) == [0, 0, 0, 0];
    assert BigEndian(0, 5) == [0, 0, 0, 0, 0];
    assert BigEndian(0, 6) == [0, 0, 0, 0, 0, 0];
    assert BigEndian(n / 256, 7) == BigEndian(0, 6) + [(n / 256) as bv8];
  }

  /** A short message and its padding, byte by byte. */
  lemma PaddedAt(m: Bytes)
    requires |m| < 8192
    ensures var p, n := Padded(m), |m|;
      && |p| == n + 9 + ZeroCount(n)
      && (forall i :: 0 <= i < n ==> p[i] == m[i]) && p[n] == 0x80 && (forall i :: n < i < |p| - 8 ==> p[i] == 0)
      && From8(p, |p| - 8, 0, 0, 0, 0, 0, 0, (n * 8 / 256) as bv8, (n * 8 % 256) as bv8)
  {
    ZerosAre(ZeroCount(|m|));
    ShortLength(|m| * 8);
    hide ZeroCount, Zeros, BigEndian;
    var p := Padded(m);
    assert p[|p| - 8..] == BigEndian(|m| * 8, 8);
  }

  // ------------------------------------------------- the digest of "abc"

  /** The message "abc", padded. */
  predicate IsAbc(block: Bytes) {
    |block| == 64
    && From8(block, 0, 0x61, 0x62, 0x63, 0x80, 0x00, 0x00, 0x00, 0x00)
    && From8(block, 8, 0x00, 0x00, 0x00, 0x00, 0x00, 0x00, 0x00, 0x00)
    && From8(block, 16, 0x00, 0x00, 0x00, 0x00, 0x00, 0x00, 0x00, 0x00)
    && From8(block, 24, 0x00, 0x00, 0x00, 0x00, 0x00, 0x00, 0x00, 0x00)
    && From8(block, 32, 0x00, 0x00, 0x00, 0x00, 0x00, 0x00, 0x00, 0x00)
    && From8(block, 40, 0x00, 0x00, 0x00, 0x00, 0x00, 0x00, 0x00, 0x00)
    && From8(block, 48, 0x00, 0x00, 0x00, 0x00, 0x00, 0x00, 0x00, 0x00)
    && From8(block, 56, 0x00, 0x00, 0x00, 0x00, 0x00, 0x00, 0x00, 0x18)
  }

  lemma AbcWords0(block: Bytes)
    requires IsAbc(block)
    ensures Words16(block, 0,
      0x61626380, 0x00000000, 0x00000000, 0x00000000, 0x00000000, 0x00000000, 0x00000000, 0x00000000,
      0x00000000, 0x00000000, 0x00000000, 0x00000000, 0x00000000, 0x00000000, 0x00000000, 0x00000018)
  {
    hide W;
    ScheduleWord(block, 0); ScheduleWord(block, 1); ScheduleWord(block, 2); ScheduleWord(block, 3);
    ScheduleWord(block, 4); ScheduleWord(block, 5); ScheduleWord(block, 6); ScheduleWord(block, 7);
    ScheduleWord(block, 8); ScheduleWord(block, 9); ScheduleWord(block, 10); ScheduleWord(block, 11);
    ScheduleWord(block, 12); ScheduleWord(block, 13); ScheduleWord(block, 14); ScheduleWord(block, 15);
  }

  lemma AbcWords16(block: Bytes)
    requires IsAbc(block)
    ensures Words16(block, 16,
      0xC2C4C700, 0x00000000, 0x00000030, 0x85898E01, 0x00000000, 0x00000060, 0x0B131C03, 0x00000030,
      0x85898EC1, 0x16263806, 0x00000000, 0x00000180, 0x2C4C700C, 0x000000F0, 0x93AFB507, 0x5898E048)
  {
    AbcWords0(block);
    hide W, IsAbc;
    ScheduleWord(block, 16); ScheduleWord(block, 17); ScheduleWord(block, 18); ScheduleWord(block, 19);
    ScheduleWord(block, 20); ScheduleWord(block, 21); ScheduleWord(block, 22); ScheduleWord(block, 23);
    ScheduleWord(block, 24); ScheduleWord(block, 25); ScheduleWord(block, 26); ScheduleWord(block, 27);
    ScheduleWord(block, 28); ScheduleWord(block, 29); ScheduleWord(block, 30); ScheduleWord(block, 31);
  }

  lemma AbcWords32(block: Bytes)
    requires IsAbc(block)
    ensures Words16(block, 32,
      0x8E9A9202, 0x00000600, 0xB131C0F0, 0x16263BC6, 0x4EBED41E, 0x626380A1, 0x16263806, 0x000018C0,
      0xD2E138C4, 0x00000F00, 0x3AFB5079, 0x898E04E5, 0xE2BA3C2B, 0x000060C0, 0x053A37CD, 0x74458547)
  {
    AbcWords16(block);
    hide W, IsAbc;
    ScheduleWord(block, 32); ScheduleWord(block, 33); ScheduleWord(block, 34); ScheduleWord(block, 35);
    ScheduleWord(block, 36); ScheduleWord(block, 37); ScheduleWord(block, 38); ScheduleWord(block, 39);
    ScheduleWord(block, 40); ScheduleWord(block, 41); ScheduleWord(block, 42); ScheduleWord(block, 43);
    ScheduleWord(block, 44); ScheduleWord(block, 45); ScheduleWord(block, 46); ScheduleWord(block, 47);
  }

  lemma AbcWords48(block: Bytes)
    requires IsAbc(block)
    ensures Words16(block, 48,
      0xDA9415ED, 0x26380A16, 0x626383A1, 0x4EBF54DE, 0x3835B44B, 0x0000F600, 0x1E84C7A3, 0x98E04D98,
      0x651D16A0, 0x62658CA1, 0x458544D6, 0x44584CB7, 0x7BA06619, 0x6380AEA2, 0x0AE55269, 0x627B49A1)
  {
    AbcWords32(block);
    hide W, IsAbc;
    ScheduleWord(block, 48); ScheduleWord(block, 49); ScheduleWord(block, 50); ScheduleWord(block, 51);
    ScheduleWord(block, 52); ScheduleWord(block, 53); ScheduleWord(block, 54); ScheduleWord(block, 55);
    ScheduleWord(block, 56); ScheduleWord(block, 57); ScheduleWord(block, 58); ScheduleWord(block, 59);
    ScheduleWord(block, 60); ScheduleWord(block, 61); ScheduleWord(block, 62); ScheduleWord(block, 63);
  }

  lemma AbcWords64(block: Bytes)
    requires IsAbc(block)
    ensures Words16(block, 64,
      0x7CD45C9D, 0x000F0000, 0xFB50753A, 0xEC6765E8, 0xBA3C2BE2, 0x0060C000, 0x3A37CD05, 0x458546F4,
      0xB8599DD6, 0x380A1A26, 0x01E02203, 0xE7CC3456, 0xE6E60B69, 0x00F60A00, 0x5795EF4F, 0x822E0879)
  {
    AbcWords48(block);
    hide W, IsAbc;
    ScheduleWord(block, 64); ScheduleWord(block, 65); ScheduleWord(block, 66); ScheduleWord(block, 67);
    ScheduleWord(block, 68); ScheduleWord(block, 69); ScheduleWord(block, 70); ScheduleWord(block, 71);
    ScheduleWord(block, 72); ScheduleWord(block, 73); ScheduleWord(block, 74); ScheduleWord(block, 75);
    ScheduleWord(block, 76); ScheduleWord(block, 77); ScheduleWord(block, 78); ScheduleWord(block, 79);
  }

  lemma AbcRounds0(block: Bytes, h: Regs)
    requires IsAbc(block) && h == Regs(0x67452301, 0xEFCDAB89, 0x98BADCFE, 0x10325476, 0xC3D2E1F0)
    ensures Rounds(block, 16, h) == Regs(0x20BDD62F, 0x196BEE77, 0x644A3DA5, 0x1181ED99, 0x18C623F9)
  {
    AbcWords0(block);
    hide W, IsAbc;
    assert Rounds(block, 1, h) == Regs(0x0116FC33, 0x67452301, 0x7BF36AE2, 0x98BADCFE, 0x10325476);
    assert Rounds(block, 2, h) == Regs(0x8990536D, 0x0116FC33, 0x59D148C0, 0x7BF36AE2, 0x98BADCFE);
    assert Rounds(block, 3, h) == Regs(0xA1390F08, 0x8990536D, 0xC045BF0C, 0x59D148C0, 0x7BF36AE2);
    assert Rounds(block, 4, h) == Regs(0xCDD8E11B, 0xA1390F08, 0x626414DB, 0xC045BF0C, 0x59D148C0);
    assert Rounds(block, 5, h) == Regs(0xCFD499DE, 0xCDD8E11B, 0x284E43C2, 0x626414DB, 0xC045BF0C);
    assert Rounds(block, 6, h) == Regs(0x3FC7CA40, 0xCFD499DE, 0xF3763846, 0x284E43C2, 0x626414DB);
    assert Rounds(block, 7, h) == Regs(0x993E30C1, 0x3FC7CA40, 0xB3F52677, 0xF3763846, 0x284E43C2);
    assert Rounds(block, 8, h) == Regs(0x9E8C07D4, 0x993E30C1, 0x0FF1F290, 0xB3F52677, 0xF3763846);
    assert Rounds(block, 9, h) == Regs(0x4B6AE328, 0x9E8C07D4, 0x664F8C30, 0x0FF1F290, 0xB3F52677);
    assert Rounds(block, 10, h) == Regs(0x8351F929, 0x4B6AE328, 0x27A301F5, 0x664F8C30, 0x0FF1F290);
    assert Rounds(block, 11, h) == Regs(0xFBDA9E89, 0x8351F929, 0x12DAB8CA, 0x27A301F5, 0x664F8C30);
    assert Rounds(block, 12, h) == Regs(0x63188FE4, 0xFBDA9E89, 0x60D47E4A, 0x12DAB8CA, 0x27A301F5);
    assert Rounds(block, 13, h) == Regs(0x4607B664, 0x63188FE4, 0x7EF6A7A2, 0x60D47E4A, 0x12DAB8CA);
    assert Rounds(block, 14, h) == Regs(0x9128F695, 0x4607B664, 0x18C623F9, 0x7EF6A7A2, 0x60D47E4A);
    assert Rounds(block, 15, h) == Regs(0x196BEE77, 0x9128F695, 0x1181ED99, 0x18C623F9, 0x7EF6A7A2);
  }

  lemma AbcRounds16(block: Bytes, h: Regs)
    requires IsAbc(block) && h == Regs(0x67452301, 0xEFCDAB89, 0x98BADCFE, 0x10325476, 0xC3D2E1F0)
    requires Rounds(block, 16, h) == Regs(0x20BDD62F, 0x196BEE77, 0x644A3DA5, 0x1181ED99, 0x18C623F9)
    ensures Rounds(block, 32, h) == Regs(0x3B845D33, 0x1267B407, 0x717EEBD7, 0xA0DC2D4B, 0xD2AA1365)
  {
    AbcWords16(block);
    hide W, IsAbc;
    assert Rounds(block, 17, h) == Regs(0x4E925823, 0x20BDD62F, 0xC65AFB9D, 0x644A3DA5, 0x1181ED99);
    assert Rounds(block, 18, h) == Regs(0x82AA6728, 0x4E925823, 0xC82F758B, 0xC65AFB9D, 0x644A3DA5);
    assert Rounds(block, 19, h) == Regs(0xDC64901D, 0x82AA6728, 0xD3A49608, 0xC82F758B, 0xC65AFB9D);
    assert Rounds(block, 20, h) == Regs(0xFD9E1D7D, 0xDC64901D, 0x20AA99CA, 0xD3A49608, 0xC82F758B);
    assert Rounds(block, 21, h) == Regs(0x1A37B0CA, 0xFD9E1D7D, 0x77192407, 0x20AA99CA, 0xD3A49608);
    assert Rounds(block, 22, h) == Regs(0x33A23BFC, 0x1A37B0CA, 0x7F67875F, 0x77192407, 0x20AA99CA);
    assert Rounds(block, 23, h) == Regs(0x21283486, 0x33A23BFC, 0x868DEC32, 0x7F67875F, 0x77192407);
    assert Rounds(block, 24, h) == Regs(0xD541F12D, 0x21283486, 0x0CE88EFF, 0x868DEC32, 0x7F67875F);
    assert Rounds(block, 25, h) == Regs(0xC7567DC6, 0xD541F12D, 0x884A0D21, 0x0CE88EFF, 0x868DEC32);
    assert Rounds(block, 26, h) == Regs(0x48413BA4, 0xC7567DC6, 0x75507C4B, 0x884A0D21, 0x0CE88EFF);
    assert Rounds(block, 27, h) == Regs(0xBE35FBD5, 0x48413BA4, 0xB1D59F71, 0x75507C4B, 0x884A0D21);
    assert Rounds(block, 28, h) == Regs(0x4AA84D97, 0xBE35FBD5, 0x12104EE9, 0xB1D59F71, 0x75507C4B);
    assert Rounds(block, 29, h) == Regs(0x8370B52E, 0x4AA84D97, 0x6F8D7EF5, 0x12104EE9, 0xB1D59F71);
    assert Rounds(block, 30, h) == Regs(0xC5FBAF5D, 0x8370B52E, 0xD2AA1365, 0x6F8D7EF5, 0x12104EE9);
    assert Rounds(block, 31, h) == Regs(0x1267B407, 0xC5FBAF5D, 0xA0DC2D4B, 0xD2AA1365, 0x6F8D7EF5);
  }

  lemma AbcRounds32(block: Bytes, h: Regs)
    requires IsAbc(block) && h == Regs(0x67452301, 0xEFCDAB89, 0x98BADCFE, 0x10325476, 0xC3D2E1F0)
    requires Rounds(block, 32, h) == Regs(0x3B845D33, 0x1267B407, 0x717EEBD7, 0xA0DC2D4B, 0xD2AA1365)
    ensures Rounds(block, 48, h) == Regs(0xBEAD02CA, 0xA01B846C, 0x8714787C, 0x503CA382, 0xFB86C6AB)
  {
    AbcWords32(block);
    hide W, IsAbc;
    assert Rounds(block, 33, h) == Regs(0x046FAA0A, 0x3B845D33, 0xC499ED01, 0x717EEBD7, 0xA0DC2D4B);
    assert Rounds(block, 34, h) == Regs(0x2C0EBC11, 0x046FAA0A, 0xCEE1174C, 0xC499ED01, 0x717EEBD7);
    assert Rounds(block, 35, h) == Regs(0x21796AD4, 0x2C0EBC11, 0x811BEA82, 0xCEE1174C, 0xC499ED01);
    assert Rounds(block, 36, h) == Regs(0xDCBBB0CB, 0x21796AD4, 0x4B03AF04, 0x811BEA82, 0xCEE1174C);
    assert Rounds(block, 37, h) == Regs(0x0F511FD8, 0xDCBBB0CB, 0x085E5AB5, 0x4B03AF04, 0x811BEA82);
    assert Rounds(block, 38, h) == Regs(0xDC63973F, 0x0F511FD8, 0xF72EEC32, 0x085E5AB5, 0x4B03AF04);
    assert Rounds(block, 39, h) == Regs(0x4C986405, 0xDC63973F, 0x03D447F6, 0xF72EEC32, 0x085E5AB5);
    assert Rounds(block, 40, h) == Regs(0x32DE1CBA, 0x4C986405, 0xF718E5CF, 0x03D447F6, 0xF72EEC32);
    assert Rounds(block, 41, h) == Regs(0xFC87DEDF, 0x32DE1CBA, 0x53261901, 0xF718E5CF, 0x03D447F6);
    assert Rounds(block, 42, h) == Regs(0x970A0D5C, 0xFC87DEDF, 0x8CB7872E, 0x53261901, 0xF718E5CF);
    assert Rounds(block, 43, h) == Regs(0x7F193DC5, 0x970A0D5C, 0xFF21F7B7, 0x8CB7872E, 0x53261901);
    assert Rounds(block, 44, h) == Regs(0xEE1B1AAF, 0x7F193DC5, 0x25C28357, 0xFF21F7B7, 0x8CB7872E);
    assert Rounds(block, 45, h) == Regs(0x40F28E09, 0xEE1B1AAF, 0x5FC64F71, 0x25C28357, 0xFF21F7B7);
    assert Rounds(block, 46, h) == Regs(0x1C51E1F2, 0x40F28E09, 0xFB86C6AB, 0x5FC64F71, 0x25C28357);
    assert Rounds(block, 47, h) == Regs(0xA01B846C, 0x1C51E1F2, 0x503CA382, 0xFB86C6AB, 0x5FC64F71);
  }

  lemma AbcRounds48(block: Bytes, h: Regs)
    requires IsAbc(block) && h == Regs(0x67452301, 0xEFCDAB89, 0x98BADCFE, 0x10325476, 0xC3D2E1F0)
    requires Rounds(block, 48, h) == Regs(0xBEAD02CA, 0xA01B846C, 0x8714787C, 0x503CA382, 0xFB86C6AB)
    ensures Rounds(block, 64, h) == Regs(0x6B61C9E1, 0xB66C020B, 0x9523272C, 0xF5D5B051, 0x8FD4B796)
  {
    AbcWords48(block);
    hide W, IsAbc;
    assert Rounds(block, 49, h) == Regs(0xBAF39337, 0xBEAD02CA, 0x2806E11B, 0x8714787C, 0x503CA382);
    assert Rounds(block, 50, h) == Regs(0x120731C5, 0xBAF39337, 0xAFAB40B2, 0x2806E11B, 0x8714787C);
    assert Rounds(block, 51, h) == Regs(0x641DB2CE, 0x120731C5, 0xEEBCE4CD, 0xAFAB40B2, 0x2806E11B);
    assert Rounds(block, 52, h) == Regs(0x3847AD66, 0x641DB2CE, 0x4481CC71, 0xEEBCE4CD, 0xAFAB40B2);
    assert Rounds(block, 53, h) == Regs(0xE490436D, 0x3847AD66, 0x99076CB3, 0x4481CC71, 0xEEBCE4CD);
    assert Rounds(block, 54, h) == Regs(0x27E9F1D8, 0xE490436D, 0x8E11EB59, 0x99076CB3, 0x4481CC71);
    assert Rounds(block, 55, h) == Regs(0x7B71F76D, 0x27E9F1D8, 0x792410DB, 0x8E11EB59, 0x99076CB3);
    assert Rounds(block, 56, h) == Regs(0x5E6456AF, 0x7B71F76D, 0x09FA7C76, 0x792410DB, 0x8E11EB59);
    assert Rounds(block, 57, h) == Regs(0xC846093F, 0x5E6456AF, 0x5EDC7DDB, 0x09FA7C76, 0x792410DB);
    assert Rounds(block, 58, h) == Regs(0xD262FF50, 0xC846093F, 0xD79915AB, 0x5EDC7DDB, 0x09FA7C76);
    assert Rounds(block, 59, h) == Regs(0x09D785FD, 0xD262FF50, 0xF211824F, 0xD79915AB, 0x5EDC7DDB);
    assert Rounds(block, 60, h) == Regs(0x3F52DE5A, 0x09D785FD, 0x3498BFD4, 0xF211824F, 0xD79915AB);
    assert Rounds(block, 61, h) == Regs(0xD756C147, 0x3F52DE5A, 0x4275E17F, 0x3498BFD4, 0xF211824F);
    assert Rounds(block, 62, h) == Regs(0x548C9CB2, 0xD756C147, 0x8FD4B796, 0x4275E17F, 0x3498BFD4);
    assert Rounds(block, 63, h) == Regs(0xB66C020B, 0x548C9CB2, 0xF5D5B051, 0x8FD4B796, 0x4275E17F);
  }

  lemma AbcRounds64(block: Bytes, h: Regs)
    requires IsAbc(block) && h == Regs(0x67452301, 0xEFCDAB89, 0x98BADCFE, 0x10325476, 0xC3D2E1F0)
    requires Rounds(block, 64, h) == Regs(0x6B61C9E1, 0xB66C020B, 0x9523272C, 0xF5D5B051, 0x8FD4B796)
    ensures Rounds(block, 80, h) == Regs(0x42541B35, 0x5738D5E1, 0x21834873, 0x681E6DF6, 0xD8FDF6AD)
  {
    AbcWords64(block);
    hide W, IsAbc;
    assert Rounds(block, 65, h) == Regs(0x19DFA7AC, 0x6B61C9E1, 0xED9B0082, 0x9523272C, 0xF5D5B051);
    assert Rounds(block, 66, h) == Regs(0x101655F9, 0x19DFA7AC, 0x5AD87278, 0xED9B0082, 0x9523272C);
    assert Rounds(block, 67, h) == Regs(0x0C3DF2B4, 0x101655F9, 0x0677E9EB, 0x5AD87278, 0xED9B0082);
    assert Rounds(block, 68, h) == Regs(0x78DD4D2B, 0x0C3DF2B4, 0x4405957E, 0x0677E9EB, 0x5AD87278);
    assert Rounds(block, 69, h) == Regs(0x497093C0, 0x78DD4D2B, 0x030F7CAD, 0x4405957E, 0x0677E9EB);
    assert Rounds(block, 70, h) == Regs(0x3F2588C2, 0x497093C0, 0xDE37534A, 0x030F7CAD, 0x4405957E);
    assert Rounds(block, 71, h) == Regs(0xC199F8C7, 0x3F2588C2, 0x125C24F0, 0xDE37534A, 0x030F7CAD);
    assert Rounds(block, 72, h) == Regs(0x39859DE7, 0xC199F8C7, 0x8FC96230, 0x125C24F0, 0xDE37534A);
    assert Rounds(block, 73, h) == Regs(0xEDB42DE4, 0x39859DE7, 0xF0667E31, 0x8FC96230, 0x125C24F0);
    assert Rounds(block, 74, h) == Regs(0x11793F6F, 0xEDB42DE4, 0xCE616779, 0xF0667E31, 0x8FC96230);
    assert Rounds(block, 75, h) == Regs(0x5EE76897, 0x11793F6F, 0x3B6D0B79, 0xCE616779, 0xF0667E31);
    assert Rounds(block, 76, h) == Regs(0x63F7DAB7, 0x5EE76897, 0xC45E4FDB, 0x3B6D0B79, 0xCE616779);
    assert Rounds(block, 77, h) == Regs(0xA079B7D9, 0x63F7DAB7, 0xD7B9DA25, 0xC45E4FDB, 0x3B6D0B79);
    assert Rounds(block, 78, h) == Regs(0x860D21CC, 0xA079B7D9, 0xD8FDF6AD, 0xD7B9DA25, 0xC45E4FDB);
    assert Rounds(block, 79, h) == Regs(0x5738D5E1, 0x860D21CC, 0x681E6DF6, 0xD8FDF6AD, 0xD7B9DA25);
  }

  lemma AbcCompressed(block: Bytes)
    requires IsAbc(block)
    ensures Compress(INIT, block)
      == Regs(0xA9993E36, 0x4706816A, 0xBA3E2571, 0x7850C26C, 0x9CD0D89D)
  {
    hide Rounds;
    var h := Regs(0x67452301, 0xEFCDAB89, 0x98BADCFE, 0x10325476, 0xC3D2E1F0);
    AbcRounds0(block, h);
    AbcRounds16(block, h);
    AbcRounds32(block, h);
    AbcRounds48(block, h);
    AbcRounds64(block, h);
  }

  lemma AbcBytes(p: Bytes)
    requires |p| == 64 && p[0] == 0x61 && p[1] == 0x62 && p[2] == 0x63 && p[3] == 0x80
    requires (forall k :: 4 <= k < 56 ==> p[k] == 0) && From8(p, 56, 0, 0, 0, 0, 0, 0, 0, 24)
    ensures IsAbc(p)
  {
  }

  lemma AbcPadded(m: Bytes)
    requires m == [0x61, 0x62, 0x63]
    ensures |Padded(m)| == 64 && IsAbc(Padded(m))
  {
    hide IsAbc, From8, Padded;
    PaddedAt(m);
    assert |m| == 3 && ZeroCount(3) == 52;
    hide ZeroCount;
    ByteIs(0, 0);
    ByteIs(24, 24);
    AbcBytes(Padded(m));
  }

  lemma WordBytes(h: Regs)
    requires h == Regs(0xA9993E36, 0x4706816A, 0xBA3E2571, 0x7850C26C, 0x9CD0D89D)
    ensures ToBytes(h.a) + ToBytes(h.b) + ToBytes(h.c) + ToBytes(h.d) + ToBytes(h.e)
         == [0xA9, 0x99, 0x3E, 0x36, 0x47, 0x06, 0x81, 0x6A, 0xBA, 0x3E,
             0x25, 0x71, 0x78, 0x50, 0xC2, 0x6C, 0x9C, 0xD0, 0xD8, 0x9D]
  {
  }

  /** RFC 3174, section 7.3, TEST1. */
  lemma DigestOfAbc()
    ensures Digest([0x61, 0x62, 0x63])
         == [0xA9, 0x99, 0x3E, 0x36, 0x47, 0x06, 0x81, 0x6A, 0xBA, 0x3E,
             0x25, 0x71, 0x78, 0x50, 0xC2, 0x6C, 0x9C, 0xD0, 0xD8, 0x9D]
  {
    var m: Bytes := [0x61, 0x62, 0x63];
    hide Padded, Compress, ToBytes;
    AbcPadded(m);
    var p := Padded(m);
    assert p[0..64] == p;
    AbcCompressed(p);
    assert Blocks(p, 0) == INIT;
    WordBytes(Blocks(p, 1));
  }

  // --------------------------------------------- the accept key of RFC 6455

  /** The first block of the example: the key, the GUID, the one bit and three zero bytes. */
  predicate IsKey1(block: Bytes) {
    |block| == 64
    && From8(block, 0, 0x64, 0x47, 0x68, 0x6C, 0x49, 0x48, 0x4E, 0x68)
    && From8(block, 8, 0x62, 0x58, 0x42, 0x73, 0x5A, 0x53, 0x42, 0x75)
    && From8(block, 16, 0x62, 0x32, 0x35, 0x6A, 0x5A, 0x51, 0x3D, 0x3D)
    && From8(block, 24, 0x32, 0x35, 0x38, 0x45, 0x41, 0x46, 0x41, 0x35)
    && From8(block, 32, 0x2D, 0x45, 0x39, 0x31, 0x34, 0x2D, 0x34, 0x37)
    && From8(block, 40, 0x44, 0x41, 0x2D, 0x39, 0x35, 0x43, 0x41, 0x2D)
    && From8(block, 48, 0x43, 0x35, 0x41, 0x42, 0x30, 0x44, 0x43, 0x38)
    && From8(block, 56, 0x35, 0x42, 0x31, 0x31, 0x80, 0x00, 0x00, 0x00)
  }

  lemma Key1Words0(block: Bytes)
    requires IsKey1(block)
    ensures Words16(block, 0,
      0x6447686C, 0x49484E68, 0x62584273, 0x5A534275, 0x6232356A, 0x5A513D3D, 0x32353845, 0x41464135,
      0x2D453931, 0x342D3437, 0x44412D39, 0x3543412D, 0x43354142, 0x30444338, 0x35423131, 0x80000000)
  {
    hide W;
    ScheduleWord(block, 0); ScheduleWord(block, 1); ScheduleWord(block, 2); ScheduleWord(block, 3);
    ScheduleWord(block, 4); ScheduleWord(block, 5); ScheduleWord(block, 6); ScheduleWord(block, 7);
    ScheduleWord(block, 8); ScheduleWord(block, 9); ScheduleWord(block, 10); ScheduleWord(block, 11);
    ScheduleWord(block, 12); ScheduleWord(block, 13); ScheduleWord(block, 14); ScheduleWord(block, 15);
  }

  lemma Key1Words16(block: Bytes)
    requires IsKey1(block)
    ensures Words16(block, 16,
      0x363CA02C, 0x24E81236, 0x8856B441, 0x06FB3C92, 0x6FB4BCB6, 0x460B16E3, 0x599219AE, 0x35BF9369,
      0x3267458E, 0xF828FD04, 0x753A96A7, 0x6336F612, 0xC3D66383, 0x06EB86F9, 0x73B4FD42, 0xA503C5B8)
  {
    Key1Words0(block);
    hide W, IsKey1;
    ScheduleWord(block, 16); ScheduleWord(block, 17); ScheduleWord(block, 18); ScheduleWord(block, 19);
    ScheduleWord(block, 20); ScheduleWord(block, 21); ScheduleWord(block, 22); ScheduleWord(block, 23);
    ScheduleWord(block, 24); ScheduleWord(block, 25); ScheduleWord(block, 26); ScheduleWord(block, 27);
    ScheduleWord(block, 28); ScheduleWord(block, 29); ScheduleWord(block, 30); ScheduleWord(block, 31);
  }

  lemma Key1Words32(block: Bytes)
    requires IsKey1(block)
    ensures Words16(block, 32,
      0x15CDAE35, 0x531E5DC5, 0x6FB6B7D0, 0x6C16E4AC, 0x4DDD36BD, 0x35D36946, 0xE8AE8B9C, 0x4A933AD0,
      0xCE8628B4, 0x415DBA9E, 0x2792F049, 0x8E9B79E7, 0x79C425C5, 0x6353B49D, 0x00994218, 0x8A950ED1)
  {
    Key1Words16(block);
    hide W, IsKey1;
    ScheduleWord(block, 32); ScheduleWord(block, 33); ScheduleWord(block, 34); ScheduleWord(block, 35);
    ScheduleWord(block, 36); ScheduleWord(block, 37); ScheduleWord(block, 38); ScheduleWord(block, 39);
    ScheduleWord(block, 40); ScheduleWord(block, 41); ScheduleWord(block, 42); ScheduleWord(block, 43);
    ScheduleWord(block, 44); ScheduleWord(block, 45); ScheduleWord(block, 46); ScheduleWord(block, 47);
  }

  lemma Key1Words48(block: Bytes)
    requires IsKey1(block)
    ensures Words16(block, 48,
      0xAF5D0B99, 0xFD9883DE, 0x1ED8FFEB, 0xF007FF28, 0x425E3674, 0x059631C0, 0xAD6C3C31, 0x860B71D7,
      0x87BFC548, 0x3E64F92D, 0x8D0AB761, 0x34E1EE35, 0x0ACF5108, 0xC2B479DA, 0x6C93370A, 0xF7935BA1)
  {
    Key1Words32(block);
    hide W, IsKey1;
    ScheduleWord(block, 48); ScheduleWord(block, 49); ScheduleWord(block, 50); ScheduleWord(block, 51);
    ScheduleWord(block, 52); ScheduleWord(block, 53); ScheduleWord(block, 54); ScheduleWord(block, 55);
    ScheduleWord(block, 56); ScheduleWord(block, 57); ScheduleWord(block, 58); ScheduleWord(block, 59);
    ScheduleWord(block, 60); ScheduleWord(block, 61); ScheduleWord(block, 62); ScheduleWord(block, 63);
  }

  lemma Key1Words64(block: Bytes)
    requires IsKey1(block)
    ensures Words16(block, 64,
      0xE91C91C1, 0xBED165A2, 0x4C3E4ABE, 0x50D96238, 0xB6587DDE, 0x1A2EE6E6, 0x2D335896, 0xF3495D0B,
      0xF30E0A1D, 0x32CE5459, 0x7165E3B8, 0xAB05FF94, 0xC5949F0B, 0xBCD84E4A, 0x07720392, 0xFF3FF806)
  {
    Key1Words48(block);
    hide W, IsKey1;
    ScheduleWord(block, 64); ScheduleWord(block, 65); ScheduleWord(block, 66); ScheduleWord(block, 67);
    ScheduleWord(block, 68); ScheduleWord(block, 69); ScheduleWord(block, 70); ScheduleWord(block, 71);
    ScheduleWord(block, 72); ScheduleWord(block, 73); ScheduleWord(block, 74); ScheduleWord(block, 75);
    ScheduleWord(block, 76); ScheduleWord(block, 77); ScheduleWord(block, 78); ScheduleWord(block, 79);
  }

  lemma Key1Rounds0(block: Bytes, h: Regs)
    requires IsKey1(block) && h == Regs(0x67452301, 0xEFCDAB89, 0x98BADCFE, 0x10325476, 0xC3D2E1F0)
    ensures Rounds(block, 16, h) == Regs(0xA004C468, 0xE922CC9D, 0xAB86825B, 0xD86F6CAF, 0x8D33AE61)
  {
    Key1Words0(block);
    hide W, IsKey1;
    assert Rounds(block, 1, h) == Regs(0x03FC011F, 0x67452301, 0x7BF36AE2, 0x98BADCFE, 0x10325476);
    assert Rounds(block, 2, h) == Regs(0x2F793F55, 0x03FC011F, 0x59D148C0, 0x7BF36AE2, 0x98BADCFE);
    assert Rounds(block, 3, h) == Regs(0xBE90EE8F, 0x2F793F55, 0xC0FF0047, 0x59D148C0, 0x7BF36AE2);
    assert Rounds(block, 4, h) == Regs(0x53E039AC, 0xBE90EE8F, 0x4BDE4FD5, 0xC0FF0047, 0x59D148C0);
    assert Rounds(block, 5, h) == Regs(0xDD8C7C12, 0x53E039AC, 0xEFA43BA3, 0x4BDE4FD5, 0xC0FF0047);
    assert Rounds(block, 6, h) == Regs(0x7320B969, 0xDD8C7C12, 0x14F80E6B, 0xEFA43BA3, 0x4BDE4FD5);
    assert Rounds(block, 7, h) == Regs(0x73553E84, 0x7320B969, 0xB7631F04, 0x14F80E6B, 0xEFA43BA3);
    assert Rounds(block, 8, h) == Regs(0x2E0CE601, 0x73553E84, 0x5CC82E5A, 0xB7631F04, 0x14F80E6B);
    assert Rounds(block, 9, h) == Regs(0x32BEB05A, 0x2E0CE601, 0x1CD54FA1, 0x5CC82E5A, 0xB7631F04);
    assert Rounds(block, 10, h) == Regs(0xFAAD2675, 0x32BEB05A, 0x4B833980, 0x1CD54FA1, 0x5CC82E5A);
    assert Rounds(block, 11, h) == Regs(0x5FF4238C, 0xFAAD2675, 0x8CAFAC16, 0x4B833980, 0x1CD54FA1);
    assert Rounds(block, 12, h) == Regs(0x34CEB986, 0x5FF4238C, 0x7EAB499D, 0x8CAFAC16, 0x4B833980);
    assert Rounds(block, 13, h) == Regs(0x61BDB2BF, 0x34CEB986, 0x17FD08E3, 0x7EAB499D, 0x8CAFAC16);
    assert Rounds(block, 14, h) == Regs(0xAE1A096E, 0x61BDB2BF, 0x8D33AE61, 0x17FD08E3, 0x7EAB499D);
    assert Rounds(block, 15, h) == Regs(0xE922CC9D, 0xAE1A096E, 0xD86F6CAF, 0x8D33AE61, 0x17FD08E3);
  }

  lemma Key1Rounds16(block: Bytes, h: Regs)
    requires IsKey1(block) && h == Regs(0x67452301, 0xEFCDAB89, 0x98BADCFE, 0x10325476, 0xC3D2E1F0)
    requires Rounds(block, 16, h) == Regs(0xA004C468, 0xE922CC9D, 0xAB86825B, 0xD86F6CAF, 0x8D33AE61)
    ensures Rounds(block, 32, h) == Regs(0xA6680A1F, 0xB7DABC8B, 0x4206D8F9, 0xC6AEC70D, 0x95C7DF60)
  {
    Key1Words16(block);
    hide W, IsKey1;
    assert Rounds(block, 17, h) == Regs(0xD7DAF575, 0xA004C468, 0x7A48B327, 0xAB86825B, 0xD86F6CAF);
    assert Rounds(block, 18, h) == Regs(0x7EBB296B, 0xD7DAF575, 0x2801311A, 0x7A48B327, 0xAB86825B);
    assert Rounds(block, 19, h) == Regs(0x8DC510B6, 0x7EBB296B, 0x75F6BD5D, 0x2801311A, 0x7A48B327);
    assert Rounds(block, 20, h) == Regs(0x091AB97C, 0x8DC510B6, 0xDFAECA5A, 0x75F6BD5D, 0x2801311A);
    assert Rounds(block, 21, h) == Regs(0x518470A3, 0x091AB97C, 0xA371442D, 0xDFAECA5A, 0x75F6BD5D);
    assert Rounds(block, 22, h) == Regs(0xD12F0B56, 0x518470A3, 0x0246AE5F, 0xA371442D, 0xDFAECA5A);
    assert Rounds(block, 23, h) == Regs(0xBEAFD554, 0xD12F0B56, 0xD4611C28, 0x0246AE5F, 0xA371442D);
    assert Rounds(block, 24, h) == Regs(0x250E26EF, 0xBEAFD554, 0xB44BC2D5, 0xD4611C28, 0x0246AE5F);
    assert Rounds(block, 25, h) == Regs(0x23D1C91B, 0x250E26EF, 0x2FABF555, 0xB44BC2D5, 0xD4611C28);
    assert Rounds(block, 26, h) == Regs(0x748B39A0, 0x23D1C91B, 0xC94389BB, 0x2FABF555, 0xB44BC2D5);
    assert Rounds(block, 27, h) == Regs(0xEF012F20, 0x748B39A0, 0xC8F47246, 0xC94389BB, 0x2FABF555);
    assert Rounds(block, 28, h) == Regs(0x571F7D82, 0xEF012F20, 0x1D22CE68, 0xC8F47246, 0xC94389BB);
    assert Rounds(block, 29, h) == Regs(0x1ABB1C37, 0x571F7D82, 0x3BC04BC8, 0x1D22CE68, 0xC8F47246);
    assert Rounds(block, 30, h) == Regs(0x081B63E5, 0x1ABB1C37, 0x95C7DF60, 0x3BC04BC8, 0x1D22CE68);
    assert Rounds(block, 31, h) == Regs(0xB7DABC8B, 0x081B63E5, 0xC6AEC70D, 0x95C7DF60, 0x3BC04BC8);
  }

  lemma Key1Rounds32(block: Bytes, h: Regs)
    requires IsKey1(block) && h == Regs(0x67452301, 0xEFCDAB89, 0x98BADCFE, 0x10325476, 0xC3D2E1F0)
    requires Rounds(block, 32, h) == Regs(0xA6680A1F, 0xB7DABC8B, 0x4206D8F9, 0xC6AEC70D, 0x95C7DF60)
    ensures Rounds(block, 48, h) == Regs(0xABE1748A, 0xDEE4B7A8, 0x5CBFCCD3, 0x97D7CD14, 0xDB71A8F5)
  {
    Key1Words32(block);
    hide W, IsKey1;
    assert Rounds(block, 33, h) == Regs(0x1AE360A9, 0xA6680A1F, 0xEDF6AF22, 0x4206D8F9, 0xC6AEC70D);
    assert Rounds(block, 34, h) == Regs(0xEEABA35A, 0x1AE360A9, 0xE99A0287, 0xEDF6AF22, 0x4206D8F9);
    assert Rounds(block, 35, h) == Regs(0x149BB4D3, 0xEEABA35A, 0x46B8D82A, 0xE99A0287, 0xEDF6AF22);
    assert Rounds(block, 36, h) == Regs(0x9DE793C8, 0x149BB4D3, 0xBBAAE8D6, 0x46B8D82A, 0xE99A0287);
    assert Rounds(block, 37, h) == Regs(0x4CCD2227, 0x9DE793C8, 0xC526ED34, 0xBBAAE8D6, 0x46B8D82A);
    assert Rounds(block, 38, h) == Regs(0x68760824, 0x4CCD2227, 0x2779E4F2, 0xC526ED34, 0xBBAAE8D6);
    assert Rounds(block, 39, h) == Regs(0xD0869081, 0x68760824, 0xD3334889, 0x2779E4F2, 0xC526ED34);
    assert Rounds(block, 40, h) == Regs(0x2BA2C83E, 0xD0869081, 0x1A1D8209, 0xD3334889, 0x2779E4F2);
    assert Rounds(block, 41, h) == Regs(0xCB8C52D0, 0x2BA2C83E, 0x7421A420, 0x1A1D8209, 0xD3334889);
    assert Rounds(block, 42, h) == Regs(0x4F589A44, 0xCB8C52D0, 0x8AE8B20F, 0x7421A420, 0x1A1D8209);
    assert Rounds(block, 43, h) == Regs(0x868829B7, 0x4F589A44, 0x32E314B4, 0x8AE8B20F, 0x7421A420);
    assert Rounds(block, 44, h) == Regs(0x6DC6A3D7, 0x868829B7, 0x13D62691, 0x32E314B4, 0x8AE8B20F);
    assert Rounds(block, 45, h) == Regs(0x5F5F3452, 0x6DC6A3D7, 0xE1A20A6D, 0x13D62691, 0x32E314B4);
    assert Rounds(block, 46, h) == Regs(0x72FF334D, 0x5F5F3452, 0xDB71A8F5, 0xE1A20A6D, 0x13D62691);
    assert Rounds(block, 47, h) == Regs(0xDEE4B7A8, 0x72FF334D, 0x97D7CD14, 0xDB71A8F5, 0xE1A20A6D);
  }

  lemma Key1Rounds48(block: Bytes, h: Regs)
    requires IsKey1(block) && h == Regs(0x67452301, 0xEFCDAB89, 0x98BADCFE, 0x10325476, 0xC3D2E1F0)
    requires Rounds(block, 48, h) == Regs(0xABE1748A, 0xDEE4B7A8, 0x5CBFCCD3, 0x97D7CD14, 0xDB71A8F5)
    ensures Rounds(block, 64, h) == Regs(0x685E2FF6, 0x840054D3, 0xE43C0363, 0x3350802E, 0x921CB616)
  {
    Key1Words48(block);
    hide W, IsKey1;
    assert Rounds(block, 49, h) == Regs(0x7510D04F, 0xABE1748A, 0x37B92DEA, 0x5CBFCCD3, 0x97D7CD14);
    assert Rounds(block, 50, h) == Regs(0x065F8486, 0x7510D04F, 0xAAF85D22, 0x37B92DEA, 0x5CBFCCD3);
    assert Rounds(block, 51, h) == Regs(0x0E5D77C4, 0x065F8486, 0xDD443413, 0xAAF85D22, 0x37B92DEA);
    assert Rounds(block, 52, h) == Regs(0x10E7F671, 0x0E5D77C4, 0x8197E121, 0xDD443413, 0xAAF85D22);
    assert Rounds(block, 53, h) == Regs(0x26C69395, 0x10E7F671, 0x03975DF1, 0x8197E121, 0xDD443413);
    assert Rounds(block, 54, h) == Regs(0x4C608AC4, 0x26C69395, 0x4439FD9C, 0x03975DF1, 0x8197E121);
    assert Rounds(block, 55, h) == Regs(0x50C9104C, 0x4C608AC4, 0x49B1A4E5, 0x4439FD9C, 0x03975DF1);
    assert Rounds(block, 56, h) == Regs(0x7E1242F2, 0x50C9104C, 0x131822B1, 0x49B1A4E5, 0x4439FD9C);
    assert Rounds(block, 57, h) == Regs(0x6EF6FEF4, 0x7E1242F2, 0x14324413, 0x131822B1, 0x49B1A4E5);
    assert Rounds(block, 58, h) == Regs(0x0C247C2E, 0x6EF6FEF4, 0x9F8490BC, 0x14324413, 0x131822B1);
    assert Rounds(block, 59, h) == Regs(0xD284F163, 0x0C247C2E, 0x1BBDBFBD, 0x9F8490BC, 0x14324413);
    assert Rounds(block, 60, h) == Regs(0x4872D85A, 0xD284F163, 0x83091F0B, 0x1BBDBFBD, 0x9F8490BC);
    assert Rounds(block, 61, h) == Regs(0xCD4200B8, 0x4872D85A, 0xF4A13C58, 0x83091F0B, 0x1BBDBFBD);
    assert Rounds(block, 62, h) == Regs(0x90F00D8F, 0xCD4200B8, 0x921CB616, 0xF4A13C58, 0x83091F0B);
    assert Rounds(block, 63, h) == Regs(0x840054D3, 0x90F00D8F, 0x3350802E, 0x921CB616, 0xF4A13C58);
  }

  lemma Key1Rounds64(block: Bytes, h: Regs)
    requires IsKey1(block) && h == Regs(0x67452301, 0xEFCDAB89, 0x98BADCFE, 0x10325476, 0xC3D2E1F0)
    requires Rounds(block, 64, h) == Regs(0x685E2FF6, 0x840054D3, 0xE43C0363, 0x3350802E, 0x921CB616)
    ensures Rounds(block, 80, h) == Regs(0xF48A5426, 0x835995E1, 0x25C11EFB, 0x4A45C402, 0x9A73C2F2)
  {
    Key1Words64(block);
    hide W, IsKey1;
    assert Rounds(block, 65, h) == Regs(0xA4CEE018, 0x685E2FF6, 0xE1001534, 0xE43C0363, 0x3350802E);
    assert Rounds(block, 66, h) == Regs(0xC3C2E45B, 0xA4CEE018, 0x9A178BFD, 0xE1001534, 0xE43C0363);
    assert Rounds(block, 67, h) == Regs(0x53131A40, 0xC3C2E45B, 0x2933B806, 0x9A178BFD, 0xE1001534);
    assert Rounds(block, 68, h) == Regs(0xCF8658EC, 0x53131A40, 0xF0F0B916, 0x2933B806, 0x9A178BFD);
    assert Rounds(block, 69, h) == Regs(0x966E049A, 0xCF8658EC, 0x14C4C690, 0xF0F0B916, 0x2933B806);
    assert Rounds(block, 70, h) == Regs(0x07381B7E, 0x966E049A, 0x33E1963B, 0x14C4C690, 0xF0F0B916);
    assert Rounds(block, 71, h) == Regs(0x80D59773, 0x07381B7E, 0xA59B8126, 0x33E1963B, 0x14C4C690);
    assert Rounds(block, 72, h) == Regs(0x7E65E044, 0x80D59773, 0x81CE06DF, 0xA59B8126, 0x33E1963B);
    assert Rounds(block, 73, h) == Regs(0x628E7B47, 0x7E65E044, 0xE03565DC, 0x81CE06DF, 0xA59B8126);
    assert Rounds(block, 74, h) == Regs(0x143A8388, 0x628E7B47, 0x1F997811, 0xE03565DC, 0x81CE06DF);
    assert Rounds(block, 75, h) == Regs(0xE20983F9, 0x143A8388, 0xD8A39ED1, 0x1F997811, 0xE03565DC);
    assert Rounds(block, 76, h) == Regs(0x69CF0BCA, 0xE20983F9, 0x050EA0E2, 0xD8A39ED1, 0x1F997811);
    assert Rounds(block, 77, h) == Regs(0x29171009, 0x69CF0BCA, 0x788260FE, 0x050EA0E2, 0xD8A39ED1);
    assert Rounds(block, 78, h) == Regs(0x97047BEC, 0x29171009, 0x9A73C2F2, 0x788260FE, 0x050EA0E2);
    assert Rounds(block, 79, h) == Regs(0x835995E1, 0x97047BEC, 0x4A45C402, 0x9A73C2F2, 0x788260FE);
  }

  lemma Key1Compressed(block: Bytes)
    requires IsKey1(block)
    ensures Compress(INIT, block)
      == Regs(0x5BCF7727, 0x7327416A, 0xBE7BFBF9, 0x5A781878, 0x5E46A4E2)
  {
    hide Rounds;
    var h := Regs(0x67452301, 0xEFCDAB89, 0x98BADCFE, 0x10325476, 0xC3D2E1F0);
    Key1Rounds0(block, h);
    Key1Rounds16(block, h);
    Key1Rounds32(block, h);
    Key1Rounds48(block, h);
    Key1Rounds64(block, h);
  }

  /** The second: zeros and the length, 480 bits. */
  predicate IsKey2(block: Bytes) {
    |block| == 64
    && From8(block, 0, 0x00, 0x00, 0x00, 0x00, 0x00, 0x00, 0x00, 0x00)
    && From8(block, 8, 0x00, 0x00, 0x00, 0x00, 0x00, 0x00, 0x00, 0x00)
    && From8(block, 16, 0x00, 0x00, 0x00, 0x00, 0x00, 0x00, 0x00, 0x00)
    && From8(block, 24, 0x00, 0x00, 0x00, 0x00, 0x00, 0x00, 0x00, 0x00)
    && From8(block, 32, 0x00, 0x00, 0x00, 0x00, 0x00, 0x00, 0x00, 0x00)
    && From8(block, 40, 0x00, 0x00, 0x00, 0x00, 0x00, 0x00, 0x00, 0x00)
    && From8(block, 48, 0x00, 0x00, 0x00, 0x00, 0x00, 0x00, 0x00, 0x00)
    && From8(block, 56, 0x00, 0x00, 0x00, 0x00, 0x00, 0x00, 0x01, 0xE0)
  }

  lemma Key2Words0(block: Bytes)
    requires IsKey2(block)
    ensures Words16(block, 0,
      0x00000000, 0x00000000, 0x00000000, 0x00000000, 0x00000000, 0x00000000, 0x00000000, 0x00000000,
      0x00000000, 0x00000000, 0x00000000, 0x00000000, 0x00000000, 0x00000000, 0x00000000, 0x000001E0)
  {
    hide W;
    ScheduleWord(block, 0); ScheduleWord(block, 1); ScheduleWord(block, 2); ScheduleWord(block, 3);
    ScheduleWord(block, 4); ScheduleWord(block, 5); ScheduleWord(block, 6); ScheduleWord(block, 7);
    ScheduleWord(block, 8); ScheduleWord(block, 9); ScheduleWord(block, 10); ScheduleWord(block, 11);
    ScheduleWord(block, 12); ScheduleWord(block, 13); ScheduleWord(block, 14); ScheduleWord(block, 15);
  }

  lemma Key2Words16(block: Bytes)
    requires IsKey2(block)
    ensures Words16(block, 16,
      0x00000000, 0x00000000, 0x000003C0, 0x00000000, 0x00000000, 0x00000780, 0x00000000, 0x000003C0,
      0x00000F00, 0x00000000, 0x00000000, 0x00001E00, 0x00000000, 0x00000CC0, 0x00003C00, 0x00000440)
  {
    Key2Words0(block);
    hide W, IsKey2;
    ScheduleWord(block, 16); ScheduleWord(block, 17); ScheduleWord(block, 18); ScheduleWord(block, 19);
    ScheduleWord(block, 20); ScheduleWord(block, 21); ScheduleWord(block, 22); ScheduleWord(block, 23);
    ScheduleWord(block, 24); ScheduleWord(block, 25); ScheduleWord(block, 26); ScheduleWord(block, 27);
    ScheduleWord(block, 28); ScheduleWord(block, 29); ScheduleWord(block, 30); ScheduleWord(block, 31);
  }

  lemma Key2Words32(block: Bytes)
    requires IsKey2(block)
    ensures Words16(block, 32,
      0x00000000, 0x00007800, 0x00000F00, 0x00003300, 0x0000F000, 0x00000F00, 0x00000000, 0x0001EF00,
      0x00000000, 0x0000CC00, 0x0003C000, 0x00004380, 0x00000000, 0x00078F00, 0x0000FF00, 0x00032680)
  {
    Key2Words16(block);
    hide W, IsKey2;
    ScheduleWord(block, 32); ScheduleWord(block, 33); ScheduleWord(block, 34); ScheduleWord(block, 35);
    ScheduleWord(block, 36); ScheduleWord(block, 37); ScheduleWord(block, 38); ScheduleWord(block, 39);
    ScheduleWord(block, 40); ScheduleWord(block, 41); ScheduleWord(block, 42); ScheduleWord(block, 43);
    ScheduleWord(block, 44); ScheduleWord(block, 45); ScheduleWord(block, 46); ScheduleWord(block, 47);
  }

  lemma Key2Words48(block: Bytes)
    requires IsKey2(block)
    ensures Words16(block, 48,
      0x000F0000, 0x0000F000, 0x00003300, 0x001EFF00, 0x00000000, 0x000CB800, 0x003C0000, 0x00040B00,
      0x0000F000, 0x0078FF00, 0x000FF000, 0x00338700, 0x00F00000, 0x000FC300, 0x0000F000, 0x01EFBB00)
  {
    Key2Words32(block);
    hide W, IsKey2;
    ScheduleWord(block, 48); ScheduleWord(block, 49); ScheduleWord(block, 50); ScheduleWord(block, 51);
    ScheduleWord(block, 52); ScheduleWord(block, 53); ScheduleWord(block, 54); ScheduleWord(block, 55);
    ScheduleWord(block, 56); ScheduleWord(block, 57); ScheduleWord(block, 58); ScheduleWord(block, 59);
    ScheduleWord(block, 60); ScheduleWord(block, 61); ScheduleWord(block, 62); ScheduleWord(block, 63);
  }

  lemma Key2Words64(block: Bytes)
    requires IsKey2(block)
    ensures Words16(block, 64,
      0x00000000, 0x00CC0000, 0x03C0F000, 0x00438000, 0x00000000, 0x078F0000, 0x00FF0000, 0x03269E00,
      0x0F000000, 0x00F0F000, 0x00333C00, 0x1EFF8800, 0x00000000, 0x0CB88800, 0x3C00F000, 0x040A4A00)
  {
    Key2Words48(block);
    hide W, IsKey2;
    ScheduleWord(block, 64); ScheduleWord(block, 65); ScheduleWord(block, 66); ScheduleWord(block, 67);
    ScheduleWord(block, 68); ScheduleWord(block, 69); ScheduleWord(block, 70); ScheduleWord(block, 71);
    ScheduleWord(block, 72); ScheduleWord(block, 73); ScheduleWord(block, 74); ScheduleWord(block, 75);
    ScheduleWord(block, 76); ScheduleWord(block, 77); ScheduleWord(block, 78); ScheduleWord(block, 79);
  }

  lemma Key2Rounds0(block: Bytes, h: Regs)
    requires IsKey2(block) && h == Regs(0x5BCF7727, 0x7327416A, 0xBE7BFBF9, 0x5A781878, 0x5E46A4E2)
    ensures Rounds(block, 16, h) == Regs(0x986DF268, 0x990B7BE7, 0xAB50FCE7, 0x195DB4B7, 0x4941806B)
  {
    Key2Words0(block);
    hide W, IsKey2;
    assert Rounds(block, 1, h) == Regs(0x6D335CDE, 0x5BCF7727, 0x9CC9D05A, 0xBE7BFBF9, 0x5A781878);
    assert Rounds(block, 2, h) == Regs(0x186006B8, 0x6D335CDE, 0xD6F3DDC9, 0x9CC9D05A, 0xBE7BFBF9);
    assert Rounds(block, 3, h) == Regs(0xF9FB295D, 0x186006B8, 0x9B4CD737, 0xD6F3DDC9, 0x9CC9D05A);
    assert Rounds(block, 4, h) == Regs(0x15855523, 0xF9FB295D, 0x061801AE, 0x9B4CD737, 0xD6F3DDC9);
    assert Rounds(block, 5, h) == Regs(0xE43DD2F2, 0x15855523, 0x7E7ECA57, 0x061801AE, 0x9B4CD737);
    assert Rounds(block, 6, h) == Regs(0x93A5EFBB, 0xE43DD2F2, 0xC5615548, 0x7E7ECA57, 0x061801AE);
    assert Rounds(block, 7, h) == Regs(0xB3BBCAFE, 0x93A5EFBB, 0xB90F74BC, 0xC5615548, 0x7E7ECA57);
    assert Rounds(block, 8, h) == Regs(0x25C018BE, 0xB3BBCAFE, 0xE4E97BEE, 0xB90F74BC, 0xC5615548);
    assert Rounds(block, 9, h) == Regs(0x80946593, 0x25C018BE, 0xACEEF2BF, 0xE4E97BEE, 0xB90F74BC);
    assert Rounds(block, 10, h) == Regs(0x0B0814C3, 0x80946593, 0x8970062F, 0xACEEF2BF, 0xE4E97BEE);
    assert Rounds(block, 11, h) == Regs(0x4CE92417, 0x0B0814C3, 0xE0251964, 0x8970062F, 0xACEEF2BF);
    assert Rounds(block, 12, h) == Regs(0x250601AD, 0x4CE92417, 0xC2C20530, 0xE0251964, 0x8970062F);
    assert Rounds(block, 13, h) == Regs(0x6576D2DC, 0x250601AD, 0xD33A4905, 0xC2C20530, 0xE0251964);
    assert Rounds(block, 14, h) == Regs(0xAD43F39E, 0x6576D2DC, 0x4941806B, 0xD33A4905, 0xC2C20530);
    assert Rounds(block, 15, h) == Regs(0x990B7BE7, 0xAD43F39E, 0x195DB4B7, 0x4941806B, 0xD33A4905);
  }

  lemma Key2Rounds16(block: Bytes, h: Regs)
    requires IsKey2(block) && h == Regs(0x5BCF7727, 0x7327416A, 0xBE7BFBF9, 0x5A781878, 0x5E46A4E2)
    requires Rounds(block, 16, h) == Regs(0x986DF268, 0x990B7BE7, 0xAB50FCE7, 0x195DB4B7, 0x4941806B)
    ensures Rounds(block, 32, h) == Regs(0x3CF6EB58, 0xF4DDD7B7, 0xC90FB815, 0xBD5F2D4F, 0xE4C9F7DB)
  {
    Key2Words16(block);
    hide W, IsKey2;
    assert Rounds(block, 17, h) == Regs(0x3AD7440E, 0x986DF268, 0xE642DEF9, 0xAB50FCE7, 0x195DB4B7);
    assert Rounds(block, 18, h) == Regs(0x72198F06, 0x3AD7440E, 0x261B7C9A, 0xE642DEF9, 0xAB50FCE7);
    assert Rounds(block, 19, h) == Regs(0x2F193A09, 0x72198F06, 0x8EB5D103, 0x261B7C9A, 0xE642DEF9);
    assert Rounds(block, 20, h) == Regs(0x2A008B51, 0x2F193A09, 0x9C8663C1, 0x8EB5D103, 0x261B7C9A);
    assert Rounds(block, 21, h) == Regs(0x12315B2B, 0x2A008B51, 0x4BC64E82, 0x9C8663C1, 0x8EB5D103);
    assert Rounds(block, 22, h) == Regs(0x40FBCF98, 0x12315B2B, 0x4A8022D4, 0x4BC64E82, 0x9C8663C1);
    assert Rounds(block, 23, h) == Regs(0x3E5179E7, 0x40FBCF98, 0xC48C56CA, 0x4A8022D4, 0x4BC64E82);
    assert Rounds(block, 24, h) == Regs(0x53C73650, 0x3E5179E7, 0x103EF3E6, 0xC48C56CA, 0x4A8022D4);
    assert Rounds(block, 25, h) == Regs(0x1D24C44A, 0x53C73650, 0xCF945E79, 0x103EF3E6, 0xC48C56CA);
    assert Rounds(block, 26, h) == Regs(0x646C677D, 0x1D24C44A, 0x14F1CD94, 0xCF945E79, 0x103EF3E6);
    assert Rounds(block, 27, h) == Regs(0xD2E726DA, 0x646C677D, 0x87493112, 0x14F1CD94, 0xCF945E79);
    assert Rounds(block, 28, h) == Regs(0x9327DF6F, 0xD2E726DA, 0x591B19DF, 0x87493112, 0x14F1CD94);
    assert Rounds(block, 29, h) == Regs(0xF57CB53E, 0x9327DF6F, 0xB4B9C9B6, 0x591B19DF, 0x87493112);
    assert Rounds(block, 30, h) == Regs(0x243EE057, 0xF57CB53E, 0xE4C9F7DB, 0xB4B9C9B6, 0x591B19DF);
    assert Rounds(block, 31, h) == Regs(0xF4DDD7B7, 0x243EE057, 0xBD5F2D4F, 0xE4C9F7DB, 0xB4B9C9B6);
  }

  lemma Key2Rounds32(block: Bytes, h: Regs)
    requires IsKey2(block) && h == Regs(0x5BCF7727, 0x7327416A, 0xBE7BFBF9, 0x5A781878, 0x5E46A4E2)
    requires Rounds(block, 32, h) == Regs(0x3CF6EB58, 0xF4DDD7B7, 0xC90FB815, 0xBD5F2D4F, 0xE4C9F7DB)
    ensures Rounds(block, 48, h) == Regs(0xA3EF857E, 0xC8CDA3DA, 0xCEF6480E, 0xFF1EF4D7, 0xC7A4D2B3)
  {
    Key2Words32(block);
    hide W, IsKey2;
    assert Rounds(block, 33, h) == Regs(0x730E9170, 0x3CF6EB58, 0xFD3775ED, 0xC90FB815, 0xBD5F2D4F);
    assert Rounds(block, 34, h) == Regs(0x96D9E59E, 0x730E9170, 0x0F3DBAD6, 0xFD3775ED, 0xC90FB815);
    assert Rounds(block, 35, h) == Regs(0x942AC4D3, 0x96D9E59E, 0x1CC3A45C, 0x0F3DBAD6, 0xFD3775ED);
    assert Rounds(block, 36, h) == Regs(0x76922A14, 0x942AC4D3, 0xA5B67967, 0x1CC3A45C, 0x0F3DBAD6);
    assert Rounds(block, 37, h) == Regs(0x7DBCF2ED, 0x76922A14, 0xE50AB134, 0xA5B67967, 0x1CC3A45C);
    assert Rounds(block, 38, h) == Regs(0x796ADEF3, 0x7DBCF2ED, 0x1DA48A85, 0xE50AB134, 0xA5B67967);
    assert Rounds(block, 39, h) == Regs(0xC6FF0CD3, 0x796ADEF3, 0x5F6F3CBB, 0x1DA48A85, 0xE50AB134);
    assert Rounds(block, 40, h) == Regs(0x6F698F1A, 0xC6FF0CD3, 0xDE5AB7BC, 0x5F6F3CBB, 0x1DA48A85);
    assert Rounds(block, 41, h) == Regs(0x78716769, 0x6F698F1A, 0xF1BFC334, 0xDE5AB7BC, 0x5F6F3CBB);
    assert Rounds(block, 42, h) == Regs(0xFC343A02, 0x78716769, 0x9BDA63C6, 0xF1BFC334, 0xDE5AB7BC);
    assert Rounds(block, 43, h) == Regs(0xEDFCD85B, 0xFC343A02, 0x5E1C59DA, 0x9BDA63C6, 0xF1BFC334);
    assert Rounds(block, 44, h) == Regs(0x1E934ACF, 0xEDFCD85B, 0xBF0D0E80, 0x5E1C59DA, 0x9BDA63C6);
    assert Rounds(block, 45, h) == Regs(0xFC7BD35F, 0x1E934ACF, 0xFB7F3616, 0xBF0D0E80, 0x5E1C59DA);
    assert Rounds(block, 46, h) == Regs(0x3BD9203B, 0xFC7BD35F, 0xC7A4D2B3, 0xFB7F3616, 0xBF0D0E80);
    assert Rounds(block, 47, h) == Regs(0xC8CDA3DA, 0x3BD9203B, 0xFF1EF4D7, 0xC7A4D2B3, 0xFB7F3616);
  }

  lemma Key2Rounds48(block: Bytes, h: Regs)
    requires IsKey2(block) && h == Regs(0x5BCF7727, 0x7327416A, 0xBE7BFBF9, 0x5A781878, 0x5E46A4E2)
    requires Rounds(block, 48, h) == Regs(0xA3EF857E, 0xC8CDA3DA, 0xCEF6480E, 0xFF1EF4D7, 0xC7A4D2B3)
    ensures Rounds(block, 64, h) == Regs(0xA5937450, 0xD5EF1ED7, 0xC444CBE3, 0xDDD22788, 0x558467C6)
  {
    Key2Words48(block);
    hide W, IsKey2;
    assert Rounds(block, 49, h) == Regs(0xA39F2041, 0xA3EF857E, 0xB23368F6, 0xCEF6480E, 0xFF1EF4D7);
    assert Rounds(block, 50, h) == Regs(0xA516F265, 0xA39F2041, 0xA8FBE15F, 0xB23368F6, 0xCEF6480E);
    assert Rounds(block, 51, h) == Regs(0xA3ABE4F5, 0xA516F265, 0x68E7C810, 0xA8FBE15F, 0xB23368F6);
    assert Rounds(block, 52, h) == Regs(0x5FE2A3DB, 0xA3ABE4F5, 0x6945BC99, 0x68E7C810, 0xA8FBE15F);
    assert Rounds(block, 53, h) == Regs(0x9E540637, 0x5FE2A3DB, 0x68EAF93D, 0x6945BC99, 0x68E7C810);
    assert Rounds(block, 54, h) == Regs(0x2C73BD78, 0x9E540637, 0xD7F8A8F6, 0x68EAF93D, 0x6945BC99);
    assert Rounds(block, 55, h) == Regs(0x660DD0B1, 0x2C73BD78, 0xE795018D, 0xD7F8A8F6, 0x68EAF93D);
    assert Rounds(block, 56, h) == Regs(0xA1B68141, 0x660DD0B1, 0x0B1CEF5E, 0xE795018D, 0xD7F8A8F6);
    assert Rounds(block, 57, h) == Regs(0x05033FA3, 0xA1B68141, 0x5983742C, 0x0B1CEF5E, 0xE795018D);
    assert Rounds(block, 58, h) == Regs(0x21289715, 0x05033FA3, 0x686DA050, 0x5983742C, 0x0B1CEF5E);
    assert Rounds(block, 59, h) == Regs(0x085EB2FE, 0x21289715, 0xC140CFE8, 0x686DA050, 0x5983742C);
    assert Rounds(block, 60, h) == Regs(0x56119F19, 0x085EB2FE, 0x484A25C5, 0xC140CFE8, 0x686DA050);
    assert Rounds(block, 61, h) == Regs(0x77489E23, 0x56119F19, 0x8217ACBF, 0x484A25C5, 0xC140CFE8);
    assert Rounds(block, 62, h) == Regs(0x11132F8F, 0x77489E23, 0x558467C6, 0x8217ACBF, 0x484A25C5);
    assert Rounds(block, 63, h) == Regs(0xD5EF1ED7, 0x11132F8F, 0xDDD22788, 0x558467C6, 0x8217ACBF);
  }

  lemma Key2Rounds64(block: Bytes, h: Regs)
    requires IsKey2(block) && h == Regs(0x5BCF7727, 0x7327416A, 0xBE7BFBF9, 0x5A781878, 0x5E46A4E2)
    requires Rounds(block, 64, h) == Regs(0xA5937450, 0xD5EF1ED7, 0xC444CBE3, 0xDDD22788, 0x558467C6)
    ensures Rounds(block, 80, h) == Regs(0x57AAD805, 0x4D3B0DAC, 0xD27A4A0D, 0x74C040CD, 0x54782008)
  {
    Key2Words64(block);
    hide W, IsKey2;
    assert Rounds(block, 65, h) == Regs(0x9ECFA66C, 0xA5937450, 0xF57BC7B5, 0xC444CBE3, 0xDDD22788);
    assert Rounds(block, 66, h) == Regs(0x17A22EF7, 0x9ECFA66C, 0x2964DD14, 0xF57BC7B5, 0xC444CBE3);
    assert Rounds(block, 67, h) == Regs(0xC97F1968, 0x17A22EF7, 0x27B3E99B, 0x2964DD14, 0xF57BC7B5);
    assert Rounds(block, 68, h) == Regs(0x097A511C, 0xC97F1968, 0xC5E88BBD, 0x27B3E99B, 0x2964DD14);
    assert Rounds(block, 69, h) == Regs(0x4E363DB9, 0x097A511C, 0x325FC65A, 0xC5E88BBD, 0x27B3E99B);
    assert Rounds(block, 70, h) == Regs(0xBF3A7F95, 0x4E363DB9, 0x025E9447, 0x325FC65A, 0xC5E88BBD);
    assert Rounds(block, 71, h) == Regs(0xF6D1AFEE, 0xBF3A7F95, 0x538D8F6E, 0x025E9447, 0x325FC65A);
    assert Rounds(block, 72, h) == Regs(0xC90888CA, 0xF6D1AFEE, 0x6FCE9FE5, 0x538D8F6E, 0x025E9447);
    assert Rounds(block, 73, h) == Regs(0xC7652EDB, 0xC90888CA, 0xBDB46BFB, 0x6FCE9FE5, 0x538D8F6E);
    assert Rounds(block, 74, h) == Regs(0x26F99990, 0xC7652EDB, 0xB2422232, 0xBDB46BFB, 0x6FCE9FE5);
    assert Rounds(block, 75, h) == Regs(0xE22B36D1, 0x26F99990, 0xF1D94BB6, 0xB2422232, 0xBDB46BFB);
    assert Rounds(block, 76, h) == Regs(0x51E08021, 0xE22B36D1, 0x09BE6664, 0xF1D94BB6, 0xB2422232);
    assert Rounds(block, 77, h) == Regs(0xD3010335, 0x51E08021, 0x788ACDB4, 0x09BE6664, 0xF1D94BB6);
    assert Rounds(block, 78, h) == Regs(0x49E92837, 0xD3010335, 0x54782008, 0x788ACDB4, 0x09BE6664);
    assert Rounds(block, 79, h) == Regs(0x4D3B0DAC, 0x49E92837, 0x74C040CD, 0x54782008, 0x788ACDB4);
  }

  lemma Key2Compressed(block: Bytes)
    requires IsKey2(block)
    ensures Compress(Regs(0x5BCF7727, 0x7327416A, 0xBE7BFBF9, 0x5A781878, 0x5E46A4E2), block)
      == Regs(0xB37A4F2C, 0xC0624F16, 0x90F64606, 0xCF385945, 0xB2BEC4EA)
  {
    hide Rounds;
    var h := Regs(0x5BCF7727, 0x7327416A, 0xBE7BFBF9, 0x5A781878, 0x5E46A4E2);
    Key2Rounds0(block, h);
    Key2Rounds16(block, h);
    Key2Rounds32(block, h);
    Key2Rounds48(block, h);
    Key2Rounds64(block, h);
  }

  const KEY: string := "dGhlIHNh" + "bXBsZSBu" + "b25jZQ=="

  /** The 60 bytes that are hashed. */
  predicate IsKeyed(m: Bytes) {
    |m| == 60
    && From8(m, 0, 0x64, 0x47, 0x68, 0x6C, 0x49, 0x48, 0x4E, 0x68)
    && From8(m, 8, 0x62, 0x58, 0x42, 0x73, 0x5A, 0x53, 0x42, 0x75)
    && From8(m, 16, 0x62, 0x32, 0x35, 0x6A, 0x5A, 0x51, 0x3D, 0x3D)
    && From8(m, 24, 0x32, 0x35, 0x38, 0x45, 0x41, 0x46, 0x41, 0x35)
    && From8(m, 32, 0x2D, 0x45, 0x39, 0x31, 0x34, 0x2D, 0x34, 0x37)
    && From8(m, 40, 0x44, 0x41, 0x2D, 0x39, 0x35, 0x43, 0x41, 0x2D)
    && From8(m, 48, 0x43, 0x35, 0x41, 0x42, 0x30, 0x44, 0x43, 0x38)
    && m[56] == 0x35 && m[57] == 0x42 && m[58] == 0x31 && m[59] == 0x31
  }

  lemma AsciiConcat(a: string, b: string)
    requires (forall k :: 0 <= k < |a| ==> a[k] < '\U{80}') && (forall k :: 0 <= k < |b| ==> b[k] < '\U{80}')
    ensures AcceptKey.Ascii(a + b) == AcceptKey.Ascii(a) + AcceptKey.Ascii(b)
  {
  }

  lemma AsciiOf4(c0: char, c1: char, c2: char, c3: char, b0: bv8, b1: bv8, b2: bv8, b3: bv8)
    requires c0 as int == b0 as int < 128 && c1 as int == b1 as int < 128
    requires c2 as int == b2 as int < 128 && c3 as int == b3 as int < 128
    ensures AcceptKey.Ascii([c0, c1, c2, c3]) == [b0, b1, b2, b3]
  {
    ByteIs(c0 as int, b0);
    ByteIs(c1 as int, b1);
    ByteIs(c2 as int, b2);
    ByteIs(c3 as int, b3);
  }

  lemma AsciiOf8(c0: char, c1: char, c2: char, c3: char, c4: char, c5: char, c6: char, c7: char,
                 b0: bv8, b1: bv8, b2: bv8, b3: bv8, b4: bv8, b5: bv8, b6: bv8, b7: bv8)
    requires c0 as int == b0 as int < 128 && c1 as int == b1 as int < 128
    requires c2 as int == b2 as int < 128 && c3 as int == b3 as int < 128
    requires c4 as int == b4 as int < 128 && c5 as int == b5 as int < 128
    requires c6 as int == b6 as int < 128 && c7 as int == b7 as int < 128
    ensures AcceptKey.Ascii([c0, c1, c2, c3, c4, c5, c6, c7]) == [b0, b1, b2, b3, b4, b5, b6, b7]
  {
    AsciiOf4(c0, c1, c2, c3, b0, b1, b2, b3);
    AsciiOf4(c4, c5, c6, c7, b4, b5, b6, b7);
    AsciiConcat([c0, c1, c2, c3], [c4, c5, c6, c7]);
    hide AcceptKey.Ascii;
    assert [c0, c1, c2, c3] + [c4, c5, c6, c7] == [c0, c1, c2, c3, c4, c5, c6, c7];
  }

  lemma KeyBytes()
    ensures AcceptKey.Ascii(KEY)
      == [0x64, 0x47, 0x68, 0x6C, 0x49, 0x48, 0x4E, 0x68]
       + [0x62, 0x58, 0x42, 0x73, 0x5A, 0x53, 0x42, 0x75]
       + [0x62, 0x32, 0x35, 0x6A, 0x5A, 0x51, 0x3D, 0x3D]
  {
    AsciiOf8('d', 'G', 'h', 'l', 'I', 'H', 'N', 'h', 0x64, 0x47, 0x68, 0x6C, 0x49, 0x48, 0x4E, 0x68);
    AsciiOf8('b', 'X', 'B', 's', 'Z', 'S', 'B', 'u', 0x62, 0x58, 0x42, 0x73, 0x5A, 0x53, 0x42, 0x75);
    AsciiOf8('b', '2', '5', 'j', 'Z', 'Q', '=', '=', 0x62, 0x32, 0x35, 0x6A, 0x5A, 0x51, 0x3D, 0x3D);
    AsciiConcat("dGhlIHNh", "bXBsZSBu");
    AsciiConcat("dGhlIHNh" + "bXBsZSBu", "b25jZQ==");
    hide AcceptKey.Ascii;
  }

  /** The protocol's GUID in bytes. */
  lemma GuidBytes()
    ensures AcceptKey.Ascii(AcceptKey.MAGIC)
      == [0x32, 0x35, 0x38, 0x45, 0x41, 0x46, 0x41, 0x35]
       + [0x2D, 0x45, 0x39, 0x31, 0x34, 0x2D, 0x34, 0x37]
       + [0x44, 0x41, 0x2D, 0x39, 0x35, 0x43, 0x41, 0x2D]
       + [0x43, 0x35, 0x41, 0x42, 0x30, 0x44, 0x43, 0x38]
       + [0x35, 0x42, 0x31, 0x31]
  {
    AsciiOf8('2', '5', '8', 'E', 'A', 'F', 'A', '5', 0x32, 0x35, 0x38, 0x45, 0x41, 0x46, 0x41, 0x35);
    AsciiOf8('-', 'E', '9', '1', '4', '-', '4', '7', 0x2D, 0x45, 0x39, 0x31, 0x34, 0x2D, 0x34, 0x37);
    AsciiOf8('D', 'A', '-', '9', '5', 'C', 'A', '-', 0x44, 0x41, 0x2D, 0x39, 0x35, 0x43, 0x41, 0x2D);
    AsciiOf8('C', '5', 'A', 'B', '0', 'D', 'C', '8', 0x43, 0x35, 0x41, 0x42, 0x30, 0x44, 0x43, 0x38);
    AsciiOf4('5', 'B', '1', '1', 0x35, 0x42, 0x31, 0x31);
    AsciiConcat("258EAFA5", "-E914-47");
    AsciiConcat("258EAFA5" + "-E914-47", "DA-95CA-");
    AsciiConcat("258EAFA5" + "-E914-47" + "DA-95CA-", "C5AB0DC8");
    AsciiConcat("258EAFA5" + "-E914-47" + "DA-95CA-" + "C5AB0DC8", "5B11");
    hide AcceptKey.Ascii;
  }

  lemma KeyedBytes()
    ensures IsKeyed(AcceptKey.Keyed(AcceptKey.Ascii(KEY)))
  {
    KeyBytes();
    GuidBytes();
    hide AcceptKey.Ascii;
  }

  lemma Carry8(m: Bytes, p: Bytes, i: nat, b0: bv8, b1: bv8, b2: bv8, b3: bv8, b4: bv8, b5: bv8, b6: bv8, b7: bv8)
    requires From8(m, i, b0, b1, b2, b3, b4, b5, b6, b7) && |m| <= |p| && forall k :: 0 <= k < |m| ==> p[k] == m[k]
    ensures From8(p, i, b0, b1, b2, b3, b4, b5, b6, b7)
  {
  }

  lemma FirstBlock(m: Bytes, p: Bytes)
    requires IsKeyed(m) && |p| == 64 && (forall k :: 0 <= k < 60 ==> p[k] == m[k])
    requires p[60] == 0x80 && p[61] == p[62] == p[63] == 0
    ensures IsKey1(p)
  {
    hide From8;
    Carry8(m, p, 0, 0x64, 0x47, 0x68, 0x6C, 0x49, 0x48, 0x4E, 0x68);
    Carry8(m, p, 8, 0x62, 0x58, 0x42, 0x73, 0x5A, 0x53, 0x42, 0x75);
    Carry8(m, p, 16, 0x62, 0x32, 0x35, 0x6A, 0x5A, 0x51, 0x3D, 0x3D);
    Carry8(m, p, 24, 0x32, 0x35, 0x38, 0x45, 0x41, 0x46, 0x41, 0x35);
    Carry8(m, p, 32, 0x2D, 0x45, 0x39, 0x31, 0x34, 0x2D, 0x34, 0x37);
    Carry8(m, p, 40, 0x44, 0x41, 0x2D, 0x39, 0x35, 0x43, 0x41, 0x2D);
    Carry8(m, p, 48, 0x43, 0x35, 0x41, 0x42, 0x30, 0x44, 0x43, 0x38);
    LastPiece(m, p);
  }

  lemma LastPiece(m: Bytes, p: Bytes)
    requires IsKeyed(m) && |p| == 64 && (forall k :: 0 <= k < 60 ==> p[k] == m[k])
    requires p[60] == 0x80 && p[61] == p[62] == p[63] == 0
    ensures From8(p, 56, 0x35, 0x42, 0x31, 0x31, 0x80, 0x00, 0x00, 0x00)
  {
    hide From8;
    assert From8(p, 56, p[56], p[57], p[58], p[59], p[60], p[61], p[62], p[63]) by {
      AnyEight(p, 56);
    }
  }

  lemma AnyEight(p: Bytes, i: nat)
    requires i + 8 <= |p|
    ensures From8(p, i, p[i], p[i + 1], p[i + 2], p[i + 3], p[i + 4], p[i + 5], p[i + 6], p[i + 7])
  {
  }

  lemma SecondBlock(p: Bytes)
    requires |p| == 64 && (forall k :: 0 <= k < 56 ==> p[k] == 0) && From8(p, 56, 0, 0, 0, 0, 0, 0, 1, 224)
    ensures IsKey2(p)
  {
  }

  lemma KeyPadded(m: Bytes)
    requires IsKeyed(m)
    ensures |Padded(m)| == 128 && IsKey1(Padded(m)[..64]) && IsKey2(Padded(m)[64..])
  {
    hide IsKey1, IsKey2, From8, Padded;
    PaddedAt(m);
    assert |m| == 60 && ZeroCount(60) == 59;
    hide IsKeyed, ZeroCount;
    var p := Padded(m);
    FirstBlock(m, p[..64]);
    ByteIs(1, 1);
    ByteIs(224, 224);
    From8Later(p);
    SecondBlock(p[64..]);
  }

  lemma From8Later(p: Bytes)
    requires |p| == 128 && From8(p, 120, 0, 0, 0, 0, 0, 0, 1, 224)
    ensures From8(p[64..], 56, 0, 0, 0, 0, 0, 0, 1, 224)
  {
  }

  lemma KeyBlocks(m: Bytes)
    requires IsKeyed(m)
    ensures |Padded(m)| == 128 && Blocks(Padded(m), 2)
      == Regs(0xB37A4F2C, 0xC0624F16, 0x90F64606, 0xCF385945, 0xB2BEC4EA)
  {
    hide Padded, Compress, IsKeyed;
    KeyPadded(m);
    var p := Padded(m);
    assert p[0..64] == p[..64] && p[64..128] == p[64..];
    Key1Compressed(p[..64]);
    Key2Compressed(p[64..]);
    hide IsKey1, IsKey2;
    assert Blocks(p, 0) == INIT;
    assert Blocks(p, 1) == Compress(INIT, p[..64]);
  }

  lemma ExampleDigest(m: Bytes)
    requires IsKeyed(m)
    ensures Digest(m) == [0xB3, 0x7A, 0x4F, 0x2C, 0xC0, 0x62]
      + [0x4F, 0x16, 0x90, 0xF6, 0x46, 0x06]
      + [0xCF, 0x38, 0x59, 0x45, 0xB2, 0xBE]
      + [0xC4, 0xEA]
  {
    hide Padded, Compress, ToBytes, Blocks, IsKeyed;
    KeyBlocks(m);
    ExampleBytes(Blocks(Padded(m), 2));
  }

  lemma ExampleBytes(h: Regs)
    requires h == Regs(0xB37A4F2C, 0xC0624F16, 0x90F64606, 0xCF385945, 0xB2BEC4EA)
    ensures ToBytes(h.a) + ToBytes(h.b) + ToBytes(h.c) + ToBytes(h.d) + ToBytes(h.e)
      == [0xB3, 0x7A, 0x4F, 0x2C, 0xC0, 0x62]
      + [0x4F, 0x16, 0x90, 0xF6, 0x46, 0x06]
      + [0xCF, 0x38, 0x59, 0x45, 0xB2, 0xBE]
      + [0xC4, 0xEA]
  {
  }

  lemma ThreeBytes(b0: bv8, b1: bv8, b2: bv8, i0: nat, i1: nat, i2: nat, i3: nat)
    requires Base64.S0(b0) as int == i0 < 64 && Base64.S1(b0, b1) as int == i1 < 64
    requires Base64.S2(b1, b2) as int == i2 < 64 && Base64.S3(b2) as int == i3 < 64
    ensures Base64.EncodedGroup([b0, b1, b2])
         == [Base64.NthChar(i0), Base64.NthChar(i1), Base64.NthChar(i2), Base64.NthChar(i3)]
  {
    Base64.AlphabetInOrder(i0);
    Base64.AlphabetInOrder(i1);
    Base64.AlphabetInOrder(i2);
    Base64.AlphabetInOrder(i3);
    hide Base64.CHARS, Base64.S0, Base64.S1, Base64.S2, Base64.S3, Base64.NthChar;
  }

  lemma TwoBytes(b0: bv8, b1: bv8, i0: nat, i1: nat, i2: nat)
    requires Base64.S0(b0) as int == i0 < 64 && Base64.S1(b0, b1) as int == i1 < 64 && Base64.S2(b1, 0) as int == i2 < 64
    ensures Base64.EncodedGroup([b0, b1]) == [Base64.NthChar(i0), Base64.NthChar(i1), Base64.NthChar(i2), '=']
  {
    Base64.AlphabetInOrder(i0);
    Base64.AlphabetInOrder(i1);
    Base64.AlphabetInOrder(i2);
    hide Base64.CHARS, Base64.S0, Base64.S1, Base64.S2, Base64.S3, Base64.NthChar;
  }

  lemma GroupThen(g: Bytes, rest: Bytes)
    requires |g| == 3 && rest != []
    ensures Base64.Encoded(g + rest) == Base64.EncodedGroup(g) + Base64.Encoded(rest)
  {
    assert (g + rest)[..3] == g && (g + rest)[3..] == rest;
    hide Base64.EncodedGroup;
  }

  /** The digest of the example in groups of three. */
  function Groups(k: nat): Bytes {
    match k
    case 0 => [0xB3, 0x7A, 0x4F]
    case 1 => [0x2C, 0xC0, 0x62]
    case 2 => [0x4F, 0x16, 0x90]
    case 3 => [0xF6, 0x46, 0x06]
    case 4 => [0xCF, 0x38, 0x59]
    case 5 => [0x45, 0xB2, 0xBE]
    case 6 => [0xC4, 0xEA]
    case _ => []
  }

  function GroupsFrom(k: nat): Bytes
    decreases 7 - k
  {
    if k >= 7 then [] else Groups(k) + GroupsFrom(k + 1)
  }

  lemma GroupsAreDigest()
    ensures GroupsFrom(0) == [0xB3, 0x7A, 0x4F, 0x2C, 0xC0, 0x62]
      + [0x4F, 0x16, 0x90, 0xF6, 0x46, 0x06]
      + [0xCF, 0x38, 0x59, 0x45, 0xB2, 0xBE]
      + [0xC4, 0xEA]
  {
    assert GroupsFrom(6) == Groups(6);
    assert GroupsFrom(4) == Groups(4) + (Groups(5) + Groups(6));
    assert GroupsFrom(2) == Groups(2) + (Groups(3) + GroupsFrom(4));
    assert GroupsFrom(0) == Groups(0) + (Groups(1) + GroupsFrom(2));
  }

  lemma GroupCodes()
    ensures Base64.EncodedGroup(Groups(0)) == "s3pP"
    ensures Base64.EncodedGroup(Groups(1)) == "LMBi"
    ensures Base64.EncodedGroup(Groups(2)) == "TxaQ"
    ensures Base64.EncodedGroup(Groups(3)) == "9kYG"
    ensures Base64.EncodedGroup(Groups(4)) == "zzhZ"
    ensures Base64.EncodedGroup(Groups(5)) == "RbK+"
    ensures Base64.EncodedGroup(Groups(6)) == "xOo="
  {
    hide Base64.EncodedGroup;
    ThreeBytes(0xB3, 0x7A, 0x4F, 44, 55, 41, 15);
    ThreeBytes(0x2C, 0xC0, 0x62, 11, 12, 1, 34);
    ThreeBytes(0x4F, 0x16, 0x90, 19, 49, 26, 16);
    ThreeBytes(0xF6, 0x46, 0x06, 61, 36, 24, 6);
    ThreeBytes(0xCF, 0x38, 0x59, 51, 51, 33, 25);
    ThreeBytes(0x45, 0xB2, 0xBE, 17, 27, 10, 62);
    TwoBytes(0xC4, 0xEA, 49, 14, 40);
  }

  lemma GroupsEncoded()
    ensures Base64.Encoded(GroupsFrom(0)) == "s3pP" + "LMBi" + "TxaQ" + "9kYG" + "zzhZ" + "RbK+" + "xOo="
  {
    GroupCodes();
    hide Base64.EncodedGroup, Base64.Encoded, Groups;
    GroupSizes();
    assert GroupsFrom(7) == [] && GroupsFrom(6) == Groups(6) + [];
    LastGroup(Groups(6));
    GroupThen(Groups(5), GroupsFrom(6));
    GroupThen(Groups(4), GroupsFrom(5));
    GroupThen(Groups(3), GroupsFrom(4));
    GroupThen(Groups(2), GroupsFrom(3));
    GroupThen(Groups(1), GroupsFrom(2));
    GroupThen(Groups(0), GroupsFrom(1));
  }

  lemma GroupSizes()
    ensures forall k :: 0 <= k < 6 ==> |Groups(k)| == 3
    ensures |Groups(6)| == 2
  {
  }

  lemma LastGroup(g: Bytes)
    requires |g| == 2
    ensures Base64.Encoded(g + []) == Base64.EncodedGroup(g)
  {
    assert g + [] == g;
  }

  /** RFC 6455, section 1.3. */
  lemma AcceptKeyOfExample()
    ensures AcceptKey.AcceptKey(AcceptKey.Ascii("dGhlIHNh" + "bXBsZSBu" + "b25jZQ=="))
      == "s3pP" + "LMBi" + "TxaQ" + "9kYG" + "zzhZ" + "RbK+" + "xOo="
  {
    hide AcceptKey.Keyed, AcceptKey.Ascii, IsKeyed, Base64.Encoded, GroupsFrom, Digest;
    KeyedBytes();
    ExampleDigest(AcceptKey.Keyed(AcceptKey.Ascii(KEY)));
    GroupsAreDigest();
    GroupsEncoded();
  }
}

/** The base64 encoder of src/main.rs against RFC 4648, section 4, undone by a strict decoder. */
module Base64 {
  import opened Prelude

  type Bytes = seq<bv8>

  /** The 64 characters of the alphabet, eight to a piece. */
  const CHARS: string :=
    "ABCDEFGH" + "IJKLMNOP" + "QRSTUVWX" + "YZabcdef" + "ghijklmn" + "opqrstuv" + "wxyz0123" + "456789+/"

  /** A six-bit group. */
  predicate Sextet(v: bv8) { v < 64 }

  function CharOf(v: bv8): char
    requires Sextet(v)
  {
    CHARS[v as int]
  }

  /** The value of a character of the alphabet. */
  function IndexOf(c: char): Option<nat> {
    if 'A' <= c <= 'Z' then Some(c as int - 'A' as int)
    else if 'a' <= c <= 'z' then Some(c as int - 'a' as int + 26)
    else if '0' <= c <= '9' then Some(c as int - '0' as int + 52)
    else if c == '+' then Some(62)
    else if c == '/' then Some(63)
    else None
  }

  function ValueOf(c: char): Option<bv8> {
    var i := IndexOf(c);
    if i.Some? && i.value < 64 then Some(i.value as bv8) else None
  }

  function NthChar(i: nat): char
    requires i < 64
  {
    if i < 26 then ('A' as int + i) as char
    else if i < 52 then ('a' as int + i - 26) as char
    else if i < 62 then ('0' as int + i - 52) as char
    else if i == 62 then '+'
    else '/'
  }

  lemma AlphabetInOrder(i: nat)
    requires i < 64
    ensures CHARS[i] == NthChar(i)
  {
  }

  /** Table 1 of RFC 4648 in ASCII codes: A to Z, a to z, 0 to 9, '+' and '/'. */
  lemma AlphabetIs(i: nat)
    requires i < 64
    ensures CHARS[i] as int == if i < 26 then 65 + i else if i < 52 then 97 + (i - 26) else if i < 62 then 48 + (i - 52)
                               else if i == 62 then 43 else 47
  {
    AlphabetInOrder(i);
    hide CHARS;
  }

  lemma NthCharIndex(i: nat)
    requires i < 64
    ensures IndexOf(NthChar(i)) == Some(i)
  {
  }

  lemma IndexNthChar(c: char)
    requires IndexOf(c).Some?
    ensures IndexOf(c).value < 64 && NthChar(IndexOf(c).value) == c
  {
  }

  lemma SextetValue(v: bv8)
    ensures Sextet(v) <==> v as int < 64
  {
  }

  lemma SameByte(v: bv8)
    ensures (v as int) as bv8 == v
  {
  }

  lemma IndexByte(i: nat)
    requires i < 64
    ensures Sextet(i as bv8) && (i as bv8) as int == i
  {
    ByteValue(i);
    SextetValue(i as bv8);
    hide Sextet;
  }

  /** Six-bit values survive the trip through the alphabet, and none is written as '='. */
  lemma ValueOfCharOf(v: bv8)
    requires Sextet(v)
    ensures ValueOf(CharOf(v)) == Some(v) && CharOf(v) != '='
  {
    hide CHARS, NthChar, IndexOf, Sextet;
    SextetValue(v);
    SameByte(v);
    AlphabetInOrder(v as int);
    NthCharIndex(v as int);
    PadHasNoValue();
  }

  /** Characters with a value survive the trip back. */
  lemma CharOfValueOf(c: char)
    requires ValueOf(c).Some?
    ensures Sextet(ValueOf(c).value) && CharOf(ValueOf(c).value) == c
  {
    hide CHARS, NthChar, IndexOf, Sextet;
    var i := IndexOf(c).value;
    IndexNthChar(c);
    AlphabetInOrder(i);
    IndexByte(i);
  }

  lemma PadHasNoValue()
    ensures IndexOf('=') == None && ValueOf('=') == None
  {
  }

  // ------------------------------------------------------------ the encoding

  // The four six-bit groups of three bytes, first to last.
  function S0(b0: bv8): bv8 { b0 >> 2 }

  function S1(b0: bv8, b1: bv8): bv8 { ((b0 & 0x03) << 4) | (b1 >> 4) }

  function S2(b1: bv8, b2: bv8): bv8 { ((b1 & 0x0F) << 2) | (b2 >> 6) }

  function S3(b2: bv8): bv8 { b2 & 0x3F }

  lemma SextetsAreSmall(b0: bv8, b1: bv8, b2: bv8)
    ensures Sextet(S0(b0)) && Sextet(S1(b0, b1)) && Sextet(S2(b1, b2)) && Sextet(S3(b2))
  {
  }

  /** The sextets are the digits in base 64 of the number whose digits in base 256 are the bytes. */
  lemma SextetsAreDigits(b0: bv8, b1: bv8, b2: bv8)
    ensures (((S0(b0) as bv32) * 64 + (S1(b0, b1) as bv32)) * 64 + (S2(b1, b2) as bv32)) * 64 + (S3(b2) as bv32)
         == ((b0 as bv32) * 256 + (b1 as bv32)) * 256 + (b2 as bv32)
  {
  }

  /** The four characters of one group of one to three bytes. */
  function EncodedGroup(g: Bytes): (s: string)
    requires 1 <= |g| <= 3
    ensures |s| == 4
  {
    var b1 := if |g| > 1 then g[1] else 0;
    var b2 := if |g| > 2 then g[2] else 0;
    SextetsAreSmall(g[0], b1, b2);
    [CharOf(S0(g[0])), CharOf(S1(g[0], b1)),
     if |g| > 1 then CharOf(S2(b1, b2)) else '=',
     if |g| > 2 then CharOf(S3(b2)) else '=']
  }

  function Encoded(x: Bytes): string {
    if |x| == 0 then ""
    else if |x| <= 3 then EncodedGroup(x)
    else EncodedGroup(x[..3]) + Encoded(x[3..])
  }

  /** Cutting a 24-bit word into sextets, as the code does, gives the same groups. */
  lemma TripleSextets(b0: bv8, b1: bv8, b2: bv8)
    ensures var t := ((b0 as bv32) << 16) | ((b1 as bv32) << 8) | (b2 as bv32);
      && ((t >> 18) & 0x3F) as int == S0(b0) as int
      && ((t >> 12) & 0x3F) as int == S1(b0, b1) as int
      && ((t >> 6) & 0x3F) as int == S2(b1, b2) as int
      && ((t >> 0) & 0x3F) as int == S3(b2) as int
  {
    var t := ((b0 as bv32) << 16) | ((b1 as bv32) << 8) | (b2 as bv32);
    SmallWord((t >> 18) & 0x3F);
    SmallWord((t >> 12) & 0x3F);
    SmallWord((t >> 6) & 0x3F);
    SmallWord((t >> 0) & 0x3F);
  }

  lemma SmallWord(t: bv32)
    requires t < 64
    ensures (t as bv8) as int == t as int
  {
  }

  function Triple(chunk: Bytes): bv32
    requires 1 <= |chunk| <= 3
  {
    var b1 := if |chunk| > 1 then chunk[1] else 0;
    var b2 := if |chunk| > 2 then chunk[2] else 0;
    ((chunk[0] as bv32) << 16) | ((b1 as bv32) << 8) | (b2 as bv32)
  }

  /** The character for the six bits of the triple from the given bit up. */
  function CharAt(triple: bv32, shift: nat): char
    requires shift <= 18
  {
    TakeSextet(triple, shift);
    CHARS[((triple >> shift) & 0x3F) as int]
  }

  lemma TakeSextet(triple: bv32, shift: nat)
    requires shift <= 18
    ensures ((triple >> shift) & 0x3F) as int < 64
  {
    var t := (triple >> shift) & 0x3F;
    assert t < 64;
  }

  lemma TripleChars(b0: bv8, b1: bv8, b2: bv8)
    ensures var t := ((b0 as bv32) << 16) | ((b1 as bv32) << 8) | (b2 as bv32);
      && Sextet(S0(b0)) && Sextet(S1(b0, b1)) && Sextet(S2(b1, b2)) && Sextet(S3(b2))
      && CharAt(t, 18) == CharOf(S0(b0)) && CharAt(t, 12) == CharOf(S1(b0, b1))
      && CharAt(t, 6) == CharOf(S2(b1, b2)) && CharAt(t, 0) == CharOf(S3(b2))
  {
    hide CHARS;
    TripleSextets(b0, b1, b2);
    SextetsAreSmall(b0, b1, b2);
    hide S0, S1, S2, S3;
  }

  lemma TripleGroup(chunk: Bytes)
    requires 1 <= |chunk| <= 3
    ensures var t := Triple(chunk);
      EncodedGroup(chunk)
      == [CharAt(t, 18), CharAt(t, 12),
          if |chunk| > 1 then CharAt(t, 6) else '=', if |chunk| > 2 then CharAt(t, 0) else '=']
  {
    hide S0, S1, S2, S3, CHARS, CharAt, CharOf;
    TripleChars(chunk[0], if |chunk| > 1 then chunk[1] else 0, if |chunk| > 2 then chunk[2] else 0);
  }

  method Base64Encode(data: Bytes) returns (result: string)
    ensures result == Encoded(data)
  {
    hide CharAt, Triple, EncodedGroup;
    result := "";
    var i := 0;
    while i < |data|
      invariant 0 <= i <= |data|
      invariant result + Encoded(data[i..]) == Encoded(data)
    {
      var chunk := data[i..Min(i + 3, |data|)];
      var triple := Triple(chunk);
      ghost var before, rest := result, Encoded(data[i + |chunk|..]);
      result := result + [CharAt(triple, 18)];
      result := result + [CharAt(triple, 12)];
      result := result + [if |chunk| > 1 then CharAt(triple, 6) else '='];
      result := result + [if |chunk| > 2 then CharAt(triple, 0) else '='];
      TripleGroup(chunk);
      assert result == before + EncodedGroup(chunk);
      EncodedFrom(data, i);
      assert before + (EncodedGroup(chunk) + rest) == result + rest;
      i := i + |chunk|;
    }
  }

  lemma EncodedFrom(data: Bytes, i: nat)
    requires i < |data|
    ensures var j := Min(i + 3, |data|); Encoded(data[i..]) == EncodedGroup(data[i..j]) + Encoded(data[j..])
  {
    if |data| - i <= 3 {
      assert data[i..|data|] == data[i..];
    } else {
      assert data[i..][..3] == data[i..i + 3] && data[i..][3..] == data[i + 3..];
    }
  }

  // ------------------------------------------------------------- the decoding

  function JoinBytes(s0: bv8, s1: bv8, s2: bv8, s3: bv8): (b: Bytes)
    ensures |b| == 3
  {
    [(s0 << 2) | (s1 >> 4), (s1 << 4) | (s2 >> 2), (s2 << 6) | s3]
  }

  /** Four characters back to one to three bytes; padding bits must be zero, so that every group
      has one spelling. */
  function DecodedGroup(s: string): Option<Bytes>
    requires |s| == 4
  {
    var v0, v1, v2, v3 := ValueOf(s[0]), ValueOf(s[1]), ValueOf(s[2]), ValueOf(s[3]);
    if v0.None? || v1.None? then None
    else if s[2] == '=' then
      if s[3] == '=' && v1.value & 0x0F == 0 then Some(JoinBytes(v0.value, v1.value, 0, 0)[..1]) else None
    else if v2.None? then None
    else if s[3] == '=' then
      if v2.value & 0x03 == 0 then Some(JoinBytes(v0.value, v1.value, v2.value, 0)[..2]) else None
    else if v3.None? then None
    else Some(JoinBytes(v0.value, v1.value, v2.value, v3.value))
  }

  /** The strict decoder: whole groups only, and only the last one may be padded. */
  function Decoded(s: string): Option<Bytes> {
    if s == "" then Some([])
    else if |s| < 4 then None
    else
      var g := DecodedGroup(s[..4]);
      if g.None? then None
      else if |s| == 4 then g
      else if |g.value| < 3 then None
      else
        var rest := Decoded(s[4..]);
        if rest.None? then None else Some(g.value + rest.value)
  }

  lemma BitsSplit(b0: bv8, b1: bv8, b2: bv8)
    ensures JoinBytes(S0(b0), S1(b0, b1), S2(b1, b2), S3(b2)) == [b0, b1, b2]
    ensures S1(b0, 0) & 0x0F == 0 && S2(b1, 0) & 0x03 == 0
    ensures JoinBytes(S0(b0), S1(b0, 0), 0, 0)[0] == b0
    ensures JoinBytes(S0(b0), S1(b0, b1), S2(b1, 0), 0)[..2] == [b0, b1]
  {
  }

  lemma BitsJoin(s0: bv8, s1: bv8, s2: bv8, s3: bv8)
    requires Sextet(s0) && Sextet(s1) && Sextet(s2) && Sextet(s3)
    ensures var b := JoinBytes(s0, s1, s2, s3);
      S0(b[0]) == s0 && S1(b[0], b[1]) == s1 && S2(b[1], b[2]) == s2 && S3(b[2]) == s3
  {
    FirstBits(s0, s1, s2);
    LastBits(s1, s2, s3);
    hide S0, S1, S2, S3;
  }

  lemma FirstBits(s0: bv8, s1: bv8, s2: bv8)
    requires Sextet(s0) && Sextet(s1) && Sextet(s2)
    ensures var b0, b1 := (s0 << 2) | (s1 >> 4), (s1 << 4) | (s2 >> 2);
      S0(b0) == s0 && S1(b0, b1) == s1
  {
  }

  lemma LastBits(s1: bv8, s2: bv8, s3: bv8)
    requires Sextet(s1) && Sextet(s2) && Sextet(s3)
    ensures var b1, b2 := (s1 << 4) | (s2 >> 2), (s2 << 6) | s3;
      S2(b1, b2) == s2 && S3(b2) == s3
  {
  }

  lemma PaddedBits(s0: bv8, s1: bv8, s2: bv8)
    requires Sextet(s0) && Sextet(s1) && Sextet(s2)
    ensures s1 & 0x0F == 0 ==> S1((s0 << 2) | (s1 >> 4), 0) == s1
    ensures s2 & 0x03 == 0 ==> S2((s1 << 4) | (s2 >> 2), 0) == s2
  {
  }

  lemma GroupRoundTrip(g: Bytes)
    requires 1 <= |g| <= 3
    ensures DecodedGroup(EncodedGroup(g)) == Some(g)
  {
    hide S0, S1, S2, S3, CharOf, ValueOf, Sextet, JoinBytes;
    var b0 := g[0];
    var b1 := if |g| > 1 then g[1] else 0;
    var b2 := if |g| > 2 then g[2] else 0;
    SextetsAreSmall(b0, b1, b2);
    BitsSplit(b0, b1, b2);
    PadHasNoValue();
    ValueOfCharOf(S0(b0));
    ValueOfCharOf(S1(b0, b1));
    ValueOfCharOf(S2(b1, b2));
    ValueOfCharOf(S3(b2));
    if |g| == 1 {
      assert JoinBytes(S0(b0), S1(b0, 0), 0, 0)[..1] == [b0] == g;
    } else if |g| == 2 {
      assert g == [b0, b1];
    } else {
      assert g == [b0, b1, b2];
    }
  }

  lemma OneByteDecodes(s: string)
    requires |s| == 4 && ValueOf(s[0]).Some? && ValueOf(s[1]).Some? && s[2..] == "=="
    requires ValueOf(s[1]).value & 0x0F == 0
    ensures EncodedGroup(JoinBytes(ValueOf(s[0]).value, ValueOf(s[1]).value, 0, 0)[..1]) == s
  {
    hide S0, S1, S2, S3, CharOf, ValueOf, Sextet;
    ZeroIsSextet();
    CharOfValueOf(s[0]);
    CharOfValueOf(s[1]);
    BitsJoin(ValueOf(s[0]).value, ValueOf(s[1]).value, 0, 0);
    PaddedBits(ValueOf(s[0]).value, ValueOf(s[1]).value, 0);
    assert s == [s[0], s[1]] + s[2..];
  }

  lemma TwoBytesDecode(s: string)
    requires |s| == 4 && (forall i :: 0 <= i < 3 ==> ValueOf(s[i]).Some?) && s[3] == '='
    requires ValueOf(s[2]).value & 0x03 == 0
    ensures EncodedGroup(JoinBytes(ValueOf(s[0]).value, ValueOf(s[1]).value, ValueOf(s[2]).value, 0)[..2]) == s
  {
    hide S0, S1, S2, S3, CharOf, ValueOf, Sextet;
    ZeroIsSextet();
    CharOfValueOf(s[0]);
    CharOfValueOf(s[1]);
    CharOfValueOf(s[2]);
    BitsJoin(ValueOf(s[0]).value, ValueOf(s[1]).value, ValueOf(s[2]).value, 0);
    PaddedBits(ValueOf(s[0]).value, ValueOf(s[1]).value, ValueOf(s[2]).value);
    assert s == [s[0], s[1], s[2], s[3]];
  }

  lemma ThreeBytesDecode(s: string)
    requires |s| == 4 && (forall i :: 0 <= i < 4 ==> ValueOf(s[i]).Some?)
    ensures EncodedGroup(JoinBytes(ValueOf(s[0]).value, ValueOf(s[1]).value, ValueOf(s[2]).value, ValueOf(s[3]).value)) == s
  {
    hide S0, S1, S2, S3, CharOf, ValueOf, Sextet, JoinBytes;
    CharOfValueOf(s[0]);
    CharOfValueOf(s[1]);
    CharOfValueOf(s[2]);
    CharOfValueOf(s[3]);
    BitsJoin(ValueOf(s[0]).value, ValueOf(s[1]).value, ValueOf(s[2]).value, ValueOf(s[3]).value);
    assert s == [s[0], s[1], s[2], s[3]];
  }

  lemma GroupDecodes(s: string)
    requires |s| == 4 && DecodedGroup(s).Some?
    ensures 1 <= |DecodedGroup(s).value| <= 3 && EncodedGroup(DecodedGroup(s).value) == s
  {
    hide ValueOf, EncodedGroup, JoinBytes;
    PadHasNoValue();
    if s[2] == '=' {
      OneByteDecodes(s);
    } else if s[3] == '=' {
      TwoBytesDecode(s);
    } else {
      ThreeBytesDecode(s);
    }
  }

  lemma ZeroIsSextet()
    ensures Sextet(0)
  {
  }

  /** Decoding is exactly the inverse of encoding: a string decodes to x when it is the encoding
      of x and only then. In particular Decoded(Encoded(x)) is x for every byte string. */
  lemma {:induction false} DecodesExactlyItsEncodings(s: string, x: Bytes)
    ensures Decoded(s) == Some(x) <==> s == Encoded(x)
  {
    EncodedDecodes(x);
    if Decoded(s) == Some(x) {
      DecodedEncodes(s);
    }
  }

  lemma {:induction false} EncodedDecodes(x: Bytes)
    ensures Decoded(Encoded(x)) == Some(x)
  {
    if |x| == 0 {
    } else if |x| <= 3 {
      GroupRoundTrip(x);
      assert EncodedGroup(x)[..4] == EncodedGroup(x);
    } else {
      var s, rest := Encoded(x), Encoded(x[3..]);
      GroupRoundTrip(x[..3]);
      EncodedDecodes(x[3..]);
      EncodedShape(x[3..]);
      assert s[..4] == EncodedGroup(x[..3]) && s[4..] == rest;
      assert x == x[..3] + x[3..];
      hide EncodedGroup, DecodedGroup;
    }
  }

  lemma {:induction false} DecodedEncodes(s: string)
    requires Decoded(s).Some?
    ensures Encoded(Decoded(s).value) == s
  {
    if s != "" {
      var g := DecodedGroup(s[..4]).value;
      GroupDecodes(s[..4]);
      if |s| == 4 {
        assert s[..4] == s;
      } else {
        var rest := Decoded(s[4..]).value;
        DecodedEncodes(s[4..]);
        EncodedShape(rest);
        var x := g + rest;
        assert x[..3] == g && x[3..] == rest && |x| > 3;
        assert s == s[..4] + s[4..];
        hide EncodedGroup, DecodedGroup;
      }
    }
  }

  lemma GroupShape(g: Bytes)
    requires 1 <= |g| <= 3
    ensures var s := EncodedGroup(g);
      s[0] != '=' && s[1] != '=' && (s[2] == '=' <==> |g| == 1) && (s[3] == '=' <==> |g| < 3)
  {
    hide S0, S1, S2, S3, CharOf, ValueOf, Sextet;
    var b1 := if |g| > 1 then g[1] else 0;
    var b2 := if |g| > 2 then g[2] else 0;
    SextetsAreSmall(g[0], b1, b2);
    ValueOfCharOf(S0(g[0]));
    ValueOfCharOf(S1(g[0], b1));
    ValueOfCharOf(S2(b1, b2));
    ValueOfCharOf(S3(b2));
  }

  /** How many '=' signs the encoding of n bytes ends with. */
  function Padding(n: nat): nat { if n % 3 == 0 then 0 else 3 - n % 3 }

  /** Four characters for every started group of three bytes, with one or two '=' signs at the end
      when the last group is short, and none anywhere else. */
  lemma {:induction false} EncodedShape(x: Bytes)
    ensures |Encoded(x)| == 4 * ((|x| + 2) / 3)
    ensures forall i :: 0 <= i < |Encoded(x)| ==> (Encoded(x)[i] == '=' <==> i >= |Encoded(x)| - Padding(|x|))
  {
    if |x| > 0 {
      GroupShape(if |x| <= 3 then x else x[..3]);
      hide EncodedGroup;
      if |x| > 3 {
        EncodedShape(x[3..]);
        assert Padding(|x|) == Padding(|x| - 3);
      }
    }
  }

  lemma EncodedTwentyBytes(x: Bytes)
    requires |x| == 20
    ensures |Encoded(x)| == 28 && forall i :: 0 <= i < 28 ==> (Encoded(x)[i] == '=' <==> i == 27)
  {
    hide Encoded;
    EncodedShape(x);
  }
}

/** compute_accept_key of src/main.rs: the Sec-WebSocket-Accept value of RFC 6455, section 4.2.2. */
module AcceptKey {
  import opened Prelude
  import Sha1
  import Base64

  /** The protocol's GUID, 258EAFA5-E914-47DA-95CA-C5AB0DC85B11, eight characters to a piece. */
  const MAGIC: string := "258EAFA5" + "-E914-47" + "DA-95CA-" + "C5AB0DC8" + "5B11"

  /** The bytes of a string of ASCII characters. */
  function Ascii(s: string): seq<bv8>
    requires forall i :: 0 <= i < |s| ==> s[i] < '\U{80}'
  {
    seq(|s|, i requires 0 <= i < |s| => (s[i] as int) as bv8)
  }

  /** What is hashed: the client's key followed by the protocol's GUID. */
  function Keyed(key: seq<bv8>): seq<bv8> { key + Ascii(MAGIC) }

  function AcceptKey(key: seq<bv8>): string { Base64.Encoded(Sha1.Digest(Keyed(key))) }

  method ComputeAcceptKey(key: seq<bv8>) returns (accept: string)
    ensures accept == AcceptKey(key)
  {
    hide Sha1.Digest, Base64.Encoded, Sha1.ToRegs;
    var hasher := new Sha1.Sha1();
    hasher.Update(key);
    hasher.Update(Ascii(MAGIC));
    var hash := hasher.Finalize();
    assert [] + key + Ascii(MAGIC) == Keyed(key);
    accept := Base64.Base64Encode(hash);
  }

  lemma EncodedDigest(digest: seq<bv8>)
    requires |digest| == 20
    ensures var s := Base64.Encoded(digest);
      && |s| == 28
      && (forall i :: 0 <= i < 28 ==> (s[i] == '=' <==> i == 27))
      && Base64.Decoded(s) == Some(digest)
  {
    Base64.EncodedTwentyBytes(digest);
    Base64.EncodedDecodes(digest);
    hide *;
  }

  /** The value has 28 characters, ends in exactly one '=', and the digest can be read back from it. */
  lemma AcceptKeyShape(key: seq<bv8>)
    ensures var accept := AcceptKey(key);
      && |accept| == 28
      && (forall i :: 0 <= i < 28 ==> (accept[i] == '=' <==> i == 27))
      && Base64.Decoded(accept) == Some(Sha1.Digest(Keyed(key)))
  {
    hide Base64.Encoded, Base64.Decoded, Sha1.Digest, Keyed;
    EncodedDigest(Sha1.Digest(Keyed(key)));
  }
}

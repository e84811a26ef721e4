/** The short-code derivation of `generateshorturl`: hash the URL's bytes with
    MD5, hex-encode the 16-byte digest and keep the first 8 digits.

    MD5 (RFC 1321) itself is not modelled: the hash is a parameter of type
    `Digester`, any deterministic function from a byte string to 16 bytes.
    Everything proved here holds for every such function, MD5 among them. */
module Codec {
  import opened Bytes
  import Hex

  type Digest = d: seq<byte> | |d| == 16 witness seq(16, _ => 0 as byte)

  type Digester = GoString -> Digest

  /** Length of a short code: `hash[:8]`. */
  const CodeLength: int := 8

  /** What every short code looks like: eight lower-case hexadecimal digits. */
  predicate IsShortCode(s: GoString) {
    |s| == CodeLength && Hex.IsLowerHex(s)
  }

  /** `generateshorturl`: eight lower-case hex digits cut from the encoded digest. */
  function ShortCode(md5: Digester, url: GoString): (code: GoString)
    ensures IsShortCode(code)
  {
    var hash := Hex.Encode(md5(url));
    hash[..CodeLength]
  }

  /** Cutting the encoded digest to 8 digits keeps exactly the first four
      digest bytes: the code is their encoding. */
  lemma ShortCodeEncodesDigestPrefix(md5: Digester, url: GoString)
    ensures ShortCode(md5, url) == Hex.Encode(md5(url)[..4])
  {
    Hex.EncodePrefix(md5(url), 4);
  }

  /** Two URLs get the same code exactly when their digests agree on the first
      four bytes: the truncation to 32 bits is the only source of collisions. */
  lemma SameCodeIffSameDigestPrefix(md5: Digester, u1: GoString, u2: GoString)
    ensures ShortCode(md5, u1) == ShortCode(md5, u2) <==> md5(u1)[..4] == md5(u2)[..4]
  {
    ShortCodeEncodesDigestPrefix(md5, u1);
    ShortCodeEncodesDigestPrefix(md5, u2);
    Hex.EncodeInjective(md5(u1)[..4], md5(u2)[..4]);
  }

  /** The code can be decoded back to the four digest bytes it was cut from. */
  lemma ShortCodeDecodes(md5: Digester, url: GoString)
    ensures Hex.Decode(ShortCode(md5, url)) == md5(url)[..4]
  {
    ShortCodeEncodesDigestPrefix(md5, url);
    Hex.DecodeEncode(md5(url)[..4]);
  }
}

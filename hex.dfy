/** Go's `hex.EncodeToString`: every byte becomes two lower-case hexadecimal
    digits taken from the table "0123456789abcdef", high nibble first. `Decode`
    is its inverse on such strings; it is here to state that encoding loses
    nothing, which is what makes two short codes equal exactly when the digest
    bytes they came from are equal. */
module Hex {
  import opened Bytes

  /** The sixteen digits the encoder emits: '0'-'9' (0x30-0x39) and 'a'-'f' (0x61-0x66). */
  predicate IsLowerHexDigit(c: byte) {
    (0x30 <= c <= 0x39) || (0x61 <= c <= 0x66)
  }

  predicate IsLowerHex(s: GoString) {
    forall i :: 0 <= i < |s| ==> IsLowerHexDigit(s[i])
  }

  /** Entry `n` of the table "0123456789abcdef". */
  function Digit(n: int): (c: byte)
    requires 0 <= n < 16
    ensures IsLowerHexDigit(c)
  {
    if n < 10 then (0x30 + n) as byte else (0x61 + n - 10) as byte
  }

  /** The position of a digit in the table. */
  function Value(c: byte): (n: int)
    requires IsLowerHexDigit(c)
    ensures 0 <= n < 16
    ensures Digit(n) == c
  {
    if c <= 0x39 then c as int - 0x30 else c as int - 0x61 + 10
  }

  lemma ValueOfDigit(n: int)
    requires 0 <= n < 16
    ensures Value(Digit(n)) == n
  {
  }

  /** The table is the one Go's encoder uses. */
  lemma DigitTable(n: int)
    requires 0 <= n < 16
    ensures Digit(n) == Ascii("0123456789abcdef")[n]
  {
  }

  function Encode(bs: seq<byte>): (s: GoString)
    ensures |s| == 2 * |bs|
    ensures IsLowerHex(s)
  {
    if bs == [] then []
    else [Digit(bs[0] as int / 16), Digit(bs[0] as int % 16)] + Encode(bs[1..])
  }

  /** Byte `i` of the input is written at positions `2i` (high nibble) and `2i+1` (low nibble). */
  lemma {:induction false} EncodeAt(bs: seq<byte>, i: int)
    requires 0 <= i < |bs|
    ensures Encode(bs)[2 * i] == Digit(bs[i] as int / 16)
    ensures Encode(bs)[2 * i + 1] == Digit(bs[i] as int % 16)
  {
    if i > 0 {
      EncodeAt(bs[1..], i - 1);
    }
  }

  /** The first `2k` digits are the encoding of the first `k` bytes. */
  lemma {:induction false} EncodePrefix(bs: seq<byte>, k: int)
    requires 0 <= k <= |bs|
    ensures Encode(bs)[..2 * k] == Encode(bs[..k])
  {
    if k > 0 {
      EncodePrefix(bs[1..], k - 1);
      assert bs[..k][1..] == bs[1..][..k - 1];
    }
  }

  function Decode(s: GoString): (bs: seq<byte>)
    requires |s| % 2 == 0
    requires IsLowerHex(s)
    ensures |bs| == |s| / 2
  {
    if s == [] then []
    else [(Value(s[0]) * 16 + Value(s[1])) as byte] + Decode(s[2..])
  }

  lemma {:induction false} DecodeEncode(bs: seq<byte>)
    ensures Decode(Encode(bs)) == bs
  {
    if bs != [] {
      var s := Encode(bs);
      assert s[2..] == Encode(bs[1..]);
      ValueOfDigit(bs[0] as int / 16);
      ValueOfDigit(bs[0] as int % 16);
      DecodeEncode(bs[1..]);
    }
  }

  lemma EncodeInjective(a: seq<byte>, b: seq<byte>)
    ensures Encode(a) == Encode(b) <==> a == b
  {
    if Encode(a) == Encode(b) {
      DecodeEncode(a);
      DecodeEncode(b);
    }
  }
}

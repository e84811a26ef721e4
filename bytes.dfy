/** Go strings are immutable byte sequences, and `[]byte(s)` hands back those
    same bytes. This module gives the byte type the rest of the model uses for
    every Go string, and a way to write ASCII literals such as "/redirect/". */
module Bytes {

  newtype byte = x: int | 0 <= x < 256

  /** A Go string: the bytes it holds, with no encoding assumed. */
  type GoString = seq<byte>

  predicate IsAscii(s: string) {
    forall i :: 0 <= i < |s| ==> s[i] as int < 128
  }

  /** The bytes of an ASCII literal, one byte per character. */
  function Ascii(s: string): GoString
    requires IsAscii(s)
  {
    seq(|s|, i requires 0 <= i < |s| => s[i] as int as byte)
  }
}

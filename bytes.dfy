/** Bytes and their hexadecimal spelling, as Node's `Buffer.toString('hex')` writes them. */
module Bytes {

  newtype byte = x: int | 0 <= x < 256

  predicate IsLowerHexDigit(c: char) {
    ('0' <= c <= '9') || ('a' <= c <= 'f')
  }

  function LowerHexDigit(d: nat): (c: char)
    requires d < 16
    ensures IsLowerHexDigit(c)
  {
    if d < 10 then '0' + d as char else 'a' + (d - 10) as char
  }

  /** `Buffer.from(bytes).toString('hex')`: two lower-case digits per byte, high nibble first. */
  function LowerHex(bs: seq<byte>): (s: string)
    ensures |s| == 2 * |bs|
    ensures forall k :: 0 <= k < |s| ==> IsLowerHexDigit(s[k])
  {
    if |bs| == 0 then ""
    else [LowerHexDigit(bs[0] as nat / 16), LowerHexDigit(bs[0] as nat % 16)] + LowerHex(bs[1..])
  }
}

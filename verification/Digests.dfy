/** Byte strings and the hexadecimal digests that name them. */
module Digests {
  type Byte = b: int | 0 <= b < 256
  type Bytes = seq<Byte>

  predicate IsHex(c: char) {
    '0' <= c <= '9' || 'a' <= c <= 'f' || 'A' <= c <= 'F'
  }

  /** 64 hexadecimal digits of either case. */
  predicate IsDigest(s: string) {
    |s| == 64 && forall i | 0 <= i < |s| :: IsHex(s[i])
  }
}

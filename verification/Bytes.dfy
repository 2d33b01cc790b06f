/** Bytes, as recv delivers them and as the C strings of this repository hold them. */
module Bytes {
  type byte = b: int | 0 <= b < 256

  lemma Associative(a: seq<byte>, b: seq<byte>, c: seq<byte>)
    ensures (a + b) + c == a + (b + c)
  {
  }
}

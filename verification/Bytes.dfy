/** Bytes as the buffers of the source hold them, and as digits of base 256. */
module Bytes {
  import Digits

  type Byte = b: int | 0 <= b < 256

  function AsNats(bytes: seq<Byte>): (ns: seq<nat>)
    ensures |ns| == |bytes| && Digits.AllBelow(256, ns)
    ensures forall i | 0 <= i < |bytes| :: ns[i] == bytes[i]
  {
    seq(|bytes|, i requires 0 <= i < |bytes| => bytes[i])
  }

  function AsBytes(ns: seq<nat>): (bytes: seq<Byte>)
    requires Digits.AllBelow(256, ns)
    ensures |bytes| == |ns| && forall i | 0 <= i < |ns| :: bytes[i] == ns[i]
  {
    seq(|ns|, i requires 0 <= i < |ns| => ns[i] as Byte)
  }
}

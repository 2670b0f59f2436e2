/**
  The CREATE address preimage RLP([sender, nonce]), written once by the local verifier and once by
  the deployment planner, and a decoder for it after Appendix B of the Ethereum Yellow Paper.
*/
module Rlp {
  import opened Bytes
  import opened Wrappers
  import opened Hex
  import Digits

  datatype CreateError = SenderInvalid | NonceInvalid | PayloadTooLong

  predicate CanonicalAddress(s: string) {
    |s| == 42 && s[..2] == "0x" && IsHex(s[2..])
  }

  /** The bytes both encoders read out of the hexadecimal text of a nonce. */
  function NonceBytes(nonce: nat): (bytes: seq<Byte>)
    ensures |bytes| == |EvenNibbles(nonce)| / 2
  {
    AsBytes(Paired(EvenNibbles(nonce)))
  }

  // ------------------------------------------------------ tooling/local-evm/create-address.ts

  function EncodeNonceScalar(nonce: nat): seq<int> {
    if nonce == 0 then [0x80]
    else if nonce <= 0x7f then [nonce]
    else [0x80 + |NonceBytes(nonce)|] + NonceBytes(nonce)
  }

  function EncodeCreateAddressPreimage(sender: string, nonce: int): Result<seq<int>, CreateError> {
    if !CanonicalAddress(sender) then Err(SenderInvalid)
    else if nonce < 0 || nonce > Digits.UINT256_MAX then Err(NonceInvalid)
    else
      var senderItem: seq<int> := [0x94] + BytesOf(sender[2..]);
      var payload := senderItem + EncodeNonceScalar(nonce);
      if |payload| > 55 then Err(PayloadTooLong) else Ok([0xc0 + |payload|] + payload)
  }

  // ----------------------------------------- tooling/deployment-plan/src/domain/identity.ts

  function EncodeRlpNonce(nonce: nat): seq<int> {
    if nonce == 0 then [0x80]
    else
      var bytes := NonceBytes(nonce);
      if |bytes| == 1 && bytes[0] < 0x80 then bytes else [0x80 + |bytes|] + bytes
  }

  function CreatePreimage(sender: string, nonce: int): Result<seq<int>, CreateError> {
    if !CanonicalAddress(sender) then Err(SenderInvalid)
    else if nonce < 0 || nonce >= Digits.UINT256_MAX + 1 then Err(NonceInvalid)
    else
      var senderBytes: seq<int> := BytesOf(sender[2..]);
      var payload := [0x80 + |senderBytes|] + senderBytes + EncodeRlpNonce(nonce);
      Ok([0xc0 + |payload|] + payload)
  }

  /** The last 40 characters of the hash text; Keccak-256 itself is a parameter. */
  function DeriveCreateAddress(keccak: seq<int> -> string, sender: string, nonce: int): Result<string, CreateError> {
    var preimage :- CreatePreimage(sender, nonce);
    var hash := keccak(preimage);
    Ok("0x" + if |hash| > 40 then hash[|hash| - 40..] else hash)
  }

  // ------------------------------------------------------------------- reference decoder

  /** One string item: a single byte below 0x80 stands for itself, a short string carries its length. */
  function DecodeItem(bs: seq<int>): Option<(seq<int>, seq<int>)> {
    if bs == [] then None
    else if 0 <= bs[0] < 0x80 then Some((bs[..1], bs[1..]))
    else if 0x80 <= bs[0] <= 0xb7 && |bs| - 1 >= bs[0] - 0x80 then
      Some((bs[1..1 + bs[0] - 0x80], bs[1 + bs[0] - 0x80..]))
    else None
  }

  function BigEndian(bs: seq<int>): int {
    if bs == [] then 0 else BigEndian(bs[..|bs| - 1]) * 256 + bs[|bs| - 1]
  }

  /** A short list of exactly two items, a 20-byte string and a scalar without leading zeros. */
  function DecodeCreate(bs: seq<int>): Option<(seq<int>, int)> {
    if bs == [] || !(0xc0 <= bs[0] <= 0xf7) || |bs| - 1 != bs[0] - 0xc0 then None
    else
      var first := DecodeItem(bs[1..]);
      if first.None? || |first.value.0| != 20 then None
      else
        var second := DecodeItem(first.value.1);
        if second.None? || second.value.1 != [] || (second.value.0 != [] && second.value.0[0] == 0) then None
        else Some((first.value.0, BigEndian(second.value.0)))
  }

  // ------------------------------------------------------------------------------ results

  lemma {:induction false} NonceBytesAreMinimal(nonce: nat)
    ensures NonceBytes(nonce) == AsBytes(Digits.Of(256, nonce))
    ensures NonceBytes(nonce) != [] ==> NonceBytes(nonce)[0] != 0
    ensures nonce <= Digits.UINT256_MAX ==> |NonceBytes(nonce)| <= 32
    ensures 0 < nonce < 256 <==> |NonceBytes(nonce)| == 1
    ensures 0 < nonce < 256 ==> NonceBytes(nonce)[0] == nonce
  {
    HexRouteIsMinimalBytes(nonce);
    Digits.Uint256Powers();
    Digits.LengthBound(256, nonce, 32);
    Digits.LengthBound(256, nonce, 1);
    assert Digits.Pow(256, 1) == 256;
    if 0 < nonce < 256 {
      assert Digits.Of(256, nonce) == Digits.Of(256, 0) + [nonce];
    }
  }

  lemma {:induction false} BigEndianIsValue(ns: seq<nat>)
    requires Digits.AllBelow(256, ns)
    ensures BigEndian(AsBytes(ns)) == Digits.Value(256, ns)
  {
    if ns != [] {
      BigEndianIsValue(ns[..|ns| - 1]);
      assert AsBytes(ns)[..|ns| - 1] == AsBytes(ns[..|ns| - 1]);
    }
  }

  lemma ScalarsAgree(nonce: nat)
    requires nonce <= Digits.UINT256_MAX
    ensures EncodeNonceScalar(nonce) == EncodeRlpNonce(nonce)
    ensures EncodeRlpNonce(nonce) == if nonce == 0 then [0x80] else if nonce < 0x80 then [nonce]
                                     else [0x80 + |NonceBytes(nonce)|] + NonceBytes(nonce)
    ensures 1 <= |EncodeRlpNonce(nonce)| <= 33
  {
    NonceBytesAreMinimal(nonce);
    if 0 < nonce < 0x80 {
      assert NonceBytes(nonce) == [nonce];
    }
  }

  lemma NonceBytesValue(nonce: nat)
    ensures BigEndian(NonceBytes(nonce)) == nonce
  {
    NonceBytesAreMinimal(nonce);
    BigEndianIsValue(Digits.Of(256, nonce));
    Digits.ValueOfDigits(256, nonce);
  }

  lemma ShortStringDecodes(bytes: seq<int>)
    requires |bytes| <= 55
    ensures DecodeItem([0x80 + |bytes|] + bytes) == Some((bytes, []))
  {
    var e: seq<int> := [0x80 + |bytes|] + bytes;
    assert e[1..1 + |bytes|] == bytes && e[1 + |bytes|..] == [];
  }

  predicate DecodesToScalar(encoded: seq<int>, nonce: int) {
    var item := DecodeItem(encoded);
    && item.Some? && item.value.1 == [] && BigEndian(item.value.0) == nonce
    && (item.value.0 != [] ==> item.value.0[0] != 0)
  }

  lemma LongScalarDecodes(nonce: nat, bytes: seq<int>)
    requires 0x80 <= nonce <= Digits.UINT256_MAX && bytes == NonceBytes(nonce)
    ensures DecodesToScalar([0x80 + |bytes|] + bytes, nonce)
  {
    NonceBytesAreMinimal(nonce);
    NonceBytesValue(nonce);
    ShortStringDecodes(bytes);
  }

  lemma ShortScalarDecodes(nonce: nat)
    requires nonce < 0x80
    ensures DecodesToScalar(if nonce == 0 then [0x80] else [nonce], nonce)
  {
    if nonce == 0 {
      ShortStringDecodes([]);
      assert [0x80 + 0] + [] == [0x80];
    } else {
      var e: seq<int> := [nonce];
      assert e[..1] == e && e[1..] == [] && e[..|e| - 1] == [];
    }
  }

  /** The scalar either encoder writes decodes to the nonce. */
  lemma ScalarRoundTrip(nonce: nat)
    requires nonce <= Digits.UINT256_MAX
    ensures DecodesToScalar(EncodeRlpNonce(nonce), nonce)
  {
    ScalarsAgree(nonce);
    if nonce >= 0x80 {
      LongScalarDecodes(nonce, NonceBytes(nonce));
    } else {
      ShortScalarDecodes(nonce);
    }
  }

  /**
    The two encoders accept the same senders and nonces and write the same bytes. The payload is at
    most 54 bytes long, so the guard of the first never fires, and the decoder gives back sender and
    nonce from the result.
  */
  lemma PreimageRoundTrip(sender: string, nonce: int)
    ensures EncodeCreateAddressPreimage(sender, nonce) == CreatePreimage(sender, nonce)
    ensures CreatePreimage(sender, nonce).Ok? <==> CanonicalAddress(sender) && 0 <= nonce <= Digits.UINT256_MAX
    ensures CreatePreimage(sender, nonce).Ok? ==>
              var encoded := CreatePreimage(sender, nonce).value;
              |encoded| <= 1 + 54 && DecodeCreate(encoded) == Some((BytesOf(sender[2..]), nonce))
  {
    if CanonicalAddress(sender) && 0 <= nonce <= Digits.UINT256_MAX {
      ScalarsAgree(nonce);
      ScalarRoundTrip(nonce);
      var address: seq<int> := BytesOf(sender[2..]);
      var scalar := EncodeRlpNonce(nonce);
      var payload := [0x94] + address + scalar;
      assert |payload| == 21 + |scalar|;
      var encoded := [0xc0 + |payload|] + payload;
      assert CreatePreimage(sender, nonce) == Ok(encoded);
      assert encoded[1..] == payload;
      assert payload[1..21] == address && payload[21..] == scalar;
      assert DecodeItem(payload) == Some((address, scalar));
    }
  }

  /** Different (sender, nonce) pairs never share a preimage. */
  lemma PreimageInjective(sender: string, nonce: int, sender': string, nonce': int)
    requires CreatePreimage(sender, nonce).Ok? && CreatePreimage(sender, nonce) == CreatePreimage(sender', nonce')
    ensures sender == sender' && nonce == nonce'
  {
    PreimageRoundTrip(sender, nonce);
    PreimageRoundTrip(sender', nonce');
    BytesOfInjective(sender[2..], sender'[2..]);
    assert sender == sender[..2] + sender[2..] && sender' == sender'[..2] + sender'[2..];
  }
}

/**
  The two signatures in front of a compiled message, and a reader of the whole transaction. Signing is
  a parameter: `sign(key, text)` is the signature of the key pair whose public key is `key`.
*/
module SignedTransaction {
  import opened AccountKeys
  import opened Bytes
  import opened Sequences
  import opened TokenTransaction
  import opened Wrappers

  const SIGNATURE_BYTES := 64

  type Sign = (Key, seq<Byte>) -> seq<Byte>

  ghost predicate SignsInto64(sign: Sign) {
    forall key, text :: |sign(key, text)| == SIGNATURE_BYTES
  }

  /** A signature tells whose it is. */
  ghost predicate Distinguishes(sign: Sign) {
    forall key, other, text :: sign(key, text) == sign(other, text) ==> key == other
  }

  /** The end of `signedTokenTransaction`: payer and authority sign the message, whoever they are. */
  function Signed(sign: Sign, payer: Key, authority: Key, message: seq<Byte>): seq<Byte> {
    var signatures := [sign(payer, message), sign(authority, message)];
    Concat([ShortVec(|signatures|)] + signatures + [message])
  }

  function TakeSignatures(n: nat, t: seq<Byte>): Option<(seq<seq<Byte>>, seq<Byte>)> {
    if n == 0 then Some(([], t))
    else if |t| < SIGNATURE_BYTES then None
    else
      var rest := TakeSignatures(n - 1, t[SIGNATURE_BYTES..]);
      if rest.None? then None else Some(([t[..SIGNATURE_BYTES]] + rest.value.0, rest.value.1))
  }

  /** The signatures, as many as are announced, and the text they sign. */
  function ReadTransaction(t: seq<Byte>): Option<(seq<seq<Byte>>, seq<Byte>)> {
    var count := ReadShortVec(t);
    if count.None? then None else TakeSignatures(count.value.0, count.value.1)
  }

  lemma SignedText(sign: Sign, payer: Key, authority: Key, message: seq<Byte>)
    ensures Signed(sign, payer, authority, message)
         == ShortVec(2) + (sign(payer, message) + (sign(authority, message) + message))
  {
    var first, second := sign(payer, message), sign(authority, message);
    ConcatTwo(second, message);
    ConcatCons(first, [second, message]);
    ConcatCons(ShortVec(2), [first, second, message]);
    assert [ShortVec(2)] + [first, second] + [message] == [ShortVec(2)] + [first, second, message];
    assert [first] + [second, message] == [first, second, message];
  }

  lemma OneSignature(n: nat, signature: seq<Byte>, t: seq<Byte>)
    requires |signature| == SIGNATURE_BYTES && TakeSignatures(n, t).Some?
    ensures TakeSignatures(n + 1, signature + t)
         == Some(([signature] + TakeSignatures(n, t).value.0, TakeSignatures(n, t).value.1))
  {
    assert (signature + t)[..SIGNATURE_BYTES] == signature && (signature + t)[SIGNATURE_BYTES..] == t;
  }

  /** The transaction always carries two signatures, and reads back as these two and the message. */
  lemma SignedReads(sign: Sign, payer: Key, authority: Key, message: seq<Byte>)
    requires SignsInto64(sign)
    ensures ReadTransaction(Signed(sign, payer, authority, message))
         == Some(([sign(payer, message), sign(authority, message)], message))
  {
    var first, second := sign(payer, message), sign(authority, message);
    SignedText(sign, payer, authority, message);
    ShortVecRoundTrip(2, first + (second + message));
    OneSignature(0, second, message);
    OneSignature(1, first, second + message);
    AppendEmpty([second]);
    assert [first] + [second] == [first, second];
  }

  /**
    Read back from the wire, signature 0 is that of the first key. Signature 1 is that of the second
    key, and there are as many signatures as the message requires, each exactly when payer and
    authority differ.
  */
  lemma SignaturesMatchKeys(sign: Sign, payer: Key, authority: Key, instruction: Instruction, program: Key, blockhash: Key)
    requires SignsInto64(sign) && Distinguishes(sign)
    requires |instruction.accounts| == |instruction.readonlyFlags|
    ensures
      var compiled := CompileMessage(payer, authority, instruction, program, blockhash);
      && compiled.Ok?
      && var m := compiled.value;
      && var read := ReadTransaction(Signed(sign, payer, authority, Serialize(m)));
      && read.Some?
      && var (signatures, text) := read.value;
      && text == Serialize(m)
      && |signatures| == 2 && m.keys != [] && signatures[0] == sign(m.keys[0], text)
      && (|m.keys| > 1 && signatures[1] == sign(m.keys[1], text) <==> payer != authority)
      && (|signatures| == m.requiredSignatures <==> payer != authority)
  {
    TransactionLayout(payer, authority, instruction, program, blockhash);
    TransactionCompiles(payer, authority, instruction, program);
    var m := CompileMessage(payer, authority, instruction, program, blockhash).value;
    SignedReads(sign, payer, authority, Serialize(m));
    if |m.keys| > 1 {
      assert m.keys[0] != m.keys[1];
    }
  }

  /** And what they sign reads back as the message, where the wire format has room for it. */
  lemma SignedMessageReads(sign: Sign, payer: Key, authority: Key, m: Message)
    requires SignsInto64(sign) && FitsBytes(m)
    ensures ReadTransaction(Signed(sign, payer, authority, Serialize(m))).Some?
    ensures ReadMessage(ReadTransaction(Signed(sign, payer, authority, Serialize(m))).value.1) == Some(m)
  {
    SignedReads(sign, payer, authority, Serialize(m));
    MessageRoundTrip(m);
  }
}

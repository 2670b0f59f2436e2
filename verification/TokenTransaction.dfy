/** The message of the token transaction, compiled around one instruction, and a reader of its wire format. */
module TokenTransaction {
  import opened AccountKeys
  import opened Bytes
  import opened Sequences
  import opened Wrappers

  // ------------------------------------------------------------------ compact lengths

  function ShortVec(n: nat): seq<Byte> {
    if n < 128 then [n] else [128 + n % 128] + ShortVec(n / 128)
  }

  /** `shortVec`; the shift works on 32 bits, so a larger value would lose its upper part. */
  method EncodeShortVec(value: nat) returns (bytes: seq<Byte>)
    ensures bytes == ShortVec(value % 0x1_0000_0000)
  {
    bytes := [];
    var remaining := value % 0x1_0000_0000;
    ghost var total := remaining;
    var more := true;
    while more
      invariant 0 <= remaining
      invariant if more then bytes + ShortVec(remaining) == ShortVec(total) else bytes == ShortVec(total)
      decreases more, remaining
    {
      var low := remaining % 128;
      ghost var before := remaining;
      remaining := remaining / 128;
      more := remaining > 0;
      if more {
        AppendAssociates(bytes, [128 + low as Byte], ShortVec(remaining));
        bytes := bytes + [128 + low];
      } else {
        assert before < 128;
        bytes := bytes + [low];
      }
    }
  }

  function ReadShortVec(t: seq<Byte>): (r: Option<(nat, seq<Byte>)>)
    ensures r.Some? ==> |r.value.1| < |t|
  {
    if t == [] then None
    else if t[0] < 128 then Some((t[0], t[1..]))
    else
      var upper := ReadShortVec(t[1..]);
      if upper.None? then None else Some((Joined(t[0], upper.value.0), upper.value.1))
  }

  function Joined(low: Byte, upper: nat): nat
    requires low >= 128
  {
    low - 128 + 128 * upper
  }

  lemma {:induction false} ReadLonger(low: nat, t: seq<Byte>, upper: nat, k: seq<Byte>)
    requires low < 128 && ReadShortVec(t) == Some((upper, k))
    ensures ReadShortVec([128 + low] + t) == Some((Joined(128 + low, upper), k))
  {
    assert ([128 + low] + t)[1..] == t;
  }

  lemma {:induction false} ShortVecRoundTrip(n: nat, k: seq<Byte>)
    ensures ReadShortVec(ShortVec(n) + k) == Some((n, k))
  {
    if n < 128 {
      assert ([n] + k)[1..] == k;
    } else {
      ShortVecRoundTrip(n / 128, k);
      ReadLonger(n % 128, ShortVec(n / 128) + k, n / 128, k);
      AppendAssociates([128 + n % 128], ShortVec(n / 128), k);
      assert Joined(128 + n % 128, n / 128) == n;
    }
  }

  // ------------------------------------------------------------------------- message

  datatype Message = Message(
    requiredSignatures: nat,
    readonlySigned: nat,
    readonlyUnsigned: nat,
    keys: seq<Key>,
    blockhash: Key,
    program: nat,
    accounts: seq<nat>,
    data: seq<Byte>)

  datatype Instruction = Instruction(accounts: seq<Key>, readonlyFlags: seq<bool>, data: seq<Byte>)

  datatype TransactionError = TransactionAccounts | Compiling(error: CompileError) | AccountIndex

  function Concat(parts: seq<seq<Byte>>): seq<Byte> {
    if parts == [] then [] else parts[0] + Concat(parts[1..])
  }

  /** `concat`: one buffer, every part copied behind the one before it. */
  method ConcatParts(parts: seq<seq<Byte>>) returns (result: array<Byte>)
    ensures fresh(result) && result[..] == Concat(parts)
  {
    var size := 0;
    for i := 0 to |parts|
      invariant size == |Concat(parts[..i])|
    {
      ConcatPrefix(parts, i);
      size := size + |parts[i]|;
    }
    assert parts[..|parts|] == parts;
    result := new Byte[size](_ => 0);
    var offset := 0;
    for i := 0 to |parts|
      invariant offset == |Concat(parts[..i])| <= size == result.Length
      invariant result[..offset] == Concat(parts[..i])
    {
      ConcatPrefix(parts, i);
      CopyInto(result, offset, parts[i]);
      offset := offset + |parts[i]|;
    }
    assert result[..] == result[..offset];
  }

  method CopyInto(a: array<Byte>, offset: nat, part: seq<Byte>)
    requires offset + |part| <= a.Length
    modifies a
    ensures a[..offset + |part|] == old(a[..offset]) + part
  {
    for j := 0 to |part|
      invariant a[..offset] == old(a[..offset])
      invariant forall k | 0 <= k < j :: a[offset + k] == part[k]
    {
      a[offset + j] := part[j];
    }
  }

  lemma {:induction false} ConcatSplit(a: seq<seq<Byte>>, b: seq<seq<Byte>>)
    ensures Concat(a + b) == Concat(a) + Concat(b)
  {
    if a == [] {
      AppendEmpty(b);
      AppendEmpty(Concat(b));
    } else {
      assert (a + b)[1..] == a[1..] + b;
      ConcatSplit(a[1..], b);
      AppendAssociates(a[0], Concat(a[1..]), Concat(b));
    }
  }

  lemma ConcatPrefix(parts: seq<seq<Byte>>, i: nat)
    requires i < |parts|
    ensures Concat(parts[..i + 1]) == Concat(parts[..i]) + parts[i]
    ensures |Concat(parts[..i + 1])| <= |Concat(parts)|
  {
    TakeSnoc(parts, i);
    ConcatSnoc(parts[..i], parts[i]);
    assert parts == parts[..i + 1] + parts[i + 1..];
    ConcatSplit(parts[..i + 1], parts[i + 1..]);
  }

  lemma {:induction false} ConcatSnoc(a: seq<seq<Byte>>, last: seq<Byte>)
    ensures Concat(a + [last]) == Concat(a) + last
  {
    ConcatSplit(a, [last]);
    assert Concat([last]) == last + Concat([]);
  }

  /** `Uint8Array.from` keeps the low byte of every number. */
  function LowBytes(ns: seq<nat>): (r: seq<Byte>)
    ensures |r| == |ns| && forall i | 0 <= i < |ns| :: r[i] == ns[i] % 256
  {
    seq(|ns|, i requires 0 <= i < |ns| => (ns[i] % 256) as Byte)
  }

  function SerializeInstruction(m: Message): seq<Byte> {
    Concat([LowBytes([m.program]), ShortVec(|m.accounts|), LowBytes(m.accounts), ShortVec(|m.data|), m.data])
  }

  function Serialize(m: Message): seq<Byte> {
    Concat([LowBytes([m.requiredSignatures, m.readonlySigned, m.readonlyUnsigned]), ShortVec(|m.keys|)] + m.keys
           + [m.blockhash, ShortVec(1), SerializeInstruction(m)])
  }

  // -------------------------------------------------------------- reading it back

  function Take(n: nat, t: seq<Byte>): Option<(seq<Byte>, seq<Byte>)> {
    if n <= |t| then Some((t[..n], t[n..])) else None
  }

  function TakeKeys(n: nat, t: seq<Byte>): Option<(seq<Key>, seq<Byte>)> {
    if n == 0 then Some(([], t))
    else if |t| < 32 then None
    else
      var rest := TakeKeys(n - 1, t[32..]);
      if rest.None? then None else Some(([t[..32]] + rest.value.0, rest.value.1))
  }

  function TakeVector(t: seq<Byte>): Option<(seq<Byte>, seq<Byte>)> {
    var length := ReadShortVec(t);
    if length.None? then None else Take(length.value.0, length.value.1)
  }

  /** Two vectors with nothing behind them: the accounts and the data of an instruction. */
  function ReadVectors(t: seq<Byte>): Option<(seq<Byte>, seq<Byte>)> {
    var accounts := TakeVector(t);
    if accounts.None? then None else
    var data := TakeVector(accounts.value.1);
    if data.None? || data.value.1 != [] then None else Some((accounts.value.0, data.value.0))
  }

  function ReadInstruction(t: seq<Byte>): Option<(nat, seq<nat>, seq<Byte>)> {
    var program := Take(1, t);
    if program.None? then None else
    var vectors := ReadVectors(program.value.1);
    if vectors.None? then None
    else Some((program.value.0[0], AsNats(vectors.value.0), vectors.value.1))
  }

  function ReadBody(t: seq<Byte>): Option<(seq<Key>, Key, (nat, seq<nat>, seq<Byte>))> {
    var count := ReadShortVec(t);
    if count.None? then None else
    var keys := TakeKeys(count.value.0, count.value.1);
    if keys.None? then None else
    var blockhash := Take(32, keys.value.1);
    if blockhash.None? then None else
    var instructions := ReadShortVec(blockhash.value.1);
    if instructions.None? || instructions.value.0 != 1 then None else
    var instruction := ReadInstruction(instructions.value.1);
    if instruction.None? then None else Some((keys.value.0, blockhash.value.0, instruction.value))
  }

  /** A reader of one-instruction messages, written after the wire format alone. */
  function ReadMessage(t: seq<Byte>): Option<Message> {
    var header := Take(3, t);
    if header.None? then None else
    var body := ReadBody(header.value.1);
    if body.None? then None else
    var (h, instruction) := (header.value.0, body.value.2);
    Some(Message(h[0], h[1], h[2], body.value.0, body.value.1, instruction.0, instruction.1, instruction.2))
  }

  lemma TakeExact(a: seq<Byte>, k: seq<Byte>)
    ensures Take(|a|, a + k) == Some((a, k))
  {
  }

  lemma {:induction false} TakeKeysExact(keys: seq<Key>, k: seq<Byte>)
    requires forall i | 0 <= i < |keys| :: |keys[i]| == 32
    ensures TakeKeys(|keys|, Concat(keys) + k) == Some((keys, k))
  {
    if keys == [] {
      AppendEmpty(k);
    } else {
      TakeKeysExact(keys[1..], k);
      AppendAssociates(keys[0], Concat(keys[1..]), k);
      TakeExact(keys[0], Concat(keys[1..]) + k);
      assert keys == [keys[0]] + keys[1..];
    }
  }

  lemma {:induction false} TakeVectorExact(a: seq<Byte>, k: seq<Byte>)
    ensures TakeVector(ShortVec(|a|) + (a + k)) == Some((a, k))
  {
    ShortVecRoundTrip(|a|, a + k);
    TakeExact(a, k);
  }

  lemma {:induction false} ConcatCons(first: seq<Byte>, rest: seq<seq<Byte>>)
    ensures Concat([first] + rest) == first + Concat(rest)
  {
    assert ([first] + rest)[1..] == rest;
  }

  lemma ConcatTwo(a: seq<Byte>, b: seq<Byte>)
    ensures Concat([a, b]) == a + b
  {
    ConcatSnoc([], b);
    ConcatCons(a, [b]);
    assert [] + [b] == [b] && [a] + [b] == [a, b];
    AppendEmpty(b);
  }

  lemma InstructionText(m: Message)
    ensures SerializeInstruction(m)
         == LowBytes([m.program]) + (ShortVec(|m.accounts|) + (LowBytes(m.accounts) + (ShortVec(|m.data|) + m.data)))
  {
    var a, b, c, d, e := LowBytes([m.program]), ShortVec(|m.accounts|), LowBytes(m.accounts), ShortVec(|m.data|), m.data;
    ConcatTwo(d, e);
    ConcatCons(c, [d, e]);
    ConcatCons(b, [c, d, e]);
    ConcatCons(a, [b, c, d, e]);
  }

  lemma MessageText(m: Message)
    ensures
      var h := LowBytes([m.requiredSignatures, m.readonlySigned, m.readonlyUnsigned]);
      Serialize(m) == h + (ShortVec(|m.keys|) + (Concat(m.keys) + (m.blockhash + (ShortVec(1) + SerializeInstruction(m)))))
  {
    var h := LowBytes([m.requiredSignatures, m.readonlySigned, m.readonlyUnsigned]);
    var n, last := ShortVec(|m.keys|), SerializeInstruction(m);
    var tail := [m.blockhash, ShortVec(1), last];
    ConcatSplit([h, n] + m.keys, tail);
    ConcatSplit([h, n], m.keys);
    ConcatTwo(h, n);
    ConcatTwo(ShortVec(1), last);
    ConcatCons(m.blockhash, [ShortVec(1), last]);
    assert tail == [m.blockhash] + [ShortVec(1), last];
    AppendAssociates(h + n, Concat(m.keys), Concat(tail));
    AppendAssociates(h, n, Concat(m.keys) + Concat(tail));
  }

  predicate FitsBytes(m: Message) {
    && m.requiredSignatures < 256 && m.readonlySigned < 256 && m.readonlyUnsigned < 256 && m.program < 256
    && (forall i | 0 <= i < |m.accounts| :: m.accounts[i] < 256)
    && (forall i | 0 <= i < |m.keys| :: |m.keys[i]| == 32)
    && |m.blockhash| == 32
  }

  lemma {:induction false} VectorsRead(a: seq<Byte>, b: seq<Byte>)
    ensures ReadVectors(ShortVec(|a|) + (a + (ShortVec(|b|) + b))) == Some((a, b))
  {
    TakeVectorExact(a, ShortVec(|b|) + b);
    TakeVectorExact(b, []);
    AppendEmpty(b);
  }

  lemma InstructionRoundTrip(m: Message)
    requires FitsBytes(m)
    ensures ReadInstruction(SerializeInstruction(m)) == Some((m.program, m.accounts, m.data))
  {
    var vectors := ShortVec(|m.accounts|) + (LowBytes(m.accounts) + (ShortVec(|m.data|) + m.data));
    InstructionText(m);
    TakeExact(LowBytes([m.program]), vectors);
    VectorsRead(LowBytes(m.accounts), m.data);
    LowBytesRead(m.accounts);
    assert LowBytes([m.program])[0] == m.program;
  }

  lemma LowBytesRead(ns: seq<nat>)
    requires forall i | 0 <= i < |ns| :: ns[i] < 256
    ensures AsNats(LowBytes(ns)) == ns
  {
  }

  lemma BodyRoundTrip(m: Message)
    requires FitsBytes(m)
    ensures
      var afterKeys := m.blockhash + (ShortVec(1) + SerializeInstruction(m));
      ReadBody(ShortVec(|m.keys|) + (Concat(m.keys) + afterKeys))
      == Some((m.keys, m.blockhash, (m.program, m.accounts, m.data)))
  {
    var last := SerializeInstruction(m);
    var afterKeys := m.blockhash + (ShortVec(1) + last);
    ShortVecRoundTrip(|m.keys|, Concat(m.keys) + afterKeys);
    TakeKeysExact(m.keys, afterKeys);
    TakeExact(m.blockhash, ShortVec(1) + last);
    ShortVecRoundTrip(1, last);
    InstructionRoundTrip(m);
  }

  /** The wire format loses nothing as long as keys have their 32 bytes and indexes fit into one. */
  lemma MessageRoundTrip(m: Message)
    requires FitsBytes(m)
    ensures ReadMessage(Serialize(m)) == Some(m)
  {
    var body := ShortVec(|m.keys|) + (Concat(m.keys) + (m.blockhash + (ShortVec(1) + SerializeInstruction(m))));
    MessageText(m);
    BodyRoundTrip(m);
    HeaderReads(m.requiredSignatures, m.readonlySigned, m.readonlyUnsigned, body);
  }

  lemma HeaderReads(a: nat, b: nat, c: nat, body: seq<Byte>)
    requires a < 256 && b < 256 && c < 256 && ReadBody(body).Some?
    ensures
      var (keys, blockhash, instruction) := ReadBody(body).value;
      ReadMessage(LowBytes([a, b, c]) + body)
      == Some(Message(a, b, c, keys, blockhash, instruction.0, instruction.1, instruction.2))
  {
    TakeExact(LowBytes([a, b, c]), body);
  }

  // ------------------------------------------------------------------ the transaction

  function Unsigned(accounts: seq<Key>, readonlyFlags: seq<bool>): (r: seq<Requested>)
    requires |accounts| == |readonlyFlags|
    ensures |r| == |accounts|
    ensures forall i | 0 <= i < |r| :: r[i] == Requested(accounts[i], false, !readonlyFlags[i], false)
  {
    seq(|accounts|, i requires 0 <= i < |accounts| => Requested(accounts[i], false, !readonlyFlags[i], false))
  }

  function RequestedAccounts(payer: Key, authority: Key, instruction: Instruction, program: Key): seq<Requested>
    requires |instruction.accounts| == |instruction.readonlyFlags|
  {
    [Requested(payer, true, true, true), Requested(authority, true, false, false)]
    + Unsigned(instruction.accounts, instruction.readonlyFlags)
    + [Requested(program, false, false, false)]
  }

  function IndexesOf(keys: seq<Key>, wanted: seq<Key>): (r: Option<seq<nat>>)
    ensures r.Some? ==> |r.value| == |wanted| && forall i | 0 <= i < |wanted| :: IndexOf(keys, wanted[i]) == Some(r.value[i])
    ensures r.None? <==> exists i | 0 <= i < |wanted| :: IndexOf(keys, wanted[i]).None?
  {
    if wanted == [] then Some([])
    else
      var first, rest := IndexOf(keys, wanted[0]), IndexesOf(keys, wanted[1..]);
      assert forall i | 0 <= i < |wanted| - 1 :: wanted[1..][i] == wanted[i + 1];
      assert rest.None? ==> exists i | 0 <= i < |wanted| - 1 :: IndexOf(keys, wanted[1..][i]).None?;
      if first.None? || rest.None? then None else Some([first.value] + rest.value)
  }

  /** The message of `signedTokenTransaction`; every use of an account goes through `indexOf`. */
  function CompileMessage(payer: Key, authority: Key, instruction: Instruction, program: Key, blockhash: Key)
    : Result<Message, TransactionError>
  {
    if |instruction.accounts| != |instruction.readonlyFlags| then Err(TransactionAccounts)
    else
      var compiled := Compile(RequestedAccounts(payer, authority, instruction, program));
      if compiled.Err? then Err(Compiling(compiled.error))
      else
        Indexed(compiled.value, instruction.accounts + [authority], program, blockhash, instruction.data)
  }

  /** The message over compiled keys, with the places of the accounts and of the program. */
  function Indexed(c: Compiled, wanted: seq<Key>, program: Key, blockhash: Key, data: seq<Byte>)
    : Result<Message, TransactionError>
  {
    var accounts := IndexesOf(c.keys, wanted);
    var programIndex := IndexOf(c.keys, program);
    if accounts.None? || programIndex.None? then Err(AccountIndex)
    else Ok(Message(c.requiredSignatures, c.readonlySigned, c.readonlyUnsigned, c.keys, blockhash,
                    programIndex.value, accounts.value, data))
  }

  /** The indexes of a message lead to the program and, in order, to the wanted accounts. */
  predicate Names(m: Message, wanted: seq<Key>, program: Key) {
    && m.program < |m.keys| && m.keys[m.program] == program
    && |m.accounts| == |wanted|
    && forall i | 0 <= i < |m.accounts| :: m.accounts[i] < |m.keys| && m.keys[m.accounts[i]] == wanted[i]
  }

  lemma IndexedNames(c: Compiled, wanted: seq<Key>, program: Key, blockhash: Key, data: seq<Byte>)
    requires forall i, j | 0 <= i < j < |c.keys| :: c.keys[i] != c.keys[j]
    requires program in c.keys && forall key | key in wanted :: key in c.keys
    ensures
      var r := Indexed(c, wanted, program, blockhash, data);
      r.Ok? && r.value.keys == c.keys && r.value.requiredSignatures == c.requiredSignatures && Names(r.value, wanted, program)
  {
    IndexesFound(c.keys, wanted);
    IndexFound(c.keys, program);
  }

  lemma UnsignedAsks(accounts: seq<Key>, flags: seq<bool>, key: Key)
    requires |accounts| == |flags|
    ensures !AsksPayer(Unsigned(accounts, flags), key) && !AsksSigner(Unsigned(accounts, flags), key)
    ensures AsksFor(Unsigned(accounts, flags), key) <==> key in accounts
  {
    if key in accounts {
      var i :| 0 <= i < |accounts| && accounts[i] == key;
      assert Unsigned(accounts, flags)[i].key == key;
    }
  }

  lemma AsksAppend(a: seq<Requested>, b: seq<Requested>, key: Key)
    ensures AsksFor(a + b, key) <==> AsksFor(a, key) || AsksFor(b, key)
    ensures AsksSigner(a + b, key) <==> AsksSigner(a, key) || AsksSigner(b, key)
    ensures AsksPayer(a + b, key) <==> AsksPayer(a, key) || AsksPayer(b, key)
    ensures AsksWritable(a, key) ==> AsksWritable(a + b, key)
  {
    assert forall i | 0 <= i < |a| :: (a + b)[i] == a[i];
    assert forall i | 0 <= i < |b| :: (a + b)[|a| + i] == b[i];
  }

  lemma TransactionRequests(payer: Key, authority: Key, instruction: Instruction, program: Key, key: Key)
    requires |instruction.accounts| == |instruction.readonlyFlags|
    ensures
      var requested := RequestedAccounts(payer, authority, instruction, program);
      && (AsksPayer(requested, key) <==> key == payer)
      && (AsksSigner(requested, key) <==> key == payer || key == authority)
      && (key == payer ==> AsksWritable(requested, key))
      && (AsksFor(requested, key) <==> key == payer || key == authority || key in instruction.accounts || key == program)
  {
    var signers := [Requested(payer, true, true, true), Requested(authority, true, false, false)];
    var unsigned := Unsigned(instruction.accounts, instruction.readonlyFlags);
    var last := [Requested(program, false, false, false)];
    SignersAsk(payer, authority, key);
    UnsignedAsks(instruction.accounts, instruction.readonlyFlags, key);
    AsksAppend(signers, unsigned, key);
    AsksAppend(signers + unsigned, last, key);
    assert last[0].key == program;
  }

  lemma SignersAsk(payer: Key, authority: Key, key: Key)
    ensures
      var signers := [Requested(payer, true, true, true), Requested(authority, true, false, false)];
      && (AsksPayer(signers, key) <==> key == payer)
      && (AsksSigner(signers, key) <==> key == payer || key == authority)
      && (AsksFor(signers, key) <==> key == payer || key == authority)
      && (key == payer ==> AsksWritable(signers, key))
  {
    var signers := [Requested(payer, true, true, true), Requested(authority, true, false, false)];
    assert signers[0].key == payer && signers[1].key == authority;
  }

  lemma OtherSigner(keys: seq<Key>, required: nat, payer: Key, authority: Key, i: nat, j: nat)
    requires forall i, j | 0 <= i < j < |keys| :: keys[i] != keys[j]
    requires keys != [] && keys[0] == payer && j < |keys| && keys[j] == authority
    requires forall i | 0 <= i < required :: i < |keys| && (keys[i] == payer || keys[i] == authority)
    requires 0 < i < required
    ensures i == j
  {
    assert keys[i] != keys[0];
  }

  lemma AtMostTwoSigners(keys: seq<Key>, required: nat, payer: Key, authority: Key)
    requires forall i, j | 0 <= i < j < |keys| :: keys[i] != keys[j]
    requires keys != [] && keys[0] == payer && authority in keys && required <= |keys|
    requires forall i | 0 <= i < |keys| :: (keys[i] == payer || keys[i] == authority) <==> i < required
    ensures required == if payer == authority then 1 else 2
    ensures payer != authority ==> keys[1] == authority
  {
    var j :| 0 <= j < |keys| && keys[j] == authority;
    if required >= 2 {
      OtherSigner(keys, required, payer, authority, 1, j);
    }
    if required >= 3 {
      OtherSigner(keys, required, payer, authority, 2, j);
    }
  }

  /**
    With matching flags a message always comes out, its instruction names the right keys, and its
    signing keys are the payer and then the authority: two exactly when they differ.
  */
  lemma TransactionLayout(payer: Key, authority: Key, instruction: Instruction, program: Key, blockhash: Key)
    ensures
      var r := CompileMessage(payer, authority, instruction, program, blockhash);
      if |instruction.accounts| != |instruction.readonlyFlags| then r == Err(TransactionAccounts)
      else
        && r.Ok?
        && var m := r.value;
        && m.keys != [] && m.keys[0] == payer
        && (m.requiredSignatures == 2 <==> payer != authority)
        && (payer != authority ==> |m.keys| >= 2 && m.keys[1] == authority)
        && Names(m, instruction.accounts + [authority], program)
  {
    if |instruction.accounts| == |instruction.readonlyFlags| {
      TransactionCompiles(payer, authority, instruction, program);
      var c := Compile(RequestedAccounts(payer, authority, instruction, program)).value;
      IndexedNames(c, instruction.accounts + [authority], program, blockhash, instruction.data);
    }
  }

  lemma AllTransactionRequests(payer: Key, authority: Key, instruction: Instruction, program: Key)
    requires |instruction.accounts| == |instruction.readonlyFlags|
    ensures
      var requested := RequestedAccounts(payer, authority, instruction, program);
      forall key ::
        && (AsksPayer(requested, key) <==> key == payer)
        && (AsksSigner(requested, key) <==> key == payer || key == authority)
        && (key == payer ==> AsksWritable(requested, key))
        && (AsksFor(requested, key) <==> key == payer || key == authority || key in instruction.accounts || key == program)
  {
    var requested := RequestedAccounts(payer, authority, instruction, program);
    forall key
      ensures
        && (AsksPayer(requested, key) <==> key == payer)
        && (AsksSigner(requested, key) <==> key == payer || key == authority)
        && (key == payer ==> AsksWritable(requested, key))
        && (AsksFor(requested, key) <==> key == payer || key == authority || key in instruction.accounts || key == program)
    {
      TransactionRequests(payer, authority, instruction, program, key);
    }
  }

  lemma TransactionCompiles(payer: Key, authority: Key, instruction: Instruction, program: Key)
    requires |instruction.accounts| == |instruction.readonlyFlags|
    ensures
      var compiled := Compile(RequestedAccounts(payer, authority, instruction, program));
      && compiled.Ok?
      && var c := compiled.value;
      && c.keys != [] && c.keys[0] == payer
      && c.requiredSignatures == (if payer == authority then 1 else 2)
      && (payer != authority ==> |c.keys| >= 2 && c.keys[1] == authority)
      && (forall i, j | 0 <= i < j < |c.keys| :: c.keys[i] != c.keys[j])
      && authority in c.keys && program in c.keys && (forall key | key in instruction.accounts :: key in c.keys)
  {
    var requested := RequestedAccounts(payer, authority, instruction, program);
    AllTransactionRequests(payer, authority, instruction, program);
    assert AsksPayer(requested, payer);
    CompilesExactly(requested);
    CompiledLayout(requested);
    var c := Compile(requested).value;
    assert AsksFor(requested, authority) && AsksFor(requested, program);
    AtMostTwoSigners(c.keys, c.requiredSignatures, payer, authority);
  }

  lemma {:induction false} IndexFound(keys: seq<Key>, key: Key)
    requires forall i, j | 0 <= i < j < |keys| :: keys[i] != keys[j]
    requires key in keys
    ensures IndexOf(keys, key).Some? && IndexOf(keys, key).value < |keys| && keys[IndexOf(keys, key).value] == key
  {
    IndexOfInverts(keys, key);
    var i :| 0 <= i < |keys| && keys[i] == key;
    assert IndexOf(keys, key) == Some(i);
  }

  lemma {:induction false} IndexesFound(keys: seq<Key>, wanted: seq<Key>)
    requires forall i, j | 0 <= i < j < |keys| :: keys[i] != keys[j]
    requires forall k | k in wanted :: k in keys
    ensures IndexesOf(keys, wanted).Some?
    ensures forall i | 0 <= i < |wanted| ::
              var at := IndexesOf(keys, wanted).value[i]; at < |keys| && keys[at] == wanted[i]
  {
    forall i | 0 <= i < |wanted|
      ensures IndexOf(keys, wanted[i]).Some? && IndexOf(keys, wanted[i]).value < |keys|
      ensures keys[IndexOf(keys, wanted[i]).value] == wanted[i]
    {
      assert wanted[i] in wanted;
      IndexFound(keys, wanted[i]);
    }
  }
}

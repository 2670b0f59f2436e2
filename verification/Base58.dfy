/**
  Base58 text for byte strings, as the transaction adapter encodes keys: the bytes read as one
  big-endian number, rewritten in base 58, with one '1' for every leading zero byte.
*/
module Base58 {
  import opened Bytes
  import opened Sequences
  import opened Wrappers
  import Digits

  /** The alphabet without '0', 'O', 'I' and 'l', in its six consecutive stretches. */
  const ALPHABET: string := "123456789" + "ABCDEFGH" + "JKLMN" + "PQRSTUVWXYZ" + "abcdefghijk" + "mnopqrstuvwxyz"

  datatype Base58Error = InvalidBase58

  function Letter(d: nat): char
    requires d < 58
  {
    if d < 9 then '1' + d as char
    else if d < 17 then 'A' + (d - 9) as char
    else if d < 22 then 'J' + (d - 17) as char
    else if d < 33 then 'P' + (d - 22) as char
    else if d < 44 then 'a' + (d - 33) as char
    else 'm' + (d - 44) as char
  }

  /** The position of a character in the alphabet; characters outside it have none. */
  function IndexOf(c: char): (r: Option<nat>)
    ensures r.Some? ==> r.value < 58 && Letter(r.value) == c
    ensures forall d | 0 <= d < 58 :: Letter(d) == c ==> r == Some(d)
  {
    if '1' <= c <= '9' then Some(c as int - '1' as int)
    else if 'A' <= c <= 'H' then Some(c as int - 'A' as int + 9)
    else if 'J' <= c <= 'N' then Some(c as int - 'J' as int + 17)
    else if 'P' <= c <= 'Z' then Some(c as int - 'P' as int + 22)
    else if 'a' <= c <= 'k' then Some(c as int - 'a' as int + 33)
    else if 'm' <= c <= 'z' then Some(c as int - 'm' as int + 44)
    else None
  }

  lemma LettersSpellAlphabet(d: nat)
    requires d < 58
    ensures |ALPHABET| == 58 && ALPHABET[d] == Letter(d)
  {
    var parts := ["123456789", "ABCDEFGH", "JKLMN", "PQRSTUVWXYZ", "abcdefghijk", "mnopqrstuvwxyz"];
    assert d < 9 ==> parts[0][d] == Letter(d);
    assert 9 <= d < 17 ==> parts[1][d - 9] == Letter(d);
    assert 17 <= d < 22 ==> parts[2][d - 17] == Letter(d);
    assert 22 <= d < 33 ==> parts[3][d - 22] == Letter(d);
    assert 33 <= d < 44 ==> parts[4][d - 33] == Letter(d);
    assert 44 <= d ==> parts[5][d - 44] == Letter(d);
  }

  /** The check in front of decoding: some text, and every character in the alphabet. */
  predicate Valid(s: string) {
    s != "" && forall i | 0 <= i < |s| :: IndexOf(s[i]).Some?
  }

  // ------------------------------------------------------------ specification

  /** The digits that a text of alphabet characters spells. */
  function DigitsOfText(s: string): (ds: seq<nat>)
    requires forall i | 0 <= i < |s| :: IndexOf(s[i]).Some?
    ensures |ds| == |s| && forall i | 0 <= i < |s| :: IndexOf(s[i]) == Some(ds[i])
  {
    seq(|s|, i requires 0 <= i < |s| => IndexOf(s[i]).value)
  }

  function TextOfDigits(ds: seq<nat>): (s: string)
    requires Digits.AllBelow(58, ds)
    ensures |s| == |ds| && forall i | 0 <= i < |ds| :: s[i] == Letter(ds[i])
  {
    seq(|ds|, i requires 0 <= i < |ds| => Letter(ds[i]))
  }

  /** Change of base that keeps the number of leading zeros. */
  function Rebase(from: nat, to: nat, ds: seq<nat>): (r: seq<nat>)
    requires from >= 2 && to >= 2
    ensures Digits.AllBelow(to, r)
  {
    Digits.Zeros(Digits.LeadingZeros(ds)) + Digits.Of(to, Digits.Value(from, ds))
  }

  function Encoded(bytes: seq<Byte>): string {
    if bytes == [] then "1" else TextOfDigits(Rebase(256, 58, AsNats(bytes)))
  }

  function Decoded(s: string): Result<seq<Byte>, Base58Error> {
    if Valid(s) then Ok(AsBytes(Rebase(58, 256, DigitsOfText(s)))) else Err(InvalidBase58)
  }

  // ------------------------------------------------------------------ methods

  /** Moving the lowest digit of the number in front of the digits already taken off. */
  lemma {:induction false} TakeDigit(base: nat, number: nat, low: seq<nat>)
    requires base >= 2 && number > 0
    ensures Digits.Of(base, number) + low == Digits.Of(base, number / base) + ([number % base] + low)
  {
    AppendAssociates(Digits.Of(base, number / base), [number % base], low);
  }

  /** The first loop of both directions: read digits as a number. */
  method ReadNumber(base: nat, ds: seq<nat>) returns (number: nat)
    ensures number == Digits.Value(base, ds)
  {
    number := 0;
    for i := 0 to |ds|
      invariant number == Digits.Value(base, ds[..i])
    {
      Digits.ValueSnoc(base, ds[..i], ds[i]);
      assert ds[..i + 1] == ds[..i] + [ds[i]];
      number := number * base + ds[i];
    }
    assert ds[..|ds|] == ds;
  }

  /** The second loop of both directions: take digits off the low end. */
  method WriteNumber(base: nat, total: nat) returns (ds: seq<nat>)
    requires base >= 2
    ensures ds == Digits.Of(base, total)
  {
    ds := [];
    var number := total;
    while number > 0
      invariant 0 <= number
      invariant Digits.Of(base, total) == Digits.Of(base, number) + ds
      decreases number
    {
      TakeDigit(base, number, ds);
      Digits.DivisionShrinks(number, base);
      ds := [number % base] + ds;
      number := number / base;
    }
  }

  lemma OneIsZero(value: string, k: nat)
    requires Valid(value) && k < |value|
    ensures value[k] == '1' <==> DigitsOfText(value)[k] == 0
  {
  }

  method PrependZeros(value: string, ns: seq<nat>) returns (r: seq<nat>)
    requires Valid(value)
    ensures r == Digits.Zeros(Digits.LeadingZeros(DigitsOfText(value))) + ns
  {
    ghost var zeros := Digits.LeadingZeros(DigitsOfText(value));
    r := ns;
    var k := 0;
    while k < |value| && value[k] == '1'
      invariant 0 <= k <= zeros
      invariant r == Digits.Zeros(k) + ns
    {
      OneIsZero(value, k);
      assert Digits.Zeros(k + 1) == [0] + Digits.Zeros(k);
      r := [0] + r;
      k := k + 1;
    }
    if k < zeros {
      OneIsZero(value, k);
    }
  }

  method Decode(value: string) returns (r: Result<seq<Byte>, Base58Error>)
    ensures r == Decoded(value)
  {
    if !Valid(value) {
      return Err(InvalidBase58);
    }
    var digits := DigitsOfText(value);
    var number := ReadNumber(58, digits);
    var ns := WriteNumber(256, number);
    var all := PrependZeros(value, ns);
    assert all == Rebase(58, 256, digits);
    return Ok(AsBytes(all));
  }

  /** A numeral's text with `k` ones, the digit for zero, in front. */
  function Padded(k: nat, text: string): string {
    if k == 0 then text else "1" + Padded(k - 1, text)
  }

  lemma {:induction false} PaddedWithZeros(k: nat, ds: seq<nat>)
    requires Digits.AllBelow(58, ds)
    ensures Padded(k, TextOfDigits(ds)) == TextOfDigits(Digits.Zeros(k) + ds)
  {
    if k == 0 {
      assert Digits.Zeros(0) + ds == ds;
    } else {
      PaddedWithZeros(k - 1, ds);
      assert Digits.Zeros(k) + ds == [0] + (Digits.Zeros(k - 1) + ds);
    }
  }

  /** The last loop of encoding: one '1' in front for every leading zero byte. */
  method PrependOnes(bytes: seq<Byte>, text: string) returns (s: string)
    ensures s == Padded(Digits.LeadingZeros(AsNats(bytes)), text)
  {
    ghost var zeros := Digits.LeadingZeros(AsNats(bytes));
    s := text;
    var k := 0;
    while k < |bytes| && bytes[k] == 0
      invariant 0 <= k <= zeros
      invariant s == Padded(k, text)
    {
      assert AsNats(bytes)[k] == 0;
      s := "1" + s;
      k := k + 1;
    }
    assert k < |bytes| ==> AsNats(bytes)[k] != 0;
  }

  method Encode(bytes: seq<Byte>) returns (s: string)
    ensures s == Encoded(bytes)
  {
    var digits := AsNats(bytes);
    var number := ReadNumber(256, digits);
    var ds := WriteNumber(58, number);
    s := PrependOnes(bytes, TextOfDigits(ds));
    PaddedWithZeros(Digits.LeadingZeros(digits), ds);
    Digits.ValueZero(256, digits);
    if s == "" {
      s := "1";
    }
  }

  // ------------------------------------------------------------------ results

  lemma RebaseBack(from: nat, to: nat, ds: seq<nat>)
    requires from >= 2 && to >= 2 && Digits.AllBelow(from, ds)
    ensures Rebase(to, from, Rebase(from, to, ds)) == ds
  {
    var n := Digits.Value(from, ds);
    var zeros := Digits.LeadingZeros(ds);
    Digits.LeadingZerosOfPadded(zeros, Digits.Of(to, n));
    Digits.ValueIgnoresZeros(to, zeros, Digits.Of(to, n));
    Digits.ValueOfDigits(to, n);
    Digits.DigitsOfValue(from, ds);
    assert ds == Digits.Zeros(zeros) + ds[zeros..];
  }

  /**
    Decoding undoes encoding for every non-empty byte string. The empty one is encoded like a single
    zero byte, so it is the only one that does not come back.
  */
  lemma DecodeUndoesEncode(bytes: seq<Byte>)
    ensures Decoded(Encoded(bytes)).Ok?
    ensures Decoded(Encoded(bytes)) == Ok(bytes) <==> bytes != []
  {
    if bytes == [] {
      assert DigitsOfText("1") == [0];
      assert Digits.Zeros(1) == [0];
      assert |Rebase(58, 256, [0])| >= 1;
    } else {
      var ns := AsNats(bytes);
      var ds := Rebase(256, 58, ns);
      var s := TextOfDigits(ds);
      Digits.ValueZero(256, ns);
      assert s != "";
      assert Valid(s);
        assert DigitsOfText(s) == ds;
      RebaseBack(256, 58, ns);
      assert AsBytes(ns) == bytes;
    }
  }

  /** Encoding undoes decoding for every text the decoder accepts: each byte string has one spelling. */
  lemma EncodeUndoesDecode(s: string)
    requires Decoded(s).Ok?
    ensures Decoded(s).value != [] && Encoded(Decoded(s).value) == s
  {
    var ds := DigitsOfText(s);
    var ns := Rebase(58, 256, ds);
    Digits.ValueZero(58, ds);
    assert AsNats(AsBytes(ns)) == ns;
    RebaseBack(58, 256, ds);
    assert TextOfDigits(ds) == s;
  }
}

/** Lower-case hexadecimal text and the bytes it stands for. */
module Hex {
  import opened Bytes
  import Digits

  predicate IsHexDigit(c: char) {
    '0' <= c <= '9' || 'a' <= c <= 'f'
  }

  function Nibble(c: char): (n: nat)
    requires IsHexDigit(c)
    ensures n < 16
  {
    if '0' <= c <= '9' then c as int - '0' as int else c as int - 'a' as int + 10
  }

  function HexDigit(n: nat): (c: char)
    requires n < 16
    ensures IsHexDigit(c) && Nibble(c) == n
  {
    if n < 10 then '0' + n as char else 'a' + (n - 10) as char
  }

  lemma NibbleInjective(c: char)
    requires IsHexDigit(c)
    ensures HexDigit(Nibble(c)) == c
  {
  }

  predicate IsHex(s: string) {
    forall i | 0 <= i < |s| :: IsHexDigit(s[i])
  }

  function Nibbles(s: string): (ns: seq<nat>)
    requires IsHex(s)
    ensures |ns| == |s| && Digits.AllBelow(16, ns)
    ensures forall i | 0 <= i < |s| :: ns[i] == Nibble(s[i])
  {
    seq(|s|, i requires 0 <= i < |s| => Nibble(s[i]))
  }

  /** Two nibbles to a byte; like the source's buffer conversion it drops an unpaired last nibble. */
  function Paired(ns: seq<nat>): (bytes: seq<nat>)
    requires Digits.AllBelow(16, ns)
    ensures |bytes| == |ns| / 2 && Digits.AllBelow(256, bytes)
    ensures forall i | 0 <= i < |bytes| :: bytes[i] == 16 * ns[2 * i] + ns[2 * i + 1]
  {
    seq(|ns| / 2, i requires 0 <= i < |ns| / 2 => 16 * ns[2 * i] + ns[2 * i + 1])
  }

  function BytesOf(s: string): (bytes: seq<Byte>)
    requires IsHex(s)
    ensures |bytes| == |s| / 2
    ensures forall i | 0 <= i < |bytes| :: bytes[i] == Paired(Nibbles(s))[i]
  {
    AsBytes(Paired(Nibbles(s)))
  }

  function TextOf(bytes: seq<Byte>): (s: string)
    ensures |s| == 2 * |bytes| && IsHex(s)
    ensures forall i | 0 <= i < |s| :: s[i] == HexDigit(if i % 2 == 0 then bytes[i / 2] / 16 else bytes[i / 2] % 16)
  {
    seq(2 * |bytes|, i requires 0 <= i < 2 * |bytes| => HexDigit(if i % 2 == 0 then bytes[i / 2] / 16 else bytes[i / 2] % 16))
  }

  lemma BytePair(s: string, j: nat)
    requires IsHex(s) && 2 * j + 1 < |s|
    ensures HexDigit(BytesOf(s)[j] / 16) == s[2 * j] && HexDigit(BytesOf(s)[j] % 16) == s[2 * j + 1]
  {
    var hi, lo := Nibble(s[2 * j]), Nibble(s[2 * j + 1]);
    assert Nibbles(s)[2 * j] == hi && Nibbles(s)[2 * j + 1] == lo;
    assert BytesOf(s)[j] == 16 * hi + lo;
    NibbleInjective(s[2 * j]);
    NibbleInjective(s[2 * j + 1]);
  }

  lemma TextOfBytesOf(s: string)
    requires IsHex(s) && |s| % 2 == 0
    ensures TextOf(BytesOf(s)) == s
  {
    forall i | 0 <= i < |s|
      ensures TextOf(BytesOf(s))[i] == s[i]
    {
      var j := i / 2;
      assert i == if i % 2 == 0 then 2 * j else 2 * j + 1;
      BytePair(s, j);
    }
  }

  lemma BytesOfInjective(s: string, t: string)
    requires IsHex(s) && IsHex(t) && |s| % 2 == 0 && |t| % 2 == 0
    requires BytesOf(s) == BytesOf(t)
    ensures s == t
  {
    TextOfBytesOf(s);
    TextOfBytesOf(t);
  }

  // --------------------------------------------------- numbers through their hexadecimal text

  /** `n.toString(16)`, padded with one zero to an even number of digits. */
  function EvenNibbles(n: nat): (ns: seq<nat>)
    ensures Digits.AllBelow(16, ns) && |ns| % 2 == 0
  {
    var ns := Digits.Of(16, n);
    if |ns| % 2 == 0 then ns else [0] + ns
  }

  lemma PairedSnoc(ns: seq<nat>, hi: nat, lo: nat)
    requires Digits.AllBelow(16, ns) && |ns| % 2 == 0 && hi < 16 && lo < 16
    ensures Digits.AllBelow(16, ns + [hi, lo])
    ensures Paired(ns + [hi, lo]) == Paired(ns) + [16 * hi + lo]
  {
  }

  lemma {:induction false} ValueOfTwoMore(ns: seq<nat>, hi: nat, lo: nat)
    ensures Digits.Value(16, ns + [hi, lo]) == 256 * Digits.Value(16, ns) + (16 * hi + lo)
  {
    assert ns + [hi, lo] == ns + [hi] + [lo];
    Digits.ValueSnoc(16, ns + [hi], lo);
    Digits.ValueSnoc(16, ns, hi);
  }

  lemma {:induction false} PairedValue(ns: seq<nat>)
    requires Digits.AllBelow(16, ns) && |ns| % 2 == 0
    ensures Digits.Value(256, Paired(ns)) == Digits.Value(16, ns)
    decreases |ns|
  {
    if ns != [] {
      var front, hi, lo := ns[..|ns| - 2], ns[|ns| - 2], ns[|ns| - 1];
      PairedValue(front);
      assert ns == front + [hi, lo];
      PairedSnoc(front, hi, lo);
      Digits.ValueSnoc(256, Paired(front), 16 * hi + lo);
      ValueOfTwoMore(front, hi, lo);
    }
  }

  /** Going through hexadecimal text yields the minimal big-endian bytes of the number. */
  lemma {:induction false} HexRouteIsMinimalBytes(n: nat)
    ensures Paired(EvenNibbles(n)) == Digits.Of(256, n)
  {
    var h := Digits.Of(16, n);
    var ns := EvenNibbles(n);
    Digits.ValueOfDigits(16, n);
    if |h| % 2 == 1 {
      assert ns == Digits.Zeros(1) + h;
      Digits.ValueIgnoresZeros(16, 1, h);
    }
    PairedValue(ns);
    Digits.DigitsOfValue(256, Paired(ns));
    if n > 0 {
      assert Paired(ns)[0] != 0;
      assert Digits.LeadingZeros(Paired(ns)) == 0;
    }
  }
}

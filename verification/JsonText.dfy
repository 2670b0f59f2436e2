/**
  JSON text as UTF-16 code units: string literals, their UTF-8 size, integers and white space
  (RFC 8259, sections 2, 6 and 7).
*/
module JsonText {
  import opened Sequences
  import opened Wrappers
  import Digits

  type Unit = u: int | 0 <= u < 0x1_0000
  type Text = seq<Unit>

  const QUOTE: Unit := 0x22
  const BACKSLASH: Unit := 0x5c
  const LETTER_U: Unit := 0x75
  const MINUS: Unit := 0x2d
  const ZERO: Unit := 0x30
  const OPEN_BRACE: Unit := 0x7b
  const CLOSE_BRACE: Unit := 0x7d
  const OPEN_BRACKET: Unit := 0x5b
  const CLOSE_BRACKET: Unit := 0x5d
  const COLON: Unit := 0x3a
  const COMMA: Unit := 0x2c
  const TRUE: Text := [0x74, 0x72, 0x75, 0x65]
  const FALSE: Text := [0x66, 0x61, 0x6c, 0x73, 0x65]
  const NULL: Text := [0x6e, 0x75, 0x6c, 0x6c]

  predicate IsHigh(u: Unit) {
    0xd800 <= u <= 0xdbff
  }

  predicate IsLow(u: Unit) {
    0xdc00 <= u <= 0xdfff
  }

  predicate StartsPair(t: Text) {
    |t| >= 2 && IsHigh(t[0]) && IsLow(t[1])
  }

  // ------------------------------------------------------------------- sizes in UTF-8

  function UnitBytes(u: Unit): (n: nat)
    ensures 1 <= n <= 3
  {
    if u < 0x80 then 1 else if u < 0x800 then 2 else 3
  }

  /** A surrogate pair takes four bytes; an unpaired surrogate counts like its three-byte replacement. */
  function Utf8Length(t: Text): nat {
    if t == [] then 0
    else if StartsPair(t) then 4 + Utf8Length(t[2..])
    else UnitBytes(t[0]) + Utf8Length(t[1..])
  }

  /** Sizes add up wherever the cut does not separate a surrogate pair. */
  lemma {:induction false} Utf8Append(a: Text, b: Text)
    requires b == [] || !IsLow(b[0])
    ensures Utf8Length(a + b) == Utf8Length(a) + Utf8Length(b)
  {
    if a == [] {
      assert a + b == b;
    } else if StartsPair(a + b) {
      assert |a| >= 2;
      assert (a + b)[2..] == a[2..] + b;
      Utf8Append(a[2..], b);
    } else {
      assert (a + b)[1..] == a[1..] + b;
      Utf8Append(a[1..], b);
    }
  }

  lemma {:induction false} Utf8Prepend(u: Unit, t: Text)
    ensures Utf8Length([u] + t) <= UnitBytes(u) + Utf8Length(t)
    ensures !IsHigh(u) ==> Utf8Length([u] + t) == UnitBytes(u) + Utf8Length(t)
  {
    assert ([u] + t)[1..] == t;
    if StartsPair([u] + t) {
      assert ([u] + t)[2..] == t[1..];
      assert !StartsPair(t);
    }
  }

  // ----------------------------------------------------------------- string literals

  /** The two-character escapes: the letter after the backslash for each unit that has one. */
  function ShortEscape(u: Unit): Option<Unit> {
    if u == 0x08 then Some(0x62)
    else if u == 0x09 then Some(0x74)
    else if u == 0x0a then Some(0x6e)
    else if u == 0x0c then Some(0x66)
    else if u == 0x0d then Some(0x72)
    else if u == QUOTE || u == BACKSLASH then Some(u)
    else None
  }

  /** Reading accepts those and the escaped solidus. */
  function ShortUnescape(letter: Unit): Option<Unit> {
    if letter == 0x62 then Some(0x08)
    else if letter == 0x74 then Some(0x09)
    else if letter == 0x6e then Some(0x0a)
    else if letter == 0x66 then Some(0x0c)
    else if letter == 0x72 then Some(0x0d)
    else if letter == QUOTE || letter == BACKSLASH || letter == 0x2f then Some(letter)
    else None
  }

  function HexUnit(n: nat): Unit
    requires n < 16
  {
    if n < 10 then 0x30 + n else 0x61 + (n - 10)
  }

  function HexValue(u: Unit): (r: Option<nat>)
    ensures r.Some? ==> r.value < 16
  {
    if 0x30 <= u <= 0x39 then Some(u - 0x30)
    else if 0x61 <= u <= 0x66 then Some(u - 0x61 + 10)
    else if 0x41 <= u <= 0x46 then Some(u - 0x41 + 10)
    else None
  }

  function UnicodeEscape(u: Unit): (t: Text)
    ensures |t| == 6
  {
    [BACKSLASH, LETTER_U, HexUnit(u / 0x1000), HexUnit(u / 0x100 % 16), HexUnit(u / 0x10 % 16), HexUnit(u % 16)]
  }

  function EscapedUnit(u: Unit): Text {
    if ShortEscape(u).Some? then [BACKSLASH, ShortEscape(u).value]
    else if u < 0x20 || IsHigh(u) || IsLow(u) then UnicodeEscape(u)
    else [u]
  }

  /** How many units the next written run stands for, and that run: pairs are kept as they are. */
  function Width(s: Text): (n: nat)
    requires s != []
    ensures 1 <= n <= |s|
  {
    if StartsPair(s) then 2 else 1
  }

  function FirstRun(s: Text): Text
    requires s != []
  {
    if StartsPair(s) then s[..2] else EscapedUnit(s[0])
  }

  /** `JSON.stringify` between the quotes: unpaired surrogates and control characters are escaped. */
  function EncodeChars(s: Text): Text {
    if s == [] then [] else FirstRun(s) + EncodeChars(s[Width(s)..])
  }

  function Quoted(s: Text): Text {
    [QUOTE] + EncodeChars(s) + [QUOTE]
  }

  function HexQuad(t: Text): (r: Option<Unit>)
    requires |t| == 4
  {
    var a, b, c, d := HexValue(t[0]), HexValue(t[1]), HexValue(t[2]), HexValue(t[3]);
    if a.None? || b.None? || c.None? || d.None? then None
    else Some(((a.value * 16 + b.value) * 16 + c.value) * 16 + d.value)
  }

  /** The unit in front of a literal's content and how many units it is written with. */
  function ReadUnit(t: Text): (r: Option<(Unit, nat)>)
    requires t != []
    ensures r.Some? ==> 1 <= r.value.1 <= |t|
  {
    if t[0] == BACKSLASH then
      if |t| >= 6 && t[1] == LETTER_U && HexQuad(t[2..6]).Some? then Some((HexQuad(t[2..6]).value, 6))
      else if |t| >= 2 && t[1] != LETTER_U && ShortUnescape(t[1]).Some? then Some((ShortUnescape(t[1]).value, 2))
      else None
    else if t[0] == QUOTE || t[0] < 0x20 then None
    else Some((t[0], 1))
  }

  /** `JSON.parse` between the quotes. */
  function DecodeChars(t: Text): Option<Text> {
    if t == [] then Some([])
    else
      var first := ReadUnit(t);
      if first.None? then None else After([first.value.0], DecodeChars(t[first.value.1..]))
  }

  function After(s: Text, rest: Option<Text>): Option<Text> {
    if rest.None? then None else Some(s + rest.value)
  }

  /**
    The parser's scan behind an opening quote: how far the closing quote reaches. Whatever follows a
    backslash is skipped; a control character or the end of the text ends the scan without success.
  */
  function Scan(t: Text): (r: Option<nat>)
    ensures r.Some? ==> 1 <= r.value <= |t|
  {
    if t == [] || t[0] < 0x20 then None
    else if t[0] == QUOTE then Some(1)
    else
      var n := if t[0] == BACKSLASH then 2 else 1;
      if |t| < n then None else Later(n, Scan(t[n..]))
  }

  function Later(n: nat, r: Option<nat>): Option<nat> {
    if r.None? then None else Some(n + r.value)
  }

  lemma HexDigitsOfUnit(u: Unit)
    ensures ((u / 0x1000 * 16 + u / 0x100 % 16) * 16 + u / 0x10 % 16) * 16 + u % 16 == u
    ensures u / 0x1000 < 16
  {
  }

  lemma HexUnitValue(n: nat)
    requires n < 16
    ensures HexValue(HexUnit(n)) == Some(n)
  {
  }

  lemma ReadUnicodeEscape(u: Unit, t: Text)
    ensures ReadUnit(UnicodeEscape(u) + t) == Some((u, 6))
  {
    HexDigitsOfUnit(u);
    var a, b, c, d := u / 0x1000, u / 0x100 % 16, u / 0x10 % 16, u % 16;
    HexUnitValue(a);
    HexUnitValue(b);
    HexUnitValue(c);
    HexUnitValue(d);
    assert (UnicodeEscape(u) + t)[2..6] == [HexUnit(a), HexUnit(b), HexUnit(c), HexUnit(d)];
  }

  lemma ReadEscapedUnit(u: Unit, t: Text)
    ensures ReadUnit(EscapedUnit(u) + t) == Some((u, |EscapedUnit(u)|))
  {
    if ShortEscape(u).None? && (u < 0x20 || IsHigh(u) || IsLow(u)) {
      ReadUnicodeEscape(u, t);
    }
  }

  lemma {:induction false} DecodeUnit(e: Text, u: Unit, t: Text)
    requires e != [] && ReadUnit(e + t) == Some((u, |e|))
    ensures DecodeChars(e + t) == After([u], DecodeChars(t))
  {
    assert (e + t)[|e|..] == t;
  }

  lemma {:induction false} DecodeRun(s: Text, t: Text)
    requires s != []
    ensures DecodeChars(FirstRun(s) + t) == After(s[..Width(s)], DecodeChars(t))
  {
    if StartsPair(s) {
      DecodeUnit([s[1]], s[1], t);
      DecodeUnit([s[0]], s[0], [s[1]] + t);
      assert s[..2] + t == [s[0]] + ([s[1]] + t);
      if DecodeChars(t).Some? {
        assert [s[0]] + ([s[1]] + DecodeChars(t).value) == s[..2] + DecodeChars(t).value;
      }
    } else {
      ReadEscapedUnit(s[0], t);
      DecodeUnit(EscapedUnit(s[0]), s[0], t);
      assert s[..1] == [s[0]];
    }
  }

  /** Reading a written string literal gives back every code unit, paired or not. */
  lemma {:induction false} DecodeUndoesEncode(s: Text)
    ensures DecodeChars(EncodeChars(s)) == Some(s)
  {
    if s != [] {
      DecodeUndoesEncode(s[Width(s)..]);
      DecodeRun(s, EncodeChars(s[Width(s)..]));
      SplitRun(s);
    }
  }

  lemma SplitRun(s: Text)
    requires s != []
    ensures s[..Width(s)] + s[Width(s)..] == s
  {
  }

  lemma {:induction false} ScanEscapedUnit(u: Unit, t: Text)
    ensures Scan(EscapedUnit(u) + t) == Later(|EscapedUnit(u)|, Scan(t))
  {
    if ShortEscape(u).Some? {
      assert ([BACKSLASH, ShortEscape(u).value] + t)[2..] == t;
    } else if u < 0x20 || IsHigh(u) || IsLow(u) {
      ScanUnicodeEscape(u, t);
    } else {
      assert ([u] + t)[1..] == t;
    }
  }

  lemma {:induction false} ScanUnicodeEscape(u: Unit, t: Text)
    ensures Scan(UnicodeEscape(u) + t) == Later(6, Scan(t))
  {
    HexDigitsOfUnit(u);
    var digits := [HexUnit(u / 0x1000), HexUnit(u / 0x100 % 16), HexUnit(u / 0x10 % 16), HexUnit(u % 16)];
    assert UnicodeEscape(u) + t == [BACKSLASH, LETTER_U] + (digits + t);
    assert ([BACKSLASH, LETTER_U] + (digits + t))[2..] == digits + t;
    ScanPlain(digits, t);
  }

  lemma {:induction false} ScanPlainUnit(u: Unit, t: Text)
    requires u >= 0x20 && u != QUOTE && u != BACKSLASH
    ensures Scan([u] + t) == Later(1, Scan(t))
  {
    assert ([u] + t)[1..] == t;
  }

  lemma {:induction false} ScanPlain(plain: Text, t: Text)
    requires forall i | 0 <= i < |plain| :: plain[i] >= 0x20 && plain[i] != QUOTE && plain[i] != BACKSLASH
    ensures Scan(plain + t) == Later(|plain|, Scan(t))
  {
    if plain == [] {
      assert plain + t == t;
    } else {
      ScanPlain(plain[1..], t);
      ScanPlainUnit(plain[0], plain[1..] + t);
      assert plain + t == [plain[0]] + (plain[1..] + t);
    }
  }

  lemma {:induction false} ScanRun(s: Text, t: Text)
    requires s != []
    ensures Scan(FirstRun(s) + t) == Later(|FirstRun(s)|, Scan(t))
  {
    if StartsPair(s) {
      ScanPlain(s[..2], t);
    } else {
      ScanEscapedUnit(s[0], t);
    }
  }

  lemma {:induction false} ScanOverEncoded(s: Text, tail: Text)
    ensures Scan(EncodeChars(s) + tail) == Later(|EncodeChars(s)|, Scan(tail))
  {
    if s == [] {
      assert EncodeChars(s) + tail == tail;
    } else {
      var rest := EncodeChars(s[Width(s)..]);
      ScanOverEncoded(s[Width(s)..], tail);
      ScanRun(s, rest + tail);
      ScanJoins(FirstRun(s), rest, tail);
    }
  }

  lemma {:induction false} ScanJoins(a: Text, b: Text, tail: Text)
    requires Scan(a + (b + tail)) == Later(|a|, Scan(b + tail)) && Scan(b + tail) == Later(|b|, Scan(tail))
    ensures Scan(a + b + tail) == Later(|a + b|, Scan(tail))
  {
    AppendAssociates(a, b, tail);
  }

  /** The scan stops exactly at the quote that closes a written literal. */
  lemma {:induction false} ScanFindsClosingQuote(s: Text, t: Text)
    ensures Scan(EncodeChars(s) + [QUOTE] + t) == Some(|EncodeChars(s)| + 1)
  {
    ScanOverEncoded(s, [QUOTE] + t);
    assert EncodeChars(s) + [QUOTE] + t == EncodeChars(s) + ([QUOTE] + t);
  }

  /** A decoded string is never longer, in UTF-8, than the text it was written as. */
  lemma {:induction false} DecodedIsNoLonger(t: Text)
    requires DecodeChars(t).Some?
    ensures Utf8Length(DecodeChars(t).value) <= Utf8Length(t)
  {
    if t == [] {
    } else if t[0] == BACKSLASH {
      var (u, n) := ReadUnit(t).value;
      EscapeIsAscii(t);
      DecodedIsNoLonger(t[n..]);
      EscapeIsNoLonger(t, n, u, DecodeChars(t[n..]).value);
    } else if StartsPair(t) {
      assert t[1..][1..] == t[2..];
      DecodedIsNoLonger(t[2..]);
      PairIsNoLonger(t, DecodeChars(t[2..]).value);
    } else {
      DecodedIsNoLonger(t[1..]);
      Utf8Prepend(t[0], DecodeChars(t[1..]).value);
    }
  }

  lemma {:induction false} PairIsNoLonger(t: Text, rest: Text)
    requires StartsPair(t) && Utf8Length(rest) <= Utf8Length(t[2..])
    ensures Utf8Length([t[0]] + ([t[1]] + rest)) <= Utf8Length(t)
  {
    assert ([t[0]] + ([t[1]] + rest))[2..] == rest;
  }

  lemma EscapeIsAscii(t: Text)
    requires t != [] && t[0] == BACKSLASH && ReadUnit(t).Some?
    ensures IsAscii(t[..ReadUnit(t).value.1]) && ReadUnit(t).value.1 >= 2
    ensures ReadUnit(t).value.1 == 2 ==> ReadUnit(t).value.0 < 0x80
    ensures ReadUnit(t).value.1 > 2 ==> ReadUnit(t).value.1 == 6
  {
    if ReadUnit(t).value.1 == 6 {
      assert forall i | 0 <= i < 4 :: t[2..6][i] == t[i + 2];
    }
  }

  lemma {:induction false} EscapeIsNoLonger(t: Text, n: nat, u: Unit, rest: Text)
    requires n <= |t| && IsAscii(t[..n]) && UnitBytes(u) <= n
    requires Utf8Length(rest) <= Utf8Length(t[n..])
    ensures Utf8Length([u] + rest) <= Utf8Length(t)
  {
    Utf8Prepend(u, rest);
    AsciiPrefixBytes(t[..n], t[n..]);
    assert t == t[..n] + t[n..];
  }

  predicate IsAscii(t: Text) {
    forall i | 0 <= i < |t| :: t[i] < 0x80
  }

  lemma {:induction false} AsciiRunBytes(t: Text)
    requires IsAscii(t)
    ensures Utf8Length(t) == |t|
  {
    if t != [] {
      AsciiRunBytes(t[1..]);
    }
  }

  lemma {:induction false} AsciiPrefixBytes(a: Text, b: Text)
    requires IsAscii(a)
    ensures Utf8Length(a + b) == |a| + Utf8Length(b)
  {
    if a == [] {
      assert a + b == b;
    } else {
      assert a + b == [a[0]] + (a[1..] + b);
      Utf8Prepend(a[0], a[1..] + b);
      AsciiPrefixBytes(a[1..], b);
    }
  }

  // ------------------------------------------------------------------------ integers

  const MAX_SAFE_INTEGER: int := 9007199254740991

  predicate IsSafe(n: int) {
    -MAX_SAFE_INTEGER <= n <= MAX_SAFE_INTEGER
  }

  predicate IsDigit(u: Unit) {
    0x30 <= u <= 0x39
  }

  function DigitUnits(ds: seq<nat>): (t: Text)
    requires Digits.AllBelow(10, ds)
    ensures |t| == |ds| && forall i | 0 <= i < |ds| :: t[i] == ZERO + ds[i]
  {
    seq(|ds|, i requires 0 <= i < |ds| => (ZERO + ds[i]) as Unit)
  }

  function DigitValue(u: Unit): (d: nat)
    ensures d < 10
    ensures IsDigit(u) ==> u == ZERO + d
  {
    if IsDigit(u) then u - ZERO else 0
  }

  function UnitDigits(t: Text): (ds: seq<nat>)
    ensures Digits.AllBelow(10, ds) && |ds| == |t| && forall i | 0 <= i < |t| :: ds[i] == DigitValue(t[i])
  {
    seq(|t|, i requires 0 <= i < |t| => DigitValue(t[i]))
  }

  function Natural(n: nat): Text {
    if n == 0 then [ZERO] else DigitUnits(Digits.Of(10, n))
  }

  function Integer(n: int): Text {
    if n < 0 then [MINUS] + Natural(Digits.Magnitude(n)) else Natural(Digits.Magnitude(n))
  }

  /** The longest run of decimal digits in front. */
  function DigitRun(t: Text): (n: nat)
    ensures n <= |t|
    ensures forall i | 0 <= i < n :: IsDigit(t[i])
    ensures n < |t| ==> !IsDigit(t[n])
  {
    if t == [] || !IsDigit(t[0]) then 0 else 1 + DigitRun(t[1..])
  }

  /** The length of the natural number that the grammar of RFC 8259 section 6 matches in front. */
  function MatchNatural(t: Text): (n: nat)
    ensures n <= |t|
  {
    if t == [] || !IsDigit(t[0]) then 0
    else if t[0] == ZERO then 1
    else DigitRun(t)
  }

  /** The integer in front of `t` and the text behind it; "-0" and unsafe integers are refused. */
  function ParseInteger(t: Text): (r: Option<(int, Text)>)
    ensures r.Some? ==> |r.value.1| < |t| && IsSafe(r.value.0)
  {
    if t != [] && t[0] == MINUS then ParseMagnitude(true, t[1..]) else ParseMagnitude(false, t)
  }

  lemma {:induction false} DigitRunStops(t: Text, k: Text)
    requires forall i | 0 <= i < |t| :: IsDigit(t[i])
    requires k == [] || !IsDigit(k[0])
    ensures DigitRun(t + k) == |t|
  {
    if t == [] {
      assert t + k == k;
    } else {
      assert (t + k)[1..] == t[1..] + k;
      DigitRunStops(t[1..], k);
    }
  }

  lemma NaturalMatches(n: nat, k: Text)
    requires k == [] || !IsDigit(k[0])
    ensures MatchNatural(Natural(n) + k) == |Natural(n)| > 0
    ensures forall i | 0 <= i < |Natural(n)| :: IsDigit(Natural(n)[i])
    ensures Digits.Value(10, UnitDigits(Natural(n))) == n
    ensures Natural(n) == [ZERO] <==> n == 0
  {
    var t := Natural(n);
    Digits.ValueOfDigits(10, n);
    if n == 0 {
      assert UnitDigits(t) == [0];
      assert Digits.Value(10, [0]) == 0 by { Digits.ValueSnoc(10, [], 0); assert [] + [0] == [0]; }
    } else {
      assert UnitDigits(t) == Digits.Of(10, n);
      assert t[0] != ZERO;
      DigitRunStops(t, k);
    }
  }

  function ParseMagnitude(negative: bool, u: Text): (r: Option<(int, Text)>)
    ensures r.Some? ==> |r.value.1| < |u| && IsSafe(r.value.0)
  {
    var n := MatchNatural(u);
    if n == 0 then None
    else
      var magnitude := Digits.Value(10, UnitDigits(u[..n]));
      if (negative && u[..n] == [ZERO]) || !IsSafe(magnitude) then None
      else Some((if negative then 0 - magnitude else magnitude, u[n..]))
  }

  lemma MagnitudeRoundTrip(n: int, k: Text)
    requires IsSafe(n) && (k == [] || !IsDigit(k[0]))
    ensures ParseMagnitude(n < 0, Natural(Digits.Magnitude(n)) + k) == Some((n, k))
  {
    var t := Natural(Digits.Magnitude(n));
    NaturalMatches(Digits.Magnitude(n), k);
    assert (t + k)[..|t|] == t && (t + k)[|t|..] == k;
  }

  lemma SignDecides(u: Text)
    ensures ParseInteger([MINUS] + u) == ParseMagnitude(true, u)
    ensures u != [] && u[0] != MINUS ==> ParseInteger(u) == ParseMagnitude(false, u)
  {
    assert ([MINUS] + u)[1..] == u;
  }

  lemma NaturalStart(n: nat)
    ensures Natural(n) != [] && IsDigit(Natural(n)[0])
  {
    NaturalMatches(n, []);
  }

  /** A written safe integer is read back, whatever follows, as long as it is not another digit. */
  lemma IntegerRoundTrip(n: int, k: Text)
    requires IsSafe(n) && (k == [] || !IsDigit(k[0]))
    ensures ParseInteger(Integer(n) + k) == Some((n, k))
  {
    var t := Natural(Digits.Magnitude(n));
    NaturalStart(Digits.Magnitude(n));
    MagnitudeRoundTrip(n, k);
    SignDecides(t + k);
    AppendAssociates([MINUS], t, k);
  }

  // --------------------------------------------------------------------- white space

  predicate IsSpace(u: Unit) {
    u == 0x20 || u == 0x09 || u == 0x0d || u == 0x0a
  }

  function SkipSpace(t: Text): (r: Text)
    ensures |r| <= |t| && (r == [] || !IsSpace(r[0]))
  {
    if t != [] && IsSpace(t[0]) then SkipSpace(t[1..]) else t
  }
}

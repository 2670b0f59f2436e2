/** Canonical decimal strings for uint256 values, the form every amount takes in the planner's files. */
module Decimal {
  import opened Wrappers
  import Digits

  datatype DecimalError = InvalidDecimal | DecimalTooLong | Uint256Range

  predicate IsDigit(c: char) {
    '0' <= c <= '9'
  }

  predicate AllDigits(s: string) {
    forall i | 0 <= i < |s| :: IsDigit(s[i])
  }

  /** The pattern of `parseUint`: "0", or digits that do not start with a zero. */
  predicate IsCanonical(s: string) {
    s == "0" || (s != "" && s[0] != '0' && AllDigits(s))
  }

  function DigitsOf(s: string): (ds: seq<nat>)
    requires AllDigits(s)
    ensures |ds| == |s| && Digits.AllBelow(10, ds)
    ensures forall i | 0 <= i < |s| :: ds[i] == s[i] as int - '0' as int
  {
    seq(|s|, i requires 0 <= i < |s| => s[i] as int - '0' as int)
  }

  function TextOf(ds: seq<nat>): (s: string)
    requires Digits.AllBelow(10, ds)
    ensures |s| == |ds| && AllDigits(s)
    ensures forall i | 0 <= i < |ds| :: s[i] as int - '0' as int == ds[i]
  {
    seq(|ds|, i requires 0 <= i < |ds| => '0' + ds[i] as char)
  }

  function BigIntOf(s: string): nat
    requires AllDigits(s)
  {
    Digits.Value(10, DigitsOf(s))
  }

  /** `String(n)`. */
  function Print(n: nat): string {
    if n == 0 then "0" else TextOf(Digits.Of(10, n))
  }

  function ParseUint(s: string, allowZero: bool): Result<nat, DecimalError> {
    if !IsCanonical(s) then Err(InvalidDecimal)
    else if |s| > 78 then Err(DecimalTooLong)
    else
      var parsed := BigIntOf(s);
      if (!allowZero && parsed == 0) || parsed > Digits.UINT256_MAX then Err(Uint256Range) else Ok(parsed)
  }

  lemma PrintReads(n: nat)
    ensures IsCanonical(Print(n)) && BigIntOf(Print(n)) == n
  {
    if n == 0 {
      assert DigitsOf("0") == Digits.Zeros(1);
      Digits.ValueIgnoresZeros(10, 1, []);
      assert Digits.Zeros(1) + [] == Digits.Zeros(1);
    } else {
      assert DigitsOf(Print(n)) == Digits.Of(10, n);
      Digits.ValueOfDigits(10, n);
    }
  }

  lemma CanonicalPrints(s: string)
    requires IsCanonical(s)
    ensures Print(BigIntOf(s)) == s
  {
    if s == "0" {
      assert s == Print(0);
      PrintReads(0);
    } else {
      var ds := DigitsOf(s);
      Digits.DigitsOfValue(10, ds);
      assert Digits.LeadingZeros(ds) == 0;
      Digits.ValueZero(10, ds);
      assert TextOf(ds) == s;
    }
  }

  /** The length check refuses nothing that the range check would accept. */
  lemma Uint256FitsLength(n: nat)
    requires n <= Digits.UINT256_MAX
    ensures |Print(n)| <= 78
  {
    Digits.Uint256Powers();
    Digits.LengthBound(10, n, 78);
  }

  /** Parsing accepts exactly the printed uint256 values, and gives back the value that was printed. */
  lemma ParseInvertsPrint(s: string, allowZero: bool, n: nat)
    ensures ParseUint(s, allowZero) == Ok(n) <==> s == Print(n) && n <= Digits.UINT256_MAX && (allowZero || n > 0)
  {
    PrintReads(n);
    if n <= Digits.UINT256_MAX {
      Uint256FitsLength(n);
    }
    if IsCanonical(s) {
      CanonicalPrints(s);
    }
  }

  // ------------------------------------------------------------------- signed integers

  /** "0", or a canonical number with an optional sign: "-0" is not one. */
  predicate IsInteger(s: string) {
    IsCanonical(s) || (s != "" && s[0] == '-' && IsCanonical(s[1..]) && s[1..] != "0")
  }

  function IntegerOf(s: string): int
    requires IsInteger(s)
  {
    if IsCanonical(s) then BigIntOf(s) else var n: int := BigIntOf(s[1..]); -n
  }

  function PrintInteger(n: int): string {
    if n < 0 then "-" + Print(Digits.Magnitude(n)) else Print(Digits.Magnitude(n))
  }

  lemma NegativeReads(n: int)
    requires n < 0
    ensures IsInteger("-" + Print(Digits.Magnitude(n))) && IntegerOf("-" + Print(Digits.Magnitude(n))) == n
  {
    var m := Digits.Magnitude(n);
    var s := "-" + Print(m);
    PrintReads(m);
    assert s[1..] == Print(m) && s[0] == '-';
    PrintReads(0);
    assert BigIntOf(Print(m)) != BigIntOf(Print(0));
  }

  lemma PrintIntegerReads(n: int)
    ensures IsInteger(PrintInteger(n)) && IntegerOf(PrintInteger(n)) == n
    ensures n >= 0 ==> IsCanonical(PrintInteger(n))
  {
    if n < 0 {
      NegativeReads(n);
    } else {
      PrintReads(Digits.Magnitude(n));
    }
  }
}

/**
  Positional notation with the most significant digit first. Base 58, base 256, base 16 and decimal
  text in the source are all this notation over different alphabets.
*/
module Digits {
  ghost predicate AllBelow(base: nat, ds: seq<nat>) {
    forall i | 0 <= i < |ds| :: ds[i] < base
  }

  function Value(base: nat, ds: seq<nat>): nat {
    if ds == [] then 0 else Value(base, ds[..|ds| - 1]) * base + ds[|ds| - 1]
  }

  /** The digits of `n` without leading zeros; zero has none. */
  function Of(base: nat, n: nat): (ds: seq<nat>)
    requires base >= 2
    ensures AllBelow(base, ds)
    ensures ds != [] ==> ds[0] != 0
    ensures n == 0 <==> ds == []
  {
    if n == 0 then []
    else
      DivisionShrinks(n, base);
      var rest := Of(base, n / base);
      var ds := rest + [n % base];
      assert rest == [] ==> n < base && ds == [n % base];
      ds
  }

  function Magnitude(n: int): nat {
    if n < 0 then -n else n
  }

  lemma DivMod(n: nat, base: nat)
    requires base >= 1
    ensures n == base * (n / base) + n % base && 0 <= n % base < base
  {
  }

  lemma MulMonotone(c: nat, a: nat, b: nat)
    requires a <= b
    ensures c * a <= c * b
  {
  }

  lemma QuotientUnique(base: nat, q: nat, r: nat, q': nat, r': nat)
    requires base * q + r == base * q' + r' && r < base && r' < base
    ensures q == q' && r == r'
  {
    assert base * (q + 1) == base * q + base;
    assert base * (q' + 1) == base * q' + base;
    if q < q' {
      MulMonotone(base, q + 1, q');
    } else if q' < q {
      MulMonotone(base, q' + 1, q);
    }
  }

  lemma DivisionShrinks(n: nat, base: nat)
    requires n > 0 && base >= 2
    ensures n / base < n && (n / base == 0 <==> n < base)
  {
    var q := n / base;
    DivMod(n, base);
    if q > 0 {
      MulMonotone(q, 2, base);
      MulMonotone(base, 1, q);
    }
  }

  function LeadingZeros(ds: seq<nat>): (k: nat)
    ensures k <= |ds|
    ensures forall i | 0 <= i < k :: ds[i] == 0
    ensures k < |ds| ==> ds[k] != 0
  {
    if ds == [] || ds[0] != 0 then 0 else 1 + LeadingZeros(ds[1..])
  }

  function Zeros(n: nat): (zs: seq<nat>)
    ensures |zs| == n && forall i | 0 <= i < n :: zs[i] == 0
  {
    seq(n, _ => 0)
  }

  lemma {:induction false} ValueOfDigits(base: nat, n: nat)
    requires base >= 2
    ensures Value(base, Of(base, n)) == n
  {
    if n > 0 {
      DivisionShrinks(n, base);
      var q, r := n / base, n % base;
      ValueOfDigits(base, q);
      ValueSnoc(base, Of(base, q), r);
      DivMod(n, base);
      assert Of(base, n) == Of(base, q) + [r];
    }
  }

  lemma {:induction false} ValueSnoc(base: nat, ds: seq<nat>, d: nat)
    ensures Value(base, ds + [d]) == base * Value(base, ds) + d
  {
    assert (ds + [d])[..|ds|] == ds;
  }

  lemma OfSnoc(base: nat, q: nat, r: nat)
    requires base >= 2 && r < base && base * q + r > 0
    ensures Of(base, base * q + r) == Of(base, q) + [r]
  {
    var n := base * q + r;
    DivMod(n, base);
    QuotientUnique(base, q, r, n / base, n % base);
  }

  /** Converting a numeral to its value and back only loses leading zeros. */
  lemma {:induction false} DigitsOfValue(base: nat, ds: seq<nat>)
    requires base >= 2 && AllBelow(base, ds)
    ensures Of(base, Value(base, ds)) == ds[LeadingZeros(ds)..]
  {
    if ds != [] {
      var front, last := ds[..|ds| - 1], ds[|ds| - 1];
      assert ds == front + [last];
      DigitsOfValue(base, front);
      ValueZero(base, front);
      ValueZero(base, ds);
      LeadingZerosOfFront(ds);
      ValueSnoc(base, front, last);
      if Value(base, ds) != 0 {
        OfSnoc(base, Value(base, front), last);
        assert ds[LeadingZeros(ds)..] == front[LeadingZeros(front)..] + [last];
      }
    }
  }

  lemma {:induction false} ValueZero(base: nat, ds: seq<nat>)
    requires base >= 1
    ensures Value(base, ds) == 0 <==> LeadingZeros(ds) == |ds|
  {
    if ds != [] {
      var front, last := ds[..|ds| - 1], ds[|ds| - 1];
      assert ds == front + [last];
      ValueZero(base, front);
      LeadingZerosOfFront(ds);
      ValueSnoc(base, front, last);
      if Value(base, front) > 0 {
        MulMonotone(base, 1, Value(base, front));
      }
    }
  }

  lemma {:induction false} LeadingZerosOfFront(ds: seq<nat>)
    requires ds != []
    ensures
      var front := ds[..|ds| - 1];
      LeadingZeros(ds) == if LeadingZeros(front) < |front| then LeadingZeros(front)
                          else if ds[|ds| - 1] == 0 then |ds| else |front|
  {
    if |ds| > 1 {
      assert ds[1..][..|ds| - 2] == ds[..|ds| - 1][1..];
      LeadingZerosOfFront(ds[1..]);
    }
  }

  /** Leading zeros do not count. */
  lemma {:induction false} ValueIgnoresZeros(base: nat, k: nat, ds: seq<nat>)
    ensures Value(base, Zeros(k) + ds) == Value(base, ds)
  {
    if ds == [] {
      assert Zeros(k) + ds == Zeros(k);
      if k > 0 {
        assert Zeros(k)[..k - 1] == Zeros(k - 1) + [];
        ValueIgnoresZeros(base, k - 1, []);
        assert Zeros(k - 1) + [] == Zeros(k - 1);
      }
    } else {
      var all := Zeros(k) + ds;
      assert all[..|all| - 1] == Zeros(k) + ds[..|ds| - 1];
      ValueIgnoresZeros(base, k, ds[..|ds| - 1]);
    }
  }

  lemma {:induction false} LeadingZerosOfPadded(k: nat, ds: seq<nat>)
    requires ds != [] ==> ds[0] != 0
    ensures LeadingZeros(Zeros(k) + ds) == k
  {
    if k > 0 {
      assert (Zeros(k) + ds)[1..] == Zeros(k - 1) + ds;
      LeadingZerosOfPadded(k - 1, ds);
    } else {
      assert Zeros(k) + ds == ds;
    }
  }

  function Pow(base: nat, e: nat): nat {
    if e == 0 then 1 else base * Pow(base, e - 1)
  }

  lemma QuotientBelow(n: nat, base: nat, p: nat)
    requires base >= 1
    ensures n / base < p <==> n < base * p
  {
    var q := n / base;
    DivMod(n, base);
    if q < p {
      MulMonotone(base, q + 1, p);
    } else {
      MulMonotone(base, p, q);
    }
  }

  /** A number has at most `k` digits exactly when it is below the k-th power of the base. */
  lemma {:induction false} LengthBound(base: nat, n: nat, k: nat)
    requires base >= 2
    ensures |Of(base, n)| <= k <==> n < Pow(base, k)
    decreases k
  {
    if n == 0 {
      PowPositive(base, k);
    } else if k > 0 {
      DivisionShrinks(n, base);
      LengthBound(base, n / base, k - 1);
      QuotientBelow(n, base, Pow(base, k - 1));
    }
  }

  lemma {:induction false} PowPositive(base: nat, e: nat)
    requires base >= 1
    ensures Pow(base, e) >= 1
  {
    if e > 0 {
      PowPositive(base, e - 1);
      MulMonotone(base, 1, Pow(base, e - 1));
    }
  }

  lemma {:induction false} PowAdd(base: nat, a: nat, b: nat)
    ensures Pow(base, a + b) == Pow(base, a) * Pow(base, b)
  {
    if a > 0 {
      PowAdd(base, a - 1, b);
      MulAssociates(base, Pow(base, a - 1), Pow(base, b));
    }
  }

  lemma MulAssociates(a: nat, b: nat, c: nat)
    ensures a * (b * c) == (a * b) * c
  {
  }

  const UINT256_MAX: nat := 0xffffffff_ffffffff_ffffffff_ffffffff_ffffffff_ffffffff_ffffffff_ffffffff

  lemma PowDouble(base: nat, e: nat, p: nat)
    requires Pow(base, e) == p
    ensures Pow(base, e + e) == p * p
  {
    PowAdd(base, e, e);
  }

  lemma Uint256Powers()
    ensures Pow(256, 32) == UINT256_MAX + 1
    ensures UINT256_MAX < Pow(10, 78)
  {
    PowerOfTwo();
    PowerOfTen();
  }

  lemma PowerOfTwo()
    ensures Pow(256, 32) == UINT256_MAX + 1
  {
    assert Pow(256, 1) == 256;
    PowDouble(256, 1, 256);
    PowDouble(256, 2, 0x1_0000);
    PowDouble(256, 4, 0x1_00000000);
    PowDouble(256, 8, 0x1_00000000_00000000);
    PowDouble(256, 16, 0x1_00000000_00000000_00000000_00000000);
  }

  lemma PowerOfTen()
    ensures Pow(10, 78) > UINT256_MAX
  {
    assert Pow(10, 1) == 10;
    PowDouble(10, 1, 10);
    PowAdd(10, 2, 1);
    PowDouble(10, 3, 1_000);
    PowDouble(10, 6, 1_000_000);
    PowDouble(10, 12, 1_000_000_000_000);
    PowAdd(10, 24, 2);
    PowDouble(10, 26, 100_000_000_000_000_000_000_000_000);
    PowAdd(10, 52, 26);
  }
}

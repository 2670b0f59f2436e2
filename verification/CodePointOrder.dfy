/**
  The order of canonical object members: strings are compared code point by code point, not code
  unit by code unit.
*/
module CodePointOrder {
  import opened JsonText

  type CodePoint = c: nat | c < 0x11_0000

  /** The first code point; an unpaired surrogate stands for itself. */
  function FirstPoint(t: Text): (c: CodePoint)
    requires t != []
    ensures c >= 0x1_0000 <==> StartsPair(t)
  {
    if StartsPair(t) then 0x1_0000 + (t[0] as int - 0xd800) * 0x400 + (t[1] as int - 0xdc00) else t[0]
  }

  /** `Array.from(text, codePointAt)`. */
  function CodePoints(t: Text): seq<CodePoint> {
    if t == [] then [] else [FirstPoint(t)] + CodePoints(t[Width(t)..])
  }

  lemma FirstPointDetermines(a: Text, b: Text)
    requires a != [] && b != [] && FirstPoint(a) == FirstPoint(b)
    ensures a[..Width(a)] == b[..Width(b)]
  {
    if StartsPair(a) {
      assert a[0] == b[0] && a[1] == b[1];
    }
  }

  /** Different strings have different code points. */
  lemma {:induction false} CodePointsInjective(a: Text, b: Text)
    requires CodePoints(a) == CodePoints(b)
    ensures a == b
  {
    if a != [] && b != [] {
      assert CodePoints(a)[0] == CodePoints(b)[0];
      assert CodePoints(a)[1..] == CodePoints(b)[1..];
      FirstPointDetermines(a, b);
      CodePointsInjective(a[Width(a)..], b[Width(b)..]);
      assert a == a[..Width(a)] + a[Width(a)..];
      assert b == b[..Width(b)] + b[Width(b)..];
    }
  }

  /** The first difference decides, then the length. */
  function Compare(a: seq<CodePoint>, b: seq<CodePoint>): int {
    if a == [] || b == [] then |a| - |b|
    else if a[0] != b[0] then if a[0] < b[0] then -1 else 1
    else Compare(a[1..], b[1..])
  }

  method CompareCodePoints(left: Text, right: Text) returns (order: int)
    ensures order == Compare(CodePoints(left), CodePoints(right))
  {
    var a, b := CodePoints(left), CodePoints(right);
    var index := 0;
    assert a[0..] == a && b[0..] == b;
    while index < |a| && index < |b|
      invariant index <= |a| && index <= |b|
      invariant Compare(a[index..], b[index..]) == Compare(a, b)
    {
      if a[index] != b[index] {
        return if a[index] < b[index] then -1 else 1;
      }
      assert a[index..][1..] == a[index + 1..] && b[index..][1..] == b[index + 1..];
      index := index + 1;
    }
    return |a| - |b|;
  }

  lemma {:induction false} CompareEqual(a: seq<CodePoint>, b: seq<CodePoint>)
    ensures Compare(a, b) == 0 <==> a == b
  {
    if a != [] && b != [] && a[0] == b[0] {
      CompareEqual(a[1..], b[1..]);
      assert a == [a[0]] + a[1..] && b == [b[0]] + b[1..];
    }
  }

  lemma {:induction false} CompareFlip(a: seq<CodePoint>, b: seq<CodePoint>)
    ensures Compare(a, b) == 0 - Compare(b, a)
  {
    if a != [] && b != [] && a[0] == b[0] {
      CompareFlip(a[1..], b[1..]);
    }
  }

  lemma {:induction false} CompareTransitive(a: seq<CodePoint>, b: seq<CodePoint>, c: seq<CodePoint>)
    requires Compare(a, b) < 0 && Compare(b, c) < 0
    ensures Compare(a, c) < 0
  {
    if a != [] && b != [] && c != [] && a[0] == b[0] == c[0] {
      CompareTransitive(a[1..], b[1..], c[1..]);
    }
  }

  predicate Before(a: Text, b: Text) {
    Compare(CodePoints(a), CodePoints(b)) < 0
  }

  /** `Before` is a strict total order on strings. */
  lemma BeforeIsTotal(a: Text, b: Text)
    ensures Before(a, b) || Before(b, a) || a == b
    ensures !(Before(a, b) && Before(b, a))
    ensures !Before(a, a)
  {
    CompareFlip(CodePoints(a), CodePoints(b));
    CompareFlip(CodePoints(a), CodePoints(a));
    CompareEqual(CodePoints(a), CodePoints(b));
    if Compare(CodePoints(a), CodePoints(b)) == 0 {
      CodePointsInjective(a, b);
    }
  }

  lemma BeforeTransitive(a: Text, b: Text, c: Text)
    requires Before(a, b) && Before(b, c)
    ensures Before(a, c)
  {
    CompareTransitive(CodePoints(a), CodePoints(b), CodePoints(c));
  }
}

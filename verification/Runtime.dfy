/**
  Runtime bytecode with immutables: one verifier writes 32-byte words into a template at compiler
  references, another masks those references out again before it compares.
*/
module Runtime {
  import opened Bytes
  import opened Hex
  import opened Sequences
  import opened Wrappers

  const WORD := 32

  datatype Reference = Reference(start: int, word: seq<Byte>)

  /** All references of one immutable, with the value that goes into each of them. */
  datatype Immutable = Immutable(value: seq<Byte>, starts: seq<int>)

  datatype RuntimeError = TemplateInvalid | ImmutableMappingIncomplete | ReferenceBoundsInvalid

  // ----------------------------------------------------------------- specification

  function References(value: seq<Byte>, starts: seq<int>): (r: seq<Reference>)
    ensures |r| == |starts| && forall i | 0 <= i < |starts| :: r[i] == Reference(starts[i], value)
  {
    seq(|starts|, i requires 0 <= i < |starts| => Reference(starts[i], value))
  }

  function Flattened(immutables: seq<Immutable>): seq<Reference> {
    if immutables == [] then []
    else
      var last := immutables[|immutables| - 1];
      Flattened(immutables[..|immutables| - 1]) + References(last.value, last.starts)
  }

  predicate InBounds(r: Reference, length: nat) {
    0 <= r.start && r.start + WORD <= length
  }

  predicate Disjoint(a: Reference, b: Reference) {
    a.start + WORD <= b.start || b.start + WORD <= a.start
  }

  /** Every range lies inside the runtime and no two of them overlap. */
  predicate BoundsValid(refs: seq<Reference>, length: nat) {
    && (forall i | 0 <= i < |refs| :: InBounds(refs[i], length))
    && (forall i, j | 0 <= i < j < |refs| :: Disjoint(refs[i], refs[j]))
  }

  predicate NoneEmpty(immutables: seq<Immutable>) {
    forall i | 0 <= i < |immutables| :: immutables[i].value != [] && immutables[i].starts != []
  }

  /** One buffer copy: as much of the word as still fits. */
  function Copied(bytes: seq<Byte>, start: nat, word: seq<Byte>): (r: seq<Byte>)
    requires start <= |bytes|
    ensures |r| == |bytes|
    ensures forall p | 0 <= p < |bytes| :: r[p] == if start <= p < start + |word| then word[p - start] else bytes[p]
  {
    var n := if start + |word| <= |bytes| then |word| else |bytes| - start;
    bytes[..start] + word[..n] + bytes[start + n..]
  }

  function Patched(bytes: seq<Byte>, refs: seq<Reference>): (r: seq<Byte>)
    requires forall i | 0 <= i < |refs| :: InBounds(refs[i], |bytes|)
    ensures |r| == |bytes|
  {
    if refs == [] then bytes
    else
      var last := refs[|refs| - 1];
      assert InBounds(last, |bytes|);
      Copied(Patched(bytes, refs[..|refs| - 1]), last.start, last.word)
  }

  // ------------------------------------------------------------------ reconstruction

  method CopyInto(runtime: array<Byte>, start: nat, word: seq<Byte>)
    requires start <= runtime.Length
    modifies runtime
    ensures runtime[..] == Copied(old(runtime[..]), start, word)
  {
    var k := 0;
    while k < |word| && start + k < runtime.Length
      invariant k <= |word| && start + k <= runtime.Length
      invariant forall p | 0 <= p < runtime.Length ::
                  runtime[p] == if start <= p < start + k then word[p - start] else old(runtime[p])
    {
      runtime[start + k] := word[k];
      k := k + 1;
    }
  }

  /** `assertReferenceBounds`: a new range against the runtime and the ranges before it. */
  method ReferenceFits(next: Reference, length: nat, ranges: seq<Reference>) returns (ok: bool)
    requires BoundsValid(ranges, length)
    ensures ok <==> BoundsValid(ranges + [next], length)
  {
    ok := next.start >= 0 && next.start + WORD <= length;
    for i := 0 to |ranges|
      invariant ok <==> InBounds(next, length) && forall j | 0 <= j < i :: Disjoint(ranges[j], next)
    {
      if next.start < ranges[i].start + WORD && next.start + WORD > ranges[i].start {
        ok := false;
      }
    }
    FitsMeans(ranges, next, length);
  }

  lemma FitsMeans(ranges: seq<Reference>, next: Reference, length: nat)
    requires BoundsValid(ranges, length)
    ensures BoundsValid(ranges + [next], length)
       <==> InBounds(next, length) && forall j | 0 <= j < |ranges| :: Disjoint(ranges[j], next)
  {
    var all := ranges + [next];
    assert all[|ranges|] == next;
    assert forall j | 0 <= j < |ranges| :: all[j] == ranges[j];
  }

  /** The runtime is the template with these references patched in. */
  ghost predicate PatchedSoFar(runtime: seq<Byte>, template: seq<Byte>, ranges: seq<Reference>) {
    |runtime| == |template| && BoundsValid(ranges, |template|) && runtime == Patched(template, ranges)
  }

  /** One reference: checked against the ranges so far, then written. */
  method PatchReference(runtime: array<Byte>, ranges: seq<Reference>, next: Reference, ghost template: seq<Byte>)
    returns (ok: bool)
    requires PatchedSoFar(runtime[..], template, ranges)
    modifies runtime
    ensures ok <==> BoundsValid(ranges + [next], runtime.Length)
    ensures ok ==> PatchedSoFar(runtime[..], template, ranges + [next])
  {
    ok := ReferenceFits(next, runtime.Length, ranges);
    if ok {
      FitsMeans(ranges, next, runtime.Length);
      assert (ranges + [next])[..|ranges|] == ranges;
      CopyInto(runtime, next.start, next.word);
    }
  }

  /** One immutable: every reference in turn. */
  method PatchOne(runtime: array<Byte>, ranges: seq<Reference>, x: Immutable, ghost template: seq<Byte>)
    returns (r: Result<seq<Reference>, RuntimeError>)
    requires PatchedSoFar(runtime[..], template, ranges)
    modifies runtime
    ensures r.Ok? <==> x.value != [] && x.starts != [] && BoundsValid(ranges + References(x.value, x.starts), runtime.Length)
    ensures r.Ok? ==> r.value == ranges + References(x.value, x.starts) && PatchedSoFar(runtime[..], template, r.value)
  {
    if x.value == [] || x.starts == [] {
      return Err(ImmutableMappingIncomplete);
    }
    ghost var all := ranges + References(x.value, x.starts);
    var done := ranges;
    assert all[..|ranges|] == ranges;
    for i := 0 to |x.starts|
      invariant done == all[..|ranges| + i] && PatchedSoFar(runtime[..], template, done)
    {
      NextReference(ranges, x, i, runtime.Length);
      var next := Reference(x.starts[i], x.value);
      var ok := PatchReference(runtime, done, next, template);
      if !ok {
        return Err(ReferenceBoundsInvalid);
      }
      done := done + [next];
    }
    assert all[..|all|] == all;
    return Ok(done);
  }

  lemma NextReference(ranges: seq<Reference>, x: Immutable, i: nat, length: nat)
    requires i < |x.starts|
    ensures
      var all, n := ranges + References(x.value, x.starts), |ranges| + i;
      && all[..n + 1] == all[..n] + [Reference(x.starts[i], x.value)]
      && (BoundsValid(all, length) ==> BoundsValid(all[..n + 1], length))
  {
    var all, n := ranges + References(x.value, x.starts), |ranges| + i;
    assert all[n] == Reference(x.starts[i], x.value);
    TakeSnoc(all, n);
    BoundsOfPrefix(all, n + 1, length);
  }

  lemma BoundsOfPrefix(refs: seq<Reference>, n: nat, length: nat)
    requires n <= |refs|
    ensures BoundsValid(refs, length) ==> BoundsValid(refs[..n], length)
  {
  }

  /** `reconstructRuntime` from the template's hexadecimal text and the values of its immutables. */
  method ReconstructRuntime(code: string, immutables: seq<Immutable>) returns (r: Result<string, RuntimeError>)
    ensures r.Ok? <==>
              && code != "" && IsHex(code) && NoneEmpty(immutables)
              && BoundsValid(Flattened(immutables), |code| / 2)
    ensures r.Ok? ==> r.value == "0x" + TextOf(Patched(BytesOf(code), Flattened(immutables)))
  {
    if code == "" || !IsHex(code) {
      return Err(TemplateInvalid);
    }
    ghost var template := BytesOf(code);
    var runtime := new Byte[|code| / 2](i requires 0 <= i < |code| / 2 => BytesOf(code)[i]);
    assert runtime[..] == template;
    var ranges: seq<Reference> := [];
    for i := 0 to |immutables|
      invariant NoneEmpty(immutables[..i])
      invariant ranges == Flattened(immutables[..i]) && PatchedSoFar(runtime[..], template, ranges)
    {
      NextImmutable(immutables, i, runtime.Length);
      var patched := PatchOne(runtime, ranges, immutables[i], template);
      if patched.Err? {
        return Err(patched.error);
      }
      ranges := patched.value;
    }
    assert immutables[..|immutables|] == immutables;
    return Ok("0x" + TextOf(runtime[..]));
  }

  lemma NextImmutable(immutables: seq<Immutable>, i: nat, length: nat)
    requires i < |immutables|
    ensures
      var x, upTo := immutables[i], immutables[..i + 1];
      && Flattened(upTo) == Flattened(immutables[..i]) + References(x.value, x.starts)
      && (NoneEmpty(upTo) <==> NoneEmpty(immutables[..i]) && x.value != [] && x.starts != [])
      && (NoneEmpty(immutables) ==> NoneEmpty(upTo))
      && (BoundsValid(Flattened(immutables), length) ==> BoundsValid(Flattened(upTo), length))
  {
    var upTo := immutables[..i + 1];
    assert upTo[i] == immutables[i] && upTo[..i] == immutables[..i];
    assert forall j | 0 <= j < i :: upTo[j] == immutables[..i][j];
    FlattenedPrefix(immutables, i + 1, length);
  }

  lemma {:induction false} FlattenedPrefix(immutables: seq<Immutable>, n: nat, length: nat)
    requires n <= |immutables|
    ensures BoundsValid(Flattened(immutables), length) ==> BoundsValid(Flattened(immutables[..n]), length)
  {
    if n < |immutables| {
      var front := immutables[..|immutables| - 1];
      assert front[..n] == immutables[..n];
      FlattenedPrefix(front, n, length);
      BoundsOfPrefix(Flattened(immutables), |Flattened(front)|, length);
      assert Flattened(immutables)[..|Flattened(front)|] == Flattened(front);
    } else {
      assert immutables[..n] == immutables;
    }
  }

  // -------------------------------------------------------------- what patching means

  predicate Covers(r: Reference, p: int) {
    r.start <= p < r.start + WORD
  }

  predicate FullWords(refs: seq<Reference>) {
    forall i | 0 <= i < |refs| :: |refs[i].word| == WORD
  }

  predicate HoldsWords(r: seq<Byte>, bytes: seq<Byte>, refs: seq<Reference>)
    requires |r| == |bytes| && FullWords(refs)
  {
    && (forall i, p | 0 <= i < |refs| && 0 <= p < |bytes| && Covers(refs[i], p) :: r[p] == refs[i].word[p - refs[i].start])
    && (forall p | 0 <= p < |bytes| && (forall i | 0 <= i < |refs| :: !Covers(refs[i], p)) :: r[p] == bytes[p])
  }

  lemma CopyHoldsWords(before: seq<Byte>, bytes: seq<Byte>, refs: seq<Reference>)
    requires refs != [] && BoundsValid(refs, |bytes|) && FullWords(refs) && |before| == |bytes|
    requires HoldsWords(before, bytes, refs[..|refs| - 1])
    ensures
      var last := refs[|refs| - 1];
      0 <= last.start <= |bytes| && HoldsWords(Copied(before, last.start, last.word), bytes, refs)
  {
    var front, last := refs[..|refs| - 1], refs[|refs| - 1];
    assert InBounds(last, |bytes|);
    var after := Copied(before, last.start, last.word);
    forall i, p | 0 <= i < |refs| && 0 <= p < |bytes| && Covers(refs[i], p)
      ensures after[p] == refs[i].word[p - refs[i].start]
    {
      if i < |front| {
        assert Disjoint(refs[i], last) && front[i] == refs[i];
      }
    }
    forall p | 0 <= p < |bytes| && (forall i | 0 <= i < |refs| :: !Covers(refs[i], p))
      ensures after[p] == bytes[p]
    {
      assert !Covers(last, p);
      assert forall i | 0 <= i < |front| :: front[i] == refs[i];
    }
  }

  /** Every reference holds its word and every other byte is the template's. */
  lemma {:induction false} PatchedHoldsWords(bytes: seq<Byte>, refs: seq<Reference>)
    requires BoundsValid(refs, |bytes|) && FullWords(refs)
    ensures HoldsWords(Patched(bytes, refs), bytes, refs)
  {
    if refs != [] {
      var front := refs[..|refs| - 1];
      PatchedHoldsWords(bytes, front);
      CopyHoldsWords(Patched(bytes, front), bytes, refs);
    }
  }

  /** The order in which references are visited does not matter. */
  lemma {:induction false} PatchedIgnoresOrder(bytes: seq<Byte>, refs: seq<Reference>, others: seq<Reference>)
    requires BoundsValid(refs, |bytes|) && FullWords(refs)
    requires BoundsValid(others, |bytes|) && FullWords(others)
    requires forall r :: r in refs <==> r in others
    ensures Patched(bytes, refs) == Patched(bytes, others)
  {
    PatchedHoldsWords(bytes, refs);
    PatchedHoldsWords(bytes, others);
    WordsDetermine(Patched(bytes, refs), Patched(bytes, others), bytes, refs, others);
  }

  lemma WordsDetermine(r: seq<Byte>, s: seq<Byte>, bytes: seq<Byte>, refs: seq<Reference>, others: seq<Reference>)
    requires FullWords(refs) && FullWords(others) && |r| == |s| == |bytes|
    requires HoldsWords(r, bytes, refs) && HoldsWords(s, bytes, others)
    requires forall x :: x in refs <==> x in others
    ensures r == s
  {
    forall p | 0 <= p < |bytes|
      ensures r[p] == s[p]
    {
      if i :| 0 <= i < |refs| && Covers(refs[i], p) {
        assert refs[i] in others;
        var j :| 0 <= j < |others| && others[j] == refs[i];
        assert Covers(others[j], p);
      } else {
        forall j | 0 <= j < |others|
          ensures !Covers(others[j], p)
        {
          assert others[j] in refs;
        }
      }
    }
  }

  // ------------------------------------------------------------------------- masking

  /** The ranges a mask takes out, in bytes; nothing keeps them inside the runtime. */
  datatype Range = Range(start: int, length: int)

  /** A hexadecimal digit inside a range. */
  predicate Masks(r: Range, digit: int) {
    r.start * 2 <= digit < (r.start + r.length) * 2
  }

  predicate Masked(refs: seq<Range>, digit: int) {
    exists i | 0 <= i < |refs| :: Masks(refs[i], digit)
  }

  predicate Comparable(actual: string, template: string) {
    && |actual| >= 2 && actual[..2] == "0x" && IsHex(actual[2..])
    && |template| == |actual| && template[..2] == "0x" && IsHex(template[2..])
  }

  function Mask(actual: string, template: string, refs: seq<Range>): (s: string)
    requires |actual| == |template|
    ensures |s| == |actual|
    ensures forall d | 0 <= d < |actual| :: s[d] == if Masked(refs, d) then template[d] else actual[d]
  {
    seq(|actual|, d requires 0 <= d < |actual| => if Masked(refs, d) then template[d] else actual[d])
  }

  method MaskRuntime(actual: string, template: string, refs: seq<Range>) returns (s: string)
    ensures s == if Comparable(actual, template) then Mask(actual[2..], template[2..], refs) else ""
  {
    if !Comparable(actual, template) {
      return "";
    }
    var bytes := new char[|actual| - 2](i requires 0 <= i < |actual| - 2 => actual[2..][i]);
    for i := 0 to |refs|
      invariant forall d | 0 <= d < bytes.Length ::
                  bytes[d] == if Masked(refs[..i], d) then template[2..][d] else actual[2..][d]
    {
      OneMoreRange(refs, i);
      var index := refs[i].start * 2;
      while index < (refs[i].start + refs[i].length) * 2
        invariant index >= refs[i].start * 2
        invariant index <= (refs[i].start + refs[i].length) * 2 || index == refs[i].start * 2
        invariant forall d | 0 <= d < bytes.Length ::
                    bytes[d] == if Masked(refs[..i], d) || (refs[i].start * 2 <= d < index) then template[2..][d] else actual[2..][d]
      {
        // A negative index names a property of the array object and changes no element.
        if 0 <= index < bytes.Length {
          bytes[index] := template[2..][index];
        }
        index := index + 1;
      }
    }
    assert refs[..|refs|] == refs;
    s := bytes[..];
  }

  lemma OneMoreRange(refs: seq<Range>, i: nat)
    requires i < |refs|
    ensures forall d :: Masked(refs[..i + 1], d) <==> Masked(refs[..i], d) || Masks(refs[i], d)
  {
    forall d
      ensures Masked(refs[..i + 1], d) <==> Masked(refs[..i], d) || Masks(refs[i], d)
    {
      assert refs[..i + 1][i] == refs[i];
      if Masked(refs[..i], d) {
        var j :| 0 <= j < i && Masks(refs[..i][j], d);
        assert refs[..i + 1][j] == refs[j];
      }
    }
  }

  /** Two runtimes of the template's length have the same mask exactly when they agree outside the ranges. */
  lemma MasksAgreeExactly(a: string, b: string, template: string, refs: seq<Range>)
    requires |a| == |b| == |template|
    ensures Mask(a, template, refs) == Mask(b, template, refs) <==>
              forall d | 0 <= d < |a| && !Masked(refs, d) :: a[d] == b[d]
  {
    if Mask(a, template, refs) == Mask(b, template, refs) {
      forall d | 0 <= d < |a| && !Masked(refs, d)
        ensures a[d] == b[d]
      {
        assert Mask(a, template, refs)[d] == Mask(b, template, refs)[d];
      }
    }
  }

  function RangesOf(refs: seq<Reference>): (r: seq<Range>)
    ensures |r| == |refs| && forall i | 0 <= i < |refs| :: r[i] == Range(refs[i].start, WORD)
  {
    seq(|refs|, i requires 0 <= i < |refs| => Range(refs[i].start, WORD))
  }

  lemma UnmaskedDigit(refs: seq<Reference>, d: nat)
    requires !Masked(RangesOf(refs), d)
    ensures forall i | 0 <= i < |refs| :: !Covers(refs[i], d / 2)
  {
    forall i | 0 <= i < |refs|
      ensures !Covers(refs[i], d / 2)
    {
      assert !Masks(RangesOf(refs)[i], d);
    }
  }

  /** Masking a reconstructed runtime over its own references gives the template back. */
  lemma {:induction false} MaskUndoesPatch(code: string, refs: seq<Reference>)
    requires IsHex(code) && |code| % 2 == 0
    requires BoundsValid(refs, |code| / 2) && FullWords(refs)
    ensures
      var runtime := TextOf(Patched(BytesOf(code), refs));
      |runtime| == |code| && Mask(runtime, code, RangesOf(refs)) == code
  {
    var bytes := BytesOf(code);
    var runtime := TextOf(Patched(bytes, refs));
    PatchedHoldsWords(bytes, refs);
    TextOfBytesOf(code);
    forall d | 0 <= d < |code|
      ensures Mask(runtime, code, RangesOf(refs))[d] == code[d]
    {
      if !Masked(RangesOf(refs), d) {
        UnmaskedDigit(refs, d);
        assert Patched(bytes, refs)[d / 2] == bytes[d / 2];
        assert TextOf(bytes)[d] == code[d];
      }
    }
  }

  /** The buffer drops an unpaired last digit, so the length of the text is kept exactly when it is even. */
  lemma {:induction false} LengthKeptExactly(code: string, refs: seq<Reference>)
    requires IsHex(code) && BoundsValid(refs, |code| / 2)
    ensures |TextOf(Patched(BytesOf(code), refs))| == |code| <==> |code| % 2 == 0
  {
  }
}

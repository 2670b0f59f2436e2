/**
  The parser against the canonical printer: what is printed is read back exactly when it respects the
  limits, and whatever is read respects them.
*/
module JsonRoundTrip {
  import opened Sequences
  import opened Wrappers
  import opened JsonText
  import opened JsonValue
  import opened JsonParser
  import opened JsonCanonical
  import Digits

  /** The limits on a value that starts at nesting depth `depth`. */
  predicate Fits(v: Json, depth: nat, limits: Limits)
    decreases v
  {
    match v
    case Str(s) => StringFits(s, limits)
    case Arr(items) => depth < limits.depth && ItemsFit(0, items, depth + 1, limits)
    case Obj(members) => depth < limits.depth && MembersFit(0, members, depth + 1, limits)
    case _ => true
  }

  predicate StringFits(s: Text, limits: Limits) {
    Utf8Length(EncodeChars(s)) <= limits.stringBytes
  }

  /** The limits on items of which `before` have been read already. */
  predicate ItemsFit(before: nat, items: seq<Json>, depth: nat, limits: Limits)
    decreases items
  {
    before + |items| <= limits.arrayItems && forall i | 0 <= i < |items| :: Fits(items[i], depth, limits)
  }

  predicate MemberFits(e: Entry<Json>, depth: nat, limits: Limits)
    decreases e
  {
    StringFits(e.key, limits) && Fits(e.value, depth, limits)
  }

  predicate MembersFit(before: nat, members: seq<Entry<Json>>, depth: nat, limits: Limits)
    decreases members
  {
    && before + |members| <= limits.members
    && forall i | 0 <= i < |members| :: StringFits(members[i].key, limits) && Fits(members[i].value, depth, limits)
  }

  /** The parse succeeds exactly when the printed value fits, and then gives it back. */
  predicate Reads<T(==)>(r: Parsed<T>, fits: bool, value: T, rest: Text) {
    if fits then r == Ok((value, rest)) else r.Err?
  }

  predicate EndsNumber(k: Text) {
    k == [] || !IsDigit(k[0])
  }

  predicate StartsValue(t: Text) {
    t != [] && !IsSpace(t[0]) && t[0] != CLOSE_BRACE && t[0] != CLOSE_BRACKET
  }

  lemma {:induction false} QuotedBytes(s: Text)
    ensures Utf8Length(Quoted(s)) == Utf8Length(EncodeChars(s)) + 2
  {
    var e := EncodeChars(s);
    AsciiPrefixBytes([QUOTE], e + [QUOTE]);
    assert Quoted(s) == [QUOTE] + (e + [QUOTE]);
    Utf8Append(e, [QUOTE]);
    AsciiRunBytes([QUOTE]);
  }

  lemma StringReads(s: Text, k: Text, limits: Limits)
    ensures Starts(Quoted(s) + k, QUOTE)
    ensures Reads(ParseString(Quoted(s) + k, limits), StringFits(s, limits), s, k)
  {
    var e := EncodeChars(s);
    var t := Quoted(s) + k;
    ScanFindsClosingQuote(s, k);
    assert t[1..] == e + [QUOTE] + k;
    assert t[..|e| + 2] == Quoted(s) && t[|e| + 2..] == k;
    assert Quoted(s)[1..|e| + 1] == e;
    QuotedBytes(s);
    DecodeUndoesEncode(s);
  }

  lemma {:induction false} PrintStarts(v: Json, k: Text)
    ensures StartsValue(Print(v) + k)
    ensures Starts(Print(v) + k, OPEN_BRACE) <==> v.Obj?
    ensures Starts(Print(v) + k, OPEN_BRACKET) <==> v.Arr?
    ensures Starts(Print(v) + k, QUOTE) <==> v.Str?
  {
    if v.Num? {
      NaturalStart(Digits.Magnitude(v.n));
    }
  }

  lemma OtherWord(w: Text, word: Text, k: Text)
    requires w != [] && word != [] && w[0] != word[0]
    ensures !(w <= word + k)
  {
    assert w[0] != (word + k)[0];
  }

  lemma NumberIsNoWord(n: int, k: Text)
    ensures var t := Integer(n) + k; !(TRUE <= t) && !(FALSE <= t) && !(NULL <= t)
  {
    NaturalStart(Digits.Magnitude(n));
    OtherWord(TRUE, Integer(n), k);
    OtherWord(FALSE, Integer(n), k);
    OtherWord(NULL, Integer(n), k);
  }

  lemma WordIsRead(word: Text, k: Text)
    ensures word <= word + k && (word + k)[|word|..] == k
  {
  }

  lemma WordsRead(k: Text, limits: Limits)
    ensures ParseScalar(NULL + k, limits) == Ok((Null, k))
    ensures ParseScalar(TRUE + k, limits) == Ok((Bool(true), k))
    ensures ParseScalar(FALSE + k, limits) == Ok((Bool(false), k))
  {
    WordIsRead(NULL, k);
    WordIsRead(TRUE, k);
    WordIsRead(FALSE, k);
    OtherWord(TRUE, NULL, k);
    OtherWord(FALSE, NULL, k);
    OtherWord(TRUE, FALSE, k);
    assert (NULL + k)[4..] == k && (TRUE + k)[4..] == k && (FALSE + k)[5..] == k;
    assert NULL <= NULL + k && TRUE <= TRUE + k && FALSE <= FALSE + k;
    assert !(TRUE <= NULL + k) && !(FALSE <= NULL + k) && !(TRUE <= FALSE + k);
  }

  lemma {:induction false} ScalarReads(v: Json, k: Text, depth: nat, limits: Limits)
    requires !v.Arr? && !v.Obj? && WellFormed(v) && EndsNumber(k)
    ensures Reads(ParseScalar(Print(v) + k, limits), Fits(v, depth, limits), Norm(v), k)
  {
    PrintStarts(v, k);
    match v
    case Null =>
      WordsRead(k, limits);
    case Bool(b) =>
      WordsRead(k, limits);
    case Num(n) =>
      NumberIsNoWord(n, k);
      IntegerRoundTrip(n, k);
    case Str(s) =>
      StringReads(s, k, limits);
  }

  // -------------------------------------------------------------------- containers

  lemma {:induction false} ValueReads(v: Json, k: Text, depth: nat, limits: Limits)
    requires WellFormed(v) && EndsNumber(k)
    ensures Reads(ParseValue(Print(v) + k, depth, limits), Fits(v, depth, limits), Norm(v), k)
    decreases v, 1, 0
  {
    var t := Print(v) + k;
    PrintStarts(v, k);
    assert SkipSpace(t) == t;
    if v.Arr? {
      ArrayReads(v, k, depth, limits);
    } else if v.Obj? {
      ObjectReads(v, k, depth, limits);
    } else {
      ScalarReads(v, k, depth, limits);
    }
  }

  lemma {:induction false} ArrayReads(v: Json, k: Text, depth: nat, limits: Limits)
    requires v.Arr? && WellFormed(v) && EndsNumber(k)
    ensures Reads(ParseArray((Print(v) + k)[1..], depth + 1, limits),
                  ItemsFit(0, v.items, depth + 1, limits), Norm(v), k)
    decreases v, 0, 1
  {
    var t := ItemsText(v.items, k);
    assert (Print(v) + k)[1..] == t;
    if v.items == [] {
      assert t == [CLOSE_BRACKET] + k;
      assert t[1..] == k;
    } else {
      ItemsStart(v.items, k);
      ItemsRead(v, v.items, k, depth + 1, limits, []);
      assert [] + NormItems(v.items) == NormItems(v.items);
    }
  }

  lemma {:induction false} JoinSplit(first: Text, others: seq<Text>, k: Text)
    ensures Join([first] + others) + k == first + if others == [] then k else [COMMA] + (Join(others) + k)
  {
    assert ([first] + others)[1..] == others;
    if others != [] {
      AppendAssociates(first + [COMMA], Join(others), k);
      AppendAssociates(first, [COMMA], Join(others) + k);
    }
  }

  lemma SeparatorReads(close: Unit, k: Text)
    requires close == CLOSE_BRACE || close == CLOSE_BRACKET
    ensures ParseSeparator([close] + k, close) == (Close, k)
    ensures ParseSeparator([COMMA] + k, close) == (More, k)
  {
    assert ([close] + k)[1..] == k && ([COMMA] + k)[1..] == k;
  }

  lemma {:induction false} LastItem(t: Text, item: Json, fits: bool, k: Text, depth: nat, limits: Limits,
                                    done: seq<Json>, allFit: bool)
    requires Reads(ParseValue(t, depth, limits), fits, item, [CLOSE_BRACKET] + k)
    requires allFit == (|done| < limits.arrayItems && fits)
    ensures Reads(ParseItems(t, depth, limits, done), allFit, Arr(done + [item]), k)
  {
    SeparatorReads(CLOSE_BRACKET, k);
  }

  lemma {:induction false} NextItem(t: Text, item: Json, rest: Text, depth: nat, limits: Limits, done: seq<Json>)
    requires |done| < limits.arrayItems && ParseValue(t, depth, limits) == Ok((item, [COMMA] + rest))
    ensures ParseItems(t, depth, limits, done) == ParseItems(rest, depth, limits, done + [item])
  {
    SeparatorReads(CLOSE_BRACKET, rest);
  }

  lemma {:induction false} OneMoreItem(t: Text, item: Json, fits: bool, rest: Text, restFit: bool, result: Json, k: Text,
                                       depth: nat, limits: Limits, done: seq<Json>, allFit: bool)
    requires Reads(ParseValue(t, depth, limits), fits, item, [COMMA] + rest)
    requires Reads(ParseItems(rest, depth, limits, done + [item]), restFit, result, k)
    requires allFit == (|done| < limits.arrayItems && fits && restFit)
    ensures Reads(ParseItems(t, depth, limits, done), allFit, result, k)
  {
    if |done| < limits.arrayItems && fits {
      NextItem(t, item, rest, depth, limits, done);
    }
  }

  function ItemsText(items: seq<Json>, k: Text): Text {
    Join(PrintItems(items)) + ([CLOSE_BRACKET] + k)
  }

  /** The text behind the first of several items. */
  function BehindItem(items: seq<Json>, k: Text): Text
    requires items != []
  {
    if |items| == 1 then [CLOSE_BRACKET] + k else [COMMA] + ItemsText(items[1..], k)
  }

  lemma ItemsTextSplit(items: seq<Json>, k: Text)
    requires items != []
    ensures ItemsText(items, k) == Print(items[0]) + BehindItem(items, k)
  {
    JoinSplit(Print(items[0]), PrintItems(items[1..]), [CLOSE_BRACKET] + k);
  }

  lemma ItemsStart(items: seq<Json>, k: Text)
    requires items != []
    ensures StartsValue(ItemsText(items, k))
  {
    ItemsTextSplit(items, k);
    PrintStarts(items[0], BehindItem(items, k));
  }

  lemma {:induction false} NormItemsSplit(done: seq<Json>, items: seq<Json>)
    requires items != []
    ensures done + [Norm(items[0])] + NormItems(items[1..]) == done + NormItems(items)
  {
    AppendAssociates(done, [Norm(items[0])], NormItems(items[1..]));
  }

  lemma {:induction false} ItemsRead(v: Json, items: seq<Json>, k: Text, depth: nat, limits: Limits, done: seq<Json>)
    requires v.Arr? && items != [] && forall x | x in items :: x in v.items && WellFormed(x)
    ensures Reads(ParseItems(ItemsText(items, k), depth, limits, done),
                  ItemsFit(|done|, items, depth, limits), Arr(done + NormItems(items)), k)
    decreases v, 0, 0, |items|
  {
    var t, others := ItemsText(items, k), items[1..];
    var item, fits, allFit := Norm(items[0]), Fits(items[0], depth, limits), ItemsFit(|done|, items, depth, limits);
    ItemsTextSplit(items, k);
    NormItemsSplit(done, items);
    ItemsFitSplit(|done|, items, depth, limits);
    assert items[0] in items;
    ValueReads(items[0], BehindItem(items, k), depth, limits);
    if |items| == 1 {
      LastItem(t, item, fits, k, depth, limits, done, allFit);
      AppendEmpty(done + [item]);
    } else {
      ItemsRead(v, others, k, depth, limits, done + [item]);
      OneMoreItem(t, item, fits, ItemsText(others, k), ItemsFit(|done| + 1, others, depth, limits),
                  Arr(done + [item] + NormItems(others)), k, depth, limits, done, allFit);
    }
  }

  lemma ItemsFitSplit(before: nat, items: seq<Json>, depth: nat, limits: Limits)
    requires items != []
    ensures ItemsFit(before, items, depth, limits)
       <==> before < limits.arrayItems && Fits(items[0], depth, limits) && ItemsFit(before + 1, items[1..], depth, limits)
  {
    assert forall i | 0 < i < |items| :: items[i] == items[1..][i - 1];
  }

  lemma {:induction false} OneMember(t: Text, key: Text, keyFits: bool, behind: Text, value: Json, valueFits: bool, k: Text,
                                     depth: nat, limits: Limits, done: seq<Entry<Json>>, fits: bool)
    requires Starts(t, QUOTE) && !HasKey(done, key)
    requires Reads(ParseString(t, limits), keyFits, key, [COLON] + behind)
    requires Reads(ParseValue(behind, depth, limits), valueFits, value, k)
    requires fits == (keyFits && valueFits)
    ensures Reads(ParseMember(t, depth, limits, done), fits, Entry(key, value), k)
  {
    assert SkipSpace(t) == t;
    assert SkipSpace([COLON] + behind) == [COLON] + behind;
    assert ([COLON] + behind)[1..] == behind;
  }

  lemma MemberText(key: Text, value: Text, k: Text)
    ensures PrintMember(key, value) + k == Quoted(key) + ([COLON] + (value + k))
  {
  }

  lemma {:induction false} MemberReads(v: Json, e: Entry<Json>, k: Text, depth: nat, limits: Limits, done: seq<Entry<Json>>)
    requires v.Obj? && e in v.members && WellFormed(e.value) && EndsNumber(k) && !HasKey(done, e.key)
    ensures Reads(ParseMember(PrintMember(e.key, Print(e.value)) + k, depth, limits, done),
                  MemberFits(e, depth, limits), Entry(e.key, Norm(e.value)), k)
    decreases v, 0, 0, 0
  {
    var behind := Print(e.value) + k;
    MemberText(e.key, Print(e.value), k);
    StringReads(e.key, [COLON] + behind, limits);
    ValueReads(e.value, k, depth, limits);
    OneMember(Quoted(e.key) + ([COLON] + behind), e.key, StringFits(e.key, limits), behind, Norm(e.value),
              Fits(e.value, depth, limits), k, depth, limits, done, MemberFits(e, depth, limits));
  }

  lemma {:induction false} LastMember(t: Text, entry: Entry<Json>, fits: bool, k: Text,
                                      depth: nat, limits: Limits, done: seq<Entry<Json>>, allFit: bool)
    requires Reads(ParseMember(t, depth, limits, done), fits, entry, [CLOSE_BRACE] + k)
    requires allFit == (|done| < limits.members && fits)
    ensures Reads(ParseMembers(t, depth, limits, done), allFit, Obj(done + [entry]), k)
  {
    SeparatorReads(CLOSE_BRACE, k);
  }

  lemma {:induction false} NextMember(t: Text, entry: Entry<Json>, rest: Text, depth: nat, limits: Limits,
                                      done: seq<Entry<Json>>)
    requires |done| < limits.members && ParseMember(t, depth, limits, done) == Ok((entry, [COMMA] + rest))
    ensures ParseMembers(t, depth, limits, done) == ParseMembers(rest, depth, limits, done + [entry])
  {
    SeparatorReads(CLOSE_BRACE, rest);
  }

  lemma {:induction false} OneMoreMember(t: Text, entry: Entry<Json>, fits: bool, rest: Text, restFit: bool,
                                         result: Json, k: Text, depth: nat, limits: Limits, done: seq<Entry<Json>>, allFit: bool)
    requires Reads(ParseMember(t, depth, limits, done), fits, entry, [COMMA] + rest)
    requires Reads(ParseMembers(rest, depth, limits, done + [entry]), restFit, result, k)
    requires allFit == (|done| < limits.members && fits && restFit)
    ensures Reads(ParseMembers(t, depth, limits, done), allFit, result, k)
  {
    if |done| < limits.members && fits {
      NextMember(t, entry, rest, depth, limits, done);
    }
  }

  function MembersText(es: seq<Entry<Json>>, k: Text): Text {
    Join(Values(PrintMembers(es))) + ([CLOSE_BRACE] + k)
  }

  /** The text behind the first of several members. */
  function BehindMember(es: seq<Entry<Json>>, k: Text): Text
    requires es != []
  {
    if |es| == 1 then [CLOSE_BRACE] + k else [COMMA] + MembersText(es[1..], k)
  }

  lemma MembersTextSplit(es: seq<Entry<Json>>, k: Text)
    requires es != []
    ensures MembersText(es, k) == PrintMember(es[0].key, Print(es[0].value)) + BehindMember(es, k)
    ensures StartsValue(MembersText(es, k))
  {
    var first := PrintMember(es[0].key, Print(es[0].value));
    ValuesOfCons(Entry(es[0].key, first), PrintMembers(es[1..]));
    JoinSplit(first, Values(PrintMembers(es[1..])), [CLOSE_BRACE] + k);
    assert first[0] == QUOTE;
  }

  lemma {:induction false} ValuesOfCons<V>(e: Entry<V>, rest: seq<Entry<V>>)
    ensures Values([e] + rest) == [e.value] + Values(rest)
  {
  }

  lemma {:induction false} NormMembersSplit(done: seq<Entry<Json>>, es: seq<Entry<Json>>)
    requires es != []
    ensures done + [Entry(es[0].key, Norm(es[0].value))] + NormMembers(es[1..]) == done + NormMembers(es)
  {
    AppendAssociates(done, [Entry(es[0].key, Norm(es[0].value))], NormMembers(es[1..]));
  }

  lemma {:induction false} MembersRead(v: Json, es: seq<Entry<Json>>, k: Text, depth: nat, limits: Limits,
                                       done: seq<Entry<Json>>)
    requires v.Obj? && es != [] && UniqueKeys(es) && forall e | e in es :: e in v.members && WellFormed(e.value)
    requires forall e | e in es :: !HasKey(done, e.key)
    ensures Reads(ParseMembers(MembersText(es, k), depth, limits, done),
                  MembersFit(|done|, es, depth, limits), Obj(done + NormMembers(es)), k)
    decreases v, 0, 0, |es|
  {
    var t, others, entry := MembersText(es, k), es[1..], Entry(es[0].key, Norm(es[0].value));
    var fits, allFit := MemberFits(es[0], depth, limits), MembersFit(|done|, es, depth, limits);
    MembersTextSplit(es, k);
    NormMembersSplit(done, es);
    MembersFitSplit(|done|, es, depth, limits);
    assert es[0] in es;
    MemberReads(v, es[0], BehindMember(es, k), depth, limits, done);
    if |es| == 1 {
      LastMember(t, entry, fits, k, depth, limits, done, allFit);
      AppendEmpty(done + [entry]);
    } else {
      NewKeys(es, done, entry);
      MembersRead(v, others, k, depth, limits, done + [entry]);
      OneMoreMember(t, entry, fits, MembersText(others, k), MembersFit(|done| + 1, others, depth, limits),
                    Obj(done + [entry] + NormMembers(others)), k, depth, limits, done, allFit);
    }
  }

  lemma MembersFitSplit(before: nat, es: seq<Entry<Json>>, depth: nat, limits: Limits)
    requires es != []
    ensures MembersFit(before, es, depth, limits)
       <==> before < limits.members && MemberFits(es[0], depth, limits) && MembersFit(before + 1, es[1..], depth, limits)
  {
    assert forall i | 0 < i < |es| :: es[i] == es[1..][i - 1];
  }

  lemma NewKeys(es: seq<Entry<Json>>, done: seq<Entry<Json>>, entry: Entry<Json>)
    requires es != [] && UniqueKeys(es) && entry.key == es[0].key && forall e | e in es :: !HasKey(done, e.key)
    ensures UniqueKeys(es[1..]) && forall e | e in es[1..] :: e in es && !HasKey(done + [entry], e.key)
  {
    forall e | e in es[1..]
      ensures e in es && !HasKey(done + [entry], e.key)
    {
      HasKeyAppend(done, entry, e.key);
    }
  }

  lemma {:induction false} ObjectReads(v: Json, k: Text, depth: nat, limits: Limits)
    requires v.Obj? && WellFormed(v) && EndsNumber(k)
    ensures Reads(ParseObject((Print(v) + k)[1..], depth + 1, limits),
                  MembersFit(0, v.members, depth + 1, limits), Norm(v), k)
    decreases v, 0, 1
  {
    var es := Sort(v.members);
    ObjectText(v, k);
    NormSorted(v.members);
    SortHasSame(v.members);
    if es == [] {
      assert ([CLOSE_BRACE] + k)[1..] == k;
    } else {
      SortAscends(v.members);
      AscendingIsUnique(es);
      SameFit(v.members, es, depth + 1, limits);
      AllWellFormed(v.members, es);
      MembersTextSplit(es, k);
      MembersRead(v, es, k, depth + 1, limits, []);
      assert [] + NormMembers(es) == NormMembers(es);
    }
  }

  lemma {:induction false} ObjectText(v: Json, k: Text)
    requires v.Obj?
    ensures (Print(v) + k)[1..] == MembersText(Sort(v.members), k)
    ensures v.members == [] ==> MembersText(Sort(v.members), k) == [CLOSE_BRACE] + k
  {
    PrintSorted(v.members);
    Unwrapped(OPEN_BRACE, Join(Values(PrintMembers(Sort(v.members)))), CLOSE_BRACE, k);
    AppendEmpty([CLOSE_BRACE] + k);
  }

  lemma Unwrapped(opening: Unit, inner: Text, closing: Unit, k: Text)
    ensures ([opening] + inner + [closing] + k)[1..] == inner + ([closing] + k)
  {
    var rest := inner + ([closing] + k);
    assert [opening] + inner + [closing] + k == [opening] + rest;
  }

  lemma AllWellFormed(a: seq<Entry<Json>>, b: seq<Entry<Json>>)
    requires forall e :: e in b <==> e in a
    requires forall i | 0 <= i < |a| :: WellFormed(a[i].value)
    ensures forall e | e in b :: WellFormed(e.value)
  {
    forall e | e in b
      ensures WellFormed(e.value)
    {
      assert e in a;
    }
  }

  lemma {:induction false} SameFit(a: seq<Entry<Json>>, b: seq<Entry<Json>>, depth: nat, limits: Limits)
    requires |a| == |b| && forall e :: e in a <==> e in b
    ensures MembersFit(0, a, depth, limits) == MembersFit(0, b, depth, limits)
  {
    forall i | 0 <= i < |a|
      ensures a[i] in b
    {
      assert a[i] in a;
    }
    forall i | 0 <= i < |b|
      ensures b[i] in a
    {
      assert b[i] in b;
    }
  }

  // ------------------------------------------------------------------ main results

  /**
    Parsing a canonical text gives the value back, with its members in canonical order, exactly when
    the text and the value respect the limits.
  */
  lemma {:induction false} RoundTrip(v: Json, limits: Limits)
    requires WellFormed(v)
    ensures
      var r := ParseBoundedJson(Print(v), limits);
      if Utf8Length(Print(v)) <= limits.bytes && Fits(v, 0, limits) then r == Ok(Norm(v)) else r.Err?
    ensures CanonicalJson(v) == Some(Print(v)) && Denote(Norm(v)) == Denote(v)
  {
    HasSafeNumbers(v);
    AppendEmpty(Print(v));
    ValueReads(v, [], 0, limits);
    NormKeepsMeaning(v);
  }

  lemma {:induction false} HasSafeNumbers(v: Json)
    requires WellFormed(v)
    ensures SafeNumbers(v)
  {
    match v
    case Arr(items) =>
      forall i | 0 <= i < |items|
        ensures SafeNumbers(items[i])
      {
        HasSafeNumbers(items[i]);
      }
    case Obj(members) =>
      forall i | 0 <= i < |members|
        ensures SafeNumbers(members[i].value)
      {
        HasSafeNumbers(members[i].value);
      }
    case _ =>
  }

  /** Limits large enough for a given value. */
  function Generous(v: Json): (limits: Limits)
    ensures Fits(v, 0, limits)
  {
    var n := Largest(v);
    LargestSuffices(v, 0, Limits(Utf8Length(Print(v)), n, n, n, n));
    Limits(Utf8Length(Print(v)), n, n, n, n)
  }

  /** A bound on the depth and on the size of every part of a value. */
  function Largest(v: Json): nat {
    match v
    case Str(s) => Utf8Length(EncodeChars(s))
    case Arr(items) => |items| + LargestItem(items) + 1
    case Obj(members) => |members| + LargestMember(members) + 1
    case _ => 0
  }

  function LargestItem(items: seq<Json>): (n: nat)
    ensures forall i | 0 <= i < |items| :: Largest(items[i]) <= n
  {
    if items == [] then 0 else Largest(items[0]) + LargestItem(items[1..])
  }

  function LargestMember(members: seq<Entry<Json>>): (n: nat)
    ensures forall i | 0 <= i < |members| :: Largest(members[i].value) + Utf8Length(EncodeChars(members[i].key)) <= n
  {
    if members == [] then 0
    else Largest(members[0].value) + Utf8Length(EncodeChars(members[0].key)) + LargestMember(members[1..])
  }

  lemma {:induction false} LargestSuffices(v: Json, depth: nat, limits: Limits)
    requires depth + Largest(v) <= limits.depth
    requires Largest(v) <= limits.members && Largest(v) <= limits.arrayItems && Largest(v) <= limits.stringBytes
    ensures Fits(v, depth, limits)
  {
    match v
    case Arr(items) =>
      forall i | 0 <= i < |items|
        ensures Fits(items[i], depth + 1, limits)
      {
        LargestSuffices(items[i], depth + 1, limits);
      }
    case Obj(members) =>
      forall i | 0 <= i < |members|
        ensures Fits(members[i].value, depth + 1, limits)
      {
        LargestSuffices(members[i].value, depth + 1, limits);
      }
    case _ =>
  }

  /** Two values have the same canonical text exactly when they denote the same thing. */
  lemma {:induction false} CanonicalTextIsIdentity(v: Json, w: Json)
    requires WellFormed(v) && WellFormed(w)
    ensures Print(v) == Print(w) <==> Denote(v) == Denote(w)
  {
    if Print(v) == Print(w) {
      SameTextSameNorm(v, w);
      NormKeepsMeaning(v);
      NormKeepsMeaning(w);
    }
    if Denote(v) == Denote(w) {
      PrintDependsOnMeaning(v, w);
    }
  }

  lemma {:induction false} SameTextSameNorm(v: Json, w: Json)
    requires WellFormed(v) && WellFormed(w) && Print(v) == Print(w)
    ensures Norm(v) == Norm(w)
  {
    var r := ParseBoundedJson(Print(v), Generous(v));
    RoundTrip(v, Generous(v));
    RoundTrip(w, Generous(v));
    assert r == Ok(Norm(v));
    assert r == Ok(Norm(w));
  }
}

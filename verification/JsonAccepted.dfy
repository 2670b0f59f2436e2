/**
  What the parser accepts: every value it returns respects the limits, has unique keys and only safe
  integers, whatever the text was.
*/
module JsonAccepted {
  import opened Sequences
  import opened Wrappers
  import opened JsonText
  import opened JsonValue
  import opened JsonParser

  /** The limits on a decoded value that starts at nesting depth `depth`. */
  predicate Bounded(v: Json, depth: nat, limits: Limits)
    decreases v
  {
    match v
    case Str(s) => Utf8Length(s) <= limits.stringBytes
    case Arr(items) =>
      && depth < limits.depth
      && |items| <= limits.arrayItems
      && forall i | 0 <= i < |items| :: Bounded(items[i], depth + 1, limits)
    case Obj(members) =>
      && depth < limits.depth
      && |members| <= limits.members
      && forall i | 0 <= i < |members| :: MemberBounded(members[i], depth + 1, limits)
    case _ => true
  }

  predicate MemberBounded(e: Entry<Json>, depth: nat, limits: Limits)
    decreases e
  {
    Utf8Length(e.key) <= limits.stringBytes && Bounded(e.value, depth, limits)
  }

  predicate Good(v: Json, depth: nat, limits: Limits) {
    Bounded(v, depth, limits) && WellFormed(v)
  }

  predicate GoodItems(items: seq<Json>, depth: nat, limits: Limits) {
    forall i | 0 <= i < |items| :: Good(items[i], depth, limits)
  }

  predicate GoodMember(e: Entry<Json>, depth: nat, limits: Limits) {
    MemberBounded(e, depth, limits) && WellFormed(e.value)
  }

  predicate GoodMembers(members: seq<Entry<Json>>, depth: nat, limits: Limits) {
    UniqueKeys(members) && forall i | 0 <= i < |members| :: GoodMember(members[i], depth, limits)
  }

  lemma {:induction false} ScanEndsAtQuote(t: Text)
    requires Scan(t).Some?
    ensures t[Scan(t).value - 1] == QUOTE
  {
    if t[0] != QUOTE {
      ScanEndsAtQuote(t[if t[0] == BACKSLASH then 2 else 1..]);
    }
  }

  lemma {:induction false} UnquotedBytes(content: Text)
    ensures Utf8Length([QUOTE] + content + [QUOTE]) == Utf8Length(content) + 2
  {
    AsciiPrefixBytes([QUOTE], content + [QUOTE]);
    AppendAssociates([QUOTE], content, [QUOTE]);
    Utf8Append(content, [QUOTE]);
    AsciiRunBytes([QUOTE]);
  }

  lemma StringIsBounded(t: Text, limits: Limits)
    requires Starts(t, QUOTE) && ParseString(t, limits).Ok?
    ensures Utf8Length(ParseString(t, limits).value.0) <= limits.stringBytes
  {
    var n := Scan(t[1..]).value;
    var encoded := t[..1 + n];
    var content := encoded[1..n];
    ScanEndsAtQuote(t[1..]);
    assert t[1..][n - 1] == encoded[n];
    assert encoded == [QUOTE] + content + [QUOTE];
    UnquotedBytes(content);
    DecodedIsNoLonger(content);
  }

  lemma ScalarIsGood(t: Text, depth: nat, limits: Limits)
    requires ParseScalar(t, limits).Ok?
    ensures Good(ParseScalar(t, limits).value.0, depth, limits)
  {
    if Starts(t, QUOTE) {
      StringIsBounded(t, limits);
    }
  }

  lemma {:induction false} ValueIsGood(t: Text, depth: nat, limits: Limits)
    requires ParseValue(t, depth, limits).Ok?
    ensures Good(ParseValue(t, depth, limits).value.0, depth, limits)
    decreases |t|, 0
  {
    var t := SkipSpace(t);
    if Starts(t, OPEN_BRACE) {
      ObjectIsGood(t[1..], depth + 1, limits);
    } else if Starts(t, OPEN_BRACKET) {
      ArrayIsGood(t[1..], depth + 1, limits);
    } else {
      ScalarIsGood(t, depth, limits);
    }
  }

  lemma {:induction false} ArrayIsGood(t: Text, depth: nat, limits: Limits)
    requires 0 < depth <= limits.depth && ParseArray(t, depth, limits).Ok?
    ensures Good(ParseArray(t, depth, limits).value.0, depth - 1, limits)
    decreases |t|, 2
  {
    var rest := SkipSpace(t);
    if !Starts(rest, CLOSE_BRACKET) {
      ItemsAreGood(rest, depth, limits, []);
    }
  }

  lemma {:induction false} ItemsAreGood(t: Text, depth: nat, limits: Limits, done: seq<Json>)
    requires 0 < depth <= limits.depth && GoodItems(done, depth, limits) && ParseItems(t, depth, limits, done).Ok?
    ensures Good(ParseItems(t, depth, limits, done).value.0, depth - 1, limits)
    decreases |t|, 1
  {
    ValueIsGood(t, depth, limits);
    var (item, rest) := ParseValue(t, depth, limits).value;
    var (separator, behind) := ParseSeparator(rest, CLOSE_BRACKET);
    assert GoodItems(done + [item], depth, limits);
    if separator.More? {
      ItemsAreGood(behind, depth, limits, done + [item]);
    } else {
      ArrayOfGood(done + [item], depth, limits);
    }
  }

  lemma ArrayOfGood(items: seq<Json>, depth: nat, limits: Limits)
    requires 0 < depth <= limits.depth && |items| <= limits.arrayItems && GoodItems(items, depth, limits)
    ensures Good(Arr(items), depth - 1, limits)
  {
  }

  lemma {:induction false} ObjectIsGood(t: Text, depth: nat, limits: Limits)
    requires 0 < depth <= limits.depth && ParseObject(t, depth, limits).Ok?
    ensures Good(ParseObject(t, depth, limits).value.0, depth - 1, limits)
    decreases |t|, 2
  {
    var rest := SkipSpace(t);
    if !Starts(rest, CLOSE_BRACE) {
      MembersAreGood(rest, depth, limits, []);
    }
  }

  lemma {:induction false} MemberIsGood(t: Text, depth: nat, limits: Limits, done: seq<Entry<Json>>)
    requires ParseMember(t, depth, limits, done).Ok?
    ensures GoodMember(ParseMember(t, depth, limits, done).value.0, depth, limits)
    ensures !HasKey(done, ParseMember(t, depth, limits, done).value.0.key)
    decreases |t|, 0
  {
    var t := SkipSpace(t);
    StringIsBounded(t, limits);
    var rest := SkipSpace(ParseString(t, limits).value.1);
    ValueIsGood(rest[1..], depth, limits);
  }

  lemma {:induction false} MembersAreGood(t: Text, depth: nat, limits: Limits, done: seq<Entry<Json>>)
    requires 0 < depth <= limits.depth && GoodMembers(done, depth, limits) && ParseMembers(t, depth, limits, done).Ok?
    ensures Good(ParseMembers(t, depth, limits, done).value.0, depth - 1, limits)
    decreases |t|, 1
  {
    MemberIsGood(t, depth, limits, done);
    var (entry, rest) := ParseMember(t, depth, limits, done).value;
    var (separator, behind) := ParseSeparator(rest, CLOSE_BRACE);
    NewMemberIsGood(done, entry, depth, limits);
    if separator.More? {
      MembersAreGood(behind, depth, limits, done + [entry]);
    } else {
      ObjectOfGood(done + [entry], depth, limits);
    }
  }

  lemma NewMemberIsGood(done: seq<Entry<Json>>, entry: Entry<Json>, depth: nat, limits: Limits)
    requires GoodMembers(done, depth, limits) && GoodMember(entry, depth, limits) && !HasKey(done, entry.key)
    ensures GoodMembers(done + [entry], depth, limits)
  {
  }

  lemma ObjectOfGood(members: seq<Entry<Json>>, depth: nat, limits: Limits)
    requires 0 < depth <= limits.depth && |members| <= limits.members && GoodMembers(members, depth, limits)
    ensures Good(Obj(members), depth - 1, limits)
  {
  }

  /** Every accepted text is within the byte limit and gives a value inside all the others. */
  lemma {:induction false} AcceptedIsBounded(text: Text, limits: Limits)
    requires ParseBoundedJson(text, limits).Ok?
    ensures
      var v := ParseBoundedJson(text, limits).value;
      && Utf8Length(text) <= limits.bytes
      && Bounded(v, 0, limits)
      && WellFormed(v)
  {
    ValueIsGood(text, 0, limits);
  }
}

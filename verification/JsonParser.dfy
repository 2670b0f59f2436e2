/**
  The bounded JSON parser. The functions say what the text in front of the cursor parses to and what
  is left behind it; `BoundedJsonParser` is the cursor that computes them.
*/
module JsonParser {
  import opened Wrappers
  import opened JsonText
  import opened JsonValue
  import Digits

  datatype Limits = Limits(bytes: nat, depth: nat, members: nat, arrayItems: nat, stringBytes: nat)

  datatype JsonError =
    | LimitBytes | LimitDepth | LimitMembers | LimitArray | LimitString | DuplicateKey | Invalid

  type Parsed<T> = Result<(T, Text), JsonError>

  predicate Starts(t: Text, u: Unit) {
    t != [] && t[0] == u
  }

  // ------------------------------------------------------------ specification

  /** A string literal in front of the text, whose first unit is the opening quote. */
  function ParseString(t: Text, limits: Limits): (r: Parsed<Text>)
    requires Starts(t, QUOTE)
    ensures r.Ok? ==> |r.value.1| < |t|
  {
    var end := Scan(t[1..]);
    if end.None? then Err(Invalid)
    else
      var encoded := t[..1 + end.value];
      if Utf8Length(encoded) > limits.stringBytes + 2 then Err(LimitString)
      else
        var decoded := DecodeChars(encoded[1..|encoded| - 1]);
        if decoded.None? then Err(Invalid) else Ok((decoded.value, t[1 + end.value..]))
  }

  function ParseValue(t: Text, depth: nat, limits: Limits): (r: Parsed<Json>)
    ensures r.Ok? ==> |r.value.1| < |t|
    decreases |t|, 0
  {
    var t := SkipSpace(t);
    if Starts(t, OPEN_BRACE) || Starts(t, OPEN_BRACKET) then
      if depth >= limits.depth then Err(LimitDepth)
      else if t[0] == OPEN_BRACE then ParseObject(t[1..], depth + 1, limits)
      else ParseArray(t[1..], depth + 1, limits)
    else ParseScalar(t, limits)
  }

  function ParseScalar(t: Text, limits: Limits): (r: Parsed<Json>)
    ensures r.Ok? ==> |r.value.1| < |t|
  {
    if Starts(t, QUOTE) then
      var (s, rest) :- ParseString(t, limits);
      Ok((Str(s), rest))
    else if TRUE <= t then Ok((Bool(true), t[4..]))
    else if FALSE <= t then Ok((Bool(false), t[5..]))
    else if NULL <= t then Ok((Null, t[4..]))
    else
      var n := ParseInteger(t);
      if n.None? then Err(Invalid) else Ok((Num(n.value.0), n.value.1))
  }

  /** What stands behind a member or an item: the closing bracket, a comma, or neither. */
  datatype Separator = Close | More | Malformed

  function ParseSeparator(t: Text, close: Unit): (r: (Separator, Text))
    ensures if r.0.Malformed? then |r.1| <= |t| else |r.1| < |t|
  {
    var t := SkipSpace(t);
    if Starts(t, close) then (Close, t[1..])
    else if Starts(t, COMMA) then (More, t[1..])
    else (Malformed, t)
  }

  function ParseObject(t: Text, depth: nat, limits: Limits): (r: Parsed<Json>)
    ensures r.Ok? ==> |r.value.1| < |t|
    decreases |t|, 2
  {
    var t := SkipSpace(t);
    if Starts(t, CLOSE_BRACE) then Ok((Obj([]), t[1..])) else ParseMembers(t, depth, limits, [])
  }

  function ParseMembers(t: Text, depth: nat, limits: Limits, done: seq<Entry<Json>>): (r: Parsed<Json>)
    ensures r.Ok? ==> |r.value.1| < |t|
    decreases |t|, 1
  {
    if |done| >= limits.members then Err(LimitMembers)
    else
      var (entry, rest) :- ParseMember(t, depth, limits, done);
      var (separator, rest) := ParseSeparator(rest, CLOSE_BRACE);
      match separator
      case Close => Ok((Obj(done + [entry]), rest))
      case More => ParseMembers(rest, depth, limits, done + [entry])
      case Malformed => Err(Invalid)
  }

  function ParseMember(t: Text, depth: nat, limits: Limits, done: seq<Entry<Json>>): (r: Parsed<Entry<Json>>)
    ensures r.Ok? ==> |r.value.1| < |t|
    decreases |t|, 0
  {
    var t := SkipSpace(t);
    if !Starts(t, QUOTE) then Err(Invalid)
    else
      var (key, rest) :- ParseString(t, limits);
      if HasKey(done, key) then Err(DuplicateKey)
      else
        var rest := SkipSpace(rest);
        if !Starts(rest, COLON) then Err(Invalid)
        else
          var (value, rest) :- ParseValue(rest[1..], depth, limits);
          Ok((Entry(key, value), rest))
  }

  function ParseArray(t: Text, depth: nat, limits: Limits): (r: Parsed<Json>)
    ensures r.Ok? ==> |r.value.1| < |t|
    decreases |t|, 2
  {
    var rest := SkipSpace(t);
    if Starts(rest, CLOSE_BRACKET) then Ok((Arr([]), rest[1..]))
    else ParseItems(rest, depth, limits, [])
  }

  function ParseItems(t: Text, depth: nat, limits: Limits, done: seq<Json>): (r: Parsed<Json>)
    ensures r.Ok? ==> |r.value.1| < |t|
    decreases |t|, 1
  {
    if |done| >= limits.arrayItems then Err(LimitArray)
    else
      var (item, rest) :- ParseValue(t, depth, limits);
      var (separator, rest) := ParseSeparator(rest, CLOSE_BRACKET);
      match separator
      case Close => Ok((Arr(done + [item]), rest))
      case More => ParseItems(rest, depth, limits, done + [item])
      case Malformed => Err(Invalid)
  }

  /** The whole text: one value and white space, within the byte limit. */
  function ParseBoundedJson(text: Text, limits: Limits): Result<Json, JsonError> {
    if Utf8Length(text) > limits.bytes then Err(LimitBytes) else ParseText(text, limits)
  }

  function ParseText(text: Text, limits: Limits): Result<Json, JsonError> {
    var (v, rest) :- ParseValue(text, 0, limits);
    if SkipSpace(rest) == [] then Ok(v) else Err(Invalid)
  }

  // --------------------------------------------------------------------- cursor

  /**
    What a parsing step at `from` must leave behind: on success its value and a cursor in front of
    the text that is left; on failure its error. The cursor never moves back, and only a failing
    step can leave it past the end, by at most one unit.
  */
  ghost predicate Advanced<T>(source: Text, from: nat, to: nat, spec: Parsed<T>, r: Result<T, JsonError>)
    requires from <= |source|
  {
    && from <= to <= |source| + 1
    && match spec
       case Ok((v, rest)) => r == Ok(v) && to <= |source| && source[to..] == rest
       case Err(e) => r == Err(e)
  }

  /** The scan from `from` has come as far as `to`, which is one past the end behind a last backslash. */
  ghost predicate Scanned(source: Text, from: nat, to: nat)
    requires from <= |source|
  {
    if to <= |source| then from <= to && Scan(source[from..]) == Later(to - from, Scan(source[to..]))
    else Scan(source[from..]) == None
  }

  /** How far the scan has come once the unit at `i` has been read. */
  lemma ScanStep(source: Text, from: nat, i: nat)
    requires from <= i < |source| && Scanned(source, from, i)
    ensures source[i] == QUOTE ==> Scan(source[from..]) == Some(i + 1 - from)
    ensures source[i] == BACKSLASH ==> Scanned(source, from, i + 2)
    ensures source[i] != QUOTE && source[i] != BACKSLASH ==>
              if source[i] < 0x20 then Scan(source[from..]) == None else Scanned(source, from, i + 1)
  {
    ghost var here := source[i..];
    assert here[1..] == source[i + 1..];
    if i + 2 <= |source| {
      assert here[2..] == source[i + 2..];
    }
  }

  lemma NoLiteral(source: Text, start: nat, limits: Limits)
    requires start < |source| && source[start] == QUOTE
    requires Scan(source[start + 1..]) == None
    ensures ParseString(source[start..], limits) == Err(Invalid)
  {
    assert source[start..][1..] == source[start + 1..];
  }

  /** `keys` holds the pairwise different keys of `entries`. */
  ghost predicate KeysOf<V>(keys: set<Text>, entries: seq<Entry<V>>) {
    && |keys| == |entries|
    && forall k :: k in keys <==> HasKey(entries, k)
  }

  class BoundedJsonParser {
    const source: Text
    const limits: Limits
    var index: nat

    constructor (source: Text, limits: Limits)
      ensures this.source == source && this.limits == limits && index == 0
    {
      this.source := source;
      this.limits := limits;
      index := 0;
    }

    method Parse() returns (r: Result<Json, JsonError>)
      requires index == 0
      modifies this`index
      ensures r == ParseText(source, limits)
    {
      assert source[0..] == source;
      var result := Value(0);
      if result.Err? {
        return Err(result.error);
      }
      Space();
      if index != |source| {
        return Err(Invalid);
      }
      return Ok(result.value);
    }

    method Space()
      requires index <= |source|
      modifies this`index
      ensures old(index) <= index <= |source|
      ensures source[index..] == SkipSpace(old(source[index..]))
    {
      while index < |source| && IsSpace(source[index])
        invariant old(index) <= index <= |source|
        invariant SkipSpace(source[index..]) == SkipSpace(old(source[index..]))
      {
        assert source[index..][1..] == source[index + 1..];
        index := index + 1;
      }
    }

    method Take(u: Unit) returns (taken: bool)
      requires index <= |source|
      modifies this`index
      ensures taken == Starts(old(source[index..]), u)
      ensures index == old(index) + (if taken then 1 else 0)
      ensures index <= |source|
    {
      taken := index < |source| && source[index] == u;
      if taken {
        index := index + 1;
      }
    }

    method Separate(close: Unit) returns (separator: Separator)
      requires index <= |source|
      modifies this`index
      ensures old(index) <= index <= |source|
      ensures !separator.Malformed? ==> index > old(index)
      ensures ParseSeparator(old(source[index..]), close) == (separator, source[index..])
    {
      Space();
      ghost var rest := source[index..];
      var closed := Take(close);
      if closed {
        assert rest[1..] == source[index..];
        return Close;
      }
      var more := Take(COMMA);
      if !more {
        return Malformed;
      }
      assert rest[1..] == source[index..];
      return More;
    }

    /** The literal from its opening quote at `start` to its closing quote just before the cursor. */
    method Literal(start: nat) returns (r: Result<Text, JsonError>)
      requires start + 1 < index <= |source| && source[start] == QUOTE
      requires Scan(source[start..][1..]) == Some(index - start - 1)
      ensures Advanced(source, start, index, ParseString(source[start..], limits), r)
    {
      ghost var text := source[start..];
      var encoded := source[start..index];
      assert encoded == text[..index - start] && text[index - start..] == source[index..];
      if Utf8Length(encoded) > limits.stringBytes + 2 {
        return Err(LimitString);
      }
      var decoded := DecodeChars(encoded[1..|encoded| - 1]);
      if decoded.None? {
        return Err(Invalid);
      }
      return Ok(decoded.value);
    }

    /** Moves behind the closing quote of the literal whose content starts at the cursor. */
    method SkipContent() returns (closed: bool)
      requires index <= |source|
      modifies this`index
      ensures old(index) <= index <= |source| + 1
      ensures closed ==> index <= |source| && Scan(source[old(index)..]) == Some(index - old(index))
      ensures !closed ==> Scan(source[old(index)..]) == None
    {
      ghost var from := index;
      assert source[from..] == source[index..];
      while index < |source|
        invariant from <= index <= |source| + 1
        invariant Scanned(source, from, index)
      {
        var u := source[index];
        ScanStep(source, from, index);
        if u == QUOTE {
          index := index + 1;
          return true;
        }
        if u == BACKSLASH {
          index := index + 2;
        } else if u < 0x20 {
          index := index + 1;
          return false;
        } else {
          index := index + 1;
        }
      }
      return false;
    }

    method StringLiteral() returns (r: Result<Text, JsonError>)
      requires index <= |source| && Starts(source[index..], QUOTE)
      modifies this`index
      ensures Advanced(source, old(index), index, ParseString(old(source[index..]), limits), r)
      ensures r.Ok? ==> index > old(index)
    {
      var start := index;
      index := index + 1;
      var closed := SkipContent();
      if closed {
        assert source[start..][1..] == source[start + 1..];
        r := Literal(start);
      } else {
        NoLiteral(source, start, limits);
        return Err(Invalid);
      }
    }

    method Number() returns (r: Result<int, JsonError>)
      requires index <= |source|
      modifies this`index
      ensures
        var spec := ParseInteger(old(source[index..]));
        Advanced(source, old(index), index, if spec.None? then Err(Invalid) else Ok(spec.value), r)
    {
      var negative := index < |source| && source[index] == MINUS;
      var start := if negative then index + 1 else index;
      assert negative ==> source[index..][1..] == source[start..];
      var matched := MatchNatural(source[start..]);
      if matched == 0 {
        return Err(Invalid);
      }
      var digits := source[start..][..matched];
      assert source[start..][matched..] == source[start + matched..];
      index := start + matched;
      var magnitude: int := Digits.Value(10, UnitDigits(digits));
      if (negative && digits == [ZERO]) || !IsSafe(magnitude) {
        return Err(Invalid);
      }
      return Ok(if negative then 0 - magnitude else magnitude);
    }

    method Value(depth: nat) returns (r: Result<Json, JsonError>)
      requires index <= |source|
      modifies this`index
      ensures Advanced(source, old(index), index, ParseValue(old(source[index..]), depth, limits), r)
      ensures r.Ok? ==> index > old(index)
      decreases |source| - index, 1
    {
      Space();
      ghost var text := source[index..];
      if index < |source| && (source[index] == OPEN_BRACE || source[index] == OPEN_BRACKET) {
        if depth >= limits.depth {
          return Err(LimitDepth);
        }
        assert text[1..] == source[index + 1..];
        if source[index] == OPEN_BRACE {
          r := Object(depth + 1);
        } else {
          r := Array(depth + 1);
        }
        return;
      }
      if index < |source| && source[index] == QUOTE {
        var s := StringLiteral();
        return if s.Ok? then Ok(Str(s.value)) else Err(s.error);
      }
      if TRUE <= source[index..] {
        assert text[4..] == source[index + 4..];
        index := index + 4;
        return Ok(Bool(true));
      }
      if FALSE <= source[index..] {
        assert text[5..] == source[index + 5..];
        index := index + 5;
        return Ok(Bool(false));
      }
      if NULL <= source[index..] {
        assert text[4..] == source[index + 4..];
        index := index + 4;
        return Ok(Null);
      }
      var n := Number();
      return if n.Ok? then Ok(Num(n.value)) else Err(n.error);
    }

    /** One member of an object whose members so far are `members`, with the set `keys` of their keys. */
    method Member(depth: nat, keys: set<Text>, ghost members: seq<Entry<Json>>) returns (r: Result<Entry<Json>, JsonError>)
      requires index <= |source|
      requires KeysOf(keys, members)
      modifies this`index
      ensures Advanced(source, old(index), index, ParseMember(old(source[index..]), depth, limits, members), r)
      ensures r.Ok? ==> index > old(index) && r.value.key !in keys
      decreases |source| - index, 0
    {
      Space();
      if index == |source| || source[index] != QUOTE {
        return Err(Invalid);
      }
      var key := StringLiteral();
      if key.Err? {
        return Err(key.error);
      }
      if key.value in keys {
        return Err(DuplicateKey);
      }
      Space();
      ghost var colon := source[index..];
      var separated := Take(COLON);
      if !separated {
        return Err(Invalid);
      }
      assert colon[1..] == source[index..];
      var value := Value(depth);
      if value.Err? {
        return Err(value.error);
      }
      return Ok(Entry(key.value, value.value));
    }

    method Object(depth: nat) returns (r: Result<Json, JsonError>)
      requires index < |source|
      modifies this`index
      ensures Advanced(source, old(index), index, ParseObject(old(source[index + 1..]), depth, limits), r)
      decreases |source| - index, 0
    {
      index := index + 1;
      Space();
      ghost var text := source[index..];
      var closed := Take(CLOSE_BRACE);
      if closed {
        assert text[1..] == source[index..];
        return Ok(Obj([]));
      }
      r := Members(depth);
    }

    method Members(depth: nat) returns (r: Result<Json, JsonError>)
      requires index <= |source|
      modifies this`index
      ensures Advanced(source, old(index), index, ParseMembers(old(source[index..]), depth, limits, []), r)
      decreases |source| - index, 2
    {
      ghost var text := source[index..];
      var members: seq<Entry<Json>> := [];
      var keys: set<Text> := {};
      while true
        invariant old(index) <= index <= |source|
        invariant ParseMembers(source[index..], depth, limits, members) == ParseMembers(text, depth, limits, [])
        invariant KeysOf(keys, members)
        decreases |source| - index
      {
        if |keys| >= limits.members {
          return Err(LimitMembers);
        }
        var entry := Member(depth, keys, members);
        if entry.Err? {
          return Err(entry.error);
        }
        KeysGrow(keys, members, entry.value);
        keys := keys + {entry.value.key};
        members := members + [entry.value];
        var separator := Separate(CLOSE_BRACE);
        if separator.Close? {
          return Ok(Obj(members));
        }
        if separator.Malformed? {
          return Err(Invalid);
        }
      }
    }

    method Array(depth: nat) returns (r: Result<Json, JsonError>)
      requires index < |source|
      modifies this`index
      ensures Advanced(source, old(index), index, ParseArray(old(source[index + 1..]), depth, limits), r)
      decreases |source| - index, 0
    {
      index := index + 1;
      Space();
      ghost var text := source[index..];
      var closed := Take(CLOSE_BRACKET);
      if closed {
        assert text[1..] == source[index..];
        return Ok(Arr([]));
      }
      r := Items(depth);
    }

    method Items(depth: nat) returns (r: Result<Json, JsonError>)
      requires index <= |source|
      modifies this`index
      ensures Advanced(source, old(index), index, ParseItems(old(source[index..]), depth, limits, []), r)
      decreases |source| - index, 2
    {
      ghost var text := source[index..];
      var items: seq<Json> := [];
      while true
        invariant old(index) <= index <= |source|
        invariant ParseItems(source[index..], depth, limits, items) == ParseItems(text, depth, limits, [])
        decreases |source| - index
      {
        if |items| >= limits.arrayItems {
          return Err(LimitArray);
        }
        var item := Value(depth);
        if item.Err? {
          return Err(item.error);
        }
        items := items + [item.value];
        var separator := Separate(CLOSE_BRACKET);
        if separator.Close? {
          return Ok(Arr(items));
        }
        if separator.Malformed? {
          return Err(Invalid);
        }
      }
    }
  }

  lemma KeysGrow<V>(keys: set<Text>, done: seq<Entry<V>>, e: Entry<V>)
    requires KeysOf(keys, done) && e.key !in keys
    ensures KeysOf(keys + {e.key}, done + [e])
  {
    forall k
      ensures k in keys + {e.key} <==> HasKey(done + [e], k)
    {
      HasKeyAppend(done, e, k);
    }
  }

  /** `parseBoundedJson` on the decoded text. */
  method ParseJson(text: Text, limits: Limits) returns (r: Result<Json, JsonError>)
    ensures r == ParseBoundedJson(text, limits)
  {
    if Utf8Length(text) > limits.bytes {
      return Err(LimitBytes);
    }
    var parser := new BoundedJsonParser(text, limits);
    r := parser.Parse();
  }
}

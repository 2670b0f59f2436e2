/**
  The canonical printer: compact JSON whose object members are sorted by the code points of their
  keys. Two values print alike exactly when they denote the same thing.
*/
module JsonCanonical {
  import opened Wrappers
  import opened JsonText
  import opened JsonValue
  import opened CodePointOrder

  // --------------------------------------------------------------- sorting by key

  /** A stable insertion in front of the first entry that does not come before the new one. */
  function Insert<V>(e: Entry<V>, sorted: seq<Entry<V>>): seq<Entry<V>> {
    if sorted == [] || !Before(sorted[0].key, e.key) then [e] + sorted
    else [sorted[0]] + Insert(e, sorted[1..])
  }

  function Sort<V>(entries: seq<Entry<V>>): seq<Entry<V>> {
    if entries == [] then [] else Insert(entries[0], Sort(entries[1..]))
  }

  predicate Ascending<V>(entries: seq<Entry<V>>) {
    forall i, j | 0 <= i < j < |entries| :: Before(entries[i].key, entries[j].key)
  }

  lemma {:induction false} InsertKeeps<V>(e: Entry<V>, sorted: seq<Entry<V>>)
    ensures multiset(Insert(e, sorted)) == multiset{e} + multiset(sorted)
  {
    if sorted != [] && Before(sorted[0].key, e.key) {
      InsertKeeps(e, sorted[1..]);
      assert sorted == [sorted[0]] + sorted[1..];
    }
  }

  lemma {:induction false} SortKeeps<V>(entries: seq<Entry<V>>)
    ensures multiset(Sort(entries)) == multiset(entries)
  {
    if entries != [] {
      SortKeeps(entries[1..]);
      InsertKeeps(entries[0], Sort(entries[1..]));
      assert entries == [entries[0]] + entries[1..];
    }
  }

  lemma {:induction false} SortHasSame<V>(entries: seq<Entry<V>>)
    ensures |Sort(entries)| == |entries|
    ensures forall e :: e in Sort(entries) <==> e in entries
    ensures forall k :: HasKey(Sort(entries), k) <==> HasKey(entries, k)
  {
    SortKeeps(entries);
    assert |multiset(Sort(entries))| == |multiset(entries)|;
    SameMembers(entries, Sort(entries));
    SameMembers(Sort(entries), entries);
  }

  lemma SameMembers<V>(a: seq<Entry<V>>, b: seq<Entry<V>>)
    requires multiset(a) == multiset(b)
    ensures forall e | e in a :: e in b
    ensures forall k | HasKey(a, k) :: HasKey(b, k)
  {
    forall e | e in a
      ensures e in b
    {
      assert e in multiset(a);
    }
    forall k | HasKey(a, k)
      ensures HasKey(b, k)
    {
      var i :| 0 <= i < |a| && a[i].key == k;
      assert a[i] in b;
    }
  }

  lemma PrependAscends<V>(e: Entry<V>, rest: seq<Entry<V>>)
    requires Ascending(rest) && forall x | x in rest :: Before(e.key, x.key)
    ensures Ascending([e] + rest)
  {
  }

  lemma {:induction false} InsertAscends<V>(e: Entry<V>, sorted: seq<Entry<V>>)
    requires Ascending(sorted) && !HasKey(sorted, e.key)
    ensures Ascending(Insert(e, sorted))
  {
    if sorted == [] {
    } else if Before(sorted[0].key, e.key) {
      var rest := sorted[1..];
      assert forall i | 0 <= i < |rest| :: rest[i] == sorted[i + 1];
      InsertAscends(e, rest);
      InsertKeeps(e, rest);
      forall x | x in Insert(e, rest)
        ensures Before(sorted[0].key, x.key)
      {
        assert x in multiset(Insert(e, rest));
      }
      PrependAscends(sorted[0], Insert(e, rest));
    } else {
      BeforeFirstIsBeforeAll(e, sorted);
      PrependAscends(e, sorted);
    }
  }

  lemma BeforeFirstIsBeforeAll<V>(e: Entry<V>, sorted: seq<Entry<V>>)
    requires Ascending(sorted) && !HasKey(sorted, e.key) && sorted != [] && !Before(sorted[0].key, e.key)
    ensures forall x | x in sorted :: Before(e.key, x.key)
  {
    assert sorted[0].key != e.key;
    BeforeIsTotal(sorted[0].key, e.key);
    forall x | x in sorted
      ensures Before(e.key, x.key)
    {
      if x != sorted[0] {
        var i :| 0 <= i < |sorted| && sorted[i] == x;
        BeforeTransitive(e.key, sorted[0].key, x.key);
      }
    }
  }

  lemma {:induction false} SortAscends<V>(entries: seq<Entry<V>>)
    requires UniqueKeys(entries)
    ensures Ascending(Sort(entries))
  {
    if entries != [] {
      var rest := entries[1..];
      assert forall i | 0 <= i < |rest| :: rest[i] == entries[i + 1];
      SortAscends(rest);
      SortHasSame(rest);
      InsertAscends(entries[0], Sort(rest));
    }
  }

  lemma AscendingIsUnique<V>(entries: seq<Entry<V>>)
    requires Ascending(entries)
    ensures UniqueKeys(entries)
  {
    forall i, j | 0 <= i < j < |entries|
      ensures entries[i].key != entries[j].key
    {
      BeforeIsTotal(entries[i].key, entries[j].key);
    }
  }

  lemma FirstIsLeast<V>(a: seq<Entry<V>>, e: Entry<V>)
    requires Ascending(a) && e in a
    ensures e == a[0] || Before(a[0].key, e.key)
  {
  }

  /** Only one ascending order exists for given entries. */
  lemma {:induction false} AscendingDetermined<V>(a: seq<Entry<V>>, b: seq<Entry<V>>)
    requires Ascending(a) && Ascending(b)
    requires forall e :: e in a <==> e in b
    ensures a == b
  {
    assert a != [] ==> a[0] in a;
    assert b != [] ==> b[0] in b;
    if a != [] {
      FirstIsLeast(a, b[0]);
      FirstIsLeast(b, a[0]);
      BeforeIsTotal(a[0].key, b[0].key);
      BeforeIsTotal(b[0].key, b[0].key);
      forall e
        ensures e in a[1..] <==> e in b[1..]
      {
        TailMembers(a, e);
        TailMembers(b, e);
      }
      AscendingDetermined(a[1..], b[1..]);
      assert a == [a[0]] + a[1..] && b == [b[0]] + b[1..];
    }
  }

  lemma TailMembers<V>(a: seq<Entry<V>>, e: Entry<V>)
    requires Ascending(a) && a != []
    ensures e in a[1..] <==> e in a && e != a[0]
  {
    assert a == [a[0]] + a[1..];
    if e in a[1..] {
      BeforeIsTotal(a[0].key, a[0].key);
    }
  }

  // ------------------------------------------------------------------- the printer

  function Join(parts: seq<Text>): Text {
    if parts == [] then []
    else if |parts| == 1 then parts[0]
    else parts[0] + [COMMA] + Join(parts[1..])
  }

  function Values<V>(entries: seq<Entry<V>>): (vs: seq<V>)
    ensures |vs| == |entries| && forall i | 0 <= i < |entries| :: vs[i] == entries[i].value
  {
    if entries == [] then [] else [entries[0].value] + Values(entries[1..])
  }

  /**
    The canonical text. The members of an object are printed and then sorted by their keys, which
    gives the same text as sorting them first.
  */
  function Print(v: Json): Text {
    match v
    case Null => NULL
    case Bool(b) => if b then TRUE else FALSE
    case Num(n) => Integer(n)
    case Str(s) => Quoted(s)
    case Arr(items) => [OPEN_BRACKET] + Join(PrintItems(items)) + [CLOSE_BRACKET]
    case Obj(members) => [OPEN_BRACE] + Join(Values(Sort(PrintMembers(members)))) + [CLOSE_BRACE]
  }

  function PrintItems(items: seq<Json>): seq<Text> {
    if items == [] then [] else [Print(items[0])] + PrintItems(items[1..])
  }

  function PrintMember(key: Text, value: Text): Text {
    Quoted(key) + [COLON] + value
  }

  function PrintMembers(members: seq<Entry<Json>>): seq<Entry<Text>> {
    if members == [] then []
    else [Entry(members[0].key, PrintMember(members[0].key, Print(members[0].value)))] + PrintMembers(members[1..])
  }

  predicate SafeNumbers(v: Json) {
    match v
    case Num(n) => IsSafe(n)
    case Arr(items) => forall i | 0 <= i < |items| :: SafeNumbers(items[i])
    case Obj(members) => forall i | 0 <= i < |members| :: SafeNumbers(members[i].value)
    case _ => true
  }

  /** `canonicalJson`, which refuses unsafe numbers. */
  function CanonicalJson(v: Json): Option<Text> {
    if SafeNumbers(v) then Some(Print(v)) else None
  }

  // --------------------------------------------------------------- the normal form

  /** The same value with the members of every object in canonical order. */
  function Norm(v: Json): Json {
    match v
    case Arr(items) => Arr(NormItems(items))
    case Obj(members) => Obj(Sort(NormMembers(members)))
    case _ => v
  }

  function NormItems(items: seq<Json>): (ns: seq<Json>)
    ensures |ns| == |items| && forall i | 0 <= i < |items| :: ns[i] == Norm(items[i])
  {
    if items == [] then [] else [Norm(items[0])] + NormItems(items[1..])
  }

  function NormMembers(members: seq<Entry<Json>>): (ns: seq<Entry<Json>>)
    ensures |ns| == |members|
    ensures forall i | 0 <= i < |members| :: ns[i] == Entry(members[i].key, Norm(members[i].value))
  {
    if members == [] then [] else [Entry(members[0].key, Norm(members[0].value))] + NormMembers(members[1..])
  }

  // ---- sorting commutes with whatever leaves the keys alone

  lemma {:induction false} PrintInserted(e: Entry<Json>, sorted: seq<Entry<Json>>)
    ensures PrintMembers(Insert(e, sorted))
         == Insert(Entry(e.key, PrintMember(e.key, Print(e.value))), PrintMembers(sorted))
  {
    if sorted != [] && Before(sorted[0].key, e.key) {
      PrintInserted(e, sorted[1..]);
      assert ([sorted[0]] + Insert(e, sorted[1..]))[1..] == Insert(e, sorted[1..]);
      assert PrintMembers(sorted)[1..] == PrintMembers(sorted[1..]);
    } else {
      assert ([e] + sorted)[1..] == sorted;
    }
  }

  lemma {:induction false} PrintSorted(members: seq<Entry<Json>>)
    ensures PrintMembers(Sort(members)) == Sort(PrintMembers(members))
  {
    if members != [] {
      PrintSorted(members[1..]);
      PrintInserted(members[0], Sort(members[1..]));
      assert PrintMembers(members)[1..] == PrintMembers(members[1..]);
    }
  }

  lemma {:induction false} NormInserted(e: Entry<Json>, sorted: seq<Entry<Json>>)
    ensures NormMembers(Insert(e, sorted)) == Insert(Entry(e.key, Norm(e.value)), NormMembers(sorted))
  {
    if sorted != [] && Before(sorted[0].key, e.key) {
      NormInserted(e, sorted[1..]);
      assert ([sorted[0]] + Insert(e, sorted[1..]))[1..] == Insert(e, sorted[1..]);
      assert NormMembers(sorted)[1..] == NormMembers(sorted[1..]);
    } else {
      assert ([e] + sorted)[1..] == sorted;
    }
  }

  lemma {:induction false} NormSorted(members: seq<Entry<Json>>)
    ensures NormMembers(Sort(members)) == Sort(NormMembers(members))
  {
    if members != [] {
      NormSorted(members[1..]);
      NormInserted(members[0], Sort(members[1..]));
      assert NormMembers(members)[1..] == NormMembers(members[1..]);
    }
  }

  lemma {:induction false} DenoteInserted(e: Entry<Json>, sorted: seq<Entry<Json>>)
    ensures DenoteMembers(Insert(e, sorted)) == Insert(Entry(e.key, Denote(e.value)), DenoteMembers(sorted))
  {
    if sorted != [] && Before(sorted[0].key, e.key) {
      DenoteInserted(e, sorted[1..]);
      assert ([sorted[0]] + Insert(e, sorted[1..]))[1..] == Insert(e, sorted[1..]);
      assert DenoteMembers(sorted)[1..] == DenoteMembers(sorted[1..]);
    } else {
      assert ([e] + sorted)[1..] == sorted;
    }
  }

  lemma {:induction false} DenoteSorted(members: seq<Entry<Json>>)
    ensures DenoteMembers(Sort(members)) == Sort(DenoteMembers(members))
  {
    if members != [] {
      DenoteSorted(members[1..]);
      DenoteInserted(members[0], Sort(members[1..]));
      assert DenoteMembers(members)[1..] == DenoteMembers(members[1..]);
    }
  }

  // ------------------------------------------------ equal meaning, equal normal form

  /** The map does not depend on the order of the entries. */
  lemma {:induction false} SortKeepsMap<V>(entries: seq<Entry<V>>)
    requires UniqueKeys(entries)
    ensures ToMap(Sort(entries)) == ToMap(entries)
  {
    var sorted := Sort(entries);
    SortAscends(entries);
    AscendingIsUnique(sorted);
    SortHasSame(entries);
    ToMapHolds(sorted);
    ToMapHolds(entries);
    forall k | k in ToMap(sorted)
      ensures ToMap(sorted)[k] == ToMap(entries)[k]
    {
      var i :| 0 <= i < |sorted| && sorted[i].key == k;
      assert sorted[i] in entries;
    }
  }

  /** A map determines the ascending order of the entries it was made from. */
  lemma {:induction false} MapDeterminesSort<V>(a: seq<Entry<V>>, b: seq<Entry<V>>)
    requires UniqueKeys(a) && UniqueKeys(b) && ToMap(a) == ToMap(b)
    ensures Sort(a) == Sort(b)
  {
    SortAscends(a);
    SortAscends(b);
    SortHasSame(a);
    SortHasSame(b);
    MapBounds(a, b);
    MapBounds(b, a);
    AscendingDetermined(Sort(a), Sort(b));
  }

  lemma {:induction false} MapBounds<V>(a: seq<Entry<V>>, b: seq<Entry<V>>)
    requires UniqueKeys(a) && UniqueKeys(b) && ToMap(a) == ToMap(b)
    ensures forall e | e in a :: e in b
  {
    ToMapHolds(a);
    ToMapHolds(b);
    forall e | e in a
      ensures e in b
    {
      var i :| 0 <= i < |a| && a[i] == e;
      assert HasKey(b, e.key);
      var j :| 0 <= j < |b| && b[j].key == e.key;
      assert b[j] == e;
    }
  }

  /** Putting the members in order does not change what a value denotes. */
  lemma {:induction false} NormKeepsMeaning(v: Json)
    requires WellFormed(v)
    ensures Denote(Norm(v)) == Denote(v)
  {
    match v
    case Arr(items) =>
      forall i | 0 <= i < |items|
        ensures Denote(Norm(items[i])) == Denote(items[i])
      {
        NormKeepsMeaning(items[i]);
      }
      assert DenoteItems(NormItems(items)) == DenoteItems(items);
    case Obj(members) =>
      forall i | 0 <= i < |members|
        ensures Denote(Norm(members[i].value)) == Denote(members[i].value)
      {
        NormKeepsMeaning(members[i].value);
      }
      assert DenoteMembers(NormMembers(members)) == DenoteMembers(members);
      DenoteSorted(NormMembers(members));
      SortKeepsMap(DenoteMembers(members));
    case _ =>
  }

  /** Objects with the same meaning have, in order, members with the same meaning. */
  lemma {:induction false} SortedMeaning(a: seq<Entry<Json>>, b: seq<Entry<Json>>)
    requires WellFormed(Obj(a)) && WellFormed(Obj(b)) && Denote(Obj(a)) == Denote(Obj(b))
    ensures |Sort(a)| == |Sort(b)| && DenoteMembers(Sort(a)) == DenoteMembers(Sort(b))
    ensures forall i | 0 <= i < |Sort(a)| ::
              && Sort(a)[i] in a && Sort(b)[i] in b
              && Denote(Sort(a)[i].value) == Denote(Sort(b)[i].value)
              && WellFormed(Sort(a)[i].value) && WellFormed(Sort(b)[i].value)
  {
    MapDeterminesSort(DenoteMembers(a), DenoteMembers(b));
    DenoteSorted(a);
    DenoteSorted(b);
    SortHasSame(a);
    SortHasSame(b);
    forall i | 0 <= i < |Sort(a)|
      ensures Sort(a)[i] in a && Sort(b)[i] in b && Denote(Sort(a)[i].value) == Denote(Sort(b)[i].value)
    {
      assert DenoteMembers(Sort(a))[i] == DenoteMembers(Sort(b))[i];
      assert Sort(a)[i] in Sort(a) && Sort(b)[i] in Sort(b);
    }
  }

  /** Values with the same meaning have the same normal form. */
  lemma {:induction false} MeaningDeterminesNorm(v: Json, w: Json)
    requires WellFormed(v) && WellFormed(w) && Denote(v) == Denote(w)
    ensures Norm(v) == Norm(w)
  {
    match v
    case Arr(items) =>
      var others := w.items;
      assert DenoteItems(items) == DenoteItems(others);
      forall i | 0 <= i < |items|
        ensures Norm(items[i]) == Norm(others[i])
      {
        assert DenoteItems(items)[i] == DenoteItems(others)[i];
        MeaningDeterminesNorm(items[i], others[i]);
      }
    case Obj(members) =>
      var others := w.members;
      SortedMeaning(members, others);
      forall i | 0 <= i < |Sort(members)|
        ensures Norm(Sort(members)[i].value) == Norm(Sort(others)[i].value)
      {
        MeaningDeterminesNorm(Sort(members)[i].value, Sort(others)[i].value);
      }
      NormPointwise(Sort(members), Sort(others));
      NormSorted(members);
      NormSorted(others);
    case _ =>
  }

  lemma {:induction false} NormPointwise(a: seq<Entry<Json>>, b: seq<Entry<Json>>)
    requires |a| == |b| && DenoteMembers(a) == DenoteMembers(b)
    requires forall i | 0 <= i < |a| :: Norm(a[i].value) == Norm(b[i].value)
    ensures NormMembers(a) == NormMembers(b)
  {
    forall i | 0 <= i < |a|
      ensures NormMembers(a)[i] == NormMembers(b)[i]
    {
      assert DenoteMembers(a)[i] == DenoteMembers(b)[i];
    }
  }

  // ------------------------------------------------------- printing the normal form

  /** The text of a value is the text of its normal form, whose members are already in order. */
  lemma {:induction false} PrintOfNorm(v: Json)
    requires WellFormed(v)
    ensures Print(Norm(v)) == Print(v)
  {
    match v
    case Arr(items) =>
      forall i | 0 <= i < |items|
        ensures Print(Norm(items[i])) == Print(items[i])
      {
        PrintOfNorm(items[i]);
      }
      PrintItemsOfNorm(items);
    case Obj(members) =>
      forall i | 0 <= i < |members|
        ensures Print(Norm(members[i].value)) == Print(members[i].value)
      {
        PrintOfNorm(members[i].value);
      }
      PrintMembersOfNorm(members);
      PrintSorted(NormMembers(members));
      SortAscends(NormMembers(members));
      SortIdempotent(Sort(NormMembers(members)));
      PrintSorted(Sort(NormMembers(members)));
    case _ =>
  }

  lemma {:induction false} SortIdempotent<V>(entries: seq<Entry<V>>)
    requires Ascending(entries)
    ensures Sort(entries) == entries
  {
    if entries != [] {
      var rest := entries[1..];
      assert forall i | 0 <= i < |rest| :: rest[i] == entries[i + 1];
      SortIdempotent(rest);
      InsertsFirst(entries[0], rest);
      assert entries == [entries[0]] + rest;
    }
  }

  lemma {:induction false} InsertsFirst<V>(e: Entry<V>, rest: seq<Entry<V>>)
    requires rest != [] ==> Before(e.key, rest[0].key)
    ensures Insert(e, rest) == [e] + rest
  {
    if rest != [] {
      BeforeIsTotal(e.key, rest[0].key);
    }
  }

  lemma {:induction false} PrintItemsOfNorm(items: seq<Json>)
    requires forall i | 0 <= i < |items| :: Print(Norm(items[i])) == Print(items[i])
    ensures PrintItems(NormItems(items)) == PrintItems(items)
  {
    if items != [] {
      PrintItemsOfNorm(items[1..]);
      assert NormItems(items)[1..] == NormItems(items[1..]);
    }
  }

  lemma {:induction false} PrintMembersOfNorm(members: seq<Entry<Json>>)
    requires forall i | 0 <= i < |members| :: Print(Norm(members[i].value)) == Print(members[i].value)
    ensures PrintMembers(NormMembers(members)) == PrintMembers(members)
  {
    if members != [] {
      PrintMembersOfNorm(members[1..]);
      assert NormMembers(members)[1..] == NormMembers(members[1..]);
    }
  }

  /** The canonical text depends on the meaning alone, not on the order in which members were inserted. */
  lemma {:induction false} PrintDependsOnMeaning(v: Json, w: Json)
    requires WellFormed(v) && WellFormed(w) && Denote(v) == Denote(w)
    ensures Print(v) == Print(w)
  {
    MeaningDeterminesNorm(v, w);
    PrintOfNorm(v);
    PrintOfNorm(w);
  }
}

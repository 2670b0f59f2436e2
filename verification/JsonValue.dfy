/**
  JSON values without fractions. A `Json` keeps the members of an object in a definite order; what it
  denotes does not.
*/
module JsonValue {
  import opened JsonText

  datatype Entry<+V> = Entry(key: Text, value: V)

  datatype Json =
    | Null
    | Bool(b: bool)
    | Num(n: int)
    | Str(s: Text)
    | Arr(items: seq<Json>)
    | Obj(members: seq<Entry<Json>>)

  predicate HasKey<V>(entries: seq<Entry<V>>, key: Text) {
    exists i | 0 <= i < |entries| :: entries[i].key == key
  }

  predicate UniqueKeys<V>(entries: seq<Entry<V>>) {
    forall i, j | 0 <= i < j < |entries| :: entries[i].key != entries[j].key
  }

  lemma HasKeyAppend<V>(done: seq<Entry<V>>, e: Entry<V>, k: Text)
    ensures HasKey(done + [e], k) <==> HasKey(done, k) || k == e.key
  {
    assert (done + [e])[|done|] == e;
    if HasKey(done, k) {
      var i :| 0 <= i < |done| && done[i].key == k;
      assert (done + [e])[i].key == k;
    }
  }

  /** The values the program handles: safe integers, and one member for each key of an object. */
  predicate WellFormed(v: Json) {
    match v
    case Num(n) => IsSafe(n)
    case Arr(items) => forall i | 0 <= i < |items| :: WellFormed(items[i])
    case Obj(members) => UniqueKeys(members) && forall i | 0 <= i < |members| :: WellFormed(members[i].value)
    case _ => true
  }

  // ---------------------------------------------------------------------- meaning

  datatype Meaning =
    | MNull
    | MBool(b: bool)
    | MNum(n: int)
    | MStr(s: Text)
    | MArr(items: seq<Meaning>)
    | MObj(members: map<Text, Meaning>)

  /** What a value stands for: objects are finite maps. */
  function Denote(v: Json): Meaning {
    match v
    case Null => MNull
    case Bool(b) => MBool(b)
    case Num(n) => MNum(n)
    case Str(s) => MStr(s)
    case Arr(items) => MArr(DenoteItems(items))
    case Obj(members) => MObj(ToMap(DenoteMembers(members)))
  }

  function DenoteItems(items: seq<Json>): (ms: seq<Meaning>)
    ensures |ms| == |items| && forall i | 0 <= i < |items| :: ms[i] == Denote(items[i])
  {
    if items == [] then [] else [Denote(items[0])] + DenoteItems(items[1..])
  }

  function DenoteMembers(members: seq<Entry<Json>>): (ms: seq<Entry<Meaning>>)
    ensures |ms| == |members|
    ensures forall i | 0 <= i < |members| :: ms[i] == Entry(members[i].key, Denote(members[i].value))
  {
    if members == [] then []
    else [Entry(members[0].key, Denote(members[0].value))] + DenoteMembers(members[1..])
  }

  function ToMap<V>(entries: seq<Entry<V>>): map<Text, V> {
    if entries == [] then map[] else ToMap(entries[1..])[entries[0].key := entries[0].value]
  }

  /** With unique keys, the map holds exactly the entries. */
  lemma {:induction false} ToMapHolds<V>(entries: seq<Entry<V>>)
    requires UniqueKeys(entries)
    ensures forall k :: k in ToMap(entries) <==> HasKey(entries, k)
    ensures forall i | 0 <= i < |entries| ::
              entries[i].key in ToMap(entries) && ToMap(entries)[entries[i].key] == entries[i].value
  {
    if entries != [] {
      var rest := entries[1..];
      ToMapHolds(rest);
      assert forall i | 0 <= i < |rest| :: rest[i] == entries[i + 1];
      forall k
        ensures k in ToMap(entries) <==> HasKey(entries, k)
      {
        if k == entries[0].key {
          assert HasKey(entries, k);
        } else if HasKey(entries, k) {
          var i :| 0 <= i < |entries| && entries[i].key == k;
          assert rest[i - 1].key == k;
        }
      }
      forall i | 0 <= i < |entries|
        ensures entries[i].key in ToMap(entries) && ToMap(entries)[entries[i].key] == entries[i].value
      {
        if i > 0 {
          assert entries[i] == rest[i - 1];
        }
      }
    }
  }
}

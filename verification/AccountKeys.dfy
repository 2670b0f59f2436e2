/**
  The Solana account-key compiler: requested accounts are merged by key, the payer comes first, the
  rest is ordered by signer and write access, and three counters describe the result.
*/
module AccountKeys {
  import opened Bytes
  import opened Wrappers

  type Key = seq<Byte>

  datatype Requested = Requested(key: Key, signer: bool, writable: bool, payer: bool)

  datatype Account = Account(key: Key, signer: bool, writable: bool, payer: bool, order: nat)

  datatype Compiled = Compiled(keys: seq<Key>, requiredSignatures: nat, readonlySigned: nat, readonlyUnsigned: nat)

  datatype CompileError = TransactionPayer

  // ----------------------------------------------------------------------- merging

  predicate Knows(merged: seq<Account>, key: Key) {
    exists i | 0 <= i < |merged| :: merged[i].key == key
  }

  predicate DistinctKeys(merged: seq<Account>) {
    forall i, j | 0 <= i < j < |merged| :: merged[i].key != merged[j].key
  }

  function Position(merged: seq<Account>, key: Key): (i: nat)
    requires Knows(merged, key)
    ensures i < |merged| && merged[i].key == key
  {
    if merged[0].key == key then 0
    else
      assert Knows(merged[1..], key) by {
        var i :| 0 <= i < |merged| && merged[i].key == key;
        assert merged[1..][i - 1] == merged[i];
      }
      1 + Position(merged[1..], key)
  }

  function Widened(a: Account, r: Requested): Account {
    a.(signer := a.signer || r.signer, writable := a.writable || r.writable, payer := a.payer || r.payer)
  }

  /** One request enters the map: a new key at the end, a known key with its flags widened. */
  function Absorb(merged: seq<Account>, r: Requested, order: nat): seq<Account> {
    if Knows(merged, r.key) then
      var i := Position(merged, r.key);
      merged[i := Widened(merged[i], r)]
    else merged + [Account(r.key, r.signer, r.writable, r.payer, order)]
  }

  function Merged(requested: seq<Requested>): seq<Account> {
    if requested == [] then []
    else
      var n := |requested| - 1;
      Absorb(Merged(requested[..n]), requested[n], n)
  }

  lemma MergedSnoc(requested: seq<Requested>, n: nat)
    requires n < |requested|
    ensures Merged(requested[..n + 1]) == Absorb(Merged(requested[..n]), requested[n], n)
  {
    assert requested[..n + 1][..n] == requested[..n];
  }

  predicate AsksFor(requested: seq<Requested>, key: Key) {
    exists i | 0 <= i < |requested| :: requested[i].key == key
  }

  predicate AsksSigner(requested: seq<Requested>, key: Key) {
    exists i | 0 <= i < |requested| :: requested[i].key == key && requested[i].signer
  }

  predicate AsksWritable(requested: seq<Requested>, key: Key) {
    exists i | 0 <= i < |requested| :: requested[i].key == key && requested[i].writable
  }

  predicate AsksPayer(requested: seq<Requested>, key: Key) {
    exists i | 0 <= i < |requested| :: requested[i].key == key && requested[i].payer
  }

  /** An account carries exactly the flags that some request for its key asked for. */
  predicate Unites(a: Account, requested: seq<Requested>) {
    && AsksFor(requested, a.key)
    && (a.signer <==> AsksSigner(requested, a.key))
    && (a.writable <==> AsksWritable(requested, a.key))
    && (a.payer <==> AsksPayer(requested, a.key))
  }

  lemma AsksSnoc(requested: seq<Requested>, r: Requested, key: Key)
    ensures
      var all := requested + [r];
      && (AsksFor(all, key) <==> AsksFor(requested, key) || r.key == key)
      && (AsksSigner(all, key) <==> AsksSigner(requested, key) || (r.key == key && r.signer))
      && (AsksWritable(all, key) <==> AsksWritable(requested, key) || (r.key == key && r.writable))
      && (AsksPayer(all, key) <==> AsksPayer(requested, key) || (r.key == key && r.payer))
  {
    var all := requested + [r];
    assert all[|requested|] == r;
    assert forall i | 0 <= i < |requested| :: all[i] == requested[i];
  }

  ghost predicate MergeInv(merged: seq<Account>, requested: seq<Requested>) {
    && DistinctKeys(merged)
    && (forall key :: Knows(merged, key) <==> AsksFor(requested, key))
    && (forall i | 0 <= i < |merged| :: Unites(merged[i], requested))
    && (forall i | 0 <= i < |merged| :: merged[i].order < |requested|)
    && (forall i, j | 0 <= i < j < |merged| :: merged[i].order < merged[j].order)
  }

  lemma AbsorbKeepsOrder(merged: seq<Account>, requested: seq<Requested>, r: Requested)
    requires MergeInv(merged, requested)
    ensures
      var after := Absorb(merged, r, |requested|);
      && DistinctKeys(after)
      && (forall i | 0 <= i < |after| :: after[i].order < |requested| + 1)
      && (forall i, j | 0 <= i < j < |after| :: after[i].order < after[j].order)
  {
    var after := Absorb(merged, r, |requested|);
    if Knows(merged, r.key) {
      assert |after| == |merged|;
      SameKeysAndOrder(merged, after);
    } else {
      var a := Account(r.key, r.signer, r.writable, r.payer, |requested|);
      assert after == merged + [a];
      LaterAccount(merged, a);
    }
  }

  lemma SameKeysAndOrder(before: seq<Account>, after: seq<Account>)
    requires |after| == |before| && DistinctKeys(before)
    requires forall i | 0 <= i < |after| :: after[i].key == before[i].key && after[i].order == before[i].order
    ensures DistinctKeys(after)
  {
  }

  lemma LaterAccount(merged: seq<Account>, a: Account)
    requires DistinctKeys(merged) && !Knows(merged, a.key)
    requires forall i | 0 <= i < |merged| :: merged[i].order < a.order
    requires forall i, j | 0 <= i < j < |merged| :: merged[i].order < merged[j].order
    ensures
      var after := merged + [a];
      DistinctKeys(after) && forall i, j | 0 <= i < j < |after| :: after[i].order < after[j].order
  {
    var after := merged + [a];
    assert after[|merged|] == a && forall i | 0 <= i < |merged| :: after[i] == merged[i];
  }

  lemma AbsorbKeepsMerge(merged: seq<Account>, requested: seq<Requested>, r: Requested)
    requires MergeInv(merged, requested)
    ensures MergeInv(Absorb(merged, r, |requested|), requested + [r])
  {
    var after := Absorb(merged, r, |requested|);
    AbsorbKeepsOrder(merged, requested, r);
    forall key
      ensures Knows(after, key) <==> AsksFor(requested + [r], key)
    {
      AsksSnoc(requested, r, key);
      AbsorbKnows(merged, r, |requested|, key);
    }
    forall i | 0 <= i < |after|
      ensures Unites(after[i], requested + [r])
    {
      AsksSnoc(requested, r, after[i].key);
      if i < |merged| {
        assert r.key == merged[i].key ==> Knows(merged, r.key);
      } else {
        NewKeyUnasked(requested, r.key);
      }
    }
  }

  lemma NewKeyUnasked(requested: seq<Requested>, key: Key)
    requires !AsksFor(requested, key)
    ensures !AsksSigner(requested, key) && !AsksWritable(requested, key) && !AsksPayer(requested, key)
  {
  }

  lemma AbsorbKnows(merged: seq<Account>, r: Requested, order: nat, key: Key)
    ensures Knows(Absorb(merged, r, order), key) <==> Knows(merged, key) || r.key == key
  {
    var after := Absorb(merged, r, order);
    assert forall i | 0 <= i < |merged| :: after[i].key == merged[i].key;
    if |after| > |merged| {
      assert after[|merged|].key == r.key;
    }
  }

  /** Merged keys are distinct, cover exactly the requests, and unite their flags, in order of first request. */
  lemma {:induction false} MergeUnites(requested: seq<Requested>)
    ensures MergeInv(Merged(requested), requested)
  {
    if requested != [] {
      var n := |requested| - 1;
      MergeUnites(requested[..n]);
      AbsorbKeepsMerge(Merged(requested[..n]), requested[..n], requested[n]);
      assert requested[..n] + [requested[n]] == requested;
    }
  }

  // ---------------------------------------------------------------------- ordering

  function Payers(accounts: seq<Account>): (r: seq<Account>)
    ensures forall a :: a in r <==> a in accounts && a.payer
  {
    if accounts == [] then []
    else (if accounts[0].payer then [accounts[0]] else []) + Payers(accounts[1..])
  }

  function Others(accounts: seq<Account>): (r: seq<Account>)
    ensures forall a :: a in r <==> a in accounts && !a.payer
  {
    if accounts == [] then []
    else (if accounts[0].payer then [] else [accounts[0]]) + Others(accounts[1..])
  }

  function Category(a: Account): nat {
    if a.signer then if a.writable then 0 else 1 else if a.writable then 2 else 3
  }

  predicate Precedes(a: Account, b: Account) {
    Category(a) < Category(b) || (Category(a) == Category(b) && a.order <= b.order)
  }

  predicate SortedAccounts(accounts: seq<Account>) {
    forall i, j | 0 <= i < j < |accounts| :: Precedes(accounts[i], accounts[j])
  }

  function Insert(a: Account, sorted: seq<Account>): seq<Account> {
    if sorted == [] || Precedes(a, sorted[0]) then [a] + sorted else [sorted[0]] + Insert(a, sorted[1..])
  }

  function Sorted(accounts: seq<Account>): seq<Account> {
    if accounts == [] then [] else Insert(accounts[0], Sorted(accounts[1..]))
  }

  lemma {:induction false} InsertKeeps(a: Account, sorted: seq<Account>)
    ensures forall x :: x in Insert(a, sorted) <==> x == a || x in sorted
    ensures forall key :: Knows(Insert(a, sorted), key) <==> a.key == key || Knows(sorted, key)
  {
    if sorted == [] || Precedes(a, sorted[0]) {
      ConsMembers(a, sorted);
    } else {
      InsertKeeps(a, sorted[1..]);
      ConsMembers(sorted[0], Insert(a, sorted[1..]));
      ConsMembers(sorted[0], sorted[1..]);
      assert sorted == [sorted[0]] + sorted[1..];
    }
  }

  lemma ConsMembers(a: Account, rest: seq<Account>)
    ensures forall x :: x in [a] + rest <==> x == a || x in rest
    ensures forall key :: Knows([a] + rest, key) <==> a.key == key || Knows(rest, key)
  {
    var all := [a] + rest;
    assert all[0] == a;
    forall key
      ensures Knows(all, key) <==> a.key == key || Knows(rest, key)
    {
      if Knows(rest, key) {
        var i :| 0 <= i < |rest| && rest[i].key == key;
        assert all[i + 1].key == key;
      }
    }
  }

  lemma {:induction false} SortKeeps(accounts: seq<Account>)
    ensures forall x :: x in Sorted(accounts) <==> x in accounts
    ensures forall key :: Knows(Sorted(accounts), key) <==> Knows(accounts, key)
    ensures |Sorted(accounts)| == |accounts|
  {
    if accounts != [] {
      SortKeeps(accounts[1..]);
      InsertKeeps(accounts[0], Sorted(accounts[1..]));
      InsertLength(accounts[0], Sorted(accounts[1..]));
      ConsMembers(accounts[0], accounts[1..]);
      assert accounts == [accounts[0]] + accounts[1..];
    }
  }

  lemma {:induction false} InsertLength(a: Account, sorted: seq<Account>)
    ensures |Insert(a, sorted)| == |sorted| + 1
  {
    if sorted != [] && !Precedes(a, sorted[0]) {
      InsertLength(a, sorted[1..]);
    }
  }

  lemma ConsSorted(a: Account, rest: seq<Account>)
    requires SortedAccounts(rest) && DistinctKeys(rest) && !Knows(rest, a.key)
    requires forall x | x in rest :: Precedes(a, x)
    ensures SortedAccounts([a] + rest) && DistinctKeys([a] + rest)
  {
  }

  lemma {:induction false} InsertSorts(a: Account, sorted: seq<Account>)
    requires SortedAccounts(sorted) && DistinctKeys(sorted) && !Knows(sorted, a.key)
    ensures SortedAccounts(Insert(a, sorted)) && DistinctKeys(Insert(a, sorted))
  {
    if sorted == [] || Precedes(a, sorted[0]) {
      ConsSorted(a, sorted);
    } else {
      var first, rest := sorted[0], sorted[1..];
      assert sorted == [first] + rest;
      ConsMembers(first, rest);
      assert !Knows(rest, first.key);
      InsertSorts(a, rest);
      InsertKeeps(a, rest);
      ConsSorted(first, Insert(a, rest));
    }
  }

  /** Sorting distinct accounts keeps them distinct and puts them in order. */
  lemma {:induction false} SortSorts(accounts: seq<Account>)
    requires DistinctKeys(accounts)
    ensures SortedAccounts(Sorted(accounts)) && DistinctKeys(Sorted(accounts))
  {
    if accounts != [] {
      SortSorts(accounts[1..]);
      SortKeeps(accounts[1..]);
      assert !Knows(accounts[1..], accounts[0].key);
      InsertSorts(accounts[0], Sorted(accounts[1..]));
    }
  }

  lemma {:induction false} OthersDistinct(accounts: seq<Account>)
    requires DistinctKeys(accounts)
    ensures DistinctKeys(Others(accounts))
    ensures forall key | Knows(Others(accounts), key) :: Knows(accounts, key)
  {
    if accounts != [] {
      var first, rest := accounts[0], accounts[1..];
      OthersDistinct(rest);
      assert accounts == [first] + rest;
      ConsMembers(first, rest);
      assert !Knows(rest, first.key);
      if !first.payer {
        ConsMembers(first, Others(rest));
      }
    }
  }

  predicate HasOnePayer(merged: seq<Account>) {
    |Payers(merged)| == 1 && Payers(merged)[0].signer && Payers(merged)[0].writable
  }

  function Ordered(merged: seq<Account>): seq<Account>
    requires HasOnePayer(merged)
  {
    Payers(merged) + Sorted(Others(merged))
  }

  function Keys(accounts: seq<Account>): (r: seq<Key>)
    ensures |r| == |accounts| && forall i | 0 <= i < |accounts| :: r[i] == accounts[i].key
  {
    seq(|accounts|, i requires 0 <= i < |accounts| => accounts[i].key)
  }

  /** How many accounts have a category from `low` to `high`. */
  function CountCategories(accounts: seq<Account>, low: nat, high: nat): (n: nat)
    ensures n <= |accounts|
  {
    if accounts == [] then 0
    else (if low <= Category(accounts[0]) <= high then 1 else 0) + CountCategories(accounts[1..], low, high)
  }

  /** `compileAccountKeys`. */
  function Compile(requested: seq<Requested>): Result<Compiled, CompileError> {
    CompileMerged(Merged(requested))
  }

  function CompileMerged(merged: seq<Account>): Result<Compiled, CompileError> {
    if !HasOnePayer(merged) then Err(TransactionPayer)
    else
      var ordered := Ordered(merged);
      Ok(Compiled(Keys(ordered),
                  CountCategories(ordered, 0, 1), CountCategories(ordered, 1, 1), CountCategories(ordered, 3, 3)))
  }

  method MergeRequests(requested: seq<Requested>) returns (merged: seq<Account>)
    ensures merged == Merged(requested)
  {
    merged := [];
    for order := 0 to |requested|
      invariant merged == Merged(requested[..order])
    {
      MergedSnoc(requested, order);
      var account := requested[order];
      if Knows(merged, account.key) {
        var i := Position(merged, account.key);
        merged := merged[i := Widened(merged[i], account)];
      } else {
        merged := merged + [Account(account.key, account.signer, account.writable, account.payer, order)];
      }
    }
    assert requested[..|requested|] == requested;
  }

  method CompileAccountKeys(requested: seq<Requested>) returns (r: Result<Compiled, CompileError>)
    ensures r == Compile(requested)
  {
    var merged := MergeRequests(requested);
    var payer := Payers(merged);
    if |payer| != 1 || !payer[0].signer || !payer[0].writable {
      return Err(TransactionPayer);
    }
    var ordered := [payer[0]] + Sorted(Others(merged));
    assert ordered == Ordered(merged);
    return Ok(Compiled(Keys(ordered),
                       CountCategories(ordered, 0, 1), CountCategories(ordered, 1, 1), CountCategories(ordered, 3, 3)));
  }

  // ----------------------------------------------------------------------- results

  predicate AscendingCategories(accounts: seq<Account>) {
    forall i, j | 0 <= i < j < |accounts| :: Category(accounts[i]) <= Category(accounts[j])
  }

  /** In ascending categories, those up to `high` are exactly the first ones. */
  lemma {:induction false} CountIsPrefix(accounts: seq<Account>, high: nat)
    requires AscendingCategories(accounts)
    ensures forall i | 0 <= i < |accounts| :: Category(accounts[i]) <= high <==> i < CountCategories(accounts, 0, high)
  {
    if accounts != [] {
      var rest := accounts[1..];
      assert forall i | 0 < i < |accounts| :: accounts[i] == rest[i - 1];
      CountIsPrefix(rest, high);
    }
  }

  lemma {:induction false} CountsAdd(accounts: seq<Account>, low: nat, middle: nat, high: nat)
    requires low <= middle < high
    ensures CountCategories(accounts, low, high)
         == CountCategories(accounts, low, middle) + CountCategories(accounts, middle + 1, high)
  {
    if accounts != [] {
      CountsAdd(accounts[1..], low, middle, high);
    }
  }

  lemma {:induction false} CountAll(accounts: seq<Account>)
    ensures CountCategories(accounts, 0, 3) == |accounts|
  {
    if accounts != [] {
      CountAll(accounts[1..]);
    }
  }

  lemma OrderedHasSame(merged: seq<Account>)
    requires HasOnePayer(merged) && DistinctKeys(merged)
    ensures forall a :: a in Ordered(merged) <==> a in merged
    ensures Ordered(merged)[0].payer && Category(Ordered(merged)[0]) == 0
    ensures DistinctKeys(Ordered(merged)) && AscendingCategories(Ordered(merged))
    ensures SortedAccounts(Ordered(merged)[1..])
  {
    var payer, others := Payers(merged)[0], Sorted(Others(merged));
    assert payer in Payers(merged);
    assert Payers(merged) == [payer];
    OthersSorted(merged);
    assert !Knows(others, payer.key) by { PayerStandsAlone(merged, payer, others); }
    PayerFirst(payer, others);
    assert Ordered(merged) == [payer] + others;
    ConsMembers(payer, others);
    forall a | a in merged && a.payer
      ensures a == payer
    {
      assert a in Payers(merged);
    }
  }

  lemma {:induction false} OthersSorted(merged: seq<Account>)
    requires DistinctKeys(merged)
    ensures
      var others := Sorted(Others(merged));
      SortedAccounts(others) && DistinctKeys(others) && forall a :: a in others <==> a in merged && !a.payer
  {
    SortKeeps(Others(merged));
    OthersDistinct(merged);
    SortSorts(Others(merged));
  }

  lemma PayerStandsAlone(merged: seq<Account>, payer: Account, others: seq<Account>)
    requires DistinctKeys(merged) && payer in merged && payer.payer
    requires forall a | a in others :: a in merged && !a.payer
    ensures !Knows(others, payer.key)
  {
    forall i | 0 <= i < |others|
      ensures others[i].key != payer.key
    {
      assert others[i] in others;
    }
  }

  lemma PayerFirst(payer: Account, others: seq<Account>)
    requires SortedAccounts(others) && DistinctKeys(others) && !Knows(others, payer.key) && Category(payer) == 0
    ensures
      var all := [payer] + others;
      DistinctKeys(all) && AscendingCategories(all) && all[1..] == others
  {
    var all := [payer] + others;
    assert forall i | 0 < i < |all| :: all[i] == others[i - 1];
  }

  lemma {:induction false} AsksThroughAccount(requested: seq<Requested>, ordered: seq<Account>, i: nat)
    requires i < |ordered| && forall a :: a in ordered <==> a in Merged(requested)
    ensures Unites(ordered[i], requested)
  {
    MergeUnites(requested);
    assert ordered[i] in Merged(requested);
  }

  /**
    The compiled keys are distinct and exactly the requested ones, the payer first; the counters tell
    which of them sign and which are written.
  */
  lemma CompiledLayout(requested: seq<Requested>)
    requires Compile(requested).Ok?
    ensures
      var c := Compile(requested).value;
      var n := |c.keys|;
      && (forall i, j | 0 <= i < j < n :: c.keys[i] != c.keys[j])
      && (forall key :: key in c.keys <==> AsksFor(requested, key))
      && n > 0 && AsksPayer(requested, c.keys[0])
      && c.readonlySigned < c.requiredSignatures <= n - c.readonlyUnsigned
      && (forall i | 0 <= i < n ::
            && (AsksSigner(requested, c.keys[i]) <==> i < c.requiredSignatures)
            && (AsksWritable(requested, c.keys[i]) <==>
                  || i < c.requiredSignatures - c.readonlySigned
                  || c.requiredSignatures <= i < n - c.readonlyUnsigned))
  {
    var merged := Merged(requested);
    var ordered := Ordered(merged);
    MergeUnites(requested);
    OrderedHasSame(merged);
    CoversRequests(requested, ordered);
    CountersSplit(ordered);
    forall i | 0 <= i < |ordered|
      ensures Unites(ordered[i], requested)
    {
      AsksThroughAccount(requested, ordered, i);
    }
  }

  lemma {:induction false} CoversRequests(requested: seq<Requested>, ordered: seq<Account>)
    requires forall a :: a in ordered <==> a in Merged(requested)
    ensures forall key :: key in Keys(ordered) <==> AsksFor(requested, key)
  {
    MergeUnites(requested);
    var merged := Merged(requested);
    forall key
      ensures key in Keys(ordered) <==> AsksFor(requested, key)
    {
      if key in Keys(ordered) {
        var i :| 0 <= i < |ordered| && Keys(ordered)[i] == key;
        assert ordered[i] in merged;
        assert Knows(merged, key);
      }
      if Knows(merged, key) {
        var a := merged[Position(merged, key)];
        assert a in ordered;
        var i :| 0 <= i < |ordered| && ordered[i] == a;
        assert Keys(ordered)[i] == key;
      }
    }
  }

  lemma {:induction false} CountersSplit(ordered: seq<Account>)
    requires ordered != [] && AscendingCategories(ordered) && Category(ordered[0]) == 0
    ensures
      var required := CountCategories(ordered, 0, 1);
      var readonlySigned := CountCategories(ordered, 1, 1);
      var readonlyUnsigned := CountCategories(ordered, 3, 3);
      && readonlySigned < required <= |ordered| - readonlyUnsigned
      && forall i | 0 <= i < |ordered| ::
           && (ordered[i].signer <==> i < required)
           && (ordered[i].writable <==> i < required - readonlySigned || required <= i < |ordered| - readonlyUnsigned)
  {
    CountIsPrefix(ordered, 0);
    CountIsPrefix(ordered, 1);
    CountIsPrefix(ordered, 2);
    CountsAdd(ordered, 0, 0, 1);
    CountsAdd(ordered, 0, 1, 2);
    CountsAdd(ordered, 0, 2, 3);
    CountAll(ordered);
  }

  /** Compilation succeeds exactly when one key, and only one, is asked for as payer, and it signs and is written. */
  lemma CompilesExactly(requested: seq<Requested>)
    ensures Compile(requested).Ok? <==>
              exists key :: && AsksPayer(requested, key) && AsksSigner(requested, key) && AsksWritable(requested, key)
                            && forall k | AsksPayer(requested, k) :: k == key
  {
    var merged := Merged(requested);
    MergeUnites(requested);
    if HasOnePayer(merged) {
      var payer := Payers(merged)[0];
      assert payer in Payers(merged);
      assert Unites(payer, requested);
      forall k | AsksPayer(requested, k)
        ensures k == payer.key
      {
        assert AsksFor(requested, k);
        var a := merged[Position(merged, k)];
        assert a in Payers(merged);
        assert Payers(merged) == [payer];
      }
    }
    if key :| && AsksPayer(requested, key) && AsksSigner(requested, key) && AsksWritable(requested, key)
              && forall k | AsksPayer(requested, k) :: k == key {
      assert AsksFor(requested, key);
      var a := merged[Position(merged, key)];
      assert Unites(a, requested);
      assert a in Payers(merged);
      SinglePayer(merged, a);
    }
  }

  lemma {:induction false} SinglePayer(accounts: seq<Account>, a: Account)
    requires DistinctKeys(accounts) && a in accounts && a.payer
    requires forall x | x in accounts && x.payer :: x == a
    ensures Payers(accounts) == [a]
  {
    var first, rest := accounts[0], accounts[1..];
    assert accounts == [first] + rest;
    if first == a {
      assert a !in rest;
      NoPayers(rest);
    } else {
      SinglePayer(rest, a);
    }
  }

  lemma {:induction false} NoPayers(accounts: seq<Account>)
    requires forall x | x in accounts :: !x.payer
    ensures Payers(accounts) == []
  {
    if Payers(accounts) != [] {
      assert Payers(accounts)[0] in Payers(accounts);
    }
  }

  // ------------------------------------------------------------------------- indexOf

  /** The index map: built in order, so that a repeated key would keep its last index. */
  function IndexOf(keys: seq<Key>, key: Key): Option<nat> {
    if keys == [] then None
    else if keys[|keys| - 1] == key then Some(|keys| - 1)
    else IndexOf(keys[..|keys| - 1], key)
  }

  /** On distinct keys, `indexOf` finds exactly the place of every key and nothing else. */
  lemma {:induction false} IndexOfInverts(keys: seq<Key>, key: Key)
    requires forall i, j | 0 <= i < j < |keys| :: keys[i] != keys[j]
    ensures IndexOf(keys, key).None? <==> key !in keys
    ensures forall i | 0 <= i < |keys| && keys[i] == key :: IndexOf(keys, key) == Some(i)
  {
    if keys != [] && keys[|keys| - 1] != key {
      IndexOfInverts(keys[..|keys| - 1], key);
    }
  }
}

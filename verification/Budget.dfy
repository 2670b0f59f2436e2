/**
  The spending budget of the ten-operation assembly run: every operation is admitted against the
  approved policy, and everything still to come is reserved at its maximum before anything is sent.
*/
module Budget {
  import opened Wrappers
  import opened Costs
  import opened Decimal

  datatype Policy = Policy(
    maxFeePerGasWei: string,
    maxPriorityFeePerGasWei: string,
    maxGasPerTransaction: string,
    maxTotalFeeWei: string,
    gasBufferBps: int)

  /** The gas fields of an operation; any of them may be missing. */
  datatype GasFields = GasFields(
    gasEstimate: Option<string>,
    gasLimit: Option<string>,
    baseFeePerGas: Option<string>,
    maxPriorityFeePerGas: Option<string>,
    maxFeePerGas: Option<string>,
    blockGasLimit: Option<string>,
    value: Option<string>)

  datatype BudgetError = BadDecimal(decimal: DecimalError) | BadCosts(cost: CostError) | GasPolicy | Reservation

  function Uint(s: string, allowZero: bool): Result<nat, BudgetError> {
    var r := ParseUint(s, allowZero);
    if r.Ok? then Ok(r.value) else Err(BadDecimal(r.error))
  }

  function Charged(r: Result<nat, CostError>): Result<nat, BudgetError> {
    if r.Ok? then Ok(r.value) else Err(BadCosts(r.error))
  }

  function Product(left: int, right: int): Result<nat, BudgetError> {
    var r := CheckedMul(left, right);
    if r.Ok? then Ok(r.value) else Err(BadCosts(r.error))
  }

  /** The ceilings as their strings read; each keeps its own error until it is needed. */
  datatype Ceilings = Ceilings(
    fee: Result<nat, BudgetError>,
    priority: Result<nat, BudgetError>,
    gas: Result<nat, BudgetError>,
    total: Result<nat, BudgetError>,
    bufferBps: int)

  function ReadCeilings(policy: Policy): Ceilings {
    Ceilings(Uint(policy.maxFeePerGasWei, false), Uint(policy.maxPriorityFeePerGasWei, true),
             Uint(policy.maxGasPerTransaction, false), Uint(policy.maxTotalFeeWei, false), policy.gasBufferBps)
  }

  datatype GasReadings = GasReadings(
    missing: bool,
    estimate: Result<nat, BudgetError>,
    limit: Result<nat, BudgetError>,
    baseFee: Result<nat, BudgetError>,
    priorityFee: Result<nat, BudgetError>,
    fee: Result<nat, BudgetError>,
    blockGasLimit: Result<nat, BudgetError>,
    value: Result<nat, BudgetError>)

  function Text(s: Option<string>, absent: string): string {
    if s.Some? then s.value else absent
  }

  function ReadGas(g: GasFields): GasReadings {
    GasReadings(
      g.gasEstimate.None? || g.gasLimit.None? || g.baseFeePerGas.None? || g.maxPriorityFeePerGas.None?
      || g.maxFeePerGas.None? || g.blockGasLimit.None?,
      Uint(Text(g.gasEstimate, ""), false), Uint(Text(g.gasLimit, ""), false), Uint(Text(g.baseFeePerGas, ""), true),
      Uint(Text(g.maxPriorityFeePerGas, ""), true), Uint(Text(g.maxFeePerGas, ""), false),
      Uint(Text(g.blockGasLimit, ""), false), Uint(Text(g.value, "0"), true))
  }

  /** The gas limit that goes with an estimate: the buffer added and the result rounded up. */
  function Buffered(estimate: nat, bufferBps: int): int {
    (estimate * (10_000 + bufferBps) + 9_999) / 10_000
  }

  datatype Evaluation = Evaluation(total: nat, missing: bool, mismatch: bool)

  /** `evaluateGas`: the running total with this operation's worst case, and the reasons against it. */
  function EvaluateGas(g: GasReadings, c: Ceilings, total: nat): Result<Evaluation, BudgetError> {
    if g.missing then Ok(Evaluation(total, true, false))
    else
      var estimate :- g.estimate;
      var limit :- g.limit;
      var baseFee :- g.baseFee;
      var priorityFee :- g.priorityFee;
      var fee :- g.fee;
      var blockGasLimit :- g.blockGasLimit;
      var mismatch :- PolicyMismatch(c, estimate, limit, baseFee, priorityFee, fee, blockGasLimit);
      var value :- g.value;
      var gasCost :- Product(limit, fee);
      var cost :- Charged(CheckedAdd(gasCost, value));
      var sum :- Charged(CheckedAdd(total, cost));
      Ok(Evaluation(sum, false, mismatch))
  }

  /** The comparison stops at the first difference, so a later ceiling is not read behind it. */
  function PolicyMismatch(c: Ceilings, estimate: nat, limit: nat, baseFee: nat, priorityFee: nat, fee: nat, blockGasLimit: nat)
    : Result<bool, BudgetError>
  {
    if limit != Buffered(estimate, c.bufferBps) || limit > blockGasLimit then Ok(true)
    else
      var maxGas :- c.gas;
      if limit > maxGas then Ok(true)
      else
        var maxPriority :- c.priority;
        if priorityFee > maxPriority then Ok(true)
        else
          var maxFee :- c.fee;
          Ok(fee > maxFee || fee < baseFee || priorityFee > fee)
  }

  function CheckedOperationGas(g: GasReadings, c: Ceilings): Result<nat, BudgetError> {
    if c.bufferBps < 0 || c.bufferBps > 10_000 then Err(GasPolicy)
    else
      var e :- EvaluateGas(g, c, 0);
      if e.missing || e.mismatch then Err(GasPolicy) else Ok(e.total)
  }

  /** `reserveAssemblyCost`: what is committed plus the maximum of everything that remains. */
  function ReserveAssemblyCost(c: Ceilings, committed: int, remaining: int, available: int): Result<nat, BudgetError> {
    if remaining < 0 || remaining > 10 then Err(Reservation)
    else
      var maxGas :- c.gas;
      var maxFee :- c.fee;
      var each :- Product(maxGas, maxFee);
      var reservation :- Product(remaining, each);
      var total :- Charged(CheckedAdd(committed, reservation));
      var maxTotal :- c.total;
      if total > maxTotal || reservation > available then Err(Reservation) else Ok(total)
  }

  // ------------------------------------------------------------------ single operations

  /** The most that one operation without value can cost under the policy. */
  function EachMaximum(c: Ceilings): nat {
    if c.gas.Ok? && c.fee.Ok? then
      MulNat(c.gas.value, c.fee.value);
      c.gas.value * c.fee.value
    else 0
  }

  predicate CeilingsReadable(c: Ceilings) {
    && c.gas.Ok? && c.fee.Ok? && c.total.Ok?
    && IsUint256(EachMaximum(c)) && IsUint256(c.total.value)
  }

  lemma ReservesExactly(c: Ceilings, committed: int, remaining: int, available: int)
    requires CeilingsReadable(c) && 0 <= remaining <= 10
    ensures ReserveAssemblyCost(c, committed, remaining, available).Ok? <==>
              && committed >= 0
              && committed + remaining * EachMaximum(c) <= c.total.value
              && remaining * EachMaximum(c) <= available
  {
    MulNat(remaining, EachMaximum(c));
  }

  lemma ReservingReadsCeilings(c: Ceilings, committed: int, remaining: int, available: int)
    requires ReserveAssemblyCost(c, committed, remaining, available).Ok? && remaining >= 1
    requires c.total.Ok? ==> IsUint256(c.total.value)
    ensures CeilingsReadable(c)
  {
  }

  /** An admitted operation costs at most the maximum, plus its value. */
  lemma AdmittedCost(g: GasReadings, c: Ceilings)
    requires CheckedOperationGas(g, c).Ok?
    ensures g.value.Ok? && CheckedOperationGas(g, c).value <= EachMaximum(c) + g.value.value
    ensures g.limit.Ok? && g.fee.Ok? && CheckedOperationGas(g, c).value == g.limit.value * g.fee.value + g.value.value
  {
    MulMonotoneBoth(g.limit.value, g.fee.value, c.gas.value, c.fee.value);
  }

  /** The reservation after an operation passes in a state whose reservation before it passed. */
  predicate Survives(c: Ceilings, cost: nat, i: nat, committed: nat, available: nat) {
    ReserveAssemblyCost(c, committed, 10 - i, available).Ok? ==>
      ReserveAssemblyCost(c, committed + cost, 9 - i, available - cost).Ok?
  }

  /**
    A cost survives the second reservation in every state that passed the first one, exactly when it
    is at most the reserved maximum. A value on top of a full gas bill breaks that.
  */
  lemma ReservationSurvivesExactly(c: Ceilings, cost: nat, i: nat)
    requires CeilingsReadable(c) && i < 10 && 10 * EachMaximum(c) <= c.total.value
    ensures (forall committed: nat, available: nat :: Survives(c, cost, i, committed, available)) <==> cost <= EachMaximum(c)
  {
    var m := EachMaximum(c);
    StepDown(10 - i, m);
    if cost <= m {
      forall committed: nat, available: nat
        ensures Survives(c, cost, i, committed, available)
      {
        ReservesExactly(c, committed, 10 - i, available);
        ReservesExactly(c, committed + cost, 9 - i, available - cost);
      }
    } else {
      MulMonotoneBoth(10 - i, m, 10, m);
      MulNat(10 - i, m);
      var available: nat := (10 - i) * m;
      ReservesExactly(c, 0, 10 - i, available);
      ReservesExactly(c, 0 + cost, 9 - i, available - cost);
      assert !Survives(c, cost, i, 0, available);
    }
  }

  lemma UintReads(s: string, n: nat)
    requires 0 < n <= 10 && IsCanonical(s) && BigIntOf(s) == n
    ensures Uint(s, true) == Uint(s, false) == Ok(n)
  {
    CanonicalPrints(s);
    ParseInvertsPrint(s, true, n);
    ParseInvertsPrint(s, false, n);
  }

  /** One wei of value on an operation at its maximum already makes the second reservation fail. */
  lemma ValueBreaksReservation()
    ensures
      var c := ReadCeilings(Policy("1", "1", "1", "10", 0));
      var one := Some("1");
      var g := ReadGas(GasFields(one, one, one, one, one, one, one));
      CheckedOperationGas(g, c) == Ok(2) && !Survives(c, 2, 0, 0, 10)
  {
    assert DigitsOf("1") == [1] && DigitsOf("10") == [1] + [0];
    UintReads("1", 1);
    UintReads("10", 10);
    var c: Ceilings := Ceilings(Ok(1), Ok(1), Ok(1), Ok(10), 0);
    assert c == ReadCeilings(Policy("1", "1", "1", "10", 0));
    assert Buffered(1, 0) == 1;
    ReservesExactly(c, 0, 10, 10);
    ReservesExactly(c, 2, 9, 8);
  }

  lemma StepDown(k: int, m: nat)
    ensures k * m == (k - 1) * m + m
  {
  }

  // ---------------------------------------------------------------------- the run

  /** How sending ends: an exception, a mined revert, or a mined receipt that may still be refused. */
  datatype Send = Threw | Reverted | Mined(gasUsed: nat, effectiveGasPrice: nat, bound: bool)

  /** What the chain answers during one operation. */
  datatype Answers = Answers(
    available: nat, gasEstimate: nat, baseFeePerGas: nat, blockGasLimit: nat, sameHead: bool, send: Send)

  datatype Outcome = Pending | Uncertain | FinalizedRevert | FinalizedSuccess

  datatype RunError = Budgeting(error: BudgetError) | EstimateStateChanged | SendFailed

  /** The bookkeeping of a run: what is committed, what receipts showed, and the journal. */
  datatype Books = Books(committed: nat, observed: nat, journal: seq<Outcome>)

  const NEW_BOOKS := Books(0, 0, [])

  /** The gas fields the run builds from an estimate, before they are read back. */
  function GasFor(policy: Policy, a: Answers, value: Option<string>): GasFields {
    GasFields(Some(Print(a.gasEstimate)), Some(Print(NatOr0(Buffered(a.gasEstimate, policy.gasBufferBps)))),
              Some(Print(a.baseFeePerGas)), Some(policy.maxPriorityFeePerGasWei), Some(policy.maxFeePerGasWei),
              Some(Print(a.blockGasLimit)), value)
  }

  function NatOr0(n: int): nat {
    if n < 0 then 0 else n
  }

  function ReadGasFor(policy: Policy, a: Answers, value: Option<string>): GasReadings {
    ReadGas(GasFor(policy, a, value))
  }

  /** The fee checks on a receipt: it used some gas, within the limit, at some price, within the maximum. */
  predicate FeesBound(g: GasReadings, gasUsed: nat, effectiveGasPrice: nat) {
    && g.limit.Ok? && g.fee.Ok?
    && 0 < gasUsed <= g.limit.value
    && 0 < effectiveGasPrice <= g.fee.value
  }

  /** The cost of an operation that may be sent: reserved, admitted, reserved again, on the same head. */
  function Admission(c: Ceilings, g: GasReadings, committed: nat, i: nat, a: Answers): Result<nat, RunError>
    requires i < 10
  {
    var before := ReserveAssemblyCost(c, committed, 10 - i, a.available);
    if before.Err? then Err(Budgeting(before.error))
    else
      var cost := CheckedOperationGas(g, c);
      if cost.Err? then Err(Budgeting(cost.error))
      else
        var after := ReserveAssemblyCost(c, committed + cost.value, 9 - i, a.available - cost.value);
        if after.Err? then Err(Budgeting(after.error))
        else if !a.sameHead then Err(EstimateStateChanged)
        else Ok(cost.value)
  }

  /** The books after sending an operation whose cost was admitted. */
  function Settled(g: GasReadings, books: Books, cost: nat, send: Send): (after: (Books, Result<(), RunError>)) {
    match send
    case Threw => (books.(journal := books.journal + [Uncertain]), Err(SendFailed))
    case Reverted => (books.(journal := books.journal + [FinalizedRevert]), Err(SendFailed))
    case Mined(gasUsed, effectiveGasPrice, bound) =>
      if !bound || !FeesBound(g, gasUsed, effectiveGasPrice) then
        (books.(journal := books.journal + [Uncertain]), Err(SendFailed))
      else
        MulNat(gasUsed, effectiveGasPrice);
        (Books(books.committed + cost, books.observed + gasUsed * effectiveGasPrice,
               books.journal + [FinalizedSuccess]), Ok(()))
  }

  /** One turn of the loop, for given readings: the new books and how the turn ended. */
  function Executed(c: Ceilings, g: GasReadings, books: Books, i: nat, a: Answers): (after: (Books, Result<(), RunError>))
    requires i < 10
  {
    var cost := Admission(c, g, books.committed, i, a);
    if cost.Err? then (books, Err(cost.error)) else Settled(g, books, cost.value, a.send)
  }

  /** The first `n` turns, until one of them fails. */
  function Ran(c: Ceilings, gs: seq<GasReadings>, answers: seq<Answers>, n: nat): (after: (Books, Result<(), RunError>))
    requires n <= |gs| == |answers| <= 10
  {
    if n == 0 then (NEW_BOOKS, Ok(()))
    else
      var (books, r) := Ran(c, gs, answers, n - 1);
      if r.Err? then (books, r) else Executed(c, gs[n - 1], books, n - 1, answers[n - 1])
  }

  class AssemblyRun {
    const policy: Policy
    var committed: nat
    var observed: nat
    var journal: seq<Outcome>

    ghost function Contents(): Books
      reads this
    {
      Books(committed, observed, journal)
    }

    constructor (policy: Policy)
      ensures this.policy == policy && Contents() == NEW_BOOKS
    {
      this.policy := policy;
      committed, observed, journal := 0, 0, [];
    }

    /** Everything up to the journal entry; nothing is written yet. */
    method Admit(g: GasReadings, i: nat, a: Answers) returns (cost: Result<nat, RunError>)
      requires i < 10
      ensures cost == Admission(ReadCeilings(policy), g, committed, i, a)
    {
      var c := ReadCeilings(policy);
      var before := ReserveAssemblyCost(c, committed, 10 - i, a.available);
      if before.Err? {
        return Err(Budgeting(before.error));
      }
      var checked := CheckedOperationGas(g, c);
      if checked.Err? {
        return Err(Budgeting(checked.error));
      }
      var after := ReserveAssemblyCost(c, committed + checked.value, 9 - i, a.available - checked.value);
      if after.Err? {
        return Err(Budgeting(after.error));
      }
      if !a.sameHead {
        return Err(EstimateStateChanged);
      }
      return Ok(checked.value);
    }

    /** Journal as pending, send, settle the journal. */
    method Send(g: GasReadings, cost: nat, send: Send) returns (r: Result<(), RunError>)
      modifies this
      ensures (Contents(), r) == Settled(g, old(Contents()), cost, send)
    {
      ghost var written := journal;
      journal := journal + [Pending];
      var position := |journal| - 1;
      if send.Mined? && send.bound && FeesBound(g, send.gasUsed, send.effectiveGasPrice) {
        MulNat(send.gasUsed, send.effectiveGasPrice);
        observed := observed + send.gasUsed * send.effectiveGasPrice;
        committed := committed + cost;
        journal := journal[position := FinalizedSuccess];
        assert journal == written + [FinalizedSuccess];
        return Ok(());
      }
      journal := journal[position := if send.Reverted? then FinalizedRevert else Uncertain];
      assert journal == written + [if send.Reverted? then FinalizedRevert else Uncertain];
      return Err(SendFailed);
    }

    /** One `execute`: reserve, admit, reserve again, send. */
    method Execute(g: GasReadings, i: nat, a: Answers) returns (r: Result<(), RunError>)
      requires i < 10
      modifies this
      ensures (Contents(), r) == Executed(ReadCeilings(policy), g, old(Contents()), i, a)
    {
      var cost := Admit(g, i, a);
      if cost.Err? {
        return Err(cost.error);
      }
      r := Send(g, cost.value, a.send);
    }

    /** The first `n` turns lead to these books, and `r` is how the last of them ended. */
    ghost predicate After(values: seq<Option<string>>, answers: seq<Answers>, n: nat, r: Result<(), RunError>)
      requires n <= |values| == |answers| <= 10
      reads this
    {
      Ran(ReadCeilings(policy), AllReadings(policy, values, answers), answers, n) == (Contents(), r)
    }

    method Turn(values: seq<Option<string>>, answers: seq<Answers>, i: nat) returns (r: Result<(), RunError>)
      requires i < |values| == |answers| <= 10 && After(values, answers, i, Ok(()))
      modifies this
      ensures After(values, answers, i + 1, r)
      ensures r.Err? ==> After(values, answers, |answers|, r)
    {
      ghost var c, gs, books := ReadCeilings(policy), AllReadings(policy, values, answers), Contents();
      ReadingAt(policy, values, answers, i);
      r := Execute(ReadGasFor(policy, answers[i], values[i]), i, answers[i]);
      NextTurn(c, gs, answers, i, books, Contents(), r);
    }

    /** The loop over the prepared operations. */
    method Run(values: seq<Option<string>>, answers: seq<Answers>) returns (r: Result<(), RunError>)
      requires |values| == |answers| <= 10
      requires Contents() == NEW_BOOKS
      modifies this
      ensures (Contents(), r) == Ran(ReadCeilings(policy), AllReadings(policy, values, answers), answers, |answers|)
    {
      for i := 0 to |values|
        invariant After(values, answers, i, Ok(()))
      {
        r := Turn(values, answers, i);
        if r.Err? {
          return;
        }
      }
      return Ok(());
    }
  }

  function AllReadings(policy: Policy, values: seq<Option<string>>, answers: seq<Answers>): (gs: seq<GasReadings>)
    requires |values| == |answers|
    ensures |gs| == |answers|
  {
    if values == [] then []
    else
      [ReadGasFor(policy, answers[0], values[0])] + AllReadings(policy, values[1..], answers[1..])
  }

  lemma {:induction false} ReadingAt(policy: Policy, values: seq<Option<string>>, answers: seq<Answers>, i: nat)
    requires i < |values| == |answers|
    ensures AllReadings(policy, values, answers)[i] == ReadGasFor(policy, answers[i], values[i])
  {
    if i > 0 {
      ReadingAt(policy, values[1..], answers[1..], i - 1);
    }
  }

  lemma {:induction false} RanStops(c: Ceilings, gs: seq<GasReadings>, answers: seq<Answers>, n: nat, m: nat)
    requires n <= m <= |gs| == |answers| <= 10 && Ran(c, gs, answers, n).1.Err?
    ensures Ran(c, gs, answers, m) == Ran(c, gs, answers, n)
  {
    if n < m {
      RanStops(c, gs, answers, n, m - 1);
    }
  }

  lemma NextTurn(c: Ceilings, gs: seq<GasReadings>, answers: seq<Answers>, n: nat, books: Books, after: Books,
                 r: Result<(), RunError>)
    requires n < |gs| == |answers| <= 10 && Ran(c, gs, answers, n) == (books, Ok(()))
    requires (after, r) == Executed(c, gs[n], books, n, answers[n])
    ensures Ran(c, gs, answers, n + 1) == (after, r)
    ensures r.Err? ==> Ran(c, gs, answers, |answers|) == (after, r)
  {
    if r.Err? {
      RanStops(c, gs, answers, n + 1, |answers|);
    }
  }

  // ------------------------------------------------------------------- whole-run results

  predicate IsReservation(r: Result<(), RunError>) {
    r == Err(Budgeting(Reservation))
  }

  /** A successful turn commits the admitted cost and observes no more than that. */
  lemma TurnStaysWithinCost(c: Ceilings, g: GasReadings, books: Books, i: nat, a: Answers)
    requires i < 10 && Executed(c, g, books, i, a).1.Ok?
    ensures
      var after := Executed(c, g, books, i, a).0;
      && CheckedOperationGas(g, c).Ok?
      && after.committed == books.committed + CheckedOperationGas(g, c).value
      && after.observed - books.observed <= after.committed - books.committed
      && after.journal == books.journal + [FinalizedSuccess]
  {
    AdmittedCost(g, c);
    MulMonotoneBoth(a.send.gasUsed, a.send.effectiveGasPrice, g.limit.value, g.fee.value);
  }

  /**
    In every run the receipts never show more than was committed, and the journal is a row of
    successes with at most one other entry, at its end, for a run that stopped.
  */
  lemma {:induction false} BooksStayTrue(c: Ceilings, gs: seq<GasReadings>, answers: seq<Answers>, n: nat)
    requires n <= |gs| == |answers| <= 10
    ensures
      var (books, r) := Ran(c, gs, answers, n);
      && books.observed <= books.committed
      && (forall k | 0 <= k < |books.journal| - 1 :: books.journal[k] == FinalizedSuccess)
      && (r.Ok? ==> |books.journal| == n && (n > 0 ==> books.journal[n - 1] == FinalizedSuccess))
  {
    if n > 0 {
      BooksStayTrue(c, gs, answers, n - 1);
      var (books, r) := Ran(c, gs, answers, n - 1);
      if r.Ok? && Executed(c, gs[n - 1], books, n - 1, answers[n - 1]).1.Ok? {
        TurnStaysWithinCost(c, gs[n - 1], books, n - 1, answers[n - 1]);
      }
    }
  }

  /** The reservation in front of turn `i` passes. */
  predicate Reserved(c: Ceilings, committed: nat, i: nat, available: nat) {
    && CeilingsReadable(c) && i <= 10
    && committed + (10 - i) * EachMaximum(c) <= c.total.value
    && (10 - i) * EachMaximum(c) <= available
  }

  predicate NoReservationError<T>(r: Result<T, BudgetError>) {
    r.Err? ==> r.error != Reservation
  }

  /** Readings fail with their own errors, never with a failed reservation. */
  predicate ReadingErrors(g: GasReadings, c: Ceilings) {
    && NoReservationError(g.estimate) && NoReservationError(g.limit) && NoReservationError(g.baseFee)
    && NoReservationError(g.priorityFee) && NoReservationError(g.fee) && NoReservationError(g.blockGasLimit)
    && NoReservationError(g.value) && NoReservationError(c.gas) && NoReservationError(c.priority)
    && NoReservationError(c.fee) && NoReservationError(c.total)
  }

  lemma AdmissionIsNoReservation(g: GasReadings, c: Ceilings)
    requires ReadingErrors(g, c)
    ensures NoReservationError(CheckedOperationGas(g, c))
  {
  }

  /** An operation without value that starts reserved neither fails a reservation nor loses it for the next one. */
  lemma TurnKeepsReservation(c: Ceilings, g: GasReadings, books: Books, i: nat, a: Answers, next: nat)
    requires i < 10 && Reserved(c, books.committed, i, a.available) && g.value == Ok(0) && ReadingErrors(g, c)
    ensures
      var (after, r) := Executed(c, g, books, i, a);
      && !IsReservation(r)
      && (r.Ok? && next >= a.available - (after.committed - books.committed) ==> Reserved(c, after.committed, i + 1, next))
  {
    StepDown(10 - i, EachMaximum(c));
    ReservesExactly(c, books.committed, 10 - i, a.available);
    AdmissionIsNoReservation(g, c);
    var cost := CheckedOperationGas(g, c);
    if cost.Ok? {
      AdmittedCost(g, c);
      ReservesExactly(c, books.committed + cost.value, 9 - i, a.available - cost.value);
    }
  }

  lemma ReadingsErr(policy: Policy, a: Answers, value: Option<string>)
    ensures ReadingErrors(ReadGasFor(policy, a, value), ReadCeilings(policy))
  {
  }

  predicate IsZeroValue(value: Option<string>) {
    value.None? || value.value == "0"
  }

  lemma ZeroValueReads(policy: Policy, a: Answers, value: Option<string>)
    requires IsZeroValue(value)
    ensures ReadGasFor(policy, a, value).value == Ok(0)
  {
    assert Print(0) == "0";
    ParseInvertsPrint("0", true, 0);
  }

  /** The balance in front of each turn is at least the one before, less what that turn committed. */
  ghost predicate BalancesFollow(c: Ceilings, gs: seq<GasReadings>, answers: seq<Answers>)
    requires |gs| == |answers| <= 10
  {
    forall i | 0 < i < |answers| ::
      answers[i].available >= answers[i - 1].available - (Ran(c, gs, answers, i).0.committed - Ran(c, gs, answers, i - 1).0.committed)
  }

  /** Operations without value, whose readings fail with their own errors only. */
  predicate WithoutValue(c: Ceilings, gs: seq<GasReadings>) {
    forall i | 0 <= i < |gs| :: gs[i].value == Ok(0) && ReadingErrors(gs[i], c)
  }

  /** The reservation in front of the first turn carries through the whole run. */
  lemma {:induction false} ReservationCarries(c: Ceilings, gs: seq<GasReadings>, answers: seq<Answers>, n: nat)
    requires n <= |gs| == |answers| <= 10 && BalancesFollow(c, gs, answers)
    requires WithoutValue(c, gs)
    requires |answers| > 0 && Reserved(c, 0, 0, answers[0].available)
    ensures
      var (books, r) := Ran(c, gs, answers, n);
      && !IsReservation(r)
      && (r.Ok? ==> CeilingsReadable(c) && books.committed + (10 - n) * EachMaximum(c) <= c.total.value)
      && (r.Ok? && n < |answers| ==> Reserved(c, books.committed, n, answers[n].available))
  {
    if n > 0 {
      ReservationCarries(c, gs, answers, n - 1);
      var (books, r) := Ran(c, gs, answers, n - 1);
      if r.Ok? {
        var a := answers[n - 1];
        var after := Executed(c, gs[n - 1], books, n - 1, a).0;
        var same := a.available - (after.committed - books.committed);
        var next: nat := if n < |answers| then answers[n].available else if same < 0 then 0 else same;
        TurnKeepsReservation(c, gs[n - 1], books, n - 1, a, next);
      }
    }
  }

  /**
    If the first reservation of a run of operations without value passes, and the balance falls by no
    more than what each turn commits, no later reservation fails: the run stops for other reasons or
    not at all, and what is committed plus the maximum of the rest stays within the approved total.
  */
  lemma {:induction false} NoLaterReservationFails(policy: Policy, values: seq<Option<string>>, answers: seq<Answers>)
    requires 0 < |values| == |answers| <= 10 && forall i | 0 <= i < |values| :: IsZeroValue(values[i])
    requires BalancesFollow(ReadCeilings(policy), AllReadings(policy, values, answers), answers)
    requires ReserveAssemblyCost(ReadCeilings(policy), 0, 10, answers[0].available).Ok?
    ensures StaysWithinTotal(ReadCeilings(policy), AllReadings(policy, values, answers), answers)
  {
    FirstReservation(policy, answers[0].available);
    ReadingsOfZeroValues(policy, values, answers);
    CarriedToTheEnd(ReadCeilings(policy), AllReadings(policy, values, answers), answers);
  }

  lemma CarriedToTheEnd(c: Ceilings, gs: seq<GasReadings>, answers: seq<Answers>)
    requires 0 < |gs| == |answers| <= 10 && BalancesFollow(c, gs, answers)
    requires WithoutValue(c, gs)
    requires Reserved(c, 0, 0, answers[0].available)
    ensures StaysWithinTotal(c, gs, answers)
  {
    ReservationCarries(c, gs, answers, |answers|);
    BooksStayTrue(c, gs, answers, |answers|);
  }

  predicate StaysWithinTotal(c: Ceilings, gs: seq<GasReadings>, answers: seq<Answers>)
    requires |gs| == |answers| <= 10
  {
    var end := Ran(c, gs, answers, |answers|);
    && !IsReservation(end.1)
    && end.0.observed <= end.0.committed
    && (end.1.Ok? ==> CeilingsReadable(c) && end.0.committed + (10 - |answers|) * EachMaximum(c) <= c.total.value)
  }

  lemma FirstReservation(policy: Policy, available: nat)
    requires ReserveAssemblyCost(ReadCeilings(policy), 0, 10, available).Ok?
    ensures Reserved(ReadCeilings(policy), 0, 0, available)
  {
    TotalIsUint(policy);
    ReservingReadsCeilings(ReadCeilings(policy), 0, 10, available);
    ReservesExactly(ReadCeilings(policy), 0, 10, available);
  }

  lemma {:induction false} ReadingsOfZeroValues(policy: Policy, values: seq<Option<string>>, answers: seq<Answers>)
    requires |values| == |answers| && forall i | 0 <= i < |values| :: IsZeroValue(values[i])
    ensures WithoutValue(ReadCeilings(policy), AllReadings(policy, values, answers))
  {
    var gs := AllReadings(policy, values, answers);
    forall i | 0 <= i < |gs|
      ensures gs[i].value == Ok(0) && ReadingErrors(gs[i], ReadCeilings(policy))
    {
      ReadingAt(policy, values, answers, i);
      ZeroValueReads(policy, answers[i], values[i]);
      ReadingsErr(policy, answers[i], values[i]);
    }
  }

  lemma TotalIsUint(policy: Policy)
    ensures ReadCeilings(policy).total.Ok? ==> IsUint256(ReadCeilings(policy).total.value)
  {
  }
}

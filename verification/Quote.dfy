/**
  The fee quote: one function builds it from an observation, another accepts or refuses it later.
  Both read the same decimal strings; the planner's hash function is a parameter.
*/
module Quote {
  import opened Wrappers
  import opened Costs
  import opened Decimal
  import opened Hex
  import Rlp

  datatype Observation = Observation(
    chainId: string,
    blockNumber: string,
    blockHash: string,
    blockTimestamp: string,
    currentHeadNumber: string,
    currentHeadHash: string,
    feeHistoryNewestBlock: string,
    senderNonce: string,
    expectedCreateAddress: string,
    gasEstimate: string,
    blockGasLimit: string,
    baseFeePerGas: string,
    maxPriorityFeePerGas: string,
    maxFeePerGas: string,
    observedAt: string)

  datatype TrustRoots = TrustRoots(
    chainId: string,
    from: string,
    maximumWorstCaseWei: string,
    gasBufferBps: string,
    quoteTtlSeconds: string,
    maximumHeadLag: string)

  /** The identity of the plan that a quote is bound to. */
  datatype Plan = Plan(planId: string, creationInputHash: string)

  datatype FeeQuote = FeeQuote(
    planId: string,
    creationInputHash: string,
    observation: Observation,
    bufferBps: string,
    gasLimit: string,
    effectiveFeePerGas: string,
    estimatedWei: string,
    worstCaseWei: string,
    expiresAt: string)

  datatype QuoteError =
    | WrongChain | CreateAddressMismatch | FutureBlock | HeadLag | FeeHistoryBlockMismatch | FutureTimestamp
    | StaleQuote | BlockHashInvalid | ReorgedBlock | QuotePlanMismatch | QuoteBufferMismatch | QuoteHeadInvalid
    | QuoteExpiryForged | QuoteTotalsForged
    | BadDecimal(decimal: DecimalError) | BadCosts(cost: CostError) | BadCreate(create: Rlp.CreateError)

  type Keccak = seq<int> -> string

  function Uint(s: string, allowZero: bool): Result<nat, QuoteError> {
    var r := ParseUint(s, allowZero);
    if r.Ok? then Ok(r.value) else Err(BadDecimal(r.error))
  }

  function Charged<T>(r: Result<T, CostError>): Result<T, QuoteError> {
    if r.Ok? then Ok(r.value) else Err(BadCosts(r.error))
  }

  function CreateAddress(keccak: Keccak, from: string, nonce: nat): Result<string, QuoteError> {
    var r := Rlp.DeriveCreateAddress(keccak, from, nonce);
    if r.Ok? then Ok(r.value) else Err(BadCreate(r.error))
  }

  predicate IsHash(s: string) {
    |s| == 66 && s[..2] == "0x" && IsHex(s[2..])
  }

  predicate BlockHashesWellFormed(o: Observation) {
    IsHash(o.blockHash) && IsHash(o.currentHeadHash)
  }

  /**
    What the strings of an observation and of the trust roots say. Both sides read the same strings
    but stop at the first one they cannot use, so every reading keeps its own error.
  */
  datatype Readings = Readings(
    created: Result<string, QuoteError>,
    block: Result<nat, QuoteError>,
    head: Result<nat, QuoteError>,
    newest: Result<nat, QuoteError>,
    timestamp: Result<nat, QuoteError>,
    observedAt: Result<nat, QuoteError>,
    ttl: Result<nat, QuoteError>,
    maximumHeadLag: Result<nat, QuoteError>,
    hashesWellFormed: bool,
    sameHash: bool,
    costs: Result<CostResult, QuoteError>)

  function Read(keccak: Keccak, o: Observation, bufferBps: string, roots: TrustRoots): Readings {
    Readings(
      ReadCreated(keccak, o, roots),
      Uint(o.blockNumber, true),
      Uint(o.currentHeadNumber, true),
      Uint(o.feeHistoryNewestBlock, true),
      Uint(o.blockTimestamp, true),
      Uint(o.observedAt, true),
      Uint(roots.quoteTtlSeconds, false),
      Uint(roots.maximumHeadLag, true),
      BlockHashesWellFormed(o),
      o.blockHash == o.currentHeadHash,
      ReadCosts(o, bufferBps, roots))
  }

  function ReadCreated(keccak: Keccak, o: Observation, roots: TrustRoots): Result<string, QuoteError> {
    var senderNonce :- Uint(o.senderNonce, true);
    CreateAddress(keccak, roots.from, senderNonce)
  }

  function ReadCosts(o: Observation, bufferBps: string, roots: TrustRoots): Result<CostResult, QuoteError> {
    var gasEstimate :- Uint(o.gasEstimate, false);
    var buffer :- Uint(bufferBps, true);
    var baseFeePerGas :- Uint(o.baseFeePerGas, true);
    var maxPriorityFeePerGas :- Uint(o.maxPriorityFeePerGas, true);
    var maxFeePerGas :- Uint(o.maxFeePerGas, true);
    var blockGasLimit :- Uint(o.blockGasLimit, false);
    var cap :- Uint(roots.maximumWorstCaseWei, true);
    Charged(CalculateCosts(
      CostInput(gasEstimate, buffer, baseFeePerGas, maxPriorityFeePerGas, maxFeePerGas, 0, blockGasLimit, cap)))
  }

  // ------------------------------------------------------------------------ building

  datatype Times = Times(block: nat, head: nat, newest: nat, timestamp: nat, observedAt: nat, ttl: nat)

  function ParseQuoteTimes(r: Readings): Result<Times, QuoteError> {
    var block :- r.block;
    var head :- r.head;
    var newest :- r.newest;
    var timestamp :- r.timestamp;
    var observedAt :- r.observedAt;
    var ttl :- r.ttl;
    Ok(Times(block, head, newest, timestamp, observedAt, ttl))
  }

  function ValidateBlockHashes(r: Readings, times: Times): Result<(), QuoteError> {
    if !r.hashesWellFormed then Err(BlockHashInvalid)
    else if times.block == times.head && !r.sameHash then Err(ReorgedBlock)
    else Ok(())
  }

  function ValidateQuoteBinding(r: Readings, times: Times): Result<(), QuoteError> {
    if times.block > times.head || times.newest > times.head then Err(FutureBlock)
    else
      var maximumHeadLag :- r.maximumHeadLag;
      if times.head - times.block > maximumHeadLag then Err(HeadLag)
      else if times.newest != times.block then Err(FeeHistoryBlockMismatch)
      else if times.timestamp > times.observedAt then Err(FutureTimestamp)
      else if times.observedAt - times.timestamp > times.ttl then Err(StaleQuote)
      else ValidateBlockHashes(r, times)
  }

  function QuoteOf(plan: Plan, o: Observation, roots: TrustRoots, costs: CostResult, expiresAt: nat): FeeQuote {
    FeeQuote(plan.planId, plan.creationInputHash, o, roots.gasBufferBps, Print(costs.gasLimit),
             Print(costs.effectiveFee), Print(costs.estimatedWei), Print(costs.worstCaseWei), Print(expiresAt))
  }

  function BuildFrom(r: Readings, plan: Plan, o: Observation, roots: TrustRoots): Result<FeeQuote, QuoteError> {
    if o.chainId != roots.chainId then Err(WrongChain)
    else
      var created :- r.created;
      if o.expectedCreateAddress != created then Err(CreateAddressMismatch)
      else
        var times :- ParseQuoteTimes(r);
        var _ :- ValidateQuoteBinding(r, times);
        var costs :- r.costs;
        var expiresAt :- Charged(CheckedAdd(times.observedAt, times.ttl));
        Ok(QuoteOf(plan, o, roots, costs, expiresAt))
  }

  function BuildFeeQuote(keccak: Keccak, plan: Plan, o: Observation, roots: TrustRoots): Result<FeeQuote, QuoteError> {
    BuildFrom(Read(keccak, o, roots.gasBufferBps, roots), plan, o, roots)
  }

  // ----------------------------------------------------------------------- verifying

  function ValidateQuoteFreshness(r: Readings, expiresAt: Result<nat, QuoteError>, now: int): Result<(), QuoteError> {
    var block :- r.block;
    var head :- r.head;
    var newest :- r.newest;
    if block > head || newest != block then Err(QuoteHeadInvalid)
    else
      var maximumHeadLag :- r.maximumHeadLag;
      if head - block > maximumHeadLag then Err(QuoteHeadInvalid)
      else if block == head && !r.sameHash then Err(ReorgedBlock)
      else
        var blockTime :- r.timestamp;
        var observedAt :- r.observedAt;
        var ttl :- r.ttl;
        var expires :- expiresAt;
        var expectedExpires :- Charged(CheckedAdd(observedAt, ttl));
        if expires != expectedExpires then Err(QuoteExpiryForged)
        else if now >= expires || blockTime > observedAt || observedAt > now || observedAt - blockTime > ttl then
          Err(StaleQuote)
        else Ok(())
  }

  function ValidateQuoteTotals(r: Readings, q: FeeQuote): Result<(), QuoteError> {
    var totals :- r.costs;
    if Print(totals.gasLimit) != q.gasLimit || Print(totals.effectiveFee) != q.effectiveFeePerGas
      || Print(totals.estimatedWei) != q.estimatedWei || Print(totals.worstCaseWei) != q.worstCaseWei
    then Err(QuoteTotalsForged)
    else Ok(())
  }

  function ValidateFrom(r: Readings, expiresAt: Result<nat, QuoteError>, plan: Plan, q: FeeQuote, roots: TrustRoots,
                        now: int): Result<(), QuoteError> {
    if q.planId != plan.planId || q.creationInputHash != plan.creationInputHash then Err(QuotePlanMismatch)
    else
      var created :- r.created;
      if q.observation.expectedCreateAddress != created then Err(CreateAddressMismatch)
      else if q.observation.chainId != roots.chainId then Err(WrongChain)
      else if q.bufferBps != roots.gasBufferBps then Err(QuoteBufferMismatch)
      else
        var _ :- ValidateQuoteFreshness(r, expiresAt, now);
        ValidateQuoteTotals(r, q)
  }

  function ValidateQuote(keccak: Keccak, plan: Plan, q: FeeQuote, roots: TrustRoots, now: int): Result<(), QuoteError> {
    ValidateFrom(Read(keccak, q.observation, q.bufferBps, roots), Uint(q.expiresAt, true), plan, q, roots, now)
  }

  // ------------------------------------------------------------------------- parsing

  predicate ReadableObservation(o: Observation) {
    && Uint(o.chainId, true).Ok? && Uint(o.blockNumber, true).Ok? && Uint(o.blockTimestamp, true).Ok?
    && Uint(o.currentHeadNumber, true).Ok? && Uint(o.feeHistoryNewestBlock, true).Ok? && Uint(o.senderNonce, true).Ok?
    && Uint(o.gasEstimate, true).Ok? && Uint(o.blockGasLimit, true).Ok? && Uint(o.baseFeePerGas, true).Ok?
    && Uint(o.maxPriorityFeePerGas, true).Ok? && Uint(o.maxFeePerGas, true).Ok? && Uint(o.observedAt, true).Ok?
    && BlockHashesWellFormed(o) && Rlp.CanonicalAddress(o.expectedCreateAddress)
  }

  /** What `parseFeeQuote` asks of the strings of a stored quote before anyone verifies it. */
  predicate Readable(q: FeeQuote) {
    && IsHash(q.planId) && IsHash(q.creationInputHash)
    && Uint(q.bufferBps, true).Ok? && Uint(q.gasLimit, true).Ok? && Uint(q.effectiveFeePerGas, true).Ok?
    && Uint(q.estimatedWei, true).Ok? && Uint(q.worstCaseWei, true).Ok? && Uint(q.expiresAt, true).Ok?
    && ReadableObservation(q.observation)
  }

  // ------------------------------------------------------------------------- results

  function NumberOr0(r: Result<nat, QuoteError>): nat {
    if r.Ok? then r.value else 0
  }

  /** The seconds during which a quote counts as fresh: from its observation up to its expiry. */
  predicate InInterval(r: Readings, now: int) {
    NumberOr0(r.observedAt) <= now < NumberOr0(r.observedAt) + NumberOr0(r.ttl)
  }

  /** The bindings that builder and verifier both ask for. */
  predicate Bound(r: Readings) {
    && ParseQuoteTimes(r).Ok? && r.maximumHeadLag.Ok?
    && var times := ParseQuoteTimes(r).value;
    && times.newest == times.block <= times.head <= times.block + r.maximumHeadLag.value
    && (times.block == times.head ==> r.sameHash)
    && times.timestamp <= times.observedAt <= times.timestamp + times.ttl
    && IsUint256(times.observedAt + times.ttl)
  }

  function Expiry(r: Readings): nat {
    NumberOr0(r.observedAt) + NumberOr0(r.ttl)
  }

  /** Freshness is those bindings, the expiry they imply, and a clock between observation and expiry. */
  lemma FreshExactly(r: Readings, expiresAt: Result<nat, QuoteError>, now: int)
    ensures ValidateQuoteFreshness(r, expiresAt, now).Ok? <==> Bound(r) && expiresAt == Ok(Expiry(r)) && InInterval(r, now)
  {
  }

  lemma BindingExactly(r: Readings)
    requires ParseQuoteTimes(r).Ok?
    ensures
      var times := ParseQuoteTimes(r).value;
      && (ValidateQuoteBinding(r, times).Ok? && IsUint256(times.observedAt + times.ttl) <==> Bound(r) && r.hashesWellFormed)
      && (Bound(r) && !r.hashesWellFormed ==> ValidateQuoteBinding(r, times) == Err(BlockHashInvalid))
  {
  }

  lemma BuiltFromReadings(r: Readings, plan: Plan, o: Observation, roots: TrustRoots)
    ensures BuildFrom(r, plan, o, roots).Ok? <==>
              && o.chainId == roots.chainId && r.created == Ok(o.expectedCreateAddress)
              && Bound(r) && r.hashesWellFormed && r.costs.Ok?
    ensures BuildFrom(r, plan, o, roots).Ok? ==>
              BuildFrom(r, plan, o, roots).value == QuoteOf(plan, o, roots, r.costs.value, Expiry(r))
  {
    if ParseQuoteTimes(r).Ok? {
      BindingExactly(r);
    }
  }

  lemma ValidatedReadings(r: Readings, expiresAt: Result<nat, QuoteError>, plan: Plan, q: FeeQuote, roots: TrustRoots, now: int)
    ensures ValidateFrom(r, expiresAt, plan, q, roots, now).Ok? <==>
              && q.observation.chainId == roots.chainId && r.created == Ok(q.observation.expectedCreateAddress)
              && Bound(r) && expiresAt == Ok(Expiry(r)) && InInterval(r, now) && r.costs.Ok?
              && q == QuoteOf(plan, q.observation, roots, r.costs.value, Expiry(r)).(expiresAt := q.expiresAt)
  {
    FreshExactly(r, expiresAt, now);
  }

  lemma PrintedExpiry(s: string, n: nat)
    requires IsUint256(n)
    ensures Uint(s, true) == Ok(n) <==> s == Print(n)
  {
    ParseInvertsPrint(s, true, n);
  }

  /** Every quote that is built is accepted, at exactly the times from its observation to its expiry. */
  lemma BuiltIsAccepted(keccak: Keccak, plan: Plan, o: Observation, roots: TrustRoots, now: int)
    requires BuildFeeQuote(keccak, plan, o, roots).Ok?
    ensures
      ValidateQuote(keccak, plan, BuildFeeQuote(keccak, plan, o, roots).value, roots, now).Ok?
      <==> InInterval(Read(keccak, o, roots.gasBufferBps, roots), now)
  {
    var r := Read(keccak, o, roots.gasBufferBps, roots);
    var q := BuildFeeQuote(keccak, plan, o, roots).value;
    BuiltFromReadings(r, plan, o, roots);
    ValidatedReadings(r, Uint(q.expiresAt, true), plan, q, roots, now);
    PrintedExpiry(q.expiresAt, Expiry(r));
  }

  /**
    Conversely, a quote that `validateQuote` accepts is what the builder makes of its own observation.
    By itself it does not look at the form of the block hashes, so this holds exactly when they are
    well-formed.
  */
  lemma AcceptedIsBuilt(keccak: Keccak, plan: Plan, q: FeeQuote, roots: TrustRoots, now: int)
    requires ValidateQuote(keccak, plan, q, roots, now).Ok?
    ensures BuildFeeQuote(keccak, plan, q.observation, roots) == Ok(q) <==> BlockHashesWellFormed(q.observation)
    ensures BuildFeeQuote(keccak, plan, q.observation, roots).Ok? <==> BlockHashesWellFormed(q.observation)
  {
    var r := Read(keccak, q.observation, q.bufferBps, roots);
    ValidatedReadings(r, Uint(q.expiresAt, true), plan, q, roots, now);
    BuiltFromReadings(r, plan, q.observation, roots);
    PrintedExpiry(q.expiresAt, Expiry(r));
  }

  /** Acceptance depends on the clock only through the interval that the quote itself names. */
  lemma AcceptanceInterval(keccak: Keccak, plan: Plan, q: FeeQuote, roots: TrustRoots, now: int, later: int)
    requires ValidateQuote(keccak, plan, q, roots, now).Ok?
    ensures ValidateQuote(keccak, plan, q, roots, later).Ok? <==>
              InInterval(Read(keccak, q.observation, q.bufferBps, roots), later)
  {
    var r := Read(keccak, q.observation, q.bufferBps, roots);
    ValidatedReadings(r, Uint(q.expiresAt, true), plan, q, roots, now);
    ValidatedReadings(r, Uint(q.expiresAt, true), plan, q, roots, later);
  }

  /** A stored quote passes the parser first, so whatever is then accepted is the builder's output. */
  lemma StoredIsBuilt(keccak: Keccak, plan: Plan, q: FeeQuote, roots: TrustRoots, now: int)
    requires Readable(q) && ValidateQuote(keccak, plan, q, roots, now).Ok?
    ensures BuildFeeQuote(keccak, plan, q.observation, roots) == Ok(q)
  {
    AcceptedIsBuilt(keccak, plan, q, roots, now);
  }

  lemma PrintedIsReadable(n: nat)
    requires IsUint256(n)
    ensures Uint(Print(n), true) == Ok(n)
  {
    ParseInvertsPrint(Print(n), true, n);
  }

  lemma PositiveIsReadable(s: string)
    requires Uint(s, false).Ok?
    ensures Uint(s, true).Ok?
  {
    ParseInvertsPrint(s, false, Uint(s, false).value);
    ParseInvertsPrint(s, true, Uint(s, false).value);
  }

  /** The costs a quote states are in range, so they are read back from their print. */
  lemma CostsAreReadable(o: Observation, bufferBps: string, roots: TrustRoots)
    requires ReadCosts(o, bufferBps, roots).Ok?
    ensures
      var c := ReadCosts(o, bufferBps, roots).value;
      && IsUint256(c.gasLimit) && IsUint256(c.effectiveFee) && IsUint256(c.estimatedWei) && IsUint256(c.worstCaseWei)
      && Uint(o.gasEstimate, true).Ok? && Uint(o.blockGasLimit, true).Ok? && Uint(bufferBps, true).Ok?
      && Uint(o.baseFeePerGas, true).Ok? && Uint(o.maxPriorityFeePerGas, true).Ok? && Uint(o.maxFeePerGas, true).Ok?
  {
    PositiveIsReadable(o.gasEstimate);
    PositiveIsReadable(o.blockGasLimit);
    var input := CostInput(
      Uint(o.gasEstimate, false).value, Uint(bufferBps, true).value, Uint(o.baseFeePerGas, true).value,
      Uint(o.maxPriorityFeePerGas, true).value, Uint(o.maxFeePerGas, true).value, 0,
      Uint(o.blockGasLimit, false).value, Uint(roots.maximumWorstCaseWei, true).value);
    CostsMeaning(input);
  }

  /** And the builder's output passes the parser, when its plan and addresses have their form. */
  lemma BuiltIsReadable(keccak: Keccak, plan: Plan, o: Observation, roots: TrustRoots)
    requires BuildFeeQuote(keccak, plan, o, roots).Ok?
    requires IsHash(plan.planId) && IsHash(plan.creationInputHash)
    requires Uint(roots.chainId, true).Ok? && Rlp.CanonicalAddress(o.expectedCreateAddress)
    ensures Readable(BuildFeeQuote(keccak, plan, o, roots).value)
  {
    var r := Read(keccak, o, roots.gasBufferBps, roots);
    BuiltFromReadings(r, plan, o, roots);
    CostsAreReadable(o, roots.gasBufferBps, roots);
    PrintedIsReadable(r.costs.value.gasLimit);
    PrintedIsReadable(r.costs.value.effectiveFee);
    PrintedIsReadable(r.costs.value.estimatedWei);
    PrintedIsReadable(r.costs.value.worstCaseWei);
    PrintedIsReadable(Expiry(r));
  }

  // ------------------------------------------------ a quote that only the parser would refuse

  function SomeRoots(from: string): TrustRoots {
    TrustRoots(Print(1), from, Print(50_000), Print(0), Print(10), Print(0))
  }

  function UnhashedObservation(address: string): Observation {
    Observation(Print(1), Print(5), "", Print(100), Print(5), "", Print(5), Print(0), address,
                Print(21_000), Print(30_000), Print(1), Print(0), Print(1), Print(100))
  }

  function UnhashedQuote(plan: Plan, from: string, address: string): FeeQuote {
    QuoteOf(plan, UnhashedObservation(address), SomeRoots(from), CostResult(21_000, 1, 21_000, 21_000), 110)
  }

  lemma SmallCosts()
    ensures CalculateCosts(CostInput(21_000, 0, 1, 0, 1, 0, 30_000, 50_000)) == Ok(CostResult(21_000, 1, 21_000, 21_000))
  {
    assert CheckedMul(21_000, 10_000) == Ok(210_000_000);
    assert CeilDiv(210_000_000, 10_000) == Ok(21_000);
  }

  lemma CostsFromReadings(o: Observation, bufferBps: string, roots: TrustRoots, i: CostInput)
    requires Uint(o.gasEstimate, false) == Ok(i.gasEstimate) && Uint(bufferBps, true) == Ok(i.bufferBps)
    requires Uint(o.baseFeePerGas, true) == Ok(i.baseFeePerGas)
    requires Uint(o.maxPriorityFeePerGas, true) == Ok(i.maxPriorityFeePerGas)
    requires Uint(o.maxFeePerGas, true) == Ok(i.maxFeePerGas) && i.value == 0
    requires Uint(o.blockGasLimit, false) == Ok(i.blockGasLimit)
    requires Uint(roots.maximumWorstCaseWei, true) == Ok(i.maximumWorstCaseWei)
    ensures ReadCosts(o, bufferBps, roots) == Charged(CalculateCosts(i))
  {
  }

  lemma UnhashedCosts(from: string, address: string)
    ensures ReadCosts(UnhashedObservation(address), Print(0), SomeRoots(from)) == Ok(CostResult(21_000, 1, 21_000, 21_000))
  {
    ParseInvertsPrint(Print(21_000), false, 21_000);
    ParseInvertsPrint(Print(30_000), false, 30_000);
    PrintedIsReadable(0);
    PrintedIsReadable(1);
    PrintedIsReadable(50_000);
    CostsFromReadings(UnhashedObservation(address), Print(0), SomeRoots(from), CostInput(21_000, 0, 1, 0, 1, 0, 30_000, 50_000));
    SmallCosts();
  }

  lemma UnhashedReadings(keccak: Keccak, from: string, address: string)
    requires CreateAddress(keccak, from, 0) == Ok(address)
    ensures
      var r := Read(keccak, UnhashedObservation(address), Print(0), SomeRoots(from));
      && Bound(r) && !r.hashesWellFormed && Expiry(r) == 110 && InInterval(r, 100)
      && r.created == Ok(address) && r.costs == Ok(CostResult(21_000, 1, 21_000, 21_000))
  {
    UnhashedCosts(from, address);
    PrintedIsReadable(0);
    PrintedIsReadable(5);
    PrintedIsReadable(100);
    ParseInvertsPrint(Print(10), false, 10);
  }

  /** With empty block hashes, `validateQuote` accepts what the builder refuses. */
  lemma UnhashedQuotePasses(keccak: Keccak, plan: Plan, from: string, address: string)
    requires CreateAddress(keccak, from, 0) == Ok(address)
    ensures ValidateQuote(keccak, plan, UnhashedQuote(plan, from, address), SomeRoots(from), 100).Ok?
    ensures BuildFeeQuote(keccak, plan, UnhashedObservation(address), SomeRoots(from)).Err?
    ensures !Readable(UnhashedQuote(plan, from, address))
  {
    var q := UnhashedQuote(plan, from, address);
    var r := Read(keccak, q.observation, q.bufferBps, SomeRoots(from));
    UnhashedReadings(keccak, from, address);
    PrintedExpiry(q.expiresAt, 110);
    ValidatedReadings(r, Uint(q.expiresAt, true), plan, q, SomeRoots(from), 100);
    BuiltFromReadings(r, plan, q.observation, SomeRoots(from));
  }
}

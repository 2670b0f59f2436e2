/**
  The readiness decision: one function evaluates evidence into a report, another checks a report that
  comes back as a bundle. A report never certifies qualification.
*/
module Readiness {
  import opened Decimal
  import opened Wrappers

  /** A decimal field as `parseUint` reads it. */
  type Quantity = Result<nat, DecimalError>

  datatype Estimate = Estimate(expiresAt: Quantity, estimatedNative: Quantity, worstCaseNative: Quantity)

  datatype Estimates = Estimates(complete: bool, operations: seq<Estimate>)

  /** `isMainnetGenesis` says whether the genesis hash is the one pinned for the Solana main network. */
  datatype Evidence = Evidence(
    manifestSha256: string,
    observedAt: Quantity,
    validUntil: Quantity,
    chainId: string,
    ethereumDeployed: bool,
    fixedSupply: Quantity,
    backing: Quantity,
    pendingEthereumToSolana: Option<Quantity>,
    pendingSolanaToEthereum: Option<Quantity>,
    blockNumber: Quantity,
    blockHashWellFormed: bool,
    blockTimestamp: Quantity,
    ethereumAuthorityComplete: bool,
    genesisHash: string,
    genesisHashWellFormed: bool,
    isMainnetGenesis: bool,
    solanaDeployed: bool,
    supply: Quantity,
    solanaAuthorityComplete: bool,
    slot: Quantity,
    blockTime: Quantity,
    protocolQualified: bool,
    coverageComplete: bool,
    estimates: Option<Estimates>)

  /** The reasons in alphabetical order of their names, which is the order of the validator's table. */
  datatype Reason =
    | ActivityCoverageIncomplete | AuthorityObservationIncomplete | BackingExceedsFixedSupply | DeploymentNotPresent
    | EstimatesIncomplete | EthereumChainMismatch | ProtocolManifestUnbound | ProtocolProfileUnverified
    | ProtocolUnqualified | ReconciliationUnknown | SolanaMainnetGenesisMismatch | SolanaManifestGenesisMismatch
    | SurplusFound | UnderBackedFound

  function Rank(r: Reason): nat {
    match r
    case ActivityCoverageIncomplete => 0
    case AuthorityObservationIncomplete => 1
    case BackingExceedsFixedSupply => 2
    case DeploymentNotPresent => 3
    case EstimatesIncomplete => 4
    case EthereumChainMismatch => 5
    case ProtocolManifestUnbound => 6
    case ProtocolProfileUnverified => 7
    case ProtocolUnqualified => 8
    case ReconciliationUnknown => 9
    case SolanaMainnetGenesisMismatch => 10
    case SolanaManifestGenesisMismatch => 11
    case SurplusFound => 12
    case UnderBackedFound => 13
  }

  datatype ReconciliationStatus = Exact | UnderBacked | Surplus | Unknown

  datatype Reconciliation = Reconciliation(adjustedGlobalSupply: Option<string>, backingSurplus: Option<string>, status: ReconciliationStatus)

  datatype Status = Qualified | Incomplete | Inconsistent | NotDeployed

  datatype Report = Report(
    status: Status,
    reasons: seq<Reason>,
    manifestSha256: string,
    reconciliation: Reconciliation,
    authorityComplete: bool,
    estimatesComplete: bool,
    observedAt: string,
    validUntil: string)

  datatype ReadinessError =
    | EvidenceInvalid | ObservationOutsideInterval | EstimateExpiryOutsideInterval | AdjustedSupplyNegative
    | BadQuantity(decimal: DecimalError)

  predicate IsDigest(s: string) {
    |s| == 66 && s[..2] == "0x" && forall i | 2 <= i < 66 :: '0' <= s[i] <= '9' || 'a' <= s[i] <= 'f'
  }

  // ------------------------------------------------------------------ what is acceptable

  predicate Within(q: Quantity, low: nat, high: nat) {
    q.Ok? && low <= q.value <= high
  }

  predicate EstimateAcceptable(x: Estimate, observedAt: nat, validUntil: nat) {
    && x.expiresAt.Ok? && observedAt < x.expiresAt.value <= validUntil
    && x.estimatedNative.Ok? && x.worstCaseNative.Ok?
  }

  function Operations(e: Evidence): seq<Estimate> {
    if e.estimates.Some? then e.estimates.value.operations else []
  }

  predicate PendingReadable(p: Option<Quantity>) {
    p.Some? ==> p.value.Ok?
  }

  predicate ReconciliationKnown(e: Evidence) {
    e.coverageComplete && e.pendingEthereumToSolana.Some? && e.pendingSolanaToEthereum.Some?
  }

  /** The interval and the observations taken inside it. */
  predicate IntervalAcceptable(e: Evidence) {
    && e.observedAt.Ok? && e.validUntil.Ok? && e.observedAt.value <= e.validUntil.value
    && IsDigest(e.manifestSha256) && e.blockHashWellFormed && e.genesisHashWellFormed
    && e.blockNumber.Ok? && e.slot.Ok?
    && Within(e.blockTimestamp, e.observedAt.value, e.validUntil.value)
    && Within(e.blockTime, e.observedAt.value, e.validUntil.value)
  }

  predicate AccountsReadable(e: Evidence) {
    && e.fixedSupply.Ok? && e.backing.Ok? && e.supply.Ok?
    && PendingReadable(e.pendingEthereumToSolana) && PendingReadable(e.pendingSolanaToEthereum)
  }

  function Number(q: Quantity): nat {
    if q.Ok? then q.value else 0
  }

  function PendingTotal(e: Evidence): nat {
    (if e.pendingEthereumToSolana.Some? then Number(e.pendingEthereumToSolana.value) else 0)
    + (if e.pendingSolanaToEthereum.Some? then Number(e.pendingSolanaToEthereum.value) else 0)
  }

  /** What circulates everywhere, and what backs it beyond that, once both directions are accounted for. */
  function Adjusted(e: Evidence): int {
    Number(e.fixedSupply) - Number(e.backing) + Number(e.supply) + PendingTotal(e)
  }

  function BackingSurplus(e: Evidence): int {
    Number(e.backing) - Number(e.supply) - PendingTotal(e)
  }

  predicate Acceptable(e: Evidence) {
    && IntervalAcceptable(e)
    && (forall i | 0 <= i < |Operations(e)| :: EstimateAcceptable(Operations(e)[i], e.observedAt.value, e.validUntil.value))
    && AccountsReadable(e)
    && (ReconciliationKnown(e) ==> Adjusted(e) >= 0)
  }

  // ---------------------------------------------------------------- what the report says

  function StatusOfSurplus(surplus: int): ReconciliationStatus {
    if surplus < 0 then UnderBacked else if surplus > 0 then Surplus else Exact
  }

  function ReconciledStatus(e: Evidence): ReconciliationStatus {
    if ReconciliationKnown(e) then StatusOfSurplus(BackingSurplus(e)) else Unknown
  }

  predicate EstimatesBounded(operations: seq<Estimate>) {
    forall i | 0 <= i < |operations| :: Number(operations[i].estimatedNative) <= Number(operations[i].worstCaseNative)
  }

  predicate EstimatesComplete(e: Evidence) {
    e.estimates.Some? && e.estimates.value.complete && EstimatesBounded(Operations(e))
  }

  /** What the evidence shows, in the terms of the reasons. */
  datatype Findings = Findings(
    wrongChain: bool,
    undeployed: bool,
    unqualified: bool,
    manifestUnbound: bool,
    manifestMismatch: bool,
    mainnetMismatch: bool,
    coverageIncomplete: bool,
    authorityIncomplete: bool,
    reconciliation: ReconciliationStatus,
    backingExceedsSupply: bool,
    estimatesIncomplete: bool)

  function FindingsOf(e: Evidence, protocolGenesis: Option<string>): Findings {
    Findings(
      e.chainId != "1",
      !(e.ethereumDeployed && e.solanaDeployed),
      !e.protocolQualified,
      protocolGenesis == None,
      protocolGenesis.Some? && protocolGenesis.value != e.genesisHash,
      !e.isMainnetGenesis,
      !e.coverageComplete,
      !(e.ethereumAuthorityComplete && e.solanaAuthorityComplete),
      ReconciledStatus(e),
      Number(e.backing) > Number(e.fixedSupply),
      !EstimatesComplete(e))
  }

  /** When each reason applies. */
  predicate Applies(r: Reason, f: Findings) {
    match r
    case ActivityCoverageIncomplete => f.coverageIncomplete
    case AuthorityObservationIncomplete => f.authorityIncomplete
    case BackingExceedsFixedSupply => f.backingExceedsSupply
    case DeploymentNotPresent => f.undeployed
    case EstimatesIncomplete => f.estimatesIncomplete
    case EthereumChainMismatch => f.wrongChain
    case ProtocolManifestUnbound => f.manifestUnbound
    case ProtocolProfileUnverified => true
    case ProtocolUnqualified => f.unqualified
    case ReconciliationUnknown => f.reconciliation == Unknown
    case SolanaMainnetGenesisMismatch => f.mainnetMismatch
    case SolanaManifestGenesisMismatch => f.manifestMismatch
    case SurplusFound => f.reconciliation == Surplus
    case UnderBackedFound => f.reconciliation == UnderBacked
  }

  predicate AscendingReasons(reasons: seq<Reason>) {
    forall i, j | 0 <= i < j < |reasons| :: Rank(reasons[i]) < Rank(reasons[j])
  }

  /** The report's validity ends with the evidence or with the first estimate that expires. */
  predicate IsEarliest(end: nat, validUntil: nat, operations: seq<Estimate>) {
    && end <= validUntil
    && (forall i | 0 <= i < |operations| :: end <= Number(operations[i].expiresAt))
    && (end == validUntil || exists i | 0 <= i < |operations| :: end == Number(operations[i].expiresAt))
  }

  function ReconciliationOf(e: Evidence): Reconciliation {
    if ReconciliationKnown(e) then
      Reconciliation(Some(PrintInteger(Adjusted(e))), Some(PrintInteger(BackingSurplus(e))), StatusOfSurplus(BackingSurplus(e)))
    else Reconciliation(None, None, Unknown)
  }

  /** What a report must say about findings: exactly the reasons that apply, in order, and the status they call for. */
  ghost predicate Reports(report: Report, f: Findings) {
    && AscendingReasons(report.reasons)
    && (forall r: Reason :: r in report.reasons <==> Applies(r, f))
    && report.reconciliation.status == f.reconciliation
    && report.authorityComplete == !f.authorityIncomplete
    && report.estimatesComplete == !f.estimatesIncomplete
    && report.status == (
         if f.backingExceedsSupply || f.reconciliation == UnderBacked then Inconsistent
         else if f.undeployed then NotDeployed
         else Incomplete)
  }

  ghost predicate Describes(report: Report, e: Evidence, protocolGenesis: Option<string>) {
    && Reports(report, FindingsOf(e, protocolGenesis))
    && report.manifestSha256 == e.manifestSha256
    && report.reconciliation == ReconciliationOf(e)
    && report.observedAt == Print(Number(e.observedAt))
    && exists end: nat :: IsEarliest(end, Number(e.validUntil), Operations(e)) && report.validUntil == Print(end)
  }

  // ------------------------------------------------------------------------ evaluation

  predicate DistinctReasons(reasons: seq<Reason>) {
    forall i, j | 0 <= i < j < |reasons| :: reasons[i] != reasons[j]
  }

  /** The conditional pushes of the evaluation, in the order in which it makes them. */
  function Pushes(f: Findings): seq<(bool, Reason)> {
    [
      (f.wrongChain, EthereumChainMismatch),
      (f.undeployed, DeploymentNotPresent),
      (f.unqualified, ProtocolUnqualified),
      (true, ProtocolProfileUnverified),
      (f.manifestUnbound, ProtocolManifestUnbound),
      (f.manifestMismatch, SolanaManifestGenesisMismatch),
      (f.mainnetMismatch, SolanaMainnetGenesisMismatch),
      (f.coverageIncomplete, ActivityCoverageIncomplete),
      (f.authorityIncomplete, AuthorityObservationIncomplete),
      (f.reconciliation == Unknown, ReconciliationUnknown),
      (f.backingExceedsSupply, BackingExceedsFixedSupply),
      (f.reconciliation == UnderBacked, UnderBackedFound),
      (f.reconciliation == Surplus, SurplusFound),
      (f.estimatesIncomplete, EstimatesIncomplete)
    ]
  }

  /** The place of each reason among the pushes. */
  function PushOrder(r: Reason): nat {
    match r
    case EthereumChainMismatch => 0
    case DeploymentNotPresent => 1
    case ProtocolUnqualified => 2
    case ProtocolProfileUnverified => 3
    case ProtocolManifestUnbound => 4
    case SolanaManifestGenesisMismatch => 5
    case SolanaMainnetGenesisMismatch => 6
    case ActivityCoverageIncomplete => 7
    case AuthorityObservationIncomplete => 8
    case ReconciliationUnknown => 9
    case BackingExceedsFixedSupply => 10
    case UnderBackedFound => 11
    case SurplusFound => 12
    case EstimatesIncomplete => 13
  }

  function Pushed(pushes: seq<(bool, Reason)>): seq<Reason> {
    if pushes == [] then []
    else
      var last := pushes[|pushes| - 1];
      Pushed(pushes[..|pushes| - 1]) + if last.0 then [last.1] else []
  }

  lemma {:induction false} PushedMembers(pushes: seq<(bool, Reason)>)
    requires forall i | 0 <= i < |pushes| :: PushOrder(pushes[i].1) == i
    ensures forall r :: r in Pushed(pushes) <==> PushOrder(r) < |pushes| && pushes[PushOrder(r)] == (true, r)
    ensures DistinctReasons(Pushed(pushes))
  {
    if pushes != [] {
      PushedMembers(pushes[..|pushes| - 1]);
    }
  }

  lemma PushesComplete(f: Findings, r: Reason)
    ensures |Pushes(f)| == 14 && PushOrder(r) < 14 && Pushes(f)[PushOrder(r)] == (Applies(r, f), r)
  {
  }

  lemma PushesInOrder(f: Findings, i: nat)
    requires i < 14
    ensures |Pushes(f)| == 14 && PushOrder(Pushes(f)[i].1) == i
  {
    if i < 7 {
      assert i == 0 || i == 1 || i == 2 || i == 3 || i == 4 || i == 5 || i == 6;
    } else {
      assert i == 7 || i == 8 || i == 9 || i == 10 || i == 11 || i == 12 || i == 13;
    }
  }

  /** The reasons that get pushed are exactly those that apply, each once. */
  lemma PushedApply(f: Findings)
    ensures DistinctReasons(Pushed(Pushes(f)))
    ensures forall r: Reason :: r in Pushed(Pushes(f)) <==> Applies(r, f)
  {
    forall i | 0 <= i < |Pushes(f)|
      ensures PushOrder(Pushes(f)[i].1) == i
    {
      PushesInOrder(f, i);
    }
    PushedMembers(Pushes(f));
    forall r: Reason
      ensures r in Pushed(Pushes(f)) <==> Applies(r, f)
    {
      PushesComplete(f, r);
    }
  }

  method Push(reasons: seq<Reason>, condition: bool, reason: Reason, ghost pushes: seq<(bool, Reason)>, ghost k: nat)
    returns (after: seq<Reason>)
    requires k < |pushes| && pushes[k] == (condition, reason) && reasons == Pushed(pushes[..k])
    ensures after == Pushed(pushes[..k + 1])
  {
    assert pushes[..k + 1][..k] == pushes[..k];
    after := if condition then reasons + [reason] else reasons;
  }

  method CollectReasons(f: Findings) returns (reasons: seq<Reason>)
    ensures reasons == Pushed(Pushes(f))
  {
    ghost var all := Pushes(f);
    var early := CollectEarly(f, all);
    reasons := CollectLate(early, f, all);
    assert all[..14] == all;
  }

  /** Chain, deployment and protocol. */
  method CollectEarly(f: Findings, ghost all: seq<(bool, Reason)>) returns (reasons: seq<Reason>)
    requires |all| == 14
    requires all[0] == (f.wrongChain, EthereumChainMismatch) && all[1] == (f.undeployed, DeploymentNotPresent)
    requires all[2] == (f.unqualified, ProtocolUnqualified) && all[3] == (true, ProtocolProfileUnverified)
    requires all[4] == (f.manifestUnbound, ProtocolManifestUnbound)
    requires all[5] == (f.manifestMismatch, SolanaManifestGenesisMismatch)
    requires all[6] == (f.mainnetMismatch, SolanaMainnetGenesisMismatch)
    ensures reasons == Pushed(all[..7])
  {
    reasons := Push([], f.wrongChain, EthereumChainMismatch, all, 0);
    reasons := Push(reasons, f.undeployed, DeploymentNotPresent, all, 1);
    reasons := Push(reasons, f.unqualified, ProtocolUnqualified, all, 2);
    reasons := Push(reasons, true, ProtocolProfileUnverified, all, 3);
    reasons := Push(reasons, f.manifestUnbound, ProtocolManifestUnbound, all, 4);
    reasons := Push(reasons, f.manifestMismatch, SolanaManifestGenesisMismatch, all, 5);
    reasons := Push(reasons, f.mainnetMismatch, SolanaMainnetGenesisMismatch, all, 6);
  }

  /** Coverage, authority, accounts and estimates. */
  method CollectLate(early: seq<Reason>, f: Findings, ghost all: seq<(bool, Reason)>) returns (reasons: seq<Reason>)
    requires |all| == 14 && early == Pushed(all[..7])
    requires all[7] == (f.coverageIncomplete, ActivityCoverageIncomplete)
    requires all[8] == (f.authorityIncomplete, AuthorityObservationIncomplete)
    requires all[9] == (f.reconciliation == Unknown, ReconciliationUnknown)
    requires all[10] == (f.backingExceedsSupply, BackingExceedsFixedSupply)
    requires all[11] == (f.reconciliation == UnderBacked, UnderBackedFound)
    requires all[12] == (f.reconciliation == Surplus, SurplusFound)
    requires all[13] == (f.estimatesIncomplete, EstimatesIncomplete)
    ensures reasons == Pushed(all[..14])
  {
    reasons := Push(early, f.coverageIncomplete, ActivityCoverageIncomplete, all, 7);
    reasons := Push(reasons, f.authorityIncomplete, AuthorityObservationIncomplete, all, 8);
    reasons := Push(reasons, f.reconciliation == Unknown, ReconciliationUnknown, all, 9);
    reasons := Push(reasons, f.backingExceedsSupply, BackingExceedsFixedSupply, all, 10);
    reasons := Push(reasons, f.reconciliation == UnderBacked, UnderBackedFound, all, 11);
    reasons := Push(reasons, f.reconciliation == Surplus, SurplusFound, all, 12);
    reasons := Push(reasons, f.estimatesIncomplete, EstimatesIncomplete, all, 13);
  }

  function Insert(r: Reason, sorted: seq<Reason>): seq<Reason> {
    if sorted == [] || Rank(r) <= Rank(sorted[0]) then [r] + sorted else [sorted[0]] + Insert(r, sorted[1..])
  }

  function Sorted(reasons: seq<Reason>): seq<Reason> {
    if reasons == [] then [] else Insert(reasons[0], Sorted(reasons[1..]))
  }

  lemma PrependReason(r: Reason, rest: seq<Reason>)
    requires AscendingReasons(rest) && forall x | x in rest :: Rank(r) < Rank(x)
    ensures AscendingReasons([r] + rest)
  {
  }

  lemma {:induction false} InsertReason(r: Reason, sorted: seq<Reason>)
    requires AscendingReasons(sorted) && r !in sorted
    ensures AscendingReasons(Insert(r, sorted))
    ensures forall x :: x in Insert(r, sorted) <==> x == r || x in sorted
  {
    if sorted != [] {
      assert sorted == [sorted[0]] + sorted[1..];
      if Rank(r) <= Rank(sorted[0]) {
        assert Rank(r) != Rank(sorted[0]);
        PrependReason(r, sorted);
      } else {
        InsertReason(r, sorted[1..]);
        PrependReason(sorted[0], Insert(r, sorted[1..]));
      }
    }
  }

  lemma {:induction false} SortReasons(reasons: seq<Reason>)
    requires DistinctReasons(reasons)
    ensures AscendingReasons(Sorted(reasons))
    ensures forall x :: x in Sorted(reasons) <==> x in reasons
  {
    if reasons != [] {
      assert reasons == [reasons[0]] + reasons[1..];
      SortReasons(reasons[1..]);
      InsertReason(reasons[0], Sorted(reasons[1..]));
    }
  }

  method CheckInterval(e: Evidence) returns (r: Result<(nat, nat), ReadinessError>)
    ensures r.Ok? <==> IntervalAcceptable(e)
    ensures r.Ok? ==> r.value == (e.observedAt.value, e.validUntil.value)
  {
    if e.observedAt.Err? {
      return Err(BadQuantity(e.observedAt.error));
    }
    if e.validUntil.Err? {
      return Err(BadQuantity(e.validUntil.error));
    }
    var observedAt, validUntil := e.observedAt.value, e.validUntil.value;
    if validUntil < observedAt || !IsDigest(e.manifestSha256) || !e.blockHashWellFormed || !e.genesisHashWellFormed {
      return Err(EvidenceInvalid);
    }
    if e.blockNumber.Err? {
      return Err(BadQuantity(e.blockNumber.error));
    }
    if e.slot.Err? {
      return Err(BadQuantity(e.slot.error));
    }
    if e.blockTimestamp.Err? {
      return Err(BadQuantity(e.blockTimestamp.error));
    }
    if e.blockTime.Err? {
      return Err(BadQuantity(e.blockTime.error));
    }
    if !Within(e.blockTimestamp, observedAt, validUntil) || !Within(e.blockTime, observedAt, validUntil) {
      return Err(ObservationOutsideInterval);
    }
    return Ok((observedAt, validUntil));
  }

  /** The loop over the estimates: their expiry shortens the report, their bounds must be in order. */
  method ScanEstimates(operations: seq<Estimate>, observedAt: nat, validUntil: nat)
    returns (r: Result<(nat, bool), ReadinessError>)
    ensures r.Ok? <==> forall i | 0 <= i < |operations| :: EstimateAcceptable(operations[i], observedAt, validUntil)
    ensures r.Ok? ==>
              IsEarliest(r.value.0, validUntil, operations) && r.value.1 == EstimatesBounded(operations)
  {
    var reportValidUntil, estimatesWithinBounds := validUntil, true;
    for i := 0 to |operations|
      invariant forall j | 0 <= j < i :: EstimateAcceptable(operations[j], observedAt, validUntil)
      invariant reportValidUntil <= validUntil
      invariant forall j | 0 <= j < i :: reportValidUntil <= Number(operations[j].expiresAt)
      invariant reportValidUntil == validUntil || exists j | 0 <= j < i :: reportValidUntil == Number(operations[j].expiresAt)
      invariant estimatesWithinBounds <==> forall j | 0 <= j < i ::
                  Number(operations[j].estimatedNative) <= Number(operations[j].worstCaseNative)
    {
      var x := operations[i];
      if x.expiresAt.Err? {
        return Err(BadQuantity(x.expiresAt.error));
      }
      if x.expiresAt.value <= observedAt || x.expiresAt.value > validUntil {
        return Err(EstimateExpiryOutsideInterval);
      }
      if x.estimatedNative.Err? {
        return Err(BadQuantity(x.estimatedNative.error));
      }
      if x.worstCaseNative.Err? {
        return Err(BadQuantity(x.worstCaseNative.error));
      }
      if x.worstCaseNative.value < x.estimatedNative.value {
        estimatesWithinBounds := false;
      }
      if x.expiresAt.value < reportValidUntil {
        reportValidUntil := x.expiresAt.value;
      }
    }
    return Ok((reportValidUntil, estimatesWithinBounds));
  }

  method CheckAccounts(e: Evidence) returns (r: Result<(), ReadinessError>)
    ensures r.Ok? <==> AccountsReadable(e) && (ReconciliationKnown(e) ==> Adjusted(e) >= 0)
  {
    if e.fixedSupply.Err? {
      return Err(BadQuantity(e.fixedSupply.error));
    }
    if e.backing.Err? {
      return Err(BadQuantity(e.backing.error));
    }
    if e.supply.Err? {
      return Err(BadQuantity(e.supply.error));
    }
    if e.pendingEthereumToSolana.Some? && e.pendingEthereumToSolana.value.Err? {
      return Err(BadQuantity(e.pendingEthereumToSolana.value.error));
    }
    if e.pendingSolanaToEthereum.Some? && e.pendingSolanaToEthereum.value.Err? {
      return Err(BadQuantity(e.pendingSolanaToEthereum.value.error));
    }
    if ReconciliationKnown(e) && Adjusted(e) < 0 {
      return Err(AdjustedSupplyNegative);
    }
    return Ok(());
  }

  /** `evaluateReadiness`: which evidence is refused, and what the report says about the rest. */
  method EvaluateReadiness(e: Evidence, protocolGenesis: Option<string>) returns (r: Result<Report, ReadinessError>)
    ensures r.Ok? <==> Acceptable(e)
    ensures r.Ok? ==> Describes(r.value, e, protocolGenesis)
  {
    var interval := CheckInterval(e);
    if interval.Err? {
      return Err(interval.error);
    }
    var (observedAt, validUntil) := interval.value;
    var scan := ScanEstimates(Operations(e), observedAt, validUntil);
    if scan.Err? {
      return Err(scan.error);
    }
    var accounts := CheckAccounts(e);
    if accounts.Err? {
      return Err(accounts.error);
    }
    var (reportValidUntil, estimatesWithinBounds) := scan.value;
    var f := FindingsOf(e, protocolGenesis);
    assert f.estimatesIncomplete == !(e.estimates.Some? && e.estimates.value.complete && estimatesWithinBounds);
    var report := WriteReport(f, e.manifestSha256, ReconciliationOf(e), Print(observedAt), Print(reportValidUntil));
    assert IsEarliest(reportValidUntil, Number(e.validUntil), Operations(e));
    return Ok(report);
  }

  method WriteReport(f: Findings, manifest: string, reconciliation: Reconciliation, observedAt: string, validUntil: string)
    returns (report: Report)
    requires reconciliation.status == f.reconciliation
    ensures Reports(report, f)
    ensures report.manifestSha256 == manifest && report.reconciliation == reconciliation
    ensures report.observedAt == observedAt && report.validUntil == validUntil
  {
    var reasons := CollectReasons(f);
    PushedApply(f);
    SortReasons(reasons);
    assert Applies(ProtocolProfileUnverified, f) && Applies(BackingExceedsFixedSupply, f) == f.backingExceedsSupply;
    var status :=
      if BackingExceedsFixedSupply in reasons || reconciliation.status == UnderBacked then Inconsistent
      else if f.undeployed then NotDeployed
      else if reasons != [] then Incomplete
      else Qualified;
    return Report(status, Sorted(reasons), manifest, reconciliation, !f.authorityIncomplete, !f.estimatesIncomplete,
                  observedAt, validUntil);
  }

  // ------------------------------------------------------------------------ validation

  predicate IsUint(s: string) {
    IsInteger(s) && IsCanonical(s)
  }

  predicate ReconciliationValid(rec: Reconciliation, reasons: seq<Reason>) {
    && (ActivityCoverageIncomplete in reasons ==> rec.status == Unknown)
    && (if rec.backingSurplus.None? then rec.adjustedGlobalSupply.None? && rec.status == Unknown
        else
          && rec.adjustedGlobalSupply.Some?
          && IsUint(rec.adjustedGlobalSupply.value) && IsInteger(rec.backingSurplus.value)
          && IntegerOf(rec.adjustedGlobalSupply.value) + IntegerOf(rec.backingSurplus.value) >= 0
          && rec.status == StatusOfSurplus(IntegerOf(rec.backingSurplus.value)))
    && (ReconciliationUnknown in reasons <==> rec.status == Unknown)
    && (UnderBackedFound in reasons <==> rec.status == UnderBacked)
    && (SurplusFound in reasons <==> rec.status == Surplus)
  }

  function ExpectedStatus(report: Report): Status {
    if BackingExceedsFixedSupply in report.reasons || report.reconciliation.status == UnderBacked then Inconsistent
    else if DeploymentNotPresent in report.reasons then NotDeployed
    else if report.reasons != [] then Incomplete
    else Qualified
  }

  /** `assertReadinessBundle`. */
  predicate BundleAccepted(report: Report, expectedManifest: string) {
    && IsDigest(expectedManifest) && report.manifestSha256 == expectedManifest
    && IsUint(report.observedAt) && IsUint(report.validUntil)
    && BigIntOf(report.observedAt) <= BigIntOf(report.validUntil)
    && DistinctReasons(report.reasons) && report.reasons == Sorted(report.reasons)
    && ReconciliationValid(report.reconciliation, report.reasons)
    && (EstimatesIncomplete in report.reasons <==> !report.estimatesComplete)
    && (AuthorityObservationIncomplete in report.reasons <==> !report.authorityComplete)
    && report.status == ExpectedStatus(report) && report.status != Qualified
    && ProtocolProfileUnverified in report.reasons
  }

  lemma {:induction false} AscendingIsSorted(reasons: seq<Reason>)
    requires AscendingReasons(reasons)
    ensures DistinctReasons(reasons) && Sorted(reasons) == reasons
  {
    if reasons != [] {
      AscendingIsSorted(reasons[1..]);
      assert reasons == [reasons[0]] + reasons[1..];
    }
  }

  lemma ReconciliationReads(e: Evidence)
    requires ReconciliationKnown(e) && Adjusted(e) >= 0
    ensures
      var rec := ReconciliationOf(e);
      && IsUint(rec.adjustedGlobalSupply.value) && IsInteger(rec.backingSurplus.value)
      && IntegerOf(rec.adjustedGlobalSupply.value) + IntegerOf(rec.backingSurplus.value) == Number(e.fixedSupply)
      && rec.status == StatusOfSurplus(IntegerOf(rec.backingSurplus.value))
  {
    PrintIntegerReads(Adjusted(e));
    PrintIntegerReads(BackingSurplus(e));
  }

  /**
    What a report prints of known accounts reads back as an adjusted supply and a surplus that add up
    to the fixed supply, with the status of that surplus; unknown accounts are not printed at all.
  */
  lemma SupplyIsConserved(report: Report, e: Evidence, protocolGenesis: Option<string>)
    requires Acceptable(e) && Describes(report, e, protocolGenesis)
    ensures
      var rec := report.reconciliation;
      if ReconciliationKnown(e) then
        && rec.adjustedGlobalSupply.Some? && IsUint(rec.adjustedGlobalSupply.value)
        && rec.backingSurplus.Some? && IsInteger(rec.backingSurplus.value)
        && IntegerOf(rec.adjustedGlobalSupply.value) + IntegerOf(rec.backingSurplus.value) == Number(e.fixedSupply)
        && rec.status == StatusOfSurplus(IntegerOf(rec.backingSurplus.value))
      else rec.adjustedGlobalSupply.None? && rec.backingSurplus.None? && rec.status == Unknown
  {
    if ReconciliationKnown(e) {
      ReconciliationReads(e);
    }
  }

  lemma ReportedReconciliation(report: Report, e: Evidence, f: Findings)
    requires ReconciliationKnown(e) ==> Adjusted(e) >= 0
    requires Reports(report, f) && report.reconciliation == ReconciliationOf(e)
    requires f.coverageIncomplete == !e.coverageComplete
    ensures ReconciliationValid(report.reconciliation, report.reasons)
  {
    if ReconciliationKnown(e) {
      ReconciliationReads(e);
    }
    assert Applies(ActivityCoverageIncomplete, f) == f.coverageIncomplete;
    assert Applies(ReconciliationUnknown, f) == (f.reconciliation == Unknown);
    assert Applies(UnderBackedFound, f) == (f.reconciliation == UnderBacked);
    assert Applies(SurplusFound, f) == (f.reconciliation == Surplus);
  }

  lemma ReportedTimes(report: Report, e: Evidence, protocolGenesis: Option<string>)
    requires Acceptable(e) && Describes(report, e, protocolGenesis)
    ensures IsUint(report.observedAt) && IsUint(report.validUntil)
    ensures BigIntOf(report.observedAt) <= BigIntOf(report.validUntil)
  {
    var end: nat :| IsEarliest(end, Number(e.validUntil), Operations(e)) && report.validUntil == Print(end);
    PrintReads(Number(e.observedAt));
    PrintReads(end);
  }

  lemma ReportedStatus(report: Report, f: Findings)
    requires Reports(report, f)
    ensures report.status == ExpectedStatus(report) && report.status != Qualified
    ensures EstimatesIncomplete in report.reasons <==> !report.estimatesComplete
    ensures AuthorityObservationIncomplete in report.reasons <==> !report.authorityComplete
    ensures ProtocolProfileUnverified in report.reasons
  {
    assert Applies(ProtocolProfileUnverified, f);
    assert Applies(EstimatesIncomplete, f) == f.estimatesIncomplete;
    assert Applies(AuthorityObservationIncomplete, f) == f.authorityIncomplete;
    assert Applies(BackingExceedsFixedSupply, f) == f.backingExceedsSupply;
    assert Applies(DeploymentNotPresent, f) == f.undeployed;
  }

  /**
    Every evaluated report is accepted by the validator, for its own manifest and for no other; it
    never says "qualified".
  */
  lemma EvaluatedIsAccepted(report: Report, e: Evidence, protocolGenesis: Option<string>, manifest: string)
    requires Acceptable(e) && Describes(report, e, protocolGenesis)
    ensures BundleAccepted(report, manifest) <==> manifest == e.manifestSha256
    ensures report.status != Qualified
  {
    AscendingIsSorted(report.reasons);
    ReportedTimes(report, e, protocolGenesis);
    ReportedReconciliation(report, e, FindingsOf(e, protocolGenesis));
    ReportedStatus(report, FindingsOf(e, protocolGenesis));
  }

  /**
    A report is never accepted as qualified, whoever wrote it; the accounts it names add up to no
    negative supply, and it names none exactly when it gives the reason for that.
  */
  lemma AcceptedNeverQualifies(report: Report, manifest: string)
    requires BundleAccepted(report, manifest)
    ensures report.status != Qualified && AscendingReasons(report.reasons)
    ensures report.status == Inconsistent <==>
              BackingExceedsFixedSupply in report.reasons || UnderBackedFound in report.reasons
    ensures
      var rec := report.reconciliation;
      if ReconciliationUnknown in report.reasons then rec.adjustedGlobalSupply.None? && rec.backingSurplus.None?
      else
        && rec.adjustedGlobalSupply.Some? && IsUint(rec.adjustedGlobalSupply.value)
        && rec.backingSurplus.Some? && IsInteger(rec.backingSurplus.value)
        && IntegerOf(rec.adjustedGlobalSupply.value) + IntegerOf(rec.backingSurplus.value) >= 0
  {
    SortReasons(report.reasons);
  }
}

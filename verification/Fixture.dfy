/**
  One run of the local Solana fixture: starting a validator with retries on port collisions, the
  bounded cleanup behind it, and what may be published about the outcome.

  The world holds what is really there; the resources hold what the run believes it still owns.
*/
module Fixture {
  import opened Wrappers

  /** Which of the runner's lists an error code is on. */
  datatype CodeKind = StopTimeout | ChildIdentity | PortCollision | StartupSettled | OtherCode

  datatype Cause = Coded(kind: CodeKind, code: string) | Unexpected | Aggregate(errors: seq<Cause>)

  datatype Phase =
    | CreateMint | RevokeFreeze | CreateAta | Mint | Burn | RestoreFreezeAttempt | FreezeAttempt | Verification

  datatype Truth = Truth(validatorStopped: bool, portLeaseReleased: bool, privateDirectoryRemoved: bool, errors: nat)

  datatype FailureReport = FailureReport(
    phase: Phase,
    diagnosticCode: string,
    cleanupCompleted: bool,
    validatorStopped: bool,
    portLeaseReleased: bool,
    privateDirectoryRemoved: bool,
    secretsRetained: bool)

  datatype Evidence = Nothing | Success | Failure(report: FailureReport)

  // ------------------------------------------------------------------------- failures

  /** A tool process may have outlived the command that failed. */
  predicate UnconfirmedToolUser(cause: Cause) {
    match cause
    case Coded(kind, _) => kind == StopTimeout || kind == ChildIdentity
    case Unexpected => false
    case Aggregate(errors) => exists i | 0 <= i < |errors| :: UnconfirmedToolUser(errors[i])
  }

  /** Codes that are raised before the validator is spawned or after its owned cleanup succeeded. */
  predicate ConfirmedStartupCleanup(cause: Cause) {
    cause.Coded? && (cause.kind == PortCollision || cause.kind == StartupSettled)
  }

  function PrimaryFailure(cause: Cause): Cause {
    if cause.Aggregate? && cause.errors != [] then PrimaryFailure(cause.errors[0]) else cause
  }

  predicate CodeLetter(c: char) {
    'A' <= c <= 'Z' || '0' <= c <= '9' || c == '_'
  }

  /** An upper-case letter and two to ninety-five more code characters. */
  predicate WellFormedCode(code: string) {
    3 <= |code| <= 96 && 'A' <= code[0] <= 'Z' && forall i | 0 <= i < |code| :: CodeLetter(code[i])
  }

  const UNEXPECTED := "SOLANA_UNEXPECTED_FAILURE"

  predicate CleanupComplete(truth: Truth) {
    truth.validatorStopped && truth.portLeaseReleased && truth.privateDirectoryRemoved
  }

  function DiagnosticCode(cause: Cause): string {
    var primary := PrimaryFailure(cause);
    if primary.Coded? then primary.code else UNEXPECTED
  }

  function FailureEvidence(phase: Phase, cause: Cause, truth: Truth): FailureReport {
    FailureReport(phase, DiagnosticCode(cause), CleanupComplete(truth), truth.validatorStopped, truth.portLeaseReleased,
                  truth.privateDirectoryRemoved, !truth.privateDirectoryRemoved)
  }

  /** `assertFailureEvidence`, which the store applies to every failure report before publishing it. */
  predicate FailureAccepted(r: FailureReport) {
    && WellFormedCode(r.diagnosticCode)
    && r.cleanupCompleted == (r.validatorStopped && r.portLeaseReleased && r.privateDirectoryRemoved)
    && r.secretsRetained == !r.privateDirectoryRemoved
  }

  lemma UnexpectedIsWellFormed()
    ensures WellFormedCode(UNEXPECTED)
  {
  }

  /** A failure report is refused only for its diagnostic code; one without a code of its own is always accepted. */
  lemma {:induction false} FailureAcceptedExactly(phase: Phase, cause: Cause, truth: Truth)
    ensures FailureAccepted(FailureEvidence(phase, cause, truth)) <==>
              PrimaryFailure(cause).Coded? ==> WellFormedCode(PrimaryFailure(cause).code)
  {
    UnexpectedIsWellFormed();
  }

  lemma {:induction false} PrimaryIsLeaf(cause: Cause)
    ensures PrimaryFailure(cause).Aggregate? ==> PrimaryFailure(cause).errors == []
  {
    if cause.Aggregate? && cause.errors != [] {
      PrimaryIsLeaf(cause.errors[0]);
    }
  }

  // --------------------------------------------------------------------------- world

  /** What cleanup tries: at most twice each. */
  datatype Target = StopValidator | ReleaseLease | RemoveDirectory

  predicate IsCollision(r: Result<(), Cause>) {
    r.Err? && r.error.Coded? && r.error.kind == PortCollision
  }

  method AnyCause() returns (cause: Cause)
  {
    cause := *;
  }

  class FixtureRun {
    // what is there
    var validatorAlive: bool
    var strayToolUser: bool
    var leases: nat
    var snapshotsOpen: bool
    var directory: bool
    var evidence: Evidence
    // what the run owns
    var validator: bool
    var portLease: bool
    var tools: bool
    var toolUsersUncertain: bool
    var mutationPhase: Option<Phase>
    // how it went
    ghost var resolved: Option<Result<(), Cause>>
    ghost var starts: seq<Result<(), Cause>>
    ghost var operated: Option<Result<(), Cause>>
    ghost var tries: map<Target, nat>
    ghost var reported: seq<FailureReport>

    /** How often cleanup tried this. */
    ghost function Tries(target: Target): nat
      reads this`tries
    {
      if target in tries then tries[target] else 0
    }

    /** What is there is owned or known to be uncertain, and never two port leases at once. */
    ghost predicate Valid()
      reads this
    {
      && (validatorAlive ==> validator || toolUsersUncertain)
      && (strayToolUser ==> toolUsersUncertain)
      && leases <= (if portLease then 1 else 0)
      && (snapshotsOpen ==> tools)
    }

    /** The private run directory has just been created. */
    constructor ()
      ensures Valid() && directory && evidence == Nothing && !validator && !portLease && !tools && !toolUsersUncertain
      ensures !validatorAlive && !strayToolUser && leases == 0 && !snapshotsOpen
      ensures mutationPhase.None? && resolved.None? && starts == [] && operated.None? && tries == map[] && reported == []
    {
      validatorAlive, strayToolUser, leases, snapshotsOpen, directory := false, false, 0, false, true;
      evidence := Nothing;
      validator, portLease, tools, toolUsersUncertain := false, false, false, false;
      mutationPhase, resolved, starts, operated, tries, reported := None, None, [], None, map[], [];
    }

    // ---- starting

    /** Resolving the tools; the lease on the snapshots may be owned although resolving fails afterwards. */
    method ResolveTools() returns (r: Result<(), Cause>)
      requires Valid() && !tools
      modifies this`snapshotsOpen, this`tools, this`resolved
      ensures Valid() && resolved == Some(r)
      ensures r.Ok? ==> tools
    {
      var owned: bool := *;
      var ok: bool := *;
      tools := owned || ok;
      snapshotsOpen := tools;
      var cause := AnyCause();
      r := if ok then Ok(()) else Err(cause);
      resolved := Some(r);
    }

    /** Allocating ports is only ever tried while no lease is held. */
    method Allocate() returns (r: Result<(), Cause>)
      requires Valid() && !portLease
      modifies this`leases, this`portLease
      ensures Valid() && leases <= 1
      ensures portLease == r.Ok?
    {
      var ok: bool := *;
      var cause := AnyCause();
      if !ok {
        return Err(cause);
      }
      leases, portLease := leases + 1, true;
      return Ok(());
    }

    method Release() returns (r: Result<(), Cause>)
      requires Valid()
      modifies this`leases, this`portLease
      ensures Valid() && (if r.Ok? then !portLease && leases == 0 else portLease)
    {
      if !portLease {
        return Ok(());
      }
      var gone: bool := *;
      var ok: bool := *;
      var cause := AnyCause();
      if ok || gone {
        leases := 0;
      }
      if !ok {
        return Err(cause);
      }
      portLease := false;
      return Ok(());
    }

    /** The adapter's start: a failure with a confirmed code has left nothing alive. */
    method StartValidator() returns (r: Result<(), Cause>)
      requires Valid() && !validatorAlive && !strayToolUser && !validator
      modifies this`validatorAlive, this`strayToolUser, this`validator, this`toolUsersUncertain, this`starts
      ensures Valid() && starts == old(starts) + [r]
      ensures r.Ok? ==> validator && !toolUsersUncertain
      ensures r.Err? ==> !validator && toolUsersUncertain == !ConfirmedStartupCleanup(r.error)
    {
      toolUsersUncertain := true;
      var ok: bool := *;
      var left: bool := *;
      var stray: bool := *;
      var cause := AnyCause();
      if ok {
        validatorAlive, validator, toolUsersUncertain := true, true, false;
        starts := starts + [Ok(())];
        return Ok(());
      }
      validatorAlive := left && !ConfirmedStartupCleanup(cause);
      strayToolUser := stray && !ConfirmedStartupCleanup(cause);
      toolUsersUncertain := !ConfirmedStartupCleanup(cause);
      starts := starts + [Err(cause)];
      return Err(cause);
    }

    /**
      Up to three attempts, each with a port lease of its own; only a port collision is worth another,
      and a failed attempt leaves no lease behind unless its release failed.
    */
    method StartValidatorWithPortRetry() returns (r: Result<(), Cause>)
      requires Valid() && !validatorAlive && !strayToolUser && !validator && !portLease && !toolUsersUncertain
      modifies this`validatorAlive, this`strayToolUser, this`validator, this`toolUsersUncertain
      modifies this`leases, this`portLease, this`starts
      ensures Valid()
      ensures r.Ok? ==> validator && portLease && !toolUsersUncertain
      ensures old(starts) <= starts && |starts| <= |old(starts)| + 3
      ensures forall i | |old(starts)| <= i < |starts| - 1 :: IsCollision(starts[i])
      ensures r.Ok? <==> |starts| > |old(starts)| && starts[|starts| - 1].Ok?
      ensures r.Err? && portLease ==> r.error.Aggregate?
    {
      for attempt := 0 to 3
        invariant Valid() && !validatorAlive && !strayToolUser && !validator && !portLease && !toolUsersUncertain
        invariant old(starts) <= starts && |starts| == |old(starts)| + attempt
        invariant forall i | |old(starts)| <= i < |starts| :: IsCollision(starts[i])
      {
        var lease := Allocate();
        if lease.Err? {
          return Err(lease.error);
        }
        var started := StartValidator();
        if started.Ok? {
          return Ok(());
        }
        var cause := started.error;
        var released := Release();
        if released.Err? {
          return Err(Aggregate([cause, released.error]));
        }
        if !(cause.Coded? && cause.kind == PortCollision) || attempt == 2 {
          return Err(cause);
        }
      }
      return Err(Coded(OtherCode, "SOLANA_VALIDATOR_PORT_RETRY"));
    }

    /**
      The observed operations. A failing command leaves a tool process behind only with a cause that
      says so, and the validator may die by itself.
    */
    method Operate() returns (r: Result<(), Cause>)
      requires Valid()
      modifies this`strayToolUser, this`toolUsersUncertain, this`validatorAlive, this`mutationPhase, this`operated
      ensures operated == Some(r)
      ensures Valid() && (r.Ok? ==> mutationPhase == Some(Verification) && toolUsersUncertain == old(toolUsersUncertain))
    {
      var ok: bool := *;
      var died: bool := *;
      var stray: bool := *;
      var cause := AnyCause();
      mutationPhase := *;
      validatorAlive := validatorAlive && !died;
      if ok {
        mutationPhase, operated := Some(Verification), Some(Ok(()));
        return Ok(());
      }
      strayToolUser := strayToolUser || (stray && UnconfirmedToolUser(cause));
      toolUsersUncertain := toolUsersUncertain || UnconfirmedToolUser(cause);
      r := Err(cause);
      operated := Some(r);
    }

    // ---- cleanup

    method Attempt(target: Target) returns (r: Result<(), Cause>)
      requires Valid()
      requires target == RemoveDirectory ==> !tools && !toolUsersUncertain
      modifies this`validatorAlive, this`validator, this`leases, this`portLease, this`directory, this`tries
      ensures Valid()
      ensures r.Ok? ==> match target
                        case StopValidator => !validator && (toolUsersUncertain || !validatorAlive)
                        case ReleaseLease => !portLease && leases == 0
                        case RemoveDirectory => !directory
      ensures target != StopValidator ==> validator == old(validator) && validatorAlive == old(validatorAlive)
      ensures target != ReleaseLease ==> portLease == old(portLease) && leases == old(leases)
      ensures target != RemoveDirectory ==> directory == old(directory)
      ensures target == StopValidator && r.Err? ==> validator
      ensures target == ReleaseLease && r.Err? ==> portLease
      ensures tries == old(tries[target := Tries(target) + 1])
    {
      tries := tries[target := Tries(target) + 1];
      var ok: bool := *;
      var partly: bool := *;
      var cause := AnyCause();
      match target
      case StopValidator =>
        if !validator {
          return Ok(());
        }
        if ok {
          validatorAlive, validator := false, false;
          return Ok(());
        }
        validatorAlive := validatorAlive && !partly;
        return Err(cause);
      case ReleaseLease =>
        r := Release();
      case RemoveDirectory =>
        if ok || partly {
          directory := false;
        }
        return if ok then Ok(()) else Err(cause);
    }

    /** `retryCleanup`: a second attempt exactly when the first failed. */
    method RetryCleanup(target: Target) returns (done: bool)
      requires Valid()
      requires target == RemoveDirectory ==> !tools && !toolUsersUncertain
      modifies this`validatorAlive, this`validator, this`leases, this`portLease, this`directory, this`tries
      ensures Valid()
      ensures done ==> match target
                       case StopValidator => !validator && (toolUsersUncertain || !validatorAlive)
                       case ReleaseLease => !portLease && leases == 0
                       case RemoveDirectory => !directory
      ensures target == StopValidator ==> done == !validator
      ensures target == ReleaseLease ==> done == !portLease
      ensures target != StopValidator ==> validator == old(validator) && validatorAlive == old(validatorAlive)
      ensures target != ReleaseLease ==> portLease == old(portLease) && leases == old(leases)
      ensures target != RemoveDirectory ==> directory == old(directory)
      ensures old(Tries(target)) < Tries(target) <= old(Tries(target)) + 2
      ensures !done ==> Tries(target) == old(Tries(target)) + 2
      ensures forall other | other != target :: Tries(other) == old(Tries(other))
    {
      for attempt := 0 to 2
        invariant Valid()
        invariant Tries(target) == old(Tries(target)) + attempt
        invariant forall other | other != target :: Tries(other) == old(Tries(other))
        invariant target != StopValidator ==> validator == old(validator) && validatorAlive == old(validatorAlive)
        invariant target != ReleaseLease ==> portLease == old(portLease) && leases == old(leases)
        invariant target != RemoveDirectory ==> directory == old(directory)
        invariant attempt > 0 && target == StopValidator ==> validator
        invariant attempt > 0 && target == ReleaseLease ==> portLease
      {
        var tried := Attempt(target);
        if tried.Ok? {
          return true;
        }
      }
      return false;
    }

    /** The snapshots are closed only when nothing can use them any more. */
    method CloseTools() returns (failed: bool)
      requires Valid() && !validator && !toolUsersUncertain
      modifies this`snapshotsOpen, this`tools
      ensures Valid() && !validatorAlive && !strayToolUser
      ensures failed == tools && (!failed ==> !snapshotsOpen)
    {
      var ok: bool := *;
      if !tools || ok {
        snapshotsOpen, tools := false, false;
      }
      return tools;
    }

    /** `finalizeCleanup`; what it reports as done is done. */
    method FinalizeCleanup() returns (truth: Truth)
      requires Valid()
      requires tries == map[]
      modifies this`validatorAlive, this`validator, this`leases, this`portLease, this`directory, this`snapshotsOpen, this`tools, this`tries
      ensures Valid()
      ensures 1 <= Tries(StopValidator) <= 2 && (validator ==> Tries(StopValidator) == 2)
      ensures 1 <= Tries(ReleaseLease) <= 2 && (portLease ==> Tries(ReleaseLease) == 2)
      ensures Tries(RemoveDirectory) <= 2 && (Tries(RemoveDirectory) > 0 <==> !tools && !toolUsersUncertain)
      ensures Tries(RemoveDirectory) > 0 && !truth.privateDirectoryRemoved ==> Tries(RemoveDirectory) == 2
      ensures truth.validatorStopped <==> !validator && !toolUsersUncertain
      ensures truth.portLeaseReleased <==> !portLease
      ensures truth.validatorStopped ==> !validatorAlive && !strayToolUser
      ensures truth.portLeaseReleased ==> leases == 0
      ensures truth.privateDirectoryRemoved ==> !directory && !snapshotsOpen && !tools
      ensures snapshotsOpen != old(snapshotsOpen) ==> !validatorAlive && !strayToolUser
      ensures evidence == old(evidence)
    {
      var errors := 0;
      var stopped := RetryCleanup(StopValidator);
      if !stopped {
        errors := errors + 1;
      }
      var released := RetryCleanup(ReleaseLease);
      if !released {
        errors := errors + 1;
      }
      if tools && !validator && !toolUsersUncertain {
        var failed := CloseTools();
        if failed {
          errors := errors + 1;
        }
      }
      if tools {
        errors := errors + 1;
      }
      var removed := false;
      if !tools && !toolUsersUncertain {
        removed := RetryCleanup(RemoveDirectory);
        if !removed {
          errors := errors + 1;
        }
      }
      return Truth(!validator && !toolUsersUncertain, !portLease, removed, errors);
    }

    // ---- publication

    /** Publishing a failure: the store refuses a report that does not satisfy its schema. */
    method PublishFailure(report: FailureReport) returns (ok: bool)
      modifies this`evidence, this`reported
      ensures reported == old(reported) + [report]
      ensures ok ==> FailureAccepted(report) && evidence == Failure(report)
      ensures !ok ==> evidence == old(evidence)
    {
      reported := reported + [report];
      var written: bool := *;
      ok := FailureAccepted(report) && written;
      if ok {
        evidence := Failure(report);
      }
    }

    /** Everything success evidence stands for. */
    ghost predicate CleanedUp()
      reads this
    {
      !validatorAlive && !strayToolUser && leases == 0 && !snapshotsOpen && !directory
    }

    /** A published failure never claims more cleanup than there was. */
    ghost predicate Truthful(report: FailureReport)
      reads this
    {
      && (report.validatorStopped ==> !validatorAlive && !strayToolUser)
      && (report.portLeaseReleased ==> leases == 0)
      && (!report.secretsRetained ==> !directory && !snapshotsOpen)
      && (report.cleanupCompleted ==> CleanedUp())
    }

    /** Tools resolved, the last start came up, and every observed operation went through. */
    ghost predicate NoStepFailed()
      reads this
    {
      && resolved.Some? && resolved.value.Ok? && starts != [] && starts[|starts| - 1].Ok?
      && operated.Some? && operated.value.Ok?
    }

    /** The steps between creating the run and observing it. */
    method Perform() returns (r: Result<(), Cause>)
      requires Valid() && !validator && !portLease && !tools && !toolUsersUncertain && mutationPhase.None?
      requires !validatorAlive && !strayToolUser && leases == 0
      modifies this`validatorAlive, this`strayToolUser, this`validator, this`toolUsersUncertain
      modifies this`leases, this`portLease, this`snapshotsOpen, this`tools, this`mutationPhase
      modifies this`resolved, this`starts, this`operated
      ensures Valid() && (r.Ok? ==> mutationPhase == Some(Verification) && !toolUsersUncertain)
      ensures r.Ok? ==> NoStepFailed()
    {
      r := ResolveTools();
      if r.Ok? {
        r := StartValidatorWithPortRetry();
      }
      if r.Ok? {
        r := Operate();
      }
    }

    /** What a truth says is so. */
    ghost predicate Holds(truth: Truth)
      reads this
    {
      && (truth.validatorStopped ==> !validatorAlive && !strayToolUser)
      && (truth.portLeaseReleased ==> leases == 0)
      && (truth.privateDirectoryRemoved ==> !directory && !snapshotsOpen)
    }

    /** After the cleanup: publish success, or report the failure if anything may have been mutated. */
    method Conclude(performed: Result<(), Cause>, truth: Truth, aborted: bool) returns (r: Result<(), Cause>)
      requires Valid() && Holds(truth) && evidence == Nothing && reported == []
      requires performed.Ok? ==> mutationPhase.Some?
      modifies this`evidence, this`reported
      ensures Valid()
      ensures r.Ok? <==> evidence == Success
      ensures evidence == Success ==> performed.Ok? && CleanedUp() && !aborted && reported == []
      ensures performed.Err? ==> r == performed
      ensures r.Err? ==> |reported| == (if mutationPhase.Some? then 1 else 0)
      ensures forall i | 0 <= i < |reported| :: Truthful(reported[i]) && mutationPhase == Some(reported[i].phase)
      ensures evidence.Failure? ==> FailureAccepted(evidence.report) && reported == [evidence.report]
    {
      if performed.Err? || !CleanupComplete(truth) {
        var cause := if performed.Err? then performed.error else Coded(OtherCode, "SOLANA_CLEANUP_INCOMPLETE");
        if mutationPhase.Some? {
          var told := PublishFailure(FailureEvidence(mutationPhase.value, cause, truth));
        }
        return Err(cause);
      }
      var published: bool := *;
      var refused := AnyCause();
      if !aborted && published {
        evidence := Success;
        return Ok(());
      }
      var told := PublishFailure(FailureEvidence(mutationPhase.value, refused, truth));
      return Err(refused);
    }

    /**
      `runFixture`, from the created run to what is published. Cleanup always runs; success is published
      only after all of it, and a failure after the first mutation is reported exactly once, truthfully.
    */
    method Run(aborted: bool) returns (r: Result<(), Cause>)
      requires Valid() && evidence == Nothing && !validator && !portLease && !tools && !toolUsersUncertain
      requires !validatorAlive && !strayToolUser && leases == 0
      requires mutationPhase.None? && tries == map[] && reported == []
      modifies this
      ensures Valid()
      ensures Tries(StopValidator) >= 1 && Tries(ReleaseLease) >= 1
      ensures r.Ok? <==> evidence == Success
      ensures evidence == Success ==> CleanedUp() && !aborted && reported == []
      ensures evidence == Success ==> mutationPhase == Some(Verification) && NoStepFailed()
      ensures r.Err? ==> |reported| == (if mutationPhase.Some? then 1 else 0)
      ensures forall i | 0 <= i < |reported| :: Truthful(reported[i]) && mutationPhase == Some(reported[i].phase)
      ensures evidence.Failure? ==> FailureAccepted(evidence.report) && reported == [evidence.report]
    {
      var performed := Perform();
      if performed.Err? {
        toolUsersUncertain := toolUsersUncertain || UnconfirmedToolUser(performed.error);
      }
      var truth := FinalizeCleanup();
      r := Conclude(performed, truth, aborted);
    }
  }
}

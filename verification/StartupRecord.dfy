/**
  The record kept in `.agtmai-validator-startup.json`: who wrote it, whether startup custody is
  settled, the last recorded stage and the last recorded failure. Each writer is a guard on the
  record it read together with the record it publishes in its place.

  A process is named by its (pid, start) identity; identities are numbered and never reused.
*/
module StartupRecord {
  import opened Wrappers

  type ProcessId = nat

  datatype Stage =
    | Reserved | SupervisorAcquired | SpawnRequested | Spawned | IdentityCaptured | Registered
    | Stopping | Settled | Failed

  datatype Failure = Failure(phase: Stage, code: string)

  datatype CustodyRecord = CustodyRecord(
    supervisor: Option<ProcessId>,
    settled: bool,
    stage: Stage,
    failure: Option<Failure>)

  /** What a reader finds in the marker file. `Torn` is text that does not parse as a record. */
  datatype Marker = Absent | Torn | Written(record: CustodyRecord)

  /**
    How one in-place rewrite of the marker ends. `WriteOk` is the only outcome its caller sees as
    success; a failed write, truncate or sync leaves the old text, unparsable text or the new text.
  */
  datatype WriteOutcome = WriteOk | FailedOld | FailedTorn | FailedNew

  function AfterWrite(before: Marker, record: CustodyRecord, outcome: WriteOutcome): Marker {
    match outcome
    case WriteOk => Written(record)
    case FailedOld => before
    case FailedTorn => Torn
    case FailedNew => Written(record)
  }

  /** What `initializeStartupCustody` and `reserveStartupCustody` publish. */
  const INITIAL_RECORD := CustodyRecord(None, true, Settled, None)
  const RESERVED_RECORD := CustodyRecord(None, false, Reserved, None)

  /** The guard of `updateStartupCustody` for both directions. */
  predicate MayUpdate(record: CustodyRecord, self: ProcessId, settled: bool) {
    && !record.settled
    && (if settled then record.supervisor == Some(self) else record.supervisor == None)
  }

  function Updated(record: CustodyRecord, self: ProcessId, settled: bool): CustodyRecord {
    CustodyRecord(Some(self), settled, if settled then Settled else SupervisorAcquired, record.failure)
  }

  /**
    The guard of `recordStartupStage`. Only the failure of a reservation that nobody acquired may be
    recorded without comparing the writer with the acquired supervisor.
  */
  predicate PreAcquireFailure(record: CustodyRecord, stage: Stage, failure: Option<Failure>) {
    record.supervisor == None && stage == Failed && failure.Some? && failure.value.phase == Reserved
  }

  predicate MayRecordStage(record: CustodyRecord, self: ProcessId, stage: Stage, failure: Option<Failure>) {
    && !record.settled
    && (record.stage == Stopping ==> stage == Failed)
    && (record.stage == Failed ==> stage == Stopping || stage == Failed)
    && (PreAcquireFailure(record, stage, failure) || record.supervisor == Some(self))
  }

  function WithStage(record: CustodyRecord, stage: Stage, failure: Option<Failure>): CustodyRecord {
    record.(stage := stage, failure := if failure.Some? then failure else record.failure)
  }
}

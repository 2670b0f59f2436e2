/**
  Failure evidence in the startup record: a supervisor fails once, so at most one of its writes ever
  carries evidence, and none does once the record holds some.
*/
module CustodyEvidence {
  import opened Wrappers
  import opened StartupRecord
  import opened StartupCustody

  predicate Carries(w: MarkerWrite) {
    w.StageWrite? && w.failure.Some?
  }

  /** No write of this supervisor that is still to come carries evidence. */
  predicate CarriesNothing(p: Supervisor) {
    && (forall w | w in p.queue :: !Carries(w))
    && (p.action.Publishing? ==> !Carries(p.action.write))
  }

  predicate CarriesAtMostOne(p: Supervisor) {
    && (!p.failing ==> CarriesNothing(p))
    && (forall v, w | v in p.queue && w in p.queue && Carries(v) && Carries(w) :: v == w)
    && (p.action.Publishing? && Carries(p.action.write) ==> forall w | w in p.queue :: !Carries(w))
  }

  /** The record this supervisor acquired holds evidence. */
  predicate HoldsEvidence(self: ProcessId, marker: Marker) {
    marker.Written? && marker.record.supervisor == Some(self) && marker.record.failure.Some?
  }

  predicate EvidenceSound(self: ProcessId, p: Supervisor, marker: Marker) {
    && CarriesAtMostOne(p)
    && (p.alive && HoldsEvidence(self, marker) ==> p.failing && CarriesNothing(p))
  }

  /** A fresh reservation starts without evidence. */
  predicate ReservedIsClean(marker: Marker) {
    (marker.Written? && !marker.record.settled && marker.record.supervisor == None && marker.record.stage == Reserved)
      ==> marker.record.failure == None
  }

  ghost predicate EvidenceInv(s: State) {
    && ReservedIsClean(s.files.marker)
    && forall i | 0 <= i < |s.supervisors| :: EvidenceSound(i, s.supervisors[i], s.files.marker)
  }

  // ------------------------------------------------------------------------ steps

  /** What a coroutine queues, and whether it fails by it. */
  lemma FailureQueues(p: Supervisor, failure: Failure)
    requires CoroutineStep(p, FailStartup(failure)).Some?
    ensures
      var q := CoroutineStep(p, FailStartup(failure)).value;
      && q.action == p.action && !p.failing && q.failing && q.queue <= p.queue + {StageWrite(Failed, Some(failure))}
  {
  }

  lemma CoroutineQueues(p: Supervisor, e: CoroutineEvent)
    requires CoroutineStep(p, e).Some? && !e.FailStartup?
    ensures
      var q := CoroutineStep(p, e).value;
      && q.action == p.action && q.alive == p.alive && q.failing == p.failing
      && forall w | w in q.queue && Carries(w) :: w in p.queue
  {
    match e
    case ReceiveStart =>
    case ResumeStart(ok) =>
    case QueueIdentity =>
    case QueueRegistered =>
    case Terminate =>
    case ResumeTerminate =>
    case StopTimeout =>
    case ChildStop(stopped) =>
    case SettleTimeout =>
  }

  lemma CoroutineKeepsEvidence(self: ProcessId, p: Supervisor, marker: Marker, e: CoroutineEvent)
    requires EvidenceSound(self, p, marker) && CoroutineStep(p, e).Some?
    ensures EvidenceSound(self, CoroutineStep(p, e).value, marker)
  {
    if e.FailStartup? {
      FailureQueues(p, e.failure);
    } else {
      CoroutineQueues(p, e);
    }
  }

  lemma CompletedCarries(p: Supervisor, w: MarkerWrite, ok: bool)
    ensures
      var q := Completed(p, w, ok);
      q.queue == p.queue && q.failing == p.failing && q.alive == p.alive && q.action == NoAction && q.cleared == p.cleared
  {
  }

  lemma BeginKeepsEvidence(self: ProcessId, p: Supervisor, files: Files, w: MarkerWrite)
    requires EvidenceSound(self, p, files.marker) && w in p.queue && p.action == NoAction
    ensures EvidenceSound(self, WriterStep(self, p, files, BeginWrite(w)).value.0, files.marker)
  {
    CompletedCarries(p.(queue := p.queue - {w}), w, false);
  }

  /** What was read stays in the marker until the write is over. */
  lemma AdmittedEvidence(self: ProcessId, p: Supervisor, files: Files)
    requires p.alive && p.action.Publishing? && Admitted(self, files, p.action.write) == Some(p.action.record)
    requires EvidenceSound(self, p, files.marker) && ReservedIsClean(files.marker) && !PreAcquireFailed(files.marker)
    ensures
      var r := files.marker.record;
      && p.action.record.supervisor == Some(self)
      && (r.failure.Some? ==> p.action.record.failure == r.failure)
      && (p.action.record.failure.Some? ==> p.failing && forall w | w in p.queue :: !Carries(w))
  {
  }

  lemma FinishKeepsEvidence(self: ProcessId, p: Supervisor, files: Files, outcome: WriteOutcome)
    requires p.alive && p.action.Publishing? && Admitted(self, files, p.action.write) == Some(p.action.record)
    requires EvidenceSound(self, p, files.marker) && ReservedIsClean(files.marker) && !PreAcquireFailed(files.marker)
    ensures
      var (q, files') := WriterStep(self, p, files, FinishWrite(outcome)).value;
      EvidenceSound(self, q, files'.marker) && ReservedIsClean(files'.marker)
  {
    AdmittedEvidence(self, p, files);
    CompletedCarries(p, p.action.write, outcome == WriteOk);
  }

  /** A write in progress belongs to the last supervisor, and the record it read was acquired or is fresh. */
  lemma PublishingReads(s: State, i: nat)
    requires Inv(s) && i < |s.supervisors| && s.supervisors[i].alive && s.supervisors[i].action.Publishing?
    ensures i == |s.supervisors| - 1 && !PreAcquireFailed(s.files.marker)
    ensures Admitted(i, s.files, s.supervisors[i].action.write) == Some(s.supervisors[i].action.record)
    ensures s.supervisors[i].action.record.supervisor == Some(i)
  {
    assert PublishesWhatItRead(i, s.supervisors[i], s.files);
    assert LocalInv(i, s.supervisors[i]);
  }

  /** The acting supervisor and the marker after one of its steps. */
  lemma ActorKeepsEvidence(s: State, i: nat, e: SupervisorEvent)
    requires Inv(s) && EvidenceInv(s) && Step(s, BySupervisor(i, e)).Some?
    ensures
      var t := Step(s, BySupervisor(i, e)).value;
      && EvidenceSound(i, t.supervisors[i], t.files.marker) && ReservedIsClean(t.files.marker)
      && (t.files.marker != s.files.marker ==> s.supervisors[i].alive && s.supervisors[i].action.Publishing?)
      && (t.files.marker.Written? && t.files.marker != s.files.marker ==> t.files.marker.record.supervisor == Some(i))
  {
    var p := s.supervisors[i];
    assert EvidenceSound(i, p, s.files.marker);
    if p.alive && p.action.Publishing? {
      PublishingReads(s, i);
    }
    match e
    case Resumes(c) => CoroutineKeepsEvidence(i, p, s.files.marker, c);
    case Writes(w) => WriterKeepsEvidence(i, p, s.files, w);
    case ChildDies =>
    case SupervisorDies(outcome) =>
      if p.action.Publishing? {
        AdmittedEvidence(i, p, s.files);
      }
  }

  lemma WriterKeepsEvidence(self: ProcessId, p: Supervisor, files: Files, e: WriterEvent)
    requires p.alive && WriterStep(self, p, files, e).Some?
    requires EvidenceSound(self, p, files.marker) && ReservedIsClean(files.marker)
    requires p.action.Publishing? ==>
      && Admitted(self, files, p.action.write) == Some(p.action.record) && p.action.record.supervisor == Some(self)
      && !PreAcquireFailed(files.marker)
    ensures
      var (q, files') := WriterStep(self, p, files, e).value;
      && EvidenceSound(self, q, files'.marker) && ReservedIsClean(files'.marker)
      && (files'.marker != files.marker ==> p.action.Publishing?)
      && (files'.marker.Written? && files'.marker != files.marker ==> files'.marker.record.supervisor == Some(self))
  {
    match e
    case BeginWrite(w) => BeginKeepsEvidence(self, p, files, w);
    case FinishWrite(outcome) => FinishKeepsEvidence(self, p, files, outcome);
    case Unlink(ok) => CompletedCarries(p, SettleWrite, false);
    case SyncUnlinked(ok) => CompletedCarries(p, SettleWrite, ok);
  }

  lemma SupervisorKeepsEvidence(s: State, i: nat, e: SupervisorEvent)
    requires Inv(s) && EvidenceInv(s) && Step(s, BySupervisor(i, e)).Some?
    ensures EvidenceInv(Step(s, BySupervisor(i, e)).value)
  {
    var t := Step(s, BySupervisor(i, e)).value;
    ActorKeepsEvidence(s, i, e);
    forall j | 0 <= j < |t.supervisors| && j != i ensures EvidenceSound(j, t.supervisors[j], t.files.marker) {
      assert EvidenceSound(j, s.supervisors[j], s.files.marker);
    }
  }

  lemma OwnerKeepsEvidence(s: State, e: OwnerEvent)
    requires Inv(s) && EvidenceInv(s) && OwnerStep(s, e).Some?
    ensures EvidenceInv(OwnerStep(s, e).value)
  {
    var t := OwnerStep(s, e).value;
    forall j | 0 <= j < |t.supervisors| ensures EvidenceSound(j, t.supervisors[j], t.files.marker) {
      assert j < |s.supervisors| ==> EvidenceSound(j, s.supervisors[j], s.files.marker);
    }
  }

  lemma {:induction false} EvidenceInRuns(s: State, events: seq<Event>)
    requires Inv(s) && EvidenceInv(s) && Run(s, events).Some?
    ensures Inv(Run(s, events).value) && EvidenceInv(Run(s, events).value)
    decreases |events|
  {
    if events != [] {
      StepKeepsInv(s, events[0]);
      match events[0] {
        case ByOwner(o) => OwnerKeepsEvidence(s, o);
        case BySupervisor(i, e) => SupervisorKeepsEvidence(s, i, e);
      }
      EvidenceInRuns(Step(s, events[0]).value, events[1..]);
    }
  }

  lemma InitEvidence(s: State)
    requires Init(s)
    ensures Inv(s) && EvidenceInv(s)
  {
    InitInv(s);
  }
}

/** What startup custody promises over every interleaving of the owner, its supervisors and their validators. */
module CustodySafety {
  import opened Wrappers
  import opened StartupRecord
  import opened StartupCustody
  import opened CustodyEvidence

  /** The pending guard outlives every validator and every supervisor that could still spawn one. */
  lemma {:induction false} PendingOutlivesEveryChild(s: State, events: seq<Event>)
    requires Init(s) && Run(s, events).Some?
    ensures
      var t := Run(s, events).value;
      t.files.pending == NoPending ==>
        !AnyValidatorAlive(t) && forall i | 0 <= i < |t.supervisors| :: !MaySpawn(t.supervisors[i])
  {
    InitInv(s);
    RunKeepsInv(s, events);
    var t := Run(s, events).value;
    if t.files.pending == NoPending {
      forall i | 0 <= i < |t.supervisors|
        ensures t.supervisors[i].child != LiveChild && !MaySpawn(t.supervisors[i])
      {
        assert i == |t.supervisors| - 1 || t.supervisors[i].cleared;
        assert LocalInv(i, t.supervisors[i]);
      }
    }
  }

  /**
    `startupCustodySettled` answers true only when the record it read was settled and the pending
    guard it looked for afterwards was gone. Then no validator ever spawned for the run is alive,
    whatever happened between the two reads.
  */
  lemma {:induction false} SettledMeansNoValidator(s: State, before: seq<Event>, between: seq<Event>)
    requires Init(s) && Run(s, before).Some? && Run(Run(s, before).value, between).Some?
    requires ReadsSettled(Run(s, before).value)
    requires FindsNoPending(Run(Run(s, before).value, between).value)
    ensures !AnyValidatorAlive(Run(Run(s, before).value, between).value)
  {
    RunConcat(s, before, between);
    PendingOutlivesEveryChild(s, before + between);
  }

  lemma {:induction false} RunConcat(s: State, first: seq<Event>, second: seq<Event>)
    requires Run(s, first).Some?
    ensures Run(s, first + second) == Run(Run(s, first).value, second)
    decreases |first|
  {
    if first == [] {
      assert first + second == second;
    } else {
      assert (first + second)[0] == first[0];
      assert (first + second)[1..] == first[1..] + second;
      RunConcat(Step(s, first[0]).value, first[1..], second);
    }
  }

  /** What a reclaimer relies on after it found the owner dead and custody settled. */
  predicate OwnerDeadAndSettled(s: State) {
    !s.ownerAlive && ReadsSettled(s) && FindsNoPending(s)
  }

  lemma SettledStaysSettledOneStep(s: State, e: Event)
    requires Inv(s) && OwnerDeadAndSettled(s) && Step(s, e).Some?
    ensures OwnerDeadAndSettled(Step(s, e).value)
  {
    match e
    case ByOwner(o) =>
    case BySupervisor(i, se) =>
      var p := s.supervisors[i];
      assert i == |s.supervisors| - 1 || s.supervisors[i].cleared;
      assert LocalInv(i, p);
      match se {
        case Resumes(c) =>
        case Writes(w) => WriterKeepsLocalInv(i, p, s.files, w);
        case ChildDies =>
        case SupervisorDies(_) =>
      }
  }

  /** Once the owner is dead and custody is settled, both stay so and no validator is ever alive again. */
  lemma {:induction false} SettledStaysSettled(s: State, before: seq<Event>, after: seq<Event>)
    requires Init(s) && Run(s, before).Some? && OwnerDeadAndSettled(Run(s, before).value)
    requires Run(Run(s, before).value, after).Some?
    ensures OwnerDeadAndSettled(Run(Run(s, before).value, after).value)
    ensures !AnyValidatorAlive(Run(Run(s, before).value, after).value)
    decreases |after|
  {
    InitInv(s);
    RunKeepsInv(s, before);
    if after == [] {
      PendingOutlivesEveryChild(s, before);
    } else {
      var t := Run(s, before).value;
      SettledStaysSettledOneStep(t, after[0]);
      RunConcat(s, before, [after[0]]);
      assert Run(t, [after[0]]) == Run(Step(t, after[0]).value, [after[0]][1..]);
      assert Run(s, before + [after[0]]) == Step(t, after[0]);
      SettledStaysSettled(s, before + [after[0]], after[1..]);
    }
  }

  lemma WriterNeverSpawns(self: ProcessId, p: Supervisor, files: Files, e: WriterEvent)
    requires WriterStep(self, p, files, e).Some?
    ensures
      var p' := WriterStep(self, p, files, e).value.0;
      p'.closing == p.closing && p'.child == p.child
  {
    match e
    case BeginWrite(w) => CompletedFrame(p.(queue := p.queue - {w}), w, false);
    case FinishWrite(outcome) => CompletedFrame(p, p.action.write, outcome == WriteOk);
    case Unlink(ok) => CompletedFrame(p, SettleWrite, false);
    case SyncUnlinked(ok) => CompletedFrame(p, SettleWrite, ok);
  }

  lemma CompletedFrame(p: Supervisor, w: MarkerWrite, ok: bool)
    ensures Completed(p, w, ok).closing == p.closing && Completed(p, w, ok).child == p.child
  {
  }

  lemma SpawningSupervisor(self: ProcessId, p: Supervisor, files: Files, e: SupervisorEvent)
    requires SupervisorStep(self, p, files, e).Some?
    ensures
      var p' := SupervisorStep(self, p, files, e).value.0;
      && (p.closing ==> p'.closing)
      && (p'.child == LiveChild && p.child != LiveChild ==> MaySpawn(p))
  {
    match e
    case Resumes(c) =>
    case Writes(w) => WriterNeverSpawns(self, p, files, w);
    case ChildDies =>
    case SupervisorDies(_) =>
  }

  /** A step that gives a supervisor a live validator finds it alive and not closing, and `closing` never resets. */
  lemma NothingSpawnsOnceClosing(s: State, e: Event, i: nat)
    requires Step(s, e).Some? && i < |s.supervisors|
    ensures
      var (p, p') := (s.supervisors[i], Step(s, e).value.supervisors[i]);
      && (p.closing ==> p'.closing)
      && (p'.child == LiveChild && p.child != LiveChild ==> MaySpawn(p))
  {
    if e.BySupervisor? && e.i == i {
      SpawningSupervisor(i, s.supervisors[i], s.files, e.e);
    }
  }

  predicate IsStopStage(stage: Stage) {
    stage == Stopping || stage == Failed
  }

  /**
    What one write may do to the record it replaces. A settled record is replaced only by a new
    reservation; after `stopping` or `failed` only those two, or settlement, follow; recorded failure
    evidence and the acquiring supervisor stay as they are until a new reservation.
  */
  predicate Keeps(r: CustodyRecord, r': CustodyRecord) {
    && (r.settled ==> r' == r)
    && (IsStopStage(r.stage) ==> IsStopStage(r'.stage) || (r'.settled && r'.stage == Settled))
    && (r.failure.Some? ==> r'.failure == r.failure)
    && (r.supervisor.Some? ==> r'.supervisor == r.supervisor)
  }

  predicate MarkerFollows(r: CustodyRecord, r': CustodyRecord) {
    (r.settled && r' == RESERVED_RECORD) || Keeps(r, r')
  }

  predicate Reserves(e: Event) {
    e.ByOwner? && e.o.PublishReservation?
  }

  /** In every run, the marker is only ever rewritten as `MarkerFollows` allows, or becomes unreadable. */
  lemma {:induction false} MarkerHistory(s: State, before: seq<Event>, e: Event)
    requires Init(s) && Run(s, before).Some? && Step(Run(s, before).value, e).Some?
    requires Run(s, before).value.files.marker.Written?
    ensures
      var t := Run(s, before).value;
      var t' := Step(t, e).value;
      t'.files.marker.Written? ==> MarkerFollows(t.files.marker.record, t'.files.marker.record)
  {
    InitEvidence(s);
    EvidenceInRuns(s, before);
    if Step(Run(s, before).value, e).value.files.marker.Written? {
      StepFollows(Run(s, before).value, e);
    }
  }

  /** One step; without a reservation even an unreadable marker stays what it is. */
  lemma StepFollows(s: State, e: Event)
    requires Inv(s) && EvidenceInv(s) && Step(s, e).Some? && Step(s, e).value.files.marker.Written?
    ensures s.files.marker.Written? ==> MarkerFollows(s.files.marker.record, Step(s, e).value.files.marker.record)
    ensures !Reserves(e) ==> s.files.marker.Written? && Keeps(s.files.marker.record, Step(s, e).value.files.marker.record)
  {
    match e
    case ByOwner(o) => OwnerWriteFollows(s, o);
    case BySupervisor(i, se) => SupervisorWriteFollows(s, i, se);
  }

  lemma SupervisorWriteFollows(s: State, i: nat, e: SupervisorEvent)
    requires Inv(s) && EvidenceInv(s) && Step(s, BySupervisor(i, e)).Some?
    requires Step(s, BySupervisor(i, e)).value.files.marker.Written?
    ensures s.files.marker.Written? && Keeps(s.files.marker.record, Step(s, BySupervisor(i, e)).value.files.marker.record)
  {
    var p := s.supervisors[i];
    if p.alive && p.action.Publishing? {
      PublishingReads(s, i);
      assert EvidenceSound(i, p, s.files.marker);
      AdmittedFollows(i, s.files, p.action.write);
      AdmittedEvidence(i, p, s.files);
    }
  }

  lemma OwnerWriteFollows(s: State, e: OwnerEvent)
    requires Inv(s) && EvidenceInv(s) && OwnerStep(s, e).Some? && OwnerStep(s, e).value.files.marker.Written?
    ensures
      var r' := OwnerStep(s, e).value.files.marker.record;
      && (s.files.marker.Written? ==> MarkerFollows(s.files.marker.record, r'))
      && (!e.PublishReservation? ==> s.files.marker.Written? && Keeps(s.files.marker.record, r'))
  {
    assert OwnerHoldsPending(s.owner) && |s.supervisors| > 0 ==> s.supervisors[|s.supervisors| - 1].cleared;
  }

  lemma AdmittedFollows(self: ProcessId, files: Files, w: MarkerWrite)
    requires files.marker.Written? && Admitted(self, files, w).Some?
    requires !PreAcquireFailed(files.marker) || w != AcquireWrite
    ensures
      var (r, r') := (files.marker.record, Admitted(self, files, w).value);
      && !r.settled && (r.supervisor.Some? ==> r'.supervisor == r.supervisor)
      && (IsStopStage(r.stage) ==> IsStopStage(r'.stage) || (r'.settled && r'.stage == Settled))
  {
    match w
    case AcquireWrite =>
    case StageWrite(stage, failure) =>
    case SettleWrite =>
  }

  lemma KeepsTransitive(a: CustodyRecord, b: CustodyRecord, c: CustodyRecord)
    requires Keeps(a, b) && Keeps(b, c)
    ensures Keeps(a, c)
  {
  }

  /**
    Until the next reservation, over any number of steps: a record that can still be read keeps its
    evidence and its supervisor through stopping and settlement, and a settled one stays as it is.
  */
  lemma {:induction false} EvidenceSurvives(s: State, events: seq<Event>)
    requires Inv(s) && EvidenceInv(s) && Run(s, events).Some?
    requires forall i | 0 <= i < |events| :: !Reserves(events[i])
    ensures
      var t := Run(s, events).value;
      t.files.marker.Written? ==> s.files.marker.Written? && Keeps(s.files.marker.record, t.files.marker.record)
    decreases |events|
  {
    if events != [] {
      var next := Step(s, events[0]).value;
      EvidenceInRuns(s, events[..1]);
      assert events[..1][0] == events[0] && events[..1][1..] == [] && Run(s, events[..1]) == Some(next);
      EvidenceSurvives(next, events[1..]);
      if Run(s, events).value.files.marker.Written? {
        StepFollows(s, events[0]);
        KeepsTransitive(s.files.marker.record, next.files.marker.record, Run(s, events).value.files.marker.record);
      }
    }
  }

  /** The same for every reachable state and every continuation without a reservation. */
  lemma {:induction false} HistoryUntilReservation(s: State, before: seq<Event>, after: seq<Event>)
    requires Init(s) && Run(s, before).Some? && Run(Run(s, before).value, after).Some?
    requires forall i | 0 <= i < |after| :: !Reserves(after[i])
    ensures
      var t := Run(s, before).value;
      var u := Run(t, after).value;
      u.files.marker.Written? ==> t.files.marker.Written? && Keeps(t.files.marker.record, u.files.marker.record)
  {
    InitEvidence(s);
    EvidenceInRuns(s, before);
    EvidenceSurvives(Run(s, before).value, after);
  }

  /**
    The guards alone do not latch `failed`: acquisition looks only at `settled` and at the missing
    supervisor, so it would overwrite a failure recorded before anyone acquired. A write admitted on
    a stopping or failed record moves it back to a progress stage exactly when it acquires a record
    nobody acquired; the protocol rules that out because such a reservation never forked.
  */
  lemma LatchFailsExactlyOnUnacquiredRecord(self: ProcessId, files: Files, w: MarkerWrite)
    requires files.marker.Written? && !files.marker.record.settled && IsStopStage(files.marker.record.stage)
    requires Admitted(self, files, w).Some?
    ensures
      var r' := Admitted(self, files, w).value;
      (!IsStopStage(r'.stage) && !r'.settled) <==> (w == AcquireWrite && files.marker.record.supervisor == None)
  {
    match w
    case AcquireWrite =>
    case StageWrite(stage, failure) =>
    case SettleWrite =>
  }
}

/**
  What startup custody can reach: an undisturbed start brings up a validator, and an undisturbed stop
  of that validator settles custody again.
*/
module CustodyProgress {
  import opened Wrappers
  import opened StartupRecord
  import opened StartupCustody
  import CustodySafety

  ghost predicate LeadsTo(s: State, t: State) {
    exists events :: Run(s, events) == Some(t)
  }

  lemma StepLeads(s: State, t: State, e: Event, u: State)
    requires LeadsTo(s, t) && Step(t, e) == Some(u)
    ensures LeadsTo(s, u)
  {
    var events :| Run(s, events) == Some(t);
    CustodySafety.RunConcat(s, events, [e]);
    assert [e][1..] == [] && Run(t, [e]) == Run(u, [e][1..]);
  }

  /** The owner waits while its only supervisor works on the files. */
  function Working(p: Supervisor, f: Files): State {
    State(true, Idle, f, [p])
  }

  lemma Works(s: State, p: Supervisor, f: Files, e: SupervisorEvent) returns (q: Supervisor, g: Files)
    requires LeadsTo(s, Working(p, f)) && SupervisorStep(0, p, f, e).Some?
    ensures (q, g) == SupervisorStep(0, p, f, e).value && LeadsTo(s, Working(q, g))
  {
    q, g := SupervisorStep(0, p, f, e).value.0, SupervisorStep(0, p, f, e).value.1;
    assert [p][0 := q] == [q];
    StepLeads(s, Working(p, f), BySupervisor(0, e), Working(q, g));
  }

  /** One marker write from its queue to its return. */
  lemma WriteReturns(s: State, p: Supervisor, f: Files, w: MarkerWrite, record: CustodyRecord) returns (q: Supervisor, g: Files)
    requires LeadsTo(s, Working(p, f)) && p.alive && w in p.queue && p.action == NoAction && w != SettleWrite
    requires Admitted(0, f, w) == Some(record)
    ensures LeadsTo(s, Working(q, g)) && g == f.(marker := Written(record))
    ensures q == Completed(p.(queue := p.queue - {w}), w, true)
  {
    var p1, f1 := Works(s, p, f, Writes(BeginWrite(w)));
    q, g := Works(s, p1, f1, Writes(FinishWrite(WriteOk)));
    assert p1.(action := NoAction) == p.(queue := p.queue - {w});
  }

  lemma WritesGuard(s: State)
    requires Init(s) && s.files.marker == Written(INITIAL_RECORD)
    ensures LeadsTo(s, s.(owner := PublishingReservation, files := s.files.(pending := CompletePending)))
  {
    var f1 := s.files.(pending := PartialPending);
    var f2 := s.files.(pending := CompletePending);
    assert Run(s, []) == Some(s);
    StepLeads(s, s, ByOwner(OpenMarker), s.(owner := CreatingPending));
    StepLeads(s, s.(owner := CreatingPending), ByOwner(CreatePending), s.(owner := WritingPending, files := f1));
    StepLeads(s, s.(owner := WritingPending, files := f1), ByOwner(WritePending(true)), s.(owner := PublishingReservation, files := f2));
  }

  lemma Reserves(s: State)
    requires Init(s) && s.files.marker == Written(INITIAL_RECORD)
    ensures LeadsTo(s, Working(FORKED, Files(Written(RESERVED_RECORD), CompletePending)))
  {
    WritesGuard(s);
    var f2 := s.files.(pending := CompletePending);
    var f3 := f2.(marker := Written(RESERVED_RECORD));
    StepLeads(s, s.(owner := PublishingReservation, files := f2), ByOwner(PublishReservation(WriteOk)), s.(owner := Forking, files := f3));
    assert [] + [FORKED] == [FORKED];
    StepLeads(s, s.(owner := Forking, files := f3), ByOwner(Fork(true)), Working(FORKED, f3));
  }

  /** A supervisor that has asked to spawn and may do so. */
  predicate AboutToSpawn(p: Supervisor, f: Files) {
    && p.alive && !p.closing && p.start == Requested && p.term == NotTerminating && p.action == NoAction && p.pastReserved
    && f.pending == CompletePending && f.marker.Written? && f.marker.record.supervisor == Some(0)
    && !f.marker.record.settled && f.marker.record.stage == SpawnRequested
  }

  lemma RequestsSpawn(s: State) returns (p: Supervisor, f: Files)
    requires LeadsTo(s, Working(FORKED, Files(Written(RESERVED_RECORD), CompletePending)))
    ensures LeadsTo(s, Working(p, f)) && AboutToSpawn(p, f)
  {
    f := Files(Written(RESERVED_RECORD), CompletePending);
    p, f := Works(s, FORKED, f, Resumes(ReceiveStart));
    p, f := WriteReturns(s, p, f, AcquireWrite, Updated(RESERVED_RECORD, 0, false));
    p, f := Works(s, p, f, Resumes(ResumeStart(true)));
    p, f := WriteReturns(s, p, f, StageWrite(SpawnRequested, None), WithStage(f.marker.record, SpawnRequested, None));
  }

  /** A supervisor with a living validator, all writes done. */
  predicate Running(p: Supervisor, f: Files) {
    && p.alive && p.child == LiveChild && p.start == Returned && p.term == NotTerminating && p.action == NoAction && p.pastReserved
    && f.pending == CompletePending && f.marker.Written? && f.marker.record.supervisor == Some(0)
    && !f.marker.record.settled && f.marker.record.stage == Spawned
  }

  lemma Spawns(s: State, p0: Supervisor, f0: Files) returns (p: Supervisor, f: Files)
    requires LeadsTo(s, Working(p0, f0)) && AboutToSpawn(p0, f0)
    ensures LeadsTo(s, Working(p, f)) && Running(p, f)
  {
    p, f := Works(s, p0, f0, Resumes(ResumeStart(true)));
    p, f := WriteReturns(s, p, f, StageWrite(Spawned, None), WithStage(f.marker.record, Spawned, None));
  }

  /** A supervisor whose child is stopped and whose settlement is queued. */
  predicate AboutToSettle(p: Supervisor, f: Files) {
    && p.alive && SettleWrite in p.queue && p.action == NoAction && p.term == AwaitSettle
    && f.pending == CompletePending && f.marker.Written? && f.marker.record.supervisor == Some(0) && !f.marker.record.settled
  }

  /** A supervisor that has recorded the stop and waits for its child. */
  predicate AwaitingChild(p: Supervisor, f: Files) {
    && p.alive && p.child == LiveChild && p.start == Returned && p.term == StoppingChild(true) && p.action == NoAction
    && f.pending == CompletePending && f.marker.Written? && f.marker.record.supervisor == Some(0) && !f.marker.record.settled
  }

  lemma RecordsStop(s: State, p0: Supervisor, f0: Files) returns (p: Supervisor, f: Files)
    requires LeadsTo(s, Working(p0, f0)) && Running(p0, f0)
    ensures LeadsTo(s, Working(p, f)) && AwaitingChild(p, f)
  {
    p, f := Works(s, p0, f0, Resumes(Terminate));
    p, f := Works(s, p, f, Resumes(ResumeTerminate));
    p, f := WriteReturns(s, p, f, StageWrite(Stopping, None), WithStage(f.marker.record, Stopping, None));
  }

  lemma Stops(s: State, p0: Supervisor, f0: Files) returns (p: Supervisor, f: Files)
    requires LeadsTo(s, Working(p0, f0)) && Running(p0, f0)
    ensures LeadsTo(s, Working(p, f)) && AboutToSettle(p, f)
  {
    p, f := RecordsStop(s, p0, f0);
    p, f := Works(s, p, f, ChildDies);
    p, f := Works(s, p, f, Resumes(ChildStop(true)));
  }

  lemma Settles(s: State, p0: Supervisor, f0: Files) returns (p: Supervisor, f: Files)
    requires LeadsTo(s, Working(p0, f0)) && AboutToSettle(p0, f0)
    ensures LeadsTo(s, Working(p, f)) && ReadsSettled(Working(p, f)) && FindsNoPending(Working(p, f))
  {
    p, f := Works(s, p0, f0, Writes(BeginWrite(SettleWrite)));
    p, f := Works(s, p, f, Writes(FinishWrite(WriteOk)));
    p, f := Works(s, p, f, Writes(Unlink(true)));
    p, f := Works(s, p, f, Writes(SyncUnlinked(true)));
  }

  /** From every settled run directory a validator can be started, and then stopped and settled again. */
  lemma CustodyComesFullCircle(s: State)
    requires Init(s) && s.files.marker == Written(INITIAL_RECORD)
    ensures exists t, u :: LeadsTo(s, t) && AnyValidatorAlive(t) && LeadsTo(t, u) && ReadsSettled(u) && FindsNoPending(u)
  {
    Reserves(s);
    var p, f := RequestsSpawn(s);
    p, f := Spawns(s, p, f);
    var t := Working(p, f);
    assert t.supervisors[0].child == LiveChild;
    assert Run(t, []) == Some(t);
    p, f := Stops(t, p, f);
    p, f := Settles(t, p, f);
    assert LeadsTo(t, Working(p, f));
  }
}

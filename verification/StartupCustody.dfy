/**
  Startup custody of a validator: the owner that reserves, the supervisors it forks, their
  validators, and the two files (marker and pending guard) they share. Every `await` of the source
  is a step boundary; any process may die and any write or sync may fail at every boundary.

  A step is an event applied to the state; a run is a sequence of events. An event that is not
  enabled has no successor state.
*/
module StartupCustody {
  import opened Wrappers
  import opened StartupRecord

  /** The pending guard: absent, created but not yet completely written, or complete. */
  datatype Pending = NoPending | PartialPending | CompletePending

  /** Where the owner stands inside `OwnedValidatorAdapter.start` and `reserveStartupCustody`. */
  datatype OwnerPc = Idle | CreatingPending | WritingPending | PublishingReservation | Forking | RecordingForkFailure

  /** The `starting` promise of a supervisor. */
  datatype StartPc =
    | NotStarted | AwaitAcquire | Acquired | AwaitRequested | Requested | AwaitSpawned | Returned | Rejected

  /** The memoised `stopping` promise of a supervisor. */
  datatype TermPc =
    | NotTerminating | AwaitStarting | AwaitStopping | StoppingChild(recorded: bool) | AwaitSettle | Finished

  datatype Child = NoChild | LiveChild | DeadChild

  /** One marker write that a supervisor has queued behind its serialized marker writes. */
  datatype MarkerWrite =
    | AcquireWrite
    | StageWrite(stage: Stage, failure: Option<Failure>)
    | SettleWrite

  /** The marker write in progress; a process runs at most one at a time. */
  datatype Action =
    | NoAction
    | Publishing(write: MarkerWrite, record: CustodyRecord)
    | Clearing
    | Unlinked

  datatype Supervisor = Supervisor(
    alive: bool,
    closing: bool,
    failing: bool,
    pastReserved: bool,
    start: StartPc,
    term: TermPc,
    child: Child,
    queue: set<MarkerWrite>,
    action: Action,
    cleared: bool)

  const FORKED := Supervisor(true, false, false, false, NotStarted, NotTerminating, NoChild, {}, NoAction, false)

  datatype Files = Files(marker: Marker, pending: Pending)

  /** `supervisors[i]` is the process forked for the i-th reservation; `i` is its identity. */
  datatype State = State(ownerAlive: bool, owner: OwnerPc, files: Files, supervisors: seq<Supervisor>)

  datatype OwnerEvent =
    | OpenMarker | CreatePending | WritePending(ok: bool) | PublishReservation(outcome: WriteOutcome)
    | Fork(ok: bool) | RecordForkFailure(code: string, outcome: WriteOutcome) | OwnerError | OwnerDies

  /** Steps of the two coroutines; none of them touches a file. */
  datatype CoroutineEvent =
    | ReceiveStart | ResumeStart(spawnOk: bool)
    | QueueIdentity | QueueRegistered | FailStartup(failure: Failure)
    | Terminate | ResumeTerminate | StopTimeout | ChildStop(stopped: bool) | SettleTimeout

  /** Steps of the serialized marker writes. */
  datatype WriterEvent =
    | BeginWrite(write: MarkerWrite) | FinishWrite(outcome: WriteOutcome) | Unlink(ok: bool) | SyncUnlinked(ok: bool)

  datatype SupervisorEvent =
    | Resumes(c: CoroutineEvent) | Writes(w: WriterEvent) | ChildDies | SupervisorDies(outcome: WriteOutcome)

  datatype Event = ByOwner(o: OwnerEvent) | BySupervisor(i: nat, e: SupervisorEvent)

  /** A run directory before any reservation; initialization may have died at any step. */
  predicate Init(s: State) {
    && s.ownerAlive
    && s.owner == Idle
    && (s.files.marker == Absent || s.files.marker == Torn || s.files.marker == Written(INITIAL_RECORD))
    && s.files.pending == NoPending
    && s.supervisors == []
  }

  // ---------------------------------------------------------------- the owner

  function OwnerStep(s: State, e: OwnerEvent): Option<State> {
    if !s.ownerAlive then None else
    match e
    case OpenMarker =>
      // Exclusive creation leaves an empty marker; an existing one must hold a settled record.
      if s.owner != Idle then None
      else if s.files.marker == Absent then
        Some(s.(owner := CreatingPending, files := s.files.(marker := Torn)))
      else if s.files.marker.Written? && s.files.marker.record.settled then
        Some(s.(owner := CreatingPending))
      else Some(s)
    case CreatePending =>
      if s.owner != CreatingPending then None
      else if s.files.pending != NoPending then Some(s.(owner := Idle))
      else Some(s.(owner := WritingPending, files := s.files.(pending := PartialPending)))
    case WritePending(ok) =>
      if s.owner != WritingPending then None
      else if ok then Some(s.(owner := PublishingReservation, files := s.files.(pending := CompletePending)))
      else Some(s.(owner := Idle))
    case PublishReservation(outcome) =>
      if s.owner != PublishingReservation then None
      else
        Some(s.(owner := if outcome == WriteOk then Forking else Idle,
                files := s.files.(marker := AfterWrite(s.files.marker, RESERVED_RECORD, outcome))))
    case Fork(ok) =>
      if s.owner != Forking then None
      else if ok then Some(s.(owner := Idle, supervisors := s.supervisors + [FORKED]))
      else Some(s.(owner := RecordingForkFailure))
    case RecordForkFailure(code, outcome) =>
      if s.owner != RecordingForkFailure then None
      else
        var failure := Some(Failure(Reserved, code));
        if s.files.marker.Written? && MayRecordStage(s.files.marker.record, |s.supervisors|, Failed, failure) then
          Some(s.(owner := Idle,
                  files := s.files.(marker := AfterWrite(s.files.marker, WithStage(s.files.marker.record, Failed, failure), outcome))))
        else Some(s.(owner := Idle))
    case OwnerError => Some(s.(owner := Idle))
    case OwnerDies => Some(s.(ownerAlive := false))
  }

  // ------------------------------------------------------------ one supervisor

  /** The result of a finished marker write reaches whichever coroutine still waits for it. */
  function Completed(p: Supervisor, w: MarkerWrite, ok: bool): Supervisor {
    var q := p.(action := NoAction);
    match w
    case AcquireWrite =>
      if q.start == AwaitAcquire then q.(start := if ok then Acquired else Rejected) else q
    case SettleWrite =>
      if q.term == AwaitSettle then q.(term := Finished) else q
    case StageWrite(stage, _) =>
      if stage == SpawnRequested && q.start == AwaitRequested then q.(start := if ok then Requested else Rejected)
      else if stage == Spawned && q.start == AwaitSpawned then q.(start := if ok then Returned else Rejected)
      else if stage == Stopping && q.term == AwaitStopping then q.(term := StoppingChild(ok))
      else q
  }

  /** The record a write publishes, when the record it read admits it. */
  function Admitted(self: ProcessId, files: Files, w: MarkerWrite): Option<CustodyRecord> {
    if !files.marker.Written? then None
    else
      var record := files.marker.record;
      match w
      case AcquireWrite => if MayUpdate(record, self, false) then Some(Updated(record, self, false)) else None
      case StageWrite(stage, failure) =>
        // A supervisor past acquisition never takes the pre-acquire exception of the owner.
        if MayRecordStage(record, self, stage, failure) && record.supervisor == Some(self)
        then Some(WithStage(record, stage, failure)) else None
      case SettleWrite =>
        if MayUpdate(record, self, true) && files.pending == CompletePending
        then Some(Updated(record, self, true)) else None
  }

  /** The body of `starting` between two awaits; spawning and the `closing` check before it are one step. */
  function ResumeStarting(p: Supervisor, spawnOk: bool): Option<Supervisor> {
    if p.start == Acquired then
      var q := p.(pastReserved := true);
      if q.closing then Some(q.(start := Returned))
      else Some(q.(start := AwaitRequested, queue := q.queue + {StageWrite(SpawnRequested, None)}))
    else if p.start == Requested then
      if p.closing then Some(p.(start := Returned))
      else Some(p.(start := AwaitSpawned, child := if spawnOk then LiveChild else DeadChild,
                   queue := p.queue + {StageWrite(Spawned, None)}))
    else None
  }

  function CoroutineStep(p: Supervisor, e: CoroutineEvent): Option<Supervisor> {
    match e
    case ReceiveStart =>
      if p.start != NotStarted || p.closing then None
      else Some(p.(start := AwaitAcquire, queue := p.queue + {AcquireWrite}))
    case ResumeStart(spawnOk) => ResumeStarting(p, spawnOk)
    case QueueIdentity =>
      if p.child == NoChild || p.closing || p.failing then None
      else Some(p.(queue := p.queue + {StageWrite(IdentityCaptured, None)}))
    case QueueRegistered =>
      if p.child == NoChild || p.closing || p.failing then None
      else Some(p.(queue := p.queue + {StageWrite(Registered, None)}))
    case FailStartup(failure) =>
      if p.failing then None
      else if p.start != NotStarted && p.pastReserved then
        Some(p.(failing := true, queue := p.queue + {StageWrite(Failed, Some(failure))}))
      else Some(p.(failing := true))
    case Terminate =>
      Some(p.(closing := true, term := if p.term == NotTerminating then AwaitStarting else p.term))
    case ResumeTerminate =>
      if p.term != AwaitStarting then None
      else if p.start == NotStarted || !p.pastReserved then Some(p.(term := StoppingChild(true)))
      else Some(p.(term := AwaitStopping, queue := p.queue + {StageWrite(Stopping, None)}))
    case StopTimeout =>
      if p.term == AwaitStopping then Some(p.(term := StoppingChild(false))) else None
    case ChildStop(stopped) =>
      // `stopValidator` answers true only for a child that was never spawned or whose exit is known.
      if !p.term.StoppingChild? || (stopped && p.child == LiveChild) then None
      else if stopped && p.term.recorded && p.start != NotStarted then
        Some(p.(term := AwaitSettle, queue := p.queue + {SettleWrite}))
      else Some(p.(term := Finished))
    case SettleTimeout =>
      if p.term == AwaitSettle then Some(p.(term := Finished)) else None
  }

  function WriterStep(self: ProcessId, p: Supervisor, files: Files, e: WriterEvent): Option<(Supervisor, Files)> {
    match e
    case BeginWrite(w) =>
      if w !in p.queue || p.action != NoAction then None
      else
        var q := p.(queue := p.queue - {w});
        var admitted := Admitted(self, files, w);
        if admitted.None? then Some((Completed(q, w, false), files))
        else Some((q.(action := Publishing(w, admitted.value)), files))
    case FinishWrite(outcome) =>
      if !p.action.Publishing? then None
      else
        var files' := files.(marker := AfterWrite(files.marker, p.action.record, outcome));
        if outcome == WriteOk && p.action.write == SettleWrite then Some((p.(action := Clearing), files'))
        else Some((Completed(p, p.action.write, outcome == WriteOk), files'))
    case Unlink(ok) =>
      if p.action != Clearing then None
      else if ok && files.pending == CompletePending then
        Some((p.(action := Unlinked, cleared := true), files.(pending := NoPending)))
      else Some((Completed(p, SettleWrite, false), files))
    case SyncUnlinked(ok) =>
      if p.action != Unlinked then None else Some((Completed(p, SettleWrite, ok), files))
  }

  function SupervisorStep(self: ProcessId, p: Supervisor, files: Files, e: SupervisorEvent): Option<(Supervisor, Files)> {
    match e
    case ChildDies =>
      if p.child == LiveChild then Some((p.(child := DeadChild), files)) else None
    case Resumes(c) =>
      var next := if p.alive then CoroutineStep(p, c) else None;
      if next.None? then None else Some((next.value, files))
    case Writes(w) => if p.alive then WriterStep(self, p, files, w) else None
    case SupervisorDies(outcome) =>
      if !p.alive then None
      else
        var marker := if p.action.Publishing? then AfterWrite(files.marker, p.action.record, outcome) else files.marker;
        Some((p.(alive := false), files.(marker := marker)))
  }

  function Step(s: State, e: Event): Option<State> {
    match e
    case ByOwner(o) => OwnerStep(s, o)
    case BySupervisor(i, se) =>
      if i >= |s.supervisors| then None
      else
        match SupervisorStep(i, s.supervisors[i], s.files, se)
        case None => None
        case Some((p, files)) => Some(s.(supervisors := s.supervisors[i := p], files := files))
  }

  function Run(s: State, events: seq<Event>): Option<State>
    decreases |events|
  {
    if events == [] then Some(s)
    else
      match Step(s, events[0])
      case None => None
      case Some(s') => Run(s', events[1..])
  }

  /** `startupCustodySettled` reads the record first and looks for the pending guard afterwards. */
  predicate ReadsSettled(s: State) {
    s.files.marker.Written? && s.files.marker.record.settled
  }

  predicate FindsNoPending(s: State) {
    s.files.pending == NoPending
  }

  predicate AnyValidatorAlive(s: State) {
    exists i | 0 <= i < |s.supervisors| :: s.supervisors[i].child == LiveChild
  }

  /** A supervisor that may still reach the spawn of its validator. */
  predicate MaySpawn(p: Supervisor) {
    p.alive && !p.closing && !(p.start.AwaitSpawned? || p.start.Returned? || p.start.Rejected?)
  }

  // ---------------------------------------------------------------- invariant

  predicate Settling(p: Supervisor) {
    (p.action.Publishing? && p.action.write == SettleWrite) || p.action == Clearing
  }

  predicate MayAcquire(p: Supervisor) {
    p.start == NotStarted || AcquireWrite in p.queue
  }

  /** What one supervisor keeps on its own. */
  predicate LocalInv(self: ProcessId, p: Supervisor) {
    && (p.term != NotTerminating ==> p.closing)
    && (p.queue != {} || p.child != NoChild ==> p.start != NotStarted)
    // Settlement is asked for once, after the child stopped; it is queued, under way, or done.
    && (SettleWrite in p.queue || Settling(p) || p.cleared ==> (p.term == AwaitSettle || p.term == Finished) && p.child != LiveChild)
    && (SettleWrite in p.queue ==> !Settling(p) && !p.cleared)
    && (Settling(p) ==> !p.cleared)
    && (Settling(p) || p.cleared ==> !MayAcquire(p))
    && (p.action == Unlinked ==> p.cleared)
    && (p.cleared ==> !p.action.Publishing?)
    && (p.action.Publishing? ==>
          && !MayAcquire(p)
          && p.action.record.supervisor == Some(self)
          && (p.action.record.settled <==> p.action.write == SettleWrite))
  }

  predicate OwnerHoldsPending(pc: OwnerPc) {
    pc == WritingPending || pc == PublishingReservation || pc == Forking || pc == RecordingForkFailure
  }

  /** Every supervisor keeps its own invariant; all but the latest have cleared their pending guard. */
  ghost predicate SupervisorsInv(s: State) {
    var n := |s.supervisors|;
    && (forall i | 0 <= i < n :: LocalInv(i, s.supervisors[i]))
    && (forall i | 0 <= i < n - 1 :: s.supervisors[i].cleared)
    && (forall i | 0 <= i < n :: s.supervisors[i].action == Clearing ==> ReadsSettled(s))
  }

  /** The pending guard stands while anyone needs it, and without it the record is settled. */
  ghost predicate PendingInv(s: State) {
    var n := |s.supervisors|;
    && (n > 0 && !s.supervisors[n - 1].cleared ==> s.files.pending != NoPending && !OwnerHoldsPending(s.owner))
    && (OwnerHoldsPending(s.owner) ==> s.files.pending != NoPending)
    && (s.files.marker.Written? && (s.files.pending == NoPending || s.owner == WritingPending || s.owner == PublishingReservation)
        ==> s.files.marker.record.settled)
  }

  /** Whoever the record names has acquired it, and an unsettled record names one that has not cleared. */
  ghost predicate NamedInv(s: State) {
    s.files.marker.Written? && s.files.marker.record.supervisor.Some? ==>
      var w := s.files.marker.record.supervisor.value;
      && w < |s.supervisors| && !MayAcquire(s.supervisors[w])
      && (!s.files.marker.record.settled ==> !s.supervisors[w].cleared)
  }

  ghost predicate BaseInv(s: State) {
    SupervisorsInv(s) && PendingInv(s) && NamedInv(s)
  }

  ghost predicate ReadInv(s: State) {
    var n := |s.supervisors|;
    // What a write in progress read is still in the marker: nobody else may write meanwhile.
    && (forall i | 0 <= i < n :: PublishesWhatItRead(i, s.supervisors[i], s.files))
    // A reservation whose fork failed has no supervisor and never gets one.
    && (PreAcquireFailed(s.files.marker) ==>
          s.files.pending != NoPending && s.owner == Idle && (n > 0 ==> s.supervisors[n - 1].cleared))
  }

  ghost predicate Inv(s: State) {
    BaseInv(s) && ReadInv(s)
  }

  predicate PublishesWhatItRead(self: ProcessId, p: Supervisor, files: Files) {
    p.alive && p.action.Publishing? ==> Admitted(self, files, p.action.write) == Some(p.action.record)
  }

  predicate PreAcquireFailed(marker: Marker) {
    marker.Written? && !marker.record.settled && marker.record.supervisor == None && marker.record.stage != Reserved
  }

  lemma InitInv(s: State)
    requires Init(s)
    ensures Inv(s)
  {
  }

  /** While the owner holds the pending guard no supervisor needs it any more. */
  lemma HoldingMeansCleared(s: State)
    requires BaseInv(s) && OwnerHoldsPending(s.owner)
    ensures forall i | 0 <= i < |s.supervisors| :: s.supervisors[i].cleared && s.supervisors[i].action != Clearing
  {
    forall i | 0 <= i < |s.supervisors|
      ensures s.supervisors[i].cleared && s.supervisors[i].action != Clearing
    {
      assert LocalInv(i, s.supervisors[i]);
    }
  }

  lemma OwnerKeepsSupervisors(s: State, e: OwnerEvent)
    requires BaseInv(s) && OwnerStep(s, e).Some?
    ensures SupervisorsInv(OwnerStep(s, e).value)
  {
    var s' := OwnerStep(s, e).value;
    if OwnerHoldsPending(s.owner) {
      HoldingMeansCleared(s);
    }
    forall i | 0 <= i < |s'.supervisors|
      ensures LocalInv(i, s'.supervisors[i])
      ensures s'.supervisors[i].action == Clearing ==> ReadsSettled(s')
      ensures i < |s'.supervisors| - 1 ==> s'.supervisors[i].cleared
    {
      if i < |s.supervisors| {
        assert s'.supervisors[i] == s.supervisors[i];
      }
    }
  }

  lemma OwnerKeepsPending(s: State, e: OwnerEvent)
    requires BaseInv(s) && OwnerStep(s, e).Some?
    ensures PendingInv(OwnerStep(s, e).value)
  {
    if OwnerHoldsPending(s.owner) {
      HoldingMeansCleared(s);
    }
  }

  lemma OwnerKeepsNamed(s: State, e: OwnerEvent)
    requires BaseInv(s) && OwnerStep(s, e).Some?
    ensures NamedInv(OwnerStep(s, e).value)
  {
  }

  lemma OwnerKeepsBaseInv(s: State, e: OwnerEvent)
    requires BaseInv(s) && OwnerStep(s, e).Some?
    ensures BaseInv(OwnerStep(s, e).value)
  {
    OwnerKeepsSupervisors(s, e);
    OwnerKeepsPending(s, e);
    OwnerKeepsNamed(s, e);
  }

  lemma OwnerKeepsReadInv(s: State, e: OwnerEvent)
    requires Inv(s) && OwnerStep(s, e).Some?
    ensures ReadInv(OwnerStep(s, e).value)
  {
    var s' := OwnerStep(s, e).value;
    assert OwnerHoldsPending(s.owner) && |s.supervisors| > 0 ==> s.supervisors[|s.supervisors| - 1].cleared;
    forall i | 0 <= i < |s'.supervisors|
      ensures PublishesWhatItRead(i, s'.supervisors[i], s'.files)
    {
      if i < |s.supervisors| {
        assert s'.supervisors[i] == s.supervisors[i];
        assert s.supervisors[i].action.Publishing? ==> !s.supervisors[i].cleared;
        assert PublishesWhatItRead(i, s.supervisors[i], s.files);
      }
    }
  }

  lemma CoroutineKeepsLocalInv(self: ProcessId, p: Supervisor, e: CoroutineEvent)
    requires LocalInv(self, p) && CoroutineStep(p, e).Some?
    ensures
      var p' := CoroutineStep(p, e).value;
      LocalInv(self, p') && p'.action == p.action && p'.cleared == p.cleared && (!MayAcquire(p) ==> !MayAcquire(p'))
  {
  }

  lemma CompletedKeepsLocalInv(self: ProcessId, p: Supervisor, w: MarkerWrite, ok: bool)
    requires LocalInv(self, p)
    ensures LocalInv(self, Completed(p, w, ok))
    ensures Completed(p, w, ok).action == NoAction && Completed(p, w, ok).cleared == p.cleared
    ensures !MayAcquire(p) ==> !MayAcquire(Completed(p, w, ok))
  {
    var p' := Completed(p, w, ok);
    assert p' == p.(action := NoAction, start := p'.start, term := p'.term);
    assert p'.start == p.start || (p.start != NotStarted && p'.start != NotStarted);
    assert p'.term == p.term || p.term == AwaitStopping || (p.term == AwaitSettle && p'.term == Finished);
  }

  /** The files as this supervisor may find them: a record naming it was written after it acquired. */
  predicate ReadsConsistent(self: ProcessId, p: Supervisor, files: Files) {
    files.marker.Written? && files.marker.record.supervisor == Some(self) ==>
      !MayAcquire(p) && (p.cleared ==> files.marker.record.settled)
  }

  lemma BeginKeepsLocalInv(self: ProcessId, p: Supervisor, files: Files, w: MarkerWrite)
    requires LocalInv(self, p) && ReadsConsistent(self, p, files)
    requires w in p.queue && p.action == NoAction
    ensures
      var (p', files') := WriterStep(self, p, files, BeginWrite(w)).value;
      && LocalInv(self, p') && files' == files && p'.cleared == p.cleared && p'.action != Clearing
      && (!MayAcquire(p) ==> !MayAcquire(p'))
  {
    var q := p.(queue := p.queue - {w});
    var admitted := Admitted(self, files, w);
    if admitted.None? {
      CompletedKeepsLocalInv(self, q, w, false);
    }
  }

  /**
    A marker write changes the pending guard only by unlinking its own, and the marker only by
    publishing the record it was admitted with.
  */
  lemma WriterKeepsLocalInv(self: ProcessId, p: Supervisor, files: Files, e: WriterEvent)
    requires LocalInv(self, p) && WriterStep(self, p, files, e).Some?
    requires ReadsConsistent(self, p, files)
    ensures
      var (p', files') := WriterStep(self, p, files, e).value;
      && LocalInv(self, p')
      && (!MayAcquire(p) ==> !MayAcquire(p'))
      && (p.cleared ==> p'.cleared)
      && (files'.pending != files.pending || p'.cleared != p.cleared ==>
            p.action == Clearing && p'.cleared && files' == files.(pending := NoPending))
      && (files'.marker != files.marker ==>
            p.action.Publishing? && (files'.marker == Torn || files'.marker == Written(p.action.record)))
      && (p'.action == Clearing ==>
            p.action.Publishing? && p.action.write == SettleWrite && files'.marker == Written(p.action.record))
  {
    match e
    case BeginWrite(w) => BeginKeepsLocalInv(self, p, files, w);
    case FinishWrite(outcome) => CompletedKeepsLocalInv(self, p, p.action.write, outcome == WriteOk);
    case Unlink(ok) => CompletedKeepsLocalInv(self, p, SettleWrite, false);
    case SyncUnlinked(ok) => CompletedKeepsLocalInv(self, p, SettleWrite, ok);
  }

  /** What a step of supervisor `i` leaves to the others, its files included. */
  lemma SupervisorChanges(s: State, i: nat, e: SupervisorEvent)
    requires BaseInv(s) && Step(s, BySupervisor(i, e)).Some?
    ensures
      var (p, p', s') := (s.supervisors[i], Step(s, BySupervisor(i, e)).value.supervisors[i], Step(s, BySupervisor(i, e)).value);
      && s'.owner == s.owner && s'.supervisors == s.supervisors[i := p'] && LocalInv(i, p')
      && (!MayAcquire(p) ==> !MayAcquire(p')) && (p.cleared ==> p'.cleared)
      && (s'.files != s.files || p'.action == Clearing || p'.cleared != p.cleared ==> !p.cleared && i == |s.supervisors| - 1)
      && (s'.files.pending != s.files.pending || p'.cleared != p.cleared ==>
            p.action == Clearing && p'.cleared && s'.files == s.files.(pending := NoPending))
      && (s'.files.marker != s.files.marker ==>
            p.action.Publishing? && (s'.files.marker == Torn || s'.files.marker == Written(p.action.record)))
      && (p'.action == Clearing ==> ReadsSettled(s'))
  {
    var p := s.supervisors[i];
    assert LocalInv(i, p);
    match e {
      case Resumes(c) => CoroutineKeepsLocalInv(i, p, c);
      case Writes(w) => WriterKeepsLocalInv(i, p, s.files, w);
      case ChildDies =>
      case SupervisorDies(_) =>
    }
  }

  lemma SupervisorKeepsSupervisors(s: State, i: nat, e: SupervisorEvent)
    requires BaseInv(s) && Step(s, BySupervisor(i, e)).Some?
    ensures SupervisorsInv(Step(s, BySupervisor(i, e)).value)
  {
    SupervisorChanges(s, i, e);
    var s' := Step(s, BySupervisor(i, e)).value;
    forall j | 0 <= j < |s.supervisors|
      ensures LocalInv(j, s'.supervisors[j])
      ensures j < |s.supervisors| - 1 ==> s'.supervisors[j].cleared
      ensures s'.supervisors[j].action == Clearing ==> ReadsSettled(s')
    {
      assert LocalInv(j, s.supervisors[j]);
    }
  }

  lemma SupervisorKeepsBaseInv(s: State, i: nat, e: SupervisorEvent)
    requires BaseInv(s) && Step(s, BySupervisor(i, e)).Some?
    ensures BaseInv(Step(s, BySupervisor(i, e)).value)
  {
    SupervisorChanges(s, i, e);
    SupervisorKeepsSupervisors(s, i, e);
  }

  /** A supervisor that leaves the files alone leaves what every write in progress read. */
  lemma WriterPublishesWhatItRead(self: ProcessId, p: Supervisor, files: Files, e: WriterEvent)
    requires p.alive && WriterStep(self, p, files, e).Some? && PublishesWhatItRead(self, p, files)
    ensures
      var (p', files') := WriterStep(self, p, files, e).value;
      && PublishesWhatItRead(self, p', files')
      && (PreAcquireFailed(files'.marker) ==> files'.marker == files.marker)
  {
    match e
    case BeginWrite(w) =>
    case FinishWrite(outcome) =>
    case Unlink(ok) =>
    case SyncUnlinked(ok) =>
  }

  lemma SupervisorKeepsReadInv(s: State, i: nat, e: SupervisorEvent)
    requires Inv(s) && Step(s, BySupervisor(i, e)).Some?
    ensures ReadInv(Step(s, BySupervisor(i, e)).value)
  {
    var p := s.supervisors[i];
    var s' := Step(s, BySupervisor(i, e)).value;
    var n := |s.supervisors|;
    assert PublishesWhatItRead(i, p, s.files);
    assert p.action == Clearing || p.action.Publishing? ==> !p.cleared && i == n - 1;
    match e {
      case Resumes(c) => CoroutineKeepsLocalInv(i, p, c);
      case Writes(w) =>
        WriterPublishesWhatItRead(i, p, s.files, w);
        WriterKeepsLocalInv(i, p, s.files, w);
      case ChildDies =>
      case SupervisorDies(_) =>
    }
    forall j | 0 <= j < n && j != i
      ensures PublishesWhatItRead(j, s'.supervisors[j], s'.files)
    {
      assert s'.supervisors[j] == s.supervisors[j];
      assert PublishesWhatItRead(j, s.supervisors[j], s.files);
      assert s.supervisors[j].action.Publishing? ==> !s.supervisors[j].cleared && j == n - 1;
    }
    assert PublishesWhatItRead(i, s'.supervisors[i], s'.files);
  }

  // ------------------------------------------------------------- main results

  lemma StepKeepsInv(s: State, e: Event)
    requires Inv(s) && Step(s, e).Some?
    ensures Inv(Step(s, e).value)
  {
    match e
    case ByOwner(o) =>
      OwnerKeepsBaseInv(s, o);
      OwnerKeepsReadInv(s, o);
    case BySupervisor(i, se) =>
      SupervisorKeepsBaseInv(s, i, se);
      SupervisorKeepsReadInv(s, i, se);
  }

  lemma {:induction false} RunKeepsInv(s: State, events: seq<Event>)
    requires Inv(s) && Run(s, events).Some?
    ensures Inv(Run(s, events).value)
    decreases |events|
  {
    if events != [] {
      StepKeepsInv(s, events[0]);
      RunKeepsInv(Step(s, events[0]).value, events[1..]);
    }
  }
}

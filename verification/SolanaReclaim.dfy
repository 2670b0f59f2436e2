/**
  Deleting a local Solana run: the owner's cleanup and any number of stale reclaimers compete for one
  run directory, move it to its quarantine name, delete it there, and move it back when that fails.
  Startup custody goes on underneath; any process may die between two steps.
*/
module SolanaReclaim {
  import opened Wrappers
  import opened StartupRecord
  import C = StartupCustody
  import CustodySafety

  /** The validator the lease names; `Older` runs were started without startup custody. */
  datatype Registration = Unregistered | Supervised(i: nat) | Older(alive: bool)

  datatype Place = AtRun | AtQuarantine | Removed

  datatype Who = Owner | Reclaimer(i: nat)

  /** `seen` is whether the lease read at the start names a validator. */
  datatype Pc =
    | Idle
    | Validated(seen: bool)
    | Admitted(seen: bool)
    | RecordRead(seen: bool, second: bool, exited: bool)
    | CustodySettled(seen: bool, second: bool, exited: bool)
    | Stopped
    | Revalidated
    | TargetFree
    | Holding
    | Confirmed
    | Failing
    | Deleted

  datatype State = State(
    custody: C.State,
    registration: Registration,
    place: Place,
    leaseReadable: bool,
    dead: set<nat>,
    pcs: map<Who, Pc>,
    reports: seq<Who>)

  datatype Act =
    | Validate | CheckOwner | ReadRecord | FindPending | ObserveExit | Terminate | Revalidate | FindTarget
    | RenameAway | Reconfirm | RemoveContents(marker: bool, lease: bool) | RemoveDirectory
    | Fail | RenameBack(ok: bool) | Report | GiveUp

  datatype Event =
    | Custody(e: C.Event)
    | Register(i: nat, ok: bool)
    | OlderDies
    | ReclaimerDies(i: nat)
    | By(w: Who, a: Act)

  // ------------------------------------------------------------------------- steps

  function PcOf(pcs: map<Who, Pc>, w: Who): Pc {
    if w in pcs then pcs[w] else Idle
  }

  predicate Alive(s: State, w: Who) {
    match w
    case Owner => s.custody.ownerAlive
    case Reclaimer(i) => i !in s.dead
  }

  /** Termination and exit observation answer for the validator the lease names. */
  predicate RegisteredGone(c: C.State, r: Registration) {
    match r
    case Unregistered => true
    case Supervised(i) => i < |c.supervisors| && c.supervisors[i].child != C.LiveChild
    case Older(alive) => !alive
  }

  function Goes(s: State, w: Who, pc: Pc): Option<State> {
    Some(s.(pcs := s.pcs[w := pc]))
  }

  /** The record part of `startupCustodySettled`: an absent marker settles only a registered run. */
  predicate RecordSettled(s: State, seen: bool) {
    if s.place == AtRun && s.custody.files.marker != Absent then C.ReadsSettled(s.custody) else seen
  }

  function ActorStep(s: State, w: Who, pc: Pc, a: Act): Option<State> {
    match a
    case Validate =>
      if pc != Idle || s.place != AtRun || !s.leaseReadable || (w == Owner && s.custody.owner != C.Idle) then None
      else Goes(s, w, Validated(s.registration != Unregistered))
    case CheckOwner =>
      // The owner validates its own process identity, a reclaimer must find the owner dead.
      if !pc.Validated? || (w != Owner && s.custody.ownerAlive) then None
      else Goes(s, w, Admitted(pc.seen))
    case ReadRecord =>
      if pc.Admitted? && RecordSettled(s, pc.seen) then Goes(s, w, RecordRead(pc.seen, false, false))
      else if pc.CustodySettled? && !pc.second && RecordSettled(s, pc.seen) && (w == Owner && pc.seen ==> pc.exited)
      then Goes(s, w, RecordRead(pc.seen, true, pc.exited))
      else None
    case FindPending =>
      if !pc.RecordRead? || (s.place == AtRun && s.custody.files.pending != C.NoPending) then None
      else Goes(s, w, CustodySettled(pc.seen, pc.second, pc.exited))
    case ObserveExit =>
      if w != Owner || !pc.CustodySettled? || pc.second || !RegisteredGone(s.custody, s.registration) then None
      else Goes(s, w, CustodySettled(pc.seen, false, true))
    case Terminate =>
      // Only a stale reclaimer terminates; it goes on only after an observed exit.
      if !pc.CustodySettled? || !pc.second || (w != Owner && pc.seen && !RegisteredGone(s.custody, s.registration)) then None
      else Goes(s, w, Stopped)
    case Revalidate =>
      if pc != Stopped || s.place != AtRun || !s.leaseReadable then None else Goes(s, w, Revalidated)
    case FindTarget =>
      if pc != Revalidated || s.place == AtQuarantine then None else Goes(s, w, TargetFree)
    case RenameAway =>
      if pc != TargetFree || s.place != AtRun then None else Goes(s.(place := AtQuarantine), w, Holding)
    case GiveUp =>
      if pc.Holding? || pc.Confirmed? || pc.Failing? || pc.Deleted? then None else Goes(s, w, Idle)
    case _ => HolderStep(s, w, pc, a)
  }

  /** After the rename: only the holder acts on the quarantined directory. */
  function HolderStep(s: State, w: Who, pc: Pc, a: Act): Option<State> {
    match a
    case Reconfirm =>
      if pc != Holding || s.place != AtQuarantine || !s.leaseReadable then None else Goes(s, w, Confirmed)
    case RemoveContents(marker, lease) =>
      if pc != Confirmed then None
      else
        var files := if marker then s.custody.files.(marker := Absent) else s.custody.files;
        Goes(s.(custody := s.custody.(files := files), leaseReadable := s.leaseReadable && !lease), w, Confirmed)
    case RemoveDirectory =>
      if pc != Confirmed || s.place != AtQuarantine then None else Goes(s.(place := Removed), w, Deleted)
    case Fail =>
      if pc.Holding? || pc.Confirmed? || pc.Deleted? then Goes(s, w, Failing) else None
    case RenameBack(ok) =>
      if pc != Failing then None
      else Goes(if ok && s.place == AtQuarantine then s.(place := AtRun) else s, w, Idle)
    case Report =>
      if pc != Deleted then None else Goes(s.(reports := s.reports + [w]), w, Idle)
    case _ => None
  }

  function Step(s: State, e: Event): Option<State> {
    match e
    case Custody(ce) =>
      // The owner cleans up after everything else, and reaches its files under the run's name.
      if ce.ByOwner? && ce.o != C.OwnerDies && (s.place != AtRun || PcOf(s.pcs, Owner) != Idle) then None
      else
        var next := C.Step(s.custody, ce);
        if next.None? then None else Some(s.(custody := next.value))
    case Register(i, ok) =>
      if !s.custody.ownerAlive || PcOf(s.pcs, Owner) != Idle || s.place != AtRun || !s.leaseReadable
        || s.registration != Unregistered || i >= |s.custody.supervisors| || s.custody.supervisors[i].child == C.NoChild then None
      else if ok then Some(s.(registration := Supervised(i)))
      else Some(s.(leaseReadable := false))
    case OlderDies =>
      if s.registration.Older? then Some(s.(registration := Older(false))) else None
    case ReclaimerDies(i) => Some(s.(dead := s.dead + {i}))
    case By(w, a) => if Alive(s, w) then ActorStep(s, w, PcOf(s.pcs, w), a) else None
  }

  predicate Init(s: State) {
    && C.Init(s.custody) && !s.registration.Supervised? && s.place == AtRun && s.pcs == map[] && s.reports == []
  }

  function Run(s: State, events: seq<Event>): Option<State>
    decreases |events|
  {
    if events == [] then Some(s)
    else
      var next := Step(s, events[0]);
      if next.None? then None else Run(next.value, events[1..])
  }

  predicate NoValidatorAlive(s: State) {
    !C.AnyValidatorAlive(s.custody) && s.registration != Older(true)
  }

  // ---------------------------------------------------------------- what custody keeps

  /** Every reservation so far was cleared. */
  predicate Quiet(c: C.State) {
    c.files.pending == C.NoPending && forall i | 0 <= i < |c.supervisors| :: c.supervisors[i].cleared
  }

  lemma NoPendingIsQuiet(c: C.State)
    requires C.Inv(c) && c.files.pending == C.NoPending
    ensures Quiet(c) && !C.AnyValidatorAlive(c)
  {
    forall i | 0 <= i < |c.supervisors| ensures c.supervisors[i].cleared && c.supervisors[i].child != C.LiveChild {
      assert i == |c.supervisors| - 1 || c.supervisors[i].cleared;
      assert C.LocalInv(i, c.supervisors[i]);
    }
  }

  lemma ClearedStays(self: ProcessId, p: C.Supervisor, files: C.Files, e: C.SupervisorEvent)
    requires C.SupervisorStep(self, p, files, e).Some? && p.cleared && files.pending == C.NoPending
    ensures var r := C.SupervisorStep(self, p, files, e).value; r.0.cleared && r.1.pending == C.NoPending
  {
  }

  lemma QuietStays(c: C.State, e: C.Event)
    requires C.Inv(c) && Quiet(c) && C.Step(c, e).Some?
    requires e.ByOwner? ==> e.o == C.OwnerDies || !c.ownerAlive
    ensures Quiet(C.Step(c, e).value)
  {
    match e
    case ByOwner(o) =>
    case BySupervisor(i, se) => ClearedStays(i, c.supervisors[i], c.files, se);
  }

  lemma MarkerRemoved(c: C.State)
    requires C.Inv(c) && Quiet(c)
    ensures C.Inv(c.(files := c.files.(marker := Absent)))
  {
    var t := c.(files := c.files.(marker := Absent));
    forall i | 0 <= i < |t.supervisors|
      ensures C.LocalInv(i, t.supervisors[i]) && t.supervisors[i].action != C.Clearing && !t.supervisors[i].action.Publishing?
    {
      assert C.LocalInv(i, c.supervisors[i]);
    }
  }

  // --------------------------------------------------------------------- invariant

  predicate PastCustody(pc: Pc) {
    match pc
    case RecordRead(_, second, _) => second
    case CustodySettled(_, _, _) => true
    case Idle | Validated(_) | Admitted(_) | Deleted | Failing => false
    case _ => true
  }

  predicate PastExit(pc: Pc) {
    match pc
    case RecordRead(_, _, exited) => exited
    case CustodySettled(_, _, exited) => exited
    case Stopped | Revalidated | TargetFree | Holding | Confirmed => true
    case _ => false
  }

  predicate Seen(pc: Pc) {
    match pc
    case Validated(seen) => seen
    case Admitted(seen) => seen
    case RecordRead(seen, _, _) => seen
    case CustodySettled(seen, _, _) => seen
    case _ => true
  }

  predicate Holds(pc: Pc) {
    pc == Holding || pc == Confirmed
  }

  /** Custody is settled and a validator of an older run is gone. */
  predicate NothingLeft(c: C.State, r: Registration) {
    Quiet(c) && r != Older(true)
  }

  predicate PcSound(w: Who, pc: Pc, c: C.State, r: Registration) {
    && (r.Older? ==> Seen(pc))
    && (w != Owner && pc != Idle && !pc.Validated? ==> !c.ownerAlive)
    && (w == Owner && pc != Idle && c.ownerAlive ==> c.owner == C.Idle)
    && (w != Owner && (pc.RecordRead? || pc.CustodySettled?) ==> !pc.exited)
    && (w == Owner && pc.RecordRead? && pc.second && pc.seen ==> pc.exited)
    && (w == Owner && pc.CustodySettled? && pc.second && pc.seen ==> pc.exited)
    && (PastCustody(pc) ==> Quiet(c))
    && (PastExit(pc) ==> r != Older(true))
  }

  predicate PcsSound(pcs: map<Who, Pc>, c: C.State, r: Registration) {
    forall w | w in pcs :: PcSound(w, pcs[w], c, r)
  }

  /** Who is past the rename, up to its report; at most one at a time. */
  predicate Engaged(pc: Pc) {
    Holds(pc) || pc == Failing || pc == Deleted
  }

  predicate HoldersSound(pcs: map<Who, Pc>, place: Place) {
    && (forall v, w | v in pcs && w in pcs && Engaged(pcs[v]) && Engaged(pcs[w]) :: v == w)
    && (forall w | w in pcs ::
          && (Engaged(pcs[w]) ==> place != AtRun)
          && (Holds(pcs[w]) ==> place == AtQuarantine)
          && (pcs[w] == Deleted ==> place == Removed))
  }

  predicate ReportsSound(reports: seq<Who>, pcs: map<Who, Pc>, place: Place) {
    && |reports| <= 1 && (reports != [] ==> place == Removed)
    && (forall w | w in pcs && pcs[w] == Deleted :: reports == [])
  }

  ghost predicate Inv(s: State) {
    && C.Inv(s.custody)
    && PcsSound(s.pcs, s.custody, s.registration)
    && HoldersSound(s.pcs, s.place)
    && ReportsSound(s.reports, s.pcs, s.place)
    && (s.place != AtRun ==> NothingLeft(s.custody, s.registration))
  }

  /** What one act changes: its actor's place in the code, and for the holder the files. */
  lemma ActorChanges(s: State, w: Who, pc: Pc, a: Act)
    requires ActorStep(s, w, pc, a).Some?
    ensures var t := ActorStep(s, w, pc, a).value;
      && t.registration == s.registration && w in t.pcs && t.pcs == s.pcs[w := t.pcs[w]]
      && (t.custody == s.custody || (pc == Confirmed && t.custody == s.custody.(files := s.custody.files.(marker := Absent))))
  {
  }

  lemma ClaimantPcSound(s: State, w: Who, pc: Pc, a: Act)
    requires Alive(s, w) && ActorStep(s, w, pc, a).Some? && PcSound(w, pc, s.custody, s.registration) && !Engaged(pc)
    requires s.place != AtRun || s.custody.files.pending == C.NoPending ==> Quiet(s.custody)
    ensures PcSound(w, PcOf(ActorStep(s, w, pc, a).value.pcs, w), s.custody, s.registration)
  {
  }

  lemma HolderPcSound(s: State, w: Who, pc: Pc, a: Act)
    requires Alive(s, w) && ActorStep(s, w, pc, a).Some? && PcSound(w, pc, s.custody, s.registration) && Engaged(pc)
    ensures PcSound(w, PcOf(ActorStep(s, w, pc, a).value.pcs, w), s.custody, s.registration)
  {
  }

  lemma ActorPcSound(s: State, w: Who, pc: Pc, a: Act)
    requires Inv(s) && Alive(s, w) && pc == PcOf(s.pcs, w) && ActorStep(s, w, pc, a).Some?
    ensures PcSound(w, PcOf(ActorStep(s, w, pc, a).value.pcs, w), s.custody, s.registration)
  {
    assert PcSound(w, pc, s.custody, s.registration);
    if s.custody.files.pending == C.NoPending {
      NoPendingIsQuiet(s.custody);
    }
    if Engaged(pc) {
      HolderPcSound(s, w, pc, a);
    } else {
      ClaimantPcSound(s, w, pc, a);
    }
  }

  /** How an actor, the directory and the reports move together. */
  predicate Moves(w: Who, pc: Pc, place: Place, reports: seq<Who>, pc': Pc, place': Place, reports': seq<Who>) {
    if pc == Deleted && pc' == Idle then place' == place && reports' == reports + [w]
    else
      && reports' == reports
      && (if !Engaged(pc) then (place' == place && !Engaged(pc')) || (place == AtRun && place' == AtQuarantine && pc' == Holding)
          else if pc == Confirmed && pc' == Deleted then place == AtQuarantine && place' == Removed
          else if pc == Failing then pc' == Idle && (place' == place || (place == AtQuarantine && place' == AtRun))
          else place' == place && (pc' == Failing || (Holds(pc) && Holds(pc'))))
  }

  lemma ActorMoves(s: State, w: Who, pc: Pc, a: Act)
    requires ActorStep(s, w, pc, a).Some?
    ensures var t := ActorStep(s, w, pc, a).value; Moves(w, pc, s.place, s.reports, PcOf(t.pcs, w), t.place, t.reports)
  {
  }

  lemma MovesKeepHolders(w: Who, pc: Pc, place: Place, reports: seq<Who>, pc': Pc, place': Place, reports': seq<Who>, pcs: map<Who, Pc>)
    requires HoldersSound(pcs, place) && ReportsSound(reports, pcs, place) && pc == PcOf(pcs, w)
    requires Moves(w, pc, place, reports, pc', place', reports')
    ensures HoldersSound(pcs[w := pc'], place') && ReportsSound(reports', pcs[w := pc'], place')
  {
  }

  lemma ActorHoldersSound(s: State, w: Who, pc: Pc, a: Act)
    requires Inv(s) && pc == PcOf(s.pcs, w) && ActorStep(s, w, pc, a).Some?
    ensures var t := ActorStep(s, w, pc, a).value;
      HoldersSound(t.pcs, t.place) && ReportsSound(t.reports, t.pcs, t.place)
  {
    var t := ActorStep(s, w, pc, a).value;
    ActorChanges(s, w, pc, a);
    ActorMoves(s, w, pc, a);
    MovesKeepHolders(w, pc, s.place, s.reports, t.pcs[w], t.place, t.reports, s.pcs);
  }

  lemma MarkerRemovedPcs(pcs: map<Who, Pc>, c: C.State, r: Registration)
    requires PcsSound(pcs, c, r) && Quiet(c)
    ensures PcsSound(pcs, c.(files := c.files.(marker := Absent)), r)
  {
    var d := c.(files := c.files.(marker := Absent));
    forall w | w in pcs ensures PcSound(w, pcs[w], d, r) {
      assert PcSound(w, pcs[w], c, r);
    }
  }

  lemma ActorKeepsInv(s: State, w: Who, a: Act)
    requires Inv(s) && Alive(s, w) && ActorStep(s, w, PcOf(s.pcs, w), a).Some?
    ensures Inv(ActorStep(s, w, PcOf(s.pcs, w), a).value)
  {
    var pc := PcOf(s.pcs, w);
    var t := ActorStep(s, w, pc, a).value;
    ActorChanges(s, w, pc, a);
    ActorPcSound(s, w, pc, a);
    ActorHoldersSound(s, w, pc, a);
    assert PcsSound(t.pcs, s.custody, s.registration);
    ActorLeavesQuiet(s, w, pc, a);
    if t.custody != s.custody {
      MarkerRemoved(s.custody);
      MarkerRemovedPcs(t.pcs, s.custody, s.registration);
    }
  }

  lemma ActorLeavesQuiet(s: State, w: Who, pc: Pc, a: Act)
    requires Inv(s) && pc == PcOf(s.pcs, w) && ActorStep(s, w, pc, a).Some?
    ensures var t := ActorStep(s, w, pc, a).value;
      && (t.place != AtRun ==> NothingLeft(s.custody, s.registration))
      && (t.custody != s.custody ==> Quiet(s.custody))
  {
    assert w in s.pcs ==> PcSound(w, pc, s.custody, s.registration);
  }

  lemma CustodyKeepsPc(s: State, w: Who, pc: Pc, e: C.Event)
    requires Inv(s) && w in s.pcs && pc == s.pcs[w] && Step(s, Custody(e)).Some?
    ensures PcSound(w, pc, C.Step(s.custody, e).value, s.registration)
  {
    assert PcSound(w, pc, s.custody, s.registration);
    CustodyOwner(s.custody, e);
    if Quiet(s.custody) && (e.ByOwner? ==> e.o == C.OwnerDies || !s.custody.ownerAlive) {
      QuietStays(s.custody, e);
    }
  }

  lemma CustodyOwner(c: C.State, e: C.Event)
    requires C.Step(c, e).Some?
    ensures var d := C.Step(c, e).value;
      && (d.ownerAlive ==> c.ownerAlive)
      && (e.BySupervisor? || e.o == C.OwnerDies ==> d.owner == c.owner)
      && (e.ByOwner? ==> c.ownerAlive)
  {
  }

  lemma CustodyKeepsInv(s: State, e: C.Event)
    requires Inv(s) && Step(s, Custody(e)).Some?
    ensures Inv(Step(s, Custody(e)).value)
  {
    var t := Step(s, Custody(e)).value;
    C.StepKeepsInv(s.custody, e);
    CustodyOwner(s.custody, e);
    forall w | w in t.pcs ensures PcSound(w, t.pcs[w], t.custody, t.registration) {
      CustodyKeepsPc(s, w, t.pcs[w], e);
    }
    if s.place != AtRun {
      QuietStays(s.custody, e);
    }
  }

  lemma RegisterKeepsInv(s: State, i: nat, ok: bool)
    requires Inv(s) && Step(s, Register(i, ok)).Some?
    ensures Inv(Step(s, Register(i, ok)).value)
  {
    var t := Step(s, Register(i, ok)).value;
    forall w | w in t.pcs ensures PcSound(w, t.pcs[w], t.custody, t.registration) {
      assert PcSound(w, s.pcs[w], s.custody, s.registration);
    }
  }

  lemma OlderDiesKeepsInv(s: State)
    requires Inv(s) && s.registration.Older?
    ensures Inv(s.(registration := Older(false)))
  {
    forall w | w in s.pcs ensures PcSound(w, s.pcs[w], s.custody, Older(false)) {
      assert PcSound(w, s.pcs[w], s.custody, s.registration);
    }
  }

  lemma StepKeepsInv(s: State, e: Event)
    requires Inv(s) && Step(s, e).Some?
    ensures Inv(Step(s, e).value)
  {
    match e
    case Custody(ce) => CustodyKeepsInv(s, ce);
    case Register(i, ok) => RegisterKeepsInv(s, i, ok);
    case OlderDies => OlderDiesKeepsInv(s);
    case ReclaimerDies(i) =>
    case By(w, a) => ActorKeepsInv(s, w, a);
  }

  lemma {:induction false} RunKeepsInv(s: State, events: seq<Event>)
    requires Inv(s) && Run(s, events).Some?
    ensures Inv(Run(s, events).value)
    decreases |events|
  {
    if events != [] {
      StepKeepsInv(s, events[0]);
      RunKeepsInv(Step(s, events[0]).value, events[1..]);
    }
  }

  // ------------------------------------------------------------------------ main results

  lemma InitKeepsInv(s: State)
    requires Init(s)
    ensures Inv(s)
  {
    C.InitInv(s.custody);
  }

  lemma QuietMeansNoValidator(s: State)
    requires Inv(s) && NothingLeft(s.custody, s.registration)
    ensures NoValidatorAlive(s)
  {
    NoPendingIsQuiet(s.custody);
  }

  /**
    The step that removes a run is its holder's, with custody settled and no validator of the run
    alive, the registered one included; a reclaimer removes only the run of a dead owner.
  */
  lemma {:induction false} RemovalIsSafe(start: State, events: seq<Event>, e: Event)
    requires Init(start) && Run(start, events).Some? && Step(Run(start, events).value, e).Some?
    ensures var s := Run(start, events).value; var t := Step(s, e).value;
      s.place != Removed && t.place == Removed ==>
        && e.By? && e.a == RemoveDirectory
        && C.FindsNoPending(s.custody) && NoValidatorAlive(s) && NoValidatorAlive(t)
        && RegisteredGone(s.custody, s.registration)
        && (e.w != Owner ==> !s.custody.ownerAlive)
  {
    InitKeepsInv(start);
    RunKeepsInv(start, events);
    var s := Run(start, events).value;
    StepKeepsInv(s, e);
    var t := Step(s, e).value;
    if s.place != Removed && t.place == Removed {
      WhatRemoves(s, e);
      assert PcSound(e.w, s.pcs[e.w], s.custody, s.registration);
      QuietMeansNoValidator(s);
      QuietMeansNoValidator(t);
      RegistrationRun(start, events);
    }
  }

  lemma WhatRemoves(s: State, e: Event)
    requires Step(s, e).Some? && s.place != Removed && Step(s, e).value.place == Removed
    ensures e.By? && e.a == RemoveDirectory && e.w in s.pcs && s.pcs[e.w] == Confirmed && s.place == AtQuarantine
  {
  }

  /** A registration names a supervisor that was forked. */
  predicate RegistrationNamed(s: State) {
    s.registration.Supervised? ==> s.registration.i < |s.custody.supervisors|
  }

  lemma {:induction false} RegistrationRun(s: State, events: seq<Event>)
    requires RegistrationNamed(s) && Run(s, events).Some?
    ensures RegistrationNamed(Run(s, events).value)
    decreases |events|
  {
    if events != [] {
      RegistrationStep(s, events[0]);
      RegistrationRun(Step(s, events[0]).value, events[1..]);
    }
  }

  lemma RegistrationStep(s: State, e: Event)
    requires RegistrationNamed(s) && Step(s, e).Some?
    ensures RegistrationNamed(Step(s, e).value)
  {
    if e.By? {
      ActorChanges(s, e.w, PcOf(s.pcs, e.w), e.a);
    }
  }

  /** At most one caller ever reports a removal, and only of a run that is removed. */
  lemma {:induction false} RemovalReportedOnce(start: State, events: seq<Event>)
    requires Init(start) && Run(start, events).Some?
    ensures var s := Run(start, events).value; |s.reports| <= 1 && (s.reports != [] ==> s.place == Removed)
  {
    InitKeepsInv(start);
    RunKeepsInv(start, events);
  }

  /** Away from its own name, a run has no validator alive, now or later. */
  lemma {:induction false} QuarantinedRunsAreSilent(start: State, events: seq<Event>)
    requires Init(start) && Run(start, events).Some?
    ensures var s := Run(start, events).value; s.place != AtRun ==> NoValidatorAlive(s)
  {
    InitKeepsInv(start);
    RunKeepsInv(start, events);
    var s := Run(start, events).value;
    if s.place != AtRun {
      QuietMeansNoValidator(s);
    }
  }

  // ---------------------------------------------------------------------------- progress

  ghost predicate LeadsTo(s: State, t: State) {
    exists events :: Run(s, events) == Some(t)
  }

  lemma {:induction false} RunAppend(s: State, events: seq<Event>, e: Event)
    requires Run(s, events).Some?
    ensures Run(s, events + [e]) == Step(Run(s, events).value, e)
    decreases |events|
  {
    if events == [] {
      assert [e][1..] == [] && events + [e] == [e];
    } else {
      assert (events + [e])[1..] == events[1..] + [e];
      RunAppend(Step(s, events[0]).value, events[1..], e);
    }
  }

  function AtPc(s: State, w: Who, pc: Pc): State {
    s.(pcs := s.pcs[w := pc])
  }

  /** One more act of `w`, from a state that differs from `u` only in where `w` stands. */
  lemma Acts(s: State, u: State, w: Who, pc: Pc, a: Act, next: Pc, v: State)
    requires LeadsTo(s, AtPc(u, w, pc)) && Alive(u, w)
    requires ActorStep(AtPc(u, w, pc), w, pc, a) == Goes(v.(pcs := AtPc(u, w, pc).pcs), w, next)
    requires v.pcs == u.pcs
    ensures LeadsTo(s, AtPc(v, w, next))
  {
    var events :| Run(s, events) == Some(AtPc(u, w, pc));
    RunAppend(s, events, By(w, a));
    assert AtPc(u, w, pc).pcs[w := next] == AtPc(v, w, next).pcs;
  }

  /** What a reclaimer needs to find. */
  predicate Reclaimable(s: State, w: Who) {
    && w.Reclaimer? && Alive(s, w) && w !in s.pcs && s.place == AtRun && s.leaseReadable
    && !s.custody.ownerAlive && CustodySafety.OwnerDeadAndSettled(s.custody) && RegisteredGone(s.custody, s.registration)
  }

  lemma ReachesAdmission(s: State, w: Who, seen: bool)
    requires Reclaimable(s, w) && (seen <==> s.registration != Unregistered)
    ensures LeadsTo(s, AtPc(s, w, Admitted(seen)))
  {
    var events := [By(w, Validate)];
    RunAppend(s, [], By(w, Validate));
    assert [] + events == events && Run(s, []) == Some(s);
    assert Run(s, events) == Some(AtPc(s, w, Validated(seen)));
    Acts(s, s, w, Validated(seen), CheckOwner, Admitted(seen), s);
  }

  lemma PassesCustody(s: State, w: Who, seen: bool, second: bool)
    requires Reclaimable(s, w)
    requires LeadsTo(s, AtPc(s, w, if second then CustodySettled(seen, false, false) else Admitted(seen)))
    ensures LeadsTo(s, AtPc(s, w, CustodySettled(seen, second, false)))
  {
    if second {
      Acts(s, s, w, CustodySettled(seen, false, false), ReadRecord, RecordRead(seen, true, false), s);
    } else {
      Acts(s, s, w, Admitted(seen), ReadRecord, RecordRead(seen, false, false), s);
    }
    Acts(s, s, w, RecordRead(seen, second, false), FindPending, CustodySettled(seen, second, false), s);
  }

  lemma ReachesStop(s: State, w: Who)
    requires Reclaimable(s, w)
    ensures LeadsTo(s, AtPc(s, w, Stopped))
  {
    var seen := s.registration != Unregistered;
    ReachesAdmission(s, w, seen);
    PassesCustody(s, w, seen, false);
    PassesCustody(s, w, seen, true);
    Acts(s, s, w, CustodySettled(seen, true, false), Terminate, Stopped, s);
  }

  lemma ReachesTarget(s: State, w: Who)
    requires Reclaimable(s, w)
    ensures LeadsTo(s, AtPc(s, w, TargetFree))
  {
    ReachesStop(s, w);
    Acts(s, s, w, Stopped, Revalidate, Revalidated, s);
    Acts(s, s, w, Revalidated, FindTarget, TargetFree, s);
  }

  lemma ReachesConfirmation(s: State, w: Who)
    requires Reclaimable(s, w)
    ensures LeadsTo(s, AtPc(s.(place := AtQuarantine), w, Confirmed))
  {
    var away := s.(place := AtQuarantine);
    ReachesTarget(s, w);
    Acts(s, s, w, TargetFree, RenameAway, Holding, away);
    Acts(s, away, w, Holding, Reconfirm, Confirmed, away);
  }

  /** Left undisturbed, a reclaimer that finds a settled run of a dead owner removes it and reports it. */
  lemma StaleRunIsRemoved(s: State, w: Who)
    requires Reclaimable(s, w)
    ensures exists t :: LeadsTo(s, t) && t.place == Removed && t.reports == s.reports + [w]
  {
    var gone := s.(place := Removed);
    var told := gone.(reports := s.reports + [w]);
    ReachesConfirmation(s, w);
    Acts(s, s.(place := AtQuarantine), w, Confirmed, RemoveDirectory, Deleted, gone);
    Acts(s, gone, w, Deleted, Report, Idle, told);
    assert AtPc(told, w, Idle).place == Removed;
  }
}

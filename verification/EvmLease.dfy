/**
  Local EVM runs and their reclamation: runners that create, publish and remove run directories,
  supervisors that spawn one Anvil each, and any number of reclaimers, all of which may die between
  two awaits. Directories are inodes under names; every path is looked up again at every step.

  A process is an identity that never comes back once it is dead, so an authentication that answers
  "absent" or "reused" has seen it dead for good.
*/
module EvmLease {
  import opened Wrappers

  type Proc = nat
  type Ino = nat

  /** `n` makes names unique; every name carries the initializer it was created for. */
  datatype Name =
    | Initializing(n: nat, init: Proc)
    | RunName(n: nat, init: Proc)
    | Claim(n: nat, ino: Ino, claimant: Proc, deleting: bool, initializing: bool, init: Proc)

  datatype Lease = Lease(runner: Proc, anvil: Option<Proc>)

  datatype Dir = Dir(owner: Proc, lease: Option<Lease>)

  /** The supervisor a runner forked; it spawns at most one Anvil. */
  datatype Supervisor = NoSupervisor | Running(spawned: Option<Proc>) | Exited(ok: bool, spawned: Option<Proc>)

  datatype Stage =
    | Fresh
    | Initial(name: Name)
    | Leased(name: Name)
    | Reserved(name: Name, dest: Name, reserved: Ino)
    | Published(dest: Name)

  /** A runner owns one run directory, named here by its inode. */
  datatype Run = Run(stage: Stage, ino: Option<Ino>, supervisor: Supervisor, removing: bool)

  const FRESH_RUN := Run(Fresh, None, NoSupervisor, false)

  /** Where a reclaimer, or a runner removing its own directory, stands with one entry. */
  datatype Frame =
    | Scanning(name: Name, expected: Ino)
    | ClaimantGone(name: Name, expected: Ino)
    | NoLeaseSeen(name: Name, expected: Ino)
    | LeaseSeen(name: Name, expected: Ino, lease: Lease)
    | RunnerGone(name: Name, expected: Ino, lease: Lease)
    | ReadyToClaim(name: Name, expected: Ino, confirm: Option<Lease>)
    | Claimed(name: Name, expected: Ino, confirm: Option<Lease>)
    | ReadyToDelete(name: Name, expected: Ino)
    | Deleting(name: Name, expected: Ino)

  datatype State = State(
    alive: set<Proc>,
    procs: nat,
    labels: nat,
    names: map<Name, Ino>,
    dirs: seq<Dir>,
    runs: map<Proc, Run>,
    frames: map<Proc, Frame>,
    deleted: seq<Ino>)

  const EMPTY := State({}, 0, 0, map[], [], map[], map[], [])

  datatype RunnerEvent =
    | CreateInitial | CreateProvisional | PublishLease | Reserve | Rename | StartSupervisor | BeginRemove

  datatype SupervisorEvent = SpawnAnvil | Register | Exit(ok: bool)

  datatype ReclaimEvent =
    | List(name: Name) | CheckClaimant | CheckInitializer | ReadLease | CheckRunner | CheckAnvil
    | ClaimIt | Confirm | RenameToDelete | RemoveContents | RemoveDirectory | GiveUp

  datatype Event =
    | NewProcess(runner: bool)
    | Dies(p: Proc)
    | ByRunner(p: Proc, r: RunnerEvent)
    | BySupervisorOf(p: Proc, v: SupervisorEvent)
    | ByReclaimer(p: Proc, c: ReclaimEvent)

  // ------------------------------------------------------------------------- steps

  predicate IsInitializing(name: Name) {
    name.Initializing? || (name.Claim? && name.initializing)
  }

  predicate IsAt(s: State, name: Name, ino: Ino) {
    name in s.names && s.names[name] == ino
  }

  function LeaseAt(s: State, name: Name): Option<Lease> {
    if name in s.names && s.names[name] < |s.dirs| then s.dirs[s.names[name]].lease else None
  }

  function WithLease(s: State, ino: Ino, lease: Option<Lease>): State
    requires ino < |s.dirs|
  {
    s.(dirs := s.dirs[ino := s.dirs[ino].(lease := lease)])
  }

  function WithRun(s: State, p: Proc, run: Run): State {
    s.(runs := s.runs[p := run])
  }

  /** A new directory of `p` under a new name. */
  function WithDirectory(s: State, p: Proc, name: Name): State {
    s.(dirs := s.dirs + [Dir(p, None)], names := s.names[name := |s.dirs|], labels := s.labels + 1)
  }

  function CreateInitialStep(s: State, p: Proc, run: Run): Option<State> {
    if run.stage != Fresh then None
    else
      var name := Initializing(s.labels, p);
      Some(WithRun(WithDirectory(s, p, name), p, run.(stage := Initial(name), ino := Some(|s.dirs|))))
  }

  /** Exported, but no production caller: the directory gets its final name before its lease. */
  function CreateProvisionalStep(s: State, p: Proc, run: Run): Option<State> {
    if run.stage != Fresh then None
    else
      var name := RunName(s.labels, p);
      Some(WithRun(WithDirectory(s, p, name), p, run.(stage := Initial(name), ino := Some(|s.dirs|))))
  }

  function PublishLeaseStep(s: State, p: Proc, run: Run): Option<State> {
    if !run.stage.Initial? || run.ino.None? || !IsAt(s, run.stage.name, run.ino.value) || run.ino.value >= |s.dirs|
      || s.dirs[run.ino.value].lease.Some? then None
    else
      var leased := WithLease(s, run.ino.value, Some(Lease(p, None)));
      Some(WithRun(leased, p, run.(stage :=
        if run.stage.name.RunName? then Published(run.stage.name) else Leased(run.stage.name))))
  }

  function ReserveStep(s: State, p: Proc, run: Run): Option<State> {
    if !run.stage.Leased? then None
    else
      var dest := RunName(s.labels, p);
      Some(WithRun(WithDirectory(s, p, dest), p, run.(stage := Reserved(run.stage.name, dest, |s.dirs|))))
  }

  /** The initialized directory replaces the empty reservation in one rename. */
  function RenameStep(s: State, p: Proc, run: Run): Option<State> {
    if !run.stage.Reserved? || run.ino.None? || !IsAt(s, run.stage.name, run.ino.value)
      || !IsAt(s, run.stage.dest, run.stage.reserved) then None
    else
      Some(WithRun(s.(names := (s.names - {run.stage.name})[run.stage.dest := run.ino.value],
                      deleted := s.deleted + [run.stage.reserved]),
                   p, run.(stage := Published(run.stage.dest))))
  }

  function StartSupervisorStep(s: State, p: Proc, run: Run): Option<State> {
    if !run.stage.Published? || run.supervisor != NoSupervisor || run.removing then None
    else Some(WithRun(s, p, run.(supervisor := Running(None))))
  }

  /** Only after a confirmed stop: no supervisor was ever started, or it exited cleanly. */
  function BeginRemoveStep(s: State, p: Proc, run: Run): Option<State> {
    if !run.stage.Published? || run.removing || run.stage.dest !in s.names
      || !(run.supervisor == NoSupervisor || (run.supervisor.Exited? && run.supervisor.ok)) then None
    else
      var lease := LeaseAt(s, run.stage.dest);
      if lease.None? || lease.value.runner != p || (lease.value.anvil.Some? && lease.value.anvil.value in s.alive) then None
      else
        var removing := WithRun(s, p, run.(removing := true));
        Some(removing.(frames := s.frames[p := ReadyToClaim(run.stage.dest, s.names[run.stage.dest], lease)]))
  }

  function RunnerStep(s: State, p: Proc, e: RunnerEvent): Option<State> {
    if p !in s.alive || p !in s.runs then None
    else
      match e
      case CreateInitial => CreateInitialStep(s, p, s.runs[p])
      case CreateProvisional => CreateProvisionalStep(s, p, s.runs[p])
      case PublishLease => PublishLeaseStep(s, p, s.runs[p])
      case Reserve => ReserveStep(s, p, s.runs[p])
      case Rename => RenameStep(s, p, s.runs[p])
      case StartSupervisor => StartSupervisorStep(s, p, s.runs[p])
      case BeginRemove => BeginRemoveStep(s, p, s.runs[p])
  }

  function SupervisorStep(s: State, p: Proc, e: SupervisorEvent): Option<State> {
    if p !in s.runs || !s.runs[p].supervisor.Running? then None
    else
      var run := s.runs[p];
      match e
      case SpawnAnvil =>
        if run.supervisor.spawned.Some? then None
        else Some(WithRun(s.(alive := s.alive + {s.procs}, procs := s.procs + 1), p,
                          run.(supervisor := Running(Some(s.procs)))))
      case Register =>
        // The registering process authenticates its own living child and replaces the lease it read.
        if run.supervisor.spawned.None? || run.supervisor.spawned.value !in s.alive || !run.stage.Published?
          || LeaseAt(s, run.stage.dest) != Some(Lease(p, None)) then None
        else Some(WithLease(s, s.names[run.stage.dest], Some(Lease(p, run.supervisor.spawned))))
      case Exit(ok) =>
        // A clean exit comes only after the child was seen to close.
        if ok && run.supervisor.spawned.Some? && run.supervisor.spawned.value in s.alive then None
        else Some(WithRun(s, p, run.(supervisor := Exited(ok, run.supervisor.spawned))))
  }

  function Renamed(s: State, from: Name, to: Name): State
    requires from in s.names
  {
    s.(names := (s.names - {from})[to := s.names[from]], labels := s.labels + 1)
  }

  function ReclaimStep(s: State, r: Proc, e: ReclaimEvent): Option<State> {
    if r !in s.alive then None
    else if e.List? then
      if e.name !in s.names || r in s.frames || (e.name.Claim? && e.name.ino != s.names[e.name]) then None
      else Some(s.(frames := s.frames[r := Scanning(e.name, s.names[e.name])]))
    else if r !in s.frames then None
    else if e.GiveUp? then Some(s.(frames := s.frames - {r}))
    else FrameStep(s, r, s.frames[r], e)
  }

  function At(s: State, r: Proc, f: Frame): Option<State> {
    Some(s.(frames := s.frames[r := f]))
  }

  function FrameStep(s: State, r: Proc, f: Frame, e: ReclaimEvent): Option<State> {
    match e
    case CheckClaimant =>
      if !f.Scanning? then None
      else if f.name.Claim? && (f.name.claimant in s.alive || !IsAt(s, f.name, f.expected)) then None
      else if f.name.Claim? && f.name.deleting then At(s, r, ReadyToDelete(f.name, f.expected))
      else At(s, r, ClaimantGone(f.name, f.expected))
    case CheckInitializer =>
      if f.ClaimantGone? && IsInitializing(f.name) then
        if f.name.init in s.alive || !IsAt(s, f.name, f.expected) then None
        else At(s, r, ReadyToClaim(f.name, f.expected, None))
      else if f.NoLeaseSeen? then
        if f.name.init in s.alive then None else At(s, r, ReadyToClaim(f.name, f.expected, None))
      else None
    case ReadLease =>
      if !f.ClaimantGone? || IsInitializing(f.name) || f.name !in s.names then None
      else
        var lease := LeaseAt(s, f.name);
        if lease.None? then At(s, r, NoLeaseSeen(f.name, f.expected))
        else At(s, r, LeaseSeen(f.name, f.expected, lease.value))
    case CheckRunner =>
      // A lease without a registered Anvil proves nothing and is left alone.
      if !f.LeaseSeen? || f.lease.runner in s.alive || f.lease.anvil.None? then None
      else At(s, r, RunnerGone(f.name, f.expected, f.lease))
    case CheckAnvil =>
      if !f.RunnerGone? || f.lease.anvil.None? || f.lease.anvil.value in s.alive then None
      else At(s, r, ReadyToClaim(f.name, f.expected, Some(f.lease)))
    case ClaimIt =>
      if !f.ReadyToClaim? || f.name !in s.names then None
      else
        // The rename moves whatever stands at the path; the inode is compared afterwards.
        var claim := Claim(s.labels, f.expected, r, false, IsInitializing(f.name), f.name.init);
        var moved := Renamed(s, f.name, claim);
        if s.names[f.name] != f.expected then Some(moved.(frames := s.frames - {r}))
        else At(moved, r, Claimed(claim, f.expected, f.confirm))
    case Confirm =>
      if !f.Claimed? || f.name !in s.names || (f.confirm.Some? && LeaseAt(s, f.name) != f.confirm) then None
      else At(s, r, ReadyToDelete(f.name, f.expected))
    case RenameToDelete =>
      if !f.ReadyToDelete? || f.name !in s.names then None
      else
        var claim := Claim(s.labels, f.expected, r, true, IsInitializing(f.name), f.name.init);
        var moved := Renamed(s, f.name, claim);
        if s.names[f.name] != f.expected then Some(moved.(frames := s.frames - {r}))
        else At(moved, r, Deleting(claim, f.expected))
    case RemoveContents =>
      if !f.Deleting? || f.name !in s.names || s.names[f.name] >= |s.dirs| then None
      else Some(WithLease(s, s.names[f.name], None))
    case RemoveDirectory =>
      if !f.Deleting? || f.name !in s.names then None
      else Some(s.(names := s.names - {f.name}, deleted := s.deleted + [s.names[f.name]], frames := s.frames - {r}))
    case _ => None
  }

  function Step(s: State, e: Event): Option<State> {
    match e
    case NewProcess(runner) =>
      var born := s.(alive := s.alive + {s.procs}, procs := s.procs + 1);
      Some(if runner then WithRun(born, s.procs, FRESH_RUN) else born)
    case Dies(p) => if p in s.alive then Some(s.(alive := s.alive - {p})) else None
    case ByRunner(p, r) => RunnerStep(s, p, r)
    case BySupervisorOf(p, v) => SupervisorStep(s, p, v)
    case ByReclaimer(p, c) => ReclaimStep(s, p, c)
  }

  function RunEvents(s: State, events: seq<Event>): Option<State>
    decreases |events|
  {
    if events == [] then Some(s)
    else
      var next := Step(s, events[0]);
      if next.None? then None else RunEvents(next.value, events[1..])
  }

  // --------------------------------------------------------------------- invariant

  function Spawned(v: Supervisor): Option<Proc> {
    match v
    case NoSupervisor => None
    case Running(spawned) => spawned
    case Exited(_, spawned) => spawned
  }

  /** The run directory of its owner, as opposed to an empty reservation. */
  predicate Main(dirs: seq<Dir>, runs: map<Proc, Run>, d: Ino) {
    d < |dirs| && dirs[d].owner in runs && runs[dirs[d].owner].ino == Some(d)
  }

  /** No Anvil of this run is alive, and none can be spawned any more. */
  predicate RunQuiet(run: Run, p: Proc, alive: set<Proc>) {
    match run.supervisor
    case NoSupervisor => p !in alive || run.removing
    case Running(spawned) => spawned.Some? && spawned.value !in alive
    case Exited(_, spawned) => spawned.Some? ==> spawned.value !in alive
  }

  predicate Quiet(dirs: seq<Dir>, runs: map<Proc, Run>, alive: set<Proc>, d: Ino) {
    Main(dirs, runs, d) ==> RunQuiet(runs[dirs[d].owner], dirs[d].owner, alive)
  }

  /** The owner is dead, or is the remover itself. */
  predicate GoneOrSelf(runs: map<Proc, Run>, alive: set<Proc>, owner: Proc, r: Proc) {
    owner !in alive || (r == owner && owner in runs && runs[owner].removing)
  }

  predicate NameSound(nm: Name, d: Ino, dirs: seq<Dir>, procs: nat, labels: nat) {
    && nm.n < labels && d < |dirs| && dirs[d].owner == nm.init
    && (nm.Claim? ==> nm.claimant < procs)
  }

  predicate Injective(names: map<Name, Ino>) {
    forall a, b | a in names && b in names && names[a] == names[b] :: a == b
  }

  predicate NamesSound(names: map<Name, Ino>, dirs: seq<Dir>, procs: nat, labels: nat) {
    && (forall nm | nm in names :: NameSound(nm, names[nm], dirs, procs, labels))
    && Injective(names)
  }

  predicate OwnName(nm: Name, p: Proc, labels: nat) {
    nm.init == p && nm.n < labels
  }

  predicate StageSound(run: Run, p: Proc, dirs: seq<Dir>, labels: nat) {
    && (run.ino.Some? ==> run.ino.value < |dirs| && dirs[run.ino.value].owner == p)
    && (run.ino.None? <==> run.stage == Fresh)
    && (!run.stage.Published? ==> run.supervisor == NoSupervisor && !run.removing)
    && (match run.stage
        case Fresh => true
        case Initial(name) => name.Initializing? && OwnName(name, p, labels)
        case Leased(name) => name.Initializing? && OwnName(name, p, labels)
        case Reserved(name, dest, reserved) =>
          && name.Initializing? && OwnName(name, p, labels) && dest.RunName? && OwnName(dest, p, labels)
          && reserved < |dirs| && dirs[reserved].owner == p && Some(reserved) != run.ino
        case Published(dest) => dest.RunName? && OwnName(dest, p, labels))
  }

  predicate RunSound(run: Run, p: Proc, dirs: seq<Dir>, procs: nat, labels: nat) {
    && p < procs && StageSound(run, p, dirs, labels)
    && (Spawned(run.supervisor).Some? ==> Spawned(run.supervisor).value < procs)
  }

  predicate RunsSound(runs: map<Proc, Run>, dirs: seq<Dir>, procs: nat, labels: nat) {
    && (forall p | p in runs :: RunSound(runs[p], p, dirs, procs, labels))
    && (forall d | 0 <= d < |dirs| :: dirs[d].owner in runs)
  }

  predicate StopSound(run: Run, alive: set<Proc>) {
    run.supervisor.Exited? && run.supervisor.ok && run.supervisor.spawned.Some? ==>
      run.supervisor.spawned.value !in alive
  }

  predicate StopsSound(runs: map<Proc, Run>, alive: set<Proc>) {
    forall p | p in runs :: StopSound(runs[p], alive)
  }

  /** A lease names its owner, and an Anvil it registers is the one its supervisor spawned. */
  predicate LeaseSound(dirs: seq<Dir>, runs: map<Proc, Run>, d: Ino)
    requires d < |dirs|
  {
    dirs[d].lease.Some? ==>
      && Main(dirs, runs, d) && LeaseRemembered(dirs[d].owner, dirs[d].lease.value, runs)
  }

  predicate LeaseRemembered(owner: Proc, lease: Lease, runs: map<Proc, Run>) {
    && lease.runner == owner && owner in runs
    && (lease.anvil.Some? ==> Spawned(runs[owner].supervisor) == lease.anvil)
  }

  predicate LeasesSound(dirs: seq<Dir>, runs: map<Proc, Run>) {
    forall d | 0 <= d < |dirs| :: LeaseSound(dirs, runs, d)
  }

  predicate IsDeleting(nm: Name) {
    nm.Claim? && nm.deleting
  }

  /** A run directory that left its initializing name has its lease, until its deletion begins. */
  predicate LeasedOncePublished(names: map<Name, Ino>, dirs: seq<Dir>, runs: map<Proc, Run>) {
    forall nm | nm in names && !IsInitializing(nm) && !IsDeleting(nm) && Main(dirs, runs, names[nm]) ::
      dirs[names[nm]].lease.Some?
  }

  predicate Stands(names: map<Name, Ino>, nm: Name, d: Option<Ino>) {
    nm in names && d == Some(names[nm])
  }

  /** Its lease is published, and it still stands under its initializing name. */
  predicate AwaitsRename(run: Run, names: map<Name, Ino>) {
    (run.stage.Leased? || run.stage.Reserved?) && Stands(names, run.stage.name, run.ino)
  }

  predicate LeasedBeforePublished(names: map<Name, Ino>, dirs: seq<Dir>, runs: map<Proc, Run>) {
    forall p | p in runs && AwaitsRename(runs[p], names) ::
      runs[p].ino.value < |dirs| && dirs[runs[p].ino.value].lease.Some?
  }

  predicate UnstartedWhileInitializing(names: map<Name, Ino>, dirs: seq<Dir>, runs: map<Proc, Run>) {
    forall nm | nm in names && IsInitializing(nm) ::
      Main(dirs, runs, names[nm]) && nm.init in runs && runs[nm.init].supervisor == NoSupervisor
  }

  /** A living runner finds its directories where it left them, until it removes them itself. */
  predicate InPlace(run: Run, names: map<Name, Ino>) {
    match run.stage
    case Fresh => true
    case Initial(nm) => Stands(names, nm, run.ino)
    case Leased(nm) => Stands(names, nm, run.ino)
    case Reserved(nm, dest, reserved) => Stands(names, nm, run.ino) && Stands(names, dest, Some(reserved))
    case Published(dest) => Stands(names, dest, run.ino)
  }

  predicate OwnersInPlace(runs: map<Proc, Run>, alive: set<Proc>, names: map<Name, Ino>) {
    forall p | p in runs && p in alive && !runs[p].removing :: InPlace(runs[p], names)
  }

  /** Whoever renamed this directory to a claim was entitled to delete it. */
  predicate ClaimsSound(names: map<Name, Ino>, dirs: seq<Dir>, runs: map<Proc, Run>, alive: set<Proc>) {
    forall nm | nm in names && nm.Claim? && names[nm] == nm.ino ::
      Quiet(dirs, runs, alive, nm.ino) && GoneOrSelf(runs, alive, nm.init, nm.claimant)
  }

  /** What makes it safe for `r` to delete the directory `d` of `owner`. */
  predicate MayDelete(dirs: seq<Dir>, runs: map<Proc, Run>, alive: set<Proc>, owner: Proc, r: Proc, d: Ino) {
    GoneOrSelf(runs, alive, owner, r) && Quiet(dirs, runs, alive, d)
  }

  /** The directory a frame expects may have left its name; only a reservation is ever replaced under its name. */
  predicate FrameNameSound(f: Frame, names: map<Name, Ino>, dirs: seq<Dir>, runs: map<Proc, Run>, procs: nat, labels: nat) {
    && f.name.n < labels && f.expected < |dirs| && dirs[f.expected].owner == f.name.init
    && (f.name in names && names[f.name] != f.expected ==> !f.name.Claim? && !Main(dirs, runs, f.expected))
    && (f.name.Claim? ==> f.name.ino == f.expected && f.name.claimant < procs)
  }

  /** What a reclaimer has established, and keeps whatever the others do. */
  predicate FrameSound(r: Proc, f: Frame, dirs: seq<Dir>, runs: map<Proc, Run>, alive: set<Proc>) {
    && (f.name.Claim? && !f.Scanning? ==> f.name.claimant !in alive || f.name.claimant == r)
    && (match f
        case Scanning(_, _) => true
        case ClaimantGone(nm, _) => !IsDeleting(nm)
        case NoLeaseSeen(nm, d) => !IsDeleting(nm) && !Main(dirs, runs, d)
        case LeaseSeen(nm, _, lease) => !IsDeleting(nm) && LeaseRemembered(nm.init, lease, runs)
        case RunnerGone(nm, _, lease) => !IsDeleting(nm) && LeaseRemembered(nm.init, lease, runs) && nm.init !in alive
        case ReadyToClaim(nm, d, _) => !IsDeleting(nm) && MayDelete(dirs, runs, alive, nm.init, r, d)
        case Claimed(nm, d, _) => nm.Claim? && MayDelete(dirs, runs, alive, nm.init, r, d)
        case ReadyToDelete(nm, d) => nm.Claim? && MayDelete(dirs, runs, alive, nm.init, r, d)
        case Deleting(nm, d) => IsDeleting(nm) && MayDelete(dirs, runs, alive, nm.init, r, d))
  }

  predicate FrameNamesSound(frames: map<Proc, Frame>, names: map<Name, Ino>, dirs: seq<Dir>,
                            runs: map<Proc, Run>, procs: nat, labels: nat) {
    forall r | r in frames :: FrameNameSound(frames[r], names, dirs, runs, procs, labels)
  }

  predicate FramesSound(frames: map<Proc, Frame>, dirs: seq<Dir>, runs: map<Proc, Run>, alive: set<Proc>) {
    forall r | r in frames :: FrameSound(r, frames[r], dirs, runs, alive)
  }

  predicate DeletedSound(deleted: seq<Ino>, names: map<Name, Ino>, dirs: seq<Dir>) {
    && (forall i | 0 <= i < |deleted| :: deleted[i] < |dirs| && forall nm | nm in names :: names[nm] != deleted[i])
    && (forall i, j | 0 <= i < j < |deleted| :: deleted[i] != deleted[j])
  }

  predicate DeletedQuiet(deleted: seq<Ino>, dirs: seq<Dir>, runs: map<Proc, Run>, alive: set<Proc>) {
    forall i | 0 <= i < |deleted| :: Quiet(dirs, runs, alive, deleted[i])
  }

  predicate AliveSound(alive: set<Proc>, procs: nat) {
    forall p | p in alive :: p < procs
  }

  predicate Inv(s: State) {
    && AliveSound(s.alive, s.procs)
    && NamesSound(s.names, s.dirs, s.procs, s.labels)
    && RunsSound(s.runs, s.dirs, s.procs, s.labels)
    && StopsSound(s.runs, s.alive)
    && LeasesSound(s.dirs, s.runs)
    && LeasedOncePublished(s.names, s.dirs, s.runs)
    && LeasedBeforePublished(s.names, s.dirs, s.runs)
    && UnstartedWhileInitializing(s.names, s.dirs, s.runs)
    && OwnersInPlace(s.runs, s.alive, s.names)
    && ClaimsSound(s.names, s.dirs, s.runs, s.alive)
    && FrameNamesSound(s.frames, s.names, s.dirs, s.runs, s.procs, s.labels)
    && FramesSound(s.frames, s.dirs, s.runs, s.alive)
    && DeletedSound(s.deleted, s.names, s.dirs)
    && DeletedQuiet(s.deleted, s.dirs, s.runs, s.alive)
  }

  // ----------------------------------------------------------------------- progress

  predicate RunAdvances(before: Run, after: Run, p: Proc, alive: set<Proc>, later: set<Proc>) {
    && (before.removing ==> after.removing)
    && (Spawned(before.supervisor).Some? ==> Spawned(after.supervisor) == Spawned(before.supervisor))
    && (RunQuiet(before, p, alive) ==> RunQuiet(after, p, later))
    && (before.ino.Some? ==> after.ino == before.ino)
  }

  /** What no step takes back: death, a removal, an Anvil's identity, the owner of a directory, silence. */
  predicate Advances(s: State, t: State) {
    && |s.dirs| <= |t.dirs| && s.labels <= t.labels && s.procs <= t.procs
    && (forall d | 0 <= d < |s.dirs| :: t.dirs[d].owner == s.dirs[d].owner)
    && (forall p | p in s.runs :: p in t.runs && RunAdvances(s.runs[p], t.runs[p], p, s.alive, t.alive))
    && (forall p | p in t.alive && p < s.procs :: p in s.alive)
    && (forall p | p in s.runs && s.runs[p].ino.None? && t.runs[p].ino.Some? :: t.runs[p].ino.value >= |s.dirs|)
  }

  lemma MainAdvances(s: State, t: State, d: Ino)
    requires Advances(s, t) && d < |s.dirs| && s.dirs[d].owner in s.runs
    ensures Main(t.dirs, t.runs, d) <==> Main(s.dirs, s.runs, d)
    ensures Quiet(s.dirs, s.runs, s.alive, d) ==> Quiet(t.dirs, t.runs, t.alive, d)
  {
    var p := s.dirs[d].owner;
    assert RunAdvances(s.runs[p], t.runs[p], p, s.alive, t.alive);
  }

  lemma GoneAdvances(s: State, t: State, owner: Proc, r: Proc)
    requires Advances(s, t) && owner < s.procs && GoneOrSelf(s.runs, s.alive, owner, r)
    ensures GoneOrSelf(t.runs, t.alive, owner, r)
  {
    if owner in s.runs {
      assert RunAdvances(s.runs[owner], t.runs[owner], owner, s.alive, t.alive);
    }
  }

  lemma LeaseRememberedAdvances(s: State, t: State, owner: Proc, lease: Lease)
    requires Advances(s, t) && LeaseRemembered(owner, lease, s.runs)
    ensures LeaseRemembered(owner, lease, t.runs)
  {
    assert RunAdvances(s.runs[owner], t.runs[owner], owner, s.alive, t.alive);
  }

  lemma FrameAdvances(s: State, t: State, r: Proc, f: Frame)
    requires Advances(s, t) && RunsSound(s.runs, s.dirs, s.procs, s.labels)
    requires FrameNameSound(f, s.names, s.dirs, s.runs, s.procs, s.labels)
    requires FrameSound(r, f, s.dirs, s.runs, s.alive)
    ensures FrameSound(r, f, t.dirs, t.runs, t.alive)
  {
    var d, owner := f.expected, f.name.init;
    assert s.dirs[d].owner in s.runs && RunSound(s.runs[owner], owner, s.dirs, s.procs, s.labels);
    MainAdvances(s, t, d);
    if GoneOrSelf(s.runs, s.alive, owner, r) {
      GoneAdvances(s, t, owner, r);
    }
    if f.LeaseSeen? || f.RunnerGone? {
      LeaseRememberedAdvances(s, t, owner, f.lease);
    }
  }

  lemma FramesAdvance(s: State, t: State, frames: map<Proc, Frame>)
    requires Advances(s, t) && RunsSound(s.runs, s.dirs, s.procs, s.labels)
    requires FrameNamesSound(frames, s.names, s.dirs, s.runs, s.procs, s.labels)
    requires FramesSound(frames, s.dirs, s.runs, s.alive)
    ensures FramesSound(frames, t.dirs, t.runs, t.alive)
  {
    forall r | r in frames ensures FrameSound(r, frames[r], t.dirs, t.runs, t.alive) {
      FrameAdvances(s, t, r, frames[r]);
    }
  }

  lemma FrameNameAdvances(s: State, t: State, f: Frame)
    requires Advances(s, t) && RunsSound(s.runs, s.dirs, s.procs, s.labels)
    requires FrameNameSound(f, s.names, s.dirs, s.runs, s.procs, s.labels)
    requires f.name in t.names ==> f.name in s.names && t.names[f.name] == s.names[f.name]
    ensures FrameNameSound(f, t.names, t.dirs, t.runs, t.procs, t.labels)
  {
    assert s.dirs[f.expected].owner in s.runs;
    MainAdvances(s, t, f.expected);
  }

  /** Old names keep their directory; new names carry new labels. */
  predicate OnlyNewNames(s: State, t: State) {
    forall nm | nm in t.names && nm.n < s.labels :: nm in s.names && t.names[nm] == s.names[nm]
  }

  lemma FrameNamesAdvance(s: State, t: State, frames: map<Proc, Frame>)
    requires Advances(s, t) && RunsSound(s.runs, s.dirs, s.procs, s.labels) && OnlyNewNames(s, t)
    requires FrameNamesSound(frames, s.names, s.dirs, s.runs, s.procs, s.labels)
    ensures FrameNamesSound(frames, t.names, t.dirs, t.runs, t.procs, t.labels)
  {
    forall r | r in frames ensures FrameNameSound(frames[r], t.names, t.dirs, t.runs, t.procs, t.labels) {
      FrameNameAdvances(s, t, frames[r]);
    }
  }

  lemma ClaimAdvances(s: State, t: State, nm: Name)
    requires Advances(s, t) && RunsSound(s.runs, s.dirs, s.procs, s.labels)
    requires nm in s.names && nm.Claim? && s.names[nm] == nm.ino && NameSound(nm, nm.ino, s.dirs, s.procs, s.labels)
    requires Quiet(s.dirs, s.runs, s.alive, nm.ino) && GoneOrSelf(s.runs, s.alive, nm.init, nm.claimant)
    ensures Quiet(t.dirs, t.runs, t.alive, nm.ino) && GoneOrSelf(t.runs, t.alive, nm.init, nm.claimant)
  {
    assert s.dirs[nm.ino].owner in s.runs && RunSound(s.runs[nm.init], nm.init, s.dirs, s.procs, s.labels);
    MainAdvances(s, t, nm.ino);
    GoneAdvances(s, t, nm.init, nm.claimant);
  }

  lemma ClaimsAdvance(s: State, t: State)
    requires Inv(s) && Advances(s, t)
    requires forall nm | nm in t.names && nm.Claim? :: nm in s.names && t.names[nm] == s.names[nm]
    ensures ClaimsSound(t.names, t.dirs, t.runs, t.alive)
  {
    forall nm | nm in t.names && nm.Claim? && t.names[nm] == nm.ino
      ensures Quiet(t.dirs, t.runs, t.alive, nm.ino) && GoneOrSelf(t.runs, t.alive, nm.init, nm.claimant)
    {
      assert NameSound(nm, s.names[nm], s.dirs, s.procs, s.labels);
      ClaimAdvances(s, t, nm);
    }
  }

  lemma DeletedAdvance(s: State, t: State)
    requires Inv(s) && Advances(s, t)
    ensures DeletedQuiet(s.deleted, t.dirs, t.runs, t.alive)
  {
    forall i | 0 <= i < |s.deleted| ensures Quiet(t.dirs, t.runs, t.alive, s.deleted[i]) {
      assert s.dirs[s.deleted[i]].owner in s.runs;
      MainAdvances(s, t, s.deleted[i]);
    }
  }

  // ------------------------------------------------------------------ processes come and go

  lemma DeathKeepsInv(s: State, p: Proc)
    requires Inv(s) && p in s.alive
    ensures Inv(s.(alive := s.alive - {p})) && Advances(s, s.(alive := s.alive - {p}))
  {
    var t := s.(alive := s.alive - {p});
    assert Advances(s, t);
    FramesAdvance(s, t, s.frames);
    ClaimsAdvance(s, t);
    DeletedAdvance(s, t);
  }

  lemma BirthAdvances(s: State, runner: bool)
    requires Inv(s)
    ensures s.procs !in s.runs && Advances(s, Step(s, NewProcess(runner)).value)
  {
    var t := Step(s, NewProcess(runner)).value;
    assert s.procs in s.runs ==> RunSound(s.runs[s.procs], s.procs, s.dirs, s.procs, s.labels);
    forall p | p in s.runs ensures p in t.runs && RunAdvances(s.runs[p], t.runs[p], p, s.alive, t.alive) {
      assert RunSound(s.runs[p], p, s.dirs, s.procs, s.labels);
    }
  }

  lemma BirthKeepsInv(s: State, runner: bool)
    requires Inv(s)
    ensures Inv(Step(s, NewProcess(runner)).value)
  {
    var t := Step(s, NewProcess(runner)).value;
    BirthAdvances(s, runner);
    FramesAdvance(s, t, s.frames);
    FrameNamesAdvance(s, t, s.frames);
    ClaimsAdvance(s, t);
    DeletedAdvance(s, t);
    RunsAndLeasesAfterBirth(s, runner);
    NamesAfterBirth(s, runner);
  }

  lemma RunsAndLeasesAfterBirth(s: State, runner: bool)
    requires Inv(s) && s.procs !in s.runs
    ensures var t := Step(s, NewProcess(runner)).value;
      RunsSound(t.runs, t.dirs, t.procs, t.labels) && StopsSound(t.runs, t.alive) && LeasesSound(t.dirs, t.runs)
  {
    var t := Step(s, NewProcess(runner)).value;
    forall p | p in t.runs ensures RunSound(t.runs[p], p, t.dirs, t.procs, t.labels) && StopSound(t.runs[p], t.alive) {
      assert p in s.runs ==> RunSound(s.runs[p], p, s.dirs, s.procs, s.labels) && StopSound(s.runs[p], s.alive);
    }
    forall d | 0 <= d < |s.dirs| ensures LeaseSound(t.dirs, t.runs, d) {
      assert LeaseSound(s.dirs, s.runs, d) && s.dirs[d].owner in s.runs;
    }
  }

  lemma NamesAfterBirth(s: State, runner: bool)
    requires Inv(s) && s.procs !in s.runs
    ensures var t := Step(s, NewProcess(runner)).value;
      && NamesSound(t.names, t.dirs, t.procs, t.labels) && LeasedOncePublished(t.names, t.dirs, t.runs)
      && LeasedBeforePublished(t.names, t.dirs, t.runs) && UnstartedWhileInitializing(t.names, t.dirs, t.runs)
      && OwnersInPlace(t.runs, t.alive, t.names)
  {
    var t := Step(s, NewProcess(runner)).value;
    forall nm | nm in t.names ensures NameSound(nm, t.names[nm], t.dirs, t.procs, t.labels) && nm.init in s.runs {
      assert NameSound(nm, s.names[nm], s.dirs, s.procs, s.labels);
    }
  }

  // ------------------------------------------------------- what one step leaves as it was

  lemma OwnedBefore(s: State, d: Ino)
    requires RunsSound(s.runs, s.dirs, s.procs, s.labels) && d < |s.dirs|
    ensures s.dirs[d].owner in s.runs && s.dirs[d].owner < s.procs
  {
    assert RunSound(s.runs[s.dirs[d].owner], s.dirs[d].owner, s.dirs, s.procs, s.labels);
  }

  /** Only the run of `p` changed. */
  predicate OnlyRun(s: State, t: State, p: Proc) {
    p in s.runs && p in t.runs && t.runs == s.runs[p := t.runs[p]]
  }

  lemma AdvancesByRun(s: State, t: State, p: Proc)
    requires OnlyRun(s, t, p) && t.alive == s.alive && t.procs == s.procs && s.labels <= t.labels && |s.dirs| <= |t.dirs|
    requires forall d | 0 <= d < |s.dirs| :: t.dirs[d].owner == s.dirs[d].owner
    requires RunAdvances(s.runs[p], t.runs[p], p, s.alive, s.alive)
    requires s.runs[p].ino.None? && t.runs[p].ino.Some? ==> t.runs[p].ino.value >= |s.dirs|
    ensures Advances(s, t)
  {
    forall q | q in s.runs ensures q in t.runs && RunAdvances(s.runs[q], t.runs[q], q, s.alive, t.alive) {
      assert q != p ==> t.runs[q] == s.runs[q];
    }
  }

  predicate LeasesKept(s: State, t: State) {
    && |s.dirs| <= |t.dirs|
    && (forall d | 0 <= d < |s.dirs| :: t.dirs[d].lease == s.dirs[d].lease)
    && (forall d | |s.dirs| <= d < |t.dirs| :: t.dirs[d].lease.None?)
  }

  lemma RunsCarried(s: State, t: State, p: Proc)
    requires Advances(s, t) && OnlyRun(s, t, p)
    requires RunsSound(s.runs, s.dirs, s.procs, s.labels) && StopsSound(s.runs, s.alive)
    requires RunSound(t.runs[p], p, t.dirs, t.procs, t.labels) && StopSound(t.runs[p], t.alive)
    requires forall d | |s.dirs| <= d < |t.dirs| :: t.dirs[d].owner in t.runs
    ensures RunsSound(t.runs, t.dirs, t.procs, t.labels) && StopsSound(t.runs, t.alive)
  {
    forall q | q in t.runs ensures RunSound(t.runs[q], q, t.dirs, t.procs, t.labels) && StopSound(t.runs[q], t.alive) {
      if q != p {
        assert RunSound(s.runs[q], q, s.dirs, s.procs, s.labels) && StopSound(s.runs[q], s.alive);
      }
    }
    forall d | 0 <= d < |t.dirs| ensures t.dirs[d].owner in t.runs {
      if d < |s.dirs| {
        OwnedBefore(s, d);
      }
    }
  }

  lemma LeasesCarried(s: State, t: State)
    requires Advances(s, t) && LeasesKept(s, t)
    requires RunsSound(s.runs, s.dirs, s.procs, s.labels) && LeasesSound(s.dirs, s.runs)
    ensures LeasesSound(t.dirs, t.runs)
  {
    forall d | 0 <= d < |t.dirs| ensures LeaseSound(t.dirs, t.runs, d) {
      if d < |s.dirs| && s.dirs[d].lease.Some? {
        assert LeaseSound(s.dirs, s.runs, d);
        OwnedBefore(s, d);
        MainAdvances(s, t, d);
        LeaseRememberedAdvances(s, t, s.dirs[d].owner, s.dirs[d].lease.value);
      }
    }
  }

  predicate NameKept(s: State, t: State, nm: Name) {
    nm in s.names && nm in t.names && t.names[nm] == s.names[nm]
  }

  lemma LeasedOnceCarried(s: State, t: State)
    requires Advances(s, t) && LeasesKept(s, t)
    requires NamesSound(s.names, s.dirs, s.procs, s.labels) && RunsSound(s.runs, s.dirs, s.procs, s.labels)
    requires LeasedOncePublished(s.names, s.dirs, s.runs)
    requires forall nm | nm in t.names :: NameKept(s, t, nm) || IsInitializing(nm) || !Main(t.dirs, t.runs, t.names[nm])
    ensures LeasedOncePublished(t.names, t.dirs, t.runs)
  {
    forall nm | nm in t.names && !IsInitializing(nm) && !IsDeleting(nm) && Main(t.dirs, t.runs, t.names[nm])
      ensures t.dirs[t.names[nm]].lease.Some?
    {
      assert NameKept(s, t, nm) && NameSound(nm, s.names[nm], s.dirs, s.procs, s.labels);
      OwnedBefore(s, s.names[nm]);
      MainAdvances(s, t, s.names[nm]);
    }
  }

  predicate NotAwaiting(run: Run, dirs: seq<Dir>) {
    run.stage.Leased? || run.stage.Reserved? ==> run.ino.Some? && run.ino.value < |dirs| && dirs[run.ino.value].lease.Some?
  }

  lemma LeasedBeforeCarried(s: State, t: State, p: Proc)
    requires Advances(s, t) && OnlyRun(s, t, p) && LeasesKept(s, t)
    requires RunsSound(s.runs, s.dirs, s.procs, s.labels) && LeasedBeforePublished(s.names, s.dirs, s.runs)
    requires t.runs[p] == s.runs[p] || NotAwaiting(t.runs[p], t.dirs)
    requires forall nm | nm in t.names && nm.Initializing? && nm.n < s.labels :: NameKept(s, t, nm)
    ensures LeasedBeforePublished(t.names, t.dirs, t.runs)
  {
    forall q | q in t.runs && AwaitsRename(t.runs[q], t.names)
      ensures t.runs[q].ino.value < |t.dirs| && t.dirs[t.runs[q].ino.value].lease.Some?
    {
      if q != p || t.runs[p] == s.runs[p] {
        assert RunSound(s.runs[q], q, s.dirs, s.procs, s.labels);
        assert NameKept(s, t, s.runs[q].stage.name);
        assert Stands(s.names, s.runs[q].stage.name, s.runs[q].ino);
      }
    }
  }

  lemma UnstartedCarried(s: State, t: State, p: Proc)
    requires Advances(s, t) && OnlyRun(s, t, p)
    requires NamesSound(s.names, s.dirs, s.procs, s.labels) && RunsSound(s.runs, s.dirs, s.procs, s.labels)
    requires UnstartedWhileInitializing(s.names, s.dirs, s.runs)
    requires forall nm | nm in t.names && IsInitializing(nm) ::
      NameKept(s, t, nm) || (nm.init == p && s.runs[p].supervisor == NoSupervisor && Main(t.dirs, t.runs, t.names[nm]))
    requires t.runs[p].supervisor == s.runs[p].supervisor
      || forall nm | nm in t.names && IsInitializing(nm) :: nm.init != p
    ensures UnstartedWhileInitializing(t.names, t.dirs, t.runs)
  {
    forall nm | nm in t.names && IsInitializing(nm)
      ensures Main(t.dirs, t.runs, t.names[nm]) && nm.init in t.runs && t.runs[nm.init].supervisor == NoSupervisor
    {
      if NameKept(s, t, nm) {
        assert NameSound(nm, s.names[nm], s.dirs, s.procs, s.labels);
        OwnedBefore(s, s.names[nm]);
        MainAdvances(s, t, s.names[nm]);
      }
    }
  }

  lemma InPlaceKept(s: State, t: State, q: Proc)
    requires q in s.runs && InPlace(s.runs[q], s.names) && RunSound(s.runs[q], q, s.dirs, s.procs, s.labels)
    requires forall nm | nm in s.names && nm.init == q :: NameKept(s, t, nm)
    ensures InPlace(s.runs[q], t.names)
  {
  }

  /** Names of other owners stay where they are. */
  lemma InPlaceCarried(s: State, t: State, p: Proc)
    requires Advances(s, t) && OnlyRun(s, t, p)
    requires RunsSound(s.runs, s.dirs, s.procs, s.labels) && OwnersInPlace(s.runs, s.alive, s.names)
    requires forall nm | nm in s.names && nm.init != p :: NameKept(s, t, nm)
    requires p in t.alive && !t.runs[p].removing ==> InPlace(t.runs[p], t.names)
    ensures OwnersInPlace(t.runs, t.alive, t.names)
  {
    forall q | q in t.runs && q in t.alive && !t.runs[q].removing ensures InPlace(t.runs[q], t.names) {
      if q != p {
        assert RunSound(s.runs[q], q, s.dirs, s.procs, s.labels);
        InPlaceKept(s, t, q);
      }
    }
  }

  /** Everything about frames, claims and deletions survives a step that only adds names. */
  lemma Carried(s: State, t: State)
    requires Inv(s) && Advances(s, t) && OnlyNewNames(s, t) && t.frames == s.frames && t.deleted == s.deleted
    requires forall nm | nm in t.names :: NameKept(s, t, nm) || (t.names[nm] >= |s.dirs| && !nm.Claim?)
    ensures FramesSound(t.frames, t.dirs, t.runs, t.alive)
    ensures FrameNamesSound(t.frames, t.names, t.dirs, t.runs, t.procs, t.labels)
    ensures ClaimsSound(t.names, t.dirs, t.runs, t.alive)
    ensures DeletedSound(t.deleted, t.names, t.dirs) && DeletedQuiet(t.deleted, t.dirs, t.runs, t.alive)
  {
    FramesAdvance(s, t, s.frames);
    FrameNamesAdvance(s, t, s.frames);
    ClaimsAdvance(s, t);
    DeletedAdvance(s, t);
  }

  /** A new directory of `p` under a new name of its own. */
  predicate DirectoryAdded(s: State, t: State, p: Proc, name: Name) {
    && name.n == s.labels && name.init == p && !name.Claim? && t.labels == s.labels + 1 && t.procs == s.procs
    && t.dirs == s.dirs + [Dir(p, None)] && t.names == s.names[name := |s.dirs|]
    && t.alive == s.alive && t.frames == s.frames && t.deleted == s.deleted
  }

  lemma DirectoryAddedNames(s: State, t: State, p: Proc, name: Name)
    requires DirectoryAdded(s, t, p, name) && NamesSound(s.names, s.dirs, s.procs, s.labels)
    ensures name !in s.names && NamesSound(t.names, t.dirs, t.procs, t.labels) && OnlyNewNames(s, t)
    ensures forall nm | nm in s.names :: NameKept(s, t, nm)
    ensures forall nm | nm in t.names :: nm == name || NameKept(s, t, nm)
  {
    assert name in s.names ==> NameSound(name, s.names[name], s.dirs, s.procs, s.labels);
    forall nm | nm in t.names ensures NameSound(nm, t.names[nm], t.dirs, t.procs, t.labels) {
      assert nm != name ==> NameSound(nm, s.names[nm], s.dirs, s.procs, s.labels);
    }
    forall a, b | a in t.names && b in t.names && t.names[a] == t.names[b] ensures a == b {
      assert a != name ==> NameSound(a, s.names[a], s.dirs, s.procs, s.labels);
      assert b != name ==> NameSound(b, s.names[b], s.dirs, s.procs, s.labels);
    }
  }

  lemma DirectoryAddedLeases(s: State, t: State, p: Proc, name: Name)
    requires Inv(s) && Advances(s, t) && DirectoryAdded(s, t, p, name) && OnlyRun(s, t, p)
    requires IsInitializing(name) <==> Main(t.dirs, t.runs, |s.dirs|)
    requires t.runs[p].stage.Initial? || NotAwaiting(t.runs[p], t.dirs)
    ensures LeasesSound(t.dirs, t.runs) && LeasedOncePublished(t.names, t.dirs, t.runs)
    ensures LeasedBeforePublished(t.names, t.dirs, t.runs)
  {
    DirectoryAddedNames(s, t, p, name);
    LeasesCarried(s, t);
    LeasedOnceCarried(s, t);
    LeasedBeforeCarried(s, t, p);
  }

  lemma DirectoryAddedKeepsInv(s: State, t: State, p: Proc, name: Name)
    requires Inv(s) && Advances(s, t) && DirectoryAdded(s, t, p, name) && OnlyRun(s, t, p)
    requires RunSound(t.runs[p], p, t.dirs, t.procs, t.labels)
    requires s.runs[p].supervisor == NoSupervisor && t.runs[p].supervisor == NoSupervisor
    requires IsInitializing(name) <==> Main(t.dirs, t.runs, |s.dirs|)
    requires t.runs[p].stage.Initial? || NotAwaiting(t.runs[p], t.dirs)
    requires t.runs[p].removing || p !in t.alive || InPlace(t.runs[p], t.names)
    ensures Inv(t)
  {
    DirectoryAddedNames(s, t, p, name);
    DirectoryAddedLeases(s, t, p, name);
    Carried(s, t);
    RunsCarried(s, t, p);
    UnstartedCarried(s, t, p);
    InPlaceCarried(s, t, p);
  }

  // ------------------------------------------------------------------------ runner steps

  lemma CreateInitialKeepsInv(s: State, p: Proc)
    requires Inv(s) && p in s.runs && p in s.alive && CreateInitialStep(s, p, s.runs[p]).Some?
    ensures var t := CreateInitialStep(s, p, s.runs[p]).value; Advances(s, t) && Inv(t)
  {
    var t := CreateInitialStep(s, p, s.runs[p]).value;
    assert RunSound(s.runs[p], p, s.dirs, s.procs, s.labels);
    AdvancesByRun(s, t, p);
    DirectoryAddedKeepsInv(s, t, p, Initializing(s.labels, p));
  }

  lemma ReserveRun(s: State, p: Proc)
    requires Inv(s) && p in s.runs && p in s.alive && ReserveStep(s, p, s.runs[p]).Some?
    ensures var t := ReserveStep(s, p, s.runs[p]).value;
      && s.runs[p].supervisor == NoSupervisor && RunSound(t.runs[p], p, t.dirs, t.procs, t.labels)
      && !Main(t.dirs, t.runs, |s.dirs|)
  {
    assert RunSound(s.runs[p], p, s.dirs, s.procs, s.labels);
  }

  lemma ReservePlace(s: State, p: Proc)
    requires Inv(s) && p in s.runs && p in s.alive && ReserveStep(s, p, s.runs[p]).Some?
    ensures var t := ReserveStep(s, p, s.runs[p]).value;
      NotAwaiting(t.runs[p], t.dirs) && (t.runs[p].removing || InPlace(t.runs[p], t.names))
  {
    var run := s.runs[p];
    assert RunSound(run, p, s.dirs, s.procs, s.labels) && InPlace(run, s.names);
    assert Stands(s.names, run.stage.name, run.ino);
  }

  lemma ReserveKeepsInv(s: State, p: Proc)
    requires Inv(s) && p in s.runs && p in s.alive && ReserveStep(s, p, s.runs[p]).Some?
    ensures var t := ReserveStep(s, p, s.runs[p]).value; Advances(s, t) && Inv(t)
  {
    var t := ReserveStep(s, p, s.runs[p]).value;
    ReserveRun(s, p);
    ReservePlace(s, p);
    AdvancesByRun(s, t, p);
    DirectoryAddedKeepsInv(s, t, p, RunName(s.labels, p));
  }

  lemma PublishLeaseAdvances(s: State, p: Proc)
    requires Inv(s) && p in s.runs && p in s.alive && PublishLeaseStep(s, p, s.runs[p]).Some?
    ensures var t := PublishLeaseStep(s, p, s.runs[p]).value;
      && Advances(s, t) && OnlyRun(s, t, p) && RunSound(t.runs[p], p, t.dirs, t.procs, t.labels)
      && s.runs[p].supervisor == NoSupervisor && InPlace(t.runs[p], t.names) && NotAwaiting(t.runs[p], t.dirs)
  {
    assert RunSound(s.runs[p], p, s.dirs, s.procs, s.labels);
    AdvancesByRun(s, PublishLeaseStep(s, p, s.runs[p]).value, p);
  }

  lemma PublishLeaseLeases(s: State, p: Proc)
    requires Inv(s) && p in s.runs && p in s.alive && PublishLeaseStep(s, p, s.runs[p]).Some?
    ensures var t := PublishLeaseStep(s, p, s.runs[p]).value;
      && LeasesSound(t.dirs, t.runs) && LeasedOncePublished(t.names, t.dirs, t.runs)
  {
    var t := PublishLeaseStep(s, p, s.runs[p]).value;
    PublishLeaseAdvances(s, p);
    assert RunSound(s.runs[p], p, s.dirs, s.procs, s.labels);
    forall d | 0 <= d < |t.dirs| ensures LeaseSound(t.dirs, t.runs, d) && (Main(t.dirs, t.runs, d) ==> Main(s.dirs, s.runs, d)) {
      assert LeaseSound(s.dirs, s.runs, d);
      OwnedBefore(s, d);
      MainAdvances(s, t, d);
    }
  }

  lemma PublishLeaseBefore(s: State, p: Proc)
    requires Inv(s) && p in s.runs && p in s.alive && PublishLeaseStep(s, p, s.runs[p]).Some?
    ensures var t := PublishLeaseStep(s, p, s.runs[p]).value; LeasedBeforePublished(t.names, t.dirs, t.runs)
  {
    var t := PublishLeaseStep(s, p, s.runs[p]).value;
    PublishLeaseAdvances(s, p);
    forall q | q in t.runs && AwaitsRename(t.runs[q], t.names)
      ensures t.runs[q].ino.value < |t.dirs| && t.dirs[t.runs[q].ino.value].lease.Some?
    {
      if q != p {
        assert Stands(s.names, s.runs[q].stage.name, s.runs[q].ino);
      }
    }
  }

  lemma PublishLeaseKeepsInv(s: State, p: Proc)
    requires Inv(s) && p in s.runs && p in s.alive && PublishLeaseStep(s, p, s.runs[p]).Some?
    ensures var t := PublishLeaseStep(s, p, s.runs[p]).value; Advances(s, t) && Inv(t)
  {
    var t := PublishLeaseStep(s, p, s.runs[p]).value;
    PublishLeaseAdvances(s, p);
    Carried(s, t);
    RunsCarried(s, t, p);
    UnstartedCarried(s, t, p);
    InPlaceCarried(s, t, p);
    PublishLeaseLeases(s, p);
    PublishLeaseBefore(s, p);
    forall nm | nm in t.names ensures NameSound(nm, t.names[nm], t.dirs, t.procs, t.labels) {
      assert NameSound(nm, s.names[nm], s.dirs, s.procs, s.labels);
    }
  }

  // The initialized directory takes the place of its reservation.

  lemma RenameFacts(s: State, p: Proc)
    requires Inv(s) && p in s.runs && p in s.alive && RenameStep(s, p, s.runs[p]).Some?
    ensures var run := s.runs[p]; var t := RenameStep(s, p, run).value;
      && run.ino.value < |s.dirs| && s.dirs[run.ino.value].lease.Some?
      && run.stage.reserved < |s.dirs| && run.stage.name != run.stage.dest
      && run.stage.name.init == p && run.stage.dest.init == p && run.stage.dest.RunName?
      && !Main(s.dirs, s.runs, run.stage.reserved) && run.supervisor == NoSupervisor
      && Advances(s, t) && OnlyRun(s, t, p) && RunSound(t.runs[p], p, t.dirs, t.procs, t.labels)
      && LeasesKept(s, t) && InPlace(t.runs[p], t.names) && StopSound(t.runs[p], t.alive)
  {
    var run := s.runs[p];
    assert RunSound(run, p, s.dirs, s.procs, s.labels);
    assert Stands(s.names, run.stage.name, run.ino);
    AdvancesByRun(s, RenameStep(s, p, run).value, p);
  }

  /** One rename: the directory under `a` is now under `b`, whatever stood there is gone. */
  function Moved(names: map<Name, Ino>, a: Name, b: Name): map<Name, Ino>
    requires a in names
  {
    (names - {a})[b := names[a]]
  }

  lemma MovedNames(names: map<Name, Ino>, a: Name, b: Name)
    requires Injective(names) && a in names && a != b
    ensures Injective(Moved(names, a, b)) && a !in Moved(names, a, b)
    ensures forall nm | nm in Moved(names, a, b) && nm != b :: nm in names && Moved(names, a, b)[nm] == names[nm]
    ensures forall nm | nm in names && nm != a && nm != b :: nm in Moved(names, a, b)
    ensures b in names ==> forall nm | nm in Moved(names, a, b) :: Moved(names, a, b)[nm] != names[b]
  {
  }

  lemma RenameNames(s: State, p: Proc)
    requires Inv(s) && p in s.runs && p in s.alive && RenameStep(s, p, s.runs[p]).Some?
    ensures var run := s.runs[p]; var t := RenameStep(s, p, run).value;
      && (forall nm | nm in t.names && nm != run.stage.dest :: NameKept(s, t, nm))
      && (forall nm | nm in t.names :: nm in s.names && t.names[nm] != run.stage.reserved)
      && (forall nm | nm in s.names && nm.init != p :: NameKept(s, t, nm))
      && NamesSound(t.names, t.dirs, t.procs, t.labels)
  {
    var run := s.runs[p];
    var t := RenameStep(s, p, run).value;
    RenameFacts(s, p);
    MovedNames(s.names, run.stage.name, run.stage.dest);
    assert t.names == Moved(s.names, run.stage.name, run.stage.dest);
    forall nm | nm in t.names ensures NameSound(nm, t.names[nm], t.dirs, t.procs, t.labels) {
      assert NameSound(nm, s.names[nm], s.dirs, s.procs, s.labels);
      assert NameSound(run.stage.name, s.names[run.stage.name], s.dirs, s.procs, s.labels);
    }
  }

  lemma RenameLeases(s: State, p: Proc)
    requires Inv(s) && p in s.runs && p in s.alive && RenameStep(s, p, s.runs[p]).Some?
    ensures var t := RenameStep(s, p, s.runs[p]).value; LeasedOncePublished(t.names, t.dirs, t.runs)
  {
    var t := RenameStep(s, p, s.runs[p]).value;
    RenameFacts(s, p);
    RenameNames(s, p);
    forall nm | nm in t.names && !IsInitializing(nm) && !IsDeleting(nm) && Main(t.dirs, t.runs, t.names[nm])
      ensures t.dirs[t.names[nm]].lease.Some?
    {
      if nm != s.runs[p].stage.dest {
        assert NameKept(s, t, nm) && NameSound(nm, s.names[nm], s.dirs, s.procs, s.labels);
        OwnedBefore(s, s.names[nm]);
        MainAdvances(s, t, s.names[nm]);
      }
    }
  }

  lemma RenameFrames(s: State, p: Proc)
    requires Inv(s) && p in s.runs && p in s.alive && RenameStep(s, p, s.runs[p]).Some?
    ensures var t := RenameStep(s, p, s.runs[p]).value;
      FrameNamesSound(t.frames, t.names, t.dirs, t.runs, t.procs, t.labels)
  {
    var run := s.runs[p];
    var t := RenameStep(s, p, run).value;
    RenameFacts(s, p);
    RenameNames(s, p);
    forall r | r in s.frames ensures FrameNameSound(s.frames[r], t.names, t.dirs, t.runs, t.procs, t.labels) {
      var f := s.frames[r];
      assert FrameNameSound(f, s.names, s.dirs, s.runs, s.procs, s.labels);
      OwnedBefore(s, f.expected);
      MainAdvances(s, t, f.expected);
      if f.name != run.stage.dest && f.name in t.names {
        assert NameKept(s, t, f.name);
      }
    }
  }

  lemma DeletedExtends(s: State, t: State, d: Ino)
    requires DeletedSound(s.deleted, s.names, s.dirs) && |s.dirs| <= |t.dirs| && d < |t.dirs|
    requires t.deleted == s.deleted + [d] && d in s.names.Values
    requires forall nm | nm in t.names :: t.names[nm] in s.names.Values && t.names[nm] != d
    ensures DeletedSound(t.deleted, t.names, t.dirs)
  {
    forall i | 0 <= i < |s.deleted| ensures s.deleted[i] != d && forall nm | nm in t.names :: t.names[nm] != s.deleted[i] {
    }
  }

  lemma RenameDeletes(s: State, p: Proc)
    requires Inv(s) && p in s.runs && p in s.alive && RenameStep(s, p, s.runs[p]).Some?
    ensures var t := RenameStep(s, p, s.runs[p]).value;
      DeletedSound(t.deleted, t.names, t.dirs) && DeletedQuiet(t.deleted, t.dirs, t.runs, t.alive)
  {
    var run := s.runs[p];
    var t := RenameStep(s, p, run).value;
    RenameFacts(s, p);
    RenameNames(s, p);
    DeletedAdvance(s, t);
    OwnedBefore(s, run.stage.reserved);
    MainAdvances(s, t, run.stage.reserved);
    assert s.names[run.stage.dest] == run.stage.reserved && s.names[run.stage.name] == run.ino.value;
    DeletedExtends(s, t, run.stage.reserved);
  }

  lemma RenameKeepsInv(s: State, p: Proc)
    requires Inv(s) && p in s.runs && p in s.alive && RenameStep(s, p, s.runs[p]).Some?
    ensures var t := RenameStep(s, p, s.runs[p]).value; Advances(s, t) && Inv(t)
  {
    var t := RenameStep(s, p, s.runs[p]).value;
    RenameFacts(s, p);
    RenameNames(s, p);
    RunsCarried(s, t, p);
    LeasesCarried(s, t);
    RenameLeases(s, p);
    LeasedBeforeCarried(s, t, p);
    UnstartedCarried(s, t, p);
    InPlaceCarried(s, t, p);
    ClaimsAdvance(s, t);
    FramesAdvance(s, t, s.frames);
    RenameFrames(s, p);
    RenameDeletes(s, p);
  }

  /** A published run changes its supervisor or begins its removal; the tree does not change. */
  lemma RunChangedKeepsInv(s: State, t: State, p: Proc)
    requires Inv(s) && Advances(s, t) && OnlyRun(s, t, p)
    requires t == s.(runs := t.runs, alive := t.alive, procs := t.procs) && AliveSound(t.alive, t.procs)
    requires t.runs[p] == s.runs[p].(supervisor := t.runs[p].supervisor, removing := t.runs[p].removing)
    requires s.runs[p].stage.Published?
    requires RunSound(t.runs[p], p, t.dirs, t.procs, t.labels) && StopSound(t.runs[p], t.alive)
    requires t.runs[p].supervisor == s.runs[p].supervisor
      || forall nm | nm in s.names && IsInitializing(nm) :: nm.init != p
    ensures Inv(t)
  {
    Carried(s, t);
    RunsCarried(s, t, p);
    LeasesCarried(s, t);
    LeasedOnceCarried(s, t);
    LeasedBeforeCarried(s, t, p);
    UnstartedCarried(s, t, p);
    assert p < s.procs;
    InPlaceCarried(s, t, p);
    forall nm | nm in t.names ensures NameSound(nm, t.names[nm], t.dirs, t.procs, t.labels) {
      assert NameSound(nm, s.names[nm], s.dirs, s.procs, s.labels);
    }
  }

  lemma StartSupervisorKeepsInv(s: State, p: Proc)
    requires Inv(s) && p in s.runs && p in s.alive && StartSupervisorStep(s, p, s.runs[p]).Some?
    ensures var t := StartSupervisorStep(s, p, s.runs[p]).value; Advances(s, t) && Inv(t)
  {
    var t := StartSupervisorStep(s, p, s.runs[p]).value;
    assert RunSound(s.runs[p], p, s.dirs, s.procs, s.labels);
    AdvancesByRun(s, t, p);
    forall nm | nm in s.names && IsInitializing(nm) ensures nm.init != p {
      assert NameSound(nm, s.names[nm], s.dirs, s.procs, s.labels);
      assert Stands(s.names, s.runs[p].stage.dest, s.runs[p].ino);
    }
    RunChangedKeepsInv(s, t, p);
  }

  /** A run with a supervisor has left its initializing name. */
  lemma SupervisedIsPublished(s: State, p: Proc)
    requires Inv(s) && p in s.runs && s.runs[p].supervisor != NoSupervisor
    ensures s.runs[p].stage.Published? && forall nm | nm in s.names && IsInitializing(nm) :: nm.init != p
    ensures RunSound(s.runs[p], p, s.dirs, s.procs, s.labels)
  {
    assert RunSound(s.runs[p], p, s.dirs, s.procs, s.labels);
  }

  lemma ExitKeepsInv(s: State, p: Proc, ok: bool)
    requires Inv(s) && SupervisorStep(s, p, Exit(ok)).Some?
    ensures var t := SupervisorStep(s, p, Exit(ok)).value; Advances(s, t) && Inv(t)
  {
    var t := SupervisorStep(s, p, Exit(ok)).value;
    SupervisedIsPublished(s, p);
    AdvancesByRun(s, t, p);
    RunChangedKeepsInv(s, t, p);
  }

  lemma SpawnAdvances(s: State, p: Proc)
    requires Inv(s) && SupervisorStep(s, p, SpawnAnvil).Some?
    ensures Advances(s, SupervisorStep(s, p, SpawnAnvil).value)
  {
    var t := SupervisorStep(s, p, SpawnAnvil).value;
    forall q | q in s.runs ensures q in t.runs && RunAdvances(s.runs[q], t.runs[q], q, s.alive, t.alive) {
      assert RunSound(s.runs[q], q, s.dirs, s.procs, s.labels);
    }
  }

  lemma SpawnKeepsInv(s: State, p: Proc)
    requires Inv(s) && SupervisorStep(s, p, SpawnAnvil).Some?
    ensures var t := SupervisorStep(s, p, SpawnAnvil).value; Advances(s, t) && Inv(t)
  {
    SpawnAdvances(s, p);
    SupervisedIsPublished(s, p);
    RunChangedKeepsInv(s, SupervisorStep(s, p, SpawnAnvil).value, p);
  }

  lemma RegisterAdvances(s: State, p: Proc)
    requires Inv(s) && SupervisorStep(s, p, Register).Some?
    ensures var t := SupervisorStep(s, p, Register).value; var d := s.names[s.runs[p].stage.dest];
      && Advances(s, t) && t.runs == s.runs && d < |s.dirs| && s.dirs[d].lease.Some?
      && t == s.(dirs := s.dirs[d := Dir(p, Some(Lease(p, s.runs[p].supervisor.spawned)))])
      && s.dirs[d].owner == p && Main(s.dirs, s.runs, d)
  {
    var t := SupervisorStep(s, p, Register).value;
    SupervisedIsPublished(s, p);
    var d := s.names[s.runs[p].stage.dest];
    assert NameSound(s.runs[p].stage.dest, d, s.dirs, s.procs, s.labels) && LeaseSound(s.dirs, s.runs, d);
    AdvancesByRun(s, t, p);
  }

  lemma RegisterKeepsInv(s: State, p: Proc)
    requires Inv(s) && SupervisorStep(s, p, Register).Some?
    ensures var t := SupervisorStep(s, p, Register).value; Advances(s, t) && Inv(t)
  {
    var t := SupervisorStep(s, p, Register).value;
    RegisterAdvances(s, p);
    Carried(s, t);
    DirsRewritten(s, t);
    forall d | 0 <= d < |t.dirs| ensures LeaseSound(t.dirs, t.runs, d) {
      assert LeaseSound(s.dirs, s.runs, d);
    }
  }

  /** Rewriting leases in place leaves all owners as they are. */
  lemma DirsRewritten(s: State, t: State)
    requires Inv(s) && t == s.(dirs := t.dirs) && |t.dirs| == |s.dirs|
    requires forall d | 0 <= d < |s.dirs| :: t.dirs[d].owner == s.dirs[d].owner
    requires forall d | 0 <= d < |s.dirs| && s.dirs[d].lease.Some? && t.dirs[d].lease.None? ::
      forall nm | nm in s.names && s.names[nm] == d :: IsDeleting(nm)
    ensures NamesSound(t.names, t.dirs, t.procs, t.labels) && RunsSound(t.runs, t.dirs, t.procs, t.labels)
    ensures LeasedOncePublished(t.names, t.dirs, t.runs) && LeasedBeforePublished(t.names, t.dirs, t.runs)
    ensures UnstartedWhileInitializing(t.names, t.dirs, t.runs)
  {
    forall nm | nm in t.names
      ensures NameSound(nm, t.names[nm], t.dirs, t.procs, t.labels)
      ensures Main(t.dirs, t.runs, t.names[nm]) <==> Main(s.dirs, s.runs, s.names[nm])
    {
      assert NameSound(nm, s.names[nm], s.dirs, s.procs, s.labels);
    }
    forall q | q in t.runs ensures RunSound(t.runs[q], q, t.dirs, t.procs, t.labels) {
      assert RunSound(s.runs[q], q, s.dirs, s.procs, s.labels);
    }
    forall q | q in t.runs && AwaitsRename(t.runs[q], t.names)
      ensures t.runs[q].ino.value < |t.dirs| && t.dirs[t.runs[q].ino.value].lease.Some?
    {
      assert RunSound(s.runs[q], q, s.dirs, s.procs, s.labels);
      assert Stands(s.names, s.runs[q].stage.name, s.runs[q].ino);
    }
  }

  // ------------------------------------------------------------- reclaimers and removers

  /** Nothing but the frame of `r` changed. */
  lemma FrameChangedKeepsInv(s: State, t: State, r: Proc)
    requires Inv(s) && t == s.(frames := t.frames) && r in t.frames && t.frames == s.frames[r := t.frames[r]]
    requires FrameNameSound(t.frames[r], s.names, s.dirs, s.runs, s.procs, s.labels)
    requires FrameSound(r, t.frames[r], s.dirs, s.runs, s.alive)
    ensures Advances(s, t) && Inv(t)
  {
  }

  lemma ListKeepsInv(s: State, r: Proc, name: Name)
    requires Inv(s) && ReclaimStep(s, r, List(name)).Some?
    ensures var t := ReclaimStep(s, r, List(name)).value; Advances(s, t) && Inv(t)
  {
    assert NameSound(name, s.names[name], s.dirs, s.procs, s.labels);
    FrameChangedKeepsInv(s, ReclaimStep(s, r, List(name)).value, r);
  }

  lemma CheckClaimantSound(s: State, r: Proc)
    requires Inv(s) && r in s.frames && FrameStep(s, r, s.frames[r], CheckClaimant).Some?
    ensures var t := FrameStep(s, r, s.frames[r], CheckClaimant).value; Advances(s, t) && Inv(t)
  {
    var f := s.frames[r];
    assert FrameNameSound(f, s.names, s.dirs, s.runs, s.procs, s.labels) && FrameSound(r, f, s.dirs, s.runs, s.alive);
    FrameChangedKeepsInv(s, FrameStep(s, r, f, CheckClaimant).value, r);
  }

  lemma CheckInitializerSound(s: State, r: Proc)
    requires Inv(s) && r in s.frames && FrameStep(s, r, s.frames[r], CheckInitializer).Some?
    ensures var t := FrameStep(s, r, s.frames[r], CheckInitializer).value; Advances(s, t) && Inv(t)
  {
    var f := s.frames[r];
    assert FrameNameSound(f, s.names, s.dirs, s.runs, s.procs, s.labels) && FrameSound(r, f, s.dirs, s.runs, s.alive);
    FrameChangedKeepsInv(s, FrameStep(s, r, f, CheckInitializer).value, r);
  }

  lemma ReadLeaseSound(s: State, r: Proc)
    requires Inv(s) && r in s.frames && FrameStep(s, r, s.frames[r], ReadLease).Some?
    ensures var t := FrameStep(s, r, s.frames[r], ReadLease).value; Advances(s, t) && Inv(t)
  {
    var f := s.frames[r];
    var d := s.names[f.name];
    assert FrameNameSound(f, s.names, s.dirs, s.runs, s.procs, s.labels) && FrameSound(r, f, s.dirs, s.runs, s.alive);
    assert NameSound(f.name, d, s.dirs, s.procs, s.labels) && LeaseSound(s.dirs, s.runs, d);
    FrameChangedKeepsInv(s, FrameStep(s, r, f, ReadLease).value, r);
  }

  lemma CheckRunnerSound(s: State, r: Proc)
    requires Inv(s) && r in s.frames && FrameStep(s, r, s.frames[r], CheckRunner).Some?
    ensures var t := FrameStep(s, r, s.frames[r], CheckRunner).value; Advances(s, t) && Inv(t)
  {
    var f := s.frames[r];
    assert FrameNameSound(f, s.names, s.dirs, s.runs, s.procs, s.labels) && FrameSound(r, f, s.dirs, s.runs, s.alive);
    FrameChangedKeepsInv(s, FrameStep(s, r, f, CheckRunner).value, r);
  }

  lemma CheckAnvilSound(s: State, r: Proc)
    requires Inv(s) && r in s.frames && FrameStep(s, r, s.frames[r], CheckAnvil).Some?
    ensures var t := FrameStep(s, r, s.frames[r], CheckAnvil).value; Advances(s, t) && Inv(t)
  {
    var f := s.frames[r];
    assert FrameNameSound(f, s.names, s.dirs, s.runs, s.procs, s.labels) && FrameSound(r, f, s.dirs, s.runs, s.alive);
    FrameChangedKeepsInv(s, FrameStep(s, r, f, CheckAnvil).value, r);
  }

  lemma ConfirmSound(s: State, r: Proc)
    requires Inv(s) && r in s.frames && FrameStep(s, r, s.frames[r], Confirm).Some?
    ensures var t := FrameStep(s, r, s.frames[r], Confirm).value; Advances(s, t) && Inv(t)
  {
    var f := s.frames[r];
    assert FrameNameSound(f, s.names, s.dirs, s.runs, s.procs, s.labels) && FrameSound(r, f, s.dirs, s.runs, s.alive);
    FrameChangedKeepsInv(s, FrameStep(s, r, f, Confirm).value, r);
  }

  lemma BeginRemoveRun(s: State, p: Proc)
    requires Inv(s) && p in s.runs && p in s.alive && BeginRemoveStep(s, p, s.runs[p]).Some?
    ensures var t := BeginRemoveStep(s, p, s.runs[p]).value; var u := t.(frames := s.frames); Advances(s, u) && Inv(u)
  {
    var run := s.runs[p];
    var u := BeginRemoveStep(s, p, run).value.(frames := s.frames);
    assert RunSound(run, p, s.dirs, s.procs, s.labels) && StopSound(run, s.alive);
    AdvancesByRun(s, u, p);
    RunChangedKeepsInv(s, u, p);
  }

  lemma BeginRemoveFrame(s: State, p: Proc)
    requires Inv(s) && p in s.runs && p in s.alive && BeginRemoveStep(s, p, s.runs[p]).Some?
    ensures var t := BeginRemoveStep(s, p, s.runs[p]).value;
      && p in t.frames && t.frames == s.frames[p := t.frames[p]]
      && FrameNameSound(t.frames[p], t.names, t.dirs, t.runs, t.procs, t.labels)
      && FrameSound(p, t.frames[p], t.dirs, t.runs, t.alive)
  {
    var run := s.runs[p];
    var dest := run.stage.dest;
    assert RunSound(run, p, s.dirs, s.procs, s.labels) && StopSound(run, s.alive);
    assert NameSound(dest, s.names[dest], s.dirs, s.procs, s.labels);
  }

  lemma BeginRemoveKeepsInv(s: State, p: Proc)
    requires Inv(s) && p in s.runs && p in s.alive && BeginRemoveStep(s, p, s.runs[p]).Some?
    ensures var t := BeginRemoveStep(s, p, s.runs[p]).value; Advances(s, t) && Inv(t)
  {
    var t := BeginRemoveStep(s, p, s.runs[p]).value;
    BeginRemoveRun(s, p);
    BeginRemoveFrame(s, p);
    FrameChangedKeepsInv(t.(frames := s.frames), t, p);
  }

  /** `t` is `s` with the directory of `f` renamed to a claim of `r`; the frames follow. */
  predicate ClaimedBy(s: State, t: State, r: Proc, f: Frame, claim: Name) {
    && f.name in s.names && claim.Claim? && claim.n == s.labels && claim.ino == f.expected && claim.claimant == r
    && claim.initializing == IsInitializing(f.name) && claim.init == f.name.init
    && t == Renamed(s, f.name, claim).(frames := t.frames)
  }

  lemma ClaimedNames(s: State, t: State, r: Proc, f: Frame, claim: Name)
    requires Inv(s) && r < s.procs && ClaimedBy(s, t, r, f, claim)
    ensures Advances(s, t) && claim !in s.names && NamesSound(t.names, t.dirs, t.procs, t.labels)
    ensures forall nm | nm in t.names && nm != claim :: NameKept(s, t, nm)
    ensures forall nm | nm in s.names && nm != f.name :: NameKept(s, t, nm)
    ensures f.name !in t.names && t.names[claim] == s.names[f.name] && f.name.init in s.runs && f.name.init < s.procs
  {
    assert NameSound(f.name, s.names[f.name], s.dirs, s.procs, s.labels);
    OwnedBefore(s, s.names[f.name]);
    assert claim in s.names ==> NameSound(claim, s.names[claim], s.dirs, s.procs, s.labels);
    MovedNames(s.names, f.name, claim);
    assert t.names == Moved(s.names, f.name, claim);
    AdvancesByRun(s, t, f.name.init);
    forall nm | nm in t.names ensures NameSound(nm, t.names[nm], t.dirs, t.procs, t.labels) {
      assert nm != claim ==> NameSound(nm, s.names[nm], s.dirs, s.procs, s.labels);
    }
  }

  lemma ClaimedFrames(s: State, t: State, r: Proc, f: Frame, claim: Name)
    requires Inv(s) && r < s.procs && ClaimedBy(s, t, r, f, claim) && t.frames == s.frames - {r}
    ensures FrameNamesSound(t.frames, t.names, t.dirs, t.runs, t.procs, t.labels)
    ensures FramesSound(t.frames, t.dirs, t.runs, t.alive)
  {
    ClaimedNames(s, t, r, f, claim);
    FramesAdvance(s, t, t.frames);
    FrameNamesAdvance(s, t, t.frames);
  }

  lemma ClaimedClaims(s: State, t: State, r: Proc, f: Frame, claim: Name)
    requires Inv(s) && r < s.procs && ClaimedBy(s, t, r, f, claim)
    requires MayDelete(s.dirs, s.runs, s.alive, f.name.init, r, f.expected)
    ensures ClaimsSound(t.names, t.dirs, t.runs, t.alive) && DeletedSound(t.deleted, t.names, t.dirs)
  {
    ClaimedNames(s, t, r, f, claim);
    forall nm | nm in t.names && nm.Claim? && t.names[nm] == nm.ino
      ensures Quiet(t.dirs, t.runs, t.alive, nm.ino) && GoneOrSelf(t.runs, t.alive, nm.init, nm.claimant)
    {
      assert nm != claim ==> NameKept(s, t, nm);
    }
    forall i | 0 <= i < |t.deleted| ensures forall nm | nm in t.names :: t.names[nm] != t.deleted[i] {
      assert s.names[f.name] != s.deleted[i];
    }
  }

  lemma ClaimedLeases(s: State, t: State, r: Proc, f: Frame, claim: Name)
    requires Inv(s) && r < s.procs && ClaimedBy(s, t, r, f, claim)
    requires claim.deleting || !IsDeleting(f.name)
    ensures LeasedOncePublished(t.names, t.dirs, t.runs) && LeasedBeforePublished(t.names, t.dirs, t.runs)
    ensures UnstartedWhileInitializing(t.names, t.dirs, t.runs)
  {
    ClaimedNames(s, t, r, f, claim);
    LeasedBeforeCarried(s, t, f.name.init);
    forall nm | nm in t.names && nm != claim ensures nm in s.names && t.names[nm] == s.names[nm] {
      assert NameKept(s, t, nm);
    }
  }

  lemma ClaimedPlaces(s: State, t: State, r: Proc, f: Frame, claim: Name)
    requires Inv(s) && r < s.procs && ClaimedBy(s, t, r, f, claim)
    requires MayDelete(s.dirs, s.runs, s.alive, f.name.init, r, f.expected)
    ensures OwnersInPlace(t.runs, t.alive, t.names) && DeletedQuiet(t.deleted, t.dirs, t.runs, t.alive)
  {
    ClaimedNames(s, t, r, f, claim);
    InPlaceCarried(s, t, f.name.init);
  }

  lemma ClaimedKeepsInv(s: State, t: State, r: Proc, f: Frame, claim: Name)
    requires Inv(s) && r < s.procs && ClaimedBy(s, t, r, f, claim) && t.frames == s.frames - {r}
    requires MayDelete(s.dirs, s.runs, s.alive, f.name.init, r, f.expected)
    requires claim.deleting || !IsDeleting(f.name)
    ensures Advances(s, t) && Inv(t)
  {
    ClaimedNames(s, t, r, f, claim);
    ClaimedFrames(s, t, r, f, claim);
    ClaimedClaims(s, t, r, f, claim);
    ClaimedLeases(s, t, r, f, claim);
    ClaimedPlaces(s, t, r, f, claim);
  }

  lemma ClaimItKeepsInv(s: State, r: Proc)
    requires Inv(s) && r in s.alive && r in s.frames && FrameStep(s, r, s.frames[r], ClaimIt).Some?
    ensures var t := FrameStep(s, r, s.frames[r], ClaimIt).value; Advances(s, t) && Inv(t)
  {
    var f := s.frames[r];
    assert FrameNameSound(f, s.names, s.dirs, s.runs, s.procs, s.labels) && FrameSound(r, f, s.dirs, s.runs, s.alive);
    var t := FrameStep(s, r, f, ClaimIt).value;
    var claim := Claim(s.labels, f.expected, r, false, IsInitializing(f.name), f.name.init);
    var u := t.(frames := s.frames - {r});
    ClaimedKeepsInv(s, u, r, f, claim);
    if s.names[f.name] == f.expected {
      FrameTakenUp(s, u, t, r);
    }
  }

  /** A frame put back after its claim. */
  lemma FrameTakenUp(s: State, u: State, t: State, r: Proc)
    requires Inv(u) && Advances(s, u) && t == u.(frames := t.frames) && r in t.frames
    requires u.frames == s.frames - {r} && t.frames == s.frames[r := t.frames[r]]
    requires FrameNameSound(t.frames[r], u.names, u.dirs, u.runs, u.procs, u.labels)
    requires FrameSound(r, t.frames[r], u.dirs, u.runs, u.alive)
    ensures Advances(s, t) && Inv(t)
  {
    assert t.frames == u.frames[r := t.frames[r]];
    FrameChangedKeepsInv(u, t, r);
  }

  lemma RenameToDeleteKeepsInv(s: State, r: Proc)
    requires Inv(s) && r in s.alive && r in s.frames && FrameStep(s, r, s.frames[r], RenameToDelete).Some?
    ensures var t := FrameStep(s, r, s.frames[r], RenameToDelete).value; Advances(s, t) && Inv(t)
  {
    var f := s.frames[r];
    assert FrameNameSound(f, s.names, s.dirs, s.runs, s.procs, s.labels) && FrameSound(r, f, s.dirs, s.runs, s.alive);
    var t := FrameStep(s, r, f, RenameToDelete).value;
    var claim := Claim(s.labels, f.expected, r, true, IsInitializing(f.name), f.name.init);
    var u := t.(frames := s.frames - {r});
    ClaimedKeepsInv(s, u, r, f, claim);
    FrameTakenUp(s, u, t, r);
  }

  lemma ContentsRemoved(s: State, t: State, nm: Name)
    requires Inv(s) && nm in s.names && IsDeleting(nm) && s.names[nm] < |s.dirs|
    requires t == WithLease(s, s.names[nm], None)
    ensures Advances(s, t) && LeasesSound(t.dirs, t.runs)
    ensures forall d | 0 <= d < |s.dirs| && s.dirs[d].lease.Some? && t.dirs[d].lease.None? :: d == s.names[nm]
  {
    OwnedBefore(s, s.names[nm]);
    AdvancesByRun(s, t, s.dirs[s.names[nm]].owner);
    forall e | 0 <= e < |t.dirs| ensures LeaseSound(t.dirs, t.runs, e) {
      assert LeaseSound(s.dirs, s.runs, e);
    }
  }

  lemma RemoveContentsKeepsInv(s: State, r: Proc)
    requires Inv(s) && r in s.frames && FrameStep(s, r, s.frames[r], RemoveContents).Some?
    ensures var t := FrameStep(s, r, s.frames[r], RemoveContents).value; Advances(s, t) && Inv(t)
  {
    var f := s.frames[r];
    var t := FrameStep(s, r, f, RemoveContents).value;
    assert FrameSound(r, f, s.dirs, s.runs, s.alive);
    ContentsRemoved(s, t, f.name);
    Carried(s, t);
    DirsRewritten(s, t);
  }

  lemma DirectoryRemoved(s: State, t: State, r: Proc, f: Frame)
    requires Inv(s) && f.name in s.names && s.names[f.name] == f.expected && f.name.Claim?
    requires MayDelete(s.dirs, s.runs, s.alive, f.name.init, r, f.expected)
    requires t == s.(names := s.names - {f.name}, deleted := s.deleted + [f.expected], frames := s.frames - {r})
    ensures Advances(s, t) && OwnersInPlace(t.runs, t.alive, t.names)
    ensures DeletedSound(t.deleted, t.names, t.dirs) && DeletedQuiet(t.deleted, t.dirs, t.runs, t.alive)
  {
    assert NameSound(f.name, f.expected, s.dirs, s.procs, s.labels);
    OwnedBefore(s, f.expected);
    AdvancesByRun(s, t, f.name.init);
    RemovedNames(s, t, r, f);
    DeletedExtends(s, t, f.expected);
    InPlaceCarried(s, t, f.name.init);
  }

  lemma RemoveDirectoryKeepsInv(s: State, r: Proc)
    requires Inv(s) && r in s.frames && FrameStep(s, r, s.frames[r], RemoveDirectory).Some?
    ensures var t := FrameStep(s, r, s.frames[r], RemoveDirectory).value; Advances(s, t) && Inv(t)
  {
    var f := s.frames[r];
    var t := FrameStep(s, r, f, RemoveDirectory).value;
    assert FrameNameSound(f, s.names, s.dirs, s.runs, s.procs, s.labels) && FrameSound(r, f, s.dirs, s.runs, s.alive);
    DirectoryRemoved(s, t, r, f);
    RemovedNames(s, t, r, f);
  }

  lemma RemovedNames(s: State, t: State, r: Proc, f: Frame)
    requires Inv(s) && Advances(s, t) && f.name in s.names && s.names[f.name] == f.expected && f.name.Claim?
    requires t == s.(names := s.names - {f.name}, deleted := t.deleted, frames := s.frames - {r})
    ensures forall nm | nm in t.names :: NameKept(s, t, nm) && t.names[nm] in s.names.Values && t.names[nm] != f.expected
    ensures NamesSound(t.names, t.dirs, t.procs, t.labels) && LeasedOncePublished(t.names, t.dirs, t.runs)
    ensures LeasedBeforePublished(t.names, t.dirs, t.runs) && UnstartedWhileInitializing(t.names, t.dirs, t.runs)
    ensures FrameNamesSound(t.frames, t.names, t.dirs, t.runs, t.procs, t.labels)
    ensures FramesSound(t.frames, t.dirs, t.runs, t.alive) && ClaimsSound(t.names, t.dirs, t.runs, t.alive)
  {
    FrameNamesAdvance(s, t, t.frames);
  }
}

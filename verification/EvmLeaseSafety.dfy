/**
  What the lease protocol promises over every interleaving of runners, supervisors and reclaimers.
*/
module EvmLeaseSafety {
  import opened Wrappers
  import opened EvmLease

  /** The steps of the runs this repository starts; the exported provisional route is apart. */
  predicate InProtocol(e: Event) {
    e.ByRunner? ==> e.r != CreateProvisional
  }

  lemma RunnerStepKeepsInv(s: State, p: Proc, e: RunnerEvent)
    requires Inv(s) && e != CreateProvisional && RunnerStep(s, p, e).Some?
    ensures Advances(s, RunnerStep(s, p, e).value) && Inv(RunnerStep(s, p, e).value)
  {
    match e
    case CreateInitial => CreateInitialKeepsInv(s, p);
    case PublishLease => PublishLeaseKeepsInv(s, p);
    case Reserve => ReserveKeepsInv(s, p);
    case Rename => RenameKeepsInv(s, p);
    case StartSupervisor => StartSupervisorKeepsInv(s, p);
    case BeginRemove => BeginRemoveKeepsInv(s, p);
  }

  lemma SupervisorStepKeepsInv(s: State, p: Proc, e: SupervisorEvent)
    requires Inv(s) && SupervisorStep(s, p, e).Some?
    ensures Advances(s, SupervisorStep(s, p, e).value) && Inv(SupervisorStep(s, p, e).value)
  {
    match e
    case SpawnAnvil => SpawnKeepsInv(s, p);
    case Register => RegisterKeepsInv(s, p);
    case Exit(ok) => ExitKeepsInv(s, p, ok);
  }

  lemma FrameStepKeepsInv(s: State, r: Proc, e: ReclaimEvent)
    requires Inv(s) && r in s.alive && r in s.frames && FrameStep(s, r, s.frames[r], e).Some?
    ensures Advances(s, FrameStep(s, r, s.frames[r], e).value) && Inv(FrameStep(s, r, s.frames[r], e).value)
  {
    match e
    case CheckClaimant => CheckClaimantSound(s, r);
    case CheckInitializer => CheckInitializerSound(s, r);
    case ReadLease => ReadLeaseSound(s, r);
    case CheckRunner => CheckRunnerSound(s, r);
    case CheckAnvil => CheckAnvilSound(s, r);
    case ClaimIt => ClaimItKeepsInv(s, r);
    case Confirm => ConfirmSound(s, r);
    case RenameToDelete => RenameToDeleteKeepsInv(s, r);
    case RemoveContents => RemoveContentsKeepsInv(s, r);
    case RemoveDirectory => RemoveDirectoryKeepsInv(s, r);
  }

  lemma GiveUpKeepsInv(s: State, r: Proc)
    requires Inv(s)
    ensures Advances(s, s.(frames := s.frames - {r})) && Inv(s.(frames := s.frames - {r}))
  {
  }

  lemma StepKeepsInv(s: State, e: Event)
    requires Inv(s) && InProtocol(e) && Step(s, e).Some?
    ensures Advances(s, Step(s, e).value) && Inv(Step(s, e).value)
  {
    match e
    case NewProcess(runner) => BirthAdvances(s, runner); BirthKeepsInv(s, runner);
    case Dies(p) => DeathKeepsInv(s, p);
    case ByRunner(p, r) => RunnerStepKeepsInv(s, p, r);
    case BySupervisorOf(p, v) => SupervisorStepKeepsInv(s, p, v);
    case ByReclaimer(r, c) =>
      if c.List? {
        ListKeepsInv(s, r, c.name);
      } else if c.GiveUp? {
        GiveUpKeepsInv(s, r);
      } else {
        FrameStepKeepsInv(s, r, c);
      }
  }

  lemma {:induction false} RunKeepsInv(s: State, events: seq<Event>)
    requires Inv(s) && RunEvents(s, events).Some?
    requires forall i | 0 <= i < |events| :: InProtocol(events[i])
    ensures Inv(RunEvents(s, events).value)
    decreases |events|
  {
    if events != [] {
      StepKeepsInv(s, events[0]);
      RunKeepsInv(Step(s, events[0]).value, events[1..]);
    }
  }

  /** The state after `events`, all of this protocol. */
  predicate Reaches(events: seq<Event>, s: State) {
    && RunEvents(EMPTY, events) == Some(s)
    && forall i | 0 <= i < |events| :: InProtocol(events[i])
  }

  lemma ReachedKeepsInv(events: seq<Event>, s: State)
    requires Reaches(events, s)
    ensures Inv(s)
  {
    RunKeepsInv(EMPTY, events);
  }

  /** No process of the run in `d` is alive as its Anvil. */
  predicate NoLiveAnvil(s: State, d: Ino) {
    Main(s.dirs, s.runs, d) ==>
      var spawned := Spawned(s.runs[s.dirs[d].owner].supervisor);
      spawned.Some? ==> spawned.value !in s.alive
  }

  /** `d` is an empty reservation of its owner `p`. */
  predicate EmptyReservation(s: State, d: Ino, p: Proc) {
    d < |s.dirs| && s.dirs[d].owner == p && s.dirs[d].lease.None? && !Main(s.dirs, s.runs, d)
  }

  lemma WhatDeletes(s: State, e: Event)
    requires Step(s, e).Some? && Step(s, e).value.deleted != s.deleted
    ensures var deleted := Step(s, e).value.deleted;
      if e.ByRunner? then
        && e.r.Rename? && e.p in s.alive && e.p in s.runs && RenameStep(s, e.p, s.runs[e.p]).Some?
        && deleted == s.deleted + [s.runs[e.p].stage.reserved]
      else
        && e.ByReclaimer? && e.c.RemoveDirectory? && e.p in s.frames && s.frames[e.p].Deleting?
        && s.frames[e.p].name in s.names && deleted == s.deleted + [s.names[s.frames[e.p].name]]
  {
  }

  /**
    A step deletes at most one directory, never one deleted before: the runner's own empty
    reservation, or a run directory without a living Anvil whose owner is dead or is the remover.
  */
  lemma DeletionIsSafe(events: seq<Event>, s: State, e: Event)
    requires Reaches(events, s) && InProtocol(e) && Step(s, e).Some?
    requires Step(s, e).value.deleted != s.deleted
    ensures var deleted := Step(s, e).value.deleted;
      && |deleted| == |s.deleted| + 1 && deleted[..|s.deleted|] == s.deleted
      && var d := deleted[|s.deleted|];
      && d !in s.deleted && d < |s.dirs|
      && (if e.ByRunner? then e.r.Rename? && EmptyReservation(s, d, e.p)
          else
            && e.ByReclaimer? && e.c.RemoveDirectory? && NoLiveAnvil(s, d)
            && (s.dirs[d].owner !in s.alive || s.dirs[d].owner == e.p))
  {
    ReachedKeepsInv(events, s);
    WhatDeletes(s, e);
    if e.ByRunner? {
      OwnReservation(s, e.p);
    } else {
      RemovedIsSafe(s, e.p);
    }
  }

  /**
    Deletion begins with the contents. The step that empties a directory already finds it without a
    living Anvil, its owner dead or the remover, and it takes no other lease away.
  */
  lemma EmptyingIsSafe(events: seq<Event>, s: State, r: Proc)
    requires Reaches(events, s) && Step(s, ByReclaimer(r, RemoveContents)).Some?
    ensures r in s.frames && s.frames[r].name in s.names
    ensures var d := s.names[s.frames[r].name]; var t := Step(s, ByReclaimer(r, RemoveContents)).value;
      && d !in s.deleted && d < |s.dirs| == |t.dirs| && NoLiveAnvil(s, d)
      && (s.dirs[d].owner !in s.alive || s.dirs[d].owner == r)
      && forall other | 0 <= other < |s.dirs| && other != d :: t.dirs[other] == s.dirs[other]
  {
    ReachedKeepsInv(events, s);
    RemovedIsSafe(s, r);
  }

  /** Nothing else takes a lease away. */
  lemma LeaseEndsByEmptying(events: seq<Event>, s: State, e: Event, d: Ino)
    requires Reaches(events, s) && InProtocol(e) && Step(s, e).Some? && d < |s.dirs|
    requires s.dirs[d].lease.Some? && (|Step(s, e).value.dirs| <= d || Step(s, e).value.dirs[d].lease.None?)
    ensures e.ByReclaimer? && e.c == RemoveContents && NoLiveAnvil(s, d)
    ensures s.dirs[d].owner !in s.alive || s.dirs[d].owner == e.p
  {
    ReachedKeepsInv(events, s);
    WhatEndsLeases(s, e, d);
    RemovedIsSafe(s, e.p);
  }

  lemma WhatEndsLeases(s: State, e: Event, d: Ino)
    requires Step(s, e).Some? && d < |s.dirs|
    requires s.dirs[d].lease.Some? && (|Step(s, e).value.dirs| <= d || Step(s, e).value.dirs[d].lease.None?)
    ensures e.ByReclaimer? && e.c == RemoveContents && e.p in s.frames && s.frames[e.p].Deleting?
    ensures s.frames[e.p].name in s.names && s.names[s.frames[e.p].name] == d
  {
  }

  lemma OwnReservation(s: State, p: Proc)
    requires Inv(s) && p in s.runs && p in s.alive && RenameStep(s, p, s.runs[p]).Some?
    ensures var d := s.runs[p].stage.reserved; d !in s.deleted && EmptyReservation(s, d, p)
  {
    var d := s.runs[p].stage.reserved;
    RenameFacts(s, p);
    assert RunSound(s.runs[p], p, s.dirs, s.procs, s.labels);
    assert LeaseSound(s.dirs, s.runs, d);
    assert s.names[s.runs[p].stage.dest] == d;
  }

  lemma RemovedIsSafe(s: State, r: Proc)
    requires Inv(s) && r in s.frames && s.frames[r].Deleting? && s.frames[r].name in s.names
    ensures var d := s.names[s.frames[r].name];
      && d < |s.dirs| && d !in s.deleted && NoLiveAnvil(s, d)
      && (s.dirs[d].owner !in s.alive || s.dirs[d].owner == r)
  {
    var f := s.frames[r];
    assert FrameNameSound(f, s.names, s.dirs, s.runs, s.procs, s.labels) && FrameSound(r, f, s.dirs, s.runs, s.alive);
    assert NameSound(f.name, f.expected, s.dirs, s.procs, s.labels);
  }

  /** No directory is deleted twice or still has a name, and no Anvil of it is alive or spawned later. */
  lemma DeletedOnceAndSilent(events: seq<Event>, s: State)
    requires Reaches(events, s)
    ensures forall i, j | 0 <= i < j < |s.deleted| :: s.deleted[i] != s.deleted[j]
    ensures forall i, nm | 0 <= i < |s.deleted| && nm in s.names :: s.names[nm] != s.deleted[i]
    ensures forall i | 0 <= i < |s.deleted| :: NoLiveAnvil(s, s.deleted[i])
  {
    ReachedKeepsInv(events, s);
    forall i | 0 <= i < |s.deleted| ensures NoLiveAnvil(s, s.deleted[i]) {
      assert Quiet(s.dirs, s.runs, s.alive, s.deleted[i]);
    }
  }

  /** A living runner that has not begun its removal finds its published directory, with its own lease. */
  lemma LivingRunnerKeepsDirectory(events: seq<Event>, s: State, p: Proc)
    requires Reaches(events, s) && p in s.runs && p in s.alive && s.runs[p].stage.Published? && !s.runs[p].removing
    ensures Stands(s.names, s.runs[p].stage.dest, s.runs[p].ino)
    ensures LeaseAt(s, s.runs[p].stage.dest).Some? && LeaseAt(s, s.runs[p].stage.dest).value.runner == p
  {
    ReachedKeepsInv(events, s);
    var run := s.runs[p];
    assert RunSound(run, p, s.dirs, s.procs, s.labels) && InPlace(run, s.names);
    assert LeaseSound(s.dirs, s.runs, run.ino.value);
  }

  lemma WhatMovesNames(s: State, e: Event, nm: Name)
    requires Step(s, e).Some? && nm in s.names && nm !in Step(s, e).value.names
    ensures if e.ByRunner? then
        e.r.Rename? && e.p in s.runs && s.runs[e.p].stage.Reserved? && s.runs[e.p].stage.name == nm
      else
        e.ByReclaimer? && e.p in s.frames && s.frames[e.p].name == nm && !s.frames[e.p].Scanning?
  {
  }

  /** A claim leaves its name only by its claimant's hand or after its claimant's death. */
  lemma ClaimsChangeHandsAfterDeath(events: seq<Event>, s: State, e: Event, nm: Name)
    requires Reaches(events, s) && InProtocol(e) && Step(s, e).Some?
    requires nm.Claim? && nm in s.names && nm !in Step(s, e).value.names
    ensures e.ByReclaimer? && (e.p == nm.claimant || nm.claimant !in s.alive)
  {
    ReachedKeepsInv(events, s);
    WhatMovesNames(s, e, nm);
    assert e.ByRunner? && e.p in s.runs ==> RunSound(s.runs[e.p], e.p, s.dirs, s.procs, s.labels);
    if e.ByReclaimer? {
      assert FrameSound(e.p, s.frames[e.p], s.dirs, s.runs, s.alive);
    }
  }

  // ------------------------------------------------------------------------ lease history

  /** The Anvil `a` was registered for `d`; only the removal of the contents takes the lease away. */
  predicate Registered(s: State, d: Ino, a: Proc) {
    && Main(s.dirs, s.runs, d) && Spawned(s.runs[s.dirs[d].owner].supervisor) == Some(a)
    && (s.dirs[d].lease.Some? ==> s.dirs[d].lease.value.anvil == Some(a))
  }

  /** A lease is published once, gets its Anvil, and goes with the directory's contents. */
  lemma WhatChangesLeases(s: State, e: Event, d: Ino)
    requires Step(s, e).Some? && d < |s.dirs|
    ensures var t := Step(s, e).value;
      && d < |t.dirs| && t.dirs[d].owner == s.dirs[d].owner
      && (t.dirs[d].lease == s.dirs[d].lease || t.dirs[d].lease.None?
          || (e.ByRunner? && e.p in s.runs && s.runs[e.p].stage.Initial? && s.runs[e.p].ino == Some(d))
          || (e.BySupervisorOf? && SupervisorStep(s, e.p, Register).Some? && s.names[s.runs[e.p].stage.dest] == d
              && t.dirs[d].lease == Some(Lease(e.p, s.runs[e.p].supervisor.spawned))))
  {
  }

  lemma RegistrationStays(s: State, e: Event, d: Ino, a: Proc)
    requires Inv(s) && InProtocol(e) && Step(s, e).Some? && Registered(s, d, a)
    ensures Registered(Step(s, e).value, d, a)
  {
    var t := Step(s, e).value;
    var p := s.dirs[d].owner;
    StepKeepsInv(s, e);
    MainAdvances(s, t, d);
    assert RunAdvances(s.runs[p], t.runs[p], p, s.alive, t.alive);
    SupervisedIsPublished(s, p);
    WhatChangesLeases(s, e, d);
    if e.ByRunner? && e.p in s.runs {
      assert RunSound(s.runs[e.p], e.p, s.dirs, s.procs, s.labels);
    } else if e.BySupervisorOf? && SupervisorStep(s, e.p, Register).Some? {
      RegisterAdvances(s, e.p);
    }
  }

  /** Over any continuation the runner of a lease never changes and its Anvil is set at most once. */
  lemma {:induction false} LeaseHistory(s: State, events: seq<Event>, d: Ino)
    requires Inv(s) && RunEvents(s, events).Some? && d < |s.dirs|
    requires forall i | 0 <= i < |events| :: InProtocol(events[i])
    ensures var t := RunEvents(s, events).value;
      && d < |t.dirs| && t.dirs[d].owner == s.dirs[d].owner
      && (s.dirs[d].lease.Some? && t.dirs[d].lease.Some? ==>
            && t.dirs[d].lease.value.runner == s.dirs[d].lease.value.runner
            && (s.dirs[d].lease.value.anvil.Some? ==> t.dirs[d].lease.value.anvil == s.dirs[d].lease.value.anvil))
    decreases |events|
  {
    RunKeepsInv(s, events);
    var t := RunEvents(s, events).value;
    assert LeaseSound(s.dirs, s.runs, d);
    if events != [] {
      StepKeepsInv(s, events[0]);
      LeaseHistory(Step(s, events[0]).value, events[1..], d);
    }
    assert LeaseSound(t.dirs, t.runs, d);
    if s.dirs[d].lease.Some? && s.dirs[d].lease.value.anvil.Some? {
      RegistrationLasts(s, events, d, s.dirs[d].lease.value.anvil.value);
    }
  }

  lemma {:induction false} RegistrationLasts(s: State, events: seq<Event>, d: Ino, a: Proc)
    requires Inv(s) && RunEvents(s, events).Some? && Registered(s, d, a)
    requires forall i | 0 <= i < |events| :: InProtocol(events[i])
    ensures Registered(RunEvents(s, events).value, d, a)
    decreases |events|
  {
    if events != [] {
      StepKeepsInv(s, events[0]);
      RegistrationStays(s, events[0], d, a);
      RegistrationLasts(Step(s, events[0]).value, events[1..], d, a);
    }
  }

  // -------------------------------------------------------------- the provisional route

  ghost predicate CanReach(s: State) {
    exists events :: RunEvents(EMPTY, events) == Some(s)
  }

  lemma {:induction false} RunEventsAppend(s: State, events: seq<Event>, e: Event)
    requires RunEvents(s, events).Some?
    ensures RunEvents(s, events + [e]) == Step(RunEvents(s, events).value, e)
    decreases |events|
  {
    if events == [] {
      assert [e][1..] == [] && events + [e] == [e];
    } else {
      assert (events + [e])[1..] == events[1..] + [e];
      RunEventsAppend(Step(s, events[0]).value, events[1..], e);
    }
  }

  lemma Continue(s: State, e: Event, t: State)
    requires CanReach(s) && Step(s, e) == Some(t)
    ensures CanReach(t)
  {
    var events :| RunEvents(EMPTY, events) == Some(s);
    RunEventsAppend(EMPTY, events, e);
  }

  const D := RunName(0, 0)
  const CLAIM := Claim(1, 0, 1, false, false, 0)
  const DELETE := Claim(2, 0, 1, true, false, 0)
  const ABANDONED := Run(Published(D), Some(0), Running(Some(2)), false)

  /** Runner 0 and reclaimer 1 meet at the provisional directory 0. */
  function Provisional(alive: set<Proc>, procs: nat, run: Run, lease: Option<Lease>, f: Frame): State {
    State(alive, procs, f.name.n + 1, map[f.name := 0], [Dir(0, lease)], map[0 := run], map[1 := f], [])
  }

  lemma ProvisionalCreated(run: Run)
    requires run == Run(Initial(D), Some(0), NoSupervisor, false)
    ensures CanReach(State({0, 1}, 2, 1, map[D := 0], [Dir(0, None)], map[0 := run], map[], []))
  {
    var s1 := State({0}, 1, 0, map[], [], map[0 := FRESH_RUN], map[], []);
    var s2 := State({0, 1}, 2, 0, map[], [], map[0 := FRESH_RUN], map[], []);
    var s3 := State({0, 1}, 2, 1, map[D := 0], [Dir(0, None)], map[0 := run], map[], []);
    assert RunEvents(EMPTY, []) == Some(EMPTY);
    assert EMPTY.alive + {0} == s1.alive && EMPTY.runs[0 := FRESH_RUN] == s1.runs;
    Continue(EMPTY, NewProcess(true), s1);
    assert s1.alive + {1} == s2.alive;
    Continue(s1, NewProcess(false), s2);
    assert s2.dirs + [Dir(0, None)] == s3.dirs && s2.names[D := 0] == s3.names && s2.runs[0 := run] == s3.runs;
    Continue(s2, ByRunner(0, CreateProvisional), s3);
  }

  /** The reclaimer takes one step with its frame, nothing else changes. */
  lemma FrameMoves(alive: set<Proc>, procs: nat, run: Run, lease: Option<Lease>, f: Frame, c: ReclaimEvent, g: Frame)
    requires 1 in alive && !c.List? && !c.GiveUp? && f.name == g.name
    requires CanReach(Provisional(alive, procs, run, lease, f))
    requires var s := Provisional(alive, procs, run, lease, f); FrameStep(s, 1, f, c) == At(s, 1, g)
    ensures CanReach(Provisional(alive, procs, run, lease, g))
  {
    var s := Provisional(alive, procs, run, lease, f);
    assert s.frames[1 := g] == map[1 := g];
    Continue(s, ByReclaimer(1, c), Provisional(alive, procs, run, lease, g));
  }

  lemma ProvisionalScanned(run: Run)
    requires run == Run(Initial(D), Some(0), NoSupervisor, false)
    ensures CanReach(Provisional({0, 1}, 2, run, None, NoLeaseSeen(D, 0)))
  {
    ProvisionalCreated(run);
    var s3 := State({0, 1}, 2, 1, map[D := 0], [Dir(0, None)], map[0 := run], map[], []);
    assert s3.frames[1 := Scanning(D, 0)] == map[1 := Scanning(D, 0)];
    Continue(s3, ByReclaimer(1, List(D)), Provisional({0, 1}, 2, run, None, Scanning(D, 0)));
    FrameMoves({0, 1}, 2, run, None, Scanning(D, 0), CheckClaimant, ClaimantGone(D, 0));
    FrameMoves({0, 1}, 2, run, None, ClaimantGone(D, 0), ReadLease, NoLeaseSeen(D, 0));
  }

  /** The runner publishes its lease, starts its Anvil and dies, all unseen by the reclaimer. */
  lemma ProvisionalAbandoned()
    ensures CanReach(Provisional({1, 2}, 3, ABANDONED, Some(Lease(0, None)), NoLeaseSeen(D, 0)))
  {
    var f, l := NoLeaseSeen(D, 0), Some(Lease(0, None));
    var s6 := Provisional({0, 1}, 2, Run(Initial(D), Some(0), NoSupervisor, false), None, f);
    var s7 := Provisional({0, 1}, 2, Run(Published(D), Some(0), NoSupervisor, false), l, f);
    var s8 := Provisional({0, 1}, 2, Run(Published(D), Some(0), Running(None), false), l, f);
    var s9 := Provisional({0, 1, 2}, 3, ABANDONED, l, f);
    ProvisionalScanned(s6.runs[0]);
    assert s6.dirs[0 := Dir(0, l)] == s7.dirs && s6.runs[0 := s7.runs[0]] == s7.runs;
    Continue(s6, ByRunner(0, PublishLease), s7);
    assert s7.runs[0 := s8.runs[0]] == s8.runs;
    Continue(s7, ByRunner(0, StartSupervisor), s8);
    assert s8.runs[0 := s9.runs[0]] == s9.runs && s8.alive + {2} == s9.alive;
    Continue(s8, BySupervisorOf(0, SpawnAnvil), s9);
    assert s9.alive - {0} == {1, 2};
    Continue(s9, Dies(0), s9.(alive := {1, 2}));
  }

  /** A rename of the reclaimer to a claim of its own. */
  lemma FrameRenames(c: ReclaimEvent, f: Frame, g: Frame)
    requires !c.List? && !c.GiveUp? && g.name.n == f.name.n + 1
    requires CanReach(Provisional({1, 2}, 3, ABANDONED, Some(Lease(0, None)), f))
    requires var s := Provisional({1, 2}, 3, ABANDONED, Some(Lease(0, None)), f);
      FrameStep(s, 1, f, c) == At(Renamed(s, f.name, g.name), 1, g)
    ensures CanReach(Provisional({1, 2}, 3, ABANDONED, Some(Lease(0, None)), g))
  {
    var s := Provisional({1, 2}, 3, ABANDONED, Some(Lease(0, None)), f);
    var t := Provisional({1, 2}, 3, ABANDONED, Some(Lease(0, None)), g);
    assert (s.names - {f.name})[g.name := 0] == t.names && s.frames[1 := g] == t.frames;
    Continue(s, ByReclaimer(1, c), t);
  }

  /** The reclaimer claims the directory, and looks at no lease again. */
  lemma ProvisionalClaimed()
    ensures CanReach(Provisional({1, 2}, 3, ABANDONED, Some(Lease(0, None)), Claimed(CLAIM, 0, None)))
  {
    ProvisionalAbandoned();
    FrameMoves({1, 2}, 3, ABANDONED, Some(Lease(0, None)), NoLeaseSeen(D, 0), CheckInitializer, ReadyToClaim(D, 0, None));
    FrameRenames(ClaimIt, ReadyToClaim(D, 0, None), Claimed(CLAIM, 0, None));
  }

  lemma ProvisionalDeleting()
    ensures CanReach(Provisional({1, 2}, 3, ABANDONED, Some(Lease(0, None)), Deleting(DELETE, 0)))
  {
    ProvisionalClaimed();
    FrameMoves({1, 2}, 3, ABANDONED, Some(Lease(0, None)), Claimed(CLAIM, 0, None), Confirm, ReadyToDelete(CLAIM, 0));
    FrameRenames(RenameToDelete, ReadyToDelete(CLAIM, 0), Deleting(DELETE, 0));
  }

  /**
    Why the provisional route is apart: a directory that had its final name before its lease. A
    reclaimer sees no lease, the runner publishes it, starts an Anvil and dies, and the reclaimer
    deletes the directory while that Anvil is alive.
  */
  lemma ProvisionalRouteIsUnsafe()
    ensures exists s :: CanReach(s) && s.deleted == [0] && !NoLiveAnvil(s, 0)
  {
    ProvisionalDeleting();
    var l := Some(Lease(0, None));
    var a := Provisional({1, 2}, 3, ABANDONED, l, Deleting(DELETE, 0));
    var b := a.(dirs := [Dir(0, None)]);
    assert a.dirs[0 := Dir(0, None)] == b.dirs;
    Continue(a, ByReclaimer(1, RemoveContents), b);
    var c := b.(names := b.names - {DELETE}, deleted := [0], frames := b.frames - {1});
    assert b.deleted + [0] == [0];
    Continue(b, ByReclaimer(1, RemoveDirectory), c);
    assert !NoLiveAnvil(c, 0);
  }
}

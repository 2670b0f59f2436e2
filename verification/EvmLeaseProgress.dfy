/** An undisturbed reclaimer deletes the directory of a run whose runner and registered Anvil are dead. */
module EvmLeaseProgress {
  import opened Wrappers
  import opened EvmLease
  import EvmLeaseSafety

  ghost predicate LeadsTo(s: State, t: State) {
    exists events :: RunEvents(s, events) == Some(t)
  }

  lemma ActLeads(s: State, t: State, r: Proc, c: ReclaimEvent, u: State)
    requires LeadsTo(s, t) && ReclaimStep(t, r, c) == Some(u)
    ensures LeadsTo(s, u)
  {
    var events :| RunEvents(s, events) == Some(t);
    EvmLeaseSafety.RunEventsAppend(s, events, ByReclaimer(r, c));
  }

  function WithFrame(s: State, r: Proc, f: Frame): State {
    s.(frames := s.frames[r := f])
  }

  /** The reclaimer gets from one place in its code to the next without changing anything. */
  lemma FrameLeads(s: State, t: State, r: Proc, f: Frame, c: ReclaimEvent, g: Frame)
    requires LeadsTo(s, WithFrame(t, r, f)) && r in t.alive && !c.List? && !c.GiveUp?
    requires FrameStep(WithFrame(t, r, f), r, f, c) == At(WithFrame(t, r, f), r, g)
    ensures LeadsTo(s, WithFrame(t, r, g))
  {
    assert WithFrame(t, r, f).frames[r := g] == t.frames[r := g];
    ActLeads(s, WithFrame(t, r, f), r, c, WithFrame(t, r, g));
  }

  /** A published directory left behind by a dead runner, its registered Anvil dead as well. */
  predicate Abandoned(s: State, r: Proc, nm: Name) {
    && r in s.alive && r !in s.frames && nm.RunName? && nm in s.names && s.names[nm] < |s.dirs|
    && s.dirs[s.names[nm]].lease.Some?
    && s.dirs[s.names[nm]].lease.value.runner !in s.alive
    && s.dirs[s.names[nm]].lease.value.anvil.Some?
    && s.dirs[s.names[nm]].lease.value.anvil.value !in s.alive
  }

  lemma ReachesLease(s: State, r: Proc, nm: Name)
    requires Abandoned(s, r, nm)
    ensures LeadsTo(s, WithFrame(s, r, LeaseSeen(nm, s.names[nm], s.dirs[s.names[nm]].lease.value)))
  {
    var d := s.names[nm];
    assert RunEvents(s, []) == Some(s);
    ActLeads(s, s, r, List(nm), WithFrame(s, r, Scanning(nm, d)));
    FrameLeads(s, s, r, Scanning(nm, d), CheckClaimant, ClaimantGone(nm, d));
    FrameLeads(s, s, r, ClaimantGone(nm, d), ReadLease, LeaseSeen(nm, d, s.dirs[d].lease.value));
  }

  lemma ReachesClaim(s: State, r: Proc, nm: Name)
    requires Abandoned(s, r, nm)
    ensures LeadsTo(s, WithFrame(s, r, ReadyToClaim(nm, s.names[nm], s.dirs[s.names[nm]].lease)))
  {
    var d := s.names[nm];
    var lease := s.dirs[d].lease.value;
    ReachesLease(s, r, nm);
    FrameLeads(s, s, r, LeaseSeen(nm, d, lease), CheckRunner, RunnerGone(nm, d, lease));
    FrameLeads(s, s, r, RunnerGone(nm, d, lease), CheckAnvil, ReadyToClaim(nm, d, Some(lease)));
  }

  function ClaimName(s: State, r: Proc, nm: Name, deleting: bool): Name
    requires nm in s.names
  {
    Claim(if deleting then s.labels + 1 else s.labels, s.names[nm], r, deleting, false, nm.init)
  }

  /** The tree after the directory under `nm` was renamed. */
  function Away(s: State, nm: Name, claim: Name): State
    requires nm in s.names
  {
    s.(names := (s.names - {nm})[claim := s.names[nm]], labels := claim.n + 1)
  }

  lemma RenameLeads(s: State, t: State, r: Proc, f: Frame, c: ReclaimEvent, claim: Name, g: Frame)
    requires LeadsTo(s, WithFrame(t, r, f)) && r in t.alive && !c.List? && !c.GiveUp?
    requires f.name in t.names && claim.n == t.labels
    requires FrameStep(WithFrame(t, r, f), r, f, c) == At(Renamed(WithFrame(t, r, f), f.name, claim), r, g)
    ensures LeadsTo(s, WithFrame(Away(t, f.name, claim), r, g))
  {
    assert WithFrame(t, r, f).frames[r := g] == t.frames[r := g];
    ActLeads(s, WithFrame(t, r, f), r, c, WithFrame(Away(t, f.name, claim), r, g));
  }

  lemma ReachesConfirmation(s: State, r: Proc, nm: Name)
    requires Abandoned(s, r, nm)
    ensures var claim := ClaimName(s, r, nm, false);
      LeadsTo(s, WithFrame(Away(s, nm, claim), r, ReadyToDelete(claim, s.names[nm])))
  {
    var d := s.names[nm];
    var claim := ClaimName(s, r, nm, false);
    ReachesClaim(s, r, nm);
    RenameLeads(s, s, r, ReadyToClaim(nm, d, s.dirs[d].lease), ClaimIt, claim, Claimed(claim, d, s.dirs[d].lease));
    FrameLeads(s, Away(s, nm, claim), r, Claimed(claim, d, s.dirs[d].lease), Confirm, ReadyToDelete(claim, d));
  }

  lemma ReachesDeletion(s: State, r: Proc, nm: Name)
    requires Abandoned(s, r, nm)
    ensures var claim := ClaimName(s, r, nm, false); var last := ClaimName(s, r, nm, true);
      LeadsTo(s, WithFrame(Away(Away(s, nm, claim), claim, last), r, Deleting(last, s.names[nm])))
  {
    var d := s.names[nm];
    var claim, last := ClaimName(s, r, nm, false), ClaimName(s, r, nm, true);
    ReachesConfirmation(s, r, nm);
    RenameLeads(s, Away(s, nm, claim), r, ReadyToDelete(claim, d), RenameToDelete, last, Deleting(last, d));
  }

  lemma AbandonedRunIsDeleted(s: State, r: Proc, nm: Name)
    requires Abandoned(s, r, nm)
    ensures exists t :: LeadsTo(s, t) && t.deleted == s.deleted + [s.names[nm]] && nm !in t.names
  {
    var claim, last := ClaimName(s, r, nm, false), ClaimName(s, r, nm, true);
    var t := WithFrame(Away(Away(s, nm, claim), claim, last), r, Deleting(last, s.names[nm]));
    ReachesDeletion(s, r, nm);
    var u := ReclaimStep(t, r, RemoveDirectory).value;
    ActLeads(s, t, r, RemoveDirectory, u);
    assert u.deleted == s.deleted + [s.names[nm]] && nm !in u.names;
  }
}

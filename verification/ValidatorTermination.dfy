/**
  Terminating the validator of a stale run: authenticate, SIGTERM, a grace period, authenticate again,
  SIGKILL. The validator's process is the world the method acts on; every act is logged.
*/
module ValidatorTermination {
  import opened Wrappers

  datatype Observation = Exited | Live | Replaced | Unproven

  /** What authentication found wrong; only a failed observation may be the validator's exit. */
  datatype Mismatch = ObservationFailed | IdentityDiffers

  datatype Signal = SigTerm | SigKill

  datatype Delivery = Delivered | NoSuchProcess | NotPermitted

  datatype Act =
    | Observed(outcome: Observation)
    | Authenticated(failures: seq<Mismatch>)
    | Signalled(signal: Signal)
    | Clocked(now: nat)
    | Slept

  datatype TerminationError = ReclaimIdentity | ReclaimTimeout | SignalRefused

  const GRACE := 5000

  predicate SawExit(log: seq<Act>) {
    Observed(Exited) in log
  }

  /**
    The process a lease registered. It may die at any moment and never comes back; an exit is observed
    and a signal finds no process only after that, and authentication succeeds only before.
  */
  class Validator {
    var alive: bool
    var clock: nat
    ghost var log: seq<Act>

    ghost predicate Valid()
      reads this
    {
      SawExit(log) ==> !alive
    }

    constructor (running: bool, now: nat)
      ensures Valid() && alive == running && log == []
    {
      alive, clock, log := running, now, [];
    }

    /** Time passes, and the process may have died meanwhile. */
    method Pass()
      requires Valid()
      modifies this
      ensures Valid() && log == old(log) && clock >= old(clock) && (alive ==> old(alive))
    {
      var died: bool := *;
      var elapsed: nat :| true;
      alive := alive && !died;
      clock := clock + elapsed;
    }

    method Observe() returns (outcome: Observation)
      requires Valid()
      modifies this
      ensures Valid() && log == old(log) + [Observed(outcome)] && clock >= old(clock) && (alive ==> old(alive))
      ensures outcome == Exited ==> !alive
    {
      Pass();
      outcome := *;
      if outcome == Exited && alive {
        outcome := Unproven;
      }
      log := log + [Observed(outcome)];
    }

    method Authenticate() returns (failures: seq<Mismatch>)
      requires Valid()
      modifies this
      ensures Valid() && log == old(log) + [Authenticated(failures)] && clock >= old(clock) && (alive ==> old(alive))
      ensures failures == [] ==> old(alive)
    {
      Pass();
      failures := *;
      if failures == [] && !alive {
        failures := [ObservationFailed];
      }
      log := log + [Authenticated(failures)];
    }

    method Kill(signal: Signal) returns (delivery: Delivery)
      requires Valid()
      modifies this
      ensures Valid() && log == old(log) + [Signalled(signal)] && clock >= old(clock) && (alive ==> old(alive))
      ensures delivery == NoSuchProcess ==> !alive
    {
      Pass();
      delivery := *;
      if delivery == NoSuchProcess && alive {
        delivery := NotPermitted;
      }
      log := log + [Signalled(signal)];
    }

    method Now() returns (now: nat)
      requires Valid()
      modifies this
      ensures Valid() && log == old(log) + [Clocked(now)] && now == clock >= old(clock) && (alive ==> old(alive))
    {
      Pass();
      now := clock;
      log := log + [Clocked(now)];
    }

    /** Sleeping lets the clock advance. */
    method Delay()
      requires Valid()
      modifies this
      ensures Valid() && log == old(log) + [Slept] && clock > old(clock) && (alive ==> old(alive))
    {
      Pass();
      clock := clock + 1;
      log := log + [Slept];
    }
  }

  // -------------------------------------------------------------------- what a log shows

  predicate NoSignals(log: seq<Act>, from: nat, to: nat)
    requires to <= |log|
  {
    forall i | from <= i < to :: !log[i].Signalled?
  }

  /** Every signal after `from` directly follows a clean authentication. */
  predicate AuthenticatedSignals(log: seq<Act>, from: nat) {
    forall i | from <= i < |log| && log[i].Signalled? :: i > from && log[i - 1] == Authenticated([])
  }

  predicate GracePassed(log: seq<Act>, a: nat, b: nat) {
    a < b < |log| && log[a].Clocked? && log[b].Clocked? && log[b].now >= log[a].now + GRACE
  }

  /** SIGTERM at `term`, and later a whole grace period by the clock, all before `kill`. */
  predicate KillEarned(log: seq<Act>, term: nat, a: nat, b: nat, kill: nat) {
    term < a < b < kill <= |log| && log[term] == Signalled(SigTerm) && GracePassed(log, a, b)
  }

  /** SIGTERM at most once and first; SIGKILL at most once, only after it and a whole grace period. */
  ghost predicate Escalates(log: seq<Act>, from: nat) {
    && (forall i, j | from <= i < j < |log| && log[i].Signalled? && log[j].Signalled? ::
          log[i].signal == SigTerm && log[j].signal == SigKill)
    && (forall k | from <= k < |log| && log[k] == Signalled(SigKill) ::
          exists term: nat, a: nat, b: nat :: from <= term && KillEarned(log, term, a, b, k))
  }

  /** Nothing is signalled once an exit was observed. */
  predicate StopsAtExit(log: seq<Act>, from: nat) {
    forall j | from <= j < |log| && log[j].Signalled? :: !SawExit(log[..j])
  }

  /** The only signal between `from` and `to`, directly after a clean authentication. */
  predicate OnlySignal(log: seq<Act>, from: nat, at: nat, to: nat, signal: Signal) {
    && from < at < to <= |log| && log[at] == Signalled(signal) && log[at - 1] == Authenticated([])
    && NoSignals(log, from, at) && NoSignals(log, at + 1, to) && !SawExit(log[..at])
  }

  predicate EndsInExit(log: seq<Act>, from: nat) {
    from < |log| && log[|log| - 1] == Observed(Exited)
  }

  // ------------------------------------------------------------------------- the methods

  function ExitProven(outcome: Observation): Result<bool, TerminationError> {
    if outcome == Replaced then Err(ReclaimIdentity) else Ok(outcome == Exited)
  }

  predicate Mismatched(failures: seq<Mismatch>) {
    exists i | 0 <= i < |failures| :: failures[i] != ObservationFailed
  }

  method AuthenticateBeforeSignal(v: Validator) returns (r: Result<bool, TerminationError>)
    requires v.Valid()
    modifies v
    ensures v.Valid() && (v.alive ==> old(v.alive))
    ensures old(v.log) <= v.log && NoSignals(v.log, |old(v.log)|, |v.log|)
    ensures r == Ok(true) ==> v.log == old(v.log) + [Authenticated([])] && !SawExit(v.log)
    ensures r == Ok(false) ==> !v.alive && EndsInExit(v.log, |old(v.log)|)
  {
    var failures := v.Authenticate();
    if Mismatched(failures) { return Err(ReclaimIdentity); }
    if failures == [] { return Ok(true); }
    var outcome := v.Observe();
    var proven := ExitProven(outcome);
    if proven == Ok(true) { return Ok(false); }
    r := Err(ReclaimIdentity);
  }

  method SignalValidator(v: Validator, signal: Signal) returns (r: Result<(), TerminationError>)
    requires v.Valid()
    modifies v
    ensures v.Valid() && (v.alive ==> old(v.alive))
    ensures old(v.log) + [Signalled(signal)] <= v.log && NoSignals(v.log, |old(v.log)| + 1, |v.log|)
  {
    var delivery := v.Kill(signal);
    if delivery == Delivered { return Ok(()); }
    if delivery == NoSuchProcess {
      var outcome := v.Observe();
      if ExitProven(outcome) == Ok(true) { return Ok(()); }
      return Err(if outcome == Replaced then ReclaimIdentity else SignalRefused);
    }
    r := Err(SignalRefused);
  }

  /** True only after an observed exit, false only after the whole timeout by the clock. */
  method AwaitExit(v: Validator) returns (r: Result<bool, TerminationError>)
    requires v.Valid()
    modifies v
    ensures v.Valid() && (v.alive ==> old(v.alive))
    ensures old(v.log) <= v.log && NoSignals(v.log, |old(v.log)|, |v.log|)
    ensures r == Ok(true) ==> !v.alive && EndsInExit(v.log, |old(v.log)|)
    ensures r == Ok(false) ==> |v.log| >= 2 && GracePassed(v.log, |old(v.log)|, |v.log| - 2)
  {
    ghost var entry := |v.log|;
    var start := v.Now();
    var deadline := start + GRACE;
    while true
      invariant v.Valid() && (v.alive ==> old(v.alive))
      invariant entry == |old(v.log)| < |v.log| && old(v.log) <= v.log && v.log[entry] == Clocked(start)
      invariant NoSignals(v.log, entry, |v.log|)
      decreases if v.clock < deadline then deadline - v.clock else 0
    {
      var outcome := v.Observe();
      var proven := ExitProven(outcome);
      if proven != Ok(false) { return proven; }
      var failures := v.Authenticate();
      if Mismatched(failures) { return Err(ReclaimIdentity); }
      var now := v.Now();
      if now >= deadline {
        outcome := v.Observe();
        return ExitProven(outcome);
      }
      v.Delay();
    }
  }

  /** Authenticate, signal, wait: one rung of the escalation. */
  method Escalate(v: Validator, signal: Signal) returns (r: Result<bool, TerminationError>, ghost sent: Option<nat>)
    requires v.Valid()
    modifies v
    ensures v.Valid() && (v.alive ==> old(v.alive)) && old(v.log) <= v.log
    ensures sent.None? ==> NoSignals(v.log, |old(v.log)|, |v.log|)
    ensures sent.Some? ==> OnlySignal(v.log, |old(v.log)|, sent.value, |v.log|, signal)
    ensures r == Ok(true) ==> !v.alive && EndsInExit(v.log, |old(v.log)|)
    ensures r == Ok(false) ==> sent.Some? && exists a: nat, b: nat :: sent.value < a && GracePassed(v.log, a, b)
  {
    ghost var from := |v.log|;
    sent := None;
    var owned := AuthenticateBeforeSignal(v);
    if owned.Err? { return owned, sent; }
    if !owned.value {
      assert owned == Ok(false);
      return Ok(true), sent;
    }
    assert owned == Ok(true);
    sent := Some(|v.log|);
    assert v.log[..|v.log|] == v.log;
    ghost var quiet := v.log;
    var delivered := SignalValidator(v, signal);
    assert v.log[..|quiet|] == quiet;
    if delivered.Err? { return Err(delivered.error), sent; }
    ghost var waiting := |v.log|;
    r := AwaitExit(v);
    assert v.log[..|quiet|] == quiet;
    assert r == Ok(false) ==> GracePassed(v.log, waiting, |v.log| - 2);
  }

  /** Two rungs, the second only after the grace period of the first. */
  lemma TwoRungs(first: seq<Act>, log: seq<Act>, from: nat, term: nat, a: nat, b: nat, kill: Option<nat>)
    requires first <= log && OnlySignal(first, from, term, |first|, SigTerm) && term < a && GracePassed(first, a, b)
    requires kill.None? ==> NoSignals(log, |first|, |log|)
    requires kill.Some? ==> OnlySignal(log, |first|, kill.value, |log|, SigKill)
    ensures AuthenticatedSignals(log, from) && Escalates(log, from) && StopsAtExit(log, from)
  {
    forall i | from <= i < |log| && log[i].Signalled? ensures i == term || Some(i) == kill {
      if i < |first| {
        assert log[i] == first[i];
      }
    }
    assert log[term] == first[term] && log[term - 1] == first[term - 1] && log[..term] == first[..term];
    assert GracePassed(log, a, b);
    if kill.Some? {
      assert KillEarned(log, term, a, b, kill.value);
    }
  }

  lemma OneRung(log: seq<Act>, before: nat, from: nat, sent: Option<nat>)
    requires before <= from <= |log| && NoSignals(log, before, from)
    requires sent.None? ==> NoSignals(log, from, |log|)
    requires sent.Some? ==> OnlySignal(log, from, sent.value, |log|, SigTerm)
    ensures AuthenticatedSignals(log, before) && Escalates(log, before) && StopsAtExit(log, before)
    ensures sent.Some? ==> OnlySignal(log, before, sent.value, |log|, SigTerm)
  {
    forall i | before <= i < |log| && log[i].Signalled? ensures Some(i) == sent {
    }
  }

  /**
    Returns normally only after an observed exit (or without a registered validator). Every signal
    directly follows a clean authentication; SIGKILL comes only after SIGTERM, the whole grace period
    and a second authentication; without a registration or the run's own ledger nothing is signalled.
  */
  method TerminateAuthenticatedValidator(v: Validator, registered: bool, ledgerMatches: bool) returns (r: Result<(), TerminationError>)
    requires v.Valid()
    modifies v
    ensures v.Valid() && old(v.log) <= v.log && (v.alive ==> old(v.alive))
    ensures r.Ok? && registered ==> !v.alive && EndsInExit(v.log, |old(v.log)|)
    ensures AuthenticatedSignals(v.log, |old(v.log)|) && Escalates(v.log, |old(v.log)|) && StopsAtExit(v.log, |old(v.log)|)
    ensures !registered || !ledgerMatches ==> NoSignals(v.log, |old(v.log)|, |v.log|)
  {
    if !registered { return Ok(()); }
    var outcome := v.Observe();
    var proven := ExitProven(outcome);
    if proven == Ok(true) { return Ok(()); }
    if proven.Err? || !ledgerMatches { return Err(ReclaimIdentity); }
    ghost var from := |v.log|;
    ghost var term, kill;
    var exited;
    exited, term := Escalate(v, SigTerm);
    ghost var first := v.log;
    OneRung(first, |old(v.log)|, from, term);
    if exited.Err? { return Err(exited.error); }
    if exited.value { return Ok(()); }
    ghost var a: nat, b: nat :| term.value < a && GracePassed(first, a, b);
    exited, kill := Escalate(v, SigKill);
    TwoRungs(first, v.log, |old(v.log)|, term.value, a, b, kill);
    if exited.Err? { return Err(exited.error); }
    if !exited.value { return Err(ReclaimTimeout); }
    r := Ok(());
  }
}

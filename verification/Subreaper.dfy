/**
  The subreaper's supervision loop: reap every child, latch why draining started and what went wrong,
  signal each remaining child at most once per signal, and report custody only from what was seen.

  A process is an identity that never comes back once it is gone; a pid is only its number.
*/
module Subreaper {
  import opened Sequences
  import opened Wrappers

  type Proc = nat
  type Pid = int

  datatype Signal = Term | Kill

  datatype Waited = Reaped(p: Proc) | NoneReady | NoChild | Interrupted | WaitError

  datatype Opened = Handle(p: Proc) | NoSuchProcess | OpenError

  datatype Sending = Delivered | Vanished | SendError

  datatype Launch = Launched | LaunchErrno(errno: int) | LaunchInvalid

  const INT_MAX: int := 2147483647

  /** What the kernel does between two calls of the supervisor is not under its control. */
  class Kernel {
    const pidOf: Proc -> Pid
    /** Unreaped children, adopted orphans included. */
    var children: set<Proc>
    var gone: set<Proc>
    var time: int
    var sent: seq<(Proc, Signal)>
    /** How many more children this round of waiting will find dead. */
    var ready: nat
    /** The children there were when their list was last read. */
    ghost var scanned: set<Proc>
    /** Those a wait has returned. */
    ghost var reaped: set<Proc>

    /** A number belongs to one child at a time; once that child is gone it may be used again. */
    ghost predicate Valid()
      reads this
    {
      children !! gone && DistinctPids(children, pidOf)
    }

    /** What time does not take back: a child stays or is gone, and who is gone stays gone. */
    ghost predicate MovedOn(before: set<Proc>, dead: set<Proc>, since: int)
      reads this
    {
      && Valid() && (before == {} ==> children == {})
      && before <= children + gone && dead <= gone && since <= time
    }

    constructor (pidOf: Proc -> Pid, children: set<Proc>, time: int)
      requires DistinctPids(children, pidOf)
      ensures Valid()
      ensures this.pidOf == pidOf && this.children == children && this.gone == {} && this.time == time && this.sent == []
      ensures reaped == {}
    {
      this.pidOf := pidOf;
      this.children := children;
      gone, sent, ready := {}, [], 0;
      scanned, reaped := {}, {};
      this.time := time;
    }

    /** Children come from children, so none appear once there are none; the dead stay dead. */
    method Elapse()
      requires Valid()
      modifies this`children, this`gone, this`time
      ensures MovedOn(old(children), old(gone), old(time))
    {
      var lost: set<Proc> := *;
      var born: set<Proc> := *;
      var passed: int := *;
      var after := children - lost + (born - gone - lost);
      children, gone := if children != {} && DistinctPids(after, pidOf) then after else children - lost, gone + lost;
      time := time + if passed > 0 then passed else 0;
    }

    method BeginWaiting()
      modifies this`ready
    {
      var n: int := *;
      ready := if n > 0 then n else 0;
    }

    method WaitPid() returns (r: Waited)
      requires Valid()
      modifies this`children, this`gone, this`time, this`ready, this`reaped
      ensures MovedOn(old(children), old(gone), old(time))
      ensures r.NoChild? ==> children == {}
      ensures reaped == if r.Reaped? then old(reaped) + {r.p} else old(reaped)
      ensures r.Reaped? ==> r.p in gone && ready < old(ready)
      ensures ready <= old(ready)
    {
      Elapse();
      var interrupted: bool := *;
      var failed: bool := *;
      if interrupted {
        return Interrupted;
      }
      if failed {
        return WaitError;
      }
      if children == {} {
        return NoChild;
      }
      if ready == 0 {
        return NoneReady;
      }
      var p :| p in children;
      ready := ready - 1;
      children, gone, reaped := children - {p}, gone + {p}, reaped + {p};
      return Reaped(p);
    }

    method ClockMs() returns (now: Option<int>)
      requires Valid()
      modifies this`children, this`gone, this`time
      ensures MovedOn(old(children), old(gone), old(time))
      ensures now.Some? ==> old(time) <= now.value <= time
    {
      Elapse();
      var failed: bool := *;
      return if failed then None else Some(time);
    }

    /** A nap lets the clock advance. */
    method Nap()
      requires Valid()
      modifies this`children, this`gone, this`time
      ensures MovedOn(old(children), old(gone), old(time)) && time > old(time)
    {
      Elapse();
      time := time + 10;
    }

    method Cancelled() returns (yes: bool)
    {
      yes := *;
    }

    method ReadLaunch() returns (launch: Launch)
    {
      var kind: int := *;
      var errno: int := *;
      launch := if kind == 0 then Launched else if kind == 1 then LaunchErrno(errno) else LaunchInvalid;
    }

    /** The numbers in the list of children, if it can be read whole; it leaves no child out. */
    method ReadChildren() returns (pids: Option<seq<int>>)
      requires Valid()
      modifies this`children, this`gone, this`time, this`scanned
      ensures MovedOn(old(children), old(gone), old(time))
      ensures pids.Some? ==> forall p | p in scanned :: pidOf(p) in pids.value
      ensures scanned == children
    {
      Elapse();
      var failed: bool := *;
      var listed: seq<int> := *;
      var left := children;
      scanned := left;
      while left != {}
        invariant left <= scanned && forall p | p in scanned - left :: pidOf(p) in listed
        modifies {}
      {
        var p :| p in left;
        listed := listed + [pidOf(p)];
        left := left - {p};
      }
      return if failed then None else Some(listed);
    }

    method OpenPidfd(pid: Pid) returns (r: Opened)
      requires Valid()
      modifies this`children, this`gone, this`time
      ensures MovedOn(old(children), old(gone), old(time))
      ensures r.Handle? ==> pidOf(r.p) == pid && r.p in children
      ensures r.NoSuchProcess? ==> forall p | p in children :: pidOf(p) != pid
    {
      Elapse();
      var failed: bool := *;
      if failed {
        return OpenError;
      }
      if p :| p in children && pidOf(p) == pid {
        return Handle(p);
      }
      return NoSuchProcess;
    }

    /** Signal 0 through a handle: answers whether the process is still there. */
    method Probe(p: Proc) returns (there: bool)
      ensures there <==> p !in gone
    {
      there := p !in gone;
    }

    method SendPidfd(p: Proc, sig: Signal) returns (r: Sending)
      requires Valid()
      modifies this`children, this`gone, this`time, this`sent
      ensures MovedOn(old(children), old(gone), old(time))
      ensures sent == if r.Delivered? then old(sent) + [(p, sig)] else old(sent)
    {
      Elapse();
      var failed: bool := *;
      if failed {
        return SendError;
      }
      if p in gone {
        return Vanished;
      }
      sent := sent + [(p, sig)];
      return Delivered;
    }
  }

  predicate DistinctPids(procs: set<Proc>, pidOf: Proc -> Pid) {
    forall p, q | p in procs && q in procs && pidOf(p) == pidOf(q) :: p == q
  }

  // ----------------------------------------------------------------------- signalling

  datatype Tracked = Tracked(pid: Pid, fd: Proc, termSent: bool, killSent: bool)

  function Flag(t: Tracked, sig: Signal): bool {
    if sig == Kill then t.killSent else t.termSent
  }

  function WithFlag(t: Tracked, sig: Signal): Tracked {
    if sig == Kill then t.(killSent := true) else t.(termSent := true)
  }

  function Flags(ts: seq<Tracked>): nat {
    if ts == [] then 0
    else
      var t := ts[|ts| - 1];
      Flags(ts[..|ts| - 1]) + (if t.termSent then 1 else 0) + (if t.killSent then 1 else 0)
  }

  lemma {:induction false} FlagsUpdate(ts: seq<Tracked>, i: nat, sig: Signal)
    requires i < |ts| && !Flag(ts[i], sig)
    ensures Flags(ts[i := WithFlag(ts[i], sig)]) == Flags(ts) + 1
  {
    var n := |ts| - 1;
    if i < n {
      FlagsUpdate(ts[..n], i, sig);
      assert ts[i := WithFlag(ts[i], sig)][..n] == ts[..n][i := WithFlag(ts[i], sig)];
    } else {
      assert ts[i := WithFlag(ts[i], sig)][..n] == ts[..n];
    }
  }

  predicate DistinctProcs(ts: seq<Tracked>) {
    forall i, j | 0 <= i < j < |ts| :: ts[i].fd != ts[j].fd
  }

  predicate Flagged(ts: seq<Tracked>, p: Proc, sig: Signal) {
    exists i | 0 <= i < |ts| :: ts[i].fd == p && Flag(ts[i], sig)
  }

  /** No process was sent the same signal twice, and every signal sent is on record. */
  ghost predicate SentOnce(sent: seq<(Proc, Signal)>, ts: seq<Tracked>) {
    && (forall i, j | 0 <= i < j < |sent| :: sent[i] != sent[j])
    && (forall i | 0 <= i < |sent| :: Flagged(ts, sent[i].0, sent[i].1))
  }

  ghost predicate TrackingInv(ts: seq<Tracked>, sent: seq<(Proc, Signal)>, signalled: nat, pidOf: Proc -> Pid) {
    && DistinctProcs(ts)
    && (forall i | 0 <= i < |ts| :: ts[i].pid == pidOf(ts[i].fd))
    && SentOnce(sent, ts)
    && signalled == Flags(ts)
  }

  lemma NewEntryKeepsTracking(ts: seq<Tracked>, sent: seq<(Proc, Signal)>, signalled: nat, pidOf: Proc -> Pid, p: Proc)
    requires TrackingInv(ts, sent, signalled, pidOf)
    requires forall i | 0 <= i < |ts| :: ts[i].fd != p
    ensures TrackingInv(ts + [Tracked(pidOf(p), p, false, false)], sent, signalled, pidOf)
  {
    var after := ts + [Tracked(pidOf(p), p, false, false)];
    assert after[..|ts|] == ts;
    forall i | 0 <= i < |sent|
      ensures Flagged(after, sent[i].0, sent[i].1)
    {
      assert Flagged(ts, sent[i].0, sent[i].1);
      var j :| 0 <= j < |ts| && ts[j].fd == sent[i].0 && Flag(ts[j], sent[i].1);
      assert after[j] == ts[j];
    }
  }

  lemma FlagKeepsFlagged(ts: seq<Tracked>, i: nat, sig: Signal, p: Proc, other: Signal)
    requires i < |ts| && Flagged(ts, p, other)
    ensures Flagged(ts[i := WithFlag(ts[i], sig)], p, other)
  {
    var after := ts[i := WithFlag(ts[i], sig)];
    var j :| 0 <= j < |ts| && ts[j].fd == p && Flag(ts[j], other);
    assert after[j].fd == p && Flag(after[j], other);
  }

  lemma FlagKeepsSent(ts: seq<Tracked>, sent: seq<(Proc, Signal)>, i: nat, sig: Signal)
    requires DistinctProcs(ts) && SentOnce(sent, ts) && i < |ts| && !Flag(ts[i], sig)
    ensures SentOnce(sent, ts[i := WithFlag(ts[i], sig)])
    ensures SentOnce(sent + [(ts[i].fd, sig)], ts[i := WithFlag(ts[i], sig)])
  {
    var after := ts[i := WithFlag(ts[i], sig)];
    assert after[i].fd == ts[i].fd && Flag(after[i], sig);
    forall k | 0 <= k < |sent| ensures sent[k] != (ts[i].fd, sig) && Flagged(after, sent[k].0, sent[k].1) {
      FlagKeepsFlagged(ts, i, sig, sent[k].0, sent[k].1);
    }
  }

  /** Raising a flag that was not set keeps the count, whether or not the signal still found its process. */
  lemma FlagKeepsTracking(ts: seq<Tracked>, sent: seq<(Proc, Signal)>, signalled: nat, pidOf: Proc -> Pid,
                          i: nat, sig: Signal, delivered: bool)
    requires TrackingInv(ts, sent, signalled, pidOf) && i < |ts| && !Flag(ts[i], sig)
    ensures TrackingInv(ts[i := WithFlag(ts[i], sig)],
                        if delivered then sent + [(ts[i].fd, sig)] else sent, signalled + 1, pidOf)
  {
    FlagsUpdate(ts, i, sig);
    FlagKeepsSent(ts, sent, i, sig);
  }

  /** New entries and raised flags undo no flag. */
  lemma FlaggedStays(before: seq<Tracked>, after: seq<Tracked>, sig: Signal)
    requires |before| <= |after|
    requires forall i | 0 <= i < |before| :: after[i].fd == before[i].fd && (Flag(before[i], sig) ==> Flag(after[i], sig))
    ensures forall p | Flagged(before, p, sig) :: Flagged(after, p, sig)
  {
    forall p | Flagged(before, p, sig) ensures Flagged(after, p, sig) {
      var i :| 0 <= i < |before| && before[i].fd == p && Flag(before[i], sig);
      assert after[i].fd == p && Flag(after[i], sig);
    }
  }

  // ------------------------------------------------------------------------- the loop

  datatype Reason = Cancelled | TimedOut | Leak

  datatype Uncertainty = WaitFailed | ClockFailed | ExecReportInvalid | ChildScanFailed | DrainUnconfirmed

  datatype ReportError = Because(reason: Reason) | LaunchFailed(errno: int) | SupervisorFailed

  datatype Custody = Completed | ReapedCustody | UncertainCustody

  datatype Report = Report(
    custody: Custody, error: Option<ReportError>, uncertainty: Option<Uncertainty>, haveRoot: bool, signalled: nat)

  class Supervisor {
    const kernel: Kernel
    const root: Proc
    const started: int
    const timeout: nat
    const drainMs: nat
    const termMs: nat
    const tracked: array<Tracked>
    var trackedCount: nat
    var signalled: nat
    var haveRoot: bool
    var reason: Option<Reason>
    var uncertainty: Option<Uncertainty>
    var drainStart: Option<int>
    var clockFailures: nat

    ghost predicate Valid()
      reads this, kernel, tracked
    {
      && kernel.Valid() && trackedCount <= tracked.Length == 4096
      && (forall i | 0 <= i < trackedCount :: tracked[i].fd in kernel.children + kernel.gone)
      && TrackingInv(tracked[..trackedCount], kernel.sent, signalled, kernel.pidOf)
      && (reason.Some? <==> drainStart.Some?)
      && (haveRoot <==> root in kernel.reaped)
      && clockFailures <= 7000
      && (clockFailures > 0 ==> uncertainty.Some?)
      && 1000 <= termMs <= drainMs - 1000
    }

    constructor (kernel: Kernel, root: Proc, started: int, timeout: nat, drainMs: nat, termMs: nat)
      requires kernel.Valid() && kernel.sent == [] && root !in kernel.reaped && 1000 <= termMs <= drainMs - 1000
      ensures Valid() && this.kernel == kernel && fresh(tracked)
      ensures reason.None? && uncertainty.None? && !haveRoot && signalled == 0 && clockFailures == 0
      ensures this.timeout == timeout && this.drainMs == drainMs && this.termMs == termMs && this.started == started
    {
      this.kernel, this.root, this.started := kernel, root, started;
      this.timeout, this.drainMs, this.termMs := timeout, drainMs, termMs;
      tracked := new Tracked[4096](_ => Tracked(0, 0, false, false));
      trackedCount, signalled, haveRoot := 0, 0, false;
      reason, uncertainty, drainStart, clockFailures := None, None, None, 0;
    }

    // ---- signalling the children that are left

    /** The tracked entry with this number whose process is still there. */
    method FindTracked(pid: Pid) returns (entry: Option<nat>)
      requires trackedCount <= tracked.Length
      ensures entry.Some? ==>
                entry.value < trackedCount && tracked[entry.value].pid == pid && tracked[entry.value].fd !in kernel.gone
      ensures entry.None? ==> forall j | 0 <= j < trackedCount :: tracked[j].pid == pid ==> tracked[j].fd in kernel.gone
    {
      for i := 0 to trackedCount
        invariant forall j | 0 <= j < i :: tracked[j].pid == pid ==> tracked[j].fd in kernel.gone
      {
        if tracked[i].pid == pid {
          var there := kernel.Probe(tracked[i].fd);
          if there {
            return Some(i);
          }
        }
      }
      return None;
    }

    /**
      The tracked entry of a listed child, or a new one; no entry when no child has the number any more.
      Another process under the same number is never taken for it.
    */
    method Track(pid: Pid) returns (entry: Option<nat>, failed: bool)
      requires Valid()
      modifies this`trackedCount, tracked, kernel`children, kernel`gone, kernel`time
      ensures Valid() && kernel.MovedOn(old(kernel.children), old(kernel.gone), old(kernel.time))
      ensures entry.Some? ==> entry.value < trackedCount && !failed
      ensures !failed ==> forall p | p in old(kernel.children) && kernel.pidOf(p) == pid ::
                p in kernel.gone || (entry.Some? && tracked[entry.value].fd == p)
      ensures old(trackedCount) <= trackedCount && tracked[..old(trackedCount)] == old(tracked[..trackedCount])
    {
      entry := FindTracked(pid);
      if entry.Some? {
        return entry, false;
      }
      if trackedCount == 4096 {
        return None, true;
      }
      entry, failed := OpenNew(pid);
    }

    /** A handle on the child with a number that no live entry has, if there still is one. */
    method OpenNew(pid: Pid) returns (entry: Option<nat>, failed: bool)
      requires Valid() && trackedCount < 4096
      requires forall j | 0 <= j < trackedCount :: tracked[j].pid == pid ==> tracked[j].fd in kernel.gone
      modifies this`trackedCount, tracked, kernel`children, kernel`gone, kernel`time
      ensures Valid() && kernel.MovedOn(old(kernel.children), old(kernel.gone), old(kernel.time))
      ensures entry.Some? ==> entry.value < trackedCount && !failed
      ensures !failed ==> forall p | p in kernel.children && kernel.pidOf(p) == pid ::
                entry.Some? && tracked[entry.value].fd == p
      ensures old(trackedCount) <= trackedCount && tracked[..old(trackedCount)] == old(tracked[..trackedCount])
    {
      ghost var before := tracked[..trackedCount];
      var handle := kernel.OpenPidfd(pid);
      assert tracked[..trackedCount] == before;
      match handle
      case NoSuchProcess => return None, false;
      case OpenError => return None, true;
      case Handle(p) =>
        Add(pid, p);
        return Some(trackedCount - 1), false;
    }

    /** A new entry behind the others. */
    method Add(pid: Pid, p: Proc)
      requires Valid() && trackedCount < 4096 && p in kernel.children && kernel.pidOf(p) == pid
      requires forall i | 0 <= i < trackedCount :: tracked[i].fd != p
      modifies this`trackedCount, tracked
      ensures Valid() && trackedCount == old(trackedCount) + 1
      ensures tracked[..trackedCount] == old(tracked[..trackedCount]) + [Tracked(pid, p, false, false)]
    {
      ghost var before := tracked[..trackedCount];
      NewEntryKeepsTracking(before, kernel.sent, signalled, kernel.pidOf, p);
      tracked[trackedCount] := Tracked(pid, p, false, false);
      trackedCount := trackedCount + 1;
      assert tracked[..trackedCount] == before + [Tracked(pid, p, false, false)];
    }

    /** This very child was dealt with: its own entry has the flag, or it is gone. */
    ghost predicate Answered(p: Proc, sig: Signal)
      requires trackedCount <= tracked.Length
      reads this, tracked, kernel
    {
      p in kernel.gone || Flagged(tracked[..trackedCount], p, sig)
    }

    /** Every child of the last list was dealt with. */
    ghost predicate AllAnswered(sig: Signal)
      requires trackedCount <= tracked.Length
      reads this, tracked, kernel
    {
      forall p | p in kernel.scanned :: Answered(p, sig)
    }

    /** Signals a tracked process unless it already was. */
    method SendOnce(i: nat, sig: Signal) returns (failed: bool)
      requires Valid() && i < trackedCount
      modifies this`signalled, tracked, kernel`children, kernel`gone, kernel`time, kernel`sent
      ensures Valid() && kernel.MovedOn(old(kernel.children), old(kernel.gone), old(kernel.time))
      ensures OnlyAdds(old(kernel.sent), kernel.sent, sig)
      ensures !failed ==> tracked[i] == WithFlag(old(tracked[i]), sig)
      ensures failed ==> tracked[i] == old(tracked[i])
      ensures forall j | 0 <= j < trackedCount && j != i :: tracked[j] == old(tracked[j])
    {
      if Flag(tracked[i], sig) {
        return false;
      }
      ghost var before := tracked[..trackedCount];
      ghost var sentBefore := kernel.sent;
      var result := kernel.SendPidfd(tracked[i].fd, sig);
      if result.SendError? {
        return true;
      }
      FlagKeepsTracking(before, sentBefore, signalled, kernel.pidOf, i, sig, result.Delivered?);
      tracked[i] := WithFlag(tracked[i], sig);
      signalled := signalled + 1;
      assert tracked[..trackedCount] == before[i := WithFlag(before[i], sig)];
      return false;
    }

    /** One listed child: signalled unless it already was. */
    method SignalOne(pid: Pid, sig: Signal) returns (failed: bool)
      requires Valid()
      modifies this`trackedCount, this`signalled, tracked
      modifies kernel`children, kernel`gone, kernel`time, kernel`sent
      ensures Valid() && kernel.MovedOn(old(kernel.children), old(kernel.gone), old(kernel.time))
      ensures OnlyAdds(old(kernel.sent), kernel.sent, sig)
      ensures !failed ==> forall p | p in old(kernel.children) && kernel.pidOf(p) == pid :: Answered(p, sig)
      ensures forall p | old(Answered(p, sig)) :: Answered(p, sig)
    {
      ghost var start := tracked[..trackedCount];
      var entry, trackFailed := Track(pid);
      ghost var before := tracked[..trackedCount];
      assert before[..|start|] == start;
      FlaggedStays(start, before, sig);
      if entry.None? {
        return trackFailed;
      }
      failed := SendOnce(entry.value, sig);
      ghost var after := tracked[..trackedCount];
      FlaggedStays(before, after, sig);
      assert after[entry.value].fd == before[entry.value].fd;
      assert !failed ==> Flagged(after, after[entry.value].fd, sig);
    }

    /** `signal_children`: the listed numbers in turn, until one is malformed or cannot be handled. */
    method SignalChildren(sig: Signal) returns (failed: bool)
      requires Valid()
      modifies this`trackedCount, this`signalled, tracked
      modifies kernel`children, kernel`gone, kernel`time, kernel`sent, kernel`scanned
      ensures Valid() && kernel.MovedOn(old(kernel.children), old(kernel.gone), old(kernel.time))
      ensures OnlyAdds(old(kernel.sent), kernel.sent, sig)
      ensures !failed ==> AllAnswered(sig)
    {
      var listed := kernel.ReadChildren();
      if listed.None? {
        return true;
      }
      var pids := listed.value;
      for i := 0 to |pids|
        invariant Valid() && kernel.MovedOn(old(kernel.children), old(kernel.gone), old(kernel.time))
        invariant OnlyAdds(old(kernel.sent), kernel.sent, sig)
        invariant kernel.scanned <= kernel.children + kernel.gone
        invariant forall p | p in kernel.scanned :: kernel.pidOf(p) in pids
        invariant forall p | p in kernel.scanned && kernel.pidOf(p) in pids[..i] :: Answered(p, sig)
      {
        if pids[i] <= 0 || pids[i] > INT_MAX {
          return true;
        }
        var bad := SignalOne(pids[i], sig);
        if bad {
          return true;
        }
        TakeSnoc(pids, i);
      }
      assert pids[..|pids|] == pids;
      return false;
    }

    // ---- one turn of the loop

    /** One wait; the root is marked as reaped as soon as a wait returns it. */
    method WaitOnce() returns (r: Waited)
      requires Valid()
      modifies this`haveRoot, kernel`children, kernel`gone, kernel`time, kernel`ready, kernel`reaped
      ensures Valid() && kernel.MovedOn(old(kernel.children), old(kernel.gone), old(kernel.time))
      ensures old(haveRoot) ==> haveRoot
      ensures r.NoChild? ==> kernel.children == {}
      ensures kernel.ready <= old(kernel.ready) && (r.Reaped? ==> kernel.ready < old(kernel.ready))
    {
      r := kernel.WaitPid();
      if r.Reaped? && r.p == root {
        haveRoot := true;
      }
    }

    /** Reaps whatever is dead; the answer is whether the last wait said that no child remains. */
    method ReapAll() returns (noChild: bool)
      requires Valid()
      modifies this`haveRoot, this`uncertainty
      modifies kernel`children, kernel`gone, kernel`time, kernel`ready, kernel`reaped
      ensures Valid() && kernel.MovedOn(old(kernel.children), old(kernel.gone), old(kernel.time))
      ensures noChild ==> kernel.children == {}
      ensures old(haveRoot) ==> haveRoot
      ensures old(uncertainty).Some? ==> uncertainty.Some?
    {
      kernel.BeginWaiting();
      var last := WaitOnce();
      while last.Reaped?
        invariant Valid() && kernel.MovedOn(old(kernel.children), old(kernel.gone), old(kernel.time))
        invariant (old(haveRoot) ==> haveRoot) && uncertainty == old(uncertainty)
        invariant last.NoChild? ==> kernel.children == {}
        decreases kernel.ready, last.Reaped?
      {
        last := WaitOnce();
      }
      if last.WaitError? {
        uncertainty := Some(WaitFailed);
      }
      return last.NoChild?;
    }

    /** Cancellation and deadline, looked at before anything can be reported; a failed clock is recorded. */
    method LatchReason() returns (now: Option<int>, latched: Option<Reason>)
      requires Valid()
      modifies this`uncertainty, kernel`children, kernel`gone, kernel`time
      ensures Valid() && kernel.MovedOn(old(kernel.children), old(kernel.gone), old(kernel.time))
      ensures reason.Some? ==> latched == reason
      ensures now.Some? ==> old(kernel.time) <= now.value <= kernel.time
      ensures now.Some? && latched.None? ==> now.value - started < timeout
      ensures now.None? ==> uncertainty.Some?
      ensures old(uncertainty).Some? ==> uncertainty.Some?
      ensures now.Some? ==> uncertainty == old(uncertainty)
    {
      latched := reason;
      var cancelled := kernel.Cancelled();
      if latched.None? && cancelled {
        latched := Some(Cancelled);
      }
      now := kernel.ClockMs();
      if now.None? {
        uncertainty := Some(ClockFailed);
      } else if latched.None? && now.value - started >= timeout {
        latched := Some(TimedOut);
      }
    }

    /** The only report that can claim custody: no child remains and the root was reaped. */
    method ReportSettled(latched: Option<Reason>) returns (report: Report)
      requires Valid() && haveRoot && kernel.children == {} && (reason.Some? ==> latched == reason)
      modifies this`uncertainty, kernel`children, kernel`gone, kernel`time
      ensures Valid() && kernel.MovedOn(old(kernel.children), old(kernel.gone), old(kernel.time))
      ensures Honest(report, kernel.children) && report.signalled == signalled
      ensures report.haveRoot == haveRoot && report.uncertainty == uncertainty
      ensures report.custody == UncertainCustody <==> uncertainty.Some?
      ensures report.custody == Completed ==> latched.None?
      ensures old(uncertainty).Some? ==> uncertainty.Some?
    {
      var launch := kernel.ReadLaunch();
      if launch.LaunchInvalid? {
        uncertainty := Some(ExecReportInvalid);
      }
      var final := latched;
      var cancelled := kernel.Cancelled();
      if final.None? && cancelled {
        final := Some(Cancelled);
      }
      var settled := kernel.ClockMs();
      if settled.None? {
        uncertainty := Some(ClockFailed);
      } else if final.None? && settled.value - started >= timeout {
        final := Some(TimedOut);
      }
      var error :=
        if final.Some? then Some(Because(final.value))
        else if launch.LaunchErrno? then Some(LaunchFailed(launch.errno))
        else None;
      return Report(if uncertainty.Some? then UncertainCustody else if final.Some? then ReapedCustody else Completed,
                    error, uncertainty, haveRoot, signalled);
    }

    /** Where draining stands: when it started, and the time that counts for it. */
    method StartDraining(clock: Option<int>, latched: Option<Reason>) returns (now: int)
      requires Valid() && (reason.Some? ==> latched == reason)
      modifies this`reason, this`drainStart
      ensures Valid()
      ensures reason == if latched.None? && haveRoot then Some(Leak) else latched
      ensures clock.Some? ==> now == clock.value
      ensures clock.None? ==> now == if old(drainStart).Some? then old(drainStart).value else started + timeout
      ensures old(drainStart).Some? ==> drainStart == old(drainStart)
      ensures old(drainStart).None? && reason.Some? ==> drainStart == Some(now)
    {
      now := if clock.Some? then clock.value else if drainStart.Some? then drainStart.value else started + timeout;
      reason := latched;
      if reason.None? && haveRoot {
        reason := Some(Leak);
      }
      if reason.Some? && drainStart.None? {
        drainStart := Some(now);
      }
    }

    /** While draining: one signal for every child, and an end to waiting when the drain time is over. */
    method Drain(now: int, why: Reason) returns (done: Option<Report>)
      requires Valid() && drainStart.Some?
      modifies this`trackedCount, this`signalled, this`uncertainty, tracked
      modifies kernel`children, kernel`gone, kernel`time, kernel`sent, kernel`scanned
      ensures Valid() && kernel.MovedOn(old(kernel.children), old(kernel.gone), old(kernel.time))
      ensures old(uncertainty).Some? ==> uncertainty.Some?
      ensures uncertainty.None? ==> AllAnswered(if now - drainStart.value >= termMs then Kill else Term)
      ensures done.Some? <==> now - drainStart.value >= drainMs
      ensures done.Some? ==> done.value.custody == UncertainCustody && done.value.signalled == signalled
      ensures OnlyAdds(old(kernel.sent), kernel.sent, if now - drainStart.value >= termMs then Kill else Term)
    {
      var failed := SignalChildren(if now - drainStart.value >= termMs then Kill else Term);
      if failed {
        uncertainty := Some(ChildScanFailed);
      }
      if now - drainStart.value >= drainMs {
        var what := if uncertainty.Some? then uncertainty else Some(DrainUnconfirmed);
        return Some(Report(UncertainCustody, Some(Because(why)), what, haveRoot, signalled));
      }
      return None;
    }

    /** How much of the clock is left before the present phase ends by itself. */
    ghost function Remaining(): nat
      reads this, kernel
    {
      var end := if reason.None? then started + timeout else if drainStart.Some? then drainStart.value + drainMs else 0;
      if end > kernel.time then end - kernel.time else 0
    }

    ghost predicate Latched(before: Option<Reason>, start: Option<int>, uncertain: bool, root: bool)
      reads this
    {
      && (before.Some? ==> reason == before)
      && (start.Some? ==> drainStart == start)
      && (uncertain ==> uncertainty.Some?)
      && (root ==> haveRoot)
    }

    /** Every signal added is a TERM, or a KILL sent no earlier than the term time after draining began. */
    ghost predicate SignalsInOrder(before: seq<(Proc, Signal)>)
      reads this, kernel
    {
      && before <= kernel.sent
      && (reason.None? ==> kernel.sent == before)
      && forall i | |before| <= i < |kernel.sent| && kernel.sent[i].1 == Kill ::
           drainStart.Some? && kernel.time - drainStart.value >= termMs
    }

    /** The rest of a turn that did not settle: count a failed clock, drain if there is a reason to, and nap. */
    method Continue(clock: Option<int>, latched: Option<Reason>) returns (done: Option<Report>)
      requires Valid() && (reason.Some? ==> latched == reason)
      requires clock.Some? ==> clock.value <= kernel.time
      requires clock.Some? && latched.None? ==> clock.value - started < timeout
      requires clock.None? ==> uncertainty.Some?
      modifies this`uncertainty, this`reason, this`drainStart, this`clockFailures
      modifies this`trackedCount, this`signalled, tracked
      modifies kernel`children, kernel`gone, kernel`time, kernel`sent, kernel`scanned
      ensures Valid()
      ensures Latched(old(reason), old(drainStart), old(uncertainty).Some?, old(haveRoot))
      ensures SignalsInOrder(old(kernel.sent))
      ensures done.Some? ==> done.value.custody == UncertainCustody && done.value.signalled == signalled
      ensures done.None? && reason.Some? && uncertainty.None? ==> AllAnswered(Term) || AllAnswered(Kill)
      ensures done.None? ==> clockFailures == if clock.Some? then old(clockFailures) else old(clockFailures) + 1
      ensures done.None? && clock.Some? ==> kernel.time > clock.value
      ensures done.None? && clock.Some? && reason.None? ==> clock.value < started + timeout
      ensures done.None? && clock.Some? && reason.Some? ==> clock.value < drainStart.value + drainMs
    {
      if clock.None? {
        if clockFailures == 7000 {
          var why := if latched.Some? then Because(latched.value) else SupervisorFailed;
          return Some(Report(UncertainCustody, Some(why), uncertainty, haveRoot, signalled));
        }
        clockFailures := clockFailures + 1;
      }
      var now := StartDraining(clock, latched);
      done := DrainOrNap(now);
    }

    /** Drains if there is a reason to; then, unless that was the end, a nap. */
    method DrainOrNap(now: int) returns (done: Option<Report>)
      requires Valid()
      requires drainStart.Some? && now - drainStart.value >= termMs ==> now <= kernel.time
      modifies this`uncertainty, this`trackedCount, this`signalled, tracked
      modifies kernel`children, kernel`gone, kernel`time, kernel`sent, kernel`scanned
      ensures Valid() && SignalsInOrder(old(kernel.sent)) && kernel.time >= old(kernel.time)
      ensures old(uncertainty).Some? ==> uncertainty.Some?
      ensures done.Some? ==> done.value.custody == UncertainCustody && done.value.signalled == signalled
      ensures done.None? && reason.Some? && uncertainty.None? ==> AllAnswered(Term) || AllAnswered(Kill)
      ensures done.None? ==> kernel.time > old(kernel.time)
      ensures done.None? && reason.Some? ==> now < drainStart.value + drainMs
    {
      if reason.Some? {
        done := Drain(now, reason.value);
        if done.Some? {
          return;
        }
      }
      kernel.Nap();
      return None;
    }

    /** One turn: reap, latch, report if all is settled, otherwise go on. */
    method Turn() returns (done: Option<Report>)
      requires Valid()
      modifies this`haveRoot, this`uncertainty, this`reason, this`drainStart, this`clockFailures
      modifies this`trackedCount, this`signalled, tracked, kernel
      ensures Valid()
      ensures Latched(old(reason), old(drainStart), old(uncertainty).Some?, old(haveRoot))
      ensures SignalsInOrder(old(kernel.sent))
      ensures done.Some? ==> Honest(done.value, kernel.children) && done.value.signalled == signalled
      ensures done.Some? && done.value.custody != UncertainCustody ==>
                root in kernel.reaped && uncertainty.None? && done.value.haveRoot && done.value.uncertainty.None?
      ensures done.Some? && done.value.custody == Completed ==> old(reason).None?
      ensures done.None? && reason.Some? && uncertainty.None? ==> AllAnswered(Term) || AllAnswered(Kill)
      ensures done.None? ==> old(clockFailures) <= clockFailures
      ensures done.None? && clockFailures == old(clockFailures) && old(reason).None? && reason.None? ==> Remaining() < old(Remaining())
      ensures done.None? && clockFailures == old(clockFailures) && old(reason).Some? ==> Remaining() < old(Remaining())
    {
      var noChild := ReapAll();
      var clock, latched := LatchReason();
      if noChild && haveRoot {
        var report := ReportSettled(latched);
        return Some(report);
      }
      done := Continue(clock, latched);
    }

    /** The endless loop, which ends: failed clock reads are counted out, and otherwise the clock advances. */
    method Run() returns (report: Report)
      requires Valid() && kernel.sent == []
      modifies this`haveRoot, this`uncertainty, this`reason, this`drainStart, this`clockFailures
      modifies this`trackedCount, this`signalled, tracked, kernel
      ensures Valid()
      ensures Honest(report, kernel.children) && report.signalled == signalled
      ensures forall i, j | 0 <= i < j < |kernel.sent| :: kernel.sent[i] != kernel.sent[j]
      ensures report.signalled == Flags(tracked[..trackedCount])
      ensures report.custody != UncertainCustody ==>
                kernel.children == {} && root in kernel.reaped && uncertainty.None? && old(uncertainty).None?
      ensures report.custody == Completed ==> old(reason).None?
    {
      while true
        invariant Valid()
        invariant old(uncertainty).Some? ==> uncertainty.Some?
        invariant old(reason).Some? ==> reason == old(reason)
        decreases 7000 - clockFailures, reason.None?, Remaining()
      {
        var done := Turn();
        if done.Some? {
          return done.value;
        }
      }
    }
  }

  /** Custody is claimed only with no child left, the root reaped and nothing uncertain. */
  predicate Honest(report: Report, children: set<Proc>) {
    && (report.custody == UncertainCustody || (children == {} && report.haveRoot && report.uncertainty.None?))
    && (report.custody == Completed ==> report.error.None? || report.error.value.LaunchFailed?)
    && (report.custody == ReapedCustody ==> report.error.Some? && report.error.value.Because?)
  }

  predicate OnlyAdds(before: seq<(Proc, Signal)>, after: seq<(Proc, Signal)>, sig: Signal) {
    before <= after && forall i | |before| <= i < |after| :: after[i].1 == sig
  }
}
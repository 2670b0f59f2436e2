/**
  How one process orders its marker writes and how one write replaces the file.

  `MarkerWriteQueue` is `serializeMarkerWrite`: a map from directory to the promise of the latest
  call. A promise is named by the number of the call that created it; a call runs once the promise
  it found on entry has resolved.

  `MarkerFile` is an open marker whose writes may be short and whose operations may fail.
*/
module MarkerWrites {
  import opened Bytes
  import opened Wrappers

  type Directory = string

  datatype Status = Waiting | Running | Done

  datatype Call = Call(directory: Directory, previous: Option<nat>, status: Status)

  predicate Started(c: Call) {
    c.status != Waiting
  }

  /** Of two calls on one directory the later one starts only after the earlier one is done. */
  ghost predicate InCallOrder(calls: seq<Call>) {
    forall i, j :: 0 <= i < j < |calls| && calls[i].directory == calls[j].directory && Started(calls[j]) ==>
      calls[i].status == Done
  }

  /** `k` is the latest call on directory `d`. */
  ghost predicate IsLatest(calls: seq<Call>, d: Directory, k: nat) {
    && k < |calls| && calls[k].directory == d
    && forall i | 0 <= i < |calls| && calls[i].directory == d :: i <= k
  }

  ghost predicate AllDone(calls: seq<Call>, d: Directory, bound: nat)
    requires bound <= |calls|
  {
    forall i | 0 <= i < bound && calls[i].directory == d :: calls[i].status == Done
  }

  /** What the map and the promise chain keep together. */
  ghost predicate QueueInv(tails: map<Directory, nat>, calls: seq<Call>) {
    && InCallOrder(calls)
    && (forall d | d in tails :: IsLatest(calls, d, tails[d]) && calls[tails[d]].status != Done)
    && (forall d | d !in tails :: AllDone(calls, d, |calls|))
    && (forall j | 0 <= j < |calls| :: PreviousIsRight(calls, j))
  }

  ghost predicate PreviousIsRight(calls: seq<Call>, j: nat)
    requires j < |calls|
  {
    match calls[j].previous
    case None => AllDone(calls, calls[j].directory, j)
    case Some(p) => p < j && IsLatest(calls[..j], calls[j].directory, p)
  }

  class MarkerWriteQueue {
    var markerWrites: map<Directory, nat>
    var calls: seq<Call>

    ghost predicate Valid()
      reads this
    {
      QueueInv(markerWrites, calls)
    }

    constructor ()
      ensures Valid() && calls == []
    {
      markerWrites := map[];
      calls := [];
    }

    /** Entering is synchronous: it remembers the latest promise and becomes the latest. */
    method Enter(d: Directory) returns (k: nat)
      requires Valid()
      modifies this
      ensures Valid() && k == old(|calls|)
      ensures calls == old(calls) + [Call(d, if d in old(markerWrites) then Some(old(markerWrites)[d]) else None, Waiting)]
    {
      k := |calls|;
      var previous := if d in markerWrites then Some(markerWrites[d]) else None;
      ghost var before := calls;
      calls := calls + [Call(d, previous, Waiting)];
      markerWrites := markerWrites[d := k];
      assert calls[..k] == before;
      forall j | 0 <= j < |calls|
        ensures PreviousIsRight(calls, j)
      {
        if j < k {
          assert PreviousIsRight(before, j) && calls[..j] == before[..j];
        }
      }
      assert forall d' | d' !in markerWrites :: AllDone(before, d', |before|);
    }

    /** The action of call `k` starts once the promise it awaits has resolved. */
    method Start(k: nat)
      requires Valid() && k < |calls| && calls[k].status == Waiting
      requires calls[k].previous.Some? ==>
                 calls[k].previous.value < |calls| && calls[calls[k].previous.value].status == Done
      modifies this`calls
      ensures Valid()
      ensures calls == old(calls)[k := old(calls)[k].(status := Running)]
    {
      ghost var before := calls;
      assert PreviousIsRight(before, k);
      calls := calls[k := calls[k].(status := Running)];
      KeepsChain(before, calls, k);
    }

    /** The `finally` block: forget the promise if it is still the latest, then resolve it. */
    method Finish(k: nat)
      requires Valid() && k < |calls| && calls[k].status == Running
      modifies this
      ensures Valid()
      ensures calls == old(calls)[k := old(calls)[k].(status := Done)]
    {
      ghost var before := calls;
      var d := calls[k].directory;
      if d in markerWrites && markerWrites[d] == k {
        markerWrites := markerWrites - {d};
      }
      calls := calls[k := calls[k].(status := Done)];
      KeepsChain(before, calls, k);
    }
  }

  /** Advancing one call keeps every promise chain as it was. */
  lemma KeepsChain(before: seq<Call>, after: seq<Call>, k: nat)
    requires k < |before| == |after| && after == before[k := before[k].(status := after[k].status)]
    requires forall j | 0 <= j < |before| :: PreviousIsRight(before, j)
    requires before[k].status != Done
    ensures forall j | 0 <= j < |after| :: PreviousIsRight(after, j)
  {
    forall j | 0 <= j < |after|
      ensures PreviousIsRight(after, j)
    {
      assert PreviousIsRight(before, j);
      match after[j].previous
      case None =>
      case Some(p) =>
        assert IsLatest(before[..j], before[j].directory, p);
        assert forall i | 0 <= i < j :: after[..j][i].directory == before[..j][i].directory;
    }
  }

  /** The actions on one directory run in call order and never two at a time. */
  lemma NeverOverlapped(tails: map<Directory, nat>, calls: seq<Call>, i: nat, j: nat)
    requires QueueInv(tails, calls)
    requires i < |calls| && j < |calls| && calls[i].directory == calls[j].directory
    requires calls[i].status == Running && Started(calls[j]) && i != j
    ensures calls[j].status == Done && j < i
  {
  }

  /** Something happens to the queue: a call, or the start or the end of the action of an earlier one. */
  datatype Event = Called(directory: Directory) | ActionStarts(k: nat) | ActionEnds(k: nat)

  /** What the promises allow: an action starts behind its previous promise and ends once it runs. */
  predicate Possible(calls: seq<Call>, e: Event) {
    match e
    case Called(_) => true
    case ActionStarts(k) =>
      && k < |calls| && calls[k].status == Waiting
      && (calls[k].previous.Some? ==>
            calls[k].previous.value < |calls| && calls[calls[k].previous.value].status == Done)
    case ActionEnds(k) => k < |calls| && calls[k].status == Running
  }

  /** Any events in any order the promises allow never run two actions on one directory at once, or out of turn. */
  method RunEvents(events: seq<Event>) returns (queue: MarkerWriteQueue)
    ensures fresh(queue) && queue.Valid()
    ensures forall i, j | 0 <= i < |queue.calls| && 0 <= j < |queue.calls| && i != j ::
              && queue.calls[i].directory == queue.calls[j].directory
              && queue.calls[i].status == Running && Started(queue.calls[j])
              ==> queue.calls[j].status == Done && j < i
  {
    queue := new MarkerWriteQueue();
    for n := 0 to |events|
      invariant fresh(queue) && queue.Valid()
    {
      var e := events[n];
      if Possible(queue.calls, e) {
        match e
        case Called(d) =>
          var _ := queue.Enter(d);
        case ActionStarts(k) =>
          queue.Start(k);
        case ActionEnds(k) =>
          queue.Finish(k);
      }
    }
  }

  /** The first unfinished call on a directory is never blocked: the queue cannot lock up. */
  lemma FirstWaitingMayStart(tails: map<Directory, nat>, calls: seq<Call>, k: nat)
    requires QueueInv(tails, calls)
    requires k < |calls| && calls[k].status == Waiting && AllDone(calls, calls[k].directory, k)
    ensures calls[k].previous.Some? ==> calls[k].previous.value < k && calls[calls[k].previous.value].status == Done
  {
    assert PreviousIsRight(calls, k);
    if calls[k].previous.Some? {
      var p := calls[k].previous.value;
      assert calls[..k][p] == calls[p];
    }
  }

  /** Overwrites `content` from `position` with `chunk`, growing the file when it reaches past the end. */
  function WrittenAt(content: seq<Byte>, position: nat, chunk: seq<Byte>): seq<Byte>
    requires position <= |content|
  {
    content[..position] + chunk + (if position + |chunk| < |content| then content[position + |chunk|..] else [])
  }

  class MarkerFile {
    var content: seq<Byte>
    var synced: bool

    constructor (initial: seq<Byte>)
      ensures content == initial && synced
    {
      content := initial;
      synced := true;
    }

    /** One `write` call: it may fail, and otherwise stores any prefix of what it was given. */
    method Write(chunk: seq<Byte>, position: nat) returns (bytesWritten: Option<nat>)
      requires position <= |content|
      modifies this
      ensures bytesWritten.None? ==> content == old(content) && synced == old(synced)
      ensures bytesWritten.Some? ==>
                && bytesWritten.value <= |chunk|
                && content == WrittenAt(old(content), position, chunk[..bytesWritten.value])
                && !synced
    {
      var failed: bool := *;
      var stored: int := *;
      if failed {
        return None;
      }
      var n: nat := if stored < 0 then 0 else if stored > |chunk| then |chunk| else stored;
      content := content[..position] + chunk[..n] + (if position + n < |content| then content[position + n..] else []);
      synced := false;
      return Some(n);
    }

    method Truncate(length: nat) returns (ok: bool)
      requires length <= |content|
      modifies this
      ensures content == (if ok then old(content)[..length] else old(content))
      ensures synced ==> old(synced)
    {
      ok := *;
      if ok {
        content := content[..length];
        synced := false;
      }
    }

    method Sync() returns (ok: bool)
      modifies this`synced
      ensures ok ==> synced
    {
      ok := *;
      synced := ok;
    }

    /** The write loop: how many bytes went over the old content before it ended or failed. */
    method WriteAll(bytes: seq<Byte>) returns (ok: bool, written: nat)
      modifies this
      ensures written <= |bytes| && (ok ==> written == |bytes|)
      ensures content == WrittenAt(old(content), 0, bytes[..written])
    {
      ghost var initial := content;
      written := 0;
      assert WrittenAt(initial, 0, bytes[..0]) == initial;
      while written < |bytes|
        invariant written <= |bytes|
        invariant content == WrittenAt(initial, 0, bytes[..written])
      {
        var result := Write(bytes[written..], written);
        if result.None? {
          return false, written;
        }
        WritesCompose(initial, bytes, written, result.value);
        if result.value < 1 {
          return false, written;
        }
        written := written + result.value;
      }
      return true, written;
    }

    /**
      `publishRecord`: rewrite the inode in place, cut off what is left of a longer predecessor, and
      sync. Success means the file holds exactly `bytes` on disk. A failure before the last byte was
      written leaves a prefix of `bytes` over the old text.
    */
    method PublishRecord(bytes: seq<Byte>) returns (ok: bool)
      modifies this
      ensures ok ==> content == bytes && synced
      ensures !ok ==> exists n: nat | n <= |bytes| ::
                        content == WrittenAt(old(content), 0, bytes[..n]) || (n == |bytes| && content == bytes)
    {
      ghost var initial := content;
      var all, written := WriteAll(bytes);
      if !all {
        return false;
      }
      assert bytes[..|bytes|] == bytes;
      var cut := Truncate(|bytes|);
      if !cut {
        return false;
      }
      assert content == bytes;
      ok := Sync();
    }
  }

  /** Writing the next part after the part already written is writing both at once. */
  lemma WritesCompose(initial: seq<Byte>, bytes: seq<Byte>, written: nat, n: nat)
    requires written + n <= |bytes|
    ensures WrittenAt(WrittenAt(initial, 0, bytes[..written]), written, bytes[written..][..n])
         == WrittenAt(initial, 0, bytes[..written + n])
  {
    assert bytes[..written] + bytes[written..][..n] == bytes[..written + n];
  }
}

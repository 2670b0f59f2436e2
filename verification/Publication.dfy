/**
  Ready-last publication. A claimed directory is filled, renamed into place, made durable, and only
  then marked with READY. Every operation on the disk may fail; every disk it ever had is remembered,
  so that a crash at any step can be looked at.
*/
module Publication {
  import opened Bytes
  import opened PublicationDisk
  import opened Wrappers

  datatype Finalization = PendingFinalization | Durable | UncertainFinalization

  datatype OutputError =
    | AlreadyPublished | FileNameInvalid | ReadyPremature | IoFailure | TargetExists | PublicationUncertain
    | NotDurable | ReadyExists | ForeignEntry | NotFinalized | Untracked

  datatype State = State(
    disk: Disk,
    trace: seq<Disk>,
    published: bool,
    stagingDisposed: bool,
    closed: bool,
    finalization: Finalization,
    leaves: map<string, Leaf>,
    marker: Option<seq<Byte>>)

  // ----------------------------------------------------------------------- invariant

  /** Names hold what they may hold, and nothing may hold a file that does not exist. */
  predicate DiskSound(d: Disk) {
    forall name | name in d.entries ::
      && d.entries[name].now in d.entries[name].maybe
      && forall x | x in d.entries[name].maybe && x.Some? :: x.value < |d.files|
  }

  /** Every tracked leaf stands under its name, written and synced. */
  predicate LeavesInPlace(d: Disk, leaves: map<string, Leaf>) {
    forall name | name in leaves ::
      && At(d, name).now == Some(leaves[name].file)
      && leaves[name].file < |d.files| && d.files[leaves[name].file] == File(leaves[name].bytes, true)
  }

  /** A published directory stands in the target for certain, with every leaf it was published with. */
  predicate PublicationCertain(d: Disk, leaves: map<string, Leaf>) {
    && d.target == Presence(true, {true})
    && forall name | name in leaves && name != READY :: LeafDurable(d, name, leaves[name])
  }

  /** READY can be found only once it was renamed into a published directory, and then it stays there. */
  predicate MarkerTells(s: State) {
    && (s.marker.None? ==> forall i | 0 <= i < |s.trace| :: !ReadyPossible(s.trace[i]))
    && (s.marker.Some? ==> s.published && READY in Names(s.disk))
    && (READY in s.leaves ==> s.marker == Some(s.leaves[READY].bytes))
  }

  predicate FinalizationTells(s: State) {
    && (s.finalization == Durable ==> READY in s.leaves && LeafDurable(s.disk, READY, s.leaves[READY]))
    && (s.finalization == UncertainFinalization ==> s.published && (READY in s.leaves || Names(s.disk) != s.leaves.Keys))
  }

  predicate EverySafe(trace: seq<Disk>, leaves: map<string, Leaf>, marker: Option<seq<Byte>>) {
    forall i | 0 <= i < |trace| :: CrashSafe(trace[i], leaves, marker)
  }

  predicate Inv(s: State) {
    && s.trace != [] && s.trace[|s.trace| - 1] == s.disk
    && DiskSound(s.disk)
    && LeavesInPlace(s.disk, s.leaves)
    && (s.published ==> PublicationCertain(s.disk, s.leaves))
    && MarkerTells(s)
    && FinalizationTells(s)
    && EverySafe(s.trace, s.leaves, s.marker)
  }

  function Moved(s: State, d: Disk): State {
    s.(disk := d, trace := s.trace + [d])
  }

  // ------------------------------------------------------------- steps that touch the disk

  lemma ReadyAbsentWithoutMarker(s: State)
    requires Inv(s) && s.marker.None?
    ensures !ReadyPossible(s.disk) && READY !in Names(s.disk) && READY !in s.leaves
    ensures At(s.disk, READY).now == None
  {
    assert !ReadyPossible(s.trace[|s.trace| - 1]);
    assert At(s.disk, READY).now in At(s.disk, READY).maybe;
  }

  /** A new disk on which READY is as possible as before, or impossible, and as safe. */
  lemma MoveKeepsTrace(s: State, d: Disk)
    requires Inv(s) && (ReadyPossible(d) ==> ReadyPossible(s.disk)) && CrashSafe(d, s.leaves, s.marker)
    ensures EverySafe(Moved(s, d).trace, s.leaves, s.marker)
    ensures s.marker.None? ==> forall i | 0 <= i < |Moved(s, d).trace| :: !ReadyPossible(Moved(s, d).trace[i])
  {
    assert ReadyPossible(s.disk) ==> ReadyPossible(s.trace[|s.trace| - 1]);
  }

  /** What a new disk must still say for the invariant to go on. */
  lemma StepKeepsInv(s: State, d: Disk)
    requires Inv(s) && DiskSound(d) && LeavesInPlace(d, s.leaves)
    requires s.published ==> PublicationCertain(d, s.leaves)
    requires (ReadyPossible(d) ==> ReadyPossible(s.disk)) && CrashSafe(d, s.leaves, s.marker)
    requires s.marker.Some? ==> READY in Names(d)
    requires FinalizationTells(Moved(s, d))
    ensures Inv(Moved(s, d))
  {
    MoveKeepsTrace(s, d);
  }

  /** No leaf moved and no leaf's file changed. */
  predicate SameLeaves(a: Disk, b: Disk, leaves: map<string, Leaf>) {
    && a.target == b.target
    && forall n | n in leaves ::
      && At(b, n) == At(a, n) && leaves[n].file < |a.files| && leaves[n].file < |b.files|
      && b.files[leaves[n].file] == a.files[leaves[n].file]
  }

  lemma LeavesStay(a: Disk, b: Disk, leaves: map<string, Leaf>)
    requires LeavesInPlace(a, leaves) && SameLeaves(a, b, leaves)
    ensures LeavesInPlace(b, leaves)
    ensures PublicationCertain(a, leaves) ==> PublicationCertain(b, leaves)
  {
  }

  /** Nothing that READY may hold changed either. */
  lemma StaysCrashSafe(a: Disk, b: Disk, leaves: map<string, Leaf>, marker: Option<seq<Byte>>)
    requires CrashSafe(a, leaves, marker) && SameLeaves(a, b, leaves) && At(b, READY) == At(a, READY)
    requires forall x | x in At(a, READY).maybe && x.Some? && x.value < |a.files| ::
               x.value < |b.files| && b.files[x.value] == a.files[x.value]
    ensures CrashSafe(b, leaves, marker) && (ReadyPossible(b) ==> ReadyPossible(a))
  {
  }

  lemma CreateKeepsInv(s: State, name: string)
    requires Inv(s) && name != READY && name !in Names(s.disk)
    requires s.finalization == UncertainFinalization ==> READY in s.leaves
    ensures Inv(Moved(s, Created(s.disk, name)))
  {
    var d := Created(s.disk, name);
    CreatedNames(s.disk, name);
    CreateKeepsSound(s.disk, name);
    assert SameLeaves(s.disk, d, s.leaves) by {
      assert forall n | n in s.leaves :: n in Names(s.disk);
    }
    LeavesStay(s.disk, d, s.leaves);
    LastIsSafe(s);
    StaysCrashSafe(s.disk, d, s.leaves, s.marker);
    StepKeepsInv(s, d);
  }

  lemma LastIsSafe(s: State)
    requires Inv(s)
    ensures CrashSafe(s.disk, s.leaves, s.marker)
  {
    assert s.trace[|s.trace| - 1] == s.disk;
  }

  lemma SameEntries(a: Disk, b: Disk)
    requires a.entries == b.entries
    ensures Names(a) == Names(b) && forall n :: At(a, n) == At(b, n)
  {
  }

  lemma CreateKeepsSound(d: Disk, name: string)
    requires DiskSound(d)
    ensures DiskSound(Created(d, name))
  {
    var after := Created(d, name);
    forall n | n in after.entries
      ensures after.entries[n].now in after.entries[n].maybe
      ensures forall x | x in after.entries[n].maybe && x.Some? :: x.value < |after.files|
    {
      if n == name {
        assert forall x | x in At(d, name).maybe && x.Some? :: x.value < |d.files|;
      }
    }
  }

  /** Writing or syncing a file that neither a leaf nor READY may hold. */
  lemma FileStepKeepsInv(s: State, f: FileId, file: File)
    requires Inv(s) && f < |s.disk.files|
    requires forall name | name in s.leaves :: s.leaves[name].file != f
    requires Some(f) !in At(s.disk, READY).maybe
    ensures Inv(Moved(s, WithFile(s.disk, f, file)))
  {
    var d := WithFile(s.disk, f, file);
    SameEntries(s.disk, d);
    LeavesStay(s.disk, d, s.leaves);
    LastIsSafe(s);
    StaysCrashSafe(s.disk, d, s.leaves, s.marker);
    StepKeepsInv(s, d);
  }

  lemma SyncedAt(d: Disk, name: string)
    requires DiskSound(d)
    ensures At(DirectorySynced(d), name) == Slot(At(d, name).now, {At(d, name).now})
    ensures At(d, name).now in At(d, name).maybe
  {
  }

  lemma DirectorySyncKeepsInv(s: State)
    requires Inv(s)
    ensures Inv(Moved(s, DirectorySynced(s.disk)))
    ensures forall name | name in s.leaves :: LeafDurable(DirectorySynced(s.disk), name, s.leaves[name])
  {
    var d := DirectorySynced(s.disk);
    AllSyncedAt(s.disk);
    assert Names(d) == Names(s.disk);
    LastIsSafe(s);
    SyncKeepsCrashSafe(s.disk, s.leaves, s.marker);
    StepKeepsInv(s, d);
  }

  lemma AllSyncedAt(d: Disk)
    requires DiskSound(d)
    ensures forall n :: At(DirectorySynced(d), n) == Slot(At(d, n).now, {At(d, n).now}) && At(d, n).now in At(d, n).maybe
  {
    forall n
      ensures At(DirectorySynced(d), n) == Slot(At(d, n).now, {At(d, n).now}) && At(d, n).now in At(d, n).maybe
    {
      SyncedAt(d, n);
    }
  }

  lemma SyncKeepsCrashSafe(d: Disk, leaves: map<string, Leaf>, marker: Option<seq<Byte>>)
    requires DiskSound(d) && CrashSafe(d, leaves, marker)
    ensures ReadyPossible(DirectorySynced(d)) ==> ReadyPossible(d)
    ensures CrashSafe(DirectorySynced(d), leaves, marker)
  {
    AllSyncedAt(d);
  }

  /** Renames and syncs in the parent happen only before publication, when READY is impossible. */
  lemma ParentStepKeepsInv(s: State, d: Disk)
    requires Inv(s) && !s.published && d.entries == s.disk.entries && d.files == s.disk.files
    ensures Inv(Moved(s, d))
  {
    ReadyAbsentWithoutMarker(s);
    assert forall n :: At(d, n) == At(s.disk, n);
    MoveKeepsTrace(s, d);
  }

  /** The commit: a synced marker file moves under the name READY in a directory that is certain. */
  lemma CommitKeepsInv(s: State, pending: string, f: FileId, bytes: seq<Byte>)
    requires Inv(s) && s.published && s.marker.None? && s.finalization == PendingFinalization
    requires pending != READY && pending !in s.leaves && At(s.disk, pending).now == Some(f)
    requires f < |s.disk.files| && s.disk.files[f] == File(bytes, true)
    ensures Inv(Moved(s, EntryRenamed(s.disk, pending, READY)).(marker := Some(bytes)))
    ensures READY in Names(EntryRenamed(s.disk, pending, READY))
    ensures At(EntryRenamed(s.disk, pending, READY), READY).now == Some(f)
  {
    var d := EntryRenamed(s.disk, pending, READY);
    ReadyAbsentWithoutMarker(s);
    CommitKeepsSound(s.disk, pending, f);
    LeavesStay(s.disk, d, s.leaves);
    CommitIsSafe(s.disk, s.leaves, pending, f, bytes);
    forall i | 0 <= i < |s.trace|
      ensures CrashSafe(s.trace[i], s.leaves, Some(bytes))
    {
      assert !ReadyPossible(s.trace[i]);
    }
  }

  lemma CommitIsSafe(d: Disk, leaves: map<string, Leaf>, pending: string, f: FileId, bytes: seq<Byte>)
    requires !ReadyPossible(d) && PublicationCertain(d, leaves) && pending != READY && pending !in leaves
    requires At(d, pending).now == Some(f) && f < |d.files| && d.files[f] == File(bytes, true)
    ensures CrashSafe(EntryRenamed(d, pending, READY), leaves, Some(bytes))
  {
    var after := EntryRenamed(d, pending, READY);
    assert At(after, READY).maybe == At(d, READY).maybe + {Some(f)};
    assert forall x | x in At(d, READY).maybe :: x.None?;
    assert forall n | n in leaves && n != READY :: At(after, n) == At(d, n);
  }

  lemma CommitKeepsSound(d: Disk, pending: string, f: FileId)
    requires DiskSound(d) && pending != READY && At(d, pending).now == Some(f) && f < |d.files|
    ensures DiskSound(EntryRenamed(d, pending, READY))
  {
    var after := EntryRenamed(d, pending, READY);
    forall n | n in after.entries
      ensures after.entries[n].now in after.entries[n].maybe
      ensures forall x | x in after.entries[n].maybe && x.Some? :: x.value < |after.files|
    {
      assert forall x | x in At(d, n).maybe && x.Some? :: x.value < |d.files|;
    }
  }

  // ------------------------------------------------------- steps that touch the bookkeeping

  lemma TrackKeepsInv(s: State, name: string, leaf: Leaf)
    requires Inv(s) && !s.published && name != READY
    requires At(s.disk, name).now == Some(leaf.file)
    requires leaf.file < |s.disk.files| && s.disk.files[leaf.file] == File(leaf.bytes, true)
    ensures Inv(s.(leaves := s.leaves[name := leaf]))
  {
    forall i | 0 <= i < |s.trace|
      ensures CrashSafe(s.trace[i], s.leaves[name := leaf], s.marker)
    {
      assert !ReadyPossible(s.trace[i]);
    }
  }

  lemma PublishedKeepsInv(s: State)
    requires Inv(s) && PublicationCertain(s.disk, s.leaves)
    ensures Inv(s.(published := true))
  {
  }

  lemma TrackReadyKeepsInv(s: State, f: FileId, bytes: seq<Byte>)
    requires Inv(s) && s.marker == Some(bytes) && s.finalization == PendingFinalization
    requires At(s.disk, READY).now == Some(f)
    ensures Inv(s.(leaves := s.leaves[READY := Leaf(f, bytes)]))
  {
    assert ReadyPossible(s.disk);
    assert CrashSafe(s.trace[|s.trace| - 1], s.leaves, s.marker);
    assert Some(f) in At(s.disk, READY).maybe;
    forall i | 0 <= i < |s.trace|
      ensures CrashSafe(s.trace[i], s.leaves[READY := Leaf(f, bytes)], s.marker)
    {
      assert CrashSafe(s.trace[i], s.leaves, s.marker);
    }
  }

  // ------------------------------------------------------------------------- the class

  predicate IsNameChar(c: char) {
    'a' <= c <= 'z' || 'A' <= c <= 'Z' || '0' <= c <= '9' || c == '.' || c == '_' || c == '-'
  }

  predicate ValidName(name: string) {
    name != "" && forall i | 0 <= i < |name| :: IsNameChar(name[i])
  }

  /** What a call may change: nothing is unpublished, and a final state is final. */
  predicate Continues(before: State, after: State) {
    && (before.published ==> after.published)
    && (before.finalization != PendingFinalization ==> after.finalization == before.finalization && after.leaves == before.leaves)
    && before.trace <= after.trace
  }

  class ClaimedOutputDirectory {
    var disk: Disk
    ghost var trace: seq<Disk>
    var published: bool
    var stagingDisposed: bool
    var closed: bool
    var finalization: Finalization
    var leaves: map<string, Leaf>
    ghost var marker: Option<seq<Byte>>

    ghost function Contents(): State
      reads this
    {
      State(disk, trace, published, stagingDisposed, closed, finalization, leaves, marker)
    }

    ghost predicate Valid()
      reads this
    {
      Inv(Contents())
    }

    /** A fresh staging directory, whose own entry in the parent is not durable yet. */
    constructor ()
      ensures Valid() && !published && finalization == PendingFinalization && leaves == map[]
    {
      var initial := Disk(Presence(true, {true, false}), Presence(false, {false}), map[], []);
      disk := initial;
      trace := [initial];
      published, stagingDisposed, closed := false, false, false;
      finalization := PendingFinalization;
      leaves := map[];
      marker := None;
    }

    // ---- the disk under it; every operation may fail

    method Open(name: string) returns (f: Option<FileId>)
      requires Valid() && name != READY
      requires finalization == UncertainFinalization ==> READY in leaves
      modifies this`disk, this`trace
      ensures Valid() && old(trace) <= trace
      ensures f.Some? ==>
                && name !in Names(old(disk)) && disk == Created(old(disk), name) && f == Some(|old(disk).files|)
      ensures f.None? ==> disk == old(disk)
    {
      var failed: bool := *;
      if failed || closed || name in Names(disk) {
        return None;
      }
      CreateKeepsInv(Contents(), name);
      f := Some(|disk.files|);
      disk := Created(disk, name);
      trace := trace + [disk];
    }

    /** A write that fails may leave anything in the file. */
    method WriteFile(f: FileId, bytes: seq<Byte>) returns (ok: bool, ghost content: seq<Byte>)
      requires Valid() && f < |disk.files| && IsPrivate(f)
      modifies this`disk, this`trace
      ensures Valid() && old(trace) <= trace && IsPrivate(f)
      ensures disk == WithFile(old(disk), f, File(content, false)) && (ok ==> content == bytes)
    {
      var failed: bool := *;
      var stored: seq<Byte> := *;
      var left := if failed then stored else bytes;
      content := left;
      FileStepKeepsInv(Contents(), f, File(left, false));
      disk := WithFile(disk, f, File(left, false));
      trace := trace + [disk];
      ok := !failed;
    }

    method SyncFile(f: FileId) returns (ok: bool)
      requires Valid() && f < |disk.files| && IsPrivate(f)
      modifies this`disk, this`trace
      ensures Valid() && old(trace) <= trace
      ensures disk == if ok then WithFile(old(disk), f, old(disk).files[f].(synced := true)) else old(disk)
    {
      var failed: bool := *;
      ok := !failed && !closed;
      if ok {
        FileStepKeepsInv(Contents(), f, disk.files[f].(synced := true));
        disk := WithFile(disk, f, disk.files[f].(synced := true));
        trace := trace + [disk];
      }
    }

    /** A file that is neither a tracked leaf nor READY. */
    ghost predicate IsPrivate(f: FileId)
      reads this
    {
      (forall name | name in leaves :: leaves[name].file != f) && Some(f) !in At(disk, READY).maybe
    }

    method SyncDirectory() returns (ok: bool)
      requires Valid()
      modifies this`disk, this`trace
      ensures Valid() && old(trace) <= trace
      ensures disk == if ok then DirectorySynced(old(disk)) else old(disk)
      ensures ok ==> forall name | name in leaves :: LeafDurable(disk, name, leaves[name])
    {
      var failed: bool := *;
      ok := !failed && !closed;
      if ok {
        DirectorySyncKeepsInv(Contents());
        disk := DirectorySynced(disk);
        trace := trace + [disk];
      }
    }

    method SyncParent() returns (ok: bool)
      requires Valid() && !published
      modifies this`disk, this`trace
      ensures Valid() && old(trace) <= trace
      ensures disk == if ok then ParentSynced(old(disk)) else old(disk)
    {
      var failed: bool := *;
      ok := !failed && !closed;
      if ok {
        ParentStepKeepsInv(Contents(), ParentSynced(disk));
        disk := ParentSynced(disk);
        trace := trace + [disk];
      }
    }

    /** The staging path still leads to the directory that was created. */
    method StagingStable() returns (ok: bool)
      ensures ok ==> disk.staging.now && !closed
    {
      var failed: bool := *;
      ok := !failed && disk.staging.now && !closed;
    }

    /** The target holds exactly the expected names, and every tracked leaf is the one that was written. */
    method TreeUnchanged(expected: set<string>) returns (ok: bool)
      ensures ok ==> disk.target.now && Names(disk) == expected && !closed
    {
      var failed: bool := *;
      ok := !failed && !closed && disk.target.now && Names(disk) == expected
         && forall name | name in leaves :: At(disk, name).now == Some(leaves[name].file);
    }

    // ---- the operations callers see

    /** Writes a private file and syncs it. */
    method FillFile(f: FileId, bytes: seq<Byte>) returns (ok: bool)
      requires Valid() && f < |disk.files| && IsPrivate(f)
      modifies this`disk, this`trace
      ensures Valid() && old(trace) <= trace && IsPrivate(f)
      ensures disk.entries == old(disk).entries && disk.target == old(disk).target && f < |disk.files|
      ensures ok ==> disk.files[f] == File(bytes, true)
    {
      var wrote, content := WriteFile(f, bytes);
      if !wrote {
        return false;
      }
      ok := SyncFile(f);
    }

    /** Opens a leaf and writes it through to the disk; only then may it be tracked. */
    method StoreLeaf(name: string, bytes: seq<Byte>) returns (f: Option<FileId>)
      requires Valid() && name != READY
      requires finalization == UncertainFinalization ==> READY in leaves
      modifies this`disk, this`trace
      ensures Valid() && old(trace) <= trace
      ensures Names(disk) == Names(old(disk)) || Names(disk) == Names(old(disk)) + {name}
      ensures f.Some? ==>
                && name !in Names(old(disk)) && At(disk, name).now == f && IsPrivate(f.value)
                && f.value < |disk.files| && disk.files[f.value] == File(bytes, true)
      ensures At(disk, READY) == At(old(disk), READY) && disk.target == old(disk).target
    {
      CreatedNames(disk, name);
      f := Open(name);
      if f.None? {
        return;
      }
      assert IsPrivate(f.value);
      ghost var created := disk;
      var filled := FillFile(f.value, bytes);
      SameEntries(created, disk);
      if !filled {
        return None;
      }
    }

    method Track(name: string, leaf: Leaf)
      requires Valid() && !published && name != READY && name !in leaves
      requires At(disk, name).now == Some(leaf.file)
      requires leaf.file < |disk.files| && disk.files[leaf.file] == File(leaf.bytes, true)
      modifies this`leaves
      ensures Valid() && leaves == old(leaves)[name := leaf]
    {
      TrackKeepsInv(Contents(), name, leaf);
      leaves := leaves[name := leaf];
    }

    method WriteExclusive(name: string, bytes: seq<Byte>) returns (r: Result<(), OutputError>)
      requires Valid()
      modifies this`disk, this`trace, this`leaves
      ensures Valid() && Continues(old(Contents()), Contents())
      ensures published ==> r == Err(AlreadyPublished)
      ensures !published && !ValidName(name) ==> r == Err(FileNameInvalid)
      ensures !published && name == READY ==> r == Err(ReadyPremature)
      ensures r.Ok? ==> name in leaves && leaves[name].bytes == bytes
      ensures leaves == old(leaves) || (name !in old(leaves) && name in leaves && leaves == old(leaves)[name := leaves[name]])
    {
      if published {
        return Err(AlreadyPublished);
      }
      if !ValidName(name) {
        return Err(FileNameInvalid);
      }
      if name == READY {
        return Err(ReadyPremature);
      }
      var stable := StagingStable();
      if !stable {
        return Err(IoFailure);
      }
      assert forall n | n in leaves :: n in Names(disk);
      var f := StoreLeaf(name, bytes);
      if f.None? {
        return Err(IoFailure);
      }
      Track(name, Leaf(f.value, bytes));
      stable := StagingStable();
      var same: bool := *;
      return if stable && same then Ok(()) else Err(IoFailure);
    }

    /** The rename into place and the checks behind it; the rename may happen although its answer is lost. */
    method MoveToTarget() returns (r: Result<(), OutputError>)
      requires Valid() && !published
      modifies this`disk, this`trace, this`stagingDisposed
      ensures Valid() && old(trace) <= trace
      ensures disk.entries == old(disk).entries && disk.files == old(disk).files
      ensures r.Ok? ==> disk.target == Presence(true, disk.target.maybe)
      ensures old(stagingDisposed) ==> stagingDisposed
    {
      var taken: bool := *;
      var lost: bool := *;
      var happened: bool := *;
      if taken {
        return Err(TargetExists);
      }
      stagingDisposed := true;
      if !lost || happened {
        ParentStepKeepsInv(Contents(), PublicationDisk.Published(disk));
        disk := PublicationDisk.Published(disk);
        trace := trace + [disk];
      }
      var same: bool := *;
      return if !lost && same then Ok(()) else Err(PublicationUncertain);
    }

    method Publish() returns (r: Result<(), OutputError>)
      requires Valid()
      modifies this`disk, this`trace, this`stagingDisposed, this`published
      ensures Valid() && Continues(old(Contents()), Contents())
      ensures old(published) ==> r == Err(AlreadyPublished)
      ensures r.Ok? ==> published && PublicationCertain(disk, leaves)
      ensures r.Err? ==> published == old(published)
      ensures old(stagingDisposed) ==> stagingDisposed
    {
      if published {
        return Err(AlreadyPublished);
      }
      var stable := StagingStable();
      if !stable {
        return Err(IoFailure);
      }
      var synced := SyncDirectory();
      if !synced {
        return Err(IoFailure);
      }
      stable := StagingStable();
      if !stable {
        return Err(IoFailure);
      }
      var moved := MoveToTarget();
      if moved.Err? {
        return moved;
      }
      ghost var before := disk;
      var durable := SyncParent();
      if !durable {
        return Err(PublicationUncertain);
      }
      assert forall n :: At(disk, n) == At(before, n);
      PublishedKeepsInv(Contents());
      published := true;
      return Ok(());
    }

    ghost predicate AboutToCommit(pending: string, f: FileId, bytes: seq<Byte>)
      reads this
    {
      && published && marker.None? && finalization == PendingFinalization
      && pending != READY && pending !in leaves && At(disk, pending).now == Some(f)
      && f < |disk.files| && disk.files[f] == File(bytes, true)
    }

    method Decide(verdict: Finalization)
      requires Valid() && FinalizationTells(Contents().(finalization := verdict))
      modifies this`finalization
      ensures Valid() && finalization == verdict
    {
      finalization := verdict;
    }

    method RenameMarker(pending: string, f: FileId, bytes: seq<Byte>)
      requires Valid() && AboutToCommit(pending, f, bytes)
      modifies this`disk, this`trace, this`marker
      ensures Valid() && old(trace) <= trace && disk == EntryRenamed(old(disk), pending, READY)
      ensures marker == Some(bytes) && READY in Names(disk) && At(disk, READY).now == Some(f)
    {
      CommitKeepsInv(Contents(), pending, f, bytes);
      disk := EntryRenamed(disk, pending, READY);
      trace := trace + [disk];
      marker := Some(bytes);
    }

    /**
      The rename of the pending marker to READY. An answer that says READY exists changes nothing;
      any other failure may have happened after the rename did, and makes the outcome uncertain for good.
    */
    method CommitMarker(pending: string, f: FileId, bytes: seq<Byte>) returns (r: Result<(), OutputError>)
      requires Valid() && AboutToCommit(pending, f, bytes)
      modifies this`disk, this`trace, this`marker, this`finalization
      ensures Valid() && old(trace) <= trace
      ensures r.Ok? ==>
                && finalization == PendingFinalization && marker == Some(bytes) && At(disk, READY).now == Some(f)
      ensures r.Err? ==> finalization == if r.error == PublicationUncertain then UncertainFinalization else PendingFinalization
    {
      var taken: bool := *;
      var lost: bool := *;
      var happened: bool := *;
      if taken {
        return Err(ReadyExists);
      }
      if !lost || happened {
        RenameMarker(pending, f, bytes);
      }
      var same: bool := *;
      if lost || !same {
        assert READY in Names(disk) || pending in Names(disk);
        Decide(UncertainFinalization);
        return Err(PublicationUncertain);
      }
      return Ok(());
    }

    /** READY is tracked, read back, synced and read back again; only then is it durable. */
    method ConfirmMarker(f: FileId, bytes: seq<Byte>) returns (r: Result<(), OutputError>)
      requires Valid() && finalization == PendingFinalization && marker == Some(bytes) && At(disk, READY).now == Some(f)
      modifies this`disk, this`trace, this`finalization, this`leaves
      ensures Valid() && old(trace) <= trace
      ensures leaves == old(leaves)[READY := Leaf(f, bytes)]
      ensures if r.Ok? then finalization == Durable else r == Err(PublicationUncertain) && finalization == UncertainFinalization
    {
      TrackReadyKeepsInv(Contents(), f, bytes);
      leaves := leaves[READY := Leaf(f, bytes)];
      var durable := SyncTree();
      Decide(if durable then Durable else UncertainFinalization);
      return if durable then Ok(()) else Err(PublicationUncertain);
    }

    /** The published tree is looked at, synced, and looked at again. */
    method SyncTree() returns (ok: bool)
      requires Valid()
      modifies this`disk, this`trace
      ensures Valid() && old(trace) <= trace
      ensures ok ==> forall name | name in leaves :: LeafDurable(disk, name, leaves[name])
    {
      var same := TreeUnchanged(leaves.Keys);
      if !same {
        return false;
      }
      var synced := SyncDirectory();
      same := TreeUnchanged(leaves.Keys);
      ok := synced && same;
    }

    /** The pending marker: written, synced, and checked together with the rest of the published tree. */
    method PrepareMarker(pending: string, bytes: seq<Byte>) returns (f: Option<FileId>)
      requires Valid() && published && READY !in leaves && pending != READY
      modifies this`disk, this`trace
      ensures Valid() && old(trace) <= trace
      ensures f.Some? ==> AboutToCommit(pending, f.value, bytes)
      ensures finalization == UncertainFinalization ==> f.None?
    {
      var same := TreeUnchanged(leaves.Keys);
      if !same {
        return None;
      }
      f := StoreLeaf(pending, bytes);
      if f.None? {
        return;
      }
      ghost var stored := disk;
      var synced := SyncDirectory();
      if !synced {
        return None;
      }
      SyncedAt(stored, pending);
      same := TreeUnchanged(leaves.Keys + {pending});
      if !same {
        return None;
      }
      assert READY !in Names(disk);
    }

    /** `finalizeReady`; `suffix` is the random part of the pending marker's name. */
    method FinalizeReady(bytes: seq<Byte>, suffix: string) returns (r: Result<(), OutputError>)
      requires Valid()
      modifies this`disk, this`trace, this`marker, this`finalization, this`leaves
      ensures Valid() && Continues(old(Contents()), Contents())
      ensures !published ==> r == Err(NotDurable)
      ensures r.Ok? ==>
                && finalization == Durable && READY in leaves && leaves[READY].bytes == bytes
                && LeafDurable(disk, READY, leaves[READY])
      ensures old(finalization) != PendingFinalization ==> r.Err?
      ensures r == Err(PublicationUncertain) ==> finalization == UncertainFinalization
    {
      if !published {
        return Err(NotDurable);
      }
      if READY in leaves {
        return Err(ReadyExists);
      }
      var pending := ".READY.pending-" + suffix;
      assert pending[0] == '.' && READY[0] == 'R';
      var f := PrepareMarker(pending, bytes);
      if f.None? {
        return Err(ForeignEntry);
      }
      var committed := CommitMarker(pending, f.value, bytes);
      if committed.Err? {
        return committed;
      }
      r := ConfirmMarker(f.value, bytes);
    }

    /** Whatever was renamed is left where it is; an unpublished staging directory is moved out of the way. */
    method Close()
      requires Valid()
      modifies this`disk, this`trace, this`closed
      ensures Valid() && Continues(old(Contents()), Contents()) && closed
      ensures published || stagingDisposed || old(closed) ==> disk == old(disk)
    {
      if !closed && !published && !stagingDisposed {
        var stable := StagingStable();
        var moves: bool := *;
        if stable && Names(disk) == leaves.Keys && moves {
          ParentStepKeepsInv(Contents(), Quarantined(disk));
          disk := Quarantined(disk);
          trace := trace + [disk];
          var synced := SyncParent();
        }
      }
      closed := true;
    }

    method ReadCommitted(name: string) returns (r: Result<seq<Byte>, OutputError>)
      requires Valid()
      ensures finalization == UncertainFinalization ==> r == Err(PublicationUncertain)
      ensures finalization == PendingFinalization ==> r == Err(NotFinalized)
      ensures r.Ok? ==>
                && published && finalization == Durable
                && name in leaves && r.value == leaves[name].bytes && LeafDurable(disk, name, leaves[name])
    {
      if finalization == UncertainFinalization {
        return Err(PublicationUncertain);
      }
      if !published || finalization != Durable {
        return Err(NotFinalized);
      }
      if name !in leaves {
        return Err(Untracked);
      }
      var failed: bool := *;
      return if failed || closed then Err(IoFailure) else Ok(leaves[name].bytes);
    }
  }

  // ------------------------------------------------------------------------ whole runs

  datatype Call = Write(name: string, bytes: seq<Byte>) | PublishNow | Finalize(marker: seq<Byte>, suffix: string) | CloseNow

  /** Any sequence of calls on a fresh claim; the invariant holds behind every one of them. */
  method RunCalls(calls: seq<Call>) returns (claimed: ClaimedOutputDirectory)
    ensures claimed.Valid()
    ensures forall i | 0 <= i < |claimed.trace| :: CrashSafe(claimed.trace[i], claimed.leaves, claimed.marker)
    ensures claimed.finalization == Durable ==>
              READY in claimed.leaves && LeafDurable(claimed.disk, READY, claimed.leaves[READY])
  {
    claimed := new ClaimedOutputDirectory();
    for i := 0 to |calls|
      invariant claimed.Valid()
      invariant fresh(claimed)
    {
      match calls[i]
      case Write(name, bytes) => var _ := claimed.WriteExclusive(name, bytes);
      case PublishNow => var _ := claimed.Publish();
      case Finalize(marker, suffix) => var _ := claimed.FinalizeReady(marker, suffix);
      case CloseNow => claimed.Close();
    }
  }

  /**
    A crash at any step: if READY is found in the target, every leaf the run tracked is found with
    exactly its bytes, READY holds the marker that was committed, and no crash at that step could
    have lost the directory itself.
  */
  lemma CrashAtAnyStep(s: State, i: nat, visible: bool, entry: string -> Option<FileId>, content: FileId -> seq<Byte>)
    requires Inv(s) && i < |s.trace| && CrashOutcome(s.trace[i], visible, entry, content)
    requires visible && entry(READY).Some?
    ensures s.marker.Some? && content(entry(READY).value) == s.marker.value
    ensures forall name | name in s.leaves && name != READY ::
              entry(name).Some? && content(entry(name).value) == s.leaves[name].bytes
    ensures forall other, otherEntry, otherContent | CrashOutcome(s.trace[i], other, otherEntry, otherContent) :: other
  {
    ReadyMeansComplete(s.trace[i], s.leaves, s.marker, visible, entry, content);
  }
}

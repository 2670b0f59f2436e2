/**
  A disk as a crash sees it. Every name has what it holds now and what a crash may find there instead;
  a directory sync leaves only the former. A file that was not synced may come back with any content.
*/
module PublicationDisk {
  import opened Bytes
  import opened Wrappers

  const READY := "READY"

  type FileId = nat

  datatype File = File(content: seq<Byte>, synced: bool)

  datatype Slot = Slot(now: Option<FileId>, maybe: set<Option<FileId>>)

  /** Whether the directory stands under one of its two names in the parent. */
  datatype Presence = Presence(now: bool, maybe: set<bool>)

  datatype Disk = Disk(staging: Presence, target: Presence, entries: map<string, Slot>, files: seq<File>)

  function At(d: Disk, name: string): Slot {
    if name in d.entries then d.entries[name] else Slot(None, {None})
  }

  function Names(d: Disk): set<string> {
    set name | name in d.entries && d.entries[name].now.Some?
  }

  predicate ReadyPossible(d: Disk) {
    exists x | x in At(d, READY).maybe :: x.Some?
  }

  // ---------------------------------------------------------------------- operations

  function Created(d: Disk, name: string): Disk {
    var f := |d.files|;
    d.(files := d.files + [File([], false)],
       entries := d.entries[name := Slot(Some(f), At(d, name).maybe + {Some(f)})])
  }

  function WithFile(d: Disk, f: FileId, file: File): Disk
    requires f < |d.files|
  {
    d.(files := d.files[f := file])
  }

  function DirectorySynced(d: Disk): Disk {
    d.(entries := map name | name in d.entries :: Slot(d.entries[name].now, {d.entries[name].now}))
  }

  function EntryRenamed(d: Disk, from: string, to: string): Disk {
    var moved := At(d, from).now;
    d.(entries := d.entries[from := Slot(None, At(d, from).maybe + {None})][to := Slot(moved, At(d, to).maybe + {moved})])
  }

  function Published(d: Disk): Disk {
    d.(staging := Presence(false, d.staging.maybe + {false}), target := Presence(true, d.target.maybe + {true}))
  }

  function Quarantined(d: Disk): Disk {
    d.(staging := Presence(false, d.staging.maybe + {false}))
  }

  function ParentSynced(d: Disk): Disk {
    d.(staging := Presence(d.staging.now, {d.staging.now}), target := Presence(d.target.now, {d.target.now}))
  }

  lemma CreatedNames(d: Disk, name: string)
    ensures Names(Created(d, name)) == Names(d) + {name}
    ensures At(Created(d, name), name).now == Some(|d.files|)
    ensures forall n | n != name :: At(Created(d, name), n) == At(d, n)
  {
  }

  // -------------------------------------------------------------------------- crashes

  /** One thing a crash may leave: whether the target is there, what each name holds, what each file holds. */
  ghost predicate CrashOutcome(d: Disk, visible: bool, entry: string -> Option<FileId>, content: FileId -> seq<Byte>) {
    && visible in d.target.maybe
    && (forall name :: entry(name) in At(d, name).maybe)
    && (forall f | 0 <= f < |d.files| && d.files[f].synced :: content(f) == d.files[f].content)
  }

  datatype Leaf = Leaf(file: FileId, bytes: seq<Byte>)

  /** The leaf's entry and content are certain. */
  predicate LeafDurable(d: Disk, name: string, leaf: Leaf) {
    && At(d, name).maybe == {Some(leaf.file)}
    && leaf.file < |d.files| && d.files[leaf.file] == File(leaf.bytes, true)
  }

  /** If a crash could show READY in the target, everything it stands for is certain. */
  predicate CrashSafe(d: Disk, leaves: map<string, Leaf>, marker: Option<seq<Byte>>) {
    ReadyPossible(d) && true in d.target.maybe ==>
      && d.target.maybe == {true}
      && (forall name | name in leaves && name != READY :: LeafDurable(d, name, leaves[name]))
      && marker.Some?
      && (forall x | x in At(d, READY).maybe && x.Some? :: x.value < |d.files| && d.files[x.value] == File(marker.value, true))
  }

  /** Whoever finds READY after a crash finds every leaf, and READY itself, with exactly the bytes written. */
  lemma ReadyMeansComplete(d: Disk, leaves: map<string, Leaf>, marker: Option<seq<Byte>>,
                           visible: bool, entry: string -> Option<FileId>, content: FileId -> seq<Byte>)
    requires CrashSafe(d, leaves, marker) && CrashOutcome(d, visible, entry, content)
    requires visible && entry(READY).Some?
    ensures marker.Some? && content(entry(READY).value) == marker.value
    ensures forall name | name in leaves && name != READY ::
              entry(name).Some? && content(entry(name).value) == leaves[name].bytes
    ensures forall other, otherEntry, otherContent | CrashOutcome(d, other, otherEntry, otherContent) :: other
  {
    assert entry(READY) in At(d, READY).maybe;
    assert ReadyPossible(d);
    forall name | name in leaves && name != READY
      ensures entry(name).Some? && content(entry(name).value) == leaves[name].bytes
    {
      assert LeafDurable(d, name, leaves[name]);
      assert entry(name) in At(d, name).maybe;
    }
  }
}

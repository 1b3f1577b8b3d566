/** A directory that may lose what was not synced: names and file contents as the running system sees them, and as a
    crash may leave them (`src/cache.rs` relies on nothing more). */
module Disk {
  import opened Wrappers
  import opened CacheState

  /** A document of the current version, of another version, a legacy text file as it reads, or anything else. JSON is an
      injective codec: a complete document reads as the state that was written. */
  datatype Content = Document(state: Remembered) | OtherVersion(version: nat) | Text(value: Option<string>) | Garbage

  datatype Disk = Disk(
    entries: map<string, nat>,                  // the file each name stands for
    unsettled: map<string, set<Option<nat>>>,   // what a name changed since the last directory sync may be after a crash
    contents: map<nat, Content>,
    synced: set<nat>,                           // files whose contents survive a crash
    next: nat)

  function Entry(d: Disk, name: string): Option<nat> {
    if name in d.entries then Some(d.entries[name]) else None
  }

  /** What the name may stand for now and after a crash. */
  function Possible(d: Disk, name: string): set<Option<nat>> {
    {Entry(d, name)} + if name in d.unsettled then d.unsettled[name] else {}
  }

  ghost predicate WellFormed(d: Disk) {
    && (forall name, e :: e in Possible(d, name) && e.Some? ==> e.value in d.contents)
    && (forall id :: id in d.contents ==> id < d.next)
    && d.synced <= d.contents.Keys
  }

  // ---- system calls ----

  function SetEntry(d: Disk, name: string, e: Option<nat>): Disk {
    d.(entries := if e.Some? then d.entries[name := e.value] else d.entries - {name},
       unsettled := d.unsettled[name := Possible(d, name)])
  }

  function Unlink(d: Disk, name: string): Disk {
    if name in d.entries then SetEntry(d, name, None) else d
  }

  function Create(d: Disk, name: string): Disk {
    SetEntry(d.(contents := d.contents[d.next := Garbage], next := d.next + 1), name, Some(d.next))
  }

  function Write(d: Disk, id: nat, content: Content): Disk {
    d.(contents := d.contents[id := content], synced := d.synced - {id})
  }

  function Sync(d: Disk, id: nat): Disk {
    d.(synced := d.synced + {id})
  }

  function Rename(d: Disk, from: string, to: string): Disk
    requires from in d.entries
  {
    SetEntry(SetEntry(d, to, Some(d.entries[from])), from, None)
  }

  function SyncDirectory(d: Disk): Disk {
    d.(unsettled := map[])
  }

  /** Every name falls back to something it may be, and files that were not synced may hold anything. */
  ghost predicate Crashed(d: Disk, after: Disk) {
    && WellFormed(after)
    && after.unsettled == map[]
    && (forall name :: Entry(after, name) in Possible(d, name))
    && (forall id :: id in d.synced && id in d.contents ==>
          id in after.contents && id in after.synced && after.contents[id] == d.contents[id])
  }

  /** Names other than the given ones stand for what they stood for, with no new possibilities after a crash, and no file
      that was there has changed. */
  ghost predicate SameBut(names: set<string>, d: Disk, t: Disk) {
    && (forall name :: name !in names ==> Entry(t, name) == Entry(d, name) && Possible(t, name) <= Possible(d, name))
    && (forall id :: id in d.contents ==> id in t.contents && t.contents[id] == d.contents[id])
    && d.synced <= t.synced
    && d.next <= t.next
  }

  ghost predicate Kept(names: set<string>, start: Disk, d: Disk) {
    WellFormed(d) && SameBut(names, start, d)
  }

  lemma UnlinkKeeps(names: set<string>, start: Disk, d: Disk, name: string)
    requires Kept(names, start, d) && name in names
    ensures Kept(names, start, Unlink(d, name))
  {
    EntryKeeps(names, start, d, name, None);
  }

  lemma CreateKeeps(names: set<string>, start: Disk, d: Disk, name: string)
    requires Kept(names, start, d) && name in names
    ensures Kept(names, start, Create(d, name))
    ensures Entry(Create(d, name), name) == Some(d.next) && d.next !in start.contents
  {
    var d1 := d.(contents := d.contents[d.next := Garbage], next := d.next + 1);
    assert forall n :: Possible(d1, n) == Possible(d, n);
    assert Kept(names, start, d1);
    EntryKeeps(names, start, d1, name, Some(d.next));
  }

  lemma WriteKeeps(names: set<string>, start: Disk, d: Disk, id: nat, content: Content)
    requires Kept(names, start, d) && id in d.contents && id !in start.contents
    requires start.synced <= start.contents.Keys
    ensures Kept(names, start, Write(d, id, content))
  {
    assert forall n :: Possible(Write(d, id, content), n) == Possible(d, n) && Entry(Write(d, id, content), n) == Entry(d, n);
  }

  lemma SyncDirectoryKeeps(names: set<string>, start: Disk, d: Disk)
    requires Kept(names, start, d)
    ensures Kept(names, start, SyncDirectory(d))
  {
    forall n
      ensures Possible(SyncDirectory(d), n) == {Entry(d, n)} <= Possible(d, n)
      ensures Entry(SyncDirectory(d), n) == Entry(d, n)
    {
    }
  }

  lemma SyncKeeps(names: set<string>, start: Disk, d: Disk, id: nat)
    requires Kept(names, start, d) && id in d.contents
    ensures Kept(names, start, Sync(d, id))
  {
    assert forall n :: Possible(Sync(d, id), n) == Possible(d, n) && Entry(Sync(d, id), n) == Entry(d, n);
  }

  lemma RenameKeeps(names: set<string>, start: Disk, d: Disk, from: string, to: string)
    requires Kept(names, start, d) && from in d.entries && from in names && to in names
    ensures Kept(names, start, Rename(d, from, to))
  {
    assert Entry(d, from) in Possible(d, from);
    EntryKeeps(names, start, d, to, Entry(d, from));
    EntryKeeps(names, start, SetEntry(d, to, Entry(d, from)), from, None);
  }

  lemma EntryKeeps(names: set<string>, start: Disk, d: Disk, name: string, e: Option<nat>)
    requires Kept(names, start, d) && name in names && (e.Some? ==> e.value in d.contents)
    ensures Kept(names, start, SetEntry(d, name, e))
    ensures Entry(SetEntry(d, name, e), name) == e
    ensures Possible(SetEntry(d, name, e), name) == Possible(d, name) + {e}
  {
    var t := SetEntry(d, name, e);
    forall n
      ensures Possible(t, n) == if n == name then Possible(d, n) + {e} else Possible(d, n)
      ensures Entry(t, n) == if n == name then e else Entry(d, n)
    {
    }
  }
}

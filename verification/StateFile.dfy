/** Reading and replacing the state file (`src/cache.rs`, `read_state` and `write_state`). */
module StateFile {
  import opened Wrappers
  import opened CacheState
  import opened Disk

  const STATE := "state.json"
  const TEMP := ".state.tmp"

  datatype Stored = Missing | Current(state: Remembered) | Corrupt | Future(version: nat)

  /** What a reader makes of the file that a directory entry stands for. */
  function ReadEntry(d: Disk, e: Option<nat>): Stored
    requires e.Some? ==> e.value in d.contents
  {
    match e
    case None => Missing
    case Some(id) =>
      match d.contents[id]
      case Document(state) => if Valid(state) then Current(state) else Corrupt
      case OtherVersion(version) => Future(version)
      case _ => Corrupt
  }

  /** `read_state` */
  function ReadState(d: Disk): Stored
    requires WellFormed(d)
  {
    assert Entry(d, STATE) in Possible(d, STATE);
    ReadEntry(d, Entry(d, STATE))
  }

  /** A document reads as the state written, if that is valid; no other state is ever read. */
  lemma OnlyValidStatesAreRead(d: Disk, e: Option<nat>)
    requires e.Some? ==> e.value in d.contents
    ensures ReadEntry(d, e).Current? <==>
            e.Some? && d.contents[e.value].Document? && Valid(d.contents[e.value].state)
    ensures ReadEntry(d, e).Current? ==> d.contents[e.value] == Document(ReadEntry(d, e).state)
    ensures ReadEntry(d, e).Missing? <==> e.None?
    ensures ReadEntry(d, e).Future? <==> e.Some? && d.contents[e.value].OtherVersion?
  {
  }

  ghost predicate HoldsSynced(d: Disk, e: Option<nat>, state: Remembered) {
    e.Some? && e.value in d.contents && e.value in d.synced && d.contents[e.value] == Document(state)
  }

  ghost predicate Holds(d: Disk, name: string, state: Remembered) {
    HoldsSynced(d, Entry(d, name), state)
  }

  /** On the way to the new state: the state file is what it was at the start, and after a crash what it could have been,
      or else the new document, complete and synced. */
  ghost predicate Replacing(start: Disk, d: Disk, state: Remembered) {
    && Kept({TEMP, STATE}, start, d)
    && (Entry(d, STATE) == Entry(start, STATE) || HoldsSynced(d, Entry(d, STATE), state))
    && forall e :: e in Possible(d, STATE) ==> e in Possible(start, STATE) || HoldsSynced(d, e, state)
  }

  /** The state file is this document, whatever happens. */
  ghost predicate Permanent(d: Disk, state: Remembered) {
    WellFormed(d) && Holds(d, STATE, state) && Possible(d, STATE) == {Entry(d, STATE)}
  }

  lemma KeptIsReplacing(start: Disk, history: seq<Disk>, from: nat, state: Remembered)
    requires forall k :: from <= k < |history| ==> Kept({TEMP}, start, history[k])
    ensures forall k :: from <= k < |history| ==> Replacing(start, history[k], state)
  {
    forall k | from <= k < |history|
      ensures Replacing(start, history[k], state)
    {
      UntouchedIsReplacing(start, history[k], state);
    }
  }

  lemma UntouchedIsReplacing(start: Disk, d: Disk, state: Remembered)
    requires Kept({TEMP}, start, d)
    ensures Replacing(start, d, state)
  {
    assert STATE != TEMP by {
      assert STATE[0] != TEMP[0];
    }
    assert Possible(d, STATE) <= Possible(start, STATE);
  }

  lemma RenameReplaces(start: Disk, d: Disk, state: Remembered)
    requires Kept({TEMP}, start, d) && Holds(d, TEMP, state)
    ensures var t := Rename(d, TEMP, STATE);
            && Replacing(start, t, state) && Holds(t, STATE, state)
            && Replacing(start, SyncDirectory(t), state) && Holds(SyncDirectory(t), STATE, state)
            && Permanent(SyncDirectory(t), state)
  {
    var names := {TEMP, STATE};
    assert Kept(names, start, d);
    RenameKeeps(names, start, d, TEMP, STATE);
    var s1 := SetEntry(d, STATE, Entry(d, TEMP));
    assert Entry(d, TEMP) in Possible(d, TEMP);
    EntryKeeps(names, start, d, STATE, Entry(d, TEMP));
    EntryKeeps(names, start, s1, TEMP, None);
    assert STATE != TEMP by {
      assert STATE[0] != TEMP[0];
    }
    var t := Rename(d, TEMP, STATE);
    assert Possible(t, STATE) == Possible(d, STATE) + {Entry(d, TEMP)};
    SyncDirectoryKeeps(names, start, t);
  }

  /** Every file that the state file may be survives a crash. */
  ghost predicate Secure(d: Disk) {
    forall e :: e in Possible(d, STATE) && e.Some? ==> e.value in d.contents && e.value in d.synced
  }

  lemma ReplacingStaysSecure(start: Disk, d: Disk, state: Remembered)
    requires Secure(start) && Replacing(start, d, state)
    ensures Secure(d)
  {
    forall e | e in Possible(d, STATE) && e.Some?
      ensures e.value in d.contents && e.value in d.synced
    {
      if !HoldsSynced(d, e, state) {
        assert e in Possible(start, STATE);
      }
    }
  }

  lemma CrashFindsAPossibility(d: Disk, after: Disk)
    requires WellFormed(d) && Secure(d) && Crashed(d, after)
    ensures var e := Entry(after, STATE);
            && e in Possible(d, STATE) && Secure(after)
            && (e.Some? ==> e.value in d.contents && e.value in after.contents
                            && after.contents[e.value] == d.contents[e.value])
  {
    assert Possible(after, STATE) == {Entry(after, STATE)};
  }

  /** While the system runs, a reader finds the state that was there or the new one. */
  lemma RunningReaderFindsOldOrNew(start: Disk, d: Disk, state: Remembered)
    requires WellFormed(start) && Valid(state) && Replacing(start, d, state)
    ensures ReadState(d) == ReadState(start) || ReadState(d) == Current(state)
  {
    assert Entry(start, STATE) in Possible(start, STATE);
  }

  /** At every point of replacing the state file, while running or after a crash that loses unsynced data, a reader finds
      what one of the files that could be there before holds, or the complete new state. */
  lemma ReaderFindsOldOrNew(start: Disk, d: Disk, after: Disk, state: Remembered)
    requires WellFormed(start) && Secure(start) && Valid(state) && Replacing(start, d, state)
    requires after == d || Crashed(d, after)
    ensures Secure(d) && Secure(after)
    ensures ReadState(after) == Current(state)
            || exists e :: e in Possible(start, STATE) && ReadState(after) == ReadEntry(start, e)
  {
    ReplacingStaysSecure(start, d, state);
    if after != d {
      CrashFindsAPossibility(d, after);
    }
    assert Entry(after, STATE) in Possible(d, STATE);
    PossibilityReads(start, d, after, Entry(after, STATE), state);
  }

  lemma PossibilityReads(start: Disk, d: Disk, after: Disk, e: Option<nat>, state: Remembered)
    requires WellFormed(start) && Valid(state) && Replacing(start, d, state) && e in Possible(d, STATE)
    requires e.Some? ==> e.value in after.contents && e.value in d.contents && after.contents[e.value] == d.contents[e.value]
    ensures ReadEntry(after, e) == Current(state) || (e in Possible(start, STATE) && ReadEntry(after, e) == ReadEntry(start, e))
  {
    if e !in Possible(start, STATE) {
      assert HoldsSynced(d, e, state);
    }
  }

  /** Which system calls fail. */
  datatype Faults = Faults(unlinkTemp: bool, create: bool, check: bool, write: bool, sync: bool, rename: bool,
                           syncDirectory: bool, cleanUp: bool)
  {
    predicate BeforeRename() {
      unlinkTemp || create || check || write || sync || rename
    }
  }

  datatype WriteError = InvalidState | TooLarge | System

  /** A directory used through system calls; the history records the disk after each of them. */
  class Directory {
    var disk: Disk
    ghost var history: seq<Disk>

    constructor (d: Disk)
      ensures disk == d && history == []
    {
      disk, history := d, [];
    }

    method Set(d: Disk)
      modifies this
      ensures disk == d && history == old(history) + [d]
    {
      disk := d;
      history := history + [d];
    }

    /** The part of `write_state` before the rename: the new document is complete and synced under the temporary name. */
    method Prepare(state: Remembered, faults: Faults) returns (ok: bool)
      requires WellFormed(disk)
      modifies this
      ensures Kept({TEMP}, old(disk), disk)
      ensures old(history) <= history
      ensures forall k :: |old(history)| <= k < |history| ==> Kept({TEMP}, old(disk), history[k])
      ensures ok ==> Holds(disk, TEMP, state)
      ensures ok == !(faults.unlinkTemp || faults.create || faults.check || faults.write || faults.sync)
    {
      ghost var start, n := disk, {TEMP};
      ok := false;
      if faults.unlinkTemp {
        return;
      }
      UnlinkKeeps(n, start, disk, TEMP);
      Set(Unlink(disk, TEMP));
      if faults.create {
        return;
      }
      var id := disk.next;
      CreateKeeps(n, start, disk, TEMP);
      Set(Create(disk, TEMP));
      if faults.check {
        return;
      }
      ok := Fill(id, state, faults, start);
      if !ok && !faults.cleanUp {
        UnlinkKeeps(n, start, disk, TEMP);
        Set(Unlink(disk, TEMP));
      }
    }

    method Fill(id: nat, state: Remembered, faults: Faults, ghost start: Disk) returns (ok: bool)
      requires WellFormed(start) && Kept({TEMP}, start, disk)
      requires Entry(disk, TEMP) == Some(id) && id in disk.contents && id !in start.contents
      modifies this
      ensures Kept({TEMP}, start, disk)
      ensures old(history) <= history
      ensures forall k :: |old(history)| <= k < |history| ==> Kept({TEMP}, start, history[k])
      ensures ok ==> Holds(disk, TEMP, state)
      ensures ok == (!faults.write && !faults.sync)
    {
      ghost var n := {TEMP};
      WriteKeeps(n, start, disk, id, Garbage);
      Set(Write(disk, id, Garbage));
      if faults.write {
        return false;
      }
      WriteKeeps(n, start, disk, id, Document(state));
      Set(Write(disk, id, Document(state)));
      if faults.sync {
        return false;
      }
      SyncKeeps(n, start, disk, id);
      Set(Sync(disk, id));
      return true;
    }

    /**
     * `write_state`. After every system call, and after a crash there, the state file is what it could be before or the
     * complete new document; a failure before the rename leaves it as it was, and success makes the new one permanent.
     */
    method WriteState(state: Remembered, fits: bool, faults: Faults) returns (r: Result<(), WriteError>)
      requires WellFormed(disk)
      modifies this
      ensures Kept({TEMP, STATE}, old(disk), disk)
      ensures old(history) <= history
      ensures forall k :: |old(history)| <= k < |history| ==> Replacing(old(disk), history[k], state)
      ensures Replacing(old(disk), disk, state)
      ensures !Valid(state) ==> r == Err(InvalidState)
      ensures r == Err(InvalidState) || r == Err(TooLarge) ==> disk == old(disk) && history == old(history)
      ensures !Valid(state) || !fits || faults.BeforeRename() ==> r.Err? && Kept({TEMP}, old(disk), disk)
      ensures r.Ok? ==> Valid(state) && fits && Permanent(disk, state)
      ensures r.Ok? <==> Valid(state) && fits && !faults.BeforeRename() && !faults.syncDirectory
    {
      if !Valid(state) {
        return Err(InvalidState);
      }
      if !fits {
        return Err(TooLarge);
      }
      ghost var start := disk;
      var ok := Prepare(state, faults);
      KeptIsReplacing(start, history, |old(history)|, state);
      UntouchedIsReplacing(start, disk, state);
      if !ok {
        return Err(System);
      }
      var published := Publish(state, faults, start);
      return if published then Ok(()) else Err(System);
    }

    /** The rename, the directory sync and the clean-up of a failed attempt. */
    method Publish(state: Remembered, faults: Faults, ghost start: Disk) returns (ok: bool)
      requires Kept({TEMP}, start, disk) && Holds(disk, TEMP, state)
      modifies this
      ensures old(history) <= history
      ensures forall k :: |old(history)| <= k < |history| ==> Replacing(start, history[k], state)
      ensures Replacing(start, disk, state)
      ensures faults.rename ==> Kept({TEMP}, start, disk)
      ensures ok == !(faults.rename || faults.syncDirectory)
      ensures ok ==> Permanent(disk, state)
    {
      if faults.rename {
        UntouchedIsReplacing(start, disk, state);
        if !faults.cleanUp {
          UnlinkKeeps({TEMP}, start, disk, TEMP);
          Set(Unlink(disk, TEMP));
          UntouchedIsReplacing(start, disk, state);
        }
        return false;
      }
      RenameReplaces(start, disk, state);
      Set(Rename(disk, TEMP, STATE));
      if faults.syncDirectory {
        return false;
      }
      Set(SyncDirectory(disk));
      return true;
    }
  }
}

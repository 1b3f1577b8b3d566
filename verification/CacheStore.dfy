/** Loading and committing remembered state, with the directory locked (`src/cache.rs`). */
module CacheStore {
  import opened Wrappers
  import opened Sessions
  import opened CacheState
  import opened Disk
  import opened StateFile
  import opened Migration

  function LegacyText(c: Content): Option<string> {
    match c
    case Text(value) => value
    case _ => None
  }

  /** The legacy files in the directory, as they read. */
  function LegacyFiles(d: Disk): Legacy
    requires WellFormed(d)
  {
    assert forall n :: n in d.entries ==> Entry(d, n) in Possible(d, n);
    map n | n in d.entries && IsLegacy(n) :: LegacyText(d.contents[d.entries[n]])
  }

  /** The legacy files are these, whatever happens. */
  ghost predicate LegacyIntact(d: Disk, files: Legacy) {
    forall n :: IsLegacy(n) ==>
      && Possible(d, n) == {Entry(d, n)}
      && (n in files <==> n in d.entries)
      && (n in d.entries ==> d.entries[n] in d.contents && d.entries[n] in d.synced
                             && LegacyText(d.contents[d.entries[n]]) == files[n])
  }

  /** Migration can start, start over or be complete: the state file is missing or the migrated state, and as long as it
      may be missing the legacy files are all there. */
  ghost predicate Recoverable(d: Disk, files: Legacy, migrated: Remembered) {
    && WellFormed(d)
    && (forall e :: e in Possible(d, STATE) ==> e == None || HoldsSynced(d, e, migrated))
    && (None in Possible(d, STATE) ==> LegacyIntact(d, files))
  }

  lemma LegacyNamesAreOthers(name: string)
    requires IsLegacy(name)
    ensures name != STATE && name != TEMP
  {
    assert name[0] == 'l';
  }

  /** A crash at a recoverable point leaves a recoverable disk. */
  lemma CrashIsRecoverable(d: Disk, after: Disk, files: Legacy, migrated: Remembered)
    requires Recoverable(d, files, migrated) && Crashed(d, after)
    ensures Recoverable(after, files, migrated)
  {
    assert Entry(after, STATE) in Possible(d, STATE) && Possible(after, STATE) == {Entry(after, STATE)};
    if Entry(after, STATE) == None {
      forall n | IsLegacy(n)
        ensures Entry(after, n) == Entry(d, n) && Possible(after, n) == {Entry(after, n)}
      {
        assert Entry(after, n) in Possible(d, n);
      }
      assert LegacyIntact(after, files);
    }
  }

  lemma ReplacingIsRecoverable(start: Disk, d: Disk, files: Legacy, migrated: Remembered)
    requires Recoverable(start, files, migrated) && Replacing(start, d, migrated)
    ensures Recoverable(d, files, migrated)
  {
    forall e | e in Possible(d, STATE)
      ensures e == None || HoldsSynced(d, e, migrated)
    {
      if e in Possible(start, STATE) && e != None {
        assert HoldsSynced(start, e, migrated);
      }
    }
    if None in Possible(d, STATE) {
      forall n | IsLegacy(n)
        ensures Entry(d, n) == Entry(start, n) && Possible(d, n) == {Entry(d, n)}
        ensures n in d.entries ==> d.contents[d.entries[n]] == start.contents[d.entries[n]] && d.entries[n] in d.synced
      {
        LegacyNamesAreOthers(n);
        assert Entry(d, n) in Possible(d, n);
      }
    }
  }

  /** `remove_legacy`: files that cannot be removed are left. */
  method RemoveLegacy(dir: Directory, toRemove: seq<string>, stuck: set<string>)
    requires WellFormed(dir.disk)
    modifies dir
    ensures old(dir.history) <= dir.history
    ensures var names := set n | n in toRemove;
            && Kept(names, old(dir.disk), dir.disk)
            && forall k :: |old(dir.history)| <= k < |dir.history| ==> Kept(names, old(dir.disk), dir.history[k])
    ensures forall n :: n in toRemove && n !in stuck ==> n !in dir.disk.entries
  {
    ghost var start, names, before := dir.disk, (set n | n in toRemove), dir.history;
    for i := 0 to |toRemove|
      invariant before <= dir.history
      invariant Kept(names, start, dir.disk)
      invariant forall k :: |before| <= k < |dir.history| ==> Kept(names, start, dir.history[k])
      invariant forall n :: n in toRemove[..i] && n !in stuck ==> n !in dir.disk.entries
    {
      if toRemove[i] !in stuck {
        UnlinkKeeps(names, start, dir.disk, toRemove[i]);
        dir.Set(Unlink(dir.disk, toRemove[i]));
      }
    }
    assert toRemove[..|toRemove|] == toRemove;
  }

  // ---- load_from_disk ----

  /** What the state file stands for, with legacy files in its place if it is missing. */
  function Loaded(d: Disk, sessions: seq<Session>, allowCommands: bool): Remembered
    requires WellFormed(d)
  {
    match ReadState(d)
    case Missing => Migrated(LegacyFiles(d), sessions)
    case Current(state) => if allowCommands then state else WithoutCommands(state)
    case _ => NOTHING_REMEMBERED
  }

  /** On the way to the migrated state, or there for good. */
  ghost predicate Migrating(start: Disk, d: Disk, state: Remembered) {
    Replacing(start, d, state) || Permanent(d, state)
  }

  /** A load gives back what is stored, without commands only where the editor is off; of an unreadable document, or one of
      another version, nothing; and legacy files only count where there is no document. */
  lemma LoadGivesBackWhatIsStored(d: Disk, sessions: seq<Session>, allowCommands: bool)
    requires WellFormed(d)
    ensures ReadState(d).Current? && allowCommands ==> Loaded(d, sessions, allowCommands) == ReadState(d).state
    ensures ReadState(d).Current? && !allowCommands ==>
              && !HasCommand(Loaded(d, sessions, allowCommands))
              && (!HasCommand(ReadState(d).state) ==> Loaded(d, sessions, allowCommands) == ReadState(d).state)
    ensures ReadState(d).Corrupt? || ReadState(d).Future? ==> Loaded(d, sessions, allowCommands) == NOTHING_REMEMBERED
    ensures ReadState(d).Missing? ==> Loaded(d, sessions, allowCommands) == Migrated(LegacyFiles(d), sessions)
  {
    if ReadState(d).Current? {
      PurgeRemovesExactlyCommands(ReadState(d).state);
    }
  }

  /** What a load that finds `start` may have on disk at any of its points: the state file on the way to the new state, or
      that state for good, and only then may legacy files go. */
  ghost predicate LoadPasses(start: Disk, d: Disk, sessions: seq<Session>, allowCommands: bool)
    requires WellFormed(start)
  {
    d == start ||
    match ReadState(start)
    case Missing =>
      var migrated := Migrated(LegacyFiles(start), sessions);
      LegacyFiles(start) != map[] && Migrating(start, d, migrated)
    case Current(state) => !allowCommands && WithoutCommands(state) != state && Replacing(start, d, WithoutCommands(state))
    case _ => false
  }

  lemma PermanentStays(d: Disk, t: Disk, names: set<string>, state: Remembered)
    requires Permanent(d, state) && Kept(names, d, t) && STATE !in names
    ensures Permanent(t, state)
  {
    assert Entry(t, STATE) in Possible(t, STATE) && Possible(t, STATE) <= {Entry(d, STATE)};
  }

  /** The end of a migration, with the migrated state permanent. */
  method RemoveMigrated(dir: Directory, toRemove: seq<string>, stuck: set<string>, syncFails: bool, ghost state: Remembered)
    requires Permanent(dir.disk, state)
    requires forall n :: n in toRemove ==> IsLegacy(n)
    modifies dir
    ensures Permanent(dir.disk, state) && old(dir.history) <= dir.history
    ensures forall k :: |old(dir.history)| <= k < |dir.history| ==> Permanent(dir.history[k], state)
  {
    ghost var settled, before, gone := dir.disk, dir.history, (set n | n in toRemove);
    RemoveLegacy(dir, toRemove, stuck);
    assert STATE !in gone by {
      if STATE in gone {
        LegacyNamesAreOthers(STATE);
      }
    }
    if !syncFails {
      SyncDirectoryKeeps(gone, settled, dir.disk);
      dir.Set(SyncDirectory(dir.disk));
    }
    forall k | |before| <= k < |dir.history|
      ensures Permanent(dir.history[k], state)
    {
      PermanentStays(settled, dir.history[k], gone, state);
    }
    PermanentStays(settled, dir.disk, gone, state);
  }

  /** The migrating branch: the new state file is permanent before the first legacy file goes. */
  method Migrate(dir: Directory, names: seq<string>, sessions: seq<Session>, fits: bool, faults: Faults,
                 stuck: set<string>, syncFails: bool)
    returns (r: Result<Remembered, WriteError>)
    requires WellFormed(dir.disk) && Entry(dir.disk, STATE) == None
    requires forall n :: n in names <==> n in dir.disk.entries
    modifies dir
    ensures WellFormed(dir.disk) && old(dir.history) <= dir.history
    ensures var files := LegacyFiles(old(dir.disk));
            var state := Migrated(files, sessions);
            && (r.Ok? ==> r.value == state)
            && (r.Ok? && files != map[] ==> Permanent(dir.disk, state))
            && (files == map[] ==> r.Ok? && dir.disk == old(dir.disk) && dir.history == old(dir.history))
            && Migrating(old(dir.disk), dir.disk, state)
            && forall k :: |old(dir.history)| <= k < |dir.history| ==> Migrating(old(dir.disk), dir.history[k], state)
  {
    ghost var start, before := dir.disk, dir.history;
    var state, toRemove, seen := MigrateLegacy(names, LegacyFiles(dir.disk), sessions);
    if !seen {
      UntouchedIsReplacing(dir.disk, dir.disk, state);
      return Ok(state);
    }
    var written := dir.WriteState(state, fits, faults);
    if written.Err? {
      return Err(written.error);
    }
    ghost var middle := dir.history;
    assert forall k :: |before| <= k < |middle| ==> Migrating(start, middle[k], state);
    RemoveMigrated(dir, toRemove, stuck, syncFails, state);
    forall k | |before| <= k < |dir.history|
      ensures Migrating(start, dir.history[k], state)
    {
      if k < |middle| {
        assert dir.history[k] == middle[k];
      }
    }
    return Ok(state);
  }

  /** The end of a load: without the command editor commands go, from the disk too if it can be written. */
  method LoadCurrent(dir: Directory, state: Remembered, allowCommands: bool, fits: bool, faults: Faults)
    returns (loaded: Remembered)
    requires WellFormed(dir.disk)
    modifies dir
    ensures WellFormed(dir.disk) && old(dir.history) <= dir.history
    ensures loaded == if allowCommands then state else WithoutCommands(state)
    ensures allowCommands || !HasCommand(state) ==>
              loaded == state && dir.disk == old(dir.disk) && dir.history == old(dir.history)
    ensures dir.disk == old(dir.disk) || Replacing(old(dir.disk), dir.disk, loaded)
    ensures forall k :: |old(dir.history)| <= k < |dir.history| ==> Replacing(old(dir.disk), dir.history[k], loaded)
  {
    if allowCommands {
      return state;
    }
    var cell := new CacheStateCell(state);
    PurgeRemovesExactlyCommands(state);
    var changed := cell.RemoveCommands();
    loaded := Remembered(cell.lastUser, cell.globalSelection, cell.userSelections);
    if changed {
      var _ := dir.WriteState(loaded, fits, faults);
    }
  }

  /** `load_from_disk`: what it returns, and what it may leave on disk wherever it is cut short. */
  method LoadFromDisk(dir: Directory, names: seq<string>, sessions: seq<Session>, allowCommands: bool, fits: bool,
                      faults: Faults, stuck: set<string>, syncFails: bool)
    returns (r: Result<Remembered, WriteError>)
    requires WellFormed(dir.disk)
    requires forall n :: n in names <==> n in dir.disk.entries
    modifies dir
    ensures WellFormed(dir.disk) && old(dir.history) <= dir.history
    ensures r.Ok? ==> r.value == Loaded(old(dir.disk), sessions, allowCommands)
    ensures r.Err? ==> ReadState(old(dir.disk)).Missing?
    ensures LoadPasses(old(dir.disk), dir.disk, sessions, allowCommands)
    ensures forall k :: |old(dir.history)| <= k < |dir.history| ==>
              LoadPasses(old(dir.disk), dir.history[k], sessions, allowCommands)
  {
    match ReadState(dir.disk)
    case Missing => r := Migrate(dir, names, sessions, fits, faults, stuck, syncFails);
    case Current(state) =>
      PurgeRemovesExactlyCommands(state);
      var loaded := LoadCurrent(dir, state, allowCommands, fits, faults);
      r := Ok(loaded);
    case _ => r := Ok(NOTHING_REMEMBERED);
  }

  // ---- interrupted migrations ----

  lemma IntactFilesAreRead(d: Disk, files: Legacy)
    requires WellFormed(d) && LegacyIntact(d, files) && forall n :: n in files ==> IsLegacy(n)
    ensures LegacyFiles(d) == files
  {
    forall n
      ensures n in LegacyFiles(d) <==> n in files
      ensures n in files ==> LegacyFiles(d)[n] == files[n]
    {
    }
  }

  lemma RecoverableReads(d: Disk, files: Legacy, sessions: seq<Session>)
    requires Recoverable(d, files, Migrated(files, sessions)) && forall n :: n in files ==> IsLegacy(n)
    ensures match ReadState(d)
            case Missing => LegacyFiles(d) == files
            case Current(s) => s == Migrated(files, sessions)
            case _ => false
  {
    assert Entry(d, STATE) in Possible(d, STATE);
    MigrationYieldsNoCommand(files, sessions);
    if Entry(d, STATE) == None {
      IntactFilesAreRead(d, files);
    }
  }

  /** A directory of an older release: no state file, and legacy files that have long been on disk. */
  ghost predicate IsLegacyDirectory(d: Disk) {
    && WellFormed(d) && Possible(d, STATE) == {None}
    && forall n :: IsLegacy(n) ==> Possible(d, n) == {Entry(d, n)} && (n in d.entries ==> d.entries[n] in d.synced)
  }

  lemma LegacyDirectoryIsRecoverable(d: Disk, sessions: seq<Session>)
    requires IsLegacyDirectory(d)
    ensures Recoverable(d, LegacyFiles(d), Migrated(LegacyFiles(d), sessions))
  {
    forall n | IsLegacy(n) && n in d.entries
      ensures d.entries[n] in d.contents && LegacyText(d.contents[d.entries[n]]) == LegacyFiles(d)[n]
    {
      assert Entry(d, n) in Possible(d, n);
    }
  }

  /** Every point of a load from a recoverable directory is recoverable. */
  lemma LoadIsRecoverable(start: Disk, d: Disk, files: Legacy, sessions: seq<Session>, allowCommands: bool)
    requires Recoverable(start, files, Migrated(files, sessions)) && forall n :: n in files ==> IsLegacy(n)
    requires LoadPasses(start, d, sessions, allowCommands)
    ensures Recoverable(d, files, Migrated(files, sessions))
  {
    var migrated := Migrated(files, sessions);
    RecoverableReads(start, files, sessions);
    MigrationYieldsNoCommand(files, sessions);
    PurgeRemovesExactlyCommands(migrated);
    if d != start && Replacing(start, d, migrated) {
      ReplacingIsRecoverable(start, d, files, migrated);
    }
  }

  /** A load that was cut short at some point, or ended there, and what the disk was after that: as it was, or as a power
      loss left it. */
  datatype Cut = Cut(allowCommands: bool, point: Disk, after: Disk)

  ghost predicate AreCutLoads(d: Disk, cuts: seq<Cut>, sessions: seq<Session>)
    requires WellFormed(d)
    decreases |cuts|
  {
    cuts == [] ||
    (&& LoadPasses(d, cuts[0].point, sessions, cuts[0].allowCommands)
     && (cuts[0].after == cuts[0].point || Crashed(cuts[0].point, cuts[0].after))
     && WellFormed(cuts[0].after) && AreCutLoads(cuts[0].after, cuts[1..], sessions))
  }

  function LastDisk(d: Disk, cuts: seq<Cut>): Disk {
    if cuts == [] then d else cuts[|cuts| - 1].after
  }

  lemma {:induction false} CutLoadsAreRecoverable(d: Disk, cuts: seq<Cut>, files: Legacy, sessions: seq<Session>)
    requires Recoverable(d, files, Migrated(files, sessions)) && forall n :: n in files ==> IsLegacy(n)
    requires AreCutLoads(d, cuts, sessions)
    ensures Recoverable(LastDisk(d, cuts), files, Migrated(files, sessions))
    decreases |cuts|
  {
    if cuts != [] {
      var point, after := cuts[0].point, cuts[0].after;
      LoadIsRecoverable(d, point, files, sessions, cuts[0].allowCommands);
      if after != point {
        CrashIsRecoverable(point, after, files, Migrated(files, sessions));
      }
      CutLoadsAreRecoverable(after, cuts[1..], files, sessions);
      assert LastDisk(d, cuts) == LastDisk(after, cuts[1..]);
    }
  }

  /** Main result: after any number of loads, each cut short at any point (between the removals of two legacy files, say)
      and followed by a power loss or not, what the next load finds is what the legacy files stood for at the start. */
  lemma MigrationSurvivesInterruptions(d: Disk, cuts: seq<Cut>, sessions: seq<Session>, allowCommands: bool)
    requires IsLegacyDirectory(d) && AreCutLoads(d, cuts, sessions)
    ensures WellFormed(LastDisk(d, cuts))
    ensures Loaded(LastDisk(d, cuts), sessions, allowCommands) == Migrated(LegacyFiles(d), sessions)
  {
    var files := LegacyFiles(d);
    LegacyDirectoryIsRecoverable(d, sessions);
    CutLoadsAreRecoverable(d, cuts, files, sessions);
    RecoverableReads(LastDisk(d, cuts), files, sessions);
    MigrationYieldsNoCommand(files, sessions);
    PurgeRemovesExactlyCommands(Migrated(files, sessions));
  }

  // ---- commit ----

  datatype CommitError = Unsupported(version: nat) | NotWritten(cause: WriteError)

  /** What an update starts from; nothing may replace a document of another version. */
  function Base(stored: Stored): Option<Remembered> {
    match stored
    case Missing => Some(NOTHING_REMEMBERED)
    case Current(state) => Some(state)
    case Corrupt => Some(NOTHING_REMEMBERED)
    case Future(_) => None
  }

  /** A commit, or a load that may migrate legacy files (to the given state, if there are any) or purge commands. */
  datatype Operation = CommitOf(update: Update) | LoadOf(migrated: Option<Remembered>, allowCommands: bool)

  /** The state that an operation writes after reading the stored one, if it writes at all. */
  function Target(op: Operation, stored: Stored): Option<Remembered> {
    match op
    case CommitOf(update) =>
      var base := Base(stored);
      if base.Some? && Valid(Applied(base.value, update)) then Some(Applied(base.value, update)) else None
    case LoadOf(migrated, allowCommands) =>
      match stored
      case Missing => migrated
      case Current(state) => if !allowCommands && WithoutCommands(state) != state then Some(WithoutCommands(state)) else None
      case _ => None
  }

  /** A commit replaces a missing or unreadable state as if nothing had been remembered, changes a readable one by the
      update and nothing else, and leaves a document of another version alone. */
  lemma CommitStartsFromWhatIsStored(update: Update, state: Remembered, version: nat)
    ensures Target(CommitOf(update), Missing) == Target(CommitOf(update), Current(NOTHING_REMEMBERED))
    ensures Target(CommitOf(update), Corrupt) == Target(CommitOf(update), Current(NOTHING_REMEMBERED))
    ensures Target(CommitOf(update), Current(state)) ==
            if Valid(Applied(state, update)) then Some(Applied(state, update)) else None
    ensures Target(CommitOf(update), Future(version)) == None
  {
    SameBaseSameTarget(update, Missing, Current(NOTHING_REMEMBERED));
    SameBaseSameTarget(update, Corrupt, Current(NOTHING_REMEMBERED));
  }

  lemma SameBaseSameTarget(update: Update, a: Stored, b: Stored)
    requires Base(a) == Base(b)
    ensures Target(CommitOf(update), a) == Target(CommitOf(update), b)
  {
  }

  /** A reader finds what was there before the operation, or what the operation writes. */
  ghost predicate ReadsAsBeforeOrTarget(op: Operation, start: Disk, d: Disk) {
    && WellFormed(start) && WellFormed(d)
    && (ReadState(d) == ReadState(start)
        || (Target(op, ReadState(start)).Some? && ReadState(d) == Current(Target(op, ReadState(start)).value)))
  }

  function LoadOperation(start: Disk, sessions: seq<Session>, allowCommands: bool): Operation
    requires WellFormed(start)
  {
    LoadOf(if LegacyFiles(start) == map[] then None else Some(Migrated(LegacyFiles(start), sessions)), allowCommands)
  }

  lemma PurgedIsValid(s: Remembered)
    requires Valid(s)
    ensures Valid(WithoutCommands(s))
  {
    var kept := WithoutCommands(s).userSelections;
    assert kept.Keys <= s.userSelections.Keys;
    SubsetIsSmaller(kept.Keys, s.userSelections.Keys);
    assert |kept| == |kept.Keys| && |s.userSelections| == |s.userSelections.Keys|;
  }

  lemma SubsetIsSmaller<T>(a: set<T>, b: set<T>)
    requires a <= b
    ensures |a| <= |b|
  {
    assert b == a + (b - a);
  }

  /** Every point of a load reads as the disk before it or as what the load writes. */
  lemma LoadWritesItsTarget(start: Disk, d: Disk, sessions: seq<Session>, allowCommands: bool)
    requires WellFormed(start) && LoadPasses(start, d, sessions, allowCommands)
    ensures ReadsAsBeforeOrTarget(LoadOperation(start, sessions, allowCommands), start, d)
  {
    match ReadState(start)
    case Missing =>
      var migrated := Migrated(LegacyFiles(start), sessions);
      MigrationYieldsNoCommand(LegacyFiles(start), sessions);
      if d != start && Replacing(start, d, migrated) {
        RunningReaderFindsOldOrNew(start, d, migrated);
      }
    case Current(state) =>
      PurgedIsValid(state);
      if d != start {
        RunningReaderFindsOldOrNew(start, d, WithoutCommands(state));
      }
    case _ =>
  }

  /** `CacheStore::commit`, with the directory locked; a disabled store has no directory and starts from nothing. */
  method Commit(dir: Directory?, update: Update, fits: bool, faults: Faults) returns (r: Result<Remembered, CommitError>)
    requires dir != null ==> WellFormed(dir.disk)
    modifies if dir == null then {} else {dir}
    ensures dir == null ==> r == Ok(Applied(NOTHING_REMEMBERED, update))
    ensures dir != null ==> WellFormed(dir.disk) && old(dir.history) <= dir.history
    ensures dir != null ==>
              var base := Base(ReadState(old(dir.disk)));
              match r
              case Ok(state) =>
                && base.Some? && state == Applied(base.value, update)
                && ReadState(dir.disk) == Current(state) && Possible(dir.disk, STATE) == {Entry(dir.disk, STATE)}
              case Err(Unsupported(_)) => base == None && dir.disk == old(dir.disk) && dir.history == old(dir.history)
              case Err(NotWritten(_)) => base.Some? && Replacing(old(dir.disk), dir.disk, Applied(base.value, update))
    ensures dir != null ==>
              match Target(CommitOf(update), ReadState(old(dir.disk)))
              case None => r.Err? && dir.disk == old(dir.disk) && dir.history == old(dir.history)
              case Some(target) =>
                && (r.Ok? ==> r.value == target)
                && Replacing(old(dir.disk), dir.disk, target)
                && forall k :: |old(dir.history)| <= k < |dir.history| ==> Replacing(old(dir.disk), dir.history[k], target)
  {
    var stored := if dir == null then Missing else ReadState(dir.disk);
    var cell;
    match stored {
      case Missing => cell := new CacheStateCell(NOTHING_REMEMBERED);
      case Current(state) => cell := new CacheStateCell(state);
      case Corrupt => cell := new CacheStateCell(NOTHING_REMEMBERED);
      case Future(version) => return Err(Unsupported(version));
    }
    cell.Apply(update);
    var state := Remembered(cell.lastUser, cell.globalSelection, cell.userSelections);
    if dir == null {
      return Ok(state);
    }
    if !Valid(state) {
      UntouchedIsReplacing(dir.disk, dir.disk, state);
      return Err(NotWritten(InvalidState));
    }
    var written := dir.WriteState(state, fits, faults);
    if written.Err? {
      return Err(NotWritten(written.error));
    }
    assert Entry(dir.disk, STATE) in Possible(dir.disk, STATE);
    return Ok(state);
  }

  /** Every point of a commit, too. */
  lemma CommitWritesItsTarget(start: Disk, d: Disk, update: Update)
    requires WellFormed(start)
    requires match Target(CommitOf(update), ReadState(start))
             case None => d == start
             case Some(target) => Replacing(start, d, target)
    ensures ReadsAsBeforeOrTarget(CommitOf(update), start, d)
  {
    var target := Target(CommitOf(update), ReadState(start));
    if target.Some? {
      RunningReaderFindsOldOrNew(start, d, target.value);
    }
  }

  // ---- the lock ----

  datatype Attempt = Acquired | Busy | Interrupted | Broken

  datatype LockOutcome = Locked | TimedOut | Failed

  /** `lock_cache_file`: busy and interrupted attempts are repeated until the deadline; `late` says when it has passed. */
  method LockCacheFile(attempts: seq<(Attempt, bool)>) returns (outcome: Option<LockOutcome>)
    ensures outcome == None <==> forall a :: a in attempts ==> a.0 in {Busy, Interrupted} && !a.1
    ensures outcome.Some? ==>
              exists k :: 0 <= k < |attempts|
                && (forall j :: 0 <= j < k ==> attempts[j].0 in {Busy, Interrupted} && !attempts[j].1)
                && outcome.value == (match attempts[k].0 case Acquired => Locked case Broken => Failed case _ => TimedOut)
                && (outcome == Some(TimedOut) ==> attempts[k].1)
  {
    for k := 0 to |attempts|
      invariant forall j :: 0 <= j < k ==> attempts[j].0 in {Busy, Interrupted} && !attempts[j].1
    {
      var (attempt, late) := attempts[k];
      if attempt == Acquired {
        return Some(Locked);
      }
      if attempt == Broken {
        return Some(Failed);
      }
      if late {
        return Some(TimedOut);
      }
    }
    return None;
  }
}

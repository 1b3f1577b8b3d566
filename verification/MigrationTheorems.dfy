/** What each legacy file means, said without the migration, and that migration inverts writing a state as legacy files. */
module MigrationTheorems {
  import opened Wrappers
  import opened Sessions
  import opened CacheState
  import opened Migration

  /** The file holds the path of a session that is remembered by this entry; of several sessions the first counts. */
  ghost predicate Selects(files: Legacy, name: string, sessions: seq<Session>, entry: RememberedSelection) {
    && name in files && files[name].Some?
    && exists i | 0 <= i < |sessions| ::
         && sessions[i].path == files[name] && SelectionOf(sessions[i]) == Some(entry)
         && forall j | 0 <= j < i :: sessions[j].path != files[name]
  }

  predicate ReadableUser(user: string) {
    UNDECODABLE !in user && ValidText(user, MAX_USERNAME_SIZE, false)
  }

  /** The user last logged in is named by `lastuser`, and by `lastuser-name` if that holds a valid display name. */
  ghost predicate NamesUser(files: Legacy, user: RememberedUser) {
    && LAST_USER in files && files[LAST_USER] == Some(user.username) && ValidText(user.username, MAX_USERNAME_SIZE, false)
    && match user.displayName
       case Some(shown) =>
         && LAST_USER_NAME in files && files[LAST_USER_NAME] == Some(shown)
         && ValidText(shown, MAX_DISPLAY_NAME_SIZE, true)
       case None =>
         LAST_USER_NAME in files && files[LAST_USER_NAME].Some? ==>
           !ValidText(files[LAST_USER_NAME].value, MAX_DISPLAY_NAME_SIZE, true)
  }

  /** Slot by slot: each slot has its own file, and no file means anything for another slot. */
  ghost predicate Means(files: Legacy, sessions: seq<Session>, s: Remembered) {
    && (forall user :: s.lastUser == Some(user) <==> NamesUser(files, user))
    && (forall entry :: s.globalSelection == Some(entry) <==> Selects(files, GLOBAL_SESSION, sessions, entry))
    && (forall user, entry ::
          user in s.userSelections && s.userSelections[user] == entry <==>
          ReadableUser(user) && Selects(files, USER_SESSION_PREFIX + user, sessions, entry))
  }

  lemma {:induction false} SelectionForPathIsFirst(path: string, sessions: seq<Session>, entry: RememberedSelection)
    ensures SelectionForPath(path, sessions) == Some(entry) <==>
            exists i | 0 <= i < |sessions| ::
              && sessions[i].path == Some(path) && SelectionOf(sessions[i]) == Some(entry)
              && forall j | 0 <= j < i :: sessions[j].path != Some(path)
    decreases |sessions|
  {
    if sessions != [] {
      var rest := sessions[1..];
      SelectionForPathIsFirst(path, rest, entry);
      if sessions[0].path != Some(path) {
        assert forall i | 0 <= i < |rest| :: rest[i] == sessions[i + 1];
        if i :| && 0 <= i < |rest| && rest[i].path == Some(path) && SelectionOf(rest[i]) == Some(entry)
                && forall j | 0 <= j < i :: rest[j].path != Some(path) {
          assert sessions[i + 1] == rest[i];
          assert forall j | 0 <= j < i + 1 :: sessions[j].path != Some(path);
        }
        if i :| && 0 <= i < |sessions| && sessions[i].path == Some(path) && SelectionOf(sessions[i]) == Some(entry)
                && forall j | 0 <= j < i :: sessions[j].path != Some(path) {
          assert sessions[i] == rest[i - 1];
        }
      }
    }
  }

  lemma SelectionForMeans(files: Legacy, name: string, sessions: seq<Session>, entry: RememberedSelection)
    ensures SelectionFor(ValueOf(files, name), sessions) == Some(entry) <==> Selects(files, name, sessions, entry)
  {
    if name in files && files[name].Some? {
      SelectionForPathIsFirst(files[name].value, sessions, entry);
    }
  }

  lemma CollectedUser(files: Legacy, user: RememberedUser)
    ensures MigratedUser(files) == Some(user) <==> NamesUser(files, user)
  {
  }

  lemma CollectedSelection(files: Legacy, sessions: seq<Session>, user: string, entry: RememberedSelection)
    ensures var s := Collected(files, sessions);
            user in s.userSelections && s.userSelections[user] == entry <==>
            ReadableUser(user) && Selects(files, USER_SESSION_PREFIX + user, sessions, entry)
  {
    SelectionForMeans(files, USER_SESSION_PREFIX + user, sessions, entry);
    UserOfPath(user);
    if USER_SESSION_PREFIX + user in files && user != "" {
      assert (USER_SESSION_PREFIX + user)[|USER_SESSION_PREFIX|..] in Users(files);
    }
  }

  lemma CollectedMeans(files: Legacy, sessions: seq<Session>)
    ensures Means(files, sessions, Collected(files, sessions))
  {
    forall user
      ensures MigratedUser(files) == Some(user) <==> NamesUser(files, user)
    {
      CollectedUser(files, user);
    }
    forall entry
      ensures Collected(files, sessions).globalSelection == Some(entry) <==> Selects(files, GLOBAL_SESSION, sessions, entry)
    {
      SelectionForMeans(files, GLOBAL_SESSION, sessions, entry);
    }
    forall user, entry
      ensures var s := Collected(files, sessions);
              user in s.userSelections && s.userSelections[user] == entry <==>
              ReadableUser(user) && Selects(files, USER_SESSION_PREFIX + user, sessions, entry)
    {
      CollectedSelection(files, sessions, user, entry);
    }
  }

  lemma SameOption<T>(a: Option<T>, b: Option<T>)
    requires forall x :: a == Some(x) <==> b == Some(x)
    ensures a == b
  {
    if a.Some? {
      assert a == Some(a.value);
    } else if b.Some? {
      assert b == Some(b.value);
    }
  }

  /** Slot by slot determines the state. */
  lemma MeaningIsUnique(files: Legacy, sessions: seq<Session>, s: Remembered, t: Remembered)
    requires Means(files, sessions, s) && Means(files, sessions, t)
    ensures s == t
  {
    SameOption(s.lastUser, t.lastUser);
    SameOption(s.globalSelection, t.globalSelection);
    forall user
      ensures user in s.userSelections <==> user in t.userSelections
      ensures user in s.userSelections ==> t.userSelections[user] == s.userSelections[user]
    {
      if user in s.userSelections {
        assert Selects(files, USER_SESSION_PREFIX + user, sessions, s.userSelections[user]);
      }
      if user in t.userSelections {
        assert Selects(files, USER_SESSION_PREFIX + user, sessions, t.userSelections[user]);
      }
    }
    assert s.userSelections == t.userSelections;
  }

  /** Main result: migration gives the state whose every slot is what its own file means: an unknown path or an invalid name
      leaves its slot empty and no other. Only a state that is invalid as a whole is dropped as a whole. */
  lemma MigratedIsTheMeaning(files: Legacy, sessions: seq<Session>, s: Remembered)
    requires Means(files, sessions, s)
    ensures Migrated(files, sessions) == if Valid(s) then s else NOTHING_REMEMBERED
  {
    CollectedMeans(files, sessions);
    MeaningIsUnique(files, sessions, s, Collected(files, sessions));
  }

  // ---- round trip ----

  /** Every session at the path is remembered by this entry, and there is one. */
  ghost predicate LeadsTo(path: string, sessions: seq<Session>, entry: RememberedSelection) {
    && (exists i | 0 <= i < |sessions| :: sessions[i].path == Some(path))
    && forall i | 0 <= i < |sessions| && sessions[i].path == Some(path) :: SelectionOf(sessions[i]) == Some(entry)
  }

  type Paths = map<RememberedSelection, string>

  ghost predicate HasPaths(s: Remembered, sessions: seq<Session>, paths: Paths) {
    && (s.globalSelection.Some? ==>
          s.globalSelection.value in paths && LeadsTo(paths[s.globalSelection.value], sessions, s.globalSelection.value))
    && forall user | user in s.userSelections ::
         s.userSelections[user] in paths && LeadsTo(paths[s.userSelections[user]], sessions, s.userSelections[user])
  }

  /** How an older release stores a state without commands: each file is present exactly if its slot is not empty. */
  ghost predicate StoredAsLegacy(s: Remembered, sessions: seq<Session>, paths: Paths, files: Legacy)
    requires HasPaths(s, sessions, paths)
  {
    && (LAST_USER in files <==> s.lastUser.Some?)
    && (s.lastUser.Some? ==> files[LAST_USER] == Some(s.lastUser.value.username))
    && (LAST_USER_NAME in files <==> s.lastUser.Some? && s.lastUser.value.displayName.Some?)
    && (LAST_USER_NAME in files ==> files[LAST_USER_NAME] == s.lastUser.value.displayName)
    && (GLOBAL_SESSION in files <==> s.globalSelection.Some?)
    && (GLOBAL_SESSION in files ==> files[GLOBAL_SESSION] == Some(paths[s.globalSelection.value]))
    && forall user | user != "" ::
         && (USER_SESSION_PREFIX + user in files <==> user in s.userSelections)
         && (user in s.userSelections ==> files[USER_SESSION_PREFIX + user] == Some(paths[s.userSelections[user]]))
  }

  lemma LeadingPathSelects(files: Legacy, name: string, path: string, sessions: seq<Session>, entry: RememberedSelection)
    requires name in files && files[name] == Some(path) && LeadsTo(path, sessions, entry)
    ensures forall other :: Selects(files, name, sessions, other) <==> other == entry
  {
    var i :| 0 <= i < |sessions| && sessions[i].path == Some(path);
    FirstAtPath(path, sessions, i);
  }

  lemma {:induction false} FirstAtPath(path: string, sessions: seq<Session>, i: nat)
    requires i < |sessions| && sessions[i].path == Some(path)
    ensures exists k | 0 <= k < |sessions| :: sessions[k].path == Some(path) && forall j | 0 <= j < k :: sessions[j].path != Some(path)
    decreases i
  {
    if j :| 0 <= j < i && sessions[j].path == Some(path) {
      FirstAtPath(path, sessions, j);
    }
  }

  /** Main result: a valid state without commands, stored as legacy files with command files or others beside them, is given
      back by migration. */
  lemma MigrationInvertsLegacyStorage(s: Remembered, sessions: seq<Session>, paths: Paths, files: Legacy)
    requires Valid(s) && (forall user | user in s.userSelections :: UNDECODABLE !in user)
    requires HasPaths(s, sessions, paths) && StoredAsLegacy(s, sessions, paths, files)
    ensures Migrated(files, sessions) == s
  {
    StoredMeans(s, sessions, paths, files);
    MigratedIsTheMeaning(files, sessions, s);
  }

  lemma StoredMeans(s: Remembered, sessions: seq<Session>, paths: Paths, files: Legacy)
    requires Valid(s) && (forall user | user in s.userSelections :: UNDECODABLE !in user)
    requires HasPaths(s, sessions, paths) && StoredAsLegacy(s, sessions, paths, files)
    ensures Means(files, sessions, s)
  {
    if s.globalSelection.Some? {
      LeadingPathSelects(files, GLOBAL_SESSION, paths[s.globalSelection.value], sessions, s.globalSelection.value);
    }
    forall user, entry
      ensures user in s.userSelections && s.userSelections[user] == entry <==>
              ReadableUser(user) && Selects(files, USER_SESSION_PREFIX + user, sessions, entry)
    {
      if user in s.userSelections {
        var chosen := s.userSelections[user];
        LeadingPathSelects(files, USER_SESSION_PREFIX + user, paths[chosen], sessions, chosen);
      }
    }
  }

  /** Such files exist for every state without commands whose entries have paths. */
  function AsLegacy(s: Remembered, paths: Paths): Legacy
    requires s.globalSelection.Some? ==> s.globalSelection.value in paths
    requires forall user | user in s.userSelections :: s.userSelections[user] in paths
  {
    LegacyNamesDiffer("");
    map name | name in FixedFiles(s) + UserFiles(s) ::
      if name == LAST_USER then Some(s.lastUser.value.username)
      else if name == LAST_USER_NAME then s.lastUser.value.displayName
      else if name == GLOBAL_SESSION then Some(paths[s.globalSelection.value])
      else Some(paths[s.userSelections[name[|USER_SESSION_PREFIX|..]]])
  }

  function FixedFiles(s: Remembered): set<string> {
    (if s.lastUser.Some? then {LAST_USER} else {})
    + (if s.lastUser.Some? && s.lastUser.value.displayName.Some? then {LAST_USER_NAME} else {})
    + (if s.globalSelection.Some? then {GLOBAL_SESSION} else {})
  }

  function UserFiles(s: Remembered): (names: set<string>)
    ensures forall name | name in names ::
              IsUserPath(name) && name[|USER_SESSION_PREFIX|..] in s.userSelections
  {
    set user | user in s.userSelections && user != "" :: USER_SESSION_PREFIX + user
  }

  predicate IsCommandFile(name: string) {
    name == GLOBAL_COMMAND || IsUserCommand(name)
  }

  lemma LegacyNamesDiffer(user: string)
    ensures LAST_USER != LAST_USER_NAME && LAST_USER != GLOBAL_SESSION && LAST_USER_NAME != GLOBAL_SESSION
    ensures !IsUserPath(LAST_USER) && !IsUserPath(LAST_USER_NAME) && !IsUserPath(GLOBAL_SESSION)
    ensures !IsCommandFile(LAST_USER) && !IsCommandFile(LAST_USER_NAME) && !IsCommandFile(GLOBAL_SESSION)
    ensures !IsCommandFile(USER_SESSION_PREFIX + user)
  {
    assert |LAST_USER| == 8 && |LAST_USER_NAME| == 13 && |GLOBAL_SESSION| == 16 && |USER_SESSION_PREFIX| == 17;
    assert |GLOBAL_COMMAND| == 11 && |USER_COMMAND_PREFIX| == 12;
    assert LAST_USER_NAME[4] == 'u' && USER_COMMAND_PREFIX[4] == 's';
  }

  lemma FilesOfUsers(s: Remembered, user: string)
    requires user != ""
    ensures USER_SESSION_PREFIX + user in FixedFiles(s) + UserFiles(s) <==> user in s.userSelections
    ensures USER_SESSION_PREFIX + user !in FixedFiles(s)
  {
    LegacyNamesDiffer(user);
    UserOfPath(user);
    assert IsUserPath(USER_SESSION_PREFIX + user);
  }

  lemma StoredUserFile(s: Remembered, sessions: seq<Session>, paths: Paths, commands: Legacy, user: string)
    requires HasPaths(s, sessions, paths) && user != ""
    requires forall name | name in commands :: IsCommandFile(name)
    ensures var files := AsLegacy(s, paths) + commands;
            && (USER_SESSION_PREFIX + user in files <==> user in s.userSelections)
            && (user in s.userSelections ==> files[USER_SESSION_PREFIX + user] == Some(paths[s.userSelections[user]]))
  {
    LegacyNamesDiffer(user);
    FilesOfUsers(s, user);
    UserOfPath(user);
    assert IsUserPath(USER_SESSION_PREFIX + user);
  }

  /** The files of a state, with any command files beside them, hold that state. */
  lemma AsLegacyIsStored(s: Remembered, sessions: seq<Session>, paths: Paths, commands: Legacy)
    requires HasPaths(s, sessions, paths)
    requires forall name | name in commands :: IsCommandFile(name)
    ensures StoredAsLegacy(s, sessions, paths, AsLegacy(s, paths) + commands)
  {
    LegacyNamesDiffer("");
    forall user | user != ""
      ensures var files := AsLegacy(s, paths) + commands;
              && (USER_SESSION_PREFIX + user in files <==> user in s.userSelections)
              && (user in s.userSelections ==> files[USER_SESSION_PREFIX + user] == Some(paths[s.userSelections[user]]))
    {
      StoredUserFile(s, sessions, paths, commands, user);
    }
  }

  /** So nothing that an older release remembered is lost, and its command files do not matter. */
  lemma LegacyStateSurvivesMigration(s: Remembered, sessions: seq<Session>, paths: Paths, commands: Legacy)
    requires Valid(s) && HasPaths(s, sessions, paths) && (forall user | user in s.userSelections :: UNDECODABLE !in user)
    requires forall name | name in commands :: IsCommandFile(name)
    ensures Migrated(AsLegacy(s, paths) + commands, sessions) == s
  {
    AsLegacyIsStored(s, sessions, paths, commands);
    MigrationInvertsLegacyStorage(s, sessions, paths, AsLegacy(s, paths) + commands);
  }
}

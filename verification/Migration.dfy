/** Migration of the legacy cache files and loading of the state (`src/cache.rs`). */
module Migration {
  import opened Wrappers
  import opened Sessions
  import opened CacheState

  const LAST_USER := "lastuser"
  const LAST_USER_NAME := "lastuser-name"
  const GLOBAL_COMMAND := "lastsession"
  const GLOBAL_SESSION := "lastsession-path"
  const USER_COMMAND_PREFIX := "lastsession-"
  const USER_SESSION_PREFIX := "lastsession-path-"

  /** Stands for a byte of a file name that is not UTF-8. */
  const UNDECODABLE := '\U{FFFF}'

  /** Legacy files and what they read as: nothing if unsafe, unreadable, not UTF-8 or blank. */
  type Legacy = map<string, Option<string>>

  predicate IsUserPath(name: string) {
    USER_SESSION_PREFIX < name
  }

  predicate IsUserCommand(name: string) {
    USER_COMMAND_PREFIX < name && name != GLOBAL_SESSION && !(USER_SESSION_PREFIX <= name)
  }

  predicate IsLegacy(name: string) {
    name in {LAST_USER, LAST_USER_NAME, GLOBAL_COMMAND, GLOBAL_SESSION} || IsUserPath(name) || IsUserCommand(name)
  }

  function ValueOf(files: Legacy, name: string): Option<string> {
    if name in files then files[name] else None
  }

  /** The selection of the first session at the path. */
  function SelectionForPath(path: string, sessions: seq<Session>): Option<RememberedSelection> {
    if sessions == [] then None
    else if sessions[0].path == Some(path) then SelectionOf(sessions[0])
    else SelectionForPath(path, sessions[1..])
  }

  function SelectionFor(path: Option<string>, sessions: seq<Session>): Option<RememberedSelection> {
    if path.Some? then SelectionForPath(path.value, sessions) else None
  }

  function MigratedUser(files: Legacy): Option<RememberedUser> {
    var name, display := ValueOf(files, LAST_USER), ValueOf(files, LAST_USER_NAME);
    var shown := if display.Some? && ValidText(display.value, MAX_DISPLAY_NAME_SIZE, true) then display else None;
    if name.Some? && ValidText(name.value, MAX_USERNAME_SIZE, false) then Some(RememberedUser(name.value, shown)) else None
  }

  /** What the legacy file of this user selects. */
  function MigratedChoice(files: Legacy, sessions: seq<Session>, user: string): Option<RememberedSelection> {
    if user != "" && UNDECODABLE !in user && ValidText(user, MAX_USERNAME_SIZE, false)
    then SelectionFor(ValueOf(files, USER_SESSION_PREFIX + user), sessions)
    else None
  }

  function Users(files: Legacy): set<string> {
    set name | name in files && IsUserPath(name) :: name[|USER_SESSION_PREFIX|..]
  }

  /** What is read from the files. */
  function Collected(files: Legacy, sessions: seq<Session>): Remembered {
    Remembered(
      MigratedUser(files),
      SelectionFor(ValueOf(files, GLOBAL_SESSION), sessions),
      map u | u in Users(files) && MigratedChoice(files, sessions, u).Some? :: MigratedChoice(files, sessions, u).value)
  }

  /** The state that the legacy files stand for. */
  function Migrated(files: Legacy, sessions: seq<Session>): Remembered {
    var s := Collected(files, sessions);
    if Valid(s) then s else NOTHING_REMEMBERED
  }

  lemma {:induction false} PathsSelectNoCommand(path: string, sessions: seq<Session>)
    ensures var r := SelectionForPath(path, sessions); r.Some? ==> r.value.DesktopEntry?
    decreases |sessions|
  {
    if sessions != [] {
      PathsSelectNoCommand(path, sessions[1..]);
    }
  }

  /** Legacy files may hold free-form commands, but migration never turns one into a selection. */
  lemma MigrationYieldsNoCommand(files: Legacy, sessions: seq<Session>)
    ensures !HasCommand(Migrated(files, sessions)) && Valid(Migrated(files, sessions))
  {
    forall path
      ensures SelectionForPath(path, sessions).Some? ==> SelectionForPath(path, sessions).value.DesktopEntry?
    {
      PathsSelectNoCommand(path, sessions);
    }
  }

  // ---- migrate_legacy ----

  /** Distinct names in some order, as `directory_entries` returns them. */
  ghost predicate Lists(names: seq<string>, files: Legacy) {
    forall n :: n in files <==> n in names && IsLegacy(n)
  }

  /** `migrate_legacy`: the state, and the files to remove, in the order in which they were read. */
  method MigrateLegacy(names: seq<string>, files: Legacy, sessions: seq<Session>)
    returns (state: Remembered, toRemove: seq<string>, seen: bool)
    requires Lists(names, files)
    ensures state == Migrated(files, sessions)
    ensures forall n :: n in toRemove <==> n in files
    ensures seen <==> files != map[]
  {
    var userPaths: map<string, string>;
    toRemove, userPaths := ReadFiles(names, files);
    seen := toRemove != [];
    assert seen ==> toRemove[0] in files;
    assert !seen ==> forall n :: n !in files;

    var username, displayName := ValueOf(files, LAST_USER), ValueOf(files, LAST_USER_NAME);
    if displayName.Some? && !ValidText(displayName.value, MAX_DISPLAY_NAME_SIZE, true) {
      displayName := None;
    }
    var lastUser: Option<RememberedUser> := None;
    if username.Some? && ValidText(username.value, MAX_USERNAME_SIZE, false) {
      lastUser := Some(RememberedUser(username.value, displayName));
    }
    var selections := SelectForUsers(userPaths, sessions);
    state := Remembered(lastUser, SelectionFor(ValueOf(files, GLOBAL_SESSION), sessions), selections);
    ChoicesOfPaths(files, userPaths, sessions, selections);
    if !Valid(state) {
      state := NOTHING_REMEMBERED;
    }
  }

  /** The selections made of the user files are the migrated ones. */
  lemma ChoicesOfPaths(files: Legacy, userPaths: map<string, string>, sessions: seq<Session>,
                       selections: map<string, RememberedSelection>)
    requires forall u :: u in userPaths <==> u != "" && UNDECODABLE !in u && ValueOf(files, USER_SESSION_PREFIX + u).Some?
    requires forall u :: u in userPaths ==> ValueOf(files, USER_SESSION_PREFIX + u) == Some(userPaths[u])
    requires selections == map u | u in userPaths && ValidText(u, MAX_USERNAME_SIZE, false)
                                   && SelectionForPath(userPaths[u], sessions).Some? :: SelectionForPath(userPaths[u], sessions).value
    ensures selections == map u | u in Users(files) && MigratedChoice(files, sessions, u).Some? ::
                            MigratedChoice(files, sessions, u).value
  {
    forall u
      ensures u in Users(files) && MigratedChoice(files, sessions, u).Some? <==> u in selections
      ensures u in selections ==> selections[u] == MigratedChoice(files, sessions, u).value
    {
      UserOfPath(u);
      if USER_SESSION_PREFIX + u in files && u != "" {
        assert (USER_SESSION_PREFIX + u)[|USER_SESSION_PREFIX|..] in Users(files);
      }
    }
  }

  lemma UserOfPath(user: string)
    ensures (USER_SESSION_PREFIX + user)[|USER_SESSION_PREFIX|..] == user
    ensures user != "" ==> IsUserPath(USER_SESSION_PREFIX + user)
    ensures forall name :: IsUserPath(name) && name[|USER_SESSION_PREFIX|..] == user ==> name == USER_SESSION_PREFIX + user
  {
    forall name | IsUserPath(name) && name[|USER_SESSION_PREFIX|..] == user
      ensures name == USER_SESSION_PREFIX + user
    {
      assert name == name[..|USER_SESSION_PREFIX|] + name[|USER_SESSION_PREFIX|..];
    }
  }

  /** The paths remembered for users with readable names, and every file looked at. */
  method ReadFiles(names: seq<string>, files: Legacy) returns (read: seq<string>, userPaths: map<string, string>)
    requires Lists(names, files)
    ensures forall n :: n in read <==> n in files
    ensures forall u :: u in userPaths <==> u != "" && UNDECODABLE !in u && ValueOf(files, USER_SESSION_PREFIX + u).Some?
    ensures forall u :: u in userPaths ==> ValueOf(files, USER_SESSION_PREFIX + u) == Some(userPaths[u])
  {
    read, userPaths := [], map[];
    var fixedNames := [LAST_USER, LAST_USER_NAME, GLOBAL_SESSION, GLOBAL_COMMAND];
    for i := 0 to |fixedNames|
      invariant forall n :: n in read <==> n in files && n in fixedNames[..i]
    {
      if fixedNames[i] in names {
        read := read + [fixedNames[i]];
      }
    }
    assert fixedNames[..|fixedNames|] == fixedNames;
    for i := 0 to |names|
      invariant forall n :: n in read <==> n in files && (n in fixedNames || n in names[..i])
      invariant forall u :: u in userPaths <==>
                  u != "" && UNDECODABLE !in u && USER_SESSION_PREFIX + u in names[..i]
                  && ValueOf(files, USER_SESSION_PREFIX + u).Some?
      invariant forall u :: u in userPaths ==> ValueOf(files, USER_SESSION_PREFIX + u) == Some(userPaths[u])
    {
      var name := names[i];
      if name == GLOBAL_SESSION {
        continue;
      }
      if USER_SESSION_PREFIX <= name {
        var user := name[|USER_SESSION_PREFIX|..];
        UserOfPath(user);
        if user != "" {
          read := read + [name];
          if files[name].Some? && UNDECODABLE !in user {
            userPaths := userPaths[user := files[name].value];
          }
        }
      } else if USER_COMMAND_PREFIX <= name && name != USER_COMMAND_PREFIX {
        read := read + [name];
      }
    }
  }

  method SelectForUsers(userPaths: map<string, string>, sessions: seq<Session>) returns (r: map<string, RememberedSelection>)
    ensures r == map u | u in userPaths && ValidText(u, MAX_USERNAME_SIZE, false)
                         && SelectionForPath(userPaths[u], sessions).Some? :: SelectionForPath(userPaths[u], sessions).value
  {
    r := map[];
    var rest := userPaths.Keys;
    while rest != {}
      invariant rest <= userPaths.Keys
      invariant r == map u | u in userPaths && u !in rest && ValidText(u, MAX_USERNAME_SIZE, false)
                             && SelectionForPath(userPaths[u], sessions).Some? :: SelectionForPath(userPaths[u], sessions).value
    {
      var u :| u in rest;
      rest := rest - {u};
      if ValidText(u, MAX_USERNAME_SIZE, false) {
        var selection := SelectionForPath(userPaths[u], sessions);
        if selection.Some? {
          r := r[u := selection.value];
        }
      }
    }
  }
}

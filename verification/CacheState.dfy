/** Remembered state and its updates (`src/cache.rs`, without the file system). */
module CacheState {
  import opened Wrappers
  import opened Sessions
  import Text

  const MAX_USERS := 4096
  const MAX_USERNAME_SIZE := 256
  const MAX_DISPLAY_NAME_SIZE := 4096
  const MAX_SESSION_ID_SIZE := 4096
  const MAX_COMMAND_SIZE := 16 * 1024

  datatype RememberedUser = RememberedUser(username: string, displayName: Option<string>)

  datatype CachedSessionType = CachedX11 | CachedWayland

  datatype RememberedSelection =
    | DesktopEntry(desktopId: string, sessionType: CachedSessionType)
    | CommandEntry(command: string)

  datatype Remembered = Remembered(
    lastUser: Option<RememberedUser>,
    globalSelection: Option<RememberedSelection>,
    userSelections: map<string, RememberedSelection>)

  const NOTHING_REMEMBERED := Remembered(None, None, map[])

  datatype Change<+T> = Keep | Set(value: Option<T>)

  datatype Update = Update(
    lastUser: Change<RememberedUser>,
    globalSelection: Change<RememberedSelection>,
    userSelection: Option<(string, Option<RememberedSelection>)>,
    purgeCommands: bool)

  function CachedType(t: SessionType): Option<CachedSessionType> {
    match t
    case X11 => Some(CachedX11)
    case Wayland => Some(CachedWayland)
    case Tty => None
    case NoType => None
  }

  function SelectionOf(session: Session): Option<RememberedSelection> {
    if session.slug.Some? && CachedType(session.sessionType).Some?
    then Some(DesktopEntry(session.slug.value, CachedType(session.sessionType).value))
    else None
  }

  /** The first session that a remembered desktop entry stands for; a command stands for none. */
  function Resolve(selection: RememberedSelection, sessions: seq<Session>): (r: Option<nat>)
    ensures r.Some? ==> r.value < |sessions| && SelectionOf(sessions[r.value]) == Some(selection)
    ensures r.None? && selection.DesktopEntry? ==> forall s | s in sessions :: SelectionOf(s) != Some(selection)
    ensures r.Some? ==> forall j | 0 <= j < r.value :: SelectionOf(sessions[j]) != Some(selection)
  {
    if sessions == [] || selection.CommandEntry? then None
    else if sessions[0].slug == Some(selection.desktopId)
            && CachedType(sessions[0].sessionType) == Some(selection.sessionType) then Some(0)
    else
      assert forall j | 0 < j < |sessions| :: sessions[j] == sessions[1..][j - 1];
      var r := Resolve(selection, sessions[1..]);
      if r.Some? then Some(r.value + 1) else None
  }

  function LoginUpdate(user: RememberedUser, selection: Option<RememberedSelection>, rememberUser: bool,
                       rememberGlobal: bool, rememberPerUser: bool, allowCommands: bool): Update
  {
    var kept := if selection.Some? && selection.value.CommandEntry? && !allowCommands then None else selection;
    Update(
      if rememberUser then Set(Some(user)) else Keep,
      if rememberGlobal then Set(kept) else Keep,
      if rememberPerUser then Some((user.username, kept)) else None,
      !allowCommands)
  }

  function WithoutCommands(s: Remembered): Remembered {
    s.(globalSelection := if s.globalSelection.Some? && s.globalSelection.value.CommandEntry? then None
                          else s.globalSelection,
       userSelections := map u | u in s.userSelections && !s.userSelections[u].CommandEntry? :: s.userSelections[u])
  }

  function Applied(s: Remembered, u: Update): Remembered {
    var s1 := if u.lastUser.Set? then s.(lastUser := u.lastUser.value) else s;
    var s2 := if u.globalSelection.Set? then s1.(globalSelection := u.globalSelection.value) else s1;
    var s3 := match u.userSelection
              case None => s2
              case Some((name, Some(sel))) => s2.(userSelections := s2.userSelections[name := sel])
              case Some((name, None)) => s2.(userSelections := s2.userSelections - {name});
    if u.purgeCommands then WithoutCommands(s3) else s3
  }

  ghost predicate HasCommand(s: Remembered) {
    || (s.globalSelection.Some? && s.globalSelection.value.CommandEntry?)
    || exists u | u in s.userSelections :: s.userSelections[u].CommandEntry?
  }

  // ---- validation ----

  predicate ValidText(value: string, maxSize: nat, allowEmpty: bool) {
    && (allowEmpty || value != [])
    && '\0' !in value
    && Text.Utf8Length(value) <= maxSize
  }

  predicate ValidSelection(selection: RememberedSelection) {
    match selection
    case DesktopEntry(id, _) => ValidText(id, MAX_SESSION_ID_SIZE, false)
    case CommandEntry(command) => ValidText(command, MAX_COMMAND_SIZE, false) && !Text.IsBlank(command)
  }

  predicate ValidUser(user: RememberedUser) {
    && ValidText(user.username, MAX_USERNAME_SIZE, false)
    && (user.displayName.Some? ==> ValidText(user.displayName.value, MAX_DISPLAY_NAME_SIZE, true))
  }

  predicate Valid(s: Remembered) {
    && |s.userSelections| <= MAX_USERS
    && (s.lastUser.Some? ==> ValidUser(s.lastUser.value))
    && (s.globalSelection.Some? ==> ValidSelection(s.globalSelection.value))
    && forall u | u in s.userSelections :: ValidText(u, MAX_USERNAME_SIZE, false) && ValidSelection(s.userSelections[u])
  }

  // ---- the state the source updates in place ----

  class CacheStateCell {
    var lastUser: Option<RememberedUser>
    var globalSelection: Option<RememberedSelection>
    var userSelections: map<string, RememberedSelection>

    ghost function View(): Remembered
      reads this
    {
      Remembered(lastUser, globalSelection, userSelections)
    }

    constructor (s: Remembered)
      ensures View() == s
    {
      lastUser, globalSelection, userSelections := s.lastUser, s.globalSelection, s.userSelections;
    }

    method RemoveCommands() returns (changed: bool)
      modifies this
      ensures View() == WithoutCommands(old(View()))
      ensures changed <==> HasCommand(old(View()))
    {
      changed := false;
      ghost var before := View();
      if globalSelection.Some? && globalSelection.value.CommandEntry? {
        globalSelection := None;
        changed := true;
      }
      var kept := map u | u in userSelections && !userSelections[u].CommandEntry? :: userSelections[u];
      KeptSize(userSelections, kept);
      changed := changed || |kept| != |userSelections|;
      userSelections := kept;
    }

    method Apply(update: Update)
      modifies this
      ensures View() == Applied(old(View()), update)
    {
      if update.lastUser.Set? {
        lastUser := update.lastUser.value;
      }
      if update.globalSelection.Set? {
        globalSelection := update.globalSelection.value;
      }
      match update.userSelection {
        case None =>
        case Some((name, Some(selection))) => userSelections := userSelections[name := selection];
        case Some((name, None)) => userSelections := userSelections - {name};
      }
      if update.purgeCommands {
        var _ := RemoveCommands();
      }
    }
  }

  /** `retain` shrinks the map exactly when it dropped something. */
  lemma KeptSize(m: map<string, RememberedSelection>, kept: map<string, RememberedSelection>)
    requires kept == map u | u in m && !m[u].CommandEntry? :: m[u]
    ensures |kept| != |m| <==> exists u | u in m :: m[u].CommandEntry?
  {
    var dropped := set u | u in m && m[u].CommandEntry?;
    assert m.Keys == kept.Keys + dropped;
    assert |m| == |kept| + |dropped|;
    if u :| u in m && m[u].CommandEntry? {
      assert u in dropped;
    }
  }

  // ---- what an update means for each slot ----

  /** Purging leaves no command behind and nothing but commands is lost. */
  lemma PurgeRemovesExactlyCommands(s: Remembered)
    ensures !HasCommand(WithoutCommands(s))
    ensures WithoutCommands(s).lastUser == s.lastUser
    ensures WithoutCommands(s).globalSelection ==
            if s.globalSelection.Some? && s.globalSelection.value.CommandEntry? then None else s.globalSelection
    ensures forall u | u in s.userSelections ::
              if s.userSelections[u].CommandEntry? then u !in WithoutCommands(s).userSelections
              else u in WithoutCommands(s).userSelections && WithoutCommands(s).userSelections[u] == s.userSelections[u]
    ensures WithoutCommands(s) == s <==> !HasCommand(s)
  {
    if !HasCommand(s) {
      assert WithoutCommands(s).userSelections == s.userSelections;
    }
  }

  /** Whatever was stored before, a purging update ends with no command in any slot. */
  lemma PurgingUpdateLeavesNoCommand(s: Remembered, u: Update)
    requires u.purgeCommands
    ensures !HasCommand(Applied(s, u))
  {
  }

  /** A login under a policy without the command editor can never store a command, even for the session it used. */
  lemma LoginWithoutEditorStoresNoCommand(s: Remembered, user: RememberedUser, selection: Option<RememberedSelection>,
                                          ru: bool, rg: bool, rp: bool)
    ensures !HasCommand(Applied(s, LoginUpdate(user, selection, ru, rg, rp, false)))
  {
  }

  /** After a login every remembered slot holds what this login used, and every other slot is what it was,
      except that commands vanish when the editor is disabled. */
  lemma LoginWritesExactlyItsSlots(s: Remembered, user: RememberedUser, selection: Option<RememberedSelection>,
                                   ru: bool, rg: bool, rp: bool, allow: bool, other: string)
    requires other != user.username || !rp
    ensures var t := Applied(s, LoginUpdate(user, selection, ru, rg, rp, allow));
            var used := if allow || !(selection.Some? && selection.value.CommandEntry?) then selection else None;
            && t.lastUser == (if ru then Some(user) else s.lastUser)
            && (rg ==> t.globalSelection == used)
            && (rp ==> (if used.None? then user.username !in t.userSelections
                        else user.username in t.userSelections && t.userSelections[user.username] == used.value))
            && (other in t.userSelections <==>
                other in s.userSelections && (allow || !s.userSelections[other].CommandEntry?))
            && (other in t.userSelections ==> t.userSelections[other] == s.userSelections[other])
  {
  }
}

/** What a user gets from typing, choosing and pressing Enter, said in terms of the keys pressed. */
module KeyboardTheorems {
  import opened Wrappers
  import opened Sessions
  import opened CacheState
  import opened GreeterState
  import opened Keyboard
  import opened Protocol
  import Text

  // ---- typing ----

  /** The text that a field holds after keys that leave the mode alone. */
  function TextAfter(before: string, keys: seq<Key>): string {
    if keys == [] then before
    else
      match keys[|keys| - 1]
      case Edit(text) => text
      case ClearLine => ""
      case _ => TextAfter(before, keys[..|keys| - 1])
  }

  predicate IsTyping(key: Key) {
    key.Edit? || key.ClearLine? || key.OtherKey?
  }

  /** The world after some keys, pressed with no power command running. */
  function Pressed(w: World, keys: seq<Key>): World {
    if keys == [] then w else KeyNext(Pressed(w, keys[..|keys| - 1]), keys[|keys| - 1])
  }

  predicate TakesKeys(w: World, mode: Mode) {
    w.ui.Ready? && w.greeter.auth.AcceptsInput() && w.greeter.mode == mode
  }

  lemma {:induction false} TypingAnAnswer(w: World, keys: seq<Key>)
    requires TakesKeys(w, PasswordMode) && forall key | key in keys :: IsTyping(key)
    ensures Pressed(w, keys) == w.(greeter := w.greeter.(buffer := TextAfter(w.greeter.buffer, keys)))
    decreases |keys|
  {
    if keys != [] {
      assert keys[|keys| - 1] in keys;
      TypingAnAnswer(w, keys[..|keys| - 1]);
    }
  }

  /** What was typed at a prompt is what Enter posts, once, and nothing of it stays behind. */
  lemma TypedAnswerIsPosted(w: World, keys: seq<Key>)
    requires TakesKeys(w, PasswordMode) && forall key | key in keys :: IsTyping(key)
    ensures KeyNext(Pressed(w, keys), Enter) ==
            w.(greeter := w.greeter.(auth := ContinuingAuth, buffer := ""),
               queue := w.queue + [Queued(PostAuthMessageResponse(Some(TextAfter(w.greeter.buffer, keys))), w.generation)])
  {
    TypingAnAnswer(w, keys);
  }

  /** An answer is posted only so: Enter at a prompt posts what the field holds. */
  lemma OnlyEnterPostsTheBuffer(g: State, key: Key, powerActive: bool, answer: Option<string>)
    ensures HandleKey(g, key, powerActive).1 == Send(PostAuthMessageResponse(answer)) <==>
            && !powerActive && key == Enter && g.auth.AcceptsInput() && g.mode.PasswordMode? && answer == Some(g.buffer)
    ensures HandleKey(g, key, powerActive).1 == Send(PostAuthMessageResponse(answer)) ==>
              HandleKey(g, key, powerActive).0 == g.(auth := ContinuingAuth, buffer := "")
  {
  }

  lemma {:induction false} TypingAName(w: World, keys: seq<Key>)
    requires TakesKeys(w, UsernameMode) && forall key | key in keys :: IsTyping(key)
    ensures var t := Pressed(w, keys);
            && t == w.(greeter := w.greeter.(username := t.greeter.username))
            && t.greeter.username.value == TextAfter(w.greeter.username.value, keys)
    decreases |keys|
  {
    if keys != [] {
      assert keys[|keys| - 1] in keys;
      TypingAName(w, keys[..|keys| - 1]);
    }
  }

  lemma {:induction false} TypingACommand(w: World, keys: seq<Key>)
    requires TakesKeys(w, CommandMode) && forall key | key in keys :: IsTyping(key)
    ensures Pressed(w, keys) == w.(greeter := w.greeter.(commandBuffer := TextAfter(w.greeter.commandBuffer, keys)))
    decreases |keys|
  {
    if keys != [] {
      assert keys[|keys| - 1] in keys;
      TypingACommand(w, keys[..|keys| - 1]);
    }
  }

  /** A command typed into the editor is what will be launched; a blank one is not taken. */
  lemma TypedCommandIsLaunched(w: World, keys: seq<Key>)
    requires TakesKeys(w, CommandMode) && w.greeter.settings.allowCommandEditor && forall key | key in keys :: IsTyping(key)
    ensures var text, t := TextAfter(w.greeter.commandBuffer, keys), KeyNext(Pressed(w, keys), Enter);
            && t == w.(greeter := t.greeter)
            && if Text.IsBlank(text) then t.greeter == w.greeter.(commandBuffer := text)
               else
                 && LaunchCommand(t.greeter) == Some(text) && t.greeter.mode == w.greeter.previousMode
                 && t.greeter.source == FreeCommand(text) && t.greeter.commandBuffer == ""
                 && t.greeter.auth == w.greeter.auth && t.greeter.username == w.greeter.username
  {
    TypingACommand(w, keys);
  }

  // ---- the remembered selection of a user ----

  predicate IsFirst(sessions: seq<Session>, entry: RememberedSelection, i: nat) {
    && i < |sessions| && SelectionOf(sessions[i]) == Some(entry)
    && forall j | 0 <= j < i :: SelectionOf(sessions[j]) != Some(entry)
  }

  /** What remembering an entry for the launch source means: a listed session is selected, a command only with the editor,
      and anything else changes nothing. */
  ghost predicate Restores(g: State, entry: RememberedSelection, h: State) {
    match entry
    case CommandEntry(command) =>
      h == if g.settings.allowCommandEditor then g.(source := FreeCommand(command)) else g
    case DesktopEntry(_, _) =>
      if exists i :: IsFirst(g.sessions.options, entry, i) then
        exists i :: && IsFirst(g.sessions.options, entry, i)
                    && h == g.(source := FromSession(i), sessions := g.sessions.(selected := i))
      else h == g
  }

  lemma RestoringMeans(g: State, entry: RememberedSelection)
    ensures Restores(g, entry, RestoreCachedSelection(g, entry))
  {
    if entry.DesktopEntry? {
      var i := Resolve(entry, g.sessions.options);
      if i.Some? {
        assert IsFirst(g.sessions.options, entry, i.value);
      }
    }
  }

  /** The greeter in which an attempt for the named user is made. */
  ghost predicate PreparedFor(g: State, h: State) {
    var name := g.username.value;
    if g.settings.rememberUserSession && name in g.cache.userSelections
    then Restores(g, g.cache.userSelections[name], h) else h == g
  }

  /** An attempt asks greetd for the named user and nobody else, with that user's remembered selection, and only if there is
      something to launch. */
  lemma AttemptIsForTheNamedUser(g: State)
    requires g.auth.AcceptsInput()
    ensures exists h :: && PreparedFor(g, h)
                        && ValidateUsername(g) == if LaunchCommand(h).None? then (h, NoEffect)
                                                  else (h.(auth := CreatingSession, buffer := ""),
                                                        Send(CreateSession(g.username.value)))
  {
    var name := g.username.value;
    var h := if g.settings.rememberUserSession && name in g.cache.userSelections
             then RestoreCachedSelection(g, g.cache.userSelections[name]) else g;
    if g.settings.rememberUserSession && name in g.cache.userSelections {
      RestoringMeans(g, g.cache.userSelections[name]);
    }
    assert PreparedFor(g, h);
  }

  /** The name typed is the one that greetd is asked for. */
  lemma TypedNameIsAskedFor(w: World, keys: seq<Key>)
    requires TakesKeys(w, UsernameMode) && (forall key | key in keys :: IsTyping(key))
    requires TextAfter(w.greeter.username.value, keys) != ""
    ensures var name, t := TextAfter(w.greeter.username.value, keys), KeyNext(Pressed(w, keys), Enter);
            && t.greeter.username.value == name && t.generation == w.generation
            && if t.greeter.auth.CreatingSession? then t.queue == w.queue + [Queued(CreateSession(name), w.generation)]
               else t.queue == w.queue && t.greeter.auth == w.greeter.auth && LaunchCommand(t.greeter).None?
  {
    TypingAName(w, keys);
    AttemptIsForTheNamedUser(Pressed(w, keys).greeter);
  }

  /** Whoever greetd is asked for was typed, completed or chosen from the menu. */
  lemma OnlyNamedUsersAreAskedFor(g: State, key: Key, powerActive: bool, name: string)
    requires HandleKey(g, key, powerActive).1 == Send(CreateSession(name))
    ensures !powerActive && g.auth.AcceptsInput() && HandleKey(g, key, powerActive).0.auth == CreatingSession
    ensures || (g.mode.UsernameMode? && (key == Enter || key == Tab) && name == g.username.value)
            || (g.mode.UsersMode? && key == Enter && g.users.HasSelection()
                && name == g.users.options[g.users.selected].username)
  {
  }

  // ---- choosing from a menu ----

  predicate IsArrow(key: Key) {
    key.Up? || key.Down?
  }

  /** Where the highlight is after some arrow keys in a list of the given length. */
  function Walk(from: nat, keys: seq<Key>, length: nat): nat {
    if keys == [] then from
    else
      var at := Walk(from, keys[..|keys| - 1], length);
      match keys[|keys| - 1]
      case Up => if at > 0 then at - 1 else at
      case Down => if at + 1 < length then at + 1 else at
      case _ => at
  }

  lemma {:induction false} WalkingSessions(w: World, keys: seq<Key>)
    requires TakesKeys(w, SessionsMode) && forall key | key in keys :: IsArrow(key)
    ensures var sessions := w.greeter.sessions;
            Pressed(w, keys) ==
            w.(greeter := w.greeter.(sessions := Menu(sessions.options, Walk(sessions.selected, keys, |sessions.options|))))
    decreases |keys|
  {
    if keys != [] {
      assert keys[|keys| - 1] in keys;
      WalkingSessions(w, keys[..|keys| - 1]);
    }
  }

  lemma {:induction false} WalkingUsers(w: World, keys: seq<Key>)
    requires TakesKeys(w, UsersMode) && forall key | key in keys :: IsArrow(key)
    ensures var users := w.greeter.users;
            Pressed(w, keys) ==
            w.(greeter := w.greeter.(users := Menu(users.options, Walk(users.selected, keys, |users.options|))))
    decreases |keys|
  {
    if keys != [] {
      assert keys[|keys| - 1] in keys;
      WalkingUsers(w, keys[..|keys| - 1]);
    }
  }

  lemma {:induction false} WalkingPowers(w: World, keys: seq<Key>)
    requires TakesKeys(w, PowerMode) && forall key | key in keys :: IsArrow(key)
    ensures var powers := w.greeter.powers;
            Pressed(w, keys) ==
            w.(greeter := w.greeter.(powers := Menu(powers.options, Walk(powers.selected, keys, |powers.options|))))
    decreases |keys|
  {
    if keys != [] {
      assert keys[|keys| - 1] in keys;
      WalkingPowers(w, keys[..|keys| - 1]);
    }
  }

  lemma {:induction false} WalkStaysInside(from: nat, keys: seq<Key>, length: nat)
    requires from < length
    ensures Walk(from, keys, length) < length
  {
    if keys != [] {
      WalkStaysInside(from, keys[..|keys| - 1], length);
    }
  }

  /** The session highlighted when Enter is pressed is what will be launched. */
  lemma ChosenSessionIsLaunched(w: World, keys: seq<Key>)
    requires TakesKeys(w, SessionsMode) && w.greeter.sessions.HasSelection() && forall key | key in keys :: IsArrow(key)
    ensures var sessions := w.greeter.sessions;
            var i, t := Walk(sessions.selected, keys, |sessions.options|), KeyNext(Pressed(w, keys), Enter);
            && i < |sessions.options|
            && t == w.(greeter := w.greeter.(mode := w.greeter.previousMode, source := FromSession(i),
                                             sessions := Menu(sessions.options, i)))
            && LaunchCommand(t.greeter) ==
               if Text.IsBlank(sessions.options[i].command) then None else Some(sessions.options[i].command)
  {
    WalkingSessions(w, keys);
    WalkStaysInside(w.greeter.sessions.selected, keys, |w.greeter.sessions.options|);
  }

  /** The user highlighted when Enter is pressed is the one greetd is asked for. */
  lemma ChosenUserIsAskedFor(w: World, keys: seq<Key>)
    requires TakesKeys(w, UsersMode) && w.greeter.users.HasSelection() && forall key | key in keys :: IsArrow(key)
    ensures var users := w.greeter.users;
            var i, t := Walk(users.selected, keys, |users.options|), KeyNext(Pressed(w, keys), Enter);
            && i < |users.options| && t.greeter.mode == w.greeter.previousMode
            && t.greeter.username == Masked(users.options[i].username, users.options[i].name)
            && if t.greeter.auth.CreatingSession?
               then t.queue == w.queue + [Queued(CreateSession(users.options[i].username), w.generation)]
               else t.queue == w.queue && t.greeter.auth == w.greeter.auth && LaunchCommand(t.greeter).None?
  {
    WalkingUsers(w, keys);
    WalkStaysInside(w.greeter.users.selected, keys, |w.greeter.users.options|);
    var g := Pressed(w, keys).greeter;
    var user := g.users.options[g.users.selected];
    AttemptIsForTheNamedUser(g.(mode := g.previousMode, username := Masked(user.username, user.name)));
  }

  /** The power option highlighted when Enter is pressed is the one whose command runs. */
  lemma ChosenPowerOptionRuns(w: World, keys: seq<Key>)
    requires TakesKeys(w, PowerMode) && w.greeter.powers.HasSelection() && !w.greeter.settings.mock
    requires forall key | key in keys :: IsArrow(key)
    requires forall i, j | 0 <= i < j < |w.greeter.powers.options| ::
               w.greeter.powers.options[i].action != w.greeter.powers.options[j].action
    ensures var powers := w.greeter.powers;
            var i := Walk(powers.selected, keys, |powers.options|);
            var (h, e) := HandleKey(Pressed(w, keys).greeter, Enter, false);
            && i < |powers.options| && h.mode == w.greeter.previousMode
            && e == match powers.options[i].command
                    case Some(argv) => Emit(PowerCommand(argv, w.greeter.settings.powerSetsid))
                    case None => NoEffect
  {
    WalkingPowers(w, keys);
    WalkStaysInside(w.greeter.powers.selected, keys, |w.greeter.powers.options|);
  }

  // ---- Esc and the menus ----

  /** Esc takes back the last thing that is open: a menu or the editor, then the attempt, then what was typed. */
  lemma EscTakesBack(g: State)
    ensures var (h, e) := HandleKey(g, Esc, false);
            if IsPopup(g.mode) then
              && e == NoEffect && h.mode == g.previousMode && h.auth == g.auth && h.source == g.source
              && h.username == g.username && h.buffer == g.buffer
              && (g.mode == CommandMode ==> h.commandBuffer == "")
            else if g.auth.CanCancel() then e == Cancel && h == g.(auth := Cancelling)
            else if g.auth.Idle? then
              && e == NoEffect && h.mode.UsernameMode? && h.auth.Idle? && h.source == g.source
              && h.username == Masked("", None) && h.buffer == "" && h.commandBuffer == ""
            else e == NoEffect && h == g
  {
  }

  /** Opening a menu or the editor and closing it again changes nothing but where the next one returns to. */
  lemma OpeningIsUndoneByEsc(g: State, n: nat)
    requires g.auth.AcceptsInput() && !IsPopup(g.mode) && g.commandBuffer == ""
    ensures var menu := HandleKey(g, FKey(n), false).0;
            && (menu == g || (IsPopup(menu.mode) && menu.previousMode == g.mode))
            && (IsPopup(menu.mode) ==>
                  HandleKey(menu, Esc, false) == (g.(previousMode := g.mode), NoEffect))
  {
  }

  /** The keys that open something, and that they work only where there is something to open. */
  lemma FunctionKeysOpen(g: State, n: nat)
    requires g.auth.AcceptsInput() && !IsPopup(g.mode)
    requires g.settings.kbCommand != g.settings.kbSessions && g.settings.kbCommand != g.settings.kbPower
    requires g.settings.kbSessions != g.settings.kbPower
    ensures var h := HandleKey(g, FKey(n), false).0;
            && (n == g.settings.kbCommand ==>
                  if g.settings.allowCommandEditor then h.mode == CommandMode && h.commandBuffer == SourceCommand(g).GetOr("")
                  else h == g)
            && (n == g.settings.kbSessions ==> if g.sessions.options != [] then h.mode == SessionsMode else h == g)
            && (n == g.settings.kbPower ==> if g.powers.options != [] then h.mode == PowerMode else h == g)
            && (n !in {g.settings.kbCommand, g.settings.kbSessions, g.settings.kbPower} ==> h == g)
  {
  }

  /** While the actor works, or a power command runs, no key but Esc does anything; and Esc then stops just that. */
  lemma BusyKeysAreIgnored(g: State, key: Key)
    ensures key != Esc && !g.auth.AcceptsInput() ==> HandleKey(g, key, false) == (g, NoEffect)
    ensures HandleKey(g, key, true) == (g, if key == Esc then Emit(CancelPower) else NoEffect)
  {
  }

  // ---- completion ----

  /** A name typed in full is taken for complete, an ambiguous one is extended as far as all candidates agree. */
  lemma CompletionIsLongest(g: State, p: string)
    ensures CompleteUsername(g) == Exact <==> exists user | user in g.users.options :: user.username == g.username.value
    ensures CompleteUsername(g).Changed? ==>
              ((forall user | user in g.users.options && g.username.value <= user.username :: p <= user.username) <==>
               p <= CompleteUsername(g).text)
  {
    var input := g.username.value;
    var matches := Matching(g.users.options, input);
    MatchingIsExact(g.users.options, input);
    if CompleteUsername(g).Changed? {
      CommonPrefixIsLongest(matches, p);
      assert forall i | 0 <= i < |matches| :: matches[i] in matches;
      assert forall user | user in g.users.options && input <= user.username :: user.username in matches;
    }
  }

  lemma {:induction false} MatchingIsExact(users: seq<User>, input: string)
    ensures forall name | name in Matching(users, input) ::
              input <= name && exists user | user in users :: user.username == name
  {
    if users != [] {
      MatchingIsExact(users[1..], input);
      assert users == [users[0]] + users[1..];
    }
  }

  /** Tab completes a name; where that is off, or nothing is left to complete, it does what Enter does. */
  lemma TabCompletesOrEnters(g: State)
    requires g.auth.AcceptsInput()
    ensures var r := HandleKey(g, Tab, false);
            if !g.mode.UsernameMode? then r == (g, NoEffect)
            else if g.settings.userAutocomplete then
              match CompleteUsername(g)
              case Changed(text) => r == (g.(username := Masked(text, None)), NoEffect)
              case Exact => g.username.value != "" ==> r == HandleKey(g, Enter, false)
              case NoCompletion => r == (g, NoEffect)
            else if g.username.value == "" then r == (g, NoEffect)
            else r == HandleKey(g, Enter, false)
  {
  }

  /** Enter without a name opens the menu of users, if there is one. */
  lemma EnterWithoutNameOpensTheMenu(g: State)
    requires g.auth.AcceptsInput() && g.mode.UsernameMode? && g.username.value == ""
    ensures HandleKey(g, Enter, false) ==
            (if g.settings.userMenu && g.users.options != [] then g.(mode := UsersMode, previousMode := UsernameMode) else g,
             NoEffect)
  {
  }

  /** Where greetd is only imitated, choosing a power option leaves. */
  lemma ImitationRunsNoPowerCommand(g: State)
    requires g.auth.AcceptsInput() && g.mode.PowerMode? && g.powers.HasSelection() && g.settings.mock
    ensures HandleKey(g, Enter, false) == (g.(mode := g.previousMode), Emit(Exit(ExitCancel)))
  {
  }

  /** Leaving is recorded as it was asked for, and cancels an attempt that can be cancelled unless a session starts. */
  lemma ExitIsRecorded(g: State, status: ExitStatus)
    ensures var (h, e) := RequestExit(g, status);
            && h == g.(exit := Some(status), auth := h.auth)
            && if status != ExitSuccess && g.auth.CanCancel() then e == Cancel && h.auth.Cancelling?
               else e == NoEffect && h.auth == g.auth
  {
  }
}

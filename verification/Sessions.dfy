/** Session files and the selected launch source (`src/ui/sessions.rs`). */
module Sessions {
  import opened Wrappers

  datatype SessionType = X11 | Wayland | Tty | NoType

  datatype Session = Session(
    slug: Option<string>,
    command: string,
    sessionType: SessionType,
    path: Option<string>)
  {
    /** The identity that survives a reload: the desktop file, or else the slug. */
    function Id(): Option<SessionId> {
      if path.Some? then Some(DesktopId(path.value, sessionType))
      else if slug.Some? then Some(SyntheticId(slug.value, sessionType))
      else None
    }
  }

  datatype SessionId = DesktopId(path: string, sessionType: SessionType) | SyntheticId(slug: string, sessionType: SessionType)

  datatype SessionSource =
    | NoSource
    | DefaultCommand(command: string, environment: Option<seq<string>>)
    | FreeCommand(command: string)
    | FromSession(index: nat)

  /** The first session with the given identity. */
  function PositionOf(sessions: seq<Session>, id: SessionId): (r: Option<nat>)
    ensures r.Some? ==> r.value < |sessions| && sessions[r.value].Id() == Some(id)
    ensures r.None? <==> forall i | 0 <= i < |sessions| :: sessions[i].Id() != Some(id)
    ensures r.Some? ==> forall i | 0 <= i < r.value :: sessions[i].Id() != Some(id)
  {
    if sessions == [] then None
    else if sessions[0].Id() == Some(id) then Some(0)
    else
      assert forall i | 0 < i < |sessions| :: sessions[i] == sessions[1..][i - 1];
      var r := PositionOf(sessions[1..], id);
      if r.Some? then Some(r.value + 1) else None
  }
}

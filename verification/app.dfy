/** The component's state, reduced to the values the ledger depends on, and
    the handlers that move it: creating a session, starting, ending and
    confirming a game, and writing an edited session back into the list. */
module App {
  import opened Common
  import opened Model
  import opened Text
  import Roster
  import Settlement

  /** `sessions`, `currentSession`, `gameInProgress`, `currentGame`,
      `showGameResult` and `gameResult` of the component. */
  datatype App = App(
    sessions: seq<Session>,
    current: Option<Session>,
    gameInProgress: bool,
    currentGame: Option<CurrentGame>,
    showGameResult: bool,
    pending: GameResult)

  /** `sessions.map(s => s.id === updated.id ? updated : s)`. */
  function ReplaceSession(sessions: seq<Session>, updated: Session): (r: seq<Session>)
    ensures |r| == |sessions|
    ensures forall i :: 0 <= i < |sessions| && sessions[i].id != updated.id ==> r[i] == sessions[i]
    ensures forall i :: 0 <= i < |sessions| && sessions[i].id == updated.id ==> r[i] == updated
  {
    seq(|sessions|, i requires 0 <= i < |sessions| => if sessions[i].id == updated.id then updated else sessions[i])
  }

  /** Sessions are numbered by their position: `Session_1`, `Session_2`, ... */
  predicate IdsInOrder(sessions: seq<Session>)
  {
    forall i :: 0 <= i < |sessions| ==> sessions[i].id == i + 1
  }

  /** With sessions numbered by position, writing a session back replaces
      exactly the entry at its own position. */
  lemma ReplaceIsUpdateAtPosition(sessions: seq<Session>, updated: Session)
    requires IdsInOrder(sessions)
    requires 1 <= updated.id <= |sessions|
    ensures ReplaceSession(sessions, updated) == sessions[updated.id - 1 := updated]
  {
  }

  /** The session list is numbered by position and the open session is the
      list's entry with its number. */
  predicate Valid(a: App)
  {
    && IdsInOrder(a.sessions)
    && (a.current.Some? ==>
          1 <= a.current.value.id <= |a.sessions| && a.sessions[a.current.value.id - 1] == a.current.value)
  }

  /** `setCurrentSession(updated); setSessions(sessions.map(...))`. */
  function Commit(a: App, updated: Session): (r: App)
    ensures r.current == Some(updated)
    ensures r.sessions == ReplaceSession(a.sessions, updated)
    ensures r.gameInProgress == a.gameInProgress && r.currentGame == a.currentGame
    ensures r.showGameResult == a.showGameResult && r.pending == a.pending
  {
    a.(current := Some(updated), sessions := ReplaceSession(a.sessions, updated))
  }

  /** Writing back an edit of the open session keeps the state valid. */
  lemma CommitKeepsValid(a: App, updated: Session)
    ensures Valid(a) && a.current.Some? && updated.id == a.current.value.id ==> Valid(Commit(a, updated))
  {
    if Valid(a) && a.current.Some? && updated.id == a.current.value.id {
      ReplaceIsUpdateAtPosition(a.sessions, updated);
    }
  }

  /** `createNewSession` on the whole state: a refused form changes nothing;
      otherwise the new session is appended and opened. */
  function CreateSession(a: App, form: NewSessionForm, startTime: string): (r: App)
    ensures !Roster.HasTwoNames(form.players) ==> r == a
    ensures Roster.HasTwoNames(form.players) ==>
      var s := Roster.CreateNewSession(|a.sessions|, form, startTime).value;
      r == a.(sessions := a.sessions + [s], current := Some(s))
    ensures Roster.HasTwoNames(form.players) ==>
      && |r.sessions| == |a.sessions| + 1
      && r.sessions[..|a.sessions|] == a.sessions
      && r.current == Some(r.sessions[|a.sessions|])
      && r.current.value.id == |a.sessions| + 1
      && r.current.value.games == []
    ensures Valid(a) ==> Valid(r)
  {
    var created := Roster.CreateNewSession(|a.sessions|, form, startTime);
    if created.Failure? then a
    else
      var s := created.value;
      var sessions := a.sessions + [s];
      assert sessions[..|a.sessions|] == a.sessions;
      assert sessions[|a.sessions|] == s;
      OpenNewKeepsValid(a, s);
      a.(sessions := sessions, current := Some(s))
  }

  /** Appending and opening a session numbered after the existing ones keeps
      the state valid. */
  lemma OpenNewKeepsValid(a: App, s: Session)
    ensures Valid(a) && s.id == |a.sessions| + 1 ==> Valid(a.(sessions := a.sessions + [s], current := Some(s)))
  {
  }

  /** `startGame`: with no open session nothing happens; otherwise the game is
      captured and marked in progress. */
  function StartGame(a: App, startTime: string): (r: App)
    ensures a.current.None? ==> r == a
    ensures a.current.Some? ==>
      && r == a.(gameInProgress := true, currentGame := r.currentGame)
      && r.currentGame.Some?
      && r.currentGame.value.gameNumber == |a.current.value.games| + 1
    ensures a.current.Some? ==> r.currentGame == Some(Settlement.StartGame(a.current.value, startTime))
  {
    match a.current
    case None => a
    case Some(s) => a.(gameInProgress := true, currentGame := Some(Settlement.StartGame(s, startTime)))
  }

  /** `endGame`: leave play and open the result form with nothing entered. */
  function EndGame(a: App): (r: App)
    ensures !r.gameInProgress && r.showGameResult
    ensures r.pending.winner == [] && r.pending.paidPlayers == [] && r.pending.carryForwards == []
    ensures r.sessions == a.sessions && r.current == a.current && r.currentGame == a.currentGame
  {
    a.(gameInProgress := false, showGameResult := true, pending := GameResult([], [], []))
  }

  /** `confirmGame`: without a winner the state is left exactly as it was,
      pending result and game included; otherwise the settled session is
      written back, the result form closes and the game marker is cleared,
      while the entered result itself is left in place. */
  function ConfirmGame(a: App, endTime: string): (r: App)
    requires a.current.Some? && a.currentGame.Some?
    ensures a.pending.winner == [] ==> r == a
    ensures a.pending.winner != [] ==>
      var t := Settlement.Settle(a.current.value, a.currentGame.value, a.pending, endTime);
      && t.Success?
      && r.current == Some(t.value)
      && r.sessions == ReplaceSession(a.sessions, t.value)
      && r.currentGame.None? && !r.showGameResult
      && r.pending == a.pending && r.gameInProgress == a.gameInProgress
    ensures Valid(a) ==> Valid(r)
  {
    match Settlement.Settle(a.current.value, a.currentGame.value, a.pending, endTime)
    case Failure(_) => a
    case Success(t) =>
      CommitKeepsValid(a, t);
      Commit(a, t).(showGameResult := false, currentGame := None)
  }

  /** `addPlayer` on the whole state: a usable answer is written back to the
      open session and the session list; otherwise nothing changes. */
  function AddPlayer(a: App, answer: Option<string>): (r: App)
    requires a.current.Some?
    ensures !(answer.Some? && NonBlank(answer.value)) ==> r == a
    ensures answer.Some? && NonBlank(answer.value) ==>
      && r == Commit(a, Roster.AddPlayer(a.current.value, answer))
      && |r.current.value.players| == |a.current.value.players| + 1
    ensures Valid(a) ==> Valid(r)
  {
    if answer.Some? && answer.value != [] && NonBlank(answer.value) then
      var t := Roster.AddPlayer(a.current.value, answer);
      CommitKeepsValid(a, t);
      Commit(a, t)
    else
      a
  }

  /** `removePlayer` on the whole state: a refusal or a declined confirmation
      changes nothing; otherwise the shortened roster is written back. */
  function RemovePlayer(a: App, name: string, confirmed: bool): (r: App)
    requires a.current.Some?
    ensures |a.current.value.players| <= 2 || !confirmed ==> r == a
    ensures |a.current.value.players| > 2 && confirmed ==>
      r == Commit(a, Roster.RemovePlayer(a.current.value, name, true).value)
    ensures Valid(a) ==> Valid(r)
  {
    match Roster.RemovePlayer(a.current.value, name, confirmed)
    case Failure(_) => a
    case Success(t) =>
      if !confirmed then a
      else
        CommitKeepsValid(a, t);
        Commit(a, t)
  }
}

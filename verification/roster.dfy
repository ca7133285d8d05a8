/** Session creation and roster edits: `createNewSession`, `addPlayer` and
    `removePlayer` of the component. The dialogs they open become inputs: the
    `prompt` answer is an optional string and the `confirm` answer a boolean. */
module Roster {
  import opened Common
  import opened Text
  import opened Model

  /** A fresh player: no balance and no games yet. */
  function NewPlayer(name: string): Player
  {
    Player(Trim(name), 0, 0, 0)
  }

  /** Two different form entries hold a non-blank name. */
  predicate HasTwoNames(names: seq<string>)
  {
    exists i, j :: 0 <= i < j < |names| && NonBlank(names[i]) && NonBlank(names[j])
  }

  /** `newSessionData.players.filter(p => p.trim())`, with at least two entries
      exactly when two of the typed names are non-blank. */
  function ValidNames(names: seq<string>): (r: seq<string>)
    ensures forall i :: 0 <= i < |r| ==> NonBlank(r[i]) && r[i] in names
    ensures forall i :: 0 <= i < |names| && NonBlank(names[i]) ==> names[i] in r
    ensures |r| == Count(names, NonBlank)
    ensures |r| >= 2 <==> HasTwoNames(names)
  {
    var r := Filter(names, NonBlank);
    FilterLength(names, NonBlank);
    CountTwo(names);
    r
  }

  /** The filtered names keep every non-blank entry as often as the form
      holds it, and no blank entry at all. */
  lemma ValidNamesMultiset(names: seq<string>)
    ensures forall x :: multiset(ValidNames(names))[x] == if NonBlank(x) then multiset(names)[x] else 0
  {
    FilterMultiset(names, NonBlank);
  }

  /** At least two counted entries means two distinct positions that qualify. */
  lemma {:induction false} CountTwo(names: seq<string>)
    ensures Count(names, NonBlank) >= 2 <==> HasTwoNames(names)
  {
    if |names| > 0 {
      CountTwo(names[1..]);
      CountOne(names[1..]);
      if HasTwoNames(names[1..]) {
        var i, j :| 0 <= i < j < |names[1..]| && NonBlank(names[1..][i]) && NonBlank(names[1..][j]);
        assert NonBlank(names[i + 1]) && NonBlank(names[j + 1]);
      }
      if HasTwoNames(names) {
        var i, j :| 0 <= i < j < |names| && NonBlank(names[i]) && NonBlank(names[j]);
        if i == 0 {
          assert NonBlank(names[1..][j - 1]);
        } else {
          assert NonBlank(names[1..][i - 1]) && NonBlank(names[1..][j - 1]);
        }
      }
    }
  }

  /** At least one counted entry means some position qualifies. */
  lemma {:induction false} CountOne(names: seq<string>)
    ensures Count(names, NonBlank) >= 1 <==> exists i :: 0 <= i < |names| && NonBlank(names[i])
  {
    if |names| > 0 {
      CountOne(names[1..]);
      if exists i :: 0 <= i < |names| && NonBlank(names[i]) {
        var i :| 0 <= i < |names| && NonBlank(names[i]);
        if i > 0 {
          assert NonBlank(names[1..][i - 1]);
        }
      }
    }
  }

  /** A player made from one of the form's non-blank names has a non-empty,
      trimmed name taken from the form. */
  lemma NewPlayerFromForm(names: seq<string>, name: string)
    requires name in names && NonBlank(name)
    ensures NewPlayer(name).name != [] && NewPlayer(name).name == Trim(NewPlayer(name).name)
    ensures exists k :: 0 <= k < |names| && NewPlayer(name).name == Trim(names[k])
  {
    TrimIdempotent(name);
    var k :| 0 <= k < |names| && names[k] == name;
  }

  /** `createNewSession`: refused unless two names are non-blank; otherwise a
      session numbered after the existing ones, with no games, the form's
      amounts and one fresh player per non-blank name, trimmed. */
  function CreateNewSession(sessionCount: nat, form: NewSessionForm, startTime: string): (r: Result<Session, Error>)
    ensures r.Failure? <==> !HasTwoNames(form.players)
    ensures r.Failure? ==> r.error == InsufficientPlayers
    ensures r.Success? ==>
      && r.value.id == sessionCount + 1
      && r.value.startTime == startTime
      && r.value.games == []
      && r.value.currentStake == form.stakeAmount
      && r.value.chalkFee == form.chalkFee
      && r.value.tableFee == form.tableFee
      && |r.value.players| == Count(form.players, NonBlank) >= 2
    ensures r.Success? ==> |r.value.players| == |ValidNames(form.players)|
    ensures r.Success? ==> forall i :: 0 <= i < |r.value.players| ==>
      var p := r.value.players[i];
      && p.name == Trim(ValidNames(form.players)[i])
      && p.balance == 0 && p.totalWins == 0 && p.totalLosses == 0
      && p.name != [] && p.name == Trim(p.name)
      && exists k :: 0 <= k < |form.players| && p.name == Trim(form.players[k])
  {
    var valid := ValidNames(form.players);
    if |valid| < 2 then Failure(InsufficientPlayers)
    else
      var players := FreshPlayers(valid);
      FreshPlayersFromForm(form.players, valid);
      Success(Session(sessionCount + 1, startTime, [], players, form.stakeAmount, form.chalkFee, form.tableFee))
  }

  /** `validPlayers.map(name => ({ name: name.trim(), balance: 0, ... }))`. */
  function FreshPlayers(names: seq<string>): (ps: seq<Player>)
    ensures |ps| == |names|
    ensures forall i :: 0 <= i < |names| ==> ps[i] == NewPlayer(names[i])
  {
    seq(|names|, i requires 0 <= i < |names| => NewPlayer(names[i]))
  }

  /** Fresh players made from non-blank names of the form carry non-empty,
      trimmed names that the form holds. */
  lemma FreshPlayersFromForm(form: seq<string>, names: seq<string>)
    requires forall i :: 0 <= i < |names| ==> NonBlank(names[i]) && names[i] in form
    ensures forall i :: 0 <= i < |names| ==>
      var p := FreshPlayers(names)[i];
      && p.name != [] && p.name == Trim(p.name)
      && exists k :: 0 <= k < |form| && p.name == Trim(form[k])
  {
    forall i | 0 <= i < |names|
      ensures NewPlayer(names[i]).name != [] && NewPlayer(names[i]).name == Trim(NewPlayer(names[i]).name)
      ensures exists k :: 0 <= k < |form| && NewPlayer(names[i]).name == Trim(form[k])
    {
      NewPlayerFromForm(form, names[i]);
    }
  }

  /** `addPlayer`: with a non-blank answer to the prompt, the trimmed name joins
      the end of the roster with a zero balance; a cancelled or blank answer
      leaves the session as it was. */
  function AddPlayer(s: Session, answer: Option<string>): (r: Session)
    ensures r.games == s.games && r.id == s.id && r.currentStake == s.currentStake
    ensures r.chalkFee == s.chalkFee && r.tableFee == s.tableFee && r.startTime == s.startTime
    ensures answer.Some? && NonBlank(answer.value) ==>
      && |r.players| == |s.players| + 1
      && r.players[..|s.players|] == s.players
      && r.players[|s.players|] == Player(Trim(answer.value), 0, 0, 0)
      && r.players[|s.players|].name != []
    ensures !(answer.Some? && NonBlank(answer.value)) ==> r == s
  {
    match answer
    case Some(name) =>
      if name != [] && NonBlank(name) then s.(players := s.players + [NewPlayer(name)]) else s
    case None => s
  }

  /** With distinct names, at most one player carries any name. */
  lemma {:induction false} DistinctNameCount(ps: seq<Player>, name: string)
    requires forall i, j :: 0 <= i < j < |ps| ==> ps[i].name != ps[j].name
    ensures Count(ps, Named(name)) <= 1
  {
    if |ps| > 0 {
      DistinctNameCount(ps[1..], name);
      if ps[0].name == name {
        NameAbsent(ps[1..], name);
      }
    }
  }

  /** No player carries a name that none of them has. */
  lemma {:induction false} NameAbsent(ps: seq<Player>, name: string)
    requires forall i :: 0 <= i < |ps| ==> ps[i].name != name
    ensures Count(ps, Named(name)) == 0
  {
    if |ps| > 0 {
      NameAbsent(ps[1..], name);
    }
  }

  /** When names are distinct, a removal that goes through leaves at least two players. */
  lemma RemoveKeepsTwoWhenNamesDistinct(s: Session, name: string, confirmed: bool)
    requires forall i, j :: 0 <= i < j < |s.players| ==> s.players[i].name != s.players[j].name
    requires RemovePlayer(s, name, confirmed).Success?
    ensures |RemovePlayer(s, name, confirmed).value.players| >= 2
  {
    DistinctNameCount(s.players, name);
  }

  /** The guard counts players, not names: with a repeated name, removal can
      leave a single player. */
  lemma RemoveCanLeaveOnePlayer()
    ensures var s := Session(1, "", [], [Player("A", 0, 0, 0), Player("B", 0, 0, 0), Player("B", 0, 0, 0)], 100, 30, 20);
      var r := RemovePlayer(s, "B", true);
      r.Success? && r.value.players == [Player("A", 0, 0, 0)]
  {
    var ps := [Player("A", 0, 0, 0), Player("B", 0, 0, 0), Player("B", 0, 0, 0)];
    assert ps[1..] == [Player("B", 0, 0, 0), Player("B", 0, 0, 0)];
    assert ps[1..][1..] == [Player("B", 0, 0, 0)];
  }

  /** `removePlayer`: refused while the roster has two players or fewer; a
      declined confirmation changes nothing; otherwise every player with that
      name is dropped and every other player is kept, duplicates included,
      with their records. */
  function RemovePlayer(s: Session, name: string, confirmed: bool): (r: Result<Session, Error>)
    ensures r.Failure? <==> |s.players| <= 2
    ensures r.Failure? ==> r.error == InsufficientPlayers
    ensures r.Success? && !confirmed ==> r.value == s
    ensures r.Success? && confirmed ==>
      && r.value == s.(players := r.value.players)
      && |r.value.players| == |s.players| - Count(s.players, Named(name))
      && (forall i :: 0 <= i < |r.value.players| ==> r.value.players[i].name != name && r.value.players[i] in s.players)
      && (forall i :: 0 <= i < |s.players| && s.players[i].name != name ==> s.players[i] in r.value.players)
      && (forall q :: multiset(r.value.players)[q] == if q.name == name then 0 else multiset(s.players)[q])
  {
    if |s.players| <= 2 then Failure(InsufficientPlayers)
    else if !confirmed then Success(s)
    else
      var kept := Filter(s.players, NotNamed(name));
      FilterLength(s.players, NotNamed(name));
      CountComplement(s.players, Named(name), NotNamed(name));
      FilterMultiset(s.players, NotNamed(name));
      Success(s.(players := kept))
  }
}

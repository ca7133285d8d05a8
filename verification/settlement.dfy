/** Game start and settlement: `startGame` and `confirmGame` of the component,
    stripped of their React state updates. Settlement is modelled exactly as
    the component computes it, including the fees taken twice from the winner,
    the whole carry-forward total charged to the winner and the carried amount
    credited to the loser. */
module Settlement {
  import opened Common
  import opened Model

  /** `startGame`: number the game after the ones already played and snapshot
      the roster and the stake. */
  function StartGame(s: Session, startTime: string): (g: CurrentGame)
    ensures g.gameNumber == |s.games| + 1
    ensures |g.players| == |s.players|
    ensures forall i :: 0 <= i < |s.players| ==> g.players[i] == s.players[i].name
    ensures g.stake == s.currentStake
    ensures g.startTime == startTime
  {
    CurrentGame(|s.games| + 1, Names(s.players), s.currentStake, startTime)
  }

  function Amount(cf: CarryForward): int
  {
    cf.amount
  }

  /** `carryForwards.reduce((sum, cf) => sum + cf.amount, 0)`. */
  function TotalCarryForward(cfs: seq<CarryForward>): int
  {
    FoldLeft(Amount, 0, cfs)
  }

  /** `carryForwards.find(cf => cf.player === name)`: the first entry for `name`. */
  function FindCarry(cfs: seq<CarryForward>, name: string): (r: Option<CarryForward>)
    ensures r.None? <==> forall i :: 0 <= i < |cfs| ==> cfs[i].player != name
    ensures r.Some? ==> r.value in cfs && r.value.player == name
    ensures forall i :: (0 <= i < |cfs| && cfs[i].player == name
                         && forall j :: 0 <= j < i ==> cfs[j].player != name) ==> r == Some(cfs[i])
  {
    if |cfs| == 0 then None
    else if cfs[0].player == name then Some(cfs[0])
    else
      var r := FindCarry(cfs[1..], name);
      assert forall i :: 1 <= i < |cfs| ==> cfs[i] == cfs[1..][i - 1];
      r
  }

  /** `carryForward ? carryForward.amount : 0`. */
  function CarriedAmount(cfs: seq<CarryForward>, name: string): int
  {
    match FindCarry(cfs, name)
    case Some(cf) => cf.amount
    case None => 0
  }

  /** The winner's balance change in closed form: every player's stake, less the
      sum of all carry-forward entries, less the fees twice over. */
  function WinnerDelta(s: Session, res: GameResult): int
  {
    |s.players| * s.currentStake - SumOf(Amount, res.carryForwards) - 2 * (s.chalkFee + s.tableFee)
  }

  /** A loser's balance change in closed form, for carried amount `a` and paid flag `paid`. */
  function LoserDelta(a: int, paid: bool, stake: int): int
  {
    (if a > 0 then a else 0) - (if !paid && a < stake then stake - a else 0)
  }

  /** `after` is `before` with `delta` added to the balance and one more win. */
  predicate WonWith(before: Player, after: Player, delta: int)
  {
    after == before.(balance := before.balance + delta, totalWins := before.totalWins + 1)
  }

  /** `after` is `before` with `delta` added to the balance and one more loss. */
  predicate LostWith(before: Player, after: Player, delta: int)
  {
    after == before.(balance := before.balance + delta, totalLosses := before.totalLosses + 1)
  }

  /** The body of the `players.map` in `confirmGame`, step by step as written. */
  function SettlePlayer(s: Session, res: GameResult, p: Player): (r: Player)
    ensures p.name == res.winner ==> WonWith(p, r, WinnerDelta(s, res))
    ensures p.name != res.winner ==>
      LostWith(p, r, LoserDelta(CarriedAmount(res.carryForwards, p.name), p.name in res.paidPlayers, s.currentStake))
  {
    var totalFees := s.chalkFee + s.tableFee;
    var winnerPayout := |s.players| * s.currentStake - totalFees;
    var totalCarryForward := TotalCarryForward(res.carryForwards);
    FoldLeftIsSum(Amount, 0, res.carryForwards);
    if p.name == res.winner then
      var credited := p.balance + (winnerPayout - totalCarryForward);
      p.(balance := credited - totalFees, totalWins := p.totalWins + 1)
    else
      var carriedAmount := CarriedAmount(res.carryForwards, p.name);
      var paidImmediately := p.name in res.paidPlayers;
      var afterCarry := if carriedAmount > 0 then p.balance + carriedAmount else p.balance;
      var afterDebt :=
        if !paidImmediately && carriedAmount < s.currentStake
        then afterCarry - (s.currentStake - carriedAmount)
        else afterCarry;
      p.(balance := afterDebt, totalLosses := p.totalLosses + 1)
  }

  /** The history entry `confirmGame` appends. */
  function Record(s: Session, game: CurrentGame, res: GameResult, endTime: string): GameRecord
  {
    GameRecord(game.gameNumber, game.players, s.currentStake, res.winner, res.paidPlayers,
               res.carryForwards, game.startTime, endTime, Fees(s.chalkFee, s.tableFee))
  }

  /** `confirmGame` on the session: refused without a winner; otherwise every
      player is settled in place and one record is appended to the history. */
  function Settle(s: Session, game: CurrentGame, res: GameResult, endTime: string): (r: Result<Session, Error>)
    ensures r.Failure? <==> res.winner == []
    ensures r.Failure? ==> r.error == MissingWinner
    ensures r.Success? ==> r.value == s.(players := r.value.players, games := r.value.games)
    ensures r.Success? ==> |r.value.players| == |s.players|
    ensures r.Success? ==> forall i :: 0 <= i < |s.players| && s.players[i].name == res.winner ==>
              WonWith(s.players[i], r.value.players[i], WinnerDelta(s, res))
    ensures r.Success? ==> forall i :: 0 <= i < |s.players| && s.players[i].name != res.winner ==>
              LostWith(s.players[i], r.value.players[i],
                       LoserDelta(CarriedAmount(res.carryForwards, s.players[i].name),
                                  s.players[i].name in res.paidPlayers, s.currentStake))
    ensures r.Success? ==> |r.value.games| == |s.games| + 1 && r.value.games[..|s.games|] == s.games
    ensures r.Success? ==> var g := r.value.games[|s.games|];
              && g.gameNumber == game.gameNumber && g.players == game.players
              && g.startTime == game.startTime && g.endTime == endTime
              && g.stake == s.currentStake && g.fees == Fees(s.chalkFee, s.tableFee)
              && g.winner == res.winner && g.paidPlayers == res.paidPlayers
              && g.carryForwards == res.carryForwards
  {
    if res.winner == [] then Failure(MissingWinner)
    else
      var players := seq(|s.players|, i requires 0 <= i < |s.players| => SettlePlayer(s, res, s.players[i]));
      Success(s.(players := players, games := s.games + [Record(s, game, res, endTime)]))
  }

  /** The loser rules of `confirmGame`, case by case. */
  lemma LoserCases(s: Session, res: GameResult, p: Player)
    requires p.name != res.winner
    ensures var a := CarriedAmount(res.carryForwards, p.name);
      var paid := p.name in res.paidPlayers;
      var d := SettlePlayer(s, res, p).balance - p.balance;
      && (paid && a <= 0 ==> d == 0)
      && (!paid && a == 0 && s.currentStake >= 0 ==> d == -s.currentStake)
      && (!paid && 0 < a < s.currentStake ==> d == 2 * a - s.currentStake)
      && (a > 0 && (paid || a >= s.currentStake) ==> d == a)
      && (!paid && a < 0 && a < s.currentStake ==> d == a - s.currentStake)
      && (s.currentStake <= a <= 0 ==> d == 0)
  {
  }

  /** Game numbers follow the history positions: they start at 1 and increase by one. */
  predicate NumberedInOrder(games: seq<GameRecord>)
  {
    forall i :: 0 <= i < |games| ==> games[i].gameNumber == i + 1
  }

  /** Starting a game and confirming it on the same session keeps the history
      numbered in order: the new record is number `games.length + 1`. */
  lemma StartThenSettleNumbersInOrder(s: Session, startTime: string, res: GameResult, endTime: string)
    requires NumberedInOrder(s.games)
    requires res.winner != []
    ensures Settle(s, StartGame(s, startTime), res, endTime).Success?
    ensures NumberedInOrder(Settle(s, StartGame(s, startTime), res, endTime).value.games)
  {
    var t := Settle(s, StartGame(s, startTime), res, endTime).value;
    assert forall i :: 0 <= i < |s.games| ==> t.games[i] == s.games[i];
  }

  /** A four-player game at the form's default stake 100, chalk 30 and
      table 20: W wins, P pays, C carries 40 forward, D pays nothing. As
      written, the winner nets 260 and the carrying loser is charged 20. */
  lemma FourPlayerExample()
    ensures var s := Session(1, "", [], [Player("W", 0, 0, 0), Player("P", 0, 0, 0),
                                         Player("C", 0, 0, 0), Player("D", 0, 0, 0)], 100, 30, 20);
      var res := GameResult("W", ["P"], [CarryForward("C", 40)]);
      var r := Settle(s, StartGame(s, ""), res, "");
      && r.Success?
      && r.value.players == [Player("W", 260, 1, 0), Player("P", 0, 0, 1),
                             Player("C", -20, 0, 1), Player("D", -100, 0, 1)]
  {
    var cfs := [CarryForward("C", 40)];
    assert SumOf(Amount, cfs) == 40;
    assert CarriedAmount(cfs, "C") == 40;
    assert CarriedAmount(cfs, "P") == 0;
    assert CarriedAmount(cfs, "D") == 0;
  }
}

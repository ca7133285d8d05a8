/** The session summary the component renders: total pot, total fees,
    outstanding exposure, and who is in credit or in debt. Each total is the
    `reduce` the component writes, measured against a plain sum. */
module Summary {
  import opened Common
  import opened Model
  import opened Settlement

  function Balance(p: Player): int
  {
    p.balance
  }

  function AbsBalance(p: Player): int
  {
    if p.balance < 0 then -p.balance else p.balance
  }

  function PotOf(g: GameRecord): int
  {
    g.stake * |g.players|
  }

  function FeesOf(g: GameRecord): int
  {
    g.fees.chalk + g.fees.table
  }

  /** Total pot: every game's stake times the number of its players. */
  function TotalPot(games: seq<GameRecord>): (r: int)
    ensures r == SumOf(PotOf, games)
  {
    FoldLeftIsSum(PotOf, 0, games);
    FoldLeft(PotOf, 0, games)
  }

  /** With non-negative stakes the total pot is non-negative. */
  lemma TotalPotNonNegative(games: seq<GameRecord>)
    requires forall i :: 0 <= i < |games| ==> games[i].stake >= 0
    ensures TotalPot(games) >= 0
  {
    forall i | 0 <= i < |games|
      ensures PotOf(games[i]) >= 0
    {
      assert games[i].stake * |games[i].players| >= 0;
    }
    SumNonNegative(PotOf, games);
  }

  /** Total fees: chalk plus table over every game, as frozen in its record. */
  function TotalFees(games: seq<GameRecord>): (r: int)
    ensures r == SumOf(FeesOf, games)
  {
    FoldLeftIsSum(FeesOf, 0, games);
    FoldLeft(FeesOf, 0, games)
  }

  /** Outstanding: the sum of absolute balances, never negative, and zero
      exactly when every balance is settled. */
  function Outstanding(players: seq<Player>): (r: int)
    ensures r == SumOf(AbsBalance, players)
    ensures r >= 0
    ensures r == 0 <==> forall i :: 0 <= i < |players| ==> players[i].balance == 0
  {
    FoldLeftIsSum(AbsBalance, 0, players);
    SumNonNegative(AbsBalance, players);
    FoldLeft(AbsBalance, 0, players)
  }

  function InCredit(p: Player): bool
  {
    p.balance > 0
  }

  function InDebt(p: Player): bool
  {
    p.balance < 0
  }

  /** Players with a positive balance, in roster order. */
  function Credits(players: seq<Player>): (r: seq<Player>)
    ensures forall i :: 0 <= i < |r| ==> r[i] in players && r[i].balance > 0
    ensures forall i :: 0 <= i < |players| && players[i].balance > 0 ==> players[i] in r
    ensures forall q: Player :: multiset(r)[q] == if q.balance > 0 then multiset(players)[q] else 0
  {
    FilterMultiset(players, InCredit);
    Filter(players, InCredit)
  }

  /** Players with a negative balance, in roster order. */
  function Debts(players: seq<Player>): (r: seq<Player>)
    ensures forall i :: 0 <= i < |r| ==> r[i] in players && r[i].balance < 0
    ensures forall i :: 0 <= i < |players| && players[i].balance < 0 ==> players[i] in r
    ensures forall q: Player :: multiset(r)[q] == if q.balance < 0 then multiset(players)[q] else 0
  {
    FilterMultiset(players, InDebt);
    Filter(players, InDebt)
  }

  /** No player is listed both in credit and in debt, and a settled player in neither. */
  lemma CreditsAndDebtsSeparate(players: seq<Player>)
    ensures forall p :: p in Credits(players) ==> p !in Debts(players)
    ensures forall i :: 0 <= i < |players| && players[i].balance == 0 ==>
              players[i] !in Credits(players) && players[i] !in Debts(players)
  {
    var c := Credits(players);
    var d := Debts(players);
    assert forall p :: p in c ==> p.balance > 0;
    assert forall p :: p in d ==> p.balance < 0;
  }

  /** Outstanding exposure is the credit total plus the debt total counted positively. */
  lemma {:induction false} OutstandingSplits(players: seq<Player>)
    ensures Outstanding(players) == SumOf(Balance, Credits(players)) - SumOf(Balance, Debts(players))
  {
    if |players| > 0 {
      var p := players[0];
      var rest := players[1..];
      OutstandingSplits(rest);
      var hc := if InCredit(p) then [p] else [];
      var hd := if InDebt(p) then [p] else [];
      SumConcat(Balance, hc, Filter(rest, InCredit));
      SumConcat(Balance, hd, Filter(rest, InDebt));
    }
  }

  /** Confirming a game adds that game's pot and fees to the session totals. */
  lemma SettleGrowsTotals(s: Session, game: CurrentGame, res: GameResult, endTime: string)
    requires Settle(s, game, res, endTime).Success?
    ensures var t := Settle(s, game, res, endTime).value;
      && TotalPot(t.games) == TotalPot(s.games) + s.currentStake * |game.players|
      && TotalFees(t.games) == TotalFees(s.games) + s.chalkFee + s.tableFee
  {
    var t := Settle(s, game, res, endTime).value;
    assert t.games == s.games + [t.games[|s.games|]];
    SumAppend(PotOf, s.games, t.games[|s.games|]);
    SumAppend(FeesOf, s.games, t.games[|s.games|]);
  }

  /** Balances that each move by `delta` of the old player move in total by the sum of the deltas. */
  lemma {:induction false} BalanceShift(before: seq<Player>, after: seq<Player>, delta: Player -> int)
    requires |before| == |after|
    requires forall i :: 0 <= i < |before| ==> after[i].balance == before[i].balance + delta(before[i])
    ensures SumOf(Balance, after) == SumOf(Balance, before) + SumOf(delta, before)
  {
    if |before| > 0 {
      BalanceShift(before[1..], after[1..], delta);
    }
  }

  /** With one winner and every loser unpaid without carry-forward, the ledger
      as a whole moves by one stake less both fee deductions: the winner is
      credited every stake including their own, and the fees come off twice. */
  lemma NetChangeWhenNobodyPays(s: Session, game: CurrentGame, res: GameResult, endTime: string)
    requires res.winner != [] && res.paidPlayers == [] && res.carryForwards == []
    requires s.currentStake >= 0
    requires Count(s.players, Named(res.winner)) == 1
    ensures var t := Settle(s, game, res, endTime).value;
      SumOf(Balance, t.players) == SumOf(Balance, s.players) + s.currentStake - 2 * (s.chalkFee + s.tableFee)
  {
    var t := Settle(s, game, res, endTime).value;
    var wd := WinnerDelta(s, res);
    var delta := (p: Player) => if p.name == res.winner then wd else -s.currentStake;
    forall i | 0 <= i < |s.players|
      ensures t.players[i].balance == s.players[i].balance + delta(s.players[i])
    {
      if s.players[i].name != res.winner {
        assert CarriedAmount(res.carryForwards, s.players[i].name) == 0;
      }
    }
    BalanceShift(s.players, t.players, delta);
    SumTwoValued(delta, Named(res.winner), wd, -s.currentStake, s.players);
    assert wd == |s.players| * s.currentStake - 2 * (s.chalkFee + s.tableFee);
    assert -s.currentStake * (|s.players| - 1) == s.currentStake - |s.players| * s.currentStake;
  }
}

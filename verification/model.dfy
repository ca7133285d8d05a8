/** The records the pool-marks component keeps in its state and in storage.
    Amounts are Kenyan shillings as whole numbers; names are plain strings
    and are not required to be distinct. */
module Model {

  /** A participant's running position: a positive balance means the group
      owes the player, a negative one that the player owes the group. */
  datatype Player = Player(name: string, balance: int, totalWins: nat, totalLosses: nat)

  /** Part of a loser's stake deferred to a later game; `player` is a name. */
  datatype CarryForward = CarryForward(player: string, amount: int)

  /** The result being entered after a game; the empty string stands for
      "no winner chosen yet". */
  datatype GameResult = GameResult(winner: string, paidPlayers: seq<string>, carryForwards: seq<CarryForward>)

  /** The fees taken from one game's pot, frozen when the game is confirmed. */
  datatype Fees = Fees(chalk: int, table: int)

  /** One confirmed game of the session history. */
  datatype GameRecord = GameRecord(
    gameNumber: nat,
    players: seq<string>,
    stake: int,
    winner: string,
    paidPlayers: seq<string>,
    carryForwards: seq<CarryForward>,
    startTime: string,
    endTime: string,
    fees: Fees)

  /** The game in progress, captured when it is started. */
  datatype CurrentGame = CurrentGame(gameNumber: nat, players: seq<string>, stake: int, startTime: string)

  /** A betting session; `id` is the number `n` of the label `Session_n`. */
  datatype Session = Session(
    id: nat,
    startTime: string,
    games: seq<GameRecord>,
    players: seq<Player>,
    currentStake: int,
    chalkFee: int,
    tableFee: int)

  /** The new-session form: the typed names and the three amounts. */
  datatype NewSessionForm = NewSessionForm(players: seq<string>, stakeAmount: int, chalkFee: int, tableFee: int)

  /** The refusals the component reports with an alert. */
  datatype Error =
    | MissingWinner        // "Please select a winner"
    | InsufficientPlayers  // "Need at least 2 players ..."

  /** The name tests the handlers filter, find and count with: `p.name === name`
      on players, `cf.player === name` on carry-forward entries, and their
      negations; `Except` is `x !== name` on the paid list. */
  function Named(name: string): Player -> bool
  {
    (p: Player) => p.name == name
  }

  function NotNamed(name: string): Player -> bool
  {
    (p: Player) => p.name != name
  }

  function For(name: string): CarryForward -> bool
  {
    (cf: CarryForward) => cf.player == name
  }

  function NotFor(name: string): CarryForward -> bool
  {
    (cf: CarryForward) => cf.player != name
  }

  function Except(name: string): string -> bool
  {
    (x: string) => x != name
  }

  /** `players.map(p => p.name)`. */
  function Names(ps: seq<Player>): (r: seq<string>)
    ensures |r| == |ps|
    ensures forall i :: 0 <= i < |ps| ==> r[i] == ps[i].name
  {
    seq(|ps|, i requires 0 <= i < |ps| => ps[i].name)
  }
}

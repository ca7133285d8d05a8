# Pool-marks ledger, modelled in Dafny

The pool-marks app tracks betting sessions at a pool table. A group of players
plays a run of games at a fixed stake. Each game's winner is credited with the
pot, less the chalk and table fees. Losers either pay on the spot, are carried
forward for part of their stake, or are recorded as owing. All of this logic
sits inside one React component, `src/app/page.tsx`. This project models its
integer core as pure functions over immutable datatypes:

- `Model`: the records (`Player`, `CarryForward`, `GameResult`, `GameRecord`,
  `CurrentGame`, `Session`, the new-session form) and the two refusals.
- `Settlement`: `startGame` and `confirmGame`, i.e. how each player's balance and
  win/loss counters move and which history record is appended.
- `Roster`: `createNewSession`, `addPlayer`, `removePlayer`.
- `Editing`: the "paid immediately" toggle and the carry-forward field of the
  result form.
- `Summary`: the session totals (pot, fees, outstanding) and the credit and debt
  lists.
- `App`: the component state that matters to the ledger, and the handlers that
  write a session back into the session list.
- `Text`: JavaScript's `trim`. `Common`: `filter`, `reduce` and `find`-style
  helpers with their lemmas.

Settlement is modelled exactly as the component computes it:

- The fees come off the winner twice. They are taken once inside the payout and
  once more afterwards.
- The sum of all carry-forward entries comes off the winner. This includes a
  stale entry for the winner.
- A carried amount is credited to the loser before the debt on the remainder is
  charged.
- Carry amounts are not bounded by the stake. The `max` on the input field is
  only a hint to the browser.
- Player names need not be distinct. Every lookup matches by name.
- The winner is credited with every player's stake, their own included. Their
  own stake is never taken back.
- Confirmation checks only that a winner is chosen. Nothing checks that the
  winner, the paid names or the carry-forward names belong to the session. A
  carry amount may be any integer, and a player may be both paid and carried.
- A player may be removed after playing games. The only guard is the roster
  size.

`Settlement.FourPlayerExample` shows what this means for a four-player game at
stake 100 with chalk 30 and table 20. W wins, P pays, C carries 40 and D pays
nothing. The balances become +260, 0, −20 and −100. The winner's 260 is the 400 pot
less the 40 carried, less the 50 of fees twice. The carrying loser is credited
the 40 and then charged the 60 still owed on the stake.
`Summary.NetChangeWhenNobodyPays` states the general form: with a non-negative stake,
a single winner and nobody paying or carrying, the ledger total moves by one
stake minus twice the fees. With a negative stake an unpaid loser without a
carry is charged nothing, because the debt is only charged while the carried
amount is below the stake.

## Model

| member | source | states |
|---|---|---|
| Settlement.StartGame | src/app/page.tsx:74-84 | The captured game is numbered `games.length + 1`. It holds the roster's names in roster order, one per player, the session's current stake and the given start time. |
| Settlement.Settle | src/app/page.tsx:96-161 | Refused with `MissingWinner` exactly when no winner is chosen. Otherwise every player stays in place with the same name. Each player named as the winner gains one win and `n·stake − Σcarry − 2·(chalk+table)`. Every other player gains one loss and the loser delta. No other counter or field changes. Exactly one record is appended and earlier records are untouched. The record holds the started game's number, roster snapshot and start time, plus the stake and fees at confirmation. |
| Settlement.SettlePlayer | src/app/page.tsx:109-141 | The step-by-step update of one player equals the closed forms. For the winner: `n·stake − Σ all carry amounts − 2·fees` and one more win. For a loser with carried amount `a` and paid flag `p`: `(a>0 ? a : 0) − ((!p && a<stake) ? stake−a : 0)` and one more loss. |
| Settlement.LoserCases | src/app/page.tsx:119-135 | Loser rules case by case. Paid with no carry gives 0. Unpaid with no carry gives −stake when the stake is non-negative. Unpaid with 0<a<stake gives 2a−stake. A carry of at least the stake, or a carry by a paying player, gives +a. |
| Settlement.FindCarry | src/app/page.tsx:121-122 | `find` returns `None` exactly when no entry names the player. Otherwise it returns the first entry that names the player. |
| Settlement.StartThenSettleNumbersInOrder | src/app/page.tsx:74-84 | A game started and then confirmed on the same session is numbered `games.length + 1`. A history numbered 1, 2, … stays numbered that way. |
| Settlement.FourPlayerExample | src/app/page.tsx:102-135 | A four-player game at the form's default stake and fees (`src/app/page.tsx:16-21`) gives +260, 0, −20 and −100. |
| Common.FoldLeftIsSum | src/app/page.tsx:106 | The left-fold `reduce` starting from 0 equals the plain sum of the terms. |
| Roster.CreateNewSession | src/app/page.tsx:41-61 | Refused with `InsufficientPlayers` exactly when fewer than two typed names are non-blank. Otherwise the session is numbered after the existing ones and starts with no games and the form's stake and fees. It has one player per filtered name, in the same positions: the i-th player is named by the i-th filtered entry, trimmed. Each player's name is non-empty, already trimmed and taken from the form. Each starts with balance 0 and no wins or losses. |
| Roster.ValidNames | src/app/page.tsx:42 | The filtered names are exactly the non-blank ones, as many as the form has. There are at least two exactly when two form entries are non-blank. |
| Roster.ValidNamesMultiset | src/app/page.tsx:42 | Each non-blank entry is kept as often as the form holds it. No blank entry is kept. |
| Roster.AddPlayer | src/app/page.tsx:184-196 | A non-blank prompt answer appends one player with the trimmed name, balance 0 and no wins or losses. Earlier players are untouched. A cancelled or blank answer changes nothing. |
| Roster.RemovePlayer | src/app/page.tsx:207-217 | Refused exactly when the roster has 2 or fewer players. A declined confirmation changes nothing. Otherwise only the players with that name go: the roster shrinks by their count. Every other player is kept unchanged, as many times as it occurred, so duplicates survive. |
| Roster.RemoveKeepsTwoWhenNamesDistinct | src/app/page.tsx:207-217 | When names are distinct, a removal that goes through leaves at least two players. |
| Roster.RemoveCanLeaveOnePlayer | src/app/page.tsx:208-216 | The guard counts players, not names. Removing a name held by two of three players leaves one player. |
| Editing.TogglePaid | src/app/page.tsx:354-366 | The toggle flips whether the name is listed. Every other name keeps its membership. |
| Editing.ToggleTwiceSameContents | src/app/page.tsx:354-366 | Toggling twice restores the paid list's contents. |
| Editing.ToggleTwiceRestores | src/app/page.tsx:354-366 | Toggling an unlisted name twice restores the list exactly. |
| Editing.ToggleTwiceMayReorder | src/app/page.tsx:355-365 | Toggling a listed name twice can reorder the list: `["A","B"]` becomes `["B","A"]`. |
| Editing.SetCarry | src/app/page.tsx:399-405 | After an edit the player has exactly one entry if the amount is positive and none otherwise. Settlement then reads that amount, or 0, for the player. It reads the same amount as before for everyone else. Other players' entries are kept, each exactly as many times as before, so the sum settlement charges the winner changes only by the edited player's entries. |
| Editing.SetCarryKeepsWellFormed | src/app/page.tsx:399-405 | An edit keeps the list to positive amounts with at most one entry per player. |
| Summary.TotalPot | src/app/page.tsx:737 | The fold equals the sum over games of stake times the number of players. |
| Summary.TotalPotNonNegative | src/app/page.tsx:737 | With non-negative stakes the total pot is non-negative. |
| Summary.TotalFees | src/app/page.tsx:744 | The fold equals the sum over games of the frozen chalk plus table fees. |
| Summary.Outstanding | src/app/page.tsx:751 | Equals Σ\|balance\|. It is never negative and is zero exactly when every balance is zero. |
| Summary.Credits | src/app/page.tsx:763 | Holds only players with a positive balance, and every such player as many times as the roster lists it. |
| Summary.Debts | src/app/page.tsx:776 | Holds only players with a negative balance, and every such player as many times as the roster lists it. |
| Summary.CreditsAndDebtsSeparate | src/app/page.tsx:763-776 | No player is in both lists. A player with balance zero is in neither. |
| Summary.OutstandingSplits | src/app/page.tsx:751-776 | Outstanding equals the credit total minus the (negative) debt total. |
| Summary.SettleGrowsTotals | src/app/page.tsx:144-161 | Confirming a game adds `stake × number of players in the snapshot` to the total pot and chalk plus table to the total fees. |
| Summary.NetChangeWhenNobodyPays | src/app/page.tsx:102-135 | With a non-negative stake, one player named as winner and nobody paid or carried, the sum of all balances moves by `stake − 2·(chalk+table)`. |
| Text.Trim | src/app/page.tsx:42 | `trim` returns the contiguous piece left after stripping leading and trailing JavaScript white space. The piece neither starts nor ends with white space, and it is empty exactly when the input is all white space. |
| Text.TrimIdempotent | src/app/page.tsx:53 | Trimming a trimmed name changes nothing. |
| App.ReplaceSession | src/app/page.tsx:164-166 | Every session with the edited session's id is replaced by it. All others are unchanged and the length is kept. |
| App.ReplaceIsUpdateAtPosition | src/app/page.tsx:164-166 | When sessions are numbered by position, the write-back replaces exactly the entry at the session's own position. |
| App.CreateSession | src/app/page.tsx:41-64 | A refused form changes nothing. Otherwise the session built by `Roster.CreateNewSession`, numbered `sessions.length + 1`, is appended and opened, and no other part of the state changes. Numbering by position is kept. |
| App.StartGame | src/app/page.tsx:74-84 | Does nothing without an open session. Otherwise the game captured by `Settlement.StartGame` from the open session becomes the current game, numbered `games.length + 1`, and is marked in progress. Nothing else changes. |
| App.EndGame | src/app/page.tsx:86-94 | Play stops and the result form opens with no winner, no payments and no carries. |
| App.ConfirmGame | src/app/page.tsx:96-172 | Without a winner the whole state, including the pending result and game, is left exactly as it was. Otherwise the settled session is written back, the form closes and the game marker is cleared. The entered result stays. The session-list invariant is kept. |
| App.AddPlayer | src/app/page.tsx:184-205 | Only a non-blank answer writes the grown session back. The session-list invariant is kept. |
| App.RemovePlayer | src/app/page.tsx:207-225 | A refusal or a declined confirmation changes nothing. Otherwise the shortened session is written back. The session-list invariant is kept. |

## Left out

- React state plumbing and the `localStorage` load and save (`src/app/page.tsx:30-39`) are I/O and framework state. The session list is an explicit value instead.
- Timestamps from `new Date().toLocaleString()` are clock and locale output. They are plain string parameters.
- The `alert`, `confirm` and `prompt` dialogs become inputs and results. A refusal is a `Failure`, `confirm` is a boolean and `prompt` is an optional string.
- `Number(...)` coercion and floating-point arithmetic are not modelled. Every amount is an unbounded `int`. Fractional, `NaN` and overflowing amounts are out of scope.
- Session ids are modelled as the number `n` of the label `Session_n`. The string formatting is not modelled.
- The settings editor `updateSessionSettings` (`:174-182`) is not modelled. It is a plain field overwrite, and its only guard lives in the rendered markup.
- Choosing the winner, cancelling the result form and picking a past session are not modelled. Each is a single field assignment in the markup.
- The form reset at the end of `createNewSession` (`setShowNewSession(false)` and the default `newSessionData`, `src/app/page.tsx:65-71`) is not modelled. It touches only the new-session form, which the model takes as an input.
- App.ConfirmGame: requires a captured game and an open session. The result form that holds the confirm button renders only when `showGameResult && currentGame` holds (`src/app/page.tsx:312`), and it reads `currentSession.players` (`:329`). Without either, the handler would fail on a null value.
- Roster.ValidNames: states which names are kept and how often, not that they keep the form's order. `Roster.CreateNewSession` inherits this: the players follow the filtered list position by position, but that list's order is not stated against the form's.
- Roster.RemovePlayer: states which players are kept and how often, not that the survivors keep their roster order.
- Summary.TotalFees: records without a `fees` field, which stored data from older versions can have, make the component's fee total fail. The model's records always carry fees.
- All rendering, styling and icons are left out.

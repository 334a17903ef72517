# DiceGame, modelled in Dafny

DiceGame is a dice-passing relay game. N players sit in a fixed turn order.
On each turn the current player rolls the die and passes units to the next
player. The first player draws its units from an unlimited source, so it
passes the whole roll. Every other player can pass at most what it holds.
Units that leave the last player are added to a throughput counter. A round
counter goes up each time play wraps around from the last player back to the
first.

The model has five modules:

- `Wrappers` (Wrappers.dfy): `Option` stands in for a nullable player
  reference. `Result` and `Error` stand in for the constructor's
  `ArgumentException`.
- `Players` (Players.dfy): the `Player` record (name, turn order, inventory).
  It includes the clamping `Inventory` setter and the decimal player names
  `"Player" + (i+1)`.
- `Rules` (Rules.dfy): the game state as a value (`GameState`) and its
  transitions. `Rotated` is turn rotation. `Transferred` and `Rolled` are
  roll resolution. `Run` is a sequence of rolls. The lemmas about
  invariants, conservation, throughput and round counting live here.
- `Game` (Game.dfy): the `DiceGame` class. It holds an `array<Player>` that
  is updated in place, the `current`/`next` indices, `throughput` and
  `gameRound`. Its methods `RotatePlayers` and `RollDie` (with `PassOn`, the part of a roll before the rotation) mirror the C# code
  statement by statement and are proved to yield exactly the state that
  `Rules` gives.
- `Scenario` (Scenario.dfy): the three-player scenario of the repository's
  behaviour tests, replayed roll by roll.

Players are referred to by their index in the seating array, and that index
is also their turn order. `None` plays the part of a `null` player
reference. The `Players` and `Throughput` getters are the public fields
`players` and `throughput` of the class, which callers read directly.

The round counter follows the code. The rotation branch taken when the next
player is `null` (DiceGame/Main.cs:70-75) runs at the start of the game and
again on every wrap from the last player. So `gameRound` counts every wrap,
not only the start-up transition, and after k rolls with n players it is
k / n (`Rules.GameRounds`).

`RollDie(roll)` accepts any integer, as the C# does. Non-negativity of
inventories and the pointer invariant hold for every roll. Conservation and
monotone throughput are proved for non-negative rolls. `NegativeRollUnbalances`
shows that conservation fails for a negative roll. The game's own driver only
passes rolls drawn from 1..5 (`Random.Next(1, 6)` has an exclusive upper
bound).

## Model

| member | source | states |
|---|---|---|
| `Players.Player.SetInventory` | DiceGame/Main.cs:125-130 | the stored inventory is the assigned value when it is non-negative and 0 otherwise; name and turn order are untouched |
| `Players.NewPlayer` | DiceGame/Main.cs:137-141 | a player created for seat i has turn order i, name `PlayerName(i)` and inventory 0 |
| `Players.DecimalString` | DiceGame/Main.cs:60 | the decimal text of a number is non-empty, made of digits only and has no leading zero |
| `Players.DecimalRoundTrip` | DiceGame/Main.cs:60 | reading the decimal text of n back as a number gives n |
| `Players.DecimalInjective` | DiceGame/Main.cs:60 | two numbers with the same decimal text are equal |
| `Players.PlayerNameInjective` | DiceGame/Main.cs:60 | two seats with the same name "Player"+(i+1) are the same seat |
| `Rules.PreGame` | DiceGame/Main.cs:50-62 | before the first rotation there are N players, player i created with turn order i, name "Player"+(i+1) and inventory 0; both pointers are null, throughput is 0 and the round counter is -1 |
| `Rules.Rotated` | DiceGame/Main.cs:67-85 | rotation keeps players and throughput, establishes the pointer invariant (next sits right after current, or is null and current is last), makes the old next player current, wraps a null next to the first player with the second as next, and moves the round counter by one exactly when next was null |
| `Rules.RotateWraps` | DiceGame/Main.cs:69-75 | in a started game, rotation lands on the first player exactly when next was null, and only then does the round counter move |
| `Rules.Initial` | DiceGame/Main.cs:52-64 | a new game has N players, player i with turn order i, name "Player"+(i+1) and inventory 0, current = first player, next = second player, round 0, throughput 0 |
| `Rules.NewGame` | DiceGame/Main.cs:52-64 | construction fails with the "Player Count must be at least 2." error exactly when the count is below 2; otherwise the game is in play with N players, current 0, next 1, round 0, and is exactly `Initial(N)` (fresh players with inventory 0, throughput 0) |
| `Rules.Available` | DiceGame/Main.cs:97-99 | the first player passes the whole roll; any other player passes min(roll, inventory) |
| `Rules.Transferred` | DiceGame/Main.cs:97-103 | the transfer keeps every player seated with a non-negative inventory, keeps every seat's name, and leaves pointers and round counter alone |
| `Rules.Rolled` | DiceGame/Main.cs:93-105 | a roll of any integer keeps the game in play: inventories stay non-negative, the pointer invariant holds and every seat keeps its name |
| `Rules.RollFrame` | DiceGame/Main.cs:93-105 | a roll changes no player other than the sender and the receiver, never changes names or turn orders, leaves throughput alone when there is a next player, moves the round counter only on a wrap, and hands the turn to the next player or back to the first |
| `Rules.RollTransfers` | DiceGame/Main.cs:97-103 | with a non-negative roll, a relaying player loses exactly the available amount and never more than it holds; the next player gains it, or the throughput does at the end of the chain; throughput never decreases |
| `Rules.InitialConserved` | DiceGame/Main.cs:59-63 | a new game holds nothing and has injected nothing |
| `Rules.RollConserves` | DiceGame/Main.cs:98-103 | a non-negative roll keeps the first player at 0, and the stock of all players plus throughput grows by exactly what the first player rolled |
| `Rules.TransferConserves` | DiceGame/Main.cs:101-103 | the transfer step with a non-negative roll keeps the first player at 0 and grows stock plus throughput by what the first player rolled |
| `Rules.SendBooks` | DiceGame/Main.cs:101 | taking what is available from the sender keeps the first player at 0 and lowers the stock by what a relaying player sends |
| `Rules.ReceiveBooks` | DiceGame/Main.cs:103 | giving the units to a player other than the first raises the stock by exactly that amount and leaves the first player alone |
| `Rules.NegativeRollUnbalances` | DiceGame/Main.cs:98-103 | with two players, a roll of -1 leaves the first player holding 1, so conservation breaks |
| `Rules.Run` | DiceGame/Main.cs:196-200 | any sequence of rolls keeps the game in play with the same number of players and the same names |
| `Rules.RunConserves` | DiceGame/Main.cs:93-105 | over any run of non-negative rolls the conservation balance is kept |
| `Rules.GameConserves` | DiceGame/Main.cs:52-105 | from construction on, the inventories of players 2..N plus throughput equal the total the first player has rolled, the first player holds 0, and throughput is never negative |
| `Rules.RunThroughputMonotone` | DiceGame/Main.cs:102 | throughput never decreases over a run of non-negative rolls |
| `Rules.RollAdvances` | DiceGame/Main.cs:67-85 | each roll moves play one seat on: round × N + current grows by exactly 1 |
| `Rules.RunAdvances` | DiceGame/Main.cs:67-85 | after k rolls, round × N + current has grown by exactly k |
| `Rules.GameRounds` | DiceGame/Main.cs:69-75 | from construction on, after k rolls with N players the round counter is k / N and the current player is the one at turn order k % N |
| `Game.DiceGame.constructor` | DiceGame/Main.cs:56-64 | seats the players in a loop, performs the first rotation, and leaves exactly the state `Initial(N)` with the conservation balance at 0 |
| `Game.DiceGame.SeatPlayers` | DiceGame/Main.cs:58-62 | the loop leaves a fresh array where player i has turn order i, name "Player"+(i+1) and inventory 0 |
| `Game.DiceGame.Create` | DiceGame/Main.cs:52-55 | returns the configuration error exactly when the count is below 2, otherwise a fresh game whose state is the one `NewGame` gives |
| `Game.DiceGame.RotatePlayers` | DiceGame/Main.cs:67-85 | the object's new state is `Rotated` of its old state |
| `Game.DiceGame.RollDie` | DiceGame/Main.cs:93-105 | the object's new state is `Rolled` of its old state; the game stays in play; with a non-negative roll throughput does not decrease and the balance is kept; no player other than sender and receiver changes |
| `Game.DiceGame.PassOn` | DiceGame/Main.cs:97-103 | the object's new state is `Transferred` of its old state, and the ghost total grows by the first player's roll |
| `Game.DiceGame.CurrentPlayer` | DiceGame/Main.cs:31-35 | the current player is the table's entry at the current turn order, with that seat's name and its live, non-negative inventory |
| `Game.DiceGame.NextPlayer` | DiceGame/Main.cs:37-41 | the next player is null exactly when the current player is the last one; otherwise it is the table's entry at turn order current + 1, with its live inventory |
| `Scenario.ThreePlayerSetup` | DiceGame/Main.cs:153-159 | a new three-player game has Player1, Player2 and Player3 with nothing held, Player1 current, Player2 next and round 0 |
| `Scenario.RollOne` | DiceGame/Main.cs:161-167 | Player1 rolls 4: Player2 holds 4, Player2 is current and Player3 next |
| `Scenario.RollTwo` | DiceGame/Main.cs:170-177 | Player2 rolls 2: Player2 and Player3 hold 2 each, Player3 is current and next is null |
| `Scenario.RollThree` | DiceGame/Main.cs:180-188 | Player3 rolls 2: Player3 holds 0, throughput is 2, Player1 is current, Player2 next, round 1 |
| `Scenario.RollFour` | DiceGame/Main.cs:209-214 | Player1 rolls 2: Player2 holds 4, Player2 is current and Player3 next |
| `Scenario.RollFive` | DiceGame/Main.cs:216-222 | Player2 rolls 6 but holds 4: Player2 holds 0, Player3 holds 4, next is null |
| `Scenario.RollSix` | DiceGame/Main.cs:224-231 | Player3 rolls 6 but holds 4: both hold 0, throughput is 6, Player1 is current, Player2 next, round 2 |
| `Scenario.ThreePlayerFirstRound` | DiceGame/Main.cs:194-207 | from a new three-player game, rolls 4, 2, 2 end with Player2=2, Player3=0, throughput 2 and play back at Player1 |
| `Scenario.ThreePlayerSecondRound` | DiceGame/Main.cs:209-231 | rolls 2, 6, 6 that follow end with Player2=0, Player3=0, throughput 6, Player1 current and round 2 |

## Left out

- `MainClass.Main` (DiceGame/Main.cs:9-20): console input, key reading and `Convert.ToInt32` belong to the driver, not the game.
- The parameterless `RollDie()` (DiceGame/Main.cs:87-91): it calls `System.Random`, which is nondeterministic. The roll becomes the explicit argument of `RollDie(roll)`. `Random.Next(1, 6)` only ever passes a roll in 1..5.
- `PrintGameSummary` (DiceGame/Main.cs:107-114): console output and a decimal average. The counters it prints are the fields `gameRound` and `throughput`.
- The log line inside `RollDie(int)` (DiceGame/Main.cs:95): console output only.
- The `Random` field (DiceGame/Main.cs:49, 57): it only serves the parameterless `RollDie()`.
- C# `int` overflow of inventory, throughput and the round counter `_gameRound` (DiceGame/Main.cs:72): the model uses unbounded integers.
- Player objects and their references: players are record values in an array, and two pointers that reference the same object are modelled as two equal indices. The source's reference comparison with `_players[0]` becomes a comparison of the index with 0, which is the same test because seats are distinct objects.
- DiceGame/NSpecDebuggerShim.cs: test-runner glue.

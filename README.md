# Snake game engine — Dafny model

This project models the game-state engine of a grid snake game. A snake moves
one cell per tick on a 25 x 25 board. It grows by eating a collectible, which is
then placed at a random free cell of the inner square `[1, 23]²`. The round ends
when the head reaches an edge line or another body cell. The final score is
then saved, the snake is reset, and the round waits for an arrow key.

The modules follow the parts of `main.cpp`:

- `Grid` (grid.dfy): cells, the four headings, the board and inner-square predicates, and the edge lines the edge check compares against.
- `SnakeBody` (snake.dfy): the `Snake` class (body deque as a `seq`, heading, one-shot `addSeg` flag) with `Update` and `Reset`. `Advance` is the function that specifies one move.
- `Placement` (placement.dfy): the linear scan `ElementInDeque`, `GenRandCell`, and the `Collectibles` class with its retry loop `GenRandPos`. `FirstFreeDraw` and `PlaceCollectible` say which cell the loop settles on.
- `Round` (round.dfy): the whole game as a value (`World`) and the per-tick rules as functions: `MoveSnake`, `CollectibleCheck`, `EdgeCheck`, `TailCheck`, `EndRound`, `Tick`. It also holds the state-of-play invariant `Inv` and the lemmas about ticks.
- `Controls` (controls.dfy): the P, H and arrow-key state updates of the main loop, and one loop iteration (`FrameStep`).
- `Engine` (game.dfy): the `Game` class. It holds the snake, the collectible, the score and the `running`/`paused`/`showHighScores` flags, plus a ghost log of saved scores. Each method is proved to carry out the matching `Round`/`Controls` function on `State()`. `Update` and `Frame` also keep `Valid()`.

The random number generator is not modelled. Each call to `GenRandPos` gets a caller-supplied stream of draws, one `(x, y)` pair per `GenRandCell` call, each in `[1, CellCount - 2]`. A tick takes two streams: one for moving the collectible after a meal, one for placing it after a game over. The requirement `Placeable` asks for some draw in the stream to be off the body. That is exactly when the source's retry loop returns. `TickReady` asks for this only when the relocation actually happens.

The model follows the code as written:

- Collisions are checked after the snake has moved (main.cpp:316-319), so the tail cell has already been vacated when the tail check runs.
- `GameOver` clears the score at once (main.cpp:362).
- `Reset` keeps `addSeg` (main.cpp:204-208).
- Hiding the leaderboard sets `paused` to false (main.cpp:391), whatever it was before the leaderboard was opened (`HidingHighScoresUnpauses`).
- A new game starts with `running` already true (main.cpp:266).
- The arrow-key guard compares against the heading as it stands when each key is read (main.cpp:394-417). Two keys read before the next move can therefore reverse the snake (`SameFrameReversal`).

## Model

| member | source | states |
|---|---|---|
| Placement.ElementInDeque | main.cpp:28-40 | the scan returns true exactly when the cell occurs in the body |
| Placement.GenRandCell | main.cpp:242-247 | a cell built from two random values lies in the inner square `[1, CellCount-2]²` |
| Placement.GenRandCellCoversInner | main.cpp:242-247 | every inner cell is the outcome of some pair of random values |
| Placement.FirstFreeDraw | main.cpp:249-257 | the index where the retry loop stops: its cell is off the body and every earlier drawn cell is on it |
| Placement.PlaceCollectible | main.cpp:249-257 | the placed cell is in the inner square, off the body, and one of the drawn cells |
| Placement.Collectibles.GenRandPos | main.cpp:249-257 | the loop returns an inner cell that `ElementInDeque` reports absent from the body: the first such drawn cell |
| Placement.Collectibles.constructor | main.cpp:220-230 | the first collectible is placed by `GenRandPos` off the given body |
| SnakeBody.Advance | main.cpp:191-203 | the new head is the old head plus the direction; the old body, minus its last cell unless growing, follows unchanged; the length grows by exactly one when growing and is otherwise unchanged |
| SnakeBody.Snake.constructor | main.cpp:175-177 | body `[(6,9),(5,9),(4,9)]`, direction `(1,0)`, no pending growth |
| SnakeBody.Snake.Update | main.cpp:191-203 | the body becomes `Advance` of the old body; `addSeg` is false afterwards; the direction is kept |
| SnakeBody.Snake.Reset | main.cpp:204-208 | body `[(6,9),(5,9),(4,9)]` and direction `(1,0)` whatever the prior state, so a second call changes nothing; `addSeg` untouched |
| Round.Start | main.cpp:263-271 | a new game is running, unpaused, with nothing saved and the collectible off the body |
| Round.CollectibleCheck | main.cpp:324-332 | a head on the collectible scores exactly one point, flags growth and moves the collectible to an inner cell off the current body, changing nothing else; otherwise nothing changes |
| Round.EndRound | main.cpp:355-363 | game over appends the pre-reset score once to the saved log and leaves the collectible in the inner square, off the reset body |
| Round.TickStages | main.cpp:312-321 | in a ready tick each check's precondition holds in turn, and the tick is the tail check of the edge check of the collectible check of the moved snake |
| Round.StepLeavesGridOnEdge | main.cpp:333-343 | a unit step from a board cell lands on an edge line exactly when it leaves the board |
| Round.TickOutcome | main.cpp:312-363 | in play, a tick whose moved head leaves the board or lands on the body ends the round exactly once, saving the score; any other tick only moves and possibly eats, saving nothing and staying running |
| Round.TickShape | main.cpp:312-363 | with no invariant assumed, a tick appends at most one saved score; the body stays, is reset, or grows by exactly one when growth was flagged and keeps its length otherwise |
| Round.EndRoundInv | main.cpp:355-363 | after game over the state is a state of play again |
| Round.TickPreservesInv | main.cpp:312-353 | every tick keeps the body at least 3 long, on the board and without repeated cells; it keeps the heading a unit vector and the collectible in the inner square and off the body |
| Round.EatingScoresAndGrows | main.cpp:316-332 | eating scores exactly one point and flags growth; it moves the collectible to a different cell off the new body, and the round goes on |
| Round.GrowthTakesEffectNextTick | main.cpp:191-203 | growth flagged on one tick lengthens the body by one on the next tick, unless that tick ends the round |
| Controls.Heading | main.cpp:394-417 | each arrow key asks for one of the four unit headings |
| Controls.Accepts | main.cpp:394-417 | for a unit heading, each key's coordinate guard rejects exactly the reverse of the heading it asks for |
| Controls.Steer | main.cpp:394-417 | an accepted arrow key sets the heading to the key's heading and `running` to true; a rejected key changes nothing; no other field ever changes |
| Controls.TogglePause | main.cpp:384-387 | P flips `paused` and nothing else |
| Controls.ToggleHighScores | main.cpp:388-392 | H flips `showHighScores`, leaves `paused == showHighScores`, and changes nothing else |
| Controls.PressKeysChangesFlagsOnly | main.cpp:384-417 | the keys of a frame leave body, collectible, score, growth flag and saved log alone, and set only unit headings |
| Controls.FramePreservesInv | main.cpp:373-417 | a whole loop iteration keeps the state of play |
| Controls.HighScoresKeyDecidesPause | main.cpp:384-392 | after a frame with H pressed, the game is paused exactly when the leaderboard is shown, whatever P did |
| Controls.HidingHighScoresUnpauses | main.cpp:384-392 | pausing with P, then opening and closing the leaderboard, leaves the game unpaused |
| Controls.SameFrameReversal | main.cpp:394-417 | up and left read in one frame while heading right leave the snake heading left |
| Engine.Game.constructor | main.cpp:263-271 | a new game is the `Start` state and is a state of play |
| Engine.Game.Update | main.cpp:312-321 | the new state is `Tick` of the old one; nothing changes when not running or paused; at most one score is appended; the state of play is kept |
| Engine.Game.CheckColCollectibles | main.cpp:324-332 | the new state is `CollectibleCheck` of the old one |
| Engine.Game.CheckColEdges | main.cpp:333-343 | the new state is `EdgeCheck` of the old one: column test, then row test on the state the first test left |
| Engine.Game.CheckColTail | main.cpp:345-353 | the new state is `TailCheck` of the old one, using `ElementInDeque` on the body without its head |
| Engine.Game.GameOver | main.cpp:355-363 | appends the old score to the saved log; the snake is reset with `addSeg` kept; the collectible is off the reset body; score 0, not running, not paused |
| Engine.Game.PressPause | main.cpp:384-387 | the new state is `TogglePause` of the old one |
| Engine.Game.PressHighScores | main.cpp:388-392 | the new state is `ToggleHighScores` of the old one, with `paused == showHighScores` |
| Engine.Game.PressArrow | main.cpp:394-417 | the new state is `Steer` of the old one |
| Engine.Game.HandleKeys | main.cpp:384-417 | the keys of one frame, applied in the source's order, give `PressKeys` of the old state |
| Engine.Game.Frame | main.cpp:373-417 | one loop iteration gives `FrameStep` of the old state (a tick only when the timer fired and the game is not paused, then the keys) and keeps the state of play |

## Left out

- Drawing (`Draw` methods, `DrawHighScores`, window setup, `BeginDrawing`/`EndDrawing`, `ClearBackground`): rendering only.
- Key polling (`IsKeyPressed`): each key of a frame is a flag in `Keys`.
- Collectible texture loading and unloading in the `Collectibles` constructor and destructor: foreign resource calls.
- `HighscoreManager` (SQLite storage and `strftime` timestamps). `SaveHighscore` is an append to the ghost log `savedScores`. `GetTopScores`, `GetHighscore` and `ClearScores` are not modelled: their order and limit come from SQL.
- `eventTr` (frame timing on `GetTime()`): whether the timer fired is the `tick` flag of `Frame`.
- `GetRandomValue`: its results are the caller-supplied draw streams. When no draw is free the source loops forever; the model instead requires a free draw (`Placeable`).
- Float coordinates: cells are integer pairs. `Vector2Equals` is modelled as exact equality, which is what it computes on these small integer values.
- Placement.Collectibles.GenRandPos: uniform randomness and termination with probability 1 are not modelled; only the stream that is supplied is searched.
- Engine.Game.Update: `score` is an unbounded integer; 32-bit overflow of the C++ `int` is not modelled, since a score is bounded by the number of board cells (625).

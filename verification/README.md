# Multi-agent grid game — a Dafny model

This project models the core of a small pygame game. On a 20 × 15 board,
computer-controlled agents move by one of four strategies:

- Random: jump to a random neighbour cell.
- Greedy: step toward the nearest other token.
- Defensive: step away from the nearest other token.
- Patrol: walk the four corners of the board in turn.

The player's token moves with the arrow keys. Every tick, each agent moves
and is then checked against the player:

- meeting the green target (roster index 1, which never moves) scores
  10 × the difficulty multiplier and respawns the target;
- meeting a Defensive agent costs 5 points;
- meeting anything else loses the round.

Reaching the difficulty's target score wins the round. After a round, the
player's name and score enter a top-five high-score list.

The model is purely functional. Each mutable Python object becomes an
immutable datatype, and each method becomes a function returning the new
value.

| module (file) | models |
|---|---|
| `Options` (options.dfy) | `Option<T>`, standing for Python's `None` |
| `Grids` (grids.dfy) | `grid.py`: the board, cell markers, validity, neighbours |
| `Agents` (agents.dfy) | `agent.py`: the agent record and the four strategies |
| `Game` (game.dfy) | the game-state logic of `main.py`: settings, reset, arrow keys, respawn, collisions, the tick loop |
| `HighScores` (highscores.dfy) | the list logic of `save_high_score` in `main.py` |
| `NameEntry` (names.dfy) | player-name editing in `main.py` |

Randomness is an explicit input:

- `random.choice(neighbors)` becomes a caller-supplied `choice: nat`. The
  pick is `neighbors[choice % |neighbors|]`, and
  `RandomReachesEveryNeighbor` shows that every neighbour can be picked.
- The calls to `get_random_position` inside `respawn_target`'s retry loop
  become a supplied stream `draws` of on-board cells. `Respawn` takes the
  first acceptable draw. When no draw in the stream is acceptable, the
  source would keep drawing forever; the model returns `None` instead.
  `RespawnCellExists` shows that an acceptable cell always exists for the
  rosters the game builds.

The player is an `Agent` whose strategy is `None`, exactly as in the
source. `Move` on such an agent is the identity.

Python semantics are kept where they matter:

- `min` returns the first minimal element (`Nearest`).
- `1 if d > 0 else -1` counts a zero difference as negative (`Sign`).
- Patrol waypoints are indexed like a Python list, so negative cursors are
  accepted (`PyIndex`).
- `sort(reverse=True)` is stable (`SortDesc`).
- `name[:-1]` of an empty name is the empty name.

Construction checks nothing. `grid.py` never checks its dimensions, and
numpy accepts zero, so `Grids.New` only requires non-negative dimensions.
`Agent.__init__` never checks its cell, so `Agents.NewAgent` accepts any
position.

## Model

| member | source | states |
|---|---|---|
| Grids.New | grid.py:4-8 | a new board is well formed, has the requested dimensions, and every cell is 0 |
| Grids.IsValidPosition | grid.py:10-12 | on a well-formed board, a position is valid if and only if it indexes a stored cell: its row is one of the rows and its column one of that row's cells |
| Grids.GetCell | grid.py:10-18 | the result is absent exactly when (x, y) is off the board; otherwise it is the marker stored at row y, column x |
| Grids.SetCell | grid.py:20-23 | the board stays well formed with the same dimensions; an off-board write changes nothing |
| Grids.GetAfterSet | grid.py:14-23 | a read after a write sees the written value at that cell and the old value at every other cell |
| Grids.Clear | grid.py:25-27 | dimensions are kept and every on-board cell reads 0 afterwards |
| Grids.Neighbors | grid.py:29-36 | at most four cells, each on the board and at Manhattan distance 1 from (x, y) |
| Grids.NeighborsExactly | grid.py:29-36 | a cell is a neighbour if and only if it is on the board and one orthogonal step away |
| Grids.UnfoldNeighbors | grid.py:31-36 | the neighbours are the on-board candidates in the fixed order down, right, up, left |
| Grids.InteriorHasFourNeighbors | grid.py:29-36 | an interior cell has all four candidates as neighbours, in order |
| Grids.CornerHasTwoNeighbors | grid.py:29-36 | a corner of a board of at least 2 × 2 has exactly two neighbours |
| Grids.SingleCellHasNoNeighbors | grid.py:29-36 | a 1 × 1 board offers no neighbours |
| Agents.NewAgent | agent.py:11-20 | a new agent has the given cell and strategy, no waypoints, and cursor 0 |
| Agents.StepAlong | agent.py:51-58 | the shared one-axis step: along x when the x difference is larger in absolute value, otherwise along y, by one cell in the sign of the difference; it moves if and only if that cell is on the board |
| Agents.Nearest | agent.py:45-46 | returns a valid index of minimal Manhattan distance, and every earlier index is strictly farther (Python's `min` keeps the first minimum) |
| Agents.MoveRandom | agent.py:33-37 | with no neighbours the agent stays put; otherwise it lands on one of its neighbours and nothing but its position changes |
| Agents.RandomReachesEveryNeighbor | agent.py:35-37 | every neighbour is the outcome of some random pick |
| Agents.MoveGreedy | agent.py:39-58 | with nobody else it moves as Random; otherwise it takes one shared-rule step toward the first nearest other token |
| Agents.GreedyApproachesNearest | agent.py:45-58 | on the board, Greedy gets exactly one cell closer to its nearest other token |
| Agents.MoveDefensive | agent.py:60-81 | with nobody else it moves as Random; otherwise it takes one shared-rule step away from the first nearest other token |
| Agents.DefensiveRetreatsFromNearest | agent.py:67-81 | Defensive either stays put at the edge or gets exactly one cell farther from its nearest other token |
| Agents.Waypoints | agent.py:85-92 | the waypoint list a Patrol step uses is never empty |
| Agents.MovePatrol | agent.py:83-112 | the waypoints are built on first use and are then the four corners (0, 0), (w-1, 0), (w-1, h-1), (0, h-1); the cursor stays usable and advances, modulo the list length, if and only if the agent stands on the active waypoint |
| Agents.PatrolSharedRule | agent.py:94-112 | a Patrol step is the shared one-axis step toward the waypoint active after any cursor advance: x if and only if the x difference is larger in absolute value, one cell in the sign of the difference, dropped when that cell is off the board; nothing but the position, the waypoint list and the cursor changes |
| Agents.Move | agent.py:22-31 | dispatch keeps the strategy; the player's token never moves; an on-board agent stays on the board and moves at most one cell |
| Agents.PatrolApproachesWaypoint | agent.py:101-112 | away from the active waypoint, a Patrol step keeps the cursor and gets one cell closer to the waypoint |
| Agents.PatrolArrives | agent.py:94-112 | after exactly as many steps as its distance to the active waypoint, a Patrol agent stands on it with the cursor unchanged |
| Agents.CornerStep | agent.py:94-112 | standing on corner k with the cursor on it, one step moves the cursor to the next corner and the agent one cell closer to that corner |
| Agents.PatrolLeg | agent.py:94-112 | from corner k with the cursor on k, one edge length of steps reaches the next corner with the cursor on it |
| Agents.PatrolLazyInit | agent.py:85-92 | building the waypoints lazily or up front gives the same future |
| Agents.PatrolStepsAdd | agent.py:83-112 | m + n Patrol steps are m steps followed by n steps |
| Agents.PatrolTour | agent.py:83-112 | from the top-left corner, one perimeter of steps visits all four corners and returns to the start, cursor and waypoints as before |
| Game.Board | main.py:15-15 | the game's board is well formed and 20 × 15 |
| Game.SettingsFor | main.py:48-82 | easy, medium and hard field 3, 4 and 5 agents; the multiplier is at least 1; the target score is exactly five catches at every level |
| Game.DifficultyRoster | main.py:576-600 | a reset for a chosen difficulty fields exactly that difficulty's agent count, as the first seed agents, all on the board |
| Game.Roster | main.py:576-600 | the roster has 2 agents for a count of 2 or less, the count for 3 to 5, and 5 above that; it is always a prefix of the five seed agents |
| Game.ResetGame | main.py:563-600 | score 0, round not lost, player back at (10, 7), a roster of the difficulty's size with the Greedy target at (15, 5), every token on the board; the win flag is left as it was |
| Game.ResetGameIntended | main.py:563-569 | the same reset with the win flag cleared, and equal to the as-written reset except for that flag |
| Game.Initial | main.py:613-638 | the start-up state: the two seed agents, the player at (10, 7) with no strategy, score 0, both flags clear, every token on the board |
| Game.MovePlayer | main.py:669-680 | an arrow moves the player one cell if that cell is on the board, and otherwise leaves the player where it is |
| Game.OppositeArrowUndoes | main.py:669-680 | an arrow press that moved the player is undone by the opposite arrow |
| Game.Others | main.py:723-723 | agent i sees every other roster agent, in order (identity, not equality, decides "other"), followed by the player |
| Game.Separated | main.py:605-605 | an acceptable cell is none of the tokens' cells and at Manhattan distance at least 3 from each |
| Game.OnBoardDraws | main.py:292-294 | a draw is acceptable input exactly when its x lies in 0..19 and its y in 0..14, the ranges of the two `randint` calls |
| Game.Respawn | main.py:602-608 | absent if and only if no draw is acceptable; otherwise the result is on the board, at least 3 cells apart on some axis from every token, and it is the first acceptable draw |
| Game.RespawnLeavesOldCell | main.py:605-605 | a respawned target never stays in its old cell |
| Game.RespawnCellExists | main.py:605-606 | with at most six tokens on the board, some board cell is acceptable |
| Game.RosterRespawnPossible | main.py:602-606 | for every roster the game builds, an acceptable respawn cell exists |
| Game.Collide | main.py:751-773 | no contact changes nothing; catching the target adds 10 × the multiplier, moves only the target to an acceptable cell and raises the win flag once the score reaches the target score; a Defensive contact subtracts 5 and changes nothing else; any other contact loses the round and changes nothing else |
| Game.MoveAt | main.py:721-724 | the target stays in place; only the agent whose turn it is can move, the roster keeps its length and strategies, and every token stays on the board |
| Game.StepAgent | main.py:721-773 | one agent's turn keeps the roster shape and every other agent, except that catching the target moves the target |
| Game.TickFrom | main.py:721-773 | the rest of the loop keeps the roster shape and consistency; the flags never drop; once past the target, neither the target nor the win flag changes |
| Game.Tick | main.py:720-773 | a lost or won round stays frozen; otherwise a tick keeps the roster shape, and a consistent state (every token on the board) stays consistent |
| Game.TargetMovesOnlyWhenCaught | main.py:720-764 | in a live round, the target changes cell in a tick if and only if it shared the player's cell when the tick began |
| Game.StepLossIsContact | main.py:751-773 | a turn loses the round only if the agent that just moved is a non-target, non-Defensive agent on the player's cell |
| Game.LossNeedsContact | main.py:751-773 | a loss in the rest of the loop needs such an agent on the player's cell at the end |
| Game.TickLossNeedsContact | main.py:720-773 | a tick loses the round only through a lethal agent standing on the player's cell |
| Game.TickWinNeedsTarget | main.py:751-764 | a tick wins the round only if the target already shared the player's cell when the tick began |
| Game.LethalTurn | main.py:721-773 | a step that puts a lethal agent on the player loses the round and changes only that agent |
| Game.LossAndWinInOneTick | main.py:720-773 | for a roster of any size: when a Random agent 0 steps onto the player while the target shares the player's cell, the same tick both loses the round and catches the target for a win; with two agents the score rises by exactly one catch |
| Game.CollideIgnoresFlags | main.py:751-773 | the collision check does the same with either flag already raised, and keeps the raised flags |
| Game.StepIgnoresFlags | main.py:721-773 | an agent's turn does the same with either flag already raised, and keeps the raised flags |
| Game.FlagsDoNotStopLoop | main.py:720-773 | for any roster, the rest of the loop moves, scores and respawns the same with either flag already raised: neither a loss nor a win stops the later agents |
| Game.FirstTwoTurns | main.py:721-773 | a live tick is agent 0's turn, then the target's, then the rest of the loop from agent 2 |
| Game.TurnCompletes | main.py:765-773 | every turn but the target's completes, because only a catch needs a draw |
| Game.TailCompletes | main.py:721-773 | from agent 2 on the loop always finishes, because only catching the target needs a draw |
| Game.PileUpBlockers | main.py:605-605 | with agent 0 and the target both on the player, a cell clear of the player and of agents 2 on is clear of every token |
| Game.RandomPickZeroStepsDown | agent.py:33-37 | away from the board's edges, random pick 0 is the cell below, so the Random-step premise of the loss-and-win lemma can be met |
| Game.ResetAfterWinIsFrozen | main.py:563-569 | as written, a reset after a win starts a round in which ticks change nothing |
| Game.ResetIntendedRoundIsLive | main.py:563-569 | with the intended reset, the first tick always completes and agent 0 leaves its seed cell (5, 5) in it |
| HighScores.InsertDesc | main.py:284-284 | inserting keeps every entry once; `InsertDescSorted` adds that a ranked list stays ranked |
| HighScores.InsertDescSorted | main.py:284-284 | inserting into a list sorted from high to low keeps it sorted |
| HighScores.SortDesc | main.py:284-284 | the sort is a permutation and yields scores from high to low |
| HighScores.Top | main.py:285-285 | the first five entries: a prefix of the list, at most five long, the whole list when it is that short |
| HighScores.SaveHighScore | main.py:280-290 | the new list has min(old length + 1, 5) entries, sorted from high to low, taken from the old list plus the new entry; every dropped entry scores no higher than the last kept one |
| HighScores.SortRankedPlusOne | main.py:283-284 | on a ranked list, the stable sort puts the new entry after every entry that ties or beats it |
| HighScores.TopOfRanked | main.py:285-285 | cutting a ranked list to five keeps it ranked, keeps a sub-multiset, and drops only entries scoring no higher than the last kept one |
| HighScores.RankedTop | main.py:283-285 | the sorted, cut list of any entries is ranked, at most five long, and drops only entries no better than the ones it keeps |
| HighScores.SaveIntoRanked | main.py:280-285 | saving into a ranked list inserts the newcomer after its ties and cuts the list to five |
| NameEntry.IsAlnum | main.py:666-666 | a key with no text types nothing, and a one-character key types exactly when that character is a letter or a digit |
| NameEntry.EditName | main.py:662-667 | Backspace drops the last character, or does nothing on an empty name; typed text is appended if and only if the name is shorter than ten and the text is alphanumeric; single keys keep a name of at most ten within ten |
| NameEntry.BackspaceUndoesTyping | main.py:663-667 | typing a letter or digit into a short name and then pressing Backspace restores the name |
| NameEntry.EditAll | main.py:662-667 | across any sequence of single-character key presses, the name never exceeds ten characters |

## Left out

- Rendering, fonts, images, animations, floating score labels, and the welcome, difficulty, victory and game-over screens: pure presentation.
- The pygame event loop and the screen flags that route a key press: `showing_welcome`, `showing_difficulty` and `showing_high_scores`. The model exposes the operations that loop calls, not the routing.
- Reading and writing `high_scores.json`, including `load_high_scores`' fallback to an empty list: file I/O. `SaveHighScore` takes the loaded list as input.
- `move_chance` and `detection_range`: set on agents by `reset_game` but never read by the movement code.
- `agent_speed`: the frame rate handed to `clock.tick` (main.py:815), that is, frame pacing and timing; it is never set on an agent.
- Agent colour, image and the always-zero `score` field: never read by the game logic.
- The pseudo-random generator: replaced by the explicit `choice` and `draws` inputs described above.
- Game.Respawn: returns `None` when the supplied draws hold no acceptable cell, where the source would keep drawing forever. `RespawnCellExists` shows such a cell always exists.
- Game.LossAndWinInOneTick: the score is pinned only for a two-agent roster, because with more agents a later Defensive agent on the player takes 5 points in the same tick; the flags are stated for every roster.
- Grids.New: numpy's fixed-width `int` cells are modelled as unbounded integers, because the game only ever stores 0.
- NameEntry.IsAlnum: `str.isalnum()` is modelled for ASCII letters and digits only, as in `NameEntry.EditName`, because Unicode character classes are not available here.
- NameEntry.EditName: `str.isalnum()` is modelled for ASCII letters and digits only, because Unicode character classes are not available here.

## Findings

| source | as written | input that shows it | evidently intended | confidence | as-written member | corrected member |
|---|---|---|---|---|---|---|
| main.py:565-569 | `reset_game` assigns `game_won = False`, but `game_won` is missing from its `global` statement, so only a local is cleared | win a round, then press Space or click "Play Again": the new round starts with `game_won` still true, so the tick loop (main.py:720) never runs and the victory screen stays up | the reset clears the win flag, as it does `game_over` | high (not executed) | Game.ResetAfterWinIsFrozen (uses Game.ResetGame) | Game.ResetIntendedRoundIsLive (uses Game.ResetGameIntended) |

/**
 The game-state logic of main.py: the fixed 20 × 15 board, difficulty
 settings, round reset, player arrow keys, target respawn, collision
 scoring and the per-tick loop.

 The module-level globals become one immutable `State` record. The two
 random sources are explicit: `choices[i]` is the neighbour pick for agent
 i's Random step, and `draws` is the stream of `get_random_position`
 results the respawn retry loop consumes.
 */
module Game {
  import opened Options
  import opened Grids
  import opened Agents

  const Width := 20
  const Height := 15

  /** The single board of main.py; its markers are never read by the game. */
  function Board(): (g: Grid)
    ensures WellFormed(g) && g.width == Width && g.height == Height
  {
    New(Width, Height)
  }

  datatype Difficulty = Easy | Medium | Hard

  /** The parts of a difficulty the core reads. */
  datatype Settings = Settings(agentCount: int, scoreMultiplier: int, targetScore: int)

  /** `DIFFICULTY_SETTINGS`: the roster grows with the difficulty, and at
      every level five catches of the target are exactly the target score. */
  function SettingsFor(d: Difficulty): (r: Settings)
    ensures 3 <= r.agentCount <= 5 && 1 <= r.scoreMultiplier
    ensures r.targetScore == 5 * (10 * r.scoreMultiplier)
    ensures d == Easy <==> r.agentCount == 3
    ensures d == Hard <==> r.agentCount == 5
  {
    match d
    case Easy => Settings(3, 1, 50)
    case Medium => Settings(4, 2, 100)
    case Hard => Settings(5, 3, 150)
  }

  datatype State = State(
    agents: seq<Agent>,
    player: Agent,
    score: int,
    gameOver: bool,
    gameWon: bool)

  /** Every token on the board and every agent able to take a step. */
  predicate Consistent(st: State) {
    && IsValid(Board(), st.player.pos)
    && st.player.strategy.None?
    && forall k :: 0 <= k < |st.agents| ==>
         IsValid(Board(), st.agents[k].pos) && Ready(st.agents[k], Board())
  }

  /** The strategies the roster is built from, in seed order. */
  function RosterSeeds(): seq<Agent> {
    [ NewAgent(5, 5, Some(Random)),
      NewAgent(15, 5, Some(Greedy)),
      NewAgent(5, 10, Some(Defensive)),
      NewAgent(15, 10, Some(Patrol)),
      NewAgent(10, 12, Some(Random)) ]
  }

  /** The roster `reset_game` builds for `agent_count`. */
  function Roster(count: int): (r: seq<Agent>)
    ensures |r| == if count <= 2 then 2 else if count >= 5 then 5 else count
    ensures r == RosterSeeds()[..|r|]
  {
    [NewAgent(5, 5, Some(Random)), NewAgent(15, 5, Some(Greedy))]
    + (if count >= 3 then [NewAgent(5, 10, Some(Defensive))] else [])
    + (if count >= 4 then [NewAgent(15, 10, Some(Patrol))] else [])
    + (if count >= 5 then [NewAgent(10, 12, Some(Random))] else [])
  }

  /** `reset_game` as written. `game_won` is missing from its `global`
      statement, so the assignment only sets a local and the round's win
      flag survives the reset. */
  function ResetGame(s: Settings, st: State): (r: State)
    ensures r.score == 0 && !r.gameOver
    ensures r.gameWon == st.gameWon
    ensures r.player.pos == Pos(10, 7) && r.player.strategy.None?
    ensures 2 <= |r.agents| <= 5
    ensures 3 <= s.agentCount <= 5 ==> |r.agents| == s.agentCount
    ensures r.agents[1].pos == Pos(15, 5) && r.agents[1].strategy == Some(Greedy)
    ensures Consistent(r)
  {
    State(Roster(s.agentCount), NewAgent(10, 7, None), 0, false, st.gameWon)
  }

  /** `reset_game` as evidently intended: the win flag is cleared too. */
  function ResetGameIntended(s: Settings, st: State): (r: State)
    ensures r.score == 0 && !r.gameOver && !r.gameWon
    ensures r.player.pos == Pos(10, 7) && r.player.strategy.None?
    ensures 2 <= |r.agents| <= 5
    ensures 3 <= s.agentCount <= 5 ==> |r.agents| == s.agentCount
    ensures r.agents[1].pos == Pos(15, 5) && r.agents[1].strategy == Some(Greedy)
    ensures Consistent(r)
    ensures r == ResetGame(s, st).(gameWon := false)
  {
    State(Roster(s.agentCount), NewAgent(10, 7, None), 0, false, false)
  }

  /** Resetting for a chosen difficulty fields exactly that difficulty's
      number of agents: the first three, four or five seed agents. */
  lemma DifficultyRoster(d: Difficulty, st: State)
    ensures var s := SettingsFor(d);
            var r := ResetGame(s, st);
            && |r.agents| == s.agentCount
            && r.agents == RosterSeeds()[..s.agentCount]
            && Consistent(r)
  {
  }

  /** The state the program starts in, before any difficulty is chosen. */
  function Initial(): (r: State)
    ensures Consistent(r) && |r.agents| == 2
    ensures r.score == 0 && !r.gameOver && !r.gameWon
    ensures r.agents == RosterSeeds()[..2]
    ensures r.player == NewAgent(10, 7, None)
  {
    State([NewAgent(5, 5, Some(Random)), NewAgent(15, 5, Some(Greedy))],
         NewAgent(10, 7, None), 0, false, false)
  }

  datatype Arrow = Up | Down | Left | Right

  /** The cell one arrow press points at. */
  function Shifted(p: Pos, k: Arrow): Pos {
    match k
    case Up => Pos(p.x, p.y - 1)
    case Down => Pos(p.x, p.y + 1)
    case Left => Pos(p.x - 1, p.y)
    case Right => Pos(p.x + 1, p.y)
  }

  function Opposite(k: Arrow): Arrow {
    match k
    case Up => Down
    case Down => Up
    case Left => Right
    case Right => Left
  }

  /** An arrow key moves the player one cell if that cell is on the board. */
  function MovePlayer(g: Grid, player: Agent, k: Arrow): (r: Agent)
    ensures IsValid(g, Shifted(player.pos, k)) ==> r == player.(pos := Shifted(player.pos, k))
    ensures !IsValid(g, Shifted(player.pos, k)) ==> r == player
    ensures IsValid(g, player.pos) ==> IsValid(g, r.pos)
  {
    var p := player.pos;
    match k
    case Up => if IsValidPosition(g, p.x, p.y - 1) then player.(pos := Pos(p.x, p.y - 1)) else player
    case Down => if IsValidPosition(g, p.x, p.y + 1) then player.(pos := Pos(p.x, p.y + 1)) else player
    case Left => if IsValidPosition(g, p.x - 1, p.y) then player.(pos := Pos(p.x - 1, p.y)) else player
    case Right => if IsValidPosition(g, p.x + 1, p.y) then player.(pos := Pos(p.x + 1, p.y)) else player
  }

  /** A move that went through is undone by the opposite arrow. */
  lemma OppositeArrowUndoes(g: Grid, player: Agent, k: Arrow)
    requires IsValid(g, player.pos)
    requires MovePlayer(g, player, k) != player
    ensures MovePlayer(g, MovePlayer(g, player, k), Opposite(k)) == player
  {
  }

  /** Positions of a list of agents. */
  function Positions(agents: seq<Agent>): (r: seq<Pos>)
    ensures |r| == |agents|
    ensures forall k :: 0 <= k < |agents| ==> r[k] == agents[k].pos
  {
    seq(|agents|, k requires 0 <= k < |agents| => agents[k].pos)
  }

  /** What agent i sees in a tick: every other roster agent (main.py's
      `a != agent` is identity) followed by the player. */
  function Others(st: State, i: nat): (r: seq<Pos>)
    requires i < |st.agents|
    ensures |r| == |st.agents|
    ensures r[|r| - 1] == st.player.pos
    ensures forall k :: 0 <= k < |st.agents| && k != i ==>
              st.agents[k].pos == r[if k < i then k else k - 1]
  {
    Positions(st.agents[..i]) + Positions(st.agents[i + 1..]) + [st.player.pos]
  }

  /** The respawn retry loop's acceptance test: some axis at least 3 apart
      from every blocker. */
  predicate Separated(p: Pos, blockers: seq<Pos>)
    ensures Separated(p, blockers) ==>
              forall k :: 0 <= k < |blockers| ==> blockers[k] != p && Dist(p, blockers[k]) >= 3
  {
    forall k :: 0 <= k < |blockers| ==>
      Abs(p.x - blockers[k].x) >= 3 || Abs(p.y - blockers[k].y) >= 3
  }

  /** Every draw is a possible `get_random_position` result: on the board,
      that is, within `randint(0, 19)` by `randint(0, 14)`. */
  predicate OnBoardDraws(draws: seq<Pos>)
    ensures OnBoardDraws(draws) <==>
              forall k :: 0 <= k < |draws| ==>
                0 <= draws[k].x <= Width - 1 && 0 <= draws[k].y <= Height - 1
  {
    forall k :: 0 <= k < |draws| ==> IsValid(Board(), draws[k])
  }

  /** `respawn_target`'s retry loop over a given draw stream: the first
      acceptable draw, or `None` when the stream holds none (the source
      would keep drawing forever). */
  function Respawn(blockers: seq<Pos>, draws: seq<Pos>): (r: Option<Pos>)
    requires OnBoardDraws(draws)
    ensures r.None? <==> forall k :: 0 <= k < |draws| ==> !Separated(draws[k], blockers)
    ensures r.Some? ==> IsValid(Board(), r.value) && Separated(r.value, blockers)
    ensures r.Some? ==> exists k :: 0 <= k < |draws| && draws[k] == r.value &&
                          forall j :: 0 <= j < k ==> !Separated(draws[j], blockers)
  {
    if |draws| == 0 then None
    else if Separated(draws[0], blockers) then Some(draws[0])
    else
      var r := Respawn(blockers, draws[1..]);
      assert forall k :: 1 <= k < |draws| ==> draws[k] == draws[1..][k - 1];
      r
  }

  /** Everything the respawned target must keep clear of: every roster
      agent (the target's old cell included) and the player. */
  function Blockers(st: State): seq<Pos> {
    Positions(st.agents) + [st.player.pos]
  }

  /** The collision check for agent i against the player (main.py:751-773). */
  function Collide(s: Settings, st: State, i: nat, draws: seq<Pos>): (r: Option<State>)
    requires i < |st.agents| && OnBoardDraws(draws)
    requires forall k :: 0 <= k < |st.agents| ==> Ready(st.agents[k], Board())
    ensures r.Some? ==> SameShape(st, r.value)
    ensures r.Some? && Consistent(st) ==> Consistent(r.value)
    ensures r.Some? ==> (st.gameOver ==> r.value.gameOver) && (st.gameWon ==> r.value.gameWon)
    ensures r.Some? ==> forall k :: 0 <= k < |st.agents| && k != 1 ==> r.value.agents[k] == st.agents[k]
    ensures r.Some? && i != 1 ==> r.value.gameWon == st.gameWon
    // No contact: nothing happens.
    ensures st.agents[i].pos != st.player.pos ==> r == Some(st)
    // The target: score up by 10 × multiplier, target moved clear of
    // everyone, win flag raised once the score reaches the target score.
    ensures st.agents[i].pos == st.player.pos && i == 1 ==>
              (r.None? <==> forall k :: 0 <= k < |draws| ==> !Separated(draws[k], Blockers(st)))
    ensures st.agents[i].pos == st.player.pos && i == 1 && r.Some? ==>
              var n := r.value;
              && |n.agents| == |st.agents|
              && n.score == st.score + 10 * s.scoreMultiplier
              && n.gameWon == (st.gameWon || n.score >= s.targetScore)
              && n.gameOver == st.gameOver
              && n.player == st.player
              && IsValid(Board(), n.agents[1].pos)
              && Separated(n.agents[1].pos, Blockers(st))
              && n.agents == st.agents[1 := st.agents[1].(pos := n.agents[1].pos)]
    // A Defensive agent: five points off, nothing else.
    ensures st.agents[i].pos == st.player.pos && i != 1 && st.agents[i].strategy == Some(Defensive) ==>
              r.Some? && r.value.score == st.score - 5 && r.value.(score := st.score) == st
    // Anything else: the round is lost, score untouched.
    ensures st.agents[i].pos == st.player.pos && i != 1 && st.agents[i].strategy != Some(Defensive) ==>
              r.Some? && r.value.gameOver && r.value.(gameOver := st.gameOver) == st
  {
    if st.agents[i].pos != st.player.pos then Some(st)
    else if i == 1 then
      match Respawn(Blockers(st), draws)
      case None => None
      case Some(p) =>
        var score := st.score + 10 * s.scoreMultiplier;
        assert Ready(st.agents[1].(pos := p), Board()) by {
          assert Ready(st.agents[1], Board());
          assert Waypoints(st.agents[1].(pos := p), Board()) == Waypoints(st.agents[1], Board());
        }
        Some(st.(score := score,
                 agents := st.agents[1 := st.agents[1].(pos := p)],
                 gameWon := if score >= s.targetScore then true else st.gameWon))
    else if st.agents[i].strategy == Some(Defensive) then
      Some(st.(score := st.score - 5))
    else
      Some(st.(gameOver := true))
  }

  /** The random pick supplied for agent i (0 when none was supplied). */
  function Pick(choices: seq<nat>, i: nat): nat {
    if i < |choices| then choices[i] else 0
  }

  /** Agent i's own step in a tick; the target (index 1) never moves. */
  function MoveAt(st: State, i: nat, choices: seq<nat>): (r: State)
    requires i < |st.agents|
    requires forall k :: 0 <= k < |st.agents| ==> Ready(st.agents[k], Board())
    ensures SameShape(st, r)
    ensures Consistent(st) ==> Consistent(r)
    ensures forall k :: 0 <= k < |st.agents| && k != i ==> r.agents[k] == st.agents[k]
    // The target is skipped (main.py:722).
    ensures i == 1 ==> r == st
  {
    if i == 1 then st
    else st.(agents := st.agents[i := Move(st.agents[i], Board(), Others(st, i), Pick(choices, i))])
  }

  /** The shape a tick keeps: roster length and strategies, the player, and
      every agent's readiness to move. */
  predicate SameShape(st: State, n: State) {
    && |n.agents| == |st.agents|
    && n.player == st.player
    && (forall k :: 0 <= k < |st.agents| ==> n.agents[k].strategy == st.agents[k].strategy)
    && (forall k :: 0 <= k < |n.agents| ==> Ready(n.agents[k], Board()))
  }

  /** Agent i's turn in a tick: its own step, then its collision check. */
  function StepAgent(s: Settings, st: State, i: nat, choices: seq<nat>, draws: seq<Pos>): (r: Option<State>)
    requires i < |st.agents| && OnBoardDraws(draws)
    requires forall k :: 0 <= k < |st.agents| ==> Ready(st.agents[k], Board())
    ensures r.Some? ==> SameShape(st, r.value)
    ensures r.Some? && Consistent(st) ==> Consistent(r.value)
    ensures r.Some? ==> (st.gameOver ==> r.value.gameOver) && (st.gameWon ==> r.value.gameWon)
    ensures r.Some? ==> forall k :: 0 <= k < |st.agents| && k != i && k != 1 ==> r.value.agents[k] == st.agents[k]
    ensures r.Some? && i != 1 && 1 < |st.agents| ==> r.value.agents[1] == st.agents[1]
    ensures r.Some? && i != 1 ==> r.value.gameWon == st.gameWon
  {
    var moved := MoveAt(st, i, choices);
    Collide(s, moved, i, draws)
  }

  /** The tick loop from agent i on: each agent steps, then is checked
      against the player at once; a lost or won flag does not stop the
      remaining agents. */
  function TickFrom(s: Settings, st: State, i: nat, choices: seq<nat>, draws: seq<Pos>): (r: Option<State>)
    requires i <= |st.agents| && OnBoardDraws(draws)
    requires forall k :: 0 <= k < |st.agents| ==> Ready(st.agents[k], Board())
    ensures r.Some? ==> SameShape(st, r.value)
    ensures r.Some? && Consistent(st) ==> Consistent(r.value)
    ensures r.Some? ==> (st.gameOver ==> r.value.gameOver) && (st.gameWon ==> r.value.gameWon)
    ensures r.Some? ==> forall k :: 0 <= k < i && k != 1 ==> r.value.agents[k] == st.agents[k]
    ensures r.Some? && 1 < i ==> r.value.agents[1] == st.agents[1]
    ensures r.Some? && 1 < i ==> r.value.gameWon == st.gameWon
    decreases |st.agents| - i
  {
    if i == |st.agents| then Some(st)
    else
      match StepAgent(s, st, i, choices, draws)
      case None => None
      case Some(next) => TickFrom(s, next, i + 1, choices, draws)
  }

  /** One simulation tick (main.py:720-773): nothing moves once the round
      is lost or won. */
  function Tick(s: Settings, st: State, choices: seq<nat>, draws: seq<Pos>): (r: Option<State>)
    requires OnBoardDraws(draws)
    requires forall k :: 0 <= k < |st.agents| ==> Ready(st.agents[k], Board())
    ensures st.gameOver || st.gameWon ==> r == Some(st)
    ensures r.Some? ==> SameShape(st, r.value)
    ensures r.Some? && Consistent(st) ==> Consistent(r.value)
  {
    if st.gameOver || st.gameWon then Some(st) else TickFrom(s, st, 0, choices, draws)
  }

  /** A respawned cell is never the target's old cell. */
  lemma RespawnLeavesOldCell(st: State, p: Pos)
    requires 1 < |st.agents| && Separated(p, Blockers(st))
    ensures p != st.agents[1].pos
  {
    assert Blockers(st)[1] == st.agents[1].pos;
  }

  /** The target never moves by itself: in a live round it changes cell in
      a tick exactly when it sat on the player's cell as the tick began. */
  lemma TargetMovesOnlyWhenCaught(s: Settings, st: State, choices: seq<nat>, draws: seq<Pos>)
    requires OnBoardDraws(draws)
    requires forall k :: 0 <= k < |st.agents| ==> Ready(st.agents[k], Board())
    requires !st.gameOver && !st.gameWon && 1 < |st.agents|
    ensures var r := Tick(s, st, choices, draws);
            r.Some? ==> (r.value.agents[1].pos != st.agents[1].pos <==> st.agents[1].pos == st.player.pos)
  {
    var r := Tick(s, st, choices, draws);
    if r.Some? {
      var n := r.value;
      var st1 := StepAgent(s, st, 0, choices, draws).value;
      assert TickFrom(s, st1, 1, choices, draws) == Some(n);
      var st2 := StepAgent(s, st1, 1, choices, draws).value;
      assert TickFrom(s, st2, 2, choices, draws) == Some(n);
      assert st1.agents[1] == st.agents[1] && st1.player == st.player;
      assert MoveAt(st1, 1, choices) == st1;
      if st1.agents[1].pos == st1.player.pos {
        RespawnLeavesOldCell(st1, st2.agents[1].pos);
      }
    }
  }

  /** A single turn loses the round only when the agent that just moved
      is a lethal one standing on the player. */
  lemma StepLossIsContact(s: Settings, st: State, i: nat, choices: seq<nat>, draws: seq<Pos>, next: State)
    requires i < |st.agents| && OnBoardDraws(draws)
    requires forall k :: 0 <= k < |st.agents| ==> Ready(st.agents[k], Board())
    requires !st.gameOver
    requires StepAgent(s, st, i, choices, draws) == Some(next) && next.gameOver
    ensures i != 1 && next.agents[i].pos == next.player.pos && next.agents[i].strategy != Some(Defensive)
  {
    var moved := MoveAt(st, i, choices);
    assert Collide(s, moved, i, draws) == Some(next);
  }

  /** A tick can only lose the round through a contact: some non-target,
      non-Defensive agent ends the tick on the player's cell. */
  lemma {:induction false} LossNeedsContact(s: Settings, st: State, i: nat, choices: seq<nat>, draws: seq<Pos>, n: State)
    requires i <= |st.agents| && OnBoardDraws(draws)
    requires forall k :: 0 <= k < |st.agents| ==> Ready(st.agents[k], Board())
    requires !st.gameOver
    requires TickFrom(s, st, i, choices, draws) == Some(n) && n.gameOver
    ensures exists k :: i <= k < |n.agents| && k != 1 &&
              n.agents[k].pos == n.player.pos && n.agents[k].strategy != Some(Defensive)
    decreases |st.agents| - i
  {
    var next := StepAgent(s, st, i, choices, draws).value;
    assert TickFrom(s, next, i + 1, choices, draws) == Some(n);
    if next.gameOver {
      StepLossIsContact(s, st, i, choices, draws, next);
      assert n.agents[i] == next.agents[i] && n.player == next.player;
    } else {
      LossNeedsContact(s, next, i + 1, choices, draws, n);
    }
  }

  /** The round is lost in a tick only through a lethal contact. */
  lemma TickLossNeedsContact(s: Settings, st: State, choices: seq<nat>, draws: seq<Pos>, n: State)
    requires OnBoardDraws(draws)
    requires forall k :: 0 <= k < |st.agents| ==> Ready(st.agents[k], Board())
    requires !st.gameOver
    requires Tick(s, st, choices, draws) == Some(n) && n.gameOver
    ensures exists k :: 0 <= k < |n.agents| && k != 1 &&
              n.agents[k].pos == n.player.pos && n.agents[k].strategy != Some(Defensive)
  {
    LossNeedsContact(s, st, 0, choices, draws, n);
  }

  /** The round is won in a tick only by catching the target, which must
      already share the player's cell when the tick begins. */
  lemma TickWinNeedsTarget(s: Settings, st: State, choices: seq<nat>, draws: seq<Pos>, n: State)
    requires OnBoardDraws(draws)
    requires forall k :: 0 <= k < |st.agents| ==> Ready(st.agents[k], Board())
    requires !st.gameWon
    requires Tick(s, st, choices, draws) == Some(n) && n.gameWon
    ensures 1 < |st.agents| && st.agents[1].pos == st.player.pos
  {
    var st1 := StepAgent(s, st, 0, choices, draws).value;
    assert TickFrom(s, st1, 1, choices, draws) == Some(n);
    var st2 := StepAgent(s, st1, 1, choices, draws).value;
    assert TickFrom(s, st2, 2, choices, draws) == Some(n);
    assert st1.agents[1] == st.agents[1] && st1.player == st.player;
    assert MoveAt(st1, 1, choices) == st1;
  }

  /** The Random-step premise of `LossAndWinInOneTick` can be met: away
      from the edges, pick 0 is the cell below, so an agent just above the
      player steps onto it. */
  lemma RandomPickZeroStepsDown(a: Agent)
    requires 1 <= a.pos.x < Width - 1 && 1 <= a.pos.y < Height - 1
    ensures MoveRandom(a, Board(), 0).pos == Pos(a.pos.x, a.pos.y + 1)
  {
    InteriorHasFourNeighbors(Board(), a.pos.x, a.pos.y);
  }

  /** A turn whose step lands a lethal agent on the player loses the round
      and changes nothing else. */
  lemma LethalTurn(s: Settings, st: State, i: nat, choices: seq<nat>, draws: seq<Pos>, a: Agent)
    requires i < |st.agents| && i != 1 && OnBoardDraws(draws)
    requires forall k :: 0 <= k < |st.agents| ==> Ready(st.agents[k], Board())
    requires Move(st.agents[i], Board(), Others(st, i), Pick(choices, i)) == a
    requires a.pos == st.player.pos && a.strategy != Some(Defensive)
    ensures StepAgent(s, st, i, choices, draws) == Some(st.(agents := st.agents[i := a], gameOver := true))
  {
    var moved := MoveAt(st, i, choices);
    assert moved == st.(agents := st.agents[i := a]);
  }

  /** The state with the given flags raised on top of its own. */
  function Raise(st: State, over: bool, won: bool): State {
    st.(gameOver := st.gameOver || over, gameWon := st.gameWon || won)
  }

  /** The collision check never reads the flags: with flags raised it
      scores, respawns and flags exactly as it would otherwise. */
  lemma CollideIgnoresFlags(s: Settings, st: State, i: nat, draws: seq<Pos>, over: bool, won: bool)
    requires i < |st.agents| && OnBoardDraws(draws)
    requires forall k :: 0 <= k < |st.agents| ==> Ready(st.agents[k], Board())
    ensures var r := Collide(s, st, i, draws);
            var f := Collide(s, Raise(st, over, won), i, draws);
            (r.Some? <==> f.Some?) && (r.Some? ==> f.value == Raise(r.value, over, won))
  {
    assert Blockers(Raise(st, over, won)) == Blockers(st);
  }

  /** One turn never reads the flags: taken with flags raised, it does
      exactly what it does otherwise and keeps the raised flags. */
  lemma StepIgnoresFlags(s: Settings, st: State, i: nat, choices: seq<nat>, draws: seq<Pos>, over: bool, won: bool)
    requires i < |st.agents| && OnBoardDraws(draws)
    requires forall k :: 0 <= k < |st.agents| ==> Ready(st.agents[k], Board())
    ensures var r := StepAgent(s, st, i, choices, draws);
            var f := StepAgent(s, Raise(st, over, won), i, choices, draws);
            (r.Some? <==> f.Some?) && (r.Some? ==> f.value == Raise(r.value, over, won))
  {
    var moved := MoveAt(st, i, choices);
    assert MoveAt(Raise(st, over, won), i, choices) == Raise(moved, over, won) by {
      assert Others(Raise(st, over, won), i) == Others(st, i);
    }
    CollideIgnoresFlags(s, moved, i, draws, over, won);
  }

  /** Neither flag stops the loop, for any roster: the rest of a tick run
      with flags already raised moves every agent, scores and respawns
      exactly as it would with them clear, and keeps the raised flags. */
  lemma {:induction false} FlagsDoNotStopLoop(s: Settings, st: State, i: nat, choices: seq<nat>, draws: seq<Pos>, over: bool, won: bool)
    requires i <= |st.agents| && OnBoardDraws(draws)
    requires forall k :: 0 <= k < |st.agents| ==> Ready(st.agents[k], Board())
    ensures var r := TickFrom(s, st, i, choices, draws);
            var f := TickFrom(s, Raise(st, over, won), i, choices, draws);
            (r.Some? <==> f.Some?) && (r.Some? ==> f.value == Raise(r.value, over, won))
    decreases |st.agents| - i
  {
    if i < |st.agents| {
      StepIgnoresFlags(s, st, i, choices, draws, over, won);
      var r := StepAgent(s, st, i, choices, draws);
      if r.Some? {
        FlagsDoNotStopLoop(s, r.value, i + 1, choices, draws, over, won);
      }
    }
  }

  /** A live tick begins with agent 0's turn and then the target's. */
  lemma FirstTwoTurns(s: Settings, st: State, choices: seq<nat>, draws: seq<Pos>, st1: State, st2: State)
    requires 2 <= |st.agents| && OnBoardDraws(draws)
    requires forall k :: 0 <= k < |st.agents| ==> Ready(st.agents[k], Board())
    requires !st.gameOver && !st.gameWon
    requires StepAgent(s, st, 0, choices, draws) == Some(st1)
    requires StepAgent(s, st1, 1, choices, draws) == Some(st2)
    ensures Tick(s, st, choices, draws) == TickFrom(s, st2, 2, choices, draws)
  {
    assert TickFrom(s, st1, 1, choices, draws) == TickFrom(s, st2, 2, choices, draws);
  }

  /** Any turn but the target's completes: only a catch needs a draw. */
  lemma TurnCompletes(s: Settings, st: State, i: nat, choices: seq<nat>, draws: seq<Pos>)
    requires i < |st.agents| && i != 1 && OnBoardDraws(draws)
    requires forall k :: 0 <= k < |st.agents| ==> Ready(st.agents[k], Board())
    ensures StepAgent(s, st, i, choices, draws).Some?
  {
    var moved := MoveAt(st, i, choices);
    assert Collide(s, moved, i, draws).Some?;
  }

  /** Past the target nothing can stall the loop: only catching the target
      needs a draw, so the remaining turns always finish. */
  lemma {:induction false} TailCompletes(s: Settings, st: State, i: nat, choices: seq<nat>, draws: seq<Pos>)
    requires 2 <= i <= |st.agents| && OnBoardDraws(draws)
    requires forall k :: 0 <= k < |st.agents| ==> Ready(st.agents[k], Board())
    ensures TickFrom(s, st, i, choices, draws).Some?
    decreases |st.agents| - i
  {
    if i < |st.agents| {
      TurnCompletes(s, st, i, choices, draws);
      var next := StepAgent(s, st, i, choices, draws).value;
      assert TickFrom(s, st, i, choices, draws) == TickFrom(s, next, i + 1, choices, draws);
      TailCompletes(s, next, i + 1, choices, draws);
    }
  }

  /** With agent 0 and the target both on the player, a cell clear of the
      player and of agents 2 on is clear of every blocker. */
  lemma PileUpBlockers(st: State, a: Agent, p: Pos)
    requires 2 <= |st.agents|
    requires a.pos == st.player.pos && st.agents[1].pos == st.player.pos
    requires Separated(p, [st.player.pos] + Positions(st.agents[2..]))
    ensures Separated(p, Blockers(st.(agents := st.agents[0 := a])))
  {
    var bs := Blockers(st.(agents := st.agents[0 := a]));
    var clear := [st.player.pos] + Positions(st.agents[2..]);
    forall k | 0 <= k < |bs|
      ensures Abs(p.x - bs[k].x) >= 3 || Abs(p.y - bs[k].y) >= 3
    {
      if 2 <= k < |bs| - 1 {
        assert bs[k] == clear[k - 1];
      } else {
        assert bs[k] == clear[0];
      }
    }
  }

  /** Neither flag stops the loop: when agent 0, a Random agent, steps onto
      the player (a loss) while the target already shares the player's
      cell, the target is still caught in the same tick, and a catch worth
      the target score wins the round too, whatever agents follow. */
  lemma LossAndWinInOneTick(s: Settings, st: State, choices: seq<nat>, draws: seq<Pos>)
    requires 2 <= |st.agents| && OnBoardDraws(draws)
    requires forall k :: 0 <= k < |st.agents| ==> Ready(st.agents[k], Board())
    requires !st.gameOver && !st.gameWon
    requires st.agents[0].strategy == Some(Random)
    requires MoveRandom(st.agents[0], Board(), Pick(choices, 0)).pos == st.player.pos
    requires st.agents[1].pos == st.player.pos
    requires |draws| > 0 && Separated(draws[0], [st.player.pos] + Positions(st.agents[2..]))
    requires st.score + 10 * s.scoreMultiplier >= s.targetScore
    ensures var r := Tick(s, st, choices, draws);
            && r.Some? && r.value.gameOver && r.value.gameWon
            && (|st.agents| == 2 ==> r.value.score == st.score + 10 * s.scoreMultiplier)
  {
    var a := Move(st.agents[0], Board(), Others(st, 0), Pick(choices, 0));
    var st1 := st.(agents := st.agents[0 := a], gameOver := true);
    LethalTurn(s, st, 0, choices, draws, a);
    assert MoveAt(st1, 1, choices) == st1;
    assert Separated(draws[0], Blockers(st1)) by {
      PileUpBlockers(st, a, draws[0]);
    }
    assert Respawn(Blockers(st1), draws) == Some(draws[0]);
    var st2 := Collide(s, st1, 1, draws).value;
    FirstTwoTurns(s, st, choices, draws, st1, st2);
    TailCompletes(s, st2, 2, choices, draws);
  }

  /** How many blockers stand within two columns of column x. */
  function ColumnLoad(bs: seq<Pos>, x: int): nat {
    if |bs| == 0 then 0
    else (if Abs(bs[0].x - x) < 3 then 1 else 0) + ColumnLoad(bs[1..], x)
  }

  lemma SeparatedCons(p: Pos, bs: seq<Pos>)
    requires |bs| > 0
    ensures Separated(p, bs) <==>
              (Abs(p.x - bs[0].x) >= 3 || Abs(p.y - bs[0].y) >= 3) && Separated(p, bs[1..])
  {
    if Separated(p, bs[1..]) {
      assert forall k :: 1 <= k < |bs| ==> bs[k] == bs[1..][k - 1];
    }
  }

  /** Columns 0, 6, 12 and 18 are too far apart for one blocker to crowd
      two of them. */
  lemma {:induction false} ColumnLoadsBounded(bs: seq<Pos>)
    ensures ColumnLoad(bs, 0) + ColumnLoad(bs, 6) + ColumnLoad(bs, 12) + ColumnLoad(bs, 18) <= |bs|
  {
    if |bs| > 0 {
      ColumnLoadsBounded(bs[1..]);
    }
  }

  lemma {:induction false} EmptyColumnIsFree(bs: seq<Pos>, x: int, y: int)
    requires ColumnLoad(bs, x) == 0
    ensures Separated(Pos(x, y), bs)
  {
    if |bs| > 0 {
      EmptyColumnIsFree(bs[1..], x, y);
      SeparatedCons(Pos(x, y), bs);
    }
  }

  /** In a column crowded by at most one blocker, the top or the bottom
      cell of the board is clear of every blocker. */
  lemma {:induction false} LightColumnHasFreeEnd(bs: seq<Pos>, x: int)
    requires ColumnLoad(bs, x) <= 1
    ensures Separated(Pos(x, 0), bs) || Separated(Pos(x, Height - 1), bs)
  {
    if |bs| > 0 {
      SeparatedCons(Pos(x, 0), bs);
      SeparatedCons(Pos(x, Height - 1), bs);
      if Abs(bs[0].x - x) < 3 {
        EmptyColumnIsFree(bs[1..], x, 0);
        EmptyColumnIsFree(bs[1..], x, Height - 1);
      } else {
        LightColumnHasFreeEnd(bs[1..], x);
      }
    }
  }

  /** The respawn retry loop is never hopeless: with at most six tokens on
      the board (five agents and the player) some cell is acceptable. */
  lemma RespawnCellExists(bs: seq<Pos>)
    requires |bs| <= 6
    ensures exists p :: IsValid(Board(), p) && Separated(p, bs)
  {
    ColumnLoadsBounded(bs);
    var x := if ColumnLoad(bs, 0) <= 1 then 0
             else if ColumnLoad(bs, 6) <= 1 then 6
             else if ColumnLoad(bs, 12) <= 1 then 12
             else 18;
    LightColumnHasFreeEnd(bs, x);
    if Separated(Pos(x, 0), bs) {
      assert IsValid(Board(), Pos(x, 0));
    } else {
      assert IsValid(Board(), Pos(x, Height - 1));
    }
  }

  /** For every roster `reset_game` can build, an acceptable respawn cell
      exists, so a draw stream covering the board always lets the target
      respawn. */
  lemma RosterRespawnPossible(st: State)
    requires |st.agents| <= 5
    ensures exists p :: IsValid(Board(), p) && Separated(p, Blockers(st))
  {
    RespawnCellExists(Blockers(st));
  }

  /** As written, a reset after a win starts a frozen round: the win flag
      survives, so every later tick leaves the new round untouched. */
  lemma ResetAfterWinIsFrozen(s: Settings, st: State, choices: seq<nat>, draws: seq<Pos>)
    requires OnBoardDraws(draws)
    requires st.gameWon
    ensures Tick(s, ResetGame(s, st), choices, draws) == Some(ResetGame(s, st))
  {
  }

  /** With the intended reset the new round is live: the first tick always
      completes, and in it agent 0 leaves its seed cell (5, 5). */
  lemma ResetIntendedRoundIsLive(s: Settings, st: State, choices: seq<nat>, draws: seq<Pos>)
    requires OnBoardDraws(draws)
    ensures var r := Tick(s, ResetGameIntended(s, st), choices, draws);
            r.Some? && r.value.agents[0].pos != Pos(5, 5)
  {
    var st0 := ResetGameIntended(s, st);
    var moved := MoveAt(st0, 0, choices);
    assert moved.agents[0].pos != Pos(5, 5) && moved.agents[0].pos != st0.player.pos by {
      UnfoldNeighbors(Board(), 5, 5);
      assert moved.agents[0].pos in Neighbors(Board(), 5, 5);
    }
    var st1 := StepAgent(s, st0, 0, choices, draws).value;
    assert st1 == moved;
    // The target at (15, 5) is not on the player at (10, 7): no catch.
    assert StepAgent(s, st1, 1, choices, draws) == Some(st1) by {
      assert MoveAt(st1, 1, choices) == st1;
    }
    FirstTwoTurns(s, st0, choices, draws, st1, st1);
    TailCompletes(s, st1, 2, choices, draws);
  }

}

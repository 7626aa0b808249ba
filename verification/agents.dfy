/**
 The agent movement engine (agent.py).

 An agent is an immutable record; `Move` returns the agent after one step.
 The other agents are passed by position, which is all the engine reads of
 them, and `random.choice` is replaced by a caller-supplied `choice` index.
 */
module Agents {
  import opened Options
  import opened Grids

  datatype Strategy = Random | Greedy | Defensive | Patrol

  /** `strategy == None` is the player's token, which never moves by itself.
      `patrolPoints` stays empty until the first Patrol step. */
  datatype Agent = Agent(
    pos: Pos,
    strategy: Option<Strategy>,
    patrolPoints: seq<Pos>,
    patrolIndex: int)

  /** `Agent(x, y, strategy, color, grid)`: no waypoints yet, cursor at 0. */
  function NewAgent(x: int, y: int, strategy: Option<Strategy>): (a: Agent)
    ensures a.pos == Pos(x, y) && a.strategy == strategy
    ensures |a.patrolPoints| == 0 && a.patrolIndex == 0
  {
    Agent(Pos(x, y), strategy, [], 0)
  }

  /** `1 if d > 0 else -1`: a zero difference counts as negative. */
  function Sign(d: int): int {
    if d > 0 then 1 else -1
  }

  /** The cell one step along the axis chosen by the shared rule:
      x when |dx| > |dy|, y otherwise (ties and dx = dy = 0 included). */
  function Candidate(p: Pos, dx: int, dy: int): Pos {
    if Abs(dx) > Abs(dy) then Pos(p.x + Sign(dx), p.y) else Pos(p.x, p.y + Sign(dy))
  }

  /** The single-axis step shared by Greedy, Defensive and Patrol: the
      candidate is committed only if it is on the board. */
  function StepAlong(g: Grid, p: Pos, dx: int, dy: int): (r: Pos)
    ensures r == p || IsValid(g, r)
    ensures r != p <==> IsValid(g, Candidate(p, dx, dy))
    ensures Abs(dx) > Abs(dy) ==> r.y == p.y && (r.x == p.x || r.x == p.x + Sign(dx))
    ensures Abs(dx) <= Abs(dy) ==> r.x == p.x && (r.y == p.y || r.y == p.y + Sign(dy))
  {
    if Abs(dx) > Abs(dy) then
      var nx := p.x + Sign(dx);
      if IsValidPosition(g, nx, p.y) then Pos(nx, p.y) else p
    else
      var ny := p.y + Sign(dy);
      if IsValidPosition(g, p.x, ny) then Pos(p.x, ny) else p
  }

  /** Python's `min(others, key=distance)`: the FIRST element of minimal
      Manhattan distance to `p`. */
  function Nearest(others: seq<Pos>, p: Pos): (k: nat)
    requires |others| > 0
    ensures k < |others|
    ensures forall j :: 0 <= j < |others| ==> Dist(others[k], p) <= Dist(others[j], p)
    ensures forall j :: 0 <= j < k ==> Dist(others[k], p) < Dist(others[j], p)
    decreases |others|
  {
    if |others| == 1 then 0
    else
      var k := Nearest(others[..|others| - 1], p);
      if Dist(others[|others| - 1], p) < Dist(others[k], p) then |others| - 1 else k
  }

  /** `_move_random`: jump to the neighbour the random source picked, or
      stay put when there is none. */
  function MoveRandom(a: Agent, g: Grid, choice: nat): (r: Agent)
    ensures |Neighbors(g, a.pos.x, a.pos.y)| == 0 ==> r == a
    ensures |Neighbors(g, a.pos.x, a.pos.y)| > 0 ==>
              r.pos in Neighbors(g, a.pos.x, a.pos.y) && r == a.(pos := r.pos)
  {
    var ns := Neighbors(g, a.pos.x, a.pos.y);
    if |ns| == 0 then a else a.(pos := ns[choice % |ns|])
  }

  /** The random source can steer a Random step to any neighbour. */
  lemma RandomReachesEveryNeighbor(a: Agent, g: Grid, q: Pos)
    requires q in Neighbors(g, a.pos.x, a.pos.y)
    ensures exists c: nat :: MoveRandom(a, g, c).pos == q
  {
    var ns := Neighbors(g, a.pos.x, a.pos.y);
    var k :| 0 <= k < |ns| && ns[k] == q;
    assert k % |ns| == k;
    assert MoveRandom(a, g, k).pos == q;
  }

  /** The outcome of one shared-rule step relative to reference cell `t`
      (toward it if `toward`, away otherwise): only the position changes;
      the step is on x exactly when |dx| > |dy|, by one cell in the sign of
      the difference (zero counting as negative), or is dropped when that
      cell is off the board. */
  ghost predicate SingleAxisStep(a: Agent, r: Agent, g: Grid, t: Pos, toward: bool) {
    var dx := if toward then t.x - a.pos.x else a.pos.x - t.x;
    var dy := if toward then t.y - a.pos.y else a.pos.y - t.y;
    var c := Candidate(a.pos, dx, dy);
    && r == a.(pos := r.pos)
    && (IsValid(g, c) ==> r.pos == c)
    && (!IsValid(g, c) ==> r.pos == a.pos)
  }

  /** `_move_greedy`: one step toward the nearest other agent; Random when
      there is nobody else. */
  function MoveGreedy(a: Agent, g: Grid, others: seq<Pos>, choice: nat): (r: Agent)
    ensures |others| == 0 ==> r == MoveRandom(a, g, choice)
    ensures |others| > 0 ==> SingleAxisStep(a, r, g, others[Nearest(others, a.pos)], true)
  {
    if |others| == 0 then MoveRandom(a, g, choice)
    else
      var t := others[Nearest(others, a.pos)];
      a.(pos := StepAlong(g, a.pos, t.x - a.pos.x, t.y - a.pos.y))
  }

  /** `_move_defensive`: Greedy's target selection, opposite direction. */
  function MoveDefensive(a: Agent, g: Grid, others: seq<Pos>, choice: nat): (r: Agent)
    ensures |others| == 0 ==> r == MoveRandom(a, g, choice)
    ensures |others| > 0 ==> SingleAxisStep(a, r, g, others[Nearest(others, a.pos)], false)
  {
    if |others| == 0 then MoveRandom(a, g, choice)
    else
      var t := others[Nearest(others, a.pos)];
      a.(pos := StepAlong(g, a.pos, a.pos.x - t.x, a.pos.y - t.y))
  }

  /** The four-corner tour, clockwise from the top-left. */
  function Corners(g: Grid): seq<Pos> {
    [Pos(0, 0), Pos(g.width - 1, 0), Pos(g.width - 1, g.height - 1), Pos(0, g.height - 1)]
  }

  /** The waypoint list a Patrol step works with: built lazily on first use. */
  function Waypoints(a: Agent, g: Grid): (w: seq<Pos>)
    ensures |w| > 0
  {
    if |a.patrolPoints| == 0 then Corners(g) else a.patrolPoints
  }

  /** Python list indexing, where -1 names the last element. */
  function PyIndex<T>(s: seq<T>, i: int): T
    requires -|s| <= i < |s|
  {
    if i < 0 then s[|s| + i] else s[i]
  }

  /** The cursor can be used to index the waypoint list without raising. */
  predicate CursorOk(a: Agent, g: Grid) {
    -|Waypoints(a, g)| <= a.patrolIndex < |Waypoints(a, g)|
  }

  /** The waypoint a Patrol agent is heading to. */
  function ActiveWaypoint(a: Agent, g: Grid): Pos
    requires CursorOk(a, g)
  {
    PyIndex(Waypoints(a, g), a.patrolIndex)
  }

  /** `_move_patrol`: advance the cursor when standing on the active
      waypoint, then take one shared-rule step toward the active waypoint
      (the step is stated by `PatrolSharedRule`). */
  function MovePatrol(a: Agent, g: Grid): (r: Agent)
    requires CursorOk(a, g)
    ensures CursorOk(r, g)
    ensures r.strategy == a.strategy
    ensures r.patrolPoints == Waypoints(a, g)
    ensures |a.patrolPoints| == 0 ==> r.patrolPoints == Corners(g)
    ensures 0 <= a.patrolIndex ==> 0 <= r.patrolIndex < |r.patrolPoints|
    ensures a.pos != ActiveWaypoint(a, g) ==> r.patrolIndex == a.patrolIndex
    ensures a.pos == ActiveWaypoint(a, g) ==>
              r.patrolIndex == (a.patrolIndex + 1) % |r.patrolPoints|
  {
    var pts := Waypoints(a, g);
    var idx := if a.pos == PyIndex(pts, a.patrolIndex)
               then (a.patrolIndex + 1) % |pts|
               else a.patrolIndex;
    var t := PyIndex(pts, idx);
    a.(patrolPoints := pts,
       patrolIndex := idx,
       pos := StepAlong(g, a.pos, t.x - a.pos.x, t.y - a.pos.y))
  }

  /** Patrol follows the same single-axis rule as Greedy, toward the
      waypoint that is active once the cursor has advanced; only the
      position, the waypoint list and the cursor change. */
  lemma PatrolSharedRule(a: Agent, g: Grid)
    requires CursorOk(a, g)
    ensures var r := MovePatrol(a, g);
            SingleAxisStep(a.(patrolPoints := r.patrolPoints, patrolIndex := r.patrolIndex),
                           r, g, ActiveWaypoint(r, g), true)
  {
  }

  /** What `Move` needs of an agent: a usable cursor if it patrols. */
  predicate Ready(a: Agent, g: Grid) {
    a.strategy == Some(Patrol) ==> CursorOk(a, g)
  }

  /** `move(other_agents)`: dispatch on the strategy tag. */
  function Move(a: Agent, g: Grid, others: seq<Pos>, choice: nat): (r: Agent)
    requires Ready(a, g)
    ensures Ready(r, g)
    ensures r.strategy == a.strategy
    ensures a.strategy.None? ==> r == a
    ensures IsValid(g, a.pos) ==> IsValid(g, r.pos)
    ensures Dist(r.pos, a.pos) <= 1
  {
    match a.strategy
    case None => a
    case Some(Random) => MoveRandom(a, g, choice)
    case Some(Greedy) => MoveGreedy(a, g, others, choice)
    case Some(Defensive) => MoveDefensive(a, g, others, choice)
    case Some(Patrol) => MovePatrol(a, g)
  }

  /** A shared-rule step toward an on-board cell other than the current
      one is never blocked and shortens the distance by exactly one. */
  lemma StepTowardShortens(g: Grid, p: Pos, t: Pos)
    requires IsValid(g, p) && IsValid(g, t) && p != t
    ensures Dist(StepAlong(g, p, t.x - p.x, t.y - p.y), t) == Dist(p, t) - 1
  {
  }

  /** A shared-rule step away from a cell lengthens the distance by exactly
      one, unless the board edge blocks it. */
  lemma StepAwayLengthens(g: Grid, p: Pos, t: Pos)
    ensures var r := StepAlong(g, p, p.x - t.x, p.y - t.y);
            r == p || Dist(r, t) == Dist(p, t) + 1
  {
  }

  /** Greedy closes in on its nearest other agent by exactly one cell. */
  lemma GreedyApproachesNearest(a: Agent, g: Grid, others: seq<Pos>, choice: nat)
    requires |others| > 0 && IsValid(g, a.pos)
    requires var t := others[Nearest(others, a.pos)]; IsValid(g, t) && t != a.pos
    ensures var t := others[Nearest(others, a.pos)];
            Dist(MoveGreedy(a, g, others, choice).pos, t) == Dist(a.pos, t) - 1
  {
    var t := others[Nearest(others, a.pos)];
    StepTowardShortens(g, a.pos, t);
  }

  /** Defensive backs away from its nearest other agent by exactly one
      cell, or stays put when the edge blocks it. */
  lemma DefensiveRetreatsFromNearest(a: Agent, g: Grid, others: seq<Pos>, choice: nat)
    requires |others| > 0
    ensures var t := others[Nearest(others, a.pos)];
            var r := MoveDefensive(a, g, others, choice);
            r.pos == a.pos || Dist(r.pos, t) == Dist(a.pos, t) + 1
  {
    var t := others[Nearest(others, a.pos)];
    StepAwayLengthens(g, a.pos, t);
  }

  /** `n` consecutive Patrol steps. */
  function PatrolSteps(a: Agent, g: Grid, n: nat): (r: Agent)
    requires CursorOk(a, g)
    ensures CursorOk(r, g)
    decreases n
  {
    if n == 0 then a else PatrolSteps(MovePatrol(a, g), g, n - 1)
  }

  lemma {:induction false} PatrolStepsAdd(a: Agent, g: Grid, m: nat, n: nat)
    requires CursorOk(a, g)
    ensures PatrolSteps(a, g, m + n) == PatrolSteps(PatrolSteps(a, g, m), g, n)
    decreases m
  {
    if m == 0 {
      assert PatrolSteps(a, g, m) == a;
    } else {
      var b := MovePatrol(a, g);
      var k: nat := m - 1;
      PatrolStepsAdd(b, g, k, n);
      assert PatrolSteps(a, g, m) == PatrolSteps(b, g, k);
      assert PatrolSteps(a, g, m + n) == PatrolSteps(b, g, k + n);
    }
  }

  /** Away from the active waypoint, a Patrol step keeps the waypoint and
      gets one cell closer to it. */
  lemma PatrolApproachesWaypoint(a: Agent, g: Grid)
    requires CursorOk(a, g)
    requires IsValid(g, a.pos) && IsValid(g, ActiveWaypoint(a, g))
    requires a.pos != ActiveWaypoint(a, g)
    ensures var r := MovePatrol(a, g);
            && Waypoints(r, g) == Waypoints(a, g)
            && r.patrolIndex == a.patrolIndex
            && ActiveWaypoint(r, g) == ActiveWaypoint(a, g)
            && Dist(r.pos, ActiveWaypoint(a, g)) == Dist(a.pos, ActiveWaypoint(a, g)) - 1
  {
    StepTowardShortens(g, a.pos, ActiveWaypoint(a, g));
  }

  /** A Patrol agent reaches its active waypoint after exactly as many steps
      as the Manhattan distance to it, without moving the cursor. */
  lemma {:induction false} PatrolArrives(a: Agent, g: Grid, n: nat)
    requires CursorOk(a, g)
    requires IsValid(g, a.pos) && IsValid(g, ActiveWaypoint(a, g))
    requires n == Dist(a.pos, ActiveWaypoint(a, g))
    ensures var r := PatrolSteps(a, g, n);
            && r.pos == ActiveWaypoint(a, g)
            && r.patrolIndex == a.patrolIndex
            && Waypoints(r, g) == Waypoints(a, g)
            && (|a.patrolPoints| > 0 ==> r.patrolPoints == a.patrolPoints)
    decreases n
  {
    if n > 0 {
      PatrolApproachesWaypoint(a, g);
      var b := MovePatrol(a, g);
      assert IsValid(g, b.pos);
      PatrolArrives(b, g, n - 1);
    }
  }

  /** The corner the tour visits after corner k. */
  function NextCorner(k: nat): nat {
    if k == 3 then 0 else k + 1
  }

  /** The first step of a leg: on corner k with the cursor on k, the
      cursor moves on to the next corner and the agent one cell toward it. */
  lemma CornerStep(a: Agent, g: Grid, k: nat)
    requires 2 <= g.width && 2 <= g.height
    requires Waypoints(a, g) == Corners(g)
    requires k < 4 && a.patrolIndex == k && a.pos == Corners(g)[k]
    ensures var b := MovePatrol(a, g);
            var next := Corners(g)[NextCorner(k)];
            && b.patrolIndex == NextCorner(k) && b.patrolPoints == Corners(g)
            && CursorOk(b, g) && ActiveWaypoint(b, g) == next
            && IsValid(g, b.pos) && IsValid(g, next)
            && Dist(b.pos, next) == Dist(a.pos, next) - 1
  {
    var c := Corners(g);
    var next := c[NextCorner(k)];
    var b := MovePatrol(a, g);
    assert b.patrolIndex == NextCorner(k) && b.patrolPoints == c by {
      assert (k + 1) % 4 == NextCorner(k);
    }
    assert ActiveWaypoint(b, g) == next;
    StepTowardShortens(g, a.pos, next);
  }

  /** One leg of the tour: standing on corner k with the cursor on k, the
      agent walks to the next corner in `n` steps, `n` being the length of
      that edge, and ends with the cursor on it. */
  lemma PatrolLeg(a: Agent, g: Grid, k: nat, n: nat)
    requires 2 <= g.width && 2 <= g.height
    requires Waypoints(a, g) == Corners(g)
    requires k < 4 && a.patrolIndex == k && a.pos == Corners(g)[k]
    requires n == Dist(Corners(g)[k], Corners(g)[NextCorner(k)])
    ensures PatrolSteps(a, g, n).pos == Corners(g)[NextCorner(k)]
    ensures PatrolSteps(a, g, n).patrolIndex == NextCorner(k)
    ensures PatrolSteps(a, g, n).patrolPoints == Corners(g)
  {
    var b := MovePatrol(a, g);
    CornerStep(a, g, k);
    PatrolArrives(b, g, n - 1);
    assert PatrolSteps(a, g, n) == PatrolSteps(b, g, n - 1);
  }

  /** The top and right edges: half a perimeter from the top-left corner
      brings the agent to the bottom-right corner, cursor on it. */
  lemma PatrolFirstHalf(a: Agent, g: Grid)
    requires 2 <= g.width && 2 <= g.height
    requires a.patrolPoints == Corners(g)
    requires a.patrolIndex == 0 && a.pos == Pos(0, 0)
    ensures var r := PatrolSteps(a, g, (g.width - 1) + (g.height - 1));
            r.pos == Corners(g)[2] && r.patrolIndex == 2 && r.patrolPoints == Corners(g)
  {
    var c := Corners(g);
    var w, h := g.width - 1, g.height - 1;
    var b := PatrolSteps(a, g, w);
    assert b.pos == c[1] && b.patrolIndex == 1 && b.patrolPoints == c by {
      assert Waypoints(a, g) == c;
      assert Dist(c[0], c[1]) == w;
      PatrolLeg(a, g, 0, w);
    }
    var r := PatrolSteps(b, g, h);
    assert r.pos == c[2] && r.patrolIndex == 2 && r.patrolPoints == c by {
      assert Waypoints(b, g) == c;
      assert Dist(c[1], c[2]) == h;
      PatrolLeg(b, g, 1, h);
    }
    assert PatrolSteps(a, g, w + h) == r by {
      PatrolStepsAdd(a, g, w, h);
    }
  }

  /** The bottom and left edges: half a perimeter from the bottom-right
      corner brings the agent back to the top-left corner, cursor on it. */
  lemma PatrolSecondHalf(a: Agent, g: Grid)
    requires 2 <= g.width && 2 <= g.height
    requires a.patrolPoints == Corners(g)
    requires a.patrolIndex == 2 && a.pos == Corners(g)[2]
    ensures var r := PatrolSteps(a, g, (g.width - 1) + (g.height - 1));
            r.pos == Pos(0, 0) && r.patrolIndex == 0 && r.patrolPoints == Corners(g)
  {
    var c := Corners(g);
    var w, h := g.width - 1, g.height - 1;
    var b := PatrolSteps(a, g, w);
    assert b.pos == c[3] && b.patrolIndex == 3 && b.patrolPoints == c by {
      assert Waypoints(a, g) == c;
      assert Dist(c[2], c[3]) == w;
      PatrolLeg(a, g, 2, w);
    }
    var r := PatrolSteps(b, g, h);
    assert r.pos == c[0] && r.patrolIndex == 0 && r.patrolPoints == c by {
      assert Waypoints(b, g) == c;
      assert Dist(c[3], c[0]) == h;
      PatrolLeg(b, g, 3, h);
    }
    assert PatrolSteps(a, g, w + h) == r by {
      PatrolStepsAdd(a, g, w, h);
    }
  }

  /** Building the waypoints lazily or up front makes no difference to
      any later step. */
  lemma PatrolLazyInit(a: Agent, g: Grid, n: nat)
    requires CursorOk(a, g) && n > 0
    ensures CursorOk(a.(patrolPoints := Waypoints(a, g)), g)
    ensures PatrolSteps(a, g, n) == PatrolSteps(a.(patrolPoints := Waypoints(a, g)), g, n)
  {
    var a' := a.(patrolPoints := Waypoints(a, g));
    assert Waypoints(a', g) == Waypoints(a, g);
    assert MovePatrol(a, g) == MovePatrol(a', g);
  }

  /** The full tour: from the top-left corner with the cursor on it, after
      one perimeter's worth of steps the agent has visited the four corners
      in order and is back where it started, so the cycle repeats forever. */
  lemma PatrolTour(a: Agent, g: Grid)
    requires 2 <= g.width && 2 <= g.height
    requires Waypoints(a, g) == Corners(g)
    requires a.patrolIndex == 0 && a.pos == Pos(0, 0)
    ensures var r := PatrolSteps(a, g, 2 * (g.width - 1) + 2 * (g.height - 1));
            r.pos == a.pos && r.patrolIndex == a.patrolIndex && r.patrolPoints == Corners(g)
  {
    var half := (g.width - 1) + (g.height - 1);
    var a' := a.(patrolPoints := Corners(g));
    assert PatrolSteps(a, g, half + half) == PatrolSteps(a', g, half + half) by {
      PatrolLazyInit(a, g, half + half);
    }
    var b := PatrolSteps(a', g, half);
    assert b.pos == Corners(g)[2] && b.patrolIndex == 2 && b.patrolPoints == Corners(g) by {
      PatrolFirstHalf(a', g);
    }
    var r := PatrolSteps(b, g, half);
    assert r.pos == Pos(0, 0) && r.patrolIndex == 0 && r.patrolPoints == Corners(g) by {
      PatrolSecondHalf(b, g);
    }
    assert PatrolSteps(a', g, half + half) == r by {
      PatrolStepsAdd(a', g, half, half);
    }
  }
}

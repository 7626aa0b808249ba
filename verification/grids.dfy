/**
 A fixed width × height board of integer markers (grid.py).

 The numpy array `grid[y][x]` becomes a row-major `seq<seq<int>>`; every
 query validates its coordinates first and answers `None` (reads) or does
 nothing (writes) off the board.
 */
module Grids {
  import opened Options

  datatype Pos = Pos(x: int, y: int)

  function Abs(n: int): nat {
    if n < 0 then -n else n
  }

  /** Manhattan distance |dx| + |dy|. */
  function Dist(a: Pos, b: Pos): nat {
    Abs(a.x - b.x) + Abs(a.y - b.y)
  }

  datatype Grid = Grid(width: int, height: int, cells: seq<seq<int>>)

  /** The array really has `height` rows of `width` cells. */
  predicate WellFormed(g: Grid) {
    && 0 <= g.width
    && 0 <= g.height
    && |g.cells| == g.height
    && forall r :: 0 <= r < |g.cells| ==> |g.cells[r]| == g.width
  }

  /** `Grid(width, height, cell_size)`: an all-zero board. numpy refuses
      negative dimensions, so the constructor demands non-negative ones. */
  function New(width: int, height: int): (g: Grid)
    requires 0 <= width && 0 <= height
    ensures WellFormed(g)
    ensures g.width == width && g.height == height
    ensures forall r, c :: 0 <= r < height && 0 <= c < width ==> g.cells[r][c] == 0
  {
    Grid(width, height, seq(height, _ => seq(width, _ => 0)))
  }

  /** `is_valid_position`: on a well-formed board, exactly the coordinates
      that index a stored cell. */
  predicate IsValidPosition(g: Grid, x: int, y: int)
    ensures WellFormed(g) ==>
              (IsValidPosition(g, x, y) <==> 0 <= y < |g.cells| && 0 <= x < |g.cells[y]|)
  {
    0 <= x < g.width && 0 <= y < g.height
  }

  predicate IsValid(g: Grid, p: Pos) {
    IsValidPosition(g, p.x, p.y)
  }

  /** `get_cell`: the stored marker, or `None` off the board. */
  function GetCell(g: Grid, x: int, y: int): (r: Option<int>)
    requires WellFormed(g)
    ensures r.None? <==> !IsValidPosition(g, x, y)
    ensures r.Some? ==> r.value == g.cells[y][x]
  {
    if IsValidPosition(g, x, y) then Some(g.cells[y][x]) else None
  }

  /** `set_cell`: overwrite one marker; silently ignored off the board. */
  function SetCell(g: Grid, x: int, y: int, value: int): (r: Grid)
    requires WellFormed(g)
    ensures WellFormed(r)
    ensures r.width == g.width && r.height == g.height
    ensures !IsValidPosition(g, x, y) ==> r == g
  {
    if IsValidPosition(g, x, y) then
      g.(cells := g.cells[y := g.cells[y][x := value]])
    else
      g
  }

  /** A read after a write sees the written value at that cell and the old
      value everywhere else. */
  lemma GetAfterSet(g: Grid, x: int, y: int, value: int, x': int, y': int)
    requires WellFormed(g)
    ensures IsValidPosition(g, x, y) ==> GetCell(SetCell(g, x, y, value), x, y) == Some(value)
    ensures (x', y') != (x, y) ==> GetCell(SetCell(g, x, y, value), x', y') == GetCell(g, x', y')
  {
  }

  /** `clear`: every marker back to 0, dimensions kept. */
  function Clear(g: Grid): (r: Grid)
    requires WellFormed(g)
    ensures WellFormed(r)
    ensures r.width == g.width && r.height == g.height
    ensures forall x, y :: IsValidPosition(r, x, y) ==> GetCell(r, x, y) == Some(0)
  {
    New(g.width, g.height)
  }

  /** The four orthogonal candidates in the source's fixed offset order
      (0,+1), (+1,0), (0,-1), (-1,0). */
  function Candidates(x: int, y: int): seq<Pos> {
    [Pos(x, y + 1), Pos(x + 1, y), Pos(x, y - 1), Pos(x - 1, y)]
  }

  function OnBoard(g: Grid, p: Pos): seq<Pos> {
    if IsValid(g, p) then [p] else []
  }

  /** The in-order subsequence of `s` that lies on the board. */
  function KeepValid(g: Grid, s: seq<Pos>): (r: seq<Pos>)
    ensures |r| <= |s|
    ensures forall p :: p in r <==> p in s && IsValid(g, p)
    ensures forall i :: 0 <= i < |r| ==> IsValid(g, r[i])
  {
    if |s| == 0 then []
    else OnBoard(g, s[0]) + KeepValid(g, s[1..])
  }

  /** `get_neighbors`. */
  function Neighbors(g: Grid, x: int, y: int): (r: seq<Pos>)
    ensures |r| <= 4
    ensures forall i :: 0 <= i < |r| ==> IsValid(g, r[i]) && Dist(r[i], Pos(x, y)) == 1
  {
    KeepValid(g, Candidates(x, y))
  }

  /** The cells at Manhattan distance exactly 1 are the four candidates. */
  lemma UnitDistanceIsCandidate(p: Pos, x: int, y: int)
    requires Dist(p, Pos(x, y)) == 1
    ensures p in Candidates(x, y)
  {
    if p.x == x {
      assert p == Pos(x, y + 1) || p == Pos(x, y - 1);
    } else {
      assert p == Pos(x + 1, y) || p == Pos(x - 1, y);
    }
  }

  /** Independent characterisation: the neighbours are exactly the board
      cells one orthogonal step away. */
  lemma NeighborsExactly(g: Grid, x: int, y: int, p: Pos)
    ensures p in Neighbors(g, x, y) <==> IsValid(g, p) && Dist(p, Pos(x, y)) == 1
  {
    if IsValid(g, p) && Dist(p, Pos(x, y)) == 1 {
      UnitDistanceIsCandidate(p, x, y);
    }
  }

  lemma KeepValidCons(g: Grid, p: Pos, s: seq<Pos>)
    ensures KeepValid(g, [p] + s) == OnBoard(g, p) + KeepValid(g, s)
  {
    assert ([p] + s)[1..] == s;
  }

  /** `get_neighbors` spelled out candidate by candidate. */
  lemma UnfoldNeighbors(g: Grid, x: int, y: int)
    ensures Neighbors(g, x, y)
         == OnBoard(g, Pos(x, y + 1)) + (OnBoard(g, Pos(x + 1, y))
          + (OnBoard(g, Pos(x, y - 1)) + OnBoard(g, Pos(x - 1, y))))
  {
    var s3: seq<Pos> := [Pos(x - 1, y)];
    var s2 := [Pos(x, y - 1)] + s3;
    var s1 := [Pos(x + 1, y)] + s2;
    assert Candidates(x, y) == [Pos(x, y + 1)] + s1;
    KeepValidCons(g, Pos(x - 1, y), []);
    assert s3 == [Pos(x - 1, y)] + [];
    KeepValidCons(g, Pos(x, y - 1), s3);
    KeepValidCons(g, Pos(x + 1, y), s2);
    KeepValidCons(g, Pos(x, y + 1), s1);
  }

  /** An interior cell has all four neighbours, in the fixed order. */
  lemma InteriorHasFourNeighbors(g: Grid, x: int, y: int)
    requires 1 <= x < g.width - 1 && 1 <= y < g.height - 1
    ensures Neighbors(g, x, y) == Candidates(x, y)
    ensures |Neighbors(g, x, y)| == 4
  {
    UnfoldNeighbors(g, x, y);
  }

  /** A corner of a board at least 2 × 2 has exactly two neighbours. */
  lemma CornerHasTwoNeighbors(g: Grid, x: int, y: int)
    requires 2 <= g.width && 2 <= g.height
    requires x == 0 || x == g.width - 1
    requires y == 0 || y == g.height - 1
    ensures |Neighbors(g, x, y)| == 2
  {
    UnfoldNeighbors(g, x, y);
  }

  /** A 1 × 1 board offers no neighbours at all. */
  lemma SingleCellHasNoNeighbors(g: Grid)
    requires g.width == 1 && g.height == 1
    ensures Neighbors(g, 0, 0) == []
  {
    UnfoldNeighbors(g, 0, 0);
  }
}

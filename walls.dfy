/**
 * The labyrinth geometry of background.py as pure values: the 5-pixel wall
 * lattice, the 9x9 wall table and the rectangles each entry stands for, the
 * room and corridor walls, the points sampled for wall collisions, the two
 * grid-cell formulas, the door regions, the dark-square neighbourhood and the
 * gem spots.
 */
module Walls {
  import opened Common

  type Point = (int, int)

  /**
   * The points `for x in range(x0, x1 + 1, 5): for y in range(y0, y1 + 1, 5)`
   * visits: every fifth point of the closed rectangle, counted from (x0, y0),
   * column by column as the outer loop goes.
   */
  function Lattice(x0: int, y0: int, x1: int, y1: int): set<Point>
    decreases x1 - x0
  {
    if x0 > x1 then {} else LatticeColumn(x0, y0, y1) + Lattice(x0 + 5, y0, x1, y1)
  }

  /** The points the inner loop visits for one `x`. */
  function LatticeColumn(x: int, y0: int, y1: int): set<Point>
    decreases y1 - y0
  {
    if y0 > y1 then {} else {(x, y0)} + LatticeColumn(x, y0 + 5, y1)
  }

  predicate OnLattice(p: Point, x0: int, y0: int, x1: int, y1: int)
  {
    x0 <= p.0 <= x1 && y0 <= p.1 <= y1 && (p.0 - x0) % 5 == 0 && (p.1 - y0) % 5 == 0
  }

  lemma {:induction false} ColumnMember(p: Point, x: int, y0: int, y1: int)
    ensures p in LatticeColumn(x, y0, y1) <==> p.0 == x && y0 <= p.1 <= y1 && (p.1 - y0) % 5 == 0
    decreases y1 - y0
  {
    if y0 <= y1 {
      ColumnMember(p, x, y0 + 5, y1);
      if p.0 == x && y0 < p.1 <= y1 && (p.1 - y0) % 5 == 0 {
        assert (p.1 - (y0 + 5)) % 5 == 0 && y0 + 5 <= p.1;
      }
    }
  }

  /** A point is in the lattice exactly when it lies in the rectangle on the 5-pixel phase of its corner. */
  lemma {:induction false} LatticeMember(p: Point, x0: int, y0: int, x1: int, y1: int)
    ensures p in Lattice(x0, y0, x1, y1) <==> OnLattice(p, x0, y0, x1, y1)
    decreases x1 - x0
  {
    if x0 <= x1 {
      ColumnMember(p, x0, y0, y1);
      LatticeMember(p, x0 + 5, y0, x1, y1);
      if OnLattice(p, x0, y0, x1, y1) && p.0 != x0 {
        assert (p.0 - (x0 + 5)) % 5 == 0 && x0 + 5 <= p.0;
      }
    }
  }

  /** A lattice lying inside another one, on the same 5-pixel phase, is part of it. */
  lemma LatticeNested(x0: int, y0: int, x1: int, y1: int, u0: int, v0: int, u1: int, v1: int)
    requires x0 <= u0 && y0 <= v0 && u1 <= x1 && v1 <= y1
    requires (u0 - x0) % 5 == 0 && (v0 - y0) % 5 == 0
    ensures Lattice(u0, v0, u1, v1) <= Lattice(x0, y0, x1, y1)
  {
    forall p | p in Lattice(u0, v0, u1, v1) ensures p in Lattice(x0, y0, x1, y1) {
      LatticeMember(p, u0, v0, u1, v1);
      LatticeMember(p, x0, y0, x1, y1);
    }
  }

  // ---------------------------------------------------------------- wall table

  datatype Side = N | S | W | E

  /**
   * `wall_cells` of place_walls: WALL_CELLS[r][c] holds the sides of grid row
   * r + 1, column c + 1 that carry a wall.
   */
  const WALL_CELLS: seq<seq<set<Side>>> := [
    [{N, W}, {N, S}, {N, S}, {N, S}, {N}, {N, S}, {N, S}, {N, S}, {N, E}],
    [{W, E}, {N, W}, {N, S}, {N, E, S}, {W}, {N, E}, {N, W, S}, {N, E}, {W, E}],
    [{W, E}, {W, S}, {N, E}, {W, N}, {E}, {W}, {N, S}, {S, E}, {W, E}],
    [{W, E}, {W, N}, {S}, {S, E}, {W, E}, {W, S, E}, {W, N}, {N, E}, {W, E}],
    [{W, E}, {W, E}, {W, N}, {N, S}, {S}, {N, S}, {S, E}, {W, E}, {W, E}],
    [{W, E}, {W, S, E}, {W, E}, {W, N}, {N, E, S}, {W, N}, {N, S}, {S, E}, {W, E}],
    [{W, E}, {W, N}, {S, E}, {W, S}, {N, S}, {E}, {W, N, S}, {N, E}, {W, E}],
    [{W, E}, {W, S}, {N, S}, {N, S}, {N, E}, {W, S}, {N, S}, {S, E}, {W, E}],
    [{W, S}, {N, S}, {N, S}, {N, S}, {S}, {N, S}, {N, S}, {N, S}, {S, E}]
  ]

  predicate IsGridTable(t: seq<seq<set<Side>>>)
  {
    |t| == 9 && forall r :: 0 <= r < 9 ==> |t[r]| == 9
  }

  /**
   * The table closes the labyrinth: every cell of the first row has a north
   * wall, of the last row a south wall, of the first column a west wall and
   * of the last column an east wall.
   */
  lemma WallTableClosed()
    ensures IsGridTable(WALL_CELLS)
    ensures forall c :: 0 <= c < 9 ==> N in WALL_CELLS[0][c] && S in WALL_CELLS[8][c]
    ensures forall r :: 0 <= r < 9 ==> W in WALL_CELLS[r][0] && E in WALL_CELLS[r][8]
  {
  }

  /** A wall rectangle as passed to one_wall: left, top, right and bottom edges. */
  datatype Wall = Wall(left: int, top: int, right: int, bottom: int)

  /** Left edge of grid column `col` (0-based): 540-pixel corridors between 60-pixel walls. */
  function CellLeft(col: int): int { 1245 + 540 * col + 60 * col }

  /** Top edge of grid row `row` (0-based). */
  function CellTop(row: int): int { 1050 + 540 * row + 60 * row }

  /** The rectangle place_walls passes to one_wall for side `s` of cell (row, col). */
  function SideWall(row: int, col: int, s: Side): Wall
  {
    match s
    case N => Wall(CellLeft(col) - 60, CellTop(row) - 60, CellLeft(col + 1), CellTop(row))
    case S => Wall(CellLeft(col) - 60, CellTop(row + 1) - 60, CellLeft(col + 1), CellTop(row + 1))
    case W => Wall(CellLeft(col) - 60, CellTop(row) - 60, CellLeft(col), CellTop(row + 1))
    case E => Wall(CellLeft(col + 1) - 60, CellTop(row) - 60, CellLeft(col + 1), CellTop(row + 1))
  }

  /** The points one_wall adds for a rectangle, after subtracting the background offset. */
  function WallPoints(r: Wall, ox: int, oy: int): set<Point>
  {
    Lattice(r.left - ox, r.top - oy, r.right - ox, r.bottom - oy)
  }

  function SidePoints(sides: set<Side>, row: int, col: int, s: Side, ox: int, oy: int): set<Point>
  {
    if s in sides then WallPoints(SideWall(row, col, s), ox, oy) else {}
  }

  /** All wall points of cell (row, col) according to table `t`. */
  function CellWalls(t: seq<seq<set<Side>>>, row: int, col: int, ox: int, oy: int): set<Point>
    requires IsGridTable(t) && 0 <= row < 9 && 0 <= col < 9
  {
    var sides := t[row][col];
    SidePoints(sides, row, col, N, ox, oy) + SidePoints(sides, row, col, S, ox, oy)
      + SidePoints(sides, row, col, W, ox, oy) + SidePoints(sides, row, col, E, ox, oy)
  }

  /** Walls of the first `n` cells of column `col`, top to bottom. */
  function ColumnWalls(t: seq<seq<set<Side>>>, col: nat, n: nat, ox: int, oy: int): set<Point>
    requires IsGridTable(t) && col < 9 && n <= 9
  {
    if n == 0 then {} else ColumnWalls(t, col, n - 1, ox, oy) + CellWalls(t, n - 1, col, ox, oy)
  }

  /** Walls of the first `n` columns in the order place_walls visits them (columns outer, rows inner). */
  function GridWalls(t: seq<seq<set<Side>>>, n: nat, ox: int, oy: int): set<Point>
    requires IsGridTable(t) && n <= 9
  {
    if n == 0 then {} else GridWalls(t, n - 1, ox, oy) + ColumnWalls(t, n - 1, 9, ox, oy)
  }

  /** Every cell among the first `n` of its column has its walls in ColumnWalls(n). */
  lemma {:induction false} CellWallsInColumn(t: seq<seq<set<Side>>>, row: nat, col: nat, n: nat, ox: int, oy: int)
    requires IsGridTable(t) && row < n <= 9 && col < 9
    ensures CellWalls(t, row, col, ox, oy) <= ColumnWalls(t, col, n, ox, oy)
  {
    var cell, before := CellWalls(t, row, col, ox, oy), ColumnWalls(t, col, n - 1, ox, oy);
    if n - 1 != row {
      CellWallsInColumn(t, row, col, n - 1, ox, oy);
      SubsetOfUnion(cell, before, cell);
    } else {
      SubsetOfUnion(cell, cell, before);
    }
  }

  /** Each of the first `n` columns has its walls in GridWalls(n). */
  lemma {:induction false} ColumnInGrid(t: seq<seq<set<Side>>>, col: nat, n: nat, ox: int, oy: int)
    requires IsGridTable(t) && col < n <= 9
    ensures ColumnWalls(t, col, 9, ox, oy) <= GridWalls(t, n, ox, oy)
  {
    var column, before, last := ColumnWalls(t, col, 9, ox, oy), GridWalls(t, n - 1, ox, oy), ColumnWalls(t, n - 1, 9, ox, oy);
    if n - 1 != col {
      ColumnInGrid(t, col, n - 1, ox, oy);
      SubsetOfUnion(column, before, last);
    } else {
      SubsetOfUnion(column, last, before);
    }
  }

  /** Every cell of the first `n` columns has its walls in GridWalls(n). */
  lemma CellWallsInGrid(t: seq<seq<set<Side>>>, row: nat, col: nat, n: nat, ox: int, oy: int)
    requires IsGridTable(t) && row < 9 && col < n <= 9
    ensures CellWalls(t, row, col, ox, oy) <= GridWalls(t, n, ox, oy)
  {
    CellWallsInColumn(t, row, col, 9, ox, oy);
    ColumnInGrid(t, col, n, ox, oy);
  }

  /**
   * The west edge of the grid is one unbroken wall whenever every cell of
   * the first column has a west wall (as WallTableClosed shows for
   * WALL_CELLS): every lattice point of the column x = CellLeft(0) - 60, from
   * the top of the first row to the bottom of the last, is a wall point. The
   * side doors are cut into it only when they are opened.
   */
  lemma WestEdgeSolid(t: seq<seq<set<Side>>>, y: int, ox: int, oy: int)
    requires IsGridTable(t) && forall r :: 0 <= r < 9 ==> W in t[r][0]
    requires CellTop(0) - 60 - oy <= y <= CellTop(9) - oy
    requires (y - (CellTop(0) - 60 - oy)) % 5 == 0
    ensures (CellLeft(0) - 60 - ox, y) in GridWalls(t, 9, ox, oy)
  {
    var d := y - (CellTop(0) - 60 - oy);
    var row := if d / 600 > 8 then 8 else d / 600;
    var wall := SideWall(row, 0, W);
    LatticeMember((CellLeft(0) - 60 - ox, y), wall.left - ox, wall.top - oy, wall.right - ox, wall.bottom - oy);
    assert (CellLeft(0) - 60 - ox, y) in CellWalls(t, row, 0, ox, oy);
    CellWallsInGrid(t, row, 0, 9, ox, oy);
  }

  /** The east edge of the grid is likewise one unbroken wall when the last column has east walls. */
  lemma EastEdgeSolid(t: seq<seq<set<Side>>>, y: int, ox: int, oy: int)
    requires IsGridTable(t) && forall r :: 0 <= r < 9 ==> E in t[r][8]
    requires CellTop(0) - 60 - oy <= y <= CellTop(9) - oy
    requires (y - (CellTop(0) - 60 - oy)) % 5 == 0
    ensures (CellLeft(9) - 60 - ox, y) in GridWalls(t, 9, ox, oy)
  {
    var d := y - (CellTop(0) - 60 - oy);
    var row := if d / 600 > 8 then 8 else d / 600;
    var wall := SideWall(row, 8, E);
    LatticeMember((CellLeft(9) - 60 - ox, y), wall.left - ox, wall.top - oy, wall.right - ox, wall.bottom - oy);
    assert (CellLeft(9) - 60 - ox, y) in CellWalls(t, row, 8, ox, oy);
    CellWallsInGrid(t, row, 8, 9, ox, oy);
  }

  // --------------------------------------------------------- rooms, corridor

  /**
   * The walls of a room with top-left corner (sx, sy) whose inside is
   * `across` wide and `down` tall, in the order top, left, bottom, right.
   * Horizontal rooms use (w, h) and vertical rooms (h, w).
   */
  function RoomWalls(sx: int, sy: int, across: int, down: int): seq<Wall>
  {
    [Wall(sx, sy, sx + across + 60, sy + 60),
     Wall(sx, sy, sx + 60, sy + down + 60),
     Wall(sx, sy + down, sx + across + 60, sy + down + 60),
     Wall(sx + across, sy, sx + across + 60, sy + down + 60)]
  }

  /** The two walls that extend the corridor in front of the corridor room. */
  function CorridorWalls(c: Point, h: int, w: int, corridorLength: int): seq<Wall>
  {
    [Wall(c.0, c.1 - corridorLength, c.0 + 60, c.1 + w + 60),
     Wall(c.0 + h, c.1 - corridorLength, c.0 + h + 60, c.1 + w + 60)]
  }

  /** Points of a list of wall rectangles. */
  function WallsPoints(ws: seq<Wall>, ox: int, oy: int): set<Point>
  {
    if ws == [] then {} else WallsPoints(ws[..|ws| - 1], ox, oy) + WallPoints(ws[|ws| - 1], ox, oy)
  }

  /** The points of a room's four walls are the points of each wall. */
  lemma RoomWallsPoints(sx: int, sy: int, across: int, down: int, ox: int, oy: int)
    ensures WallsPoints(RoomWalls(sx, sy, across, down), ox, oy) ==
      WallPoints(Wall(sx, sy, sx + across + 60, sy + 60), ox, oy) +
      WallPoints(Wall(sx, sy, sx + 60, sy + down + 60), ox, oy) +
      WallPoints(Wall(sx, sy + down, sx + across + 60, sy + down + 60), ox, oy) +
      WallPoints(Wall(sx + across, sy, sx + across + 60, sy + down + 60), ox, oy)
  {
    var a, b := Wall(sx, sy, sx + across + 60, sy + 60), Wall(sx, sy, sx + 60, sy + down + 60);
    var c, d := Wall(sx, sy + down, sx + across + 60, sy + down + 60), Wall(sx + across, sy, sx + across + 60, sy + down + 60);
    assert [a][..0] == [] && [a, b][..1] == [a] && [a, b, c][..2] == [a, b] && [a, b, c, d][..3] == [a, b, c];
    assert WallsPoints([a], ox, oy) == WallPoints(a, ox, oy);
    assert WallsPoints([a, b], ox, oy) == WallsPoints([a], ox, oy) + WallPoints(b, ox, oy);
    assert WallsPoints([a, b, c], ox, oy) == WallsPoints([a, b], ox, oy) + WallPoints(c, ox, oy);
    assert WallsPoints([a, b, c, d], ox, oy) == WallsPoints([a, b, c], ox, oy) + WallPoints(d, ox, oy);
  }

  /** Adding a room's four walls one after the other adds the room's points. */
  lemma RoomAdded(w0: set<Point>, sx: int, sy: int, across: int, down: int, ox: int, oy: int)
    ensures w0 + WallPoints(Wall(sx, sy, sx + across + 60, sy + 60), ox, oy)
      + WallPoints(Wall(sx, sy, sx + 60, sy + down + 60), ox, oy)
      + WallPoints(Wall(sx, sy + down, sx + across + 60, sy + down + 60), ox, oy)
      + WallPoints(Wall(sx + across, sy, sx + across + 60, sy + down + 60), ox, oy)
      == w0 + WallsPoints(RoomWalls(sx, sy, across, down), ox, oy)
  {
    RoomWallsPoints(sx, sy, across, down, ox, oy);
    UnionRegroup(w0, WallPoints(Wall(sx, sy, sx + across + 60, sy + 60), ox, oy),
      WallPoints(Wall(sx, sy, sx + 60, sy + down + 60), ox, oy),
      WallPoints(Wall(sx, sy + down, sx + across + 60, sy + down + 60), ox, oy),
      WallPoints(Wall(sx + across, sy, sx + across + 60, sy + down + 60), ox, oy));
  }

  /** One more room adds the points of its four walls. */
  lemma RoomsPointsStep(rooms: seq<Point>, k: nat, across: int, down: int, ox: int, oy: int)
    requires k < |rooms|
    ensures RoomsPoints(rooms[..k + 1], across, down, ox, oy) ==
      RoomsPoints(rooms[..k], across, down, ox, oy) + WallsPoints(RoomWalls(rooms[k].0, rooms[k].1, across, down), ox, oy)
  {
    assert rooms[..k + 1][..k] == rooms[..k];
  }

  /** The points of the two corridor walls are the points of each wall. */
  lemma CorridorWallsPoints(c: Point, h: int, w: int, corridorLength: int, ox: int, oy: int)
    ensures WallsPoints(CorridorWalls(c, h, w, corridorLength), ox, oy) ==
      WallPoints(Wall(c.0, c.1 - corridorLength, c.0 + 60, c.1 + w + 60), ox, oy) +
      WallPoints(Wall(c.0 + h, c.1 - corridorLength, c.0 + h + 60, c.1 + w + 60), ox, oy)
  {
    var a, b := Wall(c.0, c.1 - corridorLength, c.0 + 60, c.1 + w + 60), Wall(c.0 + h, c.1 - corridorLength, c.0 + h + 60, c.1 + w + 60);
    assert [a][..0] == [] && [a, b][..1] == [a];
    assert WallsPoints([a], ox, oy) == WallPoints(a, ox, oy);
    assert WallsPoints([a, b], ox, oy) == WallsPoints([a], ox, oy) + WallPoints(b, ox, oy);
  }

  /** Adding the two corridor walls one after the other adds the corridor's points. */
  lemma CorridorAdded(w0: set<Point>, c: Point, h: int, w: int, corridorLength: int, ox: int, oy: int)
    ensures w0 + WallPoints(Wall(c.0, c.1 - corridorLength, c.0 + 60, c.1 + w + 60), ox, oy)
      + WallPoints(Wall(c.0 + h, c.1 - corridorLength, c.0 + h + 60, c.1 + w + 60), ox, oy)
      == w0 + WallsPoints(CorridorWalls(c, h, w, corridorLength), ox, oy)
  {
    CorridorWallsPoints(c, h, w, corridorLength, ox, oy);
    UnionAssoc(w0, WallPoints(Wall(c.0, c.1 - corridorLength, c.0 + 60, c.1 + w + 60), ox, oy),
      WallPoints(Wall(c.0 + h, c.1 - corridorLength, c.0 + h + 60, c.1 + w + 60), ox, oy));
  }

  /** Points of the walls of every room in `rooms`. */
  function RoomsPoints(rooms: seq<Point>, across: int, down: int, ox: int, oy: int): set<Point>
  {
    if rooms == [] then {}
    else
      var last := rooms[|rooms| - 1];
      RoomsPoints(rooms[..|rooms| - 1], across, down, ox, oy) + WallsPoints(RoomWalls(last.0, last.1, across, down), ox, oy)
  }

  /** Everything place_walls adds: grid cells, horizontal rooms, vertical rooms and the corridor. */
  function LabyrinthWalls(t: seq<seq<set<Side>>>, h: int, w: int, hor: seq<Point>, vert: seq<Point>,
                          corridor: Option<Point>, corridorLength: int, ox: int, oy: int): set<Point>
    requires IsGridTable(t)
  {
    GridWalls(t, 9, ox, oy) + RoomsPoints(hor, w, h, ox, oy) + RoomsPoints(vert, h, w, ox, oy)
      + (if corridor.Some? then WallsPoints(CorridorWalls(corridor.value, h, w, corridorLength), ox, oy) else {})
  }

  // ------------------------------------------------------- collision sampling

  /**
   * Whether one of the sample points lies in a wall. The collision tests
   * build a set of sample points and intersect it with the wall points;
   * AnyInWallsMeaning shows this walk over the samples says the same.
   */
  predicate AnyInWalls(points: seq<Point>, walls: set<Point>)
    decreases |points|
  {
    |points| > 0 && (points[0] in walls || AnyInWalls(points[1..], walls))
  }

  /** The walk over the samples is exactly "the sample set meets the walls". */
  lemma {:induction false} AnyInWallsMeaning(points: seq<Point>, walls: set<Point>)
    decreases |points|
    ensures AnyInWalls(points, walls) <==> (set p | p in points) * walls != {}
  {
    if |points| > 0 {
      AnyInWallsMeaning(points[1..], walls);
      var rest := set p | p in points[1..];
      assert (set p | p in points) == {points[0]} + rest;
      if points[0] in walls {
        assert points[0] in (set p | p in points) * walls;
      }
    } else {
      assert (set p | p in points) == {};
    }
  }

  /**
   * The eight points detect_wall_collision samples around the player, whose
   * centre is the stage position (cx, cy): the corners and edge midpoints of
   * the sprite box grown by 5 pixels, without the centre itself.
   */
  function PlayerProbe(cx: int, cy: int, w: int, h: int): seq<Point>
    requires w >= 0 && h >= 0
  {
    var xl, xr := cx - w / 2 - 5, cx + w / 2 + 5;
    var yt, yb := cy - h / 2 - 5, cy + h / 2 + 5;
    [(xl, yt), (xl, cy), (xl, yb), (cx, yt), (cx, yb), (xr, yt), (xr, cy), (xr, yb)]
  }

  /**
   * The player's eight samples are distinct, leave out the centre and lie
   * in the sprite box grown by 5 pixels.
   */
  lemma PlayerProbeShape(cx: int, cy: int, w: int, h: int)
    requires w >= 0 && h >= 0
    ensures |PlayerProbe(cx, cy, w, h)| == 8 && Distinct(PlayerProbe(cx, cy, w, h))
    ensures (cx, cy) !in PlayerProbe(cx, cy, w, h)
    ensures forall p :: p in PlayerProbe(cx, cy, w, h) ==>
      cx - w / 2 - 5 <= p.0 <= cx + w / 2 + 5 && cy - h / 2 - 5 <= p.1 <= cy + h / 2 + 5
  {
  }

  /**
   * The sixteen points monster_detect_wall_collision samples: a 4x4 grid at
   * 0, 1/3, 2/3 and 3/3 of the monster's width and height, from its
   * background position, column by column.
   */
  function MonsterProbe(x: int, y: int, w: int, h: int): seq<Point>
    requires w >= 0 && h >= 0
  {
    var x1, x2, x3 := x + w / 3, x + 2 * (w / 3), x + w;
    var y1, y2, y3 := y + h / 3, y + 2 * (h / 3), y + h;
    ProbeColumn(x, y, y1, y2, y3) + ProbeColumn(x1, y, y1, y2, y3) + ProbeColumn(x2, y, y1, y2, y3) + ProbeColumn(x3, y, y1, y2, y3)
  }

  /** One column of the monster's sample grid. */
  function ProbeColumn(xc: int, y0: int, y1: int, y2: int, y3: int): (r: seq<Point>)
    requires y0 <= y1 <= y2 <= y3
    ensures |r| == 4 && r[0] == (xc, y0) && r[3] == (xc, y3)
    ensures forall i :: 0 <= i < 4 ==> r[i].0 == xc && y0 <= r[i].1 <= y3
    ensures y0 < y1 < y2 < y3 ==> Distinct(r)
  {
    [(xc, y0), (xc, y1), (xc, y2), (xc, y3)]
  }

  /** Two sample lists whose points differ in their first coordinate join into a list without repeats. */
  lemma DistinctJoin(a: seq<Point>, b: seq<Point>, xa: int, xb: int)
    requires Distinct(a) && Distinct(b) && xa != xb
    requires forall i :: 0 <= i < |a| ==> a[i].0 == xa
    requires forall i :: 0 <= i < |b| ==> b[i].0 == xb
    ensures Distinct(a + b)
  {
    forall i, j | 0 <= i < j < |a + b|
      ensures (a + b)[i] != (a + b)[j]
    {
      if j >= |a| && i < |a| {
        assert (a + b)[i].0 == xa && (a + b)[j].0 == xb;
      }
    }
  }

  /**
   * A monster at least 3 pixels wide and tall is probed at sixteen distinct
   * points, among them its two opposite corners.
   */
  lemma MonsterProbeShape(x: int, y: int, w: int, h: int)
    requires w >= 3 && h >= 3
    ensures |MonsterProbe(x, y, w, h)| == 16 && Distinct(MonsterProbe(x, y, w, h))
    ensures (x, y) in MonsterProbe(x, y, w, h) && (x + w, y + h) in MonsterProbe(x, y, w, h)
  {
    var tw, th := w / 3, h / 3;
    assert 1 <= tw && 3 * tw <= w && 1 <= th && 3 * th <= h;
    var x1, x2, x3 := x + tw, x + 2 * tw, x + w;
    var y1, y2, y3 := y + th, y + 2 * th, y + h;
    var c0, c1 := ProbeColumn(x, y, y1, y2, y3), ProbeColumn(x1, y, y1, y2, y3);
    var c2, c3 := ProbeColumn(x2, y, y1, y2, y3), ProbeColumn(x3, y, y1, y2, y3);
    DistinctJoin(c0, c1, x, x1);
    DistinctJoin(c2, c3, x2, x3);
    DistinctHalves(c0 + c1, c2 + c3, x1, x2);
    assert MonsterProbe(x, y, w, h) == c0 + c1 + c2 + c3 == (c0 + c1) + (c2 + c3);
    assert c0[0] == (x, y) && (c0 + c1 + c2 + c3)[15] == c3[3] == (x + w, y + h);
  }

  /** Every point a monster of any size is probed at lies in its closed box. */
  lemma MonsterProbeInBox(x: int, y: int, w: int, h: int)
    requires w >= 0 && h >= 0
    ensures forall p :: p in MonsterProbe(x, y, w, h) ==> x <= p.0 <= x + w && y <= p.1 <= y + h
  {
    var x1, x2, x3 := x + w / 3, x + 2 * (w / 3), x + w;
    var y1, y2, y3 := y + h / 3, y + 2 * (h / 3), y + h;
    var c0, c1 := ProbeColumn(x, y, y1, y2, y3), ProbeColumn(x1, y, y1, y2, y3);
    var c2, c3 := ProbeColumn(x2, y, y1, y2, y3), ProbeColumn(x3, y, y1, y2, y3);
    assert MonsterProbe(x, y, w, h) == c0 + c1 + c2 + c3;
    forall p | p in MonsterProbe(x, y, w, h)
      ensures x <= p.0 <= x + w && y <= p.1 <= y + h
    {
      assert p in c0 || p in c1 || p in c2 || p in c3;
    }
  }

  /** Lists lying left of column `xl` and right of column `xr >= xl` (strictly apart) join without repeats. */
  lemma DistinctHalves(a: seq<Point>, b: seq<Point>, xl: int, xr: int)
    requires Distinct(a) && Distinct(b) && xl < xr
    requires forall i :: 0 <= i < |a| ==> a[i].0 <= xl
    requires forall i :: 0 <= i < |b| ==> b[i].0 >= xr
    ensures Distinct(a + b)
  {
    forall i, j | 0 <= i < j < |a + b|
      ensures (a + b)[i] != (a + b)[j]
    {
      if j >= |a| && i < |a| {
        assert (a + b)[i].0 <= xl && (a + b)[j].0 >= xr;
      }
    }
  }

  /**
   * The eight points item_detect_wall_collision samples around a held item
   * at window position (ix, iy): its box grown by 10 pixels, converted to
   * background coordinates from the stage position (sx, sy).
   */
  function ItemProbe(sx: int, sy: int, ix: int, iy: int, w: int, h: int): seq<Point>
    requires w >= 0 && h >= 0
  {
    var xl, xm, xr := sx - 500 + ix - 10, sx - 500 + ix + w / 2, sx - 500 + ix + w + 10;
    var yt, ym, yb := sy - 400 + iy - 10, sy - 400 + iy + h / 2, sy - 400 + iy + h + 10;
    [(xl, yt), (xl, ym), (xl, yb), (xm, yt), (xm, yb), (xr, yt), (xr, ym), (xr, yb)]
  }

  /** The held item is probed at eight distinct points of its box grown by 10 pixels. */
  lemma ItemProbeShape(sx: int, sy: int, ix: int, iy: int, w: int, h: int)
    requires w >= 0 && h >= 0
    ensures |ItemProbe(sx, sy, ix, iy, w, h)| == 8 && Distinct(ItemProbe(sx, sy, ix, iy, w, h))
    ensures forall p :: p in ItemProbe(sx, sy, ix, iy, w, h) ==>
      sx - 500 + ix - 10 <= p.0 <= sx - 500 + ix + w + 10 && sy - 400 + iy - 10 <= p.1 <= sy - 400 + iy + h + 10
  {
  }

  // ---------------------------------------------------------------- grid cells

  /** A 1-based labyrinth grid position. */
  datatype Cell = Cell(row: int, col: int)

  /** Background.get_new_loc: the cell of a background point (corridor width 620). */
  function BackgroundCell(x: int, y: int): Cell
  {
    Cell((y - 900 + 395) / 620, (x - 1050 + 450) / 620)
  }

  /** Player.get_new_loc (also used for monsters): the cell of a background point. */
  function CharacterCell(x: int, y: int): Cell
  {
    Cell((y - 900 + 365) / 620 + 1, (x - 1050 + 430) / 620 + 1)
  }

  /**
   * The two formulas disagree: for the same point the character formula is
   * one column further right except when x % 620 >= 600, and one row
   * further down except when (y - 535) % 620 >= 590.
   */
  lemma CellFormulasCompared(x: int, y: int)
    ensures CharacterCell(x, y).col == BackgroundCell(x, y).col + (if x % 620 >= 600 then 0 else 1)
    ensures CharacterCell(x, y).row == BackgroundCell(x, y).row + (if (y - 535) % 620 >= 590 then 0 else 1)
  {
    var q, r := x / 620, x % 620;
    assert x == 620 * q + r;
    assert (x - 620) / 620 == q - 1;
    assert (x - 600) / 620 == (if r >= 600 then q else q - 1);
    var q2, r2 := (y - 535) / 620, (y - 535) % 620;
    assert y - 535 == 620 * q2 + r2;
    assert (y - 505) / 620 == (if r2 >= 590 then q2 + 1 else q2);
  }

  /**
   * The cells place_dark darkens around a player in cell (row, col), in the
   * order north, north-east, south-west, west, north-west, south, south-east,
   * east, each only when it stays inside rows and columns 2..8.
   */
  function DarkCells(row: int, col: int): seq<Cell>
  {
    (if row > 2 then [Cell(row - 1, col)] else [])
    + (if row > 2 && col < 8 then [Cell(row - 1, col + 1)] else [])
    + (if row < 8 && col > 2 then [Cell(row + 1, col - 1)] else [])
    + (if col > 2 then [Cell(row, col - 1)] else [])
    + (if row > 2 && col > 2 then [Cell(row - 1, col - 1)] else [])
    + (if row < 8 then [Cell(row + 1, col)] else [])
    + (if row < 8 && col < 8 then [Cell(row + 1, col + 1)] else [])
    + (if col < 8 then [Cell(row, col + 1)] else [])
  }

  predicate InnerCell(c: Cell)
  {
    2 <= c.row <= 8 && 2 <= c.col <= 8
  }

  predicate Adjacent(c: Cell, d: Cell)
  {
    c != d && -1 <= c.row - d.row <= 1 && -1 <= c.col - d.col <= 1
  }

  /**
   * For a player inside the inner 7x7 block, place_dark darkens exactly the
   * neighbouring cells that are themselves inner cells: never the player's
   * own cell and nothing farther away.
   */
  lemma DarkCellsAreInnerNeighbours(row: int, col: int)
    requires InnerCell(Cell(row, col))
    ensures forall c :: c in DarkCells(row, col) <==> InnerCell(c) && Adjacent(c, Cell(row, col))
  {
    forall c | InnerCell(c) && Adjacent(c, Cell(row, col)) ensures c in DarkCells(row, col) {
      var dr, dc := c.row - row, c.col - col;
      if dr == -1 && dc == 0 { assert c == Cell(row - 1, col); }
      else if dr == -1 && dc == 1 { assert c == Cell(row - 1, col + 1); }
      else if dr == 1 && dc == -1 { assert c == Cell(row + 1, col - 1); }
      else if dr == 0 && dc == -1 { assert c == Cell(row, col - 1); }
      else if dr == -1 && dc == -1 { assert c == Cell(row - 1, col - 1); }
      else if dr == 1 && dc == 0 { assert c == Cell(row + 1, col); }
      else if dr == 1 && dc == 1 { assert c == Cell(row + 1, col + 1); }
      else { assert c == Cell(row, col + 1); }
    }
  }

  /** The inner cells in the order place_dark(all=True) darkens them (rows outer, columns inner). */
  function AllDarkCells(): (r: seq<Cell>)
    ensures |r| == 49
    ensures forall i :: 0 <= i < |r| ==> r[i] == Cell(2 + i / 7, 2 + i % 7)
  {
    seq(49, i => Cell(2 + i / 7, 2 + i % 7))
  }

  /** place_dark(all=True) covers every inner cell. */
  lemma AllDarkCellsCoverInner(c: Cell)
    requires InnerCell(c)
    ensures c in AllDarkCells()
  {
    var i := (c.row - 2) * 7 + (c.col - 2);
    assert AllDarkCells()[i] == c;
  }

  // ---------------------------------------------------------------- doors

  /** make_doors: where door i (0-based, id i + 1) goes, given the default layout arguments. */
  function DoorOrigin(mainX: (int, int), mainYTop: int, doorDist: int, corridorDoors: seq<Point>, i: nat): Point
    requires i < 6 + |corridorDoors|
  {
    if i < 3 then (mainX.0, mainYTop + doorDist * i)
    else if i < 6 then (mainX.1, mainYTop + doorDist * (i - 3))
    else corridorDoors[i - 6]
  }

  /**
   * The points an opening door removes from the walls: the door's box,
   * anchored at its position rounded down to a multiple of 5 and shifted by
   * the background offset, grown by 15 pixels on every side.
   */
  function DoorOpening(x: int, y: int, w: int, h: int, ox: int, oy: int): set<Point>
  {
    var sx, sy := x - x % 5, y - y % 5;
    Lattice(sx - ox - 15, sy - oy - 15, sx - ox + w + 15, sy - oy + h + 15)
  }

  /** The points a closing door adds to the walls: the same box shrunk by 15 pixels on every side. */
  function DoorPanel(x: int, y: int, w: int, h: int, ox: int, oy: int): set<Point>
  {
    var sx, sy := x - x % 5, y - y % 5;
    Lattice(sx - ox + 15, sy - oy + 15, sx - ox + w - 15, sy - oy + h - 15)
  }

  /** The panel a closed door puts up lies inside the area an opening door clears. */
  lemma PanelWithinOpening(x: int, y: int, w: int, h: int, ox: int, oy: int)
    ensures DoorPanel(x, y, w, h, ox, oy) <= DoorOpening(x, y, w, h, ox, oy)
  {
    var sx, sy := x - x % 5, y - y % 5;
    LatticeNested(sx - ox - 15, sy - oy - 15, sx - ox + w + 15, sy - oy + h + 15,
                  sx - ox + 15, sy - oy + 15, sx - ox + w - 15, sy - oy + h - 15);
  }

  /**
   * Opening, closing and reopening a door leaves the same walls as opening it
   * once, so a door can be closed and reopened any number of times.
   */
  lemma ReopenIsOpen(walls: set<Point>, x: int, y: int, w: int, h: int, ox: int, oy: int)
    ensures (walls - DoorOpening(x, y, w, h, ox, oy) + DoorPanel(x, y, w, h, ox, oy)) - DoorOpening(x, y, w, h, ox, oy)
         == walls - DoorOpening(x, y, w, h, ox, oy)
  {
    PanelWithinOpening(x, y, w, h, ox, oy);
  }

  // ---------------------------------------------------------------- gems

  /**
   * random_gem_locations: the background position of a gem of size (w, h)
   * assigned to column `cx` and row `cy` (1-based): centred in that cell.
   */
  function GemSpot(cx: int, cy: int, w: int, h: int): Point
  {
    (1245 + (60 + 540) * (cx - 1) + 540 / 2 - w / 2, 1050 + (60 + 540) * (cy - 1) + 540 / 2 - h / 2)
  }

  /** A gem no larger than a corridor lies wholly on the floor of the cell it was assigned. */
  lemma GemSpotInsideCell(cx: int, cy: int, w: int, h: int)
    requires 0 <= w <= 540 && 0 <= h <= 540
    ensures CellLeft(cx - 1) <= GemSpot(cx, cy, w, h).0 && GemSpot(cx, cy, w, h).0 + w <= CellLeft(cx - 1) + 540
    ensures CellTop(cy - 1) <= GemSpot(cx, cy, w, h).1 && GemSpot(cx, cy, w, h).1 + h <= CellTop(cy - 1) + 540
  {
  }

  /** Gem.in_space: the gem's position lies strictly inside the given bounds. */
  predicate InSpace(x: int, y: int, xLow: int, xHigh: int, yLow: int, yHigh: int)
  {
    x > xLow && x < xHigh && y > yLow && y < yHigh
  }
}

/**
 * The galleon ("Galeao"): five cells in a T-like shape, one fixed shape per cardinal
 * bearing. The bearing is optional here because the constructor checks it for null.
 */
module Galleons {
  import opened Wrappers
  import opened Bearings
  import opened Ships

  const SIZE: nat := 5
  const NAME: string := "Galeao"

  /** The number of cells of every footprint the builder accepts. */
  function GetSize(): (n: nat)
    ensures forall bearing, pos :: Footprint(bearing, pos).Success? ==> |Footprint(bearing, pos).value| == n
  {
    SIZE
  }

  /** Facing North: three cells along the anchor's row and two below its middle cell. */
  function NorthCells(pos: Position): seq<Position>
  {
    var r, c := pos.row, pos.col;
    [Position(r, c), Position(r, c + 1), Position(r, c + 2), Position(r + 1, c + 1), Position(r + 2, c + 1)]
  }

  /** Facing South: two cells down the anchor's column and three along the row below them. */
  function SouthCells(pos: Position): seq<Position>
  {
    var r, c := pos.row, pos.col;
    [Position(r, c), Position(r + 1, c), Position(r + 2, c - 1), Position(r + 2, c), Position(r + 2, c + 1)]
  }

  /** Facing East: the anchor, three cells of the next row ending under it, and the cell below that. */
  function EastCells(pos: Position): seq<Position>
  {
    var r, c := pos.row, pos.col;
    [Position(r, c), Position(r + 1, c - 2), Position(r + 1, c - 1), Position(r + 1, c), Position(r + 2, c)]
  }

  /** Facing West: the anchor, three cells of the next row starting under it, and the cell below the anchor's column. */
  function WestCells(pos: Position): seq<Position>
  {
    var r, c := pos.row, pos.col;
    [Position(r, c), Position(r + 1, c), Position(r + 1, c + 1), Position(r + 1, c + 2), Position(r + 2, c)]
  }

  /** The galleon's cells for a bearing; a null bearing and Unknown are refused. */
  function Footprint(bearing: Option<Compass>, pos: Position): (r: Result<seq<Position>, ShipError>)
    ensures r.Failure? <==> bearing == None || bearing == Some(Unknown)
    ensures r.Failure? ==> r.error == (if bearing == None then NullBearing else InvalidBearing)
  {
    match bearing
    case None => Failure(NullBearing)
    case Some(North) => Success(NorthCells(pos))
    case Some(East) => Success(EastCells(pos))
    case Some(South) => Success(SouthCells(pos))
    case Some(West) => Success(WestCells(pos))
    case Some(Unknown) => Failure(InvalidBearing)
  }

  method FillNorth(pos: Position) returns (cells: seq<Position>)
    ensures cells == NorthCells(pos)
  {
    cells := [];
    for i := 0 to 3
      invariant cells == seq(i, k requires 0 <= k < i => Position(pos.row, pos.col + k))
    {
      cells := cells + [Position(pos.row, pos.col + i)];
    }
    cells := cells + [Position(pos.row + 1, pos.col + 1)];
    cells := cells + [Position(pos.row + 2, pos.col + 1)];
  }

  method FillSouth(pos: Position) returns (cells: seq<Position>)
    ensures cells == SouthCells(pos)
  {
    cells := [];
    for i := 0 to 2
      invariant cells == seq(i, k requires 0 <= k < i => Position(pos.row + k, pos.col))
    {
      cells := cells + [Position(pos.row + i, pos.col)];
    }
    for j := 2 to 5
      invariant |cells| == j
      invariant cells[..2] == [Position(pos.row, pos.col), Position(pos.row + 1, pos.col)]
      invariant forall k :: 2 <= k < j ==> cells[k] == Position(pos.row + 2, pos.col + k - 3)
    {
      cells := cells + [Position(pos.row + 2, pos.col + j - 3)];
    }
  }

  method FillEast(pos: Position) returns (cells: seq<Position>)
    ensures cells == EastCells(pos)
  {
    cells := [Position(pos.row, pos.col)];
    for i := 1 to 4
      invariant |cells| == i && cells[0] == pos
      invariant forall k :: 1 <= k < i ==> cells[k] == Position(pos.row + 1, pos.col + k - 3)
    {
      cells := cells + [Position(pos.row + 1, pos.col + i - 3)];
    }
    cells := cells + [Position(pos.row + 2, pos.col)];
  }

  method FillWest(pos: Position) returns (cells: seq<Position>)
    ensures cells == WestCells(pos)
  {
    cells := [Position(pos.row, pos.col)];
    for i := 1 to 4
      invariant |cells| == i && cells[0] == pos
      invariant forall k :: 1 <= k < i ==> cells[k] == Position(pos.row + 1, pos.col + k - 1)
    {
      cells := cells + [Position(pos.row + 1, pos.col + i - 1)];
    }
    cells := cells + [Position(pos.row + 2, pos.col)];
  }

  /** Builds a galleon by dispatching on the bearing to the fill routine for that shape. */
  method New(bearing: Option<Compass>, pos: Position) returns (r: Result<Ship, ShipError>)
    ensures Footprint(bearing, pos).Failure? ==> r == Failure(Footprint(bearing, pos).error)
    ensures Footprint(bearing, pos).Success? ==> r == Success(Ship(NAME, bearing.value, Footprint(bearing, pos).value, {}))
    ensures r.Success? ==> WellFormed(r.value) && StillFloating(r.value)
  {
    if bearing == None {
      return Failure(NullBearing);
    }
    var cells: seq<Position>;
    match bearing.value {
      case North => cells := FillNorth(pos);
      case East => cells := FillEast(pos);
      case South => cells := FillSouth(pos);
      case West => cells := FillWest(pos);
      case Unknown => return Failure(InvalidBearing);
    }
    r := Success(Ship(NAME, bearing.value, cells, {}));
    FootprintShape(bearing.value, pos);
    assert cells[0] in cells;
  }

  /** For every cardinal bearing the galleon has GetSize() distinct cells and starts at the anchor. */
  lemma FootprintShape(bearing: Compass, pos: Position)
    requires bearing != Unknown
    ensures var cells := Footprint(Some(bearing), pos).value;
      |cells| == GetSize() && Distinct(cells) && cells[0] == pos
  {
  }

  /** The four bearings give four different sets of cells for the same anchor. */
  lemma ShapesDiffer(pos: Position)
    ensures var n, s, e, w := set p | p in NorthCells(pos), set p | p in SouthCells(pos),
                              set p | p in EastCells(pos), set p | p in WestCells(pos);
      n != s && n != e && n != w && s != e && s != w && e != w
  {
    var r, c := pos.row, pos.col;
    var n, s, e, w := set p | p in NorthCells(pos), set p | p in SouthCells(pos),
                      set p | p in EastCells(pos), set p | p in WestCells(pos);
    assert Position(r, c + 1) in n && Position(r, c + 1) !in s && Position(r, c + 1) !in e && Position(r, c + 1) !in w;
    assert Position(r + 2, c - 1) in s && Position(r + 2, c - 1) !in e && Position(r + 2, c - 1) !in w;
    assert Position(r + 1, c - 2) in e && Position(r + 1, c - 2) !in w;
  }
}

/** The frigate ("Fragata"): a straight run of four cells from the anchor. */
module Frigates {
  import opened Wrappers
  import opened Bearings
  import opened Ships

  const SIZE: nat := 4
  const NAME: string := "Fragata"

  /** The number of cells of every footprint the builder accepts. */
  function GetSize(): (n: nat)
    ensures forall bearing, pos :: Footprint(bearing, pos).Success? ==> |Footprint(bearing, pos).value| == n
  {
    SIZE
  }

  /**
   * The cells a frigate anchored at pos occupies: North and South give (r+i, c),
   * East and West give (r, c+i), for 0 <= i < 4; Unknown is refused.
   */
  function Footprint(bearing: Compass, pos: Position): (r: Result<seq<Position>, ShipError>)
    ensures r.Failure? <==> bearing == Unknown
    ensures r.Failure? ==> r.error == InvalidBearing
  {
    match bearing
    case North | South => Success(Line(pos, SIZE, true))
    case East | West => Success(Line(pos, SIZE, false))
    case Unknown => Failure(InvalidBearing)
  }

  /** Builds a frigate cell by cell, as the constructor's loops do. */
  method New(bearing: Compass, pos: Position) returns (r: Result<Ship, ShipError>)
    ensures Footprint(bearing, pos).Failure? ==> r == Failure(InvalidBearing)
    ensures Footprint(bearing, pos).Success? ==> r == Success(Ship(NAME, bearing, Footprint(bearing, pos).value, {}))
    ensures r.Success? ==> WellFormed(r.value) && StillFloating(r.value)
  {
    var cells: seq<Position> := [];
    match bearing {
      case North | South =>
        for i := 0 to SIZE
          invariant cells == Line(pos, i, true)
        {
          cells := cells + [Position(pos.row + i, pos.col)];
        }
        r := Success(Ship(NAME, bearing, cells, {}));
      case East | West =>
        for i := 0 to SIZE
          invariant cells == Line(pos, i, false)
        {
          cells := cells + [Position(pos.row, pos.col + i)];
        }
        r := Success(Ship(NAME, bearing, cells, {}));
      case Unknown =>
        r := Failure(InvalidBearing);
    }
    if bearing != Unknown {
      FootprintShape(bearing, pos);
      assert r.value.positions[0] in r.value.positions;
    }
  }

  /** North and South give the vertical run (r+i, c), 0 <= i < 4. */
  lemma VerticalCells(bearing: Compass, pos: Position)
    requires bearing == North || bearing == South
    ensures Footprint(bearing, pos).Success?
    ensures var cells := Footprint(bearing, pos).value;
      |cells| == 4 && forall i :: 0 <= i < 4 ==> cells[i] == Position(pos.row + i, pos.col)
  {
    assert Footprint(bearing, pos) == Success(Line(pos, SIZE, true));
  }

  /** East and West give the horizontal run (r, c+i), 0 <= i < 4. */
  lemma HorizontalCells(bearing: Compass, pos: Position)
    requires bearing == East || bearing == West
    ensures Footprint(bearing, pos).Success?
    ensures var cells := Footprint(bearing, pos).value;
      |cells| == 4 && forall i :: 0 <= i < 4 ==> cells[i] == Position(pos.row, pos.col + i)
  {
    assert Footprint(bearing, pos) == Success(Line(pos, SIZE, false));
  }

  /** The bearing selects only the axis. */
  lemma AxisOnly(pos: Position)
    ensures Footprint(North, pos) == Footprint(South, pos)
    ensures Footprint(East, pos) == Footprint(West, pos)
    ensures Footprint(North, pos) != Footprint(East, pos)
  {
    assert Footprint(North, pos).value[1] != Footprint(East, pos).value[1];
  }

  /** Every frigate has GetSize() distinct cells starting at the anchor. */
  lemma FootprintShape(bearing: Compass, pos: Position)
    requires bearing != Unknown
    ensures var cells := Footprint(bearing, pos).value;
      |cells| == GetSize() && Distinct(cells) && cells[0] == pos
  {
    LineShape(pos, SIZE, bearing == North || bearing == South);
  }
}

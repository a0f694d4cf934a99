/** The barge ("Barca"): a one-cell ship whose bearing is stored but shapes nothing. */
module Barges {
  import opened Bearings
  import opened Ships

  const SIZE: nat := 1
  const NAME: string := "Barca"

  /** The number of cells of every barge: the one cell New places at the anchor. */
  function GetSize(): (n: nat)
    ensures n == 1
  {
    SIZE
  }

  /** Builds a barge: its one cell is the anchor, whatever the bearing (Unknown included). */
  method New(bearing: Compass, pos: Position) returns (s: Ship)
    ensures s == Ship(NAME, bearing, [pos], {})
    ensures WellFormed(s) && |s.positions| == GetSize() && StillFloating(s)
  {
    var cells: seq<Position> := [];
    cells := cells + [Position(pos.row, pos.col)];
    s := Ship(NAME, bearing, cells, {});
    assert s.positions[0] in s.positions;
  }
}

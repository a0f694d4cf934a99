/**
 * The ship abstraction every ship kind shares: a board coordinate, a ship as its
 * category, bearing, footprint (the ordered cells it occupies) and the set of cells
 * already hit, together with the queries the fleet and the game ask of a ship.
 * Ship.java and Position.java are not part of this model; the definitions here are
 * the interface they are used through.
 */
module Ships {
  import opened Bearings

  /** A board coordinate, compared by value. */
  datatype Position = Position(row: int, col: int)

  datatype Ship = Ship(category: string, bearing: Compass, positions: seq<Position>, hits: set<Position>)

  /** Why a ship could not be built. */
  datatype ShipError = InvalidBearing | NullBearing

  /** No position appears twice: the cells of a footprint, or the shots of a game. */
  predicate Distinct(cells: seq<Position>)
  {
    forall i, j :: 0 <= i < j < |cells| ==> cells[i] != cells[j]
  }

  /** What every built ship satisfies: a non-empty footprint of distinct cells, and no hit outside it. */
  predicate WellFormed(s: Ship)
  {
    |s.positions| > 0 && Distinct(s.positions) && s.hits <= set p | p in s.positions
  }

  predicate Occupies(s: Ship, p: Position)
  {
    p in s.positions
  }

  /** A ship floats while some cell of its footprint has not been hit. */
  predicate StillFloating(s: Ship)
  {
    exists p :: p in s.positions && p !in s.hits
  }

  /** A shot at a ship's cell marks it hit; a shot elsewhere changes nothing. */
  function Shoot(s: Ship, p: Position): (r: Ship)
    ensures r.category == s.category && r.bearing == s.bearing && r.positions == s.positions
    ensures s.hits <= r.hits && r.hits - s.hits <= {p}
    ensures p in r.hits <==> p in s.hits || Occupies(s, p)
  {
    if Occupies(s, p) then s.(hits := s.hits + {p}) else s
  }

  /** Shooting keeps the hits inside the footprint. */
  lemma ShootKeepsWellFormed(s: Ship, p: Position)
    requires WellFormed(s)
    ensures WellFormed(Shoot(s, p))
  {
  }

  /** Once every cell but the one shot is hit, the ship stops floating; otherwise it floats on. */
  lemma ShootSinks(s: Ship, p: Position)
    requires StillFloating(s)
    ensures !StillFloating(Shoot(s, p)) <==> Occupies(s, p) && forall q :: q in s.positions && q != p ==> q in s.hits
  {
  }

  /** The smallest element of a non-empty sequence. */
  function Min(xs: seq<int>): (m: int)
    requires |xs| > 0
    ensures m in xs
    ensures forall i :: 0 <= i < |xs| ==> m <= xs[i]
  {
    if |xs| == 1 then xs[0]
    else
      var t := Min(xs[1..]);
      if xs[0] <= t then xs[0] else t
  }

  /** The largest element of a non-empty sequence. */
  function Max(xs: seq<int>): (m: int)
    requires |xs| > 0
    ensures m in xs
    ensures forall i :: 0 <= i < |xs| ==> xs[i] <= m
  {
    if |xs| == 1 then xs[0]
    else
      var t := Max(xs[1..]);
      if xs[0] >= t then xs[0] else t
  }

  function Rows(cells: seq<Position>): (r: seq<int>)
    ensures |r| == |cells| && forall i :: 0 <= i < |cells| ==> r[i] == cells[i].row
  {
    seq(|cells|, i requires 0 <= i < |cells| => cells[i].row)
  }

  function Cols(cells: seq<Position>): (r: seq<int>)
    ensures |r| == |cells| && forall i :: 0 <= i < |cells| ==> r[i] == cells[i].col
  {
    seq(|cells|, i requires 0 <= i < |cells| => cells[i].col)
  }

  /** The extreme columns and rows of a footprint. */
  function LeftMostPos(s: Ship): int
    requires |s.positions| > 0
  {
    Min(Cols(s.positions))
  }

  function RightMostPos(s: Ship): int
    requires |s.positions| > 0
  {
    Max(Cols(s.positions))
  }

  function TopMostPos(s: Ship): int
    requires |s.positions| > 0
  {
    Min(Rows(s.positions))
  }

  function BottomMostPos(s: Ship): int
    requires |s.positions| > 0
  {
    Max(Rows(s.positions))
  }

  /** Two cells touch when they are equal or neighbours, diagonals included. */
  predicate Touching(p: Position, q: Position)
  {
    -1 <= p.row - q.row <= 1 && -1 <= p.col - q.col <= 1
  }

  /**
   * The spacing rule between two ships. Its definition lives in Ship.java, which is not
   * part of this model; it is taken to be "some cell of one touches some cell of the other".
   */
  predicate TooCloseTo(a: Ship, b: Ship)
  {
    exists p, q :: p in a.positions && q in b.positions && Touching(p, q)
  }

  /** Ships that are not too close share no cell. */
  lemma NotTooCloseDisjoint(a: Ship, b: Ship, p: Position)
    requires !TooCloseTo(a, b)
    ensures !(Occupies(a, p) && Occupies(b, p))
  {
    if Occupies(a, p) && Occupies(b, p) {
      assert Touching(p, p);
    }
  }

  /** The spacing rule does not depend on which ship asks. */
  lemma TooCloseSymmetric(a: Ship, b: Ship)
    ensures TooCloseTo(a, b) <==> TooCloseTo(b, a)
  {
    if TooCloseTo(a, b) {
      var p, q :| p in a.positions && q in b.positions && Touching(p, q);
      assert Touching(q, p);
    }
    if TooCloseTo(b, a) {
      var p, q :| p in b.positions && q in a.positions && Touching(p, q);
      assert Touching(q, p);
    }
  }

  /**
   * The straight run of n cells starting at the anchor, going down the rows when
   * vertical and along the columns otherwise.
   */
  function Line(anchor: Position, n: nat, vertical: bool): seq<Position>
  {
    seq(n, i requires 0 <= i < n =>
      if vertical then Position(anchor.row + i, anchor.col) else Position(anchor.row, anchor.col + i))
  }

  /** A run has the requested length, begins at the anchor, has distinct cells and keeps one axis fixed. */
  lemma LineShape(anchor: Position, n: nat, vertical: bool)
    requires n > 0
    ensures var cells := Line(anchor, n, vertical);
      && |cells| == n
      && cells[0] == anchor
      && Distinct(cells)
      && (forall i :: 0 <= i < n ==>
            if vertical then cells[i].col == anchor.col && cells[i].row == anchor.row + i
            else cells[i].row == anchor.row && cells[i].col == anchor.col + i)
  {
  }
}

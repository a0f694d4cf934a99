/**
 * The fleet: an ordered list of ships that admits a ship only when the list is not
 * over its size guard, the ship lies on the board and no ship already placed is too
 * close to it. Ships are values here and a ship's identity is its index in the list.
 */
module Fleets {
  import opened Wrappers
  import opened Ships

  /** Side of the square board and the fleet-size bound (declared in IFleet.java, not part of this model). */
  const BOARD_SIZE: int := 10
  const FLEET_SIZE: int := 10

  /** Placement bounds: the extreme cells of the ship within 0 .. BOARD_SIZE - 1 on both axes. */
  function IsInsideBoard(s: Ship): (b: bool)
    requires |s.positions| > 0
    ensures b <==> forall p :: p in s.positions ==> 0 <= p.row < BOARD_SIZE && 0 <= p.col < BOARD_SIZE
  {
    LeftMostPos(s) >= 0
    && RightMostPos(s) <= BOARD_SIZE - 1
    && TopMostPos(s) >= 0
    && BottomMostPos(s) <= BOARD_SIZE - 1
  }

  /** Some ship already placed is too close to s. */
  predicate CloseToAny(ships: seq<Ship>, s: Ship)
  {
    exists i :: 0 <= i < |ships| && TooCloseTo(ships[i], s)
  }

  /** The admission guard of addShip, with its "<=" on the fleet size. */
  predicate Admits(ships: seq<Ship>, s: Ship)
    requires |s.positions| > 0
  {
    |ships| <= FLEET_SIZE && IsInsideBoard(s) && !CloseToAny(ships, s)
  }

  /**
   * What every fleet built by admissions satisfies: at most FLEET_SIZE + 1 ships, each
   * non-empty and on the board, and no earlier ship too close to a later one.
   */
  predicate WellPlaced(ships: seq<Ship>)
  {
    && |ships| <= FLEET_SIZE + 1
    && (forall i :: 0 <= i < |ships| ==> |ships[i].positions| > 0 && IsInsideBoard(ships[i]))
    && (forall i, j :: 0 <= i < j < |ships| ==> !TooCloseTo(ships[i], ships[j]))
  }

  /** The index of the first ship, in list order, that occupies pos; None when none does. */
  function ShipIndexAt(ships: seq<Ship>, pos: Position): (r: Option<nat>)
    ensures r.None? <==> forall i :: 0 <= i < |ships| ==> !Occupies(ships[i], pos)
    ensures r.Some? ==> r.value < |ships| && Occupies(ships[r.value], pos)
                        && forall j :: 0 <= j < r.value ==> !Occupies(ships[j], pos)
  {
    if |ships| == 0 then None
    else if Occupies(ships[0], pos) then Some(0)
    else match ShipIndexAt(ships[1..], pos)
      case None => None
      case Some(k) => Some(k + 1)
  }

  /** The ships of a category, in list order. */
  function ShipsLike(ships: seq<Ship>, category: string): (r: seq<Ship>)
    ensures |r| <= |ships|
    ensures forall s :: s in r <==> s in ships && s.category == category
  {
    if |ships| == 0 then []
    else (if ships[0].category == category then [ships[0]] else []) + ShipsLike(ships[1..], category)
  }

  /** The ships still floating, in list order. */
  function FloatingShips(ships: seq<Ship>): (r: seq<Ship>)
    ensures |r| <= |ships|
    ensures forall s :: s in r <==> s in ships && StillFloating(s)
  {
    if |ships| == 0 then []
    else (if StillFloating(ships[0]) then [ships[0]] else []) + FloatingShips(ships[1..])
  }

  /** Filtering by category keeps order: it distributes over concatenation. */
  lemma {:induction false} ShipsLikeAppend(a: seq<Ship>, b: seq<Ship>, category: string)
    ensures ShipsLike(a + b, category) == ShipsLike(a, category) + ShipsLike(b, category)
  {
    if |a| == 0 {
      assert a + b == b;
    } else {
      assert (a + b)[1..] == a[1..] + b;
      ShipsLikeAppend(a[1..], b, category);
    }
  }

  /** Filtering by floating keeps order: it distributes over concatenation. */
  lemma {:induction false} FloatingShipsAppend(a: seq<Ship>, b: seq<Ship>)
    ensures FloatingShips(a + b) == FloatingShips(a) + FloatingShips(b)
  {
    if |a| == 0 {
      assert a + b == b;
    } else {
      assert (a + b)[1..] == a[1..] + b;
      FloatingShipsAppend(a[1..], b);
    }
  }

  /** Replacing one ship changes the number of floating ships only by that ship's change. */
  lemma {:induction false} FloatingShipsUpdate(ships: seq<Ship>, k: nat, s: Ship)
    requires k < |ships|
    ensures |FloatingShips(ships[k := s])|
         == |FloatingShips(ships)| - (if StillFloating(ships[k]) then 1 else 0) + (if StillFloating(s) then 1 else 0)
  {
    if k == 0 {
      assert ships[k := s][1..] == ships[1..];
    } else {
      assert ships[k := s][1..] == ships[1..][k - 1 := s];
      FloatingShipsUpdate(ships[1..], k - 1, s);
    }
  }

  /** When every ship floats, the floating ships are the whole fleet. */
  lemma {:induction false} AllFloating(ships: seq<Ship>)
    requires forall i :: 0 <= i < |ships| ==> StillFloating(ships[i])
    ensures FloatingShips(ships) == ships
  {
    if |ships| > 0 {
      AllFloating(ships[1..]);
    }
  }

  /** Admission keeps the placement invariant. */
  lemma AdmitKeepsWellPlaced(ships: seq<Ship>, s: Ship)
    requires WellPlaced(ships) && |s.positions| > 0 && Admits(ships, s)
    ensures WellPlaced(ships + [s])
  {
    var t := ships + [s];
    forall i, j | 0 <= i < j < |t| ensures !TooCloseTo(t[i], t[j]) {
      if j == |ships| {
        assert !TooCloseTo(ships[i], s);
      }
    }
  }

  /** In a well-placed fleet no two ships share a cell, so at most one ship occupies pos. */
  lemma OccupantUnique(ships: seq<Ship>, pos: Position, i: nat, j: nat)
    requires WellPlaced(ships) && i < |ships| && j < |ships|
    requires Occupies(ships[i], pos) && Occupies(ships[j], pos)
    ensures i == j
  {
    if i < j {
      NotTooCloseDisjoint(ships[i], ships[j], pos);
    } else if j < i {
      NotTooCloseDisjoint(ships[j], ships[i], pos);
    }
  }

  /** Once FLEET_SIZE + 1 ships are placed, every further ship is refused, however it is placed. */
  lemma FullFleetRefuses(ships: seq<Ship>, s: Ship)
    requires |ships| == FLEET_SIZE + 1 && |s.positions| > 0
    ensures !Admits(ships, s)
  {
  }

  /** With FLEET_SIZE ships placed, the guard still admits a ship that fits: the fleet can reach FLEET_SIZE + 1. */
  lemma FleetGuardAdmitsOneMore(ships: seq<Ship>, s: Ship)
    requires |ships| == FLEET_SIZE && |s.positions| > 0 && IsInsideBoard(s) && !CloseToAny(ships, s)
    ensures Admits(ships, s)
  {
  }

  class Fleet {
    var ships: seq<Ship>

    ghost predicate Valid()
      reads this
    {
      WellPlaced(ships)
    }

    /** An empty fleet. */
    constructor()
      ensures ships == [] && Valid()
    {
      ships := [];
    }

    method GetShips() returns (r: seq<Ship>)
      requires Valid()
      ensures r == ships && |r| <= FLEET_SIZE + 1
    {
      r := ships;
    }

    /** Appends s when the size guard, the board bounds and the spacing rule all allow it. */
    method AddShip(s: Ship) returns (ok: bool)
      requires Valid() && |s.positions| > 0
      modifies this
      ensures Valid()
      ensures ok == (|old(ships)| <= FLEET_SIZE && IsInsideBoard(s) && !CloseToAny(old(ships), s))
      ensures ships == if ok then old(ships) + [s] else old(ships)
    {
      ok := false;
      if |ships| <= FLEET_SIZE && IsInsideBoard(s) {
        var risk := CollisionRisk(s);
        if !risk {
          AdmitKeepsWellPlaced(ships, s);
          ships := ships + [s];
          ok := true;
        }
      }
    }

    /** Whether some ship already placed is too close to s, scanning in list order. */
    method CollisionRisk(s: Ship) returns (risk: bool)
      ensures risk == CloseToAny(ships, s)
    {
      for i := 0 to |ships|
        invariant forall j :: 0 <= j < i ==> !TooCloseTo(ships[j], s)
      {
        if TooCloseTo(ships[i], s) {
          return true;
        }
      }
      return false;
    }

    /** The index of the first ship occupying pos, or None. */
    method ShipAt(pos: Position) returns (r: Option<nat>)
      ensures r == ShipIndexAt(ships, pos)
      ensures r.Some? ==> r.value < |ships| && Occupies(ships[r.value], pos)
    {
      for i := 0 to |ships|
        invariant forall j :: 0 <= j < i ==> !Occupies(ships[j], pos)
      {
        if Occupies(ships[i], pos) {
          return Some(i);
        }
      }
      return None;
    }

    /** The ships of a category, collected in list order. */
    method GetShipsLike(category: string) returns (r: seq<Ship>)
      ensures r == ShipsLike(ships, category)
    {
      r := [];
      for i := 0 to |ships|
        invariant r == ShipsLike(ships[..i], category)
      {
        ShipsLikeAppend(ships[..i], [ships[i]], category);
        assert ships[..i + 1] == ships[..i] + [ships[i]];
        assert ShipsLike([ships[i]], category) == if ships[i].category == category then [ships[i]] else [] by {
          assert [ships[i]][1..] == [];
        }
        if ships[i].category == category {
          r := r + [ships[i]];
        }
      }
      assert ships[..|ships|] == ships;
    }

    /** The ships still floating, collected in list order. */
    method GetFloatingShips() returns (r: seq<Ship>)
      ensures r == FloatingShips(ships)
    {
      r := [];
      for i := 0 to |ships|
        invariant r == FloatingShips(ships[..i])
      {
        FloatingShipsAppend(ships[..i], [ships[i]]);
        assert ships[..i + 1] == ships[..i] + [ships[i]];
        if StillFloating(ships[i]) {
          r := r + [ships[i]];
        }
      }
      assert ships[..|ships|] == ships;
    }
  }
}

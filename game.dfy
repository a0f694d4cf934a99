/**
 * A game session: a fleet, the ordered list of valid shots fired so far, and four
 * counters (invalid shots, repeated shots, hits, sunk ships). Each shot is classified,
 * in this order, as invalid, repeated, miss, hit, or hit-and-sunk.
 */
module Games {
  import opened Wrappers
  import opened Ships
  import opened Fleets
  import Bearings
  import Barges
  import Carracks

  /** Everything a shot can change: the fleet's ships (their hits), the shots and the counters. */
  datatype GameState = GameState(
    ships: seq<Ship>,
    shots: seq<Position>,
    invalidShots: nat,
    repeatedShots: nat,
    hits: nat,
    sinks: nat)

  /** The shot bound as written: row and column from 0 up to and including BOARD_SIZE. */
  predicate ValidShot(pos: Position): (ok: bool)
    ensures 0 <= pos.row < BOARD_SIZE && 0 <= pos.col < BOARD_SIZE ==> ok
    ensures ok ==> 0 <= pos.row && 0 <= pos.col
  {
    0 <= pos.row <= BOARD_SIZE && 0 <= pos.col <= BOARD_SIZE
  }

  /**
   * The shot bound is one wider than the board: every cell a placed ship can occupy is a
   * valid shot, and so is row or column BOARD_SIZE, but nothing below 0 or past BOARD_SIZE.
   */
  lemma ShotBoundWiderThanBoard(pos: Position)
    ensures 0 <= pos.row < BOARD_SIZE && 0 <= pos.col < BOARD_SIZE ==> ValidShot(pos)
    ensures ValidShot(Position(BOARD_SIZE, pos.col)) <==> 0 <= pos.col <= BOARD_SIZE
    ensures ValidShot(Position(pos.row, BOARD_SIZE)) <==> 0 <= pos.row <= BOARD_SIZE
    ensures ValidShot(pos) ==> 0 <= pos.row <= BOARD_SIZE && 0 <= pos.col <= BOARD_SIZE
    ensures !ValidShot(Position(pos.row, -1)) && !ValidShot(Position(BOARD_SIZE + 1, pos.col))
  {
  }

  /**
   * One shot at pos: the new state and the index of the ship it sank, if any.
   * Invalid, then repeated, are checked first and only count; otherwise the shot is
   * recorded and the first ship at pos, if any, is hit.
   */
  function FireStep(st: GameState, pos: Position): (r: (GameState, Option<nat>))
    ensures |r.0.ships| == |st.ships| && |st.shots| <= |r.0.shots| <= |st.shots| + 1
    ensures r.1.Some? ==> r.1.value < |st.ships| && !StillFloating(r.0.ships[r.1.value])
  {
    if !ValidShot(pos) then
      (st.(invalidShots := st.invalidShots + 1), None)
    else if pos in st.shots then
      (st.(repeatedShots := st.repeatedShots + 1), None)
    else
      var recorded := st.(shots := st.shots + [pos]);
      match ShipIndexAt(st.ships, pos)
      case None => (recorded, None)
      case Some(k) =>
        var hit := Shoot(st.ships[k], pos);
        var after := recorded.(ships := st.ships[k := hit], hits := st.hits + 1);
        if !StillFloating(hit) then (after.(sinks := after.sinks + 1), Some(k)) else (after, None)
  }

  /** The state every game keeps from its start. */
  predicate Inv(st: GameState)
  {
    && WellPlaced(st.ships)
    && Distinct(st.shots)
    && (forall i :: 0 <= i < |st.shots| ==> ValidShot(st.shots[i]))
    && st.sinks <= st.hits <= |st.shots|
  }

  /**
   * Sink accounting for a game whose ships started unhit: every hit comes from a recorded
   * shot, and the sunk counter plus the ships still floating is the number of ships.
   */
  predicate Accounted(st: GameState)
  {
    && (forall k, p :: 0 <= k < |st.ships| && p in st.ships[k].hits ==> p in st.shots)
    && st.sinks + |FloatingShips(st.ships)| == |st.ships|
  }

  /** A shot only ever marks the hit on one ship: positions and categories do not change. */
  lemma SamePositionsWellPlaced(a: seq<Ship>, b: seq<Ship>)
    requires |a| == |b| && forall i :: 0 <= i < |a| ==> a[i].positions == b[i].positions
    requires WellPlaced(a)
    ensures WellPlaced(b)
  {
    forall i | 0 <= i < |b| ensures |b[i].positions| > 0 && IsInsideBoard(b[i]) {
      assert |a[i].positions| > 0 && IsInsideBoard(a[i]);
    }
    forall i, j | 0 <= i < j < |b| ensures !TooCloseTo(b[i], b[j]) {
      assert !TooCloseTo(a[i], a[j]);
    }
  }

  /** Recording a new valid shot keeps the shot list distinct and within the shot bound. */
  lemma RecordKeepsShots(shots: seq<Position>, pos: Position)
    requires Distinct(shots) && forall i :: 0 <= i < |shots| ==> ValidShot(shots[i])
    requires ValidShot(pos) && pos !in shots
    ensures Distinct(shots + [pos]) && forall i :: 0 <= i < |shots + [pos]| ==> ValidShot((shots + [pos])[i])
  {
    var t := shots + [pos];
    forall i, j | 0 <= i < j < |t| ensures t[i] != t[j] {
      if j == |shots| {
        assert t[i] == shots[i];
      }
    }
  }

  /** Every shot keeps the game's invariant. */
  lemma FireStepKeepsInv(st: GameState, pos: Position)
    requires Inv(st)
    ensures Inv(FireStep(st, pos).0)
  {
    if ValidShot(pos) && pos !in st.shots {
      RecordKeepsShots(st.shots, pos);
      match ShipIndexAt(st.ships, pos)
      case None =>
      case Some(k) =>
        FireStepOnHit(st, pos, k);
        HitKeepsWellPlaced(st.ships, k, pos);
    }
  }

  /** Marking a hit on one ship of a well-placed fleet leaves it well placed. */
  lemma HitKeepsWellPlaced(ships: seq<Ship>, k: nat, pos: Position)
    requires WellPlaced(ships) && k < |ships|
    ensures WellPlaced(ships[k := Shoot(ships[k], pos)])
  {
    var ships' := ships[k := Shoot(ships[k], pos)];
    assert forall i :: 0 <= i < |ships'| ==> ships'[i].positions == ships[i].positions;
    SamePositionsWellPlaced(ships, ships');
  }

  /** A game before its first shot keeps the invariant, and is accounted when no ship was hit. */
  lemma NewGameInv(ships: seq<Ship>)
    requires WellPlaced(ships)
    ensures Inv(GameState(ships, [], 0, 0, 0, 0))
    ensures (forall k :: 0 <= k < |ships| ==> ships[k].hits == {}) ==> Accounted(GameState(ships, [], 0, 0, 0, 0))
  {
    if forall k :: 0 <= k < |ships| ==> ships[k].hits == {} {
      forall k | 0 <= k < |ships| ensures StillFloating(ships[k]) {
        assert ships[k].positions[0] in ships[k].positions;
      }
      AllFloating(ships);
    }
  }

  /**
   * Each shot is classified exactly once: exactly one of the invalid counter, the repeated
   * counter and the shot list grows, by one; no counter ever decreases and the shot list
   * only grows at its end.
   */
  lemma FireStepCounts(st: GameState, pos: Position)
    ensures var st' := FireStep(st, pos).0;
      && st'.invalidShots >= st.invalidShots && st'.repeatedShots >= st.repeatedShots
      && st'.hits >= st.hits && st'.sinks >= st.sinks
      && st'.shots[..|st.shots|] == st.shots
      && st'.invalidShots + st'.repeatedShots + |st'.shots| == st.invalidShots + st.repeatedShots + |st.shots| + 1
      && (st'.invalidShots == st.invalidShots + 1 <==> !ValidShot(pos))
      && (st'.repeatedShots == st.repeatedShots + 1 <==> ValidShot(pos) && pos in st.shots)
      && (st'.shots == st.shots + [pos] <==> ValidShot(pos) && pos !in st.shots)
  {
    var st' := FireStep(st, pos).0;
    if ValidShot(pos) && pos !in st.shots {
      assert st'.shots == st.shots + [pos];
      assert st'.shots[..|st.shots|] == st.shots;
    } else {
      assert st'.shots == st.shots;
      assert st.shots + [pos] != st.shots by {
        assert |st.shots + [pos]| != |st.shots|;
      }
    }
  }

  /** An invalid or repeated shot touches nothing but its own counter, and sinks nothing. */
  lemma FireStepRejected(st: GameState, pos: Position)
    requires !ValidShot(pos) || pos in st.shots
    ensures var (st', sunk) := FireStep(st, pos);
      && sunk == None
      && st'.ships == st.ships && st'.shots == st.shots && st'.hits == st.hits && st'.sinks == st.sinks
      && (if ValidShot(pos) then st'.invalidShots == st.invalidShots && st'.repeatedShots == st.repeatedShots + 1
          else st'.invalidShots == st.invalidShots + 1 && st'.repeatedShots == st.repeatedShots)
  {
  }

  /**
   * The hit counter grows, by exactly one, just when a new valid shot lands on a ship,
   * and then that ship, and only it, is marked hit at pos.
   */
  lemma FireStepHit(st: GameState, pos: Position)
    ensures var st' := FireStep(st, pos).0;
      && (st'.hits == st.hits + 1 <==> ValidShot(pos) && pos !in st.shots && ShipIndexAt(st.ships, pos).Some?)
      && (st'.hits != st.hits + 1 ==> st'.hits == st.hits && st'.ships == st.ships)
      && (st'.hits == st.hits + 1 ==>
            var k := ShipIndexAt(st.ships, pos).value;
            st'.ships == st.ships[k := Shoot(st.ships[k], pos)] && pos in st'.ships[k].hits)
  {
  }

  /** A new valid shot at the cell of ship k: the whole next state, written out. */
  lemma FireStepOnHit(st: GameState, pos: Position, k: nat)
    requires ValidShot(pos) && pos !in st.shots && ShipIndexAt(st.ships, pos) == Some(k)
    ensures k < |st.ships|
    ensures var hit := Shoot(st.ships[k], pos);
      FireStep(st, pos)
      == (st.(shots := st.shots + [pos], ships := st.ships[k := hit], hits := st.hits + 1,
              sinks := if StillFloating(hit) then st.sinks else st.sinks + 1),
          if StillFloating(hit) then None else Some(k))
  {
  }

  /**
   * A ship is returned as sunk just when the sunk counter grows, and it is the ship at pos,
   * now no longer floating.
   */
  lemma FireStepSunk(st: GameState, pos: Position)
    ensures var (st', sunk) := FireStep(st, pos);
      && (sunk.Some? <==> st'.sinks == st.sinks + 1)
      && (sunk.None? ==> st'.sinks == st.sinks)
      && (sunk.Some? ==>
            && ValidShot(pos) && pos !in st.shots
            && ShipIndexAt(st.ships, pos) == sunk
            && st'.hits == st.hits + 1
            && !StillFloating(st'.ships[sunk.value]))
      && (ValidShot(pos) && pos !in st.shots && ShipIndexAt(st.ships, pos).Some? ==>
            var k := ShipIndexAt(st.ships, pos).value;
            sunk.Some? <==> !StillFloating(st'.ships[k]))
  {
  }

  /** Every hit comes from a recorded shot: marking the hit of a new shot keeps that so. */
  lemma HitsStayRecorded(ships: seq<Ship>, shots: seq<Position>, k: nat, pos: Position)
    requires k < |ships|
    requires forall j, p :: 0 <= j < |ships| && p in ships[j].hits ==> p in shots
    ensures var ships' := ships[k := Shoot(ships[k], pos)];
      forall j, p :: 0 <= j < |ships'| && p in ships'[j].hits ==> p in shots + [pos]
  {
    var ships' := ships[k := Shoot(ships[k], pos)];
    forall j, p | 0 <= j < |ships'| && p in ships'[j].hits ensures p in shots + [pos] {
      if p != pos {
        assert p in ships[j].hits;
      }
    }
  }

  /** In a game whose ships started unhit, every shot keeps the sink accounting. */
  lemma FireStepAccounted(st: GameState, pos: Position)
    requires Inv(st) && Accounted(st)
    ensures Accounted(FireStep(st, pos).0)
  {
    if ValidShot(pos) && pos !in st.shots {
      match ShipIndexAt(st.ships, pos)
      case None =>
      case Some(k) =>
        var hit := Shoot(st.ships[k], pos);
        SankWasFloating(st, pos, k);
        FloatingShipsUpdate(st.ships, k, hit);
        HitsStayRecorded(st.ships, st.shots, k, pos);
    }
  }

  /** A new valid shot can only land on a ship that is still floating. */
  lemma SankWasFloating(st: GameState, pos: Position, k: nat)
    requires Accounted(st) && pos !in st.shots
    requires k < |st.ships| && Occupies(st.ships[k], pos)
    ensures StillFloating(st.ships[k])
  {
    assert pos in st.ships[k].positions && pos !in st.ships[k].hits;
  }

  /**
   * A ship is reported sunk on the very shot that hits its last unhit cell and on no other:
   * just before, it was still floating.
   */
  lemma SunkExactlyOnce(st: GameState, pos: Position)
    requires Inv(st) && Accounted(st)
    ensures var (st', sunk) := FireStep(st, pos);
      sunk.Some? ==>
        && sunk.value < |st.ships|
        && StillFloating(st.ships[sunk.value]) && !StillFloating(st'.ships[sunk.value])
        && |FloatingShips(st'.ships)| == |FloatingShips(st.ships)| - 1
  {
    var (st', sunk) := FireStep(st, pos);
    if sunk.Some? {
      var k := sunk.value;
      SankWasFloating(st, pos, k);
      FloatingShipsUpdate(st.ships, k, st'.ships[k]);
    }
  }

  /** Firing twice at the same valid cell: the second shot only counts as repeated. */
  lemma FireTwice(st: GameState, pos: Position)
    requires ValidShot(pos)
    ensures var st1 := FireStep(st, pos).0;
      FireStep(st1, pos) == (st1.(repeatedShots := st1.repeatedShots + 1), None)
  {
    var st1 := FireStep(st, pos).0;
    assert pos in st1.shots;
  }

  /**
   * The shot bound admits row or column BOARD_SIZE while placement stops at BOARD_SIZE - 1:
   * such a shot is recorded but never hits a ship of a well-placed fleet.
   */
  lemma EdgeShotNeverHits(st: GameState, pos: Position)
    requires Inv(st) && ValidShot(pos) && (pos.row == BOARD_SIZE || pos.col == BOARD_SIZE)
    ensures ShipIndexAt(st.ships, pos) == None
    ensures pos !in st.shots ==> FireStep(st, pos) == (st.(shots := st.shots + [pos]), None)
  {
    forall i | 0 <= i < |st.ships| ensures !Occupies(st.ships[i], pos) {
      assert IsInsideBoard(st.ships[i]);
    }
  }

  /** Shots with no ship on the board: out of bounds, a miss, then the same cell again. */
  lemma MissScenario()
    ensures var st0 := GameState([], [], 0, 0, 0, 0);
      var st1 := FireStep(st0, Position(-1, 0)).0;
      var st2 := FireStep(st1, Position(0, 0));
      var st3 := FireStep(st2.0, Position(0, 0)).0;
      && st1 == st0.(invalidShots := 1)
      && st2 == (st1.(shots := [Position(0, 0)]), None)
      && st3 == st2.0.(repeatedShots := 1)
  {
    var st0 := GameState([], [], 0, 0, 0, 0);
    var st1 := FireStep(st0, Position(-1, 0)).0;
    assert st1.shots == [];
    assert ShipIndexAt(st1.ships, Position(0, 0)) == None;
    assert st1.shots + [Position(0, 0)] == [Position(0, 0)];
    var st2 := FireStep(st1, Position(0, 0));
    assert Position(0, 0) in st2.0.shots;
  }

  /** A barge at (5,5) sinks on its one hit: one hit, one sink, no ship left floating. */
  lemma BargeScenario()
    ensures var barge := Ship(Barges.NAME, Bearings.North, [Position(5, 5)], {});
      var (st1, sunk) := FireStep(GameState([barge], [], 0, 0, 0, 0), Position(5, 5));
      sunk == Some(0) && st1.hits == 1 && st1.sinks == 1 && FloatingShips(st1.ships) == []
  {
    var barge := Ship(Barges.NAME, Bearings.North, [Position(5, 5)], {});
    var st0 := GameState([barge], [], 0, 0, 0, 0);
    assert ShipIndexAt(st0.ships, Position(5, 5)) == Some(0);
    var hit := barge.(hits := {Position(5, 5)});
    assert Shoot(barge, Position(5, 5)) == hit;
    assert !StillFloating(hit);
    assert [barge][0 := hit] == [hit];
    assert st0.shots + [Position(5, 5)] == [Position(5, 5)];
    assert FireStep(st0, Position(5, 5))
        == (GameState([hit], [Position(5, 5)], 0, 0, 1, 1), Some(0));
    assert FloatingShips([hit]) == [] by { assert [hit][1..] == []; }
  }

  /** The carrack of the scenario below, with a given set of hit cells. */
  function ScenarioCarrack(hits: set<Position>): Ship
  {
    Ship(Carracks.NAME, Bearings.South, [Position(0, 0), Position(1, 0), Position(2, 0)], hits)
  }

  lemma CarrackFirstShot()
    ensures FireStep(GameState([ScenarioCarrack({})], [], 0, 0, 0, 0), Position(0, 0))
         == (GameState([ScenarioCarrack({Position(0, 0)})], [Position(0, 0)], 0, 0, 1, 0), None)
  {
    var h1 := ScenarioCarrack({Position(0, 0)});
    assert StillFloating(h1) by { assert Position(2, 0) in h1.positions; }
    assert ShipIndexAt([ScenarioCarrack({})], Position(0, 0)) == Some(0);
    assert Shoot(ScenarioCarrack({}), Position(0, 0)) == h1;
    assert [ScenarioCarrack({})][0 := h1] == [h1];
    assert [] + [Position(0, 0)] == [Position(0, 0)];
  }

  lemma CarrackSecondShot()
    ensures FireStep(GameState([ScenarioCarrack({Position(0, 0)})], [Position(0, 0)], 0, 0, 1, 0), Position(1, 0))
         == (GameState([ScenarioCarrack({Position(0, 0), Position(1, 0)})], [Position(0, 0), Position(1, 0)], 0, 0, 2, 0), None)
  {
    var h1 := ScenarioCarrack({Position(0, 0)});
    var h2 := ScenarioCarrack({Position(0, 0), Position(1, 0)});
    assert StillFloating(h2) by { assert Position(2, 0) in h2.positions; }
    assert ShipIndexAt([h1], Position(1, 0)) == Some(0);
    assert Shoot(h1, Position(1, 0)) == h2;
    assert [h1][0 := h2] == [h2];
    assert Position(1, 0) !in [Position(0, 0)];
    assert [Position(0, 0)] + [Position(1, 0)] == [Position(0, 0), Position(1, 0)];
  }

  lemma CarrackThirdShot()
    ensures FireStep(GameState([ScenarioCarrack({Position(0, 0), Position(1, 0)})], [Position(0, 0), Position(1, 0)], 0, 0, 2, 0), Position(2, 0))
         == (GameState([ScenarioCarrack({Position(0, 0), Position(1, 0), Position(2, 0)})], [Position(0, 0), Position(1, 0), Position(2, 0)], 0, 0, 3, 1), Some(0))
  {
    var h2 := ScenarioCarrack({Position(0, 0), Position(1, 0)});
    var h3 := ScenarioCarrack({Position(0, 0), Position(1, 0), Position(2, 0)});
    assert !StillFloating(h3);
    assert ShipIndexAt([h2], Position(2, 0)) == Some(0);
    assert Shoot(h2, Position(2, 0)) == h3;
    assert [h2][0 := h3] == [h3];
    assert Position(2, 0) !in [Position(0, 0), Position(1, 0)];
    assert [Position(0, 0), Position(1, 0)] + [Position(2, 0)] == [Position(0, 0), Position(1, 0), Position(2, 0)];
  }

  /**
   * A vertical carrack at (0,0), on the footprint the carrack builder derives, still floats
   * after hits at (0,0) and (1,0) and is reported sunk on the hit at (2,0).
   */
  lemma CarrackScenario()
    ensures Carracks.Footprint(Bearings.South, Position(0, 0)) == Success(ScenarioCarrack({}).positions)
    ensures var (st1, sunk1) := FireStep(GameState([ScenarioCarrack({})], [], 0, 0, 0, 0), Position(0, 0));
      var (st2, sunk2) := FireStep(st1, Position(1, 0));
      var (st3, sunk3) := FireStep(st2, Position(2, 0));
      && sunk1 == None && sunk2 == None && StillFloating(st2.ships[0])
      && sunk3 == Some(0) && st3.hits == 3 && st3.sinks == 1
  {
    Carracks.VerticalCells(Bearings.South, Position(0, 0));
    CarrackFirstShot();
    CarrackSecondShot();
    CarrackThirdShot();
    var h2 := ScenarioCarrack({Position(0, 0), Position(1, 0)});
    assert StillFloating(h2) by { assert Position(2, 0) in h2.positions; }
  }

  class Game {
    const fleet: Fleet
    var shots: seq<Position>
    var countInvalidShots: nat
    var countRepeatedShots: nat
    var countHits: nat
    var countSinks: nat

    ghost function State(): GameState
      reads this, fleet
    {
      GameState(fleet.ships, shots, countInvalidShots, countRepeatedShots, countHits, countSinks)
    }

    ghost predicate Valid()
      reads this, fleet
    {
      fleet.Valid() && Inv(State())
    }

    /** A new game over a fleet: no shots, every counter at zero. */
    constructor(fleet: Fleet)
      requires fleet.Valid()
      ensures this.fleet == fleet && shots == []
      ensures countInvalidShots == 0 && countRepeatedShots == 0 && countHits == 0 && countSinks == 0
      ensures Valid()
      ensures (forall k :: 0 <= k < |fleet.ships| ==> fleet.ships[k].hits == {}) ==> Accounted(State())
    {
      this.fleet := fleet;
      shots := [];
      countInvalidShots, countRepeatedShots, countHits, countSinks := 0, 0, 0, 0;
      new;
      NewGameInv(fleet.ships);
      assert State() == GameState(fleet.ships, [], 0, 0, 0, 0);
    }

    /** Fires at pos; returns the index of the ship this shot sank, or None. */
    method Fire(pos: Position) returns (sunk: Option<nat>)
      requires Valid()
      modifies this, fleet
      ensures Valid()
      ensures (State(), sunk) == FireStep(old(State()), pos)
      ensures old(Accounted(State())) ==> Accounted(State())
    {
      ghost var before := State();
      if !ValidShot(pos) {
        countInvalidShots := countInvalidShots + 1;
        sunk := None;
        assert State() == before.(invalidShots := before.invalidShots + 1);
        FireStepRejected(before, pos);
      } else {
        var repeated := RepeatedShot(pos);
        if repeated {
          countRepeatedShots := countRepeatedShots + 1;
          sunk := None;
          assert State() == before.(repeatedShots := before.repeatedShots + 1);
          FireStepRejected(before, pos);
        } else {
          sunk := FireNew(pos);
        }
      }
      FireStepKeepsInv(before, pos);
      assert Inv(State()) && fleet.Valid();
      if Accounted(before) {
        FireStepAccounted(before, pos);
      }
    }

    /** The new, valid shot branch of Fire: record the shot, then hit the first ship at pos, if any. */
    method FireNew(pos: Position) returns (sunk: Option<nat>)
      requires ValidShot(pos) && pos !in shots
      modifies this, fleet
      ensures (State(), sunk) == FireStep(old(State()), pos)
    {
      ghost var before := State();
      sunk := None;
      shots := shots + [pos];
      var k := fleet.ShipAt(pos);
      assert fleet.ships == before.ships && k == ShipIndexAt(before.ships, pos);
      if k.Some? {
        var s := Shoot(fleet.ships[k.value], pos);
        FireStepOnHit(before, pos, k.value);
        // the hit is marked on the fleet's own ship, as shoot() does on the shared object
        fleet.ships := fleet.ships[k.value := s];
        countHits := countHits + 1;
        if !StillFloating(s) {
          countSinks := countSinks + 1;
          sunk := Some(k.value);
        }
        assert fleet.ships == before.ships[k.value := s] && shots == before.shots + [pos];
        assert countHits == before.hits + 1;
        assert countSinks == if StillFloating(s) then before.sinks else before.sinks + 1;
      } else {
        assert State() == before.(shots := before.shots + [pos]);
      }
      assert (State(), sunk) == FireStep(before, pos);
    }

    /** Whether pos was already fired, scanning the shot list. */
    method RepeatedShot(pos: Position) returns (b: bool)
      ensures b <==> pos in shots
    {
      for i := 0 to |shots|
        invariant forall j :: 0 <= j < i ==> shots[j] != pos
      {
        if shots[i] == pos {
          return true;
        }
      }
      return false;
    }

    /** The valid shots in firing order: distinct and within the shot bound. */
    method GetShots() returns (r: seq<Position>)
      requires Valid()
      ensures r == shots && Distinct(r) && forall i :: 0 <= i < |r| ==> ValidShot(r[i])
    {
      r := shots;
    }

    method GetInvalidShots() returns (n: nat)
      ensures n == countInvalidShots
    {
      n := countInvalidShots;
    }

    method GetRepeatedShots() returns (n: nat)
      ensures n == countRepeatedShots
    {
      n := countRepeatedShots;
    }

    /** The hits so far; never more than the recorded shots. */
    method GetHits() returns (n: nat)
      requires Valid()
      ensures n == countHits && n <= |shots|
    {
      n := countHits;
    }

    /** The ships sunk so far; never more than the hits. */
    method GetSunkShips() returns (n: nat)
      requires Valid()
      ensures n == countSinks && n <= countHits
    {
      n := countSinks;
    }

    /** The number of ships still floating, counted through the fleet's query. */
    method GetRemainingShips() returns (n: nat)
      ensures n == |FloatingShips(fleet.ships)| && n <= |fleet.ships|
    {
      var floating := fleet.GetFloatingShips();
      n := |floating|;
    }
  }
}

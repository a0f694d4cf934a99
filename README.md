# Battleship rule engine in Dafny

A model of the rule engine of a naval combat game played on a square board. It has three parts:

- **Ship geometry.** The barge ("Barca"), carrack ("Nau"), frigate ("Fragata") and galleon ("Galeao") each take an anchor cell and a `Compass` bearing. From them they derive a footprint, the ordered cells the ship occupies.
- **Fleet placement.** `Fleet.AddShip` admits a ship only when the size guard, the board bounds and the spacing rule all allow it. The fleet also answers lookups in list order.
- **Shot resolution.** `Game.Fire` classifies each shot, in this order, as invalid, repeated, miss, hit, or hit-and-sunk. It keeps the shot list and four counters.

Modules follow the source files:

| module | file | contents |
|---|---|---|
| `Wrappers` | `wrappers.dfy` | `Option` and `Result`, standing for Java's null and exceptions |
| `Bearings` | `compass.dfy` | the `Compass` enumeration and its character codec |
| `Ships` | `ship.dfy` | the ship interface the core relies on |
| `Barges`, `Carracks`, `Frigates`, `Galleons` | one file each | one module per ship kind |
| `Fleets` | `fleet.dfy` | class `Fleet` and the pure placement rules |
| `Games` | `game.dfy` | class `Game`, the pure one-shot transition `FireStep`, and its lemmas |

The ship interface in `Ships` covers `Position`, the ship record, `occupies`, `stillFloating`, `shoot`, the extreme-cell queries and `tooCloseTo`.

Each ship constructor is a method that builds the footprint cell by cell, with the loops of the source's constructor. Its `ensures` ties the result to a pure `Footprint` function, and the lemmas state the shape facts about that function.

`Game.Fire` changes the game and the fleet in place. Its `ensures` equates the new state, and the sunk-ship result, with `FireStep(old state, pos)`. The branch for a valid, new shot is split out as the helper method `Game.FireNew`, which needs only those two facts about the shot. The per-shot and cumulative properties are lemmas about `FireStep`:

- counters never decrease;
- every shot is classified exactly once;
- the shot list stays free of duplicates and within the shot bound;
- `sinks <= hits <= |shots|`;
- in a game whose ships started unhit, `sinks + floating ships == ships`, and a ship is reported sunk exactly on the shot that lands its last hit.

Ships are values, and a ship's identity is its index in the fleet's list. `shipAt` and `fire` therefore return an index (`Option<nat>`), where the source returns a ship reference or null. Marking a hit replaces that ship in `fleet.ships`; in the source the ship object is updated through a shared reference.

Two places where the code departs from what its own comments say, and the model follows the code:

- **Shot bound.** The comment on `validShot` says a valid shot is "inside the board" (Game.java:162-165). The test accepts a row or column equal to `BOARD_SIZE` (Game.java:167-170), while placement stops at `BOARD_SIZE - 1` (Fleet.java:133-138). `Games.ValidShot` keeps the wider bound. `Games.ShotBoundWiderThanBoard` states the difference, and `Games.EdgeShotNeverHits` proves that such an edge shot is recorded but never hits a ship.
- **Fleet size guard.** The class comment says the fleet does not exceed the maximum size (Fleet.java:19). `addShip` tests `ships.size() <= FLEET_SIZE` (Fleet.java:75), so a fleet can hold `FLEET_SIZE + 1` ships. `Fleets.FleetGuardAdmitsOneMore` and `Fleets.FullFleetRefuses` state this; the fleet invariant bounds the list by `FLEET_SIZE + 1`.

`Game.Fire`, `Fleet.AddShip` and some accessors require the object invariant `Valid()`. Every fleet built by `Fleet`'s constructor and `AddShip` keeps its invariant, and `Game`'s constructor establishes the game's.

Two assumptions about code that is not part of this model:

- **Spacing rule.** Ship.java is not part of this model, so `tooCloseTo` is assumed. `Ships.TooCloseTo` takes two ships to be too close when some cell of one equals, or is a horizontal, vertical or diagonal neighbour of, some cell of the other.
- **Board constants.** `BOARD_SIZE` and `FLEET_SIZE` come from IFleet.java, which is not part of this model. Both are set to 10 here. The scenario lemmas fire at cells up to (5,5), so they need `BOARD_SIZE >= 5`; every other proof needs only positive constants.

## Model

| member | source | states |
|---|---|---|
| `Bearings.CharToCompass` | src/main/java/iscteiul/ista/battleship/Compass.java:70-90 | the result is North, South, East or West exactly when the character is 'n', 's', 'e' or 'o' respectively, and Unknown exactly for every other character |
| `Bearings.ToString` | src/main/java/iscteiul/ista/battleship/Compass.java:59-62 | the text is the single character of the bearing, and decoding that character gives the bearing back |
| `Bearings.GetDirection` | src/main/java/iscteiul/ista/battleship/Compass.java:50-52 | each bearing's character is one of n, s, e, o, u, and decoding it gives the bearing back (see also `Bearings.DirectionRoundTrip`) |
| `Bearings.DirectionInjective` | src/main/java/iscteiul/ista/battleship/Compass.java:25-29 | two bearings carry the same character if and only if they are the same bearing |
| `Bearings.DirectionRoundTrip` | src/main/java/iscteiul/ista/battleship/Compass.java:50-52 | decoding the character of any bearing, Unknown included, gives that bearing |
| `Bearings.DirectionCharacters` | src/main/java/iscteiul/ista/battleship/Compass.java:25-29 | the characters carried by the five bearings are exactly n, s, e, o and u |
| `Ships.Shoot` | src/main/java/iscteiul/ista/battleship/Game.java:87 | a shot keeps the ship's category, bearing and footprint; it adds at most the shot cell to the hits, and adds it exactly when the ship occupies it |
| `Ships.ShootKeepsWellFormed` | src/main/java/iscteiul/ista/battleship/Game.java:87 | after a shot the hits still lie inside the footprint |
| `Ships.ShootSinks` | src/main/java/iscteiul/ista/battleship/Game.java:87-89 | a floating ship stops floating after a shot exactly when the shot is on its footprint and every other cell was already hit |
| `Ships.Min` | src/main/java/iscteiul/ista/battleship/Fleet.java:133-138 | the leftmost/topmost value is an element of the list and no element is smaller |
| `Ships.Max` | src/main/java/iscteiul/ista/battleship/Fleet.java:133-138 | the rightmost/bottommost value is an element of the list and no element is larger |
| `Ships.NotTooCloseDisjoint` | src/main/java/iscteiul/ista/battleship/Fleet.java:147-153 | two ships not too close to each other share no cell |
| `Ships.TooCloseSymmetric` | src/main/java/iscteiul/ista/battleship/Fleet.java:149 | the spacing rule does not depend on which ship is asked |
| `Ships.LineShape` | src/main/java/iscteiul/ista/battleship/Carrack.java:51-58 | a straight run of n cells has length n, starts at the anchor, has distinct cells, and moves only along the rows (vertical) or only along the columns |
| `Barges.New` | src/main/java/iscteiul/ista/battleship/Barge.java:35-38 | any bearing, Unknown included, yields the ship "Barca" whose footprint is exactly the anchor, of length GetSize() = 1, unhit |
| `Barges.GetSize` | src/main/java/iscteiul/ista/battleship/Barge.java:45-48 | the size is 1; `Barges.New` ties it to the length of the one-cell footprint it builds |
| `Carracks.Footprint` | src/main/java/iscteiul/ista/battleship/Carrack.java:48-63 | the footprint fails exactly for Unknown, and then with InvalidBearing |
| `Carracks.GetSize` | src/main/java/iscteiul/ista/battleship/Carrack.java:71-74 | the size is the length of every footprint the builder accepts |
| `Carracks.New` | src/main/java/iscteiul/ista/battleship/Carrack.java:45-64 | the loops build exactly Footprint(bearing, pos) for the ship "Nau", unhit and well formed, and Unknown gives InvalidBearing |
| `Carracks.VerticalCells` | src/main/java/iscteiul/ista/battleship/Carrack.java:49-53 | North or South gives exactly (r,c), (r+1,c), (r+2,c) |
| `Carracks.HorizontalCells` | src/main/java/iscteiul/ista/battleship/Carrack.java:55-59 | East or West gives exactly (r,c), (r,c+1), (r,c+2) |
| `Carracks.AxisOnly` | src/main/java/iscteiul/ista/battleship/Carrack.java:48-59 | North and South give the same footprint, as do East and West, and the two axes differ |
| `Carracks.FootprintShape` | src/main/java/iscteiul/ista/battleship/Carrack.java:71-74 | every cardinal footprint has GetSize() = 3 pairwise distinct cells, the first being the anchor |
| `Frigates.Footprint` | src/main/java/iscteiul/ista/battleship/Frigate.java:41-64 | the footprint fails exactly for Unknown, and then with InvalidBearing |
| `Frigates.GetSize` | src/main/java/iscteiul/ista/battleship/Frigate.java:72-75 | the size is the length of every footprint the builder accepts |
| `Frigates.New` | src/main/java/iscteiul/ista/battleship/Frigate.java:38-65 | the loops build exactly Footprint(bearing, pos) for the ship "Fragata", unhit and well formed, and Unknown gives InvalidBearing |
| `Frigates.VerticalCells` | src/main/java/iscteiul/ista/battleship/Frigate.java:42-49 | North or South gives exactly (r+i, c) for 0 <= i < 4 |
| `Frigates.HorizontalCells` | src/main/java/iscteiul/ista/battleship/Frigate.java:51-58 | East or West gives exactly (r, c+i) for 0 <= i < 4 |
| `Frigates.AxisOnly` | src/main/java/iscteiul/ista/battleship/Frigate.java:41-58 | North and South give the same footprint, as do East and West, and the two axes differ |
| `Frigates.FootprintShape` | src/main/java/iscteiul/ista/battleship/Frigate.java:72-75 | every cardinal footprint has GetSize() = 4 pairwise distinct cells, the first being the anchor |
| `Galleons.Footprint` | src/main/java/iscteiul/ista/battleship/Galleon.java:43-61 | the footprint fails exactly for a null bearing (NullBearing) and for Unknown (InvalidBearing) |
| `Galleons.GetSize` | src/main/java/iscteiul/ista/battleship/Galleon.java:69-72 | the size is the length of every footprint the builder accepts |
| `Galleons.FillNorth` | src/main/java/iscteiul/ista/battleship/Galleon.java:79-85 | builds exactly (r,c), (r,c+1), (r,c+2), (r+1,c+1), (r+2,c+1) |
| `Galleons.FillSouth` | src/main/java/iscteiul/ista/battleship/Galleon.java:92-99 | builds exactly (r,c), (r+1,c), (r+2,c-1), (r+2,c), (r+2,c+1) |
| `Galleons.FillEast` | src/main/java/iscteiul/ista/battleship/Galleon.java:106-112 | builds exactly (r,c), (r+1,c-2), (r+1,c-1), (r+1,c), (r+2,c) |
| `Galleons.FillWest` | src/main/java/iscteiul/ista/battleship/Galleon.java:119-125 | builds exactly (r,c), (r+1,c), (r+1,c+1), (r+1,c+2), (r+2,c) |
| `Galleons.New` | src/main/java/iscteiul/ista/battleship/Galleon.java:40-62 | dispatches on the bearing and yields the ship "Galeao" with exactly Footprint(bearing, pos), unhit and well formed; null gives NullBearing and Unknown gives InvalidBearing |
| `Galleons.FootprintShape` | src/main/java/iscteiul/ista/battleship/Galleon.java:69-72 | every cardinal footprint has GetSize() = 5 pairwise distinct cells, the first being the anchor |
| `Galleons.ShapesDiffer` | src/main/java/iscteiul/ista/battleship/Galleon.java:46-58 | for the same anchor, the four bearings give four pairwise different sets of cells |
| `Fleets.IsInsideBoard` | src/main/java/iscteiul/ista/battleship/Fleet.java:133-138 | the extreme-cell test holds exactly when every cell of the ship lies in rows and columns 0 .. BOARD_SIZE - 1 |
| `Fleets.ShipIndexAt` | src/main/java/iscteiul/ista/battleship/Fleet.java:120-125 | gives the first ship in list order that occupies the cell, and None exactly when no ship does |
| `Fleets.ShipsLike` | src/main/java/iscteiul/ista/battleship/Fleet.java:89-96 | the result holds exactly the ships of the category and is no longer than the fleet |
| `Fleets.FloatingShips` | src/main/java/iscteiul/ista/battleship/Fleet.java:104-111 | the result holds exactly the ships still floating and is no longer than the fleet |
| `Fleets.ShipsLikeAppend` | src/main/java/iscteiul/ista/battleship/Fleet.java:91-93 | filtering by category keeps list order: it distributes over concatenation |
| `Fleets.FloatingShipsAppend` | src/main/java/iscteiul/ista/battleship/Fleet.java:106-108 | filtering by floating keeps list order: it distributes over concatenation |
| `Fleets.FloatingShipsUpdate` | src/main/java/iscteiul/ista/battleship/Fleet.java:104-111 | replacing one ship changes the number of floating ships by exactly that ship's change of state |
| `Fleets.AllFloating` | src/main/java/iscteiul/ista/battleship/Fleet.java:104-111 | when every ship floats, the floating ships are the whole fleet, in order |
| `Fleets.AdmitKeepsWellPlaced` | src/main/java/iscteiul/ista/battleship/Fleet.java:73-80 | an admitted ship keeps the fleet invariant: at most FLEET_SIZE + 1 ships, all on the board, no earlier ship too close to a later one |
| `Fleets.OccupantUnique` | src/main/java/iscteiul/ista/battleship/Fleet.java:120-125 | in a fleet that keeps the invariant, at most one ship occupies any cell |
| `Fleets.FullFleetRefuses` | src/main/java/iscteiul/ista/battleship/Fleet.java:75 | with FLEET_SIZE + 1 ships placed, every further ship is refused |
| `Fleets.FleetGuardAdmitsOneMore` | src/main/java/iscteiul/ista/battleship/Fleet.java:75 | with FLEET_SIZE ships placed, a ship that is on the board and not too close is still admitted |
| `Fleets.Fleet.constructor` | src/main/java/iscteiul/ista/battleship/Fleet.java:43-45 | a new fleet is empty and keeps the invariant |
| `Fleets.Fleet.GetShips` | src/main/java/iscteiul/ista/battleship/Fleet.java:53-55 | returns the fleet's ships, at most FLEET_SIZE + 1 of them |
| `Fleets.Fleet.AddShip` | src/main/java/iscteiul/ista/battleship/Fleet.java:73-80 | succeeds exactly when `size <= FLEET_SIZE`, the ship is inside the board and no placed ship is too close; on success the ship is appended and the earlier ships are unchanged, on failure nothing changes; the invariant is kept |
| `Fleets.Fleet.CollisionRisk` | src/main/java/iscteiul/ista/battleship/Fleet.java:147-153 | the scan is proved equal to `CloseToAny`: true exactly when some placed ship is too close to the new one |
| `Fleets.Fleet.ShipAt` | src/main/java/iscteiul/ista/battleship/Fleet.java:120-125 | the scan returns the index of the first occupying ship, or None when no ship occupies the cell |
| `Fleets.Fleet.GetShipsLike` | src/main/java/iscteiul/ista/battleship/Fleet.java:89-96 | the loop builds exactly the order-preserving filter of the ships by category |
| `Fleets.Fleet.GetFloatingShips` | src/main/java/iscteiul/ista/battleship/Fleet.java:104-111 | the loop builds exactly the order-preserving filter of the ships by still floating |
| `Games.FireStepKeepsInv` | src/main/java/iscteiul/ista/battleship/Game.java:77-97 | every shot keeps the game invariant: the fleet stays well placed, the shots are distinct and accepted by validShot, and sinks <= hits <= number of shots |
| `Games.FireStep` | src/main/java/iscteiul/ista/battleship/Game.java:77-97 | one shot keeps the number of ships, adds at most one shot to the list, and a ship it reports sunk is a ship of the fleet that no longer floats |
| `Games.FireStepOnHit` | src/main/java/iscteiul/ista/battleship/Game.java:84-93 | a new valid shot at the cell of ship k: the shot is appended, ship k alone is marked hit, the hit counter grows by one, and ship k is reported sunk, with the sink counter grown by one, exactly when it no longer floats |
| `Games.HitKeepsWellPlaced` | src/main/java/iscteiul/ista/battleship/Game.java:87 | marking a hit on one ship keeps the fleet's placement invariant |
| `Games.NewGameInv` | src/main/java/iscteiul/ista/battleship/Game.java:50-57 | the empty game over a well-placed fleet keeps the game invariant, and is accounted when no ship was hit yet |
| `Games.FireStepCounts` | src/main/java/iscteiul/ista/battleship/Game.java:77-97 | no counter decreases; the shot list only grows at its end; exactly one of the invalid counter, the repeated counter and the shot list grows, by one; the invalid counter grows exactly for an invalid shot, the repeated counter exactly for a valid repeated one, and the shot is appended exactly when it is valid and new |
| `Games.FireStepRejected` | src/main/java/iscteiul/ista/battleship/Game.java:78-82 | an invalid shot only increments the invalid counter and a valid repeated shot only increments the repeated counter; the ships, shots, hits and sinks are unchanged and nothing is returned |
| `Games.FireStepHit` | src/main/java/iscteiul/ista/battleship/Game.java:84-88 | the hit counter grows by one exactly when a new valid shot finds a ship; that ship, the first occupying the cell, is then shot at the cell and nothing else changes in the fleet; otherwise neither the hits nor the ships change |
| `Games.FireStepSunk` | src/main/java/iscteiul/ista/battleship/Game.java:89-92 | a ship is returned exactly when the sunk counter grows; it is the ship at the cell, hit by this new valid shot, and no longer floating; conversely a new valid shot that hits a ship returns it exactly when that ship no longer floats after the hit |
| `Games.FireStepAccounted` | src/main/java/iscteiul/ista/battleship/Game.java:77-97 | in a game whose ships started unhit, every hit stays a recorded shot and sinks plus floating ships stays equal to the number of ships |
| `Games.SunkExactlyOnce` | src/main/java/iscteiul/ista/battleship/Game.java:89-92 | in a game whose ships started unhit (the sink accounting holds), a ship reported sunk was still floating just before this shot and is not after it, and the floating ships drop by exactly one |
| `Games.FireTwice` | src/main/java/iscteiul/ista/battleship/Game.java:81-82 | firing again at a valid cell just fired only increments the repeated counter |
| `Games.ShotBoundWiderThanBoard` | src/main/java/iscteiul/ista/battleship/Game.java:167-170 | validShot accepts every cell of the board, also row BOARD_SIZE at any column 0 .. BOARD_SIZE and column BOARD_SIZE at any row 0 .. BOARD_SIZE, and nothing below 0 or above BOARD_SIZE |
| `Games.ValidShot` | src/main/java/iscteiul/ista/battleship/Game.java:167-170 | every board cell is a valid shot and no valid shot has a negative coordinate; the inclusive upper bound is stated by `Games.ShotBoundWiderThanBoard` |
| `Games.EdgeShotNeverHits` | src/main/java/iscteiul/ista/battleship/Game.java:167-170 | a shot at row or column BOARD_SIZE passes validShot but no well-placed ship occupies it; if new, it is only recorded |
| `Games.MissScenario` | src/main/java/iscteiul/ista/battleship/Game.java:77-97 | with no ships: a shot at (-1,0) only counts as invalid; (0,0) is recorded as a miss; (0,0) again only counts as repeated |
| `Games.BargeScenario` | src/main/java/iscteiul/ista/battleship/Game.java:77-97 | a barge at (5,5) sinks on its one hit, which counts as one hit and one sink and leaves no ship floating |
| `Games.CarrackFirstShot` | src/main/java/iscteiul/ista/battleship/Game.java:77-97 | the first shot at (0,0) on a vertical carrack at (0,0) hits it, records the shot and sinks nothing |
| `Games.CarrackSecondShot` | src/main/java/iscteiul/ista/battleship/Game.java:77-97 | the second shot at (1,0) hits the same carrack, which still floats |
| `Games.CarrackThirdShot` | src/main/java/iscteiul/ista/battleship/Game.java:77-97 | the third shot at (2,0) hits its last cell and reports ship 0 as sunk; three hits, one sink |
| `Games.CarrackScenario` | src/main/java/iscteiul/ista/battleship/Game.java:77-97 | the carrack is the footprint `Carracks.Footprint` gives for South at (0,0); chained, the three shots leave it floating after two hits and sink it only on the third |
| `Games.Game.constructor` | src/main/java/iscteiul/ista/battleship/Game.java:50-57 | a new game keeps the given fleet, has no shots and all four counters at 0; if no ship was hit yet, the sink accounting holds |
| `Games.Game.Fire` | src/main/java/iscteiul/ista/battleship/Game.java:77-97 | the new state and the result are exactly FireStep of the old state; the game invariant and the sink accounting are kept |
| `Games.Game.FireNew` | src/main/java/iscteiul/ista/battleship/Game.java:84-93 | for a valid shot not fired before: it is appended to the shots and the first ship at pos, if any, is hit; the new state and result are exactly FireStep of the old state |
| `Games.Game.RepeatedShot` | src/main/java/iscteiul/ista/battleship/Game.java:178-183 | true exactly when the cell is already in the shot list |
| `Games.Game.GetShots` | src/main/java/iscteiul/ista/battleship/Game.java:105-107 | returns the shot list, whose cells are distinct and all accepted by validShot |
| `Games.Game.GetInvalidShots` | src/main/java/iscteiul/ista/battleship/Game.java:126-128 | returns the invalid-shot counter |
| `Games.Game.GetRepeatedShots` | src/main/java/iscteiul/ista/battleship/Game.java:115-117 | returns the repeated-shot counter |
| `Games.Game.GetHits` | src/main/java/iscteiul/ista/battleship/Game.java:136-138 | returns the hit counter, never more than the recorded shots |
| `Games.Game.GetSunkShips` | src/main/java/iscteiul/ista/battleship/Game.java:146-148 | returns the sunk counter, never more than the hits |
| `Games.Game.GetRemainingShips` | src/main/java/iscteiul/ista/battleship/Game.java:156-159 | equals the length of the fleet's floating-ships list, at most the number of ships |

## Left out

- Console output is left out because it is I/O only. This covers `Game.printBoard`, `printValidShots` and `printFleet`. It also covers `Fleet.printShips`, `printStatus`, `printShipsByCategory`, `printFloatingShips` and `printAllShips`.
- Ship.java, Position.java, IFleet.java, IShip.java and Caravel.java are not part of this model. The ship is represented by the interface in `Ships`, and `Ships.TooCloseTo` is an assumed definition of the spacing rule.
- Ship `toString` and display formatting are not modelled.
- Counters are unbounded naturals. Java's `Integer` wrap-around after 2^31 - 1 shots is not modelled.
- Object identity is not modelled. Callers get ships by index and as copied values, so aliasing between the fleet's list and lists returned to callers is not captured: `getShips`, `getShipsLike` and `getFloatingShips` return values.
- A null bearing is modelled only for the galleon, whose constructor checks for it explicitly. For the carrack, frigate and barge the bearing is never null in the model. A null position or a null ship is not modelled either.
- `Fleets.Fleet.AddShip` requires a non-empty footprint, because the extreme-cell queries are defined in Ship.java, which is not part of this model, and have no value for an empty ship. Every ship built by `Barges.New`, `Carracks.New`, `Frigates.New` and `Galleons.New` has one.
- `Games.FireStepAccounted` and `Games.SunkExactlyOnce` assume the fleet's ships were unhit when the game began, as ships fresh from their constructors are. For a fleet with earlier hits, only the weaker invariant `Games.FireStepKeepsInv` applies; a ship that was already sunk before the game is reported again by the shot at its cell (Game.java:86-92).

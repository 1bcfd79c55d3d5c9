# Unleash the Geek agent: a Dafny model of its decision core

The agent plays a grid game in which robots dig ore and bring it to the left
column (the "home column"). It also places radars, which reveal ore, and
traps. On each turn it reads the board and the visible entities, then prints
one command per own robot: `WAIT`, `MOVE x y`, `DIG x y` or `REQUEST item`.
This project models the decision core of `Unleash-the-geek/Program.cs` and
proves its properties. Each turn's input is taken as already parsed.

Modules, leaf to root:

- `Wrappers` (`wrappers.dfy`): `Option`. It stands in for C# `null` and `int?`.
- `Geometry` (`geometry.dfy`): `Coord`, its Manhattan `Distance`,
  `Equals2` (value equality that also handles null) and `GetHashCode`.
- `Board` (`board.dfy`): the `Cell` class and its `Update`, and the
  ore-site record `OreVeil`. `Sites` is the specification of the grid scan:
  rows outer, columns inner, keeping known cells with positive ore. Lemmas
  say the scan is sound, complete, strictly row-major and has no
  duplicates.
- `Registry` (`registry.dfy`): `EntityType`, `Entity`/`Robot`, the
  `AddOrUpdateRobotInfo` upsert on the insertion-ordered own-robot registry,
  and the per-kind collection of the entity lines.
- `Selectors` (`selectors.dfy`): `DiggerIssue`, `MinePlacer`, `RadarPlacer`,
  `GetPointForRadarPlacer` and `needToRequestTrap`, as pure functions.
  `LINQ OrderBy(distance).FirstOrDefault()` is `Nearest`: the minimal distance,
  and the earliest in list order among ties, because `OrderBy` is stable.
- `GameState` (`game.dfy`): the `Game` class. Its constructor fills the grid
  with fresh cells. `UpdateBoard`/`UpdateRow`/`UpdateCell` do the grid scan
  that updates the cells and rebuilds `oreVeils`. `IngestEntities` refills
  radars and traps and upserts own robots. `DecideTurn` is the dispatch
  block with the sticky `robotWithTrapId`. `PlayTurn` runs one turn.
  A ghost `board` (rows of cell values) is tied to the cell objects by
  `Valid()`. A ghost `cellPos` map keeps the cells pairwise distinct.
- `Properties` (`properties.dfy`): links the selectors to the board. The
  digger's target is the nearest untrapped ore cell of the board, with ties
  going to row-major order. No free radar slot means at least 17 radars.
- `Scenarios` (`scenarios.dfy`): concrete turns.

Points of the code's behaviour that the model keeps as written:

- When a trap is needed, every robot except robot 0 requests one
  (`Program.cs:282-285`), not only the robot recorded as carrier.
- `robotWithTrapId` is the first robot in registry order standing in column 0
  (`Program.cs:309-315`). It may be robot 0, or a robot other than the ones
  requesting.
- Any robot other than robot 0 that carries a trap goes to `MinePlacer`
  (`Program.cs:286-289`). `MinePlacer` measures distances from the
  designated carrier's position, not the robot's own. If there is no ore
  site at all, it falls back to `DiggerIssue` for the robot at hand
  (`Program.cs:320-327`).
- `needToRequestTrap` sorts by X and takes the first robot with X == 0
  (`Program.cs:309-310`). Because the sort is stable, this is the first such
  robot in registry order, and that is how it is modelled.
- Robot identity: `AddOrUpdateRobotInfo` overwrites the stored record's
  position and item instead of replacing it (`Program.cs:71-79`). This is
  modelled as the record keeping its place in the registry. The code keeps
  no reference to a robot across turns, only its id.

## Model

| member | source | states |
|---|---|---|
| Geometry.Distance | Unleash-the-geek/Program.cs:95-100 | the distance is non-negative and is zero exactly when both coordinates match |
| Geometry.DistanceSymmetric | Unleash-the-geek/Program.cs:97-100 | distance is symmetric |
| Geometry.DistanceTriangle | Unleash-the-geek/Program.cs:97-100 | distance satisfies the triangle inequality |
| Geometry.Equals2 | Unleash-the-geek/Program.cs:103-114 | two nulls are equal, null and non-null are not, two coords are equal iff X and Y match |
| Geometry.HashCode | Unleash-the-geek/Program.cs:116-119 | for a row in 0..30 the hash decodes back to the coordinate: (h - 961) / 31 is X and (h - 961) % 31 is Y |
| Geometry.BoardCellsHashApart | Unleash-the-geek/Program.cs:116-119 | two cells with rows in 0..30 and the same hash are the same cell, so no two board cells collide |
| Geometry.EqualCoordsHashAlike | Unleash-the-geek/Program.cs:116-119 | equal coords have equal hash codes |
| Board.Cell.constructor | Unleash-the-geek/Program.cs:15-19 | a new cell is unknown, without a hole, with ore 0 |
| Board.Cell.Update | Unleash-the-geek/Program.cs:21-29 | Hole iff the flag is 1; Known iff the token is not "?"; Ore is the amount when known and unchanged when unknown |
| Board.RowSitesSound | Unleash-the-geek/Program.cs:210-217 | every site of a row's scan is a known positive-ore cell of that row |
| Board.RowSitesComplete | Unleash-the-geek/Program.cs:210-217 | every known positive-ore cell of a row is in the row's scan |
| Board.RowSitesIncreasing | Unleash-the-geek/Program.cs:210-217 | a row's sites are in increasing column order |
| Board.SitesSound | Unleash-the-geek/Program.cs:206-217 | every scanned site is a known cell with positive ore, and its count is that cell's ore |
| Board.SitesComplete | Unleash-the-geek/Program.cs:206-217 | every known cell with positive ore is in the scan |
| Board.SitesInScanOrder | Unleash-the-geek/Program.cs:207-210 | sites appear strictly in row-major order (y outer, x inner) |
| Board.SitesOnceEach | Unleash-the-geek/Program.cs:206-217 | no cell appears twice |
| Registry.IndexOfId | Unleash-the-geek/Program.cs:73 | the lookup finds the first record with the id, or none iff the id is absent |
| Registry.AddOrUpdateRobotInfo | Unleash-the-geek/Program.cs:71-79 | ids stay unique; the key set becomes old keys plus src.Id; an existing record keeps its place and gets src's position and item; other records are unchanged; an unknown id is appended |
| Registry.OfKind | Unleash-the-geek/Program.cs:248-253 | the radar (trap) list holds every entity of that kind from the lines and no other; each line's entity comes after those of the lines before it (input order) |
| Registry.RegisterAll | Unleash-the-geek/Program.cs:227-247 | upserting the own-robot lines (predicate `Registered`) keeps ids unique and adds exactly their ids. Existing records keep their places, and a record whose id is on no own-robot line is unchanged. Each id on the lines holds the position and item of its last own-robot line. New ids come after the old records, in the order of each id's first own-robot line, which is the order `Dictionary` adds keys in |
| Registry.OfKindCount | Unleash-the-geek/Program.cs:248-253 | the radar (trap) list has exactly one entry per line of that kind; with the order ensures of OfKind this fixes the list completely |
| Registry.FirstRobotLine | Unleash-the-geek/Program.cs:227-243 | the index of the first own-robot line with the id: none iff there is none; no earlier own-robot line has that id |
| Registry.UpsertOrder | Unleash-the-geek/Program.cs:71-79 | an own-robot line's upsert keeps the new records in order of first line, an unknown id going last |
| Registry.LastRobotLine | Unleash-the-geek/Program.cs:227-247 | the index of the last own-robot line with the id: none iff there is none; no later own-robot line has that id |
| Registry.RegisterSkip | Unleash-the-geek/Program.cs:227-247 | a line of another kind changes nothing in the registry |
| Registry.RegisterUpsert | Unleash-the-geek/Program.cs:227-247 | an own-robot line's upsert keeps the registry's relation to the lines so far, with that line now the last for its id |
| Selectors.Nearest | Unleash-the-geek/Program.cs:392 | none iff no untrapped site exists; otherwise an untrapped site at minimal distance, every earlier untrapped site being strictly farther |
| Selectors.NearestUnique | Unleash-the-geek/Program.cs:392 | that choice is unique |
| Selectors.Approach | Unleash-the-geek/Program.cs:396-400 | DIG at the target iff its distance is at most 1, else MOVE to it |
| Selectors.DiggerIssue | Unleash-the-geek/Program.cs:383-402 | ore carrier: MOVE to (0, own row); otherwise WAIT iff no untrapped site, else DIG or MOVE at the nearest untrapped site, DIG iff distance at most 1 |
| Selectors.MinePlacer | Unleash-the-geek/Program.cs:318-335 | no site: DiggerIssue for the robot; otherwise DIG or MOVE at the site nearest to the designated carrier, DIG iff distance at most 1 |
| Selectors.FirstFreeSlot | Unleash-the-geek/Program.cs:380 | the first slot whose shifted position has no radar; none iff all are occupied |
| Selectors.GetPointForRadarPlacer | Unleash-the-geek/Program.cs:359-381 | returns the first pattern slot, shifted by (-1,-1), with no radar on it; never an occupied one; null iff all 17 are occupied |
| Selectors.RadarPlacer | Unleash-the-geek/Program.cs:337-356 | radar carrier: MOVE to the free slot, or DIG it when standing on it, or DiggerIssue when none is free; NONE or ORE: REQUEST RADAR; otherwise WAIT |
| Selectors.FirstAtHome | Unleash-the-geek/Program.cs:309-310 | the first robot in registry order with X == 0, or none iff there is none |
| Selectors.NeedToRequestTrap | Unleash-the-geek/Program.cs:302-317 | true iff no robot carries a trap and some robot has X == 0, then with the first such robot's id; otherwise false with id 0 |
| GameState.RefreshTrapCarrier | Unleash-the-geek/Program.cs:270-273 | the id is cleared exactly when no own robot has it, and is kept otherwise |
| GameState.RobotCommand | Unleash-the-geek/Program.cs:279-292 | robot 0 gets RadarPlacer; any other robot gets REQUEST TRAP iff a trap is needed; otherwise a trap carrier gets MinePlacer (a crash when no carrier id is set) and the rest get DiggerIssue |
| GameState.Game.constructor | Unleash-the-geek/Program.cs:52-69 | every grid position holds its own fresh, default cell; the registries are empty; robotWithTrapId is null |
| GameState.Game.UpdateCell | Unleash-the-geek/Program.cs:214 | one cell's update, with every other cell unchanged |
| GameState.Game.UpdateRow | Unleash-the-geek/Program.cs:209-217 | the row's cells are updated from their readings and the row's sites are appended in column order |
| GameState.Game.UpdateBoard | Unleash-the-geek/Program.cs:206-217 | every cell gets its reading's update; OreVeils becomes exactly the scan of the new board |
| GameState.Game.IngestEntities | Unleash-the-geek/Program.cs:224-255 | Radars and Traps hold that turn's entities of their kind in input order; own robots are upserted |
| GameState.Game.DecideTurn | Unleash-the-geek/Program.cs:257-297 | the commands of the first five robots are those of RobotCommand, or the turn crashes at the first robot whose choice crashes; robotWithTrapId becomes the chosen carrier when a trap is needed, else the refreshed old id |
| GameState.Game.PlayTurn | Unleash-the-geek/Program.cs:206-297 | one turn: board scan, entity ingest and dispatch, composed |
| Properties.NearestOnBoard | Unleash-the-geek/Program.cs:392 | over the scan, the site picked first is the nearest untrapped ore cell of the board, ties going to row-major order |
| Properties.DiggerWaitsIffNoOreCell | Unleash-the-geek/Program.cs:390-394 | a digger without ore waits iff the board has no untrapped known ore cell |
| Properties.DiggerTargetsClosestOreCell | Unleash-the-geek/Program.cs:383-402 | otherwise its target is an untrapped ore cell of the board at minimal distance, first in row-major order among ties, dug iff within distance 1 |
| Properties.MinePlacerTargetsClosestOreCell | Unleash-the-geek/Program.cs:318-335 | the trap carrier's target is an ore cell of the board at minimal distance from the designated carrier, first in row-major order among ties, dug iff within distance 1 |
| Properties.ShiftedSlotsAreSeventeen | Unleash-the-geek/Program.cs:361-380 | the 17 pattern slots, shifted by (-1,-1), are 17 distinct positions |
| Properties.AllSlotsTaken | Unleash-the-geek/Program.cs:361-380 | when no slot is free, every shifted slot position holds a radar |
| Properties.NoFreeSlotNeedsSeventeenRadars | Unleash-the-geek/Program.cs:359-381 | null is returned only when at least 17 radars exist |
| Scenarios.OpeningTurn | Unleash-the-geek/Program.cs:279-292 | with nothing known and robots away from column 0, robot 0 requests a radar and the others wait |
| Scenarios.TrapRequestOverrides | Unleash-the-geek/Program.cs:282-285 | a robot in column 0 and no trap carrier: robots 1-4 request a trap, and the first robot in column 0 becomes the carrier |
| Scenarios.OreGoesHome | Unleash-the-geek/Program.cs:387-388 | an ore carrier moves to column 0 of its row |
| Scenarios.AdjacentSiteIsDug | Unleash-the-geek/Program.cs:396-398 | a site at distance 1 is dug |
| Scenarios.DistantSiteIsApproached | Unleash-the-geek/Program.cs:396-400 | a site at distance 8 is walked to |
| Scenarios.TrappedSiteIsSkipped | Unleash-the-geek/Program.cs:392 | a trapped site is passed over for a free one |
| Scenarios.TieGoesToScanOrder | Unleash-the-geek/Program.cs:392 | of equally near sites, the earlier one in the list wins |
| Scenarios.NewRobotsInLineOrder | Unleash-the-geek/Program.cs:227-243 | robots 7 and then 2 arrive: the registry lists 7 before 2, and 7's later line updates its record in place |
| Scenarios.SecondRadarSlot | Unleash-the-geek/Program.cs:342-349 | with the first slot taken, the radar carrier goes to (10, 8) and digs there once on it |

## Left out

- Protocol reading (`Console.ReadLine`, `Split`, `int.Parse`), the endless turn loop, the `Console.Error` debug lines and printing the commands. A turn's input is a parsed `Reading` grid and a list of `EntityLine`s; output is a `TurnOutcome`.
- Message texts of `Wait`/`Move`/`Dig`/`Request` and `Robot.Log`: free text with no effect on the game.
- Scores, `RadarCooldown`, `TrapCooldown` and the `radarCooldown` parameter of `RadarPlacer`: stored but never used in a decision, so they are not modelled.
- `OpponentRobots`: upserted in exactly the same way as own robots, but never read by a decision. Opponent lines are ignored.
- The unused `robot` parameter of `GetPointForRadarPlacer`, and `Robot.IsDead`, which nothing calls.
- 32-bit wrap-around in `Distance` and `GetHashCode`: integers are unbounded.
- .NET `Dictionary` enumeration order: the registry is insertion-ordered, which is what `Dictionary` does when nothing is removed.
- Object identity of robot records: modelled as the record's fixed position in the registry.
- GameState.Game.DecideTurn: requires at least five robots in the registry. With fewer, the enumerator hands out a null robot for each missing one (`Program.cs:263`). That null is dereferenced by `RadarPlacer` for robot 0, and for robots 1-4 only when no trap is requested. When `needToRequestTrap` holds, those robots print `REQUEST TRAP` without failing (`Program.cs:282-285`). The model does not cover those turns. With more than five robots, only the first five get commands, as in the source.
- GameState.Game.PlayTurn: carries the same restriction through its requirement that the registry after the ingest holds at least five robots (`|RegisterAll(myRobots, lines)| >= 5`); turns with fewer own robots are not covered.
- Selectors.MinePlacer: requires the carrier id to be set and present instead of modelling the exception thrown by casting a null id. In the dispatch, the null case appears as `Crash`. An id missing from the registry cannot reach it, because the stale-id check runs just before.

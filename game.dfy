/**
 * class Game and the turn body of class Player: the board scan that rebuilds
 * the ore-site list, the entity ingest, and the dispatch block that picks one
 * command per robot and keeps the sticky robotWithTrapId.
 */
module GameState {
  import opened Wrappers
  import opened Geometry
  import opened Board
  import opened Registry
  import opened Selectors

  /** What one turn of the dispatch block produces: five commands, or the exception that ends the program. */
  datatype TurnOutcome = Actions(commands: seq<Command>) | Crash(robot: nat)

  /** The check at the top of the dispatch loop: an id no own robot has any more is cleared. */
  function RefreshTrapCarrier(id: Option<int>, robots: seq<Robot>): (r: Option<int>)
    ensures r.Some? ==> r == id && r.value in Ids(robots)
    ensures id.Some? && id.value in Ids(robots) ==> r == id
    ensures r.None? <==> id.None? || id.value !in Ids(robots)
  {
    if id.Some? && id.value !in Ids(robots) then None else id
  }

  /**
   * The command the dispatch block chooses for robot i, given the refreshed
   * trap-carrier id; None where MinePlacer would cast a null id.
   */
  function RobotCommand(i: nat, robots: seq<Robot>, trapId: Option<int>,
                        radars: seq<Entity>, oreVeils: seq<OreVeil>, traps: seq<Entity>): (r: Option<Command>)
    requires i < |robots|
    requires trapId.Some? ==> trapId.value in Ids(robots)
    ensures i == 0 ==> r == Some(RadarPlacer(robots[0], radars, oreVeils, traps))
    ensures i > 0 ==> (r == Some(Request(Trap)) <==> NeedToRequestTrap(robots).0)
    ensures i > 0 && !NeedToRequestTrap(robots).0 && robots[i].item == Trap ==>
      (r.None? <==> trapId.None?) &&
      (trapId.Some? ==> r == Some(MinePlacer(robots[i], robots, trapId, oreVeils, traps)))
    ensures i > 0 && !NeedToRequestTrap(robots).0 && robots[i].item != Trap ==>
      r == Some(DiggerIssue(robots[i], oreVeils, traps))
  {
    if i == 0 then Some(RadarPlacer(robots[0], radars, oreVeils, traps))
    else if NeedToRequestTrap(robots).0 then Some(Request(Trap))
    else if robots[i].item == Trap then
      if trapId.None? then None else Some(MinePlacer(robots[i], robots, trapId, oreVeils, traps))
    else Some(DiggerIssue(robots[i], oreVeils, traps))
  }

  class Game {
    const width: nat
    const height: nat
    var cells: array2<Cell?>
    var myRobots: seq<Robot>
    var radars: seq<Entity>
    var traps: seq<Entity>
    var oreVeils: seq<OreVeil>
    var robotWithTrapId: Option<int>

    /** The board as values, rows outer: board[y][x] is the state of cells[x, y]. */
    ghost var board: seq<seq<CellState>>
    /** The grid position of each cell object; it makes the cells pairwise distinct. */
    ghost var cellPos: map<Cell, (int, int)>
    /** The cell objects of the grid. */
    ghost var cellSet: set<Cell>

    ghost predicate Valid()
      reads this`cells, this`board, this`cellPos, this`cellSet, cells, cellSet
    {
      cells.Length0 == width && cells.Length1 == height &&
      |board| == height && (forall y :: 0 <= y < height ==> |board[y]| == width) &&
      (forall x, y :: 0 <= x < width && 0 <= y < height ==>
         cells[x, y] != null && cells[x, y] in cellSet && cells[x, y] in cellPos &&
         cellPos[cells[x, y]] == (x, y) && cells[x, y].State() == board[y][x])
    }

    /** new Game(width, height): a grid of fresh cells and empty registries. */
    constructor (w: nat, h: nat)
      ensures Valid() && fresh(cells) && fresh(cellSet)
      ensures width == w && height == h
      ensures forall y, x :: 0 <= y < h && 0 <= x < w ==> board[y][x] == InitialCell
      ensures myRobots == [] && radars == [] && traps == [] && oreVeils == []
      ensures robotWithTrapId == None
    {
      width, height := w, h;
      cells := new Cell?[w, h];
      myRobots, radars, traps, oreVeils := [], [], [], [];
      robotWithTrapId := None;
      board := seq(h, y => seq(w, x => InitialCell));
      cellPos := map[];
      cellSet := {};
      new;
      var x := 0;
      while x < w
        invariant 0 <= x <= w
        invariant cells.Length0 == w && cells.Length1 == h
        invariant board == seq(h, y => seq(w, x => InitialCell))
        invariant myRobots == [] && radars == [] && traps == [] && oreVeils == [] && robotWithTrapId == None
        invariant fresh(cells) && fresh(cellSet)
        invariant forall x', y' :: 0 <= x' < x && 0 <= y' < h ==>
          cells[x', y'] != null && cells[x', y'] in cellSet && cells[x', y'] in cellPos &&
          cellPos[cells[x', y']] == (x', y') && cells[x', y'].State() == InitialCell
      {
        var y := 0;
        while y < h
          invariant 0 <= y <= h
          invariant cells.Length0 == w && cells.Length1 == h
          invariant board == seq(h, y => seq(w, x => InitialCell))
          invariant myRobots == [] && radars == [] && traps == [] && oreVeils == [] && robotWithTrapId == None
          invariant fresh(cells) && fresh(cellSet)
          invariant forall x', y' :: 0 <= x' < w && 0 <= y' < h && (x' < x || (x' == x && y' < y)) ==>
            cells[x', y'] != null && cells[x', y'] in cellSet && cells[x', y'] in cellPos &&
            cellPos[cells[x', y']] == (x', y') && cells[x', y'].State() == InitialCell
        {
          var c := new Cell();
          cells[x, y] := c;
          cellPos := cellPos[c := (x, y)];
          cellSet := cellSet + {c};
          y := y + 1;
        }
        x := x + 1;
      }
    }

    /** Cells[x, y].Update(ore, hole), seen on the board as a value. */
    method UpdateCell(x: nat, y: nat, reading: Reading) returns (c: Cell)
      requires Valid() && x < width && y < height
      modifies this`board, cellSet
      ensures Valid() && cellSet == old(cellSet) && c == cells[x, y]
      ensures board == old(board)[y := old(board[y])[x := ApplyReading(old(board[y][x]), reading.ore, reading.hole)]]
    {
      c := cells[x, y];
      c.Update(reading.ore, reading.hole);
      board := board[y := board[y][x := c.State()]];
    }

    /**
     * Row y of the board scan: each cell of the row is updated from its
     * reading, columns in increasing order, and each known cell with positive
     * ore is appended to OreVeils with the amount just read.
     */
    method UpdateRow(y: nat, row: seq<Reading>)
      requires Valid() && y < height && |row| == width
      modifies this`oreVeils, this`board, cellSet
      ensures Valid() && cellSet == old(cellSet)
      ensures board == old(board)[y := ApplyRow(old(board[y]), row)]
      ensures oreVeils == old(oreVeils) + RowSites(board[y], y)
    {
      var j := 0;
      while j < width
        invariant 0 <= j <= width
        invariant Valid() && cellSet == old(cellSet)
        invariant forall y' :: 0 <= y' < height && y' != y ==> board[y'] == old(board[y'])
        invariant forall x :: 0 <= x < j ==> board[y][x] == ApplyReading(old(board[y][x]), row[x].ore, row[x].hole)
        invariant forall x :: j <= x < width ==> board[y][x] == old(board[y][x])
        invariant oreVeils == old(oreVeils) + RowSites(board[y][..j], y)
      {
        ghost var before := board[y];
        var c := UpdateCell(j, y, row[j]);
        assert board[y][..j + 1][..j] == before[..j];
        if c.known && c.ore > 0 {
          oreVeils := oreVeils + [OreVeil(Coord(j, y), row[j].ore.n)];
        }
        j := j + 1;
      }
      assert board[y][..width] == board[y];
      assert board[y] == ApplyRow(old(board[y]), row);
    }

    /**
     * The board half of a turn (Program.cs lines 206-217): OreVeils.Clear(),
     * then the rows are scanned in increasing order.
     */
    method UpdateBoard(readings: seq<seq<Reading>>)
      requires Valid()
      requires |readings| == height && forall y :: 0 <= y < height ==> |readings[y]| == width
      modifies this`oreVeils, this`board, cellSet
      ensures Valid()
      ensures forall y :: 0 <= y < height ==> board[y] == ApplyRow(old(board[y]), readings[y])
      ensures oreVeils == Sites(board)
    {
      oreVeils := [];
      var i := 0;
      while i < height
        invariant 0 <= i <= height
        invariant Valid() && cellSet == old(cellSet)
        invariant forall y :: 0 <= y < i ==> board[y] == ApplyRow(old(board[y]), readings[y])
        invariant forall y :: i <= y < height ==> board[y] == old(board[y])
        invariant oreVeils == Sites(board[..i])
      {
        ghost var before := board;
        UpdateRow(i, readings[i]);
        assert board[..i] == before[..i];
        assert board[..i + 1][..i] == board[..i];
        i := i + 1;
      }
      assert board[..height] == board;
    }

    /**
     * The entity half of a turn: Radars and Traps are cleared and refilled in
     * input order, own robots are upserted into the registry.
     */
    method IngestEntities(lines: seq<EntityLine>)
      requires UniqueIds(myRobots)
      modifies this`myRobots, this`radars, this`traps
      ensures UniqueIds(myRobots)
      ensures myRobots == RegisterAll(old(myRobots), lines)
      ensures radars == OfKind(lines, Radar)
      ensures traps == OfKind(lines, Trap)
    {
      radars, traps := [], [];
      var i := 0;
      while i < |lines|
        invariant 0 <= i <= |lines|
        invariant myRobots == RegisterAll(old(myRobots), lines[..i])
        invariant radars == OfKind(lines[..i], Radar)
        invariant traps == OfKind(lines[..i], Trap)
      {
        var line := lines[i];
        assert lines[..i + 1][..i] == lines[..i];
        match line.kind {
          case MyRobot =>
            myRobots := AddOrUpdateRobotInfo(myRobots, Entity(line.id, line.pos, line.item));
          case Radar =>
            radars := radars + [Entity(line.id, line.pos, line.item)];
          case Trap =>
            traps := traps + [Entity(line.id, line.pos, line.item)];
          case _ =>
        }
        i := i + 1;
      }
      assert lines[..|lines|] == lines;
    }

    /**
     * The dispatch block: for the first five robots of the registry, in
     * order, clear a stale trap-carrier id, then give robot 0 the radar role,
     * make every other robot request a trap when one is needed (recording
     * the chosen carrier), send a trap carrier to MinePlacer and the rest to
     * DiggerIssue.
     */
    method DecideTurn() returns (outcome: TurnOutcome)
      requires |myRobots| >= 5
      modifies this`robotWithTrapId
      ensures var kept := RefreshTrapCarrier(old(robotWithTrapId), myRobots);
        var need := NeedToRequestTrap(myRobots);
        robotWithTrapId == (if need.0 then Some(need.1) else kept)
      ensures var kept := RefreshTrapCarrier(old(robotWithTrapId), myRobots);
        outcome.Actions? ==>
          |outcome.commands| == 5 &&
          forall i :: 0 <= i < 5 ==>
            RobotCommand(i, myRobots, kept, radars, oreVeils, traps) == Some(outcome.commands[i])
      ensures var kept := RefreshTrapCarrier(old(robotWithTrapId), myRobots);
        outcome.Crash? ==>
          outcome.robot < 5 && RobotCommand(outcome.robot, myRobots, kept, radars, oreVeils, traps).None? &&
          forall i :: 0 <= i < outcome.robot ==> RobotCommand(i, myRobots, kept, radars, oreVeils, traps).Some?
    {
      ghost var kept := RefreshTrapCarrier(robotWithTrapId, myRobots);
      ghost var need := NeedToRequestTrap(myRobots);
      var actionList: seq<Command> := [];
      var i := 0;
      while i < 5
        invariant 0 <= i <= 5 && |actionList| == i
        invariant robotWithTrapId == (if need.0 && i > 1 then Some(need.1) else if i > 0 then kept else old(robotWithTrapId))
        invariant forall k :: 0 <= k < i ==>
          RobotCommand(k, myRobots, kept, radars, oreVeils, traps) == Some(actionList[k])
      {
        var robot := myRobots[i];
        if robotWithTrapId.Some? && robotWithTrapId.value !in Ids(myRobots) {
          robotWithTrapId := None;
        }
        var action: Command;
        var trapCheck := NeedToRequestTrap(myRobots);
        if i == 0 {
          action := RadarPlacer(robot, radars, oreVeils, traps);
        } else if trapCheck.0 {
          robotWithTrapId := Some(trapCheck.1);
          action := Request(Trap);
        } else if robot.item == Trap {
          if robotWithTrapId.None? {
            return Crash(i);
          }
          action := MinePlacer(robot, myRobots, robotWithTrapId, oreVeils, traps);
        } else {
          action := DiggerIssue(robot, oreVeils, traps);
        }
        actionList := actionList + [action];
        i := i + 1;
      }
      outcome := Actions(actionList);
    }

    /**
     * One iteration of the turn loop, after parsing: the board scan, the
     * entity ingest, then the dispatch block. The loop's hard-coded five
     * robots must be in the registry by then.
     */
    method PlayTurn(readings: seq<seq<Reading>>, lines: seq<EntityLine>) returns (outcome: TurnOutcome)
      requires Valid() && UniqueIds(myRobots)
      requires |readings| == height && forall y :: 0 <= y < height ==> |readings[y]| == width
      requires |RegisterAll(myRobots, lines)| >= 5
      modifies this`oreVeils, this`board, cellSet, this`myRobots, this`radars, this`traps, this`robotWithTrapId
      ensures Valid() && UniqueIds(myRobots)
      ensures forall y :: 0 <= y < height ==> board[y] == ApplyRow(old(board[y]), readings[y])
      ensures oreVeils == Sites(board)
      ensures myRobots == RegisterAll(old(myRobots), lines)
      ensures radars == OfKind(lines, Radar) && traps == OfKind(lines, Trap)
      ensures var kept := RefreshTrapCarrier(old(robotWithTrapId), myRobots);
        var need := NeedToRequestTrap(myRobots);
        robotWithTrapId == (if need.0 then Some(need.1) else kept)
      ensures var kept := RefreshTrapCarrier(old(robotWithTrapId), myRobots);
        outcome.Actions? ==>
          |outcome.commands| == 5 &&
          forall i :: 0 <= i < 5 ==>
            RobotCommand(i, myRobots, kept, radars, oreVeils, traps) == Some(outcome.commands[i])
      ensures var kept := RefreshTrapCarrier(old(robotWithTrapId), myRobots);
        outcome.Crash? ==>
          outcome.robot < 5 && RobotCommand(outcome.robot, myRobots, kept, radars, oreVeils, traps).None? &&
          forall i :: 0 <= i < outcome.robot ==> RobotCommand(i, myRobots, kept, radars, oreVeils, traps).Some?
    {
      UpdateBoard(readings);
      IngestEntities(lines);
      outcome := DecideTurn();
    }
  }
}

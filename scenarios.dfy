/** Concrete turns: what the dispatch picks in a few small situations. */
module Scenarios {
  import opened Wrappers
  import opened Geometry
  import opened Board
  import opened Registry
  import opened Selectors
  import opened GameState

  /** Five empty-handed robots away from column 0. */
  const Idle: seq<Robot> := [
    Entity(0, Coord(3, 1), Nothing), Entity(1, Coord(3, 4), Nothing), Entity(2, Coord(3, 7), Nothing),
    Entity(3, Coord(3, 10), Nothing), Entity(4, Coord(3, 13), Nothing)]

  /** Nothing known yet: the radar robot requests a radar and the others wait. */
  lemma OpeningTurn()
    ensures RobotCommand(0, Idle, None, [], [], []) == Some(Request(Radar))
    ensures forall i :: 1 <= i < 5 ==> RobotCommand(i, Idle, None, [], [], []) == Some(Wait)
  {
    assert !NeedToRequestTrap(Idle).0;
  }

  /** A robot on the home column with nobody carrying a trap: every robot but 0 requests one. */
  lemma TrapRequestOverrides(sites: seq<OreVeil>)
    ensures var robots := Idle[2 := Entity(2, Coord(0, 7), Nothing)];
      NeedToRequestTrap(robots) == (true, 2) &&
      forall i :: 1 <= i < 5 ==> RobotCommand(i, robots, None, [], sites, []) == Some(Request(Trap))
  {
    var robots := Idle[2 := Entity(2, Coord(0, 7), Nothing)];
    assert robots[2].pos.x == 0;
  }

  /** A robot carrying ore walks to column 0 of its own row. */
  lemma OreGoesHome(sites: seq<OreVeil>, traps: seq<Entity>)
    ensures DiggerIssue(Entity(7, Coord(0, 0), Ore), sites, traps) == Move(Coord(0, 0))
    ensures DiggerIssue(Entity(7, Coord(12, 9), Ore), sites, traps) == Move(Coord(0, 9))
  {
  }

  /** An ore site one cell away is dug. */
  lemma AdjacentSiteIsDug()
    ensures DiggerIssue(Entity(1, Coord(5, 6), Nothing), [OreVeil(Coord(5, 5), 3)], []) == Dig(Coord(5, 5))
  {
    assert Nearest([OreVeil(Coord(5, 5), 3)], Coord(5, 6), []) == Some(0);
  }

  /** A farther site is walked to. */
  lemma DistantSiteIsApproached()
    ensures DiggerIssue(Entity(1, Coord(6, 6), Nothing), [OreVeil(Coord(10, 10), 2)], []) == Move(Coord(10, 10))
  {
    assert Nearest([OreVeil(Coord(10, 10), 2)], Coord(6, 6), []) == Some(0);
  }

  /** A trapped site is skipped in favour of a farther free one. */
  lemma TrappedSiteIsSkipped()
    ensures DiggerIssue(Entity(1, Coord(4, 4), Nothing),
                        [OreVeil(Coord(4, 5), 1), OreVeil(Coord(9, 4), 1)],
                        [Entity(20, Coord(4, 5), Nothing)]) == Move(Coord(9, 4))
  {
    var sites := [OreVeil(Coord(4, 5), 1), OreVeil(Coord(9, 4), 1)];
    var traps := [Entity(20, Coord(4, 5), Nothing)];
    assert !Untrapped(sites[0].pos, traps);
    assert Nearest(sites, Coord(4, 4), traps) == Some(1);
  }

  /** Equally near sites: the one first in scan order wins. */
  lemma TieGoesToScanOrder()
    ensures DiggerIssue(Entity(1, Coord(5, 5), Nothing),
                        [OreVeil(Coord(5, 2), 1), OreVeil(Coord(2, 5), 1), OreVeil(Coord(8, 5), 1)], []) ==
            Move(Coord(5, 2))
  {
    var sites := [OreVeil(Coord(5, 2), 1), OreVeil(Coord(2, 5), 1), OreVeil(Coord(8, 5), 1)];
    assert Nearest(sites, Coord(5, 5), []) == Some(0);
  }

  /** With the first slot taken, the radar carrier heads for the second one, shifted to (10, 8). */
  lemma SecondRadarSlot()
    ensures RadarPlacer(Entity(0, Coord(0, 3), Radar), [Entity(30, Coord(5, 4), Nothing)], [], []) == Move(Coord(10, 8))
    ensures RadarPlacer(Entity(0, Coord(10, 8), Radar), [Entity(30, Coord(5, 4), Nothing)], [], []) == Dig(Coord(10, 8))
  {
    var radars := [Entity(30, Coord(5, 4), Nothing)];
    assert Occupied(Shifted(RadarSlots[0]), radars);
    assert !Occupied(Shifted(RadarSlots[1]), radars);
    assert FirstFreeSlot(RadarSlots, radars) == Some(1);
  }

  /** Robot 7 arrives, an opponent is seen, robot 2 arrives, then robot 7 moves and picks up ore. */
  const Arrivals: seq<EntityLine> := [
    EntityLine(7, MyRobot, Coord(3, 3), Nothing), EntityLine(9, OpponentRobot, Coord(1, 1), Nothing),
    EntityLine(2, MyRobot, Coord(4, 4), Nothing), EntityLine(7, MyRobot, Coord(0, 5), Ore)]

  lemma ArrivalsFirstOne()
    ensures RegisterAll([], Arrivals[..1]) == [Entity(7, Coord(3, 3), Nothing)]
  {
    assert Arrivals[..1][..0] == [] && Arrivals[..1][0] == Arrivals[0];
    assert IndexOfId([], 7) == None;
  }

  lemma ArrivalsFirstTwo()
    ensures RegisterAll([], Arrivals[..2]) == [Entity(7, Coord(3, 3), Nothing)]
  {
    ArrivalsFirstOne();
    assert Arrivals[..2][..1] == Arrivals[..1] && Arrivals[..2][1].kind == OpponentRobot;
  }

  lemma ArrivalsFirstThree()
    ensures RegisterAll([], Arrivals[..3]) == [Entity(7, Coord(3, 3), Nothing), Entity(2, Coord(4, 4), Nothing)]
  {
    ArrivalsFirstTwo();
    assert Arrivals[..3][..2] == Arrivals[..2] && Arrivals[..3][2] == EntityLine(2, MyRobot, Coord(4, 4), Nothing);
    assert IndexOfId([Entity(7, Coord(3, 3), Nothing)], 2) == None;
  }

  /**
   * New robots enter the registry in the order of their first line; a later
   * line for the same id updates the record in its place.
   */
  lemma NewRobotsInLineOrder()
    ensures RegisterAll([], Arrivals) == [Entity(7, Coord(0, 5), Ore), Entity(2, Coord(4, 4), Nothing)]
  {
    ArrivalsFirstThree();
    assert Arrivals[..3] == Arrivals[..|Arrivals| - 1] && Arrivals[3] == EntityLine(7, MyRobot, Coord(0, 5), Ore);
    assert IndexOfId([Entity(7, Coord(3, 3), Nothing), Entity(2, Coord(4, 4), Nothing)], 7) == Some(0);
  }
}

/**
 * The per-robot action selectors of class Player: DiggerIssue, MinePlacer,
 * RadarPlacer, GetPointForRadarPlacer and needToRequestTrap. Each is a pure
 * function of the turn's snapshot.
 */
module Selectors {
  import opened Wrappers
  import opened Geometry
  import opened Board
  import opened Registry

  /** One output line, without its free-text message. */
  datatype Command = Wait | Move(target: Coord) | Dig(target: Coord) | Request(item: EntityType)

  /** No trap lies at p (Traps.All(t => t.Pos != p)). */
  predicate Untrapped(p: Coord, traps: seq<Entity>)
  {
    forall t :: t in traps ==> t.pos != p
  }

  /**
   * Index k is what Where(untrapped).OrderBy(distance).FirstOrDefault() picks:
   * an untrapped site at minimal distance, and every earlier untrapped site is
   * strictly farther (OrderBy is stable).
   */
  ghost predicate IsNearest(sites: seq<OreVeil>, from: Coord, traps: seq<Entity>, k: int)
  {
    0 <= k < |sites| && Untrapped(sites[k].pos, traps) &&
    (forall j :: 0 <= j < |sites| && Untrapped(sites[j].pos, traps) ==>
       Distance(sites[k].pos, from) <= Distance(sites[j].pos, from)) &&
    (forall j :: 0 <= j < k && Untrapped(sites[j].pos, traps) ==>
       Distance(sites[k].pos, from) < Distance(sites[j].pos, from))
  }

  function Nearest(sites: seq<OreVeil>, from: Coord, traps: seq<Entity>): (r: Option<nat>)
    ensures r.None? <==> forall j :: 0 <= j < |sites| ==> !Untrapped(sites[j].pos, traps)
    ensures r.Some? ==> IsNearest(sites, from, traps, r.value)
  {
    if sites == [] then None
    else
      var n := |sites| - 1;
      var best := Nearest(sites[..n], from, traps);
      if !Untrapped(sites[n].pos, traps) then best
      else if best.None? || Distance(sites[n].pos, from) < Distance(sites[best.value].pos, from) then Some(n)
      else best
  }

  /** The nearest site is determined uniquely. */
  lemma NearestUnique(sites: seq<OreVeil>, from: Coord, traps: seq<Entity>, k1: int, k2: int)
    requires IsNearest(sites, from, traps, k1) && IsNearest(sites, from, traps, k2)
    ensures k1 == k2
  {
  }

  /** An order to walk to a target, or to dig it when within one cell (distance < 2). */
  function Approach(target: Coord, from: Coord): (cmd: Command)
    ensures cmd == Dig(target) || cmd == Move(target)
    ensures cmd.Dig? <==> Distance(target, from) <= 1
  {
    if Distance(target, from) < 2 then Dig(target) else Move(target)
  }

  /**
   * DiggerIssue: with ore, walk home to column 0 on the own row; otherwise dig
   * or walk to the nearest untrapped ore site, or wait when there is none.
   */
  function DiggerIssue(robot: Robot, oreVeils: seq<OreVeil>, traps: seq<Entity>): (cmd: Command)
    ensures robot.item == Ore ==> cmd == Move(Coord(0, robot.pos.y))
    ensures robot.item != Ore ==>
      (cmd == Wait <==> forall j :: 0 <= j < |oreVeils| ==> !Untrapped(oreVeils[j].pos, traps))
    ensures robot.item != Ore && cmd != Wait ==>
      exists k :: IsNearest(oreVeils, robot.pos, traps, k) &&
        (cmd == Dig(oreVeils[k].pos) || cmd == Move(oreVeils[k].pos)) &&
        (cmd.Dig? <==> Distance(oreVeils[k].pos, robot.pos) <= 1)
  {
    if robot.item == Ore then Move(Coord(0, robot.pos.y))
    else
      match Nearest(oreVeils, robot.pos, traps)
      case None => Wait
      case Some(k) => Approach(oreVeils[k].pos, robot.pos)
  }

  /**
   * MinePlacer: the designated trap carrier (looked up by robotWithTrapId) is
   * sent to the ore site nearest to it, traps or not; with no site at all, the
   * robot at hand falls back to DiggerIssue. The C# cast of a null id throws,
   * so the id must be set and present.
   */
  function MinePlacer(robot: Robot, myRobots: seq<Robot>, robotWithTrapId: Option<int>,
                      oreVeils: seq<OreVeil>, traps: seq<Entity>): (cmd: Command)
    requires robotWithTrapId.Some? && robotWithTrapId.value in Ids(myRobots)
    ensures oreVeils == [] ==> cmd == DiggerIssue(robot, oreVeils, traps)
    ensures oreVeils != [] ==>
      var placer := myRobots[IndexOfId(myRobots, robotWithTrapId.value).value];
      exists k :: IsNearest(oreVeils, placer.pos, [], k) &&
        (cmd == Dig(oreVeils[k].pos) || cmd == Move(oreVeils[k].pos)) &&
        (cmd.Dig? <==> Distance(oreVeils[k].pos, placer.pos) <= 1)
  {
    var placer := myRobots[IndexOfId(myRobots, robotWithTrapId.value).value];
    match Nearest(oreVeils, placer.pos, [])
    case None => DiggerIssue(robot, oreVeils, traps)
    case Some(k) => Approach(oreVeils[k].pos, placer.pos)
  }

  /** The radar coverage pattern of GetPointForRadarPlacer, before the (-1,-1) shift. */
  const RadarSlots: seq<Coord> := [
    Coord(6, 5), Coord(11, 9), Coord(16, 5), Coord(21, 9), Coord(26, 5),
    Coord(16, 13), Coord(7, 14), Coord(25, 14), Coord(1, 10), Coord(30, 10),
    Coord(11, 1), Coord(21, 1), Coord(30, 1), Coord(1, 1), Coord(11, 15),
    Coord(19, 15), Coord(29, 15)]

  function Shifted(c: Coord): Coord
  {
    Coord(c.x - 1, c.y - 1)
  }

  /** Some radar stands exactly at p (the negation of Radars.All(r => r.Pos != p)). */
  predicate Occupied(p: Coord, radars: seq<Entity>)
  {
    exists r :: r in radars && r.pos == p
  }

  /** The first index whose shifted slot no radar occupies. */
  function FirstFreeSlot(slots: seq<Coord>, radars: seq<Entity>): (r: Option<nat>)
    ensures r.None? <==> forall k :: 0 <= k < |slots| ==> Occupied(Shifted(slots[k]), radars)
    ensures r.Some? ==> r.value < |slots| && !Occupied(Shifted(slots[r.value]), radars)
    ensures r.Some? ==> forall j :: 0 <= j < r.value ==> Occupied(Shifted(slots[j]), radars)
  {
    if slots == [] then None
    else if !Occupied(Shifted(slots[0]), radars) then Some(0)
    else
      var rest := FirstFreeSlot(slots[1..], radars);
      assert forall k :: 1 <= k < |slots| ==> slots[k] == slots[1..][k - 1];
      if rest.Some? then Some(rest.value + 1) else None
  }

  /**
   * GetPointForRadarPlacer: the first slot of the pattern, shifted by (-1,-1),
   * with no radar at that exact position; None (null) when all are taken.
   */
  function GetPointForRadarPlacer(radars: seq<Entity>): (r: Option<Coord>)
    ensures r.None? <==> forall k :: 0 <= k < |RadarSlots| ==> Occupied(Shifted(RadarSlots[k]), radars)
    ensures r.Some? ==> !Occupied(r.value, radars)
    ensures r.Some? ==>
      exists k :: 0 <= k < |RadarSlots| && r.value == Shifted(RadarSlots[k]) &&
        (forall j :: 0 <= j < k ==> Occupied(Shifted(RadarSlots[j]), radars))
  {
    match FirstFreeSlot(RadarSlots, radars)
    case None => None
    case Some(k) => Some(Shifted(RadarSlots[k]))
  }

  /**
   * RadarPlacer: a robot holding a radar walks to the chosen slot and digs it
   * in once there (or digs for ore when every slot is taken); an empty-handed
   * or ore-carrying robot requests a radar; a trap carrier waits.
   */
  function RadarPlacer(robot: Robot, radars: seq<Entity>, oreVeils: seq<OreVeil>, traps: seq<Entity>): (cmd: Command)
    ensures robot.item == Radar && GetPointForRadarPlacer(radars).None? ==> cmd == DiggerIssue(robot, oreVeils, traps)
    ensures robot.item == Radar && GetPointForRadarPlacer(radars).Some? ==>
      var p := GetPointForRadarPlacer(radars).value;
      !Occupied(p, radars) && (cmd == Dig(p) || cmd == Move(p)) && (cmd.Dig? <==> robot.pos == p)
    ensures robot.item == Nothing || robot.item == Ore ==> cmd == Request(Radar)
    ensures robot.item !in {Radar, Nothing, Ore} ==> cmd == Wait
  {
    if robot.item == Radar then
      match GetPointForRadarPlacer(radars)
      case None => DiggerIssue(robot, oreVeils, traps)
      case Some(p) => if robot.pos != p then Move(p) else Dig(p)
    else if robot.item == Nothing || robot.item == Ore then Request(Radar)
    else Wait
  }

  /** The first robot standing in column 0, in registry order. */
  function FirstAtHome(robots: seq<Robot>): (r: Option<nat>)
    ensures r.None? <==> forall k :: 0 <= k < |robots| ==> robots[k].pos.x != 0
    ensures r.Some? ==> r.value < |robots| && robots[r.value].pos.x == 0
    ensures r.Some? ==> forall j :: 0 <= j < r.value ==> robots[j].pos.x != 0
  {
    if robots == [] then None
    else if robots[0].pos.x == 0 then Some(0)
    else
      var rest := FirstAtHome(robots[1..]);
      assert forall k :: 1 <= k < |robots| ==> robots[k] == robots[1..][k - 1];
      if rest.Some? then Some(rest.value + 1) else None
  }

  predicate SomeCarries(robots: seq<Robot>, item: EntityType)
  {
    exists r :: r in robots && r.item == item
  }

  /**
   * needToRequestTrap: true, with the id of the first robot in column 0, when
   * no own robot carries a trap and some robot stands in column 0; otherwise
   * false with the out parameter's default 0.
   */
  function NeedToRequestTrap(robots: seq<Robot>): (r: (bool, int))
    ensures r.0 <==> !SomeCarries(robots, Trap) && exists k :: 0 <= k < |robots| && robots[k].pos.x == 0
    ensures r.0 ==>
      exists k :: 0 <= k < |robots| && robots[k].pos.x == 0 && r.1 == robots[k].id &&
        (forall j :: 0 <= j < k ==> robots[j].pos.x != 0)
    ensures !r.0 ==> r.1 == 0
  {
    if SomeCarries(robots, Trap) then (false, 0)
    else
      match FirstAtHome(robots)
      case Some(k) => (true, robots[k].id)
      case None => (false, 0)
  }
}

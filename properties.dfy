/**
 * Properties that connect the selectors to the board they read: the ore-site
 * list the selectors search is the board scan, so their targets are cells of
 * the board.
 */
module Properties {
  import opened Wrappers
  import opened Geometry
  import opened Board
  import opened Registry
  import opened Selectors

  ghost predicate OnBoard(rows: seq<seq<CellState>>, p: Coord)
  {
    0 <= p.y < |rows| && 0 <= p.x < |rows[p.y]|
  }

  /** An ore cell of the board without a trap on it. */
  ghost predicate Diggable(rows: seq<seq<CellState>>, p: Coord, traps: seq<Entity>)
  {
    OnBoard(rows, p) && IsSite(rows[p.y][p.x]) && Untrapped(p, traps)
  }

  /**
   * t is the untrapped ore cell of the board nearest to from; among equally
   * near ones it comes first in row-major order.
   */
  ghost predicate Closest(rows: seq<seq<CellState>>, t: Coord, from: Coord, traps: seq<Entity>)
  {
    Diggable(rows, t, traps) &&
    forall x, y :: 0 <= y < |rows| && 0 <= x < |rows[y]| && Diggable(rows, Coord(x, y), traps) ==>
      Distance(t, from) <= Distance(Coord(x, y), from) &&
      (Distance(t, from) == Distance(Coord(x, y), from) ==> t == Coord(x, y) || ScanBefore(t, Coord(x, y)))
  }

  /** Over the scanned site list, nearest-first-in-list is Closest on the board. */
  lemma NearestOnBoard(rows: seq<seq<CellState>>, from: Coord, traps: seq<Entity>, k: int)
    requires IsNearest(Sites(rows), from, traps, k)
    ensures Closest(rows, Sites(rows)[k].pos, from, traps)
  {
    var s := Sites(rows);
    SitesSound(rows, k);
    forall x, y | 0 <= y < |rows| && 0 <= x < |rows[y]| && Diggable(rows, Coord(x, y), traps)
      ensures Distance(s[k].pos, from) <= Distance(Coord(x, y), from)
      ensures Distance(s[k].pos, from) == Distance(Coord(x, y), from) ==>
        s[k].pos == Coord(x, y) || ScanBefore(s[k].pos, Coord(x, y))
    {
      SitesComplete(rows, x, y);
      var j :| 0 <= j < |s| && s[j].pos == Coord(x, y);
      if j > k {
        SitesInScanOrder(rows, k, j);
      }
    }
  }

  /** The default digger (not carrying ore) waits exactly when the board has no untrapped ore cell. */
  lemma DiggerWaitsIffNoOreCell(rows: seq<seq<CellState>>, robot: Robot, traps: seq<Entity>)
    requires robot.item != Ore
    ensures DiggerIssue(robot, Sites(rows), traps) == Wait <==>
      forall x, y :: 0 <= y < |rows| && 0 <= x < |rows[y]| ==> !Diggable(rows, Coord(x, y), traps)
  {
    var s := Sites(rows);
    if DiggerIssue(robot, s, traps) == Wait {
      forall x, y | 0 <= y < |rows| && 0 <= x < |rows[y]|
        ensures !Diggable(rows, Coord(x, y), traps)
      {
        if IsSite(rows[y][x]) {
          SitesComplete(rows, x, y);
        }
      }
    } else {
      var k :| IsNearest(s, robot.pos, traps, k);
      SitesSound(rows, k);
    }
  }

  /**
   * Otherwise it digs or walks to the Closest untrapped ore cell, never onto
   * a trap, and digs exactly when that cell is within distance 1.
   */
  lemma DiggerTargetsClosestOreCell(rows: seq<seq<CellState>>, robot: Robot, traps: seq<Entity>)
    requires robot.item != Ore && DiggerIssue(robot, Sites(rows), traps) != Wait
    ensures var cmd := DiggerIssue(robot, Sites(rows), traps);
      (cmd.Dig? || cmd.Move?) && Closest(rows, cmd.target, robot.pos, traps) &&
      (cmd.Dig? <==> Distance(cmd.target, robot.pos) <= 1)
  {
    var s := Sites(rows);
    var cmd := DiggerIssue(robot, s, traps);
    var k :| IsNearest(s, robot.pos, traps, k) && (cmd == Dig(s[k].pos) || cmd == Move(s[k].pos)) &&
      (cmd.Dig? <==> Distance(s[k].pos, robot.pos) <= 1);
    NearestOnBoard(rows, robot.pos, traps, k);
  }

  /** The trap carrier digs or walks to the ore cell of the board Closest to the designated carrier. */
  lemma MinePlacerTargetsClosestOreCell(rows: seq<seq<CellState>>, robot: Robot, myRobots: seq<Robot>,
                                        id: int, traps: seq<Entity>)
    requires id in Ids(myRobots) && Sites(rows) != []
    ensures var placer := myRobots[IndexOfId(myRobots, id).value];
      var cmd := MinePlacer(robot, myRobots, Some(id), Sites(rows), traps);
      (cmd.Dig? || cmd.Move?) && Closest(rows, cmd.target, placer.pos, []) &&
      (cmd.Dig? <==> Distance(cmd.target, placer.pos) <= 1)
  {
    var s := Sites(rows);
    var placer := myRobots[IndexOfId(myRobots, id).value];
    var cmd := MinePlacer(robot, myRobots, Some(id), s, traps);
    var k :| IsNearest(s, placer.pos, [], k) && (cmd == Dig(s[k].pos) || cmd == Move(s[k].pos)) &&
      (cmd.Dig? <==> Distance(s[k].pos, placer.pos) <= 1);
    NearestOnBoard(rows, placer.pos, [], k);
  }

  lemma {:induction false} PositionsAtMostEntities(radars: seq<Entity>)
    ensures |set r | r in radars :: r.pos| <= |radars|
  {
    if radars != [] {
      PositionsAtMostEntities(radars[1..]);
      assert (set r | r in radars :: r.pos) == {radars[0].pos} + set r | r in radars[1..] :: r.pos by {
        assert forall r :: r in radars <==> r == radars[0] || r in radars[1..];
      }
    }
  }

  /** The pattern after the (-1,-1) shift. */
  const ShiftedSlots: set<Coord> := set c | c in RadarSlots :: Shifted(c)

  /** No coordinate occurs twice in s. */
  ghost predicate NoRepeats(s: seq<Coord>)
  {
    forall i, j :: 0 <= i < j < |s| ==> s[i] != s[j]
  }

  /** Shifting a repeat-free list of slots gives as many positions as slots. */
  lemma {:induction false} ShiftedCount(s: seq<Coord>)
    requires NoRepeats(s)
    ensures |set c | c in s :: Shifted(c)| == |s|
  {
    if s != [] {
      ShiftedCount(s[1..]);
      assert (set c | c in s :: Shifted(c)) == {Shifted(s[0])} + set c | c in s[1..] :: Shifted(c) by {
        assert forall c :: c in s <==> c == s[0] || c in s[1..];
      }
      assert Shifted(s[0]) !in set c | c in s[1..] :: Shifted(c) by {
        forall c | c in s[1..] ensures Shifted(c) != Shifted(s[0]) {
          var j :| 0 <= j < |s[1..]| && s[1..][j] == c;
          assert s[j + 1] == c;
        }
      }
    }
  }

  lemma ShiftedSlotsAreSeventeen()
    ensures |ShiftedSlots| == 17
  {
    assert NoRepeats(RadarSlots) by {
      forall i, j | 0 <= i < j < |RadarSlots| ensures RadarSlots[i] != RadarSlots[j] {
        assert 0 <= i < 17 && i < j < 17;
      }
    }
    ShiftedCount(RadarSlots);
    assert ShiftedSlots == set c | c in RadarSlots :: Shifted(c);
  }

  lemma AllSlotsTaken(radars: seq<Entity>)
    requires GetPointForRadarPlacer(radars).None?
    ensures ShiftedSlots <= set r | r in radars :: r.pos
  {
    forall c | c in RadarSlots ensures Shifted(c) in set r | r in radars :: r.pos {
      var k :| 0 <= k < |RadarSlots| && RadarSlots[k] == c;
      assert Occupied(Shifted(RadarSlots[k]), radars);
    }
  }

  /** GetPointForRadarPlacer returns null only once at least 17 radars stand on the board. */
  lemma NoFreeSlotNeedsSeventeenRadars(radars: seq<Entity>)
    requires GetPointForRadarPlacer(radars).None?
    ensures |radars| >= 17
  {
    AllSlotsTaken(radars);
    ShiftedSlotsAreSeventeen();
    SubsetCardinality(ShiftedSlots, set r | r in radars :: r.pos);
    PositionsAtMostEntities(radars);
  }

  lemma SubsetCardinality<T>(a: set<T>, b: set<T>)
    requires a <= b
    ensures |a| <= |b|
  {
    assert b == a + (b - a);
  }
}

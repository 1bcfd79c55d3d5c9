/**
 * Entities and the own-robot registry (enum EntityType, classes Entity and
 * Robot, Game.AddOrUpdateRobotInfo). The registry is the insertion-ordered
 * sequence of the dictionary's records; ids are its keys.
 */
module Registry {
  import opened Wrappers
  import opened Geometry

  /** enum EntityType: both the entity kind of the protocol and the carried item. */
  datatype EntityType = Nothing | MyRobot | OpponentRobot | Radar | Trap | Ore

  /** class Entity (and Robot, which adds no state). */
  datatype Entity = Entity(id: int, pos: Coord, item: EntityType)

  type Robot = Entity

  function Ids(robots: seq<Robot>): set<int>
  {
    set r | r in robots :: r.id
  }

  /** The dictionary's key invariant: no id occurs twice. */
  ghost predicate UniqueIds(robots: seq<Robot>)
  {
    forall i, j :: 0 <= i < |robots| && 0 <= j < |robots| && robots[i].id == robots[j].id ==> i == j
  }

  /** Dictionary.TryGetValue: the position of the record with this id, if any. */
  function IndexOfId(collection: seq<Robot>, id: int): (r: Option<nat>)
    ensures r.None? <==> id !in Ids(collection)
    ensures r.Some? ==> r.value < |collection| && collection[r.value].id == id
    ensures r.Some? ==> forall j :: 0 <= j < r.value ==> collection[j].id != id
  {
    if collection == [] then None
    else if collection[0].id == id then Some(0)
    else
      var rest := IndexOfId(collection[1..], id);
      assert Ids(collection) == {collection[0].id} + Ids(collection[1..]) by {
        assert forall r :: r in collection <==> r == collection[0] || r in collection[1..];
      }
      assert forall k :: 1 <= k < |collection| ==> collection[k] == collection[1..][k - 1];
      if rest.Some? then Some(rest.value + 1) else None
  }

  /**
   * Game.AddOrUpdateRobotInfo: an existing record keeps its place and gets the
   * new position and item; an unknown id is added at the end.
   */
  function AddOrUpdateRobotInfo(collection: seq<Robot>, src: Robot): (r: seq<Robot>)
    requires UniqueIds(collection)
    ensures UniqueIds(r)
    ensures Ids(r) == Ids(collection) + {src.id}
    ensures src.id in Ids(collection) ==> |r| == |collection|
    ensures src.id !in Ids(collection) ==> r == collection + [src]
    ensures forall k :: 0 <= k < |collection| && collection[k].id == src.id ==>
              r[k] == collection[k].(pos := src.pos, item := src.item)
    ensures forall k :: 0 <= k < |collection| && collection[k].id != src.id ==> r[k] == collection[k]
    ensures forall k :: 0 <= k < |r| && r[k].id == src.id ==> r[k].pos == src.pos && r[k].item == src.item
  {
    match IndexOfId(collection, src.id)
    case Some(k) =>
      var r := collection[k := collection[k].(item := src.item, pos := src.pos)];
      assert Ids(r) == Ids(collection) by {
        forall id ensures id in Ids(r) <==> id in Ids(collection) {
          if id in Ids(r) {
            var e :| e in r && e.id == id;
            var i :| 0 <= i < |r| && r[i] == e;
            assert collection[i].id == id;
          }
          if id in Ids(collection) {
            var e :| e in collection && e.id == id;
            var i :| 0 <= i < |collection| && collection[i] == e;
            assert r[i].id == id;
          }
        }
      }
      r
    case None =>
      var r := collection + [src];
      assert Ids(r) == Ids(collection) + {src.id} by {
        assert forall e :: e in r <==> e in collection || e == src;
      }
      r
  }

  /** One entity line of the protocol, already parsed. */
  datatype EntityLine = EntityLine(id: int, kind: EntityType, pos: Coord, item: EntityType)

  /** The entities of one kind among the lines, in input order (Radars.Add, Traps.Add). */
  function OfKind(lines: seq<EntityLine>, kind: EntityType): (r: seq<Entity>)
    ensures |r| <= |lines|
    ensures forall e :: e in r <==> exists l :: l in lines && l.kind == kind && e == Entity(l.id, l.pos, l.item)
    ensures forall i :: 0 <= i < |lines| && lines[i].kind == kind ==>
      OfKind(lines[..i], kind) + [Entity(lines[i].id, lines[i].pos, lines[i].item)] <= r
  {
    if lines == [] then []
    else
      var n := |lines| - 1;
      var l := lines[n];
      var before := OfKind(lines[..n], kind);
      var r := before + (if l.kind == kind then [Entity(l.id, l.pos, l.item)] else []);
      assert forall e :: e in r <==> exists l' :: l' in lines && l'.kind == kind && e == Entity(l'.id, l'.pos, l'.item) by {
        assert forall l' :: l' in lines <==> l' in lines[..n] || l' == l;
      }
      assert forall i :: 0 <= i < n && lines[i].kind == kind ==>
        OfKind(lines[..i], kind) + [Entity(lines[i].id, lines[i].pos, lines[i].item)] <= r by {
        forall i | 0 <= i < n && lines[i].kind == kind
          ensures OfKind(lines[..i], kind) + [Entity(lines[i].id, lines[i].pos, lines[i].item)] <= r
        {
          assert lines[..n][..i] == lines[..i] && lines[..n][i] == lines[i];
        }
      }
      r
  }

  /** How many lines have this kind, counted from the front. */
  function CountKind(lines: seq<EntityLine>, kind: EntityType): nat
  {
    if lines == [] then 0
    else CountKind(lines[1..], kind) + (if lines[0].kind == kind then 1 else 0)
  }

  /** Counting from the front agrees with counting one more line at the back. */
  lemma {:induction false} CountKindSnoc(lines: seq<EntityLine>, kind: EntityType)
    requires lines != []
    ensures CountKind(lines, kind) ==
      CountKind(lines[..|lines| - 1], kind) + (if lines[|lines| - 1].kind == kind then 1 else 0)
  {
    if |lines| > 1 {
      CountKindSnoc(lines[1..], kind);
      assert lines[1..][..|lines[1..]| - 1] == lines[..|lines| - 1][1..];
    }
  }

  /** Radars.Add and Traps.Add add one entity per line of their kind, and no more. */
  lemma {:induction false} OfKindCount(lines: seq<EntityLine>, kind: EntityType)
    ensures |OfKind(lines, kind)| == CountKind(lines, kind)
  {
    if lines != [] {
      OfKindCount(lines[..|lines| - 1], kind);
      CountKindSnoc(lines, kind);
    }
  }

  /** The ids of the own-robot lines. */
  function RobotLineIds(lines: seq<EntityLine>): set<int>
  {
    set l | l in lines && l.kind == MyRobot :: l.id
  }

  /** The last own-robot line for this id, if any. */
  function LastRobotLine(lines: seq<EntityLine>, id: int): (r: Option<nat>)
    ensures r.None? <==> id !in RobotLineIds(lines)
    ensures r.Some? ==> r.value < |lines| && lines[r.value].kind == MyRobot && lines[r.value].id == id
    ensures r.Some? ==> forall j :: r.value < j < |lines| ==> !(lines[j].kind == MyRobot && lines[j].id == id)
  {
    if lines == [] then None
    else
      var n := |lines| - 1;
      assert forall l' :: l' in lines <==> l' in lines[..n] || l' == lines[n];
      if lines[n].kind == MyRobot && lines[n].id == id then Some(n)
      else LastRobotLine(lines[..n], id)
  }

  /** The first own-robot line for this id, if any: where the id enters the registry. */
  function FirstRobotLine(lines: seq<EntityLine>, id: int): (r: Option<nat>)
    ensures r.None? <==> id !in RobotLineIds(lines)
    ensures r.Some? ==> r.value < |lines| && lines[r.value].kind == MyRobot && lines[r.value].id == id
    ensures r.Some? ==> forall j :: 0 <= j < r.value ==> !(lines[j].kind == MyRobot && lines[j].id == id)
  {
    if lines == [] then None
    else
      var n := |lines| - 1;
      assert forall l' :: l' in lines <==> l' in lines[..n] || l' == lines[n];
      var before := FirstRobotLine(lines[..n], id);
      if before.Some? then
        assert forall j :: 0 <= j < before.value ==> lines[..n][j] == lines[j];
        before
      else if lines[n].kind == MyRobot && lines[n].id == id then
        assert forall j :: 0 <= j < n ==> lines[j] in lines[..n];
        Some(n)
      else None
  }

  /**
   * r is the registry after the own-robot upserts of the lines, in input
   * order: ids stay unique and gain exactly the lines' ids; old records keep
   * their places; each id's record carries the position and item of its last
   * line; records of ids without a line are untouched; new ids follow the
   * old records, in the order of each id's first own-robot line.
   */
  ghost predicate Registered(robots: seq<Robot>, lines: seq<EntityLine>, r: seq<Robot>)
  {
    UniqueIds(r) &&
    Ids(r) == Ids(robots) + RobotLineIds(lines) &&
    |robots| <= |r| &&
    (forall k :: 0 <= k < |robots| ==> r[k].id == robots[k].id) &&
    (forall k :: 0 <= k < |robots| && robots[k].id !in RobotLineIds(lines) ==> r[k] == robots[k]) &&
    (forall k :: |robots| <= k < |r| ==> r[k].id in RobotLineIds(lines) && r[k].id !in Ids(robots)) &&
    (forall k, k' :: |robots| <= k < k' < |r| ==>
       FirstRobotLine(lines, r[k].id).value < FirstRobotLine(lines, r[k'].id).value) &&
    (forall k :: 0 <= k < |r| && r[k].id in RobotLineIds(lines) ==>
       var i := LastRobotLine(lines, r[k].id).value;
       r[k].pos == lines[i].pos && r[k].item == lines[i].item)
  }

  /** A line that is not an own-robot line leaves Registered as it was. */
  lemma RegisterSkip(robots: seq<Robot>, lines: seq<EntityLine>, before: seq<Robot>)
    requires lines != [] && lines[|lines| - 1].kind != MyRobot
    requires Registered(robots, lines[..|lines| - 1], before)
    ensures Registered(robots, lines, before)
  {
    var n := |lines| - 1;
    assert forall l' :: l' in lines <==> l' in lines[..n] || l' == lines[n];
    assert RobotLineIds(lines) == RobotLineIds(lines[..n]);
    forall k | 0 <= k < |before| && before[k].id in RobotLineIds(lines)
      ensures var i := LastRobotLine(lines, before[k].id).value;
        before[k].pos == lines[i].pos && before[k].item == lines[i].item
    {
      assert LastRobotLine(lines, before[k].id) == LastRobotLine(lines[..n], before[k].id);
    }
    forall k | |robots| <= k < |before|
      ensures FirstRobotLine(lines, before[k].id) == FirstRobotLine(lines[..n], before[k].id)
    {
    }
  }

  /** An own-robot line: its upsert keeps Registered. */
  lemma RegisterUpsert(robots: seq<Robot>, lines: seq<EntityLine>, before: seq<Robot>)
    requires lines != [] && lines[|lines| - 1].kind == MyRobot
    requires Registered(robots, lines[..|lines| - 1], before)
    ensures var l := lines[|lines| - 1];
      Registered(robots, lines, AddOrUpdateRobotInfo(before, Entity(l.id, l.pos, l.item)))
  {
    var n := |lines| - 1;
    var l := lines[n];
    assert forall l' :: l' in lines <==> l' in lines[..n] || l' == l;
    assert RobotLineIds(lines) == RobotLineIds(lines[..n]) + {l.id};
    UpsertShape(robots, RobotLineIds(lines[..n]), before, Entity(l.id, l.pos, l.item));
    UpsertOrder(robots, lines, before);
    UpsertPositions(lines, before);
  }

  /** The upsert keeps the old records' places and adds its id once. */
  lemma UpsertShape(robots: seq<Robot>, lineIds: set<int>, before: seq<Robot>, src: Robot)
    requires UniqueIds(before) && Ids(before) == Ids(robots) + lineIds && |robots| <= |before|
    requires forall k :: 0 <= k < |robots| ==> before[k].id == robots[k].id
    requires forall k :: 0 <= k < |robots| && robots[k].id !in lineIds ==> before[k] == robots[k]
    requires forall k :: |robots| <= k < |before| ==> before[k].id in lineIds && before[k].id !in Ids(robots)
    ensures var r := AddOrUpdateRobotInfo(before, src);
      UniqueIds(r) && Ids(r) == Ids(robots) + (lineIds + {src.id}) && |robots| <= |r| &&
      (forall k :: 0 <= k < |robots| ==> r[k].id == robots[k].id) &&
      (forall k :: 0 <= k < |robots| && robots[k].id !in lineIds + {src.id} ==> r[k] == robots[k]) &&
      (forall k :: |robots| <= k < |r| ==> r[k].id in lineIds + {src.id} && r[k].id !in Ids(robots))
  {
    var r := AddOrUpdateRobotInfo(before, src);
    forall k | 0 <= k < |robots| ensures r[k].id == robots[k].id {
      assert r[k].id == before[k].id;
    }
    forall k | |robots| <= k < |r| ensures r[k].id in lineIds + {src.id} && r[k].id !in Ids(robots) {
      if k < |before| {
        assert r[k].id == before[k].id;
      } else {
        assert r[k] == src;
      }
    }
  }

  /** The upsert of the last line keeps the new records in order of first line. */
  lemma UpsertOrder(robots: seq<Robot>, lines: seq<EntityLine>, before: seq<Robot>)
    requires lines != [] && lines[|lines| - 1].kind == MyRobot && UniqueIds(before)
    requires Ids(before) == Ids(robots) + RobotLineIds(lines[..|lines| - 1]) && |robots| <= |before|
    requires forall k :: |robots| <= k < |before| ==>
       before[k].id in RobotLineIds(lines[..|lines| - 1]) && before[k].id !in Ids(robots)
    requires forall k, k' :: |robots| <= k < k' < |before| ==>
       FirstRobotLine(lines[..|lines| - 1], before[k].id).value < FirstRobotLine(lines[..|lines| - 1], before[k'].id).value
    requires RobotLineIds(lines) == RobotLineIds(lines[..|lines| - 1]) + {lines[|lines| - 1].id}
    ensures var l := lines[|lines| - 1];
      var r := AddOrUpdateRobotInfo(before, Entity(l.id, l.pos, l.item));
      |before| <= |r| &&
      forall k, k' :: |robots| <= k < k' < |r| ==>
        FirstRobotLine(lines, r[k].id).value < FirstRobotLine(lines, r[k'].id).value
  {
    var n := |lines| - 1;
    var l := lines[n];
    var src := Entity(l.id, l.pos, l.item);
    var r := AddOrUpdateRobotInfo(before, src);
    forall k | |robots| <= k < |before|
      ensures r[k].id == before[k].id
      ensures FirstRobotLine(lines, before[k].id) == FirstRobotLine(lines[..n], before[k].id)
    {
    }
    if |r| > |before| {
      assert r[|before|] == src && src.id !in Ids(before);
      assert FirstRobotLine(lines, src.id) == Some(n);
    }
  }

  /** After the upsert of the last line, each line id holds its last line's data. */
  lemma UpsertPositions(lines: seq<EntityLine>, before: seq<Robot>)
    requires lines != [] && lines[|lines| - 1].kind == MyRobot && UniqueIds(before)
    requires forall k :: 0 <= k < |before| && before[k].id in RobotLineIds(lines[..|lines| - 1]) ==>
       var i := LastRobotLine(lines[..|lines| - 1], before[k].id).value;
       before[k].pos == lines[..|lines| - 1][i].pos && before[k].item == lines[..|lines| - 1][i].item
    requires RobotLineIds(lines) == RobotLineIds(lines[..|lines| - 1]) + {lines[|lines| - 1].id}
    ensures var l := lines[|lines| - 1];
      var r := AddOrUpdateRobotInfo(before, Entity(l.id, l.pos, l.item));
      forall k :: 0 <= k < |r| && r[k].id in RobotLineIds(lines) ==>
        var i := LastRobotLine(lines, r[k].id).value;
        r[k].pos == lines[i].pos && r[k].item == lines[i].item
  {
    var n := |lines| - 1;
    var l := lines[n];
    var r := AddOrUpdateRobotInfo(before, Entity(l.id, l.pos, l.item));
    forall k | 0 <= k < |r| && r[k].id in RobotLineIds(lines)
      ensures var i := LastRobotLine(lines, r[k].id).value;
        r[k].pos == lines[i].pos && r[k].item == lines[i].item
    {
      if r[k].id == l.id {
        assert LastRobotLine(lines, l.id) == Some(n);
      } else {
        assert LastRobotLine(lines, r[k].id) == LastRobotLine(lines[..n], r[k].id);
        assert k < |before| && r[k] == before[k];
      }
    }
  }

  /** The own-robot upserts for the lines, applied in input order. */
  function RegisterAll(robots: seq<Robot>, lines: seq<EntityLine>): (r: seq<Robot>)
    requires UniqueIds(robots)
    ensures Registered(robots, lines, r)
  {
    if lines == [] then robots
    else
      var n := |lines| - 1;
      var l := lines[n];
      var before := RegisterAll(robots, lines[..n]);
      if l.kind == MyRobot then
        RegisterUpsert(robots, lines, before);
        AddOrUpdateRobotInfo(before, Entity(l.id, l.pos, l.item))
      else
        RegisterSkip(robots, lines, before);
        before
  }
}

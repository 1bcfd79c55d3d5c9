/**
 * Board cells (class Cell) and the ore-site list the turn loop rebuilds from
 * them (class OreVeil, the scan of Program.cs lines 206-217).
 */
module Board {
  import opened Geometry

  /** One cell's ore token as the protocol gives it: "?" or an amount. */
  datatype OreToken = Unknown | Amount(n: int)

  /** One cell's pair of the protocol: the ore token and the hole flag (1 for a hole). */
  datatype Reading = Reading(ore: OreToken, hole: int)

  /** The value of a Cell object's three properties. */
  datatype CellState = CellState(ore: int, hole: bool, known: bool)

  /** A fresh Cell: C#'s default property values. */
  const InitialCell: CellState := CellState(0, false, false)

  /** The effect of Cell.Update on a cell's state. */
  function ApplyReading(c: CellState, ore: OreToken, hole: int): CellState
  {
    CellState(if ore.Amount? then ore.n else c.ore, hole == 1, ore.Amount?)
  }

  /** The effect of one Cell.Update per cell of a row, column by column. */
  function ApplyRow(row: seq<CellState>, readings: seq<Reading>): (r: seq<CellState>)
    requires |row| == |readings|
    ensures |r| == |row|
    ensures forall x :: 0 <= x < |row| ==> r[x] == ApplyReading(row[x], readings[x].ore, readings[x].hole)
  {
    seq(|row|, x requires 0 <= x < |row| => ApplyReading(row[x], readings[x].ore, readings[x].hole))
  }

  class Cell {
    var ore: int
    var hole: bool
    var known: bool

    function State(): CellState
      reads this
    {
      CellState(ore, hole, known)
    }

    constructor ()
      ensures State() == InitialCell
    {
      ore, hole, known := 0, false, false;
    }

    /** Cell.Update: the hole flag, the known flag, and the ore amount when known. */
    method Update(oreToken: OreToken, holeFlag: int)
      modifies this
      ensures hole <==> holeFlag == 1
      ensures known <==> oreToken != Unknown
      ensures known ==> ore == oreToken.n
      ensures !known ==> ore == old(ore)
      ensures State() == ApplyReading(old(State()), oreToken, holeFlag)
    {
      hole := holeFlag == 1;
      known := oreToken != Unknown;
      if known {
        ore := oreToken.n;
      }
    }
  }

  /** class OreVeil: a dig candidate and the ore the cell reported. */
  datatype OreVeil = OreVeil(pos: Coord, count: int)

  /** The scan's filter: a known cell with positive ore. */
  predicate IsSite(c: CellState)
  {
    c.known && c.ore > 0
  }

  /** Row-major order: rows first, columns within a row. */
  predicate ScanBefore(a: Coord, b: Coord)
  {
    a.y < b.y || (a.y == b.y && a.x < b.x)
  }

  /** The ore sites of row y, columns 0 .. |row|-1 in increasing order. */
  function RowSites(row: seq<CellState>, y: int): seq<OreVeil>
  {
    if row == [] then []
    else
      var x := |row| - 1;
      RowSites(row[..x], y) + (if IsSite(row[x]) then [OreVeil(Coord(x, y), row[x].ore)] else [])
  }

  /** The ore sites of a board given as rows (rows[y][x]), rows outer and columns inner. */
  function Sites(rows: seq<seq<CellState>>): seq<OreVeil>
  {
    if rows == [] then []
    else
      var y := |rows| - 1;
      Sites(rows[..y]) + RowSites(rows[y], y)
  }

  ghost predicate SiteOf(rows: seq<seq<CellState>>, v: OreVeil)
  {
    0 <= v.pos.y < |rows| && 0 <= v.pos.x < |rows[v.pos.y]| &&
    IsSite(rows[v.pos.y][v.pos.x]) && v.count == rows[v.pos.y][v.pos.x].ore
  }

  lemma {:induction false} RowSitesSound(row: seq<CellState>, y: int, k: int)
    requires 0 <= k < |RowSites(row, y)|
    ensures var v := RowSites(row, y)[k];
      v.pos.y == y && 0 <= v.pos.x < |row| && IsSite(row[v.pos.x]) && v.count == row[v.pos.x].ore
    decreases |row|
  {
    var x := |row| - 1;
    if k < |RowSites(row[..x], y)| {
      RowSitesSound(row[..x], y, k);
    }
  }

  lemma {:induction false} RowSitesComplete(row: seq<CellState>, y: int, x: int)
    requires 0 <= x < |row| && IsSite(row[x])
    ensures exists k :: 0 <= k < |RowSites(row, y)| && RowSites(row, y)[k].pos == Coord(x, y)
    decreases |row|
  {
    var last := |row| - 1;
    if x == last {
      assert RowSites(row, y)[|RowSites(row, y)| - 1].pos == Coord(x, y);
    } else {
      RowSitesComplete(row[..last], y, x);
      var k :| 0 <= k < |RowSites(row[..last], y)| && RowSites(row[..last], y)[k].pos == Coord(x, y);
      assert RowSites(row, y)[k] == RowSites(row[..last], y)[k];
    }
  }

  lemma {:induction false} RowSitesIncreasing(row: seq<CellState>, y: int, i: int, j: int)
    requires 0 <= i < j < |RowSites(row, y)|
    ensures RowSites(row, y)[i].pos.x < RowSites(row, y)[j].pos.x
    decreases |row|
  {
    var x := |row| - 1;
    var prefix := RowSites(row[..x], y);
    if j < |prefix| {
      RowSitesIncreasing(row[..x], y, i, j);
    } else {
      RowSitesSound(row[..x], y, i);
    }
  }

  /** Every entry of the scan is a known ore-bearing cell of the board, with that cell's ore as its count. */
  lemma {:induction false} SitesSound(rows: seq<seq<CellState>>, k: int)
    requires 0 <= k < |Sites(rows)|
    ensures SiteOf(rows, Sites(rows)[k])
    decreases |rows|
  {
    var y := |rows| - 1;
    var prefix := Sites(rows[..y]);
    if k < |prefix| {
      SitesSound(rows[..y], k);
    } else {
      RowSitesSound(rows[y], y, k - |prefix|);
    }
  }

  /** Every known ore-bearing cell of the board appears in the scan. */
  lemma {:induction false} SitesComplete(rows: seq<seq<CellState>>, x: int, y: int)
    requires 0 <= y < |rows| && 0 <= x < |rows[y]| && IsSite(rows[y][x])
    ensures exists k :: 0 <= k < |Sites(rows)| && Sites(rows)[k].pos == Coord(x, y)
    decreases |rows|
  {
    var last := |rows| - 1;
    var prefix := Sites(rows[..last]);
    if y == last {
      RowSitesComplete(rows[y], y, x);
      var k :| 0 <= k < |RowSites(rows[y], y)| && RowSites(rows[y], y)[k].pos == Coord(x, y);
      assert Sites(rows)[|prefix| + k] == RowSites(rows[y], y)[k];
    } else {
      SitesComplete(rows[..last], x, y);
      var k :| 0 <= k < |prefix| && prefix[k].pos == Coord(x, y);
      assert Sites(rows)[k] == prefix[k];
    }
  }

  /** The scan lists sites strictly in row-major order. */
  lemma {:induction false} SitesInScanOrder(rows: seq<seq<CellState>>, i: int, j: int)
    requires 0 <= i < j < |Sites(rows)|
    ensures ScanBefore(Sites(rows)[i].pos, Sites(rows)[j].pos)
    decreases |rows|
  {
    var y := |rows| - 1;
    var prefix := Sites(rows[..y]);
    if j < |prefix| {
      SitesInScanOrder(rows[..y], i, j);
    } else if i < |prefix| {
      SitesSound(rows[..y], i);
      RowSitesSound(rows[y], y, j - |prefix|);
    } else {
      RowSitesSound(rows[y], y, i - |prefix|);
      RowSitesSound(rows[y], y, j - |prefix|);
      RowSitesIncreasing(rows[y], y, i - |prefix|, j - |prefix|);
    }
  }

  /** Hence each cell appears at most once. */
  lemma SitesOnceEach(rows: seq<seq<CellState>>, i: int, j: int)
    requires 0 <= i < |Sites(rows)| && 0 <= j < |Sites(rows)| && i != j
    ensures Sites(rows)[i].pos != Sites(rows)[j].pos
  {
    if i < j { SitesInScanOrder(rows, i, j); } else { SitesInScanOrder(rows, j, i); }
  }
}

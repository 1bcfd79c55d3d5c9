/** Board coordinates (class Coord): Manhattan distance, value equality and the hash code. */
module Geometry {
  import opened Wrappers

  datatype Coord = Coord(x: int, y: int)

  function Abs(n: int): (r: int)
    ensures r >= 0 && (r == n || r == -n)
  {
    if n < 0 then -n else n
  }

  /** Coord.Distance: the taxicab (4-direction) distance, on unbounded integers. */
  function Distance(a: Coord, b: Coord): (d: int)
    ensures d >= 0
    ensures d == 0 <==> a.x == b.x && a.y == b.y
  {
    Abs(a.x - b.x) + Abs(a.y - b.y)
  }

  lemma DistanceSymmetric(a: Coord, b: Coord)
    ensures Distance(a, b) == Distance(b, a)
  {
  }

  lemma DistanceTriangle(a: Coord, b: Coord, c: Coord)
    ensures Distance(a, c) <= Distance(a, b) + Distance(b, c)
  {
  }

  /**
   * Coord.Equals2, the body of ==, != and Equals: two null references are
   * equal, a null and a non-null one are not, and two coordinates are equal
   * when both components match.
   */
  function Equals2(a: Option<Coord>, b: Option<Coord>): (r: bool)
    ensures r <==> (a.None? && b.None?) ||
                   (a.Some? && b.Some? && a.value.x == b.value.x && a.value.y == b.value.y)
    ensures r <==> a == b
  {
    match (a, b)
    case (None, None) => true
    case (Some(p), Some(q)) => p.x == q.x && p.y == q.y
    case _ => false
  }

  /**
   * Coord.GetHashCode, without the 32-bit wrap-around. On a board with fewer
   * than 31 rows the code can be decoded back into the coordinate: the
   * quotient by 31 (after the 961 offset) is the column, the remainder the row.
   */
  function HashCode(c: Coord): (h: int)
    ensures 0 <= c.y < 31 ==> (h - 961) / 31 == c.x && (h - 961) % 31 == c.y
  {
    31 * (31 + c.x) + c.y
  }

  /** Distinct cells of a board with fewer than 31 rows never share a hash code. */
  lemma BoardCellsHashApart(a: Coord, b: Coord)
    requires 0 <= a.y < 31 && 0 <= b.y < 31
    requires HashCode(a) == HashCode(b)
    ensures a == b
  {
  }

  /** Equal coordinates hash alike, as Equals and GetHashCode must agree. */
  lemma EqualCoordsHashAlike(a: Coord, b: Coord)
    requires Equals2(Some(a), Some(b))
    ensures HashCode(a) == HashCode(b)
  {
  }
}

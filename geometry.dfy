/** Grid points and the small geometric helpers of the simulation:
    sign, 4-neighbour adjacency and squared distance. */
module Geometry {
  datatype Point = Point(x: int, y: int)

  /** The position an entity is given when it is taken off the grid. */
  const Removed: Point := Point(-1, -1)

  function Abs(v: int): nat
  {
    if v < 0 then -v else v
  }

  /** -1, 0 or 1 according to whether `v` is negative, zero or positive. */
  function Sign(v: int): (s: int)
    ensures s == -1 <==> v < 0
    ensures s == 0 <==> v == 0
    ensures s == 1 <==> v > 0
  {
    if v < 0 then -1 else if v > 0 then 1 else 0
  }

  /** The two points differ by exactly one in one coordinate and agree in the other. */
  predicate Adjacent(p1: Point, p2: Point)
  {
    (p1.x == p2.x && Abs(p1.y - p2.y) == 1) ||
    (p1.y == p2.y && Abs(p1.x - p2.x) == 1)
  }

  function DistanceSq(p1: Point, p2: Point): int
  {
    (p1.x - p2.x) * (p1.x - p2.x) + (p1.y - p2.y) * (p1.y - p2.y)
  }

  /** The four points adjacent to `p`. */
  function Neighbours(p: Point): set<Point>
  {
    {Point(p.x + 1, p.y), Point(p.x - 1, p.y), Point(p.x, p.y + 1), Point(p.x, p.y - 1)}
  }

  lemma AdjacentSymmetric(p1: Point, p2: Point)
    ensures Adjacent(p1, p2) <==> Adjacent(p2, p1)
  {
  }

  /** Adjacency is exactly membership in the four-neighbourhood. */
  lemma AdjacentIffNeighbour(p: Point, q: Point)
    ensures Adjacent(p, q) <==> q in Neighbours(p)
  {
  }

  lemma SquareFacts(v: int)
    ensures v * v >= 0
    ensures v * v == 0 <==> v == 0
    ensures Abs(v) == 1 ==> v * v == 1
    ensures Abs(v) >= 2 ==> v * v >= 4
  {
    if v >= 2 {
      assert v * v >= 2 * v;
    } else if v <= -2 {
      assert v * v == (-v) * (-v);
      assert (-v) * (-v) >= 2 * (-v);
    }
  }

  /** The squared distance is never negative and is zero only between equal points. */
  lemma DistanceSqZero(p1: Point, p2: Point)
    ensures DistanceSq(p1, p2) >= 0
    ensures DistanceSq(p1, p2) == 0 <==> p1 == p2
  {
    SquareFacts(p1.x - p2.x);
    SquareFacts(p1.y - p2.y);
  }

  /** Two points are adjacent exactly when their squared distance is 1. */
  lemma AdjacentIffUnitDistance(p1: Point, p2: Point)
    ensures Adjacent(p1, p2) <==> DistanceSq(p1, p2) == 1
  {
    var dx, dy := p1.x - p2.x, p1.y - p2.y;
    SquareFacts(dx);
    SquareFacts(dy);
    if DistanceSq(p1, p2) == 1 {
      assert Abs(dx) <= 1 && Abs(dy) <= 1;
      if dx == 0 {
        assert dy * dy == 1;
      } else {
        assert dx * dx == 1;
        assert dy * dy == 0;
      }
    }
  }

  /** No point in the non-negative quadrant is adjacent to the sentinel `Removed`. */
  lemma NotAdjacentToRemoved(p: Point)
    requires p.x >= 0 && p.y >= 0
    ensures !Adjacent(p, Removed) && !Adjacent(Removed, p)
  {
  }
}

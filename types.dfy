/**
 * Grid geometry of the bot (infra/types.rs): positions on the level grid,
 * rectangular bounds and the three colours used by keys, doors and plates.
 * Coordinates are unbounded integers; the source's `i32` never comes near
 * its limits on a level grid, so no wrap-around is modelled.
 */
module Types {

  datatype Position = Position(x: int, y: int)

  datatype Color = Red | Green | Blue

  /** The colours in declaration order; used wherever a colour-keyed table is walked. */
  const AllColors: seq<Color> := [Red, Green, Blue]

  lemma AllColorsComplete(c: Color)
    ensures c in AllColors
  {
  }

  function Abs(n: int): nat
  {
    if n < 0 then -n else n
  }

  /** Manhattan distance (`Position::distance`). */
  function Distance(a: Position, b: Position): nat
  {
    Abs(a.x - b.x) + Abs(a.y - b.y)
  }

  /** The four orthogonal neighbours in the order North, East, South, West. */
  function Neighbors(p: Position): (ns: seq<Position>)
    ensures |ns| == 4
    ensures ns[0].x == p.x && ns[0].y < p.y
    ensures ns[1].y == p.y && ns[1].x > p.x
    ensures ns[2].x == p.x && ns[2].y > p.y
    ensures ns[3].y == p.y && ns[3].x < p.x
    ensures forall i :: 0 <= i < 4 ==> Distance(p, ns[i]) == 1
  {
    [Position(p.x, p.y - 1), Position(p.x + 1, p.y), Position(p.x, p.y + 1), Position(p.x - 1, p.y)]
  }

  predicate IsAdjacent(a: Position, b: Position)
  {
    Distance(a, b) == 1
  }

  /** Adjacency is exactly membership in the neighbour list, in both directions. */
  lemma AdjacentIffNeighbor(p: Position, q: Position)
    ensures IsAdjacent(p, q) <==> q in Neighbors(p)
  {
    var ns := Neighbors(p);
    if IsAdjacent(p, q) {
      if q.x == p.x {
        assert q == ns[0] || q == ns[2];
      } else {
        assert q == ns[1] || q == ns[3];
      }
    }
  }

  lemma AdjacentSymmetric(p: Position, q: Position)
    ensures IsAdjacent(p, q) == IsAdjacent(q, p)
  {
  }

  lemma DistanceSymmetric(p: Position, q: Position)
    ensures Distance(p, q) == Distance(q, p)
  {
  }

  lemma DistanceZeroIff(p: Position, q: Position)
    ensures Distance(p, q) == 0 <==> p == q
  {
  }

  /** The triangle inequality, which makes the distance an admissible A* heuristic. */
  lemma DistanceTriangle(a: Position, b: Position, c: Position)
    ensures Distance(a, c) <= Distance(a, b) + Distance(b, c)
  {
  }

  datatype Bounds = Bounds(minX: int, maxX: int, minY: int, maxY: int)
  {
    /** Inclusive on all four edges. */
    predicate Contains(p: Position)
    {
      minX <= p.x <= maxX && minY <= p.y <= maxY
    }
  }

  /** The square of half-width `range` around `center`. */
  function FromCenterAndRange(center: Position, range: int): (b: Bounds)
    ensures b.maxX - b.minX == 2 * range && b.maxY - b.minY == 2 * range
    ensures b.minX + range == center.x && b.minY + range == center.y
  {
    Bounds(center.x - range, center.x + range, center.y - range, center.y + range)
  }

  /** The square around a centre holds exactly the positions within `range` on both axes. */
  lemma FromCenterContains(center: Position, range: int, p: Position)
    ensures FromCenterAndRange(center, range).Contains(p)
        <==> Abs(p.x - center.x) <= range && Abs(p.y - center.y) <= range
  {
  }

  /** A non-empty bounds contains its four corners. */
  lemma BoundsCornersContained(b: Bounds)
    requires b.minX <= b.maxX && b.minY <= b.maxY
    ensures b.Contains(Position(b.minX, b.minY)) && b.Contains(Position(b.maxX, b.maxY))
    ensures b.Contains(Position(b.minX, b.maxY)) && b.Contains(Position(b.maxX, b.minY))
  {
  }
}

/**
 * What `performCut` does to a quadrilateral whose first and third edges a stroke
 * crosses: one pocket and one remainder, whose signed areas add up to the
 * original's. Worked through for a 100 x 100 square cut down the middle by a
 * vertical stroke that overshoots both sides.
 */
module Scenarios {
  import opened Common
  import opened Geometry
  import opened Cutting
  import opened CutEngine

  // ---------------------------------------------------------------------------
  // A quadrilateral crossed on edges 0 and 2
  // ---------------------------------------------------------------------------

  /** Crossings on edges 0 and 2 only give exactly two records, in edge order. */
  lemma QuadHits(p0: Point, p1: Point, p2: Point, p3: Point, a: Point, b: Point, x: Point, y: Point)
    requires LineIntersection(a, b, p0, p1) == Some(x)
    requires LineIntersection(a, b, p1, p2) == None
    requires LineIntersection(a, b, p2, p3) == Some(y)
    requires LineIntersection(a, b, p3, p0) == None
    ensures Hits([p0, p1, p2, p3], a, b) == [Hit(0, x), Hit(2, y)]
  {
    var pts := [p0, p1, p2, p3];
    assert EdgeHit(pts, a, b, 0) == Some(x);
    assert EdgeHit(pts, a, b, 1) == None;
    assert EdgeHit(pts, a, b, 2) == Some(y);
    assert EdgeHit(pts, a, b, 3) == None;
    HitsStep(pts, a, b, 0);
    HitsStep(pts, a, b, 1);
    HitsStep(pts, a, b, 2);
    HitsStep(pts, a, b, 3);
  }

  /** With the first record flagged, the walk emits one pocket (vertices 1 and 2) and keeps vertices 0 and 3. */
  lemma QuadWalk(x: Point, y: Point)
    ensures WalkInput(4, [Hit(0, x), Hit(2, y)], [true, false])
    ensures Walk(4, [Hit(0, x), Hit(2, y)], [true, false], 0)
            == WalkResult([Vertex(0), Crossing(0), Crossing(1), Vertex(3)],
                          [[Crossing(0), Vertex(1), Vertex(2), Crossing(1)]])
  {
    var hits, flags := [Hit(0, x), Hit(2, y)], [true, false];
    assert Ordered(hits, 4);
    assert FindHit(hits, 0) == Some(0);
    assert FindHit(hits, 3) == None;
    assert Walk(4, hits, flags, 4) == WalkResult([], []);
    assert Walk(4, hits, flags, 3) == WalkResult([Vertex(3)], []);
    assert Advance(4, 0, 0) == 0;
    assert Advance(4, 0, 1) == 1 && Advance(4, 0, 2) == 2;
    assert Run(4, 0, 1, 3) == [Vertex(1), Vertex(2)];
    assert [Crossing(0)] + Run(4, 0, 1, 3) + [Crossing(1)] == [Crossing(0), Vertex(1), Vertex(2), Crossing(1)];
  }

  /** The pocket is x, p1, p2, y and the remainder p0, x, y, p3 when the crossings' midpoint is inside. */
  lemma QuadSplit(p0: Point, p1: Point, p2: Point, p3: Point, a: Point, b: Point, x: Point, y: Point)
    requires Hits([p0, p1, p2, p3], a, b) == [Hit(0, x), Hit(2, y)]
    requires Inside([p0, p1, p2, p3], Mid(x, y).x, Mid(x, y).y)
    ensures Split([p0, p1, p2, p3], a, b) == ([[x, p1, p2, y]], [p0, x, y, p3])
  {
    var pts, hits := [p0, p1, p2, p3], [Hit(0, x), Hit(2, y)];
    PocketFlagAt(pts, hits, 0);
    PocketFlagAt(pts, hits, 1);
    assert PocketFlags(pts, hits) == [true, false];
    QuadWalk(x, y);
    assert Resolve(pts, hits, [Vertex(0), Crossing(0), Crossing(1), Vertex(3)]) == [p0, x, y, p3];
    var pocket := [Crossing(0), Vertex(1), Vertex(2), Crossing(1)];
    assert Resolve(pts, hits, pocket) == [x, p1, p2, y];
    assert ResolveAll(pts, hits, [pocket]) == [[x, p1, p2, y]];
  }

  /** The shape is replaced by the pocket and then the remainder, with the next two identifiers, and the cut counts. */
  lemma QuadCut(s: Shape, p0: Point, p1: Point, p2: Point, p3: Point, a: Point, b: Point, x: Point, y: Point,
                nextId: nat)
    requires s.points == [p0, p1, p2, p3]
    requires LineIntersection(a, b, p0, p1) == Some(x)
    requires LineIntersection(a, b, p1, p2) == None
    requires LineIntersection(a, b, p2, p3) == Some(y)
    requires LineIntersection(a, b, p3, p0) == None
    requires Inside([p0, p1, p2, p3], Mid(x, y).x, Mid(x, y).y)
    ensures CutShape(s, a, b, nextId)
            == CutResult([Shape([x, p1, p2, y], nextId, nextId), Shape([p0, x, y, p3], nextId + 1, nextId + 1)],
                         nextId + 2, true)
  {
    QuadHits(p0, p1, p2, p3, a, b, x, y);
    QuadSplit(p0, p1, p2, p3, a, b, x, y);
    var polys := [[x, p1, p2, y]] + [[p0, x, y, p3]];
    assert NewShapes(polys, nextId)[0] == Shape([x, p1, p2, y], nextId, nextId);
    assert NewShapes(polys, nextId)[1] == Shape([p0, x, y, p3], nextId + 1, nextId + 1);
  }

  /** A point on the line through p and q splits the edge's shoelace term in two. */
  lemma CollinearCross(p: Point, q: Point, t: real)
    ensures Cross(p, Lerp(p, q, t)) + Cross(Lerp(p, q, t), q) == Cross(p, q)
  {
    var m := Lerp(p, q, t);
    calc {
      Cross(p, m) + Cross(m, q);
      p.x * (p.y + t * (q.y - p.y)) - (p.x + t * (q.x - p.x)) * p.y
        + (p.x + t * (q.x - p.x)) * q.y - q.x * (p.y + t * (q.y - p.y));
      t * (p.x * q.y - q.x * p.y) + (1.0 - t) * (p.x * q.y - q.x * p.y);
    }
  }

  /**
   * The pocket and the remainder of such a cut together have the signed area
   * of the quadrilateral: the new edge x-y is walked once each way.
   */
  lemma QuadCutKeepsSignedArea(p0: Point, p1: Point, p2: Point, p3: Point, a: Point, b: Point, x: Point, y: Point)
    requires LineIntersection(a, b, p0, p1) == Some(x)
    requires LineIntersection(a, b, p2, p3) == Some(y)
    ensures ShoelaceSum([x, p1, p2, y]) + ShoelaceSum([p0, x, y, p3]) == ShoelaceSum([p0, p1, p2, p3])
  {
    CollinearCross(p0, p1, Ub(a, b, p0, p1));
    CollinearCross(p2, p3, Ub(a, b, p2, p3));
    QuadShoelace(x, p1, p2, y);
    QuadShoelace(p0, x, y, p3);
    QuadShoelace(p0, p1, p2, p3);
  }

  // ---------------------------------------------------------------------------
  // The square cut down the middle
  // ---------------------------------------------------------------------------

  const CutFrom: Point := Point(50.0, -10.0)
  const CutTo: Point := Point(50.0, 110.0)

  /** The stroke meets the bottom edge at (50, 0), a twelfth of the way down it. */
  lemma BottomCrossing()
    ensures LineIntersection(CutFrom, CutTo, Point(0.0, 0.0), Point(100.0, 0.0)) == Some(Point(50.0, 0.0))
  {
    var a, b, p, q := CutFrom, CutTo, Point(0.0, 0.0), Point(100.0, 0.0);
    assert Denominator(a, b, p, q) == -12000.0;
    assert Ua(a, b, p, q) == 1.0 / 12.0;
    assert Ub(a, b, p, q) == 0.5;
  }

  /** The stroke meets the top edge, walked right to left, at (50, 100). */
  lemma TopCrossing()
    ensures LineIntersection(CutFrom, CutTo, Point(100.0, 100.0), Point(0.0, 100.0)) == Some(Point(50.0, 100.0))
  {
    var a, b, p, q := CutFrom, CutTo, Point(100.0, 100.0), Point(0.0, 100.0);
    assert Denominator(a, b, p, q) == 12000.0;
    assert Ua(a, b, p, q) == 11.0 / 12.0;
    assert Ub(a, b, p, q) == 0.5;
  }

  /** A vertical side is parallel to the stroke and never crossed. */
  lemma SideMissed(x: real, y0: real, y1: real)
    ensures LineIntersection(CutFrom, CutTo, Point(x, y0), Point(x, y1)) == None
  {
    assert Denominator(CutFrom, CutTo, Point(x, y0), Point(x, y1)) == 0.0;
  }

  /** The midpoint (50, 50) of the crossings is inside the square: the ray to its right crosses the right side only. */
  lemma CentreInside(p0: Point, p1: Point, p2: Point, p3: Point, x: Point, y: Point)
    requires p0 == Point(0.0, 0.0) && p1 == Point(100.0, 0.0) && p2 == Point(100.0, 100.0) && p3 == Point(0.0, 100.0)
    requires x == Point(50.0, 0.0) && y == Point(50.0, 100.0)
    ensures Inside([p0, p1, p2, p3], Mid(x, y).x, Mid(x, y).y)
  {
    var sq := [p0, p1, p2, p3];
    assert Mid(x, y) == Point(50.0, 50.0);
    assert !Crosses(p0, p3, 50.0, 50.0);
    assert !Crosses(p1, p0, 50.0, 50.0);
    assert Crosses(p2, p1, 50.0, 50.0);
    assert !Crosses(p3, p2, 50.0, 50.0);
    assert CrossingCount(sq, 50.0, 50.0, 1) == 0;
    assert CrossingCount(sq, 50.0, 50.0, 2) == 0;
    assert CrossingCount(sq, 50.0, 50.0, 3) == 1;
    assert CrossingCount(sq, 50.0, 50.0, 4) == 1;
  }

  /** The stroke crosses the bottom and top edges of the square and misses its sides. */
  lemma SquareCrossings(p0: Point, p1: Point, p2: Point, p3: Point, x: Point, y: Point)
    requires p0 == Point(0.0, 0.0) && p1 == Point(100.0, 0.0) && p2 == Point(100.0, 100.0) && p3 == Point(0.0, 100.0)
    requires x == Point(50.0, 0.0) && y == Point(50.0, 100.0)
    ensures LineIntersection(CutFrom, CutTo, p0, p1) == Some(x)
    ensures LineIntersection(CutFrom, CutTo, p1, p2) == None
    ensures LineIntersection(CutFrom, CutTo, p2, p3) == Some(y)
    ensures LineIntersection(CutFrom, CutTo, p3, p0) == None
  {
    BottomCrossing();
    SideMissed(100.0, 0.0, 100.0);
    TopCrossing();
    SideMissed(0.0, 100.0, 0.0);
  }

  /**
   * The square becomes two new shapes with fresh identifiers: the right half
   * (the pocket) and then the left half (the remainder), and the cut counts.
   */
  lemma SquareCut(s: Shape, nextId: nat)
    requires s.points == [Point(0.0, 0.0), Point(100.0, 0.0), Point(100.0, 100.0), Point(0.0, 100.0)]
    ensures CutShape(s, CutFrom, CutTo, nextId)
            == CutResult([Shape([Point(50.0, 0.0), Point(100.0, 0.0), Point(100.0, 100.0), Point(50.0, 100.0)],
                                nextId, nextId),
                          Shape([Point(0.0, 0.0), Point(50.0, 0.0), Point(50.0, 100.0), Point(0.0, 100.0)],
                                nextId + 1, nextId + 1)],
                         nextId + 2, true)
  {
    var p0, p1, p2, p3 := Point(0.0, 0.0), Point(100.0, 0.0), Point(100.0, 100.0), Point(0.0, 100.0);
    var x, y := Point(50.0, 0.0), Point(50.0, 100.0);
    SquareCrossings(p0, p1, p2, p3, x, y);
    CentreInside(p0, p1, p2, p3, x, y);
    QuadCut(s, p0, p1, p2, p3, CutFrom, CutTo, x, y, nextId);
  }

  /** Each half is a 50 x 100 rectangle of area 5000, and together they have the square's area. */
  lemma SquareHalvesArea()
    ensures Abs(ShoelaceSum([Point(50.0, 0.0), Point(100.0, 0.0), Point(100.0, 100.0), Point(50.0, 100.0)])) / 2.0
            == 5000.0
    ensures Abs(ShoelaceSum([Point(0.0, 0.0), Point(50.0, 0.0), Point(50.0, 100.0), Point(0.0, 100.0)])) / 2.0
            == 5000.0
    ensures Abs(ShoelaceSum([Point(0.0, 0.0), Point(100.0, 0.0), Point(100.0, 100.0), Point(0.0, 100.0)])) / 2.0
            == 10000.0
  {
    var p0, p1, p2, p3 := Point(0.0, 0.0), Point(100.0, 0.0), Point(100.0, 100.0), Point(0.0, 100.0);
    var x, y := Point(50.0, 0.0), Point(50.0, 100.0);
    QuadShoelace(x, p1, p2, y);
    QuadShoelace(p0, x, y, p3);
    QuadShoelace(p0, p1, p2, p3);
    assert Cross(x, p1) + Cross(p1, p2) + Cross(p2, y) + Cross(y, x) == 10000.0;
    assert Cross(p0, x) + Cross(x, y) + Cross(y, p3) + Cross(p3, p0) == 10000.0;
    assert Cross(p0, p1) + Cross(p1, p2) + Cross(p2, p3) + Cross(p3, p0) == 20000.0;
  }
}

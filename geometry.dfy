/**
 * The geometry primitives of the cutting engine (js/cutting-system.js): points,
 * segment/segment intersection, even-odd ray casting, the shoelace area and the
 * vertex mean. Coordinates are exact reals, so every comparison the source makes
 * on doubles is exact here.
 */
module Geometry {
  import opened Common

  datatype Point = Point(x: real, y: real)

  function Abs(r: real): (a: real)
    ensures a >= 0.0 && (a == r || a == -r)
  {
    if r < 0.0 then -r else r
  }

  /** The default tolerance of `Point.equals`. */
  const DefaultEpsilon: real := 0.001

  /** `Point.equals`: both coordinate differences lie strictly below `eps`. */
  function PointsEqual(a: Point, b: Point, eps: real): (r: bool)
    ensures r ==> eps > 0.0
    ensures a == b ==> (r <==> eps > 0.0)
    ensures r ==> a.x - eps < b.x < a.x + eps && a.y - eps < b.y < a.y + eps
  {
    Abs(a.x - b.x) < eps && Abs(a.y - b.y) < eps
  }

  // ---------------------------------------------------------------------------
  // Segment intersection (Shape.lineIntersection)
  // ---------------------------------------------------------------------------

  /** The cross-product denominator of the two segments p1-p2 and p3-p4. */
  function Denominator(p1: Point, p2: Point, p3: Point, p4: Point): real
  {
    (p4.y - p3.y) * (p2.x - p1.x) - (p4.x - p3.x) * (p2.y - p1.y)
  }

  /** The parameter of the crossing along p1-p2. */
  function Ua(p1: Point, p2: Point, p3: Point, p4: Point): real
    requires Denominator(p1, p2, p3, p4) != 0.0
  {
    ((p4.x - p3.x) * (p1.y - p3.y) - (p4.y - p3.y) * (p1.x - p3.x)) / Denominator(p1, p2, p3, p4)
  }

  /** The parameter of the crossing along p3-p4. */
  function Ub(p1: Point, p2: Point, p3: Point, p4: Point): real
    requires Denominator(p1, p2, p3, p4) != 0.0
  {
    ((p2.x - p1.x) * (p1.y - p3.y) - (p2.y - p1.y) * (p1.x - p3.x)) / Denominator(p1, p2, p3, p4)
  }

  /** The point at parameter t along a-b. */
  function Lerp(a: Point, b: Point, t: real): Point
  {
    Point(a.x + t * (b.x - a.x), a.y + t * (b.y - a.y))
  }

  predicate InUnit(t: real)
  {
    0.0 <= t <= 1.0
  }

  /**
   * `Shape.lineIntersection`: the crossing of segment p1-p2 with segment p3-p4, or
   * None when the segments are parallel (denominator exactly 0) or a parameter
   * falls outside [0, 1]. A returned point lies on both segments.
   */
  function LineIntersection(p1: Point, p2: Point, p3: Point, p4: Point): (r: Option<Point>)
    ensures Denominator(p1, p2, p3, p4) == 0.0 ==> r.None?
    ensures r.Some? <==> Denominator(p1, p2, p3, p4) != 0.0
                         && InUnit(Ua(p1, p2, p3, p4)) && InUnit(Ub(p1, p2, p3, p4))
    ensures r.Some? ==> r.value == Lerp(p1, p2, Ua(p1, p2, p3, p4))
    ensures r.Some? ==> r.value == Lerp(p3, p4, Ub(p1, p2, p3, p4))
  {
    var d := Denominator(p1, p2, p3, p4);
    if d == 0.0 then None
    else
      var ua := Ua(p1, p2, p3, p4);
      var ub := Ub(p1, p2, p3, p4);
      if ua >= 0.0 && ua <= 1.0 && ub >= 0.0 && ub <= 1.0 then
        CrossingOnBothSegments(p1, p2, p3, p4);
        Some(Point(p1.x + ua * (p2.x - p1.x), p1.y + ua * (p2.y - p1.y)))
      else None
  }

  /** One coordinate of the meeting point: a polynomial identity divided by d. */
  lemma ScaledMeet(w: real, d: real, na: real, nb: real, a: real, c: real)
    requires d != 0.0 && w * d + na * a - nb * c == 0.0
    ensures w + (na / d) * a == (nb / d) * c
  {
    calc {
      w + (na / d) * a - (nb / d) * c;
      (w * d + na * a - nb * c) / d;
      0.0;
    }
  }

  /**
   * With a = p2 - p1, c = p4 - p3, w = p1 - p3, d the cross product of c and a, and
   * na, nb the numerators of Ua and Ub: the x coordinates of both points agree.
   */
  lemma MeetX(wx: real, wy: real, ax: real, ay: real, cx: real, cy: real)
    requires cy * ax - cx * ay != 0.0
    ensures wx + ((cx * wy - cy * wx) / (cy * ax - cx * ay)) * ax
            == ((ax * wy - ay * wx) / (cy * ax - cx * ay)) * cx
  {
    assert wx * (cy * ax - cx * ay) + (cx * wy - cy * wx) * ax - (ax * wy - ay * wx) * cx == 0.0;
    ScaledMeet(wx, cy * ax - cx * ay, cx * wy - cy * wx, ax * wy - ay * wx, ax, cx);
  }

  /** The same for the y coordinates. */
  lemma MeetY(wx: real, wy: real, ax: real, ay: real, cx: real, cy: real)
    requires cy * ax - cx * ay != 0.0
    ensures wy + ((cx * wy - cy * wx) / (cy * ax - cx * ay)) * ay
            == ((ax * wy - ay * wx) / (cy * ax - cx * ay)) * cy
  {
    assert wy * (cy * ax - cx * ay) + (cx * wy - cy * wx) * ay - (ax * wy - ay * wx) * cy == 0.0;
    ScaledMeet(wy, cy * ax - cx * ay, cx * wy - cy * wx, ax * wy - ay * wx, ay, cy);
  }

  lemma CrossingX(p1: Point, p2: Point, p3: Point, p4: Point)
    requires Denominator(p1, p2, p3, p4) != 0.0
    ensures Lerp(p1, p2, Ua(p1, p2, p3, p4)).x == Lerp(p3, p4, Ub(p1, p2, p3, p4)).x
  {
    MeetX(p1.x - p3.x, p1.y - p3.y, p2.x - p1.x, p2.y - p1.y, p4.x - p3.x, p4.y - p3.y);
  }

  lemma CrossingY(p1: Point, p2: Point, p3: Point, p4: Point)
    requires Denominator(p1, p2, p3, p4) != 0.0
    ensures Lerp(p1, p2, Ua(p1, p2, p3, p4)).y == Lerp(p3, p4, Ub(p1, p2, p3, p4)).y
  {
    MeetY(p1.x - p3.x, p1.y - p3.y, p2.x - p1.x, p2.y - p1.y, p4.x - p3.x, p4.y - p3.y);
  }

  /**
   * Over exact reals, the point at parameter Ua along p1-p2 is the point at
   * parameter Ub along p3-p4.
   */
  lemma CrossingOnBothSegments(p1: Point, p2: Point, p3: Point, p4: Point)
    requires Denominator(p1, p2, p3, p4) != 0.0
    ensures Lerp(p1, p2, Ua(p1, p2, p3, p4)) == Lerp(p3, p4, Ub(p1, p2, p3, p4))
  {
    CrossingX(p1, p2, p3, p4);
    CrossingY(p1, p2, p3, p4);
  }

  /** A zero-length cut (both ends at one point) never meets any edge. */
  lemma DegenerateSegmentMeetsNothing(p: Point, p3: Point, p4: Point)
    ensures LineIntersection(p, p, p3, p4) == None
  {
  }

  // ---------------------------------------------------------------------------
  // Even-odd containment (Shape.containsPoint)
  // ---------------------------------------------------------------------------

  /** The index j that the loop pairs with i: the previous vertex, cyclically. */
  function Prev(n: nat, i: nat): nat
    requires i < n
  {
    if i == 0 then n - 1 else i - 1
  }

  /**
   * Whether the edge from b to a is crossed by the rightward horizontal ray from
   * (x, y). The division is reached only when a.y and b.y straddle y, so it never
   * divides by zero, and a horizontal edge never counts.
   */
  function Crosses(a: Point, b: Point, x: real, y: real): (r: bool)
    ensures r ==> a.y != b.y
    ensures r ==> (a.y > y) != (b.y > y)
  {
    ((a.y > y) != (b.y > y)) && (x < (b.x - a.x) * (y - a.y) / (b.y - a.y) + a.x)
  }

  /** How many of the edges (pts[i], pts[Prev(i)]) with i < k the ray crosses. */
  function CrossingCount(pts: seq<Point>, x: real, y: real, k: nat): (c: nat)
    requires k <= |pts|
    ensures c <= k
  {
    if k == 0 then 0
    else
      CrossingCount(pts, x, y, k - 1)
        + (if Crosses(pts[k - 1], pts[Prev(|pts|, k - 1)], x, y) then 1 else 0)
  }

  /** The even-odd rule: (x, y) is inside when the ray crosses an odd number of edges. */
  predicate Inside(pts: seq<Point>, x: real, y: real)
  {
    CrossingCount(pts, x, y, |pts|) % 2 == 1
  }

  /**
   * `Shape.containsPoint`: the ray-casting loop. `inside` flips once for each
   * crossed edge, so the result is the parity of the crossing count.
   */
  method ContainsPoint(pts: seq<Point>, x: real, y: real) returns (inside: bool)
    ensures inside == Inside(pts, x, y)
  {
    inside := false;
    var i, j := 0, |pts| - 1;
    while i < |pts|
      invariant 0 <= i <= |pts|
      invariant i < |pts| ==> j == Prev(|pts|, i)
      invariant inside == (CrossingCount(pts, x, y, i) % 2 == 1)
    {
      var intersect := Crosses(pts[i], pts[j], x, y);
      if intersect {
        inside := !inside;
      }
      j := i;
      i := i + 1;
    }
  }

  /** The triangle (0,0), (10,0), (5,10) contains (5,3) and not (5,11). */
  lemma TriangleContainment()
    ensures Inside([Point(0.0, 0.0), Point(10.0, 0.0), Point(5.0, 10.0)], 5.0, 3.0)
    ensures !Inside([Point(0.0, 0.0), Point(10.0, 0.0), Point(5.0, 10.0)], 5.0, 11.0)
  {
    var t := [Point(0.0, 0.0), Point(10.0, 0.0), Point(5.0, 10.0)];
    assert Prev(3, 0) == 2 && Prev(3, 1) == 0 && Prev(3, 2) == 1;
    assert !Crosses(t[0], t[2], 5.0, 3.0) by {
      assert (10.0 - 0.0) * (3.0 - 0.0) / (10.0 - 0.0) + 0.0 == 3.0;
    }
    assert !Crosses(t[1], t[0], 5.0, 3.0);
    assert Crosses(t[2], t[1], 5.0, 3.0) by {
      assert (10.0 - 5.0) * (3.0 - 10.0) / (0.0 - 10.0) + 5.0 == 8.5;
    }
    assert CrossingCount(t, 5.0, 3.0, 1) == 0;
    assert CrossingCount(t, 5.0, 3.0, 2) == 0;
    assert CrossingCount(t, 5.0, 3.0, 3) == 1;
    assert !Crosses(t[0], t[2], 5.0, 11.0);
    assert !Crosses(t[1], t[0], 5.0, 11.0);
    assert !Crosses(t[2], t[1], 5.0, 11.0);
    assert CrossingCount(t, 5.0, 11.0, 1) == 0;
    assert CrossingCount(t, 5.0, 11.0, 2) == 0;
    assert CrossingCount(t, 5.0, 11.0, 3) == 0;
  }

  // ---------------------------------------------------------------------------
  // Shoelace area (Shape.area) and vertex mean (Shape.center)
  // ---------------------------------------------------------------------------

  /** Twice the signed area of the triangle (origin, a, b). */
  function Cross(a: Point, b: Point): real
  {
    a.x * b.y - b.x * a.y
  }

  /** The shoelace term of edge i: from pts[i] to pts[(i + 1) % n]. */
  function EdgeTerm(pts: seq<Point>, i: nat): real
    requires i < |pts|
  {
    Cross(pts[i], pts[(i + 1) % |pts|])
  }

  /** The shoelace sum over edges 0..k-1. */
  function ShoelacePrefix(pts: seq<Point>, k: nat): real
    requires k <= |pts|
  {
    if k == 0 then 0.0 else ShoelacePrefix(pts, k - 1) + EdgeTerm(pts, k - 1)
  }

  /** Twice the signed area of the closed polygon. */
  function ShoelaceSum(pts: seq<Point>): real
  {
    ShoelacePrefix(pts, |pts|)
  }

  /** `Shape.area`: the loop accumulating the shoelace sum, then |sum| / 2. */
  method Area(pts: seq<Point>) returns (area: real)
    ensures area == Abs(ShoelaceSum(pts)) / 2.0
    ensures area >= 0.0
  {
    area := 0.0;
    var n := |pts|;
    for i := 0 to n
      invariant area == ShoelacePrefix(pts, i)
    {
      var j := (i + 1) % n;
      area := area + pts[i].x * pts[j].y;
      area := area - pts[j].x * pts[i].y;
    }
    area := Abs(area) / 2.0;
  }

  /** The shoelace sum of a quadrilateral, edge by edge. */
  lemma {:induction false} QuadShoelace(a: Point, b: Point, c: Point, d: Point)
    ensures ShoelaceSum([a, b, c, d]) == Cross(a, b) + Cross(b, c) + Cross(c, d) + Cross(d, a)
  {
    var s := [a, b, c, d];
    assert EdgeTerm(s, 0) == Cross(a, b);
    assert EdgeTerm(s, 1) == Cross(b, c);
    assert EdgeTerm(s, 2) == Cross(c, d);
    assert EdgeTerm(s, 3) == Cross(d, a);
    assert ShoelacePrefix(s, 4) == ShoelacePrefix(s, 3) + Cross(d, a);
    assert ShoelacePrefix(s, 3) == ShoelacePrefix(s, 2) + Cross(c, d);
    assert ShoelacePrefix(s, 2) == ShoelacePrefix(s, 1) + Cross(b, c);
    assert ShoelacePrefix(s, 1) == Cross(a, b);
  }

  /** The axis-aligned w x h rectangle at the origin has area w * h. */
  lemma RectangleArea(w: real, h: real)
    requires w >= 0.0 && h >= 0.0
    ensures Abs(ShoelaceSum([Point(0.0, 0.0), Point(w, 0.0), Point(w, h), Point(0.0, h)])) / 2.0 == w * h
  {
    QuadShoelace(Point(0.0, 0.0), Point(w, 0.0), Point(w, h), Point(0.0, h));
  }

  /** The x coordinates and the y coordinates of the vertices, in order. */
  function Xs(pts: seq<Point>): (r: seq<real>)
    ensures |r| == |pts| && forall i :: 0 <= i < |pts| ==> r[i] == pts[i].x
  {
    seq(|pts|, i requires 0 <= i < |pts| => pts[i].x)
  }

  function Ys(pts: seq<Point>): (r: seq<real>)
    ensures |r| == |pts| && forall i :: 0 <= i < |pts| ==> r[i] == pts[i].y
  {
    seq(|pts|, i requires 0 <= i < |pts| => pts[i].y)
  }

  /** A sum folded left to right, as `reduce` does. */
  function Sum(s: seq<real>): real
  {
    if |s| == 0 then 0.0 else Sum(s[..|s| - 1]) + s[|s| - 1]
  }

  /**
   * `Shape.center`: the arithmetic mean of the vertices. With no vertices the source
   * divides 0 by 0 (NaN); the model returns None there.
   */
  function Center(pts: seq<Point>): (c: Option<Point>)
    ensures c.None? <==> |pts| == 0
  {
    if |pts| == 0 then None
    else Some(Point(Sum(Xs(pts)) / (|pts| as real), Sum(Ys(pts)) / (|pts| as real)))
  }

  // ---------------------------------------------------------------------------
  // Bounding box (FlagSystem.getShapeBounds); the specification functions live
  // here so that the center can be related to them.
  // ---------------------------------------------------------------------------

  /** The least element of a non-empty sequence. */
  function MinOf(s: seq<real>): (m: real)
    requires |s| > 0
    ensures m in s
    ensures forall i :: 0 <= i < |s| ==> m <= s[i]
  {
    if |s| == 1 then s[0]
    else
      var r := MinOf(s[..|s| - 1]);
      if s[|s| - 1] < r then s[|s| - 1] else r
  }

  /** The greatest element of a non-empty sequence. */
  function MaxOf(s: seq<real>): (m: real)
    requires |s| > 0
    ensures m in s
    ensures forall i :: 0 <= i < |s| ==> s[i] <= m
  {
    if |s| == 1 then s[0]
    else
      var r := MaxOf(s[..|s| - 1]);
      if s[|s| - 1] > r then s[|s| - 1] else r
  }

  lemma Distribute(m: real, a: real)
    ensures (m + 1.0) * a == m * a + a
  {
  }

  /** The sum of n values between lo and hi lies between n * lo and n * hi. */
  lemma {:induction false} SumWithin(s: seq<real>, lo: real, hi: real)
    requires forall i :: 0 <= i < |s| ==> lo <= s[i] <= hi
    ensures (|s| as real) * lo <= Sum(s) <= (|s| as real) * hi
  {
    if |s| > 0 {
      SumWithin(s[..|s| - 1], lo, hi);
      Distribute((|s| - 1) as real, lo);
      Distribute((|s| - 1) as real, hi);
    }
  }

  /** A sum bounded by n * lo and n * hi has its mean between lo and hi. */
  lemma MeanBetween(n: real, s: real, lo: real, hi: real)
    requires n > 0.0 && n * lo <= s <= n * hi
    ensures lo <= s / n <= hi
  {
  }

  /** The mean of values between lo and hi lies between lo and hi. */
  lemma MeanWithinBounds(s: seq<real>, lo: real, hi: real)
    requires |s| > 0
    requires forall i :: 0 <= i < |s| ==> lo <= s[i] <= hi
    ensures lo <= Sum(s) / (|s| as real) <= hi
  {
    SumWithin(s, lo, hi);
    MeanBetween(|s| as real, Sum(s), lo, hi);
  }

  /** The mean of a non-empty sequence lies between its least and greatest element. */
  lemma MeanWithin(s: seq<real>)
    requires |s| > 0
    ensures MinOf(s) <= Sum(s) / (|s| as real) <= MaxOf(s)
  {
    MeanWithinBounds(s, MinOf(s), MaxOf(s));
  }

  /** The center of a non-empty polygon lies inside its bounding box. */
  lemma CenterWithinBounds(pts: seq<Point>)
    requires |pts| > 0
    ensures MinOf(Xs(pts)) <= Center(pts).value.x <= MaxOf(Xs(pts))
    ensures MinOf(Ys(pts)) <= Center(pts).value.y <= MaxOf(Ys(pts))
  {
    MeanWithin(Xs(pts));
    MeanWithin(Ys(pts));
  }
}

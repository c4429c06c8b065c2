/**
 * `CuttingSystem` (js/cutting-system.js): the set of live shapes, the mouse
 * gesture that draws a cut, and `performCut`, which replaces every shape the cut
 * crosses at least twice by its pockets and its remainder.
 *
 * `CutShapes` is the specification of one cut over the whole set; the method
 * `CuttingSystem.PerformCut` is proved to compute it, and the lemmas below state
 * what the specification guarantees.
 */
module CutEngine {
  import opened Common
  import opened Geometry
  import opened Cutting
  import opened WalkFacts

  /**
   * A shape's colour. The source draws a random hue for every new shape; the
   * model names that draw by an opaque token.
   */
  type Color = nat

  /** A polygon with its colour and identifier (`Shape`, without the hover flag). */
  datatype Shape = Shape(points: seq<Point>, color: Color, id: nat)

  // ---------------------------------------------------------------------------
  // The specification of one cut
  // ---------------------------------------------------------------------------

  /** The pockets and the remainder the walk produces for a polygon crossed at least twice. */
  function Split(pts: seq<Point>, a: Point, b: Point): (seq<seq<Point>>, seq<Point>)
    requires |Hits(pts, a, b)| >= 2
  {
    var hits := Hits(pts, a, b);
    HitsOrdered(pts, a, b, |pts|);
    var w := Walk(|pts|, hits, PocketFlags(pts, hits), 0);
    (ResolveAll(pts, hits, w.pockets), Resolve(pts, hits, w.remainder))
  }

  /**
   * `new Shape(points)` for each polygon in turn: identifiers are drawn from a
   * counter starting at firstId, and each colour draw is named by its identifier.
   */
  function NewShapes(polys: seq<seq<Point>>, firstId: nat): (r: seq<Shape>)
    ensures |r| == |polys|
    ensures forall t :: 0 <= t < |r| ==> r[t] == Shape(polys[t], firstId + t, firstId + t)
  {
    seq(|polys|, t requires 0 <= t < |polys| => Shape(polys[t], firstId + t, firstId + t))
  }

  /** The new shape list, the next unused identifier, and whether a pocket was split off. */
  datatype CutResult = CutResult(shapes: seq<Shape>, nextId: nat, isCut: bool)

  /**
   * One shape under the cut a-b: with fewer than two intersections the shape itself;
   * otherwise its pockets followed by its remainder, all new shapes.
   */
  function CutShape(s: Shape, a: Point, b: Point, nextId: nat): CutResult
  {
    if |Hits(s.points, a, b)| < 2 then CutResult([s], nextId, false)
    else
      var (pockets, rest) := Split(s.points, a, b);
      CutResult(NewShapes(pockets + [rest], nextId), nextId + |pockets| + 1, |pockets| > 0)
  }

  /** The whole loop of `performCut`: every shape in order, identifiers threaded through. */
  function CutShapes(shapes: seq<Shape>, a: Point, b: Point, nextId: nat): CutResult
    decreases |shapes|
  {
    if shapes == [] then CutResult([], nextId, false)
    else
      var r := CutShapes(shapes[..|shapes| - 1], a, b, nextId);
      var c := CutShape(shapes[|shapes| - 1], a, b, r.nextId);
      CutResult(r.shapes + c.shapes, c.nextId, r.isCut || c.isCut)
  }

  // ---------------------------------------------------------------------------
  // What one shape turns into
  // ---------------------------------------------------------------------------

  /**
   * A shape crossed at least twice is replaced by 1 + (number of pockets) new
   * shapes with consecutive fresh identifiers, the remainder last; a pocket is
   * split off exactly when some consecutive pair of crossings has its midpoint
   * inside the shape.
   */
  lemma CutShapeReplaces(s: Shape, a: Point, b: Point, nextId: nat)
    requires |Hits(s.points, a, b)| >= 2
    ensures var r := CutShape(s, a, b, nextId);
            var hits := Hits(s.points, a, b);
            && |r.shapes| == |Split(s.points, a, b).0| + 1
            && r.shapes[|r.shapes| - 1].points == Split(s.points, a, b).1
            && r.nextId == nextId + |r.shapes|
            && (forall t :: 0 <= t < |r.shapes| ==> r.shapes[t].id == nextId + t)
            && (r.isCut <==> exists k :: 0 <= k < |hits| - 1 && PocketFlag(s.points, hits, k))
  {
    var pts := s.points;
    var hits := Hits(pts, a, b);
    HitsOrdered(pts, a, b, |pts|);
    var flags := PocketFlags(pts, hits);
    PocketIffFlag(|pts|, hits, flags);
    forall k | 0 <= k < |hits| - 1
      ensures flags[k] == PocketFlag(pts, hits, k)
    {
      PocketFlagAt(pts, hits, k);
    }
  }

  /**
   * The pieces of a shape crossed twice or more: one pocket for each record that
   * starts one (`StartsPocket` over the midpoint flags), in record order, each
   * beginning at its record's crossing point; the remainder comes last.
   */
  lemma CutShapePieces(s: Shape, a: Point, b: Point, nextId: nat)
    requires |Hits(s.points, a, b)| >= 2
    ensures var hits := Hits(s.points, a, b);
            var starts := Starters(PocketFlags(s.points, hits), 0);
            var r := CutShape(s, a, b, nextId);
            && |r.shapes| == |starts| + 1
            && forall t :: 0 <= t < |starts| ==>
                 && starts[t] < |hits| - 1 && StartsPocket(PocketFlags(s.points, hits), starts[t])
                 && |r.shapes[t].points| > 0 && r.shapes[t].points[0] == hits[starts[t]].point
  {
    var pts := s.points;
    var hits := Hits(pts, a, b);
    HitsOrdered(pts, a, b, |pts|);
    var flags := PocketFlags(pts, hits);
    var starts := Starters(flags, 0);
    PocketCount(|pts|, hits, flags);
    StartersAreStarts(flags, 0);
    var w := Walk(|pts|, hits, flags, 0);
    var (pockets, rest) := Split(pts, a, b);
    var r := CutShape(s, a, b, nextId);
    assert pockets == ResolveAll(pts, hits, w.pockets);
    forall t | 0 <= t < |starts|
      ensures |r.shapes[t].points| > 0 && r.shapes[t].points[0] == hits[starts[t]].point
    {
      assert r.shapes[t] == Shape((pockets + [rest])[t], nextId + t, nextId + t);
      assert (pockets + [rest])[t] == Resolve(pts, hits, w.pockets[t]);
      assert Resolve(pts, hits, w.pockets[t])[0] == CornerPoint(pts, hits, w.pockets[t][0]);
    }
  }

  /**
   * When no pair of crossings bounds a pocket, the shape is still replaced: by one
   * new shape whose points are the original vertices rotated to start at the first
   * crossed edge.
   */
  lemma CutShapeWithoutPocketRotates(s: Shape, a: Point, b: Point, nextId: nat)
    requires |Hits(s.points, a, b)| >= 2
    requires forall k :: 0 <= k < |Hits(s.points, a, b)| - 1 ==> !PocketFlag(s.points, Hits(s.points, a, b), k)
    ensures var e0 := Hits(s.points, a, b)[0].edge;
            && e0 < |s.points|
            && CutShape(s, a, b, nextId) == CutResult([Shape(s.points[e0..] + s.points[..e0], nextId, nextId)],
                                                      nextId + 1, false)
  {
    var pts := s.points;
    var hits := Hits(pts, a, b);
    HitsOrdered(pts, a, b, |pts|);
    var flags := PocketFlags(pts, hits);
    forall k | 0 <= k < |flags|
      ensures !flags[k]
    {
      PocketFlagAt(pts, hits, k);
    }
    NoPocketRotates(pts, hits, flags);
    assert ResolveAll(pts, hits, []) == [];
  }

  /** Resolving a corner list of length at least three gives at least three points. */
  lemma CutShapeMinPoints(s: Shape, a: Point, b: Point, nextId: nat)
    requires |s.points| >= 3
    ensures forall t :: t in CutShape(s, a, b, nextId).shapes ==> |t.points| >= 3
  {
    if |Hits(s.points, a, b)| >= 2 {
      var pts := s.points;
      var hits := Hits(pts, a, b);
      HitsOrdered(pts, a, b, |pts|);
      var flags := PocketFlags(pts, hits);
      AtLeastThreeCorners(|pts|, hits, flags);
      var w := Walk(|pts|, hits, flags, 0);
      var polys := Split(pts, a, b).0 + [Split(pts, a, b).1];
      forall t | 0 <= t < |polys|
        ensures |polys[t]| >= 3
      {
        if t < |w.pockets| {
          assert w.pockets[t] in w.pockets;
        }
      }
    }
  }

  // ---------------------------------------------------------------------------
  // What the whole set turns into
  // ---------------------------------------------------------------------------

  /**
   * A cut whose two ends coincide changes nothing: every shape is kept as it is,
   * no identifier is used, and no cut is reported.
   */
  lemma {:induction false} ZeroLengthCutKeepsShapes(shapes: seq<Shape>, a: Point, nextId: nat)
    ensures CutShapes(shapes, a, a, nextId) == CutResult(shapes, nextId, false)
    decreases |shapes|
  {
    if shapes != [] {
      var last := shapes[|shapes| - 1];
      ZeroLengthCutKeepsShapes(shapes[..|shapes| - 1], a, nextId);
      ZeroLengthCutHitsNothing(last.points, a, |last.points|);
      assert shapes[..|shapes| - 1] + [last] == shapes;
    }
  }

  /**
   * Identifiers: every output shape is either an input shape kept as it is or a
   * new shape whose identifier lies in [nextId, r.nextId).
   */
  lemma {:induction false} CutShapesIdRange(shapes: seq<Shape>, a: Point, b: Point, nextId: nat)
    ensures var r := CutShapes(shapes, a, b, nextId);
            && nextId <= r.nextId
            && (forall t :: t in r.shapes ==> t in shapes || nextId <= t.id < r.nextId)
    decreases |shapes|
  {
    if shapes != [] {
      var init := shapes[..|shapes| - 1];
      var last := shapes[|shapes| - 1];
      CutShapesIdRange(init, a, b, nextId);
      var r := CutShapes(init, a, b, nextId);
      assert forall t :: t in init ==> t in shapes;
      if |Hits(last.points, a, b)| >= 2 {
        CutShapeReplaces(last, a, b, r.nextId);
      }
    }
  }

  /**
   * When every input identifier lies below nextId, the identifiers at or above
   * nextId in the output (the new shapes) rise strictly, so no two new shapes
   * share one.
   */
  lemma {:induction false} CutShapesIdsRise(shapes: seq<Shape>, a: Point, b: Point, nextId: nat)
    requires forall s :: s in shapes ==> s.id < nextId
    ensures var out := CutShapes(shapes, a, b, nextId).shapes;
            forall i, j :: 0 <= i < j < |out| && nextId <= out[i].id && nextId <= out[j].id ==> out[i].id < out[j].id
    decreases |shapes|
  {
    if shapes != [] {
      var init := shapes[..|shapes| - 1];
      var last := shapes[|shapes| - 1];
      assert forall t :: t in init ==> t in shapes;
      CutShapesIdsRise(init, a, b, nextId);
      CutShapesIdRange(init, a, b, nextId);
      var r := CutShapes(init, a, b, nextId);
      var c := CutShape(last, a, b, r.nextId);
      if |Hits(last.points, a, b)| >= 2 {
        CutShapeReplaces(last, a, b, r.nextId);
        RiseAcross(r.shapes, c.shapes, nextId, r.nextId);
      } else {
        assert c.shapes == [last];
        RiseAcross(r.shapes, c.shapes, nextId, r.nextId);
      }
    }
  }

  /**
   * Rising identifiers at or above lo survive appending a block whose identifiers
   * at or above lo all lie at or above mid, above every earlier one.
   */
  lemma RiseAcross(xs: seq<Shape>, ys: seq<Shape>, lo: nat, mid: nat)
    requires forall t :: t in xs ==> t.id < mid
    requires forall i, j :: 0 <= i < j < |xs| && lo <= xs[i].id && lo <= xs[j].id ==> xs[i].id < xs[j].id
    requires forall t :: t in ys && lo <= t.id ==> mid <= t.id
    requires forall i, j :: 0 <= i < j < |ys| && lo <= ys[i].id && lo <= ys[j].id ==> ys[i].id < ys[j].id
    ensures var out := xs + ys;
            forall i, j :: 0 <= i < j < |out| && lo <= out[i].id && lo <= out[j].id ==> out[i].id < out[j].id
  {
    var out := xs + ys;
    forall i, j | 0 <= i < j < |out| && lo <= out[i].id && lo <= out[j].id
      ensures out[i].id < out[j].id
    {
      if i < |xs| && j >= |xs| {
        assert out[i] in xs && out[j] in ys;
      } else if i >= |xs| {
        assert out[i] == ys[i - |xs|] && out[j] == ys[j - |xs|];
      } else {
        assert out[i] == xs[i] && out[j] == xs[j];
      }
    }
  }

  /**
   * Counting pieces: the cut never lowers the number of shapes, and a cut that
   * split off a pocket raises it.
   */
  lemma {:induction false} CutShapesGrows(shapes: seq<Shape>, a: Point, b: Point, nextId: nat)
    ensures var r := CutShapes(shapes, a, b, nextId);
            |r.shapes| >= |shapes| && (r.isCut ==> |r.shapes| > |shapes|)
    decreases |shapes|
  {
    if shapes != [] {
      var init := shapes[..|shapes| - 1];
      var last := shapes[|shapes| - 1];
      CutShapesGrows(init, a, b, nextId);
      var r := CutShapes(init, a, b, nextId);
      if |Hits(last.points, a, b)| >= 2 {
        CutShapeReplaces(last, a, b, r.nextId);
      }
    }
  }

  /** If every shape has at least three points, so has every shape after the cut. */
  lemma {:induction false} CutShapesMinPoints(shapes: seq<Shape>, a: Point, b: Point, nextId: nat)
    requires forall s :: s in shapes ==> |s.points| >= 3
    ensures forall t :: t in CutShapes(shapes, a, b, nextId).shapes ==> |t.points| >= 3
    decreases |shapes|
  {
    if shapes != [] {
      var init := shapes[..|shapes| - 1];
      var last := shapes[|shapes| - 1];
      assert forall s :: s in init ==> s in shapes;
      CutShapesMinPoints(init, a, b, nextId);
      CutShapeMinPoints(last, a, b, CutShapes(init, a, b, nextId).nextId);
    }
  }

  /** A shape the cut crosses fewer than two times passes through as the same value. */
  lemma {:induction false} UncutShapesKept(shapes: seq<Shape>, a: Point, b: Point, nextId: nat)
    ensures forall s :: s in shapes && |Hits(s.points, a, b)| < 2 ==> s in CutShapes(shapes, a, b, nextId).shapes
    decreases |shapes|
  {
    if shapes != [] {
      var init := shapes[..|shapes| - 1];
      UncutShapesKept(init, a, b, nextId);
      assert forall s :: s in shapes ==> s in init || s == shapes[|shapes| - 1];
    }
  }

  // ---------------------------------------------------------------------------
  // The stateful engine
  // ---------------------------------------------------------------------------

  /** The line drawn while dragging (`cutLine`). */
  datatype CutLine = CutLine(start: Point, end: Point)

  /** The largest identifier in a list of shapes, or -1 for none. */
  function MaxId(shapes: seq<Shape>): (m: int)
    ensures forall s :: s in shapes ==> s.id <= m
    ensures m >= -1
  {
    if shapes == [] then -1 else Max(shapes[0].id, MaxId(shapes[1..]))
  }

  /**
   * One pass of the outer loop of `performCut`: the intersections of the cut with
   * the shape, then either the shape itself or its pockets and its remainder as
   * new shapes, the remainder last.
   */
  method CutOne(shape: Shape, a: Point, b: Point, firstId: nat) returns (pieces: seq<Shape>, nextId: nat, cut: bool)
    ensures CutShape(shape, a, b, firstId) == CutResult(pieces, nextId, cut)
  {
    var hits := CollectHits(shape.points, a, b);
    if |hits| < 2 {
      return [shape], firstId, false;
    }
    HitsOrdered(shape.points, a, b, |shape.points|);
    var pockets, remainder;
    pockets, remainder, cut := SplitShape(shape.points, hits);
    var polys := pockets + [remainder];
    pieces := [];
    nextId := firstId;
    for t := 0 to |polys|
      invariant nextId == firstId + t
      invariant pieces == NewShapes(polys[..t], firstId)
    {
      assert NewShapes(polys[..t + 1], firstId) == NewShapes(polys[..t], firstId) + [Shape(polys[t], nextId, nextId)];
      pieces := pieces + [Shape(polys[t], nextId, nextId)];
      nextId := nextId + 1;
    }
    assert polys[..|polys|] == polys;
  }

  class CuttingSystem {
    var shapes: seq<Shape>
    var isCutting: bool
    var cutStart: Option<Point>
    var cutEnd: Option<Point>
    var cutLine: Option<CutLine>
    /** Whether `onCutCallback` is set (`setOnCutCallback`). */
    var hasCutCallback: bool
    /** The identifier the next new shape receives; above every live identifier. */
    var nextId: nat

    ghost predicate Valid()
      reads this
    {
      && (forall s :: s in shapes ==> s.id < nextId)
      && (isCutting ==> cutStart.Some? && cutEnd.Some?)
    }

    constructor ()
      ensures Valid()
      ensures shapes == [] && !isCutting && cutStart == None && cutEnd == None && cutLine == None
      ensures !hasCutCallback
    {
      shapes := [];
      isCutting := false;
      cutStart := None;
      cutEnd := None;
      cutLine := None;
      hasCutCallback := false;
      nextId := 0;
    }

    method SetOnCutCallback()
      modifies this`hasCutCallback
      ensures hasCutCallback
    {
      hasCutCallback := true;
    }

    /** `onMouseDown` at (x, y): a zero-length cut starts there. */
    method OnMouseDown(x: real, y: real)
      requires Valid()
      modifies this`isCutting, this`cutStart, this`cutEnd, this`cutLine
      ensures Valid()
      ensures isCutting && cutStart == Some(Point(x, y)) && cutEnd == cutStart
      ensures cutLine == Some(CutLine(Point(x, y), Point(x, y)))
    {
      isCutting := true;
      cutStart := Some(Point(x, y));
      cutEnd := cutStart;
      cutLine := Some(CutLine(Point(x, y), Point(x, y)));
    }

    /**
     * The cut-line part of `onMouseMove` at (x, y): while cutting, the end follows
     * the mouse. If the line was already cleared by the timer of an earlier mouse-up,
     * the source dereferences null: `ok` is false and only `cutEnd` has moved.
     */
    method OnMouseMove(x: real, y: real) returns (ok: bool)
      requires Valid()
      modifies this`cutEnd, this`cutLine
      ensures Valid()
      ensures ok <==> !isCutting || old(cutLine).Some?
      ensures cutEnd == if isCutting then Some(Point(x, y)) else old(cutEnd)
      ensures cutLine == if isCutting && ok then Some(CutLine(old(cutLine).value.start, Point(x, y))) else old(cutLine)
    {
      ok := true;
      if isCutting {
        cutEnd := Some(Point(x, y));
        if cutLine.None? {
          ok := false;
          return;
        }
        cutLine := Some(CutLine(cutLine.value.start, Point(x, y)));
      }
    }

    /**
     * `performCut`: replaces the whole set by `CutShapes` of it. The callback is
     * told the new number of shapes exactly when a pocket was split off and a
     * callback is set; `notified` is that call.
     */
    method PerformCut() returns (notified: Option<nat>)
      requires Valid()
      modifies this`shapes, this`nextId
      ensures Valid()
      ensures old(cutStart).None? || old(cutEnd).None? ==> shapes == old(shapes) && nextId == old(nextId) && notified == None
      ensures old(cutStart).Some? && old(cutEnd).Some? ==>
                var r := CutShapes(old(shapes), cutStart.value, cutEnd.value, old(nextId));
                && shapes == r.shapes && nextId == r.nextId
                && notified == if r.isCut && hasCutCallback then Some(|shapes|) else None
    {
      if cutStart.None? || cutEnd.None? {
        return None;
      }
      var a, b := cutStart.value, cutEnd.value;
      var current, firstFree := shapes, nextId;
      var newShapes: seq<Shape> := [];
      var isCut := false;
      var id := firstFree;
      for k := 0 to |current|
        invariant CutShapes(current[..k], a, b, firstFree) == CutResult(newShapes, id, isCut)
      {
        assert current[..k + 1][..k] == current[..k];
        var pieces, cut;
        pieces, id, cut := CutOne(current[k], a, b, id);
        newShapes := newShapes + pieces;
        isCut := isCut || cut;
      }
      assert current[..|current|] == current;
      CutShapesIdRange(current, a, b, firstFree);
      shapes := newShapes;
      nextId := id;
      notified := if isCut && hasCutCallback then Some(|shapes|) else None;
    }

    /**
     * `onMouseUp` at (x, y): ignored unless a cut is in progress; otherwise the cut
     * ends there and is performed.
     */
    method OnMouseUp(x: real, y: real) returns (notified: Option<nat>)
      requires Valid()
      modifies this`isCutting, this`cutEnd, this`shapes, this`nextId
      ensures Valid() && !isCutting
      ensures !old(isCutting) ==> shapes == old(shapes) && nextId == old(nextId) && cutEnd == old(cutEnd) && notified == None
      ensures old(isCutting) ==>
                var r := CutShapes(old(shapes), cutStart.value, Point(x, y), old(nextId));
                && cutEnd == Some(Point(x, y))
                && shapes == r.shapes && nextId == r.nextId
                && notified == if r.isCut && hasCutCallback then Some(|shapes|) else None
    {
      if !isCutting {
        return None;
      }
      cutEnd := Some(Point(x, y));
      isCutting := false;
      notified := PerformCut();
    }

    /** The 300 ms timer `onMouseUp` starts: it clears the drawn line. */
    method ClearCutLineTimer()
      modifies this`cutLine
      ensures cutLine == None
    {
      cutLine := None;
    }

    /** `onMouseLeave` (without the hover reset): a cut in progress is cancelled, not performed. */
    method OnMouseLeave()
      requires Valid()
      modifies this`isCutting, this`cutLine
      ensures Valid() && !isCutting
      ensures cutLine == if old(isCutting) then None else old(cutLine)
    {
      if isCutting {
        isCutting := false;
        cutLine := None;
      }
    }

    /**
     * `setShapes`: the set is replaced. The identifier counter moves past every
     * received identifier so that later new shapes stay fresh.
     */
    method SetShapes(newShapes: seq<Shape>)
      requires Valid()
      modifies this`shapes, this`nextId
      ensures Valid() && shapes == newShapes && nextId == Max(old(nextId), MaxId(newShapes) + 1)
    {
      shapes := newShapes;
      var m := MaxId(newShapes);
      if m + 1 > nextId {
        nextId := m + 1;
      }
    }

    /** `clear`: no shapes, no line, no cut in progress. */
    method Clear()
      requires Valid()
      modifies this`shapes, this`cutLine, this`isCutting
      ensures Valid() && shapes == [] && cutLine == None && !isCutting
    {
      shapes := [];
      cutLine := None;
      isCutting := false;
    }

    /** A new shape with a fresh identifier (`new Shape(points)` by a shape's creator). */
    method NewShape(points: seq<Point>) returns (s: Shape)
      requires Valid()
      modifies this`nextId
      ensures Valid() && s == Shape(points, old(nextId), old(nextId)) && nextId == old(nextId) + 1
    {
      s := Shape(points, nextId, nextId);
      nextId := nextId + 1;
    }
  }
}

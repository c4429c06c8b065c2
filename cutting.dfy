/**
 * The per-shape part of `CuttingSystem.performCut` (js/cutting-system.js): the
 * intersections of the cut with the edges of one polygon, and the walk that
 * splits the polygon into "pockets" and one remainder.
 *
 * The walk is specified by `Walk` over symbolic corners (a vertex index or a
 * crossing index); `SplitShape` is the imperative walk of the source and is proved
 * to produce exactly the points those corners resolve to.
 */
module Cutting {
  import opened Common
  import opened Geometry
  import Sequences

  // ---------------------------------------------------------------------------
  // Intersections of the cut with the edges
  // ---------------------------------------------------------------------------

  /** An intersection record: the edge it lies on and the crossing point. */
  datatype Hit = Hit(edge: nat, point: Point)

  /** Edge i runs from pts[i] to pts[(i + 1) % n]; its crossing with the cut a-b. */
  function EdgeHit(pts: seq<Point>, a: Point, b: Point, i: nat): Option<Point>
    requires i < |pts|
  {
    LineIntersection(a, b, pts[i], pts[(i + 1) % |pts|])
  }

  /** The intersection records of edges 0..k-1, in edge order. */
  function HitsUpTo(pts: seq<Point>, a: Point, b: Point, k: nat): seq<Hit>
    requires k <= |pts|
  {
    if k == 0 then []
    else
      HitsUpTo(pts, a, b, k - 1)
        + (match EdgeHit(pts, a, b, k - 1)
           case Some(p) => [Hit(k - 1, p)]
           case None => [])
  }

  /** Every intersection record of the polygon, in edge order. */
  function Hits(pts: seq<Point>, a: Point, b: Point): seq<Hit>
  {
    HitsUpTo(pts, a, b, |pts|)
  }

  /** Edges are below n and strictly increasing: at most one record per edge. */
  predicate Ordered(hits: seq<Hit>, n: nat)
  {
    && (forall k :: 0 <= k < |hits| ==> hits[k].edge < n)
    && (forall k, l :: 0 <= k < l < |hits| ==> hits[k].edge < hits[l].edge)
  }

  /** The first loop of `performCut` over one shape: one record per crossed edge. */
  method CollectHits(pts: seq<Point>, a: Point, b: Point) returns (hits: seq<Hit>)
    ensures hits == Hits(pts, a, b)
  {
    hits := [];
    for i := 0 to |pts|
      invariant hits == HitsUpTo(pts, a, b, i)
    {
      var p1 := pts[i];
      var p2 := pts[(i + 1) % |pts|];
      var intersection := LineIntersection(a, b, p1, p2);
      if intersection.Some? {
        hits := hits + [Hit(i, intersection.value)];
      }
    }
  }

  /** The last record of HitsUpTo(k + 1), if edge k is crossed, is the one for edge k. */
  lemma HitsStep(pts: seq<Point>, a: Point, b: Point, k: nat)
    requires k < |pts|
    ensures EdgeHit(pts, a, b, k).None? ==> HitsUpTo(pts, a, b, k + 1) == HitsUpTo(pts, a, b, k)
    ensures EdgeHit(pts, a, b, k).Some? ==>
              HitsUpTo(pts, a, b, k + 1) == HitsUpTo(pts, a, b, k) + [Hit(k, EdgeHit(pts, a, b, k).value)]
  {
  }

  /** Records are in strictly increasing edge order, all below the edges examined. */
  lemma {:induction false} HitsOrdered(pts: seq<Point>, a: Point, b: Point, k: nat)
    requires k <= |pts|
    ensures Ordered(HitsUpTo(pts, a, b, k), k)
  {
    if k > 0 {
      HitsOrdered(pts, a, b, k - 1);
      HitsStep(pts, a, b, k - 1);
    }
  }

  /** Each record lies on its edge and on the cut: it is that edge's crossing. */
  lemma {:induction false} HitsOnEdges(pts: seq<Point>, a: Point, b: Point, k: nat)
    requires k <= |pts|
    ensures forall h :: h in HitsUpTo(pts, a, b, k) ==>
              h.edge < k && EdgeHit(pts, a, b, h.edge) == Some(h.point)
  {
    if k > 0 {
      HitsOnEdges(pts, a, b, k - 1);
      HitsStep(pts, a, b, k - 1);
    }
  }

  /** Every crossed edge has a record. */
  lemma {:induction false} HitsComplete(pts: seq<Point>, a: Point, b: Point, k: nat)
    requires k <= |pts|
    ensures forall i :: 0 <= i < k && EdgeHit(pts, a, b, i).Some? ==>
              Hit(i, EdgeHit(pts, a, b, i).value) in HitsUpTo(pts, a, b, k)
  {
    if k > 0 {
      HitsComplete(pts, a, b, k - 1);
      HitsStep(pts, a, b, k - 1);
    }
  }

  /** A cut whose two ends coincide crosses no edge. */
  lemma {:induction false} ZeroLengthCutHitsNothing(pts: seq<Point>, a: Point, k: nat)
    requires k <= |pts|
    ensures HitsUpTo(pts, a, a, k) == []
  {
    if k > 0 {
      ZeroLengthCutHitsNothing(pts, a, k - 1);
      DegenerateSegmentMeetsNothing(a, pts[k - 1], pts[k % |pts|]);
    }
  }

  /**
   * `intersections.find(inter => inter.edgeIndex == e)` followed by `indexOf`: the
   * index of the first record on edge e.
   */
  function FindHit(hits: seq<Hit>, e: nat): (r: Option<nat>)
    ensures r.Some? ==> r.value < |hits| && hits[r.value].edge == e
    ensures r.Some? ==> forall k :: 0 <= k < r.value ==> hits[k].edge != e
    ensures r.None? ==> forall k :: 0 <= k < |hits| ==> hits[k].edge != e
  {
    FindHitFrom(hits, e, 0)
  }

  /** The index of the first record on edge e at or after index `from`. */
  function FindHitFrom(hits: seq<Hit>, e: nat, from: nat): (r: Option<nat>)
    requires from <= |hits|
    ensures r.Some? ==> from <= r.value < |hits| && hits[r.value].edge == e
    ensures r.Some? ==> forall k :: from <= k < r.value ==> hits[k].edge != e
    ensures r.None? ==> forall k :: from <= k < |hits| ==> hits[k].edge != e
    decreases |hits| - from
  {
    if from == |hits| then None
    else if hits[from].edge == e then Some(from)
    else FindHitFrom(hits, e, from + 1)
  }

  // ---------------------------------------------------------------------------
  // The walk, over symbolic corners
  // ---------------------------------------------------------------------------

  /** An output point: an original vertex, or the point of an intersection record. */
  datatype Corner = Vertex(index: nat) | Crossing(hit: nat)

  datatype WalkResult = WalkResult(remainder: seq<Corner>, pockets: seq<seq<Corner>>)

  function Mid(p: Point, q: Point): Point
  {
    Point((p.x + q.x) / 2.0, (p.y + q.y) / 2.0)
  }

  /**
   * Whether records k and k + 1 bound a pocket: there is a next record, and the
   * midpoint of the two crossings lies inside the original polygon.
   */
  predicate PocketFlag(pts: seq<Point>, hits: seq<Hit>, k: nat)
    requires k < |hits|
  {
    k + 1 < |hits| && Inside(pts, Mid(hits[k].point, hits[k + 1].point).x,
                                  Mid(hits[k].point, hits[k + 1].point).y)
  }

  /** The flags of records k, k + 1, ... */
  function PocketFlagsFrom(pts: seq<Point>, hits: seq<Hit>, k: nat): (flags: seq<bool>)
    requires k <= |hits|
    ensures |flags| == |hits| - k
    decreases |hits| - k
  {
    if k == |hits| then [] else [PocketFlag(pts, hits, k)] + PocketFlagsFrom(pts, hits, k + 1)
  }

  /** The flag of every record, in record order. */
  function PocketFlags(pts: seq<Point>, hits: seq<Hit>): (flags: seq<bool>)
    ensures |flags| == |hits|
  {
    PocketFlagsFrom(pts, hits, 0)
  }

  lemma {:induction false} PocketFlagsFromAt(pts: seq<Point>, hits: seq<Hit>, k: nat, j: nat)
    requires k <= j < |hits|
    ensures PocketFlagsFrom(pts, hits, k)[j - k] == PocketFlag(pts, hits, j)
    decreases j - k
  {
    if k < j {
      PocketFlagsFromAt(pts, hits, k + 1, j);
    }
  }

  /** Flag k of PocketFlags is record k's flag. */
  lemma PocketFlagAt(pts: seq<Point>, hits: seq<Hit>, k: nat)
    requires k < |hits|
    ensures PocketFlags(pts, hits)[k] == PocketFlag(pts, hits, k)
  {
    PocketFlagsFromAt(pts, hits, 0, k);
  }

  /** The vertices lo, ..., hi - 1 steps after e0, cyclically, in order. */
  function Run(n: nat, e0: nat, lo: nat, hi: nat): (r: seq<Corner>)
    requires e0 < n && lo <= hi <= n
    ensures |r| == hi - lo
  {
    seq(hi - lo, t requires 0 <= t < hi - lo => Vertex(Advance(n, e0, lo + t)))
  }

  /** The preconditions of the walk: ordered records, at least one, one flag each. */
  predicate WalkInput(n: nat, hits: seq<Hit>, flags: seq<bool>)
  {
    |hits| > 0 && |flags| == |hits| && Ordered(hits, n)
  }

  /**
   * A record found on the current edge (e0 + i) % n of the walk lies on edge
   * e0 + i itself: edges below e0 carry no record, so the index never wraps there.
   */
  lemma FoundEdgeNoWrap(n: nat, hits: seq<Hit>, flags: seq<bool>, i: nat, k: nat)
    requires WalkInput(n, hits, flags) && i < n
    requires k < |hits| && hits[k].edge == Advance(n, hits[0].edge, i)
    ensures hits[k].edge == hits[0].edge + i
  {
  }

  /**
   * The walk of `performCut` from step i: vertex (e0 + i) % n goes to the remainder;
   * if the first record on that edge has a successor and bounds a pocket, the
   * remainder also receives both crossings, the pocket receives the first crossing,
   * the vertices after the edge up to the successor's edge, and the second crossing,
   * and the walk resumes after the successor's edge.
   */
  function Walk(n: nat, hits: seq<Hit>, flags: seq<bool>, i: nat): WalkResult
    requires WalkInput(n, hits, flags) && i <= n
    decreases n - i
  {
    if i == n then WalkResult([], [])
    else
      var e0 := hits[0].edge;
      var e := Advance(n, e0, i);
      var found := FindHit(hits, e);
      if found.Some? && found.value < |hits| - 1 && flags[found.value] then
        var k := found.value;
        FoundEdgeNoWrap(n, hits, flags, i, k);
        var j := hits[k + 1].edge - e0;
        var rest := Walk(n, hits, flags, j + 1);
        WalkResult([Vertex(e), Crossing(k), Crossing(k + 1)] + rest.remainder,
                   [[Crossing(k)] + Run(n, e0, i + 1, j + 1) + [Crossing(k + 1)]] + rest.pockets)
      else
        var rest := Walk(n, hits, flags, i + 1);
        WalkResult([Vertex(e)] + rest.remainder, rest.pockets)
  }

  // ---------------------------------------------------------------------------
  // From corners to points
  // ---------------------------------------------------------------------------

  /** The point a corner stands for (indices out of range do not arise; see WalkCoversEveryVertexOnce). */
  function CornerPoint(pts: seq<Point>, hits: seq<Hit>, c: Corner): Point
  {
    match c
    case Vertex(v) => if v < |pts| then pts[v] else Point(0.0, 0.0)
    case Crossing(k) => if k < |hits| then hits[k].point else Point(0.0, 0.0)
  }

  function Resolve(pts: seq<Point>, hits: seq<Hit>, cs: seq<Corner>): (r: seq<Point>)
    ensures |r| == |cs|
  {
    seq(|cs|, t requires 0 <= t < |cs| => CornerPoint(pts, hits, cs[t]))
  }

  function ResolveAll(pts: seq<Point>, hits: seq<Hit>, css: seq<seq<Corner>>): (r: seq<seq<Point>>)
    ensures |r| == |css|
  {
    seq(|css|, t requires 0 <= t < |css| => Resolve(pts, hits, css[t]))
  }

  lemma ResolveConcat(pts: seq<Point>, hits: seq<Hit>, a: seq<Corner>, b: seq<Corner>)
    ensures Resolve(pts, hits, a + b) == Resolve(pts, hits, a) + Resolve(pts, hits, b)
  {
    assert forall t :: 0 <= t < |a + b| ==>
      Resolve(pts, hits, a + b)[t] == (Resolve(pts, hits, a) + Resolve(pts, hits, b))[t];
  }

  lemma ResolveAllCons(pts: seq<Point>, hits: seq<Hit>, c: seq<Corner>, rest: seq<seq<Corner>>)
    ensures ResolveAll(pts, hits, [c] + rest) == [Resolve(pts, hits, c)] + ResolveAll(pts, hits, rest)
  {
    assert forall t :: 0 <= t < 1 + |rest| ==>
      ResolveAll(pts, hits, [c] + rest)[t] == ([Resolve(pts, hits, c)] + ResolveAll(pts, hits, rest))[t];
  }

  // ---------------------------------------------------------------------------
  // The imperative walk
  // ---------------------------------------------------------------------------

  /** The index s steps after e on a cycle of n indices (s at most n): (e + s) % n. */
  function Advance(n: nat, e: nat, s: nat): (r: nat)
    requires e < n && s <= n
    ensures r < n
  {
    if e + s < n then e + s else e + s - n
  }

  /** Advance is the source's `(e + s) % n`. */
  lemma AdvanceIsMod(n: nat, e: nat, s: nat)
    requires e < n && s <= n
    ensures Advance(n, e, s) == (e + s) % n
  {
    ModCases(e + s, n);
  }

  /** The number of cyclic steps from edge e forward to edge stop. */
  function Distance(n: nat, e: nat, stop: nat): (d: nat)
    requires e < n && stop < n
    ensures d < n
  {
    if e <= stop then stop - e else stop + n - e
  }

  /** The len vertices after vertex e, cyclically (len at most n). */
  function CyclicRun(pts: seq<Point>, e: nat, len: nat): (r: seq<Point>)
    requires e < |pts| && len <= |pts|
    ensures |r| == len
  {
    if len == 0 then [] else CyclicRun(pts, e, len - 1) + [pts[Advance(|pts|, e, len)]]
  }

  /** Element t of the run is vertex (e + 1 + t) % n. */
  lemma {:induction false} CyclicRunAt(pts: seq<Point>, e: nat, len: nat, t: nat)
    requires e < |pts| && len <= |pts| && t < len
    ensures CyclicRun(pts, e, len)[t] == pts[Advance(|pts|, e, t + 1)]
  {
    if t < len - 1 {
      CyclicRunAt(pts, e, len - 1, t);
    }
  }

  /**
   * One step of the inner loop, at edge cur = s steps after edge e and not yet on
   * `stop`: more steps remain, the next edge index (cur + 1) % n is s + 1 steps
   * after e, and the collected run grows by that vertex.
   */
  lemma CutPocketStep(pts: seq<Point>, e: nat, stop: nat, steps: nat, cur: nat)
    requires e < |pts| && stop < |pts| && steps <= Distance(|pts|, e, stop)
    requires cur == Advance(|pts|, e, steps) && cur != stop
    ensures steps < Distance(|pts|, e, stop)
    ensures (cur + 1) % |pts| == Advance(|pts|, e, steps + 1)
    ensures CyclicRun(pts, e, steps) + [pts[(cur + 1) % |pts|]] == CyclicRun(pts, e, steps + 1)
  {
    ModCases(cur + 1, |pts|);
  }

  /**
   * The inner `while` of `performCut`: from edge e, step cyclically to edge `stop`,
   * collecting each vertex reached. It takes between 1 and n - 1 steps, and the
   * cursor advances by the number of steps.
   */
  method CutPocket(pts: seq<Point>, e: nat, stop: nat, i: nat) returns (run: seq<Point>, tempI: nat)
    requires e < |pts| && stop < |pts| && e != stop
    ensures tempI == i + Distance(|pts|, e, stop)
    ensures 1 <= tempI - i < |pts|
    ensures run == CyclicRun(pts, e, tempI - i)
  {
    var n := |pts|;
    var tempEdgeIndex := e;
    tempI := i;
    run := [];
    ghost var steps: nat := 0;
    while tempEdgeIndex != stop
      invariant tempI == i + steps && steps <= Distance(n, e, stop)
      invariant tempEdgeIndex == Advance(n, e, steps)
      invariant run == CyclicRun(pts, e, steps)
      decreases Distance(n, e, stop) - steps
    {
      CutPocketStep(pts, e, stop, steps, tempEdgeIndex);
      tempEdgeIndex := (tempEdgeIndex + 1) % n;
      run := run + [pts[tempEdgeIndex]];
      tempI := tempI + 1;
      steps := steps + 1;
    }
  }

  /** A pocket step of the walk, read as points: from step i on edge e to step j + 1. */
  lemma {:induction false} ResolvePocketStep(pts: seq<Point>, hits: seq<Hit>, flags: seq<bool>,
                                             i: nat, e: nat, k: nat, j: int)
    requires WalkInput(|pts|, hits, flags) && i < |pts| && e == Advance(|pts|, hits[0].edge, i)
    requires FindHit(hits, e) == Some(k) && k < |hits| - 1 && flags[k]
    requires j == hits[k + 1].edge - hits[0].edge
    ensures e == hits[0].edge + i && e < hits[k + 1].edge
    ensures i < j < |pts|
    ensures Resolve(pts, hits, Walk(|pts|, hits, flags, i).remainder)
            == [pts[e], hits[k].point, hits[k + 1].point] + Resolve(pts, hits, Walk(|pts|, hits, flags, j + 1).remainder)
    ensures ResolveAll(pts, hits, Walk(|pts|, hits, flags, i).pockets)
            == [[hits[k].point] + Resolve(pts, hits, Run(|pts|, hits[0].edge, i + 1, j + 1)) + [hits[k + 1].point]]
               + ResolveAll(pts, hits, Walk(|pts|, hits, flags, j + 1).pockets)
  {
    var n, e0 := |pts|, hits[0].edge;
    FoundEdgeNoWrap(n, hits, flags, i, k);
    var rest := Walk(n, hits, flags, j + 1);
    var run := Run(n, e0, i + 1, j + 1);
    var head := [Vertex(e), Crossing(k), Crossing(k + 1)];
    var pocket := [Crossing(k)] + run + [Crossing(k + 1)];
    assert Walk(n, hits, flags, i) == WalkResult(head + rest.remainder, [pocket] + rest.pockets);
    assert Resolve(pts, hits, head) == [pts[e], hits[k].point, hits[k + 1].point];
    ResolveConcat(pts, hits, head, rest.remainder);
    assert Resolve(pts, hits, [Crossing(k)]) == [hits[k].point];
    assert Resolve(pts, hits, [Crossing(k + 1)]) == [hits[k + 1].point];
    ResolveConcat(pts, hits, [Crossing(k)] + run, [Crossing(k + 1)]);
    ResolveConcat(pts, hits, [Crossing(k)], run);
    ResolveAllCons(pts, hits, pocket, rest.pockets);
  }

  /** A plain step of the walk, read as points. */
  lemma {:induction false} ResolvePlainStep(pts: seq<Point>, hits: seq<Hit>, flags: seq<bool>, i: nat)
    requires WalkInput(|pts|, hits, flags) && i < |pts|
    requires var found := FindHit(hits, Advance(|pts|, hits[0].edge, i));
             !(found.Some? && found.value < |hits| - 1 && flags[found.value])
    ensures Resolve(pts, hits, Walk(|pts|, hits, flags, i).remainder)
            == [pts[Advance(|pts|, hits[0].edge, i)]] + Resolve(pts, hits, Walk(|pts|, hits, flags, i + 1).remainder)
    ensures ResolveAll(pts, hits, Walk(|pts|, hits, flags, i).pockets)
            == ResolveAll(pts, hits, Walk(|pts|, hits, flags, i + 1).pockets)
  {
    var rest := Walk(|pts|, hits, flags, i + 1);
    ResolveConcat(pts, hits, [Vertex(Advance(|pts|, hits[0].edge, i))], rest.remainder);
  }

  /** The vertices collected by CutPocket from edge e = e0 + i are the run after step i. */
  lemma PocketRunPoints(pts: seq<Point>, hits: seq<Hit>, e: nat, e0: nat, i: nat, j: nat)
    requires e == e0 + i && i <= j && e0 + j < |pts|
    ensures CyclicRun(pts, e, j - i) == Resolve(pts, hits, Run(|pts|, e0, i + 1, j + 1))
  {
    var run := CyclicRun(pts, e, j - i);
    var corners := Resolve(pts, hits, Run(|pts|, e0, i + 1, j + 1));
    forall t | 0 <= t < |run|
      ensures run[t] == corners[t]
    {
      CyclicRunAt(pts, e, j - i, t);
      assert Advance(|pts|, e0, i + 1 + t) == e + 1 + t;
      assert Run(|pts|, e0, i + 1, j + 1)[t] == Vertex(Advance(|pts|, e0, i + 1 + t));
    }
    assert run == corners;
  }

  /**
   * One pass of the source's loop from step i, given the points read so far and the
   * pockets split off so far: the next step, and both accumulators after the pass.
   * A pocket step appends the current vertex and both crossings, and the pocket of
   * the vertices after the current edge up to the next record's edge between the
   * two crossings; it resumes after that edge.
   */
  function Step(pts: seq<Point>, hits: seq<Hit>, flags: seq<bool>, i: nat,
                points: seq<Point>, pockets: seq<seq<Point>>): (r: (nat, seq<Point>, seq<seq<Point>>))
    requires WalkInput(|pts|, hits, flags) && i < |pts|
    ensures i < r.0 <= |pts|
  {
    var e := Advance(|pts|, hits[0].edge, i);
    var found := FindHit(hits, e);
    if found.Some? && found.value < |hits| - 1 && flags[found.value] then
      var k := found.value;
      FoundEdgeNoWrap(|pts|, hits, flags, i, k);
      var j := hits[k + 1].edge - hits[0].edge;
      (j + 1, points + [pts[e]] + [hits[k].point] + [hits[k + 1].point],
       pockets + [[hits[k].point] + CyclicRun(pts, e, j - i) + [hits[k + 1].point]])
    else
      (i + 1, points + [pts[e]], pockets)
  }

  /** The source's loop from step i to the end: the pockets and the remainder points. */
  function SplitFrom(pts: seq<Point>, hits: seq<Hit>, flags: seq<bool>, i: nat,
                     points: seq<Point>, pockets: seq<seq<Point>>): (seq<seq<Point>>, seq<Point>)
    requires WalkInput(|pts|, hits, flags) && i <= |pts|
    decreases |pts| - i
  {
    if i == |pts| then (pockets, points)
    else
      var s := Step(pts, hits, flags, i, points, pockets);
      SplitFrom(pts, hits, flags, s.0, s.1, s.2)
  }

  lemma AppendThree<T>(s: seq<T>, a: T, b: T, c: T)
    ensures s + [a] + [b] + [c] == s + [a, b, c]
  {
  }

  /** The loop's walk yields exactly the points of the symbolic walk, after what it was given. */
  lemma {:induction false} SplitFromResolves(pts: seq<Point>, hits: seq<Hit>, flags: seq<bool>, i: nat,
                                             points: seq<Point>, pockets: seq<seq<Point>>)
    requires WalkInput(|pts|, hits, flags) && i <= |pts|
    ensures SplitFrom(pts, hits, flags, i, points, pockets)
            == (pockets + ResolveAll(pts, hits, Walk(|pts|, hits, flags, i).pockets),
                points + Resolve(pts, hits, Walk(|pts|, hits, flags, i).remainder))
    decreases |pts| - i, 2
  {
    if i == |pts| {
      assert Walk(|pts|, hits, flags, i) == WalkResult([], []);
      assert pockets + ResolveAll(pts, hits, []) == pockets;
      assert points + Resolve(pts, hits, []) == points;
    } else {
      var e := Advance(|pts|, hits[0].edge, i);
      var found := FindHit(hits, e);
      if found.Some? && found.value < |hits| - 1 && flags[found.value] {
        SplitFromPocketCase(pts, hits, flags, i, e, found.value, points, pockets);
      } else {
        SplitFromPlainCase(pts, hits, flags, i, e, points, pockets);
      }
    }
  }

  /** A pocket step of the loop's walk, with the three points appended as one block. */
  lemma StepPocket(pts: seq<Point>, hits: seq<Hit>, flags: seq<bool>, i: nat, e: nat, k: nat,
                   points: seq<Point>, pockets: seq<seq<Point>>)
    requires WalkInput(|pts|, hits, flags) && i < |pts| && e == Advance(|pts|, hits[0].edge, i)
    requires FindHit(hits, e) == Some(k) && k < |hits| - 1 && flags[k]
    ensures e == hits[0].edge + i && i < hits[k + 1].edge - hits[0].edge < |pts|
    ensures Step(pts, hits, flags, i, points, pockets)
            == (hits[k + 1].edge - hits[0].edge + 1,
                points + [pts[e], hits[k].point, hits[k + 1].point],
                pockets + [[hits[k].point] + CyclicRun(pts, e, hits[k + 1].edge - hits[0].edge - i)
                           + [hits[k + 1].point]])
  {
    FoundEdgeNoWrap(|pts|, hits, flags, i, k);
    AppendThree(points, pts[e], hits[k].point, hits[k + 1].point);
  }

  /** After a pocket step the loop resumes after the next record's edge with the block and the pocket appended. */
  lemma {:induction false} SplitFromPocketResumes(pts: seq<Point>, hits: seq<Hit>, flags: seq<bool>, i: nat, e: nat,
                                                  k: nat, points: seq<Point>, pockets: seq<seq<Point>>)
    requires WalkInput(|pts|, hits, flags) && i < |pts| && e == Advance(|pts|, hits[0].edge, i)
    requires FindHit(hits, e) == Some(k) && k < |hits| - 1 && flags[k]
    ensures e == hits[0].edge + i && i < hits[k + 1].edge - hits[0].edge < |pts|
    ensures var j := hits[k + 1].edge - hits[0].edge;
            var rest := Walk(|pts|, hits, flags, j + 1);
            SplitFrom(pts, hits, flags, i, points, pockets)
            == ((pockets + [[hits[k].point] + CyclicRun(pts, e, j - i) + [hits[k + 1].point]])
                  + ResolveAll(pts, hits, rest.pockets),
                (points + [pts[e], hits[k].point, hits[k + 1].point]) + Resolve(pts, hits, rest.remainder))
    decreases |pts| - i, 0
  {
    var j := hits[k + 1].edge - hits[0].edge;
    FoundEdgeNoWrap(|pts|, hits, flags, i, k);
    var block := [pts[e], hits[k].point, hits[k + 1].point];
    var pocket := [hits[k].point] + CyclicRun(pts, e, j - i) + [hits[k + 1].point];
    assert Step(pts, hits, flags, i, points, pockets) == (j + 1, points + block, pockets + [pocket]) by {
      StepPocket(pts, hits, flags, i, e, k, points, pockets);
    }
    var resumed := SplitFrom(pts, hits, flags, j + 1, points + block, pockets + [pocket]);
    assert SplitFrom(pts, hits, flags, i, points, pockets) == resumed;
    var rest := Walk(|pts|, hits, flags, j + 1);
    SplitFromResolves(pts, hits, flags, j + 1, points + block, pockets + [pocket]);
    assert resumed == ((pockets + [pocket]) + ResolveAll(pts, hits, rest.pockets),
                       (points + block) + Resolve(pts, hits, rest.remainder));
  }

  /** SplitFromResolves at a step where record k on edge e bounds a pocket. */
  lemma {:induction false} SplitFromPocketCase(pts: seq<Point>, hits: seq<Hit>, flags: seq<bool>, i: nat, e: nat,
                                               k: nat, points: seq<Point>, pockets: seq<seq<Point>>)
    requires WalkInput(|pts|, hits, flags) && i < |pts| && e == Advance(|pts|, hits[0].edge, i)
    requires FindHit(hits, e) == Some(k) && k < |hits| - 1 && flags[k]
    ensures SplitFrom(pts, hits, flags, i, points, pockets)
            == (pockets + ResolveAll(pts, hits, Walk(|pts|, hits, flags, i).pockets),
                points + Resolve(pts, hits, Walk(|pts|, hits, flags, i).remainder))
    decreases |pts| - i, 1
  {
    var j := hits[k + 1].edge - hits[0].edge;
    FoundEdgeNoWrap(|pts|, hits, flags, i, k);
    var block := [pts[e], hits[k].point, hits[k + 1].point];
    var pocket := [hits[k].point] + CyclicRun(pts, e, j - i) + [hits[k + 1].point];
    var rest := Walk(|pts|, hits, flags, j + 1);
    var walk := Walk(|pts|, hits, flags, i);
    var tailPockets, tailPoints := ResolveAll(pts, hits, rest.pockets), Resolve(pts, hits, rest.remainder);
    SplitFromPocketResumes(pts, hits, flags, i, e, k, points, pockets);
    assert SplitFrom(pts, hits, flags, i, points, pockets) == ((pockets + [pocket]) + tailPockets, (points + block) + tailPoints);
    assert ResolveAll(pts, hits, walk.pockets) == [pocket] + tailPockets
        && Resolve(pts, hits, walk.remainder) == block + tailPoints by {
      ResolvePocketStep(pts, hits, flags, i, e, k, j);
      PocketRunPoints(pts, hits, e, hits[0].edge, i, j);
    }
    Sequences.AppendAssoc(points, block, tailPoints);
    Sequences.AppendAssoc(pockets, [pocket], tailPockets);
  }

  /** SplitFromResolves at a plain step on edge e. */
  lemma {:induction false} SplitFromPlainCase(pts: seq<Point>, hits: seq<Hit>, flags: seq<bool>, i: nat, e: nat,
                                              points: seq<Point>, pockets: seq<seq<Point>>)
    requires WalkInput(|pts|, hits, flags) && i < |pts| && e == Advance(|pts|, hits[0].edge, i)
    requires var found := FindHit(hits, e);
             !(found.Some? && found.value < |hits| - 1 && flags[found.value])
    ensures SplitFrom(pts, hits, flags, i, points, pockets)
            == (pockets + ResolveAll(pts, hits, Walk(|pts|, hits, flags, i).pockets),
                points + Resolve(pts, hits, Walk(|pts|, hits, flags, i).remainder))
    decreases |pts| - i, 0
  {
    SplitFromResolves(pts, hits, flags, i + 1, points + [pts[e]], pockets);
    ResolvePlainStep(pts, hits, flags, i);
    Sequences.AppendAssoc(points, [pts[e]], Resolve(pts, hits, Walk(|pts|, hits, flags, i + 1).remainder));
  }

  /** Whether records k and k + 1 bound a pocket: their midpoint lies inside the polygon. */
  method BoundsPocket(pts: seq<Point>, hits: seq<Hit>, k: nat) returns (inside: bool)
    requires k + 1 < |hits|
    ensures inside == PocketFlags(pts, hits)[k]
  {
    var mid := Mid(hits[k].point, hits[k + 1].point);
    inside := ContainsPoint(pts, mid.x, mid.y);
    PocketFlagAt(pts, hits, k);
  }

  /**
   * The pocket branch of one pass of the second loop of `performCut`: record k on
   * the current edge e = (e0 + i) % n bounds a pocket with record k + 1.
   */
  method SplitPocket(pts: seq<Point>, hits: seq<Hit>, i: nat, e: nat, k: nat,
                     points: seq<Point>, pockets: seq<seq<Point>>)
    returns (next: nat, points': seq<Point>, pockets': seq<seq<Point>>)
    requires 2 <= |hits| && Ordered(hits, |pts|) && i < |pts| && e == Advance(|pts|, hits[0].edge, i)
    requires FindHit(hits, e) == Some(k) && k < |hits| - 1 && PocketFlags(pts, hits)[k]
    ensures (next, points', pockets') == Step(pts, hits, PocketFlags(pts, hits), i, points, pockets)
  {
    ghost var flags := PocketFlags(pts, hits);
    var startNewShape, endNewShape := hits[k], hits[k + 1];
    FoundEdgeNoWrap(|pts|, hits, flags, i, k);
    assert e < endNewShape.edge;
    assert Distance(|pts|, e, endNewShape.edge) == endNewShape.edge - e;
    var run, tempI := CutPocket(pts, e, endNewShape.edge, i);
    points' := points + [pts[e]] + [startNewShape.point] + [endNewShape.point];
    pockets' := pockets + [[startNewShape.point] + run + [endNewShape.point]];
    next := tempI + 1;
  }

  /**
   * One pass of the second loop of `performCut`, from step i: read the vertex of
   * the current edge, and when the first record on that edge has a successor whose
   * midpoint with it lies inside the polygon, split off the pocket up to the
   * successor's edge.
   */
  method WalkStep(pts: seq<Point>, hits: seq<Hit>, i: nat, points: seq<Point>, pockets: seq<seq<Point>>)
    returns (next: nat, points': seq<Point>, pockets': seq<seq<Point>>, cut: bool)
    requires 2 <= |hits| && Ordered(hits, |pts|) && i < |pts|
    ensures (next, points', pockets') == Step(pts, hits, PocketFlags(pts, hits), i, points, pockets)
    ensures cut <==> |pockets'| > |pockets|
  {
    var e0 := hits[0].edge;
    var currentEdge := (i + e0) % |pts|;
    AdvanceIsMod(|pts|, e0, i);
    var found := FindHit(hits, currentEdge);
    if found.Some? && found.value < |hits| - 1 {
      var k := found.value;
      var inside := BoundsPocket(pts, hits, k);
      if inside {
        next, points', pockets' := SplitPocket(pts, hits, i, currentEdge, k, points, pockets);
        cut := true;
        return;
      }
    }
    points' := points + [pts[currentEdge]];
    pockets' := pockets;
    cut := false;
    next := i + 1;
  }

  /**
   * The second loop of `performCut` over one shape with at least two records: the
   * remainder points, the pocket polygons in the order they were split off, and
   * whether any pocket was. The cursor `i` jumps over the vertices a pocket takes.
   */
  method SplitShape(pts: seq<Point>, hits: seq<Hit>)
    returns (pockets: seq<seq<Point>>, remainder: seq<Point>, isCut: bool)
    requires 2 <= |hits| && Ordered(hits, |pts|)
    ensures var w := Walk(|pts|, hits, PocketFlags(pts, hits), 0);
            pockets == ResolveAll(pts, hits, w.pockets) && remainder == Resolve(pts, hits, w.remainder)
    ensures isCut <==> |pockets| > 0
  {
    ghost var target := SplitFrom(pts, hits, PocketFlags(pts, hits), 0, [], []);
    var points: seq<Point> := [];
    pockets := [];
    isCut := false;
    var i: nat := 0;
    while i < |pts|
      invariant i <= |pts|
      invariant SplitFrom(pts, hits, PocketFlags(pts, hits), i, points, pockets) == target
      invariant isCut <==> |pockets| > 0
      decreases |pts| - i
    {
      var cut;
      i, points, pockets, cut := WalkStep(pts, hits, i, points, pockets);
      isCut := isCut || cut;
    }
    SplitFromResolves(pts, hits, PocketFlags(pts, hits), 0, [], []);
    remainder := points;
  }
}

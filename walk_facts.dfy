/**
 * What the walk of `performCut` guarantees, stated over the symbolic walk `Walk`
 * (whose points `SplitShape` is proved to produce): every original vertex lands
 * in exactly one output polygon, every pocket is crossing k, a run of vertices,
 * crossing k + 1 with k's flag set, every polygon has at least three corners, a
 * pocket is split off exactly when some flag is set, and with no flag set the
 * remainder is the original polygon rotated to start at the first crossed edge.
 */
module WalkFacts {
  import opened Common
  import opened Geometry
  import opened Cutting

  // ---------------------------------------------------------------------------
  // Counting a vertex in corner sequences
  // ---------------------------------------------------------------------------

  /** How often vertex v occurs among the corners. */
  function Count(cs: seq<Corner>, v: nat): nat
  {
    if |cs| == 0 then 0 else (if cs[0] == Vertex(v) then 1 else 0) + Count(cs[1..], v)
  }

  /** How often vertex v occurs in a list of polygons. */
  function CountAll(css: seq<seq<Corner>>, v: nat): nat
  {
    if |css| == 0 then 0 else Count(css[0], v) + CountAll(css[1..], v)
  }

  /** How often vertex v occurs in the output of a walk: remainder and pockets together. */
  function WalkCount(w: WalkResult, v: nat): nat
  {
    Count(w.remainder, v) + CountAll(w.pockets, v)
  }

  lemma {:induction false} CountConcat(a: seq<Corner>, b: seq<Corner>, v: nat)
    ensures Count(a + b, v) == Count(a, v) + Count(b, v)
    decreases |a|
  {
    if |a| == 0 {
      assert a + b == b;
    } else {
      assert (a + b)[1..] == a[1..] + b;
      CountConcat(a[1..], b, v);
    }
  }

  lemma CountOne(c: Corner, v: nat)
    ensures Count([c], v) == if c == Vertex(v) then 1 else 0
  {
    assert [c][1..] == [];
  }

  lemma CountAllCons(c: seq<Corner>, rest: seq<seq<Corner>>, v: nat)
    ensures CountAll([c] + rest, v) == Count(c, v) + CountAll(rest, v)
  {
    assert ([c] + rest)[1..] == rest;
  }

  // ---------------------------------------------------------------------------
  // Runs of vertices
  // ---------------------------------------------------------------------------

  lemma RunSplit(n: nat, e0: nat, lo: nat, mid: nat, hi: nat)
    requires e0 < n && lo <= mid <= hi <= n
    ensures Run(n, e0, lo, hi) == Run(n, e0, lo, mid) + Run(n, e0, mid, hi)
  {
    assert forall t :: 0 <= t < hi - lo ==>
      Run(n, e0, lo, hi)[t] == (Run(n, e0, lo, mid) + Run(n, e0, mid, hi))[t];
  }

  lemma RunFirst(n: nat, e0: nat, lo: nat)
    requires e0 < n && lo < n
    ensures Run(n, e0, lo, lo + 1) == [Vertex(Advance(n, e0, lo))]
  {
  }

  /** Vertices a, a + 1, ..., b - 1. */
  function Span(a: nat, b: nat): (r: seq<Corner>)
    requires a <= b
    ensures |r| == b - a
  {
    seq(b - a, t requires 0 <= t < b - a => Vertex(a + t))
  }

  /** Each vertex of a span occurs in it once, and no other vertex does. */
  lemma {:induction false} SpanCount(a: nat, b: nat, v: nat)
    requires a <= b
    ensures Count(Span(a, b), v) == if a <= v < b then 1 else 0
    decreases b - a
  {
    if a < b {
      assert Span(a, b) == [Vertex(a)] + Span(a + 1, b);
      CountConcat([Vertex(a)], Span(a + 1, b), v);
      CountOne(Vertex(a), v);
      SpanCount(a + 1, b, v);
    } else {
      assert Span(a, b) == [];
    }
  }

  /** A full run from e0 is vertices e0, ..., n - 1 followed by 0, ..., e0 - 1. */
  lemma FullRunSpans(n: nat, e0: nat)
    requires e0 < n
    ensures Run(n, e0, 0, n) == Span(e0, n) + Span(0, e0)
  {
    assert forall t :: 0 <= t < n ==> Run(n, e0, 0, n)[t] == (Span(e0, n) + Span(0, e0))[t];
  }

  /** The run from step i: its first vertex, then the run from i + 1. */
  lemma RunHeadCount(n: nat, e0: nat, i: nat, v: nat)
    requires e0 < n && i < n
    ensures Count(Run(n, e0, i, n), v)
            == (if Advance(n, e0, i) == v then 1 else 0) + Count(Run(n, e0, i + 1, n), v)
  {
    RunSplit(n, e0, i, i + 1, n);
    RunFirst(n, e0, i);
    CountConcat(Run(n, e0, i, i + 1), Run(n, e0, i + 1, n), v);
    CountOne(Vertex(Advance(n, e0, i)), v);
  }

  /** The run from step i split at i + 1 and at j + 1. */
  lemma RunThreeCount(n: nat, e0: nat, i: nat, j: nat, v: nat)
    requires e0 < n && i <= j < n
    ensures Count(Run(n, e0, i, n), v)
            == (if Advance(n, e0, i) == v then 1 else 0) + Count(Run(n, e0, i + 1, j + 1), v)
               + Count(Run(n, e0, j + 1, n), v)
  {
    RunHeadCount(n, e0, i, v);
    RunSplit(n, e0, i + 1, j + 1, n);
    CountConcat(Run(n, e0, i + 1, j + 1), Run(n, e0, j + 1, n), v);
  }

  // ---------------------------------------------------------------------------
  // Unfolding one step of the walk
  // ---------------------------------------------------------------------------

  /** Whether the walk splits a pocket off at step i, with the record k it starts at. */
  predicate PocketAt(n: nat, hits: seq<Hit>, flags: seq<bool>, i: nat, k: nat)
    requires WalkInput(n, hits, flags) && i < n
  {
    FindHit(hits, Advance(n, hits[0].edge, i)) == Some(k) && k < |hits| - 1 && flags[k]
  }

  /** The record a pocket starts at lies on edge e0 + i, and its successor further on. */
  lemma PocketBounds(n: nat, hits: seq<Hit>, flags: seq<bool>, i: nat, k: nat)
    requires WalkInput(n, hits, flags) && i < n && PocketAt(n, hits, flags, i, k)
    ensures hits[k].edge == hits[0].edge + i
    ensures i < hits[k + 1].edge - hits[0].edge < n
  {
    FoundEdgeNoWrap(n, hits, flags, i, k);
  }

  lemma WalkPocketStep(n: nat, hits: seq<Hit>, flags: seq<bool>, i: nat, k: nat)
    requires WalkInput(n, hits, flags) && i < n && PocketAt(n, hits, flags, i, k)
    ensures hits[k].edge == hits[0].edge + i
    ensures i < hits[k + 1].edge - hits[0].edge < n
    ensures var j := hits[k + 1].edge - hits[0].edge;
            var rest := Walk(n, hits, flags, j + 1);
            Walk(n, hits, flags, i)
            == WalkResult([Vertex(Advance(n, hits[0].edge, i)), Crossing(k), Crossing(k + 1)] + rest.remainder,
                          [[Crossing(k)] + Run(n, hits[0].edge, i + 1, j + 1) + [Crossing(k + 1)]] + rest.pockets)
  {
    FoundEdgeNoWrap(n, hits, flags, i, Some(k).value);
  }

  /** Whether the walk splits a pocket off at step i. */
  predicate SplitsAt(n: nat, hits: seq<Hit>, flags: seq<bool>, i: nat)
    requires WalkInput(n, hits, flags) && i < n
  {
    var found := FindHit(hits, Advance(n, hits[0].edge, i));
    found.Some? && found.value < |hits| - 1 && flags[found.value]
  }

  lemma WalkPlainStep(n: nat, hits: seq<Hit>, flags: seq<bool>, i: nat)
    requires WalkInput(n, hits, flags) && i < n && !SplitsAt(n, hits, flags, i)
    ensures var rest := Walk(n, hits, flags, i + 1);
            Walk(n, hits, flags, i) == WalkResult([Vertex(Advance(n, hits[0].edge, i))] + rest.remainder, rest.pockets)
  {
  }

  // ---------------------------------------------------------------------------
  // Every vertex exactly once
  // ---------------------------------------------------------------------------

  /** The count of v after a pocket step: the step's vertex, the pocket's run, and the rest. */
  lemma PocketStepCount(n: nat, hits: seq<Hit>, flags: seq<bool>, i: nat, k: nat, v: nat)
    requires WalkInput(n, hits, flags) && i < n && PocketAt(n, hits, flags, i, k)
    ensures i < hits[k + 1].edge - hits[0].edge < n
    ensures WalkCount(Walk(n, hits, flags, i), v)
            == (if Advance(n, hits[0].edge, i) == v then 1 else 0)
               + Count(Run(n, hits[0].edge, i + 1, hits[k + 1].edge - hits[0].edge + 1), v)
               + WalkCount(Walk(n, hits, flags, hits[k + 1].edge - hits[0].edge + 1), v)
  {
    WalkPocketStep(n, hits, flags, i, k);
    var e := Advance(n, hits[0].edge, i);
    var j := hits[k + 1].edge - hits[0].edge;
    var rest := Walk(n, hits, flags, j + 1);
    var run := Run(n, hits[0].edge, i + 1, j + 1);
    assert Count([Vertex(e), Crossing(k), Crossing(k + 1)] + rest.remainder, v)
           == (if e == v then 1 else 0) + Count(rest.remainder, v) by {
      assert [Vertex(e), Crossing(k), Crossing(k + 1)] + rest.remainder
             == [Vertex(e)] + ([Crossing(k)] + ([Crossing(k + 1)] + rest.remainder));
      CountConcat([Vertex(e)], [Crossing(k)] + ([Crossing(k + 1)] + rest.remainder), v);
      CountConcat([Crossing(k)], [Crossing(k + 1)] + rest.remainder, v);
      CountConcat([Crossing(k + 1)], rest.remainder, v);
      CountOne(Vertex(e), v);
      CountOne(Crossing(k), v);
      CountOne(Crossing(k + 1), v);
    }
    assert CountAll([[Crossing(k)] + run + [Crossing(k + 1)]] + rest.pockets, v)
           == Count(run, v) + CountAll(rest.pockets, v) by {
      CountAllCons([Crossing(k)] + run + [Crossing(k + 1)], rest.pockets, v);
      CountConcat([Crossing(k)] + run, [Crossing(k + 1)], v);
      CountConcat([Crossing(k)], run, v);
      CountOne(Crossing(k), v);
      CountOne(Crossing(k + 1), v);
    }
  }

  /** The count of v after a plain step: the step's vertex and the rest. */
  lemma PlainStepCount(n: nat, hits: seq<Hit>, flags: seq<bool>, i: nat, v: nat)
    requires WalkInput(n, hits, flags) && i < n && !SplitsAt(n, hits, flags, i)
    ensures WalkCount(Walk(n, hits, flags, i), v)
            == (if Advance(n, hits[0].edge, i) == v then 1 else 0) + WalkCount(Walk(n, hits, flags, i + 1), v)
  {
    WalkPlainStep(n, hits, flags, i);
    CountConcat([Vertex(Advance(n, hits[0].edge, i))], Walk(n, hits, flags, i + 1).remainder, v);
    CountOne(Vertex(Advance(n, hits[0].edge, i)), v);
  }

  /** From step i on, the walk uses each vertex of steps i..n - 1 as often as the run does. */
  lemma {:induction false} WalkCountFrom(n: nat, hits: seq<Hit>, flags: seq<bool>, i: nat, v: nat)
    requires WalkInput(n, hits, flags) && i <= n
    ensures WalkCount(Walk(n, hits, flags, i), v) == Count(Run(n, hits[0].edge, i, n), v)
    decreases n - i, 1
  {
    if i == n {
      assert Run(n, hits[0].edge, i, n) == [];
    } else if SplitsAt(n, hits, flags, i) {
      PocketCountFrom(n, hits, flags, i, FindHit(hits, Advance(n, hits[0].edge, i)).value, v);
    } else {
      PlainCountFrom(n, hits, flags, i, v);
    }
  }

  lemma {:induction false} PocketCountFrom(n: nat, hits: seq<Hit>, flags: seq<bool>, i: nat, k: nat, v: nat)
    requires WalkInput(n, hits, flags) && i < n && PocketAt(n, hits, flags, i, k)
    ensures WalkCount(Walk(n, hits, flags, i), v) == Count(Run(n, hits[0].edge, i, n), v)
    decreases n - i, 0
  {
    PocketBounds(n, hits, flags, i, k);
    var j := hits[k + 1].edge - hits[0].edge;
    PocketStepCount(n, hits, flags, i, k, v);
    WalkCountFrom(n, hits, flags, j + 1, v);
    RunThreeCount(n, hits[0].edge, i, j, v);
  }

  lemma {:induction false} PlainCountFrom(n: nat, hits: seq<Hit>, flags: seq<bool>, i: nat, v: nat)
    requires WalkInput(n, hits, flags) && i < n && !SplitsAt(n, hits, flags, i)
    ensures WalkCount(Walk(n, hits, flags, i), v) == Count(Run(n, hits[0].edge, i, n), v)
    decreases n - i, 0
  {
    PlainStepCount(n, hits, flags, i, v);
    WalkCountFrom(n, hits, flags, i + 1, v);
    RunHeadCount(n, hits[0].edge, i, v);
  }

  /**
   * Vertex partition: every vertex of the original polygon lands in exactly one
   * output polygon (once in the remainder or once in one pocket), and no other
   * vertex index occurs.
   */
  lemma WalkCoversEveryVertexOnce(n: nat, hits: seq<Hit>, flags: seq<bool>, v: nat)
    requires WalkInput(n, hits, flags)
    ensures WalkCount(Walk(n, hits, flags, 0), v) == if v < n then 1 else 0
  {
    var e0 := hits[0].edge;
    WalkCountFrom(n, hits, flags, 0, v);
    FullRunSpans(n, e0);
    CountConcat(Span(e0, n), Span(0, e0), v);
    SpanCount(e0, n, v);
    SpanCount(0, e0, v);
  }

  // ---------------------------------------------------------------------------
  // The shape of every output polygon
  // ---------------------------------------------------------------------------

  /**
   * A pocket: crossing k, one or more vertices, crossing k + 1, where records k and
   * k + 1 exist and k's flag is set.
   */
  predicate WellFormedPocket(n: nat, hits: seq<Hit>, flags: seq<bool>, p: seq<Corner>)
  {
    && |p| >= 3
    && p[0].Crossing? && p[0].hit + 1 < |hits| && p[0].hit < |flags| && flags[p[0].hit]
    && p[|p| - 1] == Crossing(p[0].hit + 1)
    && (forall t :: 0 < t < |p| - 1 ==> p[t].Vertex? && p[t].index < n)
  }

  /** A corner that names an existing vertex or record. */
  predicate CornerInRange(n: nat, hits: seq<Hit>, c: Corner)
  {
    match c
    case Vertex(v) => v < n
    case Crossing(k) => k < |hits|
  }

  /**
   * Every pocket is well formed and both its crossings are also in the remainder;
   * every remainder corner is in range.
   */
  predicate ShapesOk(n: nat, hits: seq<Hit>, flags: seq<bool>, w: WalkResult)
  {
    && (forall p :: p in w.pockets ==>
          WellFormedPocket(n, hits, flags, p) && p[0] in w.remainder && p[|p| - 1] in w.remainder)
    && (forall c :: c in w.remainder ==> CornerInRange(n, hits, c))
  }

  /** Every element of a run is a vertex below n. */
  lemma RunVertices(n: nat, e0: nat, lo: nat, hi: nat)
    requires e0 < n && lo <= hi <= n
    ensures forall t :: 0 <= t < hi - lo ==> Run(n, e0, lo, hi)[t].Vertex? && Run(n, e0, lo, hi)[t].index < n
  {
    forall t | 0 <= t < hi - lo
      ensures Run(n, e0, lo, hi)[t].Vertex? && Run(n, e0, lo, hi)[t].index < n
    {
      assert Run(n, e0, lo, hi)[t] == Vertex(Advance(n, e0, lo + t));
    }
  }

  /** A pocket step keeps ShapesOk, and leaves at least three corners in the remainder. */
  lemma PocketStepShapes(n: nat, hits: seq<Hit>, flags: seq<bool>, w: WalkResult, rest: WalkResult,
                         e: nat, k: nat, run: seq<Corner>)
    requires e < n && k + 1 < |hits| && |flags| == |hits| && flags[k]
    requires |run| >= 1 && forall t :: 0 <= t < |run| ==> run[t].Vertex? && run[t].index < n
    requires w == WalkResult([Vertex(e), Crossing(k), Crossing(k + 1)] + rest.remainder,
                             [[Crossing(k)] + run + [Crossing(k + 1)]] + rest.pockets)
    requires ShapesOk(n, hits, flags, rest)
    ensures ShapesOk(n, hits, flags, w) && |w.remainder| >= 3
  {
    var pocket := [Crossing(k)] + run + [Crossing(k + 1)];
    assert forall t :: 0 < t < |pocket| - 1 ==> pocket[t] == run[t - 1];
    assert WellFormedPocket(n, hits, flags, pocket);
    assert forall p :: p in w.pockets ==> p == pocket || p in rest.pockets;
    assert Crossing(k) in w.remainder && Crossing(k + 1) in w.remainder;
    assert forall c :: c in rest.remainder ==> c in w.remainder;
  }

  /** A plain step keeps ShapesOk and adds one corner to the remainder. */
  lemma PlainStepShapes(n: nat, hits: seq<Hit>, flags: seq<bool>, w: WalkResult, rest: WalkResult, e: nat)
    requires e < n
    requires w == WalkResult([Vertex(e)] + rest.remainder, rest.pockets)
    requires ShapesOk(n, hits, flags, rest)
    ensures ShapesOk(n, hits, flags, w) && |w.remainder| == 1 + |rest.remainder|
  {
    assert forall c :: c in rest.remainder ==> c in w.remainder;
  }

  /**
   * From step i on: ShapesOk holds, and the remainder has at least min(3, n - i)
   * corners.
   */
  lemma {:induction false} WalkShapes(n: nat, hits: seq<Hit>, flags: seq<bool>, i: nat)
    requires WalkInput(n, hits, flags) && i <= n
    ensures ShapesOk(n, hits, flags, Walk(n, hits, flags, i))
    ensures |Walk(n, hits, flags, i).remainder| >= Min(3, n - i)
    decreases n - i, 1
  {
    if i == n {
    } else if SplitsAt(n, hits, flags, i) {
      PocketShapes(n, hits, flags, i, FindHit(hits, Advance(n, hits[0].edge, i)).value);
    } else {
      PlainShapes(n, hits, flags, i);
    }
  }

  lemma {:induction false} PocketShapes(n: nat, hits: seq<Hit>, flags: seq<bool>, i: nat, k: nat)
    requires WalkInput(n, hits, flags) && i < n && PocketAt(n, hits, flags, i, k)
    ensures ShapesOk(n, hits, flags, Walk(n, hits, flags, i))
    ensures |Walk(n, hits, flags, i).remainder| >= 3
    decreases n - i, 0
  {
    PocketBounds(n, hits, flags, i, k);
    WalkShapes(n, hits, flags, hits[k + 1].edge - hits[0].edge + 1);
    PocketShapesStep(n, hits, flags, i, k);
  }

  /** ShapesOk before a pocket step follows from ShapesOk after it. */
  lemma PocketShapesStep(n: nat, hits: seq<Hit>, flags: seq<bool>, i: nat, k: nat)
    requires WalkInput(n, hits, flags) && i < n && PocketAt(n, hits, flags, i, k)
    requires hits[k].edge == hits[0].edge + i && i < hits[k + 1].edge - hits[0].edge < n
    requires ShapesOk(n, hits, flags, Walk(n, hits, flags, hits[k + 1].edge - hits[0].edge + 1))
    ensures ShapesOk(n, hits, flags, Walk(n, hits, flags, i))
    ensures |Walk(n, hits, flags, i).remainder| >= 3
  {
    var e0 := hits[0].edge;
    var j := hits[k + 1].edge - e0;
    WalkPocketStep(n, hits, flags, i, k);
    RunVertices(n, e0, i + 1, j + 1);
    PocketStepShapes(n, hits, flags, Walk(n, hits, flags, i), Walk(n, hits, flags, j + 1),
                     Advance(n, e0, i), k, Run(n, e0, i + 1, j + 1));
  }

  lemma {:induction false} PlainShapes(n: nat, hits: seq<Hit>, flags: seq<bool>, i: nat)
    requires WalkInput(n, hits, flags) && i < n && !SplitsAt(n, hits, flags, i)
    ensures ShapesOk(n, hits, flags, Walk(n, hits, flags, i))
    ensures |Walk(n, hits, flags, i).remainder| >= Min(3, n - i)
    decreases n - i, 0
  {
    WalkPlainStep(n, hits, flags, i);
    WalkShapes(n, hits, flags, i + 1);
    PlainStepShapes(n, hits, flags, Walk(n, hits, flags, i), Walk(n, hits, flags, i + 1),
                    Advance(n, hits[0].edge, i));
  }

  /** Every output polygon of a walk over at least three vertices has at least three corners. */
  lemma AtLeastThreeCorners(n: nat, hits: seq<Hit>, flags: seq<bool>)
    requires WalkInput(n, hits, flags) && n >= 3
    ensures var w := Walk(n, hits, flags, 0);
            |w.remainder| >= 3 && forall p :: p in w.pockets ==> |p| >= 3
  {
    WalkShapes(n, hits, flags, 0);
    var w := Walk(n, hits, flags, 0);
    assert forall p :: p in w.pockets ==> WellFormedPocket(n, hits, flags, p);
  }

  // ---------------------------------------------------------------------------
  // When a pocket is split off
  // ---------------------------------------------------------------------------

  /** With no pocket from step i on, the rest of the walk is the run of vertices. */
  lemma {:induction false} NoPocketWalk(n: nat, hits: seq<Hit>, flags: seq<bool>, i: nat)
    requires WalkInput(n, hits, flags) && i <= n
    requires forall k :: 0 <= k < |flags| ==> !flags[k]
    ensures Walk(n, hits, flags, i) == WalkResult(Run(n, hits[0].edge, i, n), [])
    decreases n - i
  {
    var e0 := hits[0].edge;
    if i == n {
      assert Run(n, e0, i, n) == [];
    } else {
      WalkPlainStep(n, hits, flags, i);
      NoPocketWalk(n, hits, flags, i + 1);
      RunSplit(n, e0, i, i + 1, n);
      RunFirst(n, e0, i);
    }
  }

  /**
   * If record k bounds a pocket, no earlier record does, and the walk from step i
   * has not passed k's edge, it splits a pocket off.
   */
  lemma {:induction false} ReachesPocket(n: nat, hits: seq<Hit>, flags: seq<bool>, i: nat, k: nat)
    requires WalkInput(n, hits, flags) && k < |hits| - 1 && flags[k]
    requires forall m :: 0 <= m < k ==> !flags[m]
    requires hits[0].edge + i <= hits[k].edge
    ensures |Walk(n, hits, flags, i).pockets| > 0
    decreases n - i
  {
    var e0 := hits[0].edge;
    assert hits[k].edge < n;
    assert Advance(n, e0, i) == e0 + i;
    var found := FindHit(hits, e0 + i);
    if found.Some? && found.value < |hits| - 1 && flags[found.value] {
      WalkPocketStep(n, hits, flags, i, found.value);
    } else {
      if found.Some? {
        assert found.value < k;
      } else {
        assert hits[k].edge != e0 + i;
      }
      WalkPlainStep(n, hits, flags, i);
      ReachesPocket(n, hits, flags, i + 1, k);
    }
  }

  /** The first record with its flag set, below the last record. */
  lemma {:induction false} FirstFlag(flags: seq<bool>, bound: nat, k: nat)
    requires k < bound <= |flags| && flags[k]
    ensures exists f :: 0 <= f < bound && flags[f] && forall m :: 0 <= m < f ==> !flags[m]
    decreases k
  {
    if exists m :: 0 <= m < k && flags[m] {
      var m :| 0 <= m < k && flags[m];
      FirstFlag(flags, bound, m);
    }
  }

  /**
   * A pocket is split off exactly when some record other than the last has its
   * flag set; with no such record the remainder is every vertex, rotated to start
   * at the first crossed edge.
   */
  lemma PocketIffFlag(n: nat, hits: seq<Hit>, flags: seq<bool>)
    requires WalkInput(n, hits, flags)
    ensures |Walk(n, hits, flags, 0).pockets| > 0 <==> exists k :: 0 <= k < |hits| - 1 && flags[k]
  {
    var w := Walk(n, hits, flags, 0);
    if k :| 0 <= k < |hits| - 1 && flags[k] {
      FirstFlag(flags, |hits| - 1, k);
      var f :| 0 <= f < |hits| - 1 && flags[f] && forall m :: 0 <= m < f ==> !flags[m];
      if f > 0 {
        assert hits[0].edge < hits[f].edge;
      }
      ReachesPocket(n, hits, flags, 0, f);
    } else if |w.pockets| > 0 {
      WalkShapes(n, hits, flags, 0);
      assert WellFormedPocket(n, hits, flags, w.pockets[0]);
    }
  }

  // ---------------------------------------------------------------------------
  // Which records start a pocket
  // ---------------------------------------------------------------------------

  /**
   * Whether record k starts a pocket: it is not the last record, its flag is
   * set, and record k - 1 did not start one (a pocket from k - 1 ends at k, and
   * the walk resumes past k's edge).
   */
  predicate StartsPocket(flags: seq<bool>, k: nat)
    decreases k
  {
    k + 1 < |flags| && flags[k] && (k == 0 || !StartsPocket(flags, k - 1))
  }

  /** The records from index lo on that start a pocket, in increasing order. */
  function Starters(flags: seq<bool>, lo: nat): seq<nat>
    decreases |flags| - lo
  {
    if lo >= |flags| then []
    else (if StartsPocket(flags, lo) then [lo] else []) + Starters(flags, lo + 1)
  }

  /** The pockets begin, in order, at the crossings of the given records. */
  predicate BeginAt(ps: seq<seq<Corner>>, records: seq<nat>)
  {
    && |ps| == |records|
    && forall t :: 0 <= t < |ps| ==> |ps[t]| > 0 && ps[t][0] == Crossing(records[t])
  }

  lemma BeginAtCons(p: seq<Corner>, ps: seq<seq<Corner>>, k: nat, records: seq<nat>)
    requires BeginAt(ps, records) && |p| > 0 && p[0] == Crossing(k)
    ensures BeginAt([p] + ps, [k] + records)
  {
    assert forall t :: 1 <= t <= |ps| ==> ([p] + ps)[t] == ps[t - 1] && ([k] + records)[t] == records[t - 1];
  }

  /** The records below m lie on edges before bound, the others on bound or after. */
  predicate Frontier(hits: seq<Hit>, bound: int, m: nat)
    requires m <= |hits|
  {
    && (forall t :: 0 <= t < m ==> hits[t].edge < bound)
    && (forall t :: m <= t < |hits| ==> bound <= hits[t].edge)
  }

  /** A record on the frontier's edge is record m, the first one ahead. */
  lemma FrontierAt(hits: seq<Hit>, n: nat, bound: int, m: nat, k: nat)
    requires Ordered(hits, n) && m <= |hits| && Frontier(hits, bound, m)
    requires k < |hits| && hits[k].edge == bound
    ensures k == m
  {
    assert m < |hits| ==> bound <= hits[m].edge;
  }

  /** A frontier at or past the last edge has every record behind it. */
  lemma FrontierEnd(hits: seq<Hit>, n: nat, bound: int, m: nat)
    requires Ordered(hits, n) && m <= |hits| && Frontier(hits, bound, m)
    ensures m < |hits| ==> bound < n
  {
    assert m < |hits| ==> bound <= hits[m].edge < n;
  }

  /** Past record m's edge, record m is behind as well. */
  lemma FrontierPastOne(hits: seq<Hit>, n: nat, bound: int, m: nat)
    requires Ordered(hits, n) && m < |hits| && Frontier(hits, bound, m) && hits[m].edge == bound
    ensures Frontier(hits, bound + 1, m + 1)
  {
  }

  /** Past an edge with no record, the same records are ahead. */
  lemma FrontierPastNone(hits: seq<Hit>, bound: int, m: nat)
    requires m <= |hits| && Frontier(hits, bound, m)
    requires forall t :: 0 <= t < |hits| ==> hits[t].edge != bound
    ensures Frontier(hits, bound + 1, m)
  {
  }

  /** Past record k + 1's edge, records up to k + 1 are behind and the rest ahead. */
  lemma FrontierPastPocket(hits: seq<Hit>, n: nat, k: nat)
    requires Ordered(hits, n) && k + 1 < |hits|
    ensures Frontier(hits, hits[k + 1].edge + 1, k + 2)
  {
    assert forall t :: 0 <= t < k + 2 ==> hits[t].edge <= hits[k + 1].edge;
  }

  /** A pocket split off at step i begins at record k, followed by the pockets from where the walk resumes. */
  lemma PocketStepBegins(n: nat, hits: seq<Hit>, flags: seq<bool>, i: nat, k: nat)
    requires WalkInput(n, hits, flags) && i < n && PocketAt(n, hits, flags, i, k) && StartsPocket(flags, k)
    requires BeginAt(Walk(n, hits, flags, hits[k + 1].edge - hits[0].edge + 1).pockets, Starters(flags, k + 2))
    ensures BeginAt(Walk(n, hits, flags, i).pockets, Starters(flags, k))
  {
    PocketStepHead(n, hits, flags, i, k);
    var rest := Walk(n, hits, flags, hits[k + 1].edge - hits[0].edge + 1).pockets;
    var ps := Walk(n, hits, flags, i).pockets;
    StartersAfterPocket(flags, k);
    BeginAtCons(ps[0], rest, k, Starters(flags, k + 2));
  }

  /** A record that starts a pocket is followed by one that does not. */
  lemma StartersAfterPocket(flags: seq<bool>, k: nat)
    requires StartsPocket(flags, k)
    ensures !StartsPocket(flags, k + 1)
    ensures Starters(flags, k) == [k] + Starters(flags, k + 2)
  {
    assert Starters(flags, k + 1) == Starters(flags, k + 2);
  }

  /** The first pocket split off at step i begins at record k's crossing. */
  lemma PocketStepHead(n: nat, hits: seq<Hit>, flags: seq<bool>, i: nat, k: nat)
    requires WalkInput(n, hits, flags) && i < n && PocketAt(n, hits, flags, i, k)
    ensures k + 1 < |hits| && i < hits[k + 1].edge - hits[0].edge < n
    ensures var ps := Walk(n, hits, flags, i).pockets;
            && |ps| > 0 && |ps[0]| > 0 && ps[0][0] == Crossing(k)
            && ps == [ps[0]] + Walk(n, hits, flags, hits[k + 1].edge - hits[0].edge + 1).pockets
  {
    WalkPocketStep(n, hits, flags, i, k);
  }

  /**
   * From step i, with the records below m behind the walk and the others ahead
   * of it, the walk splits off one pocket per record from m on that starts one,
   * in order, each beginning at the crossing of its record.
   */
  lemma {:induction false} PocketsFrom(n: nat, hits: seq<Hit>, flags: seq<bool>, i: nat, m: nat)
    requires WalkInput(n, hits, flags) && i <= n && m <= |hits|
    requires Frontier(hits, hits[0].edge + i, m)
    requires m == 0 || !StartsPocket(flags, m - 1)
    ensures BeginAt(Walk(n, hits, flags, i).pockets, Starters(flags, m))
    decreases n - i, 1
  {
    if i == n {
      FrontierEnd(hits, n, hits[0].edge + i, m);
      assert Starters(flags, m) == [];
    } else if SplitsAt(n, hits, flags, i) {
      PocketsFromPocket(n, hits, flags, i, m);
    } else {
      PocketsFromPlain(n, hits, flags, i, m);
    }
  }

  /** PocketsFrom when step i splits a pocket off: record m starts it. */
  lemma {:induction false} PocketsFromPocket(n: nat, hits: seq<Hit>, flags: seq<bool>, i: nat, m: nat)
    requires WalkInput(n, hits, flags) && i < n && m <= |hits| && SplitsAt(n, hits, flags, i)
    requires Frontier(hits, hits[0].edge + i, m)
    requires m == 0 || !StartsPocket(flags, m - 1)
    ensures BeginAt(Walk(n, hits, flags, i).pockets, Starters(flags, m))
    decreases n - i, 0
  {
    var k := FindHit(hits, Advance(n, hits[0].edge, i)).value;
    PocketBounds(n, hits, flags, i, k);
    FrontierAt(hits, n, hits[0].edge + i, m, k);
    FrontierPastPocket(hits, n, k);
    assert StartsPocket(flags, k);
    StartersAfterPocket(flags, k);
    PocketsFrom(n, hits, flags, hits[k + 1].edge - hits[0].edge + 1, k + 2);
    PocketStepBegins(n, hits, flags, i, k);
  }

  /** A step that splits nothing off leaves the pockets to the rest of the walk. */
  lemma PlainStepPockets(n: nat, hits: seq<Hit>, flags: seq<bool>, i: nat)
    requires WalkInput(n, hits, flags) && i < n && !SplitsAt(n, hits, flags, i)
    ensures Walk(n, hits, flags, i).pockets == Walk(n, hits, flags, i + 1).pockets
  {
    WalkPlainStep(n, hits, flags, i);
  }

  /** PocketsFrom when step i splits nothing off: the walk moves one edge on. */
  lemma {:induction false} PocketsFromPlain(n: nat, hits: seq<Hit>, flags: seq<bool>, i: nat, m: nat)
    requires WalkInput(n, hits, flags) && i < n && m <= |hits| && !SplitsAt(n, hits, flags, i)
    requires Frontier(hits, hits[0].edge + i, m)
    requires m == 0 || !StartsPocket(flags, m - 1)
    ensures BeginAt(Walk(n, hits, flags, i).pockets, Starters(flags, m))
    decreases n - i, 0
  {
    var e0 := hits[0].edge;
    PlainStepPockets(n, hits, flags, i);
    var found := FindHit(hits, Advance(n, e0, i));
    if found.Some? {
      FoundEdgeNoWrap(n, hits, flags, i, found.value);
      FrontierAt(hits, n, e0 + i, m, found.value);
      assert !StartsPocket(flags, m);
      assert Starters(flags, m) == Starters(flags, m + 1);
      FrontierPastOne(hits, n, e0 + i, m);
      PocketsFrom(n, hits, flags, i + 1, m + 1);
    } else {
      assert e0 + i < n ==> Advance(n, e0, i) == e0 + i;
      assert m < |hits| ==> e0 + i <= hits[m].edge < n;
      FrontierPastNone(hits, e0 + i, m);
      PocketsFrom(n, hits, flags, i + 1, m);
    }
  }

  /** Every record Starters lists from lo on starts a pocket, and lies between lo and the last record. */
  lemma {:induction false} StartersAreStarts(flags: seq<bool>, lo: nat)
    ensures forall t :: 0 <= t < |Starters(flags, lo)| ==>
              lo <= Starters(flags, lo)[t] < |flags| - 1 && StartsPocket(flags, Starters(flags, lo)[t])
    decreases |flags| - lo
  {
    if lo < |flags| {
      StartersAreStarts(flags, lo + 1);
      var head := if StartsPocket(flags, lo) then [lo] else [];
      var all, rest := Starters(flags, lo), Starters(flags, lo + 1);
      assert all == head + rest;
      forall t | 0 <= t < |all|
        ensures lo <= all[t] < |flags| - 1 && StartsPocket(flags, all[t])
      {
        if t < |head| {
          assert all[t] == lo;
        } else {
          assert all[t] == rest[t - |head|];
        }
      }
    }
  }

  /**
   * The walk splits off exactly one pocket per record that starts one, in
   * record order, and the pocket begins at that record's crossing: a record
   * starts a pocket iff it is not the last, its flag is set, and the record
   * before it did not start one.
   */
  lemma PocketCount(n: nat, hits: seq<Hit>, flags: seq<bool>)
    requires WalkInput(n, hits, flags)
    ensures var ps := Walk(n, hits, flags, 0).pockets;
            && |ps| == |Starters(flags, 0)|
            && forall t :: 0 <= t < |ps| ==> |ps[t]| > 0 && ps[t][0] == Crossing(Starters(flags, 0)[t])
  {
    PocketsFrom(n, hits, flags, 0, 0);
    assert BeginAt(Walk(n, hits, flags, 0).pockets, Starters(flags, 0));
  }

  /** Resolving the full run from e0 is the vertex list rotated to start at e0. */
  lemma FullRunRotates(pts: seq<Point>, hits: seq<Hit>, e0: nat)
    requires e0 < |pts|
    ensures Resolve(pts, hits, Run(|pts|, e0, 0, |pts|)) == pts[e0..] + pts[..e0]
  {
    var n := |pts|;
    var r := Resolve(pts, hits, Run(n, e0, 0, n));
    var rot := pts[e0..] + pts[..e0];
    forall t | 0 <= t < n
      ensures r[t] == rot[t]
    {
      assert Run(n, e0, 0, n)[t] == Vertex(Advance(n, e0, t));
    }
    assert r == rot;
  }

  /**
   * With no pocket-bounding record (all flags clear), the remainder is the original
   * vertex list rotated to start at the first crossed edge, and there are no pockets.
   */
  lemma NoPocketRotates(pts: seq<Point>, hits: seq<Hit>, flags: seq<bool>)
    requires WalkInput(|pts|, hits, flags)
    requires forall k :: 0 <= k < |flags| ==> !flags[k]
    ensures Walk(|pts|, hits, flags, 0).pockets == []
    ensures Resolve(pts, hits, Walk(|pts|, hits, flags, 0).remainder)
            == pts[hits[0].edge..] + pts[..hits[0].edge]
  {
    NoPocketWalk(|pts|, hits, flags, 0);
    FullRunRotates(pts, hits, hits[0].edge);
  }
}

/**
 * The flags of the friend-or-foe game (js/flag-system.js): the hit test of one
 * flag, its wind and click-animation fields, and the flag system's filters,
 * conflict check and bounding box.
 */
module Flags {
  import opened Common
  import opened Geometry
  import opened Sequences
  import CutEngine

  // ---------------------------------------------------------------------------
  // Sizes and limits every flag is built with
  // ---------------------------------------------------------------------------

  const FlagHeight: real := 40.0
  const FlagWidth: real := 30.0
  const PoleWidth: real := 4.0
  const PoleHeight: real := 35.0
  /** How much `clickAnimation` decays per frame. */
  const ClickAnimationSpeed: real := 0.3
  /** The range `setWindStrength` clamps to. */
  const MinWind: real := 0.3
  const MaxWind: real := 1.5
  /** A point whose squared distance to the base is below this hits the flag. */
  const BaseRadiusSquared: real := 36.0

  function RealMax(a: real, b: real): real
  {
    if a >= b then a else b
  }

  function RealMin(a: real, b: real): real
  {
    if a <= b then a else b
  }

  /** `Math.max(lo, Math.min(hi, v))`. */
  function Clamp(lo: real, hi: real, v: real): (r: real)
    requires lo <= hi
    ensures lo <= r <= hi
    ensures lo <= v <= hi ==> r == v
    ensures v < lo ==> r == lo
    ensures hi < v ==> r == hi
  {
    RealMax(lo, RealMin(hi, v))
  }

  /** One frame of the click animation: a positive value decays towards 0 and stops there. */
  function DecayClick(c: real): (r: real)
    ensures c > 0.0 ==> 0.0 <= r < c
    ensures c > 0.0 && c >= ClickAnimationSpeed ==> r == c - ClickAnimationSpeed
    ensures c <= 0.0 ==> r == c
  {
    if c > 0.0 then RealMax(0.0, c - ClickAnimationSpeed) else c
  }

  /** n frames of the click animation. */
  function DecaySteps(c: real, n: nat): real
    decreases n
  {
    if n == 0 then c else DecaySteps(DecayClick(c), n - 1)
  }

  /** A click animation of size c is over (exactly 0) after any n frames with n * 0.3 >= c. */
  lemma {:induction false} ClickAnimationSettles(c: real, n: nat)
    requires 0.0 <= c <= (n as real) * ClickAnimationSpeed
    ensures DecaySteps(c, n) == 0.0
    decreases n
  {
    if n > 0 {
      var c' := DecayClick(c);
      assert 0.0 <= c' <= ((n - 1) as real) * ClickAnimationSpeed;
      ClickAnimationSettles(c', n - 1);
    }
  }

  /** The click animation never turns a non-negative value negative, however many frames run. */
  lemma {:induction false} ClickAnimationNonNegative(c: real, n: nat)
    requires 0.0 <= c
    ensures 0.0 <= DecaySteps(c, n) <= c
    decreases n
  {
    if n > 0 {
      ClickAnimationNonNegative(DecayClick(c), n - 1);
    }
  }

  // ---------------------------------------------------------------------------
  // The hit test of one flag
  // ---------------------------------------------------------------------------

  function Dot(a: Point, b: Point): real
  {
    a.x * b.x + a.y * b.y
  }

  /** The cloth's edges from the top of the pole: to the tip, and down along the pole. */
  const Edge0: Point := Point(30.0, 15.0)
  const Edge1: Point := Point(0.0, 30.0)

  /**
   * The barycentric coordinates (u, v) of the offset w from the top of the pole,
   * computed from dot products with the two cloth edges, as the source does.
   */
  function Barycentric(w: Point): (real, real)
  {
    var dot00 := Dot(Edge0, Edge0);
    var dot01 := Dot(Edge0, Edge1);
    var dot02 := Dot(Edge0, w);
    var dot11 := Dot(Edge1, Edge1);
    var dot12 := Dot(Edge1, w);
    var invDenom := 1.0 / (dot00 * dot11 - dot01 * dot01);
    ((dot11 * dot02 - dot01 * dot12) * invDenom, (dot00 * dot12 - dot01 * dot02) * invDenom)
  }

  /** The point at coordinates (a, b) in the basis of the cloth edges. */
  function Combine(a: real, b: real): Point
  {
    Point(a * Edge0.x + b * Edge1.x, a * Edge0.y + b * Edge1.y)
  }

  /** The coordinates the source computes recombine to the offset they came from. */
  lemma BarycentricRecombines(w: Point)
    ensures Combine(Barycentric(w).0, Barycentric(w).1) == w
  {
  }

  /** The coordinates of a combination are the coefficients it was made of. */
  lemma BarycentricOfCombine(a: real, b: real)
    ensures Barycentric(Combine(a, b)) == (a, b)
  {
    var w := Combine(a, b);
    assert w == Point(30.0 * a, 15.0 * a + 30.0 * b);
    assert Dot(Edge0, w) == 1125.0 * a + 450.0 * b;
    assert Dot(Edge1, w) == 450.0 * a + 900.0 * b;
    assert Dot(Edge0, Edge0) == 1125.0 && Dot(Edge0, Edge1) == 450.0 && Dot(Edge1, Edge1) == 900.0;
    var invDenom := 1.0 / 810000.0;
    assert Barycentric(w).0 == (900.0 * (1125.0 * a + 450.0 * b) - 450.0 * (450.0 * a + 900.0 * b)) * invDenom;
    assert Barycentric(w).1 == (1125.0 * (450.0 * a + 900.0 * b) - 450.0 * (1125.0 * a + 450.0 * b)) * invDenom;
    assert 900.0 * (1125.0 * a + 450.0 * b) - 450.0 * (450.0 * a + 900.0 * b) == 810000.0 * a;
    assert 1125.0 * (450.0 * a + 900.0 * b) - 450.0 * (1125.0 * a + 450.0 * b) == 810000.0 * b;
    assert 810000.0 * invDenom == 1.0;
    assert (810000.0 * a) * invDenom == a * (810000.0 * invDenom);
    assert (810000.0 * b) * invDenom == b * (810000.0 * invDenom);
    assert Barycentric(w).0 == a;
    assert Barycentric(w).1 == b;
  }

  /** `Flag.containsPoint`'s third test: the cloth triangle, open along the edge opposite the top. */
  predicate InCloth(w: Point)
  {
    var (u, v) := Barycentric(w);
    u >= 0.0 && v >= 0.0 && u + v < 1.0
  }

  /**
   * A flag planted at (x, y): position, colour and team never change; the wind
   * strength and the click animation are updated frame by frame.
   */
  class Flag {
    const x: real
    const y: real
    const color: string
    const team: nat
    var windStrength: real
    var clickAnimation: real

    /** `new Flag(x, y, color, team)`; windDraw is the `Math.random()` that sets the wind. */
    constructor (x: real, y: real, color: string, team: nat, windDraw: real)
      requires 0.0 <= windDraw < 1.0
      ensures this.x == x && this.y == y && this.color == color && this.team == team
      ensures 0.5 <= windStrength < 1.0 && windStrength == 0.5 + windDraw * 0.5
      ensures clickAnimation == 0.0
    {
      this.x := x;
      this.y := y;
      this.color := color;
      this.team := team;
      windStrength := 0.5 + windDraw * 0.5;
      clickAnimation := 0.0;
    }

    /** The point (px, py) is within the closed pole rectangle. */
    predicate InPole(px: real, py: real)
    {
      x - PoleWidth / 2.0 <= px <= x + PoleWidth / 2.0 && y - PoleHeight <= py <= y
    }

    /** The point (px, py) is strictly closer than 6 to the base. */
    predicate NearBase(px: real, py: real)
    {
      (px - x) * (px - x) + (py - y) * (py - y) < BaseRadiusSquared
    }

    /** The offset of (px, py) from the top of the pole. */
    function FromTop(px: real, py: real): Point
    {
      Point(px - x, py - (y - PoleHeight))
    }

    /** `containsPoint`: near the base, on the pole, or on the cloth, tried in that order. */
    function ContainsPoint(px: real, py: real): (r: bool)
      ensures NearBase(px, py) ==> r
      ensures InPole(px, py) ==> r
      ensures r && !NearBase(px, py) && !InPole(px, py) ==> InCloth(FromTop(px, py))
    {
      if NearBase(px, py) then true
      else if InPole(px, py) then true
      else InCloth(FromTop(px, py))
    }

    /** `setWindStrength`: the new strength clamped to [0.3, 1.5]. */
    method SetWindStrength(strength: real)
      modifies this`windStrength
      ensures windStrength == Clamp(MinWind, MaxWind, strength)
      ensures MinWind <= windStrength <= MaxWind
    {
      windStrength := RealMax(MinWind, RealMin(MaxWind, strength));
    }

    /** The click-animation part of `update`. */
    method UpdateClickAnimation()
      modifies this`clickAnimation
      ensures clickAnimation == DecayClick(old(clickAnimation))
      ensures old(clickAnimation) >= 0.0 ==> clickAnimation >= 0.0
    {
      if clickAnimation > 0.0 {
        clickAnimation := RealMax(0.0, clickAnimation - ClickAnimationSpeed);
      }
    }
  }

  /** Every point of the cloth triangle (closed except along the edge opposite the top) hits the flag. */
  lemma ClothHits(f: Flag, a: real, b: real)
    requires a >= 0.0 && b >= 0.0 && a + b < 1.0
    ensures f.ContainsPoint(f.x + Combine(a, b).x, f.y - PoleHeight + Combine(a, b).y)
  {
    var px, py := f.x + Combine(a, b).x, f.y - PoleHeight + Combine(a, b).y;
    assert f.FromTop(px, py) == Combine(a, b);
    BarycentricOfCombine(a, b);
  }

  /**
   * A hit on the cloth is a point top + u * Edge0 + v * Edge1 with u, v >= 0 and
   * u + v < 1: the cloth test accepts exactly the triangle.
   */
  lemma ClothHitIsInTriangle(f: Flag, px: real, py: real)
    requires f.ContainsPoint(px, py) && !f.NearBase(px, py) && !f.InPole(px, py)
    ensures var (u, v) := Barycentric(f.FromTop(px, py));
      && u >= 0.0 && v >= 0.0 && u + v < 1.0
      && Point(px, py) == Point(f.x + Combine(u, v).x, f.y - PoleHeight + Combine(u, v).y)
  {
    BarycentricRecombines(f.FromTop(px, py));
  }

  // ---------------------------------------------------------------------------
  // Teams
  // ---------------------------------------------------------------------------

  datatype Team = Team(id: nat, name: string, color: string)

  /** The three teams of the flag system, in order. */
  const Teams: seq<Team> := [
    Team(1, "Синие", "#3B82F6"),
    Team(2, "Красные", "#EF4444"),
    Team(3, "Зелёные", "#10B981")
  ]

  /** `teams.find(t => t.id === id)`. */
  function FindTeam(teams: seq<Team>, id: nat): (r: Option<Team>)
    ensures r.Some? ==> r.value in teams && r.value.id == id
    ensures r.None? <==> forall i :: 0 <= i < |teams| ==> teams[i].id != id
  {
    if teams == [] then None
    else if teams[0].id == id then Some(teams[0])
    else FindTeam(teams[1..], id)
  }

  /** Only the identifiers 1, 2 and 3 name a team. */
  lemma KnownTeams(id: nat)
    ensures FindTeam(Teams, id).Some? <==> 1 <= id <= 3
    ensures FindTeam(Teams, id).Some? ==> FindTeam(Teams, id).value == Teams[id - 1]
  {
    assert Teams[0].id == 1 && Teams[1].id == 2 && Teams[2].id == 3;
  }

  // ---------------------------------------------------------------------------
  // Filters over the flags
  // ---------------------------------------------------------------------------

  /** Whether a flag's base lies inside the polygon. */
  function InsideTest(pts: seq<Point>): Flag -> bool
  {
    (f: Flag) => Inside(pts, f.x, f.y)
  }

  /** Whether a flag belongs to the team. */
  function TeamTest(team: nat): Flag -> bool
  {
    (f: Flag) => f.team == team
  }

  /** The flags whose base the polygon contains, in their order. */
  function InShape(fs: seq<Flag>, pts: seq<Point>): seq<Flag>
  {
    Filter(fs, InsideTest(pts))
  }

  /** The flags of one team, in their order. */
  function OfTeam(fs: seq<Flag>, team: nat): seq<Flag>
  {
    Filter(fs, TeamTest(team))
  }

  /** The team of each flag. */
  function TeamsOf(fs: seq<Flag>): (r: seq<nat>)
    ensures |r| == |fs| && forall i :: 0 <= i < |fs| ==> r[i] == fs[i].team
  {
    seq(|fs|, i requires 0 <= i < |fs| => fs[i].team)
  }

  /** `getFlagsInShape` keeps exactly the flags whose base lies inside. */
  lemma InShapeMembers(fs: seq<Flag>, pts: seq<Point>)
    ensures forall i :: 0 <= i < |InShape(fs, pts)| ==>
      InShape(fs, pts)[i] in fs && Inside(pts, InShape(fs, pts)[i].x, InShape(fs, pts)[i].y)
    ensures forall i :: 0 <= i < |fs| && Inside(pts, fs[i].x, fs[i].y) ==> fs[i] in InShape(fs, pts)
  {
    FilterMembers(fs, InsideTest(pts));
  }

  /** `getFlagsByTeam` keeps exactly the flags of the team. */
  lemma OfTeamMembers(fs: seq<Flag>, team: nat)
    ensures forall i :: 0 <= i < |OfTeam(fs, team)| ==> OfTeam(fs, team)[i] in fs && OfTeam(fs, team)[i].team == team
    ensures forall i :: 0 <= i < |fs| && fs[i].team == team ==> fs[i] in OfTeam(fs, team)
  {
    FilterMembers(fs, TeamTest(team));
  }

  /**
   * Both filters keep the flags' order: filtering a concatenation filters each
   * part, so a flag appended later is listed later.
   */
  lemma FiltersKeepOrder(a: seq<Flag>, b: seq<Flag>, pts: seq<Point>, team: nat)
    ensures InShape(a + b, pts) == InShape(a, pts) + InShape(b, pts)
    ensures OfTeam(a + b, team) == OfTeam(a, team) + OfTeam(b, team)
  {
    FilterAppend(a, b, InsideTest(pts));
    FilterAppend(a, b, TeamTest(team));
  }

  // ---------------------------------------------------------------------------
  // Conflicts
  // ---------------------------------------------------------------------------

  /** The teams with a flag in the polygon, each once, in the order first seen. */
  function TeamsIn(fs: seq<Flag>, pts: seq<Point>): seq<nat>
  {
    Dedupe(TeamsOf(InShape(fs, pts)))
  }

  /** The polygon holds two or more flags of two or more teams. */
  predicate Conflicted(fs: seq<Flag>, pts: seq<Point>)
  {
    |InShape(fs, pts)| > 1 && |TeamsIn(fs, pts)| > 1
  }

  /** Two flags of different teams both stand in the polygon. */
  predicate Mixed(fs: seq<Flag>, pts: seq<Point>)
  {
    exists i, j :: 0 <= i < |fs| && 0 <= j < |fs|
      && Inside(pts, fs[i].x, fs[i].y) && Inside(pts, fs[j].x, fs[j].y) && fs[i].team != fs[j].team
  }

  /** The record `checkShapeForConflicts` returns (its `isConflict` is always true). */
  datatype Conflict = Conflict(shape: CutEngine.Shape, flags: seq<Flag>, teams: seq<nat>)

  /** A polygon is in conflict exactly when two of its flags belong to different teams. */
  lemma ConflictedIffMixed(fs: seq<Flag>, pts: seq<Point>)
    ensures Conflicted(fs, pts) <==> Mixed(fs, pts)
  {
    var inside := InShape(fs, pts);
    var teams := TeamsOf(inside);
    InShapeMembers(fs, pts);
    DedupeTwo(teams);
    if Conflicted(fs, pts) {
      var i, j :| 0 <= i < |teams| && 0 <= j < |teams| && teams[i] != teams[j];
      var i' :| 0 <= i' < |fs| && fs[i'] == inside[i];
      var j' :| 0 <= j' < |fs| && fs[j'] == inside[j];
      assert fs[i'].team != fs[j'].team;
    }
    if Mixed(fs, pts) {
      var i, j :| 0 <= i < |fs| && 0 <= j < |fs|
        && Inside(pts, fs[i].x, fs[i].y) && Inside(pts, fs[j].x, fs[j].y) && fs[i].team != fs[j].team;
      assert fs[i] in inside && fs[j] in inside;
      var i' :| 0 <= i' < |inside| && inside[i'] == fs[i];
      var j' :| 0 <= j' < |inside| && inside[j'] == fs[j];
      assert teams[i'] != teams[j'];
      assert i' != j';
    }
  }

  /** A sequence has two different elements exactly when its first occurrences number two or more. */
  lemma DedupeTwo(s: seq<nat>)
    ensures |Dedupe(s)| > 1 <==> exists i, j :: 0 <= i < |s| && 0 <= j < |s| && s[i] != s[j]
  {
    var d := Dedupe(s);
    DedupeSpec(s);
    if |d| > 1 {
      assert d[0] != d[1];
      assert d[0] in s && d[1] in s;
      var i :| 0 <= i < |s| && s[i] == d[0];
      var j :| 0 <= j < |s| && s[j] == d[1];
      assert s[i] != s[j];
    }
    if exists i, j :: 0 <= i < |s| && 0 <= j < |s| && s[i] != s[j] {
      var i, j :| 0 <= i < |s| && 0 <= j < |s| && s[i] != s[j];
      assert s[i] in d && s[j] in d;
      var a :| 0 <= a < |d| && d[a] == s[i];
      var b :| 0 <= b < |d| && d[b] == s[j];
      assert a != b;
    }
  }

  /** The conflict record's team list names each team in the polygon once, and no other. */
  lemma TeamsInSpec(fs: seq<Flag>, pts: seq<Point>)
    ensures NoDuplicates(TeamsIn(fs, pts))
    ensures forall t :: t in TeamsIn(fs, pts) <==>
      exists i :: 0 <= i < |fs| && Inside(pts, fs[i].x, fs[i].y) && fs[i].team == t
  {
    var inside := InShape(fs, pts);
    var teams := TeamsOf(inside);
    InShapeMembers(fs, pts);
    DedupeSpec(teams);
    forall t
      ensures t in TeamsIn(fs, pts) <==> exists i :: 0 <= i < |fs| && Inside(pts, fs[i].x, fs[i].y) && fs[i].team == t
    {
      if t in TeamsIn(fs, pts) {
        var k :| 0 <= k < |teams| && teams[k] == t;
        var i :| 0 <= i < |fs| && fs[i] == inside[k];
        assert Inside(pts, fs[i].x, fs[i].y) && fs[i].team == t;
      }
      if exists i :: 0 <= i < |fs| && Inside(pts, fs[i].x, fs[i].y) && fs[i].team == t {
        var i :| 0 <= i < |fs| && Inside(pts, fs[i].x, fs[i].y) && fs[i].team == t;
        var k :| 0 <= k < |inside| && inside[k] == fs[i];
        assert teams[k] == t;
      }
    }
  }

  // ---------------------------------------------------------------------------
  // The flag system
  // ---------------------------------------------------------------------------

  /** `getShapeBounds`' result; a polygon without vertices has none (the source gives ±Infinity). */
  datatype Bounds = Bounds(minX: real, minY: real, maxX: real, maxY: real)

  class FlagSystem {
    var flags: seq<Flag>

    constructor ()
      ensures flags == []
    {
      flags := [];
    }

    /** `clear`. */
    method Clear()
      modifies this`flags
      ensures flags == []
    {
      flags := [];
    }

    /**
     * `addRandomFlag(shape, teamId)`. The point `getRandomPointInShape` draws is
     * the parameter spot; pick is `Math.floor(Math.random() * 2)` and windDraw the
     * flag's own random wind. A teamId of 0 stands for a missing one (any falsy
     * value); an identifier that names no team makes the source dereference
     * `undefined`, which is the None outcome, with the flags unchanged.
     */
    method AddRandomFlag(spot: Point, teamId: nat, pick: nat, windDraw: real) returns (added: Option<Flag>)
      requires pick < 2
      requires 0.0 <= windDraw < 1.0
      modifies this`flags
      ensures added.None? <==> teamId != 0 && !(1 <= teamId <= 3)
      ensures added.None? ==> flags == old(flags)
      ensures added.Some? ==> flags == old(flags) + [added.value] && fresh(added.value)
      ensures added.Some? ==> added.value.x == spot.x && added.value.y == spot.y
      ensures added.Some? && teamId != 0 ==> added.value.team == teamId && added.value.color == Teams[teamId - 1].color
      ensures added.Some? && teamId == 0 ==> added.value.team == pick + 1 && added.value.color == Teams[pick].color
    {
      var team: Option<Team>;
      if teamId != 0 {
        team := FindTeam(Teams, teamId);
      } else {
        team := Some(Teams[pick]);
      }
      KnownTeams(teamId);
      if team.None? {
        return None;
      }
      var flag := new Flag(spot.x, spot.y, team.value.color, team.value.id, windDraw);
      flags := flags + [flag];
      added := Some(flag);
    }

    /** `getFlagsInShape`. */
    function FlagsInShape(pts: seq<Point>): seq<Flag>
      reads this
    {
      InShape(flags, pts)
    }

    /** `getFlagsByTeam`. */
    function FlagsByTeam(team: nat): seq<Flag>
      reads this
    {
      OfTeam(flags, team)
    }

    /**
     * `checkShapeForConflicts`: None for one flag or none; otherwise the teams of
     * the flags inside, collected in a set in order, and a record when there are
     * two or more.
     */
    method CheckShapeForConflicts(shape: CutEngine.Shape) returns (c: Option<Conflict>)
      ensures |InShape(flags, shape.points)| <= 1 ==> c.None?
      ensures c.Some? <==> Conflicted(flags, shape.points)
      ensures c.Some? ==> c == Some(Conflict(shape, InShape(flags, shape.points), TeamsIn(flags, shape.points)))
    {
      var inside := FlagsInShape(shape.points);
      if |inside| <= 1 {
        return None;
      }
      var seen: set<nat> := {};
      var teams: seq<nat> := [];
      var all := TeamsOf(inside);
      for i := 0 to |inside|
        invariant teams == Dedupe(all[..i])
        invariant forall t :: t in seen <==> t in teams
        invariant |seen| == |teams|
      {
        assert all[..i + 1][..i] == all[..i];
        if inside[i].team !in seen {
          seen := seen + {inside[i].team};
          teams := teams + [inside[i].team];
        }
      }
      assert all[..|inside|] == all;
      if |seen| > 1 {
        c := Some(Conflict(shape, inside, teams));
      } else {
        c := None;
      }
    }

    /** `getShapeBounds`: the least and greatest coordinates over the vertices. */
    method GetShapeBounds(pts: seq<Point>) returns (b: Option<Bounds>)
      ensures b.None? <==> |pts| == 0
      ensures b.Some? ==> forall i :: 0 <= i < |pts| ==>
        b.value.minX <= pts[i].x <= b.value.maxX && b.value.minY <= pts[i].y <= b.value.maxY
      ensures b.Some? ==> exists i :: 0 <= i < |pts| && pts[i].x == b.value.minX
      ensures b.Some? ==> exists i :: 0 <= i < |pts| && pts[i].x == b.value.maxX
      ensures b.Some? ==> exists i :: 0 <= i < |pts| && pts[i].y == b.value.minY
      ensures b.Some? ==> exists i :: 0 <= i < |pts| && pts[i].y == b.value.maxY
    {
      if |pts| == 0 {
        return None;
      }
      var minX, minY, maxX, maxY := pts[0].x, pts[0].y, pts[0].x, pts[0].y;
      for i := 1 to |pts|
        invariant forall k :: 0 <= k < i ==> minX <= pts[k].x <= maxX && minY <= pts[k].y <= maxY
        invariant exists k :: 0 <= k < i && pts[k].x == minX
        invariant exists k :: 0 <= k < i && pts[k].x == maxX
        invariant exists k :: 0 <= k < i && pts[k].y == minY
        invariant exists k :: 0 <= k < i && pts[k].y == maxY
      {
        minX := RealMin(minX, pts[i].x);
        minY := RealMin(minY, pts[i].y);
        maxX := RealMax(maxX, pts[i].x);
        maxY := RealMax(maxY, pts[i].y);
      }
      b := Some(Bounds(minX, minY, maxX, maxY));
    }
  }
}

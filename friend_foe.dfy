/**
 * The friend-or-foe game mode (js/modes/friend-foe-mode.js) and its two fixed
 * difficulty variants (js/modes/admin-friend-foe-mode.js): flags of several
 * teams stand on one polygon, and the player must cut it so that no piece holds
 * flags of two teams.
 */
module FriendFoe {
  import opened Common
  import opened Geometry
  import opened Sequences
  import opened CutEngine
  import opened Flags

  // ---------------------------------------------------------------------------
  // Level parameters
  // ---------------------------------------------------------------------------

  const BaseCuts: int := 5
  const BaseTeams: int := 2

  /** `maxCuts` for a level: one cut fewer every two levels, never below 2. */
  function MaxCutsFor(level: nat): (m: int)
    ensures 2 <= m <= 5
  {
    Max(2, BaseCuts - level / 2)
  }

  /** `targetTeams` for a level: one team more every three levels, never above 4. */
  function TeamsFor(level: nat): (t: int)
    requires level >= 1
    ensures 2 <= t <= 4
  {
    Min(4, BaseTeams + (level - 1) / 3)
  }

  /** Later levels never allow more cuts nor bring fewer teams. */
  lemma HarderWithLevel(a: nat, b: nat)
    requires 1 <= a <= b
    ensures MaxCutsFor(b) <= MaxCutsFor(a)
    ensures TeamsFor(a) <= TeamsFor(b)
  {
    DivMonotone(a, b, 2);
    DivMonotone(a - 1, b - 1, 3);
  }

  lemma DivMonotone(a: nat, b: nat, d: nat)
    requires a <= b && d > 0
    ensures a / d <= b / d
  {
    if a / d > b / d {
      assert (a / d) * d <= a;
      assert (b / d + 1) * d > b;
      MulMonotone(b / d + 1, a / d, d);
    }
  }

  lemma MulMonotone(x: nat, y: nat, d: nat)
    requires x <= y
    ensures x * d <= y * d
  {
  }

  // ---------------------------------------------------------------------------
  // Handing out the flags (addFlagsToShape)
  // ---------------------------------------------------------------------------

  /**
   * The number of flags team t asks for: `Math.min(flagsPerTeam, numFlags - (t - 1) * flagsPerTeam)`,
   * used as a loop bound, so a negative value adds nothing.
   */
  function TeamShare(numFlags: nat, perTeam: nat, t: nat): (c: nat)
    requires t >= 1
    ensures c <= perTeam
  {
    Max(0, Min(perTeam, numFlags - (t - 1) * perTeam))
  }

  /** k copies of the team t. */
  function Repeat(t: nat, k: nat): (r: seq<nat>)
    ensures |r| == k && forall i :: 0 <= i < k ==> r[i] == t
  {
    seq(k, _ => t)
  }

  /** The teams of the flags added for teams 1..k, in the order they are added. */
  function TeamPlan(numFlags: nat, perTeam: nat, k: nat): seq<nat>
  {
    if k == 0 then []
    else TeamPlan(numFlags, perTeam, k - 1) + Repeat(k, TeamShare(numFlags, perTeam, k))
  }

  /** Teams 1..k together receive min(numFlags, k * perTeam) flags. */
  lemma {:induction false} PlanLength(n: nat, p: nat, k: nat)
    ensures |TeamPlan(n, p, k)| == Min(n, k * p)
  {
    if k > 0 {
      PlanLength(n, p, k - 1);
      assert k * p == (k - 1) * p + p;
    }
  }

  lemma {:induction false} RepeatCount(t: nat, k: nat, x: nat)
    ensures multiset(Repeat(t, k))[x] == if x == t then k else 0
  {
    if k > 0 {
      RepeatCount(t, k - 1, x);
      assert Repeat(t, k) == Repeat(t, k - 1) + [t];
    }
  }

  /** Team t appears in the plan exactly as often as its share, and teams beyond k not at all. */
  lemma {:induction false} PlanCounts(n: nat, p: nat, k: nat, t: nat)
    requires t >= 1
    ensures multiset(TeamPlan(n, p, k))[t] == if t <= k then TeamShare(n, p, t) else 0
  {
    if k > 0 {
      PlanCounts(n, p, k - 1, t);
      RepeatCount(k, TeamShare(n, p, k), t);
    }
  }

  /**
   * With `flagsPerTeam = Math.ceil(numFlags / targetTeams)` every flag is handed
   * out: the shares of teams 1..targetTeams add up to numFlags.
   */
  lemma AllFlagsHandedOut(n: nat, teams: nat)
    requires teams >= 1
    ensures |TeamPlan(n, CeilDiv(n, teams), teams)| == n
  {
    PlanLength(n, CeilDiv(n, teams), teams);
  }

  /**
   * From level 7 on there are four teams, and with at least 10 flags team 4's
   * share is positive; `addRandomFlag` knows no team 4, so the level cannot start.
   */
  lemma FourthTeamFromLevelSeven(level: nat, n: nat)
    requires level >= 7 && 3 + level <= n
    ensures TeamsFor(level) == 4 && TeamShare(n, CeilDiv(n, 4), 4) >= 1
  {
    var p := CeilDiv(n, 4);
    assert (p - 1) * 4 < n;
  }

  /** Below level 7 at most three teams play. */
  lemma AtMostThreeTeamsBeforeSeven(level: nat)
    requires 1 <= level <= 6
    ensures TeamsFor(level) <= 3
  {
    DivMonotone(level - 1, 5, 3);
  }

  /**
   * The flags fs[base..] carry the given teams in order and stand on the given
   * spots.
   */
  predicate Placed(fs: seq<Flag>, base: nat, teams: seq<nat>, spots: seq<Point>)
  {
    && |fs| == base + |teams|
    && |teams| <= |spots|
    && forall i :: 0 <= i < |teams| ==>
        fs[base + i].team == teams[i] && fs[base + i].x == spots[i].x && fs[base + i].y == spots[i].y
  }

  /** A flag added on the next spot extends the placement by its team. */
  lemma PlacedAppend(fs: seq<Flag>, base: nat, teams: seq<nat>, spots: seq<Point>, f: Flag)
    requires Placed(fs, base, teams, spots) && |teams| < |spots|
    requires f.x == spots[|teams|].x && f.y == spots[|teams|].y
    ensures Placed(fs + [f], base, teams + [f.team], spots)
  {
  }

  // ---------------------------------------------------------------------------
  // Conflicts over all pieces (updateConflicts, areAllShapesValid)
  // ---------------------------------------------------------------------------

  /** Whether every flag of fs has the team of the first one. */
  predicate SameTeam(fs: seq<Flag>)
  {
    forall j :: 0 <= j < |fs| ==> fs[j].team == fs[0].team
  }

  /** The number of pieces in conflict. */
  function ConflictCount(shapes: seq<Shape>, fs: seq<Flag>): (c: nat)
    ensures c <= |shapes|
  {
    if shapes == [] then 0
    else
      ConflictCount(shapes[..|shapes| - 1], fs)
        + if Conflicted(fs, shapes[|shapes| - 1].points) then 1 else 0
  }

  /** The identifiers of the pieces in conflict. */
  function ConflictIds(shapes: seq<Shape>, fs: seq<Flag>): set<nat>
  {
    if shapes == [] then {}
    else
      ConflictIds(shapes[..|shapes| - 1], fs)
        + if Conflicted(fs, shapes[|shapes| - 1].points) then {shapes[|shapes| - 1].id} else {}
  }

  /** `hasConflict` / `conflictTeams` of one piece: the teams when in conflict, else none. */
  function Mark(fs: seq<Flag>, s: Shape): Option<seq<nat>>
  {
    if Conflicted(fs, s.points) then Some(TeamsIn(fs, s.points)) else None
  }

  /** The marks of all pieces, in order. */
  function Marks(shapes: seq<Shape>, fs: seq<Flag>): seq<Option<seq<nat>>>
  {
    if shapes == [] then []
    else Marks(shapes[..|shapes| - 1], fs) + [Mark(fs, shapes[|shapes| - 1])]
  }

  /** No piece is in conflict exactly when the count is 0. */
  lemma {:induction false} NoConflictCount(shapes: seq<Shape>, fs: seq<Flag>)
    ensures ConflictCount(shapes, fs) == 0 <==> forall i :: 0 <= i < |shapes| ==> !Conflicted(fs, shapes[i].points)
  {
    if shapes != [] {
      var init := shapes[..|shapes| - 1];
      NoConflictCount(init, fs);
      assert forall i :: 0 <= i < |init| ==> init[i] == shapes[i];
    }
  }

  /** `conflictShapes` holds exactly the identifiers of the pieces in conflict. */
  lemma {:induction false} ConflictIdsSpec(shapes: seq<Shape>, fs: seq<Flag>)
    ensures forall id :: id in ConflictIds(shapes, fs) <==>
      exists i :: 0 <= i < |shapes| && shapes[i].id == id && Conflicted(fs, shapes[i].points)
  {
    if shapes != [] {
      var init := shapes[..|shapes| - 1];
      ConflictIdsSpec(init, fs);
      assert forall i :: 0 <= i < |init| ==> init[i] == shapes[i];
      forall id | exists i :: 0 <= i < |shapes| && shapes[i].id == id && Conflicted(fs, shapes[i].points)
        ensures id in ConflictIds(shapes, fs)
      {
        var i :| 0 <= i < |shapes| && shapes[i].id == id && Conflicted(fs, shapes[i].points);
        if i < |init| {
          assert init[i].id == id && Conflicted(fs, init[i].points);
        }
      }
    }
  }

  /** Each piece's mark says whether it is in conflict, and with which teams. */
  lemma {:induction false} MarksSpec(shapes: seq<Shape>, fs: seq<Flag>)
    ensures |Marks(shapes, fs)| == |shapes|
    ensures forall i :: 0 <= i < |shapes| ==>
      (Marks(shapes, fs)[i].Some? <==> Conflicted(fs, shapes[i].points))
      && (Marks(shapes, fs)[i].Some? ==> Marks(shapes, fs)[i].value == TeamsIn(fs, shapes[i].points))
  {
    if shapes != [] {
      var init := shapes[..|shapes| - 1];
      MarksSpec(init, fs);
      var marks := Marks(shapes, fs);
      assert marks == Marks(init, fs) + [Mark(fs, shapes[|shapes| - 1])];
      forall i | 0 <= i < |shapes|
        ensures marks[i] == Mark(fs, shapes[i])
      {
        if i < |init| {
          assert init[i] == shapes[i];
        }
      }
    }
  }

  /** A piece's flags all share the first one's team exactly when the piece is not in conflict. */
  lemma SameTeamIffNoConflict(fs: seq<Flag>, pts: seq<Point>)
    ensures SameTeam(InShape(fs, pts)) <==> !Conflicted(fs, pts)
  {
    var inside := InShape(fs, pts);
    var teams := TeamsOf(inside);
    DedupeTwo(teams);
    if !SameTeam(inside) {
      var j :| 0 <= j < |inside| && inside[j].team != inside[0].team;
      assert teams[j] != teams[0];
    }
    if Conflicted(fs, pts) {
      var i, j :| 0 <= i < |teams| && 0 <= j < |teams| && teams[i] != teams[j];
      assert inside[i].team != inside[0].team || inside[j].team != inside[0].team;
    }
  }

  // ---------------------------------------------------------------------------
  // The completion decision and the score
  // ---------------------------------------------------------------------------

  datatype Decision = Complete | Fail | Continue

  /**
   * What `checkLevelCompletion` decides: complete with no conflict left and cuts
   * to spare or used up; fail with a conflict left and the last cut made;
   * otherwise play on.
   */
  function Decide(conflicts: nat, cutsMade: int, maxCuts: int): Decision
  {
    if conflicts == 0 && cutsMade <= maxCuts then Complete
    else if conflicts > 0 && cutsMade == maxCuts then Fail
    else Continue
  }

  /**
   * The decision in terms of its inputs: the shape check of `areAllShapesValid`
   * never matters, since no conflict left already completes the level; a level
   * with a conflict fails only on exactly the last cut.
   */
  lemma DecideCases(conflicts: nat, cutsMade: int, maxCuts: int)
    ensures Decide(conflicts, cutsMade, maxCuts) == Complete <==> conflicts == 0 && cutsMade <= maxCuts
    ensures Decide(conflicts, cutsMade, maxCuts) == Fail <==> conflicts > 0 && cutsMade == maxCuts
    ensures cutsMade < maxCuts && conflicts > 0 ==> Decide(conflicts, cutsMade, maxCuts) == Continue
  {
  }

  /** The points a completed level brings: 150, 75 per unused cut and 50 per team beyond the first. */
  function LevelScore(maxCuts: int, cutsMade: int, targetTeams: int): int
  {
    150 + (maxCuts - cutsMade) * 75 + (targetTeams - 1) * 50
  }

  /** A completed level brings between 200 and 675 points, more for fewer cuts. */
  lemma LevelScoreBounds(maxCuts: int, cutsMade: nat, targetTeams: int, fewer: nat)
    requires 2 <= maxCuts <= 5 && 2 <= targetTeams <= 4 && fewer <= cutsMade <= maxCuts
    ensures 200 <= LevelScore(maxCuts, cutsMade, targetTeams) <= 675
    ensures LevelScore(maxCuts, cutsMade, targetTeams) <= LevelScore(maxCuts, fewer, targetTeams)
  {
  }

  // ---------------------------------------------------------------------------
  // The mode
  // ---------------------------------------------------------------------------

  /** The standard mode and the two admin variants, which never advance the level. */
  datatype Variant = Standard | Easy | Hard

  /** The level each variant starts at. */
  function FirstLevel(v: Variant): nat
  {
    match v
    case Standard => 1
    case Easy => 1
    case Hard => 2
  }

  /** A `setTimeout` the mode has scheduled and that has not run yet. */
  datatype Next = StartNext | RestartNext

  /** The fields `cloneFlags` saves of one flag (the sizes are the same for every flag). */
  datatype FlagData = FlagData(x: real, y: real, color: string, team: nat)

  function DataOf(fs: seq<Flag>): (r: seq<FlagData>)
    ensures |r| == |fs|
    ensures forall i :: 0 <= i < |fs| ==> r[i] == FlagData(fs[i].x, fs[i].y, fs[i].color, fs[i].team)
  {
    seq(|fs|, i requires 0 <= i < |fs| => FlagData(fs[i].x, fs[i].y, fs[i].color, fs[i].team))
  }

  class FriendFoeMode {
    const variant: Variant
    const cutting: CuttingSystem
    const flagSystem: FlagSystem
    var isActive: bool
    var level: nat
    var score: int
    var cutsMade: nat
    var maxCuts: int
    var targetTeams: int
    var currentConflicts: nat
    var isComplete: bool
    var conflictShapes: set<nat>
    /** The `hasConflict` / `conflictTeams` marks of the pieces, in the order of `cutting.shapes`. */
    var marks: seq<Option<seq<nat>>>
    var initialShape: Option<Shape>
    var initialFlags: Option<seq<FlagData>>
    var pending: seq<Next>

    ghost predicate Valid()
      reads this, cutting
    {
      && cutting.Valid()
      && level >= 1
      && 2 <= maxCuts <= 5
      && 2 <= targetTeams <= 4
      && (variant != Standard ==> level == FirstLevel(variant))
    }

    /** The conflict fields describe the current pieces and flags. */
    ghost predicate ConflictsUpToDate()
      reads this, cutting, flagSystem
    {
      && currentConflicts == ConflictCount(cutting.shapes, flagSystem.flags)
      && conflictShapes == ConflictIds(cutting.shapes, flagSystem.flags)
      && marks == Marks(cutting.shapes, flagSystem.flags)
    }

    /** The constructor of the mode or of a variant, with the systems `init` creates. */
    constructor (variant: Variant)
      ensures Valid() && this.variant == variant && !isActive
      ensures level == FirstLevel(variant) && score == 0 && cutsMade == 0
      ensures maxCuts == 5 && targetTeams == 2 && currentConflicts == 0 && !isComplete
      ensures conflictShapes == {} && initialShape == None && initialFlags == None && pending == []
      ensures fresh(cutting) && fresh(flagSystem) && cutting.shapes == [] && flagSystem.flags == []
    {
      this.variant := variant;
      cutting := new CuttingSystem();
      flagSystem := new FlagSystem();
      isActive := false;
      level := FirstLevel(variant);
      score := 0;
      cutsMade := 0;
      maxCuts := 5;
      targetTeams := 2;
      currentConflicts := 0;
      isComplete := false;
      conflictShapes := {};
      marks := [];
      initialShape := None;
      initialFlags := None;
      pending := [];
    }

    /** `generateLevelParameters`. */
    method GenerateLevelParameters()
      requires Valid()
      modifies this`maxCuts, this`targetTeams
      ensures Valid()
      ensures maxCuts == MaxCutsFor(level) && targetTeams == TeamsFor(level)
    {
      maxCuts := Max(2, BaseCuts - level / 2);
      targetTeams := Min(4, BaseTeams + (level - 1) / 3);
    }

    /**
     * `addFlagsToShape` with the random flag count numFlags; spots[k] is the
     * point drawn for the k-th flag and winds[k] its random wind. Team t is asked
     * for its share of flags in turn; a team `addRandomFlag` cannot find stops
     * the loop, which is where the source throws.
     */
    method AddFlagsToShape(numFlags: nat, spots: seq<Point>, winds: seq<real>) returns (ok: bool)
      requires 2 <= targetTeams <= 4
      requires numFlags <= |spots| && numFlags <= |winds|
      requires forall k :: 0 <= k < |winds| ==> 0.0 <= winds[k] < 1.0
      modifies flagSystem`flags
      ensures ok <==> !(targetTeams == 4 && TeamShare(numFlags, CeilDiv(numFlags, 4), 4) > 0)
      ensures ok ==> Placed(flagSystem.flags, |old(flagSystem.flags)|,
                            TeamPlan(numFlags, CeilDiv(numFlags, targetTeams), targetTeams), spots)
      ensures !ok ==> Placed(flagSystem.flags, |old(flagSystem.flags)|,
                             TeamPlan(numFlags, CeilDiv(numFlags, targetTeams), 3), spots)
    {
      ghost var base := |flagSystem.flags|;
      var teams := targetTeams;
      var perTeam := CeilDiv(numFlags, teams);
      var next := 0;
      var teamId := 1;
      while teamId <= teams
        invariant 1 <= teamId <= teams + 1
        invariant next == |TeamPlan(numFlags, perTeam, teamId - 1)| <= numFlags
        invariant Placed(flagSystem.flags, base, TeamPlan(numFlags, perTeam, teamId - 1), spots)
        invariant teamId == 5 ==> TeamShare(numFlags, perTeam, 4) == 0
      {
        PlanLength(numFlags, perTeam, teamId - 1);
        PlanLength(numFlags, perTeam, teamId);
        ghost var done := TeamPlan(numFlags, perTeam, teamId - 1);
        var flagsToAdd := Min(perTeam, numFlags - (teamId - 1) * perTeam);
        assert Max(0, flagsToAdd) == TeamShare(numFlags, perTeam, teamId);
        var added := AddTeamFlags(teamId, flagsToAdd, next, spots, winds, base, done);
        if !added {
          assert teamId == 4 == teams;
          return false;
        }
        assert done + Repeat(teamId, TeamShare(numFlags, perTeam, teamId)) == TeamPlan(numFlags, perTeam, teamId);
        next := next + TeamShare(numFlags, perTeam, teamId);
        teamId := teamId + 1;
      }
      return true;
    }

    /**
     * The inner loop of `addFlagsToShape`: count flags for team teamId on
     * spots[next..]; it stops at the first flag `addRandomFlag` cannot make.
     */
    method AddTeamFlags(teamId: nat, count: int, next: nat, spots: seq<Point>, winds: seq<real>,
                        ghost base: nat, ghost done: seq<nat>) returns (ok: bool)
      requires 1 <= teamId && next == |done| && next + Max(0, count) <= |spots| && next + Max(0, count) <= |winds|
      requires forall k :: 0 <= k < |winds| ==> 0.0 <= winds[k] < 1.0
      requires Placed(flagSystem.flags, base, done, spots)
      modifies flagSystem`flags
      ensures ok <==> teamId <= 3 || count <= 0
      ensures ok ==> Placed(flagSystem.flags, base, done + Repeat(teamId, Max(0, count)), spots)
      ensures !ok ==> flagSystem.flags == old(flagSystem.flags)
    {
      var i := 0;
      while i < count
        invariant 0 <= i <= Max(0, count)
        invariant Placed(flagSystem.flags, base, done + Repeat(teamId, i), spots)
        invariant teamId <= 3 || i == 0
        invariant i == 0 ==> flagSystem.flags == old(flagSystem.flags)
      {
        ghost var before := flagSystem.flags;
        var added := flagSystem.AddRandomFlag(spots[next + i], teamId, 0, winds[next + i]);
        if added.None? {
          return false;
        }
        PlacedAppend(before, base, done + Repeat(teamId, i), spots, added.value);
        assert (done + Repeat(teamId, i)) + [teamId] == done + Repeat(teamId, i + 1);
        i := i + 1;
      }
      return true;
    }

    /**
     * `updateConflicts`: checks every piece, counting and recording those whose
     * flags belong to two or more teams and marking each piece.
     */
    method UpdateConflicts()
      requires Valid()
      modifies this`conflictShapes, this`currentConflicts, this`marks
      ensures Valid() && ConflictsUpToDate()
    {
      conflictShapes := {};
      currentConflicts := 0;
      marks := [];
      var shapes := cutting.shapes;
      for i := 0 to |shapes|
        invariant currentConflicts == ConflictCount(shapes[..i], flagSystem.flags)
        invariant conflictShapes == ConflictIds(shapes[..i], flagSystem.flags)
        invariant marks == Marks(shapes[..i], flagSystem.flags)
      {
        assert shapes[..i + 1][..i] == shapes[..i];
        var conflict := flagSystem.CheckShapeForConflicts(shapes[i]);
        if conflict.Some? {
          conflictShapes := conflictShapes + {shapes[i].id};
          currentConflicts := currentConflicts + 1;
          marks := marks + [Some(conflict.value.teams)];
        } else {
          marks := marks + [None];
        }
      }
      assert shapes[..|shapes|] == shapes;
    }

    /** `areAllShapesValid`: every piece's flags share the team of its first flag. */
    method AreAllShapesValid() returns (valid: bool)
      ensures valid <==> forall i :: 0 <= i < |cutting.shapes| ==> SameTeam(InShape(flagSystem.flags, cutting.shapes[i].points))
    {
      var shapes := cutting.shapes;
      for i := 0 to |shapes|
        invariant forall k :: 0 <= k < i ==> SameTeam(InShape(flagSystem.flags, shapes[k].points))
      {
        var inside := flagSystem.FlagsInShape(shapes[i].points);
        if |inside| > 0 {
          var firstTeam := inside[0].team;
          for j := 0 to |inside|
            invariant forall k :: 0 <= k < j ==> inside[k].team == firstTeam
          {
            if inside[j].team != firstTeam {
              return false;
            }
          }
        }
      }
      return true;
    }

    /** The base `completeLevel` and the admin overrides: the same points; only the standard mode advances. */
    method CompleteLevel()
      requires Valid()
      modifies this`score, this`level, this`pending
      ensures Valid()
      ensures score == old(score) + LevelScore(maxCuts, cutsMade, targetTeams)
      ensures level == if variant == Standard then old(level) + 1 else old(level)
      ensures pending == old(pending) + [StartNext]
    {
      var levelScore := 150;
      var remainingCuts := maxCuts - cutsMade;
      levelScore := levelScore + remainingCuts * 75;
      var teamBonus := (targetTeams - 1) * 50;
      levelScore := levelScore + teamBonus;
      score := score + levelScore;
      if variant == Standard {
        level := level + 1;
      }
      pending := pending + [StartNext];
    }

    /** `failLevel`: the level restarts after a delay. */
    method FailLevel()
      modifies this`pending
      ensures pending == old(pending) + [RestartNext]
    {
      pending := pending + [RestartNext];
    }

    /**
     * `checkLevelCompletion`. With no conflict left the first branch always
     * completes, so the failure inside it cannot happen.
     */
    method CheckLevelCompletion() returns (d: Decision)
      requires Valid()
      modifies this`score, this`level, this`pending
      ensures Valid()
      ensures d == Decide(currentConflicts, cutsMade, maxCuts)
      ensures d == Complete ==>
                && score == old(score) + LevelScore(maxCuts, cutsMade, targetTeams)
                && level == (if variant == Standard then old(level) + 1 else old(level))
                && pending == old(pending) + [StartNext]
      ensures d == Fail ==> score == old(score) && level == old(level) && pending == old(pending) + [RestartNext]
      ensures d == Continue ==> score == old(score) && level == old(level) && pending == old(pending)
    {
      if currentConflicts < 1 && cutsMade <= maxCuts {
        var allShapesOk := AreAllShapesValid();
        if allShapesOk || currentConflicts == 0 {
          CompleteLevel();
          d := Complete;
        } else {
          assert false;
          d := Continue;
        }
      } else if cutsMade == maxCuts {
        FailLevel();
        d := Fail;
      } else {
        d := Continue;
      }
    }

    /**
     * `onCutMade`: ignored while the mode is inactive; otherwise one more cut,
     * fresh conflict marks, and the completion decision.
     */
    method OnCutMade(newShapeCount: nat) returns (d: Option<Decision>)
      requires Valid()
      modifies this`cutsMade, this`conflictShapes, this`currentConflicts, this`marks
      modifies this`score, this`level, this`pending
      ensures Valid()
      ensures !old(isActive) ==>
                && d == None && cutsMade == old(cutsMade) && score == old(score)
                && level == old(level) && pending == old(pending) && currentConflicts == old(currentConflicts)
                && conflictShapes == old(conflictShapes) && marks == old(marks)
      ensures old(isActive) ==>
                && cutsMade == old(cutsMade) + 1 && ConflictsUpToDate()
                && d == Some(Decide(currentConflicts, cutsMade, maxCuts))
      ensures d == Some(Complete) ==>
                && score == old(score) + LevelScore(maxCuts, cutsMade, targetTeams)
                && level == (if variant == Standard then old(level) + 1 else old(level))
                && pending == old(pending) + [StartNext]
      ensures d == Some(Fail) ==> score == old(score) && level == old(level) && pending == old(pending) + [RestartNext]
      ensures d == Some(Continue) ==> score == old(score) && level == old(level) && pending == old(pending)
    {
      if !isActive {
        return None;
      }
      cutsMade := cutsMade + 1;
      UpdateConflicts();
      var decision := CheckLevelCompletion();
      d := Some(decision);
    }

    /** A mouse-up over the canvas: the cutting system cuts and, when it reports a cut, the mode counts it. */
    method OnMouseUp(x: real, y: real) returns (d: Option<Decision>)
      requires Valid()
      modifies cutting`isCutting, cutting`cutEnd, cutting`shapes, cutting`nextId
      modifies this`cutsMade, this`conflictShapes, this`currentConflicts, this`marks
      modifies this`score, this`level, this`pending
      ensures Valid() && !cutting.isCutting
      ensures !old(cutting.isCutting) ==>
                && d == None && cutsMade == old(cutsMade) && score == old(score)
                && level == old(level) && cutting.shapes == old(cutting.shapes)
      ensures old(cutting.isCutting) ==>
                var r := CutShapes(old(cutting.shapes), old(cutting.cutStart).value, Point(x, y), old(cutting.nextId));
                && cutting.shapes == r.shapes && cutting.nextId == r.nextId
                && (isActive ==> (d.Some? <==> cutting.hasCutCallback && r.isCut))
      ensures !isActive ==> d.None?
      ensures d.None? ==>
                && cutsMade == old(cutsMade) && score == old(score) && level == old(level) && pending == old(pending)
                && currentConflicts == old(currentConflicts) && conflictShapes == old(conflictShapes) && marks == old(marks)
      ensures d.Some? ==>
                && cutsMade == old(cutsMade) + 1 && ConflictsUpToDate()
                && d.value == Decide(currentConflicts, cutsMade, maxCuts)
      ensures d == Some(Complete) ==>
                && score == old(score) + LevelScore(maxCuts, cutsMade, targetTeams)
                && level == (if variant == Standard then old(level) + 1 else old(level))
                && pending == old(pending) + [StartNext]
      ensures d == Some(Fail) ==> score == old(score) && level == old(level) && pending == old(pending) + [RestartNext]
      ensures d == Some(Continue) ==> score == old(score) && level == old(level) && pending == old(pending)
    {
      var notified := cutting.OnMouseUp(x, y);
      d := None;
      if notified.Some? {
        d := OnCutMade(notified.value);
      }
    }

    /**
     * The reset `startLevel` and `restartLevel` both begin with: no pieces, no
     * flags, no conflicts, no cuts.
     */
    method ClearLevel()
      requires Valid()
      modifies this`conflictShapes, this`cutsMade, this`currentConflicts, this`isComplete, this`marks
      modifies cutting`shapes, cutting`cutLine, cutting`isCutting, flagSystem`flags
      ensures Valid()
      ensures cutting.shapes == [] && flagSystem.flags == [] && conflictShapes == {} && marks == []
      ensures cutsMade == 0 && currentConflicts == 0 && !isComplete
    {
      cutting.Clear();
      flagSystem.Clear();
      conflictShapes := {};
      marks := [];
      cutsMade := 0;
      currentConflicts := 0;
      isComplete := false;
    }

    /**
     * `startLevel` with the generated polygon shape and the random draws of
     * `addFlagsToShape`. ok is false where the source throws (a fourth team).
     */
    method StartLevel(shape: Shape, numFlags: nat, spots: seq<Point>, winds: seq<real>) returns (ok: bool)
      requires Valid()
      requires numFlags <= |spots| && numFlags <= |winds|
      requires forall k :: 0 <= k < |winds| ==> 0.0 <= winds[k] < 1.0
      modifies this`conflictShapes, this`cutsMade, this`currentConflicts, this`isComplete, this`marks
      modifies this`maxCuts, this`targetTeams, this`initialShape, this`initialFlags
      modifies cutting`shapes, cutting`cutLine, cutting`isCutting, cutting`nextId, flagSystem`flags
      ensures Valid()
      ensures cutsMade == 0 && !isComplete
      ensures maxCuts == MaxCutsFor(level) && targetTeams == TeamsFor(level)
      ensures initialShape == Some(shape) && cutting.shapes == [shape]
      ensures ok <==> !(targetTeams == 4 && TeamShare(numFlags, CeilDiv(numFlags, 4), 4) > 0)
      ensures ok ==> Placed(flagSystem.flags, 0, TeamPlan(numFlags, CeilDiv(numFlags, targetTeams), targetTeams), spots)
      ensures ok ==> initialFlags == Some(DataOf(flagSystem.flags)) && ConflictsUpToDate()
      ensures !ok ==> currentConflicts == 0 && conflictShapes == {} && marks == [] && initialFlags == old(initialFlags)
      ensures !ok ==> Placed(flagSystem.flags, 0, TeamPlan(numFlags, CeilDiv(numFlags, targetTeams), 3), spots)
    {
      ClearLevel();
      GenerateLevelParameters();
      initialShape := Some(shape);
      cutting.SetShapes([shape]);
      ok := AddFlagsToShape(numFlags, spots, winds);
      if !ok {
        return;
      }
      initialFlags := Some(DataOf(flagSystem.flags));
      UpdateConflicts();
    }

    /**
     * `restartLevel`: without a saved level it starts a new one; otherwise the
     * saved polygon (points, colour and id) and flags come back, with new
     * random winds, and the counters reset.
     */
    method RestartLevel(shape: Shape, numFlags: nat, spots: seq<Point>, winds: seq<real>) returns (ok: bool)
      requires Valid()
      requires numFlags <= |spots| && numFlags <= |winds|
      requires initialFlags.Some? ==> |initialFlags.value| <= |winds|
      requires forall k :: 0 <= k < |winds| ==> 0.0 <= winds[k] < 1.0
      modifies this`conflictShapes, this`cutsMade, this`currentConflicts, this`isComplete, this`marks
      modifies this`maxCuts, this`targetTeams, this`initialShape, this`initialFlags
      modifies cutting`shapes, cutting`cutLine, cutting`isCutting, cutting`nextId, flagSystem`flags
      ensures Valid()
      ensures cutsMade == 0 && !isComplete
      ensures old(initialShape).Some? && old(initialFlags).Some? ==>
                && ok && cutting.shapes == [old(initialShape).value]
                && DataOf(flagSystem.flags) == old(initialFlags).value
                && maxCuts == old(maxCuts) && targetTeams == old(targetTeams)
                && ConflictsUpToDate()
    {
      if initialShape.None? || initialFlags.None? {
        ok := StartLevel(shape, numFlags, spots, winds);
        return;
      }
      ClearLevel();
      cutting.SetShapes([initialShape.value]);
      var saved := initialFlags.value;
      for k := 0 to |saved|
        modifies flagSystem`flags
        invariant DataOf(flagSystem.flags) == saved[..k]
      {
        var flag := new Flag(saved[k].x, saved[k].y, saved[k].color, saved[k].team, winds[k]);
        flagSystem.flags := flagSystem.flags + [flag];
        assert DataOf(flagSystem.flags) == saved[..k + 1];
      }
      assert saved[..|saved|] == saved;
      UpdateConflicts();
      ok := true;
    }

    /**
     * The oldest delayed step that `completeLevel` or `failLevel` scheduled
     * runs: a `startLevel` or a `restartLevel`, with the random draws made then.
     */
    method RunPending(shape: Shape, numFlags: nat, spots: seq<Point>, winds: seq<real>) returns (ok: bool)
      requires Valid() && |pending| > 0
      requires numFlags <= |spots| && numFlags <= |winds|
      requires initialFlags.Some? ==> |initialFlags.value| <= |winds|
      requires forall k :: 0 <= k < |winds| ==> 0.0 <= winds[k] < 1.0
      modifies this`pending
      modifies this`conflictShapes, this`cutsMade, this`currentConflicts, this`isComplete, this`marks
      modifies this`maxCuts, this`targetTeams, this`initialShape, this`initialFlags
      modifies cutting`shapes, cutting`cutLine, cutting`isCutting, cutting`nextId, flagSystem`flags
      ensures Valid() && pending == old(pending)[1..]
      ensures cutsMade == 0 && !isComplete && level == old(level) && score == old(score)
      ensures old(pending)[0] == StartNext ==>
                && maxCuts == MaxCutsFor(level) && targetTeams == TeamsFor(level)
                && initialShape == Some(shape) && cutting.shapes == [shape]
                && (ok <==> !(targetTeams == 4 && TeamShare(numFlags, CeilDiv(numFlags, 4), 4) > 0))
                && (ok ==> initialFlags == Some(DataOf(flagSystem.flags)) && ConflictsUpToDate())
      ensures old(pending)[0] == RestartNext && old(initialShape).Some? && old(initialFlags).Some? ==>
                && ok && cutting.shapes == [old(initialShape).value]
                && DataOf(flagSystem.flags) == old(initialFlags).value
                && maxCuts == old(maxCuts) && targetTeams == old(targetTeams)
                && ConflictsUpToDate()
    {
      var next := pending[0];
      pending := pending[1..];
      match next
      case StartNext =>
        ok := StartLevel(shape, numFlags, spots, winds);
      case RestartNext =>
        ok := RestartLevel(shape, numFlags, spots, winds);
    }

    /** `init`: the mode becomes active, listens for cuts, and starts its level. */
    method Init(shape: Shape, numFlags: nat, spots: seq<Point>, winds: seq<real>) returns (ok: bool)
      requires Valid()
      requires numFlags <= |spots| && numFlags <= |winds|
      requires forall k :: 0 <= k < |winds| ==> 0.0 <= winds[k] < 1.0
      modifies this`isActive, this`conflictShapes, this`cutsMade, this`currentConflicts, this`isComplete, this`marks
      modifies this`maxCuts, this`targetTeams, this`initialShape, this`initialFlags
      modifies cutting`hasCutCallback, cutting`shapes, cutting`cutLine, cutting`isCutting, cutting`nextId, flagSystem`flags
      ensures Valid() && isActive && cutting.hasCutCallback
      ensures cutsMade == 0 && !isComplete && level == old(level) && score == old(score)
      ensures maxCuts == MaxCutsFor(level) && targetTeams == TeamsFor(level)
      ensures initialShape == Some(shape) && cutting.shapes == [shape]
      ensures ok <==> !(targetTeams == 4 && TeamShare(numFlags, CeilDiv(numFlags, 4), 4) > 0)
      ensures ok ==> Placed(flagSystem.flags, 0, TeamPlan(numFlags, CeilDiv(numFlags, targetTeams), targetTeams), spots)
      ensures ok ==> initialFlags == Some(DataOf(flagSystem.flags)) && ConflictsUpToDate()
      ensures !ok ==> currentConflicts == 0 && conflictShapes == {} && marks == [] && initialFlags == old(initialFlags)
      ensures !ok ==> Placed(flagSystem.flags, 0, TeamPlan(numFlags, CeilDiv(numFlags, targetTeams), 3), spots)
    {
      isActive := true;
      cutting.SetOnCutCallback();
      ok := StartLevel(shape, numFlags, spots, winds);
    }

    /** `cleanup`: inactive, with no pieces and no flags. */
    method Cleanup()
      requires Valid()
      modifies this`isActive, cutting`shapes, cutting`cutLine, cutting`isCutting, flagSystem`flags
      ensures Valid() && !isActive && cutting.shapes == [] && flagSystem.flags == []
      ensures !cutting.isCutting && cutting.cutLine.None?
    {
      isActive := false;
      cutting.Clear();
      flagSystem.Clear();
    }
  }

  /** With conflicts up to date, every piece is valid exactly when no conflict is counted. */
  lemma AllValidIffNoConflicts(shapes: seq<Shape>, fs: seq<Flag>)
    ensures (forall i :: 0 <= i < |shapes| ==> SameTeam(InShape(fs, shapes[i].points)))
      <==> ConflictCount(shapes, fs) == 0
  {
    NoConflictCount(shapes, fs);
    forall i | 0 <= i < |shapes|
      ensures SameTeam(InShape(fs, shapes[i].points)) <==> !Conflicted(fs, shapes[i].points)
    {
      SameTeamIffNoConflict(fs, shapes[i].points);
    }
  }

  /** The easy variant always plays with 5 cuts and 2 teams, the hard one with 4 cuts and 2 teams. */
  lemma AdminParametersFixed(m: FriendFoeMode)
    requires m.Valid()
    ensures m.variant == Easy ==> MaxCutsFor(m.level) == 5 && TeamsFor(m.level) == 2
    ensures m.variant == Hard ==> MaxCutsFor(m.level) == 4 && TeamsFor(m.level) == 2
  {
  }
}

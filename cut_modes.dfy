/**
 * The "cut into pieces" game mode (js/modes/cut-mode.js) and its three fixed
 * difficulty variants (js/modes/admin-cut-mode.js): the player must cut one
 * polygon into a target number of pieces within a limited number of cuts.
 */
module CutModes {
  import opened Common
  import opened Geometry
  import opened CutEngine

  // ---------------------------------------------------------------------------
  // Level parameters
  // ---------------------------------------------------------------------------

  /** The starting `targetPieces` and `maxCuts` of every cut mode. */
  const InitialTarget: int := 4
  const InitialMaxCuts: int := 3

  /** The points every completed level brings. */
  const LevelPoints: int := 100

  /** The two numbers `generateLevelParameters` sets: pieces to reach, cuts allowed. */
  datatype Targets = Targets(pieces: int, cuts: int)

  /**
   * `generateLevelParameters`: the switch is over the real quotient level / 4,
   * so only levels 4, 8 and 12 match a case; at every other level the previous
   * targets stay.
   */
  function LevelTargets(level: nat, previous: Targets): Targets
  {
    var quarter := level as real / 4.0;
    if quarter == 1.0 then Targets(4, 3)
    else if quarter == 2.0 then Targets(6, 4)
    else if quarter == 3.0 then Targets(10, 4)
    else previous
  }

  /** The quotient level / 4 is one of the case labels exactly at levels 4, 8 and 12. */
  lemma LevelTargetsCases(level: nat, previous: Targets)
    ensures LevelTargets(level, previous) != previous ==> level in {4, 8, 12}
    ensures level == 4 ==> LevelTargets(level, previous) == Targets(4, 3)
    ensures level == 8 ==> LevelTargets(level, previous) == Targets(6, 4)
    ensures level == 12 ==> LevelTargets(level, previous) == Targets(10, 4)
  {
    var quarter := level as real / 4.0;
    assert level as real == 4.0 * quarter;
  }

  /** The targets in force at a level the standard mode reaches by completing levels 1, 2, ... in turn. */
  function TargetsAt(level: nat): Targets
    requires level >= 1
  {
    if level == 1 then LevelTargets(1, Targets(InitialTarget, InitialMaxCuts))
    else LevelTargets(level, TargetsAt(level - 1))
  }

  /**
   * The standard schedule, when every level from 1 on is started in turn: 4
   * pieces in 3 cuts until level 8, 6 in 4 until level 12, then 10 in 4.
   */
  lemma {:induction false} StandardSchedule(level: nat)
    requires level >= 1
    ensures TargetsAt(level) ==
              if level < 8 then Targets(4, 3)
              else if level < 12 then Targets(6, 4)
              else Targets(10, 4)
  {
    LevelTargetsCases(level, Targets(InitialTarget, InitialMaxCuts));
    if level > 1 {
      StandardSchedule(level - 1);
      LevelTargetsCases(level, TargetsAt(level - 1));
    }
  }

  /**
   * Two completing cuts before the delayed start runs advance the level twice.
   * From level 7 the next start is then at level 9, and level 8's change of
   * targets never happens: (4, 3) stay in force.
   */
  lemma SkippedLevelKeepsTargets()
    ensures LevelTargets(9, TargetsAt(7)) == Targets(4, 3)
    ensures LevelTargets(9, TargetsAt(7)) != TargetsAt(9)
  {
    StandardSchedule(7);
    StandardSchedule(9);
    LevelTargetsCases(9, TargetsAt(7));
  }

  // ---------------------------------------------------------------------------
  // The decision after a cut
  // ---------------------------------------------------------------------------

  datatype Outcome = Completed | Failed | Playing

  /**
   * What `onCutMade` decides: reaching the target completes the level, even on
   * the last cut; otherwise the level fails once the cuts are used up.
   */
  function Decide(pieces: int, targetPieces: int, cutsMade: int, maxCuts: int): Outcome
  {
    if pieces >= targetPieces then Completed
    else if cutsMade >= maxCuts then Failed
    else Playing
  }

  /** Completion wins over running out of cuts, and a level never stays open once the cuts are used up. */
  lemma DecidePrecedence(pieces: int, targetPieces: int, cutsMade: int, maxCuts: int)
    ensures Decide(pieces, targetPieces, cutsMade, maxCuts) == Completed <==> pieces >= targetPieces
    ensures Decide(pieces, targetPieces, cutsMade, maxCuts) == Failed <==> pieces < targetPieces && cutsMade >= maxCuts
    ensures cutsMade >= maxCuts ==> Decide(pieces, targetPieces, cutsMade, maxCuts) != Playing
  {
  }

  // ---------------------------------------------------------------------------
  // The mode
  // ---------------------------------------------------------------------------

  /** The standard mode and the three admin variants, which never advance the level. */
  datatype Variant = Standard | Easy | Hard | Extreme

  /** The level each variant starts at. */
  function FirstLevel(v: Variant): (l: nat)
    ensures 1 <= l <= 3
  {
    match v
    case Standard => 1
    case Easy => 1
    case Hard => 2
    case Extreme => 3
  }

  /** The admin variants stay on a level where no case of the switch matches, so their targets never move. */
  lemma AdminTargetsFixed(v: Variant, previous: Targets)
    requires v != Standard
    ensures LevelTargets(FirstLevel(v), previous) == previous
  {
    LevelTargetsCases(FirstLevel(v), previous);
  }

  class CutMode {
    const variant: Variant
    const cutting: CuttingSystem
    var isActive: bool
    var level: nat
    var score: int
    var cutsMade: nat
    var maxCuts: int
    var targetPieces: int
    var currentPieces: nat
    /** How many `setTimeout(() => this.startLevel(), 1500)` calls are still to run. */
    var pendingStarts: nat

    ghost predicate Valid()
      reads this, cutting
    {
      && cutting.Valid()
      && level >= 1
      && (variant != Standard ==> level == FirstLevel(variant))
      && (variant != Standard ==> targetPieces == InitialTarget && maxCuts == InitialMaxCuts)
    }

    /** The constructor of the mode or of a variant, with the cutting system `init` creates. */
    constructor (variant: Variant)
      ensures Valid() && this.variant == variant && !isActive
      ensures level == FirstLevel(variant) && score == 0 && cutsMade == 0 && currentPieces == 1
      ensures targetPieces == InitialTarget && maxCuts == InitialMaxCuts && pendingStarts == 0
      ensures fresh(cutting) && cutting.shapes == []
    {
      this.variant := variant;
      cutting := new CuttingSystem();
      isActive := false;
      level := FirstLevel(variant);
      score := 0;
      cutsMade := 0;
      maxCuts := InitialMaxCuts;
      targetPieces := InitialTarget;
      currentPieces := 1;
      pendingStarts := 0;
    }

    /** `generateLevelParameters`. */
    method GenerateLevelParameters()
      requires Valid()
      modifies this`targetPieces, this`maxCuts
      ensures Valid()
      ensures Targets(targetPieces, maxCuts) == LevelTargets(level, Targets(old(targetPieces), old(maxCuts)))
    {
      if variant != Standard {
        AdminTargetsFixed(variant, Targets(targetPieces, maxCuts));
      }
      var quarter := level as real / 4.0;
      if quarter == 1.0 {
        targetPieces := 4;
        maxCuts := 3;
      } else if quarter == 2.0 {
        targetPieces := 6;
        maxCuts := 4;
      } else if quarter == 3.0 {
        targetPieces := 10;
        maxCuts := 4;
      }
    }

    /** `startLevel` with the polygon the shape generator draws. */
    method StartLevel(shape: Shape)
      requires Valid()
      modifies this`cutsMade, this`currentPieces, this`targetPieces, this`maxCuts
      modifies cutting`shapes, cutting`nextId
      ensures Valid()
      ensures cutsMade == 0 && currentPieces == 1 && cutting.shapes == [shape]
      ensures Targets(targetPieces, maxCuts) == LevelTargets(level, Targets(old(targetPieces), old(maxCuts)))
    {
      cutsMade := 0;
      currentPieces := 1;
      GenerateLevelParameters();
      cutting.SetShapes([shape]);
    }

    /** The base `completeLevel` and the admin overrides: 100 points; only the standard mode advances. */
    method CompleteLevel()
      requires Valid()
      modifies this`score, this`level, this`pendingStarts
      ensures Valid()
      ensures score == old(score) + LevelPoints
      ensures level == if variant == Standard then old(level) + 1 else old(level)
      ensures pendingStarts == old(pendingStarts) + 1
    {
      if variant == Standard {
        level := level + 1;
      }
      score := score + 100;
      pendingStarts := pendingStarts + 1;
    }

    /** `failLevel`: the same level starts again after a delay. */
    method FailLevel()
      modifies this`pendingStarts
      ensures pendingStarts == old(pendingStarts) + 1
    {
      pendingStarts := pendingStarts + 1;
    }

    /** `onCutMade`: one more cut, the reported number of pieces, and the decision. */
    method OnCutMade(newShapeCount: nat) returns (outcome: Outcome)
      requires Valid()
      modifies this`cutsMade, this`currentPieces, this`score, this`level, this`pendingStarts
      ensures Valid()
      ensures cutsMade == old(cutsMade) + 1 && currentPieces == newShapeCount
      ensures outcome == Decide(newShapeCount, targetPieces, cutsMade, maxCuts)
      ensures outcome == Completed ==>
                && score == old(score) + LevelPoints
                && level == (if variant == Standard then old(level) + 1 else old(level))
                && pendingStarts == old(pendingStarts) + 1
      ensures outcome == Failed ==> score == old(score) && level == old(level) && pendingStarts == old(pendingStarts) + 1
      ensures outcome == Playing ==> score == old(score) && level == old(level) && pendingStarts == old(pendingStarts)
    {
      cutsMade := cutsMade + 1;
      currentPieces := newShapeCount;
      if currentPieces >= targetPieces {
        CompleteLevel();
        outcome := Completed;
      } else if cutsMade >= maxCuts {
        FailLevel();
        outcome := Failed;
      } else {
        outcome := Playing;
      }
    }

    /**
     * One of the delayed `startLevel` calls that `completeLevel` and `failLevel`
     * schedule runs, with the polygon the shape generator draws then.
     */
    method RunPendingStart(shape: Shape)
      requires Valid() && pendingStarts > 0
      modifies this`pendingStarts, this`cutsMade, this`currentPieces, this`targetPieces, this`maxCuts
      modifies cutting`shapes, cutting`nextId
      ensures Valid() && pendingStarts == old(pendingStarts) - 1
      ensures cutsMade == 0 && currentPieces == 1 && cutting.shapes == [shape]
      ensures Targets(targetPieces, maxCuts) == LevelTargets(level, Targets(old(targetPieces), old(maxCuts)))
    {
      pendingStarts := pendingStarts - 1;
      StartLevel(shape);
    }

    /** A mouse-up over the canvas: the cutting system cuts and, when it reports a cut, the mode counts it. */
    method OnMouseUp(x: real, y: real) returns (outcome: Option<Outcome>)
      requires Valid()
      modifies cutting`isCutting, cutting`cutEnd, cutting`shapes, cutting`nextId
      modifies this`cutsMade, this`currentPieces, this`score, this`level, this`pendingStarts
      ensures Valid() && !cutting.isCutting
      ensures !old(cutting.isCutting) ==>
                && outcome == None && cutsMade == old(cutsMade) && score == old(score)
                && level == old(level) && cutting.shapes == old(cutting.shapes)
      ensures old(cutting.isCutting) ==>
                var r := CutShapes(old(cutting.shapes), old(cutting.cutStart).value, Point(x, y), old(cutting.nextId));
                && cutting.shapes == r.shapes && cutting.nextId == r.nextId
                && (outcome.Some? <==> cutting.hasCutCallback && r.isCut)
      ensures outcome.None? ==>
                && cutsMade == old(cutsMade) && currentPieces == old(currentPieces)
                && score == old(score) && level == old(level) && pendingStarts == old(pendingStarts)
      ensures outcome.Some? ==>
                && cutsMade == old(cutsMade) + 1 && currentPieces == |cutting.shapes|
                && outcome.value == Decide(|cutting.shapes|, targetPieces, cutsMade, maxCuts)
      ensures outcome == Some(Completed) ==>
                && score == old(score) + LevelPoints
                && level == (if variant == Standard then old(level) + 1 else old(level))
                && pendingStarts == old(pendingStarts) + 1
      ensures outcome == Some(Failed) ==>
                score == old(score) && level == old(level) && pendingStarts == old(pendingStarts) + 1
      ensures outcome == Some(Playing) ==>
                score == old(score) && level == old(level) && pendingStarts == old(pendingStarts)
    {
      var notified := cutting.OnMouseUp(x, y);
      outcome := None;
      if notified.Some? {
        var decided := OnCutMade(notified.value);
        outcome := Some(decided);
      }
    }

    /** `init`: the mode becomes active, listens for cuts, and starts its level. */
    method Init(shape: Shape)
      requires Valid()
      modifies this`isActive, this`cutsMade, this`currentPieces, this`targetPieces, this`maxCuts
      modifies cutting`shapes, cutting`nextId, cutting`hasCutCallback
      ensures Valid() && isActive && cutting.hasCutCallback
      ensures cutsMade == 0 && currentPieces == 1 && cutting.shapes == [shape] && level == old(level)
      ensures Targets(targetPieces, maxCuts) == LevelTargets(level, Targets(old(targetPieces), old(maxCuts)))
    {
      isActive := true;
      cutting.SetOnCutCallback();
      StartLevel(shape);
    }

    /** `cleanup`: inactive, with no pieces. */
    method Cleanup()
      requires Valid()
      modifies this`isActive, cutting`shapes, cutting`cutLine, cutting`isCutting
      ensures Valid() && !isActive && cutting.shapes == [] && !cutting.isCutting && cutting.cutLine.None?
    {
      isActive := false;
      cutting.Clear();
    }
  }
}

/**
 * The game page's manager, js/game-manager.js: it fits the canvas into its
 * container at 4:3, keeps the registry of modes, starts a mode, counts the
 * five-minute timer down once a second, and at the end saves the score to the
 * leaderboard and shows the results. The browser's leaderboard storage item is
 * the field `ratings`; the shape generator's polygon and the random draws a
 * mode needs on start are parameters.
 */
module Game {
  import opened Common
  import opened Geometry
  import CutEngine
  import CutModes
  import FriendFoe
  import Rating
  import Ui

  // ---------------------------------------------------------------------------
  // Canvas fit
  // ---------------------------------------------------------------------------

  /** The aspect ratio the canvas keeps (the 800 x 600 design). */
  const TargetAspect: real := 4.0 / 3.0

  datatype Size = Size(width: real, height: real)

  /**
   * `resizeCanvas` on the container's inner width and height. A zero height
   * makes the quotient infinite (wider than 4:3) or, with a zero width too, NaN
   * (not wider); both end in a 0 x 0 canvas.
   */
  function Fit(maxWidth: real, maxHeight: real): Size
    requires maxWidth >= 0.0 && maxHeight >= 0.0
  {
    var wider := if maxHeight == 0.0 then maxWidth > 0.0 else maxWidth / maxHeight > TargetAspect;
    if wider then
      var height := maxHeight;
      Size(height * TargetAspect, height)
    else
      var width := maxWidth;
      Size(width, width / TargetAspect)
  }

  /**
   * The fitted canvas is 4:3, fits the box, touches it on one side, and is the
   * largest 4:3 rectangle that fits.
   */
  lemma FitSpec(maxWidth: real, maxHeight: real, other: Size)
    requires maxWidth >= 0.0 && maxHeight >= 0.0
    ensures var s := Fit(maxWidth, maxHeight);
            && 3.0 * s.width == 4.0 * s.height
            && 0.0 <= s.width <= maxWidth && 0.0 <= s.height <= maxHeight
            && (s.width == maxWidth || s.height == maxHeight)
            && (3.0 * other.width == 4.0 * other.height && other.width <= maxWidth && other.height <= maxHeight
                ==> other.width <= s.width)
  {
    var s := Fit(maxWidth, maxHeight);
    if maxHeight > 0.0 {
      if maxWidth / maxHeight > TargetAspect {
        assert maxWidth > TargetAspect * maxHeight by {
          assert maxWidth == (maxWidth / maxHeight) * maxHeight;
        }
      } else {
        assert maxWidth <= TargetAspect * maxHeight by {
          assert maxWidth == (maxWidth / maxHeight) * maxHeight;
        }
      }
    }
  }

  /** The canvas's pixel size: the fitted size rounded down (`Math.floor`). */
  function PixelSize(s: Size): (r: (int, int))
    requires s.width >= 0.0 && s.height >= 0.0
    ensures 0 <= r.0 && r.0 as real <= s.width < r.0 as real + 1.0
    ensures 0 <= r.1 && r.1 as real <= s.height < r.1 as real + 1.0
  {
    (s.width.Floor, s.height.Floor)
  }

  // ---------------------------------------------------------------------------
  // The mode registry
  // ---------------------------------------------------------------------------

  datatype ModeKind = CutKind | FriendFoeKind

  /** `registerModes`: the mode classes by name. */
  function Registry(): map<string, ModeKind>
  {
    map["cut" := CutKind, "friend-foe" := FriendFoeKind]
  }

  /** Exactly "cut" and "friend-foe" are registered, each with its own class. */
  lemma RegistryExact(name: string)
    ensures name in Registry() <==> name == "cut" || name == "friend-foe"
    ensures name in Registry() ==> (Registry()[name] == CutKind <==> name == "cut")
  {
  }

  /** The mode a game runs: none yet, a cut mode, or a friend-or-foe mode. */
  datatype Current = NoMode | Cut(cut: CutModes.CutMode) | Flags(flags: FriendFoe.FriendFoeMode)

  // ---------------------------------------------------------------------------
  // The manager
  // ---------------------------------------------------------------------------

  /** The length of a game, in seconds. */
  const GameSeconds: int := 300

  /** What `finishGame` hands to the results overlay. */
  datatype Results = Results(score: int, level: nat, elapsed: int)

  class GameManager {
    const ui: Ui.Ui
    var currentMode: Current
    var timeLeft: int
    /** Whether the one-second interval is set. */
    var running: bool
    var ratings: Rating.Stored
    /** The last results shown, if any. */
    var results: Option<Results>

    /** The objects of the current mode. */
    function ModeObjects(): set<object>
      reads this`currentMode
    {
      match currentMode
      case NoMode => {}
      case Cut(m) => {m, m.cutting}
      case Flags(m) => {m, m.cutting, m.flagSystem}
    }

    ghost predicate Valid()
      reads this`timeLeft, this`currentMode, ModeObjects(), ui
    {
      && 0 <= timeLeft <= GameSeconds
      && ui.Valid()
      && match currentMode
         case NoMode => true
         case Cut(m) => m.Valid()
         case Flags(m) => m.Valid()
    }

    constructor (ui: Ui.Ui, ratings: Rating.Stored)
      requires ui.Valid()
      ensures Valid() && this.ui == ui && currentMode == NoMode
      ensures timeLeft == GameSeconds && !running && this.ratings == ratings && results == None
    {
      this.ui := ui;
      currentMode := NoMode;
      timeLeft := GameSeconds;
      running := false;
      this.ratings := ratings;
      results := None;
    }

    /** The current mode's `cleanup`. */
    method CleanupMode()
      requires Valid()
      modifies ModeObjects()
      ensures Valid()
      ensures match currentMode
              case NoMode => true
              case Cut(m) => !m.isActive && m.cutting.shapes == []
              case Flags(m) => !m.isActive && m.cutting.shapes == [] && m.flagSystem.flags == []
    {
      match currentMode
      case NoMode =>
      case Cut(m) => m.Cleanup();
      case Flags(m) => m.Cleanup();
    }

    /**
     * `startGame`: the old mode is cleaned up; an unknown name stops there.
     * Otherwise a new mode of the registered class is initialised on the
     * generated shape. The cut mode defines `start`, so the timer starts; the
     * friend-or-foe mode does not, the inherited `start` throws, and the timer
     * is left as it was (an interval left over from an earlier game goes on).
     */
    method StartGame(name: string, shape: CutEngine.Shape, numFlags: nat, spots: seq<Point>, winds: seq<real>)
      requires Valid()
      requires numFlags <= |spots| && numFlags <= |winds|
      requires forall k :: 0 <= k < |winds| ==> 0.0 <= winds[k] < 1.0
      modifies this`currentMode, this`running, ModeObjects()
      ensures Valid() && timeLeft == old(timeLeft)
      ensures old(currentMode).Cut? ==> !old(currentMode).cut.isActive && old(currentMode).cut.cutting.shapes == []
      ensures old(currentMode).Flags? ==>
                && !old(currentMode).flags.isActive && old(currentMode).flags.cutting.shapes == []
                && old(currentMode).flags.flagSystem.flags == []
      ensures name !in Registry() ==> currentMode == old(currentMode) && running == old(running)
      ensures name == "cut" ==>
                && currentMode.Cut? && fresh(currentMode.cut)
                && currentMode.cut.variant == CutModes.Standard && currentMode.cut.isActive
                && currentMode.cut.cutting.shapes == [shape] && running
      ensures name == "friend-foe" ==>
                && currentMode.Flags? && fresh(currentMode.flags)
                && currentMode.flags.variant == FriendFoe.Standard && currentMode.flags.isActive
                && currentMode.flags.cutting.shapes == [shape]
                && running == old(running)
    {
      CleanupMode();
      if name !in Registry() {
        return;
      }
      if Registry()[name] == CutKind {
        var m := NewCutMode(shape);
        currentMode := Cut(m);
        running := true;
      } else {
        var m := NewFriendFoeMode(shape, numFlags, spots, winds);
        currentMode := Flags(m);
      }
    }

    /** `new CutMode()` followed by its `init`. */
    method NewCutMode(shape: CutEngine.Shape) returns (m: CutModes.CutMode)
      ensures fresh(m) && fresh(m.cutting) && m.Valid()
      ensures m.variant == CutModes.Standard && m.isActive && m.cutting.shapes == [shape]
    {
      m := new CutModes.CutMode(CutModes.Standard);
      m.Init(shape);
    }

    /** `new FriendFoeMode()` followed by its `init`. */
    method NewFriendFoeMode(shape: CutEngine.Shape, numFlags: nat, spots: seq<Point>, winds: seq<real>)
      returns (m: FriendFoe.FriendFoeMode)
      requires numFlags <= |spots| && numFlags <= |winds|
      requires forall k :: 0 <= k < |winds| ==> 0.0 <= winds[k] < 1.0
      ensures fresh(m) && fresh(m.cutting) && fresh(m.flagSystem) && m.Valid()
      ensures m.variant == FriendFoe.Standard && m.isActive && m.cutting.shapes == [shape]
    {
      m := new FriendFoe.FriendFoeMode(FriendFoe.Standard);
      var ok := m.Init(shape, numFlags, spots, winds);
    }

    /**
     * One second of the interval: one second less; at zero the time is clamped
     * and the game finishes; then the timer text shows the time left.
     */
    method Tick(nickname: string, date: string) returns (finished: bool)
      requires Valid() && running
      modifies this`timeLeft, this`running, this`ratings, this`results
      modifies ui`timerText, ui`warning, ui`finalTime, ui`overlayActive
      ensures Valid()
      ensures timeLeft == Max(0, old(timeLeft) - 1)
      ensures finished <==> old(timeLeft) <= 1
      ensures finished <==> !running
      ensures ui.hasTimer ==> ui.timerText == Ui.FormatTime(timeLeft)
      ensures !finished || currentMode == NoMode ==> ratings == old(ratings) && results == old(results)
      ensures !finished ==> ui.finalTime == old(ui.finalTime) && ui.overlayActive == old(ui.overlayActive)
      ensures finished && currentMode != NoMode ==>
                && results == Some(Results(ModeScore(), ModeLevel(), GameSeconds))
                && ratings == SavedUnderCut(old(ratings), Rating.Entry(nickname, ModeScore(), Some(date)))
      ensures finished && ui.hasFinalTime && currentMode != NoMode ==> ui.finalTime == Ui.FormatTime(GameSeconds)
    {
      var left := timeLeft - 1;
      finished := false;
      if left <= 0 {
        Expire(nickname, date);
        finished := true;
      } else {
        SetTimeLeft(left);
      }
      ui.UpdateTimer(timeLeft);
    }

    /** The last second of the countdown: the time left is clamped to zero and the game finishes. */
    method Expire(nickname: string, date: string)
      requires Valid()
      modifies this`timeLeft, this`running, this`ratings, this`results, ui`finalTime, ui`overlayActive
      ensures Valid() && timeLeft == 0 && !running
      ensures currentMode == NoMode ==> ratings == old(ratings) && results == old(results)
      ensures currentMode != NoMode ==>
                && results == Some(Results(ModeScore(), ModeLevel(), GameSeconds))
                && ratings == SavedUnderCut(old(ratings), Rating.Entry(nickname, ModeScore(), Some(date)))
      ensures ui.hasFinalTime && currentMode != NoMode ==> ui.finalTime == Ui.FormatTime(GameSeconds)
    {
      SetTimeLeft(0);
      FinishGame(nickname, date);
    }

    /** The countdown's assignment: the time left becomes t, which keeps the game state valid. */
    method SetTimeLeft(t: nat)
      requires Valid() && t <= GameSeconds
      modifies this`timeLeft
      ensures Valid() && timeLeft == t
    {
      timeLeft := t;
    }

    /**
     * `finishGame`: the timer stops; with a mode running, its score is saved
     * under "cut", and the results show the elapsed time. Only a timer started
     * by a cut game reaches this, though its interval may outlive that game.
     */
    method FinishGame(nickname: string, date: string)
      requires Valid()
      modifies this`running, this`ratings, this`results, ui`finalTime, ui`overlayActive
      ensures Valid() && !running
      ensures currentMode == NoMode ==> ratings == old(ratings) && results == old(results)
      ensures currentMode != NoMode ==>
                && results == Some(Results(old(ModeScore()), old(ModeLevel()), GameSeconds - old(timeLeft)))
                && ratings == SavedUnderCut(old(ratings), Rating.Entry(nickname, old(ModeScore()), Some(date)))
      ensures ui.hasFinalTime && currentMode != NoMode ==> ui.finalTime == Ui.FormatTime(GameSeconds - old(timeLeft))
    {
      var score, level, elapsed, stored := ModeScore(), ModeLevel(), GameSeconds - timeLeft, ratings;
      running := false;
      if currentMode == NoMode {
        return;
      }
      ratings := SaveScore(stored, nickname, score, date);
      ShowFinal(score, level, elapsed);
    }

    /** The saving step of `finishGame`: a new rating system over the item saves the score under "cut". */
    method SaveScore(stored: Rating.Stored, nickname: string, score: int, date: string) returns (after: Rating.Stored)
      ensures after == SavedUnderCut(stored, Rating.Entry(nickname, score, Some(date)))
    {
      var ratingSystem := new Rating.RatingSystem(stored);
      var saved := ratingSystem.SaveRating("cut", nickname, score, date);
      after := ratingSystem.stored;
    }

    /** The reporting step of `finishGame`: the results are kept and `showResults` displays the elapsed time. */
    method ShowFinal(score: int, level: nat, elapsed: nat)
      requires Valid()
      modifies this`results, ui`finalTime, ui`overlayActive
      ensures Valid()
      ensures results == Some(Results(score, level, elapsed))
      ensures ui.hasFinalTime ==> ui.finalTime == Ui.FormatTime(elapsed)
    {
      results := Some(Results(score, level, elapsed));
      ui.ShowResults(elapsed);
    }

    /** The score and level in the current mode's game state. */
    function ModeScore(): int
      reads this`currentMode, ModeObjects()
    {
      match currentMode
      case NoMode => 0
      case Cut(m) => m.score
      case Flags(m) => m.score
    }

    function ModeLevel(): nat
      reads this`currentMode, ModeObjects()
    {
      match currentMode
      case NoMode => 0
      case Cut(m) => m.level
      case Flags(m) => m.level
    }

    /**
     * `restartLevel`: only the friend-or-foe mode defines it; the cut modes
     * ignore the request.
     */
    method RestartLevel(shape: CutEngine.Shape, numFlags: nat, spots: seq<Point>, winds: seq<real>) returns (restarted: bool)
      requires Valid()
      requires numFlags <= |spots| && numFlags <= |winds|
      requires currentMode.Flags? && currentMode.flags.initialFlags.Some? ==>
                 |currentMode.flags.initialFlags.value| <= |winds|
      requires forall k :: 0 <= k < |winds| ==> 0.0 <= winds[k] < 1.0
      modifies ModeObjects()
      ensures Valid()
      ensures restarted <==> currentMode.Flags?
      ensures currentMode.Cut? ==> unchanged(currentMode.cut, currentMode.cut.cutting)
      ensures currentMode.Flags? ==>
                var m := currentMode.flags;
                && m.cutsMade == 0 && !m.isComplete && m.score == old(m.score) && m.level == old(m.level)
                && (old(m.initialShape).Some? && old(m.initialFlags).Some? ==>
                      && m.cutting.shapes == [old(m.initialShape).value]
                      && FriendFoe.DataOf(m.flagSystem.flags) == old(m.initialFlags).value
                      && m.maxCuts == old(m.maxCuts) && m.targetTeams == old(m.targetTeams)
                      && m.ConflictsUpToDate())
    {
      restarted := false;
      if currentMode.Flags? {
        var ok := currentMode.flags.RestartLevel(shape, numFlags, spots, winds);
        restarted := true;
      }
    }
  }

  /** The storage after the finish: the rating system initialises the item, then saves the entry under "cut". */
  function SavedUnderCut(stored: Rating.Stored, e: Rating.Entry): Rating.Stored
  {
    Rating.AfterSave(Rating.Initialised(stored), "cut", e)
  }

  /**
   * Finishing a game leaves a table unless the item is an array or unreadable,
   * which stay as they were. The table keeps every other mode's list and
   * holds at most ten entries under "cut", sorted by descending score.
   */
  lemma FinishSavesUnderCut(stored: Rating.Stored, e: Rating.Entry, other: string)
    requires other != "cut"
    ensures SavedUnderCut(stored, e).Table? <==> stored != Rating.Garbled && stored != Rating.ArrayItem
    ensures !SavedUnderCut(stored, e).Table? ==> SavedUnderCut(stored, e) == stored
    ensures SavedUnderCut(stored, e).Table? ==>
            var before := if stored.Table? then stored.lists else map[];
            var after := SavedUnderCut(stored, e).lists;
            && (other in after <==> other in before)
            && (other in before ==> after[other] == before[other])
            && "cut" in after && |after["cut"]| <= Rating.MaxEntries
            && (forall i, j :: 0 <= i < j < |after["cut"]| ==> after["cut"][i].score >= after["cut"][j].score)
  {
    var init := Rating.Initialised(stored);
    Rating.SavedShape(Rating.ListOf(init, "cut"), e);
  }
}

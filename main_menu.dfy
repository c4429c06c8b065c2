/**
 * The main menu of js/main.js: the nickname form, the mode buttons and the
 * start button. The browser's storage items `game_nickname` and `game_mode`
 * are the fields `savedNickname` and `savedMode`; navigation to the game page
 * is the flag `navigated`; the nickname input box is the field `input`.
 */
module MainMenu {
  import opened Common
  import opened Text
  import Rating

  const MinNickname: nat := 3
  const MaxNickname: nat := 20

  // ---------------------------------------------------------------------------
  // Nickname validation
  // ---------------------------------------------------------------------------

  /** The verdicts of `saveNickname`, in the order it checks them. */
  datatype Verdict = Accepted | EmptyName | TooShort | TooLong

  /** `saveNickname`'s checks on the trimmed input: empty, then shorter than 3, then longer than 20. */
  function CheckNickname(raw: string): Verdict
  {
    var name := Trim(raw);
    if name == [] then EmptyName
    else if |name| < MinNickname then TooShort
    else if |name| > MaxNickname then TooLong
    else Accepted
  }

  /** The status line `showStatus` shows for a verdict. */
  function StatusMessage(v: Verdict): string
  {
    match v
    case Accepted => "Никнейм сохранён!"
    case EmptyName => "Введите никнейм"
    case TooShort => "Никнейм должен быть минимум 3 символа"
    case TooLong => "Никнейм должен быть не более 20 символов"
  }

  /** Each verdict in terms of the input: a name is accepted exactly when 3 to 20 characters remain after trimming. */
  lemma NicknameVerdicts(raw: string)
    ensures CheckNickname(raw) == EmptyName <==> AllSpace(raw)
    ensures CheckNickname(raw) == TooShort <==> 0 < |Trim(raw)| < MinNickname
    ensures CheckNickname(raw) == TooLong <==> |Trim(raw)| > MaxNickname
    ensures CheckNickname(raw) == Accepted <==> MinNickname <= |Trim(raw)| <= MaxNickname
  {
    TrimEmpty(raw);
  }

  /** An accepted nickname is its own trimmed form, so saving it again accepts the same name. */
  lemma AcceptedNicknameStable(raw: string)
    requires CheckNickname(raw) == Accepted
    ensures CheckNickname(Trim(raw)) == Accepted && Trim(Trim(raw)) == Trim(raw)
  {
    TrimIdempotent(raw);
  }

  // ---------------------------------------------------------------------------
  // Mode names
  // ---------------------------------------------------------------------------

  const UnknownModeName: string := "Неизвестный режим"

  /** `getModeName`. */
  function GetModeName(mode: string): string
  {
    if mode == "cut" then "Разрежь на части"
    else if mode == "friend-foe" then "Свой-чужой"
    else if mode == "coming-soon" then "Скоро..."
    else UnknownModeName
  }

  /** Exactly the three known modes have a name of their own, and no two share it. */
  lemma ModeNames(a: string, b: string)
    ensures GetModeName(a) != UnknownModeName <==> a in ["cut", "friend-foe", "coming-soon"]
    ensures GetModeName(a) != UnknownModeName && GetModeName(a) == GetModeName(b) ==> a == b
  {
  }

  /** The title `selectMode` gives the rating table: its own name list, else the mode itself. */
  function RatingTitle(mode: string): string
  {
    if mode == "cut" then "Разрежь на части"
    else if mode == "future" then "Будущий режим"
    else mode
  }

  /** Only "cut" and "future" are renamed; the title and `getModeName` agree on "cut" alone (and the odd mode named like the fallback). */
  lemma RatingTitleKeepsOthers(mode: string)
    ensures mode != "cut" && mode != "future" ==> RatingTitle(mode) == mode
    ensures RatingTitle(mode) == GetModeName(mode) <==> mode == "cut" || mode == UnknownModeName
  {
  }

  // ---------------------------------------------------------------------------
  // The menu
  // ---------------------------------------------------------------------------

  /** The start button is disabled when no nickname is typed or saved, or no mode is chosen. */
  predicate StartDisabled(input: string, nickname: string, mode: string)
  {
    (Trim(input) == [] && nickname == []) || mode == []
  }

  class Menu {
    var currentMode: string
    var nickname: string
    var input: string
    var startDisabled: bool
    var status: string
    var savedNickname: Option<string>
    var savedMode: Option<string>
    var navigated: bool
    /** The leaderboard item as the menu's rating system leaves it. */
    var ratings: Rating.Stored

    /**
     * The constructor with `init`'s `updateUI`: the saved nickname (or "") is
     * loaded and shown in the input box when there is one, and the rating
     * system it creates initialises the leaderboard item.
     */
    constructor (saved: Option<string>, typed: string, found: Rating.Stored)
      ensures currentMode == "cut" && savedNickname == saved && savedMode == None && !navigated
      ensures ratings == Rating.Initialised(found)
      ensures nickname == if saved.Some? then saved.value else ""
      ensures input == if nickname != [] then nickname else typed
      ensures startDisabled <==> StartDisabled(input, nickname, currentMode)
    {
      currentMode := "cut";
      nickname := if saved.Some? then saved.value else "";
      savedNickname := saved;
      savedMode := None;
      navigated := false;
      status := "";
      input := typed;
      new;
      var ratingSystem := new Rating.RatingSystem(found);
      ratings := ratingSystem.stored;
      if nickname != [] {
        input := nickname;
      }
      UpdateStartButton();
    }

    /** `updateStartButton`. */
    method UpdateStartButton()
      modifies this`startDisabled
      ensures startDisabled <==> StartDisabled(input, nickname, currentMode)
    {
      var name := Trim(input);
      if name == [] {
        name := nickname;
      }
      startDisabled := name == [] || currentMode == [];
    }

    /** Typing into the nickname box (its `input` listener). */
    method Type(text: string)
      modifies this`input, this`startDisabled
      ensures input == text
      ensures startDisabled <==> StartDisabled(text, nickname, currentMode)
    {
      input := text;
      UpdateStartButton();
    }

    /** `saveNickname`: a rejected name leaves the nickname and its storage as they were. */
    method SaveNickname() returns (verdict: Verdict)
      modifies this`nickname, this`savedNickname, this`status, this`startDisabled
      ensures verdict == CheckNickname(input) && status == StatusMessage(verdict)
      ensures verdict == Accepted ==> nickname == Trim(input) && savedNickname == Some(Trim(input))
      ensures verdict != Accepted ==> nickname == old(nickname) && savedNickname == old(savedNickname)
      ensures verdict != Accepted ==> startDisabled == old(startDisabled)
      ensures verdict == Accepted ==> (startDisabled <==> currentMode == [])
    {
      var name := Trim(input);
      if name == [] {
        verdict := EmptyName;
      } else if |name| < 3 {
        verdict := TooShort;
      } else if |name| > 20 {
        verdict := TooLong;
      } else {
        verdict := Accepted;
        nickname := name;
        savedNickname := Some(name);
        UpdateStartButton();
      }
      status := StatusMessage(verdict);
    }

    /** `selectMode`: the placeholder "coming-soon" button does nothing. */
    method SelectMode(mode: string)
      modifies this`currentMode, this`startDisabled
      ensures mode == "coming-soon" ==> currentMode == old(currentMode) && startDisabled == old(startDisabled)
      ensures mode != "coming-soon" ==>
                && currentMode == mode
                && (startDisabled <==> StartDisabled(input, nickname, mode))
    {
      if mode == "coming-soon" {
        return;
      }
      currentMode := mode;
      UpdateStartButton();
    }

    /** `startGame`: without a saved nickname it only shows a status line. */
    method StartGame()
      modifies this`savedMode, this`navigated, this`status
      ensures nickname == [] ==>
                && savedMode == old(savedMode) && navigated == old(navigated)
                && status == "Сначала сохраните никнейм"
      ensures nickname != [] ==> savedMode == Some(currentMode) && navigated && status == old(status)
    {
      if nickname == [] {
        status := "Сначала сохраните никнейм";
        return;
      }
      savedMode := Some(currentMode);
      navigated := true;
    }
  }
}

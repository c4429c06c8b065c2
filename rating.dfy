/**
 * The top-10 leaderboard of js/rating-system.js. The browser's storage item
 * `game_ratings` is the field `stored`; the JSON text it holds is absent, empty,
 * falsy JSON, a JSON array, some other text that is no ratings object, or a
 * table from mode name to entry list.
 */
module Rating {
  import opened Common
  import opened Sequences

  /** How many entries a mode's list keeps. */
  const MaxEntries: nat := 10

  /** The mode every default list is stored under. */
  const DefaultMode: string := "cut"

  /** One leaderboard entry; the sample entries carry no date. */
  datatype Entry = Entry(nickname: string, score: int, date: Option<string>)

  /**
   * The storage item: missing; the empty string; JSON text of a falsy value
   * (`null`, `0`, `false`, `""`); JSON text of an array; any other text that is
   * no ratings object (it does not parse, or parses to a truthy primitive); or
   * a parsed table.
   */
  datatype Stored = Missing | Blank | Falsy | ArrayItem | Garbled | Table(lists: map<string, seq<Entry>>)

  /** The comparator `(a, b) => b.score - a.score` read as "a may come before b". */
  function ScoreOrder(a: Entry, b: Entry): bool
  {
    b.score - a.score <= 0
  }

  lemma ScoreOrderTotal()
    ensures TotalPreorder(ScoreOrder)
  {
  }

  // ---------------------------------------------------------------------------
  // Saving
  // ---------------------------------------------------------------------------

  /** At most the first n elements of s (`slice(0, n)`). */
  function Take<T>(s: seq<T>, n: nat): (r: seq<T>)
    ensures |r| == Min(n, |s|) && r == s[..|r|]
  {
    if |s| <= n then s else s[..n]
  }

  /** A mode's list after `saveRating`: push the entry, stable sort by descending score, keep ten. */
  function Saved(list: seq<Entry>, e: Entry): seq<Entry>
  {
    Take(InsertionSort(list + [e], ScoreOrder), MaxEntries)
  }

  /**
   * A saved list holds at most ten entries, sorted by descending score, each of
   * them the new entry or one of the old list.
   */
  lemma SavedShape(list: seq<Entry>, e: Entry)
    ensures |Saved(list, e)| == Min(MaxEntries, |list| + 1)
    ensures forall i, j :: 0 <= i < j < |Saved(list, e)| ==> Saved(list, e)[i].score >= Saved(list, e)[j].score
    ensures forall x :: x in Saved(list, e) ==> x == e || x in list
  {
    var sorted := InsertionSort(list + [e], ScoreOrder);
    ScoreOrderTotal();
    InsertionSortSorted(list + [e], ScoreOrder);
    InsertionSortPermutes(list + [e], ScoreOrder);
    var r := Saved(list, e);
    forall i, j | 0 <= i < j < |r|
      ensures r[i].score >= r[j].score
    {
      assert ScoreOrder(sorted[i], sorted[j]);
    }
    forall x | x in r
      ensures x == e || x in list
    {
      assert x in multiset(sorted);
      assert x in multiset(list + [e]);
    }
  }

  /**
   * On a sorted list the new entry goes right after the k entries whose score is
   * at least its own, so it survives exactly when k < 10; otherwise the list is
   * its old first ten.
   */
  lemma SavedPosition(list: seq<Entry>, e: Entry)
    requires SortedBy(list, ScoreOrder)
    ensures var k := CountBefore(list, e, ScoreOrder);
            && (forall i :: 0 <= i < |list| ==> (list[i].score >= e.score <==> i < k))
            && Saved(list, e) == Take(list[..k] + [e] + list[k..], MaxEntries)
            && (k < MaxEntries ==> Saved(list, e)[k] == e && Saved(list, e)[..k] == list[..k])
            && (k >= MaxEntries ==> Saved(list, e) == list[..MaxEntries])
  {
    ScoreOrderTotal();
    PushThenSort(list, e, ScoreOrder);
    CountBeforePrefix(list, e, ScoreOrder);
    var k := CountBefore(list, e, ScoreOrder);
    var inserted := list[..k] + [e] + list[k..];
    assert Saved(list, e) == Take(inserted, MaxEntries);
    if k < MaxEntries {
      assert inserted[k] == e && inserted[..k] == list[..k];
    } else {
      assert inserted[..MaxEntries] == list[..MaxEntries];
    }
  }

  // ---------------------------------------------------------------------------
  // Lookups
  // ---------------------------------------------------------------------------

  /** The entry list `getRatings` returns: empty for an unknown mode or unreadable storage. */
  function ListOf(stored: Stored, mode: string): (r: seq<Entry>)
    ensures stored.Table? && mode in stored.lists ==> r == stored.lists[mode]
    ensures !(stored.Table? && mode in stored.lists) ==> r == []
  {
    if stored.Table? && mode in stored.lists then stored.lists[mode] else []
  }

  /** No entry before index i has the nickname. */
  predicate FirstOf(list: seq<Entry>, nickname: string, i: nat)
    requires i <= |list|
  {
    forall j :: 0 <= j < i ==> list[j].nickname != nickname
  }

  /** `find` by nickname: the score of the first entry with it, or 0. */
  function FirstScore(list: seq<Entry>, nickname: string): (s: int)
    ensures (forall i :: 0 <= i < |list| ==> list[i].nickname != nickname) ==> s == 0
    ensures forall i :: 0 <= i < |list| && list[i].nickname == nickname && FirstOf(list, nickname, i) ==> s == list[i].score
  {
    if list == [] then 0
    else if list[0].nickname == nickname then list[0].score
    else
      var s := FirstScore(list[1..], nickname);
      assert (forall i :: 0 <= i < |list| ==> list[i].nickname != nickname) ==> s == 0 by {
        assert forall i :: 1 <= i < |list| ==> list[1..][i - 1] == list[i];
      }
      assert forall i :: 0 <= i < |list| && list[i].nickname == nickname && FirstOf(list, nickname, i) ==> s == list[i].score by {
        forall i | 0 <= i < |list| && list[i].nickname == nickname && FirstOf(list, nickname, i)
          ensures s == list[i].score
        {
          assert list[1..][i - 1] == list[i];
          assert FirstOf(list[1..], nickname, i - 1);
        }
      }
      s
  }

  /** On a list sorted by descending score the first entry of a player holds the player's best score. */
  lemma {:induction false} FirstScoreIsBest(list: seq<Entry>, nickname: string)
    requires SortedBy(list, ScoreOrder)
    ensures forall i :: 0 <= i < |list| && list[i].nickname == nickname ==> list[i].score <= FirstScore(list, nickname)
  {
    if list != [] && list[0].nickname != nickname {
      assert SortedBy(list[1..], ScoreOrder);
      FirstScoreIsBest(list[1..], nickname);
      assert forall i :: 1 <= i < |list| ==> list[1..][i - 1] == list[i];
    } else if list != [] {
      assert forall i :: 0 < i < |list| ==> ScoreOrder(list[0], list[i]);
    }
  }

  // ---------------------------------------------------------------------------
  // Sample data
  // ---------------------------------------------------------------------------

  /** The literal of `generateSampleRatings`, before its sort. */
  function SampleLiteral(): seq<Entry>
  {
    [ Entry("Профи", 12500, None), Entry("Мастер", 9800, None), Entry("Новичок", 6500, None),
      Entry("Игрок", 4200, None), Entry("Начинающий", 2500, None), Entry("Тестер", 1800, None),
      Entry("Гость", 1200, None), Entry("Ученик", 800, None), Entry("Посетитель", 500, None),
      Entry("Новичок", 200, None) ]
  }

  /** `generateSampleRatings`: the literal, sorted by descending score. */
  function SampleRatings(): seq<Entry>
  {
    InsertionSort(SampleLiteral(), ScoreOrder)
  }

  /** Scores falling from each entry to the next fall from every entry to every later one. */
  lemma {:induction false} StepwiseDescending(s: seq<Entry>)
    requires forall i :: 0 < i < |s| ==> s[i - 1].score > s[i].score
    ensures forall i, j :: 0 <= i < j < |s| ==> s[i].score > s[j].score
  {
    if |s| > 1 {
      StepwiseDescending(s[1..]);
      assert forall j :: 1 <= j < |s| ==> s[1..][j - 1] == s[j];
      assert forall j :: 1 < j < |s| ==> s[1].score > s[j].score;
    }
  }

  /** The sample list has ten entries, already in descending score order, so the sort keeps the literal. */
  lemma SampleRatingsSorted()
    ensures |SampleRatings()| == MaxEntries
    ensures SampleRatings() == SampleLiteral()
    ensures forall i, j :: 0 <= i < j < |SampleRatings()| ==> SampleRatings()[i].score > SampleRatings()[j].score
  {
    var s := SampleLiteral();
    assert forall i :: 0 < i < |s| ==> s[i - 1].score > s[i].score;
    StepwiseDescending(s);
    assert SortedBy(s, ScoreOrder);
    InsertionSortOfSorted(s, ScoreOrder);
  }

  /** The storage `initStorage` writes: the sample list under the default mode. */
  function DefaultStored(): Stored
  {
    Table(map[DefaultMode := SampleRatings()])
  }

  /** The item after `initStorage`: a missing or empty item becomes the default board. */
  function Initialised(found: Stored): Stored
  {
    if found == Missing || found == Blank then DefaultStored() else found
  }

  /**
   * The item after `saveRating` of entry e under mode. `JSON.parse` throws on an
   * empty or unreadable item, and the property assignment throws on a truthy
   * primitive, so those stay. A missing item and falsy JSON become `{}`, and a
   * table gets the saved list under mode. On an array the list becomes an array
   * property that `JSON.stringify` drops, so the same array is written back.
   */
  function AfterSave(stored: Stored, mode: string, e: Entry): Stored
  {
    if stored.Table? || stored == Missing || stored == Falsy then
      var lists := if stored.Table? then stored.lists else map[];
      Table(lists[mode := Saved(ListOf(stored, mode), e)])
    else stored
  }

  // ---------------------------------------------------------------------------
  // The rating system
  // ---------------------------------------------------------------------------

  class RatingSystem {
    var stored: Stored

    /** The constructor over the storage item as found: it initialises it. */
    constructor (found: Stored)
      ensures stored == Initialised(found)
    {
      stored := found;
      new;
      InitStorage();
    }

    /** `initStorage`: defaults only when the item is missing or empty. */
    method InitStorage()
      modifies this`stored
      ensures stored == Initialised(old(stored))
    {
      if stored == Missing || stored == Blank {
        stored := DefaultStored();
      }
    }

    /** `getRatings`. */
    function GetRatings(mode: string): (r: seq<Entry>)
      reads this
      ensures r == ListOf(stored, mode)
    {
      match stored
      case Table(lists) => if mode in lists then lists[mode] else []
      case _ => []
    }

    /** `getPlayerBestScore`. */
    function GetPlayerBestScore(mode: string, nickname: string): (s: int)
      reads this
      ensures s == FirstScore(ListOf(stored, mode), nickname)
    {
      FirstScore(GetRatings(mode), nickname)
    }

    /**
     * `saveRating` with the timestamp `new Date().toISOString()` as date: it
     * reports failure exactly where the source throws (an empty or unreadable
     * item), and leaves the item AfterSave describes.
     */
    method SaveRating(mode: string, nickname: string, score: int, date: string) returns (ok: bool)
      modifies this`stored
      ensures ok <==> old(stored) != Blank && old(stored) != Garbled
      ensures stored == AfterSave(old(stored), mode, Entry(nickname, score, Some(date)))
    {
      if stored == Blank || stored == Garbled {
        return false;
      }
      if stored == ArrayItem {
        return true;
      }
      var e := Entry(nickname, score, Some(date));
      var lists := if stored.Table? then stored.lists else map[];
      var list := ListOf(stored, mode);
      list := list + [e];
      list := Sort(list, ScoreOrder);
      list := Take(list, MaxEntries);
      assert list == Saved(ListOf(stored, mode), e);
      stored := Table(lists[mode := list]);
      return true;
    }

    /** `clearRatings`: the item is removed and initialised again. */
    method ClearRatings()
      modifies this`stored
      ensures stored == DefaultStored()
    {
      stored := Missing;
      InitStorage();
    }
  }

  /**
   * A save leaves a table exactly when the item is missing, falsy JSON or a
   * table, and otherwise leaves the item as it was. The table keeps every other
   * mode's list and holds under the saved mode the old list with the entry
   * pushed, sorted by descending score and cut to ten.
   */
  lemma SaveKeepsOtherModes(before: Stored, mode: string, e: Entry, other: string)
    requires other != mode
    ensures var after := AfterSave(before, mode, e);
            && (after.Table? <==> before == Missing || before == Falsy || before.Table?)
            && (!after.Table? ==> after == before)
            && (after.Table? ==>
                  && ListOf(after, other) == ListOf(before, other)
                  && mode in after.lists && ListOf(after, mode) == Saved(ListOf(before, mode), e)
                  && |ListOf(after, mode)| <= MaxEntries
                  && forall i, j :: 0 <= i < j < |ListOf(after, mode)| ==>
                       ListOf(after, mode)[i].score >= ListOf(after, mode)[j].score)
  {
    SavedShape(ListOf(before, mode), e);
  }
}

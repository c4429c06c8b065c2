/**
 * The parts of js/ui-manager.js that hold logic: the mm:ss timer text and its
 * warning class, the elapsed time on the results overlay, and the task plates,
 * a map from plate id to label, value and type whose elements the container
 * shows in creation order. Whether each page element exists is a constant.
 */
module Ui {
  import opened Common
  import opened Sequences
  import opened Text

  // ---------------------------------------------------------------------------
  // Time text
  // ---------------------------------------------------------------------------

  /** Seconds at or below which the timer carries the `warning` class. */
  const WarningSeconds: nat := 30

  /** The text `updateTimer` and `showResults` write: two-digit minutes and seconds, at least. */
  function FormatTime(seconds: nat): string
  {
    Pad2(NatToString(seconds / 60)) + ":" + Pad2(NatToString(seconds % 60))
  }

  /** A number below 100 prints with at most two digits. */
  lemma ShortNumeral(n: nat)
    requires n < 100
    ensures |NatToString(n)| <= 2
  {
    if n >= 10 {
      assert n / 10 < 10;
    }
  }

  /** Minutes text, ':' and a two-character seconds text split back at the third character from the end. */
  lemma ColonSplit(mm: string, ss: string)
    requires |ss| == 2
    ensures var t := mm + ":" + ss;
            |t| == |mm| + 3 && t[|t| - 3] == ':' && t[..|t| - 3] == mm && t[|t| - 2..] == ss
  {
    var t := mm + ":" + ss;
    assert t[..|t| - 3] == mm;
    assert t[|t| - 2..] == ss;
  }

  /**
   * The time text reads back as the same number of seconds: the part before
   * the last ':' is the minutes, the two characters after it the seconds below 60.
   */
  lemma FormatTimeParses(seconds: nat)
    ensures var t := FormatTime(seconds);
            && |t| >= 5 && t[|t| - 3] == ':'
            && AllDigits(t[..|t| - 3]) && AllDigits(t[|t| - 2..])
            && ParseDecimal(t[|t| - 2..]) < 60
            && ParseDecimal(t[..|t| - 3]) * 60 + ParseDecimal(t[|t| - 2..]) == seconds
  {
    var m, s := seconds / 60, seconds % 60;
    assert m * 60 + s == seconds;
    var mm, ss := Pad2(NatToString(m)), Pad2(NatToString(s));
    ShortNumeral(s);
    Pad2Value(NatToString(m));
    Pad2Value(NatToString(s));
    ParsePrinted(m);
    ParsePrinted(s);
    assert ParseDecimal(mm) == m && ParseDecimal(ss) == s && |ss| == 2;
    ColonSplit(mm, ss);
  }

  /** Below 100 minutes the text is exactly five characters, mm:ss. */
  lemma FormatTimeWidth(seconds: nat)
    requires seconds < 6000
    ensures |FormatTime(seconds)| == 5
  {
    ShortNumeral(seconds / 60);
    ShortNumeral(seconds % 60);
    Pad2Value(NatToString(seconds / 60));
    Pad2Value(NatToString(seconds % 60));
  }

  // ---------------------------------------------------------------------------
  // Task plates
  // ---------------------------------------------------------------------------

  /** One plate: its label text, value text and `data-type`. */
  datatype Plate = Plate(labelText: string, value: string, kind: string)

  /** What `updateTaskPlates` receives for one plate; an empty type stands for a missing one. */
  datatype PlateData = PlateData(id: string, labelText: string, value: string, kind: string)

  /**
   * A plate after `updateTaskPlate`: label and value are replaced; the type is
   * replaced when one is given, and a new plate without one is "default".
   */
  function Upserted(plates: map<string, Plate>, d: PlateData): (r: map<string, Plate>)
    ensures r.Keys == plates.Keys + {d.id}
  {
    var kind :=
      if d.kind != "" then d.kind
      else if d.id in plates then plates[d.id].kind
      else "default";
    plates[d.id := Plate(d.labelText, d.value, kind)]
  }

  /** Upserting touches only its own plate and keeps the type unless a new one is given. */
  lemma UpsertedSpec(plates: map<string, Plate>, d: PlateData, other: string)
    ensures d.id in Upserted(plates, d)
    ensures Upserted(plates, d)[d.id].labelText == d.labelText && Upserted(plates, d)[d.id].value == d.value
    ensures d.kind != "" ==> Upserted(plates, d)[d.id].kind == d.kind
    ensures d.kind == "" && d.id in plates ==> Upserted(plates, d)[d.id].kind == plates[d.id].kind
    ensures d.kind == "" && d.id !in plates ==> Upserted(plates, d)[d.id].kind == "default"
    ensures other != d.id ==> (other in Upserted(plates, d) <==> other in plates)
    ensures other != d.id && other in plates ==> Upserted(plates, d)[other] == plates[other]
  {
  }

  /** `updateTaskPlates`: the plates in the order of the object's entries. */
  function UpsertedAll(plates: map<string, Plate>, ds: seq<PlateData>): map<string, Plate>
    decreases |ds|
  {
    if ds == [] then plates else UpsertedAll(Upserted(plates, ds[0]), ds[1..])
  }

  /** After a batch exactly the old plates and the batch's ids exist; a plate no entry names is untouched. */
  lemma {:induction false} UpsertedAllKeys(plates: map<string, Plate>, ds: seq<PlateData>, id: string)
    ensures id in UpsertedAll(plates, ds) <==> id in plates || exists k :: 0 <= k < |ds| && ds[k].id == id
    ensures (forall k :: 0 <= k < |ds| ==> ds[k].id != id) && id in plates ==> UpsertedAll(plates, ds)[id] == plates[id]
    decreases |ds|
  {
    if ds != [] {
      UpsertedAllKeys(Upserted(plates, ds[0]), ds[1..], id);
      if exists k :: 0 <= k < |ds[1..]| && ds[1..][k].id == id {
        var k :| 0 <= k < |ds[1..]| && ds[1..][k].id == id;
        assert ds[k + 1].id == id;
      }
      if exists k :: 0 <= k < |ds| && ds[k].id == id {
        var k :| 0 <= k < |ds| && ds[k].id == id;
        if k > 0 {
          assert ds[1..][k - 1].id == id;
        }
      }
    }
  }

  /** The plate ids a batch appends to the container: each id not yet shown, at its first entry, in batch order. */
  function NewIds(plates: map<string, Plate>, ds: seq<PlateData>): seq<string>
    decreases |ds|
  {
    if ds == [] then []
    else (if ds[0].id in plates then [] else [ds[0].id]) + NewIds(Upserted(plates, ds[0]), ds[1..])
  }

  /** Appending a batch's new ids is appending its first entry's, then the rest's. */
  lemma NewIdsAppend(shown: seq<string>, plates: map<string, Plate>, ds: seq<PlateData>)
    requires ds != []
    ensures shown + NewIds(plates, ds)
         == (shown + (if ds[0].id in plates then [] else [ds[0].id])) + NewIds(Upserted(plates, ds[0]), ds[1..])
  {
  }

  /** A batch appends exactly the ids it names that had no plate, each once. */
  lemma {:induction false} NewIdsSpec(plates: map<string, Plate>, ds: seq<PlateData>, id: string)
    ensures id in NewIds(plates, ds) <==> id !in plates && exists k :: 0 <= k < |ds| && ds[k].id == id
    ensures NoDuplicates(NewIds(plates, ds))
    ensures forall x :: x in NewIds(plates, ds) ==> x !in plates
    decreases |ds|
  {
    if ds != [] {
      var p := Upserted(plates, ds[0]);
      var head := if ds[0].id in plates then [] else [ds[0].id];
      var rest := NewIds(p, ds[1..]);
      NewIdsSpec(p, ds[1..], id);
      assert NewIds(plates, ds) == head + rest;
      if exists k :: 0 <= k < |ds[1..]| && ds[1..][k].id == id {
        var k :| 0 <= k < |ds[1..]| && ds[1..][k].id == id;
        assert ds[k + 1].id == id;
      }
      if exists k :: 0 <= k < |ds| && ds[k].id == id {
        var k :| 0 <= k < |ds| && ds[k].id == id;
        if k > 0 {
          assert ds[1..][k - 1].id == id;
        }
      }
      forall i, j | 0 <= i < j < |head + rest|
        ensures (head + rest)[i] != (head + rest)[j]
      {
        if i < |head| {
          assert (head + rest)[j] == rest[j - |head|];
          assert rest[j - |head|] in rest;
        }
      }
    }
  }

  class Ui {
    const hasTimer: bool
    const hasTaskContainer: bool
    const hasFinalTime: bool
    const hasOverlay: bool
    var timerText: string
    var warning: bool
    var finalTime: string
    var overlayActive: bool
    var plates: map<string, Plate>
    /** The plate elements in the task container, in the order they were appended. */
    var shown: seq<string>

    /** Each plate is shown once, and the container shows exactly the plates of the map. */
    ghost predicate Valid()
      reads this
    {
      && NoDuplicates(shown)
      && (forall id :: id in plates <==> id in shown)
    }

    constructor (hasTimer: bool, hasTaskContainer: bool, hasFinalTime: bool, hasOverlay: bool)
      ensures Valid() && plates == map[] && shown == [] && !warning && !overlayActive
      ensures this.hasTimer == hasTimer && this.hasTaskContainer == hasTaskContainer
      ensures this.hasFinalTime == hasFinalTime && this.hasOverlay == hasOverlay
    {
      this.hasTimer := hasTimer;
      this.hasTaskContainer := hasTaskContainer;
      this.hasFinalTime := hasFinalTime;
      this.hasOverlay := hasOverlay;
      timerText := "";
      warning := false;
      finalTime := "";
      overlayActive := false;
      plates := map[];
      shown := [];
    }

    /** `updateTimer`: nothing without the timer element. */
    method UpdateTimer(seconds: nat)
      requires Valid()
      modifies this`timerText, this`warning
      ensures Valid()
      ensures !hasTimer ==> timerText == old(timerText) && warning == old(warning)
      ensures hasTimer ==> timerText == FormatTime(seconds) && (warning <==> seconds <= WarningSeconds)
    {
      if !hasTimer {
        return;
      }
      var minutes := seconds / 60;
      var secs := seconds % 60;
      timerText := Pad2(NatToString(minutes)) + ":" + Pad2(NatToString(secs));
      if seconds <= 30 {
        warning := true;
      } else {
        warning := false;
      }
    }

    /** `showResults` (the time and the overlay; the title, score and level texts are plain copies). */
    method ShowResults(timeSeconds: nat)
      requires Valid()
      modifies this`finalTime, this`overlayActive
      ensures Valid()
      ensures finalTime == if hasFinalTime then FormatTime(timeSeconds) else old(finalTime)
      ensures overlayActive == (old(overlayActive) || hasOverlay)
    {
      if hasFinalTime {
        var minutes := timeSeconds / 60;
        var seconds := timeSeconds % 60;
        finalTime := Pad2(NatToString(minutes)) + ":" + Pad2(NatToString(seconds));
      }
      if hasOverlay {
        overlayActive := true;
      }
    }

    /** `updateTaskPlate`: nothing without the container; a plate is created and appended only once. */
    method UpdateTaskPlate(d: PlateData)
      requires Valid()
      modifies this`plates, this`shown
      ensures Valid()
      ensures !hasTaskContainer ==> plates == old(plates) && shown == old(shown)
      ensures hasTaskContainer ==> plates == Upserted(old(plates), d)
      ensures hasTaskContainer ==> shown == old(shown) + (if d.id in old(plates) then [] else [d.id])
    {
      if !hasTaskContainer {
        return;
      }
      var plate: Plate;
      if d.id !in plates {
        plate := Plate("", "", if d.kind != "" then d.kind else "default");
        shown := shown + [d.id];
      } else {
        plate := plates[d.id];
      }
      plate := plate.(labelText := d.labelText, value := d.value);
      if d.kind != "" {
        plate := plate.(kind := d.kind);
      }
      plates := plates[d.id := plate];
    }

    /** `updateTaskPlates`: each entry in turn; plates already shown keep their place. */
    method UpdateTaskPlates(ds: seq<PlateData>)
      requires Valid()
      modifies this`plates, this`shown
      ensures Valid()
      ensures !hasTaskContainer ==> plates == old(plates) && shown == old(shown)
      ensures hasTaskContainer ==> plates == UpsertedAll(old(plates), ds)
      ensures |shown| >= |old(shown)| && shown[..|old(shown)|] == old(shown)
      ensures hasTaskContainer ==> shown == old(shown) + NewIds(old(plates), ds)
    {
      for i := 0 to |ds|
        invariant Valid()
        invariant !hasTaskContainer ==> plates == old(plates) && shown == old(shown)
        invariant hasTaskContainer ==> UpsertedAll(old(plates), ds) == UpsertedAll(plates, ds[i..])
        invariant hasTaskContainer ==> old(shown) + NewIds(old(plates), ds) == shown + NewIds(plates, ds[i..])
        invariant |shown| >= |old(shown)| && shown[..|old(shown)|] == old(shown)
      {
        assert ds[i..][1..] == ds[i + 1..];
        NewIdsAppend(shown, plates, ds[i..]);
        UpdateTaskPlate(ds[i]);
      }
    }

    /** `clearTaskPlates`: every plate element is removed and the map emptied. */
    method ClearTaskPlates()
      modifies this`plates, this`shown
      ensures Valid() && plates == map[] && shown == []
    {
      plates := map[];
      shown := [];
    }
  }
}

/**
 * The word-sorting exercise: a line of `-`-separated items is parsed into
 * keyed elements (`a1..` lower-case words, `b1..` upper-case words, `n1..`
 * numbers), all placed in the source area; elements are then dragged into the
 * answer area at a chosen place, or back into the source area, where they
 * return to their key order.
 */
module TaskWords {
  import opened Common
  import opened Text
  import opened Sequences

  // ---------------------------------------------------------------------------
  // Parsing the input line
  // ---------------------------------------------------------------------------

  function TrimAll(pieces: seq<string>): (r: seq<string>)
    ensures |r| == |pieces| && forall k :: 0 <= k < |r| ==> r[k] == Trim(pieces[k])
  {
    seq(|pieces|, k requires 0 <= k < |pieces| => Trim(pieces[k]))
  }

  predicate NonEmpty(s: string)
  {
    s != []
  }

  /** The trimmed, non-empty `-`-separated pieces of the trimmed input, in order. */
  function Items(input: string): seq<string>
  {
    var t := Trim(input);
    if t == [] then [] else Filter(TrimAll(Split(t, '-')), NonEmpty)
  }

  /** A piece of a `-` split is free of `-`, and so is its trim. */
  lemma TrimFree(p: string, sep: char)
    requires Free(p, sep)
    ensures Free(Trim(p), sep)
  {
    TrimSlice(p);
    var r := Trim(p);
    var a, b :| 0 <= a <= b <= |p| && r == p[a..b];
    assert forall i :: 0 <= i < |r| ==> r[i] == p[a + i];
  }

  /** The trimmed pieces between the dashes of the trimmed input. */
  function Pieces(input: string): seq<string>
  {
    TrimAll(Split(Trim(input), '-'))
  }

  /**
   * The items are exactly the non-empty trimmed pieces between dashes, in order:
   * none is empty, none holds a dash, and none starts or ends with white space.
   */
  lemma ItemsSpec(input: string)
    ensures Trim(input) != [] ==> Items(input) == Filter(Pieces(input), NonEmpty)
    ensures forall x :: x in Items(input) <==> x != [] && Trim(input) != [] && x in Pieces(input)
    ensures forall x :: x in Items(input) ==> Free(x, '-') && Trim(x) == x
  {
    var t := Trim(input);
    if t != [] {
      PiecesClean(input);
      var ps := Pieces(input);
      var items := Items(input);
      assert items == Filter(ps, NonEmpty);
      FilterMembers(ps, NonEmpty);
      forall x | x in items
        ensures x != [] && x in ps
      {
        var i :| 0 <= i < |items| && items[i] == x;
      }
      forall x | x != [] && x in ps
        ensures x in items
      {
        var k :| 0 <= k < |ps| && ps[k] == x;
      }
    }
  }

  /** Each trimmed piece is free of dashes and is its own trim. */
  lemma PiecesClean(input: string)
    ensures forall x :: x in Pieces(input) ==> Free(x, '-') && Trim(x) == x
  {
    var pieces := Split(Trim(input), '-');
    SplitJoin(Trim(input), '-');
    var ps := Pieces(input);
    forall x | x in ps
      ensures Free(x, '-') && Trim(x) == x
    {
      var k :| 0 <= k < |ps| && ps[k] == x;
      TrimFree(pieces[k], '-');
      TrimIdempotent(pieces[k]);
    }
  }

  /** A blank input line yields no items. */
  lemma BlankInput(input: string)
    requires AllSpace(input)
    ensures Items(input) == []
  {
    TrimEmpty(input);
  }

  /**
   * An item the parser treats as a word. The source tests `isNaN(item)`, which
   * also lets signed, decimal, exponent, hexadecimal and `Infinity` literals
   * through as numbers; here only all-digit items are numbers.
   */
  predicate IsWord(item: string)
  {
    !IsNumeral(item)
  }

  /** A word that counts as lower case: its first character is its own lower case and not a digit. */
  predicate StartsLower(w: string)
  {
    w != [] && ToLower(w[0]) == w[0] && !IsDigit(w[0])
  }

  /** A word that counts as upper case: its first character is its own upper case and not a digit. */
  predicate StartsUpper(w: string)
  {
    w != [] && ToUpper(w[0]) == w[0] && !IsDigit(w[0])
  }

  /**
   * The numeric items, each as the exact value of its digits, in order. This
   * is what `parseInt` reads from it for values up to 2^53.
   */
  function NumbersOf(items: seq<string>): seq<nat>
  {
    if items == [] then []
    else
      var last := items[|items| - 1];
      var rest := NumbersOf(items[..|items| - 1]);
      if IsNumeral(last) then rest + [ParseDecimal(last)] else rest
  }

  function NatLe(a: nat, b: nat): bool
  {
    a <= b
  }

  lemma NatPreorder()
    ensures TotalPreorder(NatLe)
  {
  }

  datatype Group = Lower | Upper | Number

  /** A key: the group letter `a`, `b` or `n` and a position in the group from 1. */
  datatype Key = Key(group: Group, index: nat)

  datatype Element = Element(key: Key, text: string)

  /** The words (or numbers written out) of one group, keyed in order from 1. */
  function Keyed(texts: seq<string>, g: Group): (r: seq<Element>)
    ensures |r| == |texts|
    ensures forall k :: 0 <= k < |texts| ==> r[k] == Element(Key(g, k + 1), texts[k])
  {
    if texts == [] then [] else Keyed(texts[..|texts| - 1], g) + [Element(Key(g, |texts|), texts[|texts| - 1])]
  }

  function Numerals(values: seq<nat>): (r: seq<string>)
    ensures |r| == |values| && forall k :: 0 <= k < |values| ==> r[k] == NatToString(values[k])
  {
    if values == [] then [] else Numerals(values[..|values| - 1]) + [NatToString(values[|values| - 1])]
  }

  /** The three sorted groups the parser builds. */
  datatype Groups = Groups(lower: seq<string>, upper: seq<string>, numbers: seq<nat>)

  function Classify(unique: seq<string>): Groups
  {
    var words := Filter(unique, IsWord);
    Groups(
      InsertionSort(Filter(words, StartsLower), LexLe),
      InsertionSort(Filter(words, StartsUpper), LexLe),
      InsertionSort(NumbersOf(unique), NatLe))
  }

  function Elements(g: Groups): seq<Element>
  {
    Keyed(g.lower, Lower) + Keyed(g.upper, Upper) + Keyed(Numerals(g.numbers), Number)
  }

  /** What the parse button produces from an input line, in the order it is shown. */
  function Parse(input: string): seq<Element>
  {
    Elements(Classify(Dedupe(Items(input))))
  }

  /**
   * The parse handler: trim, split, drop empty pieces, remove duplicates, sort
   * each item into the numbers or the words, then sort and key each group.
   */
  method ParseLine(input: string) returns (elements: seq<Element>)
    ensures elements == Parse(input)
  {
    var t := Trim(input);
    if t == [] {
      return [];
    }
    var items := Filter(TrimAll(Split(t, '-')), NonEmpty);
    var unique := RemoveDuplicates(items);
    var words, numbers := SortKinds(unique);
    var lower := Sort(Filter(words, StartsLower), LexLe);
    var upper := Sort(Filter(words, StartsUpper), LexLe);
    numbers := Sort(numbers, NatLe);
    var a := KeyGroup(lower, Lower);
    var b := KeyGroup(upper, Upper);
    var n := KeyGroup(Numerals(numbers), Number);
    elements := a + b + n;
  }

  /** The `forEach` that sends numerals to the numbers (by value) and the rest to the words. */
  method SortKinds(unique: seq<string>) returns (words: seq<string>, numbers: seq<nat>)
    ensures words == Filter(unique, IsWord)
    ensures numbers == NumbersOf(unique)
  {
    words := [];
    numbers := [];
    for i := 0 to |unique|
      invariant words == Filter(unique[..i], IsWord)
      invariant numbers == NumbersOf(unique[..i])
    {
      assert unique[..i + 1][..i] == unique[..i];
      if IsNumeral(unique[i]) {
        numbers := numbers + [ParseDecimal(unique[i])];
      } else {
        words := words + [unique[i]];
      }
    }
    assert unique[..|unique|] == unique;
  }

  /** The `forEach` that creates one element per text, keyed by its position from 1. */
  method KeyGroup(texts: seq<string>, g: Group) returns (elements: seq<Element>)
    ensures elements == Keyed(texts, g)
  {
    elements := [];
    for i := 0 to |texts|
      invariant elements == Keyed(texts[..i], g)
    {
      elements := elements + [Element(Key(g, i + 1), texts[i])];
    }
    assert texts[..|texts|] == texts;
  }

  // ---------------------------------------------------------------------------
  // What the parse promises
  // ---------------------------------------------------------------------------

  /** An input line that is blank yields no elements. */
  lemma BlankParse(input: string)
    requires AllSpace(input)
    ensures Parse(input) == []
  {
    BlankInput(input);
  }

  /**
   * Each group is sorted — words by the default string order, numbers ascending —
   * and holds exactly the unique items of its kind, each as often as it occurs.
   */
  lemma GroupsSorted(unique: seq<string>)
    ensures var g := Classify(unique);
            && SortedBy(g.lower, LexLe) && SortedBy(g.upper, LexLe) && SortedBy(g.numbers, NatLe)
            && multiset(g.lower) == multiset(Filter(Filter(unique, IsWord), StartsLower))
            && multiset(g.upper) == multiset(Filter(Filter(unique, IsWord), StartsUpper))
            && multiset(g.numbers) == multiset(NumbersOf(unique))
  {
    var words := Filter(unique, IsWord);
    LexPreorder();
    NatPreorder();
    InsertionSortSorted(Filter(words, StartsLower), LexLe);
    InsertionSortSorted(Filter(words, StartsUpper), LexLe);
    InsertionSortSorted(NumbersOf(unique), NatLe);
    InsertionSortPermutes(Filter(words, StartsLower), LexLe);
    InsertionSortPermutes(Filter(words, StartsUpper), LexLe);
    InsertionSortPermutes(NumbersOf(unique), NatLe);
  }

  /**
   * How a word item is classified: one starting with a digit is in neither word
   * group; one whose first character is neither a Latin nor a Russian letter is
   * in both; a letter puts it in exactly one.
   */
  lemma WordPlacement(unique: seq<string>, w: string)
    requires w in unique && IsWord(w) && w != []
    ensures var g := Classify(unique);
            && (IsDigit(w[0]) ==> w !in g.lower && w !in g.upper)
            && (!IsDigit(w[0]) && ToLower(w[0]) == w[0] && ToUpper(w[0]) == w[0] ==> w in g.lower && w in g.upper)
            && ('A' <= w[0] <= 'Z' || 'a' <= w[0] <= 'z' || '\U{0410}' <= w[0] <= '\U{044F}' || w[0] == '\U{0401}' || w[0] == '\U{0451}'
                ==> (w in g.lower) != (w in g.upper))
  {
    GroupsSorted(unique);
    var g := Classify(unique);
    var words := Filter(unique, IsWord);
    FilterMembers(unique, IsWord);
    FilterMembers(words, StartsLower);
    FilterMembers(words, StartsUpper);
    var i :| 0 <= i < |unique| && unique[i] == w;
    assert w in words;
    var j :| 0 <= j < |words| && words[j] == w;
    assert w in g.lower <==> w in multiset(g.lower);
    assert w in g.upper <==> w in multiset(g.upper);
    assert w in g.lower <==> w in Filter(words, StartsLower) by {
      assert w in multiset(Filter(words, StartsLower)) <==> w in Filter(words, StartsLower);
    }
    assert w in g.upper <==> w in Filter(words, StartsUpper) by {
      assert w in multiset(Filter(words, StartsUpper)) <==> w in Filter(words, StartsUpper);
    }
    if 'A' <= w[0] <= 'Z' || 'a' <= w[0] <= 'z' || '\U{0410}' <= w[0] <= '\U{044F}' || w[0] == '\U{0401}' || w[0] == '\U{0451}' {
      LetterOneCase(w[0]);
    }
  }

  /** A text shown by an element is never a non-numeric item starting with a digit. */
  lemma ShownTexts(input: string)
    ensures forall e :: e in Parse(input) ==> e.text != [] && (IsNumeral(e.text) || !IsDigit(e.text[0]))
  {
    var unique := Dedupe(Items(input));
    GroupMembers(unique);
    ElementTexts(Classify(unique));
  }

  /** Every word in the lower group counts as lower case, every one in the upper group as upper case. */
  lemma GroupMembers(unique: seq<string>)
    ensures var g := Classify(unique);
            (forall w :: w in g.lower ==> StartsLower(w)) && (forall w :: w in g.upper ==> StartsUpper(w))
  {
    var g := Classify(unique);
    GroupsSorted(unique);
    var words := Filter(unique, IsWord);
    FilterMembers(words, StartsLower);
    FilterMembers(words, StartsUpper);
    forall w | w in g.lower
      ensures StartsLower(w)
    {
      assert w in multiset(Filter(words, StartsLower));
      var i :| 0 <= i < |Filter(words, StartsLower)| && Filter(words, StartsLower)[i] == w;
    }
    forall w | w in g.upper
      ensures StartsUpper(w)
    {
      assert w in multiset(Filter(words, StartsUpper));
      var i :| 0 <= i < |Filter(words, StartsUpper)| && Filter(words, StartsUpper)[i] == w;
    }
  }

  lemma ElementTexts(g: Groups)
    requires forall w :: w in g.lower ==> StartsLower(w)
    requires forall w :: w in g.upper ==> StartsUpper(w)
    ensures forall e :: e in Elements(g) ==> e.text != [] && (IsNumeral(e.text) || !IsDigit(e.text[0]))
  {
    var es := Elements(g);
    forall e | e in es
      ensures e.text != [] && (IsNumeral(e.text) || !IsDigit(e.text[0]))
    {
      var k :| 0 <= k < |es| && es[k] == e;
      ElementAt(g, k);
      if k < |g.lower| {
        assert g.lower[k] in g.lower;
      } else if k < |g.lower| + |g.upper| {
        assert g.upper[k - |g.lower|] in g.upper;
      } else {
        assert e.text == NatToString(g.numbers[k - |g.lower| - |g.upper|]);
      }
    }
  }

  /**
   * Keys count up from 1 inside each group, and the keys of a parse come in key
   * order: every `a` before every `b` before every `n`.
   */
  lemma ParseKeysInOrder(input: string)
    ensures var es := Parse(input);
            forall i, j :: 0 <= i < j < |es| ==> KeyLt(es[i].key, es[j].key)
  {
    ElementsInKeyOrder(Classify(Dedupe(Items(input))));
  }

  lemma ElementsInKeyOrder(g: Groups)
    ensures var es := Elements(g);
            forall i, j :: 0 <= i < j < |es| ==> KeyLt(es[i].key, es[j].key)
  {
    var es := Elements(g);
    forall i, j | 0 <= i < j < |es|
      ensures KeyLt(es[i].key, es[j].key)
    {
      ElementAt(g, i);
      ElementAt(g, j);
    }
  }

  /** The element at position k: its key, and its text taken from the group it falls in. */
  lemma ElementAt(g: Groups, k: nat)
    requires k < |Elements(g)|
    ensures Elements(g)[k].key == KeyAt(g, k)
    ensures var la, lb := |g.lower|, |g.lower| + |g.upper|;
            Elements(g)[k].text == if k < la then g.lower[k] else if k < lb then g.upper[k - la] else NatToString(g.numbers[k - lb])
  {
  }

  /** The key of the element at position k of a parse. */
  function KeyAt(g: Groups, k: nat): Key
  {
    var la, lb := |g.lower|, |g.lower| + |g.upper|;
    if k < la then Key(Lower, k + 1) else if k < lb then Key(Upper, k - la + 1) else Key(Number, k - lb + 1)
  }

  // ---------------------------------------------------------------------------
  // Keys as text, and the order an element returns to
  // ---------------------------------------------------------------------------

  function GroupLetter(g: Group): char
  {
    match g
    case Lower => 'a'
    case Upper => 'b'
    case Number => 'n'
  }

  /** The key as it is stored on the element: letter, then the position in decimal. */
  function KeyText(k: Key): string
  {
    [GroupLetter(k.group)] + NatToString(k.index)
  }

  /** A key read back from its text, as the comparator does with `charAt(0)` and `parseInt`. */
  function ParseKey(text: string): Option<Key>
  {
    if |text| < 2 || !AllDigits(text[1..]) then None
    else if text[0] == 'a' then Some(Key(Lower, ParseDecimal(text[1..])))
    else if text[0] == 'b' then Some(Key(Upper, ParseDecimal(text[1..])))
    else if text[0] == 'n' then Some(Key(Number, ParseDecimal(text[1..])))
    else None
  }

  /** The comparator reads back exactly the key that was written. */
  lemma KeyTextRoundTrip(k: Key)
    ensures ParseKey(KeyText(k)) == Some(k)
  {
    assert KeyText(k)[1..] == NatToString(k.index);
    ParsePrinted(k.index);
  }

  /** Distinct keys have distinct texts. */
  lemma KeyTextInjective(k1: Key, k2: Key)
    requires KeyText(k1) == KeyText(k2)
    ensures k1 == k2
  {
    KeyTextRoundTrip(k1);
    KeyTextRoundTrip(k2);
  }

  /** The rank the comparator gives a group letter: `a` 1, `b` 2, `n` 3. */
  function Rank(g: Group): int
  {
    match g
    case Lower => 1
    case Upper => 2
    case Number => 3
  }

  /** The comparator: by group rank, then by position. */
  function Compare(a: Key, b: Key): int
  {
    if Rank(a.group) != Rank(b.group) then Rank(a.group) - Rank(b.group) else a.index - b.index
  }

  function KeyLe(a: Key, b: Key): bool
  {
    Compare(a, b) <= 0
  }

  function KeyLt(a: Key, b: Key): bool
  {
    Compare(a, b) < 0
  }

  /** The comparator is a total order on keys: it sorts consistently and ties only equal keys. */
  lemma KeyOrder()
    ensures TotalPreorder(KeyLe)
    ensures forall a, b :: KeyLe(a, b) && KeyLe(b, a) ==> a == b
  {
  }

  /**
   * In key order, every `a` key precedes every `b` key, which precedes every `n`
   * key, and within a group positions ascend.
   */
  lemma KeyOrderGroups(keys: seq<Key>)
    requires SortedBy(keys, KeyLe)
    ensures forall i, j :: 0 <= i < j < |keys| ==>
      Rank(keys[i].group) <= Rank(keys[j].group) &&
      (keys[i].group == keys[j].group ==> keys[i].index <= keys[j].index)
  {
    forall i, j | 0 <= i < j < |keys|
      ensures Rank(keys[i].group) <= Rank(keys[j].group)
      ensures keys[i].group == keys[j].group ==> keys[i].index <= keys[j].index
    {
      assert KeyLe(keys[i], keys[j]);
    }
  }

  /**
   * Returning a key to a source area in key order puts it right after the keys
   * that precede it: the area stays in key order.
   */
  lemma ReturnInOrder(keys: seq<Key>, k: Key)
    requires SortedBy(keys, KeyLe)
    ensures var n := CountBefore(keys, k, KeyLe);
            && InsertionSort(keys + [k], KeyLe) == keys[..n] + [k] + keys[n..]
            && SortedBy(InsertionSort(keys + [k], KeyLe), KeyLe)
  {
    KeyOrder();
    PushThenSort(keys, k, KeyLe);
    InsertionSortSorted(keys + [k], KeyLe);
  }

  // ---------------------------------------------------------------------------
  // The board
  // ---------------------------------------------------------------------------

  /** Where a drop zone in the answer area puts an element. */
  datatype Place = Start | Before(target: Key) | After(target: Key)

  datatype Area = Answer | Source

  predicate PlaceIn(place: Place, keys: seq<Key>)
  {
    match place
    case Start => true
    case Before(t) => t in keys
    case After(t) => t in keys
  }

  /** The answer area after an element k is put there at a zone, or at the end without one. */
  function PutAt(keys: seq<Key>, k: Key, zone: Option<Place>): (r: seq<Key>)
    requires zone.Some? ==> PlaceIn(zone.value, keys)
    ensures multiset(r) == multiset(keys) + multiset{k}
    ensures zone == None ==> r == keys + [k]
    ensures zone == Some(Start) ==> r == [k] + keys
    ensures zone.Some? && zone.value.Before? ==>
      exists i :: 0 <= i < |keys| && r == keys[..i] + [k] + keys[i..] && r[i + 1] == zone.value.target
    ensures zone.Some? && zone.value.After? ==>
      exists i :: 0 <= i < |keys| && r == keys[..i + 1] + [k] + keys[i + 1..] && r[i] == zone.value.target
  {
    match zone
    case None => keys + [k]
    case Some(Start) => [k] + keys
    case Some(Before(t)) =>
      var i := FirstIndex(keys, t);
      assert keys == keys[..i] + keys[i..];
      keys[..i] + [k] + keys[i..]
    case Some(After(t)) =>
      var i := FirstIndex(keys, t);
      assert keys == keys[..i + 1] + keys[i + 1..];
      var r := keys[..i + 1] + [k] + keys[i + 1..];
      assert r[i] == keys[i] == t;
      r
  }

  /** keys with the occurrence of k taken out (keys holds each key once). */
  function Without(keys: seq<Key>, k: Key): (r: seq<Key>)
    ensures k !in keys ==> r == keys
    ensures k in keys ==> r == keys[..FirstIndex(keys, k)] + keys[FirstIndex(keys, k) + 1..]
  {
    if k in keys then keys[..FirstIndex(keys, k)] + keys[FirstIndex(keys, k) + 1..] else keys
  }

  /** The elements on the page: the answer area, the source area, and the text on display. */
  class Board {
    var answer: seq<Key>
    var source: seq<Key>
    var texts: map<Key, string>
    var shown: string

    /** Every element is in exactly one area, and the source area is in key order. */
    ghost predicate Valid()
      reads this
    {
      && (forall k :: k in texts <==> k in answer || k in source)
      && NoDuplicates(answer + source)
      && SortedBy(source, KeyLe)
    }

    constructor()
      ensures answer == [] && source == [] && texts == map[] && shown == []
      ensures Valid()
    {
      answer, source, texts, shown := [], [], map[], [];
    }

    /** The parse button: both areas emptied, then every parsed element placed in the source area. */
    method ParseButton(input: string) returns (elements: seq<Element>)
      modifies this
      ensures elements == Parse(input)
      ensures answer == []
      ensures source == KeysOf(elements)
      ensures texts == TextsOf(elements)
      ensures shown == []
      ensures Valid()
    {
      elements := ParseLine(input);
      var keys, m := Load(elements);
      answer := [];
      source := keys;
      texts := m;
      shown := [];
      ParsedBoard(input, elements, answer, source, texts);
    }

    /** Clicking an element in the answer area puts its text on display. */
    method Click(k: Key)
      requires k in texts
      modifies this
      ensures answer == old(answer) && source == old(source) && texts == old(texts)
      ensures shown == (if k in answer then texts[k] else old(shown))
    {
      if k in answer {
        shown := texts[k];
      }
    }

    /**
     * Dropping element k on an area. Dropped on the answer area at a zone just
     * before or after itself, nothing moves. Otherwise it leaves its area and
     * goes to the zone in the answer area (or its end without a zone), or back
     * into the source area in key order; the display is cleared when it showed
     * the text of an element that is no longer in the answer area.
     */
    method HandleDrop(k: Key, target: Area, zone: Option<Place>)
      requires Valid() && k in texts
      requires zone.Some? && zone.value != Before(k) && zone.value != After(k) ==> PlaceIn(zone.value, Without(answer, k))
      modifies this
      ensures texts == old(texts)
      ensures target == Answer && (zone == Some(Before(k)) || zone == Some(After(k))) ==>
        answer == old(answer) && source == old(source) && shown == old(shown)
      ensures target == Answer && zone != Some(Before(k)) && zone != Some(After(k)) ==>
        answer == PutAt(Without(old(answer), k), k, zone) && source == Without(old(source), k) && shown == old(shown)
      ensures target == Source ==>
        && answer == Without(old(answer), k)
        && source == InsertionSort(Without(old(source), k) + [k], KeyLe)
        && shown == (if old(shown) == texts[k] then [] else old(shown))
      ensures Valid()
    {
      if target == Answer && (zone == Some(Before(k)) || zone == Some(After(k))) {
        return;
      }
      ghost var oldAnswer, oldSource := answer, source;
      DisjointAreas(answer, source, k);
      var restAnswer := Without(answer, k);
      var restSource := Without(source, k);
      RemoveSorted(source, k);
      if target == Answer {
        answer := PutAt(restAnswer, k, zone);
        source := restSource;
      } else {
        answer := restAnswer;
        source := Sort(restSource + [k], KeyLe);
        if shown == texts[k] {
          shown := [];
        }
      }
      DropKeepsValid(oldAnswer, oldSource, texts, k, answer, source);
    }
  }

  /** `createWordElement` for each element in turn: appended to the area and recorded by key. */
  method Load(elements: seq<Element>) returns (keys: seq<Key>, texts: map<Key, string>)
    ensures keys == KeysOf(elements) && texts == TextsOf(elements)
  {
    keys, texts := [], map[];
    for i := 0 to |elements|
      invariant keys == KeysOf(elements[..i]) && texts == TextsOf(elements[..i])
    {
      assert elements[..i + 1][..i] == elements[..i];
      keys := keys + [elements[i].key];
      texts := texts[elements[i].key := elements[i].text];
    }
    assert elements[..|elements|] == elements;
  }

  function KeysOf(es: seq<Element>): (r: seq<Key>)
    ensures |r| == |es| && forall i :: 0 <= i < |es| ==> r[i] == es[i].key
  {
    if es == [] then [] else KeysOf(es[..|es| - 1]) + [es[|es| - 1].key]
  }

  function TextsOf(es: seq<Element>): map<Key, string>
  {
    if es == [] then map[] else TextsOf(es[..|es| - 1])[es[|es| - 1].key := es[|es| - 1].text]
  }

  /** The recorded keys are exactly the keys of the elements. */
  lemma {:induction false} TextsOfKeys(es: seq<Element>)
    ensures forall k :: k in TextsOf(es) <==> exists i :: 0 <= i < |es| && es[i].key == k
  {
    if es != [] {
      TextsOfKeys(es[..|es| - 1]);
      assert forall i :: 0 <= i < |es| - 1 ==> es[..|es| - 1][i] == es[i];
    }
  }

  lemma ParsedBoard(input: string, es: seq<Element>, answer: seq<Key>, keys: seq<Key>, m: map<Key, string>)
    requires es == Parse(input) && answer == [] && keys == KeysOf(es) && m == TextsOf(es)
    ensures (forall k :: k in m <==> k in answer || k in keys) && NoDuplicates(answer + keys) && SortedBy(keys, KeyLe)
  {
    ParseKeysInOrder(input);
    ParsedBoardValid(es);
  }

  /** A freshly parsed board has each element once, in the source area, in key order. */
  lemma ParsedBoardValid(es: seq<Element>)
    requires forall i, j :: 0 <= i < j < |es| ==> KeyLt(es[i].key, es[j].key)
    ensures var keys := KeysOf(es);
            && (forall k :: k in TextsOf(es) <==> k in [] + keys)
            && NoDuplicates([] + keys)
            && SortedBy(keys, KeyLe)
  {
    var keys := KeysOf(es);
    assert [] + keys == keys;
    TextsOfKeys(es);
    forall k | k in TextsOf(es)
      ensures k in keys
    {
      var i :| 0 <= i < |es| && es[i].key == k;
      assert keys[i] == k;
    }
    forall k | k in keys
      ensures k in TextsOf(es)
    {
      var i :| 0 <= i < |keys| && keys[i] == k;
      assert es[i].key == k;
    }
  }

  /** When the areas share no key, k is in at most one of them. */
  lemma DisjointAreas(answer: seq<Key>, source: seq<Key>, k: Key)
    requires NoDuplicates(answer + source)
    ensures NoDuplicates(answer) && NoDuplicates(source)
    ensures forall x :: x in answer ==> x !in source
  {
    var all := answer + source;
    forall i, j | 0 <= i < j < |answer|
      ensures answer[i] != answer[j]
    {
      assert all[i] == answer[i] && all[j] == answer[j];
    }
    forall i, j | 0 <= i < j < |source|
      ensures source[i] != source[j]
    {
      assert all[|answer| + i] == source[i] && all[|answer| + j] == source[j];
    }
    forall i, j | 0 <= i < |answer| && 0 <= j < |source|
      ensures answer[i] != source[j]
    {
      assert all[i] == answer[i] && all[|answer| + j] == source[j];
    }
  }

  /** Taking a key out of a sorted area leaves it sorted. */
  lemma RemoveSorted(keys: seq<Key>, k: Key)
    requires SortedBy(keys, KeyLe)
    ensures SortedBy(Without(keys, k), KeyLe)
  {
    if k in keys {
      var i := FirstIndex(keys, k);
      var r := Without(keys, k);
      forall a, b | 0 <= a < b < |r|
        ensures KeyLe(r[a], r[b])
      {
        var a' := if a < i then a else a + 1;
        var b' := if b < i then b else b + 1;
        assert r[a] == keys[a'] && r[b] == keys[b'];
      }
    }
  }

  /** After a drop, each element is still in exactly one area, and the source area in key order. */
  lemma DropKeepsValid(oldAnswer: seq<Key>, oldSource: seq<Key>, texts: map<Key, string>, k: Key,
                       answer: seq<Key>, source: seq<Key>)
    requires forall x :: x in texts <==> x in oldAnswer || x in oldSource
    requires NoDuplicates(oldAnswer + oldSource) && SortedBy(oldSource, KeyLe)
    requires k in texts
    requires || (multiset(answer) == multiset(Without(oldAnswer, k)) + multiset{k} && source == Without(oldSource, k))
             || (answer == Without(oldAnswer, k) && source == InsertionSort(Without(oldSource, k) + [k], KeyLe))
    ensures forall x :: x in texts <==> x in answer || x in source
    ensures NoDuplicates(answer + source)
    ensures SortedBy(source, KeyLe)
  {
    DisjointAreas(oldAnswer, oldSource, k);
    var before := multiset(oldAnswer + oldSource);
    WithoutCount(oldAnswer, k);
    WithoutCount(oldSource, k);
    RemoveSorted(oldSource, k);
    KeyOrder();
    if source == InsertionSort(Without(oldSource, k) + [k], KeyLe) {
      InsertionSortPermutes(Without(oldSource, k) + [k], KeyLe);
      InsertionSortSorted(Without(oldSource, k) + [k], KeyLe);
    }
    assert multiset(answer + source) == before by {
      assert oldAnswer + oldSource == oldAnswer + oldSource;
    }
    UniqueByCount(oldAnswer + oldSource, answer + source);
    forall x
      ensures x in texts <==> x in answer || x in source
    {
      assert x in answer + source <==> x in multiset(answer + source);
      assert x in oldAnswer + oldSource <==> x in before;
    }
  }

  /** Taking out k removes its one occurrence when the keys are distinct. */
  lemma WithoutCount(keys: seq<Key>, k: Key)
    requires NoDuplicates(keys)
    ensures NoDuplicates(Without(keys, k))
    ensures multiset(Without(keys, k)) == multiset(keys) - multiset{k}
  {
    if k in keys {
      var i := FirstIndex(keys, k);
      WithoutUnique(keys, i);
      var a, b := keys[..i], keys[i + 1..];
      assert keys == a + [k] + b;
      assert Without(keys, k) == a + b;
      assert multiset(keys) == multiset(a) + multiset{k} + multiset(b);
    } else {
      assert multiset(keys)[k] == 0;
    }
  }

  lemma WithoutUnique(keys: seq<Key>, i: nat)
    requires NoDuplicates(keys) && i < |keys|
    ensures NoDuplicates(keys[..i] + keys[i + 1..])
  {
    var r := keys[..i] + keys[i + 1..];
    forall a, b | 0 <= a < b < |r|
      ensures r[a] != r[b]
    {
      var a' := if a < i then a else a + 1;
      var b' := if b < i then b else b + 1;
      assert r[a] == keys[a'] && r[b] == keys[b'];
    }
  }

  /** A sequence with the same multiset as a duplicate-free one is duplicate-free. */
  lemma UniqueByCount(s: seq<Key>, t: seq<Key>)
    requires NoDuplicates(s) && multiset(s) == multiset(t)
    ensures NoDuplicates(t)
  {
    forall i, j | 0 <= i < j < |t|
      ensures t[i] != t[j]
    {
      if t[i] == t[j] {
        assert multiset(t)[t[i]] >= 2 by {
          assert t == t[..i] + [t[i]] + t[i + 1..j] + [t[j]] + t[j + 1..];
        }
        AtMostOnce(s, t[i]);
      }
    }
  }

  lemma AtMostOnce(s: seq<Key>, x: Key)
    requires NoDuplicates(s)
    ensures multiset(s)[x] <= 1
  {
    if s != [] {
      var init := s[..|s| - 1];
      AtMostOnce(init, x);
      assert s == init + [s[|s| - 1]];
      if s[|s| - 1] == x {
        assert x !in init;
      }
    }
  }
}

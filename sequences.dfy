/**
 * Sequence vocabulary shared by several components: keeping the first occurrence
 * of each element (a JavaScript `Set` filled in order, then `Array.from`), and
 * the stable sort that `Array.prototype.sort` performs with a consistent
 * comparator, written as insertion sort.
 */
module Sequences {

  // ---------------------------------------------------------------------------
  // First occurrences
  // ---------------------------------------------------------------------------

  /** The elements of s in order, each kept at its first occurrence only. */
  function Dedupe<T(==)>(s: seq<T>): (r: seq<T>)
    ensures |r| <= |s|
  {
    if s == [] then []
    else
      var r := Dedupe(s[..|s| - 1]);
      if s[|s| - 1] in r then r else r + [s[|s| - 1]]
  }

  predicate NoDuplicates<T(==)>(s: seq<T>)
  {
    forall i, j :: 0 <= i < j < |s| ==> s[i] != s[j]
  }

  /** The index of the first occurrence of x in s. */
  function FirstIndex<T(==)>(s: seq<T>, x: T): (i: nat)
    requires x in s
    ensures i < |s| && s[i] == x && forall j :: 0 <= j < i ==> s[j] != x
  {
    if s[0] == x then 0 else 1 + FirstIndex(s[1..], x)
  }

  /**
   * Dedupe keeps exactly the elements of s, each once, in the order of their
   * first occurrences in s.
   */
  lemma {:induction false} DedupeSpec<T>(s: seq<T>)
    ensures forall x :: x in Dedupe(s) <==> x in s
    ensures NoDuplicates(Dedupe(s))
    ensures forall i, j :: 0 <= i < j < |Dedupe(s)| ==> FirstIndex(s, Dedupe(s)[i]) < FirstIndex(s, Dedupe(s)[j])
  {
    if s != [] {
      var init := s[..|s| - 1];
      var last := s[|s| - 1];
      DedupeSpec(init);
      var r := Dedupe(init);
      assert forall x :: x in s <==> x in init || x == last by {
        assert s == init + [last];
      }
      forall x | x in init
        ensures FirstIndex(s, x) == FirstIndex(init, x)
      {
        FirstIndexPrefix(init, last, x);
      }
      if last !in r {
        assert FirstIndex(s, last) == |s| - 1 by {
          assert forall j :: 0 <= j < |s| - 1 ==> s[j] == init[j];
        }
      }
    }
  }

  lemma FirstIndexPrefix<T>(init: seq<T>, last: T, x: T)
    requires x in init
    ensures x in init + [last] && FirstIndex(init + [last], x) == FirstIndex(init, x)
  {
    var s := init + [last];
    var i := FirstIndex(init, x);
    var k := FirstIndex(s, x);
    assert s[i] == x;
    assert k <= i;
    assert init[k] == x;
  }

  /**
   * `removeDuplicates`: a loop filling `seen` and `result`; an item is kept when it
   * has not been seen.
   */
  method RemoveDuplicates<T(==)>(items: seq<T>) returns (result: seq<T>)
    ensures result == Dedupe(items)
  {
    var seen: set<T> := {};
    result := [];
    for i := 0 to |items|
      invariant result == Dedupe(items[..i])
      invariant seen == set x | x in result
    {
      assert items[..i + 1][..i] == items[..i];
      if items[i] !in seen {
        seen := seen + {items[i]};
        result := result + [items[i]];
      }
    }
    assert items[..|items|] == items;
  }

  /** `filter`: the elements satisfying p, in their order in s. */
  function Filter<T>(s: seq<T>, p: T -> bool): (r: seq<T>)
    ensures |r| <= |s|
  {
    if s == [] then []
    else
      var r := Filter(s[..|s| - 1], p);
      if p(s[|s| - 1]) then r + [s[|s| - 1]] else r
  }

  /** Filtering keeps the elements of s that satisfy p, and only those. */
  lemma {:induction false} FilterMembers<T>(s: seq<T>, p: T -> bool)
    ensures forall i :: 0 <= i < |Filter(s, p)| ==> Filter(s, p)[i] in s && p(Filter(s, p)[i])
    ensures forall i :: 0 <= i < |s| && p(s[i]) ==> s[i] in Filter(s, p)
  {
    if s != [] {
      var init := s[..|s| - 1];
      FilterMembers(init, p);
      assert s == init + [s[|s| - 1]];
      forall i | 0 <= i < |s| - 1
        ensures s[i] == init[i]
      {
      }
    }
  }

  /** Filtering distributes over concatenation, so the order of s is kept. */
  lemma {:induction false} FilterAppend<T>(a: seq<T>, b: seq<T>, p: T -> bool)
    ensures Filter(a + b, p) == Filter(a, p) + Filter(b, p)
  {
    if b == [] {
      assert a + b == a;
    } else {
      var init := b[..|b| - 1];
      FilterAppend(a, init, p);
      assert (a + b)[..|a + b| - 1] == a + init;
      assert (a + b)[|a + b| - 1] == b[|b| - 1];
    }
  }

  /** Filtering keeps exactly the elements satisfying p, each as often as in s. */
  lemma {:induction false} FilterCount<T(!new)>(s: seq<T>, p: T -> bool)
    ensures forall x :: multiset(Filter(s, p))[x] == if p(x) then multiset(s)[x] else 0
  {
    if s != [] {
      FilterCount(s[..|s| - 1], p);
      assert s == s[..|s| - 1] + [s[|s| - 1]];
    }
  }

  /** Filtering a sorted sequence leaves it sorted. */
  lemma {:induction false} FilterSorted<T>(s: seq<T>, p: T -> bool, le: (T, T) -> bool)
    requires SortedBy(s, le)
    ensures SortedBy(Filter(s, p), le)
  {
    if s != [] {
      var init, last := s[..|s| - 1], s[|s| - 1];
      assert SortedBy(init, le);
      FilterSorted(init, p, le);
      var r := Filter(init, p);
      FilterMembers(init, p);
      forall i | 0 <= i < |r|
        ensures le(r[i], last)
      {
        assert r[i] in init;
        var j :| 0 <= j < |init| && init[j] == r[i];
        assert s[j] == r[i];
      }
    }
  }

  // ---------------------------------------------------------------------------
  // Stable sorting
  // ---------------------------------------------------------------------------

  /**
   * A comparator read as "a may come before b": `cmp(a, b) <= 0`. It must be total
   * and transitive for the sort to be well defined.
   */
  ghost predicate TotalPreorder<T(!new)>(le: (T, T) -> bool)
  {
    && (forall a, b :: le(a, b) || le(b, a))
    && (forall a, b, c :: le(a, b) && le(b, c) ==> le(a, c))
  }

  predicate SortedBy<T>(s: seq<T>, le: (T, T) -> bool)
  {
    forall i, j :: 0 <= i < j < |s| ==> le(s[i], s[j])
  }

  /** x inserted into s from the back: it passes every element that may not precede it. */
  function Insert<T>(s: seq<T>, x: T, le: (T, T) -> bool): (r: seq<T>)
    ensures |r| == |s| + 1
  {
    if s == [] then [x]
    else if le(s[|s| - 1], x) then s + [x]
    else Insert(s[..|s| - 1], x, le) + [s[|s| - 1]]
  }

  /** Insertion adds x and keeps every other element. */
  lemma {:induction false} InsertPermutes<T>(s: seq<T>, x: T, le: (T, T) -> bool)
    ensures multiset(Insert(s, x, le)) == multiset(s) + multiset{x}
  {
    if s != [] && !le(s[|s| - 1], x) {
      InsertPermutes(s[..|s| - 1], x, le);
      assert s == s[..|s| - 1] + [s[|s| - 1]];
    }
  }

  /**
   * The stable sort of s: elements that compare equal keep their input order, so
   * any stable sorting algorithm gives this result.
   */
  function InsertionSort<T>(s: seq<T>, le: (T, T) -> bool): (r: seq<T>)
    ensures |r| == |s|
  {
    if s == [] then []
    else Insert(InsertionSort(s[..|s| - 1], le), s[|s| - 1], le)
  }

  /** The sort is a permutation of its input. */
  lemma {:induction false} InsertionSortPermutes<T>(s: seq<T>, le: (T, T) -> bool)
    ensures multiset(InsertionSort(s, le)) == multiset(s)
  {
    if s != [] {
      InsertionSortPermutes(s[..|s| - 1], le);
      InsertPermutes(InsertionSort(s[..|s| - 1], le), s[|s| - 1], le);
      assert s == s[..|s| - 1] + [s[|s| - 1]];
    }
  }

  /** How many elements of s may precede x: in a sorted s, they form a prefix. */
  function CountBefore<T>(s: seq<T>, x: T, le: (T, T) -> bool): (k: nat)
    ensures k <= |s|
  {
    if s == [] then 0 else (if le(s[|s| - 1], x) then 1 else 0) + CountBefore(s[..|s| - 1], x, le)
  }

  /** In a sorted s, the elements that may precede x are exactly the first CountBefore. */
  lemma {:induction false} CountBeforePrefix<T(!new)>(s: seq<T>, x: T, le: (T, T) -> bool)
    requires TotalPreorder(le) && SortedBy(s, le)
    ensures forall i :: 0 <= i < |s| ==> (le(s[i], x) <==> i < CountBefore(s, x, le))
  {
    if s != [] {
      var init := s[..|s| - 1];
      assert SortedBy(init, le);
      CountBeforePrefix(init, x, le);
      if le(s[|s| - 1], x) {
        forall i | 0 <= i < |s| - 1
          ensures le(s[i], x)
        {
          assert le(s[i], s[|s| - 1]);
        }
      }
    }
  }

  /**
   * Inserting into a sorted sequence puts x right after the elements that may
   * precede it, and before the rest.
   */
  lemma {:induction false} InsertPosition<T(!new)>(s: seq<T>, x: T, le: (T, T) -> bool)
    requires TotalPreorder(le) && SortedBy(s, le)
    ensures var k := CountBefore(s, x, le);
            Insert(s, x, le) == s[..k] + [x] + s[k..]
  {
    if s != [] {
      var init := s[..|s| - 1];
      var last := s[|s| - 1];
      if le(last, x) {
        CountBeforePrefix(s, x, le);
        var k := CountBefore(s, x, le);
        assert k == |s|;
        assert s[..k] == s && s[k..] == [];
      } else {
        assert SortedBy(init, le);
        InsertPosition(init, x, le);
        InsertBackStep(s, x, le, CountBefore(init, x, le));
      }
    }
  }

  /** The step of InsertPosition past a last element that may not precede x. */
  lemma InsertBackStep<T>(s: seq<T>, x: T, le: (T, T) -> bool, k: nat)
    requires s != [] && !le(s[|s| - 1], x)
    requires k == CountBefore(s[..|s| - 1], x, le)
    requires Insert(s[..|s| - 1], x, le) == s[..|s| - 1][..k] + [x] + s[..|s| - 1][k..]
    ensures CountBefore(s, x, le) == k
    ensures Insert(s, x, le) == s[..k] + [x] + s[k..]
  {
    var init, last := s[..|s| - 1], s[|s| - 1];
    assert init[..k] == s[..k];
    assert init[k..] + [last] == s[k..];
    calc {
      Insert(s, x, le);
      Insert(init, x, le) + [last];
      (s[..k] + [x] + init[k..]) + [last];
      { AppendAssoc(s[..k] + [x], init[k..], [last]); }
      s[..k] + [x] + (init[k..] + [last]);
    }
  }

  lemma AppendAssoc<T>(a: seq<T>, b: seq<T>, c: seq<T>)
    ensures (a + b) + c == a + (b + c)
  {
  }

  /** Inserting into a sorted sequence keeps it sorted. */
  lemma InsertSorted<T(!new)>(s: seq<T>, x: T, le: (T, T) -> bool)
    requires TotalPreorder(le) && SortedBy(s, le)
    ensures SortedBy(Insert(s, x, le), le)
  {
    InsertPosition(s, x, le);
    CountBeforePrefix(s, x, le);
    var k := CountBefore(s, x, le);
    var r := s[..k] + [x] + s[k..];
    forall i, j | 0 <= i < j < |r|
      ensures le(r[i], r[j])
    {
      if j == k {
        assert r[i] == s[i];
      } else if i == k {
        assert r[j] == s[j - 1];
        assert !le(s[j - 1], x);
      } else {
        var i' := if i < k then i else i - 1;
        var j' := if j < k then j else j - 1;
        assert r[i] == s[i'] && r[j] == s[j'];
      }
    }
  }

  /** The stable sort is sorted. */
  lemma {:induction false} InsertionSortSorted<T(!new)>(s: seq<T>, le: (T, T) -> bool)
    requires TotalPreorder(le)
    ensures SortedBy(InsertionSort(s, le), le)
  {
    if s != [] {
      InsertionSortSorted(s[..|s| - 1], le);
      InsertSorted(InsertionSort(s[..|s| - 1], le), s[|s| - 1], le);
    }
  }

  /** Sorting a sorted sequence changes nothing. */
  lemma {:induction false} InsertionSortOfSorted<T>(s: seq<T>, le: (T, T) -> bool)
    requires SortedBy(s, le)
    ensures InsertionSort(s, le) == s
  {
    if s != [] {
      var init := s[..|s| - 1];
      assert SortedBy(init, le);
      InsertionSortOfSorted(init, le);
      if |s| > 1 {
        assert le(s[|s| - 2], s[|s| - 1]);
      }
      assert init + [s[|s| - 1]] == s;
    }
  }

  /**
   * A sorted sequence with one element appended sorts to that element inserted
   * after every element that may precede it: `push` then `sort` on a sorted list.
   */
  lemma PushThenSort<T(!new)>(s: seq<T>, x: T, le: (T, T) -> bool)
    requires TotalPreorder(le) && SortedBy(s, le)
    ensures var k := CountBefore(s, x, le);
            InsertionSort(s + [x], le) == s[..k] + [x] + s[k..]
  {
    assert (s + [x])[..|s|] == s;
    InsertionSortOfSorted(s, le);
    InsertPosition(s, x, le);
  }

  /**
   * The in-place sort the source calls (`Array.prototype.sort` with a comparator):
   * insertion sort, one element at a time into the sorted prefix.
   */
  method Sort<T>(s: seq<T>, le: (T, T) -> bool) returns (r: seq<T>)
    ensures r == InsertionSort(s, le)
  {
    r := [];
    for i := 0 to |s|
      invariant r == InsertionSort(s[..i], le)
    {
      assert s[..i + 1][..i] == s[..i];
      r := InsertInto(r, s[i], le);
    }
    assert s[..|s|] == s;
  }

  /** One insertion: scan from the back for the place of x, then shift it in. */
  method InsertInto<T>(s: seq<T>, x: T, le: (T, T) -> bool) returns (r: seq<T>)
    ensures r == Insert(s, x, le)
  {
    var j := |s|;
    assert s[..j] == s && s[j..] == [];
    while j > 0 && !le(s[j - 1], x)
      invariant 0 <= j <= |s|
      invariant Insert(s, x, le) == Insert(s[..j], x, le) + s[j..]
    {
      ShiftStep(s, x, le, j);
      j := j - 1;
    }
    if j > 0 {
      assert s[..j][..j - 1] + [s[j - 1]] == s[..j];
    }
    r := s[..j] + [x] + s[j..];
  }

  /** One step of the scan: x passes s[j - 1]. */
  lemma ShiftStep<T>(s: seq<T>, x: T, le: (T, T) -> bool, j: nat)
    requires 0 < j <= |s| && !le(s[j - 1], x)
    ensures Insert(s[..j], x, le) + s[j..] == Insert(s[..j - 1], x, le) + s[j - 1..]
  {
    assert s[..j][..j - 1] == s[..j - 1];
    assert [s[j - 1]] + s[j..] == s[j - 1..];
    calc {
      Insert(s[..j], x, le) + s[j..];
      (Insert(s[..j - 1], x, le) + [s[j - 1]]) + s[j..];
      { AppendAssoc(Insert(s[..j - 1], x, le), [s[j - 1]], s[j..]); }
      Insert(s[..j - 1], x, le) + ([s[j - 1]] + s[j..]);
    }
  }
}

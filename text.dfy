/**
 * String vocabulary of the browser runtime that the game's code relies on:
 * `String.prototype.trim`, `split` on a one-character separator, decimal
 * numerals (`parseInt` / `Number.prototype.toString` on whole numbers),
 * `padStart(2, '0')`, the case mappings that classify a first letter, and the
 * default string order of `Array.prototype.sort`.
 */
module Text {
  import Sequences

  // ---------------------------------------------------------------------------
  // trim
  // ---------------------------------------------------------------------------

  /** The characters ECMAScript's `trim` removes: white space and line terminators. */
  predicate IsSpace(c: char)
  {
    || c == '\t' || c == '\n' || c == '\U{000B}' || c == '\U{000C}' || c == '\r'
    || c == ' ' || c == '\U{00A0}' || c == '\U{1680}'
    || ('\U{2000}' <= c <= '\U{200A}')
    || c == '\U{2028}' || c == '\U{2029}' || c == '\U{202F}' || c == '\U{205F}'
    || c == '\U{3000}' || c == '\U{FEFF}'
  }

  predicate AllSpace(s: string)
  {
    forall i :: 0 <= i < |s| ==> IsSpace(s[i])
  }

  /** s without its leading white space. */
  function TrimStart(s: string): (r: string)
    ensures |r| <= |s|
  {
    if s != [] && IsSpace(s[0]) then TrimStart(s[1..]) else s
  }

  /** s without its trailing white space. */
  function TrimEnd(s: string): (r: string)
    ensures |r| <= |s|
  {
    if s != [] && IsSpace(s[|s| - 1]) then TrimEnd(s[..|s| - 1]) else s
  }

  /** TrimStart leaves the suffix after the longest all-space prefix. */
  lemma {:induction false} TrimStartSpec(s: string)
    ensures var r := TrimStart(s);
            && r == s[|s| - |r|..]
            && AllSpace(s[..|s| - |r|])
            && (r == [] || !IsSpace(r[0]))
  {
    if s != [] && IsSpace(s[0]) {
      TrimStartSpec(s[1..]);
      var r := TrimStart(s);
      assert s[1..][|s| - 1 - |r|..] == s[|s| - |r|..];
      assert forall i :: 1 <= i < |s| - |r| ==> s[i] == s[1..][..|s| - 1 - |r|][i - 1];
    }
  }

  /** TrimEnd leaves the prefix before the longest all-space suffix. */
  lemma {:induction false} TrimEndSpec(s: string)
    ensures var r := TrimEnd(s);
            && r == s[..|r|]
            && AllSpace(s[|r|..])
            && (r == [] || !IsSpace(r[|r| - 1]))
  {
    if s != [] && IsSpace(s[|s| - 1]) {
      TrimEndSpec(s[..|s| - 1]);
      var r := TrimEnd(s);
      assert s[..|s| - 1][..|r|] == s[..|r|];
      assert forall i :: |r| <= i < |s| - 1 ==> s[i] == s[..|s| - 1][|r|..][i - |r|];
    }
  }

  function Trim(s: string): string
  {
    TrimEnd(TrimStart(s))
  }

  /**
   * `trim` cuts s into white space, a core, and white space: the core neither
   * starts nor ends with white space.
   */
  lemma TrimSlice(s: string)
    ensures var r := Trim(s);
            exists a, b :: 0 <= a <= b <= |s| && r == s[a..b] && AllSpace(s[..a]) && AllSpace(s[b..])
    ensures var r := Trim(s);
            r == [] || (!IsSpace(r[0]) && !IsSpace(r[|r| - 1]))
  {
    var t := TrimStart(s);
    var r := TrimEnd(t);
    TrimStartSpec(s);
    TrimEndSpec(t);
    var a := |s| - |t|;
    var b := a + |r|;
    assert r == s[a..b];
    assert s[b..] == t[|r|..];
    assert AllSpace(s[..a]) && AllSpace(s[b..]);
    if r != [] {
      assert r[0] == t[0];
    }
  }

  /** Trimming twice is trimming once. */
  lemma TrimIdempotent(s: string)
    ensures Trim(Trim(s)) == Trim(s)
  {
    TrimSlice(s);
    var r := Trim(s);
    TrimUnchanged(r);
  }

  /** A string that neither starts nor ends with white space is its own trim. */
  lemma TrimUnchanged(r: string)
    requires r == [] || (!IsSpace(r[0]) && !IsSpace(r[|r| - 1]))
    ensures Trim(r) == r
  {
  }

  /** The trim is empty exactly when the whole string is white space. */
  lemma TrimEmpty(s: string)
    ensures Trim(s) == [] <==> AllSpace(s)
  {
    var t := TrimStart(s);
    TrimStartSpec(s);
    TrimEndSpec(t);
    if Trim(s) == [] {
      assert AllSpace(t[0..]);
      assert s == s[..|s| - |t|] + t;
    }
    if AllSpace(s) {
      TrimStartAllSpace(s);
    }
  }

  lemma {:induction false} TrimStartAllSpace(s: string)
    requires AllSpace(s)
    ensures TrimStart(s) == []
  {
    if s != [] {
      TrimStartAllSpace(s[1..]);
    }
  }

  // ---------------------------------------------------------------------------
  // split and join on one separator character
  // ---------------------------------------------------------------------------

  /** `s.split(sep)`: the pieces between separators, empty ones included; never empty. */
  function Split(s: string, sep: char): (pieces: seq<string>)
    ensures |pieces| >= 1
  {
    if s == [] then [[]]
    else
      var rest := Split(s[1..], sep);
      if s[0] == sep then [[]] + rest else [[s[0]] + rest[0]] + rest[1..]
  }

  /** `pieces.join(sep)`. */
  function Join(pieces: seq<string>, sep: char): string
    requires |pieces| >= 1
  {
    if |pieces| == 1 then pieces[0] else pieces[0] + [sep] + Join(pieces[1..], sep)
  }

  predicate Free(piece: string, sep: char)
  {
    forall i :: 0 <= i < |piece| ==> piece[i] != sep
  }

  /** No piece of a split holds the separator, and joining the pieces gives s back. */
  lemma {:induction false} SplitJoin(s: string, sep: char)
    ensures forall k :: 0 <= k < |Split(s, sep)| ==> Free(Split(s, sep)[k], sep)
    ensures Join(Split(s, sep), sep) == s
  {
    if s != [] {
      SplitJoin(s[1..], sep);
      var rest := Split(s[1..], sep);
      if s[0] == sep {
        assert Split(s, sep)[1..] == rest;
      } else {
        var pieces := Split(s, sep);
        assert pieces[1..] == rest[1..];
        assert Free(pieces[0], sep) by {
          assert pieces[0] == [s[0]] + rest[0];
          assert forall i :: 1 <= i < |pieces[0]| ==> pieces[0][i] == rest[0][i - 1];
        }
        if |rest| == 1 {
          assert s == [s[0]] + s[1..];
        } else {
          assert rest == [rest[0]] + rest[1..];
          assert Join(rest, sep) == rest[0] + [sep] + Join(rest[1..], sep);
          assert s == [s[0]] + s[1..];
        }
      }
    }
  }

  /** Splitting the join of separator-free pieces gives the pieces back. */
  lemma {:induction false} JoinSplit(pieces: seq<string>, sep: char)
    requires |pieces| >= 1
    requires forall k :: 0 <= k < |pieces| ==> Free(pieces[k], sep)
    ensures Split(Join(pieces, sep), sep) == pieces
  {
    if |pieces| == 1 {
      SplitFree(pieces[0], sep);
    } else {
      JoinSplit(pieces[1..], sep);
      SplitPrefix(pieces[0], sep, Join(pieces[1..], sep));
      assert [pieces[0]] + pieces[1..] == pieces;
    }
  }

  /** A separator-free string splits into itself. */
  lemma {:induction false} SplitFree(s: string, sep: char)
    requires Free(s, sep)
    ensures Split(s, sep) == [s]
  {
    if s != [] {
      SplitFree(s[1..], sep);
      assert [s[0]] + s[1..] == s;
    }
  }

  /** A separator-free piece, the separator, then t: the piece comes first, then t's pieces. */
  lemma {:induction false} SplitPrefix(p: string, sep: char, t: string)
    requires Free(p, sep)
    ensures Split(p + [sep] + t, sep) == [p] + Split(t, sep)
  {
    if p == [] {
      assert [] + [sep] + t == [sep] + t;
      assert ([sep] + t)[1..] == t;
    } else {
      SplitPrefix(p[1..], sep, t);
      var s := p + [sep] + t;
      assert s[0] == p[0];
      assert s[1..] == p[1..] + [sep] + t;
      assert [p[0]] + p[1..] == p;
    }
  }

  // ---------------------------------------------------------------------------
  // decimal numerals
  // ---------------------------------------------------------------------------

  predicate IsDigit(c: char)
  {
    '0' <= c <= '9'
  }

  predicate AllDigits(s: string)
  {
    forall i :: 0 <= i < |s| ==> IsDigit(s[i])
  }

  /** A decimal numeral: one or more digits. */
  predicate IsNumeral(s: string)
  {
    |s| > 0 && AllDigits(s)
  }

  /** A numeral as `toString` writes it: no leading zero unless it is "0". */
  predicate Canonical(s: string)
  {
    IsNumeral(s) && (s[0] != '0' || s == "0")
  }

  function DigitChar(d: nat): (c: char)
    requires d < 10
    ensures IsDigit(c)
  {
    (('0' as int) + d) as char
  }

  function DigitValue(c: char): (d: nat)
    requires IsDigit(c)
    ensures d < 10 && DigitChar(d) == c
  {
    (c as int) - ('0' as int)
  }

  /**
   * The exact value of a string of decimal digits. This is what `parseInt(s)`
   * gives for such s while the value is at most 2^53; above that a double
   * rounds it.
   */
  function ParseDecimal(s: string): nat
    requires AllDigits(s)
  {
    if s == [] then 0 else 10 * ParseDecimal(s[..|s| - 1]) + DigitValue(s[|s| - 1])
  }

  /**
   * The decimal numeral of n: `n.toString()` for a whole number n of at most
   * 2^53. Doubles above that print rounded digits, and from 10^21 on in
   * exponent form.
   */
  function NatToString(n: nat): (r: string)
    ensures Canonical(r)
  {
    if n < 10 then [DigitChar(n)]
    else
      var r := NatToString(n / 10) + [DigitChar(n % 10)];
      assert r[0] == NatToString(n / 10)[0];
      r
  }

  /** Reading a printed number gives the number. */
  lemma {:induction false} ParsePrinted(n: nat)
    ensures ParseDecimal(NatToString(n)) == n
  {
    if n >= 10 {
      ParsePrinted(n / 10);
      var r := NatToString(n);
      assert r[..|r| - 1] == NatToString(n / 10);
    }
  }

  /** Printing the value of a canonical numeral gives the numeral. */
  lemma {:induction false} PrintParsed(s: string)
    requires Canonical(s)
    ensures NatToString(ParseDecimal(s)) == s
  {
    if |s| >= 2 {
      var init := s[..|s| - 1];
      assert init[0] == s[0];
      PrintParsed(init);
      LeadingDigitPositive(init);
      var n := ParseDecimal(s);
      assert n / 10 == ParseDecimal(init) && n % 10 == DigitValue(s[|s| - 1]);
      assert s == init + [s[|s| - 1]];
    }
  }

  lemma {:induction false} LeadingDigitPositive(s: string)
    requires IsNumeral(s) && s[0] != '0'
    ensures ParseDecimal(s) >= 1
  {
    if |s| > 1 {
      assert s[..|s| - 1][0] == s[0];
      LeadingDigitPositive(s[..|s| - 1]);
    }
  }

  /** A leading zero does not change the value. */
  lemma {:induction false} LeadingZero(s: string)
    requires AllDigits(s)
    ensures AllDigits("0" + s) && ParseDecimal("0" + s) == ParseDecimal(s)
  {
    if s != [] {
      var init := s[..|s| - 1];
      LeadingZero(init);
      assert ("0" + s)[..|s|] == "0" + init;
    }
  }

  /** `s.padStart(2, '0')`. */
  function Pad2(s: string): (r: string)
    ensures |r| >= 2
  {
    if |s| >= 2 then s else if |s| == 1 then "0" + s else "00"
  }

  /** Padding a numeral keeps its value, and a one-digit numeral becomes exactly two digits. */
  lemma Pad2Value(s: string)
    requires IsNumeral(s)
    ensures AllDigits(Pad2(s)) && ParseDecimal(Pad2(s)) == ParseDecimal(s)
    ensures |s| == 1 ==> |Pad2(s)| == 2
    ensures |s| >= 2 ==> Pad2(s) == s
  {
    if |s| == 1 {
      LeadingZero(s);
    }
  }

  // ---------------------------------------------------------------------------
  // case mapping and string order
  // ---------------------------------------------------------------------------

  /** `toLowerCase` on one character, for the Latin and Russian alphabets. */
  function ToLower(c: char): char
  {
    if 'A' <= c <= 'Z' || '\U{0410}' <= c <= '\U{042F}' then ((c as int) + 32) as char
    else if c == '\U{0401}' then '\U{0451}'
    else c
  }

  /** `toUpperCase` on one character, for the Latin and Russian alphabets. */
  function ToUpper(c: char): char
  {
    if 'a' <= c <= 'z' || '\U{0430}' <= c <= '\U{044F}' then ((c as int) - 32) as char
    else if c == '\U{0451}' then '\U{0401}'
    else c
  }

  /** A character that is not a letter of either alphabet is its own lower and upper case. */
  lemma CaselessFixed(c: char)
    requires !('A' <= c <= 'Z' || 'a' <= c <= 'z' || '\U{0410}' <= c <= '\U{044F}' || c == '\U{0401}' || c == '\U{0451}')
    ensures ToLower(c) == c && ToUpper(c) == c
  {
  }

  /** Every letter is unchanged by exactly one of the two mappings. */
  lemma LetterOneCase(c: char)
    requires 'A' <= c <= 'Z' || 'a' <= c <= 'z' || '\U{0410}' <= c <= '\U{044F}' || c == '\U{0401}' || c == '\U{0451}'
    ensures (ToLower(c) == c) != (ToUpper(c) == c)
  {
  }

  /**
   * Where a character stands in `sort()`'s code-unit order. Below U+D800 its one
   * code unit is its code point. A character beyond U+FFFF begins with a high
   * surrogate (U+D800 to U+DBFF), so it sorts below U+E000 to U+FFFF; the rank
   * moves that block above every other character.
   */
  function UnitRank(c: char): int
  {
    if c as int < 0xE000 then c as int
    else if c as int < 0x10000 then c as int + 0x110000
    else c as int
  }

  /** The default order of `sort()`: by UTF-16 code units, first difference deciding, a prefix first. */
  function LexLe(a: string, b: string): bool
  {
    if a == [] then true
    else if b == [] then false
    else if a[0] != b[0] then UnitRank(a[0]) < UnitRank(b[0])
    else LexLe(a[1..], b[1..])
  }

  /** The UTF-16 code units of a character: itself, or a high and a low surrogate. */
  function Units(c: char): (u: seq<int>)
    ensures 1 <= |u| <= 2
  {
    var v := c as int;
    if v < 0x10000 then [v]
    else [0xD800 + (v - 0x10000) / 0x400, 0xDC00 + (v - 0x10000) % 0x400]
  }

  /** The UTF-16 encoding of a string. */
  function Utf16(s: string): seq<int>
  {
    if s == [] then [] else Units(s[0]) + Utf16(s[1..])
  }

  /** How JavaScript compares two strings: code unit by code unit, a prefix first. */
  function UnitsLe(x: seq<int>, y: seq<int>): bool
  {
    if x == [] then true
    else if y == [] then false
    else if x[0] != y[0] then x[0] < y[0]
    else UnitsLe(x[1..], y[1..])
  }

  /** A common prefix of code units does not change the comparison. */
  lemma {:induction false} UnitsLeCommonPrefix(p: seq<int>, x: seq<int>, y: seq<int>)
    ensures UnitsLe(p + x, p + y) == UnitsLe(x, y)
  {
    if p == [] {
      assert p + x == x && p + y == y;
    } else {
      assert (p + x)[0] == p[0] == (p + y)[0];
      assert (p + x)[1..] == p[1..] + x && (p + y)[1..] == p[1..] + y;
      UnitsLeCommonPrefix(p[1..], x, y);
    }
  }

  /** Two different characters are ordered by their code units as their ranks are. */
  lemma FirstUnitsDecide(c: char, d: char, x: seq<int>, y: seq<int>)
    requires c != d
    ensures UnitsLe(Units(c) + x, Units(d) + y) == (UnitRank(c) < UnitRank(d))
  {
    var u, w := Units(c) + x, Units(d) + y;
    assert u[0] == Units(c)[0] && w[0] == Units(d)[0];
    if c as int >= 0x10000 && d as int >= 0x10000 && u[0] == w[0] {
      var vc, vd := c as int - 0x10000, d as int - 0x10000;
      assert vc == 0x400 * (vc / 0x400) + vc % 0x400;
      assert vd == 0x400 * (vd / 0x400) + vd % 0x400;
      assert u[1..][0] == Units(c)[1] && w[1..][0] == Units(d)[1];
    }
  }

  /** LexLe is JavaScript's comparison of the two strings' UTF-16 encodings. */
  lemma {:induction false} LexLeIsUtf16Order(a: string, b: string)
    ensures LexLe(a, b) == UnitsLe(Utf16(a), Utf16(b))
  {
    if a != [] && b != [] {
      if a[0] == b[0] {
        LexLeIsUtf16Order(a[1..], b[1..]);
        UnitsLeCommonPrefix(Units(a[0]), Utf16(a[1..]), Utf16(b[1..]));
      } else {
        FirstUnitsDecide(a[0], b[0], Utf16(a[1..]), Utf16(b[1..]));
      }
    }
  }

  /**
   * A character beyond U+FFFF sorts before one in U+E000 to U+FFFF, though its
   * code point is larger: the emoji U+1F600 comes before the full-width A.
   */
  lemma SurrogatesBeforeHighBmp()
    ensures LexLe("\U{1F600}", "\U{FF21}") && !LexLe("\U{FF21}", "\U{1F600}")
    ensures UnitsLe(Utf16("\U{1F600}"), Utf16("\U{FF21}"))
  {
    LexLeIsUtf16Order("\U{1F600}", "\U{FF21}");
  }

  lemma {:induction false} LexLeTotal(a: string, b: string)
    ensures LexLe(a, b) || LexLe(b, a)
  {
    if a != [] && b != [] && a[0] == b[0] {
      LexLeTotal(a[1..], b[1..]);
    }
  }

  lemma {:induction false} LexLeTransitive(a: string, b: string, c: string)
    requires LexLe(a, b) && LexLe(b, c)
    ensures LexLe(a, c)
  {
    if a != [] && b != [] && c != [] && a[0] == b[0] && b[0] == c[0] {
      LexLeTransitive(a[1..], b[1..], c[1..]);
    }
  }

  /** Two strings that are each at most the other are equal: the order is a total order. */
  lemma {:induction false} LexLeAntisymmetric(a: string, b: string)
    requires LexLe(a, b) && LexLe(b, a)
    ensures a == b
  {
    if a != [] && b != [] {
      LexLeAntisymmetric(a[1..], b[1..]);
      assert a == [a[0]] + a[1..] && b == [b[0]] + b[1..];
    }
  }

  lemma LexPreorder()
    ensures Sequences.TotalPreorder(LexLe)
  {
    forall a, b ensures LexLe(a, b) || LexLe(b, a) {
      LexLeTotal(a, b);
    }
    forall a, b, c | LexLe(a, b) && LexLe(b, c) ensures LexLe(a, c) {
      LexLeTransitive(a, b, c);
    }
  }
}

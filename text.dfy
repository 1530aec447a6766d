/**
 * The string operations the city directory relies on: case folding
 * (`toLowerCase`, restricted here to ASCII), substring search
 * (`String.prototype.includes`) and the relational operator `<` on strings,
 * which JavaScript defines as lexicographic order on UTF-16 code units.
 */
module Text {

  predicate IsUpper(c: char)
  {
    'A' <= c <= 'Z'
  }

  /** ASCII case folding of one character; every other character is kept. */
  function LowerChar(c: char): (r: char)
    ensures !IsUpper(r)
    ensures !IsUpper(c) ==> r == c
  {
    if IsUpper(c) then (c as int + 32) as char else c
  }

  /** `s.toLowerCase()` for ASCII letters. */
  function Lower(s: string): (r: string)
    ensures |r| == |s|
    ensures forall i :: 0 <= i < |s| ==> r[i] == LowerChar(s[i])
  {
    if s == [] then [] else [LowerChar(s[0])] + Lower(s[1..])
  }

  lemma {:induction false} LowerAppend(s: string, t: string)
    ensures Lower(s + t) == Lower(s) + Lower(t)
  {
    if s != [] {
      assert (s + t)[1..] == s[1..] + t;
      LowerAppend(s[1..], t);
    }
  }

  predicate StartsWith(s: string, prefix: string)
  {
    |prefix| <= |s| && s[..|prefix|] == prefix
  }

  /** `s.includes(needle)`: the needle occurs somewhere in `s`. */
  predicate Contains(s: string, needle: string)
    decreases |s|
  {
    StartsWith(s, needle) || (s != [] && Contains(s[1..], needle))
  }

  /** Every string includes the empty string. */
  lemma ContainsEmpty(s: string)
    ensures Contains(s, "")
  {
  }

  /** `needle` occurs in `s` starting at index `i`. */
  predicate OccursAt(s: string, needle: string, i: int)
  {
    0 <= i <= |s| - |needle| && s[i..i + |needle|] == needle
  }

  /** `Contains` agrees with the positional definition of an occurrence. */
  lemma {:induction false} ContainsAt(s: string, needle: string)
    ensures Contains(s, needle) <==> exists i :: OccursAt(s, needle, i)
  {
    if StartsWith(s, needle) {
      assert OccursAt(s, needle, 0);
    }
    if s == [] {
      if i :| OccursAt(s, needle, i) {
        assert i == 0;
      }
    } else {
      ContainsAt(s[1..], needle);
      if Contains(s[1..], needle) {
        var i :| OccursAt(s[1..], needle, i);
        assert s[i + 1..i + 1 + |needle|] == s[1..][i..i + |needle|];
        assert OccursAt(s, needle, i + 1);
      }
      if i :| OccursAt(s, needle, i) {
        if i > 0 {
          assert s[1..][i - 1..i - 1 + |needle|] == s[i..i + |needle|];
          assert OccursAt(s[1..], needle, i - 1);
        }
      }
    }
  }

  /** A string that includes `needle + more` includes `needle`. */
  lemma {:induction false} ContainsPrefixOfNeedle(s: string, needle: string, more: string)
    requires Contains(s, needle + more)
    ensures Contains(s, needle)
  {
    if StartsWith(s, needle + more) {
      assert s[..|needle|] == (needle + more)[..|needle|];
    } else {
      ContainsPrefixOfNeedle(s[1..], needle, more);
    }
  }

  /**
   * A character's position in UTF-16 code-unit order. A character above U+FFFF
   * is a surrogate pair whose first unit lies in 0xD800-0xDBFF, so it sorts
   * after U+D7FF and before U+E000. Characters U+E000-U+FFFF are moved above
   * every other rank; everything else keeps its code point.
   */
  function UnitRank(c: char): int
  {
    var n := c as int;
    if 0xE000 <= n < 0x10000 then n + 0x110000 else n
  }

  /**
   * JavaScript `a < b` on strings: lexicographic order, a proper prefix first,
   * with characters compared by `UnitRank`. `LessIsUtf16Order` shows this is
   * the order of the strings' UTF-16 code units.
   */
  predicate Less(a: string, b: string)
    decreases |a|
  {
    if a == [] then b != []
    else if b == [] then false
    else if a[0] != b[0] then UnitRank(a[0]) < UnitRank(b[0])
    else Less(a[1..], b[1..])
  }

  /** The UTF-16 encoding of one character: one unit, or a surrogate pair above U+FFFF. */
  function CodeUnits(c: char): (u: seq<int>)
    ensures 1 <= |u| <= 2
  {
    var n := c as int;
    if n < 0x10000 then [n]
    else [0xD800 + (n - 0x10000) / 0x400, 0xDC00 + (n - 0x10000) % 0x400]
  }

  /** The UTF-16 code units of a string, the units JavaScript's `<` compares. */
  function Utf16(s: string): (u: seq<int>)
    ensures s == [] <==> u == []
  {
    if s == [] then [] else CodeUnits(s[0]) + Utf16(s[1..])
  }

  /** Lexicographic order on code-unit sequences, a proper prefix first. */
  predicate UnitsLess(u: seq<int>, v: seq<int>)
    decreases |u|
  {
    if u == [] then v != []
    else if v == [] then false
    else if u[0] != v[0] then u[0] < v[0]
    else UnitsLess(u[1..], v[1..])
  }

  lemma {:induction false} UnitsLessCommonPrefix(p: seq<int>, x: seq<int>, y: seq<int>)
    ensures UnitsLess(p + x, p + y) <==> UnitsLess(x, y)
  {
    if p != [] {
      assert (p + x)[0] == (p + y)[0];
      assert (p + x)[1..] == p[1..] + x;
      assert (p + y)[1..] == p[1..] + y;
      UnitsLessCommonPrefix(p[1..], x, y);
    } else {
      assert p + x == x && p + y == y;
    }
  }

  /** Two different characters: their encodings decide the order, as their ranks do. */
  lemma DifferentCharsOrder(x: char, y: char, r1: seq<int>, r2: seq<int>)
    requires x != y
    ensures UnitsLess(CodeUnits(x) + r1, CodeUnits(y) + r2) <==> UnitRank(x) < UnitRank(y)
  {
    var u, v := CodeUnits(x) + r1, CodeUnits(y) + r2;
    var n, m := x as int, y as int;
    if u[0] == v[0] {
      // Equal first units: both are surrogate pairs with the same high surrogate.
      assert n >= 0x10000 && m >= 0x10000;
      assert (n - 0x10000) / 0x400 == (m - 0x10000) / 0x400;
      assert u[1] != v[1];
      assert UnitsLess(u, v) == (u[1] < v[1]);
    }
  }

  /** `Less` is JavaScript's comparison of UTF-16 code units. */
  lemma {:induction false} LessIsUtf16Order(a: string, b: string)
    ensures Less(a, b) <==> UnitsLess(Utf16(a), Utf16(b))
    decreases |a|
  {
    if a != [] && b != [] {
      if a[0] == b[0] {
        LessIsUtf16Order(a[1..], b[1..]);
        UnitsLessCommonPrefix(CodeUnits(a[0]), Utf16(a[1..]), Utf16(b[1..]));
      } else {
        DifferentCharsOrder(a[0], b[0], Utf16(a[1..]), Utf16(b[1..]));
      }
    }
  }

  lemma {:induction false} LessIrreflexive(a: string)
    ensures !Less(a, a)
  {
    if a != [] {
      LessIrreflexive(a[1..]);
    }
  }

  lemma {:induction false} LessTransitive(a: string, b: string, c: string)
    requires Less(a, b) && Less(b, c)
    ensures Less(a, c)
  {
    if a != [] && b != [] && c != [] && a[0] == b[0] && b[0] == c[0] {
      LessTransitive(a[1..], b[1..], c[1..]);
    }
  }

  /** Any two strings are equal or ordered one way round. */
  lemma {:induction false} LessTotal(a: string, b: string)
    ensures a == b || Less(a, b) || Less(b, a)
  {
    if a != [] && b != [] && a[0] == b[0] {
      LessTotal(a[1..], b[1..]);
      if a[1..] == b[1..] {
        assert a == [a[0]] + a[1..] && b == [b[0]] + b[1..];
      }
    }
  }
}

/**
 * Strings as sequences of characters: ASCII lower-casing (String.prototype.toLowerCase
 * restricted to ASCII), substring search (String.prototype.includes), the UTF-16
 * code-unit order used by Array.prototype.sort, and single-occurrence replacement
 * (String.prototype.replace with a string pattern).
 */
module Text {

  function LowerChar(c: char): (r: char)
    ensures 'A' <= c <= 'Z' ==> r as int == c as int + 32
    ensures !('A' <= c <= 'Z') ==> r == c
  {
    if 'A' <= c <= 'Z' then (c as int + 32) as char else c
  }

  function Lower(s: string): (r: string)
    ensures |r| == |s|
    ensures forall i :: 0 <= i < |s| ==> r[i] == LowerChar(s[i])
  {
    if s == [] then [] else [LowerChar(s[0])] + Lower(s[1..])
  }

  /** `t` is `s` lowercased, checked character by character. */
  lemma LowerIs(s: string, t: string)
    requires |s| == |t| && forall i :: 0 <= i < |s| ==> t[i] == LowerChar(s[i])
    ensures Lower(s) == t
  {
  }

  /** `s` begins with `prefix`. */
  predicate StartsWith(s: string, prefix: string) {
    |prefix| <= |s| && s[..|prefix|] == prefix
  }

  /** `hay.includes(needle)`: some position of `hay` begins an occurrence of `needle`. */
  predicate Contains(hay: string, needle: string)
    decreases |hay|
  {
    StartsWith(hay, needle) || (hay != [] && Contains(hay[1..], needle))
  }

  /** `needle` occurs in `hay` starting at position `i`. */
  predicate OccursAt(hay: string, needle: string, i: int) {
    0 <= i && i + |needle| <= |hay| && hay[i..i + |needle|] == needle
  }

  /** Contains agrees with the positional definition of an occurrence. */
  lemma {:induction false} ContainsAt(hay: string, needle: string)
    ensures Contains(hay, needle) <==> exists i :: OccursAt(hay, needle, i)
    decreases |hay|
  {
    if StartsWith(hay, needle) {
      assert OccursAt(hay, needle, 0);
    }
    if hay != [] {
      ContainsAt(hay[1..], needle);
      if Contains(hay[1..], needle) {
        var i :| OccursAt(hay[1..], needle, i);
        assert hay[1..][i..i + |needle|] == hay[i + 1..i + 1 + |needle|];
        assert OccursAt(hay, needle, i + 1);
      }
      if exists i :: OccursAt(hay, needle, i) {
        var i :| OccursAt(hay, needle, i);
        if i > 0 {
          assert hay[1..][i - 1..i - 1 + |needle|] == hay[i..i + |needle|];
          assert OccursAt(hay[1..], needle, i - 1);
        }
      }
    }
  }

  /**
   * The UTF-16 code units of a character: the character itself below U+10000, and a
   * surrogate pair (high surrogate first) above it.
   */
  function CodeUnits(c: char): (u: seq<int>)
    ensures |u| == (if c as int < 0x1_0000 then 1 else 2)
    ensures forall k :: 0 <= k < |u| ==> 0 <= u[k] < 0x1_0000
  {
    if c as int < 0x1_0000 then [c as int]
    else
      var v := c as int - 0x1_0000;
      [0xD800 + v / 0x400, 0xDC00 + v % 0x400]
  }

  /** A string as the sequence of its UTF-16 code units, the form JavaScript compares. */
  function Utf16(s: string): seq<int> {
    if s == [] then [] else CodeUnits(s[0]) + Utf16(s[1..])
  }

  /** Strict lexicographic order of code-unit sequences. */
  predicate UnitsBelow(u: seq<int>, v: seq<int>) {
    if u == [] then v != []
    else if v == [] then false
    else if u[0] != v[0] then u[0] < v[0]
    else UnitsBelow(u[1..], v[1..])
  }

  /**
   * A rank of characters in the order of their code units: characters below U+D800 and
   * above U+FFFF keep their code point, and U+E000..U+FFFF, whose single unit exceeds
   * every high surrogate, rank above all of them.
   */
  function UnitRank(c: char): int {
    if c as int < 0xD800 || c as int >= 0x1_0000 then c as int else c as int + 0x11_0000
  }

  /**
   * Strict order of strings by UTF-16 code units, the comparison of JavaScript's default
   * `sort()`: at the first differing character the lower rank comes first, and a proper
   * prefix comes before the longer string.
   */
  predicate Below(a: string, b: string) {
    if a == [] then b != []
    else if b == [] then false
    else if a[0] != b[0] then UnitRank(a[0]) < UnitRank(b[0])
    else Below(a[1..], b[1..])
  }

  /** Distinct characters have distinct ranks. */
  lemma RankInjective(c: char, d: char)
    requires c != d
    ensures UnitRank(c) != UnitRank(d)
  {
  }

  /** Above U+FFFF the code-unit pair orders characters as their code points do. */
  lemma PairOrder(c: char, d: char)
    requires c != d && c as int >= 0x1_0000 && d as int >= 0x1_0000
    ensures c as int < d as int <==> UnitsBelow(CodeUnits(c), CodeUnits(d))
  {
    var x, y := c as int - 0x1_0000, d as int - 0x1_0000;
    var u, v := CodeUnits(c), CodeUnits(d);
    assert u == [0xD800 + x / 0x400, 0xDC00 + x % 0x400];
    assert v == [0xD800 + y / 0x400, 0xDC00 + y % 0x400];
    assert x == 0x400 * (x / 0x400) + x % 0x400;
    assert y == 0x400 * (y / 0x400) + y % 0x400;
    if x / 0x400 == y / 0x400 {
      assert x % 0x400 != y % 0x400;
      assert u[1..] == [0xDC00 + x % 0x400] && v[1..] == [0xDC00 + y % 0x400];
      assert u[1..][0] != v[1..][0];
    }
  }

  /** For distinct characters, the rank order is the order of their code units. */
  lemma RankIsUnitOrder(c: char, d: char)
    requires c != d
    ensures UnitRank(c) < UnitRank(d) <==> UnitsBelow(CodeUnits(c), CodeUnits(d))
  {
    if c as int >= 0x1_0000 && d as int >= 0x1_0000 {
      PairOrder(c, d);
    }
  }

  /** Extending two code-unit sequences by the same run in front keeps their order. */
  lemma {:induction false} UnitsBelowCommon(p: seq<int>, x: seq<int>, y: seq<int>)
    ensures UnitsBelow(p + x, p + y) <==> UnitsBelow(x, y)
  {
    if p == [] {
      assert p + x == x && p + y == y;
    } else {
      assert (p + x)[0] == (p + y)[0];
      assert (p + x)[1..] == p[1..] + x && (p + y)[1..] == p[1..] + y;
      UnitsBelowCommon(p[1..], x, y);
    }
  }

  /** At distinct first characters, the order of the encodings is decided by those characters alone. */
  lemma UnitsBelowHeads(c: char, d: char, x: seq<int>, y: seq<int>)
    requires c != d
    ensures UnitsBelow(CodeUnits(c) + x, CodeUnits(d) + y) <==> UnitsBelow(CodeUnits(c), CodeUnits(d))
  {
    var u, v := CodeUnits(c), CodeUnits(d);
    assert (u + x)[0] == u[0] && (v + y)[0] == v[0];
    if u[0] == v[0] {
      assert |u| == 2 && |v| == 2;
      assert (u + x)[1..] == u[1..] + x && (v + y)[1..] == v[1..] + y;
      assert (u + x)[1..][0] == u[1] && (v + y)[1..][0] == v[1];
      assert u != v;
    }
  }

  /** Below is exactly the lexicographic order of the two strings' UTF-16 encodings. */
  lemma {:induction false} BelowIsUnitOrder(a: string, b: string)
    ensures Below(a, b) <==> UnitsBelow(Utf16(a), Utf16(b))
  {
    if a != [] && b != [] {
      if a[0] == b[0] {
        UnitsBelowCommon(CodeUnits(a[0]), Utf16(a[1..]), Utf16(b[1..]));
        BelowIsUnitOrder(a[1..], b[1..]);
      } else {
        UnitsBelowHeads(a[0], b[0], Utf16(a[1..]), Utf16(b[1..]));
        RankIsUnitOrder(a[0], b[0]);
      }
    }
  }

  /** A character above U+FFFF sorts before one in U+E000..U+FFFF, unlike in code-point order. */
  lemma AstralBeforeHighPlane()
    ensures Below("\U{1F600}", "\U{FF61}") && !Below("\U{FF61}", "\U{1F600}")
  {
  }

  lemma {:induction false} BelowIrreflexive(a: string)
    ensures !Below(a, a)
  {
    if a != [] { BelowIrreflexive(a[1..]); }
  }

  lemma {:induction false} BelowTransitive(a: string, b: string, c: string)
    requires Below(a, b) && Below(b, c)
    ensures Below(a, c)
  {
    if a != [] && b != [] && c != [] && a[0] == b[0] && b[0] == c[0] {
      BelowTransitive(a[1..], b[1..], c[1..]);
    }
  }

  lemma {:induction false} BelowTotal(a: string, b: string)
    requires a != b
    ensures Below(a, b) || Below(b, a)
  {
    if a != [] && b != [] {
      if a[0] == b[0] {
        assert a == [a[0]] + a[1..] && b == [b[0]] + b[1..];
        BelowTotal(a[1..], b[1..]);
      } else {
        RankInjective(a[0], b[0]);
      }
    }
  }

  /** Index of the first occurrence of `c` in `s`, or |s| when there is none. */
  function FirstIndexOf(s: string, c: char): (k: nat)
    ensures k <= |s|
    ensures k < |s| ==> s[k] == c
    ensures forall i :: 0 <= i < k ==> s[i] != c
  {
    if s == [] then 0
    else if s[0] == c then 0
    else 1 + FirstIndexOf(s[1..], c)
  }

  /** `s.replace(from, to)` for a one-character pattern: only the first occurrence is replaced. */
  function ReplaceFirst(s: string, from: char, to: char): (r: string)
    ensures |r| == |s|
    ensures forall i :: 0 <= i < |s| ==> r[i] == (if i == FirstIndexOf(s, from) then to else s[i])
  {
    if s == [] then []
    else if s[0] == from then [to] + s[1..]
    else [s[0]] + ReplaceFirst(s[1..], from, to)
  }
}

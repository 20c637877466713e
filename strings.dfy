/**
 * The string operations of the JavaScript runtime that the catalogue pages
 * rely on: `trim`, `toLowerCase`, `indexOf`, `includes`, `endsWith` and
 * `Array.prototype.join`, over strings as sequences of characters.
 */
module Strings {

  /** ECMAScript WhiteSpace and LineTerminator code points: what `trim` removes. */
  predicate IsSpace(c: char) {
    c == '\t' || c == '\n' || c == '\U{000B}' || c == '\U{000C}' || c == '\r' || c == ' '
    || c == '\U{00A0}' || c == '\U{1680}' || ('\U{2000}' <= c <= '\U{200A}')
    || c == '\U{2028}' || c == '\U{2029}' || c == '\U{202F}' || c == '\U{205F}'
    || c == '\U{3000}' || c == '\U{FEFF}'
  }

  predicate AllSpace(s: string) {
    forall i :: 0 <= i < |s| ==> IsSpace(s[i])
  }

  /** Index of the first non-space character at or after `i` (or `|s|`). */
  function SkipSpaces(s: string, i: nat): (j: nat)
    requires i <= |s|
    ensures i <= j <= |s|
    ensures forall k :: i <= k < j ==> IsSpace(s[k])
    ensures j < |s| ==> !IsSpace(s[j])
    decreases |s| - i
  {
    if i < |s| && IsSpace(s[i]) then SkipSpaces(s, i + 1) else i
  }

  /** Index just past the last non-space character of `s[lo..j]`, or `lo` if there is none. */
  function SkipSpacesBack(s: string, lo: nat, j: nat): (k: nat)
    requires lo <= j <= |s|
    ensures lo <= k <= j
    ensures forall m :: k <= m < j ==> IsSpace(s[m])
    ensures k > lo ==> !IsSpace(s[k - 1])
    decreases j
  {
    if j > lo && IsSpace(s[j - 1]) then SkipSpacesBack(s, lo, j - 1) else j
  }

  /** `String.prototype.trim`: drop leading and trailing white space. */
  function Trim(s: string): (t: string)
    ensures |t| <= |s|
    ensures t == "" <==> AllSpace(s)
    ensures t != "" ==> !IsSpace(t[0]) && !IsSpace(t[|t| - 1])
    ensures exists a, b :: 0 <= a <= b <= |s| && t == s[a..b] && AllSpace(s[..a]) && AllSpace(s[b..])
  {
    var a := SkipSpaces(s, 0);
    var b := SkipSpacesBack(s, a, |s|);
    assert AllSpace(s[..a]) && AllSpace(s[b..]);
    s[a..b]
  }

  /** A string with no white space at either end is its own trim. */
  lemma TrimOfTrimmed(t: string)
    requires t == "" || (!IsSpace(t[0]) && !IsSpace(t[|t| - 1]))
    ensures Trim(t) == t
  {
  }

  /** `trim` is idempotent. */
  lemma TrimIdempotent(s: string)
    ensures Trim(Trim(s)) == Trim(s)
  {
    TrimOfTrimmed(Trim(s));
  }

  predicate IsUpper(c: char) {
    'A' <= c <= 'Z'
  }

  /** `toLowerCase` on one character; only ASCII letters are mapped. */
  function LowerChar(c: char): (d: char)
    ensures !IsUpper(d)
    ensures IsSpace(d) == IsSpace(c)
    ensures !IsUpper(c) ==> d == c
  {
    if IsUpper(c) then (c as int - 'A' as int + 'a' as int) as char else c
  }

  /** `String.prototype.toLowerCase`, restricted to the ASCII letters. */
  function Lower(s: string): (t: string)
    ensures |t| == |s|
    ensures forall i :: 0 <= i < |s| ==> t[i] == LowerChar(s[i])
  {
    seq(|s|, i requires 0 <= i < |s| => LowerChar(s[i]))
  }

  lemma LowerIdempotent(s: string)
    ensures Lower(Lower(s)) == Lower(s)
  {
  }

  lemma LowerConcat(a: string, b: string)
    ensures Lower(a + b) == Lower(a) + Lower(b)
  {
  }

  lemma {:induction false} SkipSpacesLower(s: string, i: nat)
    requires i <= |s|
    ensures SkipSpaces(Lower(s), i) == SkipSpaces(s, i)
    decreases |s| - i
  {
    if i < |s| && IsSpace(s[i]) {
      SkipSpacesLower(s, i + 1);
    }
  }

  lemma {:induction false} SkipSpacesBackLower(s: string, lo: nat, j: nat)
    requires lo <= j <= |s|
    ensures SkipSpacesBack(Lower(s), lo, j) == SkipSpacesBack(s, lo, j)
    decreases j
  {
    if j > lo && IsSpace(s[j - 1]) {
      SkipSpacesBackLower(s, lo, j - 1);
    }
  }

  /** Lower-casing and trimming commute, because lower-casing never creates or removes white space. */
  lemma {:induction false} LowerTrimCommute(s: string)
    ensures Trim(Lower(s)) == Lower(Trim(s))
  {
    SkipSpacesLower(s, 0);
    var a := SkipSpaces(s, 0);
    SkipSpacesBackLower(s, a, |s|);
    var b := SkipSpacesBack(s, a, |s|);
    LowerSlice(s, a, b);
  }

  lemma LowerSlice(s: string, a: nat, b: nat)
    requires a <= b <= |s|
    ensures Lower(s)[a..b] == Lower(s[a..b])
  {
  }

  /** The character-level match behind `indexOf`: `sub` occurs in `s` starting at `i`. */
  predicate OccursAt(s: string, sub: string, i: int) {
    0 <= i && i + |sub| <= |s| && s[i..i + |sub|] == sub
  }

  /** `sub` is a contiguous substring of `s`. */
  predicate Contains(s: string, sub: string) {
    exists i :: 0 <= i <= |s| && OccursAt(s, sub, i)
  }

  function IndexFrom(s: string, sub: string, i: nat): (r: int)
    requires i <= |s|
    ensures r == -1 || (i <= r && OccursAt(s, sub, r))
    ensures forall j :: i <= j && (r == -1 || j < r) ==> !OccursAt(s, sub, j)
    decreases |s| - i
  {
    if i + |sub| > |s| then -1
    else if s[i..i + |sub|] == sub then i
    else IndexFrom(s, sub, i + 1)
  }

  /** `String.prototype.indexOf`: the first position of `sub` in `s`, or -1. */
  function IndexOf(s: string, sub: string): (r: int)
    ensures r == -1 <==> !Contains(s, sub)
    ensures r != -1 ==> OccursAt(s, sub, r) && forall j :: 0 <= j < r ==> !OccursAt(s, sub, j)
  {
    IndexFrom(s, sub, 0)
  }

  /** A substring of a piece is a substring of anything that contains the piece. */
  lemma ContainsInfix(a: string, t: string, b: string, sub: string)
    requires Contains(t, sub)
    ensures Contains(a + t + b, sub)
  {
    var i :| 0 <= i <= |t| && OccursAt(t, sub, i);
    var whole := a + t + b;
    assert whole[|a| + i..|a| + i + |sub|] == t[i..i + |sub|];
    assert OccursAt(whole, sub, |a| + i);
  }

  /** A piece of a substring is itself a substring. */
  lemma ContainsPart(s: string, sub: string, k: nat, j: nat)
    requires k <= j <= |sub|
    ensures Contains(s, sub) ==> Contains(s, sub[k..j])
  {
    if Contains(s, sub) {
      var i :| 0 <= i <= |s| && OccursAt(s, sub, i);
      forall m | 0 <= m < j - k
        ensures s[i + k..i + j][m] == sub[k..j][m]
      {
        assert s[i + k + m] == s[i..i + |sub|][k + m];
      }
      assert s[i + k..i + j] == sub[k..j];
      assert OccursAt(s, sub[k..j], i + k);
    }
  }

  /** `String.prototype.endsWith`. */
  predicate EndsWith(s: string, suffix: string) {
    |suffix| <= |s| && s[|s| - |suffix|..] == suffix
  }

  lemma EndsWithContains(s: string, suffix: string)
    ensures EndsWith(s, suffix) ==> Contains(s, suffix)
  {
    if EndsWith(s, suffix) {
      assert OccursAt(s, suffix, |s| - |suffix|);
    }
  }

  /** `Array.prototype.join(sep)` on an array of strings. */
  function Join(parts: seq<string>, sep: string): (r: string)
    ensures parts == [] ==> r == ""
    ensures |parts| == 1 ==> r == parts[0]
  {
    if parts == [] then ""
    else if |parts| == 1 then parts[0]
    else parts[0] + sep + Join(parts[1..], sep)
  }

  /** Lower-casing a join of two or more parts lower-cases the first part, the separator and the rest. */
  lemma LowerJoinCons(parts: seq<string>, sep: string)
    requires |parts| > 1
    ensures Lower(Join(parts, sep)) == Lower(parts[0]) + (Lower(sep) + Lower(Join(parts[1..], sep)))
  {
    var rest := Join(parts[1..], sep);
    LowerConcat(parts[0], sep + rest);
    LowerConcat(sep, rest);
  }

  /** Every joined part, once lower-cased, keeps its substrings in the lower-cased whole. */
  lemma {:induction false} JoinKeepsPartSubstrings(parts: seq<string>, sep: string, i: nat, sub: string)
    requires i < |parts|
    requires Contains(Lower(parts[i]), sub)
    ensures Contains(Lower(Join(parts, sep)), sub)
  {
    if |parts| > 1 {
      var rest := Join(parts[1..], sep);
      LowerJoinCons(parts, sep);
      var x, y, z := Lower(parts[0]), Lower(sep), Lower(rest);
      if i == 0 {
        ContainsInfix([], x, y + z, sub);
        assert [] + x + (y + z) == x + (y + z);
      } else {
        assert parts[1..][i - 1] == parts[i];
        JoinKeepsPartSubstrings(parts[1..], sep, i - 1, sub);
        ContainsInfix(x + y, z, [], sub);
        assert x + y + z + [] == x + (y + z);
      }
      assert Contains(x + (y + z), sub);
    }
  }
}

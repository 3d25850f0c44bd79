/**
  The Python `str` operations that the backend relies on, over Dafny strings.
  Each function follows the CPython semantics of the method it is named after;
  character classes beyond ASCII are handled as noted on each member.
*/
module Strings {

  /** `p` occurs in `s` starting at index `i`. */
  predicate OccursAt(s: string, p: string, i: int)
  {
    0 <= i && i + |p| <= |s| && s[i..i + |p|] == p
  }

  /** `s.startswith(p)` */
  predicate StartsWith(s: string, p: string)
  {
    |p| <= |s| && s[..|p|] == p
  }

  /** `s.endswith(p)` */
  predicate EndsWith(s: string, p: string)
  {
    |p| <= |s| && s[|s| - |p|..] == p
  }

  /** `s.find(p, start)`: the first index at or after `start` where `p` occurs, or -1. */
  function Find(s: string, p: string, start: nat): (r: int)
    ensures r == -1 || (start <= r && OccursAt(s, p, r))
    ensures r == -1 ==> forall i {:trigger OccursAt(s, p, i)} :: start <= i ==> !OccursAt(s, p, i)
    ensures r >= 0 ==> forall i {:trigger OccursAt(s, p, i)} :: start <= i < r ==> !OccursAt(s, p, i)
    decreases |s| - start
  {
    if start + |p| > |s| then -1
    else if s[start..start + |p|] == p then start
    else Find(s, p, start + 1)
  }

  /** A one-character pattern occurs exactly where that character is. */
  lemma OccursAtChar(s: string, c: char, j: int)
    ensures OccursAt(s, [c], j) <==> 0 <= j < |s| && s[j] == c
  {
    if 0 <= j < |s| {
      assert s[j..j + 1] == [s[j]];
    }
  }

  /** The first occurrence of a character from `start` on is where it first appears. */
  lemma FindChar(s: string, c: char, start: nat, k: nat)
    requires start <= k < |s| && s[k] == c && forall i :: start <= i < k ==> s[i] != c
    ensures Find(s, [c], start) == k
  {
    var r := Find(s, [c], start);
    OccursAtChar(s, c, k);
    OccursAtChar(s, c, r);
  }

  /** `p in s` */
  predicate Contains(s: string, p: string)
  {
    Find(s, p, 0) >= 0
  }

  lemma ContainsAt(s: string, p: string, i: int)
    requires OccursAt(s, p, i)
    ensures Contains(s, p)
  {
  }

  /** An occurrence in the tail of a string is one in the string. */
  lemma ContainsTail(s: string, p: string)
    requires |s| > 0
    ensures Contains(s[1..], p) ==> Contains(s, p)
  {
    if Contains(s[1..], p) {
      var j := Find(s[1..], p, 0);
      assert s[1..][j..j + |p|] == s[j + 1..j + 1 + |p|];
      ContainsAt(s, p, j + 1);
    }
  }

  /** The last index at or below `i` where `p` occurs, or -1. */
  function FindLastFrom(s: string, p: string, i: int): (r: int)
    ensures r == -1 || (r <= i && OccursAt(s, p, r))
    ensures forall j {:trigger OccursAt(s, p, j)} :: r < j <= i ==> !OccursAt(s, p, j)
    decreases i + 1
  {
    if i < 0 then -1
    else if i + |p| <= |s| && s[i..i + |p|] == p then i
    else FindLastFrom(s, p, i - 1)
  }

  /** `s.rfind(p)`: the last index where `p` occurs, or -1. */
  function RFind(s: string, p: string): (r: int)
    ensures r == -1 || OccursAt(s, p, r)
    ensures forall j {:trigger OccursAt(s, p, j)} :: r < j ==> !OccursAt(s, p, j)
  {
    FindLastFrom(s, p, |s| - |p|)
  }

  /** A text that ends with `p` has its last occurrence of `p` there. */
  lemma RFindAtEnd(s: string, p: string)
    requires EndsWith(s, p)
    ensures RFind(s, p) == |s| - |p|
  {
    assert OccursAt(s, p, |s| - |p|);
  }

  /** A text without whitespace at its ends strips to itself. */
  lemma StripTrimmed(s: string)
    requires s == "" || Trimmed(s)
    ensures Strip(s) == s
  {
    StripCore([], s, []);
    assert [] + s + [] == s;
  }

  /** The last index below `i` that holds `c`, or -1. */
  function LastIndexOf(s: string, c: char, i: nat): (k: int)
    requires i <= |s|
    ensures -1 <= k < i && (k >= 0 ==> s[k] == c)
    ensures forall j :: k < j < i ==> s[j] != c
    decreases i
  {
    if i == 0 then -1 else if s[i - 1] == c then i - 1 else LastIndexOf(s, c, i - 1)
  }

  /** The index holding the last `c` is what `LastIndexOf` finds. */
  lemma LastIndexOfIs(s: string, c: char, k: int)
    requires -1 <= k < |s| && (k >= 0 ==> s[k] == c)
    requires forall j :: k < j < |s| ==> s[j] != c
    ensures LastIndexOf(s, c, |s|) == k
  {
  }

  /** For a one-character pattern, `rfind` is the last index holding that character. */
  lemma RFindChar(s: string, c: char)
    ensures RFind(s, [c]) == LastIndexOf(s, c, |s|)
  {
    OccursAtChar(s, c, RFind(s, [c]));
    OccursAtChar(s, c, LastIndexOf(s, c, |s|));
  }

  /** `s.replace(pat, rep)`: every non-overlapping occurrence, scanning left to right. */
  function ReplaceAll(s: string, pat: string, rep: string): (r: string)
    requires |pat| > 0
    ensures !Contains(s, pat) ==> r == s
    decreases |s|
  {
    if |s| < |pat| then s
    else if s[..|pat|] == pat then rep + ReplaceAll(s[|pat|..], pat, rep)
    else
      var rest := ReplaceAll(s[1..], pat, rep);
      assert !Contains(s, pat) ==> !Contains(s[1..], pat) by {
        if Contains(s[1..], pat) {
          var j := Find(s[1..], pat, 0);
          assert s[1..][j..j + |pat|] == s[j + 1..j + 1 + |pat|];
          ContainsAt(s, pat, j + 1);
        }
      }
      [s[0]] + rest
  }

  /** The characters for which Python's `str.isspace()` is true. */
  predicate IsSpace(c: char)
  {
    c == ' ' || c == '\t' || c == '\n' || c == '\r' || c == '\U{000B}' || c == '\U{000C}'
    || ('\U{001C}' <= c <= '\U{001F}') || c == '\U{0085}' || c == '\U{00A0}' || c == '\U{1680}'
    || ('\U{2000}' <= c <= '\U{200A}') || c == '\U{2028}' || c == '\U{2029}' || c == '\U{202F}'
    || c == '\U{205F}' || c == '\U{3000}'
  }

  /** Number of whitespace characters at the front of `s`. */
  function LeadingSpaces(s: string): (k: nat)
    ensures k <= |s|
    ensures forall i :: 0 <= i < k ==> IsSpace(s[i])
    ensures k == |s| || !IsSpace(s[k])
  {
    if |s| > 0 && IsSpace(s[0]) then 1 + LeadingSpaces(s[1..]) else 0
  }

  /** Number of whitespace characters at the back of `s`. */
  function TrailingSpaces(s: string): (k: nat)
    ensures k <= |s|
    ensures forall i :: |s| - k <= i < |s| ==> IsSpace(s[i])
    ensures k == |s| || !IsSpace(s[|s| - 1 - k])
  {
    if |s| > 0 && IsSpace(s[|s| - 1]) then 1 + TrailingSpaces(s[..|s| - 1]) else 0
  }

  /** `s.strip()`: `s` without its leading and trailing whitespace. */
  function Strip(s: string): (r: string)
    ensures r == "" || (!IsSpace(r[0]) && !IsSpace(r[|r| - 1]))
    ensures LeadingSpaces(s) + |r| <= |s|
    ensures r == s[LeadingSpaces(s)..LeadingSpaces(s) + |r|]
    ensures forall i :: 0 <= i < LeadingSpaces(s) ==> IsSpace(s[i])
    ensures forall i :: LeadingSpaces(s) + |r| <= i < |s| ==> IsSpace(s[i])
  {
    var lo := LeadingSpaces(s);
    TrailingOfSuffix(s, lo);
    s[lo..|s| - TrailingSpaces(s[lo..])]
  }

  /** The trailing whitespace of a suffix is trailing whitespace of the whole string. */
  lemma TrailingOfSuffix(s: string, lo: nat)
    requires lo <= |s|
    ensures forall i :: |s| - TrailingSpaces(s[lo..]) <= i < |s| ==> IsSpace(s[i])
    ensures |s| - TrailingSpaces(s[lo..]) >= lo
    ensures |s| - TrailingSpaces(s[lo..]) == lo || !IsSpace(s[|s| - TrailingSpaces(s[lo..]) - 1])
  {
    var t := s[lo..];
    assert forall i :: lo <= i < |s| ==> s[i] == t[i - lo];
  }

  /** A string made of whitespace on both sides of a core that has none at its ends strips to that core. */
  lemma StripCore(pre: string, core: string, post: string)
    requires forall i :: 0 <= i < |pre| ==> IsSpace(pre[i])
    requires forall i :: 0 <= i < |post| ==> IsSpace(post[i])
    requires core == "" || (!IsSpace(core[0]) && !IsSpace(core[|core| - 1]))
    ensures Strip(pre + core + post) == core
  {
    var s := pre + core + post;
    var r := Strip(s);
    var lo := LeadingSpaces(s);
    assert forall i :: 0 <= i < |pre| ==> IsSpace(s[i]);
    assert forall i :: |pre| + |core| <= i < |s| ==> IsSpace(s[i]);
    if core == "" {
      assert forall i :: 0 <= i < |s| ==> IsSpace(s[i]);
      assert lo == |s|;
    } else {
      assert s[|pre|] == core[0];
      assert s[|pre| + |core| - 1] == core[|core| - 1];
      assert lo == |pre|;
      assert s[|pre|..|pre| + |core|] == core;
    }
  }

  /** Appending a whitespace character does not change what `strip()` returns. */
  lemma StripAppendSpace(s: string, c: char)
    requires IsSpace(c)
    ensures Strip(s + [c]) == Strip(s)
  {
    var r := Strip(s);
    var k := LeadingSpaces(s);
    var post := s[k + |r|..] + [c];
    assert s + [c] == s[..k] + r + post;
    assert forall i :: 0 <= i < |post| - 1 ==> post[i] == s[k + |r| + i];
    StripCore(s[..k], r, post);
  }

  /** `c.lower()` for ASCII letters; other characters are kept. */
  function LowerChar(c: char): char
  {
    if 'A' <= c <= 'Z' then (c as int + 32) as char else c
  }

  /** `s.lower()`, restricted to ASCII case mapping. */
  function Lower(s: string): (r: string)
    ensures |r| == |s|
    ensures forall i :: 0 <= i < |s| ==> r[i] == LowerChar(s[i])
  {
    seq(|s|, i requires 0 <= i < |s| => LowerChar(s[i]))
  }

  /** `s.split(sep)[0]`: the text before the first `sep`, or all of `s`. */
  function BeforeFirst(s: string, sep: string): (r: string)
    ensures !Contains(r, sep) || (|sep| == 0 && r == "")
    ensures StartsWith(s, r)
    ensures !Contains(s, sep) ==> r == s
    ensures |r| == |s| || OccursAt(s, sep, |r|)
  {
    var i := Find(s, sep, 0);
    if i < 0 then s
    else
      forall j | 0 <= j && j + |sep| <= i && |sep| > 0
        ensures !OccursAt(s[..i], sep, j)
      {
        assert s[..i][j..j + |sep|] == s[j..j + |sep|];
        assert !OccursAt(s, sep, j);
      }
      s[..i]
  }

  /** `s.split(sep)[1]` for an `s` that contains `sep`: the text between the first
      occurrence and the next one (or the end). */
  function SecondField(s: string, sep: string): (r: string)
    requires |sep| > 0 && Contains(s, sep)
    ensures !Contains(r, sep)
    ensures var i := Find(s, sep, 0);
            && 0 <= i && i + |sep| <= |s|
            && StartsWith(s[i + |sep|..], r)
            && (i + |sep| + |r| == |s| || OccursAt(s, sep, i + |sep| + |r|))
  {
    var i := Find(s, sep, 0);
    var rest := s[i + |sep|..];
    var r := BeforeFirst(rest, sep);
    if |r| < |rest| then
      OccursInSuffix(s, sep, i + |sep|, |r|);
      r
    else r
  }

  /** An occurrence in a suffix is one in the whole string, shifted by the cut. */
  lemma OccursInSuffix(s: string, p: string, d: nat, j: nat)
    requires d <= |s| && OccursAt(s[d..], p, j)
    ensures OccursAt(s, p, d + j)
  {
    assert s[d..][j..j + |p|] == s[d + j..d + j + |p|];
  }

  /** A string that starts with `p` has its first occurrence of `p` at 0. */
  lemma FindAtStart(s: string, p: string)
    requires StartsWith(s, p)
    ensures Find(s, p, 0) == 0
  {
    assert OccursAt(s, p, 0);
  }

  /** `p` cannot occur in a string that lacks its first character. */
  lemma NotContainsFirstChar(s: string, p: string)
    requires |p| > 0 && forall i :: 0 <= i < |s| ==> s[i] != p[0]
    ensures !Contains(s, p)
  {
    forall i | 0 <= i && i + |p| <= |s|
      ensures !OccursAt(s, p, i)
    {
      assert s[i..i + |p|][0] == s[i];
    }
  }

  /** Appending a character that does not end `p` creates no occurrence of `p`. */
  lemma NotContainsAppend(t: string, c: char, p: string)
    requires |p| > 0 && p[|p| - 1] != c && !Contains(t, p)
    ensures !Contains(t + [c], p)
  {
    var s := t + [c];
    if Contains(s, p) {
      var i := Find(s, p, 0);
      if i + |p| <= |t| {
        assert s[i..i + |p|] == t[i..i + |p|];
        assert OccursAt(t, p, i);
      }
    }
  }

  /** The field after a leading separator is everything up to the next one. */
  lemma SecondFieldAfterPrefix(sep: string, t: string)
    requires |sep| > 0 && !Contains(t, sep)
    ensures Contains(sep + t, sep) && SecondField(sep + t, sep) == t
  {
    FindAtStart(sep + t, sep);
    assert (sep + t)[|sep|..] == t;
  }

  /** A text without surrounding white space: what `strip()` leaves of a line. */
  predicate Trimmed(t: string)
  {
    t != "" && !IsSpace(t[0]) && !IsSpace(t[|t| - 1])
  }

  /** Stripping a line that ends in a newline gives back its trimmed text. */
  lemma StripLine(t: string)
    requires Trimmed(t)
    ensures Strip(t + "\n") == t
  {
    StripCore("", t, "\n");
    assert "" + t + "\n" == t + "\n";
  }

  /** Text appended after the first occurrence of `p` does not move it. */
  lemma FindExtend(u: string, v: string, p: string)
    requires Find(u, p, 0) >= 0
    ensures Find(u + v, p, 0) == Find(u, p, 0)
  {
    var k := Find(u, p, 0);
    assert (u + v)[k..k + |p|] == u[k..k + |p|];
    forall i | 0 <= i < k ensures !OccursAt(u + v, p, i) {
      assert !OccursAt(u, p, i);
      if i + |p| <= |u| {
        assert (u + v)[i..i + |p|] == u[i..i + |p|];
      }
    }
    assert OccursAt(u + v, p, k);
  }
}

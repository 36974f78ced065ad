/** The few `str` operations of Python the modelled code relies on. */
module Strings {

  predicate StartsWith(s: string, prefix: string) {
    |prefix| <= |s| && s[..|prefix|] == prefix
  }

  predicate EndsWith(s: string, suffix: string) {
    |suffix| <= |s| && s[|s| - |suffix|..] == suffix
  }

  /** Python's `pat in s`. */
  predicate Contains(s: string, pat: string)
    decreases |s|
  {
    StartsWith(s, pat) || (|s| > 0 && Contains(s[1..], pat))
  }

  /** Python's `s.count(pat)`: non-overlapping occurrences, scanned from the left. */
  function Count(s: string, pat: string): nat
    requires |pat| > 0
    decreases |s|
  {
    if |s| < |pat| then 0
    else if StartsWith(s, pat) then 1 + Count(s[|pat|..], pat)
    else Count(s[1..], pat)
  }

  /** Python's `s.replace(pat, sub)`: every non-overlapping occurrence, leftmost first. */
  function Replace(s: string, pat: string, sub: string): string
    requires |pat| > 0
    decreases |s|
  {
    if |s| < |pat| then s
    else if StartsWith(s, pat) then sub + Replace(s[|pat|..], pat, sub)
    else [s[0]] + Replace(s[1..], pat, sub)
  }

  /** Each occurrence grows or shrinks the text by the difference of the two lengths. */
  lemma {:induction false} ReplaceLength(s: string, pat: string, sub: string)
    requires |pat| > 0
    ensures |Replace(s, pat, sub)| == |s| + Count(s, pat) * (|sub| - |pat|)
    decreases |s|
  {
    if |s| < |pat| {
    } else if StartsWith(s, pat) {
      var rest := s[|pat|..];
      ReplaceLength(rest, pat, sub);
      assert |Replace(s, pat, sub)| == |sub| + |Replace(rest, pat, sub)|;
      var c, d := Count(rest, pat), |sub| - |pat|;
      assert Count(s, pat) == 1 + c;
      Distribute(c, d);
    } else {
      ReplaceLength(s[1..], pat, sub);
      assert |Replace(s, pat, sub)| == 1 + |Replace(s[1..], pat, sub)|;
      assert Count(s, pat) == Count(s[1..], pat);
    }
  }

  lemma Distribute(c: int, d: int)
    ensures (1 + c) * d == d + c * d
  {
  }

  /** The count is zero exactly when the pattern does not occur. */
  lemma {:induction false} CountZeroIffAbsent(s: string, pat: string)
    requires |pat| > 0
    ensures Count(s, pat) == 0 <==> !Contains(s, pat)
    decreases |s|
  {
    if |s| < |pat| {
      if Contains(s, pat) {
        AbsentFromShort(s, pat);
      }
    } else if StartsWith(s, pat) {
    } else {
      CountZeroIffAbsent(s[1..], pat);
    }
  }

  lemma {:induction false} AbsentFromShort(s: string, pat: string)
    requires |s| < |pat|
    ensures !Contains(s, pat)
    decreases |s|
  {
    if |s| > 0 {
      AbsentFromShort(s[1..], pat);
    }
  }

  /** A text without the pattern is returned unchanged. */
  lemma {:induction false} ReplaceAbsent(s: string, pat: string, sub: string)
    requires |pat| > 0
    requires !Contains(s, pat)
    ensures Replace(s, pat, sub) == s
    decreases |s|
  {
    if |s| >= |pat| {
      ReplaceAbsent(s[1..], pat, sub);
    }
  }

  /** Python's `s.split(sep)` for a one-character separator. */
  function Split(s: string, sep: char): (parts: seq<string>)
    ensures |parts| > 0
    decreases |s|
  {
    if s == [] then [""]
    else
      var rest := Split(s[1..], sep);
      if s[0] == sep then [""] + rest
      else [[s[0]] + rest[0]] + rest[1..]
  }

  /** There is one more piece than there are separators. */
  lemma {:induction false} SplitCount(s: string, sep: char)
    ensures |Split(s, sep)| == multiset(s)[sep] + 1
    decreases |s|
  {
    if s != [] {
      SplitCount(s[1..], sep);
      assert s == [s[0]] + s[1..];
      assert multiset(s)[sep] == multiset(s[1..])[sep] + (if s[0] == sep then 1 else 0);
    }
  }

  /** No piece holds the separator. */
  lemma {:induction false} SplitPieces(s: string, sep: char)
    ensures forall i :: 0 <= i < |Split(s, sep)| ==> sep !in Split(s, sep)[i]
    decreases |s|
  {
    if s != [] {
      SplitPieces(s[1..], sep);
      var rest := Split(s[1..], sep);
      if s[0] != sep {
        var parts := Split(s, sep);
        assert parts[0] == [s[0]] + rest[0];
        assert forall i :: 1 <= i < |parts| ==> parts[i] == rest[i];
      }
    }
  }

  /** Joining the pieces with the separator gives the text back. */
  lemma {:induction false} SplitJoin(s: string, sep: char)
    ensures Join(Split(s, sep), sep) == s
    decreases |s|
  {
    if s != [] {
      SplitJoin(s[1..], sep);
      var rest := Split(s[1..], sep);
      assert s == [s[0]] + s[1..];
      if s[0] == sep {
        JoinCons("", rest, sep);
      } else {
        JoinPrepend(s[0], rest, sep);
      }
    }
  }

  lemma JoinCons(head: string, rest: seq<string>, sep: char)
    requires |rest| > 0
    ensures Join([head] + rest, sep) == head + [sep] + Join(rest, sep)
  {
    assert ([head] + rest)[1..] == rest;
  }

  lemma JoinPrepend(c: char, parts: seq<string>, sep: char)
    requires |parts| > 0
    ensures Join([[c] + parts[0]] + parts[1..], sep) == [c] + Join(parts, sep)
  {
    if |parts| > 1 {
      JoinCons([c] + parts[0], parts[1..], sep);
      JoinCons(parts[0], parts[1..], sep);
      assert parts == [parts[0]] + parts[1..];
    }
  }

  /** Python's `sep.join(parts)`. */
  function Join(parts: seq<string>, sep: char): string
    decreases |parts|
  {
    if parts == [] then ""
    else if |parts| == 1 then parts[0]
    else parts[0] + [sep] + Join(parts[1..], sep)
  }

  /** The characters Python's `str.strip()` removes, restricted to ASCII: the
      blank, the tab, line and page breaks, and the four separators 0x1C-0x1F. */
  predicate IsSpace(c: char) {
    c == ' ' || c == '\t' || c == '\n' || c == '\r' || c == '\U{B}' || c == '\U{C}' ||
    c == '\U{1C}' || c == '\U{1D}' || c == '\U{1E}' || c == '\U{1F}'
  }

  function StripLeft(s: string): string
    decreases |s|
  {
    if |s| > 0 && IsSpace(s[0]) then StripLeft(s[1..]) else s
  }

  function StripRight(s: string): string
    decreases |s|
  {
    if |s| > 0 && IsSpace(s[|s| - 1]) then StripRight(s[..|s| - 1]) else s
  }

  /** Python's `s.strip()`. */
  function Strip(s: string): string {
    StripRight(StripLeft(s))
  }
}

/** POSIX `os.path.join`. */
module Paths {
  import opened Strings

  /** `os.path.join(a, b)`: an absolute `b` replaces `a`; otherwise `b` is
      appended after a separator, unless `a` is empty or already ends in one. */
  function JoinPath(a: string, b: string): (r: string)
    ensures EndsWith(r, b)
    ensures !StartsWith(b, "/") ==> StartsWith(r, a) && |a| + |b| <= |r| <= |a| + 1 + |b|
    ensures !StartsWith(b, "/") && |r| == |a| + 1 + |b| ==> r[|a|] == '/' && a != "" && !EndsWith(a, "/")
    ensures !StartsWith(b, "/") && |r| == |a| + |b| ==> a == "" || EndsWith(a, "/")
    ensures StartsWith(b, "/") ==> r == b
  {
    if StartsWith(b, "/") then b
    else if a == "" || EndsWith(a, "/") then a + b
    else a + "/" + b
  }

  /** A single path component: not empty and free of separators. */
  predicate IsSegment(s: string) {
    |s| > 0 && '/' !in s
  }

  /** A directory spelled with its trailing separator, as the defaults are. */
  predicate IsDirPrefix(s: string) {
    |s| > 0 && s[|s| - 1] == '/'
  }

  /** A directory spelled without a trailing separator, such as `../data/annotations`. */
  predicate IsBareDir(s: string) {
    |s| > 0 && s[|s| - 1] != '/'
  }

  /** With plain components `os.path.join` is the plain separator join. */
  lemma JoinSegments(a: string, b: string)
    requires IsSegment(a) && IsSegment(b)
    ensures JoinPath(a, b) == a + "/" + b
  {
    assert !StartsWith(b, "/") by { assert b[0] != '/'; }
    assert !EndsWith(a, "/") by { assert a[|a| - 1] != '/'; }
  }

  /** A plain component under a directory without its trailing separator. */
  lemma JoinUnderBareDir(d: string, b: string)
    requires IsBareDir(d) && IsSegment(b)
    ensures JoinPath(d, b) == d + "/" + b
  {
    assert !StartsWith(b, "/") by { assert b[0] != '/'; }
    assert !EndsWith(d, "/") by { assert d[|d| - 1] != '/'; }
  }

  lemma JoinUnderDir(d: string, b: string)
    requires IsDirPrefix(d) && IsSegment(b)
    ensures JoinPath(d, b) == d + b
  {
    assert !StartsWith(b, "/") by { assert b[0] != '/'; }
    assert EndsWith(d, "/") by { assert d[|d| - 1..] == "/"; }
  }

  /** A relative two-component path placed under a directory. */
  lemma JoinUnderNested(d: string, a: string, b: string)
    requires IsSegment(a) && IsSegment(b)
    ensures IsBareDir(d) ==> JoinPath(d, JoinPath(a, b)) == d + "/" + a + "/" + b
    ensures IsDirPrefix(d) ==> JoinPath(d, JoinPath(a, b)) == d + a + "/" + b
  {
    JoinSegments(a, b);
    var ab := a + "/" + b;
    assert !StartsWith(ab, "/") by { assert ab[0] == a[0]; }
    if IsBareDir(d) {
      assert !EndsWith(d, "/") by { assert d[|d| - 1] != '/'; }
    }
    if IsDirPrefix(d) {
      assert EndsWith(d, "/") by { assert d[|d| - 1..] == "/"; }
    }
  }

  /** A plain component joined under a directory, then a plain file under that. */
  lemma JoinThenJoin(d: string, a: string, b: string)
    requires IsSegment(a) && IsSegment(b)
    ensures IsBareDir(d) ==> JoinPath(JoinPath(d, a), b) == d + "/" + a + "/" + b
    ensures IsDirPrefix(d) ==> JoinPath(JoinPath(d, a), b) == d + a + "/" + b
  {
    if IsBareDir(d) {
      JoinUnderBareDir(d, a);
      var da := d + "/" + a;
      JoinAfterSegment(da, a, b);
    }
    if IsDirPrefix(d) {
      JoinUnderDir(d, a);
      var da := d + a;
      JoinAfterSegment(da, a, b);
    }
  }

  /** A path ending in a plain component takes a plain file after one separator. */
  lemma JoinAfterSegment(p: string, a: string, b: string)
    requires IsSegment(a) && IsSegment(b) && EndsWith(p, a)
    ensures JoinPath(p, b) == p + "/" + b
  {
    assert p[|p| - 1] == a[|a| - 1];
    assert !EndsWith(p, "/") by { assert p[|p| - 1] != '/'; }
    assert !StartsWith(b, "/") by { assert b[0] != '/'; }
  }
}

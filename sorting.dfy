/** Python's `sorted` on a list of strings: code-point lexicographic order. */
module Sorting {

  /** `a <= b` on Python strings. */
  predicate LexLe(a: string, b: string)
    decreases |a|
  {
    a == [] || (b != [] && (a[0] < b[0] || (a[0] == b[0] && LexLe(a[1..], b[1..]))))
  }

  lemma {:induction false} LexLeTotal(a: string, b: string)
    ensures LexLe(a, b) || LexLe(b, a)
    decreases |a|
  {
    if a != [] && b != [] && a[0] == b[0] {
      LexLeTotal(a[1..], b[1..]);
    }
  }

  lemma {:induction false} LexLeTransitive(a: string, b: string, c: string)
    requires LexLe(a, b) && LexLe(b, c)
    ensures LexLe(a, c)
    decreases |a|
  {
    if a != [] && a[0] == b[0] && b[0] == c[0] {
      LexLeTransitive(a[1..], b[1..], c[1..]);
    }
  }

  lemma {:induction false} LexLeAntisymmetric(a: string, b: string)
    requires LexLe(a, b) && LexLe(b, a)
    ensures a == b
    decreases |a|
  {
    if a != [] {
      LexLeAntisymmetric(a[1..], b[1..]);
      assert a == [a[0]] + a[1..] && b == [b[0]] + b[1..];
    }
  }

  ghost predicate Ordered(s: seq<string>) {
    forall i, j :: 0 <= i < j < |s| ==> LexLe(s[i], s[j])
  }

  function Insert(x: string, s: seq<string>): (r: seq<string>)
    ensures multiset(r) == multiset(s) + multiset{x}
    decreases |s|
  {
    if s == [] then [x]
    else if LexLe(x, s[0]) then [x] + s
    else
      assert s == [s[0]] + s[1..];
      [s[0]] + Insert(x, s[1..])
  }

  /** `sorted(names)`, as an insertion sort. */
  function SortStrings(names: seq<string>): (r: seq<string>)
    decreases |names|
  {
    if names == [] then [] else Insert(names[0], SortStrings(names[1..]))
  }

  lemma {:induction false} InsertOrdered(x: string, s: seq<string>)
    requires Ordered(s)
    ensures Ordered(Insert(x, s))
    decreases |s|
  {
    if s == [] {
    } else if LexLe(x, s[0]) {
      var r := [x] + s;
      forall i, j | 0 <= i < j < |r| ensures LexLe(r[i], r[j]) {
        if i == 0 && j > 1 {
          LexLeTransitive(x, s[0], s[j - 1]);
        }
      }
    } else {
      LexLeTotal(x, s[0]);
      InsertOrdered(x, s[1..]);
      var tail := Insert(x, s[1..]);
      var r := [s[0]] + tail;
      forall i, j | 0 <= i < j < |r| ensures LexLe(r[i], r[j]) {
        if i == 0 {
          var y := r[j];
          assert y in multiset(tail);
          assert y in multiset(s[1..]) + multiset{x};
          if y != x {
            assert y in s[1..];
            var k :| 0 <= k < |s[1..]| && s[1..][k] == y;
            assert s[k + 1] == y;
          }
        }
      }
    }
  }

  /** The result of `sorted` is in order and holds the same names, each as often. */
  lemma {:induction false} SortStringsCorrect(names: seq<string>)
    ensures Ordered(SortStrings(names))
    ensures multiset(SortStrings(names)) == multiset(names)
    decreases |names|
  {
    if names != [] {
      SortStringsCorrect(names[1..]);
      InsertOrdered(names[0], SortStrings(names[1..]));
      assert names == [names[0]] + names[1..];
    }
  }

  /** Sorting does not depend on the order of the listing: the sorted list is
      determined by the multiset of names. */
  lemma {:induction false} OrderedUnique(a: seq<string>, b: seq<string>)
    requires Ordered(a) && Ordered(b) && multiset(a) == multiset(b)
    ensures a == b
    decreases |a|
  {
    if a != [] {
      assert a[0] in multiset(b);
      assert b[0] in multiset(a) by {
        assert b != [] && b[0] in multiset(b);
      }
      HeadsEqual(a, b);
      assert multiset(a[1..]) == multiset(b[1..]) by {
        TailMultiset(a);
        TailMultiset(b);
      }
      OrderedTail(a);
      OrderedTail(b);
      OrderedUnique(a[1..], b[1..]);
      assert a == [a[0]] + a[1..] && b == [b[0]] + b[1..];
    }
  }

  lemma HeadsEqual(a: seq<string>, b: seq<string>)
    requires a != [] && b != []
    requires Ordered(a) && Ordered(b)
    requires a[0] in multiset(b) && b[0] in multiset(a)
    ensures a[0] == b[0]
  {
    MinimumFirst(a, b[0]);
    MinimumFirst(b, a[0]);
    LexLeAntisymmetric(a[0], b[0]);
  }

  lemma TailMultiset(a: seq<string>)
    requires a != []
    ensures multiset(a[1..]) == multiset(a) - multiset{a[0]}
  {
    assert a == [a[0]] + a[1..];
  }

  lemma OrderedTail(a: seq<string>)
    requires a != [] && Ordered(a)
    ensures Ordered(a[1..])
  {
    var t := a[1..];
    forall i, j | 0 <= i < j < |t| ensures LexLe(t[i], t[j]) {
      assert t[i] == a[i + 1] && t[j] == a[j + 1];
    }
  }

  /** A head no greater than any element of an ordered tail keeps the sequence ordered. */
  lemma OrderedCons(h: string, t: seq<string>)
    requires Ordered(t)
    requires forall x :: x in t ==> LexLe(h, x)
    ensures Ordered([h] + t)
  {
    var r := [h] + t;
    forall i, j | 0 <= i < j < |r| ensures LexLe(r[i], r[j]) {
      assert r[j] == t[j - 1];
      if i > 0 {
        assert r[i] == t[i - 1];
      }
    }
  }

  lemma MinimumFirst(s: seq<string>, y: string)
    requires Ordered(s) && y in multiset(s)
    ensures LexLe(s[0], y)
  {
    var k :| 0 <= k < |s| && s[k] == y;
    if k == 0 {
      LexLeReflexive(y);
    }
  }

  lemma {:induction false} LexLeReflexive(a: string)
    ensures LexLe(a, a)
    decreases |a|
  {
    if a != [] {
      LexLeReflexive(a[1..]);
    }
  }

  lemma SortedListingIndependent(names: seq<string>, other: seq<string>)
    requires multiset(names) == multiset(other)
    ensures SortStrings(names) == SortStrings(other)
  {
    SortStringsCorrect(names);
    SortStringsCorrect(other);
    OrderedUnique(SortStrings(names), SortStrings(other));
  }

  /** `sorted` keeps exactly the listed names. */
  lemma SortStringsMembers(names: seq<string>)
    ensures forall n :: n in SortStrings(names) <==> n in names
  {
    SortStringsCorrect(names);
    assert forall n :: n in SortStrings(names) <==> n in multiset(SortStrings(names));
    assert forall n :: n in names <==> n in multiset(names);
  }
}

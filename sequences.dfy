/** Order-preserving filters and concatenation over sequences: the row
    selections and table concatenations of the modelled code. */
module Sequences {

  /** `a` is `b` with some elements removed, the rest kept in order. */
  ghost predicate IsSubsequence<T>(a: seq<T>, b: seq<T>)
    decreases |b|
  {
    a == [] || (b != [] && ((a[0] == b[0] && IsSubsequence(a[1..], b[1..])) || IsSubsequence(a, b[1..])))
  }

  /** The elements of `s` that satisfy `keep`, in their order in `s`. The three
      postconditions together determine the result. */
  function Filter<T(!new)>(s: seq<T>, keep: T -> bool): (r: seq<T>)
    ensures forall i :: 0 <= i < |r| ==> keep(r[i])
    ensures forall x :: multiset(r)[x] == if keep(x) then multiset(s)[x] else 0
    ensures IsSubsequence(r, s)
    decreases |s|
  {
    if s == [] then []
    else
      assert s == [s[0]] + s[1..];
      if keep(s[0]) then [s[0]] + Filter(s[1..], keep) else Filter(s[1..], keep)
  }

  /** Two kept elements give a filter result of at least two elements. */
  lemma {:induction false} FilterTwo<T(!new)>(s: seq<T>, keep: T -> bool, i: nat, j: nat)
    requires i < j < |s| && keep(s[i]) && keep(s[j])
    ensures |Filter(s, keep)| >= 2
    decreases i
  {
    assert s == [s[0]] + s[1..];
    if i == 0 {
      assert s[1..][j - 1] == s[j];
      assert s[j] in multiset(s[1..]);
      assert |Filter(s[1..], keep)| > 0;
    } else {
      FilterTwo(s[1..], keep, i - 1, j - 1);
    }
  }

  /** When at most one element is kept, the filter result has at most one element. */
  lemma {:induction false} FilterAtMostOne<T(!new)>(s: seq<T>, keep: T -> bool)
    requires forall i, j :: 0 <= i < |s| && 0 <= j < |s| && keep(s[i]) && keep(s[j]) ==> i == j
    ensures |Filter(s, keep)| <= 1
    decreases |s|
  {
    if s != [] {
      assert s == [s[0]] + s[1..];
      var t := s[1..];
      assert forall i, j :: 0 <= i < |t| && 0 <= j < |t| && keep(t[i]) && keep(t[j]) ==> i == j by {
        forall i, j | 0 <= i < |t| && 0 <= j < |t| && keep(t[i]) && keep(t[j]) ensures i == j {
          assert s[i + 1] == t[i] && s[j + 1] == t[j];
        }
      }
      FilterAtMostOne(t, keep);
    }
  }

  /** The filter is empty exactly when no element is kept. */
  lemma {:induction false} FilterEmpty<T(!new)>(s: seq<T>, keep: T -> bool)
    ensures Filter(s, keep) == [] <==> forall i :: 0 <= i < |s| ==> !keep(s[i])
    decreases |s|
  {
    if s != [] {
      FilterEmpty(s[1..], keep);
      if !keep(s[0]) {
        forall i | 0 <= i < |s| && i > 0 ensures s[i] == s[1..][i - 1] { }
      }
    }
  }

  /** The filter keeps the first element or not, then filters the rest. */
  lemma FilterLengthCons<T(!new)>(s: seq<T>, keep: T -> bool)
    requires s != []
    ensures |Filter(s, keep)| == (if keep(s[0]) then 1 else 0) + |Filter(s[1..], keep)|
  {
  }

  /** `pd.concat` of tables given as sequences of records. */
  function Flatten<T>(tables: seq<seq<T>>): (r: seq<T>)
    ensures |r| == TotalLength(tables)
    decreases |tables|
  {
    if tables == [] then [] else tables[0] + Flatten(tables[1..])
  }

  function TotalLength<T>(tables: seq<seq<T>>): nat
    decreases |tables|
  {
    if tables == [] then 0 else |tables[0]| + TotalLength(tables[1..])
  }

  /** Every record of the concatenation comes from one of the tables. */
  lemma {:induction false} FlattenMember<T>(tables: seq<seq<T>>, x: T)
    requires x in Flatten(tables)
    ensures exists i :: 0 <= i < |tables| && x in tables[i]
    decreases |tables|
  {
    if x !in tables[0] {
      FlattenMember(tables[1..], x);
      var i :| 0 <= i < |tables[1..]| && x in tables[1..][i];
      assert x in tables[i + 1];
    }
  }

  /** No element occurs twice, as in a directory listing. */
  ghost predicate Distinct<T>(s: seq<T>) {
    forall i, j :: 0 <= i < j < |s| ==> s[i] != s[j]
  }

  lemma {:induction false} DistinctCounts<T>(s: seq<T>)
    ensures Distinct(s) <==> forall x :: multiset(s)[x] <= 1
    decreases |s|
  {
    if s != [] {
      var init, last := s[..|s| - 1], s[|s| - 1];
      assert s == init + [last];
      DistinctCounts(init);
      if Distinct(s) {
        assert last !in init;
        assert Distinct(init) by {
          forall i, j | 0 <= i < j < |init| ensures init[i] != init[j] {
            assert init[i] == s[i] && init[j] == s[j];
          }
        }
      }
      if forall x :: multiset(s)[x] <= 1 {
        assert forall x :: multiset(init)[x] <= 1 by {
          forall x ensures multiset(init)[x] <= 1 {
            assert multiset(s)[x] == multiset(init)[x] + multiset([last])[x];
          }
        }
        assert multiset(s)[last] == multiset(init)[last] + 1;
        forall i, j | 0 <= i < j < |s| ensures s[i] != s[j] {
          if j < |s| - 1 {
            assert init[i] == s[i] && init[j] == s[j];
          } else {
            assert s[i] in init;
          }
        }
      }
    }
  }

  /** Keeping some elements of a listing keeps it free of repetitions. */
  lemma FilterDistinct<T(!new)>(s: seq<T>, keep: T -> bool)
    requires Distinct(s)
    ensures Distinct(Filter(s, keep))
  {
    DistinctCounts(s);
    DistinctCounts(Filter(s, keep));
  }
}

/** `Array.prototype.sort` with a comparator, as the components use it: a stable
    sort that puts `a` before `b` exactly when the comparator says `a` comes
    strictly first, modelled as a stable insertion sort over a strict order;
    and `Array.prototype.filter`, which the components pair with it. */
module Sorting {

  /** `before` is irreflexive and transitive. */
  ghost predicate StrictOrder<T(!new)>(before: (T, T) -> bool) {
    && (forall a :: !before(a, a))
    && (forall a, b, c :: before(a, b) && before(b, c) ==> before(a, c))
  }

  /** No element is strictly before an element to its left. */
  ghost predicate Sorted<T>(s: seq<T>, before: (T, T) -> bool) {
    forall i, j :: 0 <= i < j < |s| ==> !before(s[j], s[i])
  }

  /** Inserts `x` after every element it does not strictly precede. */
  function Insert<T>(x: T, s: seq<T>, before: (T, T) -> bool): seq<T>
  {
    if s == [] || before(x, s[0]) then [x] + s else [s[0]] + Insert(x, s[1..], before)
  }

  /** Stable sort: each element in turn is inserted after the equal ones. */
  function Sort<T>(s: seq<T>, before: (T, T) -> bool): seq<T>
  {
    if s == [] then [] else Insert(s[|s| - 1], Sort(s[..|s| - 1], before), before)
  }

  lemma {:induction false} InsertPermutes<T>(x: T, s: seq<T>, before: (T, T) -> bool)
    ensures multiset(Insert(x, s, before)) == multiset(s) + multiset{x}
    ensures |Insert(x, s, before)| == |s| + 1
  {
    if s != [] && !before(x, s[0]) {
      InsertPermutes(x, s[1..], before);
      assert s == [s[0]] + s[1..];
    }
  }

  lemma {:induction false} InsertSorted<T(!new)>(x: T, s: seq<T>, before: (T, T) -> bool)
    requires StrictOrder(before)
    requires Sorted(s, before)
    ensures Sorted(Insert(x, s, before), before)
  {
    var r := Insert(x, s, before);
    if s == [] {
    } else if before(x, s[0]) {
      forall i, j | 0 <= i < j < |r| ensures !before(r[j], r[i]) {
        if i == 0 {
          assert r[j] == s[j - 1];
          assert !before(s[j - 1], s[0]);
        } else {
          assert r[i] == s[i - 1] && r[j] == s[j - 1];
        }
      }
    } else {
      var t := Insert(x, s[1..], before);
      InsertSorted(x, s[1..], before);
      InsertPermutes(x, s[1..], before);
      assert r == [s[0]] + t;
      forall i, j | 0 <= i < j < |r| ensures !before(r[j], r[i]) {
        if i == 0 {
          assert r[j] in multiset(t);
          assert r[j] in multiset(s[1..]) + multiset{x};
          if r[j] != x {
            assert r[j] in s[1..];
            var k :| 0 <= k < |s[1..]| && s[1..][k] == r[j];
            assert s[k + 1] == r[j];
          }
        } else {
          assert r[i] == t[i - 1] && r[j] == t[j - 1];
        }
      }
    }
  }

  /** The sort returns a sorted permutation of its input. */
  lemma {:induction false} SortCorrect<T(!new)>(s: seq<T>, before: (T, T) -> bool)
    requires StrictOrder(before)
    ensures Sorted(Sort(s, before), before)
    ensures multiset(Sort(s, before)) == multiset(s)
    ensures |Sort(s, before)| == |s|
  {
    if s != [] {
      var init := s[..|s| - 1];
      SortCorrect(init, before);
      InsertSorted(s[|s| - 1], Sort(init, before), before);
      InsertPermutes(s[|s| - 1], Sort(init, before), before);
      assert s == init + [s[|s| - 1]];
      assert multiset(s) == multiset(init) + multiset{s[|s| - 1]};
    }
  }

  /** A sorted permutation has every element of the input and nothing else. */
  lemma SortSameElements<T(!new)>(s: seq<T>, before: (T, T) -> bool, x: T)
    requires StrictOrder(before)
    ensures x in Sort(s, before) <==> x in s
  {
    SortCorrect(s, before);
    assert x in Sort(s, before) <==> x in multiset(Sort(s, before));
  }

  /** `s.filter(keep)`. */
  function Select<T(!new)>(s: seq<T>, keep: T -> bool): (r: seq<T>)
    ensures |r| <= |s|
    ensures forall x :: x in r <==> x in s && keep(x)
    decreases |s|
  {
    if s == [] then []
    else (if keep(s[0]) then [s[0]] else []) + Select(s[1..], keep)
  }

  /** Filtering keeps a list whose every element passes as it is. */
  lemma {:induction false} SelectKeepsAll<T(!new)>(s: seq<T>, keep: T -> bool)
    requires forall x :: x in s ==> keep(x)
    ensures Select(s, keep) == s
    decreases |s|
  {
    if s != [] {
      assert forall x :: x in s[1..] ==> x in s;
      SelectKeepsAll(s[1..], keep);
      assert Select(s, keep) == [s[0]] + Select(s[1..], keep);
    }
  }

  /** Filtering keeps every copy of a kept element and no copy of a dropped one. */
  lemma {:induction false} SelectCount<T(!new)>(s: seq<T>, keep: T -> bool, x: T)
    ensures multiset(Select(s, keep))[x] == if keep(x) then multiset(s)[x] else 0
    decreases |s|
  {
    if s != [] {
      SelectCount(s[1..], keep, x);
      assert s == [s[0]] + s[1..];
      assert multiset(s) == multiset([s[0]]) + multiset(s[1..]);
      assert Select(s, keep) == (if keep(s[0]) then [s[0]] else []) + Select(s[1..], keep);
    }
  }

  /** Filtering twice is filtering once. */
  lemma SelectIdempotent<T(!new)>(s: seq<T>, keep: T -> bool)
    ensures Select(Select(s, keep), keep) == Select(s, keep)
  {
    SelectKeepsAll(Select(s, keep), keep);
  }

  /** Filtering a concatenation filters each part. */
  lemma {:induction false} SelectConcat<T(!new)>(s: seq<T>, t: seq<T>, keep: T -> bool)
    ensures Select(s + t, keep) == Select(s, keep) + Select(t, keep)
    decreases |s|
  {
    if s == [] {
      assert s + t == t;
    } else {
      assert (s + t)[0] == s[0];
      assert (s + t)[1..] == s[1..] + t;
      SelectConcat(s[1..], t, keep);
    }
  }

  /** Filtering a list extended at the end filters the old list and then the new element. */
  lemma {:induction false} SelectAppend<T(!new)>(s: seq<T>, x: T, keep: T -> bool)
    ensures Select(s + [x], keep) == Select(s, keep) + (if keep(x) then [x] else [])
    decreases |s|
  {
    if s != [] {
      assert (s + [x])[1..] == s[1..] + [x];
      SelectAppend(s[1..], x, keep);
    }
  }

  /** `r` is `s` with some elements left out and the rest in their order. */
  predicate IsSubsequence<T(==)>(r: seq<T>, s: seq<T>)
    decreases |s|
  {
    if r == [] then true
    else if s == [] then false
    else if r[0] == s[0] then IsSubsequence(r[1..], s[1..])
    else IsSubsequence(r, s[1..])
  }

  lemma {:induction false} SelectIsSubsequence<T(!new)>(s: seq<T>, keep: T -> bool)
    ensures IsSubsequence(Select(s, keep), s)
    decreases |s|
  {
    if s != [] {
      SelectIsSubsequence(s[1..], keep);
      if keep(s[0]) {
        assert Select(s, keep) == [s[0]] + Select(s[1..], keep);
        assert Select(s, keep)[1..] == Select(s[1..], keep);
      } else {
        assert Select(s, keep) == Select(s[1..], keep);
        SubsequenceOfTail(Select(s[1..], keep), s);
      }
    }
  }

  /** A subsequence of the tail is a subsequence of the whole. */
  lemma {:induction false} SubsequenceOfTail<T>(r: seq<T>, s: seq<T>)
    requires s != [] && IsSubsequence(r, s[1..])
    ensures IsSubsequence(r, s)
    decreases |s|, 0
  {
    if r != [] && r[0] == s[0] {
      SubsequenceDropHead(r, s[1..]);
    }
  }

  /** Dropping the first element of a subsequence keeps it a subsequence. */
  lemma {:induction false} SubsequenceDropHead<T>(r: seq<T>, s: seq<T>)
    requires r != [] && IsSubsequence(r, s)
    ensures IsSubsequence(r[1..], s)
    decreases |s|, 1
  {
    if r[0] == s[0] {
      SubsequenceOfTail(r[1..], s);
    } else {
      SubsequenceDropHead(r, s[1..]);
      SubsequenceOfTail(r[1..], s);
    }
  }

  lemma SortedTail<T>(s: seq<T>, before: (T, T) -> bool)
    requires s != [] && Sorted(s, before)
    ensures Sorted(s[1..], before)
  {
    forall i, j | 0 <= i < j < |s[1..]| ensures !before(s[1..][j], s[1..][i]) {
      assert s[1..][j] == s[j + 1] && s[1..][i] == s[i + 1];
    }
  }

  /** A sorted list stays sorted under a new head that nothing in it precedes. */
  lemma SortedCons<T>(x: T, rest: seq<T>, before: (T, T) -> bool)
    requires Sorted(rest, before)
    requires forall y :: y in rest ==> !before(y, x)
    ensures Sorted([x] + rest, before)
  {
    var r := [x] + rest;
    forall i, j | 0 <= i < j < |r| ensures !before(r[j], r[i]) {
      assert r[j] == rest[j - 1];
      if i > 0 {
        assert r[i] == rest[i - 1];
      }
    }
  }

  /** Filtering a sorted sequence leaves it sorted. */
  lemma {:induction false} SelectSorted<T(!new)>(s: seq<T>, keep: T -> bool, before: (T, T) -> bool)
    requires Sorted(s, before)
    ensures Sorted(Select(s, keep), before)
    decreases |s|
  {
    if s != [] {
      SortedTail(s, before);
      SelectSorted(s[1..], keep, before);
      var rest := Select(s[1..], keep);
      if keep(s[0]) {
        forall y | y in rest ensures !before(y, s[0]) {
          var k :| 0 <= k < |s[1..]| && s[1..][k] == y;
          assert s[k + 1] == y;
        }
        SortedCons(s[0], rest, before);
        assert Select(s, keep) == [s[0]] + rest;
      } else {
        assert Select(s, keep) == rest;
      }
    }
  }

  /** The kept and the dropped elements add up to the whole. */
  lemma {:induction false} SelectSplits<T(!new)>(s: seq<T>, keep: T -> bool, drop: T -> bool)
    requires forall x :: drop(x) == !keep(x)
    ensures |Select(s, keep)| + |Select(s, drop)| == |s|
    decreases |s|
  {
    if s != [] {
      SelectSplits(s[1..], keep, drop);
    }
  }
}

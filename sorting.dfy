/**
 * `Array.prototype.sort()` without a comparator on strings, as
 * `generateText` uses it for the import lines (lib/auto-generator.js:70, 76):
 * an insertion sort by code-unit order.
 */
module Sorting {
  import opened Text

  predicate Sorted(xs: seq<string>) {
    forall i, j :: 0 <= i < j < |xs| ==> LessEq(xs[i], xs[j])
  }

  function Insert(x: string, xs: seq<string>): (r: seq<string>)
    ensures multiset(r) == multiset(xs) + multiset{x}
    ensures |r| == |xs| + 1
  {
    if xs == [] then [x]
    else if LessEq(x, xs[0]) then [x] + xs
    else
      assert xs == [xs[0]] + xs[1..];
      [xs[0]] + Insert(x, xs[1..])
  }

  /** The sorted copy of `xs`. */
  function Sort(xs: seq<string>): (r: seq<string>)
    ensures multiset(r) == multiset(xs)
    ensures |r| == |xs|
  {
    if xs == [] then []
    else
      assert xs == [xs[0]] + xs[1..];
      Insert(xs[0], Sort(xs[1..]))
  }

  /** Inserting into a sorted sequence keeps it sorted. */
  lemma {:induction false} InsertSorted(x: string, xs: seq<string>)
    requires Sorted(xs)
    ensures Sorted(Insert(x, xs))
  {
    if xs != [] {
      if LessEq(x, xs[0]) {
        var r := [x] + xs;
        forall i, j | 0 <= i < j < |r| ensures LessEq(r[i], r[j]) {
          if i == 0 {
            if j > 1 { LessEqTransitive(x, xs[0], xs[j - 1]); }
          }
        }
      } else {
        LessEqTotal(x, xs[0]);
        InsertSorted(x, xs[1..]);
        InsertLowerBound(xs[0], x, xs[1..]);
        ConsSorted(xs[0], Insert(x, xs[1..]));
      }
    }
  }

  /** A sorted sequence stays sorted under a new first element that bounds all of it. */
  lemma ConsSorted(y: string, rest: seq<string>)
    requires Sorted(rest)
    requires forall k :: 0 <= k < |rest| ==> LessEq(y, rest[k])
    ensures Sorted([y] + rest)
  {
    var r := [y] + rest;
    forall i, j | 0 <= i < j < |r| ensures LessEq(r[i], r[j]) {
      if i == 0 {
        assert r[j] == rest[j - 1];
      } else {
        assert r[i] == rest[i - 1] && r[j] == rest[j - 1];
      }
    }
  }

  /** A lower bound of `x` and of every string in `ys` bounds every string of the insertion. */
  lemma InsertLowerBound(y: string, x: string, ys: seq<string>)
    requires LessEq(y, x)
    requires forall k :: 0 <= k < |ys| ==> LessEq(y, ys[k])
    ensures forall k :: 0 <= k < |Insert(x, ys)| ==> LessEq(y, Insert(x, ys)[k])
  {
    var rest := Insert(x, ys);
    forall k | 0 <= k < |rest| ensures LessEq(y, rest[k]) {
      assert rest[k] in multiset(rest);
      assert rest[k] in multiset(ys) + multiset{x};
      if rest[k] != x {
        assert rest[k] in multiset(ys);
        var m :| 0 <= m < |ys| && ys[m] == rest[k];
      }
    }
  }

  /** The result is in order and holds exactly the same strings. */
  lemma {:induction false} SortSorted(xs: seq<string>)
    ensures Sorted(Sort(xs)) && multiset(Sort(xs)) == multiset(xs)
  {
    if xs != [] {
      SortSorted(xs[1..]);
      InsertSorted(xs[0], Sort(xs[1..]));
    }
  }

  /** No string twice. */
  predicate Distinct(xs: seq<string>) {
    forall i, j :: 0 <= i < j < |xs| ==> xs[i] != xs[j]
  }

  lemma MultisetDistinct(xs: seq<string>)
    ensures Distinct(xs) <==> forall x :: multiset(xs)[x] <= 1
  {
    if Distinct(xs) {
      forall x ensures multiset(xs)[x] <= 1 { DistinctCount(xs, x); }
    } else {
      var i, j :| 0 <= i < j < |xs| && xs[i] == xs[j];
      CountTwo(xs, i, j);
    }
  }

  lemma {:induction false} DistinctCount(xs: seq<string>, x: string)
    requires Distinct(xs)
    ensures multiset(xs)[x] <= 1
  {
    if xs != [] {
      assert xs == [xs[0]] + xs[1..];
      DistinctCount(xs[1..], x);
      if xs[0] == x {
        assert x !in xs[1..];
      }
    }
  }

  lemma {:induction false} CountTwo(xs: seq<string>, i: nat, j: nat)
    requires i < j < |xs| && xs[i] == xs[j]
    ensures multiset(xs)[xs[i]] >= 2
  {
    assert xs == xs[..i] + [xs[i]] + xs[i + 1..j] + [xs[j]] + xs[j + 1..];
  }

  /** Sorting a list without repeats gives a list without repeats. */
  lemma SortDistinct(xs: seq<string>)
    requires Distinct(xs)
    ensures Distinct(Sort(xs))
  {
    MultisetDistinct(xs);
    MultisetDistinct(Sort(xs));
  }
}

/** The order of the default `Array.prototype.sort()` on strings:
    lexicographic comparison character by character, a proper prefix
    first. A stable insertion sort stands in for the engine's algorithm. */
module Ordering {
  import opened Lists

  /** `a` and `b` agree before position `k`, and there `a` has the smaller
      character. */
  ghost predicate FirstDifference(a: string, b: string, k: nat)
  {
    k < |a| && k < |b| && a[..k] == b[..k] && a[k] < b[k]
  }

  /** Lexicographic order stated directly: `a` is a proper prefix of `b`, or
      at the first position where they differ `a` has the smaller
      character. */
  ghost predicate Lexicographic(a: string, b: string)
  {
    (|a| < |b| && a == b[..|a|]) || exists k: nat :: FirstDifference(a, b, k)
  }

  /** Past an equal first character, the first difference moves one place
      to the left. */
  lemma FirstDifferenceTail(a: string, b: string, k: nat)
    requires a != [] && b != [] && a[0] == b[0]
    ensures FirstDifference(a, b, k + 1) <==> FirstDifference(a[1..], b[1..], k)
  {
    if k + 1 < |a| && k + 1 < |b| {
      var a', b' := a[1..], b[1..];
      assert a[..k + 1] == [a[0]] + a'[..k];
      assert b[..k + 1] == [b[0]] + b'[..k];
      assert a[..k + 1] == b[..k + 1] <==> a'[..k] == b'[..k];
      assert a[k + 1] == a'[k] && b[k + 1] == b'[k];
    }
  }

  /** Lexicographic order of two non-empty strings is decided by their
      first characters, or by the rest when those are equal. */
  lemma LexicographicStep(a: string, b: string)
    requires a != [] && b != []
    ensures Lexicographic(a, b) <==> a[0] < b[0] || (a[0] == b[0] && Lexicographic(a[1..], b[1..]))
  {
    var a', b' := a[1..], b[1..];
    if a[0] == b[0] {
      assert (|a| < |b| && a == b[..|a|]) <==> (|a'| < |b'| && a' == b'[..|a'|]) by {
        if |a| < |b| {
          assert a == [a[0]] + a';
          assert b[..|a|] == [b[0]] + b'[..|a'|];
        }
      }
      forall k: nat
        ensures FirstDifference(a, b, k + 1) <==> FirstDifference(a', b', k)
      {
        FirstDifferenceTail(a, b, k);
      }
      if exists k: nat :: FirstDifference(a, b, k) {
        var k: nat :| FirstDifference(a, b, k);
        if k > 0 {
          assert FirstDifference(a', b', k - 1);
        }
      }
      if exists k: nat :: FirstDifference(a', b', k) {
        var k: nat :| FirstDifference(a', b', k);
        assert FirstDifference(a, b, k + 1);
      }
    } else {
      if a[0] < b[0] {
        assert FirstDifference(a, b, 0);
      }
      assert forall k: nat :: FirstDifference(a, b, k) ==> k == 0;
      assert !(|a| < |b| && a == b[..|a|]);
    }
  }

  /** `a` sorts strictly before `b`, in the order `sort()` uses on strings:
      exactly the lexicographic order. */
  predicate Less(a: string, b: string): (r: bool)
    ensures r == Lexicographic(a, b)
    decreases |a|
  {
    if a == [] then b != []
    else if b == [] then false
    else
      LexicographicStep(a, b);
      if a[0] != b[0] then a[0] < b[0]
      else Less(a[1..], b[1..])
  }

  lemma {:induction false} LessIrreflexive(a: string)
    ensures !Less(a, a)
    decreases |a|
  {
    if a != [] {
      LessIrreflexive(a[1..]);
    }
  }

  lemma {:induction false} LessAsymmetric(a: string, b: string)
    requires Less(a, b)
    ensures !Less(b, a)
    decreases |a|
  {
    if a != [] && b != [] && a[0] == b[0] {
      LessAsymmetric(a[1..], b[1..]);
    }
  }

  lemma {:induction false} LessTransitive(a: string, b: string, c: string)
    requires Less(a, b) && Less(b, c)
    ensures Less(a, c)
    decreases |a|
  {
    if a != [] && a[0] == b[0] && b[0] == c[0] {
      LessTransitive(a[1..], b[1..], c[1..]);
    }
  }

  /** Two different strings are always ordered one way or the other. */
  lemma {:induction false} LessTotal(a: string, b: string)
    requires a != b
    ensures Less(a, b) || Less(b, a)
    decreases |a|
  {
    if a != [] && b != [] && a[0] == b[0] {
      assert a == [a[0]] + a[1..] && b == [b[0]] + b[1..];
      LessTotal(a[1..], b[1..]);
    }
  }

  /** Ascending: no element sorts strictly before an earlier one. */
  ghost predicate Sorted(s: seq<string>)
  {
    forall i, j :: 0 <= i < j < |s| ==> !Less(s[j], s[i])
  }

  /** Ascending without repetition. */
  ghost predicate StrictlySorted(s: seq<string>)
  {
    forall i, j :: 0 <= i < j < |s| ==> Less(s[i], s[j])
  }

  /** Inserts `x` after every element that does not sort after it. */
  function Insert(x: string, s: seq<string>): (r: seq<string>)
    ensures multiset(r) == multiset(s) + multiset{x}
  {
    if s == [] then [x]
    else if Less(x, s[0]) then [x] + s
    else
      assert s == [s[0]] + s[1..];
      [s[0]] + Insert(x, s[1..])
  }

  /** `xs.sort()` for strings: a permutation of `xs`. */
  function SortStrings(xs: seq<string>): (r: seq<string>)
    ensures multiset(r) == multiset(xs)
  {
    if xs == [] then []
    else
      assert xs == xs[..|xs| - 1] + [xs[|xs| - 1]];
      Insert(xs[|xs| - 1], SortStrings(xs[..|xs| - 1]))
  }

  lemma {:induction false} InsertSorted(x: string, s: seq<string>)
    requires Sorted(s)
    ensures Sorted(Insert(x, s))
    decreases |s|
  {
    if s == [] {
    } else if Less(x, s[0]) {
      forall j | 0 <= j < |s|
        ensures !Less(s[j], x)
      {
        if Less(s[j], x) {
          LessTransitive(s[j], x, s[0]);
          if j == 0 {
            LessIrreflexive(s[0]);
          }
        }
      }
    } else {
      InsertSorted(x, s[1..]);
      var r := Insert(x, s[1..]);
      forall k | 0 <= k < |r|
        ensures !Less(r[k], s[0])
      {
        assert r[k] in multiset(r);
        if r[k] != x {
          assert r[k] in multiset(s[1..]);
          var j :| 0 <= j < |s[1..]| && s[1..][j] == r[k];
          assert s[j + 1] == r[k];
        }
      }
    }
  }

  lemma {:induction false} SortStringsSorted(xs: seq<string>)
    ensures Sorted(SortStrings(xs))
    decreases |xs|
  {
    if xs != [] {
      SortStringsSorted(xs[..|xs| - 1]);
      InsertSorted(xs[|xs| - 1], SortStrings(xs[..|xs| - 1]));
    }
  }

  lemma RepeatedCountsTwice(s: seq<string>, i: nat, j: nat)
    requires i < j < |s| && s[i] == s[j]
    ensures multiset(s)[s[i]] >= 2
  {
    assert s == s[..i] + [s[i]] + s[i + 1..j] + [s[j]] + s[j + 1..];
  }

  /** A sorted list without repetitions is strictly ascending. */
  lemma SortedNoDupsStrict(s: seq<string>)
    requires Sorted(s) && NoDups(s)
    ensures StrictlySorted(s)
  {
    forall i, j | 0 <= i < j < |s|
      ensures Less(s[i], s[j])
    {
      if s[i] == s[j] {
        RepeatedCountsTwice(s, i, j);
      }
      LessTotal(s[i], s[j]);
    }
  }

  /** Sorting a list without repetitions gives a strictly ascending
      permutation of it. */
  function SortDistinct(xs: seq<string>): (r: seq<string>)
    requires NoDups(xs)
    ensures StrictlySorted(r)
    ensures multiset(r) == multiset(xs)
  {
    var r := SortStrings(xs);
    SortStringsSorted(xs);
    SortedNoDupsStrict(r);
    r
  }

  /** A strictly ascending list is determined by its elements: whatever
      algorithm sorts a list without repetitions, the result is the same. */
  lemma {:induction false} StrictlySortedUnique(a: seq<string>, b: seq<string>)
    requires StrictlySorted(a) && StrictlySorted(b)
    requires forall x :: x in a <==> x in b
    ensures a == b
    decreases |a|
  {
    if a != [] {
      assert a[0] in b;
    }
    if b != [] {
      assert b[0] in a;
    }
    if a != [] && b != [] {
      assert a == [a[0]] + a[1..] && b == [b[0]] + b[1..];
      if a[0] != b[0] {
        assert a[0] in a && b[0] in b;
        var m :| 0 <= m < |a| && a[m] == b[0];
        var k :| 0 <= k < |b| && b[k] == a[0];
        assert Less(a[0], b[0]) && Less(b[0], a[0]);
        LessAsymmetric(a[0], b[0]);
      }
      forall x
        ensures x in a[1..] <==> x in b[1..]
      {
        if x in a[1..] {
          var i :| 0 <= i < |a[1..]| && a[1..][i] == x;
          assert Less(a[0], a[i + 1]);
          LessIrreflexive(x);
          assert x in b && x != b[0];
        }
        if x in b[1..] {
          var i :| 0 <= i < |b[1..]| && b[1..][i] == x;
          assert Less(b[0], b[i + 1]);
          LessIrreflexive(x);
          assert x in a && x != a[0];
        }
      }
      StrictlySortedUnique(a[1..], b[1..]);
    }
  }
}

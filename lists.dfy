/** The array built-ins the catalogue relies on: `filter`, and the
    first-occurrence de-duplication `Array.from(new Set(xs))`. */
module Lists {

  /** No element occurs twice. */
  ghost predicate NoDups<T(!new)>(s: seq<T>)
  {
    forall x :: multiset(s)[x] <= 1
  }

  /** `xs.filter(keep)`: each element occurs as often as in `xs` if it is
      kept, and not at all otherwise. */
  function Filter<T(!new)>(xs: seq<T>, keep: T -> bool): (r: seq<T>)
    ensures forall x {:trigger multiset(r)[x]} :: multiset(r)[x] == if keep(x) then multiset(xs)[x] else 0
    ensures |r| <= |xs|
  {
    if xs == [] then []
    else
      assert xs == [xs[0]] + xs[1..];
      (if keep(xs[0]) then [xs[0]] else []) + Filter(xs[1..], keep)
  }

  /** Filtering distributes over concatenation, so the kept elements stay in
      their original relative order. */
  lemma {:induction false} FilterAppend<T(!new)>(a: seq<T>, b: seq<T>, keep: T -> bool)
    ensures Filter(a + b, keep) == Filter(a, keep) + Filter(b, keep)
    decreases |a|
  {
    if a == [] {
      assert a + b == b;
    } else {
      var head := if keep(a[0]) then [a[0]] else [];
      assert (a + b)[0] == a[0];
      assert (a + b)[1..] == a[1..] + b;
      assert Filter(a + b, keep) == head + Filter(a[1..] + b, keep);
      FilterAppend(a[1..], b, keep);
      assert Filter(a, keep) == head + Filter(a[1..], keep);
      assert head + (Filter(a[1..], keep) + Filter(b, keep)) == head + Filter(a[1..], keep) + Filter(b, keep);
    }
  }

  /** When every element is kept, filtering changes nothing. */
  lemma {:induction false} FilterKeepsAll<T(!new)>(xs: seq<T>, keep: T -> bool)
    requires forall i :: 0 <= i < |xs| ==> keep(xs[i])
    ensures Filter(xs, keep) == xs
    decreases |xs|
  {
    if xs != [] {
      FilterKeepsAll(xs[1..], keep);
    }
  }

  /** Filtering by a narrower test gives the same list whether or not the
      wider test was applied first: the narrower result is a sub-list of the
      wider one. */
  lemma {:induction false} FilterNarrower<T(!new)>(xs: seq<T>, wide: T -> bool, narrow: T -> bool)
    requires forall x :: narrow(x) ==> wide(x)
    ensures Filter(xs, narrow) == Filter(Filter(xs, wide), narrow)
    decreases |xs|
  {
    if xs != [] {
      FilterNarrower(xs[1..], wide, narrow);
      var w := Filter(xs, wide);
      if wide(xs[0]) {
        assert w == [xs[0]] + Filter(xs[1..], wide);
        assert w[0] == xs[0] && w[1..] == Filter(xs[1..], wide);
        assert Filter(w, narrow) == (if narrow(xs[0]) then [xs[0]] else []) + Filter(w[1..], narrow);
      } else {
        assert w == Filter(xs[1..], wide);
        assert !narrow(xs[0]);
      }
    }
  }

  /** `xs.filter(y => y !== x)`. */
  function RemoveAll<T(==,!new)>(xs: seq<T>, x: T): (r: seq<T>)
    ensures x !in r
    ensures forall y :: y != x ==> multiset(r)[y] == multiset(xs)[y]
  {
    var r := Filter(xs, y => y != x);
    assert multiset(r)[x] == 0;
    r
  }

  /** Removing an element that does not occur changes nothing. */
  lemma RemoveAllAbsent<T(!new)>(xs: seq<T>, x: T)
    requires x !in xs
    ensures RemoveAll(xs, x) == xs
  {
    FilterKeepsAll(xs, y => y != x);
  }

  /** Removing every copy of an element appended at the end undoes the append. */
  lemma RemoveAllAppended<T(!new)>(xs: seq<T>, x: T)
    requires x !in xs
    ensures RemoveAll(xs + [x], x) == xs
  {
    FilterAppend(xs, [x], y => y != x);
    RemoveAllAbsent(xs, x);
  }

  /** `Array.from(new Set(xs))`: the first occurrence of every element, in
      order of first occurrence. */
  function Distinct<T(==,!new)>(xs: seq<T>): (r: seq<T>)
    ensures NoDups(r)
    ensures forall x :: x in r <==> x in xs
  {
    if xs == [] then []
    else
      var init := Distinct(xs[..|xs| - 1]);
      var last := xs[|xs| - 1];
      assert xs == xs[..|xs| - 1] + [last];
      if last in init then init else init + [last]
  }
}

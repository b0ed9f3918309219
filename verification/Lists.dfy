/** Stable sorting, slicing and bounds, as the original uses them on lists. */
module Lists {

  /** `wanted`, but at least 1 and at most `most`. */
  function Clamp(wanted: int, most: nat): nat {
    var atLeastOne := if wanted < 1 then 1 else wanted;
    if atLeastOne < most then atLeastOne else most
  }

  lemma ClampIsExact(wanted: int, most: nat)
    requires most >= 1
    ensures wanted <= 1 ==> Clamp(wanted, most) == 1
    ensures 1 <= wanted <= most ==> Clamp(wanted, most) == wanted
    ensures wanted >= most ==> Clamp(wanted, most) == most
  {
  }

  function Insert<T>(f: T -> int, x: T, xs: seq<T>): seq<T> {
    if xs == [] || f(xs[|xs| - 1]) <= f(x) then xs + [x] else Insert(f, x, xs[..|xs| - 1]) + [xs[|xs| - 1]]
  }

  /** Stable, ascending in f. */
  function SortBy<T>(f: T -> int, xs: seq<T>): seq<T> {
    if xs == [] then [] else Insert(f, xs[|xs| - 1], SortBy(f, xs[..|xs| - 1]))
  }

  predicate SortedBy<T>(f: T -> int, xs: seq<T>) {
    forall i, j | 0 <= i < j < |xs| :: f(xs[i]) <= f(xs[j])
  }

  lemma {:induction false} InsertPermutes<T>(f: T -> int, x: T, xs: seq<T>)
    ensures multiset(Insert(f, x, xs)) == multiset(xs) + multiset{x}
  {
    if !(xs == [] || f(xs[|xs| - 1]) <= f(x)) {
      InsertPermutes(f, x, xs[..|xs| - 1]);
      assert xs == xs[..|xs| - 1] + [xs[|xs| - 1]];
    }
  }

  lemma AppendSorts<T>(f: T -> int, xs: seq<T>, y: T)
    requires SortedBy(f, xs) && forall x <- xs :: f(x) <= f(y)
    ensures SortedBy(f, xs + [y])
  {
    forall i | 0 <= i < |xs| ensures f(xs[i]) <= f(y) {
      assert xs[i] in xs;
    }
  }

  lemma {:induction false} InsertSorts<T>(f: T -> int, x: T, xs: seq<T>)
    requires SortedBy(f, xs)
    ensures SortedBy(f, Insert(f, x, xs))
  {
    if xs == [] {
    } else if f(xs[|xs| - 1]) <= f(x) {
      AppendSorts(f, xs, x);
    } else {
      var init, last := xs[..|xs| - 1], xs[|xs| - 1];
      var r := Insert(f, x, init);
      InsertSorts(f, x, init);
      InsertPermutes(f, x, init);
      forall y <- r ensures f(y) <= f(last) {
        assert y in multiset(r);
        assert y in init || y == x;
      }
      AppendSorts(f, r, last);
    }
  }

  lemma {:induction false} SortSorts<T>(f: T -> int, xs: seq<T>)
    ensures SortedBy(f, SortBy(f, xs)) && multiset(SortBy(f, xs)) == multiset(xs)
  {
    if xs != [] {
      var init, last := xs[..|xs| - 1], xs[|xs| - 1];
      SortSorts(f, init);
      InsertSorts(f, last, SortBy(f, init));
      InsertPermutes(f, last, SortBy(f, init));
      assert xs == init + [last];
    }
  }

  lemma {:induction false} SortedIsFixed<T>(f: T -> int, xs: seq<T>)
    requires SortedBy(f, xs)
    ensures SortBy(f, xs) == xs
  {
    if xs != [] {
      var init, last := xs[..|xs| - 1], xs[|xs| - 1];
      SortedIsFixed(f, init);
      assert xs == init + [last];
      assert init == [] || f(init[|init| - 1]) <= f(last);
    }
  }

  lemma SortKeepsMembers<T>(f: T -> int, xs: seq<T>, x: T)
    ensures x in SortBy(f, xs) <==> x in xs
  {
    SortSorts(f, xs);
    assert x in SortBy(f, xs) <==> x in multiset(SortBy(f, xs));
  }

  /** The first n elements, or all if there are fewer. */
  function First<T>(xs: seq<T>, n: nat): seq<T> {
    if |xs| <= n then xs else xs[..n]
  }

  /** The last n elements, or all if there are fewer. */
  function Last<T>(xs: seq<T>, n: nat): seq<T> {
    if |xs| <= n then xs else xs[|xs| - n..]
  }

  /** The first n of a sorted list: as many as there are up to n, and what is left out comes no earlier. */
  lemma FirstOfSorted<T>(f: T -> int, xs: seq<T>, n: nat)
    ensures var r := First(SortBy(f, xs), n);
            && |r| == (if |xs| < n then |xs| else n) && SortedBy(f, r) && (forall x <- r :: x in xs)
            && forall m <- xs | m !in r :: |r| == n && forall x <- r :: f(x) <= f(m)
  {
    var sorted, r := SortBy(f, xs), First(SortBy(f, xs), n);
    SortSorts(f, xs);
    assert |multiset(sorted)| == |sorted| && |multiset(xs)| == |xs|;
    forall m <- xs | m !in r ensures |r| == n && forall x <- r :: f(x) <= f(m) {
      SortKeepsMembers(f, xs, m);
      var j :| 0 <= j < |sorted| && sorted[j] == m;
      assert j >= n;
    }
    forall x <- r ensures x in xs {
      SortKeepsMembers(f, xs, x);
    }
  }

  function Reverse<T>(xs: seq<T>): seq<T> {
    if xs == [] then [] else [xs[|xs| - 1]] + Reverse(xs[..|xs| - 1])
  }

  lemma {:induction false} ReversePermutes<T>(xs: seq<T>)
    ensures multiset(Reverse(xs)) == multiset(xs) && |Reverse(xs)| == |xs|
  {
    if xs != [] {
      ReversePermutes(xs[..|xs| - 1]);
      assert xs == xs[..|xs| - 1] + [xs[|xs| - 1]];
    }
  }

  lemma {:induction false} ReverseAt<T>(xs: seq<T>, i: nat)
    requires i < |xs|
    ensures |Reverse(xs)| == |xs| && Reverse(xs)[i] == xs[|xs| - 1 - i]
  {
    ReversePermutes(xs);
    ReversePermutes(xs[..|xs| - 1]);
    if i > 0 {
      ReverseAt(xs[..|xs| - 1], i - 1);
    }
  }

  predicate Distinct<T(==)>(xs: seq<T>) {
    forall i, j | 0 <= i < j < |xs| :: xs[i] != xs[j]
  }

  /** Distinct lists are those in which nothing occurs twice. */
  lemma {:induction false} DistinctCounts<T>(xs: seq<T>)
    ensures Distinct(xs) <==> forall x :: multiset(xs)[x] <= 1
  {
    if xs != [] {
      var init, last := xs[..|xs| - 1], xs[|xs| - 1];
      DistinctCounts(init);
      assert xs == init + [last];
      assert multiset(xs)[last] == multiset(init)[last] + 1;
      if Distinct(xs) {
        assert last !in init;
      }
      if forall x :: multiset(xs)[x] <= 1 {
        assert forall x :: multiset(init)[x] <= multiset(xs)[x];
        assert last !in init;
      }
    }
  }
}

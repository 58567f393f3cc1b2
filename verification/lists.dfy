/** `Array.prototype.filter` and the subsequence relation it establishes. */
module Lists {

  /** `xs.filter(keep)`. */
  function FilterBy<T>(xs: seq<T>, keep: T -> bool): (r: seq<T>)
    ensures |r| <= |xs|
    ensures forall x | x in r :: x in xs && keep(x)
    ensures forall x | x in xs && keep(x) :: x in r
    ensures forall x | x in xs :: multiset(r)[x] == if keep(x) then multiset(xs)[x] else 0
  {
    if xs == [] then []
    else
      var rest := FilterBy(xs[1..], keep);
      assert xs == [xs[0]] + xs[1..];
      (if keep(xs[0]) then [xs[0]] else []) + rest
  }

  /** `a` is `b` with some elements removed, the rest in the same order. */
  predicate IsSubsequence<T(==)>(a: seq<T>, b: seq<T>) {
    if b == [] then a == []
    else (a != [] && a[0] == b[0] && IsSubsequence(a[1..], b[1..])) || IsSubsequence(a, b[1..])
  }

  /** A filter keeps the relative order of what it keeps. */
  lemma {:induction false} FilterBySubsequence<T>(xs: seq<T>, keep: T -> bool)
    ensures IsSubsequence(FilterBy(xs, keep), xs)
  {
    if xs != [] {
      FilterBySubsequence(xs[1..], keep);
      var r := FilterBy(xs, keep);
      if keep(xs[0]) {
        assert r[1..] == FilterBy(xs[1..], keep);
      } else {
        assert r == FilterBy(xs[1..], keep);
      }
    }
  }

  /** Filters with predicates that agree on the list give the same result. */
  lemma {:induction false} FilterByAgree<T>(xs: seq<T>, f: T -> bool, g: T -> bool)
    requires forall x | x in xs :: f(x) == g(x)
    ensures FilterBy(xs, f) == FilterBy(xs, g)
  {
    if xs != [] {
      assert xs[0] in xs;
      assert forall x | x in xs[1..] :: x in xs;
      FilterByAgree(xs[1..], f, g);
    }
  }

  /** A filter that keeps every element returns the list unchanged. */
  lemma {:induction false} FilterByAll<T>(xs: seq<T>, keep: T -> bool)
    requires forall x | x in xs :: keep(x)
    ensures FilterBy(xs, keep) == xs
  {
    if xs != [] {
      assert xs[0] in xs;
      assert forall x | x in xs[1..] :: x in xs;
      FilterByAll(xs[1..], keep);
    }
  }

  /** Filtering a concatenation filters each part. */
  lemma {:induction false} FilterByConcat<T>(a: seq<T>, b: seq<T>, keep: T -> bool)
    ensures FilterBy(a + b, keep) == FilterBy(a, keep) + FilterBy(b, keep)
  {
    if a == [] {
      assert a + b == b;
    } else {
      assert (a + b)[0] == a[0];
      assert (a + b)[1..] == a[1..] + b;
      FilterByConcat(a[1..], b, keep);
    }
  }

  /** Filtering one element keeps it or drops it. */
  lemma FilterBySingle<T>(x: T, keep: T -> bool)
    ensures FilterBy([x], keep) == if keep(x) then [x] else []
  {
    assert [x][1..] == [];
  }

  /** Whatever a subsequence holds, the whole sequence holds. */
  lemma {:induction false} SubsequenceMember<T>(a: seq<T>, b: seq<T>, x: T)
    requires IsSubsequence(a, b) && x in a
    ensures x in b
  {
    if b != [] {
      if a != [] && a[0] == b[0] && IsSubsequence(a[1..], b[1..]) {
        if x != a[0] {
          assert x in a[1..];
          SubsequenceMember(a[1..], b[1..], x);
        }
      } else {
        SubsequenceMember(a, b[1..], x);
      }
    }
  }
}

/** Facts about sequences used by every tally: distinctness, the element set
    of a sequence, and finite sums `Sum(s, f)` of `f` over the elements of `s`
    (every tally of the engine is such a sum over voters or candidates). */
module Sequences {

  /** No element occurs twice. */
  predicate Distinct<T(==)>(s: seq<T>)
  {
    forall i, j :: 0 <= i < j < |s| ==> s[i] != s[j]
  }

  /** The elements of `s` as a set (what `set(s)` computes). */
  function ToSet<T>(s: seq<T>): set<T>
  {
    set x | x in s
  }

  /** The sequence 0, 1, ..., n-1 (what `range(n)` enumerates). */
  function Range(n: nat): (r: seq<int>)
    ensures |r| == n
    ensures forall i :: 0 <= i < n ==> r[i] == i
  {
    seq(n, i => i)
  }

  /** The number of unordered pairs of `n` things, n(n-1)/2. */
  function Pairs(n: nat): nat
  {
    n * (n - 1) / 2
  }

  function Min(a: int, b: int): int
  {
    if a <= b then a else b
  }

  /** f summed over the elements of s, last element added last. */
  function Sum<T>(s: seq<T>, f: T -> int): int
  {
    if |s| == 0 then 0 else Sum(s[..|s| - 1], f) + f(s[|s| - 1])
  }

  /** A sequence has as many distinct elements as entries exactly when it has no repeats. */
  lemma {:induction false} DistinctIffSetSize<T>(s: seq<T>)
    ensures |ToSet(s)| == |s| <==> Distinct(s)
    ensures |ToSet(s)| <= |s|
  {
    if |s| > 0 {
      var p, x := s[..|s| - 1], s[|s| - 1];
      DistinctIffSetSize(p);
      assert s == p + [x];
      assert ToSet(s) == ToSet(p) + {x};
      if x in ToSet(p) {
        assert ToSet(s) == ToSet(p);
        var i :| 0 <= i < |p| && p[i] == x;
        assert s[i] == s[|s| - 1];
        assert !Distinct(s);
      } else {
        assert |ToSet(s)| == |ToSet(p)| + 1;
        if Distinct(p) {
          forall i, j | 0 <= i < j < |s|
            ensures s[i] != s[j]
          {
            if j < |s| - 1 {
              assert s[i] == p[i] && s[j] == p[j];
            } else {
              assert s[i] in ToSet(p);
            }
          }
        } else {
          var i, j :| 0 <= i < j < |p| && p[i] == p[j];
          assert s[i] == s[j];
        }
      }
    }
  }

  /** In a sequence without repetition every element occurs exactly once. */
  lemma {:induction false} DistinctMultiplicity<T>(s: seq<T>, x: T)
    requires Distinct(s)
    ensures multiset(s)[x] == if x in s then 1 else 0
  {
    if |s| > 0 {
      var p, y := s[..|s| - 1], s[|s| - 1];
      assert s == p + [y];
      assert Distinct(p) by {
        forall i, j | 0 <= i < j < |p| ensures p[i] != p[j] {
          assert s[i] == p[i] && s[j] == p[j];
        }
      }
      DistinctMultiplicity(p, x);
    }
  }

  /** Two repetition-free sequences with the same elements are permutations
      of each other. */
  lemma DistinctSameElementsPermutation<T>(a: seq<T>, b: seq<T>)
    requires Distinct(a) && Distinct(b)
    requires ToSet(a) == ToSet(b)
    ensures multiset(a) == multiset(b)
  {
    forall x ensures multiset(a)[x] == multiset(b)[x] {
      DistinctMultiplicity(a, x);
      DistinctMultiplicity(b, x);
      assert x in a <==> x in ToSet(a);
      assert x in b <==> x in ToSet(b);
    }
  }

  /** Subsets of a finite set that have its size are the set itself. */
  lemma SubsetSameSizeEqual<T>(a: set<T>, b: set<T>)
    requires a <= b && |a| == |b|
    ensures a == b
  {
    assert b == a + (b - a);
    assert |b - a| == |b| - |a|;
  }

  lemma {:induction false} SumAppend<T>(a: seq<T>, b: seq<T>, f: T -> int)
    ensures Sum(a + b, f) == Sum(a, f) + Sum(b, f)
  {
    if |b| == 0 {
      assert a + b == a;
    } else {
      SumAppend(a, b[..|b| - 1], f);
      assert (a + b)[..|a + b| - 1] == a + b[..|b| - 1];
    }
  }

  /** One more element of a prefix adds its term: the step of a summing loop. */
  lemma SumPrefixStep<T>(s: seq<T>, i: int, f: T -> int)
    requires 0 <= i < |s|
    ensures Sum(s[..i + 1], f) == Sum(s[..i], f) + f(s[i])
  {
    assert s[..i + 1][..i] == s[..i];
  }

  lemma {:induction false} SumCongruence<T>(s: seq<T>, f: T -> int, g: T -> int)
    requires forall x :: x in s ==> f(x) == g(x)
    ensures Sum(s, f) == Sum(s, g)
  {
    if |s| > 0 {
      assert forall x :: x in s[..|s| - 1] ==> x in s;
      SumCongruence(s[..|s| - 1], f, g);
    }
  }

  lemma {:induction false} SumConst<T>(s: seq<T>, f: T -> int, k: int)
    requires forall x :: x in s ==> f(x) == k
    ensures Sum(s, f) == |s| * k
  {
    if |s| > 0 {
      assert forall x :: x in s[..|s| - 1] ==> x in s;
      SumConst(s[..|s| - 1], f, k);
    }
  }

  lemma {:induction false} SumAdd<T>(s: seq<T>, f: T -> int, g: T -> int, h: T -> int)
    requires forall x :: x in s ==> h(x) == f(x) + g(x)
    ensures Sum(s, h) == Sum(s, f) + Sum(s, g)
  {
    if |s| > 0 {
      assert forall x :: x in s[..|s| - 1] ==> x in s;
      SumAdd(s[..|s| - 1], f, g, h);
    }
  }

  /** Two terms that always add up to k sum to |s|·k together. */
  lemma {:induction false} SumComplement<T>(s: seq<T>, f: T -> int, g: T -> int, k: int)
    requires forall x :: x in s ==> f(x) + g(x) == k
    ensures Sum(s, f) + Sum(s, g) == |s| * k
  {
    if |s| > 0 {
      assert forall x :: x in s[..|s| - 1] ==> x in s;
      SumComplement(s[..|s| - 1], f, g, k);
    }
  }

  lemma {:induction false} SumMono<T>(s: seq<T>, f: T -> int, g: T -> int)
    requires forall x :: x in s ==> f(x) <= g(x)
    ensures Sum(s, f) <= Sum(s, g)
  {
    if |s| > 0 {
      assert forall x :: x in s[..|s| - 1] ==> x in s;
      SumMono(s[..|s| - 1], f, g);
    }
  }

  lemma SumNonNegative<T>(s: seq<T>, f: T -> int)
    requires forall x :: x in s ==> 0 <= f(x)
    ensures 0 <= Sum(s, f)
  {
    SumMono(s, x => 0, f);
    SumConst(s, x => 0, 0);
  }

  /** A term that is `a` at one element and `b` everywhere else sums to
      a + (|s|-1)·b when the element occurs exactly once. */
  lemma {:induction false} SumPoint<T>(s: seq<T>, x: T, a: int, b: int, f: T -> int)
    requires Distinct(s) && x in s
    requires forall y :: y in s ==> f(y) == if y == x then a else b
    ensures Sum(s, f) == a + (|s| - 1) * b
  {
    var p, y := s[..|s| - 1], s[|s| - 1];
    assert forall z :: z in p ==> z in s;
    assert Distinct(p) by {
      forall i, j | 0 <= i < j < |p| ensures p[i] != p[j] {
        assert s[i] == p[i] && s[j] == p[j];
      }
    }
    if y == x {
      assert x !in p;
      SumConst(p, f, b);
    } else {
      assert x in p by {
        var i :| 0 <= i < |s| && s[i] == x;
        assert i < |s| - 1 && p[i] == x;
      }
      SumPoint(p, x, a, b, f);
    }
  }

  /** Removing one occurrence of an element removes its term. */
  lemma {:induction false} SumRemove<T>(s: seq<T>, j: int, f: T -> int)
    requires 0 <= j < |s|
    ensures Sum(s, f) == Sum(s[..j] + s[j + 1..], f) + f(s[j])
  {
    var p := s[..|s| - 1];
    if j == |s| - 1 {
      assert s[..j] + s[j + 1..] == p;
    } else {
      SumRemove(p, j, f);
      var rest := s[..j] + s[j + 1..];
      assert rest[..|rest| - 1] == p[..j] + p[j + 1..];
      assert rest[|rest| - 1] == s[|s| - 1];
    }
  }

  /** Deleting position j removes one occurrence of s[j]. */
  lemma MultisetRemove<T>(s: seq<T>, j: int)
    requires 0 <= j < |s|
    ensures multiset(s[..j] + s[j + 1..]) == multiset(s) - multiset{s[j]}
  {
    assert s == s[..j] + [s[j]] + s[j + 1..];
  }

  /** Sums do not depend on the order of their terms. */
  lemma {:induction false} SumPermutation<T>(a: seq<T>, b: seq<T>, f: T -> int)
    requires multiset(a) == multiset(b)
    ensures Sum(a, f) == Sum(b, f)
  {
    if |a| == 0 {
      assert |multiset(b)| == 0;
      assert b == [];
    } else {
      var p, x := a[..|a| - 1], a[|a| - 1];
      assert x in multiset(b);
      var j :| 0 <= j < |b| && b[j] == x;
      var b' := b[..j] + b[j + 1..];
      MultisetRemove(a, |a| - 1);
      assert a[..|a| - 1] + a[|a|..] == p;
      MultisetRemove(b, j);
      SumPermutation(p, b', f);
      SumRemove(b, j, f);
    }
  }

  /** The x-th row and the y-th column of a table f. */
  function Row<X, Y>(f: (X, Y) -> int, x: X): Y -> int
  {
    y => f(x, y)
  }

  function Column<X, Y>(f: (X, Y) -> int, y: Y): X -> int
  {
    x => f(x, y)
  }

  /** Row totals over the columns ys, and column totals over the rows xs. */
  function RowTotals<X, Y>(ys: seq<Y>, f: (X, Y) -> int): X -> int
  {
    x => Sum(ys, Row(f, x))
  }

  function ColumnTotals<X, Y>(xs: seq<X>, f: (X, Y) -> int): Y -> int
  {
    y => Sum(xs, Column(f, y))
  }

  /** Adding a table up row by row or column by column gives the same. */
  lemma {:induction false} SumSwap<X, Y>(xs: seq<X>, ys: seq<Y>, f: (X, Y) -> int)
    ensures Sum(xs, RowTotals(ys, f)) == Sum(ys, ColumnTotals(xs, f))
  {
    if |xs| == 0 {
      SumConst(ys, ColumnTotals(xs, f), 0);
    } else {
      var p, z := xs[..|xs| - 1], xs[|xs| - 1];
      SumSwap(p, ys, f);
      forall y | y in ys ensures ColumnTotals(xs, f)(y) == ColumnTotals(p, f)(y) + Row(f, z)(y) { }
      SumAdd(ys, ColumnTotals(p, f), Row(f, z), ColumnTotals(xs, f));
    }
  }

  /** A sum over a sequence re-indexed by position. */
  lemma {:induction false} SumReindex<T>(r: seq<T>, g: T -> int, f: int -> int)
    requires forall i :: 0 <= i < |r| ==> g(r[i]) == f(i)
    ensures Sum(r, g) == Sum(Range(|r|), f)
  {
    if |r| > 0 {
      var n := |r|;
      assert Range(n)[..n - 1] == Range(n - 1);
      SumReindex(r[..n - 1], g, f);
    }
  }

  /** 0 + 1 + ... + (n-1) == n(n-1)/2. */
  lemma {:induction false} SumRangeIdentity(n: nat)
    ensures Sum(Range(n), i => i) == Pairs(n)
  {
    if n > 0 {
      assert Range(n)[..n - 1] == Range(n - 1);
      SumRangeIdentity(n - 1);
      var a := (n - 1) * (n - 2);
      assert n * (n - 1) == a + 2 * (n - 1);
    }
  }

  /** Of 0, ..., n-1 exactly min(n, k) are below k. */
  lemma {:induction false} SumRangeBelow(n: nat, k: nat)
    ensures Sum(Range(n), i => if i < k then 1 else 0) == Min(n, k)
  {
    if n > 0 {
      assert Range(n)[..n - 1] == Range(n - 1);
      SumRangeBelow(n - 1, k);
    }
  }
}

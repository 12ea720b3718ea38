/**
 Finite sums of real-valued terms over sequences, and the facts about them that
 the PageRank model relies on: linearity, constants, indicator terms and
 counting the occurrences of a walk.

 Every term is a function value; the lambdas live in the small named functions
 below (Lookup, Indicator, Counts) so that each one is written once.
 */
module Sums {

  /** The elements of `s` are pairwise different: none repeats an earlier one. */
  predicate Distinct<T(==)>(s: seq<T>) {
    |s| == 0 || (s[|s| - 1] !in s[..|s| - 1] && Distinct(s[..|s| - 1]))
  }

  /** In a duplicate-free sequence the element at `i` is not among those before it. */
  lemma {:induction false} Unseen<T>(s: seq<T>, i: nat)
    requires Distinct(s) && i < |s|
    ensures s[i] !in s[..i] && s[..i + 1] == s[..i] + [s[i]]
  {
    var prefix := s[..|s| - 1];
    if i < |prefix| {
      Unseen(prefix, i);
      assert prefix[..i] == s[..i] && prefix[i] == s[i];
    }
  }

  /** f(s[0]) + f(s[1]) + ... + f(s[|s| - 1]), accumulated from the front. */
  function Sum<T>(s: seq<T>, f: T -> real): real {
    if |s| == 0 then 0.0 else Sum(s[..|s| - 1], f) + f(s[|s| - 1])
  }

  /** The value of `m` at `x`, 0 outside its keys. */
  function Get<T(==)>(m: map<T, real>, x: T): real {
    if x in m then m[x] else 0.0
  }

  /** A map read as a function. */
  function Lookup<T(==)>(m: map<T, real>): T -> real {
    x => Get(m, x)
  }

  /** The sum of the values of `m` at the elements of `s`, accumulated from the front. */
  function Total<T(==)>(s: seq<T>, m: map<T, real>): real {
    if |s| == 0 then 0.0 else Total(s[..|s| - 1], m) + Get(m, s[|s| - 1])
  }

  /** Total is the Sum of the map read as a function. */
  lemma {:induction false} TotalIsSum<T>(s: seq<T>, m: map<T, real>)
    ensures Total(s, m) == Sum(s, Lookup(m))
  {
    if |s| > 0 {
      TotalIsSum(s[..|s| - 1], m);
    }
  }

  function Indicator<T(==)>(a: set<T>, v: real): T -> real {
    x => if x in a then v else 0.0
  }

  /** The number of times `x` occurs in `w`, counted from the back. */
  function Occurrences<T(==)>(w: seq<T>, x: T): nat {
    if |w| == 0 then 0
    else Occurrences(w[..|w| - 1], x) + if w[|w| - 1] == x then 1 else 0
  }

  /** The number of times each value occurs in `w`. */
  function Counts<T(==)>(w: seq<T>): T -> real {
    x => Occurrences(w, x) as real
  }

  /** A sum of pointwise sums is the sum of the two sums. */
  lemma {:induction false} SumAdd<T>(s: seq<T>, f: T -> real, g: T -> real, h: T -> real)
    requires forall i :: 0 <= i < |s| ==> h(s[i]) == f(s[i]) + g(s[i])
    ensures Sum(s, h) == Sum(s, f) + Sum(s, g)
  {
    if |s| > 0 {
      SumAdd(s[..|s| - 1], f, g, h);
    }
  }

  /** A constant factor comes out of a sum. */
  lemma {:induction false} SumScale<T>(s: seq<T>, f: T -> real, k: real, h: T -> real)
    requires forall i :: 0 <= i < |s| ==> h(s[i]) == f(s[i]) * k
    ensures Sum(s, h) == Sum(s, f) * k
  {
    if |s| > 0 {
      SumScale(s[..|s| - 1], f, k, h);
    }
  }

  /** |s| equal terms add up to |s| times the term. */
  lemma {:induction false} SumConstant<T>(s: seq<T>, f: T -> real, v: real)
    requires forall i :: 0 <= i < |s| ==> f(s[i]) == v
    ensures Sum(s, f) == |s| as real * v
  {
    if |s| > 0 {
      SumConstant(s[..|s| - 1], f, v);
    }
  }

  /**
   Over a duplicate-free sequence that contains every element of `a`, a term
   that is 1 on `a` and 0 elsewhere adds up to the number of elements of `a`.
   */
  lemma {:induction false} SumMembership<T>(s: seq<T>, f: T -> real, a: set<T>)
    requires Distinct(s)
    requires forall x :: x in a ==> x in s
    requires forall i :: 0 <= i < |s| ==> f(s[i]) == if s[i] in a then 1.0 else 0.0
    ensures Sum(s, f) == |a| as real
  {
    if |s| > 0 {
      var prefix, x := s[..|s| - 1], s[|s| - 1];
      var rest := a - {x};
      forall y | y in rest ensures y in prefix {
        assert y in s;
        assert s == prefix + [x];
      }
      forall i | 0 <= i < |prefix|
        ensures f(prefix[i]) == if prefix[i] in rest then 1.0 else 0.0
      {
        assert prefix[i] == s[i] != x;
      }
      SumMembership(prefix, f, rest);
      if x in a {
        assert a == rest + {x};
      } else {
        assert rest == a;
      }
    }
  }

  /**
   A `total` split evenly over the elements of a non-empty `a` and summed over
   a duplicate-free sequence that contains them all gives back `total`.
   */
  lemma {:induction false} SumEvenSplit<T>(s: seq<T>, f: T -> real, a: set<T>, total: real)
    requires Distinct(s) && a != {}
    requires forall x :: x in a ==> x in s
    requires forall i :: 0 <= i < |s| ==> f(s[i]) == if s[i] in a then total / |a| as real else 0.0
    ensures Sum(s, f) == total
  {
    var share := total / |a| as real;
    var count := Sum(s, Indicator(a, 1.0));
    assert count == |a| as real by {
      SumMembership(s, Indicator(a, 1.0), a);
    }
    var sum := Sum(s, f);
    assert sum == count * share by {
      SumIndicatorScale(s, f, a, share);
    }
    Cancel(count, |a|, total, share, sum);
  }

  /**
   Over a duplicate-free sequence that contains every element of `a`, the
   term that is `v` on `a` and 0 elsewhere adds up to |a| times `v`, given as
   `total`.
   */
  lemma {:induction false} SumIndicator<T>(s: seq<T>, a: set<T>, v: real, total: real)
    requires Distinct(s)
    requires forall x :: x in a ==> x in s
    requires |a| as real * v == total
    ensures Sum(s, Indicator(a, v)) == total
  {
    assert Sum(s, Indicator(a, 1.0)) == |a| as real by {
      SumMembership(s, Indicator(a, 1.0), a);
    }
    SumIndicatorScale(s, Indicator(a, v), a, v);
  }

  /** A term that is `v` on `a` and 0 elsewhere sums to `v` times the 1/0 indicator's sum. */
  lemma {:induction false} SumIndicatorScale<T>(s: seq<T>, f: T -> real, a: set<T>, v: real)
    requires forall i :: 0 <= i < |s| ==> f(s[i]) == if s[i] in a then v else 0.0
    ensures Sum(s, f) == Sum(s, Indicator(a, 1.0)) * v
  {
    forall i | 0 <= i < |s|
      ensures f(s[i]) == Indicator(a, 1.0)(s[i]) * v
    {
      if s[i] in a {
        assert Indicator(a, 1.0)(s[i]) == 1.0;
      } else {
        assert Indicator(a, 1.0)(s[i]) == 0.0;
      }
    }
    SumScale(s, Indicator(a, 1.0), v, f);
  }

  /** Dividing every term by the same non-zero `n` divides the sum by `n`. */
  lemma {:induction false} SumDivide<T>(s: seq<T>, f: T -> real, h: T -> real, n: real, total: real)
    requires n != 0.0 && Sum(s, f) == total
    requires forall i :: 0 <= i < |s| ==> h(s[i]) == f(s[i]) / n
    ensures Sum(s, h) == total / n
  {
    if |s| > 0 {
      var prefix, last := s[..|s| - 1], s[|s| - 1];
      var before := Sum(prefix, f);
      SumDivide(prefix, f, h, n, before);
      assert before / n + f(last) / n == (before + f(last)) / n;
    }
  }

  /** |s| terms that are each total/|s| add up to `total`. */
  lemma {:induction false} SumShares<T>(s: seq<T>, f: T -> real, total: real)
    requires |s| > 0
    requires forall i :: 0 <= i < |s| ==> f(s[i]) == total / |s| as real
    ensures Sum(s, f) == total
  {
    var share := total / |s| as real;
    var sum := Sum(s, f);
    assert sum == |s| as real * share by {
      SumConstant(s, f, share);
    }
    Cancel(|s| as real, |s|, total, share, sum);
  }

  /**
   One of `n` equal parts of `x`. Kept as a function so that equal parts are
   recognised as equal wherever they occur.
   */
  function Part(x: real, n: nat): real
    requires n > 0
  {
    x / n as real
  }

  /** `n` equal parts of `x` make `x`. */
  lemma {:induction false} PartsAdd(x: real, n: nat)
    requires n > 0
    ensures n as real * Part(x, n) == x
  {
  }

  /** `n` times d times a part of `x` make d times `x`. */
  lemma {:induction false} ScaledParts(d: real, x: real, n: nat)
    requires n > 0
    ensures n as real * (d * Part(x, n)) == d * x
  {
  }

  /** n * (total / n) = total, with the product given as `product`. */
  lemma {:induction false} Cancel(count: real, n: nat, total: real, share: real, product: real)
    requires n > 0 && count == n as real && share == total / n as real
    requires product == count * share
    ensures product == total
  {
  }

  /** A total of non-negative values is not negative. */
  lemma {:induction false} TotalNonNegative<T>(s: seq<T>, m: map<T, real>)
    requires forall y :: y in m ==> m[y] >= 0.0
    ensures Total(s, m) >= 0.0
  {
    if |s| > 0 {
      TotalNonNegative(s[..|s| - 1], m);
    }
  }

  /** With no negative value, the value at an element of `s` is at most the total over `s`. */
  lemma {:induction false} TotalAtLeastEntry<T>(s: seq<T>, m: map<T, real>, x: T)
    requires x in s && forall y :: y in m ==> m[y] >= 0.0
    ensures Get(m, x) <= Total(s, m)
  {
    var prefix, last := s[..|s| - 1], s[|s| - 1];
    TotalNonNegative(prefix, m);
    if x != last {
      assert s == prefix + [last];
      TotalAtLeastEntry(prefix, m, x);
    }
  }

  /** Dividing by the same positive number keeps the order. */
  lemma {:induction false} DivideMonotone(a: real, b: real, n: real)
    requires a <= b && n > 0.0
    ensures a / n <= b / n
  {
    assert b / n - a / n == (b - a) / n;
  }

  /** No value occurs in `w` more often than `w` is long. */
  lemma {:induction false} OccurrencesAtMost<T>(w: seq<T>, x: T)
    ensures Occurrences(w, x) <= |w|
  {
    if |w| > 0 {
      OccurrencesAtMost(w[..|w| - 1], x);
    }
  }

  /** Occurrences counts what a multiset of the elements of `w` counts. */
  lemma {:induction false} OccurrencesAreMultiplicity<T>(w: seq<T>, x: T)
    ensures Occurrences(w, x) == multiset(w)[x]
  {
    if |w| > 0 {
      var prefix, y := w[..|w| - 1], w[|w| - 1];
      assert w == prefix + [y];
      OccurrencesAreMultiplicity(prefix, x);
    }
  }

  /** Appending `y` adds one occurrence of `y` and leaves the others unchanged. */
  lemma {:induction false} OccurrencesAppend<T>(w: seq<T>, y: T, x: T)
    ensures Occurrences(w + [y], x) == Occurrences(w, x) + if y == x then 1 else 0
  {
    assert (w + [y])[..|w|] == w;
  }

  /**
   Counting the elements of a walk `w` that stays inside a duplicate-free `s`:
   the occurrence counts, summed over `s`, make up the length of the walk.
   */
  lemma {:induction false} SumCounts<T>(s: seq<T>, w: seq<T>)
    requires Distinct(s)
    requires forall i :: 0 <= i < |w| ==> w[i] in s
    ensures Sum(s, Counts(w)) == |w| as real
  {
    if |w| == 0 {
      SumConstant(s, Counts(w), 0.0);
    } else {
      var prefix, y := w[..|w| - 1], w[|w| - 1];
      SumCounts(s, prefix);
      forall i | 0 <= i < |s|
        ensures Counts(w)(s[i]) == Counts(prefix)(s[i]) + Indicator({y}, 1.0)(s[i])
      {
      }
      SumAdd(s, Counts(prefix), Indicator({y}, 1.0), Counts(w));
      SumMembership(s, Indicator({y}, 1.0), {y});
    }
  }
}

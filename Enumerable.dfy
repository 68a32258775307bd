/**
 * The LINQ operators the meter relies on (Where, FirstOrDefault, Take and the
 * integer Average followed by a (long) cast), over finite sequences.
 */
module Enumerable {

  /** A nullable value: None stands for the null reference. */
  datatype Option<+T> = None | Some(value: T)

  /** xs keeps some of the elements of ys, in the order they have in ys. */
  ghost predicate IsSubsequence<T>(xs: seq<T>, ys: seq<T>)
    decreases |ys|
  {
    if xs == [] then true
    else if ys == [] then false
    else (xs[0] == ys[0] && IsSubsequence(xs[1..], ys[1..])) || IsSubsequence(xs, ys[1..])
  }

  /** Enumerable.Where: the elements of xs satisfying p, in enumeration order. */
  function Where<T(!new)>(xs: seq<T>, p: T -> bool): (r: seq<T>)
    ensures forall i :: 0 <= i < |r| ==> p(r[i])
    ensures forall x :: x in r <==> x in xs && p(x)
  {
    if |xs| == 0 then []
    else if p(xs[0]) then [xs[0]] + Where(xs[1..], p)
    else Where(xs[1..], p)
  }

  /** Where keeps every element satisfying p as often as xs holds it, and no other. */
  lemma {:induction false} WhereCounts<T(!new)>(xs: seq<T>, p: T -> bool, x: T)
    ensures multiset(Where(xs, p))[x] == if p(x) then multiset(xs)[x] else 0
  {
    if |xs| > 0 {
      WhereCounts(xs[1..], p, x);
      assert xs == [xs[0]] + xs[1..];
    }
  }

  /** Where preserves the relative order of the elements it keeps. */
  lemma {:induction false} WhereKeepsOrder<T(!new)>(xs: seq<T>, p: T -> bool)
    ensures IsSubsequence(Where(xs, p), xs)
  {
    if |xs| > 0 {
      WhereKeepsOrder(xs[1..], p);
      var r := Where(xs, p);
      if p(xs[0]) {
        assert r[0] == xs[0] && r[1..] == Where(xs[1..], p);
      }
    }
  }

  /** The first element Where yields is the first element of xs satisfying p. */
  lemma {:induction false} WhereFirst<T(!new)>(xs: seq<T>, p: T -> bool, i: nat)
    requires i < |xs| && p(xs[i])
    requires forall j :: 0 <= j < i ==> !p(xs[j])
    ensures |Where(xs, p)| > 0 && Where(xs, p)[0] == xs[i]
  {
    if i > 0 {
      assert !p(xs[0]);
      WhereFirst(xs[1..], p, i - 1);
    }
  }

  /** Enumerable.FirstOrDefault for a reference type: the first element, or null. */
  function FirstOrDefault<T>(xs: seq<T>): Option<T>
  {
    if |xs| == 0 then None else Some(xs[0])
  }

  /** Enumerable.Take: the first n elements, or all of them when there are fewer. */
  function Take<T>(xs: seq<T>, n: nat): (r: seq<T>)
    ensures |r| == if |xs| < n then |xs| else n
    ensures r <= xs
  {
    if |xs| < n then xs else xs[..n]
  }

  /** The exact sum of a sequence of integers. */
  function Sum(xs: seq<int>): int
  {
    if |xs| == 0 then 0 else xs[0] + Sum(xs[1..])
  }

  /**
   * Integer division truncating toward zero, as a cast of a quotient to
   * long does (Dafny's own / is Euclidean and rounds negatives down).
   */
  function TruncatingDivide(a: int, n: int): (q: int)
    requires n > 0
    ensures 0 <= a ==> 0 <= q && q * n <= a < q * n + n
    ensures a < 0 ==> q <= 0 && q * n - n < a <= q * n
  {
    if a >= 0 then
      DivisionBounds(a, n);
      a / n
    else
      var k := (-a) / n;
      DivisionBounds(-a, n);
      NegatedProduct(k, n);
      -k
  }

  lemma DivisionBounds(b: int, n: int)
    requires b >= 0 && n > 0
    ensures 0 <= b / n && (b / n) * n <= b < (b / n) * n + n
  {
  }

  lemma NegatedProduct(k: int, n: int)
    ensures (-k) * n == -(k * n)
  {
  }

  /** Enumerable.Average of a non-empty sequence, cast to a whole number. */
  function Average(xs: seq<int>): int
    requires |xs| > 0
  {
    TruncatingDivide(Sum(xs), |xs|)
  }

  lemma MultiplyMonotone(a: int, b: int, n: int)
    requires a <= b && n > 0
    ensures a * n <= b * n
  {
  }

  /** When every element lies in [lo, hi], the sum lies in [lo * |xs|, hi * |xs|]. */
  lemma {:induction false} SumBounds(xs: seq<int>, lo: int, hi: int)
    requires forall i :: 0 <= i < |xs| ==> lo <= xs[i] <= hi
    ensures lo * |xs| <= Sum(xs) <= hi * |xs|
  {
    if |xs| > 0 {
      SumBounds(xs[1..], lo, hi);
      assert lo * |xs| == lo + lo * |xs[1..]|;
      assert hi * |xs| == hi + hi * |xs[1..]|;
    }
  }

  /** The truncated mean never leaves the range of the values averaged. */
  lemma AverageBounds(xs: seq<int>, lo: int, hi: int)
    requires |xs| > 0
    requires forall i :: 0 <= i < |xs| ==> lo <= xs[i] <= hi
    ensures lo <= Average(xs) <= hi
  {
    SumBounds(xs, lo, hi);
    var n, s, q := |xs|, Sum(xs), Average(xs);
    if q < lo {
      MultiplyMonotone(q + 1, lo, n);
    }
    if q > hi {
      MultiplyMonotone(hi, q - 1, n);
    }
  }
}

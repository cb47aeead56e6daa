/** Real-valued sums, squares and dot products, accumulated left to right as
    the `+=` loops of the original program do. */
module Reals {

  function Sq(x: real): real { x * x }

  function Abs(x: real): real { if x < 0.0 then -x else x }

  /** Sum of a sequence, adding the elements from first to last. */
  function Sum(s: seq<real>): real
  {
    if |s| == 0 then 0.0 else Sum(s[..|s| - 1]) + s[|s| - 1]
  }

  /** Dot product of the first `n` components of `a` and `b`. */
  function DotPrefix(a: seq<real>, b: seq<real>, n: nat): real
    requires n <= |a| && n <= |b|
  {
    if n == 0 then 0.0 else DotPrefix(a, b, n - 1) + a[n - 1] * b[n - 1]
  }

  /** Dot product of two vectors of equal dimension. */
  function Dot(a: seq<real>, b: seq<real>): real
    requires |a| == |b|
  {
    DotPrefix(a, b, |a|)
  }

  /** A sum of non-negative terms is non-negative. */
  lemma {:induction false} SumNonNegative(s: seq<real>)
    requires forall i :: 0 <= i < |s| ==> s[i] >= 0.0
    ensures Sum(s) >= 0.0
  {
    if |s| > 0 {
      SumNonNegative(s[..|s| - 1]);
    }
  }

  /** Summing a constant `c` over `n` terms gives `n * c`. */
  lemma {:induction false} SumConstant(s: seq<real>, c: real)
    requires forall i :: 0 <= i < |s| ==> s[i] == c
    ensures Sum(s) == |s| as real * c
  {
    if |s| > 0 {
      SumConstant(s[..|s| - 1], c);
    }
  }

  /** A sum of terms in `[0, c]` lies in `[0, |s| * c]`. */
  lemma {:induction false} SumWithin(s: seq<real>, c: real)
    requires forall i :: 0 <= i < |s| ==> 0.0 <= s[i] <= c
    ensures 0.0 <= Sum(s) <= |s| as real * c
  {
    if |s| > 0 {
      SumWithin(s[..|s| - 1], c);
    }
  }

  /** The mean of terms in `[0, c]` lies in `[0, c]`. */
  lemma MeanWithin(s: seq<real>, c: real)
    requires |s| > 0 && forall i :: 0 <= i < |s| ==> 0.0 <= s[i] <= c
    ensures 0.0 <= Sum(s) / |s| as real <= c
  {
    SumWithin(s, c);
    QuotientNonNegative(Sum(s), |s| as real);
    QuotientAtMost(Sum(s), |s| as real, c);
  }

  lemma ProductPositive(a: real, b: real)
    requires a > 0.0 && b > 0.0
    ensures a * b > 0.0
  {
  }

  lemma ProductNonNegative(a: real, b: real)
    requires a >= 0.0 && b >= 0.0
    ensures a * b >= 0.0
  {
  }

  /** Sum of the elementwise squares of `s`. */
  function SumSquares(s: seq<real>): real
  {
    if |s| == 0 then 0.0 else SumSquares(s[..|s| - 1]) + Sq(s[|s| - 1])
  }

  lemma SquareNonNegative(y: real)
    ensures y * y >= 0.0
  {
    if y < 0.0 { assert y * y == (-y) * (-y); }
  }

  /** The inductive step of the bound below, as plain real arithmetic: from
      `S^2 <= n*Q` it follows that `(S + x)^2 <= (n + 1) * (Q + x^2)`. */
  lemma SquareOfSumStep(n: real, S: real, Q: real, x: real)
    requires n >= 0.0 && Q >= 0.0
    requires n == 0.0 ==> S == 0.0
    requires S * S <= n * Q
    ensures (S + x) * (S + x) <= (n + 1.0) * (Q + x * x)
  {
    var cross := 2.0 * S * x;
    // For n > 0: n * (Q + n*x*x - cross) == n*Q - S*S + (S - n*x)^2 >= 0.
    assert cross <= Q + n * x * x by {
      if n != 0.0 {
        var y := S - n * x;
        SquareNonNegative(y);
        var lhs := n * (Q + n * x * x - cross);
        assert lhs == n * Q - S * S + y * y;
        assert lhs >= 0.0;
      }
    }
    assert (S + x) * (S + x) == S * S + cross + x * x;
    assert (n + 1.0) * (Q + x * x) == n * Q + Q + n * x * x + x * x;
  }

  lemma {:induction false} SumSquaresNonNegative(s: seq<real>)
    ensures SumSquares(s) >= 0.0
  {
    if |s| > 0 {
      var x := s[|s| - 1];
      SumSquaresNonNegative(s[..|s| - 1]);
      SquareNonNegative(x);
    }
  }

  /** The Cauchy-Schwarz inequality for a sum against the all-ones vector:
      the square of a sum of `n` terms is at most `n` times the sum of squares. */
  lemma {:induction false} SquareOfSumBound(s: seq<real>)
    ensures Sq(Sum(s)) <= |s| as real * SumSquares(s)
  {
    if |s| > 0 {
      var t := s[..|s| - 1];
      SquareOfSumBound(t);
      SumSquaresNonNegative(t);
      SquareOfSumStep(|t| as real, Sum(t), SumSquares(t), s[|s| - 1]);
    }
  }

  /** Pointwise `a[i]^2 + b[i]^2 == 1` makes the two sums of squares add up
      to the number of terms. */
  lemma {:induction false} SumSquaresUnit(a: seq<real>, b: seq<real>)
    requires |a| == |b|
    requires forall i :: 0 <= i < |a| ==> Sq(a[i]) + Sq(b[i]) == 1.0
    ensures SumSquares(a) + SumSquares(b) == |a| as real
  {
    if |a| > 0 {
      SumSquaresUnit(a[..|a| - 1], b[..|b| - 1]);
    }
  }

  /** Multiplying both sides of `a <= c` by a positive `b`. */
  lemma MulLe(a: real, c: real, b: real)
    requires b > 0.0 && a <= c
    ensures a * b <= c * b
  {
    ProductNonNegative(c - a, b);
    assert (c - a) * b == c * b - a * b;
  }

  /** Multiplying both sides of `a < c` by a positive `b`. */
  lemma MulLt(a: real, c: real, b: real)
    requires b > 0.0 && a < c
    ensures a * b < c * b
  {
    ProductPositive(c - a, b);
    assert (c - a) * b == c * b - a * b;
  }

  lemma QuotientTimes(n: real, b: real)
    requires b != 0.0
    ensures (n / b) * b == n
  {
  }

  /** `a < n / b` with `b > 0` means `a * b < n`. */
  lemma BelowQuotient(a: real, n: real, b: real)
    requires b > 0.0 && a < n / b
    ensures a * b < n
  {
    MulLt(a, n / b, b);
    QuotientTimes(n, b);
  }

  /** `a >= n / b` with `b > 0` means `a * b >= n`. */
  lemma AboveQuotient(a: real, n: real, b: real)
    requires b > 0.0 && a >= n / b
    ensures a * b >= n
  {
    MulLe(n / b, a, b);
    QuotientTimes(n, b);
  }

  lemma QuotientNonNegative(t: real, d: real)
    requires t >= 0.0 && d > 0.0
    ensures t / d >= 0.0
  {
  }

  lemma SameFactor(a: real, b: real, c: real)
    requires a == b
    ensures a * c == b * c
  {
  }

  lemma ScaledSum(n: real, a: real, b: real)
    ensures n * a + n * b == n * (a + b)
  {
  }

  /** A product of integers is the same computed before or after the cast. */
  lemma CastProduct(a: int, b: int)
    ensures (a * b) as real == a as real * b as real
  {
  }

  lemma QuotientExact(t: real, d: real, n: real)
    requires d > 0.0 && t == d * n
    ensures t / d == n
  {
  }

  /** `t / d <= n` whenever `t <= d * n` and `d > 0`. */
  lemma QuotientAtMost(t: real, d: real, n: real)
    requires d > 0.0 && t <= d * n
    ensures t / d <= n
  {
    var s := t / d;
    assert s * d == t;
    if s > n {
      assert (s - n) * d > 0.0;
    }
  }
}

/** The reciprocal lattice of `mdplot/ssf.py`: the grid of integer index
    vectors `{0..nq}^dim` that numpy's `indices` builds, flattened in
    row-major order and scaled by the lattice spacing `q_min`, together with
    the targets `q_min * (j + 1)` of the magnitude shells. */
module Lattice {

  function Pow(b: nat, e: nat): (r: nat)
    ensures b > 0 ==> r > 0
  {
    if e == 0 then 1 else b * Pow(b, e - 1)
  }

  /** An index vector of dimension `d` with every component in `[0, n]`. */
  predicate InBox(v: seq<nat>, n: nat, d: nat)
  {
    |v| == d && forall k :: 0 <= k < d ==> v[k] <= n
  }

  lemma MulAtLeast(k: int, p: int)
    requires p > 0
    ensures k >= 1 ==> k * p >= p
    ensures k <= -1 ==> k * p <= -p
  {
  }

  /** Quotient and remainder are unique: `a*p + b` with `0 <= b < p` has
      quotient `a` and remainder `b`. */
  lemma DivModUnique(j: int, a: int, b: int, p: int)
    requires p > 0 && 0 <= b < p && j == a * p + b
    ensures j / p == a && j % p == b
  {
    var q, r := j / p, j % p;
    assert j == q * p + r;
    assert (a - q) * p == r - b;
    MulAtLeast(a - q, p);
  }

  /** `j < (n+1)*p` bounds the quotient `j / p` by `n`. */
  lemma QuotientBound(j: nat, n: nat, p: nat)
    requires p > 0 && j < (n + 1) * p
    ensures j / p <= n
  {
    var q := j / p;
    assert q * p <= j;
    MulAtLeast(q - n, p);
    assert (q - n) * p == q * p - n * p;
  }

  /** The index vectors of the `d`-dimensional grid with `n + 1` points per
      axis, in row-major order: entry `j` has first component `j / P` and the
      remaining components of entry `j % P` of the `(d-1)`-dimensional grid,
      where `P` is that grid's size. The last axis therefore varies fastest. */
  function Grid(n: nat, d: nat): (g: seq<seq<nat>>)
    ensures |g| == Pow(n + 1, d)
    decreases d
  {
    if d == 0 then [[]]
    else
      var tail := Grid(n, d - 1);
      var p := |tail|;
      seq((n + 1) * p, j requires 0 <= j < (n + 1) * p => GridRow(tail, j))
  }

  /** Entry `j` of a grid one dimension up from `tail`: first component
      `j / |tail|`, then entry `j % |tail|` of `tail`. */
  function GridRow(tail: seq<seq<nat>>, j: nat): seq<nat>
    requires |tail| > 0
  {
    [j / |tail|] + tail[j % |tail|]
  }

  /** Entry `j` of the grid in terms of the grid one dimension down. */
  lemma GridEntry(n: nat, d: nat, j: nat)
    requires d > 0 && j < |Grid(n, d)|
    ensures |Grid(n, d - 1)| > 0
    ensures Grid(n, d)[j] == [j / |Grid(n, d - 1)|] + Grid(n, d - 1)[j % |Grid(n, d - 1)|]
  {
  }

  /** Every grid vector has `d` components, each between 0 and `n`. */
  lemma {:induction false} GridInBox(n: nat, d: nat, j: nat)
    requires j < |Grid(n, d)|
    ensures InBox(Grid(n, d)[j], n, d)
    decreases d
  {
    if d > 0 {
      GridEntry(n, d, j);
      var p := |Grid(n, d - 1)|;
      QuotientBound(j, n, p);
      GridInBox(n, d - 1, j % p);
    }
  }

  /** The row-major position of index vector `v` in a grid with `n + 1`
      points per axis: the digits of `v` read in base `n + 1`. */
  function Rank(v: seq<nat>, n: nat): nat
  {
    if |v| == 0 then 0 else v[0] * Pow(n + 1, |v| - 1) + Rank(v[1..], n)
  }

  lemma DivMod(j: nat, p: nat)
    requires p > 0
    ensures j == (j / p) * p + j % p
  {
  }

  /** A leading digit `a <= n` of weight `p` above a remainder `r < p` stays
      below `(n + 1) * p`. */
  lemma DigitBound(a: nat, r: nat, n: nat, p: nat)
    requires a <= n && r < p
    ensures a * p + r < (n + 1) * p
  {
    assert a * p <= n * p;
    assert (n + 1) * p == n * p + p;
  }

  lemma {:induction false} RankBound(v: seq<nat>, n: nat, d: nat)
    requires InBox(v, n, d)
    ensures Rank(v, n) < Pow(n + 1, d)
  {
    if d > 0 {
      var p := Pow(n + 1, d - 1);
      var rest := Rank(v[1..], n);
      assert InBox(v[1..], n, d - 1);
      RankBound(v[1..], n, d - 1);
      DigitBound(v[0], rest, n, p);
      assert Rank(v, n) == v[0] * p + rest;
      assert Pow(n + 1, d) == (n + 1) * p;
    }
  }

  /** Entry `j` of the grid sits at rank `j`: no vector is listed twice. */
  lemma {:induction false} RankOfGrid(n: nat, d: nat, j: nat)
    requires j < |Grid(n, d)|
    ensures Rank(Grid(n, d)[j], n) == j
    decreases d
  {
    if d > 0 {
      GridEntry(n, d, j);
      GridInBox(n, d, j);
      var p := |Grid(n, d - 1)|;
      var v := Grid(n, d)[j];
      var w := Grid(n, d - 1)[j % p];
      assert v[0] == j / p && v[1..] == w;
      assert Pow(n + 1, |v| - 1) == p;
      RankOfGrid(n, d - 1, j % p);
      DivMod(j, p);
    }
  }

  /** Every vector of the box is in the grid, at the position given by its
      rank. */
  lemma {:induction false} GridAtRank(v: seq<nat>, n: nat, d: nat)
    requires InBox(v, n, d)
    ensures Rank(v, n) < |Grid(n, d)| && Grid(n, d)[Rank(v, n)] == v
    decreases d
  {
    RankBound(v, n, d);
    if d > 0 {
      var j := Rank(v, n);
      GridEntry(n, d, j);
      var p := |Grid(n, d - 1)|;
      var rest := Rank(v[1..], n);
      assert InBox(v[1..], n, d - 1);
      GridAtRank(v[1..], n, d - 1);
      assert j == v[0] * p + rest;
      DivModUnique(j, v[0], rest, p);
      assert Grid(n, d)[j] == [v[0]] + v[1..];
    }
  }

  /** The grid holds exactly the vectors of `{0..n}^d`, each exactly once. */
  lemma GridIsBox(n: nat, d: nat)
    ensures forall v :: v in Grid(n, d) <==> InBox(v, n, d)
    ensures forall i, j :: 0 <= i < j < |Grid(n, d)| ==> Grid(n, d)[i] != Grid(n, d)[j]
  {
    var g := Grid(n, d);
    forall v | InBox(v, n, d)
      ensures v in g
    {
      GridAtRank(v, n, d);
    }
    forall j | 0 <= j < |g|
      ensures InBox(g[j], n, d)
    {
      GridInBox(n, d, j);
    }
    forall i, j | 0 <= i < j < |g|
      ensures g[i] != g[j]
    {
      RankOfGrid(n, d, i);
      RankOfGrid(n, d, j);
    }
  }

  /** Strict lexicographic order on index vectors of equal length. */
  predicate LexLess(a: seq<nat>, b: seq<nat>)
  {
    |a| > 0 && |b| > 0 && (a[0] < b[0] || (a[0] == b[0] && LexLess(a[1..], b[1..])))
  }

  /** Of two positions with the same quotient by `p`, the smaller has the
      smaller remainder; otherwise the smaller has the smaller quotient. */
  lemma DivModOrder(i: nat, j: nat, p: nat)
    requires p > 0 && i < j
    ensures i / p < j / p || (i / p == j / p && i % p < j % p)
  {
    DivMod(i, p);
    DivMod(j, p);
    MulAtLeast(i / p - j / p, p);
  }

  /** The grid is listed in strictly increasing lexicographic order, first
      axis slowest and last axis fastest. */
  lemma {:induction false} GridLexOrdered(n: nat, d: nat, i: nat, j: nat)
    requires i < j < |Grid(n, d)|
    ensures LexLess(Grid(n, d)[i], Grid(n, d)[j])
    decreases d
  {
    assert d > 0;
    GridEntry(n, d, i);
    GridEntry(n, d, j);
    var p := |Grid(n, d - 1)|;
    DivModOrder(i, j, p);
    if i / p == j / p {
      GridLexOrdered(n, d - 1, i % p, j % p);
      assert Grid(n, d)[i][1..] == Grid(n, d - 1)[i % p];
      assert Grid(n, d)[j][1..] == Grid(n, d - 1)[j % p];
    }
  }

  /** Scaling an index vector by the lattice spacing. */
  function Scale(qMin: real, v: seq<nat>): seq<real>
  {
    seq(|v|, k requires 0 <= k < |v| => qMin * v[k] as real)
  }

  /** `q_grid`: the grid of wavevectors, the index grid scaled by `q_min`
      and listed in the same order. */
  function QGrid(qMin: real, nq: nat, dim: nat): (g: seq<seq<real>>)
    ensures |g| == Pow(nq + 1, dim)
  {
    var grid := Grid(nq, dim);
    seq(|grid|, j requires 0 <= j < |grid| => Scale(qMin, grid[j]))
  }

  /** Every wavevector has `dim` components, and component `k` of wavevector
      `j` is `q_min * m` for the index `0 <= m <= nq` at the same place in the
      index grid. */
  lemma QGridComponent(qMin: real, nq: nat, dim: nat, j: nat, k: nat)
    requires j < |QGrid(qMin, nq, dim)| && k < dim
    ensures |QGrid(qMin, nq, dim)[j]| == dim
    ensures Grid(nq, dim)[j][k] <= nq
    ensures QGrid(qMin, nq, dim)[j][k] == qMin * Grid(nq, dim)[j][k] as real
  {
    GridInBox(nq, dim, j);
  }

  /** `q_range`: the shell targets `q_min * (j + 1)` for `j < nq`. The
      contract states them as a progression, first `q_min` and then one
      `q_min` further each; `QRangeValue` gives each entry as a product. */
  function QRange(qMin: real, nq: nat): (r: seq<real>)
    ensures |r| == nq
    ensures nq > 0 ==> r[0] == qMin
    ensures forall j :: 0 < j < nq ==> r[j] - r[j - 1] == qMin
  {
    var r := seq(nq, j requires 0 <= j < nq => qMin * (j + 1) as real);
    assert forall j :: 0 < j < nq ==> r[j] - r[j - 1] == qMin by {
      forall j | 0 < j < nq ensures r[j] - r[j - 1] == qMin {
        NextMultiple(qMin, j);
      }
    }
    r
  }

  lemma NextMultiple(q: real, j: nat)
    ensures q * (j + 1) as real - q * j as real == q
  {
  }

  /** Entry `j` of `q_range` is `q_min * (j + 1)`. */
  lemma QRangeValue(qMin: real, nq: nat, j: nat)
    requires j < nq
    ensures QRange(qMin, nq)[j] == qMin * (j + 1) as real
  {
  }

  /** Two targets `i < j` are at least one spacing apart. */
  lemma {:induction false} QRangeGap(qMin: real, nq: nat, i: nat, j: nat)
    requires qMin > 0.0 && i < j < nq
    ensures QRange(qMin, nq)[j] - QRange(qMin, nq)[i] >= qMin
    decreases j - i
  {
    if j > i + 1 {
      QRangeGap(qMin, nq, i, j - 1);
    }
  }

  /** The shell targets start at one lattice spacing, are spaced by exactly
      one lattice spacing, and are strictly increasing. */
  lemma QRangeSpacing(qMin: real, nq: nat)
    requires qMin > 0.0
    ensures nq > 0 ==> QRange(qMin, nq)[0] == qMin
    ensures forall j :: 0 <= j < nq - 1 ==> QRange(qMin, nq)[j + 1] - QRange(qMin, nq)[j] == qMin
    ensures forall i, j :: 0 <= i < j < nq ==> QRange(qMin, nq)[i] < QRange(qMin, nq)[j]
  {
    var r := QRange(qMin, nq);
    forall j | 0 <= j < nq - 1
      ensures r[j + 1] - r[j] == qMin
    {
      assert r[j + 1] - r[(j + 1) - 1] == qMin;
    }
    forall i, j | 0 <= i < j < nq
      ensures r[i] < r[j]
    {
      QRangeGap(qMin, nq, i, j);
    }
  }
}

/** Magnitude shells of `mdplot/ssf.py`: the norm of every grid wavevector,
    and for each target `|q|` the grid wavevectors whose norm lies strictly
    within `q_err` of it, kept in grid order. The square root is a parameter. */
module Shells {
  import opened Reals
  import Lattice

  /** `q_norm`: the magnitude of every wavevector of the grid. */
  function Norms(grid: seq<seq<real>>, sqrt: real -> real): (r: seq<real>)
    ensures |r| == |grid|
  {
    seq(|grid|, j requires 0 <= j < |grid| => sqrt(Dot(grid[j], grid[j])))
  }

  /** The tolerance band of a shell: `|norm - q_val| < q_err`. */
  predicate InBand(norm: real, qVal: real, qErr: real)
  {
    Abs(norm - qVal) < qErr
  }

  /** `where(abs(q_norm - q_val) < q_err)`: the positions whose norm lies in
      the band, in ascending order. */
  function Band(norms: seq<real>, qVal: real, qErr: real): (idx: seq<nat>)
    ensures forall k :: 0 <= k < |idx| ==> idx[k] < |norms| && InBand(norms[idx[k]], qVal, qErr)
    ensures forall i :: 0 <= i < |norms| && InBand(norms[i], qVal, qErr) ==> i in idx
    ensures forall a, b :: 0 <= a < b < |idx| ==> idx[a] < idx[b]
  {
    if |norms| == 0 then []
    else
      var last := |norms| - 1;
      Band(norms[..last], qVal, qErr) + (if InBand(norms[last], qVal, qErr) then [last] else [])
  }

  /** `q_grid[where(...)]`: the wavevectors of one shell. */
  function Shell(grid: seq<seq<real>>, norms: seq<real>, qVal: real, qErr: real): (q: seq<seq<real>>)
    requires |norms| == |grid|
    ensures |q| == |Band(norms, qVal, qErr)|
  {
    var idx := Band(norms, qVal, qErr);
    seq(|idx|, k requires 0 <= k < |idx| => grid[idx[k]])
  }

  /** A shell holds exactly the grid wavevectors in the band: every one in it
      is such a grid vector, every such grid vector is in it, and they appear
      in grid order. */
  lemma ShellMembers(grid: seq<seq<real>>, norms: seq<real>, qVal: real, qErr: real)
    requires |norms| == |grid|
    ensures forall i :: 0 <= i < |grid| && InBand(norms[i], qVal, qErr) ==> grid[i] in Shell(grid, norms, qVal, qErr)
    ensures forall v :: v in Shell(grid, norms, qVal, qErr) ==>
      exists i :: 0 <= i < |grid| && grid[i] == v && InBand(norms[i], qVal, qErr)
    ensures forall a, b :: 0 <= a < b < |Band(norms, qVal, qErr)| ==>
      Shell(grid, norms, qVal, qErr)[a] == grid[Band(norms, qVal, qErr)[a]] &&
      Band(norms, qVal, qErr)[a] < Band(norms, qVal, qErr)[b]
  {
    var idx := Band(norms, qVal, qErr);
    var q := Shell(grid, norms, qVal, qErr);
    forall i | 0 <= i < |grid| && InBand(norms[i], qVal, qErr)
      ensures grid[i] in q
    {
      var k :| 0 <= k < |idx| && idx[k] == i;
      assert q[k] == grid[i];
    }
    forall v | v in q
      ensures exists i :: 0 <= i < |grid| && grid[i] == v && InBand(norms[i], qVal, qErr)
    {
      var k :| 0 <= k < |q| && q[k] == v;
      assert grid[idx[k]] == v;
    }
  }

  /** A shell is empty exactly when no grid norm lies in its band. */
  lemma ShellEmpty(grid: seq<seq<real>>, norms: seq<real>, qVal: real, qErr: real)
    requires |norms| == |grid|
    ensures |Shell(grid, norms, qVal, qErr)| == 0 <==>
      forall i :: 0 <= i < |norms| ==> !InBand(norms[i], qVal, qErr)
  {
    var idx := Band(norms, qVal, qErr);
    if |idx| > 0 {
      assert InBand(norms[idx[0]], qVal, qErr);
    }
  }

  /** With a tolerance of at most half the lattice spacing, the shells around
      two distinct targets of `q_range` share no wavevector. */
  lemma ShellsDisjoint(norms: seq<real>, qMin: real, qErr: real, nq: nat, j1: nat, j2: nat)
    requires qMin > 0.0 && 2.0 * qErr <= qMin && j1 < nq && j2 < nq && j1 != j2
    ensures forall a, b ::
      0 <= a < |Band(norms, Lattice.QRange(qMin, nq)[j1], qErr)| &&
      0 <= b < |Band(norms, Lattice.QRange(qMin, nq)[j2], qErr)| ==>
        Band(norms, Lattice.QRange(qMin, nq)[j1], qErr)[a] != Band(norms, Lattice.QRange(qMin, nq)[j2], qErr)[b]
  {
    var t1, t2 := Lattice.QRange(qMin, nq)[j1], Lattice.QRange(qMin, nq)[j2];
    TargetsApart(qMin, nq, j1, j2);
    forall i | 0 <= i < |norms| ensures !(InBand(norms[i], t1, qErr) && InBand(norms[i], t2, qErr)) {
      NotInBoth(norms[i], t1, t2, qErr);
    }
  }

  /** Two distinct shell targets are at least one spacing `q_min` apart. */
  lemma TargetsApart(qMin: real, nq: nat, j1: nat, j2: nat)
    requires qMin > 0.0 && j1 < nq && j2 < nq && j1 != j2
    ensures Abs(Lattice.QRange(qMin, nq)[j1] - Lattice.QRange(qMin, nq)[j2]) >= qMin
  {
    if j1 > j2 {
      Lattice.QRangeGap(qMin, nq, j2, j1);
    } else {
      Lattice.QRangeGap(qMin, nq, j1, j2);
    }
  }

  /** A norm cannot be within `q_err` of two targets `2 q_err` apart. */
  lemma NotInBoth(x: real, t1: real, t2: real, qErr: real)
    requires Abs(t1 - t2) >= 2.0 * qErr
    ensures !(InBand(x, t1, qErr) && InBand(x, t2, qErr))
  {
  }

  /** With a tolerance above half the lattice spacing, a wavevector whose norm
      lies midway between two targets belongs to both shells. */
  lemma ShellsOverlap(norms: seq<real>, qMin: real, qErr: real, j: nat, i: nat)
    requires qMin > 0.0 && 2.0 * qErr > qMin
    requires i < |norms| && norms[i] == qMin * (j + 1) as real + qMin / 2.0
    ensures i in Band(norms, qMin * (j + 1) as real, qErr)
    ensures i in Band(norms, qMin * (j + 2) as real, qErr)
  {
    var t1 := qMin * (j + 1) as real;
    var t2 := qMin * (j + 2) as real;
    assert t2 == t1 + qMin;
    assert InBand(norms[i], t1, qErr);
    assert InBand(norms[i], t2, qErr);
  }

  /** The vector with `j + 1` on the first axis and 0 elsewhere. */
  function Axis(j: nat, dim: nat): (v: seq<nat>)
    requires dim > 0
    ensures |v| == dim && v[0] == j + 1
  {
    [j + 1] + seq(dim - 1, k => 0)
  }

  /** The squared norm of a vector that is 0 past its first component. */
  lemma {:induction false} DotFirstAxis(a: seq<real>, n: nat)
    requires 0 < n <= |a|
    requires forall k :: 0 < k < |a| ==> a[k] == 0.0
    ensures DotPrefix(a, a, n) == Sq(a[0])
  {
    if n > 1 {
      DotFirstAxis(a, n - 1);
    }
  }

  /** The axis vector `(j + 1, 0, ..., 0)` is in the grid, and its
      wavevector has squared norm `(q_min * (j + 1))^2`. */
  lemma AxisWavevector(qMin: real, nq: nat, dim: nat, j: nat) returns (i: nat)
    requires dim > 0 && j < nq
    ensures i < |Lattice.QGrid(qMin, nq, dim)|
    ensures Dot(Lattice.QGrid(qMin, nq, dim)[i], Lattice.QGrid(qMin, nq, dim)[i]) == Sq(qMin * (j + 1) as real)
  {
    var v := Axis(j, dim);
    assert Lattice.InBox(v, nq, dim);
    Lattice.GridAtRank(v, nq, dim);
    i := Lattice.Rank(v, nq);
    var w := Lattice.QGrid(qMin, nq, dim)[i];
    assert w == Lattice.Scale(qMin, v);
    ScaledAxis(qMin, j, dim);
    DotFirstAxis(w, dim);
    assert Dot(w, w) == Sq(w[0]);
  }

  /** The scaled axis vector is `q_min * (j + 1)` on the first axis and 0
      elsewhere. */
  lemma ScaledAxis(qMin: real, j: nat, dim: nat)
    requires dim > 0
    ensures |Lattice.Scale(qMin, Axis(j, dim))| == dim
    ensures Lattice.Scale(qMin, Axis(j, dim))[0] == qMin * (j + 1) as real
    ensures forall k :: 0 < k < dim ==> Lattice.Scale(qMin, Axis(j, dim))[k] == 0.0
  {
  }

  /** For every target `q_min * (j + 1)` with `j < nq`, the shell is never
      empty when the square root is exact on that target: the axis vector
      `(j + 1, 0, ..., 0)` of the grid has exactly that norm. */
  lemma ShellNeverEmpty(qMin: real, nq: nat, dim: nat, j: nat, qErr: real, sqrt: real -> real)
    requires dim > 0 && j < nq && qErr > 0.0
    requires sqrt(Sq(qMin * (j + 1) as real)) == qMin * (j + 1) as real
    ensures |Shell(Lattice.QGrid(qMin, nq, dim), Norms(Lattice.QGrid(qMin, nq, dim), sqrt),
                   Lattice.QRange(qMin, nq)[j], qErr)| > 0
  {
    var grid := Lattice.QGrid(qMin, nq, dim);
    var norms := Norms(grid, sqrt);
    var target := Lattice.QRange(qMin, nq)[j];
    var i := AxisWavevector(qMin, nq, dim, j);
    Lattice.QRangeValue(qMin, nq, j);
    assert norms[i] == target;
    assert InBand(norms[i], target, qErr);
    assert i in Band(norms, target, qErr);
  }
}

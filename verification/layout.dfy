/** The flat device layouts of `ssf_cuda` in `mdplot/ssf.py`: positions are
    copied as `r.T.flatten()` (all x, then all y, then all z) and wavevectors
    as `q.flatten()` (one wavevector after another). */
module Layout {

  /** Every row of `m` has exactly `w` entries. */
  predicate Rows(m: seq<seq<real>>, w: nat)
  {
    forall i :: 0 <= i < |m| ==> |m[i]| == w
  }

  /** numpy's `flatten` of a row-major array: the rows laid end to end. */
  function Flatten(m: seq<seq<real>>): seq<real>
  {
    if |m| == 0 then [] else Flatten(m[..|m| - 1]) + m[|m| - 1]
  }

  /** The flat index of entry `col` of row `row` in a row-major array with
      `width` columns. */
  function At(row: nat, col: nat, width: nat): nat
  {
    col + row * width
  }

  lemma MulMonotone(a: nat, b: nat, w: nat)
    requires a <= b
    ensures a * w <= b * w
  {
  }

  /** Entry `c` of row `r` of a `|m|`-by-`w` array is at flat index `c + r*w`. */
  lemma {:induction false} FlattenIndex(m: seq<seq<real>>, w: nat)
    requires Rows(m, w)
    ensures |Flatten(m)| == |m| * w
    ensures forall r, c :: 0 <= r < |m| && 0 <= c < w ==> At(r, c, w) < |Flatten(m)| && Flatten(m)[At(r, c, w)] == m[r][c]
  {
    if |m| > 0 {
      var n := |m| - 1;
      var p := m[..n];
      assert Rows(p, w);
      FlattenIndex(p, w);
      assert Flatten(m) == Flatten(p) + m[n];
      assert |Flatten(m)| == n * w + w;
      forall r, c | 0 <= r < |m| && 0 <= c < w
        ensures At(r, c, w) < |Flatten(m)| && Flatten(m)[At(r, c, w)] == m[r][c]
      {
        if r < n {
          MulMonotone(r + 1, n, w);
          assert c + r * w < n * w;
          assert p[r] == m[r];
        } else {
          assert c + r * w == n * w + c;
        }
      }
    }
  }

  /** numpy's `a.T` of an array with `w` columns. */
  function Transpose(m: seq<seq<real>>, w: nat): (t: seq<seq<real>>)
    requires Rows(m, w)
    ensures |t| == w && Rows(t, |m|)
    ensures forall k, i :: 0 <= k < w && 0 <= i < |m| ==> t[k][i] == m[i][k]
  {
    seq(w, k requires 0 <= k < w => seq(|m|, i requires 0 <= i < |m| => m[i][k]))
  }

  /** `r.T.flatten()`: coordinate `k` of particle `i` sits at `i + k*npart`. */
  function PositionsLayout(r: seq<seq<real>>, dim: nat): (f: seq<real>)
    requires Rows(r, dim)
    ensures |f| == dim * |r|
    ensures forall i, k :: 0 <= i < |r| && 0 <= k < dim ==> At(k, i, |r|) < |f| && f[At(k, i, |r|)] == r[i][k]
  {
    var t := Transpose(r, dim);
    FlattenIndex(t, |r|);
    Flatten(t)
  }

  /** `q.flatten()`: component `k` of wavevector `offset` sits at `k + offset*dim`. */
  function WavevectorsLayout(q: seq<seq<real>>, dim: nat): (f: seq<real>)
    requires Rows(q, dim)
    ensures |f| == |q| * dim
    ensures forall offset, k :: 0 <= offset < |q| && 0 <= k < dim ==> At(offset, k, dim) < |f| && f[At(offset, k, dim)] == q[offset][k]
  {
    FlattenIndex(q, dim);
    Flatten(q)
  }
}

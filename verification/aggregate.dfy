/** The loop of `plot` in `mdplot/ssf.py` that turns a set of trajectory
    samples into the curve `S(|q|)`: the grid, its norms and the shell targets
    are built once; for every shell and every sample `ssf_cuda` and the host
    routine are accumulated; the two accumulations are compared; and the
    CUDA accumulation divided by the number of samples is the result. */
module Aggregate {
  import opened Wrappers
  import opened Reals
  import opened Layout
  import Lattice
  import Shells
  import opened Kernel

  /** The wavevectors of shell `j`: the grid vectors whose norm is within
      `qErr` of `q_min * (j + 1)`. */
  function ShellAt(qMin: real, nq: nat, dim: nat, qErr: real, sqrt: real -> real, j: nat): (q: seq<seq<real>>)
    requires j < nq
    ensures Rows(q, dim)
  {
    var grid := Lattice.QGrid(qMin, nq, dim);
    var norms := Shells.Norms(grid, sqrt);
    GridRows(qMin, nq, dim);
    ShellRows(grid, norms, Lattice.QRange(qMin, nq)[j], qErr, dim);
    Shells.Shell(grid, norms, Lattice.QRange(qMin, nq)[j], qErr)
  }

  lemma GridRows(qMin: real, nq: nat, dim: nat)
    ensures Rows(Lattice.QGrid(qMin, nq, dim), dim)
  {
    var g := Lattice.QGrid(qMin, nq, dim);
    forall j | 0 <= j < |g| ensures |g[j]| == dim {
      if dim > 0 {
        Lattice.QGridComponent(qMin, nq, dim, j, 0);
      } else {
        assert g[j] == Lattice.Scale(qMin, Lattice.Grid(nq, dim)[j]);
        Lattice.GridInBox(nq, dim, j);
      }
    }
  }

  lemma ShellRows(grid: seq<seq<real>>, norms: seq<real>, qVal: real, qErr: real, dim: nat)
    requires |norms| == |grid| && Rows(grid, dim)
    ensures Rows(Shells.Shell(grid, norms, qVal, qErr), dim)
  {
    Shells.ShellMembers(grid, norms, qVal, qErr);
  }

  /** Every configuration has `dim` coordinates per particle. */
  predicate Configurations(samples: seq<seq<seq<real>>>, dim: nat)
  {
    forall s :: 0 <= s < |samples| ==> Rows(samples[s], dim)
  }

  /** Every configuration holds at least one particle. */
  predicate Populated(samples: seq<seq<seq<real>>>)
  {
    forall s :: 0 <= s < |samples| ==> |samples[s]| > 0
  }

  /** The first `upto` shells are all non-empty. */
  predicate ShellsPopulated(qMin: real, nq: nat, dim: nat, qErr: real, sqrt: real -> real, upto: nat)
    requires upto <= nq
  {
    forall j :: 0 <= j < upto ==> |ShellAt(qMin, nq, dim, qErr, sqrt, j)| > 0
  }

  /** `ssf_cuda` succeeds on every shell and every sample: when it is called
      at all, the block size, every shell and every configuration are
      non-empty. */
  predicate Runnable(qMin: real, nq: nat, dim: nat, qErr: real, sqrt: real -> real,
                     samples: seq<seq<seq<real>>>, blockSize: nat)
  {
    nq > 0 && |samples| > 0 ==>
      blockSize > 0 && ShellsPopulated(qMin, nq, dim, qErr, sqrt, nq) && Populated(samples)
  }

  /** The reference structure factor of shell `q` for each sample in turn. */
  function SampleValues(q: seq<seq<real>>, samples: seq<seq<seq<real>>>, dim: nat,
                        sin: real -> real, cos: real -> real): (v: seq<real>)
    requires Rows(q, dim) && |q| > 0 && Configurations(samples, dim)
    requires forall s :: 0 <= s < |samples| ==> |samples[s]| > 0
    ensures |v| == |samples|
  {
    seq(|samples|, s requires 0 <= s < |samples| => StructureFactor(q, samples[s], dim, sin, cos))
  }

  /** `numpy` relative deviation `abs(a - b) / a > 1e-6`, where `x / 0` is
      infinite for `x > 0` and `0 / 0` is NaN, which compares false. */
  predicate Deviates(a: real, b: real)
  {
    if a == 0.0 then b != 0.0 else Abs(a - b) / a > 0.000001
  }

  /** `where(diff > 1e-6)`: the shells whose two accumulations deviate, in
      ascending order. */
  function Deviations(sq: seq<real>, sq2: seq<real>): (idx: seq<nat>)
    requires |sq| == |sq2|
    ensures forall k :: 0 <= k < |idx| ==> idx[k] < |sq| && Deviates(sq[idx[k]], sq2[idx[k]])
    ensures forall j :: 0 <= j < |sq| && Deviates(sq[j], sq2[j]) ==> j in idx
    ensures forall a, b :: 0 <= a < b < |idx| ==> idx[a] < idx[b]
  {
    if |sq| == 0 then []
    else
      var last := |sq| - 1;
      Deviations(sq[..last], sq2[..last]) + (if Deviates(sq[last], sq2[last]) then [last] else [])
  }

  /** Two equal accumulations never deviate, including shells where both are
      zero (NaN in the source). */
  lemma {:induction false} NoDeviationWhenEqual(sq: seq<real>)
    ensures Deviations(sq, sq) == []
  {
    if |sq| > 0 {
      var last := |sq| - 1;
      NoDeviationWhenEqual(sq[..last]);
      assert !Deviates(sq[last], sq[last]);
    }
  }

  /** Why the curve was not produced. */
  datatype RunError =
    | CollapsedGrid                     // `nq = 0` or `dim <= 1`: lines 94-96 raise before the loop
    | KernelFailed(cause: KernelError)  // `ssf_cuda` raised
    | NoKernelCall                      // no sample: `timer_host / timer_gpu` is `0 / 0`

  /** The result of one run: the curve `S_q` (one value per shell) and the
      shells the consistency check reports. */
  datatype Run = Run(curve: seq<real>, deviations: seq<nat>)

  /** Lines 94-131 of `plot` with `--cuda`: for every shell target and every
      sample, accumulate `ssf_cuda` into `S_q` and the host routine into
      `S_q2`, report the shells where they deviate, then divide `S_q` by the
      number of samples. The host routine is taken to compute the reference
      structure factor. With `nq = 0` or `dim <= 1` the lattice of line 94
      has at most one axis longer than 1, `squeeze` leaves a vector or a
      scalar, and `sum(q_grid * q_grid, axis=1)` at line 96 raises before the
      loop starts (with `dim = 0` the `reshape` itself raises). Without a
      sample no kernel call runs, both timers keep the integer `0`, and the
      speedup printout divides `0` by `0`. The run succeeds exactly when
      there is a shell, more than one dimension and a sample, and every
      kernel call succeeds; each curve value is then the mean over
      the samples of the reference structure factor of its shell, and the
      check reports nothing. */
  method StructureFactorCurve(qMin: real, nq: nat, dim: nat, qErr: real, sqrt: real -> real,
                              samples: seq<seq<seq<real>>>, blockSize: nat,
                              sin: real -> real, cos: real -> real)
    returns (res: Result<Run, RunError>)
    requires Configurations(samples, dim)
    ensures res.Ok? <==> nq > 0 && dim > 1 && |samples| > 0 && Runnable(qMin, nq, dim, qErr, sqrt, samples, blockSize)
    ensures res == Err(CollapsedGrid) <==> nq == 0 || dim <= 1
    ensures res == Err(NoKernelCall) <==> nq > 0 && dim > 1 && |samples| == 0
    ensures res.Ok? ==> |res.value.curve| == nq && res.value.deviations == []
    ensures res.Ok? ==> forall j :: 0 <= j < nq ==>
      res.value.curve[j] == Sum(SampleValues(ShellAt(qMin, nq, dim, qErr, sqrt, j), samples, dim, sin, cos))
                            / |samples| as real
  {
    if nq == 0 || dim <= 1 {
      return Err(CollapsedGrid);
    }
    var totals := ShellTotals(qMin, nq, dim, qErr, sqrt, samples, blockSize, sin, cos);
    if totals.Err? {
      return Err(KernelFailed(totals.error));
    }
    var (sq, sq2) := totals.value;
    NoDeviationWhenEqual(sq);
    var deviations := Deviations(sq, sq2);
    if |samples| == 0 {
      return Err(NoKernelCall);
    }
    var curve := seq(nq, j requires 0 <= j < nq => sq[j] / |samples| as real);
    return Ok(Run(curve, deviations));
  }

  /** Lines 112-124: the loop over the shell targets, returning `S_q` and
      `S_q2` before the division. It fails exactly when there is a shell and
      a sample and some `ssf_cuda` call fails; otherwise both totals agree,
      and with samples each is the sum over the samples of the reference
      structure factor of its shell. */
  method ShellTotals(qMin: real, nq: nat, dim: nat, qErr: real, sqrt: real -> real,
                     samples: seq<seq<seq<real>>>, blockSize: nat,
                     sin: real -> real, cos: real -> real)
    returns (res: Result<(seq<real>, seq<real>), KernelError>)
    requires Configurations(samples, dim)
    ensures res.Ok? <==> Runnable(qMin, nq, dim, qErr, sqrt, samples, blockSize)
    ensures res.Ok? ==> |res.value.0| == nq && res.value.0 == res.value.1
    ensures res.Ok? && |samples| > 0 ==> forall j :: 0 <= j < nq ==>
      res.value.0[j] == Sum(SampleValues(ShellAt(qMin, nq, dim, qErr, sqrt, j), samples, dim, sin, cos))
  {
    var sq, sq2 := [], [];
    var j := 0;
    while j < nq
      invariant 0 <= j <= nq && |sq| == j && sq == sq2
      invariant j > 0 && |samples| > 0 ==> blockSize > 0 && Populated(samples)
      invariant |samples| > 0 ==> ShellsPopulated(qMin, nq, dim, qErr, sqrt, j)
      invariant |samples| > 0 ==> forall j' :: 0 <= j' < j ==>
        sq[j'] == Sum(SampleValues(ShellAt(qMin, nq, dim, qErr, sqrt, j'), samples, dim, sin, cos))
    {
      var q := ShellAt(qMin, nq, dim, qErr, sqrt, j);
      var totals := AccumulateShell(q, samples, dim, blockSize, sin, cos);
      if totals.Err? {
        return Err(totals.error);
      }
      sq := sq + [totals.value.0];
      sq2 := sq2 + [totals.value.1];
      j := j + 1;
    }
    return Ok((sq, sq2));
  }

  /** Lines 115-123: the inner loop over the samples for one shell `q`,
      returning the `ssf_cuda` total and the host total. It fails exactly
      when there is a sample and `ssf_cuda` fails on the first one it is
      given: an empty block, an empty shell or an empty configuration. */
  method AccumulateShell(q: seq<seq<real>>, samples: seq<seq<seq<real>>>, dim: nat, blockSize: nat,
                         sin: real -> real, cos: real -> real)
    returns (res: Result<(real, real), KernelError>)
    requires Rows(q, dim) && Configurations(samples, dim)
    ensures res.Ok? <==> |samples| == 0 || (blockSize > 0 && |q| > 0 && Populated(samples))
    ensures res.Ok? && |samples| == 0 ==> res.value == (0.0, 0.0)
    ensures res.Ok? && |samples| > 0 ==>
      res.value.0 == res.value.1 == Sum(SampleValues(q, samples, dim, sin, cos))
  {
    var total, host := 0.0, 0.0;
    var s := 0;
    while s < |samples|
      invariant 0 <= s <= |samples| && total == host
      invariant s > 0 ==> blockSize > 0 && |q| > 0 && forall i :: 0 <= i < s ==> |samples[i]| > 0
      invariant s > 0 ==> total == Sum(SampleValues(q, samples[..s], dim, sin, cos))
      invariant s == 0 ==> total == 0.0
    {
      var v := SsfCuda(q, samples[s], dim, blockSize, sin, cos);
      if v.Err? {
        assert !(blockSize > 0 && |q| > 0 && |samples[s]| > 0);
        return Err(v.error);
      }
      assert v.value == StructureFactor(q, samples[s], dim, sin, cos);
      assert blockSize > 0 && |q| > 0 && |samples[s]| > 0;
      AccumulateSample(q, samples, dim, sin, cos, s);
      total := total + v.value;
      host := host + StructureFactor(q, samples[s], dim, sin, cos);
      s := s + 1;
    }
    assert samples[..|samples|] == samples;
    return Ok((total, host));
  }

  /** Adding sample `s` to the running sum over the first `s` samples. */
  lemma AccumulateSample(q: seq<seq<real>>, samples: seq<seq<seq<real>>>, dim: nat,
                         sin: real -> real, cos: real -> real, s: nat)
    requires Rows(q, dim) && |q| > 0 && Configurations(samples, dim) && s < |samples|
    requires forall i :: 0 <= i <= s ==> |samples[i]| > 0
    ensures Configurations(samples[..s + 1], dim) && Configurations(samples[..s], dim)
    ensures Populated(samples[..s + 1]) && Populated(samples[..s])
    ensures Sum(SampleValues(q, samples[..s + 1], dim, sin, cos))
      == (if s == 0 then 0.0 else Sum(SampleValues(q, samples[..s], dim, sin, cos)))
         + StructureFactor(q, samples[s], dim, sin, cos)
  {
    var all := SampleValues(q, samples[..s + 1], dim, sin, cos);
    assert samples[..s + 1][..s] == samples[..s];
    assert all[..s] == SampleValues(q, samples[..s], dim, sin, cos);
  }

  /** On a non-empty block with populated configurations, a run with
      positive tolerance in at least one dimension never meets an empty
      shell, provided `sqrt` is exact on the squared targets: every shell `j`
      contains the axis vector `(q_min*(j+1), 0, ...)`. */
  lemma {:induction false} PipelineRunnable(qMin: real, nq: nat, dim: nat, qErr: real, sqrt: real -> real,
                                            samples: seq<seq<seq<real>>>, blockSize: nat)
    requires dim > 0 && qErr > 0.0 && blockSize > 0 && Populated(samples)
    requires forall j :: 0 <= j < nq ==>
      sqrt(Sq(Lattice.QRange(qMin, nq)[j])) == Lattice.QRange(qMin, nq)[j]
    ensures Runnable(qMin, nq, dim, qErr, sqrt, samples, blockSize)
  {
    forall j | 0 <= j < nq ensures |ShellAt(qMin, nq, dim, qErr, sqrt, j)| > 0 {
      Lattice.QRangeValue(qMin, nq, j);
      Shells.ShellNeverEmpty(qMin, nq, dim, j, qErr, sqrt);
    }
  }

  /** With the identity `sin² + cos² = 1` and `n` particles in every sample,
      each curve value, the mean of the sample values, lies in `[0, n]`. */
  lemma MeanBounds(q: seq<seq<real>>, samples: seq<seq<seq<real>>>, dim: nat,
                   sin: real -> real, cos: real -> real, n: nat)
    requires Rows(q, dim) && |q| > 0 && Configurations(samples, dim) && |samples| > 0
    requires n > 0 && forall s :: 0 <= s < |samples| ==> |samples[s]| == n
    requires forall x :: Sq(sin(x)) + Sq(cos(x)) == 1.0
    ensures 0.0 <= Sum(SampleValues(q, samples, dim, sin, cos)) / |samples| as real <= n as real
  {
    var v := SampleValues(q, samples, dim, sin, cos);
    forall s | 0 <= s < |v| ensures 0.0 <= v[s] <= n as real {
      StructureFactorBounds(q, samples[s], dim, sin, cos);
    }
    MeanWithin(v, n as real);
  }
}

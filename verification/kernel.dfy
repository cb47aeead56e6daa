/** The CUDA path of `mdplot/ssf.py`, run sequentially: the `compute_ssf`
    kernel body for one thread, a launch over `ceil(npart / block_size)`
    blocks, the `sum_kernel` reductions and the `ssf_cuda` loop over the
    wavevectors of one shell. `sin` and `cos` are parameters; reals stand for
    the device's single-precision floats. */
module Kernel {
  import opened Wrappers
  import opened Reals
  import opened Layout
  import PySeq

  lemma FlatIndexBound(row: nat, col: nat, rows: nat, width: nat)
    requires row < rows && col < width
    ensures At(row, col, width) < rows * width
  {
    MulMonotone(row + 1, rows, width);
  }

  /** The kernel's `q_r` after its first `k` loop iterations, read from the
      flat arrays at `k + offset*dim` and `i + k*npart`. */
  function PhaseAfter(gq: seq<real>, gr: seq<real>, offset: nat, i: nat, npart: nat, dim: nat, k: nat): real
    requires k <= dim && i < npart && |gr| == dim * npart && (offset + 1) * dim <= |gq|
  {
    if k == 0 then 0.0
    else
      FlatIndexBound(offset, k - 1, offset + 1, dim);
      FlatIndexBound(k - 1, i, dim, npart);
      PhaseAfter(gq, gr, offset, i, npart, dim, k - 1) + gq[At(offset, k - 1, dim)] * gr[At(k - 1, i, npart)]
  }

  /** Reading the two flat layouts, the kernel's phase for particle `i` and
      wavevector `offset` is the dot product `q[offset] . r[i]`. */
  lemma {:induction false} PhaseIsDot(q: seq<seq<real>>, r: seq<seq<real>>, dim: nat, offset: nat, i: nat, k: nat)
    requires Rows(q, dim) && Rows(r, dim) && offset < |q| && i < |r| && k <= dim
    ensures (offset + 1) * dim <= |WavevectorsLayout(q, dim)|
    ensures PhaseAfter(WavevectorsLayout(q, dim), PositionsLayout(r, dim), offset, i, |r|, dim, k)
      == DotPrefix(q[offset], r[i], k)
  {
    MulMonotone(offset + 1, |q|, dim);
    if k > 0 {
      PhaseIsDot(q, r, dim, offset, i, k - 1);
      PhaseStep(q, r, dim, offset, i, k);
    }
  }

  /** One iteration of the kernel's loop adds `q[offset][k-1] * r[i][k-1]`. */
  lemma PhaseStep(q: seq<seq<real>>, r: seq<seq<real>>, dim: nat, offset: nat, i: nat, k: nat)
    requires Rows(q, dim) && Rows(r, dim) && offset < |q| && i < |r| && 0 < k <= dim
    requires (offset + 1) * dim <= |WavevectorsLayout(q, dim)|
    ensures PhaseAfter(WavevectorsLayout(q, dim), PositionsLayout(r, dim), offset, i, |r|, dim, k)
      == PhaseAfter(WavevectorsLayout(q, dim), PositionsLayout(r, dim), offset, i, |r|, dim, k - 1)
         + q[offset][k - 1] * r[i][k - 1]
  {
    var gq, gr := WavevectorsLayout(q, dim), PositionsLayout(r, dim);
    assert gq[At(offset, k - 1, dim)] == q[offset][k - 1];
    assert gr[At(k - 1, i, |r|)] == r[i][k - 1];
  }

  /** What one thread stores: `sin_[index]` and `cos_[index]`. */
  datatype ThreadWrite = ThreadWrite(index: nat, sin: real, cos: real)

  /** `compute_ssf` for global thread `tid`: a thread past the last particle
      returns without writing; thread `tid < npart` writes the sine and cosine
      of its phase at index `tid`. */
  function ComputeSsf(sin: real -> real, cos: real -> real, gq: seq<real>, gr: seq<real>,
                      offset: nat, npart: nat, dim: nat, tid: nat): (w: Option<ThreadWrite>)
    requires |gr| == dim * npart && (offset + 1) * dim <= |gq|
    ensures w.Some? <==> tid < npart
    ensures w.Some? ==> w.value.index == tid
  {
    if tid >= npart then None
    else
      var qr := PhaseAfter(gq, gr, offset, tid, npart, dim, dim);
      Some(ThreadWrite(tid, sin(qr), cos(qr)))
  }

  /** `GTID` of the kernel source: `(blockIdx.y * gridDim.x + blockIdx.x) * blockDim.x + threadIdx.x`. */
  function GlobalThreadId(blockY: nat, blockX: nat, gridX: nat, blockDim: nat, threadX: nat): nat
  {
    (blockY * gridX + blockX) * blockDim + threadX
  }

  /** The global ids of the threads of the first `blocks` blocks of a launch
      on grid `(gridX, 1)` with blocks of `blockDim` threads, block by block
      and thread by thread. */
  function ThreadIds(blocks: nat, gridX: nat, blockDim: nat): seq<nat>
  {
    if blocks == 0 then []
    else
      ThreadIds(blocks - 1, gridX, blockDim)
        + seq(blockDim, tx requires 0 <= tx < blockDim => GlobalThreadId(0, blocks - 1, gridX, blockDim, tx))
  }

  /** The threads of a launch carry every global id below `blocks * blockDim`
      exactly once, in increasing order. */
  lemma {:induction false} ThreadIdsEnumerate(blocks: nat, gridX: nat, blockDim: nat)
    ensures ThreadIds(blocks, gridX, blockDim) == PySeq.Range(0, blocks * blockDim)
  {
    if blocks > 0 {
      ThreadIdsEnumerate(blocks - 1, gridX, blockDim);
      var lo := (blocks - 1) * blockDim;
      assert blocks * blockDim == lo + blockDim;
      var ids := ThreadIds(blocks, gridX, blockDim);
      var range := PySeq.Range(0, blocks * blockDim);
      assert |ids| == |range|;
      forall k | 0 <= k < |ids|
        ensures ids[k] == range[k]
      {
        if k >= lo {
          assert ids[k] == GlobalThreadId(0, blocks - 1, gridX, blockDim, k - lo);
        }
      }
    }
  }

  function Ceil(x: real): int
  {
    -((-x).Floor)
  }

  /** `grid = ceil(npart / block_size)`: the fewest blocks whose threads reach
      every particle. */
  function LaunchGrid(npart: nat, blockSize: nat): (g: nat)
    requires blockSize > 0
    ensures g * blockSize >= npart
    ensures g > 0 ==> (g - 1) * blockSize < npart
    ensures g == 0 <==> npart == 0
  {
    CeilCovers(npart, blockSize);
    CeilTight(npart, blockSize);
    CeilSign(npart, blockSize);
    Ceil(npart as real / blockSize as real)
  }

  /** The facts behind `LaunchGrid`, one multiplication at a time:
      `ceil(npart / b)` blocks of `b` threads reach every particle ... */
  lemma CeilCovers(npart: nat, blockSize: nat)
    requires blockSize > 0
    ensures Ceil(npart as real / blockSize as real) * blockSize >= npart
  {
    var x, b := npart as real / blockSize as real, blockSize as real;
    var c := Ceil(x);
    CeilBracket(x);
    AboveQuotient(c as real, npart as real, b);
    ProductAtLeast(c, blockSize, npart);
  }

  /** ... one block fewer would not ... */
  lemma CeilTight(npart: nat, blockSize: nat)
    requires blockSize > 0
    ensures (Ceil(npart as real / blockSize as real) - 1) * blockSize < npart
  {
    var x, b := npart as real / blockSize as real, blockSize as real;
    var c := Ceil(x) - 1;
    CeilBracket(x);
    BelowQuotient(c as real, npart as real, b);
    ProductBelow(c, blockSize, npart);
  }

  /** `Ceil(x)` is the least integer at or above `x`. */
  lemma CeilBracket(x: real)
    ensures x <= Ceil(x) as real < x + 1.0
  {
  }

  /** ... and the count is never negative, and zero only for no particles. */
  lemma CeilSign(npart: nat, blockSize: nat)
    requires blockSize > 0
    ensures Ceil(npart as real / blockSize as real) >= 0
    ensures Ceil(npart as real / blockSize as real) == 0 <==> npart == 0
  {
    var x, b := npart as real / blockSize as real, blockSize as real;
    QuotientTimes(npart as real, b);
    if x < 0.0 {
      MulLt(x, 0.0, b);
    }
  }

  /** Integer comparisons of a product read off the real ones. */
  lemma ProductAtLeast(a: int, b: int, n: int)
    requires a as real * b as real >= n as real
    ensures a * b >= n
  {
    CastProduct(a, b);
  }

  lemma ProductBelow(a: int, b: int, n: int)
    requires a as real * b as real < n as real
    ensures a * b < n
  {
    CastProduct(a, b);
  }

  /** Device memory of one launch: the `sin_` and `cos_` arrays, and the
      indices written into them in the order the threads ran. */
  datatype Device = Device(sin: seq<real>, cos: seq<real>, written: seq<nat>)

  function Zeros(n: nat): (z: seq<real>)
    ensures |z| == n
  {
    seq(n, i => 0.0)
  }

  /** The device after the threads `tids` ran, one after another, on arrays
      that `fill(0)` cleared. */
  function RunThreads(tids: seq<nat>, sin: real -> real, cos: real -> real, gq: seq<real>, gr: seq<real>,
                      offset: nat, npart: nat, dim: nat): (d: Device)
    requires |gr| == dim * npart && (offset + 1) * dim <= |gq|
    ensures |d.sin| == npart && |d.cos| == npart
    ensures forall k :: 0 <= k < |d.written| ==> d.written[k] < npart
  {
    if |tids| == 0 then Device(Zeros(npart), Zeros(npart), [])
    else
      var d := RunThreads(tids[..|tids| - 1], sin, cos, gq, gr, offset, npart, dim);
      Store(d, ComputeSsf(sin, cos, gq, gr, offset, npart, dim, tids[|tids| - 1]))
  }

  /** What one thread's write, if any, does to the device. */
  function Store(d: Device, w: Option<ThreadWrite>): Device
    requires w.Some? ==> w.value.index < |d.sin| && w.value.index < |d.cos|
  {
    match w
    case None => d
    case Some(w) => Device(d.sin[w.index := w.sin], d.cos[w.index := w.cos], d.written + [w.index])
  }

  function Min(a: nat, b: nat): nat { if a <= b then a else b }

  /** The device after the threads with ids `0 .. t-1` ran: exactly the
      particles below `min(t, npart)` were written, once each and in order,
      with the sine and cosine of their phase; the rest of the arrays is
      still zero. */
  predicate RanPrefix(d: Device, t: nat, sin: real -> real, cos: real -> real, gq: seq<real>, gr: seq<real>,
                      offset: nat, npart: nat, dim: nat)
    requires |gr| == dim * npart && (offset + 1) * dim <= |gq|
  {
    d.written == PySeq.Range(0, Min(t, npart)) && |d.sin| == npart && |d.cos| == npart &&
    forall i :: 0 <= i < npart ==>
      d.sin[i] == (if i < t then sin(PhaseAfter(gq, gr, offset, i, npart, dim, dim)) else 0.0) &&
      d.cos[i] == (if i < t then cos(PhaseAfter(gq, gr, offset, i, npart, dim, dim)) else 0.0)
  }

  /** Running the threads `0 .. t-1` one after another leaves the device as
      `RanPrefix` describes. */
  lemma {:induction false} RunThreadsPrefix(t: nat, sin: real -> real, cos: real -> real, gq: seq<real>, gr: seq<real>,
                                            offset: nat, npart: nat, dim: nat)
    requires |gr| == dim * npart && (offset + 1) * dim <= |gq|
    ensures RanPrefix(RunThreads(PySeq.Range(0, t), sin, cos, gq, gr, offset, npart, dim), t, sin, cos, gq, gr, offset, npart, dim)
  {
    if t > 0 {
      RunThreadsPrefix(t - 1, sin, cos, gq, gr, offset, npart, dim);
      var before := RunThreads(PySeq.Range(0, t - 1), sin, cos, gq, gr, offset, npart, dim);
      RunThreadsLast(t, sin, cos, gq, gr, offset, npart, dim);
      if t - 1 < npart {
        WriteStep(before, t, sin, cos, gq, gr, offset, npart, dim);
      } else {
        IdleStep(before, t, sin, cos, gq, gr, offset, npart, dim);
      }
    }
  }

  /** Running threads `0 .. t-1` is running `0 .. t-2`, then thread `t - 1`. */
  lemma RunThreadsLast(t: nat, sin: real -> real, cos: real -> real, gq: seq<real>, gr: seq<real>,
                       offset: nat, npart: nat, dim: nat)
    requires |gr| == dim * npart && (offset + 1) * dim <= |gq| && t > 0
    ensures RunThreads(PySeq.Range(0, t), sin, cos, gq, gr, offset, npart, dim)
      == Store(RunThreads(PySeq.Range(0, t - 1), sin, cos, gq, gr, offset, npart, dim),
               ComputeSsf(sin, cos, gq, gr, offset, npart, dim, t - 1))
  {
    var ids := PySeq.Range(0, t);
    assert ids[..t - 1] == PySeq.Range(0, t - 1);
    assert ids[t - 1] == t - 1;
  }

  /** Thread `t - 1 < npart` writes its particle and extends the prefix. */
  lemma WriteStep(before: Device, t: nat, sin: real -> real, cos: real -> real, gq: seq<real>, gr: seq<real>,
                  offset: nat, npart: nat, dim: nat)
    requires |gr| == dim * npart && (offset + 1) * dim <= |gq|
    requires 0 < t <= npart && RanPrefix(before, t - 1, sin, cos, gq, gr, offset, npart, dim)
    ensures RanPrefix(Store(before, ComputeSsf(sin, cos, gq, gr, offset, npart, dim, t - 1)),
                      t, sin, cos, gq, gr, offset, npart, dim)
  {
    assert PySeq.Range(0, t - 1) + [t - 1] == PySeq.Range(0, t);
  }

  /** Thread `t - 1 >= npart` writes nothing, and the prefix stays complete. */
  lemma IdleStep(before: Device, t: nat, sin: real -> real, cos: real -> real, gq: seq<real>, gr: seq<real>,
                 offset: nat, npart: nat, dim: nat)
    requires |gr| == dim * npart && (offset + 1) * dim <= |gq|
    requires t > npart && RanPrefix(before, t - 1, sin, cos, gq, gr, offset, npart, dim)
    ensures RanPrefix(Store(before, ComputeSsf(sin, cos, gq, gr, offset, npart, dim, t - 1)),
                      t, sin, cos, gq, gr, offset, npart, dim)
  {
  }

  /** `f` (the sine or the cosine) of the phase `qv . r[i]` of every particle. */
  function Phases(qv: seq<real>, r: seq<seq<real>>, f: real -> real): (s: seq<real>)
    requires Rows(r, |qv|)
    ensures |s| == |r|
  {
    seq(|r|, i requires 0 <= i < |r| => f(Dot(qv, r[i])))
  }

  /** One `compute_ssf` launch for wavevector `offset` on the launch grid of
      `ssf_cuda`: every particle is written exactly once, in order, and no
      thread past the last particle writes; the arrays then hold the sine and
      cosine of `q[offset] . r[i]` for every particle `i`. */
  function Launch(q: seq<seq<real>>, r: seq<seq<real>>, dim: nat, offset: nat, blockSize: nat,
                  sin: real -> real, cos: real -> real): (d: Device)
    requires Rows(q, dim) && Rows(r, dim) && offset < |q| && blockSize > 0
    ensures d.written == PySeq.Range(0, |r|)
    ensures d.sin == Phases(q[offset], r, sin) && d.cos == Phases(q[offset], r, cos)
  {
    var gq := WavevectorsLayout(q, dim);
    var gr := PositionsLayout(r, dim);
    var g := LaunchGrid(|r|, blockSize);
    MulMonotone(offset + 1, |q|, dim);
    ThreadIdsEnumerate(g, g, blockSize);
    RunThreadsPrefix(g * blockSize, sin, cos, gq, gr, offset, |r|, dim);
    var d := RunThreads(ThreadIds(g, g, blockSize), sin, cos, gq, gr, offset, |r|, dim);
    assert forall i :: 0 <= i < |r| ==> d.sin[i] == sin(Dot(q[offset], r[i])) && d.cos[i] == cos(Dot(q[offset], r[i])) by {
      forall i | 0 <= i < |r|
        ensures d.sin[i] == sin(Dot(q[offset], r[i])) && d.cos[i] == cos(Dot(q[offset], r[i]))
      {
        PhaseIsDot(q, r, dim, offset, i, dim);
      }
    }
    d
  }

  /** `(sum sin)^2 + (sum cos)^2` of one wavevector: the squared modulus of
      `sum_i exp(i q.r_i)`. */
  function Intensity(qv: seq<real>, r: seq<seq<real>>, sin: real -> real, cos: real -> real): real
    requires Rows(r, |qv|)
  {
    Sq(Sum(Phases(qv, r, sin))) + Sq(Sum(Phases(qv, r, cos)))
  }

  /** The static structure factor of a non-empty shell `q` and a non-empty
      configuration `r`, straight from its definition:
      `(1 / (m n)) sum_q [(sum_i sin(q.r_i))^2 + (sum_i cos(q.r_i))^2]`. */
  function StructureFactor(q: seq<seq<real>>, r: seq<seq<real>>, dim: nat, sin: real -> real, cos: real -> real): real
    requires Rows(q, dim) && Rows(r, dim) && |q| > 0 && |r| > 0
  {
    Sum(Intensities(q, r, dim, sin, cos)) / (|q| * |r|) as real
  }

  /** The intensity of every wavevector of the shell, in shell order. */
  function Intensities(q: seq<seq<real>>, r: seq<seq<real>>, dim: nat, sin: real -> real, cos: real -> real): (t: seq<real>)
    requires Rows(q, dim) && Rows(r, dim)
    ensures |t| == |q|
  {
    seq(|q|, j requires 0 <= j < |q| => Intensity(q[j], r, sin, cos))
  }

  /** The ways `ssf_cuda` fails: a zero block size or an empty shell divides
      by zero, and with no particles the launch grid is empty, which the CUDA
      runtime rejects. */
  datatype KernelError = DivisionByZero | EmptyLaunch

  /** `ssf_cuda(q, r, block_size)`: one launch and two reductions per
      wavevector, accumulated over the shell and normalised by `nq * npart`.
      It succeeds exactly when the block size, the shell and the configuration
      are all non-empty, and then equals the reference structure factor. */
  function SsfCuda(q: seq<seq<real>>, r: seq<seq<real>>, dim: nat, blockSize: nat,
                   sin: real -> real, cos: real -> real): (res: Result<real, KernelError>)
    requires Rows(q, dim) && Rows(r, dim)
    ensures res.Ok? <==> blockSize > 0 && |q| > 0 && |r| > 0
    ensures res == Err(EmptyLaunch) <==> blockSize > 0 && |q| > 0 && |r| == 0
    ensures res.Ok? ==> res.value == StructureFactor(q, r, dim, sin, cos)
  {
    if blockSize == 0 then Err(DivisionByZero)
    else if |q| == 0 then Err(DivisionByZero)
    else if |r| == 0 then Err(EmptyLaunch)
    else Ok(Sum(DeviceIntensities(q, r, dim, blockSize, sin, cos)) / (|q| * |r|) as real)
  }

  /** `pow(sum_kernel(gpu_sin).get(), 2) + pow(sum_kernel(gpu_cos).get(), 2)`
      for every wavevector, each from its own launch; these are the terms the
      loop of `ssf_cuda` adds to `result`, and they agree with the reference
      intensities. */
  function DeviceIntensities(q: seq<seq<real>>, r: seq<seq<real>>, dim: nat, blockSize: nat,
                             sin: real -> real, cos: real -> real): (t: seq<real>)
    requires Rows(q, dim) && Rows(r, dim) && blockSize > 0
    ensures t == Intensities(q, r, dim, sin, cos)
  {
    var t := seq(|q|, i requires 0 <= i < |q| =>
      var d := Launch(q, r, dim, i, blockSize, sin, cos);
      Sq(Sum(d.sin)) + Sq(Sum(d.cos)));
    assert forall j :: 0 <= j < |q| ==> t[j] == Intensities(q, r, dim, sin, cos)[j];
    t
  }

  /** The structure factor is never negative. */
  lemma StructureFactorNonNegative(q: seq<seq<real>>, r: seq<seq<real>>, dim: nat, sin: real -> real, cos: real -> real)
    requires Rows(q, dim) && Rows(r, dim) && |q| > 0 && |r| > 0
    ensures StructureFactor(q, r, dim, sin, cos) >= 0.0
  {
    IntensitiesNonNegative(q, r, dim, sin, cos);
    SumNonNegative(Intensities(q, r, dim, sin, cos));
    QuotientNonNegative(Sum(Intensities(q, r, dim, sin, cos)), (|q| * |r|) as real);
  }

  /** Every intensity is a sum of two squares. */
  lemma IntensitiesNonNegative(q: seq<seq<real>>, r: seq<seq<real>>, dim: nat, sin: real -> real, cos: real -> real)
    requires Rows(q, dim) && Rows(r, dim)
    ensures forall j :: 0 <= j < |q| ==> Intensities(q, r, dim, sin, cos)[j] >= 0.0
  {
    forall j | 0 <= j < |q| ensures Intensities(q, r, dim, sin, cos)[j] >= 0.0 {
      SquareNonNegative(Sum(Phases(q[j], r, sin)));
      SquareNonNegative(Sum(Phases(q[j], r, cos)));
    }
  }

  /** One wavevector contributes at most `n^2` when `sin^2 + cos^2 == 1`. */
  lemma IntensityBound(qv: seq<real>, r: seq<seq<real>>, sin: real -> real, cos: real -> real)
    requires Rows(r, |qv|)
    requires forall x :: Sq(sin(x)) + Sq(cos(x)) == 1.0
    ensures Intensity(qv, r, sin, cos) <= Sq(|r| as real)
  {
    var s, c := Phases(qv, r, sin), Phases(qv, r, cos);
    UnitPairs(qv, r, sin, cos);
    SumSquaresUnit(s, c);
    SquareOfSumBound(s);
    SquareOfSumBound(c);
    TwoSquaresBound(Sum(s), Sum(c), |s| as real, |c| as real, SumSquares(s), SumSquares(c));
    assert Intensity(qv, r, sin, cos) == Sq(Sum(s)) + Sq(Sum(c));
  }

  /** Each particle's sine and cosine satisfy `sin^2 + cos^2 == 1`. */
  lemma UnitPairs(qv: seq<real>, r: seq<seq<real>>, sin: real -> real, cos: real -> real)
    requires Rows(r, |qv|)
    requires forall x :: Sq(sin(x)) + Sq(cos(x)) == 1.0
    ensures forall i :: 0 <= i < |r| ==> Sq(Phases(qv, r, sin)[i]) + Sq(Phases(qv, r, cos)[i]) == 1.0
  {
    forall i | 0 <= i < |r| ensures Sq(Phases(qv, r, sin)[i]) + Sq(Phases(qv, r, cos)[i]) == 1.0 {
      var x := Dot(qv, r[i]);
      assert Phases(qv, r, sin)[i] == sin(x) && Phases(qv, r, cos)[i] == cos(x);
    }
  }

  /** The shell's summed intensity is at most `m * n^2`. */
  lemma TotalIntensityBound(q: seq<seq<real>>, r: seq<seq<real>>, dim: nat, sin: real -> real, cos: real -> real)
    requires Rows(q, dim) && Rows(r, dim)
    requires forall x :: Sq(sin(x)) + Sq(cos(x)) == 1.0
    ensures Sum(Intensities(q, r, dim, sin, cos)) <= |q| as real * Sq(|r| as real)
  {
    var terms := Intensities(q, r, dim, sin, cos);
    IntensitiesAtMost(q, r, dim, sin, cos);
    SumWithin(terms, Sq(|r| as real));
    SameFactor(|terms| as real, |q| as real, Sq(|r| as real));
  }

  lemma IntensitiesAtMost(q: seq<seq<real>>, r: seq<seq<real>>, dim: nat, sin: real -> real, cos: real -> real)
    requires Rows(q, dim) && Rows(r, dim)
    requires forall x :: Sq(sin(x)) + Sq(cos(x)) == 1.0
    ensures forall j :: 0 <= j < |q| ==> 0.0 <= Intensities(q, r, dim, sin, cos)[j] <= Sq(|r| as real)
  {
    IntensitiesNonNegative(q, r, dim, sin, cos);
    forall j | 0 <= j < |q| ensures Intensities(q, r, dim, sin, cos)[j] <= Sq(|r| as real) {
      IntensityBound(q[j], r, sin, cos);
    }
  }

  /** `a^2 <= n P` and `b^2 <= n Q` with `P + Q == n` give `a^2 + b^2 <= n^2`. */
  lemma TwoSquaresBound(a: real, b: real, n: real, m: real, P: real, Q: real)
    requires n == m && Sq(a) <= n * P && Sq(b) <= m * Q && P + Q == n
    ensures Sq(a) + Sq(b) <= Sq(n)
  {
    ScaledSum(n, P, Q);
  }

  /** A total in `[0, m * n^2]`, normalised by `m * n`, lies in `[0, n]`. */
  lemma NormalisedWithin(t: real, m: nat, n: nat)
    requires m > 0 && n > 0 && 0.0 <= t <= m as real * Sq(n as real)
    ensures 0.0 <= t / (m * n) as real <= n as real
  {
    CastProduct(m, n);
    QuotientNonNegative(t, (m * n) as real);
    assert m as real * Sq(n as real) == (m as real * n as real) * n as real;
    QuotientAtMost(t, (m * n) as real, n as real);
  }

  /** A total of exactly `m * n^2`, normalised by `m * n`, is `n`. */
  lemma NormalisedExact(t: real, m: nat, n: nat)
    requires m > 0 && n > 0 && t == m as real * Sq(n as real)
    ensures t / (m * n) as real == n as real
  {
    CastProduct(m, n);
    assert m as real * Sq(n as real) == (m as real * n as real) * n as real;
    QuotientExact(t, (m * n) as real, n as real);
  }

  /** The normalised structure factor lies in `[0, npart]`. */
  lemma StructureFactorBounds(q: seq<seq<real>>, r: seq<seq<real>>, dim: nat, sin: real -> real, cos: real -> real)
    requires Rows(q, dim) && Rows(r, dim) && |q| > 0 && |r| > 0
    requires forall x :: Sq(sin(x)) + Sq(cos(x)) == 1.0
    ensures 0.0 <= StructureFactor(q, r, dim, sin, cos) <= |r| as real
  {
    var terms := Intensities(q, r, dim, sin, cos);
    assert 0.0 <= Sum(terms) <= |q| as real * Sq(|r| as real) by {
      IntensitiesNonNegative(q, r, dim, sin, cos);
      SumNonNegative(terms);
      TotalIntensityBound(q, r, dim, sin, cos);
    }
    NormalisedWithin(Sum(terms), |q|, |r|);
  }

  /** When every phase `q.r_i` is 0 (all particles at the origin, say) and
      `sin 0 = 0`, `cos 0 = 1`, the structure factor is exactly `npart`. */
  lemma StructureFactorInPhase(q: seq<seq<real>>, r: seq<seq<real>>, dim: nat, sin: real -> real, cos: real -> real)
    requires Rows(q, dim) && Rows(r, dim) && |q| > 0 && |r| > 0
    requires forall j, i :: 0 <= j < |q| && 0 <= i < |r| ==> Dot(q[j], r[i]) == 0.0
    requires sin(0.0) == 0.0 && cos(0.0) == 1.0
    ensures StructureFactor(q, r, dim, sin, cos) == |r| as real
  {
    var terms := Intensities(q, r, dim, sin, cos);
    InPhaseIntensities(q, r, dim, sin, cos);
    SumConstant(terms, Sq(|r| as real));
    NormalisedExact(Sum(terms), |q|, |r|);
  }

  lemma InPhaseIntensities(q: seq<seq<real>>, r: seq<seq<real>>, dim: nat, sin: real -> real, cos: real -> real)
    requires Rows(q, dim) && Rows(r, dim)
    requires forall j, i :: 0 <= j < |q| && 0 <= i < |r| ==> Dot(q[j], r[i]) == 0.0
    requires sin(0.0) == 0.0 && cos(0.0) == 1.0
    ensures forall j :: 0 <= j < |q| ==> Intensities(q, r, dim, sin, cos)[j] == Sq(|r| as real)
  {
    forall j | 0 <= j < |q| ensures Intensities(q, r, dim, sin, cos)[j] == Sq(|r| as real) {
      InPhaseIntensity(q[j], r, sin, cos);
    }
  }

  /** A wavevector in phase with every particle has intensity `npart²`. */
  lemma InPhaseIntensity(qv: seq<real>, r: seq<seq<real>>, sin: real -> real, cos: real -> real)
    requires Rows(r, |qv|)
    requires forall i :: 0 <= i < |r| ==> Dot(qv, r[i]) == 0.0
    requires sin(0.0) == 0.0 && cos(0.0) == 1.0
    ensures Intensity(qv, r, sin, cos) == Sq(|r| as real)
  {
    SumConstant(Phases(qv, r, sin), 0.0);
    SumConstant(Phases(qv, r, cos), 1.0);
  }
}

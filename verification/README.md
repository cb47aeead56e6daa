# Static structure factor and density profile of mdplot, in Dafny

This project models the numerical core of two `mdplot` subcommands from h5md-tools.

**`ssf`** computes the static structure factor `S(|q|)` of a particle trajectory:

- It enumerates the reciprocal lattice `q_min * {0..nq}^dim` in row-major order.
- It groups lattice vectors into shells of near-equal norm `|q| ≈ q_min * (j+1)`.
- For every shell and every selected sample, it evaluates
  `Σ_q ((Σ_i sin q·r_i)² + (Σ_i cos q·r_i)²) / (#q * N)`.
  It does this on a CUDA device, through the `compute_ssf` kernel and the `ssf_cuda` driver, and also with a host routine.
- It compares the two accumulations and divides by the number of samples.
- The `--sample` option selects one sample `a` or a slice `a:b` of the trajectory.

**`profile`** computes a density profile:

- It takes one coordinate axis of a sample.
- It wraps every coordinate into the periodic box with `x - floor(x/box)*box`.
- It histograms the coordinates over `xlim` or, by default, `(0, box)`.
- It divides each bin by its width and by the particle count `N`. `N` is looked up per species from the first letter of the flavour when the file stores one count per species.

**Modelling choices:**

- Floating-point values are Dafny `real`s.
- `sin`, `cos` and `sqrt` are function parameters, with no properties assumed except where a lemma names one. Examples of such named properties are `sin² + cos² = 1`, or `sqrt` being exact on a square.
- The GPU kernel is modelled sequentially: one function call per thread id, and the device arrays as sequences. The reduction kernel is a left-to-right sum.
- Python's exceptions become `Result`/`Option` error values.

**Modules:**

| module | file | content |
|---|---|---|
| `Wrappers` | wrappers.dfy | `Option` and `Result` |
| `Reals` | reals.dfy | sums, dot products, and the sum-of-squares bounds |
| `PySeq` | pyseq.dfy | Python negative indexing and slice clamping |
| `Lattice` | lattice.dfy | the q-grid and the shell targets |
| `Shells` | shells.dfy | norms and the shell filter |
| `Layout` | layout.dfy | the flattened device layouts of `q` and `r` |
| `Kernel` | kernel.dfy | `compute_ssf`, the launch grid and `ssf_cuda` |
| `Selector` | selector.dfy | the `--sample` string |
| `Aggregate` | aggregate.dfy | the loop over shells and samples, the deviation check and the mean |
| `Profile` | profile.dfy | the density profile |

## Model

| member | source | states |
|---|---|---|
| Lattice.Grid | mdplot/ssf.py:94 | the index lattice `{0..nq}^dim` has exactly `(nq+1)^dim` vectors |
| Lattice.GridIsBox | mdplot/ssf.py:94 | a vector is on the lattice iff it has `dim` components each in `0..nq`, and no vector is listed twice |
| Lattice.GridLexOrdered | mdplot/ssf.py:94 | the lattice is listed in strictly increasing lexicographic order, so the last axis varies fastest (row-major `indices` reshape) |
| Lattice.GridAtRank | mdplot/ssf.py:94 | every index vector in the box sits at position equal to its base-`(nq+1)` value |
| Lattice.QGridComponent | mdplot/ssf.py:94 | every component of a q-grid vector is `q_min * k` for an integer `0 <= k <= nq`, and each vector has `dim` components |
| Lattice.QRangeGap | mdplot/ssf.py:99 | two shell targets `i < j` are at least `q_min` apart |
| Lattice.QRangeSpacing | mdplot/ssf.py:99 | the shell targets start at `q_min`, are spaced by `q_min`, and strictly increase |
| Shells.Band | mdplot/ssf.py:109 | `where(abs(q_norm - q_val) < q_err)` holds exactly the indices whose norm is within `q_err` of the target, in increasing order |
| Shells.ShellMembers | mdplot/ssf.py:96-109 | a shell holds exactly the grid vectors whose norm is strictly within `q_err` of the target, in grid order |
| Shells.ShellEmpty | mdplot/ssf.py:109 | a shell is empty iff no grid norm is within `q_err` of its target |
| Shells.ShellsOverlap | mdplot/ssf.py:99-109 | when `2*q_err > q_min`, a vector can fall in two neighbouring shells |
| Shells.ShellsDisjoint | mdplot/ssf.py:99-109 | when `2*q_err <= q_min`, two different shells share no grid vector |
| Shells.ShellNeverEmpty | mdplot/ssf.py:94-109 | with `dim > 0`, `q_err > 0` and `sqrt` exact on the target's square, shell `j` contains the axis vector `(q_min*(j+1), 0, …)` |
| Layout.FlattenIndex | mdplot/ssf.py:249 | a row-major flattening puts `m[r][c]` at index `c + r*w` and has `rows*w` entries |
| Layout.PositionsLayout | mdplot/ssf.py:241-242 | the transposed flattening of the positions puts `r[i][k]` at `i + k*npart` |
| Layout.WavevectorsLayout | mdplot/ssf.py:249 | the flattened wavevectors put `q[offset][k]` at `k + offset*dim` |
| Kernel.PhaseIsDot | mdplot/ssf.py:213-216 | the kernel's `q_r` accumulation over both flat layouts equals the dot product of wavevector `offset` with particle `i` |
| Kernel.ComputeSsf | mdplot/ssf.py:206-219 | a thread writes exactly when its id is below `npart`, and then at its own index |
| Kernel.ThreadIdsEnumerate | mdplot/ssf.py:197-201 | the `GTID` of every thread of a `(blocks, 1)` grid, in launch order, enumerates `0 .. blocks*block_size-1` once each |
| Kernel.LaunchGrid | mdplot/ssf.py:237-238 | `ceil(npart/block_size)` blocks cover every particle, one block fewer would not, and the grid is empty iff `npart = 0` |
| Kernel.RunThreadsPrefix | mdplot/ssf.py:209-218 | after the first `t` threads, exactly the indices below `min(t, npart)` were written, once each and in order, with the sine and cosine of their phase; the rest is still zero |
| Kernel.Launch | mdplot/ssf.py:237-259 | one launch writes every particle index once and leaves `sin(q·r_i)` and `cos(q·r_i)` in the device arrays |
| Kernel.DeviceIntensities | mdplot/ssf.py:252-262 | the per-wavevector `sum(sin)² + sum(cos)²` read back from the device equals the reference intensity of that wavevector |
| Kernel.SsfCuda | mdplot/ssf.py:230-264 | `ssf_cuda` returns the reference structure factor `Σ_q (Σ sin)² + (Σ cos)²` over `nq*npart` exactly when the block, shell and configuration are non-empty; an empty configuration is an empty launch and every other failure a division by zero |
| Kernel.StructureFactorNonNegative | mdplot/ssf.py:252-264 | the structure factor of a non-empty shell and configuration is non-negative |
| Kernel.IntensityBound | mdplot/ssf.py:252-262 | with `sin² + cos² = 1`, one wavevector's `(Σ sin)² + (Σ cos)²` is at most `npart²` (Cauchy-Schwarz) |
| Kernel.StructureFactorBounds | mdplot/ssf.py:252-264 | with `sin² + cos² = 1`, the structure factor lies in `[0, npart]` |
| Kernel.StructureFactorInPhase | mdplot/ssf.py:252-264 | when every phase is zero, the structure factor reaches `npart` |
| Selector.JoinSplit | mdplot/ssf.py:64 | splitting at ':' loses nothing: joining the fields gives back the string |
| Selector.SplitJoin | mdplot/ssf.py:64 | splitting the join of colon-free fields gives back the fields |
| Selector.ParseShowInt | mdplot/ssf.py:64 | `int()` reads back every integer written in decimal |
| Selector.ParseAll | mdplot/ssf.py:64 | the list comprehension succeeds iff every field is an integer, and then it reads each field |
| Selector.AsWrittenLeavesSamplesUnbound | mdplot/ssf.py:64-68 | as written, the selector `"0:1:2"` leaves `samples` unbound |
| Selector.ParseSelector | mdplot/ssf.py:64-68 | a selector is accepted iff it has one or two fields, all integers; three or more integer fields are rejected as a wrong field count |
| Selector.ParseFormat | mdplot/ssf.py:64-68 | both the as-written and the corrected parser read back every formatted selector `a` or `a:b` |
| Selector.SelectSamples | mdplot/ssf.py:65-68 | `"a"` is valid iff `-count <= a < count` and then selects the one sample at `a`, counted from the end when negative; `"a:b"` never fails and selects, in ascending consecutive order, exactly the samples `k < count` with `a' <= k < b'`, where a negative bound `x` stands for `count + x` |
| PySeq.Index | mdplot/ssf.py:66 | a Python index is valid iff it lies in `[-len, len)`; it then resolves to a position below `len` that is `i` itself or `len + i` (so `i` when `i >= 0`, `len + i` when `i < 0`) |
| PySeq.Slice | mdplot/ssf.py:68 | a slice yields consecutive positions, exactly those `k < len` between the two resolved bounds (negative bounds count from the end), and so `lo..hi-1` when both bounds are in range |
| Aggregate.Deviations | mdplot/ssf.py:124-125 | the reported shells are exactly those whose two accumulations deviate, in increasing order |
| Aggregate.NoDeviationWhenEqual | mdplot/ssf.py:124-126 | equal accumulations are never reported, including all-zero shells where the source divides 0 by 0 |
| Aggregate.AccumulateShell | mdplot/ssf.py:113-123 | the inner loop over samples fails iff a sample exists and the block, the shell or some configuration is empty; otherwise both totals equal the sum of the per-sample structure factors |
| Aggregate.ShellTotals | mdplot/ssf.py:103-123 | the loop over the shell targets succeeds iff every kernel call it makes can succeed; the two accumulations `S_q` and `S_q2` then agree, and with samples each shell's total is the sum of its per-sample structure factors |
| Aggregate.StructureFactorCurve | mdplot/ssf.py:94-131 | with no shell or fewer than two dimensions the q-grid collapses under `squeeze` and the run fails before the loop; otherwise, with no sample no kernel call runs and the run fails at the speedup printout, which divides the integer timers `0 / 0`; the run succeeds iff there is a shell, more than one dimension and a sample, and every kernel call can succeed; then the curve has one value per shell, each being the mean over the samples of that shell's structure factor, and the check reports nothing |
| Aggregate.PipelineRunnable | mdplot/ssf.py:94-116 | with `dim > 0`, `q_err > 0`, a non-empty block, non-empty configurations and `sqrt` exact on the targets, no kernel call can fail |
| Aggregate.MeanBounds | mdplot/ssf.py:113-131 | with `sin² + cos² = 1` and `N` particles per sample, every curve value lies in `[0, N]` |
| Profile.Wrap | mdplot/profile.py:81 | the wrapped coordinate differs from `x` by a whole number of box lengths |
| Profile.WrapBounds | mdplot/profile.py:81 | the wrapped coordinate lies in `[0, box)` for a positive box and in `(box, 0]` for a negative one |
| Profile.WrapUnique | mdplot/profile.py:81 | the wrapped coordinate is the only point of `[0, box)` that differs from `x` by a whole number of box lengths |
| Profile.WrapIdentity | mdplot/profile.py:81 | wrapping leaves a coordinate already in `[0, box)` unchanged |
| Profile.WrapPeriodic | mdplot/profile.py:81 | shifting by a whole number of box lengths does not change the wrapped coordinate |
| Profile.WrapIdempotent | mdplot/profile.py:81 | wrapping twice is wrapping once |
| Profile.Column | mdplot/profile.py:80 | `r[:, axis]` exists iff `axis` is in `[-dim, dim)`, and it holds coordinate `axis` (or `dim + axis`) of every particle |
| Profile.WrappedColumn | mdplot/profile.py:80-81 | every wrapped coordinate of the column lies in `[0, box)` |
| Profile.DefaultRangeCoversWrapped | mdplot/profile.py:78-81 | without `xlim` the histogram range `(0, box)` contains every wrapped coordinate; a given `xlim` is used as is |
| Profile.ParticleCount | mdplot/profile.py:69-71 | a scalar count is used as is; a per-species count is indexed by the flavour's first letter minus `'A'` with Python negative indexing, and fails without a letter or outside the list |
| Profile.FlavourLetterIndex | mdplot/profile.py:71 | the flavour starting with the `k`-th capital letter selects species `k`, whatever follows the letter |
| Profile.FlavourAB | mdplot/profile.py:71 | flavours `"A"` and `"B"` select the first and second counts |
| Profile.Normalise | mdplot/profile.py:84 | each normalised bin times its width and `N` gives back its count, and bins are non-negative for `N > 0` |
| Profile.NormaliseIntegral | mdplot/profile.py:84 | the normalised profile integrates over the bins to the number of binned particles divided by `N` |

## Left out

- HDF5 access, argparse defaults, matplotlib output, `--dump` and the verbose printing are input and output, and are not modelled. The inputs they would supply (`L`, `N`, `dim`, the samples, `xlim`, the flavour) are parameters.
- pycuda compilation, device transfer and the `ReductionKernel` are a foreign GPU runtime. The kernel is modelled as one sequential call per thread id and the reduction as a left-to-right sum. Concurrent execution order does not matter for the modelled writes, because each thread writes only its own index.
- float32 versus float64 arithmetic, and with it the 1e-6 agreement between host and GPU, are floating-point numerics. All values are reals.
- `sin`, `cos` and `sqrt` are uninterpreted function parameters. The library routines are foreign code.
- The host routine `_static_structure_factor` is a C extension; mdplot/ext is not part of this model. It is taken to compute the reference structure factor that `Kernel.StructureFactor` defines.
- The run without `--cuda` is left out. It fills only `S_q`, and its speedup print then divides 0 by 0 and raises before the curve is used.
- The timing printout is wall-clock time and is left out.
- `q_min = 2π/L` and `nq = int(q_limit/q_min)` involve floating point and truncation; `q_min` and `nq` are inputs.
- numpy `squeeze` is modelled only by its outcome in `Aggregate.StructureFactorCurve`: the grid of mdplot/ssf.py:94 keeps two axes iff `nq > 0` and `dim > 1`, and otherwise line 94 or 96 raises (error `CollapsedGrid`). Shells are modelled as sequences of vectors.
- `numpy.histogram` binning is library internals; the bin counts and edges are inputs to `Profile.Normalise`.
- `int()` accepting whitespace that it skips, around the number and after the sign (`int('- 5') == -5`), is left out. `Selector.ParseInt` reads an optional sign followed by decimal digits.
- The kernel's 32-bit `int` arithmetic is not modelled. `offset`, `npart` and `dim` are passed as `int32` (mdplot/ssf.py:259), and `GTID`, `k + offset * dim` and `i + k * npart` (mdplot/ssf.py:201, 209-215) are C `int` expressions. The model computes them as unbounded naturals, so it says nothing about arrays with `2^31` or more entries, where they would overflow.
- The device's maximum block size, and `block_size` values the CUDA runtime would reject, are a property of the foreign runtime. Any positive block size is accepted.
- Aggregate.StructureFactorCurve: with `nq = 0` or `dim <= 1` the source fails at mdplot/ssf.py:94-96, before the loop; this is the error `CollapsedGrid`, and which numpy exception it is (a `reshape` error for `dim = 0`, an axis error otherwise) is not distinguished. With a grid but no sample, no `ssf_cuda` call runs, `timer_host` and `timer_gpu` keep the integer `0` of mdplot/ssf.py:105-106, and the speedup printout at mdplot/ssf.py:129 raises ZeroDivisionError before the curve is divided; this is the error `NoKernelCall`. When calls do run, two equal clock readings could also leave `timer_gpu` at `0.0`; the clock is not modelled, so that failure is not either. The shells where the source's relative deviation is NaN (0/0) are not reported, matching numpy's `NaN > 1e-6` being false.
- Profile.Wrap: a zero box length gives NaN in numpy; the model requires a non-zero box.
- Profile.Normalise: a zero bin width or `N = 0` gives infinities in numpy; the model requires increasing edges and a non-zero `N`.
- Profile.WrappedColumn: requires a positive box, as the bound it states is the one for `box > 0`. `Profile.WrapBounds` covers the negative case.
- Deviation check: the relative deviation in mdplot/ssf.py:124 divides by the CUDA accumulation `S_q`, not by the host one, and `Aggregate.Deviates` follows the code.

## Findings

| source | as written | input that shows it | evidently intended | confidence | as-written member | corrected member |
|---|---|---|---|---|---|---|
| mdplot/ssf.py:64-68 | a selector with three or more integer fields matches neither branch, so `samples` is never bound and the loop at line 113 raises `NameError` | `--sample 0:1:2` | reject the selector with a clean error | not executed | Selector.AsWrittenLeavesSamplesUnbound | Selector.ParseSelector |

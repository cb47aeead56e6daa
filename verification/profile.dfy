/** The density profile of `mdplot/profile.py`: one coordinate column of a
    sample, wrapped into the periodic box, binned by a histogram (taken as
    given) and normalised by bin width and particle count. */
module Profile {
  import opened Wrappers
  import PySeq
  import opened Reals

  // ---------------------------------------------------------------------
  // Periodic wrap
  // ---------------------------------------------------------------------

  /** `x - floor(x / box) * box`: the image of `x` in the periodic box. For
      `box > 0` the result lies in `[0, box)`, for `box < 0` in `(box, 0]`,
      and it differs from `x` by a whole number of box lengths. */
  function Wrap(x: real, box: real): (w: real)
    requires box != 0.0
    ensures ((x - w) / box).Floor as real == (x - w) / box
  {
    var k := (x / box).Floor;
    ShiftIsMultiple(x, box, k);
    x - k as real * box
  }

  lemma ShiftIsMultiple(x: real, box: real, k: int)
    requires box != 0.0
    ensures (x - (x - k as real * box)) / box == k as real
  {
    assert x - (x - k as real * box) == k as real * box;
  }

  /** `floor(x / box)` brackets `x` between two consecutive multiples of the
      box length, one side at a time and for either sign of the box. */
  lemma FloorBelow(x: real, box: real, k: int)
    requires box > 0.0 && k as real <= x / box
    ensures k as real * box <= x
  {
    var y, kr := x / box, k as real;
    assert y * box == x;
    ProductNonNegative(y - kr, box);
    assert (y - kr) * box == y * box - kr * box;
  }
  lemma FloorAbove(x: real, box: real, k: int)
    requires box > 0.0 && x / box < k as real + 1.0
    ensures x < k as real * box + box
  {
    var y, kr := x / box, k as real;
    assert y * box == x;
    ProductPositive(kr + 1.0 - y, box);
    assert (kr + 1.0 - y) * box == kr * box + box - y * box;
  }
  lemma FloorBelowNeg(x: real, box: real, k: int)
    requires box < 0.0 && k as real <= x / box
    ensures x <= k as real * box
  {
    var y, kr := x / box, k as real;
    assert y * box == x;
    ProductNonNegative(y - kr, -box);
    assert (y - kr) * (-box) == kr * box - y * box;
  }
  lemma FloorAboveNeg(x: real, box: real, k: int)
    requires box < 0.0 && x / box < k as real + 1.0
    ensures k as real * box + box < x
  {
    var y, kr := x / box, k as real;
    assert y * box == x;
    ProductPositive(kr + 1.0 - y, -box);
    assert (kr + 1.0 - y) * (-box) == y * box - kr * box - box;
  }

  /** The wrapped coordinate lies in the half-open box `[0, box)`, or in
      `(box, 0]` when the box length is negative. */
  lemma WrapBounds(x: real, box: real)
    requires box != 0.0
    ensures box > 0.0 ==> 0.0 <= Wrap(x, box) < box
    ensures box < 0.0 ==> box < Wrap(x, box) <= 0.0
  {
    var k := (x / box).Floor;
    assert Wrap(x, box) == x - k as real * box;
    if box > 0.0 {
      FloorBelow(x, box, k);
      FloorAbove(x, box, k);
    } else {
      FloorBelowNeg(x, box, k);
      FloorAboveNeg(x, box, k);
    }
  }

  /** Any `y` in `[0, box)` that differs from `x` by `k` box lengths is the
      wrapped coordinate: `Wrap` picks the unique image in the box. */
  lemma WrapUnique(x: real, box: real, y: real, k: int)
    requires box > 0.0 && 0.0 <= y < box && x == y + k as real * box
    ensures Wrap(x, box) == y
  {
    var q := x / box;
    assert q * box == x;
    assert q == y / box + k as real by {
      assert (y / box + k as real) * box == y + k as real * box;
    }
    assert 0.0 <= y / box < 1.0 by {
      QuotientInUnit(y, box);
    }
    assert q.Floor == k;
  }

  lemma QuotientInUnit(y: real, box: real)
    requires box > 0.0 && 0.0 <= y < box
    ensures 0.0 <= y / box < 1.0
  {
    var u := y / box;
    assert u * box == y;
    if u < 0.0 {
      ProductPositive(-u, box);
    }
    if u >= 1.0 {
      ProductNonNegative(u - 1.0, box);
    }
  }

  /** Wrapping leaves a coordinate already inside `[0, box)` unchanged. */
  lemma WrapIdentity(x: real, box: real)
    requires box > 0.0 && 0.0 <= x < box
    ensures Wrap(x, box) == x
  {
    WrapUnique(x, box, x, 0);
  }

  /** Shifting by a whole number of box lengths does not change the image. */
  lemma WrapPeriodic(x: real, box: real, k: int)
    requires box > 0.0
    ensures Wrap(x + k as real * box, box) == Wrap(x, box)
  {
    var w := Wrap(x, box);
    var m := (x / box).Floor;
    WrapBounds(x, box);
    assert x == w + m as real * box;
    assert x + k as real * box == w + (m + k) as real * box;
    WrapUnique(x + k as real * box, box, w, m + k);
  }

  /** Wrapping twice gives the same result as wrapping once. */
  lemma WrapIdempotent(x: real, box: real)
    requires box > 0.0
    ensures Wrap(Wrap(x, box), box) == Wrap(x, box)
  {
    WrapBounds(x, box);
    WrapIdentity(Wrap(x, box), box);
  }

  // ---------------------------------------------------------------------
  // Column selection and wrapping of a sample (lines 80-81)
  // ---------------------------------------------------------------------

  /** `r[:, axis]`: coordinate `axis` of every particle, with Python's
      negative axis indexing; `None` is the `IndexError` of an axis outside
      `[-dim, dim)`. */
  function Column(r: seq<seq<real>>, axis: int, dim: nat): (c: Option<seq<real>>)
    requires forall i :: 0 <= i < |r| ==> |r[i]| == dim
    ensures c.Some? <==> -(dim as int) <= axis < dim as int
    ensures c.Some? ==> |c.value| == |r|
    ensures c.Some? && axis >= 0 ==> forall i :: 0 <= i < |r| ==> c.value[i] == r[i][axis]
    ensures c.Some? && axis < 0 ==> forall i :: 0 <= i < |r| ==> c.value[i] == r[i][dim as int + axis]
  {
    match PySeq.Index(axis, dim)
    case None => None
    case Some(k) => Some(seq(|r|, i requires 0 <= i < |r| => r[i][k]))
  }

  /** Line 81 applied to a whole column. */
  function WrapAll(x: seq<real>, box: real): (w: seq<real>)
    requires box != 0.0
    ensures |w| == |x|
  {
    seq(|x|, i requires 0 <= i < |x| => Wrap(x[i], box))
  }

  /** Lines 80-81: the wrapped coordinates along `axis`. Every one of them
      lies in `[0, box)` for a positive box. */
  function WrappedColumn(r: seq<seq<real>>, axis: int, dim: nat, box: real): (x: Option<seq<real>>)
    requires forall i :: 0 <= i < |r| ==> |r[i]| == dim
    requires box > 0.0
    ensures x.Some? <==> -(dim as int) <= axis < dim as int
    ensures x.Some? ==> |x.value| == |r| && forall i :: 0 <= i < |r| ==> 0.0 <= x.value[i] < box
  {
    match Column(r, axis, dim)
    case None => None
    case Some(c) =>
      var w := WrapAll(c, box);
      assert forall i :: 0 <= i < |w| ==> 0.0 <= w[i] < box by {
        forall i | 0 <= i < |w| ensures 0.0 <= w[i] < box {
          WrapBounds(c[i], box);
        }
      }
      Some(w)
  }

  // ---------------------------------------------------------------------
  // Histogram range (line 78)
  // ---------------------------------------------------------------------

  /** `args.xlim or (0, box)`: a given pair of limits (a two-element list,
      never falsy) wins, otherwise the whole box. */
  function Cutoff(xlim: Option<(real, real)>, box: real): (c: (real, real))
  {
    match xlim
    case Some(lim) => lim
    case None => (0.0, box)
  }

  /** Without `--xlim` the histogram range is the box itself, so it covers
      every wrapped coordinate; an explicit range is used as given. */
  lemma DefaultRangeCoversWrapped(r: seq<seq<real>>, axis: int, dim: nat, box: real,
                                  xlim: Option<(real, real)>)
    requires forall i :: 0 <= i < |r| ==> |r[i]| == dim
    requires box > 0.0
    ensures xlim.Some? ==> Cutoff(xlim, box) == xlim.value
    ensures xlim.None? && WrappedColumn(r, axis, dim, box).Some? ==>
      forall i :: 0 <= i < |r| ==>
        Cutoff(xlim, box).0 <= WrappedColumn(r, axis, dim, box).value[i] < Cutoff(xlim, box).1
  {
  }

  // ---------------------------------------------------------------------
  // Particle count (lines 69-71)
  // ---------------------------------------------------------------------

  /** The `particles` attribute: one total, or one count per species. */
  datatype Particles = Total(n: int) | PerSpecies(counts: seq<int>)

  /** Why no particle count could be chosen. */
  datatype CountError =
    | NoFlavourLetter   // `ord` of `None[:1]` or of `''`: `TypeError`
    | NoSuchSpecies     // the letter's offset is outside the list: `IndexError`

  /** `N`, or `N[ord(flavour[:1]) - ord('A')]` when `N` is per species: the
      first letter of the flavour, counted from `'A'`, indexes the list with
      Python's negative indexing. */
  function ParticleCount(particles: Particles, flavour: Option<string>): (n: Result<int, CountError>)
    ensures particles.Total? ==> n == Ok(particles.n)
    ensures particles.PerSpecies? && (flavour.None? || |flavour.value| == 0) ==> n == Err(NoFlavourLetter)
    ensures particles.PerSpecies? && flavour.Some? && |flavour.value| > 0 ==>
      var offset := flavour.value[0] as int - 'A' as int;
      var len := |particles.counts|;
      (n.Ok? <==> -len <= offset < len) &&
      (n.Ok? ==> n.value == particles.counts[if offset < 0 then len + offset else offset]) &&
      (n.Err? ==> n.error == NoSuchSpecies)
  {
    match particles
    case Total(total) => Ok(total)
    case PerSpecies(counts) =>
      if flavour.None? || |flavour.value| == 0 then Err(NoFlavourLetter)
      else
        match PySeq.Index(flavour.value[0] as int - 'A' as int, |counts|)
        case None => Err(NoSuchSpecies)
        case Some(k) => Ok(counts[k])
  }

  /** The flavour named by the `k`-th capital letter selects species `k`,
      whatever follows the letter. */
  lemma FlavourLetterIndex(counts: seq<int>, k: nat, rest: string)
    requires k < |counts| && k < 26
    ensures ParticleCount(PerSpecies(counts), Some([('A' as int + k) as char] + rest)) == Ok(counts[k])
  {
    var flavour := [('A' as int + k) as char] + rest;
    assert flavour[0] as int - 'A' as int == k;
  }

  /** Flavours `"A"` and `"B"` select the first and second species. */
  lemma FlavourAB(a: int, b: int, more: seq<int>)
    ensures ParticleCount(PerSpecies([a, b] + more), Some("A")) == Ok(a)
    ensures ParticleCount(PerSpecies([a, b] + more), Some("B")) == Ok(b)
  {
    FlavourLetterIndex([a, b] + more, 0, "");
    FlavourLetterIndex([a, b] + more, 1, "");
    assert [('A' as int + 0) as char] + "" == "A";
    assert [('A' as int + 1) as char] + "" == "B";
  }

  // ---------------------------------------------------------------------
  // Normalisation (line 84)
  // ---------------------------------------------------------------------

  /** Bin edges as `numpy.histogram` returns them: one more edge than bins,
      strictly increasing. */
  predicate Edges(bins: seq<real>, count: nat)
  {
    |bins| == count + 1 && forall i :: 0 <= i < count ==> Width(bins, i) > 0.0
  }

  /** The width `bins[i + 1] - bins[i]` of bin `i`. */
  function Width(bins: seq<real>, i: nat): real
    requires i + 1 < |bins|
  {
    bins[i + 1] - bins[i]
  }

  /** `histo / diff(bins) / N`: every bin count divided by its bin width and
      by the particle count, so that the bin value times the width times `N`
      gives back the count. */
  function Normalise(histo: seq<nat>, bins: seq<real>, n: int): (h: seq<real>)
    requires Edges(bins, |histo|) && n != 0
    ensures Scaled(h, bins, n as real, histo)
    ensures n > 0 ==> forall i :: 0 <= i < |histo| ==> h[i] >= 0.0
  {
    seq(|histo|, i requires 0 <= i < |histo| => Density(histo[i], Width(bins, i), n))
  }

  /** Every bin value of `h` times its width times `c` gives back the count
      of that bin. */
  predicate Scaled(h: seq<real>, bins: seq<real>, c: real, histo: seq<nat>)
  {
    |h| == |histo| && |bins| == |h| + 1 &&
    forall i :: 0 <= i < |h| ==> h[i] * Width(bins, i) * c == histo[i] as real
  }

  /** One normalised bin. */
  function Density(count: nat, width: real, n: int): (d: real)
    requires width > 0.0 && n != 0
    ensures d * width * n as real == count as real
    ensures n > 0 ==> d >= 0.0
  {
    var d := count as real / width / n as real;
    DensityInverse(count as real, width, n as real, d);
    d
  }

  lemma DensityInverse(c: real, w: real, n: real, d: real)
    requires w > 0.0 && n != 0.0 && d == c / w / n
    ensures d * w * n == c
    ensures n > 0.0 && c >= 0.0 ==> d >= 0.0
  {
    var e := c / w;
    assert e * w == c;
    assert d * n == e;
    assert d * w * n == (d * n) * w;

  }

  /** Sum of `h[i] * width(i)` over the first `k` bins. */
  function Mass(h: seq<real>, bins: seq<real>, k: nat): real
    requires k <= |h| && |bins| == |h| + 1
  {
    if k == 0 then 0.0 else Mass(h, bins, k - 1) + h[k - 1] * Width(bins, k - 1)
  }

  /** Sum of the first `k` bin counts. */
  function Binned(histo: seq<nat>, k: nat): nat
    requires k <= |histo|
  {
    if k == 0 then 0 else Binned(histo, k - 1) + histo[k - 1]
  }

  /** The normalised profile integrates to the number of binned particles
      divided by `N`: with every particle inside the range, to 1. */
  lemma NormaliseIntegral(histo: seq<nat>, bins: seq<real>, n: int, k: nat)
    requires Edges(bins, |histo|) && n != 0 && k <= |histo|
    ensures Mass(Normalise(histo, bins, n), bins, k) * n as real == Binned(histo, k) as real
  {
    MassOfScaled(Normalise(histo, bins, n), bins, n as real, histo, k);
  }

  /** The induction behind `NormaliseIntegral`, over any profile `h` whose
      bins times their widths times `c` give back the counts. */
  lemma {:induction false} MassOfScaled(h: seq<real>, bins: seq<real>, c: real, histo: seq<nat>, k: nat)
    requires Scaled(h, bins, c, histo) && k <= |histo|
    ensures Mass(h, bins, k) * c == Binned(histo, k) as real
  {
    if k > 0 {
      MassOfScaled(h, bins, c, histo, k - 1);
      MassStep(Mass(h, bins, k), Mass(h, bins, k - 1), h[k - 1] * Width(bins, k - 1), c,
               Binned(histo, k - 1), histo[k - 1]);
    }
  }

  /** One bin more: if `m * c == B` and `t * c == x`, then `(m + t) * c == B + x`. */
  lemma MassStep(total: real, m: real, t: real, c: real, b: nat, x: nat)
    requires total == m + t && m * c == b as real && t * c == x as real
    ensures total * c == (b + x) as real
  {
    ScaledSum(c, m, t);
  }
}

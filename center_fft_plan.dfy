/** The decision half of `center_fft`: from the data shape, the peak position
    and the keyword arguments, which box is cut out, which pad widths are added,
    how `frames_logical` changes, or which exception is raised.

    Every FFT size here uses `maxprime=7` and `required_dividers=(2,)`. The pad
    widths are computed by the source's own float formulas (`int(min(...))`,
    true division) and the lemmas say what those formulas compute. */
module CenterFftPlan {
  import opened Common
  import opened FftSizes
  import opened Padding

  // ---------------------------------------------------------------------------
  // The `fft_option` values

  datatype Policy =
    | CropSymmetricZYX
    | CropAsymmetricZYX
    | PadSymmetricZCropYX
    | PadAsymmetricZCropYX
    | PadSymmetricZ
    | PadAsymmetricZ
    | PadSymmetricZYX
    | PadAsymmetricZYX
    | DoNothing

  function PolicyName(p: Policy): string {
    match p
    case CropSymmetricZYX => "crop_symmetric_ZYX"
    case CropAsymmetricZYX => "crop_asymmetric_ZYX"
    case PadSymmetricZCropYX => "pad_symmetric_Z_crop_YX"
    case PadAsymmetricZCropYX => "pad_asymmetric_Z_crop_YX"
    case PadSymmetricZ => "pad_symmetric_Z"
    case PadAsymmetricZ => "pad_asymmetric_Z"
    case PadSymmetricZYX => "pad_symmetric_ZYX"
    case PadAsymmetricZYX => "pad_asymmetric_ZYX"
    case DoNothing => "do_nothing"
  }

  /** The option a string names, if any: exactly the nine names above. */
  function PolicyNamed(name: string): (p: Option<Policy>)
    ensures p.Some? ==> PolicyName(p.value) == name
    ensures p.None? ==> forall q: Policy :: PolicyName(q) != name
  {
    if name == "crop_symmetric_ZYX" then Some(CropSymmetricZYX)
    else if name == "crop_asymmetric_ZYX" then Some(CropAsymmetricZYX)
    else if name == "pad_symmetric_Z_crop_YX" then Some(PadSymmetricZCropYX)
    else if name == "pad_asymmetric_Z_crop_YX" then Some(PadAsymmetricZCropYX)
    else if name == "pad_symmetric_Z" then Some(PadSymmetricZ)
    else if name == "pad_asymmetric_Z" then Some(PadAsymmetricZ)
    else if name == "pad_symmetric_ZYX" then Some(PadSymmetricZYX)
    else if name == "pad_asymmetric_ZYX" then Some(PadAsymmetricZYX)
    else if name == "do_nothing" then Some(DoNothing)
    else None
  }

  // ---------------------------------------------------------------------------
  // FFT sizes with maxprime 7 and divider 2

  const FftMaxPrime := 7
  const FftDividers := [2]

  ghost predicate FftFriendly(n: int) {
    Friendly(n, FftMaxPrime, FftDividers)
  }

  /** The assertion of `higher_primes`/`smaller_primes` with maxprime 7. */
  predicate Searchable(n: int) {
    SearchAllowed(n, FftMaxPrime)
  }

  /** s is what `smaller_primes(n, 7, (2,))` returns. */
  ghost predicate FftFloor(s: int, n: int) {
    GreatestFriendlyUpTo(s, n, FftMaxPrime, FftDividers)
  }

  /** s is what `higher_primes(n, 7, (2,))` returns. */
  ghost predicate FftCeil(s: int, n: int) {
    LeastFriendlyFrom(s, n, FftMaxPrime, FftDividers)
  }

  lemma FftSearchTerminates()
    ensures SearchTerminates(FftMaxPrime, FftDividers)
  {
    SmoothTwo(FftMaxPrime);
  }

  /** `smaller_primes` on a tuple of sizes. The scalar 0 cannot come back here:
      2 is friendly and every searched size is at least 7. */
  method FftSmaller(numbers: seq<int>) returns (r: Result<seq<int>>)
    ensures r.Err? <==> exists t :: 0 <= t < |numbers| && !Searchable(numbers[t])
    ensures r.Err? ==> r.error == AssertionError
    ensures r.Ok? ==> |r.value| == |numbers|
    ensures r.Ok? ==> forall t :: 0 <= t < |r.value| ==> FftFloor(r.value[t], numbers[t])
  {
    forall t | 0 <= t < |numbers| && Searchable(numbers[t])
      ensures !NoFriendlyUpTo(numbers[t], FftMaxPrime, FftDividers)
    {
      NeverZeroForFft(numbers[t]);
    }
    var s := SmallerPrimesEach(numbers, FftMaxPrime, FftDividers);
    match s
    case Err(e) => return Err(e);
    case Ok(Each(sizes)) => return Ok(sizes);
    case Ok(ScalarZero) => assert false; return Err(AssertionError);
  }

  /** `higher_primes(n, 7, (2,))`. */
  method FftHigher(n: int) returns (r: Result<int>)
    ensures r.Err? <==> !Searchable(n)
    ensures r.Err? ==> r.error == AssertionError
    ensures r.Ok? ==> FftCeil(r.value, n)
  {
    FftSearchTerminates();
    r := HigherPrimes(n, FftMaxPrime, FftDividers);
  }

  /** An FFT-friendly size for divider 2 is even. */
  lemma FftEven(s: int, n: int)
    requires FftFloor(s, n) || FftCeil(s, n)
    ensures s % 2 == 0 && s >= 2
  {
    FftFriendlyEven(s);
  }

  // ---------------------------------------------------------------------------
  // The box around the peak

  function Abs(v: int): int {
    if v < 0 then -v else v
  }

  predicate PeakInside(peak: Triple, shape: Triple) {
    0 <= peak.z < shape.z && 0 <= peak.y < shape.y && 0 <= peak.x < shape.x
  }

  /** `2 * min(i, n - i)` on one axis, with the `abs` the source uses on z and x:
      the side of the largest box centred on i that fits in [0, n). */
  function MaxExtent(i: int, n: int): (e: int)
    requires 0 <= i < n
    ensures e % 2 == 0 && 0 <= e <= n
    ensures e == 0 <==> i == 0
    ensures 0 <= i - e / 2 && i + e / 2 <= n
  {
    Abs(2 * Min(i, n - i))
  }

  /** `max_nz, max_ny, max_nx`. */
  function MaxBox(peak: Triple, shape: Triple): Triple
    requires PeakInside(peak, shape)
  {
    Triple(MaxExtent(peak.z, shape.z), MaxExtent(peak.y, shape.y), MaxExtent(peak.x, shape.x))
  }

  /** The symmetric box is empty on some axis, which turns the option into
      `do_nothing`. */
  predicate Collapsed(peak: Triple, shape: Triple)
    requires PeakInside(peak, shape)
  {
    var e := MaxBox(peak, shape);
    e.z == 0 || e.y == 0 || e.x == 0
  }

  /** The option `center_fft` acts on; `None` raises ValueError. */
  function EffectivePolicy(name: string, peak: Triple, shape: Triple): (p: Option<Policy>)
    requires PeakInside(peak, shape)
    ensures p == Some(DoNothing) <==> peak.z == 0 || peak.y == 0 || peak.x == 0 || name == "do_nothing"
    ensures p.None? <==> !Collapsed(peak, shape) && PolicyNamed(name).None?
  {
    if Collapsed(peak, shape) then Some(DoNothing) else PolicyNamed(name)
  }

  /** Raw Python slice bounds `lo:hi` on each axis. */
  datatype Box = Box(lo: Triple, hi: Triple)

  /** How `frames_logical` is rewritten: crops zero the frames outside the kept
      range in place; pads build a new vector of -1 around the old one. */
  datatype FrameUpdate =
    | ZeroOutside(lo: int, hi: int, n: int)
    | PadAround(before: int, n: int, total: int)

  /** The resize `center_fft` performs: `Keep` returns the inputs themselves. */
  datatype Resize =
    | Keep
    | Reshape(crop: Option<Box>, pad: Option<PadWidth>, frames: FrameUpdate)

  /** A crop axis `lo:hi` centred on c whose length is `smaller_primes(limit)`. */
  ghost predicate FloorAxis(lo: int, hi: int, c: int, limit: int) {
    lo + hi == 2 * c && FftFloor(hi - lo, limit)
  }

  ghost predicate FloorBox(b: Box, c: Triple, limit: Triple) {
    && FloorAxis(b.lo.z, b.hi.z, c.z, limit.z)
    && FloorAxis(b.lo.y, b.hi.y, c.y, limit.y)
    && FloorAxis(b.lo.x, b.hi.x, c.x, limit.x)
  }

  /** The box `[c - s // 2, c + s // 2)` on each axis. */
  function CentredBox(c: Triple, s: Triple): Box {
    Box(Triple(c.z - s.z / 2, c.y - s.y / 2, c.x - s.x / 2), Triple(c.z + s.z / 2, c.y + s.y / 2, c.x + s.x / 2))
  }

  lemma CentredFloorAxis(c: int, s: int, limit: int)
    requires FftFloor(s, limit)
    ensures FloorAxis(c - s / 2, c + s / 2, c, limit)
  {
    FftEven(s, limit);
  }

  /** A centred box of even side at most the largest symmetric extent lies inside
      the data, so the slice keeps exactly that many cells. */
  lemma CentredAxisInside(lo: int, hi: int, i: int, n: int)
    requires 0 <= i < n && lo + hi == 2 * i && lo <= hi && hi - lo <= MaxExtent(i, n)
    ensures 0 <= lo <= hi <= n
    ensures SliceLength(lo, hi, n) == hi - lo && SliceBound(lo, n) == lo
  {
  }

  /** The same for a box centred on `n // 2` that is no longer than the axis. */
  lemma MiddleAxisInside(lo: int, hi: int, n: int)
    requires n >= 0 && lo + hi == 2 * (n / 2) && lo <= hi <= lo + n
    ensures 0 <= lo <= hi <= n
    ensures SliceLength(lo, hi, n) == hi - lo && SliceBound(lo, n) == lo
  {
  }

  // ---------------------------------------------------------------------------
  // Pad widths

  /** `int(min(P/2 - i, P - n))` and `int(min(P/2 - n + i, P - n))` with
      Python's true division. */
  function SymmetricWidths(p: int, n: int, i: int): (int, int) {
    (Trunc(MinReal(p as real / 2.0 - i as real, (p - n) as real)),
     Trunc(MinReal(p as real / 2.0 - n as real + i as real, (p - n) as real)))
  }

  /** For an even target size the float formula is the integer one. */
  lemma SymmetricWidthsExact(p: int, n: int, i: int)
    requires p % 2 == 0
    ensures SymmetricWidths(p, n, i) == (Min(p / 2 - i, p - n), Min(p / 2 - n + i, p - n))
  {
    var h := p / 2;
    assert p as real == 2.0 * h as real;
    assert p as real / 2.0 == h as real;
    var a := h - i;
    var b := h - n + i;
    var c := p - n;
    assert p as real / 2.0 - i as real == a as real;
    assert p as real / 2.0 - n as real + i as real == b as real;
    MinRealOfInts(a, c);
    MinRealOfInts(b, c);
    TruncOfInt(Min(a, c));
    TruncOfInt(Min(b, c));
  }

  lemma MinRealOfInts(a: int, b: int)
    ensures MinReal(a as real, b as real) == Min(a, b) as real
  {
  }

  lemma TruncOfInt(k: int)
    ensures Trunc(k as real) == k
  {
  }

  /** Both widths are non-negative exactly when the peak is at most P/2 from
      either end; then the padded axis has length P with the peak at P/2. */
  lemma SymmetricWidthsCentre(p: int, n: int, i: int)
    requires p % 2 == 0
    ensures var (w0, w1) := SymmetricWidths(p, n, i);
      (w0 >= 0 && w1 >= 0 <==> i <= p / 2 && n - i <= p / 2)
    ensures var (w0, w1) := SymmetricWidths(p, n, i);
      w0 >= 0 && w1 >= 0 ==> w0 + n + w1 == p && w0 + i == p / 2
  {
    SymmetricWidthsExact(p, n, i);
  }

  /** `pad_symmetric_ZYX` replaces negative widths by 0. */
  function ClampedWidths(p: int, n: int, i: int): (w: (int, int))
    ensures w.0 >= 0 && w.1 >= 0
  {
    var (w0, w1) := SymmetricWidths(p, n, i);
    (Max(w0, 0), Max(w1, 0))
  }

  /** When the peak fits, clamping changes nothing and the axis becomes P long;
      when P is no larger than the axis, nothing is padded. */
  lemma ClampedWidthsMeaning(p: int, n: int, i: int)
    requires p % 2 == 0
    ensures i <= p / 2 && n - i <= p / 2 ==>
      ClampedWidths(p, n, i) == SymmetricWidths(p, n, i) && ClampedWidths(p, n, i).0 + n + ClampedWidths(p, n, i).1 == p
    ensures p <= n ==> ClampedWidths(p, n, i) == (0, 0)
  {
    SymmetricWidthsExact(p, n, i);
  }

  /** `int((d + d % 2) / 2)` and `int((d + 1) / 2 - d % 2)` for d = nz1 - nbz. */
  function AsymmetricWidths(d: int): (int, int) {
    (Trunc((d + d % 2) as real / 2.0), Trunc((d + 1) as real / 2.0 - (d % 2) as real))
  }

  /** The two widths add up to d and differ by at most one, the larger first. */
  lemma AsymmetricWidthsSplit(d: int)
    requires d >= 0
    ensures AsymmetricWidths(d).0 + AsymmetricWidths(d).1 == d
    ensures AsymmetricWidths(d).0 == (d + 1) / 2 && AsymmetricWidths(d).1 == d / 2
  {
    var h := d / 2;
    if d % 2 == 0 {
      assert d == 2 * h;
      TruncBetween((d + d % 2) as real / 2.0, h);
      TruncBetween((d + 1) as real / 2.0 - (d % 2) as real, h);
    } else {
      assert d == 2 * h + 1;
      TruncBetween((d + d % 2) as real / 2.0, h + 1);
      TruncBetween((d + 1) as real / 2.0 - (d % 2) as real, h);
    }
  }

  /** The leading y width of `pad_asymmetric_ZYX`, which takes its parity from
      `pad_size[1] - nby` instead of `ny1 - nby`. */
  function QuirkLeadingWidth(d: int, other: int): int {
    Trunc((d + other % 2) as real / 2.0)
  }

  /** The y widths add up to d except when d is odd and `pad_size[1] - nby` is
      even: then the padded axis is one short of `higher_primes(nby)`. */
  lemma QuirkWidthsSum(d: int, other: int)
    requires d >= 0
    ensures QuirkLeadingWidth(d, other) + AsymmetricWidths(d).1 ==
            if d % 2 == 1 && other % 2 == 0 then d - 1 else d
  {
    AsymmetricWidthsSplit(d);
    var h := d / 2;
    var q := other % 2;
    if d % 2 == 0 {
      assert d == 2 * h;
      if q == 0 {
        assert (d + q) as real / 2.0 == h as real;
      } else {
        assert (d + q) as real / 2.0 == h as real + 0.5;
      }
    } else {
      assert d == 2 * h + 1;
      if q == 0 {
        assert (d + q) as real / 2.0 == h as real + 0.5;
      } else {
        assert (d + q) as real / 2.0 == (h + 1) as real;
      }
    }
  }

  /** An asymmetric pad axis: the widths split `higher_primes(n) - n`. */
  ghost predicate CeilAxis(w0: int, w1: int, n: int) {
    FftCeil(n + w0 + w1, n) && (w0, w1) == AsymmetricWidths(w0 + w1)
  }

  lemma CeilAxisFrom(m: int, n: int)
    requires FftCeil(m, n)
    ensures CeilAxis(AsymmetricWidths(m - n).0, AsymmetricWidths(m - n).1, n)
  {
    AsymmetricWidthsSplit(m - n);
  }

  /** Broadcasting `frames_logical` into the padded provenance vector
      succeeds for its own length or for length 1. */
  predicate FramesFit(framesLen: int, n: int) {
    framesLen == n || framesLen == 1
  }

  /** The pad widths of one axis only (Z), the others zero. */
  function PadZ(w0: int, w1: int): PadWidth {
    PadWidth(w0, w1, 0, 0, 0, 0)
  }

  // ---------------------------------------------------------------------------
  // What each option decides

  ghost predicate CropSymmetricSpec(shape: Triple, peak: Triple, r: Result<Resize>)
    requires PeakInside(peak, shape)
  {
    var e := MaxBox(peak, shape);
    if !(Searchable(e.z) && Searchable(e.y) && Searchable(e.x)) then r == Err(AssertionError)
    else
      && r.Ok? && r.value.Reshape? && r.value.crop.Some? && r.value.pad.None?
      && FloorBox(r.value.crop.value, peak, e)
      && r.value.frames == ZeroOutside(r.value.crop.value.lo.z, r.value.crop.value.hi.z, shape.z)
  }

  function Centre(shape: Triple): Triple {
    Triple(shape.z / 2, shape.y / 2, shape.x / 2)
  }

  ghost predicate CropAsymmetricSpec(shape: Triple, r: Result<Resize>) {
    if !(Searchable(shape.z) && Searchable(shape.y) && Searchable(shape.x)) then r == Err(AssertionError)
    else
      && r.Ok? && r.value.Reshape? && r.value.crop.Some? && r.value.pad.None?
      && FloorBox(r.value.crop.value, Centre(shape), shape)
      && r.value.frames == ZeroOutside(r.value.crop.value.lo.z, r.value.crop.value.hi.z, shape.z)
  }

  /** The detector crop of the `*_Z_crop_YX` options: all frames, a centred
      FFT box in y and x. */
  ghost predicate CropYX(b: Box, shape: Triple, peak: Triple, e: Triple) {
    && b.lo.z == 0 && b.hi.z == shape.z
    && FloorAxis(b.lo.y, b.hi.y, peak.y, e.y)
    && FloorAxis(b.lo.x, b.hi.x, peak.x, e.x)
  }

  /** The checks on `pad_size[0]` of the symmetric Z options. */
  ghost function PadSizeError(p: int): Option<Error> {
    if !Searchable(p) then Some(AssertionError)
    else if !FftFriendly(p) then Some(ValueError)
    else None
  }

  ghost predicate PadSymmetricZCropYXSpec(shape: Triple, peak: Triple, padSize: seq<int>, framesLen: int,
                                          r: Result<Resize>)
    requires PeakInside(peak, shape)
  {
    if |padSize| != 3 then r == Err(ValueError)
    else if PadSizeError(padSize[0]).Some? then r == Err(PadSizeError(padSize[0]).value)
    else
      var e := MaxBox(peak, shape);
      var (w0, w1) := SymmetricWidths(padSize[0], shape.z, peak.z);
      if !(Searchable(e.y) && Searchable(e.x)) then r == Err(AssertionError)
      else if w0 < 0 || w1 < 0 then r == Err(ValueError)
      else if !FramesFit(framesLen, shape.z) then r == Err(ValueError)
      else
        && r.Ok? && r.value.Reshape? && r.value.crop.Some?
        && CropYX(r.value.crop.value, shape, peak, e)
        && r.value.pad == Some(PadZ(w0, w1))
        && r.value.frames == PadAround(w0, shape.z, shape.z + w0 + w1)
  }

  ghost predicate PadAsymmetricZCropYXSpec(shape: Triple, peak: Triple, framesLen: int, r: Result<Resize>)
    requires PeakInside(peak, shape)
  {
    var e := MaxBox(peak, shape);
    if !(Searchable(e.y) && Searchable(e.x)) then r == Err(AssertionError)
    else if !Searchable(shape.z) then r == Err(AssertionError)
    else if !FramesFit(framesLen, shape.z) then r == Err(ValueError)
    else
      && r.Ok? && r.value.Reshape? && r.value.crop.Some? && r.value.pad.Some?
      && CropYX(r.value.crop.value, shape, peak, e)
      && var pw := r.value.pad.value;
      && pw == PadZ(pw.z0, pw.z1)
      && CeilAxis(pw.z0, pw.z1, shape.z)
      && r.value.frames == PadAround(pw.z0, shape.z, shape.z + pw.z0 + pw.z1)
  }

  ghost predicate PadSymmetricZSpec(shape: Triple, peak: Triple, padSize: seq<int>, framesLen: int,
                                    r: Result<Resize>)
  {
    if |padSize| != 3 then r == Err(ValueError)
    else if PadSizeError(padSize[0]).Some? then r == Err(PadSizeError(padSize[0]).value)
    else
      var (w0, w1) := SymmetricWidths(padSize[0], shape.z, peak.z);
      if w0 < 0 || w1 < 0 then r == Err(ValueError)
      else if !FramesFit(framesLen, shape.z) then r == Err(ValueError)
      else r == Ok(Reshape(None, Some(PadZ(w0, w1)), PadAround(w0, shape.z, shape.z + w0 + w1)))
  }

  ghost predicate PadAsymmetricZSpec(shape: Triple, framesLen: int, r: Result<Resize>) {
    if !Searchable(shape.z) then r == Err(AssertionError)
    else if !FramesFit(framesLen, shape.z) then r == Err(ValueError)
    else
      && r.Ok? && r.value.Reshape? && r.value.crop.None? && r.value.pad.Some?
      && var pw := r.value.pad.value;
      && pw == PadZ(pw.z0, pw.z1)
      && CeilAxis(pw.z0, pw.z1, shape.z)
      && r.value.frames == PadAround(pw.z0, shape.z, shape.z + pw.z0 + pw.z1)
  }

  /** The clamped widths of `pad_symmetric_ZYX`. */
  function ClampedPad(padSize: seq<int>, shape: Triple, peak: Triple): PadWidth
    requires |padSize| == 3
  {
    var (z0, z1) := ClampedWidths(padSize[0], shape.z, peak.z);
    var (y0, y1) := ClampedWidths(padSize[1], shape.y, peak.y);
    var (x0, x1) := ClampedWidths(padSize[2], shape.x, peak.x);
    PadWidth(z0, z1, y0, y1, x0, x1)
  }

  ghost predicate PadSymmetricZYXSpec(shape: Triple, peak: Triple, padSize: seq<int>, framesLen: int,
                                      r: Result<Resize>)
  {
    if |padSize| != 3 then r == Err(ValueError)
    else if PadSizeError(padSize[0]).Some? then r == Err(PadSizeError(padSize[0]).value)
    else if PadSizeError(padSize[1]).Some? then r == Err(PadSizeError(padSize[1]).value)
    else if PadSizeError(padSize[2]).Some? then r == Err(PadSizeError(padSize[2]).value)
    else if !FramesFit(framesLen, shape.z) then r == Err(ValueError)
    else
      var pw := ClampedPad(padSize, shape, peak);
      r == Ok(Reshape(None, Some(pw), PadAround(pw.z0, shape.z, shape.z + pw.z0 + pw.z1)))
  }

  /** The y widths of `pad_asymmetric_ZYX` for `m = higher_primes(nby)`. */
  ghost predicate QuirkYAxis(y0: int, y1: int, ny: int, other: int) {
    exists m :: FftCeil(m, ny) && y0 == QuirkLeadingWidth(m - ny, other) && y1 == AsymmetricWidths(m - ny).1
  }

  ghost predicate PadAsymmetricZYXSpec(shape: Triple, padSize: seq<int>, framesLen: int, r: Result<Resize>) {
    if !(Searchable(shape.z) && Searchable(shape.y) && Searchable(shape.x)) then r == Err(AssertionError)
    else if |padSize| < 2 then r == Err(IndexError)
    else if !FramesFit(framesLen, shape.z) then r == Err(ValueError)
    else
      && r.Ok? && r.value.Reshape? && r.value.crop.None? && r.value.pad.Some?
      && var pw := r.value.pad.value;
      && CeilAxis(pw.z0, pw.z1, shape.z)
      && QuirkYAxis(pw.y0, pw.y1, shape.y, padSize[1] - shape.y)
      && CeilAxis(pw.x0, pw.x1, shape.x)
      && r.value.frames == PadAround(pw.z0, shape.z, shape.z + pw.z0 + pw.z1)
  }

  /** `do_nothing` reads `fix_size[0..5]` only when it has three entries, which
      raises IndexError at `fix_size[3]`; any other length keeps the data. */
  predicate DoNothingSpec(fixSize: seq<int>, r: Result<Resize>) {
    if |fixSize| == 3 then r == Err(IndexError) else r == Ok(Keep)
  }

  ghost predicate PolicySpec(p: Policy, shape: Triple, peak: Triple, padSize: seq<int>, fixSize: seq<int>,
                             framesLen: int, r: Result<Resize>)
    requires PeakInside(peak, shape)
  {
    match p
    case CropSymmetricZYX => CropSymmetricSpec(shape, peak, r)
    case CropAsymmetricZYX => CropAsymmetricSpec(shape, r)
    case PadSymmetricZCropYX => PadSymmetricZCropYXSpec(shape, peak, padSize, framesLen, r)
    case PadAsymmetricZCropYX => PadAsymmetricZCropYXSpec(shape, peak, framesLen, r)
    case PadSymmetricZ => PadSymmetricZSpec(shape, peak, padSize, framesLen, r)
    case PadAsymmetricZ => PadAsymmetricZSpec(shape, framesLen, r)
    case PadSymmetricZYX => PadSymmetricZYXSpec(shape, peak, padSize, framesLen, r)
    case PadAsymmetricZYX => PadAsymmetricZYXSpec(shape, padSize, framesLen, r)
    case DoNothing => DoNothingSpec(fixSize, r)
  }

  /** The whole decision for an option name. */
  ghost predicate PlanSpec(name: string, shape: Triple, peak: Triple, padSize: seq<int>, fixSize: seq<int>,
                           framesLen: int, r: Result<Resize>)
    requires PeakInside(peak, shape)
  {
    match EffectivePolicy(name, peak, shape)
    case None => r == Err(ValueError)
    case Some(p) => PolicySpec(p, shape, peak, padSize, fixSize, framesLen, r)
  }

  // ---------------------------------------------------------------------------
  // Computing the decision

  method PlanCropSymmetric(shape: Triple, peak: Triple) returns (r: Result<Resize>)
    requires PeakInside(peak, shape)
    ensures CropSymmetricSpec(shape, peak, r)
  {
    var e := MaxBox(peak, shape);
    var s := FftSmaller([e.z, e.y, e.x]);
    if s.Err? {
      return Err(s.error);
    }
    var size := Triple(s.value[0], s.value[1], s.value[2]);
    CentredFloorAxis(peak.z, size.z, e.z);
    CentredFloorAxis(peak.y, size.y, e.y);
    CentredFloorAxis(peak.x, size.x, e.x);
    var b := CentredBox(peak, size);
    return Ok(Reshape(Some(b), None, ZeroOutside(b.lo.z, b.hi.z, shape.z)));
  }

  method PlanCropAsymmetric(shape: Triple) returns (r: Result<Resize>)
    ensures CropAsymmetricSpec(shape, r)
  {
    var s := FftSmaller([shape.z, shape.y, shape.x]);
    if s.Err? {
      return Err(s.error);
    }
    var size := Triple(s.value[0], s.value[1], s.value[2]);
    var c := Centre(shape);
    CentredFloorAxis(c.z, size.z, shape.z);
    CentredFloorAxis(c.y, size.y, shape.y);
    CentredFloorAxis(c.x, size.x, shape.x);
    var b := CentredBox(c, size);
    return Ok(Reshape(Some(b), None, ZeroOutside(b.lo.z, b.hi.z, shape.z)));
  }

  /** The checks on `pad_size[k]`: the assertion of `higher_primes`, then the
      fixed-point test. */
  method CheckPadSize(p: int) returns (err: Option<Error>)
    ensures err == PadSizeError(p)
  {
    var h := FftHigher(p);
    if h.Err? {
      return Some(h.error);
    }
    FixedPointIffFriendly(h.value, p, FftMaxPrime, FftDividers);
    if p != h.value {
      return Some(ValueError);
    }
    return None;
  }

  /** The y/x crop of the `*_Z_crop_YX` options. */
  method PlanCropYX(shape: Triple, peak: Triple) returns (r: Result<Box>)
    requires PeakInside(peak, shape)
    ensures var e := MaxBox(peak, shape);
      r.Err? <==> !(Searchable(e.y) && Searchable(e.x))
    ensures r.Err? ==> r.error == AssertionError
    ensures r.Ok? ==> CropYX(r.value, shape, peak, MaxBox(peak, shape))
  {
    var e := MaxBox(peak, shape);
    var s := FftSmaller([e.y, e.x]);
    if s.Err? {
      return Err(s.error);
    }
    CentredFloorAxis(peak.y, s.value[0], e.y);
    CentredFloorAxis(peak.x, s.value[1], e.x);
    return Ok(Box(Triple(0, peak.y - s.value[0] / 2, peak.x - s.value[1] / 2),
                  Triple(shape.z, peak.y + s.value[0] / 2, peak.x + s.value[1] / 2)));
  }

  method PlanPadSymmetricZCropYX(shape: Triple, peak: Triple, padSize: seq<int>, framesLen: int)
    returns (r: Result<Resize>)
    requires PeakInside(peak, shape)
    ensures PadSymmetricZCropYXSpec(shape, peak, padSize, framesLen, r)
  {
    if |padSize| != 3 {
      return Err(ValueError);
    }
    var err := CheckPadSize(padSize[0]);
    if err.Some? {
      return Err(err.value);
    }
    var b := PlanCropYX(shape, peak);
    if b.Err? {
      return Err(b.error);
    }
    var (w0, w1) := SymmetricWidths(padSize[0], shape.z, peak.z);
    if w0 < 0 || w1 < 0 {
      return Err(ValueError);
    }
    if !FramesFit(framesLen, shape.z) {
      return Err(ValueError);
    }
    return Ok(Reshape(Some(b.value), Some(PadZ(w0, w1)), PadAround(w0, shape.z, shape.z + w0 + w1)));
  }

  method PlanPadAsymmetricZCropYX(shape: Triple, peak: Triple, framesLen: int) returns (r: Result<Resize>)
    requires PeakInside(peak, shape)
    ensures PadAsymmetricZCropYXSpec(shape, peak, framesLen, r)
  {
    var b := PlanCropYX(shape, peak);
    if b.Err? {
      return Err(b.error);
    }
    var nz1 := FftHigher(shape.z);
    if nz1.Err? {
      return Err(nz1.error);
    }
    var (w0, w1) := AsymmetricWidths(nz1.value - shape.z);
    CeilAxisFrom(nz1.value, shape.z);
    if !FramesFit(framesLen, shape.z) {
      return Err(ValueError);
    }
    return Ok(Reshape(Some(b.value), Some(PadZ(w0, w1)), PadAround(w0, shape.z, shape.z + w0 + w1)));
  }

  method PlanPadSymmetricZ(shape: Triple, peak: Triple, padSize: seq<int>, framesLen: int)
    returns (r: Result<Resize>)
    ensures PadSymmetricZSpec(shape, peak, padSize, framesLen, r)
  {
    if |padSize| != 3 {
      return Err(ValueError);
    }
    var err := CheckPadSize(padSize[0]);
    if err.Some? {
      return Err(err.value);
    }
    var (w0, w1) := SymmetricWidths(padSize[0], shape.z, peak.z);
    if w0 < 0 || w1 < 0 {
      return Err(ValueError);
    }
    if !FramesFit(framesLen, shape.z) {
      return Err(ValueError);
    }
    return Ok(Reshape(None, Some(PadZ(w0, w1)), PadAround(w0, shape.z, shape.z + w0 + w1)));
  }

  method PlanPadAsymmetricZ(shape: Triple, framesLen: int) returns (r: Result<Resize>)
    ensures PadAsymmetricZSpec(shape, framesLen, r)
  {
    var nz1 := FftHigher(shape.z);
    if nz1.Err? {
      return Err(nz1.error);
    }
    var (w0, w1) := AsymmetricWidths(nz1.value - shape.z);
    CeilAxisFrom(nz1.value, shape.z);
    if !FramesFit(framesLen, shape.z) {
      return Err(ValueError);
    }
    return Ok(Reshape(None, Some(PadZ(w0, w1)), PadAround(w0, shape.z, shape.z + w0 + w1)));
  }

  method PlanPadSymmetricZYX(shape: Triple, peak: Triple, padSize: seq<int>, framesLen: int)
    returns (r: Result<Resize>)
    ensures PadSymmetricZYXSpec(shape, peak, padSize, framesLen, r)
  {
    if |padSize| != 3 {
      return Err(ValueError);
    }
    for k := 0 to 3
      invariant forall j :: 0 <= j < k ==> PadSizeError(padSize[j]).None?
    {
      var err := CheckPadSize(padSize[k]);
      if err.Some? {
        return Err(err.value);
      }
    }
    if !FramesFit(framesLen, shape.z) {
      return Err(ValueError);
    }
    var pw := ClampedPad(padSize, shape, peak);
    return Ok(Reshape(None, Some(pw), PadAround(pw.z0, shape.z, shape.z + pw.z0 + pw.z1)));
  }

  lemma PadAsymmetricZYXPlan(shape: Triple, padSize: seq<int>, framesLen: int, nz: int, ny: int, nx: int, pw: PadWidth)
    requires Searchable(shape.z) && Searchable(shape.y) && Searchable(shape.x)
    requires FftCeil(nz, shape.z) && FftCeil(ny, shape.y) && FftCeil(nx, shape.x)
    requires |padSize| >= 2 && FramesFit(framesLen, shape.z)
    requires (pw.z0, pw.z1) == AsymmetricWidths(nz - shape.z) && (pw.x0, pw.x1) == AsymmetricWidths(nx - shape.x)
    requires pw.y0 == QuirkLeadingWidth(ny - shape.y, padSize[1] - shape.y) && pw.y1 == AsymmetricWidths(ny - shape.y).1
    ensures PadAsymmetricZYXSpec(shape, padSize, framesLen,
                                 Ok(Reshape(None, Some(pw), PadAround(pw.z0, shape.z, shape.z + pw.z0 + pw.z1))))
  {
    AsymmetricZYXAxes(shape, padSize[1] - shape.y, nz, ny, nx, pw);
  }

  lemma AsymmetricZYXAxes(shape: Triple, other: int, nz: int, ny: int, nx: int, pw: PadWidth)
    requires FftCeil(nz, shape.z) && FftCeil(ny, shape.y) && FftCeil(nx, shape.x)
    requires (pw.z0, pw.z1) == AsymmetricWidths(nz - shape.z) && (pw.x0, pw.x1) == AsymmetricWidths(nx - shape.x)
    requires pw.y0 == QuirkLeadingWidth(ny - shape.y, other) && pw.y1 == AsymmetricWidths(ny - shape.y).1
    ensures CeilAxis(pw.z0, pw.z1, shape.z) && CeilAxis(pw.x0, pw.x1, shape.x) && QuirkYAxis(pw.y0, pw.y1, shape.y, other)
  {
    CeilAxisFrom(nz, shape.z);
    CeilAxisFrom(nx, shape.x);
  }

  method PlanPadAsymmetricZYX(shape: Triple, padSize: seq<int>, framesLen: int) returns (r: Result<Resize>)
    ensures PadAsymmetricZYXSpec(shape, padSize, framesLen, r)
  {
    var nz1 := FftHigher(shape.z);
    var ny1 := FftHigher(shape.y);
    var nx1 := FftHigher(shape.x);
    if nz1.Err? || ny1.Err? || nx1.Err? {
      return Err(AssertionError);
    }
    if |padSize| < 2 {
      return Err(IndexError);
    }
    var (z0, z1) := AsymmetricWidths(nz1.value - shape.z);
    var y0 := QuirkLeadingWidth(ny1.value - shape.y, padSize[1] - shape.y);
    var y1 := AsymmetricWidths(ny1.value - shape.y).1;
    var (x0, x1) := AsymmetricWidths(nx1.value - shape.x);
    if !FramesFit(framesLen, shape.z) {
      return Err(ValueError);
    }
    PadAsymmetricZYXPlan(shape, padSize, framesLen, nz1.value, ny1.value, nx1.value, PadWidth(z0, z1, y0, y1, x0, x1));
    return Ok(Reshape(None, Some(PadWidth(z0, z1, y0, y1, x0, x1)), PadAround(z0, shape.z, shape.z + z0 + z1)));
  }

  /** The crop/pad dispatch of `center_fft`, after the box-collapse override. */
  method PlanResize(name: string, shape: Triple, peak: Triple, padSize: seq<int>, fixSize: seq<int>, framesLen: int)
    returns (r: Result<Resize>)
    requires PeakInside(peak, shape)
    ensures PlanSpec(name, shape, peak, padSize, fixSize, framesLen, r)
  {
    var policy := EffectivePolicy(name, peak, shape);
    match policy
    case None => r := Err(ValueError);
    case Some(p) =>
      match p
      case CropSymmetricZYX => r := PlanCropSymmetric(shape, peak);
      case CropAsymmetricZYX => r := PlanCropAsymmetric(shape);
      case PadSymmetricZCropYX => r := PlanPadSymmetricZCropYX(shape, peak, padSize, framesLen);
      case PadAsymmetricZCropYX => r := PlanPadAsymmetricZCropYX(shape, peak, framesLen);
      case PadSymmetricZ => r := PlanPadSymmetricZ(shape, peak, padSize, framesLen);
      case PadAsymmetricZ => r := PlanPadAsymmetricZ(shape, framesLen);
      case PadSymmetricZYX => r := PlanPadSymmetricZYX(shape, peak, padSize, framesLen);
      case PadAsymmetricZYX => r := PlanPadAsymmetricZYX(shape, padSize, framesLen);
      case DoNothing => r := if |fixSize| == 3 then Err(IndexError) else Ok(Keep);
  }
}

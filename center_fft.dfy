/** `center_fft`: validate the inputs, locate the Bragg peak, then crop or pad
    the data, the mask and the `frames_logical` provenance vector (1 used frame,
    0 unused frame, -1 padded frame) as `CenterFftPlan` decides. */
module CenterFft {
  import opened Common
  import opened Padding
  import opened CenterFftPlan

  /** `data, mask, pad_width, frames_logical` as returned (q values are not modelled). */
  datatype Centered = Centered(data: array3<real>, mask: array3<real>, padWidth: PadWidth, frames: array<int>)

  // ---------------------------------------------------------------------------
  // The peak

  function AbsReal(v: real): real {
    if v < 0.0 then -v else v
  }

  /** a comes before b in C (row-major) order. */
  predicate Before(a: Triple, b: Triple) {
    a.z < b.z || (a.z == b.z && (a.y < b.y || (a.y == b.y && a.x < b.x)))
  }

  predicate NonEmpty(shape: Triple) {
    shape.z > 0 && shape.y > 0 && shape.x > 0
  }

  predicate InGrid(data: array3<real>, z: int, y: int, x: int) {
    0 <= z < data.Length0 && 0 <= y < data.Length1 && 0 <= x < data.Length2
  }

  /** p is `np.unravel_index(abs(data).argmax(), data.shape)`: a cell of largest
      magnitude, the first one in C order. */
  ghost predicate IsFirstMaxAbs(data: array3<real>, p: Triple)
    reads data
  {
    && PeakInside(p, Shape(data))
    && (forall z, y, x :: InGrid(data, z, y, x) ==> AbsReal(data[z, y, x]) <= AbsReal(data[p.z, p.y, p.x]))
    && (forall z, y, x :: (InGrid(data, z, y, x) && Before(Triple(z, y, x), p)) ==>
          AbsReal(data[z, y, x]) < AbsReal(data[p.z, p.y, p.x]))
  }

  /** Every cell before `cur` in C order is at most `best` in magnitude, and
      every cell before `p` is below it. */
  ghost predicate ScannedUpTo(data: array3<real>, cur: Triple, p: Triple, best: real)
    reads data
  {
    && PeakInside(p, Shape(data))
    && best == AbsReal(data[p.z, p.y, p.x])
    && (forall z, y, x :: (InGrid(data, z, y, x) && Before(Triple(z, y, x), cur)) ==> AbsReal(data[z, y, x]) <= best)
    && (forall z, y, x :: (InGrid(data, z, y, x) && Before(Triple(z, y, x), p)) ==> AbsReal(data[z, y, x]) < best)
  }

  /** Visiting one cell: a strictly larger magnitude becomes the new peak. */
  lemma ScanCell(data: array3<real>, z: int, y: int, x: int, p: Triple, best: real)
    requires InGrid(data, z, y, x) && ScannedUpTo(data, Triple(z, y, x), p, best)
    ensures AbsReal(data[z, y, x]) > best ==>
      ScannedUpTo(data, Triple(z, y, x + 1), Triple(z, y, x), AbsReal(data[z, y, x]))
    ensures AbsReal(data[z, y, x]) <= best ==> ScannedUpTo(data, Triple(z, y, x + 1), p, best)
  {
  }

  /** The end of a row is the start of the next one. */
  lemma RowDone(data: array3<real>, z: int, y: int, p: Triple, best: real)
    requires ScannedUpTo(data, Triple(z, y, data.Length2), p, best)
    ensures ScannedUpTo(data, Triple(z, y + 1, 0), p, best)
  {
  }

  /** The end of a plane is the start of the next one. */
  lemma PlaneDone(data: array3<real>, z: int, p: Triple, best: real)
    requires ScannedUpTo(data, Triple(z, data.Length1, 0), p, best)
    ensures ScannedUpTo(data, Triple(z + 1, 0, 0), p, best)
  {
  }

  lemma ScanDone(data: array3<real>, p: Triple, best: real)
    requires ScannedUpTo(data, Triple(data.Length0, 0, 0), p, best)
    ensures IsFirstMaxAbs(data, p)
  {
  }

  /** Scans row y of plane z. */
  method ScanRow(data: array3<real>, z: int, y: int, p0: Triple, best0: real) returns (p: Triple, best: real)
    requires 0 <= z < data.Length0 && 0 <= y < data.Length1
    requires ScannedUpTo(data, Triple(z, y, 0), p0, best0)
    ensures ScannedUpTo(data, Triple(z, y + 1, 0), p, best)
  {
    p, best := p0, best0;
    var x := 0;
    while x < data.Length2
      invariant 0 <= x <= data.Length2
      invariant ScannedUpTo(data, Triple(z, y, x), p, best)
    {
      var v := AbsReal(data[z, y, x]);
      ScanCell(data, z, y, x, p, best);
      if v > best {
        p := Triple(z, y, x);
        best := v;
      }
      x := x + 1;
    }
    RowDone(data, z, y, p, best);
  }

  /** Scans plane z. */
  method ScanPlane(data: array3<real>, z: int, p0: Triple, best0: real) returns (p: Triple, best: real)
    requires 0 <= z < data.Length0
    requires ScannedUpTo(data, Triple(z, 0, 0), p0, best0)
    ensures ScannedUpTo(data, Triple(z + 1, 0, 0), p, best)
  {
    p, best := p0, best0;
    var y := 0;
    while y < data.Length1
      invariant 0 <= y <= data.Length1
      invariant ScannedUpTo(data, Triple(z, y, 0), p, best)
    {
      p, best := ScanRow(data, z, y, p, best);
      y := y + 1;
    }
    PlaneDone(data, z, p, best);
  }

  /** The argmax of `abs(data)`: a scan in C order keeping the first strict maximum. */
  method ArgMaxAbs(data: array3<real>) returns (p: Triple)
    requires NonEmpty(Shape(data))
    ensures IsFirstMaxAbs(data, p)
  {
    p := Triple(0, 0, 0);
    var best := AbsReal(data[0, 0, 0]);
    var z := 0;
    while z < data.Length0
      invariant 0 <= z <= data.Length0
      invariant ScannedUpTo(data, Triple(z, 0, 0), p, best)
    {
      p, best := ScanPlane(data, z, p, best);
      z := z + 1;
    }
    ScanDone(data, p, best);
  }

  // ---------------------------------------------------------------------------
  // Provenance updates

  /** The new `frames_logical` for a frame update. A crop zeroes
      `frames_logical[0:lo]` when lo > 0 and `frames_logical[hi:]` when hi < n; a
      pad places the old vector (or its single entry, broadcast) at `before`
      inside a vector of -1. */
  function FramesAfter(u: FrameUpdate, f: seq<int>): (g: seq<int>)
    requires u.PadAround? ==> u.total >= 0
    ensures u.ZeroOutside? ==> |g| == |f|
    ensures u.PadAround? ==> |g| == u.total
  {
    match u
    case ZeroOutside(lo, hi, n) =>
      seq(|f|, i requires 0 <= i < |f| =>
        if (lo > 0 && i < SliceBound(lo, |f|)) || (hi < n && i >= SliceBound(hi, |f|)) then 0 else f[i])
    case PadAround(before, n, total) =>
      seq(total, i =>
        if before <= i < before + n then
          (if |f| == n then f[i - before] else if |f| == 1 then f[0] else -1)
        else -1)
  }

  /** After a crop whose z range lies inside the data and matches the vector,
      exactly the frames in [lo, hi) keep their value; the others are 0. */
  lemma CropProvenance(f: seq<int>, lo: int, hi: int)
    requires 0 <= lo <= hi <= |f|
    ensures forall i :: 0 <= i < |f| ==>
      FramesAfter(ZeroOutside(lo, hi, |f|), f)[i] == if lo <= i < hi then f[i] else 0
  {
    forall i | 0 <= i < |f|
      ensures FramesAfter(ZeroOutside(lo, hi, |f|), f)[i] == if lo <= i < hi then f[i] else 0
    {
      assert SliceBound(lo, |f|) == lo && SliceBound(hi, |f|) == hi;
    }
  }

  /** After a pad, the vector is -1 on the padded frames and the old vector on
      the frames of the data. */
  lemma PadProvenance(f: seq<int>, before: int, after: int)
    requires before >= 0 && after >= 0
    ensures var g := FramesAfter(PadAround(before, |f|, before + |f| + after), f);
      && |g| == before + |f| + after
      && (forall i :: 0 <= i < |g| && (i < before || i >= before + |f|) ==> g[i] == -1)
      && (forall i :: 0 <= i < |f| ==> g[before + i] == f[i])
  {
    var n := |f|;
    var g := FramesAfter(PadAround(before, n, before + n + after), f);
    assert |g| == before + n + after;
    forall i | 0 <= i < |g| && (i < before || i >= before + n) ensures g[i] == -1 {
      assert !(before <= i < before + n);
    }
    forall i | 0 <= i < n ensures g[before + i] == f[i] {
      assert before <= before + i < before + n;
      assert g[before + i] == f[before + i - before];
    }
  }

  /** `frames_logical[0:lo] = 0` (when lo > 0) and `frames_logical[hi:] = 0`
      (when hi < n), in place. */
  method ZeroFramesOutside(frames: array<int>, lo: int, hi: int, n: int)
    modifies frames
    ensures frames[..] == FramesAfter(ZeroOutside(lo, hi, n), old(frames[..]))
  {
    ghost var f := frames[..];
    if lo > 0 {
      var a := SliceBound(lo, frames.Length);
      forall i | 0 <= i < a {
        frames[i] := 0;
      }
    }
    ghost var g := frames[..];
    if hi < n {
      var b := SliceBound(hi, frames.Length);
      forall i | b <= i < frames.Length {
        frames[i] := 0;
      }
    }
    assert forall i :: 0 <= i < frames.Length ==> frames[i] == FramesAfter(ZeroOutside(lo, hi, n), f)[i];
  }

  /** `temp_frames = -1 * np.ones(total)` then
      `temp_frames[before:before + n] = frames_logical`. */
  method PaddedFrames(frames: array<int>, before: int, n: int, total: int) returns (g: array<int>)
    requires 0 <= before && 0 <= n && before + n <= total
    requires FramesFit(frames.Length, n)
    ensures fresh(g)
    ensures g[..] == FramesAfter(PadAround(before, n, total), frames[..])
  {
    g := new int[total](_ => -1);
    if frames.Length == n {
      forall i | before <= i < before + n {
        g[i] := frames[i - before];
      }
    } else {
      forall i | before <= i < before + n {
        g[i] := frames[0];
      }
    }
    assert forall i :: 0 <= i < total ==> g[i] == FramesAfter(PadAround(before, n, total), frames[..])[i];
  }

  // ---------------------------------------------------------------------------
  // Carrying out a resize

  /** The source box a resize reads: the normalised crop box, or everything. */
  function Region(crop: Option<Box>, shape: Triple): (Triple, Triple)
    requires shape.z >= 0 && shape.y >= 0 && shape.x >= 0
  {
    match crop
    case None => (Origin, shape)
    case Some(b) => (SliceStarts(b.lo, shape), SliceLengths(b.lo, b.hi, shape))
  }

  function PadOf(pad: Option<PadWidth>): PadWidth {
    if pad.Some? then pad.value else NoPad
  }

  /** A resize that can be carried out on data of the given shape and a
      provenance vector of the given length. */
  predicate Executable(plan: Resize, shape: Triple, framesLen: int)
    requires shape.z >= 0 && shape.y >= 0 && shape.x >= 0
  {
    plan.Reshape? ==>
      && (plan.crop.Some? || plan.pad.Some?)
      && PadOf(plan.pad).NonNegative()
      && (plan.frames.PadAround? ==>
            && plan.pad.Some?
            && plan.frames.before == plan.pad.value.z0
            && plan.frames.n == Region(plan.crop, shape).1.z
            && plan.frames.total == plan.frames.n + plan.pad.value.z0 + plan.pad.value.z1
            && FramesFit(framesLen, plan.frames.n))
      && (plan.frames.ZeroOutside? ==> plan.pad.None?)
      && (plan.crop.Some? ==> CropLiteral(plan.crop.value, shape))
  }

  /** A crop box inside the data: the slices `lo:hi` are taken as written. */
  predicate CropLiteral(b: Box, shape: Triple) {
    && 0 <= b.lo.z <= b.hi.z <= shape.z
    && 0 <= b.lo.y <= b.hi.y <= shape.y
    && 0 <= b.lo.x <= b.hi.x <= shape.x
  }

  /** Each side of s is `smaller_primes` of the matching side of limit. */
  ghost predicate FloorSides(s: Triple, limit: Triple) {
    FftFloor(s.z, limit.z) && FftFloor(s.y, limit.y) && FftFloor(s.x, limit.x)
  }

  /** out is what the resize makes of data, mask and `frames_logical` (whose
      contents were f0). Crops return the provenance array itself, updated;
      pads return a new vector and leave the caller's array as it was. */
  ghost predicate Applied(out: Centered, data: array3<real>, mask: array3<real>, frames: array<int>, f0: seq<int>,
                          plan: Resize)
    requires plan.Reshape? && plan.frames.PadAround? ==> plan.frames.total >= 0
    reads out.data, out.mask, out.frames, data, mask, frames
  {
    match plan
    case Keep =>
      out == Centered(data, mask, NoPad, frames) && out.frames[..] == f0
    case Reshape(crop, pad, u) =>
      var (lo, size) := Region(crop, Shape(data));
      && Shape(mask) == Shape(data)
      && Embeds(out.data, data, lo, size, PadOf(pad), 0.0)
      && Embeds(out.mask, mask, lo, size, PadOf(pad), 1.0)
      && out.padWidth == PadOf(pad)
      && out.frames[..] == FramesAfter(u, f0)
      && (u.ZeroOutside? ==> out.frames == frames)
      && (u.PadAround? ==> frames[..] == f0)
  }

  /** The volume half of a resize: `array[crop]`, then `zero_pad` of the result. */
  method ResizeVolume(a: array3<real>, crop: Option<Box>, pad: Option<PadWidth>, maskFlag: bool)
    returns (b: array3<real>)
    requires crop.Some? || pad.Some?
    requires PadOf(pad).NonNegative()
    ensures fresh(b)
    ensures Embeds(b, a, Region(crop, Shape(a)).0, Region(crop, Shape(a)).1, PadOf(pad), Fill(maskFlag))
  {
    var region := Region(crop, Shape(a));
    if crop.Some? {
      var c := Crop(a, crop.value.lo, crop.value.hi);
      if pad.Some? {
        b := ZeroPad(c, pad.value, maskFlag);
        CropThenPad(b, c, a, region.0, region.1, pad.value, Fill(maskFlag), 0.0);
      } else {
        b := c;
        EmbedsAnyFill(c, a, region.0, region.1, 0.0, Fill(maskFlag));
      }
    } else {
      b := ZeroPad(a, pad.value, maskFlag);
    }
  }

  method ApplyResize(data: array3<real>, mask: array3<real>, frames: array<int>, plan: Resize) returns (out: Centered)
    requires Shape(mask) == Shape(data)
    requires Executable(plan, Shape(data), frames.Length)
    modifies frames
    ensures Applied(out, data, mask, frames, old(frames[..]), plan)
    ensures plan.Reshape? && plan.frames.PadAround? ==> fresh(out.frames) && out.frames.Length == out.data.Length0
    ensures plan.Reshape? ==> fresh(out.data) && fresh(out.mask)
  {
    match plan
    case Keep =>
      out := Centered(data, mask, NoPad, frames);
    case Reshape(crop, pad, u) =>
      var d := ResizeVolume(data, crop, pad, false);
      var m := ResizeVolume(mask, crop, pad, true);
      match u
      case ZeroOutside(lo, hi, n) =>
        ZeroFramesOutside(frames, lo, hi, n);
        out := Centered(d, m, PadOf(pad), frames);
      case PadAround(before, n, total) =>
        var g := PaddedFrames(frames, before, n, total);
        out := Centered(d, m, PadOf(pad), g);
  }

  // ---------------------------------------------------------------------------
  // center_fft

  /** A keyword argument, `[]` when absent. */
  function Kwarg(kwargs: map<string, seq<int>>, key: string): seq<int> {
    if key in kwargs then kwargs[key] else []
  }

  predicate KnownKeyword(k: string) {
    k == "fix_bragg" || k == "fix_size" || k == "pad_size" || k == "q_values"
  }

  /** The checks made before the peak is known, in the order of the source. */
  function InputError(dataShape: Triple, maskShape: Triple, centering: string, kwargs: map<string, seq<int>>)
    : Option<Error>
  {
    if dataShape != maskShape then Some(ValueError)
    else if exists k :: k in kwargs && !KnownKeyword(k) then Some(UnknownKeyword)
    else if centering != "max" && centering != "com" then Some(ValueError)
    else if centering == "max" && !NonEmpty(dataShape) then Some(ValueError)
    else if |Kwarg(kwargs, "fix_bragg")| != 0 && |Kwarg(kwargs, "fix_bragg")| != 3 then Some(ValueError)
    else None
  }

  /** With `centering='com'` and no `fix_bragg`, a centre of mass that is not a
      finite number (`None` here) makes `int(round(...))` raise ValueError. */
  predicate NoPeak(centering: string, fixBragg: seq<int>, comPeak: Option<Triple>) {
    |fixBragg| != 3 && centering == "com" && comPeak.None?
  }

  /** The peak `center_fft` uses: `fix_bragg` when given, else the argmax of
      `abs(data)` or the rounded centre of mass. */
  ghost predicate ChosenPeak(data: array3<real>, centering: string, fixBragg: seq<int>, comPeak: Option<Triple>,
                             peak: Triple)
    reads data
  {
    if |fixBragg| == 3 then peak == Triple(fixBragg[0], fixBragg[1], fixBragg[2])
    else if centering == "max" then IsFirstMaxAbs(data, peak)
    else comPeak == Some(peak)
  }

  /** `center_fft(data, mask, frames_logical, centering, fft_option, **kwargs)`.
      The rounded centre of mass of the data is the input `comPeak`. */
  method Center(data: array3<real>, mask: array3<real>, frames: array<int>, centering: string,
                fftOption: string, kwargs: map<string, seq<int>>, comPeak: Option<Triple>)
    returns (r: Result<Centered>)
    modifies frames
    ensures InputError(Shape(data), Shape(mask), centering, kwargs).Some? ==>
      r == Err(InputError(Shape(data), Shape(mask), centering, kwargs).value)
    ensures (InputError(Shape(data), Shape(mask), centering, kwargs).None? &&
             NoPeak(centering, Kwarg(kwargs, "fix_bragg"), comPeak)) ==> r == Err(ValueError)
    ensures (InputError(Shape(data), Shape(mask), centering, kwargs).None? &&
             !NoPeak(centering, Kwarg(kwargs, "fix_bragg"), comPeak)) ==>
      exists peak: Triple :: ChosenPeak(data, centering, Kwarg(kwargs, "fix_bragg"), comPeak, peak) &&
        (!PeakInside(peak, Shape(data)) ==> r == Err(IndexError)) &&
        (PeakInside(peak, Shape(data)) ==>
          Outcome(r, data, mask, frames, old(frames[..]), fftOption, Kwarg(kwargs, "pad_size"),
                  Kwarg(kwargs, "fix_size"), peak))
    ensures r.Err? ==> frames[..] == old(frames[..])
  {
    var err := InputError(Shape(data), Shape(mask), centering, kwargs);
    if err.Some? {
      return Err(err.value);
    }
    var fixBragg := Kwarg(kwargs, "fix_bragg");
    if NoPeak(centering, fixBragg, comPeak) {
      return Err(ValueError);
    }
    var peak := if comPeak.Some? then comPeak.value else Origin;
    if centering == "max" {
      peak := ArgMaxAbs(data);
    }
    if |fixBragg| == 3 {
      peak := Triple(fixBragg[0], fixBragg[1], fixBragg[2]);
    }
    assert ChosenPeak(data, centering, fixBragg, comPeak, peak);
    if !PeakInside(peak, Shape(data)) {
      return Err(IndexError);
    }
    r := CenterOn(data, mask, frames, fftOption, Kwarg(kwargs, "pad_size"), Kwarg(kwargs, "fix_size"), peak);
  }

  /** The result of centring on a peak inside the volume: the resize the
      chosen option calls for, and either its error or its application to
      data, mask and frames (whose entries were f0 before). */
  ghost predicate Outcome(r: Result<Centered>, data: array3<real>, mask: array3<real>, frames: array<int>,
                          f0: seq<int>, fftOption: string, padSize: seq<int>, fixSize: seq<int>, peak: Triple)
    requires PeakInside(peak, Shape(data))
    reads data, mask, frames, if r.Ok? then {r.value.data, r.value.mask, r.value.frames} else {}
  {
    exists plan: Result<Resize> ::
      && PlanSpec(fftOption, Shape(data), peak, padSize, fixSize, frames.Length, plan)
      && (plan.Err? ==> r == Err(plan.error))
      && (plan.Ok? ==> r.Ok? && Applied(r.value, data, mask, frames, f0, plan.value))
  }

  /** The crop/pad option applied around a peak inside the data. */
  method CenterOn(data: array3<real>, mask: array3<real>, frames: array<int>, fftOption: string,
                  padSize: seq<int>, fixSize: seq<int>, peak: Triple)
    returns (r: Result<Centered>)
    requires Shape(mask) == Shape(data) && PeakInside(peak, Shape(data))
    modifies frames
    ensures Outcome(r, data, mask, frames, old(frames[..]), fftOption, padSize, fixSize, peak)
    ensures r.Err? ==> frames[..] == old(frames[..])
  {
    var plan := PlanResize(fftOption, Shape(data), peak, padSize, fixSize, frames.Length);
    if plan.Err? {
      return Err(plan.error);
    }
    PlanExecutable(fftOption, Shape(data), peak, padSize, fixSize, frames.Length, plan.value);
    var out := ApplyResize(data, mask, frames, plan.value);
    return Ok(out);
  }

  // ---------------------------------------------------------------------------
  // Every decided resize can be carried out

  lemma CeilAxisWidths(w0: int, w1: int, n: int)
    requires CeilAxis(w0, w1, n)
    ensures w0 >= 0 && w1 >= 0
  {
    AsymmetricWidthsSplit(w0 + w1);
  }

  lemma QuirkYAxisWidths(y0: int, y1: int, n: int, other: int)
    requires QuirkYAxis(y0, y1, n, other)
    ensures y0 >= 0 && y1 >= 0
  {
    var m :| FftCeil(m, n) && y0 == QuirkLeadingWidth(m - n, other) && y1 == AsymmetricWidths(m - n).1;
    AsymmetricWidthsSplit(m - n);
  }

  lemma CropRegionZ(b: Box, shape: Triple)
    requires shape.z >= 0 && shape.y >= 0 && shape.x >= 0
    requires b.lo.z == 0 && b.hi.z == shape.z
    ensures Region(Some(b), shape).1.z == shape.z
  {
  }

  /** The symmetric crop reads a box inside the data whose sides are the
      `smaller_primes` sizes of the largest box around the peak. */
  lemma CropSymmetricInside(shape: Triple, peak: Triple, plan: Resize)
    requires PeakInside(peak, shape)
    requires CropSymmetricSpec(shape, peak, Ok(plan))
    ensures plan.Reshape? && plan.crop.Some? && CropLiteral(plan.crop.value, shape)
    ensures Region(plan.crop, shape).0 == plan.crop.value.lo
    ensures FloorSides(Region(plan.crop, shape).1, MaxBox(peak, shape))
  {
    var b := plan.crop.value;
    CentredAxisInside(b.lo.z, b.hi.z, peak.z, shape.z);
    CentredAxisInside(b.lo.y, b.hi.y, peak.y, shape.y);
    CentredAxisInside(b.lo.x, b.hi.x, peak.x, shape.x);
  }

  /** The asymmetric crop reads a box inside the data whose sides are the
      `smaller_primes` sizes of the data. */
  lemma CropAsymmetricInside(shape: Triple, plan: Resize)
    requires shape.z >= 0 && shape.y >= 0 && shape.x >= 0
    requires CropAsymmetricSpec(shape, Ok(plan))
    ensures plan.Reshape? && plan.crop.Some? && CropLiteral(plan.crop.value, shape)
    ensures Region(plan.crop, shape).0 == plan.crop.value.lo
    ensures FloorSides(Region(plan.crop, shape).1, shape)
  {
    var b := plan.crop.value;
    MiddleAxisInside(b.lo.z, b.hi.z, shape.z);
    MiddleAxisInside(b.lo.y, b.hi.y, shape.y);
    MiddleAxisInside(b.lo.x, b.hi.x, shape.x);
  }

  /** The detector crop of the `*_Z_crop_YX` options keeps every frame and a
      box inside the detector. */
  lemma CropYXInside(b: Box, shape: Triple, peak: Triple)
    requires PeakInside(peak, shape)
    requires CropYX(b, shape, peak, MaxBox(peak, shape))
    ensures CropLiteral(b, shape) && Region(Some(b), shape).0 == b.lo
  {
    CentredAxisInside(b.lo.y, b.hi.y, peak.y, shape.y);
    CentredAxisInside(b.lo.x, b.hi.x, peak.x, shape.x);
  }

  /** Every crop a plan asks for lies inside the data, so the region read is the
      box itself; the two crop options read a box whose sides are the
      `smaller_primes` sizes of the largest box around the peak, or of the data. */
  lemma PlanCropsInside(name: string, shape: Triple, peak: Triple, padSize: seq<int>, fixSize: seq<int>,
                        framesLen: int, plan: Resize)
    requires PeakInside(peak, shape)
    requires PlanSpec(name, shape, peak, padSize, fixSize, framesLen, Ok(plan))
    ensures plan.Reshape? && plan.crop.Some? ==>
              && CropLiteral(plan.crop.value, shape)
              && Region(plan.crop, shape).0 == plan.crop.value.lo
    ensures EffectivePolicy(name, peak, shape) == Some(CropSymmetricZYX) ==>
              plan.Reshape? && plan.crop.Some? && FloorSides(Region(plan.crop, shape).1, MaxBox(peak, shape))
    ensures EffectivePolicy(name, peak, shape) == Some(CropAsymmetricZYX) ==>
              plan.Reshape? && plan.crop.Some? && FloorSides(Region(plan.crop, shape).1, shape)
  {
    var p := EffectivePolicy(name, peak, shape).value;
    match p
    case CropSymmetricZYX => CropSymmetricInside(shape, peak, plan);
    case CropAsymmetricZYX => CropAsymmetricInside(shape, plan);
    case PadSymmetricZCropYX => CropYXInside(plan.crop.value, shape, peak);
    case PadAsymmetricZCropYX => CropYXInside(plan.crop.value, shape, peak);
    case _ =>
  }

  lemma PlanExecutable(name: string, shape: Triple, peak: Triple, padSize: seq<int>, fixSize: seq<int>,
                       framesLen: int, plan: Resize)
    requires PeakInside(peak, shape)
    requires PlanSpec(name, shape, peak, padSize, fixSize, framesLen, Ok(plan))
    ensures Executable(plan, shape, framesLen)
  {
    PlanCropsInside(name, shape, peak, padSize, fixSize, framesLen, plan);
    var p := EffectivePolicy(name, peak, shape).value;
    match p
    case PadSymmetricZCropYX => CropRegionZ(plan.crop.value, shape);
    case PadAsymmetricZCropYX =>
      CropRegionZ(plan.crop.value, shape);
      CeilAxisWidths(plan.pad.value.z0, plan.pad.value.z1, shape.z);
    case PadAsymmetricZ =>
      CeilAxisWidths(plan.pad.value.z0, plan.pad.value.z1, shape.z);
    case PadAsymmetricZYX =>
      var pw := plan.pad.value;
      CeilAxisWidths(pw.z0, pw.z1, shape.z);
      QuirkYAxisWidths(pw.y0, pw.y1, shape.y, padSize[1] - shape.y);
      CeilAxisWidths(pw.x0, pw.x1, shape.x);
    case _ =>
  }
}

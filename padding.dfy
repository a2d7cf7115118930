/** `zero_pad` and the slicing of 3D volumes that `center_fft` performs.

    All resizing in `center_fft` is one shape of operation: take a box of the
    source volume and place it, shifted by the leading pad widths, inside a new
    volume whose other cells hold a fill value (0 for data, 1 for masks).
    `Embeds` states that shape; `ZeroPad` and `Crop` establish it and the lemmas
    compose and invert it. */
module Padding {
  import opened Common

  datatype Triple = Triple(z: int, y: int, x: int)

  /** `pad_width = [z0, z1, y0, y1, x0, x1]`: cells added before and after each axis. */
  datatype PadWidth = PadWidth(z0: int, z1: int, y0: int, y1: int, x0: int, x1: int) {
    predicate NonNegative() {
      z0 >= 0 && z1 >= 0 && y0 >= 0 && y1 >= 0 && x0 >= 0 && x1 >= 0
    }

    function Leading(): Triple {
      Triple(z0, y0, x0)
    }
  }

  const NoPad := PadWidth(0, 0, 0, 0, 0, 0)

  const Origin := Triple(0, 0, 0)

  function Shape(a: array3<real>): Triple {
    Triple(a.Length0, a.Length1, a.Length2)
  }

  /** The padding value of `zero_pad`: 1 when `mask_flag` is set, else 0. */
  function Fill(maskFlag: bool): real {
    if maskFlag then 1.0 else 0.0
  }

  /** The box [lo, lo + size) lies inside a volume of the given shape. */
  predicate BoxInside(lo: Triple, size: Triple, shape: Triple) {
    && 0 <= lo.z && 0 <= size.z && lo.z + size.z <= shape.z
    && 0 <= lo.y && 0 <= size.y && lo.y + size.y <= shape.y
    && 0 <= lo.x && 0 <= size.x && lo.x + size.x <= shape.x
  }

  /** The output shape after padding a box of the given size. */
  function PaddedShape(size: Triple, pw: PadWidth): Triple {
    Triple(pw.z0 + size.z + pw.z1, pw.y0 + size.y + pw.y1, pw.x0 + size.x + pw.x1)
  }

  /** Whether an output cell lies in the copied region rather than the padding. */
  predicate InCopiedRegion(z: int, y: int, x: int, size: Triple, pw: PadWidth) {
    pw.z0 <= z < pw.z0 + size.z && pw.y0 <= y < pw.y0 + size.y && pw.x0 <= x < pw.x0 + size.x
  }

  /** out is the box [lo, lo + size) of src, shifted by pw's leading widths and
      surrounded by fill. */
  ghost predicate Embeds(out: array3<real>, src: array3<real>, lo: Triple, size: Triple, pw: PadWidth, fill: real)
    reads out, src
  {
    && pw.NonNegative()
    && BoxInside(lo, size, Shape(src))
    && Shape(out) == PaddedShape(size, pw)
    && forall z, y, x :: 0 <= z < out.Length0 && 0 <= y < out.Length1 && 0 <= x < out.Length2 ==>
         out[z, y, x] == if InCopiedRegion(z, y, x, size, pw)
                         then src[lo.z + z - pw.z0, lo.y + y - pw.y0, lo.x + x - pw.x0]
                         else fill
  }

  /** `zero_pad(array, padding_width, mask_flag)`: a new volume filled with 0 (or
      1 for masks) into which the array is copied at the leading widths. */
  method ZeroPad(a: array3<real>, pw: PadWidth, maskFlag: bool) returns (b: array3<real>)
    requires pw.NonNegative()
    ensures fresh(b)
    ensures Embeds(b, a, Origin, Shape(a), pw, Fill(maskFlag))
  {
    var fill := Fill(maskFlag);
    b := new real[pw.z0 + a.Length0 + pw.z1, pw.y0 + a.Length1 + pw.y1, pw.x0 + a.Length2 + pw.x1]
      ((z, y, x) => fill);
    assert forall z, y, x :: 0 <= z < b.Length0 && 0 <= y < b.Length1 && 0 <= x < b.Length2 ==> b[z, y, x] == fill;
    forall z, y, x | pw.z0 <= z < pw.z0 + a.Length0 && pw.y0 <= y < pw.y0 + a.Length1 &&
                     pw.x0 <= x < pw.x0 + a.Length2 {
      b[z, y, x] := a[z - pw.z0, y - pw.y0, x - pw.x0];
    }
    PadEmbeds(b, a, pw, fill);
  }

  /** A volume holding a at the leading widths and fill elsewhere embeds a. */
  lemma PadEmbeds(b: array3<real>, a: array3<real>, pw: PadWidth, fill: real)
    requires pw.NonNegative() && Shape(b) == PaddedShape(Shape(a), pw)
    requires forall z, y, x :: 0 <= z < b.Length0 && 0 <= y < b.Length1 && 0 <= x < b.Length2 ==>
      b[z, y, x] == if InCopiedRegion(z, y, x, Shape(a), pw) then a[z - pw.z0, y - pw.y0, x - pw.x0] else fill
    ensures Embeds(b, a, Origin, Shape(a), pw, fill)
  {
  }

  /** How long the Python slice `lo:hi` is on an axis of length n. */
  function SliceLength(lo: int, hi: int, n: nat): (len: nat)
    ensures SliceBound(lo, n) + len <= n
    ensures 0 <= lo <= hi <= n ==> len == hi - lo
  {
    SliceStop(lo, hi, n) - SliceBound(lo, n)
  }

  function SliceStarts(lo: Triple, shape: Triple): Triple
    requires shape.z >= 0 && shape.y >= 0 && shape.x >= 0
  {
    Triple(SliceBound(lo.z, shape.z), SliceBound(lo.y, shape.y), SliceBound(lo.x, shape.x))
  }

  function SliceLengths(lo: Triple, hi: Triple, shape: Triple): Triple
    requires shape.z >= 0 && shape.y >= 0 && shape.x >= 0
  {
    Triple(SliceLength(lo.z, hi.z, shape.z), SliceLength(lo.y, hi.y, shape.y), SliceLength(lo.x, hi.x, shape.x))
  }

  lemma SliceBoxInside(lo: Triple, hi: Triple, shape: Triple)
    requires shape.z >= 0 && shape.y >= 0 && shape.x >= 0
    ensures BoxInside(SliceStarts(lo, shape), SliceLengths(lo, hi, shape), shape)
  {
  }

  /** `a[lo.z:hi.z, lo.y:hi.y, lo.x:hi.x]` with Python's slice semantics, as a copy. */
  method Crop(a: array3<real>, lo: Triple, hi: Triple) returns (c: array3<real>)
    ensures fresh(c)
    ensures Embeds(c, a, SliceStarts(lo, Shape(a)), SliceLengths(lo, hi, Shape(a)), NoPad, 0.0)
  {
    var start := SliceStarts(lo, Shape(a));
    var size := SliceLengths(lo, hi, Shape(a));
    SliceBoxInside(lo, hi, Shape(a));
    c := new real[size.z, size.y, size.x]((z, y, x) => 0.0);
    forall z, y, x | 0 <= z < size.z && 0 <= y < size.y && 0 <= x < size.x {
      c[z, y, x] := a[start.z + z, start.y + y, start.x + x];
    }
    CopyEmbeds(c, a, start, size);
  }

  /** A plain copy of the box [lo, lo + size) embeds it with no padding. */
  lemma CopyEmbeds(c: array3<real>, a: array3<real>, lo: Triple, size: Triple)
    requires BoxInside(lo, size, Shape(a)) && Shape(c) == size
    requires forall z, y, x :: 0 <= z < size.z && 0 <= y < size.y && 0 <= x < size.x ==>
      c[z, y, x] == a[lo.z + z, lo.y + y, lo.x + x]
    ensures Embeds(c, a, lo, size, NoPad, 0.0)
  {
    assert PaddedShape(size, NoPad) == size;
    forall z, y, x | 0 <= z < c.Length0 && 0 <= y < c.Length1 && 0 <= x < c.Length2
      ensures InCopiedRegion(z, y, x, size, NoPad)
    {
    }
  }

  /** With zero pad widths there is no padding, so the fill value is immaterial. */
  lemma EmbedsAnyFill(c: array3<real>, a: array3<real>, lo: Triple, size: Triple, fill: real, other: real)
    requires Embeds(c, a, lo, size, NoPad, fill)
    ensures Embeds(c, a, lo, size, NoPad, other)
  {
    forall z, y, x | 0 <= z < c.Length0 && 0 <= y < c.Length1 && 0 <= x < c.Length2
      ensures InCopiedRegion(z, y, x, size, NoPad)
    {
    }
  }

  /** Cropping and then padding is one embedding of the cropped box. */
  lemma CropThenPad(b: array3<real>, c: array3<real>, a: array3<real>, lo: Triple, size: Triple,
                    pw: PadWidth, fill: real, unused: real)
    requires Embeds(c, a, lo, size, NoPad, unused)
    requires Embeds(b, c, Origin, Shape(c), pw, fill)
    ensures Embeds(b, a, lo, size, pw, fill)
  {
  }

  /** Cutting the leading widths back off a padded volume gives the original. */
  lemma CropUndoesPad(b: array3<real>, a: array3<real>, c: array3<real>, pw: PadWidth, fill: real, unused: real)
    requires Embeds(b, a, Origin, Shape(a), pw, fill)
    requires Embeds(c, b, pw.Leading(), Shape(a), NoPad, unused)
    ensures Shape(c) == Shape(a)
    ensures forall z, y, x :: 0 <= z < a.Length0 && 0 <= y < a.Length1 && 0 <= x < a.Length2 ==>
              c[z, y, x] == a[z, y, x]
  {
    forall z, y, x | 0 <= z < a.Length0 && 0 <= y < a.Length1 && 0 <= x < a.Length2
      ensures c[z, y, x] == a[z, y, x]
    {
      assert c[z, y, x] == b[pw.z0 + z, pw.y0 + y, pw.x0 + x];
      assert InCopiedRegion(pw.z0 + z, pw.y0 + y, pw.x0 + x, Shape(a), pw);
    }
  }

  /** Every cell of a padded volume outside the copied region holds the fill value. */
  lemma PaddingIsFill(b: array3<real>, a: array3<real>, lo: Triple, size: Triple, pw: PadWidth, fill: real,
                      z: int, y: int, x: int)
    requires Embeds(b, a, lo, size, pw, fill)
    requires 0 <= z < b.Length0 && 0 <= y < b.Length1 && 0 <= x < b.Length2
    requires z < pw.z0 || z >= pw.z0 + size.z || y < pw.y0 || y >= pw.y0 + size.y || x < pw.x0 || x >= pw.x0 + size.x
    ensures b[z, y, x] == fill
  {
  }

  /** Padding with zero widths is a copy. */
  lemma NoPadIsCopy(b: array3<real>, a: array3<real>, fill: real)
    requires Embeds(b, a, Origin, Shape(a), NoPad, fill)
    ensures Shape(b) == Shape(a)
    ensures forall z, y, x :: 0 <= z < a.Length0 && 0 <= y < a.Length1 && 0 <= x < a.Length2 ==>
              b[z, y, x] == a[z, y, x]
  {
    forall z, y, x | 0 <= z < a.Length0 && 0 <= y < a.Length1 && 0 <= x < a.Length2
      ensures b[z, y, x] == a[z, y, x]
    {
      assert InCopiedRegion(z, y, x, Shape(a), NoPad);
    }
  }
}

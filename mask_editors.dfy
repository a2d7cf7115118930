/** The keyboard handlers of the interactive masking tools: `update_aliens`
    (3D), `update_aliens_2d`, `update_mask` (3D data, 2D projected mask) and
    `update_mask_2d`. Each is a class whose fields are the state the handler
    receives and returns; `HandleKey` is one call of the handler with the
    plotting removed. */
module MaskEditors {
  import opened Common

  // ---------------------------------------------------------------------------
  // Control arithmetic shared by the handlers

  /** `down`: the brush half-width shrinks by one but never below 0. */
  function Narrow(width: int): (w: int)
    ensures w >= 0
    ensures width >= 1 ==> w == width - 1
    ensures width < 1 ==> w == 0
  {
    if width - 1 < 0 then 0 else width - 1
  }

  /** `down` undoes `up` on any valid width. */
  lemma NarrowUndoesWiden(width: int)
    requires width >= 0
    ensures Narrow(width + 1) == width
  {
  }

  /** `u`: the next frame, wrapping after the last one. */
  function NextFrame(idx: int, n: int): (j: int)
    ensures 0 <= idx < n ==> 0 <= j < n && j == (idx + 1) % n
  {
    if idx + 1 > n - 1 then 0 else idx + 1
  }

  /** `d`: the previous frame, wrapping before the first one. */
  function PreviousFrame(idx: int, n: int): (j: int)
    ensures 0 <= idx < n ==> 0 <= j < n && j == (idx - 1) % n
  {
    if idx - 1 < 0 then n - 1 else idx - 1
  }

  /** On a valid frame index `u` and `d` undo each other. */
  lemma FramesInverse(idx: int, n: int)
    requires 0 <= idx < n
    ensures PreviousFrame(NextFrame(idx, n), n) == idx
    ensures NextFrame(PreviousFrame(idx, n), n) == idx
  {
  }

  /** Python indexing of an axis of length n by an int: negative indices count
      from the end, anything outside [-n, n) raises IndexError. */
  function AxisIndex(i: int, n: nat): (k: Option<nat>)
    ensures k.Some? <==> -(n as int) <= i < n
    ensures k.Some? ==> k.value < n && (k.value == i || k.value == i + n)
  {
    if -(n as int) <= i < 0 then Some(i + n) else if 0 <= i < n then Some(i) else None
  }

  /** The brush slice `start:p + width + 1` with `start = 0 if p - width < 0
      else p - width`, on an axis of length n. */
  function BrushStart(p: int, width: int): int {
    if p - width < 0 then 0 else p - width
  }

  function BrushLo(p: int, width: int, n: nat): nat {
    SliceBound(BrushStart(p, width), n)
  }

  function BrushHi(p: int, width: int, n: nat): nat {
    SliceStop(BrushStart(p, width), p + width + 1, n)
  }

  /** With the pointer on the axis the brush is the clamped window
      [max(0, p - width), min(n, p + width + 1)), which holds the pointer. */
  lemma BrushAroundPointer(p: int, width: int, n: nat)
    requires 0 <= p < n && 0 <= width
    ensures BrushLo(p, width, n) == Max(0, p - width)
    ensures BrushHi(p, width, n) == Min(n, p + width + 1)
    ensures BrushLo(p, width, n) <= p < BrushHi(p, width, n)
  {
  }

  /** A rectangle of a 2D array: rows r0..r1, columns c0..c1. */
  datatype Brush = Brush(r0: nat, r1: nat, c0: nat, c1: nat)

  predicate InBrush(b: Brush, r: int, c: int) {
    b.r0 <= r < b.r1 && b.c0 <= c < b.c1
  }

  /** The brush around the pointer (pix is the column, piy the row). */
  function BrushAt(pix: int, piy: int, width: int, rows: nat, cols: nat): (b: Brush)
    ensures b.r1 <= rows && b.c1 <= cols
  {
    Brush(BrushLo(piy, width, rows), BrushHi(piy, width, rows), BrushLo(pix, width, cols), BrushHi(pix, width, cols))
  }

  /** A box of a 3D array. */
  datatype Box = Box(z0: nat, z1: nat, y0: nat, y1: nat, x0: nat, x1: nat)

  predicate InBox(b: Box, z: int, y: int, x: int) {
    b.z0 <= z < b.z1 && b.y0 <= y < b.y1 && b.x0 <= x < b.x1
  }

  /** The length of axis `dim` of a volume (axis 2 for anything but 0 and 1). */
  function Extent(a: array3<real>, dim: int): nat {
    if dim == 0 then a.Length0 else if dim == 1 then a.Length1 else a.Length2
  }

  /** The brush in frame k of the axis `dim`: the pointer row runs along the
      first remaining axis and the pointer column along the second. */
  function FrameBrush(dim: int, k: nat, pix: int, piy: int, width: int, a: array3<real>): (b: Box)
    requires 0 <= dim <= 2 && k < Extent(a, dim)
    ensures b.z1 <= a.Length0 && b.y1 <= a.Length1 && b.x1 <= a.Length2
  {
    if dim == 0 then
      Box(k, k + 1, BrushLo(piy, width, a.Length1), BrushHi(piy, width, a.Length1),
          BrushLo(pix, width, a.Length2), BrushHi(pix, width, a.Length2))
    else if dim == 1 then
      Box(BrushLo(piy, width, a.Length0), BrushHi(piy, width, a.Length0), k, k + 1,
          BrushLo(pix, width, a.Length2), BrushHi(pix, width, a.Length2))
    else
      Box(BrushLo(piy, width, a.Length0), BrushHi(piy, width, a.Length0),
          BrushLo(pix, width, a.Length1), BrushHi(pix, width, a.Length1), k, k + 1)
  }

  /** The frame shown after `u` or `d`: the wrap only applies on axes 0-2. */
  function Moved(key: string, dim: int, n: nat, idx: int): int {
    if key == "u" then (if 0 <= dim then NextFrame(idx, n) else idx + 1)
    else (if 0 <= dim then PreviousFrame(idx, n) else idx - 1)
  }

  /** The frame index a key displays or edits is outside the axis. */
  predicate FrameFails(key: string, dim: int, n: nat, idx: int) {
    ((key == "u" || key == "d") && AxisIndex(Moved(key, dim, n, idx), n).None?) ||
    ((key == "m" || key == "b" || key == "right" || key == "left") && AxisIndex(idx, n).None?)
  }

  /** The width after `up` / `down`; other keys keep it. */
  function NewWidth(key: string, width: int): int {
    if key == "up" then width + 1 else if key == "down" then Narrow(width) else width
  }

  predicate SameShape3(a: array3<real>, b: array3<real>) {
    a.Length0 == b.Length0 && a.Length1 == b.Length1 && a.Length2 == b.Length2
  }

  predicate SameShape2(a: array2<real>, b: array2<real>) {
    a.Length0 == b.Length0 && a.Length1 == b.Length1
  }

  // ---------------------------------------------------------------------------
  // update_aliens

  /** `update_aliens`: browse the frames of one axis of a volume and erase a
      square brush (data 0, mask 1) or restore it from the original data
      (mask 0). */
  class AlienEditor3D {
    const original: array3<real>
    const data: array3<real>
    const mask: array3<real>
    const dim: int
    var width: int
    var idx: int
    var stop: bool

    ghost predicate Valid()
      reads this
    {
      original != data && original != mask && data != mask &&
      SameShape3(original, data) && SameShape3(data, mask)
    }

    constructor (original: array3<real>, data: array3<real>, mask: array3<real>, dim: int, width: int, idx: int)
      requires original != data && original != mask && data != mask
      requires SameShape3(original, data) && SameShape3(data, mask)
      ensures Valid()
      ensures this.original == original && this.data == data && this.mask == mask && this.dim == dim
      ensures this.width == width && this.idx == idx && !stop
    {
      this.original := original;
      this.data := data;
      this.mask := mask;
      this.dim := dim;
      this.width := width;
      this.idx := idx;
      stop := false;
    }

    /** `m`: zero the data and set the mask in the box. */
    method Erase(b: Box)
      requires Valid() && b.z1 <= data.Length0 && b.y1 <= data.Length1 && b.x1 <= data.Length2
      modifies data, mask
      ensures forall z, y, x :: 0 <= z < data.Length0 && 0 <= y < data.Length1 && 0 <= x < data.Length2 ==>
        && data[z, y, x] == (if InBox(b, z, y, x) then 0.0 else old(data[z, y, x]))
        && mask[z, y, x] == (if InBox(b, z, y, x) then 1.0 else old(mask[z, y, x]))
    {
      forall z, y, x | b.z0 <= z < b.z1 && b.y0 <= y < b.y1 && b.x0 <= x < b.x1 {
        data[z, y, x] := 0.0;
      }
      forall z, y, x | b.z0 <= z < b.z1 && b.y0 <= y < b.y1 && b.x0 <= x < b.x1 {
        mask[z, y, x] := 1.0;
      }
    }

    /** `b`: copy the original data back and clear the mask in the box. */
    method Restore(b: Box)
      requires Valid() && b.z1 <= data.Length0 && b.y1 <= data.Length1 && b.x1 <= data.Length2
      modifies data, mask
      ensures forall z, y, x :: 0 <= z < data.Length0 && 0 <= y < data.Length1 && 0 <= x < data.Length2 ==>
        && data[z, y, x] == (if InBox(b, z, y, x) then original[z, y, x] else old(data[z, y, x]))
        && mask[z, y, x] == (if InBox(b, z, y, x) then 0.0 else old(mask[z, y, x]))
    {
      forall z, y, x | b.z0 <= z < b.z1 && b.y0 <= y < b.y1 && b.x0 <= x < b.x1 {
        data[z, y, x] := original[z, y, x];
      }
      forall z, y, x | b.z0 <= z < b.z1 && b.y0 <= y < b.y1 && b.x0 <= x < b.x1 {
        mask[z, y, x] := 0.0;
      }
    }

    /** One call of the handler. A raised error leaves every piece of state as it was. */
    method HandleKey(key: string, pix: int, piy: int) returns (err: Option<Error>)
      requires Valid()
      modifies this, data, mask
      ensures Valid()
      ensures err == None || err == Some(ValueError) || err == Some(IndexError)
      ensures err == Some(ValueError) <==> dim > 2
      ensures err == Some(IndexError) <==> 0 <= dim <= 2 && FrameFails(key, dim, Extent(data, dim), old(idx))
      ensures err.Some? ==> unchanged(this) && unchanged(data) && unchanged(mask)
      ensures err.None? ==>
        && stop == (key == "q")
        && width == NewWidth(key, old(width))
        && idx == (if key == "u" || key == "d" then Moved(key, dim, Extent(data, dim), old(idx)) else old(idx))
      ensures err.None? && 0 <= dim && key == "m" ==>
        var b := FrameBrush(dim, AxisIndex(old(idx), Extent(data, dim)).value, pix, piy, old(width), data);
        forall z, y, x :: 0 <= z < data.Length0 && 0 <= y < data.Length1 && 0 <= x < data.Length2 ==>
          && data[z, y, x] == (if InBox(b, z, y, x) then 0.0 else old(data[z, y, x]))
          && mask[z, y, x] == (if InBox(b, z, y, x) then 1.0 else old(mask[z, y, x]))
      ensures err.None? && 0 <= dim && key == "b" ==>
        var b := FrameBrush(dim, AxisIndex(old(idx), Extent(data, dim)).value, pix, piy, old(width), data);
        forall z, y, x :: 0 <= z < data.Length0 && 0 <= y < data.Length1 && 0 <= x < data.Length2 ==>
          && data[z, y, x] == (if InBox(b, z, y, x) then original[z, y, x] else old(data[z, y, x]))
          && mask[z, y, x] == (if InBox(b, z, y, x) then 0.0 else old(mask[z, y, x]))
      ensures !(0 <= dim && (key == "m" || key == "b")) ==> unchanged(data) && unchanged(mask)
    {
      if dim > 2 {
        return Some(ValueError);
      }
      var n := Extent(data, dim);
      if key == "u" || key == "d" {
        var j := Moved(key, dim, n, idx);
        if 0 <= dim && AxisIndex(j, n).None? {
          return Some(IndexError);
        }
        idx := j;
      } else if key == "up" || key == "down" {
        width := NewWidth(key, width);
      } else if key == "m" || key == "b" || key == "right" || key == "left" {
        if 0 <= dim {
          var k := AxisIndex(idx, n);
          if k.None? {
            return Some(IndexError);
          }
          if key == "m" {
            Erase(FrameBrush(dim, k.value, pix, piy, width, data));
          } else if key == "b" {
            Restore(FrameBrush(dim, k.value, pix, piy, width, data));
          }
        }
      }
      stop := key == "q";
      return None;
    }
  }

  // ---------------------------------------------------------------------------
  // update_aliens_2d

  /** `update_aliens_2d`: the same brush on a single 2D frame. */
  class AlienEditor2D {
    const original: array2<real>
    const data: array2<real>
    const mask: array2<real>
    var width: int
    var stop: bool

    ghost predicate Valid()
      reads this
    {
      original != data && original != mask && data != mask &&
      SameShape2(original, data) && SameShape2(data, mask)
    }

    constructor (original: array2<real>, data: array2<real>, mask: array2<real>, width: int)
      requires original != data && original != mask && data != mask
      requires SameShape2(original, data) && SameShape2(data, mask)
      ensures Valid()
      ensures this.original == original && this.data == data && this.mask == mask
      ensures this.width == width && !stop
    {
      this.original := original;
      this.data := data;
      this.mask := mask;
      this.width := width;
      stop := false;
    }

    method HandleKey(key: string, pix: int, piy: int)
      requires Valid()
      modifies this, data, mask
      ensures Valid()
      ensures stop == (key == "q") && width == NewWidth(key, old(width))
      ensures key == "m" ==>
        var b := BrushAt(pix, piy, old(width), data.Length0, data.Length1);
        forall r, c :: 0 <= r < data.Length0 && 0 <= c < data.Length1 ==>
          && data[r, c] == (if InBrush(b, r, c) then 0.0 else old(data[r, c]))
          && mask[r, c] == (if InBrush(b, r, c) then 1.0 else old(mask[r, c]))
      ensures key == "b" ==>
        var b := BrushAt(pix, piy, old(width), data.Length0, data.Length1);
        forall r, c :: 0 <= r < data.Length0 && 0 <= c < data.Length1 ==>
          && data[r, c] == (if InBrush(b, r, c) then original[r, c] else old(data[r, c]))
          && mask[r, c] == (if InBrush(b, r, c) then 0.0 else old(mask[r, c]))
      ensures key != "m" && key != "b" ==> unchanged(data) && unchanged(mask)
    {
      var b := BrushAt(pix, piy, width, data.Length0, data.Length1);
      if key == "m" {
        forall r, c | b.r0 <= r < b.r1 && b.c0 <= c < b.c1 {
          data[r, c] := 0.0;
        }
        forall r, c | b.r0 <= r < b.r1 && b.c0 <= c < b.c1 {
          mask[r, c] := 1.0;
        }
      } else if key == "b" {
        forall r, c | b.r0 <= r < b.r1 && b.c0 <= c < b.c1 {
          data[r, c] := original[r, c];
        }
        forall r, c | b.r0 <= r < b.r1 && b.c0 <= c < b.c1 {
          mask[r, c] := 0.0;
        }
      }
      width := NewWidth(key, width);
      stop := key == "q";
    }
  }

  // ---------------------------------------------------------------------------
  // update_mask and update_mask_2d

  /** A polygon vertex clicked by the user (x, y). */
  type Vertex = (real, real)

  /** The polygon closed by repeating its first vertex, as the `p` key does. */
  function Closed(xy: seq<Vertex>): (poly: seq<Vertex>)
    requires |xy| > 0
    ensures |poly| == |xy| + 1 && poly[..|xy|] == xy && poly[|xy|] == poly[0]
  {
    xy + [xy[0]]
  }

  /** The pause flag after `x`; other keys keep it. */
  function NewPause(key: string, pause: bool): bool {
    if key == "x" then !pause else pause
  }

  /** The vertex list after a key: `a` and `p` start a new polygon. */
  function NewVertices(key: string, xy: seq<Vertex>): seq<Vertex> {
    if key == "a" || key == "p" then [] else xy
  }

  /** The 2D mask value at (r, c) after `m`, `b` or `p` (any other key keeps
      it). `contains` is the point-in-polygon test, applied to column c and
      row r. */
  function NewMask(key: string, before: real, b: Brush, xy: seq<Vertex>,
                   contains: (seq<Vertex>, int, int) -> bool, r: int, c: int): real
  {
    if key == "m" && InBrush(b, r, c) then 1.0
    else if key == "b" && InBrush(b, r, c) then 0.0
    else if key == "p" && |xy| != 0 && contains(Closed(xy), c, r) then 1.0
    else before
  }
  /** `m`, `b` and `p` on a 2D mask, shared by both mask editors: `m` sets and
      `b` clears the brush rectangle around the pointer, and `p` sets the
      pixels inside the closed polygon. */
  method DrawMask(mask: array2<real>, key: string, pix: int, piy: int, width: int, xy: seq<Vertex>,
                  contains: (seq<Vertex>, int, int) -> bool)
    modifies mask
    ensures forall r, c :: 0 <= r < mask.Length0 && 0 <= c < mask.Length1 ==>
      mask[r, c] == NewMask(key, old(mask[r, c]), BrushAt(pix, piy, width, mask.Length0, mask.Length1), xy, contains, r, c)
  {
    var b := BrushAt(pix, piy, width, mask.Length0, mask.Length1);
    if key == "m" {
      forall r, c | b.r0 <= r < b.r1 && b.c0 <= c < b.c1 {
        mask[r, c] := 1.0;
      }
    } else if key == "b" {
      forall r, c | b.r0 <= r < b.r1 && b.c0 <= c < b.c1 {
        mask[r, c] := 0.0;
      }
    } else if key == "p" && |xy| != 0 {
      var poly := Closed(xy);
      forall r, c | 0 <= r < mask.Length0 && 0 <= c < mask.Length1 && contains(poly, c, r) {
        mask[r, c] := 1.0;
      }
    }
  }


  /** Rows and columns of the projection of a volume along `dim`. */
  function ProjRows(a: array3<real>, dim: int): nat {
    if dim == 0 then a.Length1 else a.Length0
  }

  function ProjCols(a: array3<real>, dim: int): nat {
    if dim == 2 then a.Length1 else a.Length2
  }

  /** `update_mask`: the mask is drawn on the projection of the volume along
      `dim` (with a brush or a polygon); `a` restarts from the original data. */
  class MaskEditor3D {
    const original: array3<real>
    const originalMask: array3<real>
    const dim: int
    const maskedColor: real
    var data: array3<real>
    var mask: array2<real>
    var pause: bool
    var xy: seq<Vertex>
    var width: int
    var stop: bool

    ghost predicate Valid()
      reads this
    {
      SameShape3(original, originalMask) && SameShape3(original, data) &&
      (0 <= dim <= 2 ==> mask.Length0 == ProjRows(original, dim) && mask.Length1 == ProjCols(original, dim))
    }

    constructor (original: array3<real>, originalMask: array3<real>, data: array3<real>, mask: array2<real>,
                 dim: int, maskedColor: real, pause: bool, xy: seq<Vertex>, width: int)
      requires SameShape3(original, originalMask) && SameShape3(original, data)
      requires 0 <= dim <= 2 ==> mask.Length0 == ProjRows(original, dim) && mask.Length1 == ProjCols(original, dim)
      ensures Valid()
      ensures this.original == original && this.originalMask == originalMask && this.data == data && this.mask == mask
      ensures this.dim == dim && this.maskedColor == maskedColor && this.pause == pause && this.xy == xy
      ensures this.width == width && !stop
    {
      this.original := original;
      this.originalMask := originalMask;
      this.data := data;
      this.mask := mask;
      this.dim := dim;
      this.maskedColor := maskedColor;
      this.pause := pause;
      this.xy := xy;
      this.width := width;
      stop := false;
    }

    /** `a`: a fresh copy of the original data in which the originally masked
        voxels show `masked_color / n` (n the length of axis `dim`), and a
        fresh all-zero projected mask. */
    method Restart()
      requires Valid() && 0 <= dim <= 2 && Extent(original, dim) > 0
      modifies this
      ensures Valid()
      ensures fresh(data) && fresh(mask)
      ensures SameShape3(data, original)
      ensures forall z, y, x :: 0 <= z < data.Length0 && 0 <= y < data.Length1 && 0 <= x < data.Length2 ==>
        data[z, y, x] == (if originalMask[z, y, x] == 1.0 then maskedColor / Extent(original, dim) as real
                          else original[z, y, x])
      ensures forall r, c :: 0 <= r < mask.Length0 && 0 <= c < mask.Length1 ==> mask[r, c] == 0.0
      ensures pause == old(pause) && xy == old(xy) && width == old(width) && stop == old(stop)
    {
      var shown := maskedColor / Extent(original, dim) as real;
      var d := new real[original.Length0, original.Length1, original.Length2];
      forall z, y, x | 0 <= z < d.Length0 && 0 <= y < d.Length1 && 0 <= x < d.Length2 {
        d[z, y, x] := if originalMask[z, y, x] == 1.0 then shown else original[z, y, x];
      }
      data := d;
      mask := new real[ProjRows(original, dim), ProjCols(original, dim)]((r, c) => 0.0);
    }

    /** `m`, `b` and `p` on the projected mask. */
    method Draw(key: string, pix: int, piy: int, contains: (seq<Vertex>, int, int) -> bool)
      requires Valid()
      modifies mask
      ensures forall r, c :: 0 <= r < mask.Length0 && 0 <= c < mask.Length1 ==>
        mask[r, c] == NewMask(key, old(mask[r, c]), BrushAt(pix, piy, width, mask.Length0, mask.Length1), xy, contains, r, c)
    {
      DrawMask(mask, key, pix, piy, width, xy, contains);
    }

    /** One call of the handler. A raised error leaves every piece of state as it was. */
    method HandleKey(key: string, pix: int, piy: int, contains: (seq<Vertex>, int, int) -> bool)
      returns (err: Option<Error>)
      requires Valid()
      modifies this, data, mask
      ensures Valid()
      ensures err == None || err == Some(ValueError) || err == Some(ZeroDivisionError)
      ensures err == Some(ValueError) <==> !(0 <= dim <= 2)
      ensures err == Some(ZeroDivisionError) <==> 0 <= dim <= 2 && key == "a" && Extent(original, dim) == 0
      ensures err.Some? ==> unchanged(this) && unchanged(data) && unchanged(mask)
      ensures err.None? ==>
        && stop == (key == "q")
        && width == NewWidth(key, old(width))
        && pause == NewPause(key, old(pause))
        && xy == NewVertices(key, old(xy))
      ensures err.None? && key == "a" ==> unchanged(old(data)) && unchanged(old(mask))
      ensures err.None? && key == "a" ==>
        && fresh(data) && fresh(mask)
        && (forall z, y, x :: 0 <= z < data.Length0 && 0 <= y < data.Length1 && 0 <= x < data.Length2 ==>
              data[z, y, x] == (if originalMask[z, y, x] == 1.0 then maskedColor / Extent(original, dim) as real
                                else original[z, y, x]))
        && (forall r, c :: 0 <= r < mask.Length0 && 0 <= c < mask.Length1 ==> mask[r, c] == 0.0)
      ensures err.None? && key != "a" ==>
        && data == old(data) && mask == old(mask) && unchanged(data)
        && forall r, c :: 0 <= r < mask.Length0 && 0 <= c < mask.Length1 ==>
             mask[r, c] == NewMask(key, old(mask[r, c]), BrushAt(pix, piy, old(width), mask.Length0, mask.Length1),
                                   old(xy), contains, r, c)
    {
      if !(0 <= dim <= 2) {
        return Some(ValueError);
      }
      if key == "a" {
        if Extent(original, dim) == 0 {
          return Some(ZeroDivisionError);
        }
        Restart();
      } else {
        Draw(key, pix, piy, contains);
      }
      width := NewWidth(key, width);
      pause := NewPause(key, pause);
      xy := NewVertices(key, xy);
      stop := key == "q";
      return None;
    }
  }

  /** `update_mask_2d`: the mask is drawn on the frame itself, and after most
      keys every masked pixel of the data shows `masked_color`. */
  class MaskEditor2D {
    const original: array2<real>
    const originalMask: array2<real>
    const maskedColor: real
    var data: array2<real>
    var mask: array2<real>
    var pause: bool
    var xy: seq<Vertex>
    var width: int
    var stop: bool

    ghost predicate Valid()
      reads this
    {
      data != mask && data != original && data != originalMask && mask != original && mask != originalMask &&
      SameShape2(original, originalMask) && SameShape2(original, data) && SameShape2(data, mask)
    }

    constructor (original: array2<real>, originalMask: array2<real>, data: array2<real>, mask: array2<real>,
                 maskedColor: real, pause: bool, xy: seq<Vertex>, width: int)
      requires data != mask && data != original && data != originalMask && mask != original && mask != originalMask
      requires SameShape2(original, originalMask) && SameShape2(original, data) && SameShape2(data, mask)
      ensures Valid()
      ensures this.original == original && this.originalMask == originalMask && this.data == data && this.mask == mask
      ensures this.maskedColor == maskedColor && this.pause == pause && this.xy == xy && this.width == width && !stop
    {
      this.original := original;
      this.originalMask := originalMask;
      this.data := data;
      this.mask := mask;
      this.maskedColor := maskedColor;
      this.pause := pause;
      this.xy := xy;
      this.width := width;
      stop := false;
    }

    /** `updated_data[updated_mask == 1] = masked_color`. */
    method Shade()
      requires Valid()
      modifies data
      ensures forall r, c :: 0 <= r < data.Length0 && 0 <= c < data.Length1 ==>
        data[r, c] == (if mask[r, c] == 1.0 then maskedColor else old(data[r, c]))
    {
      forall r, c | 0 <= r < data.Length0 && 0 <= c < data.Length1 && mask[r, c] == 1.0 {
        data[r, c] := maskedColor;
      }
    }

    /** `m`, `b` and `p` on the mask. */
    method Draw(key: string, pix: int, piy: int, contains: (seq<Vertex>, int, int) -> bool)
      requires Valid()
      modifies mask
      ensures forall r, c :: 0 <= r < mask.Length0 && 0 <= c < mask.Length1 ==>
        mask[r, c] == NewMask(key, old(mask[r, c]), BrushAt(pix, piy, width, mask.Length0, mask.Length1), xy, contains, r, c)
    {
      DrawMask(mask, key, pix, piy, width, xy, contains);
    }

    /** `a`: a fresh copy of the original data in which the originally masked
        pixels show `masked_color`, and a fresh all-zero mask. */
    method Restart()
      requires Valid()
      modifies this
      ensures Valid()
      ensures fresh(data) && fresh(mask)
      ensures forall r, c :: 0 <= r < data.Length0 && 0 <= c < data.Length1 ==>
        data[r, c] == (if originalMask[r, c] == 1.0 then maskedColor else original[r, c])
      ensures forall r, c :: 0 <= r < mask.Length0 && 0 <= c < mask.Length1 ==> mask[r, c] == 0.0
      ensures pause == old(pause) && xy == old(xy) && width == old(width) && stop == old(stop)
    {
      var d := new real[original.Length0, original.Length1];
      forall r, c | 0 <= r < d.Length0 && 0 <= c < d.Length1 {
        d[r, c] := if originalMask[r, c] == 1.0 then maskedColor else original[r, c];
      }
      data := d;
      mask := new real[original.Length0, original.Length1]((r, c) => 0.0);
    }

    /** The keys after which the masked pixels are shaded. */
    static predicate Shades(key: string) {
      key == "right" || key == "left" || key == "m" || key == "b" || key == "p"
    }

    /** One call of the handler. */
    method HandleKey(key: string, pix: int, piy: int, contains: (seq<Vertex>, int, int) -> bool)
      requires Valid()
      modifies this, data, mask
      ensures Valid()
      ensures stop == (key == "q") && width == NewWidth(key, old(width))
      ensures pause == NewPause(key, old(pause)) && xy == NewVertices(key, old(xy))
      ensures key == "a" ==> unchanged(old(data)) && unchanged(old(mask))
      ensures key == "a" ==>
        && fresh(data) && fresh(mask)
        && (forall r, c :: 0 <= r < data.Length0 && 0 <= c < data.Length1 ==>
              data[r, c] == (if originalMask[r, c] == 1.0 then maskedColor else original[r, c]))
        && (forall r, c :: 0 <= r < mask.Length0 && 0 <= c < mask.Length1 ==> mask[r, c] == 0.0)
      ensures key != "a" ==>
        && data == old(data) && mask == old(mask)
        && forall r, c :: 0 <= r < mask.Length0 && 0 <= c < mask.Length1 ==>
             && mask[r, c] == NewMask(key, old(mask[r, c]), BrushAt(pix, piy, old(width), mask.Length0, mask.Length1),
                                      old(xy), contains, r, c)
             && data[r, c] == (if Shades(key) && mask[r, c] == 1.0 then maskedColor else old(data[r, c]))
    {
      if key == "a" {
        Restart();
      } else {
        Draw(key, pix, piy, contains);
        if Shades(key) {
          Shade();
        }
      }
      width := NewWidth(key, width);
      pause := NewPause(key, pause);
      xy := NewVertices(key, xy);
      stop := key == "q";
    }
  }
}

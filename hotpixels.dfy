/** `remove_hotpixels`: zero the data and set the mask on the pixels whose
    hot-pixel value is exactly 1, in a 2D frame or in every frame of a 3D
    stack. A 3D hot-pixel array is first summed along its first axis. */
module HotPixels {
  import opened Common

  /** The `hotpixels` argument: a 2D map, or a 3D stack of maps. */
  datatype HotMap = Flat(map2: array2<real>) | Stacked(stack: array3<real>)

  /** `hotpixels[0:k, y, x].sum()`. */
  function StackSum(h: array3<real>, y: int, x: int, k: int): real
    requires 0 <= y < h.Length1 && 0 <= x < h.Length2 && 0 <= k <= h.Length0
    reads h
  {
    if k == 0 then 0.0 else StackSum(h, y, x, k - 1) + h[k - 1, y, x]
  }

  /** The number of the first k frames that flag pixel (y, x) with 1. */
  function StackFlags(h: array3<real>, y: int, x: int, k: int): nat
    requires 0 <= y < h.Length1 && 0 <= x < h.Length2 && 0 <= k <= h.Length0
    reads h
  {
    if k == 0 then 0 else StackFlags(h, y, x, k - 1) + (if h[k - 1, y, x] == 1.0 then 1 else 0)
  }

  /** For a stack of 0/1 maps the sum counts the flags, so after summing a
      pixel is hot exactly when one frame flags it; a pixel flagged in two
      frames is left alone. */
  lemma {:induction false} StackSumCountsFlags(h: array3<real>, y: int, x: int, k: int)
    requires 0 <= y < h.Length1 && 0 <= x < h.Length2 && 0 <= k <= h.Length0
    requires forall z :: 0 <= z < h.Length0 ==> h[z, y, x] == 0.0 || h[z, y, x] == 1.0
    ensures StackSum(h, y, x, k) == StackFlags(h, y, x, k) as real
    ensures StackSum(h, y, x, k) == 1.0 <==> StackFlags(h, y, x, k) == 1
  {
    if k > 0 {
      StackSumCountsFlags(h, y, x, k - 1);
    }
  }

  /** `hotpixels.sum(axis=0)`. */
  method SumFrames(h: array3<real>) returns (s: array2<real>)
    ensures fresh(s)
    ensures s.Length0 == h.Length1 && s.Length1 == h.Length2
    ensures forall y, x :: 0 <= y < s.Length0 && 0 <= x < s.Length1 ==> s[y, x] == StackSum(h, y, x, h.Length0)
  {
    s := new real[h.Length1, h.Length2]((y, x) => 0.0);
    var z := 0;
    while z < h.Length0
      invariant 0 <= z <= h.Length0
      invariant forall y, x :: 0 <= y < s.Length0 && 0 <= x < s.Length1 ==> s[y, x] == StackSum(h, y, x, z)
    {
      forall y, x | 0 <= y < s.Length0 && 0 <= x < s.Length1 {
        s[y, x] := s[y, x] + h[z, y, x];
      }
      z := z + 1;
    }
  }

  function Rows(hot: HotMap): nat {
    match hot
    case Flat(m) => m.Length0
    case Stacked(st) => st.Length1
  }

  function Cols(hot: HotMap): nat {
    match hot
    case Flat(m) => m.Length1
    case Stacked(st) => st.Length2
  }

  function HotReads(hot: HotMap): set<object> {
    match hot
    case Flat(m) => {m}
    case Stacked(st) => {st}
  }

  /** Pixel (y, x) is hot: its (summed) value is exactly 1. */
  ghost predicate Hot(hot: HotMap, y: int, x: int)
    requires 0 <= y < Rows(hot) && 0 <= x < Cols(hot)
    reads HotReads(hot)
  {
    match hot
    case Flat(m) => m[y, x] == 1.0
    case Stacked(st) => StackSum(st, y, x, st.Length0) == 1.0
  }

  /** The hot-pixel map as a 2D array. */
  method Summed(hot: HotMap) returns (m: array2<real>)
    ensures m.Length0 == Rows(hot) && m.Length1 == Cols(hot)
    ensures forall y, x :: 0 <= y < m.Length0 && 0 <= x < m.Length1 ==> (m[y, x] == 1.0 <==> Hot(hot, y, x))
    ensures hot.Flat? ==> m == hot.map2
    ensures hot.Stacked? ==> fresh(m)
  {
    match hot
    case Flat(m2) => m := m2;
    case Stacked(st) => m := SumFrames(st);
  }

  /** `remove_hotpixels` on a 2D frame. */
  method RemoveHotpixels2D(data: array2<real>, mask: array2<real>, hot: HotMap) returns (err: Option<Error>)
    requires data != mask && data !in HotReads(hot) && mask !in HotReads(hot)
    modifies data, mask
    ensures data.Length0 != mask.Length0 || data.Length1 != mask.Length1 ==>
      err == Some(ValueError) && unchanged(data) && unchanged(mask)
    ensures (data.Length0 == mask.Length0 && data.Length1 == mask.Length1 &&
             (data.Length0 != Rows(hot) || data.Length1 != Cols(hot))) ==>
      err == Some(ValueError) && unchanged(data) && unchanged(mask)
    ensures data.Length0 == mask.Length0 == Rows(hot) && data.Length1 == mask.Length1 == Cols(hot) ==> err.None?
    ensures err.None? ==>
      && data.Length0 == mask.Length0 == Rows(hot) && data.Length1 == mask.Length1 == Cols(hot)
      && forall y, x :: 0 <= y < data.Length0 && 0 <= x < data.Length1 ==>
           && data[y, x] == (if Hot(hot, y, x) then 0.0 else old(data[y, x]))
           && mask[y, x] == (if Hot(hot, y, x) then 1.0 else old(mask[y, x]))
  {
    var h := Summed(hot);
    if data.Length0 != mask.Length0 || data.Length1 != mask.Length1 {
      return Some(ValueError);
    }
    if data.Length0 != h.Length0 || data.Length1 != h.Length1 {
      return Some(ValueError);
    }
    forall y, x | 0 <= y < data.Length0 && 0 <= x < data.Length1 && h[y, x] == 1.0 {
      data[y, x] := 0.0;
    }
    forall y, x | 0 <= y < mask.Length0 && 0 <= x < mask.Length1 && h[y, x] == 1.0 {
      mask[y, x] := 1.0;
    }
    return None;
  }

  /** `remove_hotpixels` on a 3D stack: every frame is treated alike. */
  method RemoveHotpixels3D(data: array3<real>, mask: array3<real>, hot: HotMap) returns (err: Option<Error>)
    requires data != mask && data !in HotReads(hot) && mask !in HotReads(hot)
    modifies data, mask
    ensures data.Length0 != mask.Length0 || data.Length1 != mask.Length1 || data.Length2 != mask.Length2 ==>
      err == Some(ValueError) && unchanged(data) && unchanged(mask)
    ensures (data.Length0 == mask.Length0 && data.Length1 == mask.Length1 && data.Length2 == mask.Length2 &&
             data.Length0 == 0) ==>
      err == Some(IndexError) && unchanged(data) && unchanged(mask)
    ensures (data.Length0 == mask.Length0 && data.Length1 == mask.Length1 && data.Length2 == mask.Length2 &&
             data.Length0 > 0 && (data.Length1 != Rows(hot) || data.Length2 != Cols(hot))) ==>
      err == Some(ValueError) && unchanged(data) && unchanged(mask)
    ensures (0 < data.Length0 == mask.Length0 && data.Length1 == mask.Length1 == Rows(hot) &&
             data.Length2 == mask.Length2 == Cols(hot)) ==> err.None?
    ensures err.None? ==>
      && 0 < data.Length0 == mask.Length0 && data.Length1 == mask.Length1 == Rows(hot)
      && data.Length2 == mask.Length2 == Cols(hot)
      && forall z, y, x :: 0 <= z < data.Length0 && 0 <= y < data.Length1 && 0 <= x < data.Length2 ==>
           && data[z, y, x] == (if Hot(hot, y, x) then 0.0 else old(data[z, y, x]))
           && mask[z, y, x] == (if Hot(hot, y, x) then 1.0 else old(mask[z, y, x]))
  {
    var h := Summed(hot);
    if data.Length0 != mask.Length0 || data.Length1 != mask.Length1 || data.Length2 != mask.Length2 {
      return Some(ValueError);
    }
    // `data[0, :, :]` of an empty stack raises IndexError
    if data.Length0 == 0 {
      return Some(IndexError);
    }
    if data.Length1 != h.Length0 || data.Length2 != h.Length1 {
      return Some(ValueError);
    }
    var idx := 0;
    while idx < data.Length0
      invariant 0 <= idx <= data.Length0
      invariant forall y, x :: 0 <= y < h.Length0 && 0 <= x < h.Length1 ==> (h[y, x] == 1.0 <==> Hot(hot, y, x))
      invariant forall z, y, x :: 0 <= z < data.Length0 && 0 <= y < data.Length1 && 0 <= x < data.Length2 ==>
        data[z, y, x] == (if z < idx && h[y, x] == 1.0 then 0.0 else old(data[z, y, x]))
      invariant forall z, y, x :: 0 <= z < data.Length0 && 0 <= y < data.Length1 && 0 <= x < data.Length2 ==>
        mask[z, y, x] == (if z < idx && h[y, x] == 1.0 then 1.0 else old(mask[z, y, x]))
    {
      forall y, x | 0 <= y < data.Length1 && 0 <= x < data.Length2 && h[y, x] == 1.0 {
        data[idx, y, x] := 0.0;
      }
      forall y, x | 0 <= y < mask.Length1 && 0 <= x < mask.Length2 && h[y, x] == 1.0 {
        mask[idx, y, x] := 1.0;
      }
      idx := idx + 1;
    }
    return None;
  }
}

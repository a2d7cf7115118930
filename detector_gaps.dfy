/** `mask_maxipix`, `mask_eiger4m` and `mask_eiger`: the static gap tables of
    three detectors. Each is a list of numpy slice assignments on a 2D frame,
    setting the data to 0 and the mask to 1; the tables are data here and one
    method carries out a list of assignments in order. */
module DetectorGaps {
  import opened Common

  /** One axis of a slice assignment: `:`, `lo:hi`, or a single integer index. */
  datatype Span = All | Range(lo: int, hi: int) | At(i: int)

  datatype Rect = Rect(rows: Span, cols: Span)

  /** A single integer index must lie in [-n, n); slices never fail. */
  predicate SpanValid(s: Span, n: nat) {
    s.At? ==> -(n as int) <= s.i < n
  }

  predicate RectValid(rect: Rect, rows: nat, cols: nat) {
    SpanValid(rect.rows, rows) && SpanValid(rect.cols, cols)
  }

  /** Position k on an axis of length n is selected by the span. */
  predicate InSpan(s: Span, k: int, n: nat) {
    0 <= k < n &&
    match s
    case All => true
    case Range(lo, hi) => SliceBound(lo, n) <= k < SliceBound(hi, n)
    case At(i) => k == (if i < 0 then i + n else i)
  }

  predicate InRect(rect: Rect, r: int, c: int, rows: nat, cols: nat) {
    InSpan(rect.rows, r, rows) && InSpan(rect.cols, c, cols)
  }

  /** Some rectangle of the list covers pixel (r, c). */
  predicate Covered(rects: seq<Rect>, r: int, c: int, rows: nat, cols: nat) {
    exists k :: 0 <= k < |rects| && InRect(rects[k], r, c, rows, cols)
  }

  /** How many assignments run before the first one that raises IndexError. */
  function ValidPrefix(rects: seq<Rect>, rows: nat, cols: nat): (k: nat)
    ensures k <= |rects|
    ensures forall j :: 0 <= j < k ==> RectValid(rects[j], rows, cols)
    ensures k < |rects| ==> !RectValid(rects[k], rows, cols)
  {
    if |rects| == 0 then 0
    else if !RectValid(rects[0], rows, cols) then 0
    else
      var k := ValidPrefix(rects[1..], rows, cols);
      assert forall j :: 1 <= j < k + 1 ==> rects[j] == rects[1..][j - 1];
      k + 1
  }

  lemma CoveredStep(rects: seq<Rect>, j: int, r: int, c: int, rows: nat, cols: nat)
    requires 0 <= j < |rects|
    ensures Covered(rects[..j + 1], r, c, rows, cols) <==>
      Covered(rects[..j], r, c, rows, cols) || InRect(rects[j], r, c, rows, cols)
  {
    if Covered(rects[..j + 1], r, c, rows, cols) {
      var k :| 0 <= k < j + 1 && InRect(rects[..j + 1][k], r, c, rows, cols);
      if k < j {
        assert rects[..j][k] == rects[k];
      }
    }
    if Covered(rects[..j], r, c, rows, cols) {
      var k :| 0 <= k < j && InRect(rects[..j][k], r, c, rows, cols);
      assert rects[..j + 1][k] == rects[k];
    }
    if InRect(rects[j], r, c, rows, cols) {
      assert rects[..j + 1][j] == rects[j];
    }
  }

  /** `a[rows, cols] = v` for each rectangle in turn, stopping at the first
      integer index out of range. */
  method FillRects(a: array2<real>, rects: seq<Rect>, v: real) returns (err: Option<Error>)
    modifies a
    ensures var k := ValidPrefix(rects, a.Length0, a.Length1);
      && (err == if k < |rects| then Some(IndexError) else None)
      && forall r, c :: 0 <= r < a.Length0 && 0 <= c < a.Length1 ==>
           a[r, c] == if Covered(rects[..k], r, c, a.Length0, a.Length1) then v else old(a[r, c])
  {
    var j := 0;
    while j < |rects|
      invariant 0 <= j <= |rects|
      invariant forall i :: 0 <= i < j ==> RectValid(rects[i], a.Length0, a.Length1)
      invariant forall r, c :: 0 <= r < a.Length0 && 0 <= c < a.Length1 ==>
        a[r, c] == if Covered(rects[..j], r, c, a.Length0, a.Length1) then v else old(a[r, c])
    {
      if !RectValid(rects[j], a.Length0, a.Length1) {
        assert ValidPrefix(rects, a.Length0, a.Length1) == j;
        return Some(IndexError);
      }
      var rect := rects[j];
      forall r, c | 0 <= r < a.Length0 && 0 <= c < a.Length1 && InRect(rect, r, c, a.Length0, a.Length1) {
        a[r, c] := v;
      }
      forall r, c | 0 <= r < a.Length0 && 0 <= c < a.Length1
        ensures Covered(rects[..j + 1], r, c, a.Length0, a.Length1) <==>
          Covered(rects[..j], r, c, a.Length0, a.Length1) || InRect(rect, r, c, a.Length0, a.Length1)
      {
        CoveredStep(rects, j, r, c, a.Length0, a.Length1);
      }
      j := j + 1;
    }
    assert rects[..|rects|] == rects;
    return None;
  }

  /** The outcome of a gap-masking function: a shape mismatch raises ValueError
      and changes nothing; otherwise the data assignments run (0), then, if
      none raised, the mask assignments (1). */
  twostate predicate GapsApplied(data: array2<real>, mask: array2<real>, dataRects: seq<Rect>, maskRects: seq<Rect>,
                                 new err: Option<Error>)
    reads data, mask
  {
    if data.Length0 != mask.Length0 || data.Length1 != mask.Length1 then
      err == Some(ValueError) && unchanged(data) && unchanged(mask)
    else
      var rows, cols := data.Length0, data.Length1;
      var kd := ValidPrefix(dataRects, rows, cols);
      var km := ValidPrefix(maskRects, rows, cols);
      && (forall r, c :: 0 <= r < rows && 0 <= c < cols ==>
            data[r, c] == if Covered(dataRects[..kd], r, c, rows, cols) then 0.0 else old(data[r, c]))
      && (kd < |dataRects| ==> err == Some(IndexError) && unchanged(mask))
      && (kd == |dataRects| ==>
            && (err == if km < |maskRects| then Some(IndexError) else None)
            && forall r, c :: 0 <= r < rows && 0 <= c < cols ==>
                 mask[r, c] == if Covered(maskRects[..km], r, c, rows, cols) then 1.0 else old(mask[r, c]))
  }

  method MaskGaps(data: array2<real>, mask: array2<real>, dataRects: seq<Rect>, maskRects: seq<Rect>)
    returns (err: Option<Error>)
    requires data != mask
    modifies data, mask
    ensures GapsApplied(data, mask, dataRects, maskRects, err)
  {
    if data.Length0 != mask.Length0 || data.Length1 != mask.Length1 {
      return Some(ValueError);
    }
    err := FillRects(data, dataRects, 0.0);
    if err.Some? {
      return;
    }
    err := FillRects(mask, maskRects, 1.0);
  }

  // ---------------------------------------------------------------------------
  // The tables

  const MaxipixRects := [Rect(All, Range(255, 261)), Rect(Range(255, 261), All)]

  const Eiger4mRects := [
    Rect(All, Range(1029, 1041)),
    Rect(Range(513, 552), All),
    Rect(Range(1064, 1103), All),
    Rect(Range(1614, 1654), All)
  ]

  /** The data table of `mask_eiger`: its sixth row is `data[511:552, :0]`,
      an empty slice. */
  const EigerDataRects := [
    Rect(All, Range(255, 259)),
    Rect(All, Range(513, 517)),
    Rect(All, Range(771, 775)),
    Rect(Range(0, 257), Range(72, 80)),
    Rect(Range(255, 259), All),
    Rect(Range(511, 552), Range(0, 0)),
    Rect(Range(804, 809), All),
    Rect(Range(1061, 1102), All),
    Rect(Range(1355, 1359), All),
    Rect(Range(1611, 1652), All),
    Rect(Range(1905, 1909), All),
    Rect(Range(1248, 1290), At(478)),
    Rect(Range(1214, 1298), At(481)),
    Rect(Range(1649, 1910), Range(620, 628))
  ]

  /** The mask table of `mask_eiger`: the same, with `mask[511:552, :]`. */
  const EigerMaskRects := EigerDataRects[5 := Rect(Range(511, 552), All)]

  method MaskMaxipix(data: array2<real>, mask: array2<real>) returns (err: Option<Error>)
    requires data != mask
    modifies data, mask
    ensures GapsApplied(data, mask, MaxipixRects, MaxipixRects, err)
  {
    err := MaskGaps(data, mask, MaxipixRects, MaxipixRects);
  }

  method MaskEiger4m(data: array2<real>, mask: array2<real>) returns (err: Option<Error>)
    requires data != mask
    modifies data, mask
    ensures GapsApplied(data, mask, Eiger4mRects, Eiger4mRects, err)
  {
    err := MaskGaps(data, mask, Eiger4mRects, Eiger4mRects);
  }

  method MaskEiger(data: array2<real>, mask: array2<real>) returns (err: Option<Error>)
    requires data != mask
    modifies data, mask
    ensures GapsApplied(data, mask, EigerDataRects, EigerMaskRects, err)
  {
    err := MaskGaps(data, mask, EigerDataRects, EigerMaskRects);
  }

  // ---------------------------------------------------------------------------
  // What the tables mask

  /** The Maxipix table never raises and masks rows and columns 255 to 260. */
  lemma MaxipixGaps(rows: nat, cols: nat, r: int, c: int)
    requires 0 <= r < rows && 0 <= c < cols
    ensures ValidPrefix(MaxipixRects, rows, cols) == |MaxipixRects|
    ensures Covered(MaxipixRects, r, c, rows, cols) <==> 255 <= r < 261 || 255 <= c < 261
  {
    assert MaxipixRects[..|MaxipixRects|] == MaxipixRects;
    if 255 <= c < 261 {
      assert InRect(MaxipixRects[0], r, c, rows, cols);
    }
    if 255 <= r < 261 {
      assert InRect(MaxipixRects[1], r, c, rows, cols);
    }
  }

  /** The Eiger4M table never raises and masks columns 1029 to 1040 and three
      bands of rows. */
  lemma Eiger4mGaps(rows: nat, cols: nat, r: int, c: int)
    requires 0 <= r < rows && 0 <= c < cols
    ensures ValidPrefix(Eiger4mRects, rows, cols) == |Eiger4mRects|
    ensures Covered(Eiger4mRects, r, c, rows, cols) <==>
      1029 <= c < 1041 || 513 <= r < 552 || 1064 <= r < 1103 || 1614 <= r < 1654
  {
    if 1029 <= c < 1041 {
      assert InRect(Eiger4mRects[0], r, c, rows, cols);
    }
    if 513 <= r < 552 {
      assert InRect(Eiger4mRects[1], r, c, rows, cols);
    }
    if 1064 <= r < 1103 {
      assert InRect(Eiger4mRects[2], r, c, rows, cols);
    }
    if 1614 <= r < 1654 {
      assert InRect(Eiger4mRects[3], r, c, rows, cols);
    }
  }

  /** The Eiger tables index columns 478 and 481 directly, so on a frame of at
      most 481 columns `mask_eiger` raises IndexError after its first eleven
      (or twelve) data assignments, leaving the mask untouched. */
  lemma EigerNeedsWidth(rows: nat, cols: nat)
    ensures cols > 481 ==> ValidPrefix(EigerDataRects, rows, cols) == |EigerDataRects|
    ensures cols > 481 ==> ValidPrefix(EigerMaskRects, rows, cols) == |EigerMaskRects|
    ensures cols <= 478 ==> ValidPrefix(EigerDataRects, rows, cols) == 11
    ensures 478 < cols <= 481 ==> ValidPrefix(EigerDataRects, rows, cols) == 12
  {
    var k := ValidPrefix(EigerDataRects, rows, cols);
    assert forall j :: 0 <= j < 11 ==> RectValid(EigerDataRects[j], rows, cols);
    assert forall j :: 0 <= j < |EigerMaskRects| && j != 11 && j != 12 ==> RectValid(EigerMaskRects[j], rows, cols);
    if cols <= 478 {
      assert !RectValid(EigerDataRects[11], rows, cols);
    } else if cols <= 481 {
      assert RectValid(EigerDataRects[11], rows, cols);
      assert !RectValid(EigerDataRects[12], rows, cols);
    }
  }

  /** The two Eiger tables differ only in their sixth row: `data[511:552, :0]`
      selects nothing, while `mask[511:552, :]` selects the whole band. So the
      mask table covers exactly the pixels the data table covers plus rows 511
      to 551, and those rows keep their data outside the column gaps. */
  lemma EigerMaskedNotZeroed(rows: nat, cols: nat, r: int, c: int)
    requires 0 <= r < rows && 0 <= c < cols
    ensures Covered(EigerMaskRects, r, c, rows, cols) <==>
      Covered(EigerDataRects, r, c, rows, cols) || 511 <= r < 552
    ensures !InRect(EigerDataRects[5], r, c, rows, cols)
  {
    assert forall k :: 0 <= k < |EigerDataRects| && k != 5 ==> EigerMaskRects[k] == EigerDataRects[k];
    if Covered(EigerMaskRects, r, c, rows, cols) {
      var k :| 0 <= k < |EigerMaskRects| && InRect(EigerMaskRects[k], r, c, rows, cols);
      if k != 5 {
        assert InRect(EigerDataRects[k], r, c, rows, cols);
      }
    }
    if Covered(EigerDataRects, r, c, rows, cols) {
      var k :| 0 <= k < |EigerDataRects| && InRect(EigerDataRects[k], r, c, rows, cols);
      assert k != 5;
      assert InRect(EigerMaskRects[k], r, c, rows, cols);
    }
    if 511 <= r < 552 {
      assert InRect(EigerMaskRects[5], r, c, rows, cols);
    }
  }
}

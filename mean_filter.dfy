/** `mean_filter`: every pixel that is zero in the data is visited in row-major
    order; when its 3x3 neighbourhood (as Python slices it) is non-empty, sums
    to more than 24 and holds at least `nb_neighbours` non-zero pixels, the
    pixel is either interpolated by the mean of the non-zero neighbours or
    masked. The number of treated pixels is returned. */
module MeanFilter {
  import opened Common

  /** A 2D array's contents, row by row. */
  type Grid = seq<seq<real>>

  type Pixel = (int, int)

  predicate IsGrid(g: Grid, rows: nat, cols: nat) {
    |g| == rows && forall r :: 0 <= r < rows ==> |g[r]| == cols
  }

  predicate InGrid(p: Pixel, rows: nat, cols: nat) {
    0 <= p.0 < rows && 0 <= p.1 < cols
  }

  /** The contents of an array. */
  ghost function Snapshot(a: array2<real>): (g: Grid)
    reads a
    ensures IsGrid(g, a.Length0, a.Length1)
    ensures forall r, c :: 0 <= r < a.Length0 && 0 <= c < a.Length1 ==> g[r][c] == a[r, c]
  {
    seq(a.Length0, r requires 0 <= r < a.Length0 reads a =>
      seq(a.Length1, c requires 0 <= c < a.Length1 reads a => a[r, c]))
  }

  /** The array holds the grid. */
  ghost predicate Matches(a: array2<real>, g: Grid)
    reads a
  {
    IsGrid(g, a.Length0, a.Length1) &&
    forall r, c :: 0 <= r < a.Length0 && 0 <= c < a.Length1 ==> a[r, c] == g[r][c]
  }

  lemma MatchesSnapshot(a: array2<real>, g: Grid)
    requires Matches(a, g)
    ensures Snapshot(a) == g
  {
    var s := Snapshot(a);
    forall r | 0 <= r < |g|
      ensures s[r] == g[r]
    {
    }
  }

  // ---------------------------------------------------------------------------
  // np.argwhere(data == 0)

  /** The zero pixels of row `r` among its first `c` columns, left to right. */
  function RowZeros(row: seq<real>, r: int, c: nat): (zs: seq<Pixel>)
    requires c <= |row|
    ensures forall i :: 0 <= i < |zs| ==> zs[i].0 == r && 0 <= zs[i].1 < c && row[zs[i].1] == 0.0
  {
    if c == 0 then [] else RowZeros(row, r, c - 1) + (if row[c - 1] == 0.0 then [(r, c - 1)] else [])
  }

  /** The zero pixels of the first `k` rows, in row-major order. */
  function ZeroPixels(g: Grid, k: nat): (zs: seq<Pixel>)
    requires k <= |g|
    ensures forall i :: 0 <= i < |zs| ==>
      0 <= zs[i].0 < k && 0 <= zs[i].1 < |g[zs[i].0]| && g[zs[i].0][zs[i].1] == 0.0
  {
    if k == 0 then [] else ZeroPixels(g, k - 1) + RowZeros(g[k - 1], k - 1, |g[k - 1]|)
  }

  /** Row-major order of pixels. */
  predicate Before(p: Pixel, q: Pixel) {
    p.0 < q.0 || (p.0 == q.0 && p.1 < q.1)
  }

  lemma {:induction false} RowZerosComplete(row: seq<real>, r: int, c: nat, x: int)
    requires c <= |row| && 0 <= x < c && row[x] == 0.0
    ensures (r, x) in RowZeros(row, r, c)
  {
    if x < c - 1 {
      RowZerosComplete(row, r, c - 1, x);
    }
  }

  /** Every zero pixel is listed. */
  lemma {:induction false} ZeroPixelsComplete(g: Grid, k: nat, r: int, c: int)
    requires k <= |g| && 0 <= r < k && 0 <= c < |g[r]| && g[r][c] == 0.0
    ensures (r, c) in ZeroPixels(g, k)
  {
    if r < k - 1 {
      ZeroPixelsComplete(g, k - 1, r, c);
    } else {
      RowZerosComplete(g[r], r, |g[r]|, c);
    }
  }

  lemma {:induction false} RowZerosSorted(row: seq<real>, r: int, c: nat)
    requires c <= |row|
    ensures forall i, j :: 0 <= i < j < |RowZeros(row, r, c)| ==>
      Before(RowZeros(row, r, c)[i], RowZeros(row, r, c)[j])
  {
    if c > 0 {
      RowZerosSorted(row, r, c - 1);
    }
  }

  /** The list is strictly increasing in row-major order, so no pixel is visited twice. */
  lemma {:induction false} ZeroPixelsSorted(g: Grid, k: nat)
    requires k <= |g|
    ensures forall i, j :: 0 <= i < j < |ZeroPixels(g, k)| ==> Before(ZeroPixels(g, k)[i], ZeroPixels(g, k)[j])
  {
    if k > 0 {
      ZeroPixelsSorted(g, k - 1);
      RowZerosSorted(g[k - 1], k - 1, |g[k - 1]|);
    }
  }

  /** The zero pixels of row r of the array, left to right. */
  method RowArgWhereZero(a: array2<real>, ghost g: Grid, r: int) returns (zs: seq<Pixel>)
    requires Matches(a, g) && 0 <= r < a.Length0
    ensures zs == RowZeros(g[r], r, a.Length1)
  {
    zs := [];
    var c := 0;
    while c < a.Length1
      invariant 0 <= c <= a.Length1
      invariant zs == RowZeros(g[r], r, c)
    {
      if a[r, c] == 0.0 {
        zs := zs + [(r, c)];
      }
      c := c + 1;
    }
  }

  /** `np.argwhere(data == 0)`. */
  method ArgWhereZero(a: array2<real>) returns (zs: seq<Pixel>)
    ensures zs == ZeroPixels(Snapshot(a), a.Length0)
  {
    ghost var g := Snapshot(a);
    zs := [];
    var r := 0;
    while r < a.Length0
      invariant 0 <= r <= a.Length0
      invariant zs == ZeroPixels(g, r)
    {
      var row := RowArgWhereZero(a, g, r);
      zs := zs + row;
      r := r + 1;
    }
  }

  // ---------------------------------------------------------------------------
  // The neighbourhood `data[pixrow-1:pixrow+2, pixcol-1:pixcol+2]`

  /** Rows r0..r1 and columns c0..c1 of a grid. */
  datatype Window = Window(r0: nat, r1: nat, c0: nat, c1: nat)

  /** The slice `p-1:p+2` on an axis of length n: its start and its stop. At
      index 0 the start is -1, which Python reads as the last index, so the
      slice is empty unless the axis has at most two cells. */
  function SliceLo(p: int, n: nat): nat {
    SliceBound(p - 1, n)
  }

  function SliceHi(p: int, n: nat): nat {
    SliceStop(p - 1, p + 2, n)
  }

  function WindowAt(p: Pixel, rows: nat, cols: nat): Window {
    Window(SliceLo(p.0, rows), SliceHi(p.0, rows), SliceLo(p.1, cols), SliceHi(p.1, cols))
  }

  predicate FitsIn(w: Window, g: Grid) {
    w.r0 <= w.r1 <= |g| && w.c0 <= w.c1 &&
    forall r :: w.r0 <= r < w.r1 ==> w.c1 <= |g[r]|
  }

  function RowSum(row: seq<real>, c0: nat, c1: nat): real
    requires c0 <= c1 <= |row|
    decreases c1
  {
    if c1 == c0 then 0.0 else RowSum(row, c0, c1 - 1) + row[c1 - 1]
  }

  function RowCount(row: seq<real>, c0: nat, c1: nat): nat
    requires c0 <= c1 <= |row|
    decreases c1
  {
    if c1 == c0 then 0 else RowCount(row, c0, c1 - 1) + (if row[c1 - 1] != 0.0 then 1 else 0)
  }

  /** `temp.sum()`. */
  function WinSum(g: Grid, w: Window): real
    requires FitsIn(w, g)
    decreases w.r1
  {
    if w.r1 == w.r0 then 0.0 else WinSum(g, w.(r1 := w.r1 - 1)) + RowSum(g[w.r1 - 1], w.c0, w.c1)
  }

  /** `sum(sum(temp != 0))`. */
  function WinCount(g: Grid, w: Window): nat
    requires FitsIn(w, g)
    decreases w.r1
  {
    if w.r1 == w.r0 then 0 else WinCount(g, w.(r1 := w.r1 - 1)) + RowCount(g[w.r1 - 1], w.c0, w.c1)
  }

  lemma {:induction false} RowNoneNonZero(row: seq<real>, c0: nat, c1: nat)
    requires c0 <= c1 <= |row|
    ensures RowCount(row, c0, c1) == 0 ==> RowSum(row, c0, c1) == 0.0
  {
    if c1 > c0 {
      RowNoneNonZero(row, c0, c1 - 1);
    }
  }

  /** A window without a non-zero pixel sums to zero, so a window summing to
      more than 24 has a non-zero pixel and the mean is well defined. */
  lemma {:induction false} NoneNonZero(g: Grid, w: Window)
    requires FitsIn(w, g)
    ensures WinCount(g, w) == 0 ==> WinSum(g, w) == 0.0
    decreases w.r1
  {
    if w.r1 > w.r0 {
      NoneNonZero(g, w.(r1 := w.r1 - 1));
      RowNoneNonZero(g[w.r1 - 1], w.c0, w.c1);
    }
  }

  /** `temp.sum()` and `sum(sum(temp != 0))`, read from the array. */
  method WindowStats(a: array2<real>, ghost g: Grid, w: Window) returns (s: real, k: nat)
    requires Matches(a, g) && w.r0 <= w.r1 <= a.Length0 && w.c0 <= w.c1 <= a.Length1
    ensures FitsIn(w, g) && s == WinSum(g, w) && k == WinCount(g, w)
  {
    s, k := 0.0, 0;
    var r := w.r0;
    while r < w.r1
      invariant w.r0 <= r <= w.r1
      invariant s == WinSum(g, w.(r1 := r)) && k == WinCount(g, w.(r1 := r))
    {
      var c := w.c0;
      var rs, rk := 0.0, 0;
      while c < w.c1
        invariant w.c0 <= c <= w.c1
        invariant rs == RowSum(g[r], w.c0, c) && rk == RowCount(g[r], w.c0, c)
      {
        rs := rs + a[r, c];
        if a[r, c] != 0.0 {
          rk := rk + 1;
        }
        c := c + 1;
      }
      s, k := s + rs, k + rk;
      r := r + 1;
    }
  }

  // ---------------------------------------------------------------------------
  // The filter as a fold over the zero pixels

  datatype State = State(data: Grid, mask: Grid, count: nat)

  predicate Shaped(st: State, rows: nat, cols: nat) {
    IsGrid(st.data, rows, cols) && IsGrid(st.mask, rows, cols)
  }

  /** The neighbourhood of p is non-empty, sums to more than 24 and holds at
      least nb non-zero pixels. */
  predicate Qualifies(g: Grid, cols: nat, p: Pixel, nb: int)
    requires IsGrid(g, |g|, cols)
  {
    var w := WindowAt(p, |g|, cols);
    w.r0 < w.r1 && w.c0 < w.c1 && WinSum(g, w) > 24.0 && WinCount(g, w) >= nb
  }

  /** The mean of the non-zero pixels of p's neighbourhood. */
  function Mean(g: Grid, cols: nat, p: Pixel, nb: int): (v: real)
    requires IsGrid(g, |g|, cols) && Qualifies(g, cols, p, nb)
    ensures v > 0.0
  {
    var w := WindowAt(p, |g|, cols);
    NoneNonZero(g, w);
    WinSum(g, w) / WinCount(g, w) as real
  }

  function Set(g: Grid, p: Pixel, v: real): Grid
    requires 0 <= p.0 < |g| && 0 <= p.1 < |g[p.0]|
  {
    g[p.0 := g[p.0][p.1 := v]]
  }

  /** One iteration of the loop over the zero pixels. */
  function Step(st: State, rows: nat, cols: nat, p: Pixel, nb: int, interpolate: bool): (next: State)
    requires Shaped(st, rows, cols) && InGrid(p, rows, cols)
    ensures Shaped(next, rows, cols)
  {
    if !Qualifies(st.data, cols, p, nb) then st
    else if interpolate then
      State(Set(st.data, p, Mean(st.data, cols, p, nb)), Set(st.mask, p, 0.0), st.count + 1)
    else
      State(st.data, Set(st.mask, p, 1.0), st.count + 1)
  }

  predicate AllIn(ps: seq<Pixel>, rows: nat, cols: nat) {
    forall i :: 0 <= i < |ps| ==> InGrid(ps[i], rows, cols)
  }

  /** The loop run over the pixels ps, in order. */
  function Filter(st: State, rows: nat, cols: nat, ps: seq<Pixel>, nb: int, interpolate: bool): (last: State)
    requires Shaped(st, rows, cols) && AllIn(ps, rows, cols)
    ensures Shaped(last, rows, cols)
  {
    if ps == [] then st
    else Step(Filter(st, rows, cols, ps[..|ps| - 1], nb, interpolate), rows, cols, ps[|ps| - 1], nb, interpolate)
  }

  /** The fold over one more pixel is one more step. */
  lemma FilterStep(st: State, rows: nat, cols: nat, ps: seq<Pixel>, i: int, nb: int, interpolate: bool)
    requires Shaped(st, rows, cols) && AllIn(ps, rows, cols) && 0 <= i < |ps|
    ensures AllIn(ps[..i], rows, cols) && AllIn(ps[..i + 1], rows, cols)
    ensures Filter(st, rows, cols, ps[..i + 1], nb, interpolate) ==
            Step(Filter(st, rows, cols, ps[..i], nb, interpolate), rows, cols, ps[i], nb, interpolate)
  {
    assert ps[..i + 1][..i] == ps[..i];
  }

  /** At most one pixel is treated per visit. */
  lemma {:induction false} FilterCount(st: State, rows: nat, cols: nat, ps: seq<Pixel>, nb: int, interpolate: bool)
    requires Shaped(st, rows, cols) && AllIn(ps, rows, cols)
    ensures st.count <= Filter(st, rows, cols, ps, nb, interpolate).count <= st.count + |ps|
  {
    if ps != [] {
      FilterCount(st, rows, cols, ps[..|ps| - 1], nb, interpolate);
    }
  }

  /** A pixel that is not visited keeps its data and mask values. */
  lemma {:induction false} FilterUntouched(st: State, rows: nat, cols: nat, ps: seq<Pixel>, nb: int, interpolate: bool, q: Pixel)
    requires Shaped(st, rows, cols) && AllIn(ps, rows, cols) && InGrid(q, rows, cols) && q !in ps
    ensures Filter(st, rows, cols, ps, nb, interpolate).data[q.0][q.1] == st.data[q.0][q.1]
    ensures Filter(st, rows, cols, ps, nb, interpolate).mask[q.0][q.1] == st.mask[q.0][q.1]
  {
    if ps != [] {
      assert q !in ps[..|ps| - 1];
      FilterUntouched(st, rows, cols, ps[..|ps| - 1], nb, interpolate, q);
    }
  }

  /** Without interpolation the data is never changed. */
  lemma {:induction false} MaskingKeepsData(st: State, rows: nat, cols: nat, ps: seq<Pixel>, nb: int)
    requires Shaped(st, rows, cols) && AllIn(ps, rows, cols)
    ensures Filter(st, rows, cols, ps, nb, false).data == st.data
  {
    if ps != [] {
      MaskingKeepsData(st, rows, cols, ps[..|ps| - 1], nb);
    }
  }

  /** Without interpolation the final mask has a closed form: a visited pixel
      is masked exactly when its neighbourhood in the original data qualifies. */
  lemma {:induction false} MaskingClosedForm(st: State, rows: nat, cols: nat, ps: seq<Pixel>, nb: int, q: Pixel)
    requires Shaped(st, rows, cols) && AllIn(ps, rows, cols) && InGrid(q, rows, cols)
    ensures Filter(st, rows, cols, ps, nb, false).mask[q.0][q.1] ==
      if q in ps && Qualifies(st.data, cols, q, nb) then 1.0 else st.mask[q.0][q.1]
  {
    if ps != [] {
      var init := ps[..|ps| - 1];
      MaskingClosedForm(st, rows, cols, init, nb, q);
      MaskingKeepsData(st, rows, cols, init, nb);
      assert ps == init + [ps[|ps| - 1]];
    }
  }

  /** An interpolated pixel receives the (positive) mean of its non-zero
      neighbours and is unmasked. */
  lemma StepInterpolates(st: State, rows: nat, cols: nat, p: Pixel, nb: int)
    requires Shaped(st, rows, cols) && InGrid(p, rows, cols) && Qualifies(st.data, cols, p, nb)
    ensures WinCount(st.data, WindowAt(p, rows, cols)) > 0
    ensures var next := Step(st, rows, cols, p, nb, true);
      && next.data[p.0][p.1] == WinSum(st.data, WindowAt(p, rows, cols)) / WinCount(st.data, WindowAt(p, rows, cols)) as real
      && next.data[p.0][p.1] > 0.0
      && next.mask[p.0][p.1] == 0.0
      && next.count == st.count + 1
  {
    NoneNonZero(st.data, WindowAt(p, rows, cols));
  }

  /** One pass of the loop body at pixel p; the new state is returned as a ghost. */
  method Visit(data: array2<real>, mask: array2<real>, p: Pixel, nb: int, interpolate: bool, ghost st: State)
    returns (treated: bool, ghost next: State)
    requires data != mask && Shaped(st, data.Length0, data.Length1) && InGrid(p, data.Length0, data.Length1)
    requires Matches(data, st.data) && Matches(mask, st.mask)
    modifies data, mask
    ensures next == Step(st, data.Length0, data.Length1, p, nb, interpolate)
    ensures treated == Qualifies(st.data, data.Length1, p, nb) && next.count == st.count + (if treated then 1 else 0)
    ensures Matches(data, next.data) && Matches(mask, next.mask)
  {
    next := Step(st, data.Length0, data.Length1, p, nb, interpolate);
    var w := WindowAt(p, data.Length0, data.Length1);
    var s, k := WindowStats(data, st.data, w);
    treated := w.r0 < w.r1 && w.c0 < w.c1 && s > 24.0 && k >= nb;
    if treated {
      if interpolate {
        NoneNonZero(st.data, w);
        data[p.0, p.1] := s / k as real;
        mask[p.0, p.1] := 0.0;
      } else {
        mask[p.0, p.1] := 1.0;
      }
    }
  }

  /** `mean_filter(data, nb_neighbours, mask, interpolate)`: the arrays are
      updated in place, the count of treated pixels is returned. */
  method MeanFilter(data: array2<real>, nb: int, mask: array2<real>, interpolate: bool) returns (count: nat)
    requires data != mask && mask.Length0 == data.Length0 && mask.Length1 == data.Length1
    modifies data, mask
    ensures var last := Filter(State(old(Snapshot(data)), old(Snapshot(mask)), 0), data.Length0, data.Length1,
                               ZeroPixels(old(Snapshot(data)), data.Length0), nb, interpolate);
      Snapshot(data) == last.data && Snapshot(mask) == last.mask && count == last.count
  {
    ghost var init := State(Snapshot(data), Snapshot(mask), 0);
    var zs := ArgWhereZero(data);
    assert AllIn(zs, data.Length0, data.Length1);
    ghost var st := init;
    count := 0;
    var i := 0;
    while i < |zs|
      invariant 0 <= i <= |zs|
      invariant Shaped(st, data.Length0, data.Length1)
      invariant st == Filter(init, data.Length0, data.Length1, zs[..i], nb, interpolate)
      invariant Matches(data, st.data) && Matches(mask, st.mask) && count == st.count
    {
      var treated;
      FilterStep(init, data.Length0, data.Length1, zs, i, nb, interpolate);
      treated, st := Visit(data, mask, zs[i], nb, interpolate, st);
      if treated {
        count := count + 1;
      }
      i := i + 1;
    }
    assert zs[..i] == zs;
    MatchesSnapshot(data, st.data);
    MatchesSnapshot(mask, st.mask);
  }
}

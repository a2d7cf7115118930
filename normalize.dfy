/** `normalize_dataset`: align the raw monitor with the provenance vector
    `frames_logical` (1 used, 0 unused, -1 padded frame), turn it into one
    scaling factor per frame and scale the frames of the array in place. */
module Normalize {
  import opened Common

  // ---------------------------------------------------------------------------
  // Counting frames

  /** The number of non-zero entries: the length of the aligned monitor. */
  function CountNonZero(s: seq<int>): (c: nat)
    ensures c <= |s|
  {
    if |s| == 0 then 0 else CountNonZero(s[..|s| - 1]) + (if s[|s| - 1] != 0 then 1 else 0)
  }

  /** The number of padded (-1) entries. */
  function CountPadded(s: seq<int>): (c: nat)
    ensures c <= |s|
  {
    if |s| == 0 then 0 else CountPadded(s[..|s| - 1]) + (if s[|s| - 1] == -1 then 1 else 0)
  }

  /** Among prefixes, the count of non-zero entries grows with the prefix. */
  lemma {:induction false} CountNonZeroMono(f: seq<int>, a: int, b: int)
    requires 0 <= a <= b <= |f|
    ensures CountNonZero(f[..a]) <= CountNonZero(f[..b])
    decreases b - a
  {
    if a < b {
      CountNonZeroMono(f, a, b - 1);
      assert f[..b][..b - 1] == f[..b - 1];
    }
  }

  /** Every nonzero frame before the frames counted in a prefix lands below the count. */
  lemma CountNonZeroBefore(f: seq<int>, k: int, i: int)
    requires 0 <= k < i <= |f| && f[k] != 0
    ensures CountNonZero(f[..k]) < CountNonZero(f[..i])
  {
    assert f[..k + 1][..k] == f[..k];
    CountNonZeroMono(f, k + 1, i);
  }

  lemma CountStep(f: seq<int>, i: int)
    requires 0 <= i < |f|
    ensures CountNonZero(f[..i + 1]) == CountNonZero(f[..i]) + (if f[i] != 0 then 1 else 0)
    ensures CountPadded(f[..i + 1]) == CountPadded(f[..i]) + (if f[i] == -1 then 1 else 0)
  {
    assert f[..i + 1][..i] == f[..i];
  }

  // ---------------------------------------------------------------------------
  // Extremes of the raw monitor

  /** `raw_monitor.min()`. */
  function SeqMin(s: seq<real>): (m: real)
    requires |s| > 0
    ensures forall i :: 0 <= i < |s| ==> m <= s[i]
  {
    if |s| == 1 then s[0]
    else
      var m := SeqMin(s[..|s| - 1]);
      assert forall i :: 0 <= i < |s| - 1 ==> s[..|s| - 1][i] == s[i];
      if s[|s| - 1] < m then s[|s| - 1] else m
  }

  /** `raw_monitor.max()`. */
  function SeqMax(s: seq<real>): (m: real)
    requires |s| > 0
    ensures forall i :: 0 <= i < |s| ==> s[i] <= m
  {
    if |s| == 1 then s[0]
    else
      var m := SeqMax(s[..|s| - 1]);
      assert forall i :: 0 <= i < |s| - 1 ==> s[..|s| - 1][i] == s[i];
      if s[|s| - 1] > m then s[|s| - 1] else m
  }

  /** The minimum is one of the values. */
  lemma {:induction false} SeqMinAttained(s: seq<real>)
    requires |s| > 0
    ensures exists i :: 0 <= i < |s| && s[i] == SeqMin(s)
  {
    if |s| > 1 {
      SeqMinAttained(s[..|s| - 1]);
      var i :| 0 <= i < |s| - 1 && s[..|s| - 1][i] == SeqMin(s[..|s| - 1]);
      assert s[i] == s[..|s| - 1][i];
    } else {
      assert s[0] == SeqMin(s);
    }
  }

  /** The maximum is one of the values. */
  lemma {:induction false} SeqMaxAttained(s: seq<real>)
    requires |s| > 0
    ensures exists i :: 0 <= i < |s| && s[i] == SeqMax(s)
  {
    if |s| > 1 {
      SeqMaxAttained(s[..|s| - 1]);
      var i :| 0 <= i < |s| - 1 && s[..|s| - 1][i] == SeqMax(s[..|s| - 1]);
      assert s[i] == s[..|s| - 1][i];
    } else {
      assert s[0] == SeqMax(s);
    }
  }

  /** The value given to padded frames: the raw minimum, or maximum. */
  function Extreme(raw: seq<real>, normToMin: bool): real
    requires |raw| > 0
  {
    if normToMin then SeqMin(raw) else SeqMax(raw)
  }

  predicate AllPositive(s: seq<real>) {
    forall i :: 0 <= i < |s| ==> s[i] > 0.0
  }

  predicate IsProvenance(f: seq<int>) {
    forall i :: 0 <= i < |f| ==> -1 <= f[i] <= 1
  }

  // ---------------------------------------------------------------------------
  // Aligning the monitor

  /** Frame i cannot get a monitor value: a padded frame with an empty raw
      monitor (`min()` of an empty array, ValueError), or a used frame whose
      raw index `i - nb_padded` is past the end (IndexError). */
  predicate FailsAt(f: seq<int>, raw: seq<real>, i: int)
    requires 0 <= i < |f|
  {
    (f[i] == -1 && |raw| == 0) || (f[i] == 1 && i - CountPadded(f[..i]) >= |raw|)
  }

  predicate NoFailure(f: seq<int>, raw: seq<real>) {
    forall i :: 0 <= i < |f| ==> !FailsAt(f, raw, i)
  }

  /** i is the first frame that fails. */
  predicate FirstFailure(f: seq<int>, raw: seq<real>, i: int) {
    0 <= i < |f| && FailsAt(f, raw, i) && forall k :: 0 <= k < i ==> !FailsAt(f, raw, k)
  }

  /** The monitor value of a non-failing, non-zero frame i. */
  function FrameMonitor(f: seq<int>, raw: seq<real>, normToMin: bool, i: int): real
    requires 0 <= i < |f| && f[i] != 0 && -1 <= f[i] <= 1 && !FailsAt(f, raw, i)
  {
    if f[i] == -1 then Extreme(raw, normToMin) else raw[i - CountPadded(f[..i])]
  }

  /** m is the aligned monitor: one entry per non-zero frame, in frame order,
      the raw extreme for padded frames and the raw value, shifted back by
      the padded frames before it, for used frames. */
  ghost predicate AlignedMonitor(f: seq<int>, raw: seq<real>, normToMin: bool, m: seq<real>)
    requires IsProvenance(f)
    requires NoFailure(f, raw)
  {
    && |m| == CountNonZero(f)
    && forall i :: 0 <= i < |f| && f[i] != 0 ==>
         CountNonZero(f[..i]) < |m| && m[CountNonZero(f[..i])] == FrameMonitor(f, raw, normToMin, i)
  }

  /** The error the first failing frame raises. */
  function FailureError(f: seq<int>, i: int): Error
    requires 0 <= i < |f|
  {
    if f[i] == -1 then ValueError else IndexError
  }

  ghost predicate AlignInvariant(f: seq<int>, raw: seq<real>, normToMin: bool, monitor: seq<real>, i: int)
    requires IsProvenance(f) && 0 <= i <= |f|
  {
    && (forall k :: 0 <= k < i ==> !FailsAt(f, raw, k))
    && |monitor| == CountNonZero(f)
    && CountNonZero(f[..i]) <= |monitor|
    && (forall k :: 0 <= k < i && f[k] != 0 ==>
          CountNonZero(f[..k]) < CountNonZero(f[..i]) &&
          monitor[CountNonZero(f[..k])] == FrameMonitor(f, raw, normToMin, k))
    && (forall j :: 0 <= j < CountNonZero(f[..i]) ==> monitor[j] > 0.0)
  }

  /** The monitor after visiting frame i. */
  function AlignNext(f: seq<int>, raw: seq<real>, normToMin: bool, monitor: seq<real>, i: int): seq<real>
    requires IsProvenance(f) && 0 <= i < |f| && !FailsAt(f, raw, i)
    requires CountNonZero(f[..i]) < |monitor| || f[i] == 0
  {
    if f[i] == 0 then monitor else monitor[CountNonZero(f[..i]) := FrameMonitor(f, raw, normToMin, i)]
  }

  lemma AlignStep(f: seq<int>, raw: seq<real>, normToMin: bool, monitor: seq<real>, i: int)
    requires IsProvenance(f) && AllPositive(raw) && 0 <= i < |f| && !FailsAt(f, raw, i)
    requires AlignInvariant(f, raw, normToMin, monitor, i)
    ensures CountNonZero(f[..i]) < |monitor| || f[i] == 0
    ensures AlignInvariant(f, raw, normToMin, AlignNext(f, raw, normToMin, monitor, i), i + 1)
  {
    CountStep(f, i);
    CountNonZeroMono(f, i + 1, |f|);
    assert f[..|f|] == f;
    var c := CountNonZero(f[..i]);
    var c1 := CountNonZero(f[..i + 1]);
    if f[i] != 0 {
      assert FrameMonitor(f, raw, normToMin, i) > 0.0 by {
        if f[i] == -1 {
          if normToMin {
            SeqMinAttained(raw);
          } else {
            SeqMaxAttained(raw);
          }
        }
      }
    }
    var next := AlignNext(f, raw, normToMin, monitor, i);
    assert |next| == |monitor| == CountNonZero(f) && c1 <= |next|;
    forall k | 0 <= k < i + 1 && f[k] != 0
      ensures CountNonZero(f[..k]) < c1 && next[CountNonZero(f[..k])] == FrameMonitor(f, raw, normToMin, k)
    {
      var ck := CountNonZero(f[..k]);
      if k < i {
        // an earlier frame: its slot lies before c and is left as it was
        CountNonZeroBefore(f, k, i);
        assert ck < c <= c1;
        assert monitor[ck] == FrameMonitor(f, raw, normToMin, k);
        assert next[ck] == monitor[ck];
      } else {
        // frame i itself fills slot c
        assert ck == c < c1;
        assert next == monitor[c := FrameMonitor(f, raw, normToMin, i)];
      }
    }
    forall j | 0 <= j < c1
      ensures next[j] > 0.0
    {
    }
  }

  lemma AlignDone(f: seq<int>, raw: seq<real>, normToMin: bool, monitor: seq<real>)
    requires IsProvenance(f) && AlignInvariant(f, raw, normToMin, monitor, |f|)
    ensures NoFailure(f, raw) && AlignedMonitor(f, raw, normToMin, monitor) && AllPositive(monitor)
  {
    assert f[..|f|] == f;
  }

  /** One pass of the counter loop on a frame that does not fail. */
  method AlignFrame(f: seq<int>, raw: seq<real>, normToMin: bool, monitor: seq<real>, i: int,
                    nbPadded: int, nbOverlap: int)
    returns (next: seq<real>, nbPadded': int, nbOverlap': int)
    requires IsProvenance(f) && AllPositive(raw) && 0 <= i < |f| && !FailsAt(f, raw, i)
    requires nbPadded == CountPadded(f[..i]) && nbOverlap == i - CountNonZero(f[..i])
    requires AlignInvariant(f, raw, normToMin, monitor, i)
    ensures nbPadded' == CountPadded(f[..i + 1]) && nbOverlap' == i + 1 - CountNonZero(f[..i + 1])
    ensures AlignInvariant(f, raw, normToMin, next, i + 1)
  {
    CountStep(f, i);
    AlignStep(f, raw, normToMin, monitor, i);
    next, nbPadded', nbOverlap' := monitor, nbPadded, nbOverlap;
    if f[i] != 0 {
      next := monitor[i - nbOverlap := if f[i] == -1 then Extreme(raw, normToMin) else raw[i - nbPadded]];
    }
    assert next == AlignNext(f, raw, normToMin, monitor, i);
    if f[i] == -1 {
      nbPadded' := nbPadded + 1;
    } else if f[i] == 0 {
      nbOverlap' := nbOverlap + 1;
    }
  }

  /** The counter loop filling `monitor`. */
  method AlignMonitor(f: seq<int>, raw: seq<real>, normToMin: bool) returns (r: Result<seq<real>>)
    requires IsProvenance(f) && AllPositive(raw)
    ensures r.Err? ==> exists i :: FirstFailure(f, raw, i) && r.error == FailureError(f, i)
    ensures r.Ok? ==> NoFailure(f, raw) && AlignedMonitor(f, raw, normToMin, r.value) && AllPositive(r.value)
  {
    var monitor := seq(CountNonZero(f), _ => 0.0);
    var nbOverlap := 0;
    var nbPadded := 0;
    var i := 0;
    while i < |f|
      invariant 0 <= i <= |f|
      invariant nbPadded == CountPadded(f[..i])
      invariant nbOverlap == i - CountNonZero(f[..i])
      invariant AlignInvariant(f, raw, normToMin, monitor, i)
    {
      if (f[i] == -1 && |raw| == 0) || (f[i] == 1 && i - nbPadded >= |raw|) {
        assert FirstFailure(f, raw, i);
        return Err(if f[i] == -1 then ValueError else IndexError);
      }
      monitor, nbPadded, nbOverlap := AlignFrame(f, raw, normToMin, monitor, i, nbPadded, nbOverlap);
      i := i + 1;
    }
    AlignDone(f, raw, normToMin, monitor);
    return Ok(monitor);
  }

  // ---------------------------------------------------------------------------
  // Scaling factors

  /** a / b for 0 < a <= b. */
  function Ratio(a: real, b: real): (q: real)
    requires 0.0 < a <= b
    ensures 0.0 < q <= 1.0
    ensures q * b == a
  {
    assert (a / b) * b == a;
    a / b
  }

  /** `monitor.min() / monitor[i]`: scaled by it, frame i is as if measured
      with the smallest monitor value. */
  function FactorToMin(m: seq<real>, i: int): (q: real)
    requires |m| > 0 && AllPositive(m) && 0 <= i < |m|
    ensures 0.0 < q <= 1.0
    ensures q * m[i] == SeqMin(m)
  {
    var lo := SeqMin(m);
    assert lo > 0.0 by {
      SeqMinAttained(m);
      var j :| 0 <= j < |m| && m[j] == lo;
    }
    Ratio(lo, m[i])
  }

  /** `monitor[i] / monitor.max()`: scaled by it, frame i is as if measured
      with the largest monitor value. */
  function FactorToMax(m: seq<real>, i: int): (q: real)
    requires |m| > 0 && AllPositive(m) && 0 <= i < |m|
    ensures 0.0 < q <= 1.0
    ensures q * SeqMax(m) == m[i]
  {
    var hi := SeqMax(m);
    var a := m[i];
    assert 0.0 < a <= hi;
    Ratio(a, hi)
  }

  /** `monitor.min() / monitor` or `monitor / monitor.max()`. */
  function Factors(m: seq<real>, normToMin: bool): (g: seq<real>)
    requires |m| > 0 && AllPositive(m)
    ensures |g| == |m|
    ensures forall i :: 0 <= i < |g| ==> 0.0 < g[i] <= 1.0
  {
    seq(|m|, i requires 0 <= i < |m| => if normToMin then FactorToMin(m, i) else FactorToMax(m, i))
  }

  /** The frame with the smallest (largest) monitor value keeps its intensity:
      its factor is exactly 1. */
  lemma FactorsReachOne(m: seq<real>, normToMin: bool)
    requires |m| > 0 && AllPositive(m)
    ensures exists i :: 0 <= i < |m| && Factors(m, normToMin)[i] == 1.0
  {
    var g := Factors(m, normToMin);
    if normToMin {
      SeqMinAttained(m);
      var j :| 0 <= j < |m| && m[j] == SeqMin(m);
      var q := FactorToMin(m, j);
      assert g[j] == q;
      assert q * m[j] == 1.0 * m[j];
    } else {
      SeqMaxAttained(m);
      var j :| 0 <= j < |m| && m[j] == SeqMax(m);
      var q := FactorToMax(m, j);
      assert g[j] == q;
      assert q * m[j] == 1.0 * m[j];
    }
  }

  // ---------------------------------------------------------------------------
  // normalize_dataset

  /** `normalize_dataset(array, raw_monitor, frames_logical, norm_to_min)`.
      The result is the factor vector (the returned `monitor`). */
  method NormalizeDataset(a: array3<real>, raw: seq<real>, f: seq<int>, normToMin: bool) returns (r: Result<seq<real>>)
    requires IsProvenance(f) && AllPositive(raw)
    modifies a
    ensures !NoFailure(f, raw) ==> exists i :: FirstFailure(f, raw, i) && r == Err(FailureError(f, i))
    ensures NoFailure(f, raw) && CountNonZero(f) == 0 ==> r == Err(ValueError)
    ensures NoFailure(f, raw) && CountNonZero(f) > 0 && CountNonZero(f) != a.Length0 ==> r == Err(ValueError)
    ensures NoFailure(f, raw) && 0 < CountNonZero(f) == a.Length0 ==> r.Ok?
    ensures r.Err? ==> unchanged(a)
    ensures r.Ok? ==> NoFailure(f, raw)
    ensures r.Ok? ==>
      exists m :: |m| > 0 && AllPositive(m) && AlignedMonitor(f, raw, normToMin, m) && r.value == Factors(m, normToMin)
    ensures r.Ok? ==> |r.value| == a.Length0
    ensures r.Ok? ==>
      forall z, y, x :: 0 <= z < a.Length0 && 0 <= y < a.Length1 && 0 <= x < a.Length2 ==>
        a[z, y, x] == Scaled(old(a[z, y, x]), r.value[z])
  {
    var aligned := AlignMonitor(f, raw, normToMin);
    if aligned.Err? {
      return Err(aligned.error);
    }
    var m := aligned.value;
    if |m| == 0 {
      return Err(ValueError);
    }
    var g := Factors(m, normToMin);
    if |g| != a.Length0 {
      return Err(ValueError);
    }
    ScaleFrames(a, g);
    return Ok(g);
  }

  /** One cell scaled by its frame's factor. */
  function Scaled(v: real, factor: real): real {
    v * factor
  }

  /** `array[idx, :, :] = array[idx, :, :] * monitor[idx]` for every frame. */
  method ScaleFrames(a: array3<real>, g: seq<real>)
    requires |g| == a.Length0
    modifies a
    ensures forall z, y, x :: 0 <= z < a.Length0 && 0 <= y < a.Length1 && 0 <= x < a.Length2 ==>
      a[z, y, x] == Scaled(old(a[z, y, x]), g[z])
  {
    var z := 0;
    while z < a.Length0
      invariant 0 <= z <= a.Length0
      invariant forall k, y, x :: 0 <= k < a.Length0 && 0 <= y < a.Length1 && 0 <= x < a.Length2 ==>
        a[k, y, x] == if k < z then Scaled(old(a[k, y, x]), g[k]) else old(a[k, y, x])
    {
      forall y, x | 0 <= y < a.Length1 && 0 <= x < a.Length2 {
        a[z, y, x] := Scaled(a[z, y, x], g[z]);
      }
      z := z + 1;
    }
  }
}

# bcdi preprocessing utilities in Dafny

A model of the array-preprocessing core of bcdi (Bragg coherent diffraction
imaging), `bcdi/preprocessing/preprocessing_utils.py`. The model covers the
following:

- `center_fft` locates the Bragg peak of a 3D rocking-curve volume. It then
  crops or pads the data, the mask and the frame provenance vector
  `frames_logical` to FFT-friendly sizes, under one of nine options.
- The FFT-size search is `primes`, `try_smaller_primes`, `smaller_primes` and
  `higher_primes`.
- `zero_pad` embeds a volume into a larger one filled with 0 or 1.
- `normalize_dataset` aligns the rocking-curve monitor with `frames_logical`
  and scales each frame.
- Pixel filters:
  - `remove_hotpixels`;
  - the static detector gap tables `mask_maxipix`, `mask_eiger4m` and
    `mask_eiger`;
  - `mean_filter` for isolated zero pixels.
- The keyboard handlers of the interactive masking tools: `update_aliens`,
  `update_aliens_2d`, `update_mask` and `update_mask_2d`.

Module layout, one file each:

| file | module | source functions |
|---|---|---|
| `common.dfy` | `Common` | Python exceptions, `Result`/`Option`, slice bounds, `int()` truncation |
| `fft_sizes.dfy` | `FftSizes` | `primes`, `try_smaller_primes`, `smaller_primes`, `higher_primes` |
| `padding.dfy` | `Padding` | `zero_pad`, 3D slicing |
| `center_fft_plan.dfy` | `CenterFftPlan` | the size and width arithmetic of each `center_fft` option |
| `center_fft.dfy` | `CenterFft` | `center_fft`: argmax, peak choice, applying the plan to the arrays |
| `normalize.dfy` | `Normalize` | `normalize_dataset` |
| `hotpixels.dfy` | `HotPixels` | `remove_hotpixels` |
| `detector_gaps.dfy` | `DetectorGaps` | `mask_maxipix`, `mask_eiger4m`, `mask_eiger` |
| `mean_filter.dfy` | `MeanFilter` | `mean_filter` |
| `mask_editors.dfy` | `MaskEditors` | `update_aliens`, `update_aliens_2d`, `update_mask`, `update_mask_2d` |

How the source's forms are kept:
- Arrays that the source changes in place are Dafny arrays changed in place:
  - the frame zeroing of `center_fft`;
  - the scaling of `normalize_dataset`;
  - the assignments of the pixel filters and of the editors.
- Each masking handler is a class. Its fields are the state the handler
  receives and returns. `HandleKey` is one call of the handler.
- Loops in the source are `while` loops with invariants, each proved
  against a specification function. Examples:
  - the trial division of `primes`;
  - the searches of `smaller_primes`/`higher_primes`;
  - the monitor alignment loop;
  - the loop of `mean_filter`, specified as a fold `Filter` over
    `np.argwhere(data == 0)`.
- Python behaviour that matters is written out:
  - slice bounds with negative or overlong ends;
  - single integer indices that raise `IndexError`;
  - `int()` truncation of true division;
  - the exception the source raises, as an `Error` value.

Details of the source that the model keeps as written:
- Negative pad widths are clamped to 0 only by `pad_symmetric_ZYX`
  (preprocessing_utils.py:270, `ClampedWidths`).
  - `pad_symmetric_Z_crop_YX` (preprocessing_utils.py:172-176) and
    `pad_symmetric_Z` (preprocessing_utils.py:221-225) pass their widths to
    `zero_pad` unclamped. On the widths these two options compute, a negative
    width makes numpy raise ValueError: a negative total length fails in
    `np.ones`/`np.zeros` (preprocessing_utils.py:2103, 2105), otherwise the
    slice assigned at preprocessing_utils.py:2106 has the wrong length. The
    model returns that ValueError.
  - `pad_asymmetric_ZYX` takes the parity of its leading y width from
    `pad_size[1] - nby` rather than from `ny1 - nby`
    (preprocessing_utils.py:298). When the difference is odd and that parity
    is even, the padded y axis is one short of `higher_primes(nby)`
    (`QuirkWidthsSum`).
- `do_nothing` reads `fix_size` only when it has exactly three entries, and it
  then indexes `fix_size[3]`, which raises IndexError
  (preprocessing_utils.py:321-325). With any other length the data is passed
  through (`DoNothingSpec`).
- The restart key `a` of the mask editors empties the polygon but keeps the
  brush width (preprocessing_utils.py:1835-1850 and 2027-2034).
- Some lemmas state properties of the plans and of the provenance update that
  no other proof needs: `SymmetricWidthsCentre`, `ClampedWidthsMeaning`,
  `QuirkWidthsSum`, `CropProvenance` and `PadProvenance`. They describe what
  the source's arithmetic does to the array shapes and to `frames_logical`.

## Model

| member | source | states |
|---|---|---|
| `Common.SliceBound` | bcdi/preprocessing/preprocessing_utils.py:127-128 | a Python slice bound lands inside [0, n] and is the bound itself when that already lies in [0, n] |
| `Common.SliceStop` | bcdi/preprocessing/preprocessing_utils.py:1018 | the Python slice `lo:hi` stops within the axis and not before its start, and at hi itself when `0 <= lo <= hi <= n` |
| `Common.Trunc` | bcdi/preprocessing/preprocessing_utils.py:172-174 | `int(x)` truncates toward zero: it lies within 1 of x, below x for x >= 0 and above it for x < 0 |
| `Common.TruncHalf` | bcdi/preprocessing/preprocessing_utils.py:197 | `int(m / 2)` with true division is integer halving rounded toward zero |
| `FftSizes.FriendlyAbove` | bcdi/preprocessing/preprocessing_utils.py:589-595 | when the search may terminate, some friendly number at least n exists, so the upward search of `higher_primes` ends |
| `FftSizes.NoFactorBelowPrime` | bcdi/preprocessing/preprocessing_utils.py:1115-1118 | a candidate that divides the remaining number after every smaller candidate was divided out is prime |
| `FftSizes.NoFactorBelowQuotient` | bcdi/preprocessing/preprocessing_utils.py:1116-1118 | dividing a factor out keeps the remaining number free of factors below the current candidate |
| `FftSizes.NoFactorBelowSquare` | bcdi/preprocessing/preprocessing_utils.py:1115-1121 | once `i * i` exceeds the remaining number, that number (if not 1) is a prime at least i |
| `FftSizes.DivideOut` | bcdi/preprocessing/preprocessing_utils.py:1116-1118 | dividing out candidate i keeps the trial-division invariant and strictly shrinks the remaining number |
| `FftSizes.NextCandidate` | bcdi/preprocessing/preprocessing_utils.py:1119 | when i no longer divides the remaining number, i + 1 may be tried with the invariant kept |
| `FftSizes.LastFactor` | bcdi/preprocessing/preprocessing_utils.py:1120-1122 | at loop exit the list, with the remaining number appended when it exceeds 1, is the factor list of the input |
| `FftSizes.Primes` | bcdi/preprocessing/preprocessing_utils.py:1102-1122 | returns 1 followed by the prime factors of `number` in non-decreasing order, with repetition, whose product is `number` |
| `FftSizes.MaxOf` | bcdi/preprocessing/preprocessing_utils.py:1381 | Python's `max` of a non-empty list is an element at least every element |
| `FftSizes.FactorListSmooth` | bcdi/preprocessing/preprocessing_utils.py:1380-1382 | a factor list whose largest entry is at most maxprime belongs to a maxprime-smooth number |
| `FftSizes.SmoothFactorList` | bcdi/preprocessing/preprocessing_utils.py:1380-1382 | a maxprime-smooth number has a factor list whose largest entry is at most maxprime |
| `FftSizes.FactorListBound` | bcdi/preprocessing/preprocessing_utils.py:1380-1382 | `max(primes(n)) <= maxprime` holds exactly when maxprime >= 1 and every prime dividing n is at most maxprime |
| `FftSizes.TrySmallerPrimes` | bcdi/preprocessing/preprocessing_utils.py:1370-1387 | answers true exactly when n is maxprime-smooth and divisible by every required divider |
| `FftSizes.HigherPrimes` | bcdi/preprocessing/preprocessing_utils.py:589-596 | an AssertionError exactly when not `number > 1 and maxprime <= number`; otherwise the least friendly number at least `number` |
| `FftSizes.SmallerPrimes` | bcdi/preprocessing/preprocessing_utils.py:1361-1367 | an AssertionError exactly when the assertion fails; 0 exactly when no friendly number lies in [1, number]; otherwise the greatest such number |
| `FftSizes.SmallerPrimesEach` | bcdi/preprocessing/preprocessing_utils.py:1349-1360 | entries are searched in order: all sizes when every entry succeeds, the scalar 0 when an entry has no friendly size below it, and AssertionError at the first entry that fails the assertion |
| `FftSizes.HigherPrimesEach` | bcdi/preprocessing/preprocessing_utils.py:576-588 | succeeds exactly when every entry passes the assertion, and then holds the least friendly size above each entry |
| `FftSizes.FixedPointIffFriendly` | bcdi/preprocessing/preprocessing_utils.py:166-167 | `higher_primes(n) == n` exactly when n is already friendly, which is the check `center_fft` makes on `pad_size` |
| `FftSizes.TwoIsFftFriendly` | bcdi/preprocessing/preprocessing_utils.py:124 | 2 is friendly for maxprime 7 and divider 2 |
| `FftSizes.NeverZeroForFft` | bcdi/preprocessing/preprocessing_utils.py:1362-1366 | for maxprime 7 and divider 2 the downward search from any n >= 2 never returns the scalar 0 |
| `FftSizes.FftFriendlyEven` | bcdi/preprocessing/preprocessing_utils.py:127 | a friendly size for divider 2 is even and at least 2, so `n // 2 * 2 == n` |
| `FftSizes.FriendlyThreshold` | bcdi/preprocessing/preprocessing_utils.py:1380-1387 | for a size with the required dividers, `try_smaller_primes` answers true exactly for the maxprimes at least the largest entry of `primes(n)`, so raising maxprime never loses a size |
| `Padding.ZeroPad` | bcdi/preprocessing/preprocessing_utils.py:2076-2110 | the new volume holds the array at the leading widths and the fill value (1 with `mask_flag`, else 0) everywhere else, with each axis grown by both its widths |
| `Padding.SliceLength` | bcdi/preprocessing/preprocessing_utils.py:127-128 | the slice `lo:hi` stays inside the axis and has length `hi - lo` when `0 <= lo <= hi <= n` |
| `Padding.SliceBoxInside` | bcdi/preprocessing/preprocessing_utils.py:127-128 | any 3D slice selects a box inside the volume |
| `Padding.Crop` | bcdi/preprocessing/preprocessing_utils.py:127-128 | `a[lo.z:hi.z, lo.y:hi.y, lo.x:hi.x]` is a copy of exactly the box Python's slices select |
| `Padding.CropThenPad` | bcdi/preprocessing/preprocessing_utils.py:170-176 | cropping and then zero-padding embeds the cropped box of the original with the pad widths |
| `Padding.CropUndoesPad` | bcdi/preprocessing/preprocessing_utils.py:2106 | slicing the leading widths back off a padded volume gives back the original volume |
| `Padding.PaddingIsFill` | bcdi/preprocessing/preprocessing_utils.py:2102-2105 | every cell outside the copied region holds the fill value |
| `Padding.NoPadIsCopy` | bcdi/preprocessing/preprocessing_utils.py:2102-2106 | padding with zero widths gives a copy of the same shape |
| `CenterFftPlan.PolicyNamed` | bcdi/preprocessing/preprocessing_utils.py:122-343 | a name selects an option exactly when it is one of the nine option names |
| `CenterFftPlan.FftSearchTerminates` | bcdi/preprocessing/preprocessing_utils.py:592-595 | with maxprime 7 and divider 2 the `higher_primes` search always terminates |
| `CenterFftPlan.FftSmaller` | bcdi/preprocessing/preprocessing_utils.py:124 | `smaller_primes(sizes, 7, (2,))` fails with AssertionError exactly when some size fails the assertion, and otherwise gives the greatest friendly size below each |
| `CenterFftPlan.FftHigher` | bcdi/preprocessing/preprocessing_utils.py:193 | `higher_primes(n, 7, (2,))` fails exactly when n fails the assertion, and otherwise gives the least friendly size at least n |
| `CenterFftPlan.FftEven` | bcdi/preprocessing/preprocessing_utils.py:127 | every size either search returns is even and at least 2 |
| `CenterFftPlan.MaxExtent` | bcdi/preprocessing/preprocessing_utils.py:113-115 | `2 * min(i, n - i)` is even, is 0 only when the peak is on the first cell, and gives a box centred on the peak inside the axis |
| `CenterFftPlan.EffectivePolicy` | bcdi/preprocessing/preprocessing_utils.py:117-119 | a peak index 0 on any axis or `do_nothing` selects `do_nothing`; an unknown name raises ValueError unless the box collapses |
| `CenterFftPlan.CentredFloorAxis` | bcdi/preprocessing/preprocessing_utils.py:127 | `c - s // 2 : c + s // 2` is an axis of length `smaller_primes(limit)` centred on c |
| `CenterFftPlan.CentredAxisInside` | bcdi/preprocessing/preprocessing_utils.py:127-128 | a centred even box no longer than the symmetric extent lies inside the axis, so the slice is taken literally |
| `CenterFftPlan.MiddleAxisInside` | bcdi/preprocessing/preprocessing_utils.py:146-149 | a box centred on `n // 2` no longer than the axis lies inside it, so the slice is taken literally |
| `CenterFftPlan.SymmetricWidthsExact` | bcdi/preprocessing/preprocessing_utils.py:172-174 | for an even target size the float formula `int(min(P/2 - i, P - n))` equals the integer one |
| `CenterFftPlan.SymmetricWidthsCentre` | bcdi/preprocessing/preprocessing_utils.py:172-174 | both symmetric widths are non-negative exactly when the peak lies within P/2 of both ends, and then the axis becomes P long |
| `CenterFftPlan.ClampedWidths` | bcdi/preprocessing/preprocessing_utils.py:270 | the clamped widths of `pad_symmetric_ZYX` are never negative |
| `CenterFftPlan.ClampedWidthsMeaning` | bcdi/preprocessing/preprocessing_utils.py:267-270 | when the peak fits, clamping changes nothing; when P <= n, both widths are 0 |
| `CenterFftPlan.AsymmetricWidthsSplit` | bcdi/preprocessing/preprocessing_utils.py:197 | the asymmetric widths add up to the difference and differ by at most one, with the larger one first |
| `CenterFftPlan.QuirkWidthsSum` | bcdi/preprocessing/preprocessing_utils.py:298 | the y widths of `pad_asymmetric_ZYX` add up to the difference, except when it is odd and the parity source is even: then they fall one short |
| `CenterFftPlan.CeilAxisFrom` | bcdi/preprocessing/preprocessing_utils.py:241 | the asymmetric widths pad the axis to exactly `higher_primes(n)` |
| `CenterFftPlan.PlanCropSymmetric` | bcdi/preprocessing/preprocessing_utils.py:122-134 | `crop_symmetric_ZYX`: a box centred on the peak of side `smaller_primes` of the largest symmetric extent, or AssertionError |
| `CenterFftPlan.PlanCropAsymmetric` | bcdi/preprocessing/preprocessing_utils.py:141-155 | `crop_asymmetric_ZYX`: a box centred on the array centre of side `smaller_primes` of the full shape, or AssertionError |
| `CenterFftPlan.CheckPadSize` | bcdi/preprocessing/preprocessing_utils.py:164-167 | the errors of the `pad_size[0]` checks, in source order: the assertion, then the friendliness check |
| `CenterFftPlan.PlanCropYX` | bcdi/preprocessing/preprocessing_utils.py:168-171 | the y/x crop of the `*_Z_crop_YX` options keeps all frames and centres the detector crop on the peak |
| `CenterFftPlan.PlanPadSymmetricZCropYX` | bcdi/preprocessing/preprocessing_utils.py:162-181 | `pad_symmetric_Z_crop_YX`: the `pad_size` checks, the detector crop, then symmetric z widths around the peak; ValueError on a negative width; frames padded with -1 |
| `CenterFftPlan.PlanPadAsymmetricZCropYX` | bcdi/preprocessing/preprocessing_utils.py:190-205 | `pad_asymmetric_Z_crop_YX`: the detector crop and z padded to `higher_primes(nbz)` by the near-even split |
| `CenterFftPlan.PlanPadSymmetricZ` | bcdi/preprocessing/preprocessing_utils.py:214-230 | `pad_symmetric_Z`: the `pad_size` checks and symmetric z widths around the peak, the detector untouched |
| `CenterFftPlan.PlanPadAsymmetricZ` | bcdi/preprocessing/preprocessing_utils.py:237-249 | `pad_asymmetric_Z`: z padded to `higher_primes(nbz)` by the near-even split, the detector untouched |
| `CenterFftPlan.PlanPadSymmetricZYX` | bcdi/preprocessing/preprocessing_utils.py:256-277 | `pad_symmetric_ZYX`: the checks on all three `pad_size` entries, then clamped symmetric widths on every axis |
| `CenterFftPlan.PadAsymmetricZYXPlan` | bcdi/preprocessing/preprocessing_utils.py:296-305 | the widths computed from the three `higher_primes` sizes, including the y-parity quirk, make the `pad_asymmetric_ZYX` plan |
| `CenterFftPlan.AsymmetricZYXAxes` | bcdi/preprocessing/preprocessing_utils.py:292-299 | z and x are padded to their `higher_primes` sizes and y by the quirky split |
| `CenterFftPlan.PlanPadAsymmetricZYX` | bcdi/preprocessing/preprocessing_utils.py:290-305 | `pad_asymmetric_ZYX`: every axis padded towards `higher_primes`, with IndexError when `pad_size` has fewer than two entries |
| `CenterFftPlan.PlanResize` | bcdi/preprocessing/preprocessing_utils.py:117-343 | the option after the collapse override, dispatched to the plan of that option; `do_nothing` keeps the data unless `fix_size` has three entries |
| `CenterFft.ScanCell` | bcdi/preprocessing/preprocessing_utils.py:94 | visiting one cell keeps the scan invariant: a strictly larger magnitude becomes the peak, a tie keeps the earlier one |
| `CenterFft.RowDone` | bcdi/preprocessing/preprocessing_utils.py:94 | the end of a row continues the scan at the next row |
| `CenterFft.PlaneDone` | bcdi/preprocessing/preprocessing_utils.py:94 | the end of a plane continues the scan at the next plane |
| `CenterFft.ScanDone` | bcdi/preprocessing/preprocessing_utils.py:94 | a completed scan has found the first cell of largest magnitude in C order |
| `CenterFft.ScanRow` | bcdi/preprocessing/preprocessing_utils.py:94 | scanning a row carries the scan invariant to the next row |
| `CenterFft.ScanPlane` | bcdi/preprocessing/preprocessing_utils.py:94 | scanning a plane carries the scan invariant to the next plane |
| `CenterFft.ArgMaxAbs` | bcdi/preprocessing/preprocessing_utils.py:94 | `np.unravel_index(abs(data).argmax(), shape)`: the first cell in C order whose magnitude is largest |
| `CenterFft.FramesAfter` | bcdi/preprocessing/preprocessing_utils.py:131-181 | a crop keeps the length of `frames_logical`, and a pad gives it the padded length |
| `CenterFft.CropProvenance` | bcdi/preprocessing/preprocessing_utils.py:131-134 | after a crop the frames inside the kept z range keep their value and all others become 0 |
| `CenterFft.PadProvenance` | bcdi/preprocessing/preprocessing_utils.py:179-181 | after a pad the new frames are -1 and the original frames sit shifted by the leading width |
| `CenterFft.ZeroFramesOutside` | bcdi/preprocessing/preprocessing_utils.py:131-134 | zeroes in place exactly the frames outside the kept range |
| `CenterFft.PaddedFrames` | bcdi/preprocessing/preprocessing_utils.py:179-181 | the new vector `temp_frames` is the padded provenance vector |
| `CenterFft.ResizeVolume` | bcdi/preprocessing/preprocessing_utils.py:170-176 | the volume is cropped to the plan's box, then zero-padded (one-padded for the mask) |
| `CenterFft.ApplyResize` | bcdi/preprocessing/preprocessing_utils.py:122-341 | data, mask and frames are each transformed by the plan; a crop updates the caller's `frames_logical` and returns it, a pad returns a new vector and leaves the caller's array as it was; `do_nothing` returns the inputs themselves |
| `CenterFft.Center` | bcdi/preprocessing/preprocessing_utils.py:18-349 | the input checks raise their errors in source order; a missing centre of mass raises ValueError; an out-of-range peak raises IndexError; otherwise the chosen option is applied around the peak; on any error, and on every pad, the caller's `frames_logical` is unchanged |
| `CenterFft.CenterOn` | bcdi/preprocessing/preprocessing_utils.py:117-343 | around a peak inside the data, the planned resize is applied (a pad leaving the caller's `frames_logical` as it was) or its error is returned with `frames_logical` unchanged |
| `CenterFft.CropSymmetricInside` | bcdi/preprocessing/preprocessing_utils.py:124-128 | the `crop_symmetric_ZYX` box lies inside the data and its sides are `smaller_primes` of the largest box around the peak |
| `CenterFft.CropAsymmetricInside` | bcdi/preprocessing/preprocessing_utils.py:143-149 | the `crop_asymmetric_ZYX` box lies inside the data and its sides are `smaller_primes` of the data's shape |
| `CenterFft.CropYXInside` | bcdi/preprocessing/preprocessing_utils.py:168-171 | the detector crop of the `*_Z_crop_YX` options lies inside the data |
| `CenterFft.PlanCropsInside` | bcdi/preprocessing/preprocessing_utils.py:122-205 | every crop box a plan asks for lies inside the data and is read as written; the two crop options read boxes whose sides are the `smaller_primes` sizes |
| `CenterFft.PlanExecutable` | bcdi/preprocessing/preprocessing_utils.py:122-316 | every plan an option decides has crop boxes inside the data, non-negative widths and a frames update that fits the vector |
| `Normalize.CountNonZero` | bcdi/preprocessing/preprocessing_utils.py:1066 | the length of the aligned monitor, `(frames_logical != 0).sum()`, is at most the number of frames |
| `Normalize.CountPadded` | bcdi/preprocessing/preprocessing_utils.py:1075 | the number of padded frames is at most the number of frames |
| `Normalize.CountStep` | bcdi/preprocessing/preprocessing_utils.py:1069-1079 | one more frame increments the used count when the frame is non-zero and the padded count when it is -1 |
| `Normalize.SeqMin` | bcdi/preprocessing/preprocessing_utils.py:1072 | `raw_monitor.min()` is at most every value |
| `Normalize.SeqMax` | bcdi/preprocessing/preprocessing_utils.py:1074 | `raw_monitor.max()` is at least every value |
| `Normalize.SeqMinAttained` | bcdi/preprocessing/preprocessing_utils.py:1072 | the minimum is one of the values |
| `Normalize.SeqMaxAttained` | bcdi/preprocessing/preprocessing_utils.py:1074 | the maximum is one of the values |
| `Normalize.AlignStep` | bcdi/preprocessing/preprocessing_utils.py:1069-1079 | one iteration of the alignment loop on a frame that does not fail keeps the alignment invariant |
| `Normalize.AlignDone` | bcdi/preprocessing/preprocessing_utils.py:1069-1079 | after the last frame the monitor is the aligned monitor, and it is positive |
| `Normalize.AlignFrame` | bcdi/preprocessing/preprocessing_utils.py:1070-1079 | one pass of the loop body updates `nb_padded` and `nb_overlap` as counts over the frames seen, and keeps the invariant |
| `Normalize.AlignMonitor` | bcdi/preprocessing/preprocessing_utils.py:1066-1079 | the loop raises the error of the first frame that cannot get a value, else builds the aligned monitor: the raw extreme for padded frames and the shifted raw value for used frames |
| `Normalize.FactorToMin` | bcdi/preprocessing/preprocessing_utils.py:1085 | `monitor.min() / monitor[i]` lies in (0, 1], and scaling frame i by it brings it to the minimum |
| `Normalize.FactorToMax` | bcdi/preprocessing/preprocessing_utils.py:1088 | `monitor[i] / monitor.max()` lies in (0, 1] and times the maximum gives back `monitor[i]` |
| `Normalize.Factors` | bcdi/preprocessing/preprocessing_utils.py:1084-1089 | one factor per monitor value, each in (0, 1] |
| `Normalize.FactorsReachOne` | bcdi/preprocessing/preprocessing_utils.py:1084-1089 | some frame, the one holding the extreme monitor value, gets the factor exactly 1 |
| `Normalize.NormalizeDataset` | bcdi/preprocessing/preprocessing_utils.py:1041-1099 | the first failing frame's error, ValueError for an empty monitor, or ValueError for a length mismatch, in each case with the array unchanged; success exactly when no frame fails and the monitor is non-empty and as long as the data; then the factors of the aligned monitor, with every frame scaled by its factor |
| `Normalize.ScaleFrames` | bcdi/preprocessing/preprocessing_utils.py:1096-1097 | every cell of frame z is multiplied by the factor of frame z |
| `HotPixels.StackSumCountsFlags` | bcdi/preprocessing/preprocessing_utils.py:1311-1313 | for a stack of 0/1 maps the sum over frames counts the flags, so a summed pixel is hot exactly when one frame flags it |
| `HotPixels.SumFrames` | bcdi/preprocessing/preprocessing_utils.py:1313 | `hotpixels.sum(axis=0)` holds the sum over all frames at each pixel |
| `HotPixels.Summed` | bcdi/preprocessing/preprocessing_utils.py:1311-1313 | the 2D hot-pixel map has value 1 exactly at the hot pixels, and is the argument itself when that was 2D |
| `HotPixels.RemoveHotpixels2D` | bcdi/preprocessing/preprocessing_utils.py:1302-1335 | a shape mismatch raises ValueError and changes nothing, and matching shapes always succeed; then the hot pixels are zeroed in the data and set in the mask, all other pixels unchanged |
| `HotPixels.RemoveHotpixels3D` | bcdi/preprocessing/preprocessing_utils.py:1302-1335 | the same on every frame of a stack; an empty stack raises IndexError at `data[0, :, :]`; a non-empty stack of matching shape always succeeds |
| `DetectorGaps.ValidPrefix` | bcdi/preprocessing/preprocessing_utils.py:910-923 | the assignments before the first integer index out of range all succeed, and that one fails |
| `DetectorGaps.FillRects` | bcdi/preprocessing/preprocessing_utils.py:910-923 | the assignments run in order up to the first IndexError, and a pixel gets the value exactly when an assignment that ran covers it |
| `DetectorGaps.MaskGaps` | bcdi/preprocessing/preprocessing_utils.py:896-939 | a shape mismatch raises ValueError with nothing changed; else the data table zeroes its pixels, then, if none raised, the mask table sets its pixels to 1 |
| `DetectorGaps.MaskMaxipix` | bcdi/preprocessing/preprocessing_utils.py:968-987 | `mask_maxipix` applies the Maxipix gap table to data and mask |
| `DetectorGaps.MaskEiger4m` | bcdi/preprocessing/preprocessing_utils.py:942-965 | `mask_eiger4m` applies the Eiger4M gap table to data and mask |
| `DetectorGaps.MaskEiger` | bcdi/preprocessing/preprocessing_utils.py:896-939 | `mask_eiger` applies its data table to the data and its mask table to the mask |
| `DetectorGaps.MaxipixGaps` | bcdi/preprocessing/preprocessing_utils.py:982-986 | the Maxipix table never raises and covers exactly rows and columns 255 to 260 |
| `DetectorGaps.Eiger4mGaps` | bcdi/preprocessing/preprocessing_utils.py:956-964 | the Eiger4M table never raises and covers exactly columns 1029 to 1040 and rows 513-551, 1064-1102 and 1614-1653 |
| `DetectorGaps.EigerNeedsWidth` | bcdi/preprocessing/preprocessing_utils.py:910-937 | the Eiger tables run fully on frames wider than 481 columns, and stop with IndexError at the column-478 or column-481 assignment on narrower ones |
| `DetectorGaps.EigerMaskedNotZeroed` | bcdi/preprocessing/preprocessing_utils.py:915-930 | on every pixel of the frame, the mask table covers exactly the data table's pixels plus rows 511 to 551, because the data table's sixth assignment slices `:0` and selects nothing |
| `MeanFilter.RowZeros` | bcdi/preprocessing/preprocessing_utils.py:1013 | every listed pixel of a row is a zero pixel of that row |
| `MeanFilter.ZeroPixels` | bcdi/preprocessing/preprocessing_utils.py:1013 | every listed pixel of the array is a zero pixel |
| `MeanFilter.RowZerosComplete` | bcdi/preprocessing/preprocessing_utils.py:1013 | every zero pixel of a row is listed |
| `MeanFilter.ZeroPixelsComplete` | bcdi/preprocessing/preprocessing_utils.py:1013 | every zero pixel of the array is listed |
| `MeanFilter.RowZerosSorted` | bcdi/preprocessing/preprocessing_utils.py:1013 | a row's zero pixels are listed left to right without repetition |
| `MeanFilter.ZeroPixelsSorted` | bcdi/preprocessing/preprocessing_utils.py:1013 | the list is strictly increasing in row-major order, so no pixel is visited twice |
| `MeanFilter.RowArgWhereZero` | bcdi/preprocessing/preprocessing_utils.py:1013 | the scan of one row collects its zero pixels in order |
| `MeanFilter.ArgWhereZero` | bcdi/preprocessing/preprocessing_utils.py:1013 | `np.argwhere(data == 0)` yields exactly the zero pixels in row-major order |
| `MeanFilter.RowNoneNonZero` | bcdi/preprocessing/preprocessing_utils.py:1019 | a row segment with no non-zero pixel sums to zero |
| `MeanFilter.NoneNonZero` | bcdi/preprocessing/preprocessing_utils.py:1019 | a window with no non-zero pixel sums to zero, so a window summing above 24 has a non-zero pixel and the mean is defined |
| `MeanFilter.WindowStats` | bcdi/preprocessing/preprocessing_utils.py:1018-1019 | reads `temp.sum()` and `sum(sum(temp != 0))` of the window from the array |
| `MeanFilter.Mean` | bcdi/preprocessing/preprocessing_utils.py:1023 | the interpolated value of a qualifying pixel is positive |
| `MeanFilter.Step` | bcdi/preprocessing/preprocessing_utils.py:1018-1027 | one iteration keeps the data, mask and count shapes |
| `MeanFilter.Filter` | bcdi/preprocessing/preprocessing_utils.py:1015-1027 | the loop over the visited pixels keeps the shapes |
| `MeanFilter.FilterStep` | bcdi/preprocessing/preprocessing_utils.py:1015-1027 | the loop over one more pixel is one more iteration |
| `MeanFilter.FilterCount` | bcdi/preprocessing/preprocessing_utils.py:1021 | the count grows by at most one per visited pixel |
| `MeanFilter.FilterUntouched` | bcdi/preprocessing/preprocessing_utils.py:1015-1027 | a pixel that is not visited keeps its data and mask values |
| `MeanFilter.MaskingKeepsData` | bcdi/preprocessing/preprocessing_utils.py:1026-1027 | without interpolation the data is never changed |
| `MeanFilter.MaskingClosedForm` | bcdi/preprocessing/preprocessing_utils.py:1019-1027 | without interpolation a pixel ends masked exactly when it is visited and its neighbourhood in the original data qualifies; otherwise its mask is unchanged |
| `MeanFilter.StepInterpolates` | bcdi/preprocessing/preprocessing_utils.py:1022-1025 | an interpolated pixel receives the mean of its non-zero neighbours and is unmasked |
| `MeanFilter.Visit` | bcdi/preprocessing/preprocessing_utils.py:1016-1027 | one pass of the loop body updates the arrays as one iteration does, and reports whether the pixel was treated |
| `MeanFilter.MeanFilter` | bcdi/preprocessing/preprocessing_utils.py:990-1038 | the arrays end as the loop over `np.argwhere(data == 0)` of the original data leaves them, and the count of treated pixels is returned |
| `MaskEditors.Narrow` | bcdi/preprocessing/preprocessing_utils.py:1473-1477 | `down` shrinks the brush half-width by one but never below 0 |
| `MaskEditors.NarrowUndoesWiden` | bcdi/preprocessing/preprocessing_utils.py:1469-1477 | `down` after `up` restores any valid width |
| `MaskEditors.NextFrame` | bcdi/preprocessing/preprocessing_utils.py:1417-1441 | `u` moves to the next frame, wrapping after the last |
| `MaskEditors.PreviousFrame` | bcdi/preprocessing/preprocessing_utils.py:1443-1468 | `d` moves to the previous frame, wrapping before the first |
| `MaskEditors.FramesInverse` | bcdi/preprocessing/preprocessing_utils.py:1417-1468 | on a valid frame `u` and `d` undo each other |
| `MaskEditors.AxisIndex` | bcdi/preprocessing/preprocessing_utils.py:1534 | an integer index is valid exactly in [-n, n), and a negative index counts from the end |
| `MaskEditors.BrushAroundPointer` | bcdi/preprocessing/preprocessing_utils.py:1525-1534 | with the pointer on the axis the brush is the window of half-width `width` around it, clamped to the axis, and contains the pointer |
| `MaskEditors.BrushAt` | bcdi/preprocessing/preprocessing_utils.py:1654-1664 | the 2D brush lies inside the frame |
| `MaskEditors.FrameBrush` | bcdi/preprocessing/preprocessing_utils.py:1533-1549 | the brush in frame `idx` of axis `dim` lies inside the volume |
| `MaskEditors.AlienEditor3D.constructor` | bcdi/preprocessing/preprocessing_utils.py:1390-1413 | the handler state is the arguments given |
| `MaskEditors.AlienEditor3D.Erase` | bcdi/preprocessing/preprocessing_utils.py:1523-1555 | `m` zeroes the data and sets the mask inside the box, nothing else changes |
| `MaskEditors.AlienEditor3D.Restore` | bcdi/preprocessing/preprocessing_utils.py:1556-1591 | `b` copies the original data back and clears the mask inside the box, nothing else changes |
| `MaskEditors.AlienEditor3D.HandleKey` | bcdi/preprocessing/preprocessing_utils.py:1390-1595 | ValueError exactly for an axis above 2; IndexError exactly when the frame shown or edited is outside the axis; on error all state is kept; otherwise the frame, width and stop flag follow the key, and `m`/`b` erase/restore the brush box |
| `MaskEditors.AlienEditor2D.constructor` | bcdi/preprocessing/preprocessing_utils.py:1598-1619 | the handler state is the arguments given |
| `MaskEditors.AlienEditor2D.HandleKey` | bcdi/preprocessing/preprocessing_utils.py:1598-1692 | `q` stops, `up`/`down` change the width, and `m`/`b` erase/restore the brush rectangle; other keys leave the arrays unchanged |
| `MaskEditors.Closed` | bcdi/preprocessing/preprocessing_utils.py:1861 | the closed polygon is the vertex list with its first vertex repeated at the end |
| `MaskEditors.MaskEditor3D.constructor` | bcdi/preprocessing/preprocessing_utils.py:1695-1725 | the handler state is the arguments given |
| `MaskEditors.MaskEditor3D.Restart` | bcdi/preprocessing/preprocessing_utils.py:1835-1850 | `a`: a fresh copy of the original data with originally masked pixels set to `masked_color / n`, and an empty projected mask |
| `MaskEditors.DrawMask` | bcdi/preprocessing/preprocessing_utils.py:1975-2049 | every pixel of the 2D mask ends as `NewMask` says: 1 inside the brush rectangle for `m`, 0 there for `b`, 1 inside the closed polygon for `p`, and its old value elsewhere |
| `MaskEditors.MaskEditor3D.Draw` | bcdi/preprocessing/preprocessing_utils.py:1781-1869 | `m` sets and `b` clears the brush rectangle of the projected mask, and `p` sets the pixels inside the closed polygon |
| `MaskEditors.MaskEditor3D.HandleKey` | bcdi/preprocessing/preprocessing_utils.py:1695-1893 | ValueError exactly for an axis outside 0-2; ZeroDivisionError exactly for `a` on an empty axis; on error all state is kept; otherwise pause, vertices, width and stop follow the key, and `a` restarts on fresh copies, leaving the arrays held before untouched, while `m`/`b`/`p` draw |
| `MaskEditors.MaskEditor2D.constructor` | bcdi/preprocessing/preprocessing_utils.py:1896-1924 | the handler state is the arguments given |
| `MaskEditors.MaskEditor2D.Shade` | bcdi/preprocessing/preprocessing_utils.py:2051 | masked pixels take the masked colour in the data, others are unchanged |
| `MaskEditors.MaskEditor2D.Draw` | bcdi/preprocessing/preprocessing_utils.py:1975-2049 | `m` sets and `b` clears the brush rectangle of the mask, and `p` sets the pixels inside the closed polygon |
| `MaskEditors.MaskEditor2D.Restart` | bcdi/preprocessing/preprocessing_utils.py:2027-2034 | `a`: a fresh copy of the original data with originally masked pixels set to the masked colour, and an empty mask |
| `MaskEditors.MaskEditor2D.HandleKey` | bcdi/preprocessing/preprocessing_utils.py:1896-2073 | pause, vertices, width and stop follow the key; `a` restarts on fresh copies, leaving the arrays held before untouched; `m`/`b`/`p` draw into the mask; only `right`, `left`, `m`, `b` and `p` shade the masked pixels in the data, every other key leaves the data as it was |

## Left out

- Plotting, figure handling, `print` and the `debugging` branches are not modelled.
- `vmax` and the `log10` display scaling of the editors are not modelled.
- `q_values` is accepted as a known keyword of `center_fft`, but the q grids
  are not sliced or extrapolated and are not returned. They are
  floating-point bookkeeping that the returned arrays do not depend on.
- `center_fft`'s centre of mass (`centering='com'`) is the input `comPeak`.
  `None` stands for a centre of mass that is not finite. Computing it needs
  floating-point sums, which are not modelled.
- Negative peak indices given through `fix_bragg` raise IndexError in the
  model; Python would wrap them around.
- `Path(xy).contains_points(points)` is the parameter `contains`, and the
  `points` grid is not modelled. The mouse-click handler that appends vertices
  to `xy` is not part of this model.
- The in-place `xy.append(xy[0])` aliasing of the caller's list is not
  modelled: `p` replaces the list by the closed polygon and then empties it,
  as the source does.
- numpy views and copies: arrays that the source passes as distinct arrays are
  required to be distinct (`data != mask`, the hot-pixel map apart from both,
  the editors' arrays apart from each other).
- `CenterFft.ApplyResize` and `CenterFft.ResizeVolume`: for the two
  crop-only options, `crop_symmetric_ZYX` and `crop_asymmetric_ZYX`, the
  source returns basic slices of the caller's `data` and `mask`
  (preprocessing_utils.py:126-127, 144-147), which are numpy views sharing
  their memory. The model returns fresh copies holding the same values, so a
  later write through the returned arrays does not reach the caller's volume
  as it would in the source.
- `FftSizes.SmallerPrimesEach` and `FftSizes.HigherPrimesEach`: only the
  list/tuple branches are modelled, on Python `int` entries. On an
  `np.ndarray` the entries are numpy integers, which `primes` rejects with
  TypeError (preprocessing_utils.py:1109-1110), so the source never returns
  sizes there; that branch, like any non-`int` entry, is excluded by the
  `int` type. Every call in the core passes a tuple.
- Array shapes and `ndim` are enforced by the Dafny array types. The
  TypeError/ValueError raised for a wrong number of dimensions is therefore
  not modelled.
- The editors' constructors require the arrays to have matching shapes, as
  the calling scripts ensure. `mean_filter` requires the mask to have the
  data's shape, which the source does not check.
- `FftSizes.Primes`: the source's `assert number > 0` is a precondition, since
  every caller passes a positive number.
- `FftSizes.HigherPrimes`: the source loops forever when no friendly number
  exists. The model requires maxprime >= 2 and smooth positive dividers, for
  which the search terminates (`SearchTerminates`).
- `Padding.ZeroPad`: requires non-negative widths. Called directly,
  `zero_pad` accepts some negative widths through numpy's slicing and
  broadcasting: on an axis of length 1, widths (-1, 3) assign into an empty
  slice and return a volume of fill only; on an axis of length n, a leading
  width below -n with a large enough trailing width selects a slice of length
  n and succeeds. These calls are not modelled. On the widths the plan
  functions compute, a negative width makes numpy raise ValueError
  (preprocessing_utils.py:2103, 2105 or 2106), and the plan functions return
  that ValueError before any call of `ZeroPad`.
- `FftSizes.TrySmallerPrimes`, `FftSizes.SmallerPrimes` and
  `FftSizes.HigherPrimes`: require every required divider to be at least 1
  (`PositiveDividers`). A 0 would raise ZeroDivisionError, and negative
  dividers are not modelled. Every call in the core passes `(2,)`, and the
  default is `(4,)`.
- `Normalize.NormalizeDataset`: requires a positive raw monitor. Zero or
  negative monitor values (division by zero, IEEE infinities and NaN) are not
  modelled, and the arithmetic is on exact reals rather than floats.
- numpy reductions (`sum`, `argmax`, `argwhere`, `min`, `max`) are written as
  explicit loops or recursive functions over the arrays.
- Other functions of the source file are not part of this model.

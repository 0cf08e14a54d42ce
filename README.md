# StreamlitWeb_DataDisplay, modelled in Dafny

StreamlitWeb_DataDisplay is a set of Streamlit pages for a materials-electrochemistry lab.
The pages turn instrument exports into Excel workbooks, analyse and normalise the data, and
prepare microscope images. This project models the computing core of those pages and proves
what it does. The core covers:

- **Instrument converters.** CHI and ichy potentiostats, Keithley source meters, UV-Vis `.sca`
  files, Avantes spectra, LANHE battery testers and XRD scans. Each one finds the data block,
  picks a mode from a header, builds the columns, converts units and derives the output name.
- **Segment splitting.** `electricity_excel_split_segment.py` cuts CV sheets where the sweep
  reverses and GCD sheets where the current changes sign.
- **Normalisation.** Per-column and global min-max normalisation of a workbook.
- **It-curve analysis.** Peak picking, duplicate removal, cumulative charge, normalisation and
  the window handed to the fit, from `electropolymerization_analysis.py`.
- **Images.** Radial colour profiles and the colour window of the coffee-ring page, cropping and
  grid splitting, the magnification read from a file name and the scale bar.
- **The chemical-polymerisation page.** Its path lists, image tables, date and number selection.

Each core file is one module. A few modules are shared by all of them:

- `Base`: results carrying the Python exception raised, and float cells that may be NaN.
- `Text` and `Naming`: Python's string rules and the output-path idiom.
- `Frames`: a pandas frame changed in place, as a class.
- `Masks`: boolean-mask indexing.
- `Stats`: mean and population variance.

Code that changes state step by step is written as methods with loop invariants. Examples are
the segment state machine, the charge accumulation, column assignment on a frame, the crop
loops and the image-table loop. Each such method is proved against a function that specifies
it, and the properties are proved about that function.

Parsing of numbers (`float`, `int`) is a parameter of the converters. So are `cos`/`sin` of
whole degrees, `log10`, `10 ** x`, Savitzky-Golay smoothing, Python's float formatting and the
base64 image URI. Everything else is computed in the model, over exact reals and unbounded
integers.

On the coffee-ring page, a sample coordinate is `int(centre + r * cos)`. This truncates the
whole sum toward zero, not the offset alone. So an offset in `(-1, 0)` keeps the centre's row
or column only when the centre is 0. The model follows the code: `int(5 - 0.5)` is 4.

## Model

| member | source | states |
|---|---|---|
| CoffeeRing.TruncNearWhole | pages/multipages/image_coffee_ring.py:117-118 | `int()` truncates toward zero: an offset under one pixel from a whole centre coordinate lands on `c - 1` or `c + 1` only when it moves toward zero, and on `c` otherwise |
| CoffeeRing.SamplePoint | pages/multipages/image_coffee_ring.py:145-146 | defines the sample point `(int(cx + i * cos), int(cy + i * sin))`; `SamplePointAtCentre` and `TruncNearWhole` state its properties |
| CoffeeRing.SamplePointAtCentre | pages/multipages/image_coffee_ring.py:145-146 | the sample at distance 0 is the centre, whatever the angle |
| CoffeeRing.InBounds | pages/multipages/image_coffee_ring.py:148-149 | defines the loop's guard negated: `0 <= x < width` and `0 <= y < height` |
| CoffeeRing.RingPoints | pages/multipages/image_coffee_ring.py:140-146 | a ring has one candidate point per whole degree 0..359, 360 in all |
| CoffeeRing.DirectionPoints | pages/multipages/image_coffee_ring.py:115-118 | a direction has one candidate point per distance `0..new_radius` |
| CoffeeRing.InBoundsRun | pages/multipages/image_coffee_ring.py:121-122 | the run before the break: every point in it is inside the image and the point right after it is outside |
| CoffeeRing.Samples | pages/multipages/image_coffee_ring.py:149-154 | the collected values are `img[y, x]` at the points before the first point outside the image, in order, and never more than there are points |
| CoffeeRing.Pixels | pages/multipages/image_coffee_ring.py:153-154 | defines `img[y, x]` of one channel at each point, row first, in order |
| CoffeeRing.SampleRing | pages/multipages/image_coffee_ring.py:138-154 | the inner loop over angles collects exactly the ring's in-bounds prefix |
| CoffeeRing.RingSamples | pages/multipages/image_coffee_ring.py:138-154 | defines the values of ring `i`: the pixels at the ring's in-bounds prefix of angles; `SampleRing` and `SamplesAreLoopResult` state how the loop reaches them |
| CoffeeRing.SamplesAreLoopResult | pages/multipages/image_coffee_ring.py:148-154 | any list that is the in-bounds prefix read row first and stops at the first outside point is the sample list |
| CoffeeRing.RadialProfileMeanVariance | pages/multipages/image_coffee_ring.py:130-160 | two lists of length `new_radius + 1`; entry `i` is the mean and the population variance of ring `i`'s samples |
| CoffeeRing.RingZeroIsCentre | pages/multipages/image_coffee_ring.py:136-158 | ring 0 around a centre inside the image reads the centre pixel 360 times, so its mean is that pixel and its variance 0 |
| CoffeeRing.RingOutsideFromAngleZero | pages/multipages/image_coffee_ring.py:140-158 | when angle 0 is already outside, the ring has no samples and its mean and variance are NaN |
| CoffeeRing.RadialProfileDirection | pages/multipages/image_coffee_ring.py:109-128 | the values along one direction are the in-bounds prefix of distances `0..new_radius`, at most `new_radius + 1` of them |
| CoffeeRing.SquaredDistance | pages/multipages/image_coffee_ring.py:96-97 | the squared pixel distance is zero exactly for coincident points |
| CoffeeRing.Scale | pages/multipages/image_coffee_ring.py:96-103 | a scale exists exactly when the two points differ |
| CoffeeRing.ScaleSymmetric | pages/multipages/image_coffee_ring.py:96-98 | the scale does not depend on the order of the points, and scale times pixel distance is the entered distance |
| CoffeeRing.MarkedPoints | pages/multipages/image_coffee_ring.py:76-83 | markers go on the copy only at the entered points that lie inside the image, at most two |
| CoffeeRing.ThresholdBounds | pages/multipages/image_coffee_ring.py:182-186 | `color ± t` on uint8 pixels under NumPy 2 promotion (NEP 50): both bounds stay bytes (they wrap modulo 256), one per channel |
| CoffeeRing.ExactThresholdBounds | pages/multipages/image_coffee_ring.py:182-186 | `color ± t` under NumPy 1.x promotion to int64: one exact bound per channel, `t` below and above the colour |
| CoffeeRing.Saturate | pages/multipages/image_coffee_ring.py:189 | `cv2.inRange` saturates its bounds to 0..255, keeping bounds already in range |
| CoffeeRing.ExactBoundsSaturateToClamped | pages/multipages/image_coffee_ring.py:182-189 | under NumPy 1.x the saturated exact bounds are the clamped bounds, so the mask is the `±t` window around the colour |
| CoffeeRing.ClampedThresholdBounds | pages/multipages/image_coffee_ring.py:184-186 | the corrected bounds have one entry per channel |
| CoffeeRing.IsBytes | pages/multipages/image_coffee_ring.py:182-189 | defines a pixel or bound of `uint8` values, 0 to 255 |
| CoffeeRing.InRange | pages/multipages/image_coffee_ring.py:189 | defines `cv2.inRange` for one pixel: every channel lies between its lower and upper bound |
| CoffeeRing.ClampedMaskIsWindow | pages/multipages/image_coffee_ring.py:184-189 | with clamped bounds a byte pixel is in the mask exactly when every channel is within `t` of the chosen colour, and the colour is in its own mask |
| CoffeeRing.WrappedBoundsAwayFromEnds | pages/multipages/image_coffee_ring.py:185-186 | while every channel is at least `t` from 0 and 255 the wrapped and clamped bounds coincide |
| CoffeeRing.WrappedBoundsDropTheCentre | pages/multipages/image_coffee_ring.py:182-189 | under NumPy 2 a dark channel (5 with `t` = 20) wraps its lower bound to 241, so the chosen colour falls outside its own mask |
| CoffeeRing.RadialProfileData | pages/multipages/image_coffee_ring.py:243-247 | one row per radius `0..radius` with the mean and variance of channels 0, 1, 2; the circle sheet lists `cx`, `cy` with radius and scale; both files are named `file_name[:-4] + '_RadialProfile'` |
| Stats.Mean | pages/multipages/image_coffee_ring.py:157 | `np.mean` is NaN exactly for an empty list |
| Stats.Variance | pages/multipages/image_coffee_ring.py:158 | `np.var` is NaN exactly for an empty list |
| Stats.MeanBetweenBounds | pages/multipages/image_coffee_ring.py:157 | the mean of a non-empty list lies between any bounds of its values |
| Stats.VarianceNonNegative | pages/multipages/image_coffee_ring.py:158 | the variance of a non-empty list is a non-negative number |
| Stats.VarianceZeroIffConstant | pages/multipages/image_coffee_ring.py:158 | the variance is 0 exactly when all values are equal, and the mean is then that value |
| SegmentSplit.DirNext | pages/preprocess/electricity_excel_split_segment.py:36 | each split flips the direction flag, so segment `k + 1` runs opposite to segment `k` |
| SegmentSplit.Dir | pages/preprocess/electricity_excel_split_segment.py:36 | defines the direction of segment `k`: the initial flag flipped once per split before it |
| SegmentSplit.Reverses | pages/preprocess/electricity_excel_split_segment.py:27-28 | defines the split test: CV a falling potential while forward or a rising one while backward (GCD, at :85, a negative current while positive or a positive one while negative); `CvSegmentsMonotone` and `SegmentsPartitionRows` use it |
| SegmentSplit.InitialForward | pages/preprocess/electricity_excel_split_segment.py:9-10 | defines the initial flag: `potential[1] > potential[0]` for CV, `current[1] > 0` for GCD (:67-68) |
| SegmentSplit.Step | pages/preprocess/electricity_excel_split_segment.py:24-50 | defines one loop iteration: on a split the buffer is flushed, the flag flips and the row starts the next buffer; otherwise the row joins the buffer; `StepKeepsInvariant` states what it keeps |
| SegmentSplit.Run | pages/preprocess/electricity_excel_split_segment.py:23-50 | defines the loop over the rows as iterated `Step`; `RunSnoc` and `RunKeepsInvariant` state its properties |
| SegmentSplit.Start | pages/preprocess/electricity_excel_split_segment.py:8-20 | defines the state before the loop: no segments, an empty buffer, the initial flag and row 0 as the previous row |
| SegmentSplit.Segments | pages/preprocess/electricity_excel_split_segment.py:23-55 | defines the segments in numbering order, the final buffer last; `SegmentsPartitionRows` states that they partition the rows |
| SegmentSplit.WellSplit | pages/preprocess/electricity_excel_split_segment.py:23-50 | defines the partition the loop promises: no reversal inside a segment, a reversal at every later segment's start, and no reversal before the first segment's first row |
| SegmentSplit.NoReversalInside | pages/preprocess/electricity_excel_split_segment.py:27-44 | defines "no row inside a segment reverses its direction against the row before it" |
| SegmentSplit.ReversalAtEachStart | pages/preprocess/electricity_excel_split_segment.py:27-36 | defines "every segment after the first starts with a row that reverses the previous direction against the row placed just before it" |
| SegmentSplit.RunSnoc | pages/preprocess/electricity_excel_split_segment.py:23-50 | the state after `i + 1` rows is one loop iteration applied to the state after `i` rows |
| SegmentSplit.RunKeepsInvariant | pages/preprocess/electricity_excel_split_segment.py:23-50 | after any number of rows the finished segments plus the one in progress concatenate to exactly the rows read, the flag is the initial direction flipped once per split, `prev` is the last row read, and the partition is well split |
| SegmentSplit.StepKeepsInvariant | pages/preprocess/electricity_excel_split_segment.py:27-50 | one iteration (flush on a reversal, otherwise append) keeps the partition invariant |
| SegmentSplit.SegmentsPartitionRows | pages/preprocess/electricity_excel_split_segment.py:23-55 | every row goes into exactly one segment, in input order; no segment has a reversal inside it and every segment after the first starts with a reversal against the row before it |
| SegmentSplit.CvSegmentsMonotone | pages/preprocess/electricity_excel_split_segment.py:10-28 | inside a CV segment the potential never falls while forward and never rises while backward; equal potentials never split |
| SegmentSplit.FirstSegmentEmptyIff | pages/preprocess/electricity_excel_split_segment.py:6-93 | segment 1 is empty exactly when row 0 already reverses the initial direction; in CV mode it never is, in GCD mode it is when row 0 has the sign opposite to row 1 |
| SegmentSplit.Quantities | pages/preprocess/electricity_excel_split_segment.py:30-32 | three distinct quantities per segment, in the mode's column order |
| SegmentSplit.Column | pages/preprocess/electricity_excel_split_segment.py:46-48 | a segment's column holds that quantity of each of its rows, in order |
| SegmentSplit.Field | pages/preprocess/electricity_excel_split_segment.py:46-48 | defines which quantity of a row goes into column `c`: time, then potential and current in CV order, current and potential in GCD order |
| SegmentSplit.Columns | pages/preprocess/electricity_excel_split_segment.py:30-55 | three columns per segment |
| SegmentSplit.SegmentColumns | pages/preprocess/electricity_excel_split_segment.py:30-32 | defines a segment's three `pd.Series`, in the mode's column order |
| SegmentSplit.ColumnsAt | pages/preprocess/electricity_excel_split_segment.py:30-55 | column `3k + c` of the sheet is quantity `c` of segment `k` |
| SegmentSplit.FlushedLabels | pages/preprocess/electricity_excel_split_segment.py:30-32 | three labels per segment flushed inside the loop |
| SegmentSplit.SheetLabels | pages/preprocess/electricity_excel_split_segment.py:30-55 | three labels per segment in all |
| SegmentSplit.LabelAt | pages/preprocess/electricity_excel_split_segment.py:30-55 | label `i` is `Segment {i/3+1} <quantity i%3>`, without the space for the last segment |
| SegmentSplit.Label | pages/preprocess/electricity_excel_split_segment.py:30-55 | defines `Segment {n} q` for a flushed segment and `Segment{n} q` for the last; `LabelAt` and `LabelInjective` state its properties |
| SegmentSplit.SegmentLabels | pages/preprocess/electricity_excel_split_segment.py:30-32 | defines a segment's three labels in the mode's quantity order |
| SegmentSplit.FlushedLabelAt | pages/preprocess/electricity_excel_split_segment.py:30-32 | flushed labels are `Segment {n} <quantity>` with a space |
| SegmentSplit.LabelInjective | pages/preprocess/electricity_excel_split_segment.py:30-55 | a label determines its segment number, whether it is the last segment, and its quantity |
| SegmentSplit.LabelsDiffer | pages/preprocess/electricity_excel_split_segment.py:30-32 | the three labels of one segment differ |
| SegmentSplit.LabelNotYetWritten | pages/preprocess/electricity_excel_split_segment.py:30-55 | a later segment's label, and every final-segment label, differs from all labels flushed so far, so each assignment adds a new column |
| SegmentSplit.SegmentLabelsFresh | pages/preprocess/electricity_excel_split_segment.py:30-55 | each of a segment's three labels is new when it is assigned |
| SegmentSplit.SheetLabelsDistinct | pages/preprocess/electricity_excel_split_segment.py:30-55 | all column labels of the segment sheet differ |
| SegmentSplit.AddColumn | pages/preprocess/electricity_excel_split_segment.py:30 | assigning a new column to the sheet appends it to the columns written so far |
| SegmentSplit.WriteSegment | pages/preprocess/electricity_excel_split_segment.py:30-32 | flushing a segment appends its three labelled columns |
| SegmentSplit.ColumnsSnoc | pages/preprocess/electricity_excel_split_segment.py:30-32 | the columns of one more segment are the earlier columns followed by its three |
| SegmentSplit.Advance | pages/preprocess/electricity_excel_split_segment.py:24-50 | one loop iteration updates the counter, the segment buffer and the flag exactly as the step function does, and the sheet holds every finished segment's columns |
| SegmentSplit.WriteFinishedSegments | pages/preprocess/electricity_excel_split_segment.py:8-50 | after the loop the finished segments and the one in progress are those of the run over all rows, the counter is one more than the number flushed, and the sheet holds the flushed segments |
| SegmentSplit.SegmentSheet | pages/preprocess/electricity_excel_split_segment.py:6-115 | as written (Findings row 1): an empty sheet fails with KeyError 0, a one-row sheet with KeyError 1; otherwise a new frame labelled segment by segment whose columns are every segment's columns aligned to the index the first non-empty segment fixed |
| SegmentSplit.SegmentColumnsRows | pages/preprocess/electricity_excel_split_segment.py:30-32 | a segment's three columns fix an index as long as the segment |
| SegmentSplit.EmptySegmentsAdoptNoRows | pages/preprocess/electricity_excel_split_segment.py:30-32 | empty segments fix no index |
| SegmentSplit.SheetRowsFromFirstNonEmpty | pages/preprocess/electricity_excel_split_segment.py:30-55 | the sheet has as many rows as the first non-empty segment |
| SegmentSplit.CvSheetRows | pages/preprocess/electricity_excel_split_segment.py:30-55 | a CV sheet has as many rows as segment 1, and every segment's column is cut or NaN-padded to that length |
| SegmentSplit.ExampleRunRising | pages/preprocess/electricity_excel_split_segment.py:10-50 | on a rise-then-fall sweep the first two rows stay in segment 1 |
| SegmentSplit.ExampleRunFalling | pages/preprocess/electricity_excel_split_segment.py:23-50 | on the same sweep the fall starts segment 2, which takes the remaining three rows |
| SegmentSplit.TruncatedSegmentExample | pages/preprocess/electricity_excel_split_segment.py:30-55 | the three-row second segment is written with only two rows: its last potential is lost |
| SegmentSplit.ExampleFallingPotential | pages/preprocess/electricity_excel_split_segment.py:53-55 | the written potential column of segment 2 is `[0, -1]` |
| SegmentSplit.Longest | pages/preprocess/electricity_excel_split_segment.py:30-55 | the length of the longest segment |
| SegmentSplit.PaddedSheet | pages/preprocess/electricity_excel_split_segment.py:30-55 | corrected (Findings row 1): every column padded with NaN to the longest segment; `PaddedSheetKeepsEveryRow` states that no row is lost |
| SegmentSplit.PaddedSheetKeepsEveryRow | pages/preprocess/electricity_excel_split_segment.py:30-55 | in the corrected sheet every segment's column keeps all its values in order, padded with NaN up to the longest segment |
| SegmentSplit.SplitPlan | pages/preprocess/electricity_excel_split_segment.py:121-146 | no sheets: IndexError; no 'parameter' sheet: ValueError; otherwise the output is `segment_` + the file name, the first sheet is split as CV when its name contains 'CV', else as GCD when it contains 'GCD', else not at all, and every other sheet is copied |
| Frames.Align | pages/preprocess/electricity_excel_split_segment.py:30 | a Series aligned to an index of `n` rows keeps its first `n` values and is NaN beyond its length |
| Frames.AlignAll | pages/preprocess/electricity_excel_split_segment.py:30-55 | every column aligned to the same `n` rows, one per column |
| Frames.AdoptedRows | pages/preprocess/electricity_excel_split_segment.py:13-30 | defines the row count an empty `pd.DataFrame()` ends with after the columns are assigned one by one; `AdoptedRowsIsFirstNonEmpty` states it is the first non-empty column's length |
| Frames.AdoptedRowsIsFirstNonEmpty | pages/preprocess/electricity_excel_split_segment.py:13-30 | columns assigned to an empty frame leave it with no rows exactly when all are empty, and otherwise with as many rows as the first non-empty one |
| Frames.AdoptedRowsAppend | pages/preprocess/electricity_excel_split_segment.py:30-55 | later columns never change the row count once a non-empty column has fixed it |
| Frames.AppendAligned | pages/preprocess/electricity_excel_split_segment.py:30 | assigning one more new column keeps the frame equal to all columns written so far, aligned to the adopted index |
| Frames.Frame.SetColumn | pages/preprocess/electricity_excel_split_segment.py:30 | `df[name] = pd.Series(values)`: an empty index is fixed by the first non-empty value, the value is aligned to the index, an existing column is replaced in place and a new one appended |
| Frames.Frame.constructor | pages/preprocess/chi_txt2excel.py:70 | `pd.DataFrame(...)` from equally long columns holds exactly those names, columns and row count |
| Frames.Frame.Valid | pages/preprocess/chi_txt2excel.py:70 | defines a well-formed frame: one column per name, each as long as the index |
| Frames.Frame.Holds | pages/preprocess/electricity_excel_split_segment.py:13-30 | defines the frame after the columns `written` were assigned one by one to an empty `pd.DataFrame()` |
| ItAnalysis.PeaksBelow | pages/process/electropolymerization_analysis.py:32-35 | every collected index is a strict local maximum of the current |
| ItAnalysis.IsPeak | pages/process/electropolymerization_analysis.py:34 | defines the test of the loop: the current strictly rises into an interior index and strictly falls after it |
| ItAnalysis.Peaks | pages/process/electropolymerization_analysis.py:32-35 | defines `potential_peaks`, the indices `1..len-2` passing the test, in order |
| ItAnalysis.PeaksBelowExact | pages/process/electropolymerization_analysis.py:32-35 | the candidate list is strictly increasing and holds every strict local maximum below the bound |
| ItAnalysis.FirstMaxPosIsFirstMax | pages/process/electropolymerization_analysis.py:38-46 | `max(..., key=...)` and `np.argmax` pick the first position holding the largest value |
| ItAnalysis.FirstMaxPos | pages/process/electropolymerization_analysis.py:38-46 | the position found lies inside the candidate list |
| ItAnalysis.Indices | pages/process/electropolymerization_analysis.py:46 | the positions `0..n-1` over which `np.argmax` searches |
| ItAnalysis.PeakIndex | pages/process/electropolymerization_analysis.py:37-48 | an index into the current exists exactly when the current is not empty |
| ItAnalysis.PeakOf | pages/process/electropolymerization_analysis.py:31-49 | defines `find_peak(current, time)`: `(Im, tm)` at the highest local maximum, else at the global maximum, else the ValueError of the empty argmax |
| ItAnalysis.FindPeak | pages/process/electropolymerization_analysis.py:31-49 | the loop over `1..len-2` returns the peak function's `(Im, tm)`, or ValueError for an empty curve |
| ItAnalysis.HighestPeakChosen | pages/process/electropolymerization_analysis.py:37-41 | with local maxima present, the chosen index is the first local maximum of greatest current |
| ItAnalysis.FallbackIsFirstMaximum | pages/process/electropolymerization_analysis.py:42-49 | without a local maximum, the chosen index is the first global maximum |
| ItAnalysis.KeepMask | pages/process/electropolymerization_analysis.py:24 | one flag per row |
| ItAnalysis.RemoveDuplicates | pages/process/electropolymerization_analysis.py:23-27 | defines `remove_duplicates`: the time and current of the rows the mask keeps |
| ItAnalysis.RemoveDuplicatesRows | pages/process/electropolymerization_analysis.py:23-27 | the kept rows are, in order, exactly those whose current differs from the row before, or whose time equals the first time (row 0 always stays) |
| ItAnalysis.DroppedRowRepeatsKeptCurrent | pages/process/electropolymerization_analysis.py:24 | a dropped row repeats the current of an earlier kept row |
| ItAnalysis.ChargeSeq | pages/process/electropolymerization_analysis.py:77-81 | one charge per time sample |
| ItAnalysis.LeftSum | pages/process/electropolymerization_analysis.py:79-80 | defines `charge[i]`, the sum of `current[k] * (time[k + 1] - time[k])` over `k < i` |
| ItAnalysis.Increment | pages/process/electropolymerization_analysis.py:80 | defines the charge added over one interval, `current[k] * (time[k + 1] - time[k])` |
| ItAnalysis.CalculateCharge | pages/process/electropolymerization_analysis.py:77-81 | the array loop fills `charge[i]` with the left Riemann sum of current times time step up to `i` |
| ItAnalysis.ChargeNondecreasing | pages/process/electropolymerization_analysis.py:80 | with increasing time and non-negative current the charge never decreases |
| ItAnalysis.ChargeOfConstantCurrent | pages/process/electropolymerization_analysis.py:80 | a constant current `I` gives the charge `I * (t - t0)` |
| ItAnalysis.NormalizeData | pages/process/electropolymerization_analysis.py:53-56 | `t/tm` and `I/Im` elementwise: for non-zero divisors each quotient times the divisor gives back the sample |
| ItAnalysis.PeakRowNormalizesToOne | pages/process/electropolymerization_analysis.py:250 | the row at the peak normalises to `(1, 1)` |
| ItAnalysis.PeakIsRow | pages/process/electropolymerization_analysis.py:238-242 | the peak found after duplicate removal is an actual `(current, time)` row of the input |
| ItAnalysis.NormalizeCharge | pages/process/electropolymerization_analysis.py:265-270 | defines the normalisation: none where `charge_max - charge_min == 0`, else `(charge - min) / (max - min)` |
| ItAnalysis.NormalizeChargeRange | pages/process/electropolymerization_analysis.py:265-270 | a constant charge is refused; otherwise each normalised charge is in `[0, 1]`, is 0 exactly at the minimum and 1 exactly at the maximum, and the order of charges is kept |
| ItAnalysis.ValidMask | pages/process/electropolymerization_analysis.py:88 | one flag per value |
| ItAnalysis.WindowMask | pages/process/electropolymerization_analysis.py:103-110 | one flag per time |
| ItAnalysis.FitPoints | pages/process/electropolymerization_analysis.py:86-112 | defines the fit points: valid `y`, then `1 < t < tm`, widened to `1 < t < 10` when that leaves fewer than two |
| ItAnalysis.FitUpper | pages/process/electropolymerization_analysis.py:103-110 | defines the window's upper end: `tm`, or 10 when fewer than two points fall below `tm` |
| ItAnalysis.FitPointsSound | pages/process/electropolymerization_analysis.py:85-112 | every point used for the fit is a row with `0 < y < 1` and `1 < t <` the window's upper end (`tm`, or 10 when fewer than two points fall below `tm`) |
| ItAnalysis.FitPointsComplete | pages/process/electropolymerization_analysis.py:85-112 | every row with `0 < y < 1` and a time inside the window in use is a fit point |
| ItAnalysis.FirstTime | pages/process/electropolymerization_analysis.py:24 | `data['Time[s]'].iloc[0]`: IndexError exactly for an empty curve, else the first time |
| ItAnalysis.Analyse | pages/process/electropolymerization_analysis.py:229-277 | an empty curve raises an uncaught IndexError in `remove_duplicates`; a non-empty curve always has a peak; a constant charge ends at the normalisation; an empty fit window ends at the caught `linregress` ValueError; otherwise the results are the peak of the de-duplicated curve, the normalised curve, the charge, the normalised charge and the non-empty fit points |
| ItAnalysis.AnalysisWorkbookOfPath | pages/process/electropolymerization_analysis.py:281 | a path whose only `.xlsx` is its extension gets its results in `<stem>_analysis.xlsx` beside it |
| ItAnalysis.AnalysisWorkbook | pages/process/electropolymerization_analysis.py:281 | defines `file_path.replace('.xlsx', '_analysis.xlsx')` |
| Normalization.MinMaxBound | pages/preprocess/excel_normalize.py:10-11 | `min` and `max` of a non-empty list are members of it and bound every value |
| Normalization.Min | pages/preprocess/excel_normalize.py:10 | defines `series.min()`; `MinMaxBound` states that it is a member and a lower bound |
| Normalization.Max | pages/preprocess/excel_normalize.py:11 | defines `series.max()`; `MinMaxBound` states that it is a member and an upper bound |
| Normalization.Scale | pages/preprocess/excel_normalize.py:12 | defines `(x - lo) / (hi - lo)` with NumPy's division by zero; `ScaleProperties` states its properties |
| Normalization.Normalized | pages/preprocess/excel_normalize.py:22-24 | `normalize_series_global`: one scaled value per value, in order |
| Normalization.NormalizeSeries | pages/preprocess/excel_normalize.py:8-12 | `normalize_series`: one value per value; `NormalizeSeriesSpread` and `NormalizeSeriesConstant` state its values |
| Normalization.ScaleProperties | pages/preprocess/excel_normalize.py:12 | for `lo < hi` the scaled value maps back to `x`, keeps the order, is 0 exactly at `lo` and 1 exactly at `hi`, and lies in `[0, 1]` for `x` in `[lo, hi]` |
| Normalization.NormalizeSeriesSpread | pages/preprocess/excel_normalize.py:8-12 | a non-constant series normalises into `[0, 1]`, with 0 exactly at its minimum, 1 exactly at its maximum, and the order kept |
| Normalization.NormalizeSeriesConstant | pages/preprocess/excel_normalize.py:12 | a constant series divides zero by zero and becomes all NaN |
| Normalization.ConstantIffMinIsMax | pages/process/electropolymerization_analysis.py:265-267 | minimum equals maximum exactly when every value is the first |
| ExcelNormalize.ValuesListCells | pages/preprocess/excel_normalize.py:10-11 | every number in a column takes part in its `min`/`max` (NaN cells are skipped) |
| ExcelNormalize.Values | pages/preprocess/excel_normalize.py:10-11 | defines the numbers of a column that `min`/`max` see, NaN skipped, in order |
| ExcelNormalize.NormalizeCell | pages/preprocess/excel_normalize.py:24 | defines one cell against the bounds: a NaN cell stays NaN, a number is scaled |
| ExcelNormalize.NormalizeWith | pages/preprocess/excel_normalize.py:22-24 | `normalize_series_global` on a column of cells: one cell per cell |
| ExcelNormalize.NormalizeColumn | pages/preprocess/excel_normalize.py:8-12 | `normalize_series` on a column of cells: one cell per cell; `NormalizeColumnSpread` and `NormalizeColumnConstant` state its values |
| ExcelNormalize.NormalizeColumnSpread | pages/preprocess/excel_normalize.py:8-18 | a column's NaN cells stay NaN; its numbers normalise into `[0, 1]`, 0 exactly at the column minimum, 1 exactly at its maximum, order kept |
| ExcelNormalize.NormalizeColumnConstant | pages/preprocess/excel_normalize.py:12 | every number of a constant column becomes NaN |
| ExcelNormalize.RowNormalized | pages/preprocess/excel_normalize.py:15-19 | one column per input column |
| ExcelNormalize.AllYValuesListCells | pages/preprocess/excel_normalize.py:29-31 | every number in the columns after the first takes part in the global `min`/`max` |
| ExcelNormalize.AllYValues | pages/preprocess/excel_normalize.py:29-31 | defines the numbers of every column after the first, which the global `min`/`max` see |
| ExcelNormalize.GlobalNormalized | pages/preprocess/excel_normalize.py:27-35 | one column per input column |
| ExcelNormalize.GlobalNormalizedSpread | pages/preprocess/excel_normalize.py:27-35 | each y-number normalises into `[0, 1]` against the global minimum and maximum, and the order across all y-columns is kept |
| ExcelNormalize.GlobalNormalizedConstant | pages/preprocess/excel_normalize.py:24 | when all y-numbers are equal every one becomes NaN |
| ExcelNormalize.ReplaceColumn | pages/preprocess/excel_normalize.py:18 | `df[column] = ...` on an existing name replaces that column only |
| ExcelNormalize.NormalizeIndividualColumns | pages/preprocess/excel_normalize.py:15-19 | the loop leaves the frame with the x-column unchanged and every later column normalised on its own |
| ExcelNormalize.NormalizeAllYTogether | pages/preprocess/excel_normalize.py:27-35 | the loop leaves the frame with the x-column unchanged and every later column normalised against the global bounds |
| ExcelNormalize.Prefixed | pages/preprocess/excel_normalize.py:57-58 | the x-column keeps its name and every other name gets the prefix |
| ExcelNormalize.FileName | pages/preprocess/excel_normalize.py:47 | defines `file_path.split('.xlsx')[0].split('\\')[-1]`; `ExampleFileName` gives an instance |
| ExcelNormalize.SavePathAsWritten | pages/preprocess/excel_normalize.py:63 | as written (Findings row 3): `file_path.replace(file_name, prefix + file_name)`; `SavePathAsWrittenRewritesDirectory` shows it renaming a directory |
| ExcelNormalize.SavePath | pages/preprocess/excel_normalize.py:63 | corrected (Findings row 3): the prefix in front of the last path component; `SavePathOfPath` states it |
| ExcelNormalize.SavePathOfPath | pages/preprocess/excel_normalize.py:47-72 | the corrected save path puts the prefix in front of the file name only, in the same directory |
| ExcelNormalize.IndividualCopy | pages/preprocess/excel_normalize.py:53 | normalising a copy yields the per-column normalisation and leaves the read frame alone |
| ExcelNormalize.GlobalCopy | pages/preprocess/excel_normalize.py:54 | normalising a copy yields the global normalisation and leaves the read frame alone |
| ExcelNormalize.ExcelNormalizeSheet | pages/preprocess/excel_normalize.py:38-78 | corrected (Findings row 3): a sheet without columns fails with IndexError; otherwise one workbook per selected option, with the prefixed path, the sheet name, prefixed headers, the normalised columns and the file name for the 'parameter' sheet |
| ExcelNormalize.ExampleFileName | pages/preprocess/excel_normalize.py:47 | the file name of `a\a.xlsx` is `a` |
| ExcelNormalize.ExampleReplace | pages/preprocess/excel_normalize.py:63 | `str.replace` rewrites every occurrence of the name, the directory's included |
| ExcelNormalize.SavePathAsWrittenRewritesDirectory | pages/preprocess/excel_normalize.py:47-72 | as written, `a\a.xlsx` is saved to `<prefix>a\<prefix>a.xlsx`: the directory is renamed too |
| Chi.ScanMode | pages/preprocess/chi_txt2excel.py:47-61 | the mode whose marker the second line contains, checked in the order OCP, LSV, CV; none when no marker occurs |
| Chi.ModeName | pages/preprocess/chi_txt2excel.py:50-59 | defines `scan_model`: 'OCP', 'LSV' or 'CV' |
| Chi.Marker | pages/preprocess/chi_txt2excel.py:50-58 | defines the marker tested on the second line for each mode |
| Chi.Rank | pages/preprocess/chi_txt2excel.py:50-58 | the order of the `if`/`elif` tests: OCP, LSV, CV, each mode a different place |
| Chi.Columns | pages/preprocess/chi_txt2excel.py:52-60 | defines each mode's column names, which replace the caller's |
| Chi.Keywords | pages/preprocess/chi_txt2excel.py:53-61 | defines each mode's header keywords |
| Chi.HasAll | pages/preprocess/chi_txt2excel.py:16 | defines `all(keyword in line for keyword in keywords)` |
| Chi.FindFrom | pages/preprocess/chi_txt2excel.py:15-18 | the first line from `i` on that holds every keyword, or none when no such line exists |
| Chi.FindDataStartLine | pages/preprocess/chi_txt2excel.py:8-18 | two past the first line holding every keyword; none exactly when no line holds them all |
| Chi.DataLines | pages/preprocess/chi_txt2excel.py:64-67 | `content[start:]`, the whole file when no start was found |
| Chi.ParseRow | pages/preprocess/chi_txt2excel.py:67 | a parsed line has at least one field |
| Chi.ParseRows | pages/preprocess/chi_txt2excel.py:67 | every line parsed field by field, or ValueError naming a line that does not parse |
| Chi.RunLength | pages/preprocess/chi_txt2excel.py:34 | `[\d.]+` is greedy: the run covers rate characters only and stops before a non-rate character |
| Chi.IsRateChar | pages/preprocess/chi_txt2excel.py:34 | defines the character class `[\d.]` |
| Chi.MatchesAt | pages/preprocess/chi_txt2excel.py:34 | defines `Scan Rate \(V/s\) = ([\d.]+)` matching at one position: the label, then at least one rate character |
| Chi.Group | pages/preprocess/chi_txt2excel.py:34-36 | `group(1)` is a non-empty run of digits and dots right after the label, ending at a non-rate character or the end of the line |
| Chi.MatchFrom | pages/preprocess/chi_txt2excel.py:34 | `re.search` finds the leftmost position where the pattern matches |
| Chi.ScanRateIn | pages/preprocess/chi_txt2excel.py:33-36 | defines the rate one line states: `group(1)` of the leftmost match, none without a match |
| Chi.LastSome | pages/preprocess/chi_txt2excel.py:32-36 | the last present entry of a list, none exactly when no entry is present; `LastSomeIsLast` states it is the last |
| Chi.LastSomeIsLast | pages/preprocess/chi_txt2excel.py:32-36 | the value kept is that of a matching line after which no line matches |
| Chi.LastScanRate | pages/preprocess/chi_txt2excel.py:32-37 | defines the rate the dictionary ends with, the last line's that has one; `LastScanRateIsLast` and `NoScanRate` state it |
| Chi.Rates | pages/preprocess/chi_txt2excel.py:32-36 | one search result per line |
| Chi.LastScanRateIsLast | pages/preprocess/chi_txt2excel.py:32-36 | the scan rate kept is the one found on the last line that has one |
| Chi.NoScanRate | pages/preprocess/chi_txt2excel.py:32-37 | no rate is kept exactly when no line matches |
| Chi.Rate | pages/preprocess/chi_txt2excel.py:74 | `.get('Scan Rate (V/s)', 'Unknown')`: the last rate found, or 'Unknown' when no line states one |
| Chi.ExtractScanRate | pages/preprocess/chi_txt2excel.py:21-37 | the loop returns a dictionary holding 'Scan Rate (V/s)' with the last rate found, or an empty one |
| Chi.TimeStep | pages/preprocess/chi_txt2excel.py:74-75 | IndexError for fewer than three rows, ValueError when the rate is not a float (including 'Unknown'), ZeroDivisionError for a zero rate, otherwise the step times the rate is `E[2] - E[1]` |
| Chi.SheetOfRowsCells | pages/preprocess/chi_txt2excel.py:70-77 | the sheet's header is the mode's columns, with 'Time[s]' first for CV; each column holds that field of every row, NaN where a row is shorter |
| Chi.SheetOfRowsTimeAxis | pages/preprocess/chi_txt2excel.py:73-77 | a CV sheet's time column is the row index times `(E[2] - E[1]) / rate` |
| Chi.SheetOfRows | pages/preprocess/chi_txt2excel.py:70-77 | defines the sheet of parsed rows: the frame under the mode's columns, and for CV the time axis in front; `SheetOfRowsCells` and `SheetOfRowsTimeAxis` state its contents |
| Chi.Sheet | pages/preprocess/chi_txt2excel.py:64-77 | defines the data sheet: the data lines parsed, then `SheetOfRows`; `SheetRows` and `ConvertUnparsable` state its cases |
| Chi.SheetRows | pages/preprocess/chi_txt2excel.py:67-70 | a sheet that builds comes from rows that are the parsed data lines |
| Chi.ConvertUnparsable | pages/preprocess/chi_txt2excel.py:67 | a data line that does not parse makes the conversion fail with ValueError |
| Chi.Convert | pages/preprocess/chi_txt2excel.py:40-86 | defines the workbook: IndexError below two lines, NameError for an unknown mode, else the sheet under `<mode>_<name>.xlsx`; `ConvertIsSheet` and `ChiTxt2Excel` state it |
| Chi.ConvertIsSheet | pages/preprocess/chi_txt2excel.py:40-86 | once the mode is known, the conversion fails with the sheet's error or writes the sheet under the mode's name to `<mode>_<name>.xlsx` beside the text file, with the file name for the 'parameter' sheet |
| Chi.ChiTxt2Excel | pages/preprocess/chi_txt2excel.py:40-88 | a file of fewer than two lines fails with IndexError, an unknown mode with NameError; otherwise the conversion's result |
| Chi.BuildSheet | pages/preprocess/chi_txt2excel.py:64-77 | the frame built in place is the sheet function's result |
| Chi.FrameOfRows | pages/preprocess/chi_txt2excel.py:70-77 | the frame built from parsed rows is the sheet of those rows |
| Chi.InsertTimeAxis | pages/preprocess/chi_txt2excel.py:77 | `df.insert(0, 'Time[s]', ...)` puts the time column first and keeps the others |
| Naming.OutputPathOfPath | pages/preprocess/chi_txt2excel.py:80-81 | for `dir\name.ext` with the extension's first occurrence at the end, the file name is `name` and the output is `dir\<prefix>name.xlsx` |
| Naming.OutputPath | pages/preprocess/chi_txt2excel.py:80-81 | defines `path.replace(f'{name}{ext}', f'{prefix}{name}.xlsx')` with `name = path.split(ext)[0].split('\\')[-1]` |
| Frames.ParseFields | pages/preprocess/chi_txt2excel.py:67 | every field parsed in order, or none when some field does not parse |
| Frames.ParseFieldsOf | pages/preprocess/chi_txt2excel.py:67 | fields that each parse give exactly their values |
| Frames.ToTable | pages/preprocess/chi_txt2excel.py:70 | `pd.DataFrame(rows, columns=...)` succeeds exactly when no row is longer than the header and some row is as long (or there are no rows), else ValueError; one column per name, one cell per row |
| Frames.TableColumns | pages/preprocess/chi_txt2excel.py:70 | one column per header name, one cell per row, NaN where a row is shorter |
| Frames.MaxWidth | pages/preprocess/chi_txt2excel.py:70 | the widest row's length, which `pd.DataFrame` compares against the header: no row is longer and some row is that long |
| Frames.TimeColumn | pages/preprocess/chi_txt2excel.py:77 | `index * dt`: starts at 0 and steps by `dt` |
| Base.NumDiv | pages/preprocess/excel_normalize.py:12 | NumPy float division: the quotient for a non-zero divisor; NaN for 0/0 and an infinity of the dividend's sign otherwise |
| Base.Trunc | pages/multipages/image_coffee_ring.py:117-118 | `int()` of a float truncates toward zero |
| Base.TruncQuotient | pages/multipages/chemical_polymerization.py:71 | with exact arithmetic, `int(w / h * t)` is the integer quotient `w * t // h` |
| Ichy.CellAt | pages/preprocess/ichy_csv2excel.py:28-58 | `float(df.iloc[i, j])` and `int(df.iloc[i, j])`: IndexError outside the table, the cell's value when it converts, ValueError otherwise |
| Ichy.Width | pages/preprocess/ichy_csv2excel.py:10 | defines the number of columns `read_csv` gave the table |
| Ichy.Rectangular | pages/preprocess/ichy_csv2excel.py:10 | defines the table `read_csv` yields: every row as wide as the first |
| Ichy.DataRows | pages/preprocess/ichy_csv2excel.py:20 | defines `df.iloc[start:]`, the rows from the data start row on |
| Ichy.Data | pages/preprocess/ichy_csv2excel.py:20-22 | `df.iloc[start:].astype(float)` under two column names: ValueError, or two columns with one cell per data row |
| Ichy.DataCells | pages/preprocess/ichy_csv2excel.py:20-33 | the data exists exactly when the table is two columns wide and every cell from the start row on parses; cell `c` of data row `i` is then the float of table cell `(start + i, c)` |
| Ichy.ModeOf | pages/preprocess/ichy_csv2excel.py:13-51 | the technique whose full name equals cell `(1, 1)`, none when it names none |
| Ichy.ModeName | pages/preprocess/ichy_csv2excel.py:16-52 | defines the tag each technique gets: 'LSV', 'CV', 'It' or 'CA' |
| Ichy.Technique | pages/preprocess/ichy_csv2excel.py:15-51 | defines the full technique name each branch compares with cell `(1, 1)` |
| Ichy.Columns | pages/preprocess/ichy_csv2excel.py:18-54 | defines the names the two data columns get: potential and current for LSV and CV, time and current for i-t and CA |
| Ichy.Constant | pages/preprocess/ichy_csv2excel.py:47 | a scalar inserted as a column repeats it on every row |
| Ichy.CvInterval | pages/preprocess/ichy_csv2excel.py:28-29 | IndexError when the table is too short, ValueError for a cell that is not a float, ZeroDivisionError for a zero scan rate; otherwise the interval times the scan rate in V/s is `E[12] - E[11]` |
| Ichy.CvTimeAxis | pages/preprocess/ichy_csv2excel.py:24-35 | a CV sheet is the data behind a time column whose step is the change between the first two potentials over the scan rate |
| Ichy.CvRowsTimeAxis | pages/preprocess/ichy_csv2excel.py:35 | the CV header is time, potential, current, and row `k` is at `k * dt` |
| Ichy.CvIntervalIsFirstStep | pages/preprocess/ichy_csv2excel.py:29-32 | the table cells `(11, 0)` and `(12, 0)` are the first two potentials of the data |
| Ichy.CvSheet | pages/preprocess/ichy_csv2excel.py:24-35 | defines the CV sheet: the interval's error, the data's error, or the time axis in front of potential and current |
| Ichy.CvRows | pages/preprocess/ichy_csv2excel.py:33-35 | defines the CV rows: the data columns behind a time column of step `dt` |
| Ichy.ItRowsDropRepeatedTimes | pages/preprocess/ichy_csv2excel.py:47-49 | after `drop_duplicates(subset=['Time[s]'])` no time stamp occurs twice, none is lost, each row keeps its own current, and every row holds the inserted potential |
| Ichy.ItSheetRows | pages/preprocess/ichy_csv2excel.py:37-49 | an i-t sheet is the data from row 9 with the potential of cell `(3, 1)` in mV inserted |
| Ichy.ItSheet | pages/preprocess/ichy_csv2excel.py:37-49 | defines the i-t sheet: the potential cell's error, the data's error, or the data with the potential inserted and repeated times dropped |
| Ichy.ItRows | pages/preprocess/ichy_csv2excel.py:45-49 | defines the i-t rows: time, the constant potential, current, each time stamp's first row kept |
| Ichy.CaParameters | pages/preprocess/ichy_csv2excel.py:55-58 | the four `int()` cells read in order: IndexError for a short table, ValueError for a cell that is not an integer |
| Ichy.CaTime | pages/preprocess/ichy_csv2excel.py:64 | one time per row |
| Ichy.Pattern | pages/preprocess/ichy_csv2excel.py:66 | defines `np.repeat([High_E, Low_E], w)`: `w` high entries, then `w` low ones |
| Ichy.Fill | pages/preprocess/ichy_csv2excel.py:67-68 | defines `np.append(np.tile(p, n // len(p)), p[0:n % len(p)])` |
| Ichy.Tile | pages/preprocess/ichy_csv2excel.py:67 | `np.tile(p, q)` has `q * len(p)` entries |
| Ichy.TileIndex | pages/preprocess/ichy_csv2excel.py:67 | entry `k` of the tiling is `p[k % len(p)]` |
| Ichy.FillIndex | pages/preprocess/ichy_csv2excel.py:67-68 | the tiling plus the partial pattern has exactly `n` entries, entry `k` being `p[k % len(p)]` |
| Ichy.WholeQuotient | pages/preprocess/ichy_csv2excel.py:66 | truncating `a / b` gives the whole number of `b`s in `a` |
| Ichy.PulseCount | pages/preprocess/ichy_csv2excel.py:66 | ZeroDivisionError exactly for a zero sample interval; otherwise the whole number of samples in a pulse |
| Ichy.CaPotential | pages/preprocess/ichy_csv2excel.py:66-69 | the corrected potential column has one entry per row |
| Ichy.CaPotentialPattern | pages/preprocess/ichy_csv2excel.py:66-68 | with `w` samples per pulse, row `k` holds the high potential when `k mod 2w < w` and the low one otherwise |
| Ichy.CaPotentialAsWritten | pages/preprocess/ichy_csv2excel.py:66 | `np.repeat` with a float count always fails |
| Ichy.CaAsWrittenFails | pages/preprocess/ichy_csv2excel.py:51-69 | every CA file the corrected converter turns into a sheet makes the code as written raise TypeError |
| Ichy.CaAxes | pages/preprocess/ichy_csv2excel.py:51-69 | the CA sheet is time, potential, current: row `k` at `(k + 1)` sample intervals, the square-wave potential, and the data's current |
| Ichy.CaSheet | pages/preprocess/ichy_csv2excel.py:51-69 | corrected (Findings row 4): defines the CA sheet: the parameters' error, the data's error, the pulse count's error, or time, square-wave potential and current |
| Ichy.CaRows | pages/preprocess/ichy_csv2excel.py:60-69 | defines the CA rows: the recomputed time axis, the potential column, the data's current |
| Ichy.CaSheetAsWritten | pages/preprocess/ichy_csv2excel.py:51-69 | as written (Findings row 4): defines the CA sheet with the float repeat count of line 66 |
| Ichy.CaRowsTime | pages/preprocess/ichy_csv2excel.py:64-69 | the time column is `(index + 1) * Sample_Int` and the potential is inserted second |
| Ichy.Sheet | pages/preprocess/ichy_csv2excel.py:15-69 | defines the dispatch to the LSV, CV, i-t or CA sheet by technique |
| Ichy.ConvertUnknown | pages/preprocess/ichy_csv2excel.py:13-79 | a table naming no known technique is written unchanged, to a sheet and file prefix named after that text |
| Ichy.Convert | pages/preprocess/ichy_csv2excel.py:7-81 | defines the conversion: IndexError for a table under 2 by 2, the sheet's error, or the workbook `<mode>_<name>.xlsx` holding the sheet and the parameter sheet |
| Ichy.IchyCsv2Excel | pages/preprocess/ichy_csv2excel.py:7-81 | corrected in its CA branch (Findings row 4): the frame built and changed in place per technique is the conversion's result: IndexError for a table under 2 by 2, the sheet's error, or the workbook `<mode>_<name>.xlsx` |
| Ichy.CvFrame | pages/preprocess/ichy_csv2excel.py:24-35 | the CV frame built in place is the CV sheet |
| Ichy.ItFrame | pages/preprocess/ichy_csv2excel.py:37-49 | the i-t frame built in place is the i-t sheet |
| Ichy.ItFrameOf | pages/preprocess/ichy_csv2excel.py:45-49 | inserting the potential and dropping repeated times in place gives the i-t rows |
| Ichy.CaFrame | pages/preprocess/ichy_csv2excel.py:51-69 | the CA frame built in place is the corrected CA sheet |
| Frames.ParseTable | pages/preprocess/ichy_csv2excel.py:21 | `.astype(float)` succeeds exactly when every cell parses, and then holds each cell's float in place |
| Frames.KeepRows | pages/preprocess/ichy_csv2excel.py:49 | `df[mask]` keeps the masked rows of every column, in order |
| Frames.Frame.Insert | pages/preprocess/ichy_csv2excel.py:47 | `df.insert(loc, name, values)` puts the new column at `loc` and shifts the rest |
| Masks.FirstSeenDistinct | pages/preprocess/ichy_csv2excel.py:49 | the rows kept by `drop_duplicates` hold distinct values |
| Masks.FirstSeenKeepsEvery | pages/preprocess/ichy_csv2excel.py:49 | every value still occurs among the kept rows |
| Masks.FirstSeen | pages/preprocess/ichy_csv2excel.py:49 | `drop_duplicates` keeps row `k` exactly when its value does not occur earlier |
| Masks.TrueIndicesExact | pages/process/electropolymerization_analysis.py:24 | boolean indexing keeps exactly the rows whose flag is set, in increasing order |
| Masks.TrueIndices | pages/process/electropolymerization_analysis.py:24 | every position boolean indexing keeps lies inside the mask |
| Masks.Select | pages/process/electropolymerization_analysis.py:24-26 | `xs[m]` has one entry per set flag |
| Masks.SelectedFrom | pages/process/electropolymerization_analysis.py:24-26 | every kept value is some flagged row's value |
| Masks.SelectedTo | pages/process/electropolymerization_analysis.py:24-26 | every flagged row's value is kept |
| Masks.SelectCount | pages/process/electropolymerization_analysis.py:93-108 | the number of kept rows is the number of set flags, at most the number of rows |
| Masks.CountTrue | pages/process/electropolymerization_analysis.py:108 | defines `len` of a masked array: the number of set flags |
| UvSca.StartFrom | pages/preprocess/uv_sca2excel.py:24-27 | one past the first line starting with 'Filter:10'; none when no line does |
| UvSca.SpectrumName | pages/preprocess/uv_sca2excel.py:37 | defines the spectrum's column and sheet name: 'Transmittance' or 'Absorbance' |
| UvSca.Columns | pages/preprocess/uv_sca2excel.py:37 | defines the two column names, wavelength and the spectrum |
| UvSca.FindStart | pages/preprocess/uv_sca2excel.py:24-27 | the search loop with `break` finds that start |
| UvSca.BlockEnd | pages/preprocess/uv_sca2excel.py:31-33 | the first line from the start on that begins with '[Extended]', or the end of the file |
| UvSca.Block | pages/preprocess/uv_sca2excel.py:30-34 | one row per line between the start and the end marker, each the line stripped and split at spaces |
| UvSca.Fields | pages/preprocess/uv_sca2excel.py:34 | defines `line.strip().split(' ')` |
| UvSca.CollectData | pages/preprocess/uv_sca2excel.py:30-34 | the collecting loop with `break` yields that block |
| UvSca.ToTransmittance | pages/preprocess/uv_sca2excel.py:7-43 | every number `a` of the spectrum becomes `10 ** (-a)` and missing cells stay missing |
| UvSca.SheetOfRows | pages/preprocess/uv_sca2excel.py:37-46 | defines the sheet of the rows: ValueError for a row wider than two fields, else wavelength, the spectrum (converted for transmittance) and 'Normalized' |
| UvSca.SheetOfRowsNormalized | pages/preprocess/uv_sca2excel.py:36-46 | the sheet is wavelength, spectrum (converted when transmittance is asked for) and 'Normalized'; a row wider than two fields is refused; the normalised spectrum lies in `[0, 1]`, 0 exactly at the minimum and 1 exactly at the maximum |
| UvSca.SheetRows | pages/preprocess/uv_sca2excel.py:23-38 | a sheet that builds comes from the block after the first 'Filter:10' line, each row the floats of its line |
| UvSca.Sheet | pages/preprocess/uv_sca2excel.py:23-46 | defines the sheet of the file's lines: NameError without a 'Filter:10' line, the parse's ValueError, or the sheet of the block |
| UvSca.Sca2Excel | pages/preprocess/uv_sca2excel.py:18-56 | NameError when no line starts with 'Filter:10', ValueError for a cell that is not a float or a badly shaped table; otherwise the sheet written to `<spectrum>_<name>.xlsx` |
| UvSca.Convert | pages/preprocess/uv_sca2excel.py:18-56 | defines the workbook `sca2excel` writes: the sheet's error, or the sheet named after the spectrum in `<spectrum>_<name>.xlsx` |
| UvSca.FrameOfRows | pages/preprocess/uv_sca2excel.py:37-46 | the frame built and changed in place is the sheet of the rows |
| UvSca.ConvertSpectrum | pages/preprocess/uv_sca2excel.py:43 | only the spectrum column is converted in place |
| UvSca.AddNormalized | pages/preprocess/uv_sca2excel.py:46 | 'Normalized' is appended holding the spectrum's min-max normalisation |
| Frames.DivideBy | pages/preprocess/keithley_txt2excel.py:36-37 | dividing by a positive number keeps NaN and the infinities, and each quotient times the divisor gives the cell back |
| Keithley.RunEnd | pages/preprocess/keithley_txt2excel.py:15 | `[^\t]+` runs over non-tab characters and stops at a tab or the end of the line |
| Keithley.Matches | pages/preprocess/keithley_txt2excel.py:15 | defines a match of `[^\t]+测试数据` over `line[s..e]`: one or more non-tab characters ending in the marker |
| Keithley.LastEnd | pages/preprocess/keithley_txt2excel.py:15 | the last place inside a tab-free run where the marker `测试数据` ends, none when it occurs nowhere there |
| Keithley.MatchEnd | pages/preprocess/keithley_txt2excel.py:15-16 | from a start the greedy match ends at the last marker before the next tab, none when no match starts there |
| Keithley.FirstMatch | pages/preprocess/keithley_txt2excel.py:15-16 | the leftmost start that matches, with its longest end; none when the pattern matches nowhere |
| Keithley.HeaderField | pages/preprocess/keithley_txt2excel.py:16-18 | `findall(...)[0]` is longer than the marker; none when the list is empty |
| Keithley.ModeName | pages/preprocess/keithley_txt2excel.py:19-25 | defines `scan_model`: 'CV', 'CA' or 'Electricity' |
| Keithley.ModeOf | pages/preprocess/keithley_txt2excel.py:18-25 | defines the mode the field selects: `I-V测试数据` is CV, `方波信号测试数据` is CA, anything else Electricity |
| Keithley.CutBeforeField | pages/preprocess/keithley_txt2excel.py:28 | the cut first line is exactly the stripped text in front of the match, since the field occurs nowhere earlier |
| Keithley.Columns | pages/preprocess/keithley_txt2excel.py:18-25 | the caller's columns for other measurements; otherwise distinct names including `Current[mA]` |
| Keithley.Cut | pages/preprocess/keithley_txt2excel.py:28 | only the first line changes |
| Keithley.Fields | pages/preprocess/keithley_txt2excel.py:31 | every line split at whitespace |
| Keithley.Table | pages/preprocess/keithley_txt2excel.py:31-32 | ValueError, or one column per name with one cell per line |
| Keithley.TableRows | pages/preprocess/keithley_txt2excel.py:31-32 | a table that builds holds each line's floats in place, NaN where a line is shorter |
| Keithley.Scaled | pages/preprocess/keithley_txt2excel.py:36 | defines the columns after the division: each `Current[mA]` column over 1000, the others unchanged |
| Keithley.Renamed | pages/preprocess/keithley_txt2excel.py:37 | defines the names after the rename: `Current[mA]` becomes `Current[A]`, the others stay |
| Keithley.InAmperes | pages/preprocess/keithley_txt2excel.py:35-37 | KeyError exactly when no column is `Current[mA]`; otherwise every such column is divided by 1000 and renamed `Current[A]`, and the others are unchanged |
| Keithley.Sheet | pages/preprocess/keithley_txt2excel.py:31-37 | the only errors are ValueError and KeyError for the missing current column |
| Keithley.Convert | pages/preprocess/keithley_txt2excel.py:8-47 | IndexError exactly when the file is empty or its first line has no match; otherwise the sheet is named after the mode and written to `<mode>_<name>.xlsx` |
| Keithley.ConvertSheet | pages/preprocess/keithley_txt2excel.py:16-37 | the workbook's sheet is that of the lines with the first one cut before the match, under the columns the field selects |
| Keithley.ElectricityWithoutCurrent | pages/preprocess/keithley_txt2excel.py:24-36 | for another measurement whose columns lack `Current[mA]`, asking for amperes fails |
| Keithley.DivideCurrent | pages/preprocess/keithley_txt2excel.py:36 | the in-place division changes only the `Current[mA]` columns |
| Keithley.KeiTxt2Excel | pages/preprocess/keithley_txt2excel.py:8-49 | the frame built and changed in place yields the conversion's result |
| Frames.Frame.Rename | pages/preprocess/keithley_txt2excel.py:37 | `rename(columns=..., inplace=True)` renames every column of that name and nothing else |
| Avantes.Minus | pages/preprocess/avantes_raw2excel.py:16-17 | float subtraction of cells: the difference of two numbers, NaN when either is NaN |
| Avantes.Over | pages/preprocess/avantes_raw2excel.py:19 | float division of cells: NumPy's quotient of two numbers, NaN when either is NaN |
| Avantes.Sub | pages/preprocess/avantes_raw2excel.py:16-47 | `.sub(other, axis=0)` subtracts row by row |
| Avantes.Shaped | pages/preprocess/avantes_raw2excel.py:82-84 | defines the frame `read_excel` gives: every column has `n` cells |
| Avantes.Div | pages/preprocess/avantes_raw2excel.py:19 | `.div(other, axis=0)` divides row by row |
| Avantes.Transmittance | pages/preprocess/avantes_raw2excel.py:8-23 | IndexError exactly for fewer than three columns; otherwise the wavelength and, for each measured column, `(s - dark) / (ref - dark)` under its own name |
| Avantes.TransmittanceInverts | pages/preprocess/avantes_raw2excel.py:16-19 | the transmittance is a number exactly when reference and dark differ, and then maps back to the measured value |
| Avantes.Fluorescence | pages/preprocess/avantes_raw2excel.py:40-51 | IndexError exactly for fewer than two columns; otherwise the wavelength and every column from the third with the dark column subtracted |
| Avantes.FluorescenceInverts | pages/preprocess/avantes_raw2excel.py:47 | adding the dark value back gives the measured value |
| Avantes.Clamp | pages/preprocess/avantes_raw2excel.py:28 | positive values (and +inf) stay; everything else, NaN included, becomes `1e-10` |
| Avantes.AbsorbanceCell | pages/preprocess/avantes_raw2excel.py:28-30 | the absorbance is a number or `-inf` |
| Avantes.AbsorbanceOfTransmittance | pages/preprocess/avantes_raw2excel.py:25-31 | a positive transmittance `t` gives `-log10(t)`, every other value `-log10(1e-10)` |
| Avantes.Absorbance | pages/preprocess/avantes_raw2excel.py:33-38 | the transmittance's header and wavelength, with every measured cell turned into its absorbance |
| Avantes.Spectra | pages/preprocess/avantes_raw2excel.py:106-111 | with three or more columns every choice succeeds |
| Avantes.LowercaseFluorescenceUntouched | pages/preprocess/avantes_raw2excel.py:110-142 | the choice offered as 'fluorescence' fails the test for 'Fluorescence', so the frame is written untransformed |
| Avantes.ScanAt | pages/preprocess/avantes_raw2excel.py:74 | `scan(\d+\.?\d*)s` matched at one position, none when it does not match there |
| Avantes.ScanMatchUnique | pages/preprocess/avantes_raw2excel.py:74 | at a given position the pattern matches in at most one way |
| Avantes.FirstScan | pages/preprocess/avantes_raw2excel.py:74 | `re.search` finds the leftmost match |
| Avantes.ScanMatch | pages/preprocess/avantes_raw2excel.py:74 | defines a match of `scan(\d+\.?\d*)s` at `p`, its whole digits ending at `b` and the group at `e` |
| Avantes.DigitsAt | pages/preprocess/avantes_raw2excel.py:76 | defines the value of the digits in `[lo, hi)`, as `float()` reads them |
| Avantes.Pow10 | pages/preprocess/avantes_raw2excel.py:76 | the place values `float()` uses for a fraction are at least 1 |
| Avantes.GroupValue | pages/preprocess/avantes_raw2excel.py:76 | `float(match.group(1))` is non-negative |
| Avantes.TimeInterval | pages/preprocess/avantes_raw2excel.py:72-78 | defines `extract_time_interval`: the value of the leftmost match's group, none when the name does not match |
| Avantes.TimeIntervalAtStart | pages/preprocess/avantes_raw2excel.py:72-78 | a file name matching at its start yields the value of that group |
| Avantes.TimeIntervalOfWhole | pages/preprocess/avantes_raw2excel.py:72-78 | `scan<k>s...` yields `k` |
| Avantes.Step | pages/preprocess/avantes_raw2excel.py:90-97 | the file name's interval when it has a non-zero one, the user's interval otherwise |
| Avantes.SeriesName | pages/preprocess/avantes_raw2excel.py:93-97 | defines `f'{column_start + i * step}{column_unit}'`, the float formatting a parameter |
| Avantes.SeriesNames | pages/preprocess/avantes_raw2excel.py:93-97 | one name per measured column, the `i`-th being the start plus `i` steps followed by the unit |
| Avantes.Unraw | pages/preprocess/avantes_raw2excel.py:86-87 | defines `str.replace(r'\.Raw8', '')` then `str.replace(r'\.RAW8', '')` on one name |
| Avantes.UnrawPointless | pages/preprocess/avantes_raw2excel.py:86-87 | a name without a point loses nothing |
| Avantes.UnrawOfExport | pages/preprocess/avantes_raw2excel.py:86-87 | `<stem>.Raw8` becomes `<stem>` |
| Avantes.FixedNamesUnraw | pages/preprocess/avantes_raw2excel.py:85-87 | the three fixed names survive the stripping |
| Avantes.UnrawAll | pages/preprocess/avantes_raw2excel.py:86-87 | every name stripped |
| Avantes.UnrawAllAfter | pages/preprocess/avantes_raw2excel.py:85-87 | stripping after the relabelling keeps the fixed names and strips the rest |
| Avantes.Headers | pages/preprocess/avantes_raw2excel.py:85-98 | one name per column |
| Avantes.HeadersNamed | pages/preprocess/avantes_raw2excel.py:85-98 | the first three names are 'Wavelength[nm]', 'dark', 'reference'; the rest are stripped names, or series names when a naming is given |
| Avantes.DropRows | pages/preprocess/avantes_raw2excel.py:83-84 | `df.iloc[5:]` drops the first five rows of every column |
| Avantes.Convert | pages/preprocess/avantes_raw2excel.py:80-121 | ValueError exactly for fewer than three columns; otherwise the sheet is named after the choice and written to `<choice>_merged_<name>.xlsx` |
| Avantes.Excel2Excel | pages/preprocess/avantes_raw2excel.py:80-124 | the frame cut, relabelled in place and transformed yields the conversion's result |
| Frames.Frame.Relabel | pages/preprocess/avantes_raw2excel.py:85-98 | `df.columns.values[lo:hi] = labels` overwrites those names only |
| Lanhe.CurrentColumn | pages/preprocess/lanhe_csv2excel.py:12 | the first column whose name contains '电流', none when no name does |
| Lanhe.UnitOf | pages/preprocess/lanhe_csv2excel.py:13-18 | micro when the name contains 'uA', else milli for 'mA', else whole amperes for 'A' |
| Lanhe.NoUnitWithoutA | pages/preprocess/lanhe_csv2excel.py:13-18 | no branch applies exactly when the name has no 'A' |
| Lanhe.Divisor | pages/preprocess/lanhe_csv2excel.py:14-18 | the divisor (1e6, 1e3 or 1) is positive |
| Lanhe.Complete | pages/preprocess/lanhe_csv2excel.py:27 | `dropna()` keeps a row exactly when none of its three cells is missing |
| Lanhe.Assemble | pages/preprocess/lanhe_csv2excel.py:21-27 | KeyError naming the first missing column, in the order time, current, voltage; otherwise three columns |
| Lanhe.AssembleRows | pages/preprocess/lanhe_csv2excel.py:21-27 | the sheet's rows are exactly the rows of the three source columns where none is missing, in order |
| Lanhe.Converted | pages/preprocess/lanhe_csv2excel.py:14-18 | `df['Current[A]'] = ...` replaces or appends that column and leaves every other column as it was |
| Lanhe.FindAppended | pages/preprocess/lanhe_csv2excel.py:14-18 | an appended column is found at the end |
| Lanhe.FindPrefix | pages/preprocess/lanhe_csv2excel.py:14-24 | appending the ampere column leaves every other column where it was found |
| Lanhe.Convert | pages/preprocess/lanhe_csv2excel.py:6-37 | IndexError when no column names the current; a result is the sheet 'GCD' with the three names, written to `GCD_<name>.xlsx` |
| Lanhe.NoUnitNoAmperes | pages/preprocess/lanhe_csv2excel.py:13-23 | a current column without a unit leaves 'Current[A]' unset, and the lookup fails with KeyError |
| Lanhe.ConvertedCurrent | pages/preprocess/lanhe_csv2excel.py:12-27 | the sheet is time, the current divided by its unit's factor, and voltage, on the complete rows only |
| Lanhe.LandheCsv2Excel | pages/preprocess/lanhe_csv2excel.py:6-39 | the frame changed in place yields the conversion's result |
| Frames.Frame.Append | pages/preprocess/XRD_txt2excel.py:22 | assigning a new column as long as the index appends it |
| Frames.Find | pages/preprocess/lanhe_csv2excel.py:22-24 | a name lookup finds the first column of that name, none when it is absent |
| Frames.FindDistinct | pages/preprocess/lanhe_csv2excel.py:22-24 | with distinct names each column is found at its own position |
| Frames.Distinct | pages/preprocess/lanhe_csv2excel.py:10 | defines the column names `read_csv`/`read_excel` deliver: duplicates are renamed, so all differ |
| Xrd.DataLines | pages/preprocess/XRD_txt2excel.py:13-14 | only lines starting with a digit are kept |
| Xrd.DataLine | pages/preprocess/XRD_txt2excel.py:14 | defines `re.match(r'^\d', line)`: the line starts with a digit |
| Xrd.DataMask | pages/preprocess/XRD_txt2excel.py:14 | a line is flagged exactly when it starts with a digit |
| Xrd.DataLinesSelect | pages/preprocess/XRD_txt2excel.py:13-14 | the kept lines are the flagged lines, in file order |
| Xrd.Row | pages/preprocess/XRD_txt2excel.py:15 | one float per whitespace-separated field |
| Xrd.Fields | pages/preprocess/XRD_txt2excel.py:15 | defines `line.strip().split()` |
| Xrd.RowReader | pages/preprocess/XRD_txt2excel.py:15 | defines the reading of one line with `float` fixed: its fields' floats, none when one does not parse |
| Xrd.Rows | pages/preprocess/XRD_txt2excel.py:11-15 | ValueError, or one row per data line holding that line's floats |
| Xrd.RowsSucceed | pages/preprocess/XRD_txt2excel.py:15 | reading succeeds exactly when every data line parses |
| Xrd.RowsRead | pages/preprocess/XRD_txt2excel.py:15 | when every data line parses the reading succeeds |
| Xrd.RowsFailForever | pages/preprocess/XRD_txt2excel.py:13-15 | once a line has raised, reading more lines cannot undo it |
| Xrd.ReadRows | pages/preprocess/XRD_txt2excel.py:11-15 | the line-by-line loop yields the rows function's result |
| Xrd.Table | pages/preprocess/XRD_txt2excel.py:18 | ValueError, or two equally long columns with one cell per data line |
| Xrd.TableCells | pages/preprocess/XRD_txt2excel.py:15-18 | cell `c` of data row `k` is the float of that line's field `c`, NaN for a one-field line |
| Xrd.TableSucceeds | pages/preprocess/XRD_txt2excel.py:15-18 | the table builds exactly when every data line parses, no line has more than two fields, and some line has two (or there is none) |
| Xrd.Convert | pages/preprocess/XRD_txt2excel.py:9-33 | ValueError when the table or the smoothing fails; otherwise the sheet 'XRD_rawdata' with both columns plus the smoothed intensity, written to `<name>.xlsx` with the window and order recorded |
| Xrd.KeiTxt2Excel | pages/preprocess/XRD_txt2excel.py:9-35 | the frame built and extended in place yields the conversion's result |
| ImageCrop.Bound | pages/multipages/image_crop.py:137-138 | NumPy's slice bound: a negative index counts from the end, and the result is clamped to `[0, n]` |
| ImageCrop.Slice | pages/multipages/image_crop.py:137-138 | `xs[start:stop]` has `stop' - start'` items of the clamped bounds (none when they cross), taken in order from `start'` |
| ImageCrop.IsImage | pages/multipages/image_crop.py:46 | defines an image of `height` rows of `width` pixels, as `img.shape` reports |
| ImageCrop.Window | pages/multipages/image_crop.py:137-138 | defines `img[r0:r1, c0:c1]` with NumPy's slice bounds on rows and columns |
| ImageCrop.Crop | pages/multipages/image_crop.py:46-51 | for slider values `0 <= x1 < x2 <= width`, `0 <= y1 < y2 <= height` the crop is a non-empty `(y2 - y1) x (x2 - x1)` image whose pixel `(i, j)` is the original's `(y1 + i, x1 + j)` |
| ImageCrop.CropWhole | pages/multipages/image_crop.py:47-51 | the sliders' defaults crop nothing away |
| ImageCrop.GridCoords | pages/multipages/image_crop.py:132-133 | the line coordinates are 0, `int(p / 100 * size)` for each selected position, and `size - 1` |
| ImageCrop.GridCoordsOrdered | pages/multipages/image_crop.py:101-133 | positions in `0..100` chosen top to bottom give coordinates in `[0, size]`, in order |
| ImageCrop.MulDivMonotone | pages/multipages/image_crop.py:132-133 | a larger percentage never gives a smaller coordinate |
| ImageCrop.CoincidentLinesAsWritten | pages/multipages/image_crop.py:132-138 | a line at 0% coincides with the top edge, yet the band between them as written (stop `0 - 3`) is 4 rows of a 10-row image instead of empty |
| ImageCrop.CellAsWritten | pages/multipages/image_crop.py:137-138 | as written (Findings row 5): defines cell `(i, j)` as rows `h[i]+3 : h[i+1]-3` and columns `v[j]+3 : v[j+1]-3`, a negative stop read from the end |
| ImageCrop.Stop | pages/multipages/image_crop.py:137-138 | corrected (Findings row 5): defines a cell's stop, `line - 3` clamped at zero instead of read from the end |
| ImageCrop.Cell | pages/multipages/image_crop.py:137-138 | corrected (Findings row 5): defines cell `(i, j)`, the pixels between neighbouring lines less the line thickness on each side |
| ImageCrop.CellBetweenLines | pages/multipages/image_crop.py:135-139 | with the corrected stop each pixel of a cell is the image pixel at its offset and lies more than the line thickness inside both pairs of lines |
| ImageCrop.CellsSnoc | pages/multipages/image_crop.py:135-139 | each further cell comes next in row-major order |
| ImageCrop.Cells | pages/multipages/image_crop.py:135-139 | defines the first `n` cells the nested loops append, in row-major order |
| ImageCrop.SubImages | pages/multipages/image_crop.py:134-139 | the nested loops yield one cell per pair of neighbouring lines, row by row |
| ImageCrop.RowMajor | pages/multipages/image_crop.py:135-139 | the `k`-th cell appended is cell `(k div m, k mod m)` |
| ImageCrop.DefaultNameOfUpload | pages/multipages/image_crop.py:154 | the default name of cell `i` of `<stem>.png` is `<stem>(i+1).png` |
| ImageCrop.DefaultName | pages/multipages/image_crop.py:154 | defines `f"{file_name[:-4]}({i + 1}).png"`, the default name of cell `i` |
| ImageCrop.DefaultNamesDiffer | pages/multipages/image_crop.py:154 | different cells get different default names |
| ImageCrop.DefaultNames | pages/multipages/image_crop.py:152-155 | the naming loop gives one default name per cell |
| ImageCrop.BlockImg | pages/multipages/image_crop.py:85-155 | corrected (Findings row 5): one cell and one name per pair of neighbouring lines, `(h + 1) * (v + 1)` in all, in row-major order, whether or not as many positions as requested were selected |
| ImageScale.MatchEndExact | pages/preprocess/image_add_name_scale.py:19 | a match of `[-_](\d+(\.\d+)?)[xX]` starting at `s` ends exactly where the pattern's definition says, and nowhere else |
| ImageScale.IsLead | pages/preprocess/image_add_name_scale.py:19 | defines the pattern's `[-_]` |
| ImageScale.IsTimes | pages/preprocess/image_add_name_scale.py:19 | defines the pattern's `[xX]` |
| ImageScale.LensMatch | pages/preprocess/image_add_name_scale.py:19 | defines a match of `[-_](\d+(\.\d+)?)[xX]` at `s` whose group ends at `e` |
| ImageScale.MatchEnd | pages/preprocess/image_add_name_scale.py:19 | defines where a match starting at `s` ends, the greedy digits and the optional fraction tried as the regular-expression engine does |
| ImageScale.FirstMatch | pages/preprocess/image_add_name_scale.py:19 | `re.search` finds the leftmost start at which the pattern matches, or reports that none does |
| ImageScale.LensParameterSpec | pages/preprocess/image_add_name_scale.py:17-24 | the sentinel `未提取到放大倍数` is returned exactly when no part of the path matches; otherwise the digits between the leftmost `-`/`_` and its `x`/`X` |
| ImageScale.LensParameter | pages/preprocess/image_add_name_scale.py:17-24 | defines `get_lens_parameter`: the group of the leftmost match, or the sentinel `未提取到放大倍数` |
| ImageScale.LensOfName | pages/preprocess/image_add_name_scale.py:17-24 | a name `<stem>_<digits>x...` whose stem has no `-` or `_` yields its digits |
| ImageScale.OtherMicroscopeMissing | pages/preprocess/image_add_name_scale.py:10-14 | no table key names the microscope `海约` the page offers |
| ImageScale.OfferedChoicesFound | pages/preprocess/image_add_name_scale.py:10-14 | every camera and objective the page offers with microscope `凤凰` has a table entry |
| ImageScale.ScaleKey | pages/preprocess/image_add_name_scale.py:54 | defines the table key `f'{camera}-{microscope}-X{lens}'` |
| ImageScale.Lens | pages/preprocess/image_add_name_scale.py:30-33 | defines the objective used: read from the file name when `lens_extract` is set, else the one chosen |
| ImageScale.ScaleBar | pages/preprocess/image_add_name_scale.py:58-60 | the bar is horizontal, `pixels` long, 2 wide, ending 20 pixels from the right and 55 from the bottom |
| ImageScale.ScaleMarks | pages/preprocess/image_add_name_scale.py:31-60 | the lookup fails with `KeyError` of the key exactly when the key is not in the table; otherwise two marks are drawn |
| ImageScale.ScaleMarksValue | pages/preprocess/image_add_name_scale.py:54-56 | the value shown is `pixels` times the table's micrometres per pixel, 180 pixels from the right and 50 from the bottom |
| ImageScale.MissingLensRaises | pages/preprocess/image_add_name_scale.py:32-54 | a magnification read from a file name without one is looked up under the sentinel and raises `KeyError`: the guard compares the builtin `len` with a string |
| ImageScale.Root | pages/preprocess/image_add_name_scale.py:46 | defines `os.path.splitext(p)[0]` with Windows separators: the path without the extension of its last component, leading points not counting as one |
| ImageScale.RootOfPath | pages/preprocess/image_add_name_scale.py:46 | `os.path.splitext` drops exactly the extension of `<dir><stem><ext>` |
| ImageScale.ImageName | pages/preprocess/image_add_name_scale.py:46 | defines the name written: the root's part after the last backslash |
| ImageScale.ImageNameOfPath | pages/preprocess/image_add_name_scale.py:46 | the name written is the stem after the last backslash, without its extension |
| ImageScale.Picture.constructor | pages/preprocess/image_add_name_scale.py:40-41 | `Image.open`: a picture of the file's size with no marks, not yet saved |
| ImageScale.Picture.Draw | pages/preprocess/image_add_name_scale.py:48-60 | a drawing appends one mark and changes nothing else |
| ImageScale.Picture.Save | pages/preprocess/image_add_name_scale.py:63 | after saving the picture is saved |
| ImageScale.NameAloneNeverSaved | pages/preprocess/image_add_name_scale.py:27-54 | as written, with the scale bar unticked the function raises (`camera` is unbound) before saving |
| ImageScale.AddNameScaleAsWritten | pages/preprocess/image_add_name_scale.py:27-66 | as written (Findings row 6): defines what `png_add_name_scale` draws, whether it saves and how it ends; without scale-bar settings it raises `NameError` before saving |
| ImageScale.AddNameScale | pages/preprocess/image_add_name_scale.py:27-66 | corrected (Findings row 6): the name is drawn at (10, 10); with settings the value and bar follow or the `KeyError` is returned unsaved; without settings it saves the name alone |
| ChemPolymerization.CountSkips | pages/multipages/chemical_polymerization.py:48 | occurrences of the separator are not changed by dropping a prefix in which none starts |
| ChemPolymerization.Count | pages/multipages/chemical_polymerization.py:48 | defines `s.count(sep)`: non-overlapping occurrences counted left to right; `SplitCount` relates it to `split` |
| ChemPolymerization.SplitCount | pages/multipages/chemical_polymerization.py:48 | `str.split(sep)` gives one more piece than there are non-overlapping occurrences of `sep` |
| ChemPolymerization.StringToList | pages/multipages/chemical_polymerization.py:44-52 | a cell that is not text gives `[]`; text with an empty separator raises `ValueError`; text otherwise gives a list |
| ChemPolymerization.StringToListPieces | pages/multipages/chemical_polymerization.py:44-52 | one piece per occurrence of the separator plus one; the pieces, rejoined, give back the text; no piece holds the separator; each result is its piece stripped of surrounding white space |
| ChemPolymerization.Trimmed | pages/multipages/chemical_polymerization.py:49 | defines a text with no white space at either end, what `strip` leaves |
| ChemPolymerization.Padded | pages/multipages/chemical_polymerization.py:49 | defines a piece as its stripped text with white space around it; `StringToListPieces` uses it |
| ChemPolymerization.Basename | pages/multipages/chemical_polymerization.py:61 | `os.path.basename` is a suffix of the path |
| ChemPolymerization.BasenameOfPath | pages/multipages/chemical_polymerization.py:61 | the basename of `<dir><sep><name>` is `name` |
| ChemPolymerization.IsPng | pages/multipages/chemical_polymerization.py:60 | defines `path.lower().endswith('.png')` |
| ChemPolymerization.PngKey | pages/multipages/chemical_polymerization.py:60-61 | a path has a column exactly when it ends in `.png` in any case, and the column is its basename |
| ChemPolymerization.Stored | pages/multipages/chemical_polymerization.py:57-63 | defines the `data` dictionary: each keyed path's URI under its key, a later path overwriting an earlier one; `StoredKeys` and `StoredLastWins` state its properties |
| ChemPolymerization.Order | pages/multipages/chemical_polymerization.py:57-65 | defines the dictionary's insertion order, which becomes the frame's column order; `OrderDistinct` states no key repeats |
| ChemPolymerization.StoredKeys | pages/multipages/chemical_polymerization.py:57-65 | the frame's columns are exactly the keys of the paths that have one, and its column order holds exactly those keys |
| ChemPolymerization.OrderDistinct | pages/multipages/chemical_polymerization.py:63-65 | no column appears twice |
| ChemPolymerization.StoredLastWins | pages/multipages/chemical_polymerization.py:63 | when two paths share a basename, the column holds the URI of the later one |
| ChemPolymerization.StoreStep | pages/multipages/chemical_polymerization.py:59-63 | one path more leaves the frame alone, overwrites its column in place, or appends a new column at the end |
| ChemPolymerization.ImgPathsToDataFrame | pages/multipages/chemical_polymerization.py:55-65 | the loop builds the columns and their order that the dictionary insertions define |
| ChemPolymerization.ResizeTarget | pages/multipages/chemical_polymerization.py:68-72 | a zero height raises `ZeroDivisionError`; otherwise the new height is the target |
| ChemPolymerization.ResizeKeepsAspect | pages/multipages/chemical_polymerization.py:71 | the new width is the largest whole number not above `width / height * target` |
| ChemPolymerization.ResizeSameHeight | pages/multipages/chemical_polymerization.py:71 | resizing to the image's own height keeps its width |
| ChemPolymerization.Reversed | pages/multipages/chemical_polymerization.py:84-96 | `df[::-1]` has the same rows, the `k`-th being the `k`-th from the end |
| ChemPolymerization.ReversedTwice | pages/multipages/chemical_polymerization.py:84-96 | reversing twice gives back the sheet |
| ChemPolymerization.RawData | pages/multipages/chemical_polymerization.py:77-87 | every row is shown, the newest (last) first |
| ChemPolymerization.DateMask | pages/multipages/chemical_polymerization.py:103 | a row is kept exactly when its date is among those chosen |
| ChemPolymerization.NumberMask | pages/multipages/chemical_polymerization.py:106 | a row is kept exactly when its number is among those chosen |
| ChemPolymerization.Selected | pages/multipages/chemical_polymerization.py:101-111 | defines the rows and numbers the page goes on with: those of the chosen dates and numbers, or with 'select all' every row and number of the chosen dates; `SelectedRows` states it |
| ChemPolymerization.Numbers | pages/multipages/chemical_polymerization.py:105-111 | the numbers column, row by row |
| ChemPolymerization.SelectedRows | pages/multipages/chemical_polymerization.py:101-111 | a row is selected exactly when its date is chosen and, without 'select all', its number is too |
| ChemPolymerization.ImageCell | pages/multipages/chemical_polymerization.py:119-128 | `.loc[number, 'Solution Image']` after `set_index`: a failing lookup raises `KeyError` of the number; `ImageCellFails`, `ImageCellUnique` and `ImageCellRepeated` state the cases |
| ChemPolymerization.ImageCellFails | pages/multipages/chemical_polymerization.py:119-128 | the image lookup raises `KeyError` exactly when no selected row has the number |
| ChemPolymerization.ImageCellUnique | pages/multipages/chemical_polymerization.py:119-128 | a number held by one row gives that row's image cell |
| ChemPolymerization.ImageCellRepeated | pages/multipages/chemical_polymerization.py:119-128 | a number held by two rows gives a Series, which shows no images |
| ChemPolymerization.SolutionImages | pages/multipages/chemical_polymerization.py:128-130 | defines the image table of one number: its cell's path list turned into a frame, or the lookup's error |
| ChemPolymerization.ShownFor | pages/multipages/chemical_polymerization.py:126-130 | the lookup the loop applies to each number, over the selected rows |
| ChemPolymerization.Each | pages/multipages/chemical_polymerization.py:126-136 | the loop over the numbers: one table per number when none raises; `EachStep` and `EachFailureStays` state it |
| ChemPolymerization.EachSnoc | pages/multipages/chemical_polymerization.py:126-136 | one more number appends its table, or raises its error, and an earlier error stays |
| ChemPolymerization.EachStep | pages/multipages/chemical_polymerization.py:126-136 | the loop over the numbers succeeds exactly when every lookup does, and yields each number's table in order |
| ChemPolymerization.EachFailureStays | pages/multipages/chemical_polymerization.py:126-128 | the first lookup that raises ends the loop with its error |
| ChemPolymerization.DataAnalysis | pages/multipages/chemical_polymerization.py:91-136 | the reversed sheet, the selected rows, then each selected number's image table, or the first lookup's error |
| ChemPolymerization.SelectionNeverRaises | pages/multipages/chemical_polymerization.py:101-128 | numbers offered from the date-filtered rows are always found, so the loop never raises |
| Text.SplitJoinRoundTrip | pages/multipages/chemical_polymerization.py:48 | joining the pieces with the separator gives back the text, and no piece holds the separator |
| Text.Split | pages/multipages/chemical_polymerization.py:48 | Python `s.split(sep)` for a non-empty separator is never an empty list |
| Text.Join | pages/multipages/chemical_polymerization.py:48 | defines `sep.join(parts)`, the inverse `SplitJoinRoundTrip` relates to `split` |
| Text.IndexOf | pages/preprocess/keithley_txt2excel.py:28 | Python `s.find(sub)`: an occurrence with none before it, or none at all |
| Text.IndexFrom | pages/preprocess/keithley_txt2excel.py:28 | the first occurrence of `sub` at or after `k`, none before it |
| Text.OccursAt | pages/preprocess/keithley_txt2excel.py:28 | defines an occurrence of `sub` at index `i` |
| Text.Contains | pages/preprocess/chi_txt2excel.py:80 | Python `sub in s`: some index holds an occurrence |
| Text.BeforeFirst | pages/preprocess/keithley_txt2excel.py:28 | `s.split(sep)[0]` is a prefix of `s` without `sep`, ending where the first `sep` starts, or all of `s` |
| Text.AfterLast | pages/preprocess/chi_txt2excel.py:80 | `s.split(sep)[-1]` is a suffix of `s` without `sep` |
| Text.FileStem | pages/preprocess/chi_txt2excel.py:80 | the name derived from a path holds neither a backslash nor the extension |
| Text.FileStemOfPath | pages/preprocess/chi_txt2excel.py:80 | the name derived from `<dir>\<name><ext>` is `name` |
| Text.Replace | pages/preprocess/excel_normalize.py:50 | with an empty pattern `replace` inserts the replacement before every character and at the end |
| Text.ReplaceAll | pages/preprocess/excel_normalize.py:50 | defines Python `s.replace(pat, repl)` for a non-empty pattern: every non-overlapping occurrence, left to right |
| Text.ReplaceNoMatch | pages/process/electropolymerization_analysis.py:281 | without an occurrence `replace` changes nothing |
| Text.ReplaceIsJoinOfSplit | pages/preprocess/excel_normalize.py:50 | `s.replace(pat, repl)` equals `repl.join(s.split(pat))` |
| Text.Words | pages/preprocess/keithley_txt2excel.py:31 | `split()` yields non-empty words without white space |
| Text.IsSpace | pages/preprocess/keithley_txt2excel.py:31 | defines the characters `str.isspace` accepts, which `split()` and `strip()` remove |
| Text.TokenLength | pages/preprocess/keithley_txt2excel.py:31 | the leading run of non-space characters, stopped by a space or the end |
| Text.NonSpace | pages/preprocess/keithley_txt2excel.py:31 | defines the line's non-space characters in order, what the words of `split()` hold together |
| Text.WordsKeepEveryCharacter | pages/preprocess/keithley_txt2excel.py:31 | the words hold exactly the line's non-space characters, in order |
| Text.StripIsMiddle | pages/multipages/chemical_polymerization.py:49 | the text is what `strip` removes in front, the stripped text, then what it removes behind |
| Text.LeadingSpaces | pages/multipages/chemical_polymerization.py:49 | the whitespace `strip` removes in front is no longer than the text |
| Text.TrailingSpaces | pages/multipages/chemical_polymerization.py:49 | the whitespace `strip` removes behind is no longer than the text |
| Text.StripEnd | pages/multipages/chemical_polymerization.py:49 | where the stripped text ends, at or after its start |
| Text.Strip | pages/multipages/chemical_polymerization.py:49 | defines Python `s.strip()`, the slice between the leading and the trailing whitespace |
| Text.StripRemovesOuterSpace | pages/preprocess/chi_txt2excel.py:47 | `strip` removes only white space |
| Text.StripTrims | pages/preprocess/chi_txt2excel.py:47 | the stripped text neither starts nor ends with white space |
| Text.StartsWith | pages/preprocess/uv_sca2excel.py:25 | defines `s.startswith(p)` |
| Text.EndsWith | pages/multipages/chemical_polymerization.py:60 | defines `s.endswith(suffix)` |
| Text.LowerChar | pages/multipages/chemical_polymerization.py:60 | defines `.lower()` on one character: an ASCII capital becomes its small letter, anything else stays |
| Text.Lower | pages/multipages/chemical_polymerization.py:60 | `.lower()` keeps the length and lowers each character in place |
| Text.IsDigit | pages/preprocess/XRD_txt2excel.py:14 | defines the regular expressions' `\d` on the ASCII digits |
| Text.DigitsIn | pages/preprocess/image_add_name_scale.py:19 | defines a run of `\d` over `[lo, hi)` |
| Text.DigitEnd | pages/preprocess/image_add_name_scale.py:19 | the greedy `\d+` from `k` stops at the first non-digit or the end |
| Text.DigitsValue | pages/preprocess/avantes_raw2excel.py:76 | defines the value of a run of decimal digits |
| Text.NatToString | pages/multipages/image_crop.py:154 | `str(n)` is a non-empty string of digits |
| Text.NatToStringRoundTrip | pages/multipages/image_crop.py:154 | the digits of `str(n)` read back as `n` |
| Text.NatToStringInjective | pages/multipages/image_crop.py:154 | different numbers print differently |
| Text.DigitChar | pages/multipages/image_crop.py:154 | defines the character of one decimal digit in `str(n)` |
| Text.DropLast | pages/multipages/image_crop.py:154 | `s[:-n]` is the prefix of `s` without its last `n` characters, or empty when `s` is shorter |
| Text.DropLastOfSuffixed | pages/multipages/image_crop.py:154 | dropping a suffix's length from `<stem><suffix>` leaves `stem` |
| Naming.LastWhere | pages/preprocess/image_add_name_scale.py:46 | the position of the last character with the property, every later one lacking it, or -1 when none has it |
| Naming.IsSep | pages/preprocess/image_add_name_scale.py:46 | defines the separators `os.path` accepts on Windows: backslash and slash |
| Naming.IsDot | pages/preprocess/image_add_name_scale.py:46 | defines the point `splitext` looks for |

## Left out

- Streamlit: widgets, pages, caching, messages, `st.dataframe`/`st.data_editor` display and the AgGrid/JavaScript image renderer. The page functions that only gather widget values are left out, and the values become parameters.
- File and OS I/O: reading and writing workbooks, CSV and text files, `os.walk`/`os.listdir`, and opening, saving and closing images. A read file is its lines or its table of cells, and a written workbook is the value returned.
- OpenCV (`cv2.inRange`, contours, `minEnclosingCircle`, drawing circles): the ring centre and radius are inputs. Marking points on a copy of the image is modelled only as the list of points marked.
- Floating point: cells are exact reals, NaN and signed infinities. Rounding and overflow are not modelled, nor is the three-decimal formatting of the scale-bar value.
- Transcendental functions (`cos`, `sin`, `sqrt`, `log10`, `10 ** x`) are parameters. The nucleation-model curves, `ln(-ln(1 - Q))` and the linear regression of the It analysis are left out, beyond the choice of fit points.
- SciPy: `interp1d` interpolation in the Avantes converter is left out. The converter is modelled without it. `savgol_filter` is a parameter of the XRD converter.
- Plotting with Matplotlib and Plotly, and fonts and colours of drawn text.
- `pd.to_datetime(...).dt.strftime` on the chemical-polymerisation sheet: dates are taken as already-formatted text. The transpose of the solution-state table is left out.
- Pixel resampling by PIL `resize` (`Image.ANTIALIAS`): only the target size is modelled.
- Missing cells in a CSV: tables read by `read_csv` are rectangular grids of text.
- `.lower()` is ASCII lower-casing. It is applied only to file extensions.
- ExcelNormalize.ExcelNormalizeSheet: builds its save paths with the corrected `SavePath` (Findings row 3). The program's `replace` also renames every directory component equal to the file name.
- Ichy.IchyCsv2Excel: sends CA exports to the corrected `CaSheet` (Findings row 4). The program raises `TypeError` on every CA export, as `CaSheetAsWritten` shows.
- ImageCrop.BlockImg: cuts the corrected cells (Findings row 5). When a line lies within 3 pixels of the top or left edge, the program's negative stop counts from the end, as `CellAsWritten` shows.
- ImageScale.AddNameScale: saves the name alone when no scale-bar settings are given (Findings row 6). The program raises on the unbound `camera` before saving, as `AddNameScaleAsWritten` shows.
- ImageCrop.Crop and ImageCrop.BlockImg: accept a grid of any pixel type. The program unpacks `img.shape` into three names (pages/multipages/image_crop.py:46 and :111), so a grayscale or palette image, a 2-D array, raises `ValueError` there.
- Text.IsDigit: ASCII `0`-`9` only. Python 3's `\d` and `float()` also accept the other Unicode decimal digits. This affects the patterns of `extract_scan_rate`, `extract_time_interval`, `get_lens_parameter` and the XRD line filter, so names or lines with such digits are not modelled.
- ImageCrop.GridCoords: computes `p * size div 100` exactly. Python's `int(p / 100 * size)` can fall one short when the float product lands just below a whole number (`29 / 100 * 100` is `28.999…`).
- ChemPolymerization.ResizeTarget: computes `width * target div height` exactly. Python's `int(width / height * target)` can differ by one through float rounding.
- ItAnalysis.Analyse: times and currents are exact reals, so the test `max == min` on the charge has no rounding. A fit window of two or more points whose times are all equal also makes `linregress` raise ValueError in the SciPy releases that check for identical x values (caught at pages/process/electropolymerization_analysis.py:275-277); the model reports `Analysed` there. Errors while saving and plotting are not modelled.
- Avantes.LowercaseFluorescenceUntouched: the model records that the page's lowercase 'fluorescence' choice leaves the spectra untransformed. It does not define a corrected dispatch, since the intended spelling cannot be told from the code.

## Findings

| source | as written | input that shows it | evidently intended | confidence | as-written member | corrected member |
|---|---|---|---|---|---|---|
| pages/preprocess/electricity_excel_split_segment.py:30-55 | each segment's columns are assigned to one frame, whose index is fixed by the first non-empty segment, so longer later segments are cut and shorter ones padded | CV potentials 0, 1, 0, -1, -2: the second segment has three rows but only two are written, and -2 is lost | every segment keeps all its rows, and the sheet is as long as the longest segment | not executed | SegmentSplit.TruncatedSegmentExample | SegmentSplit.PaddedSheetKeepsEveryRow |
| pages/multipages/image_coffee_ring.py:182-189 | under NumPy 2 (NEP 50 promotion) the bounds `color - t` and `color + t` are computed on `uint8` and wrap around modulo 256 | colour (5, 100, 100) with `t` = 20: the lower bound of the first channel is 241, and the colour is outside its own window | bounds clamped to 0..255, so a pixel is in the mask exactly when every channel is within `t` of the colour | not executed; depends on the NumPy version: NumPy 1.x promotes to int64 and `cv2.inRange` saturates, which already gives the clamped mask (`CoffeeRing.ExactBoundsSaturateToClamped`) | CoffeeRing.WrappedBoundsDropTheCentre | CoffeeRing.ClampedMaskIsWindow |
| pages/preprocess/excel_normalize.py:47-72 | the save path replaces every occurrence of the file name in the whole path | `a\a.xlsx` is saved to `<prefix>a\<prefix>a.xlsx`, in a directory that does not exist | only the file name gets the prefix, in the same directory | not executed | ExcelNormalize.SavePathAsWrittenRewritesDirectory | ExcelNormalize.SavePathOfPath |
| pages/preprocess/ichy_csv2excel.py:56-68 | `np.repeat` is given the float `Pulse_Width / Sample_Int` as its count | any CA export, for example pulse width 1000 ms and sample interval 100 ms (count 10.0): `TypeError` | the count is the whole number of samples per pulse, giving a square wave as long as the data | not executed | Ichy.CaAsWrittenFails | Ichy.CaPotentialPattern |
| pages/multipages/image_crop.py:132-138 | a cell's stop `h[i+1] - 3` is negative when a line lies within 3 pixels of the top or left edge, and NumPy then counts it from the end | a 10 x 10 image with a horizontal line at 0 %: the band between the edge and the line is 4 rows, not empty | a stop below the start gives an empty cell | not executed | ImageCrop.CoincidentLinesAsWritten | ImageCrop.CellBetweenLines |
| pages/preprocess/image_add_name_scale.py:30-54 | without the scale-bar box ticked `camera` is never assigned, yet the table lookup always runs | any image with the scale bar unticked: it raises before the name is saved | the name alone is written and the image saved | not executed | ImageScale.NameAloneNeverSaved | ImageScale.AddNameScale |

# Sleep and non-wear scoring of actigraphy counts, in Dafny

This project models the numeric core of MultiSensorSleepAnalysis, a Python
tool. The tool turns wrist/limb accelerometer recordings into per-minute
activity counts, scores each minute as sleep or wake, and finds periods
when the device was not worn. Three modules cover three source files:

- `ActivityCounts` (act_count_gen.py): the signal-conditioning tail of
  `process_axivity_data`. It starts from the band-passed, resampled 10 Hz
  x, y, z and vector-magnitude signals. Each of the four channels is
  processed the same way:
  - a sample below 0.068 g is **dead-banded**: set to 0;
  - a sample above 2.13 g is **capped**: set to 2.13;
  - the sample is **quantised** to `round(v / 2.13 * 128)`, with numpy's
    round-half-to-even.

  Each channel is then summed over 600-sample (60 s) epochs, and an
  incomplete last epoch is dropped. Epoch `i` is stamped
  `start + 60 s * i`. As in the source, the conditioning works in place on
  arrays (`ApplyDeadBand`, `ApplyCap`). The sums are computed by nested
  loops (`EpochSums`). Each of these methods is proved equal to a pure
  specification (`DeadBanded`, `Capped`, `Quantised`, `EpochTotals`,
  `EpochTable`), and the lemmas state the bounds and invariants of those
  specifications.
- `ColeKripke` (apply_cole_kripke.py): the single-sensor and multi-limb
  Cole-Kripke scorers.
  - A count is scaled by 1/100 and capped at 300.
  - The sleep index of epoch `i` is 0.001 times a 7-tap weighted sum over
    epochs i-4 .. i+2, where counts outside the recording are 0.
  - An index below 1 scores sleep (`S`); otherwise the epoch is wake (`W`).
  - The multi-limb scorer averages the indices of a limb's three axes
    before scoring.

  The pandas DataFrames that the source writes columns into are two
  classes, `SingleFrame` and `MultiFrame`. Their methods are proved
  against the pure formula.
- `Choi` (apply_choi.py): non-wear detection over per-epoch counts.
  1. A row is worn when its count is positive.
  2. The wear column is run-length encoded (`rleid`, then `groupby`).
  3. Non-wear runs shorter than the spike tolerance become wear.
  4. The summary is encoded again, which merges runs that now share a
     state.
  5. Non-wear runs of at least `min_period_len` rows are reported, with
     `period_end = timestamp + 60 * length`.

  The pipeline is a chain of functions on sequences. The change points and
  running sum behind `rleid` are modelled as the source computes them.
  `groupby('rleid')` is `Merge`, and lemmas show that the run or row with
  id `k` lands in group `k - 1` of the merge. Two methods over arrays fill
  the `wear` and `rleid` columns.

Arithmetic is on exact reals and unbounded integers.

Three details of the code shape what is proved:
- **Dead-band.** The dead-band is the signed test `x < 0.068`, so negative
  samples become 0 as well (act_count_gen.py:68-71).
- **Cap.** The cap only bounds from above, `x > 2.13` (act_count_gen.py:75-78).
  Combined with the dead-band, every conditioned sample is 0 or lies in
  [0.068, 2.13], so quantised samples are never negative.
- **Spike repair.** Repair only turns short *non-wear* runs into wear; wear
  runs are never changed (apply_choi.py:34-36). For the wear flags
  1,1,0,0,0,1,0,0,0,0,0,1 with `min_period_len = 3` and
  `spike_tolerance = 2`, the lone worn row at index 5 is therefore not
  bridged, and two periods are reported, of 3 and 5 epochs
  (`Choi.ExampleShortWearRunIsNotBridged`).

## Model

| member | source | states |
|---|---|---|
| Choi.WearColumn | apply_choi.py:21 | wear is 1 exactly when the count is positive and 0 exactly when it is not |
| Choi.CumSum | apply_choi.py:7 | running sum of 0/1 flags: the first entry is the first flag, each later entry adds its flag to the previous one |
| Choi.RleId | apply_choi.py:5-7 | ids start at 1 and grow by exactly one where a value differs from its predecessor, and stay equal otherwise |
| Choi.RleIdMarksRuns | apply_choi.py:5-7 | ids never decrease, and two rows share an id if and only if every row between them holds the same value |
| Choi.MarkWear | apply_choi.py:21 | the array filled by the loop is the wear column of the counts |
| Choi.NumberRuns | apply_choi.py:5-7 | the array filled by the loop is the rleid column of its input |
| Choi.AddWearColumns | apply_choi.py:21-24 | the `wear` and `rleid` columns computed for a count column |
| Choi.Merge | apply_choi.py:27-31 | grouping never adds runs, the first group keeps the first run's wear and timestamp, and neighbouring groups differ in wear |
| Choi.MergeExpand | apply_choi.py:27-31 | grouping keeps the row-by-row wear sequence the runs stand for |
| Choi.MergeTotal | apply_choi.py:42-46 | grouping keeps the total length (`length` summed) |
| Choi.MergeNonEmpty | apply_choi.py:42-46 | grouping non-empty runs gives non-empty groups |
| Choi.MergeFirstConstituent | apply_choi.py:42-46 | every group starts at the row where one of its runs starts and takes that run's wear and timestamp (`first`) |
| Choi.MergeAnchored | apply_choi.py:42-46 | if every run carries the timestamp of its first row, so does every group |
| Choi.MergeBlock | apply_choi.py:27-31 | a block of runs sharing a wear state becomes one group whose length is the block's total |
| Choi.RunInsideGroup | apply_choi.py:27-31 | a run that begins inside a group and shares its wear state ends inside that group |
| Choi.NextRunGroup | apply_choi.py:5-7 | the run after one inside group `g` lies in group `g` when it has the same wear state, and in group `g + 1` (which exists) when it does not |
| Choi.MergeGroupsByRleId | apply_choi.py:39-46 | run `j` of a summary lies inside group `rleid[j] - 1` of its merge, where `rleid` numbers the summary's `wear` column |
| Choi.MergeCountIsLastRleId | apply_choi.py:39-46 | a non-empty summary merges into exactly as many groups as its last rleid |
| Choi.SummarizeGroupsByRleId | apply_choi.py:24-31 | row `i` lies inside group `rleid[i] - 1` of the first summary, and there are as many groups as the last rleid |
| Choi.SecondSummaryGroupsByRleId | apply_choi.py:39-46 | run `j` of the repaired summary lies inside group `rleid[j] - 1` of the second summary, and there are as many groups as the last rleid |
| Choi.FirstSummaryIsRle | apply_choi.py:24-31 | the first summary is the maximal run-length encoding of the wear column: it expands back to the column, its runs are non-empty and alternate, their lengths add up to the row count, and each run carries its first row's timestamp |
| Choi.RepairSpikes | apply_choi.py:34-36 | timestamps and lengths are kept; a run's wear changes exactly when it is non-wear and shorter than the tolerance, and then it becomes 1 |
| Choi.RepairKeepsLayout | apply_choi.py:34-36 | repair keeps every run's starting row, the total length, non-emptiness and anchoring |
| Choi.RepairOnlyAddsWear | apply_choi.py:34-36 | a row that is non-wear after repair was non-wear before |
| Choi.SecondSummaryFacts | apply_choi.py:39-46 | the second summary still covers every row in alternating, non-empty, anchored runs, and a row it marks non-wear (wear 0) had wear 0 in the row-level wear column |
| Choi.QualifyingIndices | apply_choi.py:49 | the selected positions are in range, strictly increasing, and each is a non-wear run of at least `min_period_len` rows |
| Choi.QualifyingComplete | apply_choi.py:49 | every non-wear run of at least `min_period_len` rows is selected |
| Choi.QualifyingSnoc | apply_choi.py:49 | appending a run appends its position to the selection exactly when it passes the filter |
| Choi.SelectionFacts | apply_choi.py:49-52 | on any summary of the rows: each period has at least `min_period_len` and at least 1 rows, ends `60 * length` after its start, starts at its first row's timestamp and covers only non-wear rows, and two periods are at least one row apart |
| Choi.ApplyChoiPeriods | apply_choi.py:15-57 | apply_choi's result: the same facts, with every covered row's count at most 0 |
| Choi.SeparatedRowsGiveDisjointPeriods | apply_choi.py:52 | periods over separated row ranges, on rows at least 60 s apart, are disjoint intervals in order |
| Choi.ApplyChoiDisjoint | apply_choi.py:49-52 | with rows at least 60 s apart, every period ends after it starts and before the next one starts |
| Choi.ApplyChoiDefaults | apply_choi.py:15 | `apply_choi(df)` with its defaults 90, 30 and 2 and counts from axis 1, the call the command line makes: every period has at least 90 rows, ends `60 * length` after its start, and starts at a row's timestamp |
| Choi.ApplyChoiSorted | apply_choi.py:49 | with strictly increasing timestamps, the periods are sorted by start |
| Choi.ApplyChoiComplete | apply_choi.py:49-52 | every qualifying run of the second summary is reported |
| Choi.ExampleShortWearRunIsNotBridged | apply_choi.py:34-49 | the wear flags 1,1,0,0,0,1,0,0,0,0,0,1 with `min_period_len = 3` and `spike_tolerance = 2` give the periods (120, 300, 3) and (360, 660, 5) |
| ColeKripke.Adjusted | apply_cole_kripke.py:28 | the adjusted count is at most 300 and at most count/100, and equals one of them |
| ColeKripke.AdjustedMonotone | apply_cole_kripke.py:33 | a higher count never gets a lower adjusted count |
| ColeKripke.IndexIsWeightedWindow | apply_cole_kripke.py:38-46 | the index is 0.001 times the weighted window sum with weights 106, 54, 58, 76, 230, 74, 67, the first weight applying four epochs back |
| ColeKripke.Labels | apply_cole_kripke.py:49 | one label per epoch: S exactly when the index is below 1, W exactly when it is at least 1 |
| ColeKripke.Locality | apply_cole_kripke.py:38-46 | an epoch's index and label depend only on the counts of epochs i-4 .. i+2 |
| ColeKripke.IndexBounds | apply_cole_kripke.py:38-46 | every index is at most 199.5, and at least 0 when the counts are non-negative |
| ColeKripke.IndexMonotone | apply_cole_kripke.py:54-62 | raising counts never lowers an index |
| ColeKripke.RaisingOneCount | apply_cole_kripke.py:54-62 | raising a single count never lowers any index |
| ColeKripke.AllZeroIsSleep | apply_cole_kripke.py:38-49 | all-zero counts give index 0 and sleep for every epoch |
| ColeKripke.LimbIndexIsMean | apply_cole_kripke.py:91 | the limb index is the arithmetic mean of its three axis indices |
| ColeKripke.LimbAgreesWithAxes | apply_cole_kripke.py:91-94 | when all three axes score S (or all W), the limb does too, and the limb index obeys the axis bounds |
| ColeKripke.SingleFrame.ActigraphAdjustmentSing | apply_cole_kripke.py:27-29 | writes the `count` column as the adjusted `axis1` and leaves the other columns alone |
| ColeKripke.SingleFrame.ColeKripke1MinSing | apply_cole_kripke.py:36-50 | writes `sleep_index` from `count` and `sleep` from `sleep_index`, and leaves the other columns alone |
| ColeKripke.SingleFrame.ApplyColeKripkeSingle | apply_cole_kripke.py:108-121 | the table ends up with adjusted counts, their index and labels; `out` is the selection `dataTimestamp, sleep_index, sleep` that the source writes to CSV, while the frame the source returns is the object itself after the call |
| ColeKripke.MultiFrame.ActigraphAdjustmentMult | apply_cole_kripke.py:31-34 | writes only `{column}_adjusted` |
| ColeKripke.MultiFrame.ColeKripke1MinMult | apply_cole_kripke.py:52-63 | writes only `{column}_sleep_index` from `{column}_adjusted` |
| ColeKripke.MultiFrame.FormatOutput | apply_cole_kripke.py:65-74 | the output holds the timestamps and, for limbs 1..n in order, exactly each limb's index and label columns |
| ColeKripke.MultiFrame.ScoreAxes | apply_cole_kripke.py:81-88 | the axis loop writes `axis{a}_{l}_adjusted` and `axis{a}_{l}_sleep_index` for the limb's three axes and no other column, and collects the three indices in axis order |
| ColeKripke.MultiFrame.ScoreLimb | apply_cole_kripke.py:80-94 | one limb pass writes `axis{a}_{l}_adjusted` and `axis{a}_{l}_sleep_index` of the limb's three axes, then the limb's index as the mean of the three axis indices and its labels; no column of any other limb changes |
| ColeKripke.MultiFrame.ApplyColeKripkeMult | apply_cole_kripke.py:77-105 | for every limb 1..n, each axis column holds its adjusted counts and sleep index and the limb holds the mean index of its own three axes and its labels; every column outside limbs 1..n keeps its old value; the result is the formatted output |
| ColeKripke.LimbLoopStep | apply_cole_kripke.py:80-94 | one turn of the limb loop extends the scored limbs from 1..l-1 to 1..l and keeps every column outside them |
| ColeKripke.ExampleSevenZeroEpochs | apply_cole_kripke.py:38-49 | seven zero epochs give index 0 and S throughout |
| ActivityCounts.ConditionedRange | act_count_gen.py:68-78 | after dead-band and cap every sample is 0 or in [0.068, 2.13]; samples below 0.068, negatives included, are 0; samples in range pass unchanged; samples above 2.13 become 2.13 |
| ActivityCounts.ConditioningIdempotent | act_count_gen.py:68-78 | dead-band and cap change nothing when applied again |
| ActivityCounts.RoundHalfEven | act_count_gen.py:87-90 | the result is within 0.5 of its argument, and an exact tie goes to the even neighbour |
| ActivityCounts.RoundHalfEvenFacts | act_count_gen.py:87-90 | rounding is exact on integers and monotone |
| ActivityCounts.QuantumRange | act_count_gen.py:82-90 | 0 quantises to 0 and 2.13 to 128; a value in [0.068, 2.13] quantises into [4, 128] |
| ActivityCounts.ConditionRange | act_count_gen.py:68-90 | every conditioned sample is 0 or in [4, 128], and a sample below 0.068 gives 0 |
| ActivityCounts.SumBounds | act_count_gen.py:100-103 | a sum of samples in [0, 128] lies in [0, 128 * length] |
| ActivityCounts.TrailingSamplesDiscarded | act_count_gen.py:94-98 | samples past the last full epoch never affect the totals |
| ActivityCounts.EpochTotalsBounds | act_count_gen.py:94-103 | every epoch total of conditioned samples lies in [0, 76800] |
| ActivityCounts.QuietSignalGivesZeroCounts | act_count_gen.py:68-103 | a signal whose samples are all below 0.068 gives epoch counts of 0 |
| ActivityCounts.EpochTableFacts | act_count_gen.py:94-121 | the table has `len // 600` rows, stamped 60 s apart from the start, with every count in [0, 76800] |
| ActivityCounts.EpochTableSums | act_count_gen.py:94-121 | in row `i`, each of the four counts (`axis1`, `axis2`, `axis3`, `vmEpochCount`) is the sum of that channel's conditioned samples 600i .. 600i+599 |
| ActivityCounts.QuietRecordingGivesZeroRows | act_count_gen.py:68-121 | a recording with every sample below 0.068 gives all-zero rows |
| ActivityCounts.ApplyDeadBand | act_count_gen.py:68-71 | the array afterwards is the dead-banded old array |
| ActivityCounts.ApplyCap | act_count_gen.py:75-78 | the array afterwards is the capped old array |
| ActivityCounts.Quantise | act_count_gen.py:82-90 | the new array is the quantised input |
| ActivityCounts.EpochSums | act_count_gen.py:94-103 | entry k is the sum of samples 600k .. 600k+599 |
| ActivityCounts.EpochTimestamps | act_count_gen.py:107-112 | entry i is the start plus 60 s times i |
| ActivityCounts.ProcessAxivityData | act_count_gen.py:66-121 | the four arrays end up dead-banded and capped, and the returned table is the epoch table of the original signals |

## Left out

- The stages of act_count_gen.py before the dead-band are not part of this model: CSV reading, the 0.29–1.63 Hz Butterworth `filtfilt`, `resample` and the vector-magnitude square root. The four conditioned channels are inputs.
- The start of the epoch timestamps (`pd.to_datetime` of the first row) is a real number of seconds. Date-time arithmetic and formatting are not modelled.
- `add_magnitude` (a square root) is not modelled. The magnitude column is an input of `Choi.ApplyChoi`.
- `format_time_column` and the fixed 2025-02-03 baseline are not modelled. These are string formatting of dates, so the scorers keep their numeric timestamps.
- CSV output, `print` and the output-file parameters are I/O and are not modelled.
- CLI.py beyond its call of `apply_choi` with default arguments, the visualisation scripts, preprocess.py and the legacy code, including the Sadeh scorer, are not part of this model.
- Floating point is not modelled. All arithmetic uses exact reals, so representation error is not captured. This matters near the rounding ties of `x / 2.13 * 128` and at the `< 1` sleep threshold.
- Epoch sums and quantised samples are unbounded integers. The source's int64 cannot overflow here, since the sums are at most 76800.
- `min_window_len` is accepted by `Choi.ApplyChoi` and has no effect, as in the source.
- Choi.ApplyChoi: modelled as a function from columns to periods. The source also adds `count`, `wear` and `rleid` columns to the caller's frame. Only `Choi.AddWearColumns`, which returns the two columns as new arrays, models that.
- ColeKripke.MultiFrame.ApplyColeKripkeMult: requires the three axis columns of every limb to be present with one value per timestamp. The source raises `KeyError` on a missing column, and that error path is not modelled.
- ColeKripke.MultiFrame.FormatOutput: requires every limb's columns to exist. The source would raise `KeyError` otherwise.
- ActivityCounts.ProcessAxivityData: requires the four channels to have equal length and be distinct arrays. In the source they come from one resampling, so both hold.
- Pandas frames carry only the columns the scorers read or write. Other columns and the frame index are not modelled.

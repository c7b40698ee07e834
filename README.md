# Clear-sky observations (CSO) — a Dafny model

This project models the clear-sky-observation engine of the FORCE
higher-level processing system (`src/modules/higher-level/cso-hl.c`). For
every pixel of a processing chunk and for every time window of a fixed
number of months, the engine summarises the revisit gaps: the number of
days between consecutive valid (cloud-free) observations, counted from the
window start and closed by a trailing gap to the window end. It writes one
output product (a "slot") per enabled statistic. The statistics are:
- the number of valid observations;
- the minimum, maximum and range of the gaps;
- their mean, standard deviation, skewness and kurtosis;
- the requested quantiles and the inter-quartile range.

The model follows the source stage by stage, one Dafny module per stage.

- `Calendar` (calendar.dfy): dates as a day number (`ce`) and a
  day-of-year. The date library is an abstract calendar `Cal`, passed as a
  parameter. Its `set_date` and `set_date_ce` become `SetDate` and
  `SetDateCe`.
- `Windows` (windows.dfy):
  - the window count as a loop (`CountWindows`), proved equal to a ceiling
    division of the month span;
  - the nominal windows on arrays (`FillNominal`);
  - the narrowing of each window to allowed days of the year (`Adjust`,
    `NarrowWindow`, `AdjustWindows`);
  - the product loop of `compile_cso`, which rebuilds the window table once
    per product whose container could be set up (`CompileWindows`).
- `Indexer` (indexer.dfy): the pass that records, per window, the first and
  last time step on an allowed day inside the window (`t0`, `t1`), carrying
  the left index from window to window. The functional reference is
  `Ranges`, and the method `IndexWindows` fills two arrays. Given
  chronologically sorted dates and ordered windows, the indexer is proved
  exact (`IndexerExact`).
- `Gaps` (gaps.dfy): the gap sequence of one pixel in one window
  (`WindowGaps`), the valid-step counter `n` (`CountValid`) and the running
  minimum and maximum, with their properties. The properties are:
  - every gap is at least a day;
  - the gaps telescope to the window length;
  - there are at most `t1 - t0 + 2` gaps;
  - the minimum is at most the maximum.
- `Registry` (registry.dfy): the statistic configuration and its slots, and
  the product names. The fixed codes are `NUM` … `KRT`, and quantile names
  are `Q` followed by the percentage, padded to two digits. A quantile name
  that does not fit the 1024-byte buffer is an error.
- `Accumulator` (accumulator.dfy): the per-pixel loop on an integer cube
  `out[o, w, p]`, standing for the `short` output, and a real gap buffer of
  `nt + 1` cells, standing for the `double` one:
  - the walk over the window's steps (`WalkSteps`, `WalkWindow`);
  - the empty-range branch;
  - the clamp of the scaled moments;
  - the slot writes (`WriteCounts`, `WriteMoments`, `WriteSample`);
  - nodata for masked pixels and off-season windows;
  - the whole cube (`ClearSkyStats`), specified by `Expected`.
- `Engine` (engine.dfy): `clear_sky_observations` end to end
  (`ClearSkyObservations`), with `compile_cso` (`CompileCso`) and the
  indexing (`IndexScene`). It also holds the lemmas that connect the
  stages:
  - the compiled windows are ordered, so the indexer is exact for them;
  - every indexed range meets what the gap statistics need.

The model keeps these behaviours of the code exactly as the code has them:

- **The left index (`t_left`).** The carried left index is set to the
  previous window's `t1`, not `t1 + 1`, so a step can be looked at again by
  the next window.
- **Rebuilding the windows.** The nominal windows are rebuilt and
  re-adjusted once per product. The table is therefore the same whenever at
  least one product container was set up.
- **Which steps the walk checks.** The walk checks only the validity mask,
  not the day of year. A step between `t0` and `t1` that falls on a
  disallowed day still counts, provided it is valid.
- **Dates the walk skips.** A step whose date does not pass the running
  left boundary is still counted in `n` but adds no gap. This covers a
  repeated date and an observation exactly at the window start.
- **What `n` and `k` are used for.** The standard deviation, skewness and
  kurtosis receive `n`, the valid-step count. The moments themselves are
  built over `k`, the gap count. Skewness and kurtosis are computed only
  when `n > 0`.
- **The quantile sample.** Quantiles are taken over the first `n` buffer
  cells. In the usual case, with distinct dates after the window start,
  `k == n + 1`. The sample is then the walk's gaps without the trailing gap
  (`Accumulator.SampleOmitsTrailing`). When `n > k`, the sample reaches
  into cells left by an earlier window or pixel. The model leaves those
  cells unspecified (`Expected` returns `None` for them).
- **The IQR.** The IQR reuses the values written for the 0.25 and 0.75
  quantiles, when those were requested. Otherwise it computes them. The two
  give the same value.
- **Empty window range.** A used window with no indexed range reports its
  length as its minimum, maximum and mean. Its count is 0.
- **The adjusted window.** The adjusted window of a nominal window can end
  with `start == end + 1`, not only `start <= end`: both boundaries move
  in the same iteration (`Windows.AdjustedWindowShape`). Such a window is
  unused.

## Model

| member | source | states |
|---|---|---|
| Calendar.MonthStart | src/modules/higher-level/cso-hl.c:111-115 | the date of month index `i` is the calendar's first day of the month that `i` splits into: a month in 1..12 and a year that recompose to `i` |
| Calendar.IndexSplit | src/modules/higher-level/cso-hl.c:111-112 | year and month are recovered from their month index |
| Calendar.MonthStartOrdered | src/modules/higher-level/cso-hl.c:114-115 | on an increasing calendar a later month starts on a strictly later day |
| Windows.Advance | src/modules/higher-level/cso-hl.c:294 | advancing by `step` months with the wrap past December keeps the month in 1..12 and adds `step` to the month index |
| Calendar.LexBeforeIndex | src/modules/higher-level/cso-hl.c:291-292 | the loop's year-then-month comparison is the order of month indices |
| Windows.NumWindows | src/modules/higher-level/cso-hl.c:286-295 | the reference window count: how many of the month indices `s`, `s + step`, `s + 2 * step`, … lie before the end index |
| Windows.NumWindowsCeiling | src/modules/higher-level/cso-hl.c:286-295 | the number of `step`-month windows over a span is zero for an empty span and otherwise the span divided by the step, rounded up |
| Windows.CountWindows | src/modules/higher-level/cso-hl.c:286-295 | the count is zero exactly when the start month is not before the end month, and equals the ceiling of the month span over the step |
| Windows.NominalStart | src/modules/higher-level/cso-hl.c:104-131 | the nominal start of window `w`: the first of the month `w * step` months after the start month |
| Windows.NominalEnd | src/modules/higher-level/cso-hl.c:104-131 | the nominal end of window `w`: the first of the month `(w + 1) * step` months after the start month |
| Windows.FillNominal | src/modules/higher-level/cso-hl.c:104-133 | window `w` runs from the first of the month `w*step` months after the start to the first of the month `step` later |
| Windows.NominalContiguous | src/modules/higher-level/cso-hl.c:104-133 | each nominal window ends where the next starts |
| Windows.NominalOrdered | src/modules/higher-level/cso-hl.c:104-133 | a nominal window is non-empty and ends no later than any later window starts |
| Windows.Adjust | src/modules/higher-level/cso-hl.c:137-142 | the narrowed boundaries are dates of the calendar whose day of year indexes the allowed-days table |
| Windows.AdjustFacts | src/modules/higher-level/cso-hl.c:137-142 | the narrowed window lies within the nominal one; the skipped days at either end are disallowed; a non-empty result has both boundaries on allowed days; an empty nominal window is unchanged; start overshoots end by at most a day |
| Windows.AdjustIdempotent | src/modules/higher-level/cso-hl.c:137-142 | narrowing an already narrowed window changes nothing |
| Windows.NarrowWindow | src/modules/higher-level/cso-hl.c:137-142 | the loop on the arrays leaves window `w` equal to `Adjust` of its old boundaries and every other window unchanged |
| Windows.AdjustedWindow | src/modules/higher-level/cso-hl.c:104-151 | window `w` as the table holds it: its nominal boundaries narrowed to allowed days of the year |
| Windows.AdjustWindows | src/modules/higher-level/cso-hl.c:135-151 | every window is narrowed and marked used exactly when its start is before its end |
| Windows.Failures | src/modules/higher-level/cso-hl.c:96-97 | the error count is zero exactly when every product container is set up |
| Windows.CompileWindows | src/modules/higher-level/cso-hl.c:94-170 | one error per failed product; with at least one set-up product the table holds the adjusted windows and used flags, otherwise it is untouched |
| Windows.AdjustedOrdered | src/modules/higher-level/cso-hl.c:104-151 | an adjusted window ends no later than any later adjusted window starts |
| Windows.AdjustedWindowShape | src/modules/higher-level/cso-hl.c:137-151 | an adjusted window lies within its nominal window, its start is at most its end plus one, and a used one has allowed boundaries |
| Indexer.Scan | src/modules/higher-level/cso-hl.c:320-333 | the scan's range is empty or an ordered pair of allowed in-window steps, extending the range found so far |
| Indexer.WindowRange | src/modules/higher-level/cso-hl.c:314-337 | a window's range is empty or an ordered pair of allowed steps inside the window |
| Indexer.NextLeft | src/modules/higher-level/cso-hl.c:337 | the carried left index: the previous window's last step `t1` (not `t1 + 1`) when it had one, otherwise unchanged |
| Indexer.RangesFrom | src/modules/higher-level/cso-hl.c:314-343 | one range per remaining window |
| Indexer.Ranges | src/modules/higher-level/cso-hl.c:314-343 | one range per window |
| Indexer.IndexWindows | src/modules/higher-level/cso-hl.c:309-343 | the `t0`/`t1` arrays hold, window by window, the ranges of the functional indexer |
| Indexer.ScanWindow | src/modules/higher-level/cso-hl.c:321-335 | the inner scan loop from the carried left index ends with the range `Scan` defines: the first and last allowed in-window step before the first allowed step at or past the window end |
| Indexer.RangesFromShape | src/modules/higher-level/cso-hl.c:314-343 | every range from the carried index on is empty or a pair of allowed in-window steps, empty for an unused window |
| Indexer.RangesShape | src/modules/higher-level/cso-hl.c:314-343 | every window's range is `-1/-1` or `0 <= t0 <= t1 < nt` on allowed in-window steps, and `-1/-1` for an unused window |
| Indexer.ScanCovers | src/modules/higher-level/cso-hl.c:320-333 | on sorted dates the scan, including its early stop at the window end, misses no allowed in-window step |
| Indexer.RangesFromCover | src/modules/higher-level/cso-hl.c:314-343 | with ordered windows the carried left index skips no allowed in-window step of a later window |
| Indexer.IndexerExact | src/modules/higher-level/cso-hl.c:314-343 | on sorted dates and ordered windows a used window's range is empty exactly when it holds no allowed step, and otherwise runs from its first to its last allowed step |
| Gaps.LeftAfter | src/modules/higher-level/cso-hl.c:381-399 | the left boundary `ce_left` after the walk: the window start, moved to each valid step's date that lies past it |
| Gaps.StepGaps | src/modules/higher-level/cso-hl.c:383-399 | the gaps the walk records, in order: the distance from the boundary to each valid step whose date passes it |
| Gaps.CountValid | src/modules/higher-level/cso-hl.c:383-402 | the counter `n`: the number of valid steps in the range, whether or not they add a gap |
| Gaps.Trailing | src/modules/higher-level/cso-hl.c:407-413 | the trailing gap from the last boundary to the window end, recorded only when positive |
| Gaps.WindowGaps | src/modules/higher-level/cso-hl.c:379-413 | a window's gaps: the walk's gaps followed by the trailing gap |
| Gaps.RunMin | src/modules/higher-level/cso-hl.c:376-411 | the running minimum of the gaps, started at `SHRT_MAX` |
| Gaps.RunMax | src/modules/higher-level/cso-hl.c:376-412 | the running maximum of the gaps, started at `SHRT_MIN` |
| Gaps.StepGapsPositive | src/modules/higher-level/cso-hl.c:383-399 | every gap the walk records is at least one day |
| Gaps.StepGapsTelescope | src/modules/higher-level/cso-hl.c:383-399 | the walk's gaps sum to the distance the left boundary moved |
| Gaps.StepGapsCount | src/modules/higher-level/cso-hl.c:383-402 | there are no more gaps than valid steps, and no more valid steps than steps |
| Gaps.LeftBelow | src/modules/higher-level/cso-hl.c:381-399 | the left boundary stays between the window start and a bound all step dates lie below |
| Gaps.WindowGapsFacts | src/modules/higher-level/cso-hl.c:379-413 | a window with a range has at least one gap and at most `t1 - t0 + 2`; all gaps are at least a day and sum to the window length; the trailing gap is the last one; `n` is at least the gap count minus one |
| Gaps.StepGapsDistinct | src/modules/higher-level/cso-hl.c:383-402 | with strictly increasing valid dates after the start every valid step yields a gap, and the left boundary is the start or a valid step's date |
| Gaps.RunMinBounds | src/modules/higher-level/cso-hl.c:375-410 | the running minimum is at most its initial value and every gap, and equals one of them |
| Gaps.RunMaxBounds | src/modules/higher-level/cso-hl.c:375-410 | the running maximum is at least its initial value and every gap, and equals one of them |
| Gaps.MinAtMostMax | src/modules/higher-level/cso-hl.c:375-410 | over at least one gap the minimum is at most the maximum |
| Registry.FixedSlotsApart | src/modules/higher-level/cso-hl.c:430-451 | every enabled fixed statistic writes its own slot below `nmetrics`, distinct from every other statistic's |
| Registry.FixedNamedStep | src/modules/higher-level/cso-hl.c:60-68 | naming one more fixed statistic keeps the earlier names and adds its code in its slot |
| Registry.CopyName | src/modules/higher-level/cso-hl.c:60-68 | naming keeps the number of product names |
| Registry.Digits | src/modules/higher-level/cso-hl.c:70 | the decimal digits of a number, most significant first: at least one, one exactly below 10, at most two below 100 |
| Registry.Pad2 | src/modules/higher-level/cso-hl.c:70 | the `%02` zero pad to a width of two |
| Registry.QuantileCode | src/modules/higher-level/cso-hl.c:70 | a quantile name: `Q` followed by the padded percentage |
| Registry.DigitsRoundTrip | src/modules/higher-level/cso-hl.c:70 | the decimal digits of a number parse back to it |
| Registry.LeadingZero | src/modules/higher-level/cso-hl.c:70 | a leading zero pad does not change the parsed value |
| Registry.QuantileCodeRoundTrip | src/modules/higher-level/cso-hl.c:70 | a quantile name is `Q`, at least two digits, three characters below 100 percent, and its digits parse back to the percentage |
| Registry.NameFixed | src/modules/higher-level/cso-hl.c:60-68 | the loop over the nine fixed statistics names every enabled one's slot with its code and leaves the other names empty |
| Registry.NameQuantiles | src/modules/higher-level/cso-hl.c:69-73 | the quantile loop succeeds exactly when every name fits the buffer; then each quantile slot carries its name and every other slot keeps its earlier name |
| Registry.NameSlots | src/modules/higher-level/cso-hl.c:60-73 | naming succeeds exactly when every quantile name fits the buffer; then fixed slots carry their codes, quantile slots their `Qxx` names, the rest are empty |
| Accumulator.FoldMoments | src/modules/higher-level/cso-hl.c:393-410 | the moments after feeding each gap to `kurt_recurrence` in order, the `i`-th with count `i + 1` |
| Accumulator.ShortCast | src/modules/higher-level/cso-hl.c:434-437 | the cast truncates toward zero |
| Accumulator.Clamp | src/modules/higher-level/cso-hl.c:422-429 | a scaled moment is clamped to `[-30000, 30000]` and kept when inside |
| Accumulator.SkewScaled | src/modules/higher-level/cso-hl.c:422-426 | the skewness times 1000, computed only when `n > 0` and clamped to ±30000, otherwise 0 |
| Accumulator.KurtScaled | src/modules/higher-level/cso-hl.c:422-429 | the excess kurtosis times 1000, computed only when `n > 0` and clamped to ±30000, otherwise 0 |
| Accumulator.ScaledFacts | src/modules/higher-level/cso-hl.c:422-429 | the scaled skewness and kurtosis, and their `short` casts, stay within ±30000; they are 0 when `n == 0` and the clamped scaled moments otherwise |
| Accumulator.Summarize | src/modules/higher-level/cso-hl.c:373-419 | a window's tally and gaps: for a window with a range, the valid-step count, the running minimum and maximum and the folded moments of its gaps; without a range, count 0 and the window length as minimum, maximum and mean |
| Accumulator.SummaryFacts | src/modules/higher-level/cso-hl.c:379-419 | a window with a range has 1 to `t1 - t0 + 2` positive gaps summing to its length, `n` at least their number minus one and `1 <= min <= max`; without a range it has no gaps, `n == 0` and its length as min, max and mean |
| Accumulator.SampleOmitsTrailing | src/modules/higher-level/cso-hl.c:379-413 | with distinct valid dates after the start there are `n + 1` gaps; the first `n` (the quantile sample) are the walk's gaps, and the last is the trailing gap |
| Accumulator.AppendGap | src/modules/higher-level/cso-hl.c:391-397 | one more gap updates the running minimum, maximum and moments by one step |
| Accumulator.StepNext | src/modules/higher-level/cso-hl.c:383-402 | one step of the walk extends the boundary, gaps and count by that step's contribution |
| Accumulator.AddGap | src/modules/higher-level/cso-hl.c:391-397 | recording a gap buffers it at `k`, increments `k` and updates the minimum, maximum and moments, leaving later cells alone |
| Accumulator.WalkSteps | src/modules/higher-level/cso-hl.c:383-402 | the loop's count, boundary, gaps, minimum, maximum and moments are those of the functional walk; the buffer holds the gaps |
| Accumulator.WalkWindow | src/modules/higher-level/cso-hl.c:373-419 | the window's tally and gap count are the summary's; the buffer holds its gaps, and `n` and `k` fit the buffer |
| Accumulator.Iqr | src/modules/higher-level/cso-hl.c:447-450 | the IQR: the `short` 0.75 quantile minus the `short` 0.25 quantile of the sample |
| Accumulator.QuantileIndex | src/modules/higher-level/cso-hl.c:440-444 | the first quantile whose slot is `o` |
| Accumulator.PlainValue | src/modules/higher-level/cso-hl.c:430-437 | the value stored in a count, minimum, maximum, range, mean, standard deviation, skewness or kurtosis slot |
| Accumulator.SampleValue | src/modules/higher-level/cso-hl.c:439-451 | the value stored in a quantile slot (the `short` quantile of the sample) or in the IQR slot |
| Accumulator.WriteCounts | src/modules/higher-level/cso-hl.c:430-433 | count, minimum, maximum and range slots receive `n`, min, max and max - min; nothing else changes |
| Accumulator.WriteMoments | src/modules/higher-level/cso-hl.c:434-437 | mean, standard deviation and scaled skewness and kurtosis slots receive their truncated values; nothing else changes |
| Accumulator.WriteSample | src/modules/higher-level/cso-hl.c:439-451 | every quantile slot receives the truncated quantile of the first `n` buffer cells, and the IQR slot the difference of the truncated 0.75 and 0.25 quantiles; nothing else changes |
| Accumulator.WriteWindow | src/modules/higher-level/cso-hl.c:422-451 | every enabled statistic's slot receives its value for the window; no other cell changes |
| Accumulator.FillWindow | src/modules/higher-level/cso-hl.c:368-369 | an off-season window is nodata in every product; no other cell changes |
| Accumulator.Masked | src/modules/higher-level/cso-hl.c:358 | a pixel is masked when a processing mask is given and is false at the pixel |
| Accumulator.FillPixel | src/modules/higher-level/cso-hl.c:358-362 | a masked pixel is nodata in every product and window; no other cell changes |
| Accumulator.SampleFromBuffer | src/modules/higher-level/cso-hl.c:441 | the first `n` buffer cells are the first `n` gaps when `n` does not exceed their number |
| Accumulator.AccumulateWindow | src/modules/higher-level/cso-hl.c:366-451 | an unused window is nodata; a used one gets its statistics from its summary, and its quantiles from the first `n` buffer cells; when the gap buffer is allocated, its first `k` cells hold the window's gaps |
| Accumulator.Expected | src/modules/higher-level/cso-hl.c:356-451 | the value of cell `[o, w, p]`: nodata for a masked pixel or an unused window; otherwise the slot's statistic of the window summary, or the quantile or IQR of the first `n` gaps; unspecified (`None`) for a slot no statistic writes, and for a quantile or IQR slot when the sample reaches past the gaps (`n > k`) |
| Accumulator.AccumulatePixel | src/modules/higher-level/cso-hl.c:365-454 | every determined cell of an unmasked pixel holds its expected value; nothing outside the pixel changes |
| Accumulator.ClearSkyStats | src/modules/higher-level/cso-hl.c:346-460 | every cell determined by the inputs holds its expected value: nodata, a statistic of the window's gaps, or a quantile of the window's sample; cells no branch writes are unchanged |
| Engine.PlannedOrdered | src/modules/higher-level/cso-hl.c:104-151 | the compiled windows are ordered, as the indexer's carried left index needs |
| Engine.PlannedRangesExact | src/modules/higher-level/cso-hl.c:314-343 | on sorted dates every used compiled window's range is empty exactly when it holds no allowed step, and otherwise spans its first to last allowed step |
| Engine.IndexedSummary | src/modules/higher-level/cso-hl.c:314-419 | every indexed range is empty for an unused window and otherwise gives gaps with the summary facts, within the `nt + 1` buffer |
| Engine.CompileCso | src/modules/higher-level/cso-hl.c:46-185 | setup succeeds exactly when there are products, every container is set up and every name fits; then the names and the adjusted window table are in place |
| Engine.IndexScene | src/modules/higher-level/cso-hl.c:309-343 | the indexed scene is the one the compiled windows and the acquisitions determine, with well-shaped ranges |
| Engine.ClearSkyObservations | src/modules/higher-level/cso-hl.c:266-475 | the run fails with no products exactly when setup fails or there are none; otherwise one product per metric over all windows and pixels, named as configured, with every determined cell at its expected value |

## Left out

- Reading the input bricks: `read-cl.c`, the QAI brick getters and the per-step mask arrays. The acquisition dates, the validity masks and the optional processing mask are given as sequences.
- Brick metadata and output set-up: `compile_cso_brick`, file and directory names, nodata, wavelength, date, domain and band names. Whether a product's container could be set up is the input `brickOk`; its text paths are not modelled.
- `cite_me`, debug output (`FORCE_DEBUG`), and freeing of memory on error and at the end.
- OpenMP: the pixel loop runs sequentially, and each pixel's work is independent. The gap buffer is shared across pixels here, as it is within one thread.
- Accumulator.ScaledFacts: the core's own `double` variables (`mean`, `var`, `skew`, `kurt`, `skewscaled`, `kurtscaled`) and the gap buffer are reals. NaN and infinities are not modelled. In the source the ±30000 clamp at cso-hl.c:425-428 bounds only results that are not NaN, because both comparisons are false for NaN. A NaN from `skewness` or `kurtosis` would pass the clamp and reach the `(short)` conversion at cso-hl.c:436-437, which C leaves undefined for NaN. The same holds for `(short)standdev(var, n)` at cso-hl.c:435. The bound `ScaledFacts` proves therefore holds for the model's reals, not for every double the source can compute.
- Floating point: `kurt_recurrence`, `skewness`, `kurtosis`, `standdev` and `quantile` live in the statistics library, which is not part of this model. They are abstract parameters (`Numerics`). `quantile` is assumed to read only the first `n` cells and to leave the buffer unchanged.
- The `%02.0f` rendering of `q * 100` is an abstract parameter `pct` that gives the rounded percentage.
- The date library (`set_date`, `set_date_ce`) is the abstract calendar `Cal`.
- Registry.WellFormed: the statistic configuration is taken as well formed. There is one slot per requested quantile (`|q| == |qxx|`). Every enabled fixed slot and every quantile slot lies below `nmetrics`. The enabled fixed slots and the quantile slots are pairwise distinct. `Registry.NameSlots`, `Accumulator.WriteCounts`, `Accumulator.WriteMoments`, `Accumulator.WriteSample`, `Accumulator.WriteWindow`, `Accumulator.AccumulatePixel`, `Accumulator.ClearSkyStats`, `Engine.CompileCso` and `Engine.ClearSkyObservations` require it. Nothing in cso-hl.c sets up or checks these relations. The parameter reader that assigns the slots is not part of this model, and it is expected to ensure them.
- The window step is taken to lie in 1..12 (`requires 1 <= step <= 12` on `Windows.CountWindows`, `Windows.FillNominal`, `Windows.CompileWindows` and the engine). The parameter reader, which is not part of this model, is expected to enforce it. Outside that range the source behaves differently. A step above 12 is carried only once (`month -= 12` at cso-hl.c:294 and 111-112): from 2020-01 to 2022-01 with step 24 the count loop gives 2 windows rather than 1, and `set_date` receives a month above 12. With a step of 0 or less the count loop at cso-hl.c:291-295 does not end.
- Accumulator.ShortCast: truncation toward zero on unbounded integers. A value outside the `short` range is not wrapped.
- Accumulator.WriteCounts: `n`, the minimum, the maximum and the range are stored without `short` wrap-around. Windows longer than 32767 days, or more than 32767 observations, are not modelled.
- Accumulator.WriteSample: the IQR `q75_ - q25_` is stored without `short` wrap-around. A 0.25 or 0.75 quantile still equal to `SHRT_MIN` is recomputed. The method keeps that recomputation. Its contract states the resulting value, which equals the stored quantile's.
- Accumulator.ClearSkyStats, Accumulator.AccumulatePixel, Engine.ClearSkyObservations: quantile and IQR cells of a window with more valid steps than gaps (`n > k`) are not specified, because the sample then includes buffer cells from an earlier window or pixel.
- Engine.ClearSkyObservations: the names of slots that no statistic uses are uninitialised in the source. The model gives them empty names. Output cells that no branch writes keep the container's initial content, which is not modelled.
- Failure to get the processing mask brick, and allocation failures, are not modelled.

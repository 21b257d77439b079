# Real-time performance dashboard — a Dafny model

This project models the data pipeline and the small stateful parts of a
real-time performance dashboard written in TypeScript/React.

**Stream and filtering**
- A live stream of `DataPoint`s (timestamp, value, category) is backfilled with 5000 points spaced 100 ms apart.
- Each timer tick adds one point to a buffer that keeps at most `maxDataPoints` of the newest points.
- The page filters the stream by the selected categories and an inclusive time window. It lists the distinct categories and overrides the point count in the published metrics.

**Aggregation and statistics**
- `aggregateData` either keeps the latest value per (timestamp, category) (`raw`), or buckets timestamps into 1-minute, 5-minute or 1-hour intervals and averages per category.
- `calculateStats` computes min, max, mean and count.

**Charts**
- Four canvas charts derive what they draw from the data:
  - the line chart: a window filter and a min/max value range;
  - the bar chart and the scatter plot: stride downsampling and a default value axis of `[0, max(…, 100)]`;
  - the heatmap: downsampling, one-second slots, and a hue scale.
- Each draw pass is modelled as the list of drawing commands it issues (clear, axis lines, path, rectangles, circles, text).

**Performance monitoring**
- An `FPSCounter` averages the instantaneous frame rate over a 60-frame window.
- The performance hook republishes fps and memory at most once per second.

**Controls**
- The data table paginates.
- The filter panel toggles categories in an insertion-ordered set and chooses the aggregation mode.
- The time-range selector emits a range only when start < end, and offers 1 h / 6 h / 24 h presets.

**Modelling conventions**
- Values are `real`, timestamps are `int` milliseconds.
- Every clock reading (`Date.now()`, `performance.now()`), random number and memory reading is a parameter.
- Each timer tick or animation frame is one method call.
- React state becomes class fields, and memoised values become functions of their inputs.
- Pure expressions become functions with lemmas. Loops and in-place updates become methods with loop invariants, proved against those functions.

Modules, one per source file (plus shared helpers):

- `Types`: `DataPoint`, `TimeAggregation`, `PerformanceMetrics`, `DataStats`.
- `SeqUtils`: `filter`, `Array.from(new Set(…))`, suffixes and subsequences.
- `Numeric`: sum, mean, min, max and `Math.round`.
- `CanvasUtils`: `scaleValue`, `getOptimalTickCount` and the drawing commands.
- `Downsample`: the index-stride sampling shared by three charts.
- `DataGenerator`, `Aggregation`: `lib/data-generator.ts`.
- `DataStream`: `hooks/use-data-stream.ts`.
- `Dashboard`: `app/dashboard/page.tsx`.
- `ChartAxes`, `LineChart`, `BarChart`, `ScatterPlot`, `Heatmap`: the chart components.
- `PerformanceUtils`: `FPSCounter`.
- `PerformanceMonitor`: `hooks/use-performance-monitor.ts`.
- `DataTable`, `FilterPanel`, `TimeRangeSelector`: the UI components.

## Model

| member | source | states |
|---|---|---|
| SeqUtils.Distinct | app/dashboard/page.tsx:46 | `Array.from(new Set(s))` has no duplicates and exactly the elements of `s` |
| SeqUtils.DistinctOrder | app/dashboard/page.tsx:46 | the distinct elements are listed in the order of their first occurrence |
| Numeric.SeqMin | components/charts/line-chart.tsx:39 | `Math.min(...s)` of a non-empty list is one of its elements and is below all of them |
| Numeric.SeqMax | components/charts/line-chart.tsx:44 | `Math.max(...s)` of a non-empty list is one of its elements and is above all of them |
| Numeric.SetMin | components/charts/heatmap.tsx:49 | the minimum of a non-empty set of values is in the set and bounds it from below |
| Numeric.SetMax | components/charts/heatmap.tsx:50 | the maximum of a non-empty set of values is in the set and bounds it from above |
| Numeric.MeanBounds | lib/data-generator.ts:82 | the mean of a non-empty list lies between its minimum and its maximum |
| Numeric.MeanOfConstant | lib/performance-utils.ts:23 | the mean of a list of equal values is that value |
| Numeric.Round | lib/performance-utils.ts:27 | `Math.round(x)` is the integer within half a unit of `x`, halves rounding up |
| CanvasUtils.ScaleValue | lib/canvas-utils.ts:100-102 | the affine map sends `inMin` to `outMin` and `inMax` to `outMax` |
| CanvasUtils.ScaleInverse | lib/canvas-utils.ts:100-102 | scaling back with the ranges swapped gives the original value exactly |
| CanvasUtils.ScaleDifference | lib/canvas-utils.ts:100-102 | the distance between two scaled values is their distance times the ratio of the output span to the input span |
| CanvasUtils.ScaleMonotone | lib/canvas-utils.ts:100-102 | over an increasing input range, order is kept for an increasing output range and reversed for a decreasing one |
| CanvasUtils.ScaleWithin | lib/canvas-utils.ts:100-102 | a value inside the input range lands between the ends of the output range |
| CanvasUtils.GetOptimalTickCount | lib/canvas-utils.ts:104-107 | at least 2 ticks; otherwise the number of 50-pixel steps that fit in the size |
| Downsample.SampleRate | components/charts/bar-chart.tsx:25 | the rate is at least 1; it is 1 exactly when there are fewer than `2·target` points; otherwise it is `floor(n / target)` |
| Downsample.StrideSampleShape | components/charts/bar-chart.tsx:24-27 | the sample is `s[0], s[rate], s[2·rate], …` and its length is `ceil(n / rate)` |
| Downsample.KeepEveryShape | components/charts/bar-chart.tsx:26 | keeping indices divisible by `rate` keeps exactly `s[k·rate]` for `k < ceil(n / rate)` |
| Downsample.StrideSampleFirst | components/charts/bar-chart.tsx:26 | a non-empty input's sample starts with its first point |
| Downsample.StrideSampleSmall | components/charts/bar-chart.tsx:25-26 | fewer than `2·target` points are kept unchanged |
| Downsample.StrideSampleBound | components/charts/bar-chart.tsx:25-26 | the sample has fewer than `2·target` points |
| Downsample.StrideSampleIsSubsequence | components/charts/bar-chart.tsx:26 | the sample is an in-order subsequence of the input |
| Downsample.StrideSampleExceedsTarget | components/charts/bar-chart.tsx:25-26 | 199 points with target 100 give a 199-point sample, more than the target |
| DataGenerator.GenerateInitialData | lib/data-generator.ts:8-30 | `points` points; timestamps rise by exactly 100 and the last is `startTime`; categories round-robin over the three names; values are `max(0, raw)`; each point carries its index as its id |
| DataGenerator.GenerateStreamData | lib/data-generator.ts:32-46 | the point is stamped with exactly `currentTime`, has one of the three categories, a value `max(0, raw) >= 0`, and the "new" marker |
| DataGenerator.CalculateStats | lib/data-generator.ts:91-111 | all zeros for an empty list; otherwise a min and a max taken from the list that bound all of it, the count, and the mean, which lies between min and max |
| Aggregation.IntervalMs | lib/data-generator.ts:63 | the bucket widths are 60000, 300000 and 3600000 ms |
| Aggregation.BucketKey | lib/data-generator.ts:67 | the bucket key is a multiple of the interval and `key <= ts < key + interval` |
| Aggregation.LatestByRowNonEmpty | lib/data-generator.ts:54-60 | every row written by the keyed last-write pass holds at least one cell |
| Aggregation.LatestByKeys | lib/data-generator.ts:54-60 | a key has a row exactly when some point maps to it |
| Aggregation.LatestByCells | lib/data-generator.ts:54-60 | a (key, category) cell exists exactly when some point of that category maps to that key |
| Aggregation.LatestByLastWins | lib/data-generator.ts:55-58 | a cell holds the value of the last point written to it |
| Aggregation.GroupBy | lib/data-generator.ts:64-74 | no bucket holds an empty list for a category |
| Aggregation.GroupByKeys | lib/data-generator.ts:66-74 | a bucket exists exactly when some point falls in it |
| Aggregation.GroupByLists | lib/data-generator.ts:66-74 | a bucket's list for a category is exactly that category's values in the bucket, in input order |
| Aggregation.ValuesInSource | lib/data-generator.ts:66-74 | every collected value is the value of some input point |
| Aggregation.RawAggregation | lib/data-generator.ts:53-61 | `raw` mode: one row per distinct timestamp, a cell per (timestamp, category) that occurs, holding the last such point's value |
| Aggregation.BucketKeysAligned | lib/data-generator.ts:63-74 | bucketed modes: every key is a multiple of the interval and the bucket of some point; every point's bucket is a key |
| Aggregation.BucketCellMean | lib/data-generator.ts:64-85 | a bucketed cell exists iff its list of collected values is non-empty, and it is that list's mean |
| Aggregation.BucketCell | lib/data-generator.ts:63-85 | bucketed modes: a cell exists iff the bucket holds a point of that category; its value is the mean of those values, lies between their min and max, and is exact for a single value |
| Aggregation.AggregateData | lib/data-generator.ts:49-88 | the loops compute exactly the aggregate the lemmas above describe, in both modes |
| Aggregation.GroupPoints | lib/data-generator.ts:64-74 | the push loop builds exactly the per-bucket, per-category value lists |
| Aggregation.AverageBuckets | lib/data-generator.ts:77-85 | the averaging pass keeps the buckets and replaces each row by its row of means |
| Aggregation.AverageRow | lib/data-generator.ts:79-83 | each category's mean lies between the minimum and maximum of its list; the keys are unchanged |
| DataStream.JsSliceFrom | hooks/use-data-stream.ts:20 | `slice(start)` returns a suffix, with the length JavaScript gives for a negative or non-negative start |
| DataStream.AppendKeepsNewest | hooks/use-data-stream.ts:20 | with capacity ≥ 2 the buffer after an append is exactly the newest `capacity` points of the old buffer plus the new point |
| DataStream.AppendLength | hooks/use-data-stream.ts:20 | the buffer grows by one until it reaches the capacity and never exceeds it |
| DataStream.AppendCapacityOne | hooks/use-data-stream.ts:20 | a capacity of 1 gives `slice(0)`, so nothing is evicted |
| DataStream.AppendIsSuffix | hooks/use-data-stream.ts:20 | the buffer after an append ends with the new point and is a suffix of old buffer plus point (FIFO eviction) |
| DataStream.AppendKeepsWindow | hooks/use-data-stream.ts:18-24 | every append keeps the buffer the newest window of everything ever streamed |
| DataStream.Stream.constructor | hooks/use-data-stream.ts:13-15 | the buffer and the published data start as the initial data |
| DataStream.Stream.AddDataPoint | hooks/use-data-stream.ts:18-24 | the buffer becomes the append; the published data equals it; it stays within capacity and remains the window of the whole stream |
| DataStream.Stream.Tick | hooks/use-data-stream.ts:29-33 | the clock advances by the interval, the new newest point carries the new clock, and tick times strictly increase |
| Dashboard.InitialView | app/dashboard/page.tsx:31-35 | all three categories selected, window `[now − 1 h, now + 10 min]` containing `now`, mode `raw` |
| Dashboard.FilteredDataExact | app/dashboard/page.tsx:37-44 | the filtered data is an in-order subsequence holding every qualifying point with its multiplicity and no other |
| Dashboard.FilteredDataEmpty | app/dashboard/page.tsx:37-44 | no selected category or a reversed window shows nothing |
| Dashboard.FilteredDataAll | app/dashboard/page.tsx:37-44 | when every point qualifies, the whole stream is shown |
| Dashboard.FilteredDataIgnoresAggregation | app/dashboard/page.tsx:35-44 | the aggregation setting does not affect the filtered data |
| Dashboard.PageCategoriesExact | app/dashboard/page.tsx:46 | each category in the stream is listed once and nothing else is |
| Dashboard.MetricsWithCount | app/dashboard/page.tsx:48-51 | the point count is the stream's length; all other metrics are carried over |
| ChartAxes.YMinOrZero | components/charts/bar-chart.tsx:18 | `yRange[0]` when given, else 0 |
| ChartAxes.YMaxAtLeast100 | components/charts/bar-chart.tsx:19-22 | `yRange[1]` when given, else at least 100 and every value, and equal to 100 or to some value |
| ChartAxes.DefaultRangeProper | components/charts/bar-chart.tsx:18-22 | without a given range the value axis is never degenerate |
| LineChart.ProcessedDataWindow | components/charts/line-chart.tsx:28-35 | the processed data is the in-order subsequence of points inside the inclusive window, with multiplicities |
| LineChart.ProcessedDataAscending | components/charts/line-chart.tsx:31-34 | without `xRange`, time-ordered data is kept entirely |
| LineChart.YMin | components/charts/line-chart.tsx:37-40 | `yRange[0]` when given, else the smallest processed value |
| LineChart.YMax | components/charts/line-chart.tsx:42-45 | `yRange[1]` when given, else the largest processed value |
| LineChart.TracePath | components/charts/line-chart.tsx:68-79 | the `isFirst` loop emits one vertex per processed point: a `moveTo` for the first and a `lineTo` for each later one, at that point's scaled coordinates |
| LineChart.PolylineEnds | components/charts/line-chart.tsx:59-79 | the path starts at the left padding and ends at the right; `yMin` maps to the bottom, `yMax` to the top |
| LineChart.PolylineInsidePlot | components/charts/line-chart.tsx:59-79 | with default ranges every vertex lies inside the plot area and x never decreases along the path |
| LineChart.DrawLineChart | components/charts/line-chart.tsx:47-87 | nothing for no data; otherwise clear, two axes, for ≥ 2 points a path with one `moveTo` and a `lineTo` per later point, then the min and max labels |
| BarChart.SampledDataShape | components/charts/bar-chart.tsx:24-27 | the sample is an in-order subsequence starting at the first point, the identity below 200 points, always below 200 |
| BarChart.BarsSeparate | components/charts/bar-chart.tsx:45-53 | each bar fills the middle 80 % of its slot, stays inside the plot, and ends before the next bar starts |
| BarChart.BarStandsOnAxis | components/charts/bar-chart.tsx:50-53 | with the default range a bar's height is within the plot height and its top edge lies inside the plot area |
| BarChart.DrawBarChart | components/charts/bar-chart.tsx:29-55 | nothing for no data; otherwise clear, two axes, then one bar per sampled point in order |
| ScatterPlot.SampledDataShape | components/charts/scatter-plot.tsx:25-28 | the sample is an in-order subsequence starting at the first point, the identity below 1000 points, always below 1000 |
| ScatterPlot.Dot | components/charts/scatter-plot.tsx:47-52 | every dot is a filled circle of radius 3 in the chart colour with no stroke |
| ScatterPlot.DotsSpanPlot | components/charts/scatter-plot.tsx:44-52 | the first and last sampled points sit at the left and right padding; `yMin` and `yMax` map to the bottom and top |
| ScatterPlot.DrawScatterPlot | components/charts/scatter-plot.tsx:30-53 | nothing for no data; otherwise clear, two axes, then one dot per sampled point in order |
| Heatmap.HeatmapCategories | components/charts/heatmap.tsx:18 | a given category list wins, even an empty one; otherwise the stream's distinct categories |
| Heatmap.SecondSlotBounds | components/charts/heatmap.tsx:25 | a timestamp lies inside the second its slot names |
| Heatmap.HeatmapSlotsContent | components/charts/heatmap.tsx:21-28 | slots are exactly the seconds of the sampled points; a cell exists iff a sampled point writes it and holds the last such value |
| Heatmap.BuildSlots | components/charts/heatmap.tsx:19-28 | the in-place `forEach` builds exactly those slots |
| Heatmap.AllValuesNonEmpty | components/charts/heatmap.tsx:48 | a non-empty slot gives a non-empty value set, so min and max exist |
| Heatmap.ValueRange | components/charts/heatmap.tsx:51 | the range is positive: the spread of the values, or 1 when they are all equal |
| Heatmap.HueBounds | components/charts/heatmap.tsx:57-61 | hues lie in `[0, 240]`: 240 for the minimum, 0 for the maximum, non-increasing in the value |
| Heatmap.CellsTile | components/charts/heatmap.tsx:54-70 | cells abut and the grid spans the plot area exactly |
| Heatmap.DrawColumn | components/charts/heatmap.tsx:64-71 | one cell per category, for one slot |
| Heatmap.DrawCells | components/charts/heatmap.tsx:63-72 | one cell per (slot, category), slot by slot |
| Heatmap.DrawLabels | components/charts/heatmap.tsx:74-79 | one label per category, in order |
| Heatmap.DrawHeatmap | components/charts/heatmap.tsx:33-80 | always clears; with no slots that is all; otherwise the full grid of cells coloured against the global min and range, then the labels |
| PerformanceUtils.PushWindowKeepsNewest | lib/performance-utils.ts:17-21 | push then shift-on-overflow keeps exactly the newest 60 rates, ending with the new one |
| PerformanceUtils.PushKeepsRates | lib/performance-utils.ts:15-23 | pushing a positive rate keeps a window of at most 60 positive rates with a positive mean |
| PerformanceUtils.SteadyRate | lib/performance-utils.ts:15-23 | at a constant frame delta the reported rate is exactly `1000 / delta` |
| PerformanceUtils.FPSCounter.constructor | lib/performance-utils.ts:3-8 | starts at 60 fps with an empty window and no frames |
| PerformanceUtils.FPSCounter.Update | lib/performance-utils.ts:10-28 | a positive delta pushes `1000/delta` and sets fps to the window mean; otherwise fps is unchanged; the frame is always counted; returns `round(fps)` |
| PerformanceUtils.FPSCounter.GetFPS | lib/performance-utils.ts:30-32 | returns `round(fps)`, which is non-negative |
| PerformanceUtils.FPSCounter.Reset | lib/performance-utils.ts:34-38 | empties the window, zeroes the frame count, resets the clock, and leaves fps as it was |
| PerformanceMonitor.PublicationsApart | hooks/use-performance-monitor.ts:26-32 | publications `i < j` are more than `1000·(j − i)` ms apart |
| PerformanceMonitor.PublicationsAfterStart | hooks/use-performance-monitor.ts:17-32 | nothing is published within 1000 ms of creation |
| PerformanceMonitor.Monitor.constructor | hooks/use-performance-monitor.ts:8-17 | initial metrics are 60 fps and zeros, and `lastUpdate` is the creation time |
| PerformanceMonitor.Monitor.UpdateMetrics | hooks/use-performance-monitor.ts:21-33 | the counter is updated on every frame; fps and memory are republished iff more than 1000 ms have passed, with the other metrics carried over |
| DataTable.PageRowsContent | components/data-table.tsx:14-17 | a page holds the rows from `page·pageSize` on, in order, at most `pageSize`, fewer on the last page, none past the end |
| DataTable.TotalPages | components/data-table.tsx:19 | `ceil(n / pageSize)`: enough pages for `n` rows, and one fewer is not |
| DataTable.TotalPagesLeast | components/data-table.tsx:19 | no smaller page count holds all rows |
| DataTable.ControlsShownExactly | components/data-table.tsx:44 | the pager is shown iff there are more rows than fit on one page |
| DataTable.PagesUpToPrefix | components/data-table.tsx:14-19 | the first `k` pages together are the first `k·pageSize` rows |
| DataTable.AllPagesReassemble | components/data-table.tsx:14-19 | reading every page in turn gives the data exactly |
| DataTable.PagesStayInRange | components/data-table.tsx:51-58 | Previous never goes below 0 and Next never past the last page |
| DataTable.NextPreviousInverse | components/data-table.tsx:51-58 | away from the ends, Next and Previous undo each other |
| DataTable.Table.constructor | components/data-table.tsx:11-12 | the table starts on page 0 |
| DataTable.Table.Receive | components/data-table.tsx:11-17 | new data from the parent keeps the current page |
| DataTable.Table.Previous | components/data-table.tsx:50-56 | `page := max(0, page − 1)` |
| DataTable.Table.Next | components/data-table.tsx:57-63 | `page := min(totalPages − 1, page + 1)`, which is always a valid page |
| FilterPanel.Remove | components/controls/filter-panel.tsx:18 | deleting removes exactly that element and keeps the set duplicate-free |
| FilterPanel.RemoveAbsent | components/controls/filter-panel.tsx:18 | deleting an absent element changes nothing |
| FilterPanel.ToggledMembership | components/controls/filter-panel.tsx:15-24 | a toggle flips the membership of that category only and keeps the selection duplicate-free |
| FilterPanel.ToggleTwice | components/controls/filter-panel.tsx:15-24 | toggling twice restores the set; the order is restored when the category was absent, otherwise it moves last |
| FilterPanel.AggregationOptionsComplete | components/controls/filter-panel.tsx:48 | all four aggregation modes are offered, once each |
| FilterPanel.Panel.constructor | components/controls/filter-panel.tsx:13 | initially every given category is selected |
| FilterPanel.Panel.Toggle | components/controls/filter-panel.tsx:15-24 | the selection becomes the toggled copy and is emitted; only that category's checkbox changes |
| FilterPanel.Panel.ChooseAggregation | components/controls/filter-panel.tsx:48-53 | choosing an option emits exactly that mode and no other |
| TimeRangeSelector.PresetRange | components/controls/time-range-selector.tsx:21-38 | a preset range ends at `now`, is proper, and is exactly 1 h, 6 h or 24 h wide |
| TimeRangeSelector.AppliedExactly | components/controls/time-range-selector.tsx:15-19 | Apply emits iff `start < end`, and then emits the pair unchanged |
| TimeRangeSelector.PresetApplies | components/controls/time-range-selector.tsx:21-38 | a preset's range would also pass Apply's guard |
| TimeRangeSelector.Selector.constructor | components/controls/time-range-selector.tsx:12-13 | local start and end are copied from the current range |
| TimeRangeSelector.Selector.SetStart | components/controls/time-range-selector.tsx:51 | editing start changes only start; nothing is emitted |
| TimeRangeSelector.Selector.SetEnd | components/controls/time-range-selector.tsx:60 | editing end changes only end; nothing is emitted |
| TimeRangeSelector.Selector.Apply | components/controls/time-range-selector.tsx:15-19 | emits `(start, end)` only for a proper range and leaves the state alone |
| TimeRangeSelector.Selector.Preset | components/controls/time-range-selector.tsx:34-39 | sets end to `now` and start to `now − offset`, and emits that proper range |

## Left out

- The sine/noise value model (`Math.sin`, `Math.random`) is not modelled. Each generated value is an arbitrary `raw` real passed through `max(0, ·)`, and the category choice of a streamed point takes the random number as a parameter.
- Floating-point rounding is not modelled. All arithmetic is exact over `real`, so `NaN`, `Infinity` and IEEE-754 effects are absent.
- `setInterval`, `requestAnimationFrame`, their cancellation and React scheduling are not modelled. Each tick or frame is one explicit method call.
- The Canvas 2D wrapper class, device-pixel-ratio scaling and text alignment/colour are not modelled. Draw passes return abstract commands. A missing canvas element (`canvasRef.current` null) is not modelled either.
- String formatting is not modelled (`toFixed`, `toLocaleTimeString`, `hsl(...)` strings). A label is kept as its prefix plus its number, and a cell colour as its hue.
- `getMemoryUsage` and `measurePerformance` read the browser heap and clock and log warnings, so they are not modelled. The memory reading enters `Monitor.UpdateMetrics` as a parameter.
- The performance monitor display component is presentation only and is not modelled.
- Category names are assumed not to be names of `Object.prototype` properties. The source keeps its rows in plain objects (`{}`), so such names misbehave there:
  - In the bucketed modes, a category named `toString` or `constructor` makes `existing[cat].push` throw.
  - In raw mode and in the heatmap, a category named `__proto__` is silently not stored.
  - The model stores every category as an ordinary map key.
- The iteration order of the `Map` that `aggregateData` returns (first occurrence of each timestamp or bucket) is not modelled. The result is a Dafny `map`, which has no order.
- JavaScript object-key order is not modelled:
  - Heatmap slots are visited in a caller-given `order` listing each slot key once.
  - Slot keys are integers rather than their decimal strings.
- LineChart.DrawLineChart: the source divides by the time span and the value range without a guard. Its `xEnd - xStart || 1` is computed but never used. The model requires both to be non-zero when a path is drawn; JavaScript would produce non-finite coordinates instead.
- BarChart.DrawBarChart: a given `yRange` with equal ends, which JavaScript turns into non-finite heights, is excluded by its precondition.
- ScatterPlot.DrawScatterPlot: a sample whose first and last timestamps coincide (including a single point) and a degenerate value range are excluded. JavaScript would divide by zero there.
- Heatmap.DrawHeatmap: an empty category list gives `cellHeight = Infinity` in JavaScript. The model draws no cells and no labels in that case.
- DataTable.Table.constructor, DataTable.Table.Previous and DataTable.Table.Next require `pageSize > 0`. With 0, the source's page count is `NaN`/`Infinity`.
- DataTable.Table.Previous and DataTable.Table.Next also require the pager to be shown, because the buttons exist only then. A `disabled` button is not modelled separately, since its clamp already makes the click a no-op.
- TimeRangeSelector.Selector.SetStart and TimeRangeSelector.Selector.SetEnd take integers. `Number("")` and non-numeric input (`NaN`) are not modelled.
- The stride downsampling keeps the points whose index is a multiple of `max(1, floor(n / target))`. That can be more than `target` points, though always fewer than `2·target` (`Downsample.StrideSampleBound`). `Downsample.StrideSampleExceedsTarget` shows 199 points kept for a target of 100.
- The filter panel's copy-then-mutate of the `Set` is modelled on values: the old selection is an immutable sequence, so "the previous set is never mutated" holds by construction.

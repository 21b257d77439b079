/**
 * Layout and value-axis defaults the line, bar and scatter charts share:
 * the 40-pixel padding, the grey axes every one of them draws, and the
 * bar and scatter charts' default value range `[0, max(values ∪ {100})]`.
 */
module ChartAxes {
  import opened Types
  import opened Numeric
  import opened CanvasUtils

  /** The margin, in pixels, between the canvas edge and the plot area. */
  const Padding: real := 40.0

  /** The horizontal axis along the bottom of the plot area. */
  function XAxis(width: real, height: real): DrawCmd
  {
    Line(Padding, height - Padding, width - Padding, height - Padding, AxisColor, 1.0)
  }

  /** The vertical axis along the left of the plot area. */
  function YAxis(height: real): DrawCmd
  {
    Line(Padding, Padding, Padding, height - Padding, AxisColor, 1.0)
  }

  /** `yRange?.[0] ?? 0` */
  function YMinOrZero(yRange: Option<(real, real)>): (r: real)
    ensures yRange.None? ==> r == 0.0
    ensures yRange.Some? ==> r == yRange.value.0
  {
    if yRange.Some? then yRange.value.0 else 0.0
  }

  /** `yRange ? yRange[1] : Math.max(...data.map(d => d.value), 100)` */
  function YMaxAtLeast100(data: seq<DataPoint>, yRange: Option<(real, real)>): (r: real)
    ensures yRange.Some? ==> r == yRange.value.1
    ensures yRange.None? ==> r >= 100.0 && forall i :: 0 <= i < |data| ==> data[i].value <= r
    ensures yRange.None? ==> r == 100.0 || exists i :: 0 <= i < |data| && data[i].value == r
  {
    if yRange.Some? then yRange.value.1 else SeqMax(ValueList(data) + [100.0])
  }

  /** Without a given range the default value axis is never degenerate: it runs from 0 up to at least 100. */
  lemma DefaultRangeProper(data: seq<DataPoint>)
    ensures YMinOrZero(None) < YMaxAtLeast100(data, None)
  {
  }
}

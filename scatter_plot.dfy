/**
 * The scatter plot: a stride sample aimed at 500 points, the default value
 * axis from 0 to at least 100, and one filled circle of radius 3 per
 * sampled point.
 */
module ScatterPlot {
  import opened Types
  import opened SeqUtils
  import opened CanvasUtils
  import opened Downsample
  import opened ChartAxes

  /** The number of points the sampling aims at. */
  const ScatterTarget: nat := 500

  /** The radius, in pixels, of every dot. */
  const DotRadius: real := 3.0

  /** `sampledData` */
  function SampledData(data: seq<DataPoint>): seq<DataPoint>
  {
    StrideSample(data, ScatterTarget)
  }

  /**
   * The sample is an in-order subsequence starting with the first point;
   * under 1000 points it is the data itself, and it never reaches 1000 points.
   */
  lemma SampledDataShape(data: seq<DataPoint>)
    ensures IsSubsequence(SampledData(data), data)
    ensures data != [] ==> SampledData(data) != [] && SampledData(data)[0] == data[0]
    ensures |data| < 1000 ==> SampledData(data) == data
    ensures |SampledData(data)| < 1000
  {
    StrideSampleIsSubsequence(data, ScatterTarget);
    if data != [] {
      StrideSampleFirst(data, ScatterTarget);
    }
    if |data| < 1000 {
      StrideSampleSmall(data, ScatterTarget);
    }
    StrideSampleBound(data, ScatterTarget);
  }

  /** The dot of the `k`-th sampled point: its timestamp scaled across the first-to-last span, its value across `[yMin, yMax]`. */
  function Dot(sample: seq<DataPoint>, k: int, width: real, height: real, yMin: real, yMax: real, color: string): (c: DrawCmd)
    requires 0 <= k < |sample| && sample[0].timestamp != sample[|sample| - 1].timestamp && yMin != yMax
    ensures c.Circle? && c.radius == DotRadius && c.circleFill == Some(Css(color)) && c.circleStroke == None
  {
    Circle(ScaleValue(sample[k].timestamp as real, sample[0].timestamp as real, sample[|sample| - 1].timestamp as real,
             Padding, width - Padding),
           ScaleValue(sample[k].value, yMin, yMax, height - Padding, Padding),
           DotRadius, Some(Css(color)), None)
  }

  /**
   * The first sampled point lands on the left edge of the plot area and the
   * last on the right edge; a value of `yMin` sits on the bottom edge and
   * one of `yMax` on the top edge.
   */
  lemma DotsSpanPlot(sample: seq<DataPoint>, width: real, height: real, yMin: real, yMax: real, color: string)
    requires |sample| >= 2 && sample[0].timestamp != sample[|sample| - 1].timestamp && yMin != yMax
    ensures Dot(sample, 0, width, height, yMin, yMax, color).cx == Padding
    ensures Dot(sample, |sample| - 1, width, height, yMin, yMax, color).cx == width - Padding
    ensures forall k :: 0 <= k < |sample| && sample[k].value == yMin ==> Dot(sample, k, width, height, yMin, yMax, color).cy == height - Padding
    ensures forall k :: 0 <= k < |sample| && sample[k].value == yMax ==> Dot(sample, k, width, height, yMin, yMax, color).cy == Padding
  {
  }

  /**
   * The draw pass: nothing for an empty sample; otherwise the background,
   * the two axes, then one dot per sampled point in order. The source
   * divides by the time span and the value range unguarded, so the model
   * requires the first and last sampled timestamps to differ (which rules
   * out a single-point sample) and the value range to be proper.
   */
  method DrawScatterPlot(data: seq<DataPoint>, width: real, height: real, color: string,
                         yRange: Option<(real, real)>) returns (cmds: seq<DrawCmd>)
    requires var sample := SampledData(data);
      sample != [] ==>
        && sample[0].timestamp != sample[|sample| - 1].timestamp
        && YMinOrZero(yRange) != YMaxAtLeast100(data, yRange)
    ensures var sample := SampledData(data);
      && (sample == [] ==> cmds == [])
      && (sample != [] ==>
            && |cmds| == 3 + |sample|
            && cmds[0] == Clear(width, height, ChartBackground)
            && cmds[1] == XAxis(width, height) && cmds[2] == YAxis(height)
            && forall k :: 0 <= k < |sample| ==>
                 cmds[3 + k] == Dot(sample, k, width, height, YMinOrZero(yRange), YMaxAtLeast100(data, yRange), color))
  {
    var sample := SampledData(data);
    if |sample| == 0 {
      return [];
    }
    var yMin := YMinOrZero(yRange);
    var yMax := YMaxAtLeast100(data, yRange);
    cmds := [Clear(width, height, ChartBackground), XAxis(width, height), YAxis(height)];
    var xStart := sample[0].timestamp as real;
    var xEnd := sample[|sample| - 1].timestamp as real;
    for k := 0 to |sample|
      invariant |cmds| == 3 + k
      invariant cmds[0] == Clear(width, height, ChartBackground)
      invariant cmds[1] == XAxis(width, height) && cmds[2] == YAxis(height)
      invariant forall j :: 0 <= j < k ==> cmds[3 + j] == Dot(sample, j, width, height, yMin, yMax, color)
    {
      var x := ScaleValue(sample[k].timestamp as real, xStart, xEnd, Padding, width - Padding);
      var y := ScaleValue(sample[k].value, yMin, yMax, height - Padding, Padding);
      cmds := cmds + [Circle(x, y, DotRadius, Some(Css(color)), None)];
    }
  }
}

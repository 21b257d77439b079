/**
 * The bar chart: a stride sample aimed at 100 bars, the default value axis
 * from 0 to at least 100, and one filled bar per sampled point, evenly
 * spaced across the plot width and standing on the horizontal axis.
 */
module BarChart {
  import opened Types
  import opened SeqUtils
  import opened CanvasUtils
  import opened Downsample
  import opened ChartAxes

  /** The number of bars the sampling aims at. */
  const BarTarget: nat := 100

  /** `sampledData` */
  function SampledData(data: seq<DataPoint>): seq<DataPoint>
  {
    StrideSample(data, BarTarget)
  }

  /**
   * The sample is an in-order subsequence starting with the first point;
   * under 200 points it is the data itself, and it never reaches 200 bars.
   */
  lemma SampledDataShape(data: seq<DataPoint>)
    ensures IsSubsequence(SampledData(data), data)
    ensures data != [] ==> SampledData(data) != [] && SampledData(data)[0] == data[0]
    ensures |data| < 200 ==> SampledData(data) == data
    ensures |SampledData(data)| < 200
  {
    StrideSampleIsSubsequence(data, BarTarget);
    if data != [] {
      StrideSampleFirst(data, BarTarget);
    }
    if |data| < 200 {
      StrideSampleSmall(data, BarTarget);
    }
    StrideSampleBound(data, BarTarget);
  }

  /** `chartWidth / sampledData.length`: the horizontal slot of one bar. */
  function Spacing(width: real, n: nat): real
    requires n > 0
  {
    (width - 2.0 * Padding) / (n as real)
  }

  /** `padding + i * spacing + spacing * 0.1`: the left edge of bar `i`. */
  function BarX(i: nat, n: nat, width: real): real
    requires n > 0
  {
    Padding + (i as real) * Spacing(width, n) + Spacing(width, n) * 0.1
  }

  /** `(chartWidth / sampledData.length) * 0.8` */
  function BarWidth(n: nat, width: real): real
    requires n > 0
  {
    Spacing(width, n) * 0.8
  }

  /** `scaleValue(value, yMin, yMax, 0, chartHeight)` */
  function BarHeight(value: real, yMin: real, yMax: real, height: real): real
    requires yMin != yMax
  {
    ScaleValue(value, yMin, yMax, 0.0, height - 2.0 * Padding)
  }

  /** The bar drawn for the `i`-th of `n` sampled points. */
  function Bar(value: real, i: nat, n: nat, width: real, height: real, yMin: real, yMax: real, color: string): DrawCmd
    requires n > 0 && yMin != yMax
  {
    var h := BarHeight(value, yMin, yMax, height);
    Rect(BarX(i, n, width), height - Padding - h, BarWidth(n, width), h, Some(Css(color)))
  }

  /**
   * On a canvas wider than its padding, bar `i` occupies
   * `[padding + (i + 0.1)·spacing, padding + (i + 0.9)·spacing]`: inside the
   * plot width and strictly left of bar `i + 1`.
   */
  lemma BarsSeparate(i: nat, n: nat, width: real)
    requires i < n && width > 2.0 * Padding
    ensures BarX(i, n, width) == Padding + (i as real + 0.1) * Spacing(width, n)
    ensures BarX(i, n, width) + BarWidth(n, width) == Padding + (i as real + 0.9) * Spacing(width, n)
    ensures Padding < BarX(i, n, width) && BarX(i, n, width) + BarWidth(n, width) < width - Padding
    ensures i + 1 < n ==> BarX(i, n, width) + BarWidth(n, width) < BarX(i + 1, n, width)
  {
    var s := Spacing(width, n);
    var m := n as real;
    var gap := m - (i as real + 0.9);
    assert s * m == width - 2.0 * Padding;
    assert s > 0.0 && gap >= 0.1;
    assert gap * s >= 0.1 * s;
    assert m * s - (i as real + 0.9) * s == gap * s;
    assert BarX(i, n, width) + BarWidth(n, width) == Padding + (i as real + 0.9) * s;
  }

  /**
   * With the default axis floor of 0 and a value between 0 and `yMax`, the
   * bar's height is between 0 and the plot height, so its top edge
   * `height - padding - barHeight` lies inside the plot area.
   */
  lemma BarStandsOnAxis(value: real, yMax: real, height: real)
    requires 0.0 <= value <= yMax && yMax > 0.0 && height >= 2.0 * Padding
    ensures 0.0 <= BarHeight(value, 0.0, yMax, height) <= height - 2.0 * Padding
    ensures var h := BarHeight(value, 0.0, yMax, height);
      Padding <= height - Padding - h <= height - Padding
  {
    ScaleWithin(value, 0.0, yMax, 0.0, height - 2.0 * Padding);
  }

  /**
   * The draw pass: nothing for an empty sample; otherwise the background,
   * the two axes, then one bar per sampled point in order. The source
   * divides by `yMax - yMin` unguarded, so a given `yRange` must not be
   * degenerate (the default one never is).
   */
  method DrawBarChart(data: seq<DataPoint>, width: real, height: real, color: string,
                      yRange: Option<(real, real)>) returns (cmds: seq<DrawCmd>)
    requires data != [] ==> YMinOrZero(yRange) != YMaxAtLeast100(data, yRange)
    ensures var sample := SampledData(data);
      && (sample == [] ==> cmds == [])
      && (sample != [] ==>
            && |cmds| == 3 + |sample|
            && cmds[0] == Clear(width, height, ChartBackground)
            && cmds[1] == XAxis(width, height) && cmds[2] == YAxis(height)
            && forall i :: 0 <= i < |sample| ==>
                 cmds[3 + i] == Bar(sample[i].value, i, |sample|, width, height,
                                    YMinOrZero(yRange), YMaxAtLeast100(data, yRange), color))
  {
    var sample := SampledData(data);
    if |sample| == 0 {
      return [];
    }
    StrideSampleFirst(data, BarTarget);
    var yMin := YMinOrZero(yRange);
    var yMax := YMaxAtLeast100(data, yRange);
    cmds := [Clear(width, height, ChartBackground), XAxis(width, height), YAxis(height)];
    var n := |sample|;
    for i := 0 to n
      invariant |cmds| == 3 + i
      invariant cmds[0] == Clear(width, height, ChartBackground)
      invariant cmds[1] == XAxis(width, height) && cmds[2] == YAxis(height)
      invariant forall k :: 0 <= k < i ==> cmds[3 + k] == Bar(sample[k].value, k, n, width, height, yMin, yMax, color)
    {
      var spacing := (width - 2.0 * Padding) / (n as real);
      var x := Padding + (i as real) * spacing + spacing * 0.1;
      var barHeight := ScaleValue(sample[i].value, yMin, yMax, 0.0, height - 2.0 * Padding);
      var y := height - Padding - barHeight;
      var bar := Rect(x, y, (width - 2.0 * Padding) / (n as real) * 0.8, barHeight, Some(Css(color)));
      assert spacing == Spacing(width, n) && x == BarX(i, n, width);
      assert barHeight == BarHeight(sample[i].value, yMin, yMax, height);
      cmds := cmds + [bar];
    }
  }
}

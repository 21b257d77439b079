/**
 * The line chart: the time-window filter, the value range, and the draw
 * pass that strokes one polyline through the filtered points.
 */
module LineChart {
  import opened Types
  import opened SeqUtils
  import opened Numeric
  import opened CanvasUtils
  import opened ChartAxes

  /** `d.timestamp >= startTime && d.timestamp <= endTime` */
  predicate InWindow(p: DataPoint, startTime: int, endTime: int)
  {
    p.timestamp >= startTime && p.timestamp <= endTime
  }

  function WindowTest(startTime: int, endTime: int): DataPoint -> bool
  {
    p => InWindow(p, startTime, endTime)
  }

  /** `xRange` when given, otherwise the first and the last timestamp of the data. */
  function Window(data: seq<DataPoint>, xRange: Option<(int, int)>): (int, int)
    requires data != []
  {
    if xRange.Some? then xRange.value else (data[0].timestamp, data[|data| - 1].timestamp)
  }

  /** `processedData` */
  function ProcessedData(data: seq<DataPoint>, xRange: Option<(int, int)>): seq<DataPoint>
  {
    if data == [] then []
    else
      var (startTime, endTime) := Window(data, xRange);
      Filter(data, WindowTest(startTime, endTime))
  }

  /**
   * The processed data is the in-order subsequence of the points whose
   * timestamp lies in the window, both ends included, each as often as in
   * the data.
   */
  lemma ProcessedDataWindow(data: seq<DataPoint>, xRange: Option<(int, int)>)
    ensures IsSubsequence(ProcessedData(data, xRange), data)
    ensures data != [] ==> forall p ::
      multiset(ProcessedData(data, xRange))[p] == if InWindow(p, Window(data, xRange).0, Window(data, xRange).1) then multiset(data)[p] else 0
  {
    if data == [] {
      assert Embeds([], ProcessedData(data, xRange), data);
    } else {
      var (startTime, endTime) := Window(data, xRange);
      FilterIsSubsequence(data, WindowTest(startTime, endTime));
      forall p
        ensures multiset(ProcessedData(data, xRange))[p] == if InWindow(p, startTime, endTime) then multiset(data)[p] else 0
      {
        FilterCount(data, WindowTest(startTime, endTime), p);
      }
    }
  }

  /** Timestamps never decrease along the data. */
  predicate Ascending(data: seq<DataPoint>)
  {
    forall i, j :: 0 <= i <= j < |data| ==> data[i].timestamp <= data[j].timestamp
  }

  /** Without `xRange` the default window spans ascending data entirely, so nothing is dropped. */
  lemma ProcessedDataAscending(data: seq<DataPoint>)
    requires Ascending(data)
    ensures ProcessedData(data, None) == data
  {
    if data != [] {
      var (startTime, endTime) := Window(data, None);
      forall i | 0 <= i < |data|
        ensures WindowTest(startTime, endTime)(data[i])
      {
        assert data[0].timestamp <= data[i].timestamp <= data[|data| - 1].timestamp;
      }
      FilterAll(data, WindowTest(startTime, endTime));
    }
  }

  /** `yMin`: `yRange[0]` when given, otherwise the smallest processed value. */
  function YMin(processed: seq<DataPoint>, yRange: Option<(real, real)>): (r: real)
    requires yRange.Some? || processed != []
    ensures yRange.Some? ==> r == yRange.value.0
    ensures yRange.None? ==>
      && (forall i :: 0 <= i < |processed| ==> r <= processed[i].value)
      && exists i :: 0 <= i < |processed| && processed[i].value == r
  {
    if yRange.Some? then yRange.value.0 else SeqMin(ValueList(processed))
  }

  /** `yMax`: `yRange[1]` when given, otherwise the largest processed value. */
  function YMax(processed: seq<DataPoint>, yRange: Option<(real, real)>): (r: real)
    requires yRange.Some? || processed != []
    ensures yRange.Some? ==> r == yRange.value.1
    ensures yRange.None? ==>
      && (forall i :: 0 <= i < |processed| ==> processed[i].value <= r)
      && exists i :: 0 <= i < |processed| && processed[i].value == r
  {
    if yRange.Some? then yRange.value.1 else SeqMax(ValueList(processed))
  }

  /** The horizontal position of the `k`-th processed point: its timestamp scaled from the first-to-last span onto the plot width. */
  function PointX(processed: seq<DataPoint>, k: int, width: real): real
    requires 0 <= k < |processed| && processed[0].timestamp != processed[|processed| - 1].timestamp
  {
    ScaleValue(processed[k].timestamp as real, processed[0].timestamp as real,
      processed[|processed| - 1].timestamp as real, Padding, width - Padding)
  }

  /** The vertical position of a value: `yMin` at the bottom of the plot area, `yMax` at the top. */
  function PointY(value: real, yMin: real, yMax: real, height: real): real
    requires yMin != yMax
  {
    ScaleValue(value, yMin, yMax, height - Padding, Padding)
  }

  /**
   * The polyline spans the plot area: the first point sits on the left
   * edge and the last on the right edge; `yMin` maps to the bottom and
   * `yMax` to the top.
   */
  lemma PolylineEnds(processed: seq<DataPoint>, width: real, height: real, yMin: real, yMax: real)
    requires |processed| >= 2 && processed[0].timestamp != processed[|processed| - 1].timestamp
    requires yMin != yMax
    ensures PointX(processed, 0, width) == Padding
    ensures PointX(processed, |processed| - 1, width) == width - Padding
    ensures PointY(yMin, yMin, yMax, height) == height - Padding
    ensures PointY(yMax, yMin, yMax, height) == Padding
  {
  }

  /**
   * For ascending data with distinct end timestamps drawn with the default
   * value range on a canvas larger than its padding, every vertex lies in the
   * plot area and the vertices run from left to right.
   */
  lemma PolylineInsidePlot(processed: seq<DataPoint>, width: real, height: real)
    requires |processed| >= 2 && Ascending(processed)
    requires processed[0].timestamp != processed[|processed| - 1].timestamp
    requires YMin(processed, None) != YMax(processed, None)
    requires width >= 2.0 * Padding && height >= 2.0 * Padding
    ensures forall k :: 0 <= k < |processed| ==>
      && Padding <= PointX(processed, k, width) <= width - Padding
      && Padding <= PointY(processed[k].value, YMin(processed, None), YMax(processed, None), height) <= height - Padding
    ensures forall k :: 0 <= k < |processed| - 1 ==> PointX(processed, k, width) <= PointX(processed, k + 1, width)
  {
    var n := |processed|;
    var a, b := processed[0].timestamp as real, processed[n - 1].timestamp as real;
    var lo, hi := YMin(processed, None), YMax(processed, None);
    forall k | 0 <= k < n
      ensures Padding <= PointX(processed, k, width) <= width - Padding
      ensures Padding <= PointY(processed[k].value, lo, hi, height) <= height - Padding
    {
      assert a <= processed[k].timestamp as real <= b;
      ScaleWithin(processed[k].timestamp as real, a, b, Padding, width - Padding);
      ScaleWithin(processed[k].value, lo, hi, height - Padding, Padding);
    }
    forall k | 0 <= k < n - 1
      ensures PointX(processed, k, width) <= PointX(processed, k + 1, width)
    {
      assert processed[k].timestamp <= processed[k + 1].timestamp;
      ScaleMonotone(processed[k].timestamp as real, processed[k + 1].timestamp as real, a, b, Padding, width - Padding);
    }
  }

  /** From position `offset` on, `cmds` traces the polyline: a `moveTo` to the first point, then a `lineTo` to each later one. */
  predicate PolylineAt(cmds: seq<DrawCmd>, offset: nat, processed: seq<DataPoint>, width: real, height: real, yMin: real, yMax: real)
    requires |processed| >= 1 && processed[0].timestamp != processed[|processed| - 1].timestamp
    requires yMin != yMax
  {
    && offset + |processed| <= |cmds|
    && cmds[offset] == MoveTo(PointX(processed, 0, width), PointY(processed[0].value, yMin, yMax, height))
    && forall k :: 1 <= k < |processed| ==>
         cmds[offset + k] == LineTo(PointX(processed, k, width), PointY(processed[k].value, yMin, yMax, height))
  }

  /** A traced polyline stays traced, at a shifted position, when commands are placed before and after it. */
  lemma PolylineShift(head: seq<DrawCmd>, path: seq<DrawCmd>, tail: seq<DrawCmd>, processed: seq<DataPoint>,
                      width: real, height: real, yMin: real, yMax: real)
    requires |processed| >= 1 && processed[0].timestamp != processed[|processed| - 1].timestamp
    requires yMin != yMax
    requires PolylineAt(path, 0, processed, width, height, yMin, yMax)
    ensures PolylineAt(head + path + tail, |head|, processed, width, height, yMin, yMax)
  {
    var all := head + path + tail;
    assert all[|head|] == path[0];
    forall k | 1 <= k < |processed|
      ensures all[|head| + k] == LineTo(PointX(processed, k, width), PointY(processed[k].value, yMin, yMax, height))
    {
      assert all[|head| + k] == path[0 + k];
    }
  }

  /** The `for` loop over the processed points with its `isFirst` flag: one `moveTo`, then a `lineTo` per later point. */
  method TracePath(processed: seq<DataPoint>, width: real, height: real, yMin: real, yMax: real) returns (path: seq<DrawCmd>)
    requires |processed| >= 1 && processed[0].timestamp != processed[|processed| - 1].timestamp
    requires yMin != yMax
    ensures |path| == |processed|
    ensures PolylineAt(path, 0, processed, width, height, yMin, yMax)
  {
    path := [];
    var isFirst := true;
    for i := 0 to |processed|
      invariant isFirst <==> i == 0
      invariant |path| == i
      invariant i > 0 ==> path[0] == MoveTo(PointX(processed, 0, width), PointY(processed[0].value, yMin, yMax, height))
      invariant forall k :: 1 <= k < i ==>
        path[k] == LineTo(PointX(processed, k, width), PointY(processed[k].value, yMin, yMax, height))
    {
      var x := PointX(processed, i, width);
      var y := PointY(processed[i].value, yMin, yMax, height);
      if isFirst {
        path := path + [MoveTo(x, y)];
        isFirst := false;
      } else {
        path := path + [LineTo(x, y)];
      }
    }
  }

  /**
   * The draw pass. Nothing is drawn for empty processed data. Otherwise the
   * canvas is cleared and the axes drawn; with two or more points one path
   * is stroked: a `moveTo` to the first point and a `lineTo` to each later
   * one; the `Min`/`Max` labels close the pass. The source divides by the
   * time span and the value range without a guard, so the model requires
   * both to be non-zero whenever a path is drawn.
   */
  method DrawLineChart(data: seq<DataPoint>, width: real, height: real, color: string,
                       xRange: Option<(int, int)>, yRange: Option<(real, real)>) returns (cmds: seq<DrawCmd>)
    requires var processed := ProcessedData(data, xRange);
      |processed| >= 2 ==>
        && processed[0].timestamp != processed[|processed| - 1].timestamp
        && YMin(processed, yRange) != YMax(processed, yRange)
    ensures var processed := ProcessedData(data, xRange);
      && (processed == [] ==> cmds == [])
      && (processed != [] ==>
            && |cmds| == (if |processed| >= 2 then |processed| + 7 else 5)
            && cmds[0] == Clear(width, height, ChartBackground)
            && cmds[1] == XAxis(width, height)
            && cmds[2] == YAxis(height)
            && cmds[|cmds| - 2] == Text(NumberLabel("Min", YMin(processed, yRange)), Padding + 10.0, Padding + 20.0, 12.0)
            && cmds[|cmds| - 1] == Text(NumberLabel("Max", YMax(processed, yRange)), Padding + 10.0, Padding + 40.0, 12.0))
    ensures var processed := ProcessedData(data, xRange);
      |processed| >= 2 ==>
        var yMin, yMax := YMin(processed, yRange), YMax(processed, yRange);
        && cmds[3] == BeginPath(Css(color), 2.0)
        && PolylineAt(cmds, 4, processed, width, height, yMin, yMax)
        && cmds[4 + |processed|] == Stroke
  {
    var processed := ProcessedData(data, xRange);
    if |processed| == 0 {
      return [];
    }
    var yMin := YMin(processed, yRange);
    var yMax := YMax(processed, yRange);
    cmds := [Clear(width, height, ChartBackground), XAxis(width, height), YAxis(height)];
    if |processed| > 1 {
      var path := TracePath(processed, width, height, yMin, yMax);
      PolylineShift(cmds + [BeginPath(Css(color), 2.0)], path, [Stroke], processed, width, height, yMin, yMax);
      cmds := cmds + [BeginPath(Css(color), 2.0)] + path + [Stroke];
    }
    cmds := cmds + [Text(NumberLabel("Min", yMin), Padding + 10.0, Padding + 20.0, 12.0),
                    Text(NumberLabel("Max", yMax), Padding + 10.0, Padding + 40.0, 12.0)];
  }
}

/**
 * The scale transform from data values to pixels, the tick-count heuristic,
 * and the abstract drawing commands that the chart draw passes emit in place
 * of calls on a 2D canvas.
 */
module CanvasUtils {
  import opened Types
  import opened Numeric

  /** The pan/zoom window a chart may be given (accepted by the line chart, unused when drawing). */
  datatype Viewport = Viewport(x: real, y: real, width: real, height: real, zoom: real)

  /** A CSS colour string, or `hsl(hue, 100%, 50%)` as the heatmap builds it. */
  datatype Color = Css(spec: string) | Hsl(hue: real)

  datatype TextContent =
    | Literal(text: string)
    | NumberLabel(prefix: string, number: real)   // `${prefix}: ${number.toFixed(2)}`

  /** One primitive operation on the drawing surface, in logical pixels. */
  datatype DrawCmd =
    | Clear(clearWidth: real, clearHeight: real, background: Color)
    | Line(x1: real, y1: real, x2: real, y2: real, lineColor: Color, lineWidth: real)
    | Rect(rx: real, ry: real, rw: real, rh: real, rectFill: Option<Color>)
    | Circle(cx: real, cy: real, radius: real, circleFill: Option<Color>, circleStroke: Option<Color>)
    | Text(content: TextContent, tx: real, ty: real, fontSize: real)
    | BeginPath(pathColor: Color, pathWidth: real)
    | MoveTo(mx: real, my: real)
    | LineTo(lx: real, ly: real)
    | Stroke

  /** The translucent white every chart clears its canvas with. */
  const ChartBackground: Color := Css("rgba(255, 255, 255, 0.8)")
  /** The grey of the chart axes. */
  const AxisColor: Color := Css("#ccc")

  /**
   * The affine map taking `[inMin, inMax]` onto `[outMin, outMax]`. The source
   * divides by `inMax - inMin` without a guard, so a degenerate input range
   * is excluded here.
   */
  function ScaleValue(value: real, inMin: real, inMax: real, outMin: real, outMax: real): (r: real)
    requires inMin != inMax
    ensures value == inMin ==> r == outMin
    ensures value == inMax ==> r == outMax
  {
    DivSelf(inMax - inMin);
    (value - inMin) / (inMax - inMin) * (outMax - outMin) + outMin
  }

  /** Scaling back with the ranges swapped recovers the original value exactly. */
  lemma ScaleInverse(v: real, a: real, b: real, c: real, d: real)
    requires a != b && c != d
    ensures ScaleValue(ScaleValue(v, a, b, c, d), c, d, a, b) == v
  {
    var t := (v - a) / (b - a);
    var w := ScaleValue(v, a, b, c, d);
    assert w == t * (d - c) + c;
    assert (w - c) / (d - c) == t;
    assert t * (b - a) == v - a;
  }

  /** The scaled distance between two values is their distance times the ratio of the ranges. */
  lemma ScaleDifference(v: real, w: real, a: real, b: real, c: real, d: real)
    requires a != b
    ensures ScaleValue(w, a, b, c, d) - ScaleValue(v, a, b, c, d) == (w - v) / (b - a) * (d - c)
  {
    var tv, tw := (v - a) / (b - a), (w - a) / (b - a);
    assert ScaleValue(v, a, b, c, d) == tv * (d - c) + c;
    assert ScaleValue(w, a, b, c, d) == tw * (d - c) + c;
    MulSub(tw, tv, d - c);
    DivSub(w - a, v - a, b - a);
    assert (w - a) - (v - a) == w - v;
  }

  /** Over an increasing input range the map keeps order when the output range increases and reverses it when the output range decreases. */
  lemma ScaleMonotone(v: real, w: real, a: real, b: real, c: real, d: real)
    requires a < b && v <= w
    ensures c <= d ==> ScaleValue(v, a, b, c, d) <= ScaleValue(w, a, b, c, d)
    ensures c >= d ==> ScaleValue(v, a, b, c, d) >= ScaleValue(w, a, b, c, d)
  {
    var q := (w - v) / (b - a);
    ScaleDifference(v, w, a, b, c, d);
    DivNonneg(w - v, b - a);
    MulSign(q, d - c);
  }

  /** A value inside the input range lands between the two ends of the output range. */
  lemma ScaleWithin(v: real, a: real, b: real, c: real, d: real)
    requires a < b && a <= v <= b
    ensures Min(c, d) <= ScaleValue(v, a, b, c, d) <= Max(c, d)
  {
    ScaleMonotone(a, v, a, b, c, d);
    ScaleMonotone(v, b, a, b, c, d);
  }

  /**
   * `getOptimalTickCount(range, pixelSize)`: one tick per whole 50 pixels, at
   * least two; `range` plays no part.
   */
  function GetOptimalTickCount(range: real, pixelSize: real): (r: int)
    ensures r >= 2
    ensures r == 2 || (r as real) * 50.0 <= pixelSize < (r as real + 1.0) * 50.0
    ensures pixelSize >= 100.0 ==> (r as real) * 50.0 <= pixelSize < (r as real + 1.0) * 50.0
  {
    var ticks := (pixelSize / 50.0).Floor;
    if ticks >= 2 then ticks else 2
  }
}

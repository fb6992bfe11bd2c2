/**
 * Points and the viewport transform. Coordinates are exact reals. A coordinate that may be
 * `NaN` (a value read from the page that the editor tests with `isNaN`) is a `Num`.
 */
module Geometry {

  datatype Point = Point(x: real, y: real)

  /** Pan offset in screen pixels and a zoom factor: screen = world * zoom + offset. */
  datatype Viewport = Viewport(x: real, y: real, zoom: real)

  /** A JavaScript number that may be `NaN`. */
  datatype Num = Num(v: real) | NaN

  /** The viewport the editor starts with and returns to on a reset. */
  const InitialViewport := Viewport(0.0, 0.0, 1.0)

  /** Where the world point `w` is displayed: the CSS `translate(x, y) scale(zoom)` of the canvas layer. */
  function WorldToScreen(vp: Viewport, w: Point): Point
  {
    Point(w.x * vp.zoom + vp.x, w.y * vp.zoom + vp.y)
  }

  /** `(s - viewport.xy) / zoom`: the world point displayed at screen point `s`. */
  function ScreenToWorld(vp: Viewport, s: Point): (w: Point)
    requires vp.zoom != 0.0
    ensures WorldToScreen(vp, w) == s
  {
    DivThenMul(s.x - vp.x, vp.zoom);
    DivThenMul(s.y - vp.y, vp.zoom);
    Point((s.x - vp.x) / vp.zoom, (s.y - vp.y) / vp.zoom)
  }

  lemma DivThenMul(a: real, z: real)
    requires z != 0.0
    ensures (a / z) * z == a
  {
  }

  lemma MulThenDiv(a: real, z: real)
    requires z != 0.0
    ensures (a * z) / z == a
  {
  }

  /** Converting a world point to screen space and back gives the world point again. */
  lemma WorldScreenRoundTrip(vp: Viewport, w: Point)
    requires vp.zoom != 0.0
    ensures ScreenToWorld(vp, WorldToScreen(vp, w)) == w
  {
    var s := WorldToScreen(vp, w);
    assert s.x - vp.x == w.x * vp.zoom && s.y - vp.y == w.y * vp.zoom;
    MulThenDiv(w.x, vp.zoom);
    MulThenDiv(w.y, vp.zoom);
  }

  /** `Math.abs`. */
  function Abs(r: real): real
  {
    if r < 0.0 then -r else r
  }

  /** `Math.min` and `Math.max`. */
  function Min(a: real, b: real): real
  {
    if a <= b then a else b
  }

  function Max(a: real, b: real): real
  {
    if a >= b then a else b
  }

  /** Arithmetic on numbers that may be `NaN`: `NaN` propagates. */
  function NumSub(a: Num, b: Num): (r: Num)
    ensures r.NaN? <==> a.NaN? || b.NaN?
  {
    if a.NaN? || b.NaN? then NaN else Num(a.v - b.v)
  }

  function NumDiv(a: Num, b: real): (r: Num)
    requires b != 0.0
    ensures r.NaN? <==> a.NaN?
  {
    if a.NaN? then NaN else Num(a.v / b)
  }
}

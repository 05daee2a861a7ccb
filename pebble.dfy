/** The part of the watch's graphics and maths library that the face calls:
    points and rectangles, the fixed-point trigonometry interface, colours,
    and a graphics context that records what is drawn on it. The library's
    own code is not part of this model; each member below states only the
    behaviour the face depends on. */
module Pebble {
  import opened CInt

  datatype GPoint = GPoint(x: int16, y: int16)
  datatype GSize = GSize(w: int16, h: int16)
  datatype GRect = GRect(origin: GPoint, size: GSize)

  /** `p.x += dx; p.y += dy;` on a point whose fields are `int16_t`. */
  function Shift(p: GPoint, dx: int, dy: int): (q: GPoint)
    ensures -0x8000 <= p.x as int + dx < 0x8000 ==> q.x as int == p.x as int + dx
    ensures -0x8000 <= p.y as int + dy < 0x8000 ==> q.y as int == p.y as int + dy
    ensures dx == 0 ==> q.x == p.x
    ensures dy == 0 ==> q.y == p.y
  {
    GPoint(Wrap16(p.x as int + dx), Wrap16(p.y as int + dy))
  }

  /** `grect_center_point`: the origin plus half the size on each axis, the
      halving done by C's truncating division and the sum stored as `int16_t`. */
  function CenterPoint(r: GRect): (c: GPoint)
    ensures 0 <= r.size.w && r.origin.x as int + r.size.w as int < 0x8000 ==>
              0 <= r.size.w as int - 2 * (c.x as int - r.origin.x as int) <= 1
    ensures 0 <= r.size.h && r.origin.y as int + r.size.h as int < 0x8000 ==>
              0 <= r.size.h as int - 2 * (c.y as int - r.origin.y as int) <= 1
  {
    GPoint(Wrap16(r.origin.x as int + CDiv(r.size.w as int, 2)),
           Wrap16(r.origin.y as int + CDiv(r.size.h as int, 2)))
  }

  /** `TRIG_MAX_ANGLE`: one full turn in the library's fixed-point angles. */
  const TrigMaxAngle: int := 0x10000
  /** `TRIG_MAX_RATIO`: the fixed-point value that stands for 1.0. */
  const TrigMaxRatio: int := 0xffff

  /** `sin_lookup` and `cos_lookup`, whose tables are not part of this model:
      any pair of functions from angles to fixed-point ratios. */
  datatype Trig = Trig(sin: int -> int, cos: int -> int) {
    /** The one fact the face relies on: both results lie in
        `[-TRIG_MAX_RATIO, TRIG_MAX_RATIO]`. */
    ghost predicate Valid() {
      (forall a :: -TrigMaxRatio <= sin(a) <= TrigMaxRatio) &&
      (forall a :: -TrigMaxRatio <= cos(a) <= TrigMaxRatio)
    }
  }

  datatype GColor = Black | White | ChromeYellow

  /** One drawing call, with the context state it used. */
  datatype Primitive =
    | FillRect(rect: GRect, color: GColor)                          // graphics_fill_rect(ctx, rect, 0, GCornerNone)
    | FillCircle(center: GPoint, radius: int, color: GColor)        // graphics_fill_circle
    | DrawCircle(center: GPoint, radius: int, width: int, color: GColor) // graphics_draw_circle

  /** A drawing context: the current fill colour, stroke colour and stroke
      width, and the primitives drawn so far, in order. */
  class GContext {
    var fillColor: GColor
    var strokeColor: GColor
    var strokeWidth: int
    var drawn: seq<Primitive>

    constructor (fill: GColor, stroke: GColor, width: int)
      ensures fillColor == fill && strokeColor == stroke && strokeWidth == width
      ensures drawn == []
    {
      fillColor, strokeColor, strokeWidth := fill, stroke, width;
      drawn := [];
    }

    /** `graphics_context_set_fill_color` */
    method SetFillColor(c: GColor)
      modifies this
      ensures fillColor == c
      ensures strokeColor == old(strokeColor) && strokeWidth == old(strokeWidth) && drawn == old(drawn)
    {
      fillColor := c;
    }

    /** `graphics_context_set_stroke_color` */
    method SetStrokeColor(c: GColor)
      modifies this
      ensures strokeColor == c
      ensures fillColor == old(fillColor) && strokeWidth == old(strokeWidth) && drawn == old(drawn)
    {
      strokeColor := c;
    }

    /** `graphics_context_set_stroke_width` */
    method SetStrokeWidth(w: int)
      modifies this
      ensures strokeWidth == w
      ensures fillColor == old(fillColor) && strokeColor == old(strokeColor) && drawn == old(drawn)
    {
      strokeWidth := w;
    }

    /** `graphics_fill_rect` with no rounded corners, in the fill colour. */
    method FillRectangle(r: GRect)
      modifies this
      ensures drawn == old(drawn) + [FillRect(r, fillColor)]
      ensures fillColor == old(fillColor) && strokeColor == old(strokeColor) && strokeWidth == old(strokeWidth)
    {
      drawn := drawn + [FillRect(r, fillColor)];
    }

    /** `graphics_fill_circle`, in the fill colour. */
    method FillCircleAt(center: GPoint, radius: int)
      modifies this
      ensures drawn == old(drawn) + [FillCircle(center, radius, fillColor)]
      ensures fillColor == old(fillColor) && strokeColor == old(strokeColor) && strokeWidth == old(strokeWidth)
    {
      drawn := drawn + [FillCircle(center, radius, fillColor)];
    }

    /** `graphics_draw_circle`, in the stroke colour and width. */
    method DrawCircleAt(center: GPoint, radius: int)
      modifies this
      ensures drawn == old(drawn) + [DrawCircle(center, radius, strokeWidth, strokeColor)]
      ensures fillColor == old(fillColor) && strokeColor == old(strokeColor) && strokeWidth == old(strokeWidth)
    {
      drawn := drawn + [DrawCircle(center, radius, strokeWidth, strokeColor)];
    }
  }
}

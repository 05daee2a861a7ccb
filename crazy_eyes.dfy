/** The update procedure of the watch face's layer: it paints the background,
    the two eyes, the two pupils (the hour hand in the left eye, the minute
    hand in the right) and a highlight dot on each pupil. */
module CrazyEyes {
  import opened CInt
  import opened Pebble
  import opened FaceGeometry

  /** Width of the ring drawn round each eye on colour watches. */
  const RingWidth: int := 2

  /** The background: chrome yellow on colour watches, black otherwise. */
  function Background(colour: bool): (c: GColor)
    ensures c == ChromeYellow <==> colour
    ensures !colour ==> c == Black
  {
    if colour then ChromeYellow else Black
  }

  /** The eye whites: a disk of radius `EyeRadius` on each eye centre. */
  function EyeDisks(e: Eyes): seq<Primitive> {
    [FillCircle(e.left, EyeRadius, White), FillCircle(e.right, EyeRadius, White)]
  }

  /** The border drawn round each eye on colour watches, one pixel outside
      the eye white; nothing otherwise. */
  function EyeRings(e: Eyes, colour: bool): seq<Primitive> {
    if colour then [DrawCircle(e.left, EyeRadius + 1, RingWidth, Black),
                    DrawCircle(e.right, EyeRadius + 1, RingWidth, Black)]
    else []
  }

  /** The pupils, hour first, then a highlight dot on each, hour first. */
  function PupilsAt(hourPupil: GPoint, minutePupil: GPoint): seq<Primitive> {
    [FillCircle(hourPupil, PupilRadius, Black),
     FillCircle(minutePupil, PupilRadius, Black),
     FillCircle(HighlightCenter(hourPupil), HighlightRadius, White),
     FillCircle(HighlightCenter(minutePupil), HighlightRadius, White)]
  }

  /** The primitives the face draws, back to front. */
  function FacePrimitives(bounds: GRect, isSteel: bool, colour: bool, trig: Trig,
                          hour: Hour, minute: Minute): (ps: seq<Primitive>)
    ensures |ps| == if colour then 9 else 7
    ensures ps[0] == FillRect(bounds, Background(colour))
    ensures forall i :: 1 <= i < |ps| ==> ps[i].FillCircle? || ps[i].DrawCircle?
  {
    var f := Layout(bounds, isSteel, trig, hour, minute);
    [FillRect(bounds, Background(colour))] + EyeDisks(f.eyes) + EyeRings(f.eyes, colour) + PupilsAt(f.hourPupil, f.minutePupil)
  }

  /** `hands_update_proc`. The layer's bounds, the device model, the colour
      build, the trigonometry tables and the local time are parameters. Every
      colour and the stroke width it uses are set before use, so what it draws
      does not depend on the state the context was in. */
  method HandsUpdateProc(ctx: GContext, bounds: GRect, isSteel: bool, colour: bool,
                         trig: Trig, hour: Hour, minute: Minute)
    requires trig.Valid()
    modifies ctx
    ensures ctx.drawn == old(ctx.drawn) + FacePrimitives(bounds, isSteel, colour, trig, hour, minute)
    ensures ctx.fillColor == White
    ensures colour ==> ctx.strokeColor == Black && ctx.strokeWidth == RingWidth
    ensures !colour ==> ctx.strokeColor == old(ctx.strokeColor) && ctx.strokeWidth == old(ctx.strokeWidth)
  {
    var center := CenterPoint(bounds);

    var leftEye := center;
    var rightEye := center;
    leftEye := leftEye.(x := Wrap16(leftEye.x as int - (EyeRadius + EyeDistance)));
    rightEye := rightEye.(x := Wrap16(rightEye.x as int + (EyeRadius + EyeDistance)));
    if isSteel {
      leftEye := leftEye.(y := Wrap16(leftEye.y as int + SteelDrop));
      rightEye := rightEye.(y := Wrap16(rightEye.y as int + SteelDrop));
    }
    EyesInPlace(center, isSteel);

    DrawEyes(ctx, bounds, Eyes(leftEye, rightEye), colour);

    var minuteAngle := MinuteAngle(minute);
    var minuteCenter := PupilCenter(rightEye, trig, minuteAngle);
    var hourAngle := HourAngle(hour, minute);
    var hourCenter := PupilCenter(leftEye, trig, hourAngle);

    DrawPupils(ctx, hourCenter, minuteCenter);
    assert Layout(bounds, isSteel, trig, hour, minute) == Face(Eyes(leftEye, rightEye), hourCenter, minuteCenter);
  }

  /** The first half of `hands_update_proc`: the background over the whole
      layer, the eye whites and, on colour watches, the rings. */
  method DrawEyes(ctx: GContext, bounds: GRect, eyes: Eyes, colour: bool)
    modifies ctx
    ensures ctx.drawn == old(ctx.drawn) + [FillRect(bounds, Background(colour))] + EyeDisks(eyes) + EyeRings(eyes, colour)
    ensures ctx.fillColor == White
    ensures colour ==> ctx.strokeColor == Black && ctx.strokeWidth == RingWidth
    ensures !colour ==> ctx.strokeColor == old(ctx.strokeColor) && ctx.strokeWidth == old(ctx.strokeWidth)
  {
    ctx.SetFillColor(Background(colour));
    ctx.FillRectangle(bounds);

    ctx.SetFillColor(White);
    ctx.FillCircleAt(eyes.left, EyeRadius);
    ctx.FillCircleAt(eyes.right, EyeRadius);

    if colour {
      ctx.SetStrokeWidth(RingWidth);
      ctx.SetStrokeColor(Black);
      ctx.DrawCircleAt(eyes.left, EyeRadius + 1);
      ctx.DrawCircleAt(eyes.right, EyeRadius + 1);
    }
  }

  /** The second half of `hands_update_proc`: the two black pupils, then the
      pupil centres moved in place to the highlights and a white dot on each. */
  method DrawPupils(ctx: GContext, hourCenter: GPoint, minuteCenter: GPoint)
    modifies ctx
    ensures ctx.drawn == old(ctx.drawn) + PupilsAt(hourCenter, minuteCenter)
    ensures ctx.fillColor == White
    ensures ctx.strokeColor == old(ctx.strokeColor) && ctx.strokeWidth == old(ctx.strokeWidth)
  {
    ctx.SetFillColor(Black);
    ctx.FillCircleAt(hourCenter, PupilRadius);
    ctx.FillCircleAt(minuteCenter, PupilRadius);

    ctx.SetFillColor(White);
    var hourDot, minuteDot := hourCenter, minuteCenter;
    hourDot := hourDot.(x := Wrap16(hourDot.x as int + HighlightShift));
    hourDot := hourDot.(y := Wrap16(hourDot.y as int - HighlightShift));
    minuteDot := minuteDot.(x := Wrap16(minuteDot.x as int + HighlightShift));
    minuteDot := minuteDot.(y := Wrap16(minuteDot.y as int - HighlightShift));
    HighlightInPlace(hourCenter);
    HighlightInPlace(minuteCenter);
    ctx.FillCircleAt(hourDot, HighlightRadius);
    ctx.FillCircleAt(minuteDot, HighlightRadius);
  }

  /** The field-by-field updates `left.x -= 38; right.x += 38;`, followed on
      the Pebble Steel by `left.y += 12; right.y += 12;`, give the eye centres. */
  lemma EyesInPlace(c: GPoint, isSteel: bool)
    ensures var l, r := c.(x := Wrap16(c.x as int - (EyeRadius + EyeDistance))),
                        c.(x := Wrap16(c.x as int + (EyeRadius + EyeDistance)));
      EyeCenters(c, isSteel) ==
        if isSteel then Eyes(l.(y := Wrap16(l.y as int + SteelDrop)), r.(y := Wrap16(r.y as int + SteelDrop)))
        else Eyes(l, r)
  {
  }

  /** The field-by-field updates `p.x += 2; p.y -= 2;` give the highlight centre. */
  lemma HighlightInPlace(p: GPoint)
    ensures p.(x := Wrap16(p.x as int + HighlightShift)).(y := Wrap16(p.y as int - HighlightShift))
            == HighlightCenter(p)
  {
  }

  /** The paint order: the background over the whole layer, then the two
      white eye disks, then (on colour watches only) a black ring two pixels
      wide just outside each eye, then the two black pupils, then the two
      white highlights; nine primitives in colour, seven otherwise. */
  lemma PaintOrder(bounds: GRect, isSteel: bool, colour: bool, trig: Trig, hour: Hour, minute: Minute)
    ensures var ps, f := FacePrimitives(bounds, isSteel, colour, trig, hour, minute),
                         Layout(bounds, isSteel, trig, hour, minute);
      var k := if colour then 2 else 0;
      |ps| == 7 + k &&
      ps[0] == FillRect(bounds, Background(colour)) &&
      ps[1] == FillCircle(f.eyes.left, EyeRadius, White) &&
      ps[2] == FillCircle(f.eyes.right, EyeRadius, White) &&
      (forall i :: 0 <= i < |ps| ==> (ps[i].DrawCircle? <==> 3 <= i < 3 + k)) &&
      (colour ==> ps[3] == DrawCircle(f.eyes.left, EyeRadius + 1, RingWidth, Black) &&
                  ps[4] == DrawCircle(f.eyes.right, EyeRadius + 1, RingWidth, Black)) &&
      ps[3 + k] == FillCircle(f.hourPupil, PupilRadius, Black) &&
      ps[4 + k] == FillCircle(f.minutePupil, PupilRadius, Black) &&
      ps[5 + k] == FillCircle(HighlightCenter(f.hourPupil), HighlightRadius, White) &&
      ps[6 + k] == FillCircle(HighlightCenter(f.minutePupil), HighlightRadius, White)
  {
  }

  /** Rings appear exactly on colour watches. */
  lemma RingsIffColour(bounds: GRect, isSteel: bool, colour: bool, trig: Trig, hour: Hour, minute: Minute)
    ensures var ps := FacePrimitives(bounds, isSteel, colour, trig, hour, minute);
      (exists i :: 0 <= i < |ps| && ps[i].DrawCircle?) <==> colour
  {
    PaintOrder(bounds, isSteel, colour, trig, hour, minute);
    var ps := FacePrimitives(bounds, isSteel, colour, trig, hour, minute);
    if colour {
      assert ps[3].DrawCircle?;
    }
  }

  /** `inner` is a filled disk whose bounding square lies inside the bounding
      square of the filled disk `outer`. */
  predicate DiskWithin(inner: Primitive, outer: Primitive) {
    inner.FillCircle? && outer.FillCircle? &&
    -(outer.radius - inner.radius) <= inner.center.x as int - outer.center.x as int <= outer.radius - inner.radius &&
    -(outer.radius - inner.radius) <= inner.center.y as int - outer.center.y as int <= outer.radius - inner.radius
  }

  /** How far the face centre must stay from the limits of `int16_t` for no
      coordinate of the face to wrap around. */
  const FaceMargin: nat := EyeOffset + SteelDrop + PupilCenterDist + HighlightShift

  /** The no-wrap condition holds for any layer that lies well inside the
      range of `int16_t`, which includes every watch screen. */
  lemma OnScreenNoWrap(bounds: GRect)
    requires -0x2000 <= bounds.origin.x <= 0x2000 && -0x2000 <= bounds.origin.y <= 0x2000
    requires 0 <= bounds.size.w <= 0x4000 && 0 <= bounds.size.h <= 0x4000
    ensures Clear(CenterPoint(bounds), FaceMargin)
  {
  }

  /** Later primitives sit on top of earlier ones: away from the limits of
      `int16_t`, each pupil lies within a white eye disk drawn before it, and
      each highlight lies within a black pupil drawn before it; the minute
      pupil lies in the right eye and the hour pupil in the left. */
  lemma Layering(bounds: GRect, isSteel: bool, colour: bool, trig: Trig, hour: Hour, minute: Minute)
    requires trig.Valid()
    requires Clear(CenterPoint(bounds), FaceMargin)
    ensures var ps := FacePrimitives(bounds, isSteel, colour, trig, hour, minute);
      var k := if colour then 2 else 0;
      DiskWithin(ps[3 + k], ps[1]) && DiskWithin(ps[4 + k], ps[2]) &&
      DiskWithin(ps[5 + k], ps[3 + k]) && DiskWithin(ps[6 + k], ps[4 + k])
  {
    PaintOrder(bounds, isSteel, colour, trig, hour, minute);
    var c, f := CenterPoint(bounds), Layout(bounds, isSteel, trig, hour, minute);
    EyesSymmetric(c, isSteel);
    PupilWithinOrbit(f.eyes.left, trig, HourAngle(hour, minute));
    PupilWithinOrbit(f.eyes.right, trig, MinuteAngle(minute));
    assert Clear(f.hourPupil, HighlightShift);
    assert Clear(f.minutePupil, HighlightShift);
  }

  /** Running the update procedure on two contexts, whatever each holds and
      whatever colours and width each has set, draws the same primitives on
      both: each context keeps what it held and gains the same suffix. */
  method RedrawIsIdempotent(bounds: GRect, isSteel: bool, colour: bool, trig: Trig, hour: Hour, minute: Minute,
                            c1: GContext, c2: GContext)
    requires trig.Valid()
    requires c1 != c2
    modifies c1, c2
    ensures |old(c1.drawn)| <= |c1.drawn| && |old(c2.drawn)| <= |c2.drawn|
    ensures c1.drawn[..|old(c1.drawn)|] == old(c1.drawn) && c2.drawn[..|old(c2.drawn)|] == old(c2.drawn)
    ensures c1.drawn[|old(c1.drawn)|..] == c2.drawn[|old(c2.drawn)|..]
  {
    HandsUpdateProc(c1, bounds, isSteel, colour, trig, hour, minute);
    HandsUpdateProc(c2, bounds, isSteel, colour, trig, hour, minute);
  }
}

/** The geometry of the face that `hands_update_proc` works out before it
    draws: the layout constants, the two eye centres, the fixed-point minute
    and hour angles, and the pupil and highlight centres. */
module FaceGeometry {
  import opened CInt
  import opened Pebble

  const EyeRadius: int := 32
  const PupilRadius: int := 8
  const EyeDistance: int := 6
  /** How far a pupil's centre sits from its eye's centre. */
  const PupilCenterDist: int := EyeRadius - PupilRadius - 4
  /** How far each eye's centre sits from the face's centre, left or right. */
  const EyeOffset: int := EyeRadius + EyeDistance
  /** The extra downward shift of both eyes on the Pebble Steel. */
  const SteelDrop: int := 12
  const HighlightRadius: int := 2
  /** A highlight dot sits this far right of, and this far above, its pupil. */
  const HighlightShift: int := 2

  /** The fields of `struct tm` that the face reads; `localtime` keeps them in range. */
  type Hour = h: int | 0 <= h < 24
  type Minute = m: int | 0 <= m < 60

  datatype Eyes = Eyes(left: GPoint, right: GPoint)

  /** The eye centres: the face centre moved `EyeOffset` to the left and to the
      right, and both moved down by `SteelDrop` on the Pebble Steel. */
  function EyeCenters(center: GPoint, isSteel: bool): (e: Eyes)
    ensures e.left.y == e.right.y
    ensures !isSteel ==> e.left.y == center.y
  {
    var drop := if isSteel then SteelDrop else 0;
    Eyes(Shift(center, -EyeOffset, drop), Shift(center, EyeOffset, drop))
  }

  /** No coordinate of `p` comes within `margin` of the limits of `int16_t`,
      so moving `p` by at most `margin` on each axis does not wrap around. */
  predicate Clear(p: GPoint, margin: nat) {
    -0x8000 + margin <= p.x as int && p.x as int + margin < 0x8000 &&
    -0x8000 + margin <= p.y as int && p.y as int + margin < 0x8000
  }

  /** Away from the limits of `int16_t`, the eyes sit exactly symmetrically
      about the face centre, `2 * EyeOffset` apart, on one row that is the
      centre's row or, on the Pebble Steel, `SteelDrop` below it. */
  lemma EyesSymmetric(center: GPoint, isSteel: bool)
    requires Clear(center, EyeOffset)
    ensures var e := EyeCenters(center, isSteel);
      e.left.x as int == center.x as int - EyeOffset &&
      e.right.x as int == center.x as int + EyeOffset &&
      e.left.x as int + e.right.x as int == 2 * center.x as int &&
      e.left.y == e.right.y &&
      e.left.y as int == center.y as int + (if isSteel then SteelDrop else 0)
  {
    var e := EyeCenters(center, isSteel);
    assert e.left.x == Wrap16(center.x as int - EyeOffset);
    assert e.right.x == Wrap16(center.x as int + EyeOffset);
    if isSteel {
      assert e.left.y == Wrap16(center.y as int + SteelDrop);
    }
  }

  /** `TRIG_MAX_ANGLE * tm_min / 60`. Every operand is non-negative, so C's
      division and Dafny's agree here. The angle is `minute / 60` of a turn,
      rounded down to a whole fixed-point unit. */
  function MinuteAngle(minute: Minute): (a: int)
    ensures 0 <= a < TrigMaxAngle
    ensures a * 60 <= TrigMaxAngle * minute < a * 60 + 60
  {
    TrigMaxAngle * minute / 60
  }

  /** Which of the 72 ten-minute steps of a 12-hour dial the time falls in. */
  function HourSlot(hour: Hour, minute: Minute): (s: int)
    ensures 0 <= s < 72
    ensures s / 6 == hour % 12 && s % 6 == minute / 10
  {
    (hour % 12) * 6 + minute / 10
  }

  /** The angle of step `slot` of 72: `slot / 72` of a turn, rounded down. */
  function SlotAngle(slot: int): (a: int)
    requires 0 <= slot < 72
    ensures 0 <= a < TrigMaxAngle
    ensures a * 72 <= TrigMaxAngle * slot < a * 72 + 72
  {
    TrigMaxAngle * slot / 72
  }

  /** `(TRIG_MAX_ANGLE * ((tm_hour % 12) * 6 + tm_min / 10)) / (12 * 6)`:
      the hour hand moves in ten-minute steps. */
  function HourAngle(hour: Hour, minute: Minute): (a: int)
    ensures 0 <= a < TrigMaxAngle
    ensures a * 72 <= TrigMaxAngle * HourSlot(hour, minute) < a * 72 + 72
  {
    SlotAngle(HourSlot(hour, minute))
  }

  /** Successive minutes are 1092 or 1093 fixed-point units apart. */
  lemma {:induction false} MinuteAngleStep(minute: Minute)
    requires minute < 59
    ensures 1092 <= MinuteAngle(minute + 1) - MinuteAngle(minute) <= 1093
  {
    var a, b := MinuteAngle(minute), MinuteAngle(minute + 1);
    assert a * 60 <= TrigMaxAngle * minute < a * 60 + 60;
    assert b * 60 <= TrigMaxAngle * minute + TrigMaxAngle < b * 60 + 60;
    assert (b - a) * 60 < TrigMaxAngle + 60 && TrigMaxAngle - 60 < (b - a) * 60;
  }

  /** The minute angle strictly increases through the hour, so it is in
      particular non-decreasing. */
  lemma MinuteAngleIncreasing(m1: Minute, m2: Minute)
    requires m1 < m2
    ensures MinuteAngle(m1) < MinuteAngle(m2)
  {
  }

  /** Adjacent steps of the 12-hour dial are 910 or 911 units apart. */
  lemma {:induction false} SlotAngleStep(slot: int)
    requires 0 <= slot < 71
    ensures 910 <= SlotAngle(slot + 1) - SlotAngle(slot) <= 911
  {
    var a, b := SlotAngle(slot), SlotAngle(slot + 1);
    assert a * 72 <= TrigMaxAngle * slot < a * 72 + 72;
    assert b * 72 <= TrigMaxAngle * slot + TrigMaxAngle < b * 72 + 72;
    assert (b - a) * 72 < TrigMaxAngle + 72 && TrigMaxAngle - 72 < (b - a) * 72;
  }

  /** The hour angle strictly increases across the 72 steps of a 12-hour cycle. */
  lemma SlotAngleIncreasing(s1: int, s2: int)
    requires 0 <= s1 < s2 < 72
    ensures SlotAngle(s1) < SlotAngle(s2)
  {
  }

  /** Two times show the same hour angle exactly when they fall in the same
      ten-minute step of the 12-hour dial, so the hour matters only modulo
      12; and a later step always shows a larger angle. */
  lemma HourAngleSameIffSameSlot(h1: Hour, m1: Minute, h2: Hour, m2: Minute)
    ensures HourAngle(h1, m1) == HourAngle(h2, m2) <==>
            (h1 % 12 == h2 % 12 && m1 / 10 == m2 / 10)
    ensures HourAngle(h1, m1) < HourAngle(h2, m2) <==> HourSlot(h1, m1) < HourSlot(h2, m2)
  {
    var s1, s2 := HourSlot(h1, m1), HourSlot(h2, m2);
    if s1 < s2 {
      SlotAngleIncreasing(s1, s2);
    } else if s2 < s1 {
      SlotAngleIncreasing(s2, s1);
    }
  }

  /** Within one hour, the hour angle changes from one minute to the next
      exactly at minutes 10, 20, 30, 40 and 50, and there it moves forward. */
  lemma HourAngleSteps(hour: Hour, minute: Minute)
    requires 0 < minute
    ensures HourAngle(hour, minute - 1) <= HourAngle(hour, minute)
    ensures HourAngle(hour, minute - 1) != HourAngle(hour, minute) <==> minute % 10 == 0
  {
    HourAngleSameIffSameSlot(hour, minute - 1, hour, minute);
    if minute % 10 == 0 {
      SlotAngleIncreasing(HourSlot(hour, minute - 1), HourSlot(hour, minute));
    }
  }

  /** The hour before `hour` on a 24-hour clock: 23:59 is followed by 0:00. */
  function PreviousHour(hour: Hour): (p: Hour)
    ensures (p + 1) % 24 == hour
  {
    if hour == 0 then 23 else hour - 1
  }

  /** On the hour the hour angle moves on one step from minute 59 of the
      previous hour, except at twelve o'clock (noon and midnight), where it
      starts the dial again at 0. */
  lemma HourAngleOnTheHour(hour: Hour)
    ensures hour % 12 != 0 ==> HourAngle(PreviousHour(hour), 59) < HourAngle(hour, 0)
    ensures hour % 12 == 0 ==> HourAngle(hour, 0) == 0 && HourAngle(PreviousHour(hour), 59) > 0
  {
    var prev := PreviousHour(hour);
    if hour % 12 != 0 {
      SlotAngleIncreasing(HourSlot(prev, 59), HourSlot(hour, 0));
    } else {
      SlotAngleIncreasing(0, HourSlot(prev, 59));
    }
  }

  /** One axis of the pupil's polar offset:
      `ratio * (int32_t)pupil_center_dist / TRIG_MAX_RATIO`, with C's division. */
  function OrbitOffset(ratio: int): (d: int)
    ensures -TrigMaxRatio <= ratio <= TrigMaxRatio ==> -PupilCenterDist <= d <= PupilCenterDist
  {
    var d := CDiv(ratio * PupilCenterDist, TrigMaxRatio);
    OrbitOffsetBound(ratio, d);
    d
  }

  lemma OrbitOffsetBound(ratio: int, d: int)
    requires 0 <= ratio ==> 0 <= d * TrigMaxRatio <= ratio * PupilCenterDist
    requires ratio < 0 ==> ratio * PupilCenterDist <= d * TrigMaxRatio <= 0
    ensures -TrigMaxRatio <= ratio <= TrigMaxRatio ==> -PupilCenterDist <= d <= PupilCenterDist
  {
    if ratio > TrigMaxRatio || ratio < -TrigMaxRatio {
    } else if 0 <= ratio {
      assert ratio * PupilCenterDist <= TrigMaxRatio * PupilCenterDist;
    } else {
      assert -TrigMaxRatio * PupilCenterDist <= ratio * PupilCenterDist;
    }
  }

  /** Mirrored ratios give mirrored offsets, because C's division truncates
      toward zero; at a quarter turn the offset is the full orbit distance. */
  lemma OrbitOffsetSymmetric(ratio: int)
    ensures OrbitOffset(-ratio) == -OrbitOffset(ratio)
    ensures OrbitOffset(0) == 0
    ensures OrbitOffset(TrigMaxRatio) == PupilCenterDist
    ensures OrbitOffset(-TrigMaxRatio) == -PupilCenterDist
  {
    assert -ratio * PupilCenterDist == -(ratio * PupilCenterDist);
    CDivOdd(ratio * PupilCenterDist, TrigMaxRatio);
  }

  /** `sin_lookup(angle)` and `cos_lookup(angle)` lie in
      `[-TRIG_MAX_RATIO, TRIG_MAX_RATIO]` at this one angle. */
  predicate InRange(trig: Trig, angle: int) {
    -TrigMaxRatio <= trig.sin(angle) <= TrigMaxRatio &&
    -TrigMaxRatio <= trig.cos(angle) <= TrigMaxRatio
  }

  /** A pupil centre: its eye centre plus the polar offset
      `(sin(angle), -cos(angle)) * pupil_center_dist`, each component cast to
      `int16_t` and the sum stored in an `int16_t` field. When the trig values
      are in range and the eye is clear of the limits of `int16_t`, neither
      cast changes anything: the pupil is displaced from its eye by exactly
      the two orbit offsets, each within `PupilCenterDist`. */
  function PupilCenter(eye: GPoint, trig: Trig, angle: int): (p: GPoint)
    ensures InRange(trig, angle) && Clear(eye, PupilCenterDist) ==>
      p.x as int - eye.x as int == OrbitOffset(trig.sin(angle)) &&
      p.y as int - eye.y as int == OrbitOffset(-trig.cos(angle))
  {
    GPoint(Wrap16(Wrap16(OrbitOffset(trig.sin(angle))) as int + eye.x as int),
           Wrap16(Wrap16(OrbitOffset(-trig.cos(angle))) as int + eye.y as int))
  }

  /** Away from the limits of `int16_t`, a pupil centre is within
      `PupilCenterDist` of its eye centre on each axis: the pupil's bounding
      square lies within the square of half-side `PupilCenterDist +
      PupilRadius` (28) round the eye centre. */
  lemma PupilWithinOrbit(eye: GPoint, trig: Trig, angle: int)
    requires trig.Valid()
    requires Clear(eye, PupilCenterDist)
    ensures var p := PupilCenter(eye, trig, angle);
      -PupilCenterDist <= p.x as int - eye.x as int <= PupilCenterDist &&
      -PupilCenterDist <= p.y as int - eye.y as int <= PupilCenterDist
  {
    assert InRange(trig, angle);
  }

  /** The range of `sin_lookup` and `cos_lookup` alone does not keep a pupil
      disk inside its eye disk: a pair of tables that stays in range but
      returns the extreme ratio at every angle puts the pupil centre 20 along
      each axis from its eye centre, farther than the 24 that the pupil's
      radius of 8 leaves inside the eye's radius of 32. Containment is
      therefore stated per axis. */
  lemma CornerPupil(eye: GPoint, angle: int)
    requires Clear(eye, PupilCenterDist)
    ensures var trig := Trig(a => TrigMaxRatio, a => -TrigMaxRatio);
      var p := PupilCenter(eye, trig, angle);
      var dx, dy := p.x as int - eye.x as int, p.y as int - eye.y as int;
      trig.Valid() && dx == PupilCenterDist && dy == PupilCenterDist &&
      dx * dx + dy * dy > (EyeRadius - PupilRadius) * (EyeRadius - PupilRadius)
  {
    var trig := Trig(a => TrigMaxRatio, a => -TrigMaxRatio);
    OrbitOffsetSymmetric(0);
    assert InRange(trig, angle);
  }

  /** The highlight dot on a pupil: `center.x += 2; center.y -= 2;`. */
  function HighlightCenter(pupil: GPoint): (h: GPoint)
    ensures Clear(pupil, HighlightShift) ==>
      h.x as int == pupil.x as int + HighlightShift && h.y as int == pupil.y as int - HighlightShift
  {
    Shift(pupil, HighlightShift, -HighlightShift)
  }

  /** The eye and pupil centres the face computes before drawing. */
  datatype Face = Face(eyes: Eyes, hourPupil: GPoint, minutePupil: GPoint)

  /** The face for a layer's bounds, device model and time: the minute pupil
      orbits the right eye at the minute angle, the hour pupil the left eye
      at the hour angle. */
  function Layout(bounds: GRect, isSteel: bool, trig: Trig, hour: Hour, minute: Minute): (f: Face)
    ensures f.eyes.left.y == f.eyes.right.y
    ensures InRange(trig, HourAngle(hour, minute)) && Clear(f.eyes.left, PupilCenterDist) ==>
      -PupilCenterDist <= f.hourPupil.x as int - f.eyes.left.x as int <= PupilCenterDist &&
      -PupilCenterDist <= f.hourPupil.y as int - f.eyes.left.y as int <= PupilCenterDist
    ensures InRange(trig, MinuteAngle(minute)) && Clear(f.eyes.right, PupilCenterDist) ==>
      -PupilCenterDist <= f.minutePupil.x as int - f.eyes.right.x as int <= PupilCenterDist &&
      -PupilCenterDist <= f.minutePupil.y as int - f.eyes.right.y as int <= PupilCenterDist
  {
    var eyes := EyeCenters(CenterPoint(bounds), isSteel);
    Face(eyes,
         PupilCenter(eyes.left, trig, HourAngle(hour, minute)),
         PupilCenter(eyes.right, trig, MinuteAngle(minute)))
  }

  /** The minute pupil does not depend on the hour, and the hour pupil
      depends on the minute only through its ten-minute step; neither hand
      is ever drawn in the other's eye: away from the limits of `int16_t`,
      the hour pupil lies left of the face centre and the minute pupil right of it. */
  lemma HandsKeepTheirEyes(bounds: GRect, isSteel: bool, trig: Trig,
                           h1: Hour, m1: Minute, h2: Hour, m2: Minute)
    requires trig.Valid()
    requires Clear(CenterPoint(bounds), EyeOffset + PupilCenterDist + SteelDrop)
    ensures var f1, f2 := Layout(bounds, isSteel, trig, h1, m1), Layout(bounds, isSteel, trig, h2, m2);
      (m1 == m2 ==> f1.minutePupil == f2.minutePupil) &&
      (h1 % 12 == h2 % 12 && m1 / 10 == m2 / 10 ==> f1.hourPupil == f2.hourPupil)
    ensures var c, f := CenterPoint(bounds), Layout(bounds, isSteel, trig, h1, m1);
      f.hourPupil.x as int <= c.x as int - (EyeOffset - PupilCenterDist) &&
      f.minutePupil.x as int >= c.x as int + (EyeOffset - PupilCenterDist)
  {
    var c, f := CenterPoint(bounds), Layout(bounds, isSteel, trig, h1, m1);
    HourAngleSameIffSameSlot(h1, m1, h2, m2);
    EyesSymmetric(c, isSteel);
    PupilWithinOrbit(f.eyes.left, trig, HourAngle(h1, m1));
    PupilWithinOrbit(f.eyes.right, trig, MinuteAngle(m1));
  }
}

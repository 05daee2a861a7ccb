# Crazy Eyes watch face: the face geometry and paint order

This project models, in Dafny, the layer update procedure of the Crazy Eyes
watch face, `hands_update_proc` in `src/crazy_eyes.c`. The face is two eyes.
The pupil in the left eye is the hour hand and the pupil in the right eye is
the minute hand. Each time the layer is redrawn, the procedure does this:

- it works out the layer's centre and the two eye centres;
- it turns the local time into fixed-point angles (the minute angle moves
  every minute, the hour angle every ten minutes);
- it places each pupil on an orbit round its eye, using the library's
  fixed-point sine and cosine;
- it paints, back to front: a background, the eye whites, black rings (only
  on colour watches), the pupils, and a white highlight dot on each pupil.

Files:

- `c_int.dfy` (module `CInt`): the C semantics the procedure relies on. It
  has the `int16_t` coordinate type, the wrap-around when a value is stored
  into it (`Wrap16`), and signed division that truncates toward zero (`CDiv`).
- `pebble.dfy` (module `Pebble`): the library interface the procedure
  calls. It has points and rectangles, `grect_center_point`, the trigonometry
  constants, and `sin_lookup`/`cos_lookup` as a `Trig` value whose only
  assumed property is its range. It also has a `GContext` class whose fill
  colour, stroke colour and stroke width are fields that the setters update.
  Each drawing call appends a `Primitive` to the context's `drawn` sequence.
- `face_geometry.dfy` (module `FaceGeometry`): the layout constants, the
  eye centres, the minute and hour angles, and the pupil and highlight
  centres, as functions, with lemmas about them.
- `crazy_eyes.dfy` (module `CrazyEyes`): `HandsUpdateProc`, a method that
  updates the eye and highlight points in place and issues the drawing calls
  on the context. Its postcondition ties what it draws to the specification
  function `FacePrimitives`. Lemmas about `FacePrimitives` state the paint
  order and how the primitives nest.

The device model check (`watch_info_get_model() == WATCH_INFO_MODEL_PEBBLE_STEEL`)
and the colour build (`#ifdef PBL_COLOR`) are the boolean parameters
`isSteel` and `colour`. The local time is given as `hour` (0..23) and
`minute` (0..59), the ranges `localtime` guarantees.

Points have `int16_t` fields, so every in-place update such as
`left_eye_center.x -= eye_radius + eye_distance` wraps modulo 2^16. The model
wraps explicitly. The exact-arithmetic lemmas assume `Clear(center, margin)`:
the face centre lies at least `margin` away from the limits of `int16_t`.
`OnScreenNoWrap` shows that this holds for any layer well inside that range,
which includes every watch screen.

## Model

| member | source | states |
|---|---|---|
| `CInt.Wrap16` | src/crazy_eyes.c:18-23 | storing an `int` into an `int16_t` field leaves in-range values unchanged |
| `CInt.Wrap16Congruent` | src/crazy_eyes.c:18-23 | the stored value differs from the computed one by a multiple of 2^16 |
| `CInt.CDiv` | src/crazy_eyes.c:50-51 | C's signed division rounds toward zero: `q*b` lies between 0 and `a`, less than `b` away from `a` |
| `CInt.CDivOdd` | src/crazy_eyes.c:50-51 | truncating division is symmetric: `CDiv(-a, b) == -CDiv(a, b)` |
| `Pebble.Shift` | src/crazy_eyes.c:18-23 | an in-place `p.x += dx; p.y += dy` gives exactly `p.x + dx` and `p.y + dy` on each axis where the sum fits in `int16_t`, and leaves an axis with a zero delta unchanged |
| `Pebble.CenterPoint` | src/crazy_eyes.c:7-8 | without wrap-around, the centre lies half the width (rounded down) right of the origin, and half the height below it |
| `Pebble.GContext.SetFillColor` | src/crazy_eyes.c:28 | sets the fill colour and changes nothing else |
| `Pebble.GContext.SetStrokeWidth` | src/crazy_eyes.c:39 | sets the stroke width and changes nothing else |
| `Pebble.GContext.SetStrokeColor` | src/crazy_eyes.c:40 | sets the stroke colour and changes nothing else |
| `Pebble.GContext.FillRectangle` | src/crazy_eyes.c:32 | appends one rectangle fill in the current fill colour |
| `Pebble.GContext.FillCircleAt` | src/crazy_eyes.c:35 | appends one disk in the current fill colour |
| `Pebble.GContext.DrawCircleAt` | src/crazy_eyes.c:41 | appends one circle outline in the current stroke colour and width |
| `FaceGeometry.EyeCenters` | src/crazy_eyes.c:15-24 | both eyes are on one row, and that row is the centre's row unless the watch is a Pebble Steel |
| `FaceGeometry.EyesSymmetric` | src/crazy_eyes.c:15-24 | without wrap-around, the eyes are at `center.x - 38` and `center.x + 38`, symmetric about the centre, at `center.y + 12` exactly on the Steel and at `center.y` otherwise |
| `FaceGeometry.MinuteAngle` | src/crazy_eyes.c:48 | the minute angle lies in `[0, TRIG_MAX_ANGLE)` and is `minute/60` of a turn, rounded down |
| `FaceGeometry.MinuteAngleStep` | src/crazy_eyes.c:48 | successive minutes are 1092 or 1093 angle units apart |
| `FaceGeometry.MinuteAngleIncreasing` | src/crazy_eyes.c:48 | the minute angle strictly increases with the minute, so it never decreases |
| `FaceGeometry.HourSlot` | src/crazy_eyes.c:53 | the step index is in 0..71; its quotient by 6 is `hour % 12` and its remainder is `minute / 10` |
| `FaceGeometry.SlotAngle` | src/crazy_eyes.c:53 | step `s` has angle `s/72` of a turn, rounded down, within `[0, TRIG_MAX_ANGLE)` |
| `FaceGeometry.HourAngle` | src/crazy_eyes.c:53 | the hour angle lies in `[0, TRIG_MAX_ANGLE)` and is `HourSlot/72` of a turn, rounded down |
| `FaceGeometry.SlotAngleStep` | src/crazy_eyes.c:53 | adjacent steps of the 12-hour dial are 910 or 911 angle units apart |
| `FaceGeometry.SlotAngleIncreasing` | src/crazy_eyes.c:53 | the angle strictly increases across the 72 steps of a 12-hour cycle |
| `FaceGeometry.HourAngleSameIffSameSlot` | src/crazy_eyes.c:53 | two times have equal hour angles if and only if `hour % 12` and `minute / 10` agree; a later step has a larger angle, and the reverse holds too |
| `FaceGeometry.HourAngleSteps` | src/crazy_eyes.c:53 | within an hour the hour angle changes between consecutive minutes exactly at minutes 10, 20, 30, 40 and 50, and then it increases |
| `FaceGeometry.HourAngleOnTheHour` | src/crazy_eyes.c:53 | on the hour the angle moves forward from minute 59 of the previous hour (23:59 before 0:00), except at noon and midnight, where it restarts at 0 after a positive angle |
| `FaceGeometry.OrbitOffset` | src/crazy_eyes.c:50-51 | for a ratio within `[-TRIG_MAX_RATIO, TRIG_MAX_RATIO]`, the offset lies within `[-20, 20]` |
| `FaceGeometry.OrbitOffsetBound` | src/crazy_eyes.c:13 | a truncated quotient of `ratio * 20` by `TRIG_MAX_RATIO` stays within the orbit distance 20 |
| `FaceGeometry.OrbitOffsetSymmetric` | src/crazy_eyes.c:50-51 | mirrored sine or cosine values give mirrored offsets; ratio 0 gives offset 0, and plus or minus `TRIG_MAX_RATIO` gives the full orbit of plus or minus 20 |
| `FaceGeometry.PupilCenter` | src/crazy_eyes.c:49-57 | when the trig values at the angle are in range and the eye is clear of the `int16_t` limits, the pupil is displaced from its eye by exactly the two orbit offsets `sin*20/TRIG_MAX_RATIO` and `-cos*20/TRIG_MAX_RATIO`: neither `int16_t` cast nor the store changes anything |
| `FaceGeometry.PupilWithinOrbit` | src/crazy_eyes.c:49-57 | if the trig tables are in range and nothing wraps, a pupil centre is within 20 of its eye centre on each axis; the pupil's bounding square lies within the eye's bounding square, per axis |
| `FaceGeometry.CornerPupil` | src/crazy_eyes.c:49-57 | the range of the trig tables alone does not keep the pupil disk inside the eye disk: in-range tables that return the extreme ratio put the pupil at (+20, +20) from its eye, a distance above the 24 the radii allow |
| `FaceGeometry.HighlightCenter` | src/crazy_eyes.c:65-66 | without wrap-around, the highlight is the pupil centre moved by (+2, -2) |
| `FaceGeometry.Layout` | src/crazy_eyes.c:15-57 | both eyes are on one row; the hour pupil orbits the left eye and the minute pupil the right eye, each within 20 of its own eye centre on each axis when the trig values are in range and nothing wraps |
| `FaceGeometry.HandsKeepTheirEyes` | src/crazy_eyes.c:49-57 | the minute pupil does not depend on the hour; the hour pupil depends only on `hour % 12` and `minute / 10`; the hour pupil lies left of the face centre and the minute pupil right of it, so the hands are never swapped |
| `CrazyEyes.Background` | src/crazy_eyes.c:27-31 | the background is ChromeYellow exactly on colour builds and Black otherwise |
| `CrazyEyes.FacePrimitives` | src/crazy_eyes.c:27-68 | the face is 9 primitives on colour builds and 7 otherwise; the first fills the whole bounds with the background colour and every later one is a circle, filled or outlined (the full order is `PaintOrder`) |
| `CrazyEyes.HandsUpdateProc` | src/crazy_eyes.c:6-69 | appends exactly `FacePrimitives` to the context. It leaves the fill colour white, and sets the stroke colour to black and the width to 2 only on colour builds. It works from any starting context state |
| `CrazyEyes.DrawEyes` | src/crazy_eyes.c:26-43 | draws the background fill, the two eye whites and, only in colour, the two rings, in that order |
| `CrazyEyes.DrawPupils` | src/crazy_eyes.c:59-68 | draws both black pupils (hour first), then moves each centre in place to its highlight and draws a white dot |
| `CrazyEyes.EyesInPlace` | src/crazy_eyes.c:15-24 | the field-by-field in-place updates produce `EyeCenters` |
| `CrazyEyes.HighlightInPlace` | src/crazy_eyes.c:65-66 | the field-by-field in-place updates produce `HighlightCenter` |
| `CrazyEyes.PaintOrder` | src/crazy_eyes.c:27-68 | the full order is: background fill over the whole bounds; two white radius-32 eye disks; black radius-33, width-2 rings exactly at indices 3-4 on colour builds; the black radius-8 hour pupil, then the minute pupil; then the white radius-2 highlights at each pupil moved by (2, -2). That is 9 primitives in colour and 7 otherwise |
| `CrazyEyes.RingsIffColour` | src/crazy_eyes.c:38-43 | an outline circle is drawn if and only if the build is colour |
| `CrazyEyes.OnScreenNoWrap` | src/crazy_eyes.c:7-8 | for any layer well inside the `int16_t` range, the face centre is far enough from the limits that no coordinate wraps |
| `CrazyEyes.Layering` | src/crazy_eyes.c:35-68 | without wrap-around, each pupil's bounding square lies inside the bounding square of the white eye disk drawn before it (the hour pupil in the left eye, the minute pupil in the right), and each highlight's bounding square inside its pupil's, per axis |
| `CrazyEyes.RedrawIsIdempotent` | src/crazy_eyes.c:6-69 | two redraws with the same inputs on two contexts, whatever each context held and had set before, keep what each held and append the same primitives to both |

## Left out

- Window, layer and event-loop plumbing (`window_load`, `window_unload`, `init`, `deinit`, `main`, src/crazy_eyes.c:75-119). These are platform lifecycle calls with no geometry in them.
- `handle_tick` (src/crazy_eyes.c:71-73) and the minute tick subscription. They only mark the layer dirty, and that redraw is `HandsUpdateProc`.
- `time(NULL)` and `localtime` (src/crazy_eyes.c:46-47). The local hour and minute are parameters.
- The `sin_lookup`/`cos_lookup` tables. They are abstract functions, and the only thing assumed of them is the range `[-TRIG_MAX_RATIO, TRIG_MAX_RATIO]` (`Trig.Valid`). Since `sin^2 + cos^2 = 1` is not assumed, pupil containment is proved per axis, not as a Euclidean distance.
- Layering: containment is of bounding squares, per axis, not of disks. With only the range of the trig tables assumed, disk-in-disk does not follow (`CornerPupil` gives the case).
- PupilWithinOrbit: the bound is per axis, not a Euclidean distance, for the same reason.
- Pixels. Each graphics call becomes one recorded primitive. Rasterisation, anti-aliasing and the corner arguments of `graphics_fill_rect` (always `0, GCornerNone`) are not modelled.
- `grect_center_point` belongs to the graphics library, which is not part of this model. It is modelled as the origin plus half the size, halved with C division and stored as `int16_t`.
- 32-bit overflow of `sin * pupil_center_dist`. It cannot happen when the trig values are in range, and `HandsUpdateProc` requires that.
- Eyebrows, mouth, blinking, googly eyes, a background colour cycle and settings. None of them appear in `src/crazy_eyes.c`, so the model claims none of them. Some descriptions of this face state that the hour hand moves in six-minute steps. The code divides the minute by 10 and has 6 steps per hour, so the model follows the code's ten-minute steps.
- The device-model query is a boolean, `isSteel`, and the colour build is a boolean, `colour`. This models the two builds and the two device models, not the queries themselves.

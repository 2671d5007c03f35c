# Home Assistant ESP32 round-display gauges, modelled in Dafny

The firmware drives a 240x240 round TFT: three concentric progress arcs and
a needle dial, each set over MQTT, plus a temperature label that is
redrawn and published back roughly once a second. This project models the
part of `src/main.cpp` that has logic in it:

- **Gauge state and topic routing** (`gauge.dfy`, module `Gauge`): the
  `Arc` record (value, width, colour), the three arcs and the dial value as
  a value `Gauges`, the topic-to-gauge routing of the MQTT callback
  (`Route`) and its effect (`Apply`: exactly one gauge value changes, or
  nothing for an unknown topic), and the conversion of payload bytes to the
  callback's text (`PayloadString`).
- **Geometry** (`geometry.dfy`, module `Geometry`): the radial layout of the
  arcs with a running radius (`LayoutFrom`), its closed form, the arc sweep
  angle `value * 3.6 - 90` and the needle angle `value * 2.7 - 135`, the dial
  circle and needle, and the order of one frame. Calls into the graphics
  library are represented as `Primitive` records.
- **Refresh cadence** (`cadence.dfy`, module `Cadence`): the
  `millis() - last > 1000` test in unsigned 32-bit arithmetic.
- **The firmware state in place** (`display.dfy`, module `Display`): class
  `GaugeDisplay` holds the arc array, the dial value and the time of the last
  redraw. Its callback, arc drawing loop, refresh and main-loop check are
  proved against the functions above.

Floating-point numbers are modelled as `real`. The parsed payload number
comes from a `toFloat: string -> real` parameter standing for the string
library's parser. The temperature text that a refresh shows and publishes
is a `reading` parameter. The main loop's two counter reads are two
parameters: `now` for the test and `doneAt` for the value stored after
drawing, because the code calls `millis()` a second time once drawing is
done. Angles are not clamped: arc value 150 gives end angle 450 and value
-10 gives -126; how the graphics library draws such a sweep is outside the
model.

The firmware has no animation, no value bounds and no structured
payloads: a message carries one bare number that overwrites one gauge
value.

## Model

| member | source | states |
|---|---|---|
| `Gauge.Route` | src/main.cpp:123-139 | a topic is routed to a gauge exactly when it is one of the four subscribed topics; arc targets are indices below 3 |
| `Gauge.TopicFor` | src/main.cpp:148-151 | every gauge has a topic among the four subscriptions |
| `Gauge.RouteTopicRoundTrip` | src/main.cpp:123-151 | routing and subscription topics are mutually inverse: each gauge is addressed by exactly one topic |
| `Gauge.Apply` | src/main.cpp:123-139 | topic `arcN` sets arc N-1's value to the parsed number; topic `dial` sets the dial value; no arc's width or colour changes, every other arc and the dial are unchanged, an unknown topic changes nothing |
| `Gauge.ApplyLastWriteWins` | src/main.cpp:123-139 | a second message on the same topic entirely replaces the first |
| `Gauge.ApplyCommutes` | src/main.cpp:123-139 | messages on different topics can be applied in either order |
| `Gauge.ReceivedKeepsStyle` | src/main.cpp:115-139 | after any sequence of messages every arc keeps the default width 8 and white colour |
| `Gauge.PayloadString` | src/main.cpp:116-117 | the callback text has one character per payload byte, with that byte's code |
| `Display.PayloadText` | src/main.cpp:116-117 | the appending loop builds exactly the text of the first `length` payload bytes |
| `Geometry.ArcEndAngle` | src/main.cpp:72-73 | the sweep from the top (-90) is `value` percent of a full turn |
| `Geometry.ArcSweepLandmarks` | src/main.cpp:72-73 | value 0 ends at -90 (empty sweep), value 100 ends at 270 (full circle), and the end angle is strictly increasing in the value |
| `Geometry.NeedleAngle` | src/main.cpp:81 | 100 units of dial value turn the needle 270 degrees from -135 |
| `Geometry.NeedleLandmarks` | src/main.cpp:81 | dial value 0, 50, 100 give needle angles -135, 0 (straight up), 135, and the angle is strictly increasing in the value |
| `Geometry.Band` | src/main.cpp:71-73 | the `fillArc` call of one arc: centred on the canvas, in the arc's colour, outer radius the running radius, radial thickness the arc's width, sweep from -90 covering `value` percent of a full turn |
| `Geometry.Layout` | src/main.cpp:67-68 | the arc walk starts at radius 120: at most one band per arc, each a filled arc with inner radius below outer radius and outer radius at most 120 |
| `Geometry.LayoutFrom` | src/main.cpp:67-76 | at most one band per arc; every band is a filled arc whose inner radius is below its outer one, which is at most the starting radius |
| `Geometry.LayoutSkipsSuppressed` | src/main.cpp:70 | arcs with width <= 0 emit nothing and take no room: the layout equals that of the drawn arcs alone |
| `Geometry.LayoutOfDrawn` | src/main.cpp:68-74 | for drawn arcs, the k-th band's outer radius is the start radius less the widths plus 2-pixel gaps of the k arcs before it |
| `Geometry.LayoutClosedForm` | src/main.cpp:68-74 | one band per arc of positive width, at the radius the drawn arcs before it leave, with inner radius = outer radius - width, sweep -90 to the arc's end angle, in the arc's colour |
| `Geometry.BandsAreNested` | src/main.cpp:71-74 | each later band's outer radius is at least 2 inside every earlier band's inner radius, so outer radii strictly decrease |
| `Geometry.BandsIgnoreValues` | src/main.cpp:67-76 | arcs that agree on width and colour get the same bands up to the end angle |
| `Geometry.MessageKeepsBands` | src/main.cpp:123-134 | after any message every band keeps its radii and colour; only an end angle can change |
| `Geometry.DefaultBands` | src/main.cpp:56-76 | three arcs of width 8 are drawn as bands 120/112, 110/102 and 100/92 |
| `Geometry.ReceivedKeepsDefaultBands` | src/main.cpp:58-76 | from power-on, whatever messages arrive, the layout keeps the three bands 120/112, 110/102 and 100/92 |
| `Geometry.DialPrimitives` | src/main.cpp:78-86 | the dial is a white circle and a red needle, both centred on the canvas; the needle stops 10 short of the circle and points at the needle angle of the dial value |
| `Geometry.DialGeometry` | src/main.cpp:79-85 | the dial circle has radius 80, the needle is 70 long and points straight up at value 50 |
| `Geometry.Frame` | src/main.cpp:102-110 | a frame is, in order: clear to black, the arc layout, the dial circle and needle, the temperature label at (120, 200) in white on black |
| `Geometry.FrameShape` | src/main.cpp:102-110 | a frame clears to black first, holds exactly one filled arc per arc of positive width (in positions 1..n), and ends with the temperature label |
| `Cadence.Elapsed` | src/main.cpp:201 | the unsigned difference is the 32-bit count that takes `last` to `now` modulo 2^32 |
| `Cadence.RefreshDue` | src/main.cpp:201 | no redraw is due at the very moment of the last one, nor within 1000 ms of it without a wrap-around; one is due once more than 1000 ms have passed without a wrap-around |
| `Cadence.ElapsedUnique` | src/main.cpp:201 | no other count below 2^32 takes `last` to `now` |
| `Cadence.RefreshAcrossWrap` | src/main.cpp:200-205 | if fewer than 2^32 ms have passed since the last redraw, a redraw is due exactly when more than 1000 ms have passed, even across a counter wrap-around |
| `Display.GaugeDisplay.constructor` | src/main.cpp:58-65 | power-on state: three arcs of value 0, width 8, white; dial 0; last redraw 0 |
| `Display.GaugeDisplay.Callback` | src/main.cpp:115-140 | the new state is `Apply` of the old state, the topic and the parsed payload text; the arc array itself and the redraw time are unchanged |
| `Display.GaugeDisplay.DrawArcs` | src/main.cpp:67-76 | the running-radius loop emits exactly the layout of the current arcs |
| `Display.GaugeDisplay.UpdateDisplay` | src/main.cpp:88-113 | the frame drawn from the current state and the retained publication on `ha_display/temperature`; the label drawn is the text published |
| `Display.GaugeDisplay.Loop` | src/main.cpp:194-206 | a frame is rendered exactly when the redraw is due; then the redraw time becomes the counter read after drawing, otherwise it is unchanged |

## Left out

- Panel, SPI bus and backlight configuration and the `setup` bring-up: hardware wiring without logic.
- WiFi and MQTT connection, reconnection, subscription and the `mqtt.loop()` delivery: network I/O. Delivered messages are calls of `Callback` between calls of `Loop`.
- The sensor read `aht.getEvent` and its `%.1fC` formatting: foreign I/O and float formatting; the formatted text is the `reading` parameter.
- `String::toFloat`: library float parsing; it is the `toFloat` parameter.
- All `Serial` logging: output only.
- The needle end point computed with `sinf`/`cosf` and truncated to `int`: floating-point trigonometry; the needle is recorded by its angle and length.
- Single-precision rounding of `value * 3.6f - 90.0f` and `dialValue * 2.7f - 135.0f`: values are `real`.
- 32-bit overflow of `r - width` in the arc loop: the radius is an unbounded `int`; no message changes a width, so every reachable width is 8 and no overflow occurs.
- The graphics library's drawing itself (`fillArc`, `drawCircle`, `drawLine`, `drawString`, `pushSprite`): its calls are emitted as `Primitive` records; the final `pushSprite` is implied by the end of the frame, and the text colour and middle-centre alignment (`setTextColor`, `setTextDatum(MC_DATUM)`) are folded into the `DrawString` record, which does not record the alignment.
- Non-finite floats (NaN, plus or minus infinity, which `toFloat` can return for payloads such as `nan`, `inf` or `1e39`): `real` has none; the model covers finite values only.
- `include/config.h`: only default connection settings and pin notes.

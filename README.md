# neomatrix16 in Dafny

A model of the firmware logic of neomatrix16. neomatrix16 is an ESP32 program that plays
pixel animations and clock faces on a 16x16 NeoPixel matrix. Two rotary encoders with push
buttons and a small HTTP interface control it. The model covers the parts of the firmware that
are integer logic:

- **`RotaryEncoder`** (`encoder.dfy`, src/Encoder.cpp) models the encoder itself:
  - the quadrature decoder: the `_old_AB` shift register, the 16-entry `enc_states` table, and
    the `_encval` accumulator that commits one detent to the shared counter past ±3;
  - the 50 ms button debouncer, measured in `unsigned long` wrap-around arithmetic;
  - the static pool of six instances.

  `Encoder` is a class whose methods take the pin levels and `millis()` as parameters. Each
  method is proved against the specification functions `ShiftIn`, `Feed`/`Accumulate` and
  `Debounce`. Lemmas about those functions prove:
  - conservation of table steps;
  - that one clean cycle commits exactly +1, and the reverse cycle exactly -1;
  - that a walk which retraces itself back to its start commits nothing;
  - that bounces inside the debounce window are ignored.
- **`Control`** (`control.dfy`, src/main.cpp) models the main loop and its helpers:
  - the globals of the main loop, as the `DisplayState` value and the fields of the
    `Controller` class;
  - one iteration of `loop()`: frame advance, auto-advance on the static local timer, and the
    two encoder counters;
  - the two button callbacks, `turnOnDisplay`, `showMessage` and `minMax`;
  - the RGB888 to RGB565 conversion loop of `drawRGBBitmap`.

  Each `Controller` method is proved to compute its specification function. Lemmas over those
  functions prove:
  - that the state invariant holds across an iteration;
  - that the frame stays in range;
  - that brightness stays within its bounds;
  - that one click is suppressed after a brightness drag;
  - that activity restores a zero brightness.
- **`Clocks`** (`clocks.dfy`, lib/Clocks/src/Clocks.cpp) models the integer geometry of the
  clock faces. A face is modelled as the sequence of matrix commands it issues.
  - `getPerimeterXY` is proved a bijection from [0, 4(n-1)) onto the border of its ring, with
    the inverse given as a function.
  - `drawPerimeter` (four counting loops) is proved to draw every border cell exactly once.
  - For the ring, bars and digital faces, the index, bar and padding arithmetic is proved to
    stay in range and to encode the time.
- **`Web`** (`web.dfy`, src/Web.cpp) models the bodies of the `/set`, `/state` and
  `/animations` handlers.
  - `/set` validates each parameter in a fixed order. Each check is a method, and the seven
    checks are proved to compose into the field-by-field function `SetState`. The reply is proved
    to be the default text exactly when no parameter produced a message.
  - `/state` and `/animations` build JSON by appending. The methods are proved equal to
    declarative renderings.
  - Sending back what `/state` reports reproduces the state's settings, with two exceptions:
    brightness values that `int8_t` made negative, and clock modes above 3.
- **`Arduino`** (`arduino.dfy`) holds the C and Arduino primitives the others rely on:
  - truncation to `uint8_t`, `uint16_t` and `int8_t`;
  - wrap-around `unsigned long` arithmetic;
  - C's truncating `/` and `%`;
  - Arduino's `map`;
  - `String(n)`, and `String::toInt` (C's `atol` semantics).

  It also proves that `toInt(String(n)) == n`.

Behaviours of the code worth knowing, which the model keeps:

- **Long presses.** There is no long-press handling; only the release callback exists.
- **Counter reset.** The loop resets the encoder counters to 0. It does not subtract the amount
  it read.
- **Pool overflow.** A seventh encoder takes `_index` 6 and is silently not registered.
- **`/set` and the frame.** `/set` does not reset `currentFrame` when it changes the animation.
  While animation is enabled, the next frame advance repairs an out-of-range frame. While it is
  disabled, the frame is left as it is, so the loop keeps reading the delay of a frame the new
  animation may not have.
- **`/set` and the timer.** `/set` restarts the global `lastAnimationChangeTime`. The
  auto-advance of `loop()` reads its own `static` copy, which shadows the global, so a manual
  change through `/set` does not postpone the next auto-advance.
- **Brightness width.** Brightness is an `int8_t`. Encoder 2 wraps it before clamping: eight
  detents up from 90 leave 0. `/set` accepts 0..255 without capping at `MAX_BRIGHTNESS`, so 200
  is stored, and reported, as -56.

## Model

| member | source | states |
|---|---|---|
| Arduino.WrapSub | src/Encoder.cpp:63 | `unsigned long` subtraction is the difference when it is not negative, and the difference plus 2^32 otherwise |
| Arduino.WrapAdd | src/main.cpp:239 | `millis() + duration` wraps to an `unsigned long`, differing from the sum by a multiple of 2^32 |
| Arduino.ToU8 | src/main.cpp:52 | storing into a `uint8_t` gives a value in [0, 256), unchanged when it already fits |
| Arduino.ToU16 | src/main.cpp:53 | storing into a `uint16_t` gives a value in [0, 65536), unchanged when it already fits |
| Arduino.ToInt8 | src/main.cpp:56 | storing into an `int8_t` gives a value in [-128, 128), unchanged when it already fits |
| Arduino.TruncationsCongruent | src/main.cpp:52-56 | each truncation keeps the value modulo its width |
| Arduino.CRem | src/main.cpp:120 | C's `%` for a positive divisor: the remainder has the dividend's sign and is smaller than the divisor in magnitude; with `CDiv` it completes C's identity, which fixes its value |
| Arduino.CDiv | lib/Clocks/src/Clocks.cpp:149 | C's identity `(a / b) * b + a % b == a` holds; the quotient truncates toward zero, `q * b` lying between 0 and `a`; on a non-negative dividend it is the floor quotient |
| Arduino.DivUnique | lib/Clocks/src/Clocks.cpp:149 | `a == n * q + r` with 0 ≤ r < n fixes the quotient `a / n` as `q` |
| Arduino.CDivMultiple | src/main.cpp:193-195 | an exact multiple `d * k` divided by `d` gives `k` back, for either sign of `k` |
| Arduino.ArduinoMap | src/main.cpp:193-195 | `map` sends the lower input bound to the lower output bound and the upper input bound to the upper output bound |
| Arduino.ArduinoMapRange | lib/Clocks/src/Clocks.cpp:117 | for an ascending output range, an input inside [inMin, inMax] maps inside [outMin, outMax] |
| Arduino.ArduinoMapBounds | src/main.cpp:193-195 | `map` from [0, inMax] onto [0, outMax] stays in [0, outMax] and equals `x * outMax / inMax` |
| Arduino.ToIntOfIntString | src/Web.cpp:100-106 | `String(n).toInt() == n` for every integer `n` |
| Arduino.IntString | src/main.cpp:129 | `String(n)` is non-empty, starts with `-` exactly for negative `n`, and is otherwise all digits |
| Arduino.ToInt | src/Web.cpp:40 | `toInt` is ≤ 0 after a leading `-` and ≥ 0 otherwise, and is 0 when, after the white space, neither a digit nor a sign follows |
| RotaryEncoder.PinBits | src/Encoder.cpp:43-46 | bit 1 of the two-bit state is pin A and bit 0 is pin B |
| RotaryEncoder.ShiftIn | src/Encoder.cpp:42-46 | the shifted `uint8_t` has the current pins in bits 0-1 and the previous pins in bits 2-3 |
| RotaryEncoder.ShiftedNibble | src/Encoder.cpp:42 | shifting a byte left by two in 8 bits moves its low two bits up by two and clears bits 0-1 |
| RotaryEncoder.TransitionTable | src/Encoder.cpp:39-40 | every table entry is -1, 0 or +1; an entry is 0 iff the state is unchanged or both pins changed; reversing a move negates it; a clockwise move counts +1 |
| RotaryEncoder.Accumulate | src/Encoder.cpp:48-57 | a step moves the counter by at most one, only when the accumulator resets to 0, and keeps the accumulator in [-3, 3] while conserving accumulator + 4·delta |
| RotaryEncoder.FeedConserves | src/Encoder.cpp:48-57 | over any walk the accumulator stays in [-3, 3], and its final value plus 4·(counter change) equals the start value plus the table sum |
| RotaryEncoder.FeedEndsAt | src/Encoder.cpp:42-46 | the decoder's two-bit state after a walk is the walk's last state |
| RotaryEncoder.Feed | src/Encoder.cpp:42-57 | after a walk the two-bit state is valid, the counter has moved by at most one per pin change, and an accumulator in [-3, 3] stays there |
| RotaryEncoder.RetraceSumsToZero | src/Encoder.cpp:39-40 | a walk followed by its retracing has table sum 0 |
| RotaryEncoder.RetraceCommitsNothing | src/Encoder.cpp:37-58 | from a zero accumulator, a walk that retraces itself back to its start leaves the counter, the accumulator and the state unchanged |
| RotaryEncoder.CycleSum | src/Encoder.cpp:39-40 | each of the four clockwise cycles has table sum +4 |
| RotaryEncoder.OneDetent | src/Encoder.cpp:48-57 | a closed walk with table sum ±4 from a zero accumulator commits exactly ±1 |
| RotaryEncoder.ClockwiseCycleCommitsOne | src/Encoder.cpp:37-58 | the clean clockwise cycle adds exactly +1 to the counter and returns the accumulator to 0 |
| RotaryEncoder.ReverseCycleCommitsMinusOne | src/Encoder.cpp:37-58 | the reverse cycle adds exactly -1 |
| RotaryEncoder.RestCycles | src/Encoder.cpp:39-40 | from rest (11) the cycles are 11→01→00→10→11 and 11→10→00→01→11 |
| RotaryEncoder.Debounce | src/Encoder.cpp:60-71 | the last state always becomes the reading; an accepted reading sets pressed to (reading == LOW) and stamps the time; a rejected one changes neither; the callback is due iff an accepted reading is a LOW→HIGH release |
| RotaryEncoder.BouncesIgnored | src/Encoder.cpp:63-68 | edges no more than 50 ms after the last accepted one change neither the pressed flag nor the time stamp, and fire no callback |
| RotaryEncoder.Counter.constructor | src/main.cpp:31-32 | a counter starts at 0 |
| RotaryEncoder.Pool.constructor | src/Encoder.cpp:4-5 | the pool has six empty slots and a count of 0 |
| RotaryEncoder.Encoder.constructor | src/Encoder.cpp:7-16 | the encoder takes `_index` = the old count; the pool stores it and bumps the count only while fewer than six are registered; otherwise the pool is unchanged |
| RotaryEncoder.Encoder.Begin | src/Encoder.cpp:18-35 | the pins are sampled, `_old_AB == 3`, `_encval == 0` and not pressed |
| RotaryEncoder.Encoder.HandleEncoderISR | src/Encoder.cpp:37-58 | the new state is one `Feed` step on the pins; the counter moves by at most one, and only when the accumulator resets; the button fields are unchanged |
| RotaryEncoder.Encoder.ShiftInPins | src/Encoder.cpp:42-46 | `_old_AB` becomes `ShiftIn` of its old value and the pins; nothing else changes |
| RotaryEncoder.Encoder.HandleBtn | src/Encoder.cpp:60-71 | the button fields become `Debounce` of the old ones; the callback runs iff one was given and a release is due; the decoder fields are unchanged |
| Control.MinMax | src/main.cpp:242-248 | for lo ≤ hi the result is in [lo, hi]; it is the identity in range, lo below and hi above |
| Control.MinMaxIdempotent | src/main.cpp:242-248 | clamping twice is clamping once |
| Control.TurnedOn | src/main.cpp:205-211 | brightness 0 becomes 50 with "50%" posted for 1000 ms; any other brightness leaves the state unchanged; afterwards brightness is never 0 |
| Control.StartTimer | src/main.cpp:84 | the static loop timer is initialised once, on the first iteration, to the current time; later iterations change nothing |
| Control.FrameStep | src/main.cpp:93-104 | when the delay has passed the time is stamped; only if animation is enabled does the frame advance, to its successor, or to 0 at the frame count; otherwise the state is unchanged |
| Control.NextFrame | src/main.cpp:99-102 | the incremented `uint16_t` frame is the successor below the count and 0 at the count |
| Control.AutoStep | src/main.cpp:107-115 | when the interval has passed the loop timer is always reset; the index advances mod 5 and the frame resets only if auto-advance and animation are both enabled |
| Control.NextIndex | src/main.cpp:120 | the `uint8_t` index is `(idx + c + 5) mod 5` when the sum is not negative, and a valid index iff the sum is not negative or is a multiple of 5 |
| Control.Encoder1Step | src/main.cpp:118-132 | a turn turns the display on, moves the index by `NextIndex`, resets the frame, and posts the 1-based index only when auto-advance is off; every other field keeps its value; no turn changes nothing |
| Control.AdjustBrightness | src/main.cpp:142-143 | the new brightness is in [0, 90] and is the clamped `b + 5c` whenever that fits in an `int8_t` |
| Control.AdjustInterval | src/main.cpp:152-153 | the new interval is in [1, 60]: `i + c` when that is in range, 1 below it and 60 above it |
| Control.Encoder2Step | src/main.cpp:135-159 | pressed: brightness adjusted, "<b>%" posted, the next click suppressed; released: the display turned on, interval adjusted, "<i>s" posted, nothing else changed; the frame and index are unchanged |
| Control.LoopStep | src/main.cpp:81-160 | after an iteration the static timer is initialised; the loop never writes the global `lastAnimationChangeTime`, the clock settings or the first button's flag; with neither encoder moved, no message is posted and no setting changes |
| Control.LoopKeepsInv | src/main.cpp:81-160 | every iteration keeps each global in its C type, the index valid and the interval in [1, 60], if encoder 1 counted at most 5 detents back |
| Control.LoopKeepsFrameInRange | src/main.cpp:93-104 | the frame stays below the current animation's frame count across an iteration |
| Control.FrameAdvanceRepairs | src/main.cpp:99-102 | a frame advance with animation enabled brings any frame back below the count |
| Control.LoopKeepsBrightness | src/main.cpp:135-159 | brightness in [0, 90] stays in [0, 90] across an iteration |
| Control.ActivityRestoresBrightness | src/main.cpp:205-235 | an unsuppressed click, a turn of encoder 1, or a released turn of encoder 2 brings brightness 0 back to 50 |
| Control.Click1Twice | src/main.cpp:213-223 | a click of button 1 toggles auto-advance, and two clicks restore it |
| Control.Click1 | src/main.cpp:213-223 | a suppressed click only clears the flag; otherwise the whole new state is given: with the display on, auto-advance is toggled and ">>" or the 0-based index is posted with a fresh clear time; with the display off, auto-advance is toggled, brightness becomes 50 and "50%" is posted instead |
| Control.Click2 | src/main.cpp:225-235 | a suppressed click only clears the flag; otherwise the whole new state is given: with the display on, only animation is toggled; with the display off, animation is toggled, brightness becomes 50 and "50%" is posted with a fresh clear time |
| Control.BrightnessDragSuppressesOneClick | src/main.cpp:225-235 | after a brightness drag the next click of button 2 only clears the flag, and the one after toggles animation |
| Control.Encoder1Scenario | src/main.cpp:118-131 | index 2 turned one detent with auto-advance off gives index 3, frame 0 and message "4" |
| Control.Encoder2Scenario | src/main.cpp:137-146 | brightness 50 dragged two detents down gives 40, "40%" and a suppressed next click |
| Control.BrightnessWrapScenario | src/main.cpp:142-143 | eight detents up from 90 wrap the `int8_t` and clamp to 0; seven give 90 |
| Control.AutoAdvanceScenario | src/main.cpp:107-115 | an elapsed 10 s interval with both flags on advances the animation and restarts the frame |
| Control.To5Bits | src/main.cpp:193-195 | the 5-bit reduction is in [0, 31], with 0 at 0 and 31 at 255 |
| Control.To6Bits | src/main.cpp:194 | the 6-bit reduction is in [0, 63], with 0 at 0 and 63 at 255 |
| Control.MapReducesColour | src/main.cpp:193-195 | `map(x, 0, 255, 0, 31)` and `map(x, 0, 255, 0, 63)` are the 5- and 6-bit reductions |
| Control.Pack565Fields | src/main.cpp:198 | the packed word fits in 16 bits, and each field reads back from its own bits |
| Control.Rgb565Fields | src/main.cpp:191-198 | a converted pixel reads back as its scaled red, green and blue |
| Control.DrawRGBBitmap | src/main.cpp:180-199 | buffer entry i is the RGB565 word of bytes 3i, 3i+1 and 3i+2, and entries past w·h are unchanged |
| Control.Controller.constructor | src/main.cpp:13-61 | the globals start at their static initial values; `displayClock` and `clockMode` are only declared `extern` at src/Web.cpp:12-13, and their definitions are not part of this model, so `false` and `0` are the zero-initialised defaults a C++ static of that type would have |
| Control.Controller.ShowMessage | src/main.cpp:237-240 | the message and its clear time are replaced; nothing else changes |
| Control.Controller.TurnOnDisplay | src/main.cpp:205-211 | the new state is `TurnedOn` of the old one |
| Control.Controller.OnEncoder1Button | src/main.cpp:213-223 | the new state is `Click1` of the old one |
| Control.Controller.OnEncoder2Button | src/main.cpp:225-235 | the new state is `Click2` of the old one |
| Control.Controller.Loop | src/main.cpp:81-160 | the new state is `LoopStep` of the old state and the two counters; both counters are 0 afterwards; the result says whether a frame was due |
| Control.Controller.AdvanceFrame | src/main.cpp:93-104 | the new state is `FrameStep` of the old one |
| Control.Controller.AutoAdvance | src/main.cpp:106-115 | the new state is `AutoStep` of the old one |
| Control.Controller.ConsumeEncoder1 | src/main.cpp:118-132 | the new state is `Encoder1Step` on the counter, and the counter is 0 |
| Control.Controller.TurnAnimation | src/main.cpp:119-130 | the new state is `Encoder1Step` for a non-zero turn, and the counter is reset to 0 between the frame reset and the message |
| Control.Controller.ConsumeEncoder2 | src/main.cpp:135-159 | the new state is `Encoder2Step` on the counter and the button, and the counter is 0 |
| Control.Controller.DragBrightness | src/main.cpp:137-146 | the new state is the pressed branch of `Encoder2Step` |
| Control.Controller.TurnInterval | src/main.cpp:148-157 | the new state is the released branch of `Encoder2Step` |
| Clocks.RotatedIndex | lib/Clocks/src/Clocks.cpp:72 | the rotated index is strictly inside (-perimeter, perimeter) and not negative for a non-negative index |
| Clocks.GetPerimeterXY | lib/Clocks/src/Clocks.cpp:66-91 | the cell of every non-negative index lies on the border of the centred ring |
| Clocks.FinalBranchUnreachable | lib/Clocks/src/Clocks.cpp:87-90 | the final `else` is never taken, negative indices included |
| Clocks.IndexZeroAtTop | lib/Clocks/src/Clocks.cpp:72-77 | index 0 is on the top row at column start + ringSize / 2 |
| Clocks.PerimeterIndexOf | lib/Clocks/src/Clocks.cpp:66-91 | the inverse map gives each border cell an index in [0, perimeter) |
| Clocks.PerimeterRoundTrip | lib/Clocks/src/Clocks.cpp:66-91 | every index in [0, perimeter) lands on the ring, and its cell maps back to the index |
| Clocks.PerimeterOnto | lib/Clocks/src/Clocks.cpp:66-91 | every border cell is the cell of its index |
| Clocks.PerimeterInjective | lib/Clocks/src/Clocks.cpp:66-91 | distinct indices in [0, perimeter) give distinct cells |
| Clocks.RingPositions | lib/Clocks/src/Clocks.cpp:106-108 | the rings of side 16, 14 and 12 span [0,16), [1,15) and [2,14), with 60, 52 and 44 positions |
| Clocks.DrawPerimeter | lib/Clocks/src/Clocks.cpp:49-63 | the four loops emit the top row, the right column, the bottom row and the left column in order |
| Clocks.PerimeterWalk | lib/Clocks/src/Clocks.cpp:49-63 | the walk draws two rows of `end - start` pixels and two columns of `end - start - 2`, all in the given colour |
| Clocks.PerimeterExactlyOnce | lib/Clocks/src/Clocks.cpp:49-63 | for side n ≥ 2 it draws 4n - 4 pixels: all on the border, all distinct, and every border cell among them |
| Clocks.DegeneratePerimeters | lib/Clocks/src/Clocks.cpp:49-63 | side 1 draws its cell twice, and side 0 draws nothing |
| Clocks.SecondIndex | lib/Clocks/src/Clocks.cpp:111 | the second position is in [0, 59] and equals the second below 60 |
| Clocks.MinuteIndex | lib/Clocks/src/Clocks.cpp:117 | the minute position is in [0, 51], with minute 0 at 0 and minute 59 at 51 |
| Clocks.HourIndex | lib/Clocks/src/Clocks.cpp:124-125 | the quarter-hour position is in [0, 43], with 0:00-0:14 at 0 and 11:45-11:59 at 43 |
| Clocks.QuarterMap | lib/Clocks/src/Clocks.cpp:125 | `map(q, 0, 47, 0, 43)` keeps [0, 47] inside [0, 43] |
| Clocks.MinuteMap | lib/Clocks/src/Clocks.cpp:117 | `map(m, 0, 59, 0, 51)` keeps [0, 59] inside [0, 51] |
| Clocks.DrawRingClock | lib/Clocks/src/Clocks.cpp:93-129 | no time gives no commands; otherwise clear, three ring backgrounds, then the second, minute and hour pixels |
| Clocks.RingHandsOnRings | lib/Clocks/src/Clocks.cpp:110-128 | for a valid time each hand pixel lies on its own ring |
| Clocks.RingHands | lib/Clocks/src/Clocks.cpp:110-128 | three pixel commands: the second, minute and hour hands in their own colours |
| Clocks.BarsClock | lib/Clocks/src/Clocks.cpp:131-170 | no time gives no commands; otherwise clear and the two grey bands come first |
| Clocks.BarsBody | lib/Clocks/src/Clocks.cpp:147-169 | three to six rectangles, each a one-row partial line or a full bar standing on the bottom band |
| Clocks.BarsLayout | lib/Clocks/src/Clocks.cpp:148-169 | hour bar 0..11, quarter line 0..3, full lines·5 + remainder = minute and second, and every bar within rows 2..13 when the second is at most 59 |
| Clocks.LeapSecondBar | lib/Clocks/src/Clocks.cpp:164-169 | at second 60 the seconds' partial line would sit on row 1, inside the top grey band, but it has width 0 (`fillRect(11, 1, 0, 1, …)`) and draws nothing |
| Clocks.Pad2 | lib/Clocks/src/Clocks.cpp:181-184 | the 3-byte buffer holds exactly two characters |
| Clocks.Pad2Digits | lib/Clocks/src/Clocks.cpp:182-184 | a value in 0..99 prints as its two digits, zero padded, which read back as the value |
| Clocks.DigitalClock | lib/Clocks/src/Clocks.cpp:172-198 | no time gives no commands |
| Clocks.DigitalLayout | lib/Clocks/src/Clocks.cpp:186-197 | the colon is printed iff the second is even; the hour is printed at (2, 0) and the minute at (2, 8), each as the two digits of its value |
| Clocks.DigitalScenario | lib/Clocks/src/Clocks.cpp:181-197 | 09:05:07 prints "09" and "05" and no colon |
| Web.ChecksCompose | src/Web.cpp:38-93 | the seven checks in handler order give the field-by-field update: no check undoes or depends on another |
| Web.Decide | src/Web.cpp:38-93 | each setting is decided exactly when its parameter is present and accepted, and a decided value is within the handler's bounds; animation, brightness, duration and clock mode are `toInt()` of their parameter, auto-switch and animation-enabled are "true" tests of theirs, and a mode is decided exactly for "clock" or "animation", to clock exactly for "clock" |
| Web.Apply | src/Web.cpp:38-93 | the decisions change only the settings: frame, loop timer, message and button flags are kept; an `int8_t` brightness stays one; each setting is its decision if there is one and its old value otherwise, and an animation change restarts the global timer |
| Web.ApplyWrites | src/Web.cpp:38-93 | for each of the seven settings, a present decision is written into its global (the brightness through `int8_t`) and an absent one keeps the global's value |
| Web.SetState | src/Web.cpp:36-95 | a request that earns no message changes nothing; the frame and the posted message are never changed |
| Web.SetMsg | src/Web.cpp:37-93 | the collected messages are empty exactly when no parameter produced one |
| Web.ReplyDefaultIff | src/Web.cpp:94 | the reply is "No valid parameters set." iff no parameter produced a message; otherwise it is the messages |
| Web.SetKeepsInv | src/Web.cpp:36-95 | `/set` keeps every field within its type and range, and leaves the frame as it is |
| Web.SetIdempotent | src/Web.cpp:36-95 | repeating a request changes nothing more |
| Web.SetLeavesLoopTimer | src/Web.cpp:43 | `/set` stamps the global timer on an accepted animation and leaves the loop's own timer, so whether auto-advance is due is unchanged unless the duration changed |
| Web.BrightnessStoredAsInt8 | src/Web.cpp:49-56 | `brightness=200` is accepted and stored as -56 |
| Web.AnimationObjects | src/Web.cpp:29 | there is one object per animation, in table order |
| Web.AnimationsJson | src/Web.cpp:25-33 | the reply is "[", the objects joined by commas, and "]" |
| Web.AnimationsJsonShape | src/Web.cpp:26-31 | the array holds exactly the five objects, with single commas only between them |
| Web.Reported | src/Web.cpp:99-107 | `/state` reports the seven keys in order; mode is "clock" iff the clock is displayed; autoSwitch is 1 or 0 |
| Web.StateTextMembers | src/Web.cpp:99-107 | the `/state` text is the seven members in order, comma separated, in braces |
| Web.StateText | src/Web.cpp:99-107 | the `/state` text is a braced object: it starts with `{` and ends with `}` |
| Web.StateTextAppended | src/Web.cpp:99-107 | the appended form the handler builds is the declarative `/state` text |
| Web.StateJson | src/Web.cpp:98-109 | the handler's string is the `/state` text of the current state |
| Web.ReportedParams | src/Web.cpp:100-106 | the reported values, as `/set` parameters, are the reported texts under the matching keys |
| Web.ReportedNumbers | src/Web.cpp:100-106 | the reported numbers read back through `toInt` as the state's values |
| Web.ReportedWords | src/Web.cpp:102-105 | the reported mode and auto-switch flag read back as the same settings |
| Web.StateRoundTrip | src/Web.cpp:38-106 | `/set` applied to what `/state` reported reproduces index, auto-switch, duration, mode, a non-negative brightness and a clock mode up to 3 |
| Web.HandleSet | src/Web.cpp:36-95 | the new state is `SetState` of the old state and the parameters, and the reply is the messages or the default text |
| Web.CheckAnimation | src/Web.cpp:38-48 | an index in [0, 5) is set with the global timer restarted and "Animation set. "; any other value appends "Invalid animation index. " |
| Web.CheckBrightness | src/Web.cpp:49-57 | a value in 0..255 is stored through `int8_t` with "Brightness set. "; any other appends "Invalid brightness. " |
| Web.CheckAutoSwitch | src/Web.cpp:58-62 | auto-advance becomes (value is "1" or "true"), always acknowledged |
| Web.CheckDuration | src/Web.cpp:63-71 | a value in 1..60 sets the interval with "Duration set. "; any other appends "Invalid duration. " |
| Web.CheckMode | src/Web.cpp:72-81 | "clock" and "animation" set the display mode with their messages; anything else changes and appends nothing |
| Web.CheckClockMode | src/Web.cpp:82-88 | a value in 0..3 is set with "Clock mode set. "; anything else is ignored silently |
| Web.CheckAnimationEnabled | src/Web.cpp:89-93 | animation becomes enabled iff the value is "1" or "true", always acknowledged |

## Left out

- The hardware is left out: `pinMode`, `digitalRead`, `attachInterruptArg` and `millis()`. Pin levels and the time are parameters of the handlers.
- FastLED and NeoMatrix output, `matrix->show`, `Serial.println` and `setup()` have no logical content in this model. `drawRGBBitmap`'s hand-off to the matrix library is left out as well.
- Interrupts are modelled as sequential method calls. Real concurrency between the encoder handlers and `loop()` is left out, and so is the `/set` handler, which runs on the asynchronous web server's task and can interleave with `loop()` between its checks.
- The frame delay (src/main.cpp:89-90) is computed in floating point from PROGMEM, so it is an input of `Loop`. `playCurrentFrame` is left out, since its drawing is address arithmetic into asset data. The animations' frame counts are a constant of the controller.
- `shadeOfGray` (src/main.cpp:82-83) is a cosmetic text fade and is left out.
- `drawAnalogClock` uses float trigonometry and is left out.
- `getLocalTime` and the NTP settings are an external time source. The `tm` fields, or their absence, are inputs.
- `src/WebPage.h` (the HTML page), `server.on`, `server.begin` and `AsyncWebServerRequest` are left out; only the handler bodies are modelled.
- A request is a map from the seven parameter names to one value each. Duplicate parameters and other parameters are not represented, because the handler never reads them.
- The long-press declarations in lib/Encoder/src/Encoder.h have no implementation, so there is nothing to model.
- `Control.Controller.Loop`: it is called with encoder 1 at most 5 detents back, a simple bound under which the index always stays in the animation table; it is sufficient, not exact. The index leaves the table only when `idx + c + 5 < 0` and that sum is not a multiple of 5: C's `%` then gives a negative remainder, and the `uint8_t` index wraps past the table, which the source then indexes out of bounds (index 4 turned 6 back still gives 3; index 0 turned 6 back gives 255). `NextIndex` states that exact edge and, with `Encoder1Step`, models the case as written.
- `Arduino.ToInt`: `long` overflow of `toInt` is not modelled; parsing is unbounded.
- The `int` counters and the `int` interval arithmetic are modelled unbounded, because only ±1 steps and values in [1, 60] reach them.
- `Arduino.ArduinoMap`: only the ascending input ranges the source uses are modelled (`inMin < inMax`).
- `Clocks.GetPerimeterXY`: it requires `ringSize >= 2`, since ring size 1 divides by a zero perimeter. The source only uses 16, 14 and 12.
- `Clocks.Color`: colours are the component triples passed to `matrix->Color`; their RGB565 packing inside the library is left out.
- JSON escaping is not modelled: the handlers do not escape, and the model writes names as they are.
- `Control.LoopStep`: one time `now` stands for all the `millis()` reads of an iteration (src/main.cpp:84, 93, 94, 107, 108 and the message stamps at 239), so time passing within one iteration is not modelled.
- `Control.DrawRGBBitmap`: it requires `w * h` to fit the buffer. The source writes a 256-entry buffer (src/main.cpp:49) through a `uint16_t` counter (src/main.cpp:183) without a check, so a bitmap larger than 16x16 would overrun it.

/** The control loop of src/main.cpp: the display state the globals hold,
    one iteration of `loop()` (frame advance, auto-advance, consumption of
    the two encoder counters), the two button callbacks, `turnOnDisplay`,
    `showMessage`, `minMax` and the RGB888 to RGB565 conversion of
    `drawRGBBitmap`.

    Each operation has a specification function on `DisplayState`, the
    value of all the globals, and the `Controller` methods, which update the
    globals one assignment at a time as the source does, are proved to
    compute it. The per-frame delay (computed in floating point from the
    animation's duration table) and the level of the second button are
    inputs of `Loop`; the frame counts of the animation table are a
    constant of the controller. */
module Control {
  import opened Arduino
  import RotaryEncoder

  const MAX_BRIGHTNESS: int := 90
  const TOTAL_ANIMATIONS: int := 5
  /** Every message is shown for 1000 ms. */
  const MESSAGE_MS: int := 1000
  /** One detent of encoder 2 with its button held changes brightness by 5. */
  const BRIGHTNESS_STEP: int := 5
  /** The brightness `turnOnDisplay` restores, before clamping. */
  const RESTORE_BRIGHTNESS: int := 50

  /** `minMax(val, minVal, maxVal)`. */
  function MinMax(v: int, lo: int, hi: int): (r: int)
    ensures lo <= hi ==> lo <= r <= hi
    ensures lo <= v <= hi ==> r == v
    ensures v < lo ==> r == lo
    ensures lo <= v && hi < v ==> r == hi
  {
    if v < lo then lo else if v > hi then hi else v
  }

  lemma MinMaxIdempotent(v: int, lo: int, hi: int)
    requires lo <= hi
    ensures MinMax(MinMax(v, lo, hi), lo, hi) == MinMax(v, lo, hi)
  {
  }

  /** The globals of main.cpp (and the two Web.cpp declares as external). */
  datatype DisplayState = DisplayState(
    animationIndex: int,          // currentAnimationIndex, uint8_t
    frame: int,                   // currentFrame, uint16_t
    lastFrameChangeTime: int,     // unsigned long
    lastAnimationChangeTime: int, // the global one, written only by /set
    loopTimerStarted: bool,       // whether loop()'s static local is initialised
    loopAnimationChangeTime: int, // loop()'s static local that shadows the global
    brightness: int,              // int8_t
    interval: int,                // animation_change_interval, seconds
    autoAdvance: bool,            // autoAdvanceEnabled
    animationEnabled: bool,
    ignoreEncoder1: bool,         // ignoreEncoder1Button
    ignoreEncoder2: bool,         // ignoreEncoder2Button
    message: string,
    messageClearTime: int,
    displayClock: bool,
    clockMode: int)               // uint8_t

  /** What every operation keeps: each global within its C type, a valid
      animation index and an interval in [1, 60]. */
  predicate Inv(s: DisplayState)
  {
    0 <= s.animationIndex < TOTAL_ANIMATIONS && 0 <= s.frame < U16 &&
    IsU32(s.lastFrameChangeTime) && IsU32(s.lastAnimationChangeTime) &&
    IsU32(s.loopAnimationChangeTime) && IsU32(s.messageClearTime) &&
    -128 <= s.brightness < 128 && 1 <= s.interval <= 60 && 0 <= s.clockMode < U8
  }

  /** The animation table's frame counts: one positive `uint16_t` per animation. */
  predicate ValidCounts(counts: seq<int>)
  {
    |counts| == TOTAL_ANIMATIONS && forall i :: 0 <= i < |counts| ==> 1 <= counts[i] < U16
  }

  predicate FrameInRange(s: DisplayState, counts: seq<int>)
    requires Inv(s) && ValidCounts(counts)
  {
    s.frame < counts[s.animationIndex]
  }

  predicate BrightnessInRange(s: DisplayState) { 0 <= s.brightness <= MAX_BRIGHTNESS }

  /** The clear time `showMessage(msg, 1000)` stamps. */
  function ClearTime(now: int): int { WrapAdd(now, MESSAGE_MS) }

  /** `turnOnDisplay`: afterwards the brightness is never 0; a zero brightness
      becomes min(50, MAX_BRIGHTNESS) and "50%" is posted, anything else is
      left as it is. */
  function TurnedOn(s: DisplayState, now: int): (r: DisplayState)
    ensures r.brightness != 0
    ensures Inv(s) ==> Inv(r)
    ensures s.brightness != 0 ==> r == s
    ensures s.brightness == 0 ==>
      r == s.(brightness := 50, message := "50%", messageClearTime := ClearTime(now))
  {
    if s.brightness == 0 then
      var b := MinMax(RESTORE_BRIGHTNESS, 0, MAX_BRIGHTNESS);
      s.(brightness := b, message := IntString(b) + "%", messageClearTime := ClearTime(now))
    else s
  }

  // ---- loop() ----

  /** The first iteration initialises the static local timer. */
  function StartTimer(s: DisplayState, now: int): (r: DisplayState)
    ensures r.brightness == s.brightness && r.animationIndex == s.animationIndex && r.frame == s.frame
    ensures s.loopTimerStarted ==> r == s
    ensures !s.loopTimerStarted ==> r == s.(loopTimerStarted := true, loopAnimationChangeTime := now)
    ensures r.loopTimerStarted && LoopUntouched(s, r) && Settings(r) == Settings(s)
  {
    if s.loopTimerStarted then s else s.(loopTimerStarted := true, loopAnimationChangeTime := now)
  }

  predicate FrameDue(s: DisplayState, now: int, delay: int)
  {
    WrapSub(now, s.lastFrameChangeTime) >= delay
  }

  /** The frame advance: when the delay has passed the time is stamped (and
      the frame played); the frame moves on, wrapping to 0 at the frame
      count, only while animation is enabled. */
  function FrameStep(s: DisplayState, now: int, delay: int, count: int): (r: DisplayState)
    requires 1 <= count < U16 && 0 <= s.frame < U16
    ensures 0 <= r.frame < U16
    ensures Inv(s) && IsU32(now) ==> Inv(r)
    ensures r.brightness == s.brightness && r.animationIndex == s.animationIndex
    ensures r.(frame := s.frame, lastFrameChangeTime := s.lastFrameChangeTime) == s
    ensures !FrameDue(s, now, delay) ==> r == s
    ensures FrameDue(s, now, delay) ==> r.lastFrameChangeTime == now
    ensures FrameDue(s, now, delay) && s.animationEnabled ==> r.frame < count
    ensures FrameDue(s, now, delay) && s.animationEnabled && s.frame + 1 < count ==> r.frame == s.frame + 1
    ensures FrameDue(s, now, delay) && s.animationEnabled && s.frame + 1 >= count ==> r.frame == 0
    ensures r.loopTimerStarted == s.loopTimerStarted && LoopUntouched(s, r) && Settings(r) == Settings(s)
    ensures !s.animationEnabled ==> r.frame == s.frame
  {
    if FrameDue(s, now, delay) then
      s.(lastFrameChangeTime := now, frame := if s.animationEnabled then NextFrame(s.frame, count) else s.frame)
    else s
  }

  /** `currentFrame++` on the `uint16_t`, back to 0 at the frame count. */
  function NextFrame(frame: int, count: int): (f: int)
    requires 1 <= count < U16 && 0 <= frame < U16
    ensures 0 <= f < count
    ensures frame + 1 < count ==> f == frame + 1
    ensures frame + 1 >= count ==> f == 0
  {
    var g := ToU16(frame + 1);
    if g >= count then 0 else g
  }

  predicate AutoDue(s: DisplayState, now: int)
  {
    WrapSub(now, s.loopAnimationChangeTime) >= s.interval * 1000
  }

  /** The auto-advance: when the interval has passed the timer is always
      reset; the animation moves on (and the frame goes back to 0) only while
      both auto-advance and animation are enabled. */
  function AutoStep(s: DisplayState, now: int): (r: DisplayState)
    requires 0 <= s.animationIndex < TOTAL_ANIMATIONS
    ensures 0 <= r.animationIndex < TOTAL_ANIMATIONS
    ensures Inv(s) && IsU32(now) ==> Inv(r)
    ensures r.brightness == s.brightness
    ensures !AutoDue(s, now) ==> r == s
    ensures AutoDue(s, now) ==> r.loopAnimationChangeTime == now
    ensures AutoDue(s, now) && s.autoAdvance && s.animationEnabled ==>
      r == s.(loopAnimationChangeTime := now, animationIndex := (s.animationIndex + 1) % TOTAL_ANIMATIONS, frame := 0)
    ensures !(s.autoAdvance && s.animationEnabled) ==> r == s.(loopAnimationChangeTime := r.loopAnimationChangeTime)
    ensures r.loopTimerStarted == s.loopTimerStarted && LoopUntouched(s, r) && Settings(r) == Settings(s)
  {
    if AutoDue(s, now) then
      var t := s.(loopAnimationChangeTime := now);
      if s.autoAdvance && s.animationEnabled then
        t.(animationIndex := (s.animationIndex + 1) % TOTAL_ANIMATIONS, frame := 0)
      else t
    else s
  }

  /** `(currentAnimationIndex + enc1_counter + TOTAL_ANIMATIONS) % TOTAL_ANIMATIONS`
      stored into a `uint8_t`, with C's truncating `%`. It is the mathematical
      remainder when the sum is not negative, and it is a valid index exactly
      then or when the negative sum is a multiple of 5; otherwise it lands in
      252..255. */
  function NextIndex(idx: int, c: int): (r: int)
    ensures 0 <= r < U8
    ensures idx + c + TOTAL_ANIMATIONS >= 0 ==> r == (idx + c + TOTAL_ANIMATIONS) % TOTAL_ANIMATIONS
    ensures r < TOTAL_ANIMATIONS <==>
      (idx + c + TOTAL_ANIMATIONS >= 0 || (idx + c + TOTAL_ANIMATIONS) % TOTAL_ANIMATIONS == 0)
  {
    ToU8(CRem(idx + c + TOTAL_ANIMATIONS, TOTAL_ANIMATIONS))
  }

  /** Encoder 1 turned by `c` detents: the display is turned on, the
      animation index moves by `c` modulo 5, the frame restarts, and the new
      1-based index is posted unless auto-advance is on. */
  function Encoder1Step(s: DisplayState, c: int, now: int): (r: DisplayState)
    ensures Inv(s) && c >= -TOTAL_ANIMATIONS ==> Inv(r)
    ensures c == 0 ==> r == s
    ensures c != 0 ==> r.frame == 0 && r.animationIndex == NextIndex(s.animationIndex, c)
    ensures c != 0 && !s.autoAdvance ==>
      r.message == IntString(r.animationIndex + 1) && r.messageClearTime == ClearTime(now)
    ensures c != 0 ==> r.brightness == TurnedOn(s, now).brightness && r.interval == s.interval
    ensures r.loopTimerStarted == s.loopTimerStarted && LoopUntouched(s, r)
    ensures c != 0 && s.autoAdvance ==>
      r == TurnedOn(s, now).(animationIndex := NextIndex(s.animationIndex, c), frame := 0)
    ensures c != 0 && !s.autoAdvance ==>
      r == TurnedOn(s, now).(animationIndex := NextIndex(s.animationIndex, c), frame := 0,
                             message := IntString(NextIndex(s.animationIndex, c) + 1),
                             messageClearTime := ClearTime(now))
  {
    if c == 0 then s
    else
      var t := TurnedOn(s, now);
      var i := NextIndex(t.animationIndex, c);
      var u := t.(animationIndex := i, frame := 0);
      if !u.autoAdvance then u.(message := IntString(i + 1), messageClearTime := ClearTime(now)) else u
  }

  /** `brightness += enc2_counter * 5` on an `int8_t`, then `minMax` to
      [0, MAX_BRIGHTNESS]. When the sum fits in 8 bits this is the clamped
      sum; a larger sum wraps around first. */
  function AdjustBrightness(b: int, c: int): (r: int)
    ensures 0 <= r <= MAX_BRIGHTNESS
    ensures -128 <= b + c * BRIGHTNESS_STEP < 128 ==> r == MinMax(b + c * BRIGHTNESS_STEP, 0, MAX_BRIGHTNESS)
  {
    MinMax(ToInt8(b + c * BRIGHTNESS_STEP), 0, MAX_BRIGHTNESS)
  }

  /** `animation_change_interval += enc2_counter`, then `minMax` to [1, 60]. */
  function AdjustInterval(i: int, c: int): (r: int)
    ensures 1 <= r <= 60
    ensures 1 <= i + c <= 60 ==> r == i + c
    ensures i + c < 1 ==> r == 1
    ensures i + c > 60 ==> r == 60
  {
    MinMax(i + c, 1, 60)
  }

  /** Encoder 2 turned by `c` detents. With its button held it adjusts the
      brightness, posts "<b>%" and arms the suppression of the next click;
      otherwise it turns the display on, adjusts the interval and posts
      "<i>s". */
  function Encoder2Step(s: DisplayState, c: int, pressed: bool, now: int): (r: DisplayState)
    ensures Inv(s) ==> Inv(r)
    ensures r.frame == s.frame && r.animationIndex == s.animationIndex
    ensures c == 0 ==> r == s
    ensures r.loopTimerStarted == s.loopTimerStarted && LoopUntouched(s, r)
    ensures c != 0 && pressed ==>
      r == s.(ignoreEncoder2 := true, brightness := AdjustBrightness(s.brightness, c),
              message := IntString(AdjustBrightness(s.brightness, c)) + "%", messageClearTime := ClearTime(now))
    ensures c != 0 && !pressed ==>
      r.interval == AdjustInterval(s.interval, c) && r.brightness == TurnedOn(s, now).brightness &&
      r.message == IntString(r.interval) + "s" && r.ignoreEncoder2 == s.ignoreEncoder2
    ensures c != 0 && !pressed ==>
      r == TurnedOn(s, now).(interval := AdjustInterval(s.interval, c),
                             message := IntString(AdjustInterval(s.interval, c)) + "s",
                             messageClearTime := ClearTime(now))
  {
    if c == 0 then s
    else if pressed then
      var b := AdjustBrightness(s.brightness, c);
      s.(ignoreEncoder2 := true, brightness := b, message := IntString(b) + "%", messageClearTime := ClearTime(now))
    else
      var t := TurnedOn(s, now);
      var i := AdjustInterval(t.interval, c);
      t.(interval := i, message := IntString(i) + "s", messageClearTime := ClearTime(now))
  }

  /** One iteration of `loop()` given the two counters, the level of the
      second button, the time and the current frame's delay. Afterwards the
      static timer is initialised; the loop never writes the global
      `lastAnimationChangeTime` (its static local shadows it), the clock
      settings or the first button's suppression; and when neither encoder
      moved, no message is posted and no setting changes. */
  function LoopStep(s: DisplayState, c1: int, c2: int, pressed2: bool, now: int, delay: int, counts: seq<int>): (r: DisplayState)
    requires Inv(s) && ValidCounts(counts)
    ensures r.loopTimerStarted
    ensures LoopUntouched(s, r)
    ensures c1 == 0 && c2 == 0 ==> Settings(r) == Settings(s)
  {
    var s0 := StartTimer(s, now);
    var s1 := FrameStep(s0, now, delay, counts[s0.animationIndex]);
    var s2 := AutoStep(s1, now);
    var s3 := Encoder1Step(s2, c1, now);
    Encoder2Step(s3, c2, pressed2, now)
  }

  /** The globals `loop()` never writes. */
  predicate LoopUntouched(s: DisplayState, r: DisplayState)
  {
    r.lastAnimationChangeTime == s.lastAnimationChangeTime && r.displayClock == s.displayClock &&
    r.clockMode == s.clockMode && r.ignoreEncoder1 == s.ignoreEncoder1
  }

  /** The globals only the encoders and buttons change: the posted message
      and the user's settings. */
  function Settings(s: DisplayState): (string, int, int, int, bool, bool, bool)
  {
    (s.message, s.messageClearTime, s.brightness, s.interval, s.autoAdvance, s.animationEnabled, s.ignoreEncoder2)
  }

  /** Whether an iteration plays a frame. */
  predicate LoopPlays(s: DisplayState, now: int, delay: int)
  {
    FrameDue(StartTimer(s, now), now, delay)
  }

  // ---- Button callbacks ----

  /** `onEncoder1Button`: unless suppressed, toggles auto-advance, posts ">>"
      or the (0-based) index, and turns the display on. */
  function Click1(s: DisplayState, now: int): (r: DisplayState)
    ensures Inv(s) ==> Inv(r)
    ensures r.animationIndex == s.animationIndex && r.frame == s.frame
    ensures r.interval == s.interval && r.animationEnabled == s.animationEnabled
    ensures s.ignoreEncoder1 ==> r == s.(ignoreEncoder1 := false)
    ensures !s.ignoreEncoder1 ==>
      r.autoAdvance == !s.autoAdvance && r.brightness != 0 && !r.ignoreEncoder1 &&
      r.messageClearTime == ClearTime(now)
    ensures !s.ignoreEncoder1 && s.brightness != 0 ==>
      r.message == (if r.autoAdvance then ">>" else IntString(s.animationIndex))
    ensures !s.ignoreEncoder1 && s.brightness == 0 ==> r.message == "50%"
    ensures !s.ignoreEncoder1 && s.brightness != 0 ==>
      r == s.(autoAdvance := !s.autoAdvance, message := if !s.autoAdvance then ">>" else IntString(s.animationIndex),
              messageClearTime := ClearTime(now))
    ensures !s.ignoreEncoder1 && s.brightness == 0 ==>
      r == s.(autoAdvance := !s.autoAdvance, brightness := 50, message := "50%", messageClearTime := ClearTime(now))
  {
    if s.ignoreEncoder1 then s.(ignoreEncoder1 := false)
    else
      var a := !s.autoAdvance;
      var m := if a then ">>" else IntString(s.animationIndex);
      TurnedOn(s.(autoAdvance := a, message := m, messageClearTime := ClearTime(now)), now)
  }

  /** `onEncoder2Button`: a suppressed click only clears the flag; otherwise
      animation is toggled and the display turned on. */
  function Click2(s: DisplayState, now: int): (r: DisplayState)
    ensures Inv(s) ==> Inv(r)
    ensures r.animationIndex == s.animationIndex && r.frame == s.frame
    ensures r.interval == s.interval && r.autoAdvance == s.autoAdvance
    ensures s.ignoreEncoder2 ==> r == s.(ignoreEncoder2 := false)
    ensures !s.ignoreEncoder2 ==>
      r.animationEnabled == !s.animationEnabled && r.brightness != 0 && !r.ignoreEncoder2
    ensures !s.ignoreEncoder2 && s.brightness != 0 ==> r == s.(animationEnabled := !s.animationEnabled)
    ensures !s.ignoreEncoder2 && s.brightness == 0 ==>
      r == s.(animationEnabled := !s.animationEnabled, brightness := 50, message := "50%", messageClearTime := ClearTime(now))
  {
    if s.ignoreEncoder2 then s.(ignoreEncoder2 := false)
    else TurnedOn(s.(animationEnabled := !s.animationEnabled), now)
  }

  // ---- Properties ----

  /** Every iteration keeps the invariant, provided encoder 1 did not count
      more than 5 detents backwards (beyond that the index leaves the table). */
  lemma LoopKeepsInv(s: DisplayState, c1: int, c2: int, pressed2: bool, now: int, delay: int, counts: seq<int>)
    requires Inv(s) && ValidCounts(counts) && IsU32(now) && c1 >= -TOTAL_ANIMATIONS
    ensures Inv(LoopStep(s, c1, c2, pressed2, now, delay, counts))
  {
    var s0 := StartTimer(s, now);
    assert Inv(s0);
  }

  /** The frame stays below the current animation's frame count. */
  lemma LoopKeepsFrameInRange(s: DisplayState, c1: int, c2: int, pressed2: bool, now: int, delay: int, counts: seq<int>)
    requires Inv(s) && ValidCounts(counts) && IsU32(now) && c1 >= -TOTAL_ANIMATIONS
    requires FrameInRange(s, counts)
    ensures Inv(LoopStep(s, c1, c2, pressed2, now, delay, counts))
    ensures FrameInRange(LoopStep(s, c1, c2, pressed2, now, delay, counts), counts)
  {
    LoopKeepsInv(s, c1, c2, pressed2, now, delay, counts);
    var s0 := StartTimer(s, now);
    assert Inv(s0) && FrameInRange(s0, counts);
    var s1 := FrameStep(s0, now, delay, counts[s0.animationIndex]);
    assert Inv(s1) && s1.animationIndex == s0.animationIndex;
    assert FrameInRange(s1, counts);
    var s2 := AutoStep(s1, now);
    assert Inv(s2) && FrameInRange(s2, counts);
    var s3 := Encoder1Step(s2, c1, now);
    assert Inv(s3) && FrameInRange(s3, counts);
  }

  /** A frame out of range (as `/set` can leave it) is repaired by the next
      frame advance while animation is enabled. */
  lemma FrameAdvanceRepairs(s: DisplayState, now: int, delay: int, counts: seq<int>)
    requires Inv(s) && ValidCounts(counts) && IsU32(now)
    requires FrameDue(s, now, delay) && s.animationEnabled
    ensures Inv(FrameStep(s, now, delay, counts[s.animationIndex]))
    ensures FrameInRange(FrameStep(s, now, delay, counts[s.animationIndex]), counts)
  {
  }

  /** Brightness in [0, MAX_BRIGHTNESS] stays there across every iteration. */
  lemma LoopKeepsBrightness(s: DisplayState, c1: int, c2: int, pressed2: bool, now: int, delay: int, counts: seq<int>)
    requires Inv(s) && ValidCounts(counts) && BrightnessInRange(s)
    ensures BrightnessInRange(LoopStep(s, c1, c2, pressed2, now, delay, counts))
  {
    var s0 := StartTimer(s, now);
    var s1 := FrameStep(s0, now, delay, counts[s0.animationIndex]);
    var s2 := AutoStep(s1, now);
    assert BrightnessInRange(s2);
    Encoder1KeepsBrightness(s2, c1, now);
    Encoder2KeepsBrightness(Encoder1Step(s2, c1, now), c2, pressed2, now);
  }

  lemma Encoder1KeepsBrightness(s: DisplayState, c: int, now: int)
    requires BrightnessInRange(s)
    ensures BrightnessInRange(Encoder1Step(s, c, now))
  {
  }

  lemma Encoder2KeepsBrightness(s: DisplayState, c: int, pressed: bool, now: int)
    requires BrightnessInRange(s)
    ensures BrightnessInRange(Encoder2Step(s, c, pressed, now))
  {
  }

  /** Any click that is not suppressed, a turn of encoder 1, and a turn of
      encoder 2 with its button released all bring a zero brightness back
      to 50. */
  lemma ActivityRestoresBrightness(s: DisplayState, c: int, now: int)
    requires s.brightness == 0
    ensures !s.ignoreEncoder1 ==> Click1(s, now).brightness == 50
    ensures !s.ignoreEncoder2 ==> Click2(s, now).brightness == 50
    ensures c != 0 ==> Encoder1Step(s, c, now).brightness == 50
    ensures c != 0 ==> Encoder2Step(s, c, false, now).brightness == 50
  {
  }

  /** Two unsuppressed clicks of button 1 restore auto-advance. */
  lemma Click1Twice(s: DisplayState, t1: int, t2: int)
    requires !s.ignoreEncoder1
    ensures Click1(Click1(s, t1), t2).autoAdvance == s.autoAdvance
    ensures Click1(s, t1).autoAdvance == !s.autoAdvance
  {
  }

  /** A brightness adjustment suppresses exactly the next click of button 2:
      that click changes nothing but the flag, the one after toggles. */
  lemma BrightnessDragSuppressesOneClick(s: DisplayState, c: int, now: int, t1: int, t2: int)
    requires c != 0
    ensures var d := Encoder2Step(s, c, true, now);
      Click2(d, t1) == d.(ignoreEncoder2 := false) &&
      Click2(Click2(d, t1), t2).animationEnabled == !s.animationEnabled
  {
  }

  /** Scenario: index 2, one detent forward, auto-advance off: index 3, frame
      0, message "4". */
  lemma Encoder1Scenario(s: DisplayState, now: int)
    requires s.animationIndex == 2 && !s.autoAdvance && s.brightness == 90
    ensures Encoder1Step(s, 1, now).animationIndex == 3
    ensures Encoder1Step(s, 1, now).frame == 0
    ensures Encoder1Step(s, 1, now).message == "4"
  {
  }

  /** Scenario: brightness 50, two detents back with the button held:
      brightness 40, message "40%", the next click suppressed. */
  lemma Encoder2Scenario(s: DisplayState, now: int)
    requires s.brightness == 50
    ensures Encoder2Step(s, -2, true, now).brightness == 40
    ensures Encoder2Step(s, -2, true, now).message == "40%"
    ensures Encoder2Step(s, -2, true, now).ignoreEncoder2
  {
  }

  /** Because brightness is an `int8_t`, eight detents up from 90 wrap to
      -126 before clamping, leaving the display at 0. */
  lemma BrightnessWrapScenario()
    ensures AdjustBrightness(90, 8) == 0
    ensures AdjustBrightness(90, 7) == 90
  {
  }

  /** Scenario: an interval of 10 s elapsed exactly, auto-advance and
      animation on: the animation advances and the frame restarts. */
  lemma AutoAdvanceScenario(s: DisplayState, now: int)
    requires Inv(s) && s.interval == 10 && s.autoAdvance && s.animationEnabled
    requires IsU32(now) && WrapSub(now, s.loopAnimationChangeTime) == 10000
    ensures AutoStep(s, now).animationIndex == (s.animationIndex + 1) % TOTAL_ANIMATIONS
    ensures AutoStep(s, now).frame == 0
  {
  }

  // ---- RGB565 ----

  /** A colour byte reduced to 5 bits, the value `map(x, 0, 255, 0, 31)` gives. */
  function To5Bits(x: int): (r: int)
    requires 0 <= x < U8
    ensures 0 <= r < 32
    ensures x == 0 ==> r == 0
    ensures x == 255 ==> r == 31
  {
    x * 31 / 255
  }

  /** A colour byte reduced to 6 bits, the value `map(x, 0, 255, 0, 63)` gives. */
  function To6Bits(x: int): (r: int)
    requires 0 <= x < U8
    ensures 0 <= r < 64
    ensures x == 0 ==> r == 0
    ensures x == 255 ==> r == 63
  {
    x * 63 / 255
  }

  /** Arduino's `map` onto 5 and 6 bits computes exactly these reductions. */
  lemma MapReducesColour(x: int)
    requires 0 <= x < U8
    ensures ArduinoMap(x, 0, 255, 0, 31) == To5Bits(x)
    ensures ArduinoMap(x, 0, 255, 0, 63) == To6Bits(x)
  {
    ArduinoMapBounds(x, 255, 31);
    ArduinoMapBounds(x, 255, 63);
  }

  /** `(r << 11) | (g << 5) | b` into a `uint16_t`: the three fields occupy
      disjoint bits, so the OR is their sum. */
  function Pack565(r: int, g: int, b: int): int
    requires 0 <= r < 32 && 0 <= g < 64 && 0 <= b < 32
  {
    r * 2048 + g * 32 + b
  }

  /** The packed word is a `uint16_t` and keeps each field in its own bits. */
  lemma Pack565Fields(r: int, g: int, b: int)
    requires 0 <= r < 32 && 0 <= g < 64 && 0 <= b < 32
    ensures 0 <= Pack565(r, g, b) < U16
    ensures Pack565(r, g, b) / 2048 == r
    ensures (Pack565(r, g, b) / 32) % 64 == g
    ensures Pack565(r, g, b) % 32 == b
  {
    var w := Pack565(r, g, b);
    assert w == (r * 64 + g) * 32 + b;
    assert w / 32 == r * 64 + g;
    assert w == r * 2048 + (g * 32 + b) && 0 <= g * 32 + b < 2048;
  }

  /** The RGB565 word of one RGB888 pixel. */
  function Rgb565(r: int, g: int, b: int): int
    requires 0 <= r < U8 && 0 <= g < U8 && 0 <= b < U8
  {
    Pack565(To5Bits(r), To6Bits(g), To5Bits(b))
  }

  /** Reading back the fields of a converted pixel gives the scaled
      components: red and blue in [0, 31], green in [0, 63]. */
  lemma Rgb565Fields(r: int, g: int, b: int)
    requires 0 <= r < U8 && 0 <= g < U8 && 0 <= b < U8
    ensures 0 <= Rgb565(r, g, b) < U16
    ensures Rgb565(r, g, b) / 2048 == To5Bits(r)
    ensures (Rgb565(r, g, b) / 32) % 64 == To6Bits(g)
    ensures Rgb565(r, g, b) % 32 == To5Bits(b)
  {
    Pack565Fields(To5Bits(r), To6Bits(g), To5Bits(b));
  }

  predicate IsBytes(s: seq<int>) { forall i :: 0 <= i < |s| ==> 0 <= s[i] < U8 }

  /** Pixel `i` of an RGB888 bitmap (bytes 3i, 3i+1, 3i+2) as RGB565. */
  function PixelAt(bitmap: seq<int>, i: int): int
    requires IsBytes(bitmap) && 0 <= i && 3 * i + 2 < |bitmap|
  {
    Rgb565(bitmap[3 * i], bitmap[3 * i + 1], bitmap[3 * i + 2])
  }

  /** The conversion loop of `drawRGBBitmap` into the `RGB_bmp_fixed` buffer;
      the hand-off to the matrix library is left out. */
  method DrawRGBBitmap(bitmap: seq<int>, w: int, h: int, buf: array<int>)
    requires IsBytes(bitmap) && 0 <= w && 0 <= h
    requires w * h <= buf.Length && 3 * (w * h) <= |bitmap|
    modifies buf
    ensures forall i :: 0 <= i < w * h ==> buf[i] == PixelAt(bitmap, i)
    ensures forall i :: w * h <= i < buf.Length ==> buf[i] == old(buf[i])
  {
    var n := w * h;
    var byteIndex := 0;
    var pixel := 0;
    while pixel < n
      invariant 0 <= pixel <= n && byteIndex == 3 * pixel
      invariant forall i :: 0 <= i < pixel ==> buf[i] == PixelAt(bitmap, i)
      invariant forall i :: n <= i < buf.Length ==> buf[i] == old(buf[i])
    {
      var r := bitmap[byteIndex];
      var g := bitmap[byteIndex + 1];
      var b := bitmap[byteIndex + 2];
      byteIndex := byteIndex + 3;
      var b5 := ArduinoMap(b, 0, 255, 0, 31);
      var g6 := ArduinoMap(g, 0, 255, 0, 63);
      var r5 := ArduinoMap(r, 0, 255, 0, 31);
      MapReducesColour(r);
      MapReducesColour(g);
      MapReducesColour(b);
      buf[pixel] := Pack565(r5, g6, b5);
      pixel := pixel + 1;
    }
  }

  // ---- The globals as an object ----

  class Controller {
    /** The frame count of each animation in `allAnimations`. */
    const frameCounts: seq<int>
    /** `enc1_counter` and `enc2_counter`, shared with the encoders. */
    const enc1: RotaryEncoder.Counter
    const enc2: RotaryEncoder.Counter

    var currentAnimationIndex: int
    var currentFrame: int
    var lastFrameChangeTime: int
    var lastAnimationChangeTime: int
    var loopTimerStarted: bool
    var loopAnimationChangeTime: int
    var brightness: int
    var animationChangeInterval: int
    var autoAdvanceEnabled: bool
    var animationEnabled: bool
    var ignoreEncoder1Button: bool
    var ignoreEncoder2Button: bool
    var message: string
    var messageClearTime: int
    var displayClock: bool
    var clockMode: int

    function State(): DisplayState
      reads this
    {
      DisplayState(currentAnimationIndex, currentFrame, lastFrameChangeTime, lastAnimationChangeTime,
                   loopTimerStarted, loopAnimationChangeTime, brightness, animationChangeInterval,
                   autoAdvanceEnabled, animationEnabled, ignoreEncoder1Button, ignoreEncoder2Button,
                   message, messageClearTime, displayClock, clockMode)
    }

    ghost predicate Valid()
      reads this
    {
      ValidCounts(frameCounts) && enc1 != enc2 && Inv(State())
    }

    /** The static initialisers of main.cpp; `bootTime` is the `millis()`
        reading the global `lastAnimationChangeTime` starts with. */
    constructor (frameCounts: seq<int>, enc1: RotaryEncoder.Counter, enc2: RotaryEncoder.Counter, bootTime: int)
      requires ValidCounts(frameCounts) && enc1 != enc2 && IsU32(bootTime)
      ensures Valid()
      ensures this.frameCounts == frameCounts && this.enc1 == enc1 && this.enc2 == enc2
      ensures State() == DisplayState(0, 0, 0, bootTime, false, 0, MAX_BRIGHTNESS, 5,
                                      true, true, false, false, "", 0, false, 0)
    {
      this.frameCounts := frameCounts;
      this.enc1 := enc1;
      this.enc2 := enc2;
      currentAnimationIndex := 0;
      currentFrame := 0;
      lastFrameChangeTime := 0;
      lastAnimationChangeTime := bootTime;
      loopTimerStarted := false;
      loopAnimationChangeTime := 0;
      brightness := MAX_BRIGHTNESS;
      animationChangeInterval := 5;
      autoAdvanceEnabled := true;
      animationEnabled := true;
      ignoreEncoder1Button := false;
      ignoreEncoder2Button := false;
      message := "";
      messageClearTime := 0;
      displayClock := false;
      clockMode := 0;
    }

    /** `showMessage(msg, duration_ms)`: one message at a time, the later
        overwriting the earlier. */
    method ShowMessage(msg: string, durationMs: int, now: int)
      modifies this
      ensures State() == old(State()).(message := msg, messageClearTime := WrapAdd(now, durationMs))
    {
      message := msg;
      messageClearTime := WrapAdd(now, durationMs);
    }

    method TurnOnDisplay(now: int)
      modifies this
      ensures State() == TurnedOn(old(State()), now)
    {
      if brightness == 0 {
        brightness := MinMax(RESTORE_BRIGHTNESS, 0, MAX_BRIGHTNESS);
        ShowMessage(IntString(brightness) + "%", MESSAGE_MS, now);
      }
    }

    method OnEncoder1Button(now: int)
      requires Valid()
      modifies this
      ensures Valid()
      ensures State() == Click1(old(State()), now)
    {
      if ignoreEncoder1Button {
        ignoreEncoder1Button := false;
        return;
      }
      autoAdvanceEnabled := !autoAdvanceEnabled;
      ShowMessage(if autoAdvanceEnabled then ">>" else IntString(currentAnimationIndex), MESSAGE_MS, now);
      TurnOnDisplay(now);
    }

    method OnEncoder2Button(now: int)
      requires Valid()
      modifies this
      ensures Valid()
      ensures State() == Click2(old(State()), now)
    {
      if ignoreEncoder2Button {
        ignoreEncoder2Button := false;
        return;
      }
      animationEnabled := !animationEnabled;
      TurnOnDisplay(now);
    }

    /** One iteration of `loop()`. Both counters are 0 afterwards; the result
        says whether a frame was played. */
    method Loop(now: int, delay: int, pressed2: bool) returns (played: bool)
      requires Valid() && IsU32(now) && enc1.value >= -TOTAL_ANIMATIONS
      modifies this, enc1, enc2
      ensures Valid()
      ensures State() == LoopStep(old(State()), old(enc1.value), old(enc2.value), pressed2, now, delay, frameCounts)
      ensures played == LoopPlays(old(State()), now, delay)
      ensures enc1.value == 0 && enc2.value == 0
    {
      if !loopTimerStarted {
        loopTimerStarted := true;
        loopAnimationChangeTime := now;
      }
      played := AdvanceFrame(now, delay);
      AutoAdvance(now);
      ConsumeEncoder1(now);
      ConsumeEncoder2(now, pressed2);
    }

    /** The frame-advance check of `loop()`. */
    method AdvanceFrame(now: int, delay: int) returns (played: bool)
      requires Valid() && IsU32(now)
      modifies this
      ensures Valid()
      ensures State() == FrameStep(old(State()), now, delay, frameCounts[old(currentAnimationIndex)])
      ensures played == FrameDue(old(State()), now, delay)
    {
      played := WrapSub(now, lastFrameChangeTime) >= delay;
      if played {
        lastFrameChangeTime := now;
        if animationEnabled {
          currentFrame := ToU16(currentFrame + 1);
          if currentFrame >= frameCounts[currentAnimationIndex] {
            currentFrame := 0;
          }
        }
      }
    }

    /** The auto-advance check of `loop()`, on the static local timer. */
    method AutoAdvance(now: int)
      requires Valid() && IsU32(now)
      modifies this
      ensures Valid()
      ensures State() == AutoStep(old(State()), now)
    {
      if WrapSub(now, loopAnimationChangeTime) >= animationChangeInterval * 1000 {
        loopAnimationChangeTime := now;
        if autoAdvanceEnabled && animationEnabled {
          currentAnimationIndex := (currentAnimationIndex + 1) % TOTAL_ANIMATIONS;
          currentFrame := 0;
        }
      }
    }

    /** Encoder 1 selects the animation. */
    method ConsumeEncoder1(now: int)
      requires Valid() && IsU32(now) && enc1.value >= -TOTAL_ANIMATIONS
      modifies this, enc1
      ensures Valid()
      ensures State() == Encoder1Step(old(State()), old(enc1.value), now)
      ensures enc1.value == 0
    {
      if enc1.value != 0 {
        TurnAnimation(enc1.value, now);
      }
    }

    /** The first encoder turned: the animation, with the counter reset in
        between, after the frame and before the message. */
    method TurnAnimation(c: int, now: int)
      requires Valid() && IsU32(now) && c != 0 && c >= -TOTAL_ANIMATIONS
      modifies this, enc1
      ensures Valid()
      ensures State() == Encoder1Step(old(State()), c, now)
      ensures enc1.value == 0
    {
      TurnOnDisplay(now);
      currentAnimationIndex := NextIndex(currentAnimationIndex, c);
      currentFrame := 0;
      enc1.value := 0;
      if !autoAdvanceEnabled {
        ShowMessage(IntString(currentAnimationIndex + 1), MESSAGE_MS, now);
      }
    }

    /** Encoder 2 sets the brightness while its button is held, the interval
        otherwise. */
    method ConsumeEncoder2(now: int, pressed2: bool)
      requires Valid() && IsU32(now)
      modifies this, enc2
      ensures Valid()
      ensures State() == Encoder2Step(old(State()), old(enc2.value), pressed2, now)
      ensures enc2.value == 0
    {
      if enc2.value != 0 {
        if pressed2 {
          DragBrightness(enc2.value, now);
        } else {
          TurnInterval(enc2.value, now);
        }
        enc2.value := 0;
      }
    }

    /** The second encoder turned with its button held: the brightness. */
    method DragBrightness(c: int, now: int)
      requires Valid() && IsU32(now) && c != 0
      modifies this
      ensures Valid()
      ensures State() == Encoder2Step(old(State()), c, true, now)
    {
      ignoreEncoder2Button := true;
      brightness := ToInt8(brightness + c * BRIGHTNESS_STEP);
      brightness := MinMax(brightness, 0, MAX_BRIGHTNESS);
      ShowMessage(IntString(brightness) + "%", MESSAGE_MS, now);
    }

    /** The second encoder turned alone: the auto-advance interval. */
    method TurnInterval(c: int, now: int)
      requires Valid() && IsU32(now) && c != 0
      modifies this
      ensures Valid()
      ensures State() == Encoder2Step(old(State()), c, false, now)
    {
      TurnOnDisplay(now);
      animationChangeInterval := animationChangeInterval + c;
      animationChangeInterval := MinMax(animationChangeInterval, 1, 60);
      ShowMessage(IntString(animationChangeInterval) + "s", MESSAGE_MS, now);
    }
  }
}

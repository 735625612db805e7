/** The handler bodies of src/Web.cpp: `/set` validates each query parameter
    in a fixed order and updates the display state, `/state` and
    `/animations` render JSON. A request is the map from parameter names to
    values; the server plumbing around the handlers is left out. */
module Web {
  import opened Arduino
  import opened Control

  /** One entry of `animationInfoArray`. */
  datatype AnimationInfo = AnimationInfo(id: int, name: string)

  /** The seven query parameters the `/set` handler asks for; a request's
      other parameters are never read. */
  datatype ParamName = AnimationParam | BrightnessParam | AutoSwitchParam | DurationParam |
                       ModeParam | ClockModeParam | AnimationEnabledParam

  /** The name of a parameter in the query string. */
  function Wire(n: ParamName): string
  {
    match n
    case AnimationParam => "animation"
    case BrightnessParam => "brightness"
    case AutoSwitchParam => "autoSwitch"
    case DurationParam => "duration"
    case ModeParam => "mode"
    case ClockModeParam => "clockMode"
    case AnimationEnabledParam => "animationEnabled"
  }

  /** The values of the parameters a request carries. */
  type Params = map<ParamName, string>

  /** How `autoSwitch` and `animationEnabled` read a value. */
  predicate IsTrue(v: string) { v == "1" || v == "true" }

  // ---- /set: which parameters are accepted ----

  predicate AnimationAccepted(p: Params)
  {
    AnimationParam in p && 0 <= ToInt(p[AnimationParam]) < TOTAL_ANIMATIONS
  }

  /** Brightness is checked against 0..255, not against MAX_BRIGHTNESS. */
  predicate BrightnessAccepted(p: Params)
  {
    BrightnessParam in p && 0 <= ToInt(p[BrightnessParam]) <= 255
  }

  predicate DurationAccepted(p: Params)
  {
    DurationParam in p && 1 <= ToInt(p[DurationParam]) <= 60
  }

  /** The `displayClock` a `mode` value selects, if any. */
  function ModeChoice(p: Params): Option<bool>
  {
    if ModeParam in p && p[ModeParam] == "clock" then Some(true)
    else if ModeParam in p && p[ModeParam] == "animation" then Some(false)
    else None
  }

  predicate ClockModeAccepted(p: Params)
  {
    ClockModeParam in p && 0 <= ToInt(p[ClockModeParam]) <= 3
  }

  /** What `/set` makes of a request: for each setting the value it will
      take, or `None` when its parameter is absent or refused. */
  datatype Decisions = Decisions(animation: Option<int>, brightness: Option<int>, autoSwitch: Option<bool>,
                                 duration: Option<int>, mode: Option<bool>, clockMode: Option<int>,
                                 animationEnabled: Option<bool>)

  function Decide(p: Params): (r: Decisions)
    ensures r.animation.Some? <==> AnimationAccepted(p)
    ensures r.animation.Some? ==> 0 <= r.animation.value < TOTAL_ANIMATIONS
    ensures r.brightness.Some? <==> BrightnessAccepted(p)
    ensures r.brightness.Some? ==> 0 <= r.brightness.value <= 255
    ensures r.autoSwitch.Some? <==> AutoSwitchParam in p
    ensures r.duration.Some? <==> DurationAccepted(p)
    ensures r.duration.Some? ==> 1 <= r.duration.value <= 60
    ensures r.mode.Some? ==> ModeParam in p
    ensures r.clockMode.Some? <==> ClockModeAccepted(p)
    ensures r.clockMode.Some? ==> 0 <= r.clockMode.value <= 3
    ensures r.animationEnabled.Some? <==> AnimationEnabledParam in p
    ensures r.mode.Some? <==> ModeParam in p && (p[ModeParam] == "clock" || p[ModeParam] == "animation")
    ensures r.animation.Some? ==> AnimationParam in p && r.animation.value == ToInt(p[AnimationParam])
    ensures r.brightness.Some? ==> BrightnessParam in p && r.brightness.value == ToInt(p[BrightnessParam])
    ensures r.duration.Some? ==> DurationParam in p && r.duration.value == ToInt(p[DurationParam])
    ensures r.clockMode.Some? ==> ClockModeParam in p && r.clockMode.value == ToInt(p[ClockModeParam])
    ensures r.autoSwitch.Some? ==> AutoSwitchParam in p && (r.autoSwitch.value <==> IsTrue(p[AutoSwitchParam]))
    ensures r.animationEnabled.Some? ==>
      AnimationEnabledParam in p && (r.animationEnabled.value <==> IsTrue(p[AnimationEnabledParam]))
    ensures r.mode.Some? ==> ModeParam in p && (r.mode.value <==> p[ModeParam] == "clock")
  {
    Decisions(if AnimationAccepted(p) then Some(ToInt(p[AnimationParam])) else None,
              if BrightnessAccepted(p) then Some(ToInt(p[BrightnessParam])) else None,
              if AutoSwitchParam in p then Some(IsTrue(p[AutoSwitchParam])) else None,
              if DurationAccepted(p) then Some(ToInt(p[DurationParam])) else None,
              ModeChoice(p),
              if ClockModeAccepted(p) then Some(ToInt(p[ClockModeParam])) else None,
              if AnimationEnabledParam in p then Some(IsTrue(p[AnimationEnabledParam])) else None)
  }

  /** The decisions written into the globals, field by field: a decided
      setting takes its value, every other field keeps its own. An animation
      change also restarts the global timer, and the brightness goes through
      the `int8_t` it is stored in. */
  function Apply(s: DisplayState, d: Decisions, now: int): (r: DisplayState)
    ensures r.frame == s.frame && r.lastFrameChangeTime == s.lastFrameChangeTime
    ensures r.loopTimerStarted == s.loopTimerStarted && r.loopAnimationChangeTime == s.loopAnimationChangeTime
    ensures r.message == s.message && r.messageClearTime == s.messageClearTime
    ensures r.ignoreEncoder1 == s.ignoreEncoder1 && r.ignoreEncoder2 == s.ignoreEncoder2
    ensures -128 <= s.brightness < 128 ==> -128 <= r.brightness < 128
    ensures d.animation.None? ==> r.animationIndex == s.animationIndex && r.lastAnimationChangeTime == s.lastAnimationChangeTime
    ensures d.duration.None? ==> r.interval == s.interval
    ensures d.animation.Some? ==> r.lastAnimationChangeTime == now
    ensures r.animationIndex == Decided(d.animation, s.animationIndex)
    ensures r.brightness == StoredBrightness(d.brightness, s.brightness)
    ensures r.autoAdvance == Decided(d.autoSwitch, s.autoAdvance)
    ensures r.interval == Decided(d.duration, s.interval)
    ensures r.displayClock == Decided(d.mode, s.displayClock)
    ensures r.clockMode == Decided(d.clockMode, s.clockMode)
    ensures r.animationEnabled == Decided(d.animationEnabled, s.animationEnabled)
  {
    s.(animationIndex := Decided(d.animation, s.animationIndex),
       lastAnimationChangeTime := if d.animation.Some? then now else s.lastAnimationChangeTime,
       brightness := StoredBrightness(d.brightness, s.brightness),
       autoAdvance := Decided(d.autoSwitch, s.autoAdvance),
       interval := Decided(d.duration, s.interval),
       displayClock := Decided(d.mode, s.displayClock),
       clockMode := Decided(d.clockMode, s.clockMode),
       animationEnabled := Decided(d.animationEnabled, s.animationEnabled))
  }

  /** Apply's effect setting by setting: a present decision is written into
      its global, an absent one leaves the global as it was. */
  lemma ApplyWrites(s: DisplayState, d: Decisions, now: int)
    ensures d.animation.Some? ==> Apply(s, d, now).animationIndex == d.animation.value
    ensures d.brightness.Some? ==> Apply(s, d, now).brightness == ToInt8(d.brightness.value)
    ensures d.brightness.None? ==> Apply(s, d, now).brightness == s.brightness
    ensures d.autoSwitch.Some? ==> Apply(s, d, now).autoAdvance == d.autoSwitch.value
    ensures d.autoSwitch.None? ==> Apply(s, d, now).autoAdvance == s.autoAdvance
    ensures d.duration.Some? ==> Apply(s, d, now).interval == d.duration.value
    ensures d.mode.Some? ==> Apply(s, d, now).displayClock == d.mode.value
    ensures d.mode.None? ==> Apply(s, d, now).displayClock == s.displayClock
    ensures d.clockMode.Some? ==> Apply(s, d, now).clockMode == d.clockMode.value
    ensures d.clockMode.None? ==> Apply(s, d, now).clockMode == s.clockMode
    ensures d.animationEnabled.Some? ==> Apply(s, d, now).animationEnabled == d.animationEnabled.value
    ensures d.animationEnabled.None? ==> Apply(s, d, now).animationEnabled == s.animationEnabled
  {
    var r := Apply(s, d, now);
    assert r.animationIndex == Decided(d.animation, s.animationIndex);
    assert r.brightness == StoredBrightness(d.brightness, s.brightness);
    assert r.autoAdvance == Decided(d.autoSwitch, s.autoAdvance);
    assert r.interval == Decided(d.duration, s.interval);
    assert r.displayClock == Decided(d.mode, s.displayClock);
    assert r.clockMode == Decided(d.clockMode, s.clockMode);
    assert r.animationEnabled == Decided(d.animationEnabled, s.animationEnabled);
  }

  /** A decided value, or the field's own when there is none. */
  function Decided<T>(o: Option<T>, own: T): (r: T)
    ensures o.Some? ==> r == o.value
    ensures o.None? ==> r == own
  {
    if o.Some? then o.value else own
  }

  /** A decided brightness goes through the `int8_t` it is stored in. */
  function StoredBrightness(o: Option<int>, own: int): (r: int)
    ensures o.Some? ==> r == ToInt8(o.value)
    ensures o.None? ==> r == own
  {
    if o.Some? then ToInt8(o.value) else own
  }

  /** The state after `/set`. A request that earns no message changes
      nothing; in particular an unknown mode or an out-of-range clock mode
      is ignored. */
  function SetState(s: DisplayState, p: Params, now: int): (r: DisplayState)
    ensures NothingSet(p) ==> r == s
    ensures r.frame == s.frame && r.message == s.message
  {
    Apply(s, Decide(p), now)
  }

  /** The seven checks of `/set` one at a time, each touching only its
      own fields. */
  function AfterAnimation(s: DisplayState, d: Decisions, now: int): DisplayState
  {
    if d.animation.Some? then s.(animationIndex := d.animation.value, lastAnimationChangeTime := now) else s
  }

  function AfterBrightness(s: DisplayState, d: Decisions): DisplayState
  {
    if d.brightness.Some? then s.(brightness := ToInt8(d.brightness.value)) else s
  }

  function AfterAutoSwitch(s: DisplayState, d: Decisions): DisplayState
  {
    if d.autoSwitch.Some? then s.(autoAdvance := d.autoSwitch.value) else s
  }

  function AfterDuration(s: DisplayState, d: Decisions): DisplayState
  {
    if d.duration.Some? then s.(interval := d.duration.value) else s
  }

  function AfterMode(s: DisplayState, d: Decisions): DisplayState
  {
    if d.mode.Some? then s.(displayClock := d.mode.value) else s
  }

  function AfterClockMode(s: DisplayState, d: Decisions): DisplayState
  {
    if d.clockMode.Some? then s.(clockMode := d.clockMode.value) else s
  }

  function AfterAnimationEnabled(s: DisplayState, d: Decisions): DisplayState
  {
    if d.animationEnabled.Some? then s.(animationEnabled := d.animationEnabled.value) else s
  }

  /** The decisions of the first `k` checks only. */
  function Upto(d: Decisions, k: int): Decisions
  {
    Decisions(if k >= 1 then d.animation else None, if k >= 2 then d.brightness else None,
              if k >= 3 then d.autoSwitch else None, if k >= 4 then d.duration else None,
              if k >= 5 then d.mode else None, if k >= 6 then d.clockMode else None,
              if k >= 7 then d.animationEnabled else None)
  }

  // Each check adds its own decision to the ones the checks before it wrote.

  lemma ExtendsAnimation(s: DisplayState, d: Decisions, now: int)
    ensures AfterAnimation(Apply(s, Upto(d, 0), now), d, now) == Apply(s, Upto(d, 1), now)
  {
    assert Upto(d, 1) == Upto(d, 0).(animation := d.animation);
  }

  lemma ExtendsBrightness(s: DisplayState, d: Decisions, now: int)
    ensures AfterBrightness(Apply(s, Upto(d, 1), now), d) == Apply(s, Upto(d, 2), now)
  {
    assert Upto(d, 2) == Upto(d, 1).(brightness := d.brightness);
  }

  lemma ExtendsAutoSwitch(s: DisplayState, d: Decisions, now: int)
    ensures AfterAutoSwitch(Apply(s, Upto(d, 2), now), d) == Apply(s, Upto(d, 3), now)
  {
    assert Upto(d, 3) == Upto(d, 2).(autoSwitch := d.autoSwitch);
  }

  lemma ExtendsDuration(s: DisplayState, d: Decisions, now: int)
    ensures AfterDuration(Apply(s, Upto(d, 3), now), d) == Apply(s, Upto(d, 4), now)
  {
    assert Upto(d, 4) == Upto(d, 3).(duration := d.duration);
  }

  lemma ExtendsMode(s: DisplayState, d: Decisions, now: int)
    ensures AfterMode(Apply(s, Upto(d, 4), now), d) == Apply(s, Upto(d, 5), now)
  {
    assert Upto(d, 5) == Upto(d, 4).(mode := d.mode);
  }

  lemma ExtendsClockMode(s: DisplayState, d: Decisions, now: int)
    ensures AfterClockMode(Apply(s, Upto(d, 5), now), d) == Apply(s, Upto(d, 6), now)
  {
    assert Upto(d, 6) == Upto(d, 5).(clockMode := d.clockMode);
  }

  lemma ExtendsAnimationEnabled(s: DisplayState, d: Decisions, now: int)
    ensures AfterAnimationEnabled(Apply(s, Upto(d, 6), now), d) == Apply(s, Upto(d, 7), now)
  {
    assert Upto(d, 7) == Upto(d, 6).(animationEnabled := d.animationEnabled);
  }

  /** Running the checks in the handler's order gives the field-by-field
      result: no check undoes or depends on another. */
  lemma ChecksCompose(s: DisplayState, d: Decisions, now: int)
    ensures AfterAnimationEnabled(AfterClockMode(AfterMode(AfterDuration(AfterAutoSwitch(
              AfterBrightness(AfterAnimation(s, d, now), d), d), d), d), d), d) == Apply(s, d, now)
  {
    assert Apply(s, Upto(d, 0), now) == s;
    ExtendsAnimation(s, d, now);
    ExtendsBrightness(s, d, now);
    ExtendsAutoSwitch(s, d, now);
    ExtendsDuration(s, d, now);
    ExtendsMode(s, d, now);
    ExtendsClockMode(s, d, now);
    ExtendsAnimationEnabled(s, d, now);
    assert Upto(d, 7) == d;
  }

  // ---- /set: the reply ----

  function AnimationMsg(p: Params): string
  {
    if AnimationAccepted(p) then "Animation set. "
    else if AnimationParam in p then "Invalid animation index. "
    else ""
  }

  function BrightnessMsg(p: Params): string
  {
    if BrightnessAccepted(p) then "Brightness set. "
    else if BrightnessParam in p then "Invalid brightness. "
    else ""
  }

  function AutoSwitchMsg(p: Params): string
  {
    if AutoSwitchParam in p then "Auto-switch set. " else ""
  }

  function DurationMsg(p: Params): string
  {
    if DurationAccepted(p) then "Duration set. "
    else if DurationParam in p then "Invalid duration. "
    else ""
  }

  /** An unknown mode is ignored without a word. */
  function ModeMsg(p: Params): string
  {
    match ModeChoice(p)
    case Some(true) => "Clock mode enabled. "
    case Some(false) => "Animation mode enabled. "
    case None => ""
  }

  /** An out-of-range clock mode is ignored without a word. */
  function ClockModeMsg(p: Params): string
  {
    if ClockModeAccepted(p) then "Clock mode set. " else ""
  }

  function AnimationEnabledMsg(p: Params): string
  {
    if AnimationEnabledParam in p then "Animation enabled set. " else ""
  }

  /** The reply's messages, in the order the handler checks the parameters. */
  function SetMsg(p: Params): (r: string)
    ensures |r| == 0 <==> NothingSet(p)
  {
    AnimationMsg(p) + BrightnessMsg(p) + AutoSwitchMsg(p) + DurationMsg(p) +
    ModeMsg(p) + ClockModeMsg(p) + AnimationEnabledMsg(p)
  }

  const NO_VALID_PARAMETERS: string := "No valid parameters set."

  function Reply(msg: string): string
  {
    if |msg| > 0 then msg else NO_VALID_PARAMETERS
  }

  /** No parameter produced a message: none of the always-acknowledged ones
      is present, the mode is not one of the two names and the clock mode
      is not accepted. */
  predicate NothingSet(p: Params)
  {
    AnimationParam !in p && BrightnessParam !in p && AutoSwitchParam !in p && DurationParam !in p &&
    ModeChoice(p).None? && !ClockModeAccepted(p) && AnimationEnabledParam !in p
  }

  /** Every message is empty or ends with a blank. */
  predicate BlankEnded(m: string) { m == [] || m[|m| - 1] == ' ' }

  lemma BlankEndedAppend(a: string, b: string)
    requires BlankEnded(a) && BlankEnded(b)
    ensures BlankEnded(a + b)
  {
    if b != [] {
      assert (a + b)[|a + b| - 1] == b[|b| - 1];
    } else {
      assert a + b == a;
    }
  }

  /** `/set` answers "No valid parameters set." exactly when no parameter
      produced a message; otherwise it answers with the messages. */
  lemma ReplyDefaultIff(p: Params)
    ensures Reply(SetMsg(p)) == NO_VALID_PARAMETERS <==> NothingSet(p)
    ensures !NothingSet(p) ==> Reply(SetMsg(p)) == SetMsg(p)
  {
    var m1 := AnimationMsg(p) + BrightnessMsg(p);
    BlankEndedAppend(AnimationMsg(p), BrightnessMsg(p));
    var m2 := m1 + AutoSwitchMsg(p);
    BlankEndedAppend(m1, AutoSwitchMsg(p));
    var m3 := m2 + DurationMsg(p);
    BlankEndedAppend(m2, DurationMsg(p));
    var m4 := m3 + ModeMsg(p);
    BlankEndedAppend(m3, ModeMsg(p));
    var m5 := m4 + ClockModeMsg(p);
    BlankEndedAppend(m4, ClockModeMsg(p));
    BlankEndedAppend(m5, AnimationEnabledMsg(p));
    assert |SetMsg(p)| == |AnimationMsg(p)| + |BrightnessMsg(p)| + |AutoSwitchMsg(p)| + |DurationMsg(p)| +
                          |ModeMsg(p)| + |ClockModeMsg(p)| + |AnimationEnabledMsg(p)|;
    assert NO_VALID_PARAMETERS[|NO_VALID_PARAMETERS| - 1] == '.';
  }

  /** `/set` keeps every field within its C type and range, except that the
      frame is not reset on an animation change. */
  lemma SetKeepsInv(s: DisplayState, p: Params, now: int)
    requires Inv(s) && IsU32(now)
    ensures Inv(SetState(s, p, now))
    ensures SetState(s, p, now).frame == s.frame
  {
  }

  /** Repeating a request changes nothing more. */
  lemma SetIdempotent(s: DisplayState, p: Params, now: int)
    ensures SetState(SetState(s, p, now), p, now) == SetState(s, p, now)
  {
  }

  /** The timer `/set` resets is the global one; the auto-advance of
      `loop()` runs on its own static copy, which `/set` leaves as it is,
      so a manual change does not postpone the next auto-advance. */
  lemma SetLeavesLoopTimer(s: DisplayState, p: Params, now: int, t: int)
    ensures SetState(s, p, now).loopAnimationChangeTime == s.loopAnimationChangeTime
    ensures AnimationAccepted(p) ==> SetState(s, p, now).lastAnimationChangeTime == now
    ensures !DurationAccepted(p) ==> (AutoDue(SetState(s, p, now), t) <==> AutoDue(s, t))
  {
  }

  /** A brightness of 200 is accepted but stored as the `int8_t` -56, which
      is what `/state` then reports. */
  lemma BrightnessStoredAsInt8(s: DisplayState, now: int)
    ensures SetState(s, map[BrightnessParam := "200"], now).brightness == -56
  {
    var p := map[BrightnessParam := "200"];
    assert IntString(200) == "200" by {
      assert NatString(20) == "20" by {
        assert NatString(2) == "2";
      }
    }
    ToIntOfIntString(200);
    assert ToInt(p[BrightnessParam]) == 200;
    assert Decide(p).brightness == Some(200);
    assert ToInt8(200) == -56;
  }

  // ---- JSON ----

  /** The strings joined with `sep` between consecutive ones. */
  function Join(sep: string, xs: seq<string>): string
  {
    if |xs| == 0 then ""
    else if |xs| == 1 then xs[0]
    else xs[0] + sep + Join(sep, xs[1..])
  }

  lemma {:induction false} JoinSnoc(sep: string, xs: seq<string>, x: string)
    requires |xs| > 0
    ensures Join(sep, xs + [x]) == Join(sep, xs) + sep + x
    decreases |xs|
  {
    if |xs| > 1 {
      assert (xs + [x])[1..] == xs[1..] + [x];
      JoinSnoc(sep, xs[1..], x);
    } else {
      assert (xs + [x])[1..] == [x];
    }
  }

  lemma JoinPrefix(sep: string, x: string, xs: seq<string>)
    requires |xs| > 0
    ensures Join(sep, [x] + xs) == x + sep + Join(sep, xs)
  {
    assert ([x] + xs)[1..] == xs;
  }

  /** With five elements the separator appears exactly between neighbours. */
  lemma JoinFive(sep: string, xs: seq<string>)
    requires |xs| == 5
    ensures Join(sep, xs) == xs[0] + sep + xs[1] + sep + xs[2] + sep + xs[3] + sep + xs[4]
  {
    assert xs[3..] == [xs[3]] + [xs[4]];
    JoinPrefix(sep, xs[3], [xs[4]]);
    assert xs[2..] == [xs[2]] + xs[3..];
    JoinPrefix(sep, xs[2], xs[3..]);
    assert xs[1..] == [xs[1]] + xs[2..];
    JoinPrefix(sep, xs[1], xs[2..]);
    assert xs == [xs[0]] + xs[1..];
    JoinPrefix(sep, xs[0], xs[1..]);
  }

  lemma Regroup(a: string, b: string, c: string, d: string)
    ensures a + b + c + d == a + (b + c + d)
  {
  }

  /** Seven elements inside braces, as `/state` writes them. */
  lemma JoinSevenBraced(sep: string, xs: seq<string>)
    requires |xs| == 7
    ensures "{" + Join(sep, xs) + "}" ==
      "{" + xs[0] + sep + xs[1] + sep + xs[2] + sep + xs[3] + sep + xs[4] + sep + xs[5] + sep + xs[6] + "}"
  {
    assert xs[5..] == [xs[5]] + [xs[6]];
    JoinPrefix(sep, xs[5], [xs[6]]);
    assert xs[4..] == [xs[4]] + xs[5..];
    JoinPrefix(sep, xs[4], xs[5..]);
    assert xs[3..] == [xs[3]] + xs[4..];
    JoinPrefix(sep, xs[3], xs[4..]);
    assert xs[2..] == [xs[2]] + xs[3..];
    JoinPrefix(sep, xs[2], xs[3..]);
    assert xs[1..] == [xs[1]] + xs[2..];
    JoinPrefix(sep, xs[1], xs[2..]);
    assert xs == [xs[0]] + xs[1..];
    JoinPrefix(sep, xs[0], xs[1..]);
    Flat7("{", sep, xs[0], xs[1], xs[2], xs[3], xs[4], xs[5], xs[6], "}");
  }

  lemma Flat7(o: string, sep: string, a: string, b: string, c: string, d: string, e: string, f: string, g: string, z: string)
    ensures o + (a + sep + (b + sep + (c + sep + (d + sep + (e + sep + (f + sep + g)))))) + z ==
      o + a + sep + b + sep + c + sep + d + sep + e + sep + f + sep + g + z
  {
  }

  /** The `/animations` object of one animation. Names are not escaped. */
  function AnimationObject(info: AnimationInfo): string
  {
    "{\"id\":" + IntString(info.id) + ",\"name\":\"" + info.name + "\"}"
  }

  function AnimationObjects(infos: seq<AnimationInfo>): (objs: seq<string>)
    ensures |objs| == |infos|
    ensures forall i :: 0 <= i < |infos| ==> objs[i] == AnimationObject(infos[i])
  {
    if infos == [] then []
    else
      var init := infos[..|infos| - 1];
      assert forall i :: 0 <= i < |init| ==> init[i] == infos[i];
      AnimationObjects(init) + [AnimationObject(infos[|infos| - 1])]
  }

  /** `/animations`: a JSON array of one object per animation, written with
      a comma before every object but the first. */
  method AnimationsJson(infos: seq<AnimationInfo>) returns (json: string)
    requires |infos| == TOTAL_ANIMATIONS
    ensures json == "[" + Join(",", AnimationObjects(infos)) + "]"
  {
    json := "[";
    var i := 0;
    while i < |infos|
      invariant 0 <= i <= |infos|
      invariant json == "[" + Join(",", AnimationObjects(infos[..i]))
    {
      ghost var before := AnimationObjects(infos[..i]);
      ghost var obj := AnimationObject(infos[i]);
      assert infos[..i + 1][..i] == infos[..i];
      assert AnimationObjects(infos[..i + 1]) == before + [obj];
      if i > 0 {
        json := json + ",";
        json := json + AnimationObject(infos[i]);
        JoinSnoc(",", before, obj);
        Regroup("[", Join(",", before), ",", obj);
      } else {
        json := json + AnimationObject(infos[i]);
        assert before + [obj] == [obj];
      }
      i := i + 1;
    }
    assert infos[..i] == infos;
    json := json + "]";
  }

  /** The reply lists exactly the five animations, in table order, separated
      by single commas. */
  lemma AnimationsJsonShape(infos: seq<AnimationInfo>)
    requires |infos| == TOTAL_ANIMATIONS
    ensures Join(",", AnimationObjects(infos)) ==
      AnimationObject(infos[0]) + "," + AnimationObject(infos[1]) + "," + AnimationObject(infos[2]) +
      "," + AnimationObject(infos[3]) + "," + AnimationObject(infos[4])
  {
    JoinFive(",", AnimationObjects(infos));
  }

  /** A JSON value as `/state` writes it: a bare number or a quoted string. */
  datatype JsonValue = Number(text: string) | Text(text: string)

  function Render(v: JsonValue): string
  {
    match v
    case Number(t) => t
    case Text(t) => "\"" + t + "\""
  }

  const STATE_KEYS: seq<string> := ["animation", "brightness", "mode", "clockMode", "maxBrightness", "autoSwitch", "duration"]

  /** The key and value pairs `/state` reports. */
  function Reported(s: DisplayState): (r: seq<(string, JsonValue)>)
    ensures |r| == |STATE_KEYS| && forall i :: 0 <= i < |r| ==> r[i].0 == STATE_KEYS[i]
    ensures r[2].1 == Text("clock") <==> s.displayClock
    ensures r[5].1 == Number(if s.autoAdvance then "1" else "0")
  {
    [("animation", Number(IntString(s.animationIndex))),
     ("brightness", Number(IntString(s.brightness))),
     ("mode", Text(if s.displayClock then "clock" else "animation")),
     ("clockMode", Number(IntString(s.clockMode))),
     ("maxBrightness", Number(IntString(MAX_BRIGHTNESS))),
     ("autoSwitch", Number(if s.autoAdvance then "1" else "0")),
     ("duration", Number(IntString(s.interval)))]
  }

  function Member(kv: (string, JsonValue)): string
  {
    "\"" + kv.0 + "\":" + Render(kv.1)
  }

  function StateText(s: DisplayState): (r: string)
    ensures |r| >= 2 && r[0] == '{' && r[|r| - 1] == '}'
  {
    var r := Reported(s);
    "{" + Join(",", seq(|r|, i requires 0 <= i < |r| => Member(r[i]))) + "}"
  }

  /** The `/state` text is its seven members in order, comma separated. */
  lemma StateTextMembers(s: DisplayState)
    ensures var r := Reported(s);
      StateText(s) == "{" + Member(r[0]) + "," + Member(r[1]) + "," + Member(r[2]) + "," + Member(r[3]) +
                      "," + Member(r[4]) + "," + Member(r[5]) + "," + Member(r[6]) + "}"
  {
    var r := Reported(s);
    var ms := seq(|r|, i requires 0 <= i < |r| => Member(r[i]));
    JoinSevenBraced(",", ms);
  }

  /** The handler's key literals are the quoted keys followed by a colon. */
  lemma KeyLiterals()
    ensures "\"animation\":" == "\"" + "animation" + "\":"
    ensures "\"brightness\":" == "\"" + "brightness" + "\":"
    ensures "\"mode\":\"" == "\"" + "mode" + "\":\""
    ensures "\"clockMode\":" == "\"" + "clockMode" + "\":"
    ensures "\"maxBrightness\":" == "\"" + "maxBrightness" + "\":"
    ensures "\"autoSwitch\":" == "\"" + "autoSwitch" + "\":"
    ensures "\"duration\":" == "\"" + "duration" + "\":"
  {
  }

  /** A numeric member written as one literal (quoted key and colon) and the number. */
  lemma NumberMember(key: string, lit: string, t: string)
    requires lit == "\"" + key + "\":"
    ensures Member((key, Number(t))) == lit + t
  {
  }

  /** A string member written as one literal running up to the opening quote. */
  lemma TextMember(key: string, lit: string, t: string)
    requires lit == "\"" + key + "\":\""
    ensures Member((key, Text(t))) == lit + t + "\""
  {
    assert "\"" + key + "\":" + ("\"" + t + "\"") == ("\"" + key + "\":\"") + t + "\"";
  }

  /** The `/state` text as the handler appends it: each member written as
      one literal and a value, followed by its comma. */
  lemma StateTextAppended(s: DisplayState)
    ensures StateText(s) ==
      "{" + ("\"animation\":" + IntString(s.animationIndex) + ",") +
      ("\"brightness\":" + IntString(s.brightness) + ",") +
      ("\"mode\":\"" + (if s.displayClock then "clock" else "animation") + "\",") +
      ("\"clockMode\":" + IntString(s.clockMode) + ",") +
      ("\"maxBrightness\":" + IntString(MAX_BRIGHTNESS) + ",") +
      ("\"autoSwitch\":" + (if s.autoAdvance then "1" else "0") + ",") +
      ("\"duration\":" + IntString(s.interval)) + "}"
  {
    KeyLiterals();
    var m0 := "\"animation\":" + IntString(s.animationIndex);
    var m1 := "\"brightness\":" + IntString(s.brightness);
    var m2 := "\"mode\":\"" + (if s.displayClock then "clock" else "animation") + "\"";
    var m3 := "\"clockMode\":" + IntString(s.clockMode);
    var m4 := "\"maxBrightness\":" + IntString(MAX_BRIGHTNESS);
    var m5 := "\"autoSwitch\":" + (if s.autoAdvance then "1" else "0");
    var m6 := "\"duration\":" + IntString(s.interval);
    NumberMember("animation", "\"animation\":", IntString(s.animationIndex));
    NumberMember("brightness", "\"brightness\":", IntString(s.brightness));
    TextMember("mode", "\"mode\":\"", if s.displayClock then "clock" else "animation");
    NumberMember("clockMode", "\"clockMode\":", IntString(s.clockMode));
    NumberMember("maxBrightness", "\"maxBrightness\":", IntString(MAX_BRIGHTNESS));
    NumberMember("autoSwitch", "\"autoSwitch\":", if s.autoAdvance then "1" else "0");
    NumberMember("duration", "\"duration\":", IntString(s.interval));
    StateTextMembers(s);
    Appended7("{", ",", m0, m1, m2, m3, m4, m5, m6, "}");
    QuoteComma("\"mode\":\"" + (if s.displayClock then "clock" else "animation"));
  }

  /** `/state`, built by appending one member at a time. */
  method StateJson(c: Controller) returns (json: string)
    ensures json == StateText(c.State())
  {
    json := "{";
    json := json + ("\"animation\":" + IntString(c.currentAnimationIndex) + ",");
    json := json + ("\"brightness\":" + IntString(c.brightness) + ",");
    json := json + ("\"mode\":\"" + (if c.displayClock then "clock" else "animation") + "\",");
    json := json + ("\"clockMode\":" + IntString(c.clockMode) + ",");
    json := json + ("\"maxBrightness\":" + IntString(MAX_BRIGHTNESS) + ",");
    json := json + ("\"autoSwitch\":" + (if c.autoAdvanceEnabled then "1" else "0") + ",");
    json := json + ("\"duration\":" + IntString(c.animationChangeInterval));
    json := json + "}";
    StateTextAppended(c.State());
  }

  lemma QuoteComma(a: string)
    ensures a + "\"" + "," == a + "\","
  {
  }

  /** Appending each member with its comma gives the joined text. */
  lemma Appended7(o: string, sep: string, a: string, b: string, c: string, d: string, e: string, f: string, g: string, z: string)
    ensures o + (a + sep) + (b + sep) + (c + sep) + (d + sep) + (e + sep) + (f + sep) + g + z ==
      o + a + sep + b + sep + c + sep + d + sep + e + sep + f + sep + g + z
  {
  }

  /** The values `/state` reports, as the parameters of a `/set` request:
      the mode without its quotes; `maxBrightness` is not a parameter. */
  function ReportedParams(s: DisplayState): (p: Params)
    ensures p.Keys == {AnimationParam, BrightnessParam, ModeParam, ClockModeParam, AutoSwitchParam, DurationParam}
    ensures p[AnimationParam] == Reported(s)[0].1.text && p[BrightnessParam] == Reported(s)[1].1.text
    ensures p[ModeParam] == Reported(s)[2].1.text && p[ClockModeParam] == Reported(s)[3].1.text
    ensures p[AutoSwitchParam] == Reported(s)[5].1.text && p[DurationParam] == Reported(s)[6].1.text
    ensures AnimationEnabledParam !in p
  {
    map[AnimationParam := IntString(s.animationIndex),
        BrightnessParam := IntString(s.brightness),
        ModeParam := if s.displayClock then "clock" else "animation",
        ClockModeParam := IntString(s.clockMode),
        AutoSwitchParam := if s.autoAdvance then "1" else "0",
        DurationParam := IntString(s.interval)]
  }

  /** Sending back what `/state` reported reproduces the state's settings:
      each one is accepted, except a brightness the `int8_t` made negative
      and a clock mode above 3, which keep the target's values. */
  lemma StateRoundTrip(s: DisplayState, t: DisplayState, now: int)
    requires Inv(s)
    ensures var u := SetState(t, ReportedParams(s), now);
      u.animationIndex == s.animationIndex && u.autoAdvance == s.autoAdvance &&
      u.interval == s.interval && u.displayClock == s.displayClock &&
      (s.brightness >= 0 ==> u.brightness == s.brightness) &&
      (s.brightness < 0 ==> u.brightness == t.brightness) &&
      (s.clockMode <= 3 ==> u.clockMode == s.clockMode) &&
      (s.clockMode > 3 ==> u.clockMode == t.clockMode)
  {
    var p := ReportedParams(s);
    ReportedNumbers(s);
    ReportedWords(s);
    assert AnimationAccepted(p) && DurationAccepted(p);
    assert BrightnessAccepted(p) <==> s.brightness >= 0;
    assert ClockModeAccepted(p) <==> s.clockMode <= 3;
  }

  /** The numbers `/state` reports read back as themselves. */
  lemma ReportedNumbers(s: DisplayState)
    ensures var p := ReportedParams(s);
      ToInt(p[AnimationParam]) == s.animationIndex && ToInt(p[BrightnessParam]) == s.brightness &&
      ToInt(p[DurationParam]) == s.interval && ToInt(p[ClockModeParam]) == s.clockMode
  {
    var p := ReportedParams(s);
    assert p[AnimationParam] == IntString(s.animationIndex) && p[BrightnessParam] == IntString(s.brightness);
    assert p[DurationParam] == IntString(s.interval) && p[ClockModeParam] == IntString(s.clockMode);
    ToIntOfIntString(s.animationIndex);
    ToIntOfIntString(s.brightness);
    ToIntOfIntString(s.interval);
    ToIntOfIntString(s.clockMode);
  }

  /** The mode and the auto-switch flag `/state` reports are read back as
      the same settings. */
  lemma ReportedWords(s: DisplayState)
    ensures var p := ReportedParams(s);
      ModeChoice(p) == Some(s.displayClock) && IsTrue(p[AutoSwitchParam]) == s.autoAdvance
  {
    var p := ReportedParams(s);
    assert p[ModeParam] == if s.displayClock then "clock" else "animation";
    assert p[AutoSwitchParam] == if s.autoAdvance then "1" else "0";
    assert "animation" != "clock" && "0" != "1" && "0" != "true";
  }

  /** The `/set` handler: the parameters are checked in a fixed order, each
      updating the shared globals and appending its message. */
  method HandleSet(c: Controller, params: Params, now: int) returns (reply: string)
    requires c.Valid() && IsU32(now)
    modifies c
    ensures c.Valid()
    ensures c.State() == SetState(old(c.State()), params, now)
    ensures reply == Reply(SetMsg(params))
  {
    ghost var s0 := c.State();
    var m1 := CheckAnimation(c, params, now);
    var m2 := CheckBrightness(c, params);
    var m3 := CheckAutoSwitch(c, params);
    var m4 := CheckDuration(c, params);
    var m5 := CheckMode(c, params);
    var m6 := CheckClockMode(c, params);
    var m7 := CheckAnimationEnabled(c, params);
    ChecksCompose(s0, Decide(params), now);
    var msg := m1 + m2 + m3 + m4 + m5 + m6 + m7;
    reply := if |msg| > 0 then msg else NO_VALID_PARAMETERS;
  }

  method CheckAnimation(c: Controller, params: Params, now: int) returns (msg: string)
    requires c.Valid() && IsU32(now)
    modifies c
    ensures c.Valid()
    ensures c.State() == AfterAnimation(old(c.State()), Decide(params), now) && msg == AnimationMsg(params)
  {
    msg := "";
    if AnimationParam in params {
      var idx := ToInt(params[AnimationParam]);
      if idx >= 0 && idx < TOTAL_ANIMATIONS {
        c.currentAnimationIndex := idx;
        c.lastAnimationChangeTime := now;
        msg := "Animation set. ";
      } else {
        msg := "Invalid animation index. ";
      }
    }
  }

  method CheckBrightness(c: Controller, params: Params) returns (msg: string)
    requires c.Valid()
    modifies c
    ensures c.Valid()
    ensures c.State() == AfterBrightness(old(c.State()), Decide(params)) && msg == BrightnessMsg(params)
  {
    ghost var s := c.State();
    ghost var d := Decide(params).brightness;
    assert d == if BrightnessAccepted(params) then Some(ToInt(params[BrightnessParam])) else None;
    msg := "";
    if BrightnessParam in params {
      var b := ToInt(params[BrightnessParam]);
      if b >= 0 && b <= 255 {
        c.brightness := ToInt8(b);
        assert c.State() == s.(brightness := ToInt8(b));
        msg := "Brightness set. ";
      } else {
        msg := "Invalid brightness. ";
      }
    }
  }

  method CheckAutoSwitch(c: Controller, params: Params) returns (msg: string)
    requires c.Valid()
    modifies c
    ensures c.Valid()
    ensures c.State() == AfterAutoSwitch(old(c.State()), Decide(params)) && msg == AutoSwitchMsg(params)
  {
    msg := "";
    if AutoSwitchParam in params {
      var v := params[AutoSwitchParam];
      c.autoAdvanceEnabled := v == "1" || v == "true";
      msg := "Auto-switch set. ";
    }
  }

  method CheckDuration(c: Controller, params: Params) returns (msg: string)
    requires c.Valid()
    modifies c
    ensures c.Valid()
    ensures c.State() == AfterDuration(old(c.State()), Decide(params)) && msg == DurationMsg(params)
  {
    msg := "";
    if DurationParam in params {
      var dur := ToInt(params[DurationParam]);
      if dur >= 1 && dur <= 60 {
        c.animationChangeInterval := dur;
        msg := "Duration set. ";
      } else {
        msg := "Invalid duration. ";
      }
    }
  }

  method CheckMode(c: Controller, params: Params) returns (msg: string)
    requires c.Valid()
    modifies c
    ensures c.Valid()
    ensures c.State() == AfterMode(old(c.State()), Decide(params)) && msg == ModeMsg(params)
  {
    msg := "";
    if ModeParam in params {
      var mode := params[ModeParam];
      if mode == "clock" {
        c.displayClock := true;
        msg := "Clock mode enabled. ";
      } else if mode == "animation" {
        c.displayClock := false;
        msg := "Animation mode enabled. ";
      }
    }
  }

  method CheckClockMode(c: Controller, params: Params) returns (msg: string)
    requires c.Valid()
    modifies c
    ensures c.Valid()
    ensures c.State() == AfterClockMode(old(c.State()), Decide(params)) && msg == ClockModeMsg(params)
  {
    msg := "";
    if ClockModeParam in params {
      var cm := ToInt(params[ClockModeParam]);
      if cm >= 0 && cm <= 3 {
        c.clockMode := cm;
        msg := "Clock mode set. ";
      }
    }
  }

  method CheckAnimationEnabled(c: Controller, params: Params) returns (msg: string)
    requires c.Valid()
    modifies c
    ensures c.Valid()
    ensures c.State() == AfterAnimationEnabled(old(c.State()), Decide(params)) && msg == AnimationEnabledMsg(params)
  {
    msg := "";
    if AnimationEnabledParam in params {
      var v := params[AnimationEnabledParam];
      c.animationEnabled := v == "1" || v == "true";
      msg := "Animation enabled set. ";
    }
  }
}

/** The rotary encoder of src/Encoder.cpp: a quadrature decoder that turns
    pin edges into detents on a shared counter, a time-debounced push
    button, and the fixed pool every constructed encoder registers into.
    Pin levels and the millisecond clock are parameters of the handlers;
    the interrupt trampolines are left to the caller, which invokes the
    handlers one after another. */
module RotaryEncoder {
  import opened Arduino

  /** A digital pin level: `LOW` or `HIGH`. */
  datatype Level = Low | High

  /** The button debounce interval in milliseconds (`_debounceDelay`). */
  const DEBOUNCE_DELAY: int := 50

  /** The capacity of the static `_instances` pool. */
  const MAX_INSTANCES: int := 6

  /** `enc_states`: the contribution of a move from one two-bit pin state to
      the next, indexed by (previous AB << 2) | current AB. */
  const EncStates: seq<int> := [0, -1, 1, 0, 1, 0, 0, -1, -1, 0, 0, 1, 0, 1, -1, 0]

  /** The two pin levels as the two-bit state AB: bit 1 is pin A, bit 0 pin B. */
  function PinBits(a: Level, b: Level): (ab: int)
    ensures 0 <= ab < 4
    ensures (ab / 2 == 1) == (a == High)
    ensures (ab % 2 == 1) == (b == High)
  {
    (if a == High then 2 else 0) + (if b == High then 1 else 0)
  }

  /** `_old_AB <<= 2` on a `uint8_t`, then OR-ing in the pins: the low nibble
      becomes (previous AB << 2) | current AB. */
  function ShiftIn(oldAB: int, a: Level, b: Level): (r: int)
    requires 0 <= oldAB < U8
    ensures 0 <= r < U8
    ensures r % 4 == PinBits(a, b)
    ensures r % 16 == (oldAB % 4) * 4 + PinBits(a, b)
  {
    ShiftedNibble(oldAB, PinBits(a, b));
    (oldAB * 4) % U8 + PinBits(a, b)
  }

  /** Shifting a byte left by two leaves two zero bits at the bottom and the
      old low two bits just above them. */
  lemma ShiftedNibble(x: int, p: int)
    requires 0 <= x < U8 && 0 <= p < 4
    ensures 0 <= (x * 4) % U8 + p < U8
    ensures ((x * 4) % U8 + p) % 4 == p
    ensures ((x * 4) % U8 + p) % 16 == (x % 4) * 4 + p
  {
    var h, l := x / 64, x % 64;
    var l2, l0 := l / 4, l % 4;
    ModUnique(x * 4, 256, h, 4 * l);
    ModUnique(4 * l + p, 16, l2, 4 * l0 + p);
    ModUnique(4 * l + p, 4, l, p);
    ModUnique(x, 4, 16 * h + l2, l0);
  }

  /** The table entry for the move from state `prev` to state `cur`. */
  function Transition(prev: int, cur: int): (v: int)
    requires 0 <= prev < 4 && 0 <= cur < 4
  {
    EncStates[prev * 4 + cur]
  }

  /** The clockwise successor in the Gray sequence 11, 01, 00, 10. */
  function Clockwise(ab: int): (n: int)
    requires 0 <= ab < 4
    ensures 0 <= n < 4
  {
    if ab == 3 then 1 else if ab == 1 then 0 else if ab == 0 then 2 else 3
  }

  /** The table: every entry is -1, 0 or +1; it is 0 exactly for a state that
      did not change and for a double step (both pins changed at once); a
      clockwise move counts +1, and the reverse of any move counts the
      opposite of that move. */
  lemma TransitionTable(p: int, q: int)
    requires 0 <= p < 4 && 0 <= q < 4
    ensures -1 <= Transition(p, q) <= 1
    ensures Transition(p, q) == 0 <==> (p == q || p + q == 3)
    ensures Transition(q, p) == -Transition(p, q)
    ensures Transition(p, Clockwise(p)) == 1
  {
  }

  /** What one table contribution does to the accumulator `_encval`: past +3
      or -3 it commits a detent and resets to 0. */
  datatype Decoded = Decoded(encval: int, delta: int)

  function Accumulate(encval: int, step: int): (r: Decoded)
    ensures -1 <= r.delta <= 1
    ensures r.delta != 0 ==> r.encval == 0
    ensures -3 <= encval <= 3 && -1 <= step <= 1 ==>
              -3 <= r.encval <= 3 && r.encval + 4 * r.delta == encval + step
  {
    var e := encval + step;
    if e > 3 then Decoded(0, 1) else if e < -3 then Decoded(0, -1) else Decoded(e, 0)
  }

  predicate IsPath(path: seq<int>) { forall i :: 0 <= i < |path| ==> 0 <= path[i] < 4 }

  /** The state a walk ends in. */
  function LastOf(ab: int, path: seq<int>): int
  {
    if path == [] then ab else path[|path| - 1]
  }

  /** A run of the decoder: the final two-bit state, the final accumulator and
      the net change of the counter after the pins go through `path`. The
      counter moves by at most one per pin change. */
  datatype Trace = Trace(ab: int, encval: int, delta: int)

  function Feed(ab: int, encval: int, path: seq<int>): (t: Trace)
    requires 0 <= ab < 4 && IsPath(path)
    ensures 0 <= t.ab < 4
    ensures -|path| <= t.delta <= |path|
    ensures -3 <= encval <= 3 ==> -3 <= t.encval <= 3
    decreases |path|
  {
    if path == [] then Trace(ab, encval, 0)
    else
      var d := Accumulate(encval, Transition(ab, path[0]));
      var t := Feed(path[0], d.encval, path[1..]);
      Trace(t.ab, t.encval, d.delta + t.delta)
  }

  /** A walk of one step is one table lookup and one accumulation. */
  lemma FeedOne(ab: int, encval: int, cur: int)
    requires 0 <= ab < 4 && 0 <= cur < 4
    ensures var d := Accumulate(encval, Transition(ab, cur));
      Feed(ab, encval, [cur]) == Trace(cur, d.encval, d.delta)
  {
    assert [cur][1..] == [];
  }

  /** The sum of the table contributions along a walk. */
  function PathSum(ab: int, path: seq<int>): int
    requires 0 <= ab < 4 && IsPath(path)
    decreases |path|
  {
    if path == [] then 0 else Transition(ab, path[0]) + PathSum(path[0], path[1..])
  }

  lemma {:induction false} FeedEndsAt(ab: int, encval: int, path: seq<int>)
    requires 0 <= ab < 4 && IsPath(path)
    ensures Feed(ab, encval, path).ab == LastOf(ab, path)
    decreases |path|
  {
    if path != [] {
      FeedEndsAt(path[0], Accumulate(encval, Transition(ab, path[0])).encval, path[1..]);
    }
  }

  /** Conservation: the counter moves by exactly one for every four net table
      steps, and what is left over stays in the accumulator, within [-3, 3]. */
  lemma {:induction false} FeedConserves(ab: int, encval: int, path: seq<int>)
    requires 0 <= ab < 4 && IsPath(path) && -3 <= encval <= 3
    ensures var t := Feed(ab, encval, path);
      -3 <= t.encval <= 3 && t.encval + 4 * t.delta == encval + PathSum(ab, path)
    decreases |path|
  {
    if path != [] {
      TransitionTable(ab, path[0]);
      var d := Accumulate(encval, Transition(ab, path[0]));
      FeedConserves(path[0], d.encval, path[1..]);
    }
  }

  lemma {:induction false} PathSumAppend(ab: int, x: seq<int>, y: seq<int>)
    requires 0 <= ab < 4 && IsPath(x) && IsPath(y)
    ensures IsPath(x + y) && 0 <= LastOf(ab, x) < 4
    ensures PathSum(ab, x + y) == PathSum(ab, x) + PathSum(LastOf(ab, x), y)
    decreases |x|
  {
    if x == [] {
      assert x + y == y;
    } else {
      assert (x + y)[0] == x[0] && (x + y)[1..] == x[1..] + y;
      PathSumAppend(x[0], x[1..], y);
      assert LastOf(x[0], x[1..]) == LastOf(ab, x);
    }
  }

  /** The states a walk went through before each of its moves, latest first:
      going through them undoes the walk step by step. */
  function Back(ab: int, path: seq<int>): (r: seq<int>)
    requires 0 <= ab < 4 && IsPath(path)
    ensures |r| == |path| && IsPath(r)
    ensures path != [] ==> r[|r| - 1] == ab
    decreases |path|
  {
    if path == [] then []
    else [LastOf(ab, path[..|path| - 1])] + Back(ab, path[..|path| - 1])
  }

  /** A walk followed by its retracing adds nothing to the table sum. */
  lemma {:induction false} RetraceSumsToZero(ab: int, path: seq<int>)
    requires 0 <= ab < 4 && IsPath(path)
    ensures IsPath(path + Back(ab, path))
    ensures PathSum(ab, path + Back(ab, path)) == 0
    decreases |path|
  {
    if path != [] {
      var q := path[..|path| - 1];
      var t := path[|path| - 1];
      var u := LastOf(ab, q);
      RetraceSumsToZero(ab, q);
      PathSumAppend(ab, q, Back(ab, q));
      assert path == q + [t];
      PathSumAppend(ab, q, [t]);
      PathSumCons(u, t, []);
      assert [t] + [] == [t];
      assert Back(ab, path) == [u] + Back(ab, q);
      PathSumCons(t, u, Back(ab, q));
      TransitionTable(u, t);
      PathSumAppend(ab, path, Back(ab, path));
    }
  }

  /** Noise rejection: however the pins wander, once they retrace their way
      back to the starting state the counter has not moved and the
      accumulator is back to 0. */
  lemma RetraceCommitsNothing(ab: int, path: seq<int>)
    requires 0 <= ab < 4 && IsPath(path)
    ensures IsPath(path + Back(ab, path))
    ensures Feed(ab, 0, path + Back(ab, path)) == Trace(ab, 0, 0)
  {
    RetraceSumsToZero(ab, path);
    var full := path + Back(ab, path);
    FeedConserves(ab, 0, full);
    FeedEndsAt(ab, 0, full);
  }

  /** The four clockwise moves of one detent, from and back to `ab`. */
  function ClockwiseCycle(ab: int): (c: seq<int>)
    requires 0 <= ab < 4
    ensures |c| == 4 && IsPath(c) && c[3] == ab
  {
    var s1 := Clockwise(ab);
    var s2 := Clockwise(s1);
    var s3 := Clockwise(s2);
    [s1, s2, s3, Clockwise(s3)]
  }

  /** Every move of the clockwise cycle counts +1. */
  lemma CycleSum(ab: int)
    requires 0 <= ab < 4
    ensures PathSum(ab, ClockwiseCycle(ab)) == 4
  {
    if ab == 0 {
      assert ClockwiseCycle(0) == [2, 3, 1, 0];
    } else if ab == 1 {
      assert ClockwiseCycle(1) == [0, 2, 3, 1];
    } else if ab == 2 {
      assert ClockwiseCycle(2) == [3, 1, 0, 2];
    } else {
      assert ClockwiseCycle(3) == [1, 0, 2, 3];
    }
  }

  lemma PathSumCons(ab: int, x: int, rest: seq<int>)
    requires 0 <= ab < 4 && 0 <= x < 4 && IsPath(rest)
    ensures IsPath([x] + rest)
    ensures PathSum(ab, [x] + rest) == Transition(ab, x) + PathSum(x, rest)
  {
    assert ([x] + rest)[1..] == rest;
  }

  /** From the accumulator at 0, a walk whose table sum is +4 (or -4) and
      that ends where it started commits exactly one detent. */
  lemma OneDetent(ab: int, path: seq<int>, dir: int)
    requires 0 <= ab < 4 && IsPath(path) && (dir == 1 || dir == -1)
    requires PathSum(ab, path) == 4 * dir && LastOf(ab, path) == ab
    ensures Feed(ab, 0, path) == Trace(ab, 0, dir)
  {
    FeedConserves(ab, 0, path);
    FeedEndsAt(ab, 0, path);
  }

  /** One full clockwise cycle from a zero accumulator commits exactly +1. */
  lemma ClockwiseCycleCommitsOne(ab: int)
    requires 0 <= ab < 4
    ensures Feed(ab, 0, ClockwiseCycle(ab)) == Trace(ab, 0, 1)
  {
    CycleSum(ab);
    OneDetent(ab, ClockwiseCycle(ab), 1);
  }

  /** The reverse cycle commits exactly -1. */
  lemma ReverseCycleCommitsMinusOne(ab: int)
    requires 0 <= ab < 4
    ensures Feed(ab, 0, Back(ab, ClockwiseCycle(ab))) == Trace(ab, 0, -1)
  {
    var c := ClockwiseCycle(ab);
    var back := Back(ab, c);
    CycleSum(ab);
    RetraceSumsToZero(ab, c);
    PathSumAppend(ab, c, back);
    OneDetent(ab, back, -1);
  }

  /** With the pins at rest (11) the two cycles are 11, 01, 00, 10, 11 and
      11, 10, 00, 01, 11. */
  lemma RestCycles()
    ensures ClockwiseCycle(3) == [1, 0, 2, 3] && Back(3, ClockwiseCycle(3)) == [2, 0, 1, 3]
  {
  }

  // ---- The button debouncer ----

  /** The debouncer's state: `_lastBtnState`, `_lastBtnTime`, `currentlyPressed`. */
  datatype Button = Button(lastState: Level, lastTime: int, pressed: bool)

  /** A reading is accepted when it differs from the previous reading and
      more than 50 ms have passed since the last accepted one, measured in
      `unsigned long` wrap-around arithmetic. */
  predicate Accepts(b: Button, reading: Level, now: int)
  {
    reading != b.lastState && WrapSub(now, b.lastTime) > DEBOUNCE_DELAY
  }

  datatype Debounced = Debounced(button: Button, release: bool)

  /** One `handleBtn` call on the debouncer's state; `release` says whether
      the button callback is due. */
  function Debounce(b: Button, reading: Level, now: int): (r: Debounced)
    ensures r.button.lastState == reading
    ensures Accepts(b, reading, now) ==> r.button.pressed == (reading == Low) && r.button.lastTime == now
    ensures !Accepts(b, reading, now) ==> r.button.pressed == b.pressed && r.button.lastTime == b.lastTime
    ensures r.release <==> Accepts(b, reading, now) && b.lastState == Low && reading == High
  {
    if Accepts(b, reading, now) then
      Debounced(Button(reading, now, reading == Low), b.lastState == Low)
    else
      Debounced(b.(lastState := reading), false)
  }

  /** A sequence of `handleBtn` calls: the final state and how many times
      the release callback was due. */
  datatype Edge = Edge(reading: Level, now: int)

  function DebounceRun(b: Button, edges: seq<Edge>): (Button, nat)
    decreases |edges|
  {
    if edges == [] then (b, 0)
    else
      var r := Debounce(b, edges[0].reading, edges[0].now);
      var (e, n) := DebounceRun(r.button, edges[1..]);
      (e, n + if r.release then 1 else 0)
  }

  /** Bounces inside the debounce window are ignored: after a transition
      accepted at `lastTime`, edges arriving no more than 50 ms later change
      neither the pressed state nor the time stamp, and fire no callback. */
  lemma {:induction false} BouncesIgnored(b: Button, edges: seq<Edge>)
    requires forall i :: 0 <= i < |edges| ==> WrapSub(edges[i].now, b.lastTime) <= DEBOUNCE_DELAY
    ensures DebounceRun(b, edges).0.pressed == b.pressed
    ensures DebounceRun(b, edges).0.lastTime == b.lastTime
    ensures DebounceRun(b, edges).1 == 0
    decreases |edges|
  {
    if edges != [] {
      var r := Debounce(b, edges[0].reading, edges[0].now);
      assert !r.release && r.button.lastTime == b.lastTime && r.button.pressed == b.pressed;
      forall i | 0 <= i < |edges[1..]|
        ensures WrapSub(edges[1..][i].now, r.button.lastTime) <= DEBOUNCE_DELAY
      {
        assert edges[1..][i] == edges[i + 1];
      }
      BouncesIgnored(r.button, edges[1..]);
    }
  }

  // ---- Objects ----

  /** The shared `volatile int` a decoder counts detents into; the control
      loop reads it and sets it back to 0. */
  class Counter {
    var value: int

    constructor ()
      ensures value == 0
    {
      value := 0;
    }
  }

  /** The static `_instances` array and `_numInstances`. */
  class Pool {
    const instances: array<Encoder?>
    var numInstances: int

    ghost predicate Valid()
      reads this
    {
      instances.Length == MAX_INSTANCES && 0 <= numInstances <= MAX_INSTANCES
    }

    constructor ()
      ensures Valid() && fresh(instances) && numInstances == 0
      ensures forall i :: 0 <= i < instances.Length ==> instances[i] == null
    {
      instances := new Encoder?[MAX_INSTANCES](_ => null);
      numInstances := 0;
    }
  }

  class Encoder {
    const pinA: int
    const pinB: int
    const pinBtn: int
    /** `_valuePtr`: the counter this encoder's detents go to. */
    const counter: Counter
    /** Whether a button callback was given (`_btnCallback` is not null). */
    const hasCallback: bool
    /** `_index`: the pool slot count at construction time. */
    const index: int

    var lastStateA: Level
    var lastStateB: Level
    var lastBtnState: Level
    var lastBtnTime: int
    var oldAB: int
    var encval: int
    var currentlyPressed: bool

    ghost predicate Valid()
      reads this
    {
      0 <= oldAB < U8 && -3 <= encval <= 3 && IsU32(lastBtnTime) && 0 <= index <= MAX_INSTANCES
    }

    /** The debouncer part of the state. */
    function Btn(): Button
      reads this
    {
      Button(lastBtnState, lastBtnTime, currentlyPressed)
    }

    /** Construction registers the encoder into the next free slot of the
        pool; a seventh encoder still takes `_index` 6 but is not stored. The
        fields the constructor leaves alone start at zero, as the encoders are
        static objects. */
    constructor (pool: Pool, pinA: int, pinB: int, pinBtn: int, counter: Counter, hasCallback: bool)
      requires pool.Valid()
      modifies pool, pool.instances
      ensures Valid() && pool.Valid()
      ensures this.pinA == pinA && this.pinB == pinB && this.pinBtn == pinBtn
      ensures this.counter == counter && this.hasCallback == hasCallback
      ensures index == old(pool.numInstances)
      ensures lastStateA == Low && lastStateB == Low && lastBtnState == High && lastBtnTime == 0
      ensures oldAB == 0 && encval == 0 && !currentlyPressed
      ensures old(pool.numInstances) < MAX_INSTANCES ==>
                pool.numInstances == old(pool.numInstances) + 1 &&
                pool.instances[..] == old(pool.instances[..])[old(pool.numInstances) := this]
      ensures old(pool.numInstances) >= MAX_INSTANCES ==>
                pool.numInstances == old(pool.numInstances) && pool.instances[..] == old(pool.instances[..])
    {
      this.pinA := pinA;
      this.pinB := pinB;
      this.pinBtn := pinBtn;
      this.counter := counter;
      this.hasCallback := hasCallback;
      lastBtnTime := 0;
      lastStateA := Low;
      lastStateB := Low;
      lastBtnState := High;
      index := pool.numInstances;
      oldAB := 0;
      encval := 0;
      currentlyPressed := false;
      new;
      if pool.numInstances < MAX_INSTANCES {
        pool.instances[pool.numInstances] := this;
        pool.numInstances := pool.numInstances + 1;
      }
    }

    /** `begin`: the three pins are sampled (their levels are parameters) and
        the decoder and the pressed flag are reset. */
    method Begin(a: Level, b: Level, btn: Level)
      requires Valid()
      modifies this
      ensures Valid()
      ensures lastStateA == a && lastStateB == b && lastBtnState == btn
      ensures oldAB == 3 && encval == 0 && !currentlyPressed
      ensures lastBtnTime == old(lastBtnTime)
    {
      lastStateA := a;
      lastStateB := b;
      lastBtnState := btn;
      oldAB := 3;
      encval := 0;
      currentlyPressed := false;
    }

    /** `handleEncoderISR` with the current pin levels: one step of `Feed`,
        which moves the counter by at most one, and only in a step that
        resets the accumulator. */
    method HandleEncoderISR(a: Level, b: Level)
      requires Valid()
      modifies this, counter
      ensures Valid()
      ensures oldAB == ShiftIn(old(oldAB), a, b)
      ensures Feed(old(oldAB) % 4, old(encval), [PinBits(a, b)]) == Trace(oldAB % 4, encval, counter.value - old(counter.value))
      ensures -1 <= counter.value - old(counter.value) <= 1
      ensures counter.value != old(counter.value) ==> encval == 0
      ensures currentlyPressed == old(currentlyPressed) && lastBtnState == old(lastBtnState)
      ensures lastBtnTime == old(lastBtnTime)
      ensures lastStateA == old(lastStateA) && lastStateB == old(lastStateB)
    {
      ghost var prev := oldAB % 4;
      ShiftInPins(a, b);
      ghost var cur := PinBits(a, b);
      assert oldAB % 16 == prev * 4 + cur && oldAB % 4 == cur;
      TransitionTable(prev, cur);
      ghost var d := Accumulate(encval, Transition(prev, cur));
      FeedOne(prev, encval, cur);
      assert EncStates[oldAB % 16] == Transition(prev, cur);
      ghost var v := counter.value;
      encval := encval + EncStates[oldAB % 16];
      if encval > 3 {
        encval := 0;
        counter.value := counter.value + 1;
      } else if encval < -3 {
        encval := 0;
        counter.value := counter.value - 1;
      }
      assert encval == d.encval && counter.value - v == d.delta;
    }

    /** The first half of `handleEncoderISR`: `_old_AB` shifted left by two
        in its `uint8_t`, with the pin levels OR-ed into the two low bits. */
    method ShiftInPins(a: Level, b: Level)
      requires Valid()
      modifies this
      ensures Valid() && oldAB == ShiftIn(old(oldAB), a, b)
      ensures encval == old(encval) && currentlyPressed == old(currentlyPressed)
      ensures lastBtnState == old(lastBtnState) && lastBtnTime == old(lastBtnTime)
      ensures lastStateA == old(lastStateA) && lastStateB == old(lastStateB)
    {
      oldAB := (oldAB * 4) % U8;
      if a == High {
        oldAB := oldAB + 2;
      }
      if b == High {
        oldAB := oldAB + 1;
      }
    }

    /** `handleBtn` with the button level and `millis()`: one step of
        `Debounce`; the result says whether the callback ran. */
    method HandleBtn(reading: Level, now: int) returns (callback: bool)
      requires Valid() && IsU32(now)
      modifies this
      ensures Valid()
      ensures Btn() == Debounce(old(Btn()), reading, now).button
      ensures callback == (hasCallback && Debounce(old(Btn()), reading, now).release)
      ensures oldAB == old(oldAB) && encval == old(encval)
      ensures lastStateA == old(lastStateA) && lastStateB == old(lastStateB)
    {
      callback := false;
      if reading != lastBtnState && WrapSub(now, lastBtnTime) > DEBOUNCE_DELAY {
        currentlyPressed := reading == Low;
        if lastBtnState == Low && reading == High {
          if hasCallback {
            callback := true;
          }
        }
        lastBtnTime := now;
      }
      lastBtnState := reading;
    }
  }
}

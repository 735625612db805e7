/** The integer geometry of lib/Clocks/src/Clocks.cpp: the square rings of
    the 16x16 matrix, `getPerimeterXY`, `drawPerimeter`, and the ring, bars
    and digital clock faces. Drawing is modelled as the sequence of matrix
    commands a face issues; the time is the `tm` that `getLocalTime`
    yields, or `None` when it fails. */
module Clocks {
  import opened Arduino

  /** The three components given to `matrix->Color`. */
  datatype Color = Color(r: int, g: int, b: int)

  const HOURS_COLOR: Color := Color(255, 0, 0)
  const QUARTERS_COLOR: Color := Color(100, 0, 0)
  const MINUTE_COLOR: Color := Color(0, 255, 0)
  const SECONDS_COLOR: Color := Color(0, 0, 255)
  const GREY_COLOR: Color := Color(100, 100, 100)
  const BLACK: Color := Color(0, 0, 0)
  const WHITE: Color := Color(255, 255, 255)

  /** The matrix calls the clock faces make. `FillScreen` takes the raw
      RGB565 word (always 0 here). */
  datatype Cmd =
    | FillScreen(word: int)
    | DrawPixel(x: int, y: int, color: Color)
    | FillRect(x: int, y: int, w: int, h: int, color: Color)
    | SetTextColor(color: Color)
    | SetTextSize(size: int)
    | SetCursor(x: int, y: int)
    | Print(text: string)

  /** The fields of `struct tm` the faces read. */
  datatype Tm = Tm(hour: int, min: int, sec: int)

  /** The ranges C gives the fields (`tm_sec` allows a leap second). */
  predicate ValidTm(t: Tm)
  {
    0 <= t.hour < 24 && 0 <= t.min < 60 && 0 <= t.sec <= 60
  }

  const SIZE: int := 16

  datatype Cell = Cell(x: int, y: int)

  // ---- getPerimeterXY ----

  /** The first row and column of the ring of side `ringSize`, centred on the
      16x16 matrix. */
  function RingStart(ringSize: int): int { CDiv(SIZE - ringSize, 2) }

  /** One past the last row and column of the ring. */
  function RingEnd(ringSize: int): int { RingStart(ringSize) + ringSize }

  /** The number of cells on the ring's border. */
  function Perimeter(ringSize: int): int { (ringSize - 1) * 4 }

  /** The border cells of the square [start, end) x [start, end). */
  predicate OnSquare(start: int, end: int, x: int, y: int)
  {
    start <= x < end && start <= y < end &&
    (x == start || x == end - 1 || y == start || y == end - 1)
  }

  predicate OnRing(ringSize: int, c: Cell)
  {
    OnSquare(RingStart(ringSize), RingEnd(ringSize), c.x, c.y)
  }

  /** The index rotated by half a side, so that index 0 falls mid-way along
      the top row; C's `%` keeps the sign of a negative index. */
  function RotatedIndex(ringSize: int, idx: int): (p: int)
    requires ringSize >= 2
    ensures -Perimeter(ringSize) < p < Perimeter(ringSize)
    ensures idx + ringSize / 2 >= 0 ==> 0 <= p
  {
    CRem(idx + ringSize / 2, Perimeter(ringSize))
  }

  /** Whether `getPerimeterXY` reaches its final `else`. */
  predicate TakesFinalBranch(ringSize: int, idx: int)
    requires ringSize >= 2
  {
    RotatedIndex(ringSize, idx) >= (ringSize - 1) * 4
  }

  /** `getPerimeterXY(ringSize, idx, x, y)`: the cell of position `idx` on the
      ring, counted clockwise along the top row, the right column, the bottom
      row and the left column. That cell lies on the ring for every index
      that is not negative. */
  function GetPerimeterXY(ringSize: int, idx: int): (c: Cell)
    requires ringSize >= 2
    ensures idx >= 0 ==> OnRing(ringSize, c)
  {
    var start := RingStart(ringSize);
    var end := start + ringSize;
    var p := RotatedIndex(ringSize, idx);
    if p < ringSize - 1 then Cell(start + p, start)
    else if p < (ringSize - 1) * 2 then Cell(end - 1, start + (p - (ringSize - 1)))
    else if p < (ringSize - 1) * 3 then Cell(end - 1 - (p - (ringSize - 1) * 2), end - 1)
    else if p < (ringSize - 1) * 4 then Cell(start, end - 1 - (p - (ringSize - 1) * 3))
    else Cell(start + p, start)
  }

  /** The final `else` of `getPerimeterXY` is dead code: the rotated index is
      always below the perimeter, negative indices included. */
  lemma FinalBranchUnreachable(ringSize: int, idx: int)
    requires ringSize >= 2
    ensures !TakesFinalBranch(ringSize, idx)
  {
  }

  /** Index 0 lands at the top row, half a side to the right of the corner. */
  lemma IndexZeroAtTop(ringSize: int)
    requires ringSize >= 2
    ensures GetPerimeterXY(ringSize, 0) == Cell(RingStart(ringSize) + ringSize / 2, RingStart(ringSize))
  {
    ModSmall(ringSize / 2, Perimeter(ringSize));
  }

  lemma ModSmall(a: int, n: int)
    requires 0 < n && 0 <= a < 2 * n
    ensures a % n == if a < n then a else a - n
  {
    if a >= n {
      assert a == n + (a - n);
    }
  }

  /** The position of a border cell along the ring, before the rotation. */
  function BorderPosition(ringSize: int, c: Cell): (p: int)
    requires ringSize >= 2 && OnRing(ringSize, c)
    ensures 0 <= p < Perimeter(ringSize)
  {
    var start := RingStart(ringSize);
    var m := ringSize - 1;
    var dx := c.x - start;
    var dy := c.y - start;
    if c.y == start && dx < m then dx
    else if dx == m && dy < m then m + dy
    else if dy == m && dx > 0 then 3 * m - dx
    else 4 * m - dy
  }

  /** The inverse of `getPerimeterXY`: the index in [0, perimeter) of a
      border cell. */
  function PerimeterIndexOf(ringSize: int, c: Cell): (idx: int)
    requires ringSize >= 2 && OnRing(ringSize, c)
    ensures 0 <= idx < Perimeter(ringSize)
  {
    var p := BorderPosition(ringSize, c);
    var h := ringSize / 2;
    if p >= h then p - h else p - h + Perimeter(ringSize)
  }

  /** Every index of [0, perimeter) lands on the ring, and its cell gives the
      index back. */
  lemma PerimeterRoundTrip(ringSize: int, idx: int)
    requires ringSize >= 2 && 0 <= idx < Perimeter(ringSize)
    ensures OnRing(ringSize, GetPerimeterXY(ringSize, idx))
    ensures PerimeterIndexOf(ringSize, GetPerimeterXY(ringSize, idx)) == idx
  {
    ModSmall(idx + ringSize / 2, Perimeter(ringSize));
  }

  /** Every border cell is the cell of its index. */
  lemma PerimeterOnto(ringSize: int, c: Cell)
    requires ringSize >= 2 && OnRing(ringSize, c)
    ensures GetPerimeterXY(ringSize, PerimeterIndexOf(ringSize, c)) == c
  {
    var p := BorderPosition(ringSize, c);
    var idx := PerimeterIndexOf(ringSize, c);
    ModSmall(idx + ringSize / 2, Perimeter(ringSize));
    assert RotatedIndex(ringSize, idx) == p;
  }

  /** So `getPerimeterXY` is a bijection from [0, perimeter) onto the border:
      distinct indices give distinct cells. */
  lemma PerimeterInjective(ringSize: int, i: int, j: int)
    requires ringSize >= 2 && 0 <= i < Perimeter(ringSize) && 0 <= j < Perimeter(ringSize)
    requires GetPerimeterXY(ringSize, i) == GetPerimeterXY(ringSize, j)
    ensures i == j
  {
    PerimeterRoundTrip(ringSize, i);
    PerimeterRoundTrip(ringSize, j);
  }

  /** The three rings the ring clock uses hold 60, 52 and 44 positions. */
  lemma RingPositions()
    ensures Perimeter(16) == 60 && RingStart(16) == 0 && RingEnd(16) == 16
    ensures Perimeter(14) == 52 && RingStart(14) == 1 && RingEnd(14) == 15
    ensures Perimeter(12) == 44 && RingStart(12) == 2 && RingEnd(12) == 14
  {
  }

  // ---- drawPerimeter ----

  /** max(0, b - a): the number of steps of a loop from a up to b. */
  function Span(a: int, b: int): nat { if b > a then b - a else 0 }

  function TopRow(start: int, end: int, color: Color): seq<Cmd>
  {
    seq(Span(start, end), k => DrawPixel(start + k, start, color))
  }

  function RightColumn(start: int, end: int, color: Color): seq<Cmd>
  {
    seq(Span(start + 1, end - 1), k => DrawPixel(end - 1, start + 1 + k, color))
  }

  function BottomRow(start: int, end: int, color: Color): seq<Cmd>
  {
    seq(Span(start, end), k => DrawPixel(end - 1 - k, end - 1, color))
  }

  function LeftColumn(start: int, end: int, color: Color): seq<Cmd>
  {
    seq(Span(start + 1, end - 1), k => DrawPixel(start, end - 2 - k, color))
  }

  /** The pixels `drawPerimeter(matrix, start, end, color)` draws, in order. */
  function PerimeterWalk(start: int, end: int, color: Color): (r: seq<Cmd>)
    ensures |r| == 2 * Span(start, end) + 2 * Span(start + 1, end - 1)
    ensures forall k :: 0 <= k < |r| ==> r[k].DrawPixel? && r[k].color == color
  {
    TopRow(start, end, color) + RightColumn(start, end, color) +
    BottomRow(start, end, color) + LeftColumn(start, end, color)
  }

  /** `drawPerimeter`: four counting loops, each drawing one side. */
  method DrawPerimeter(start: int, end: int, color: Color) returns (cmds: seq<Cmd>)
    ensures cmds == PerimeterWalk(start, end, color)
  {
    cmds := [];
    var x := start;
    while x < end
      invariant start <= x && (x <= end || x == start)
      invariant cmds == TopRow(start, x, color)
    {
      cmds := cmds + [DrawPixel(x, start, color)];
      x := x + 1;
    }
    assert cmds == TopRow(start, end, color);
    ghost var done := cmds;
    var y := start + 1;
    while y < end - 1
      invariant start + 1 <= y && (y <= end - 1 || y == start + 1)
      invariant cmds == done + seq(y - (start + 1), k => DrawPixel(end - 1, start + 1 + k, color))
    {
      cmds := cmds + [DrawPixel(end - 1, y, color)];
      y := y + 1;
    }
    assert cmds == done + RightColumn(start, end, color);
    done := cmds;
    x := end - 1;
    while x >= start
      invariant x <= end - 1 && (start - 1 <= x || x == end - 1)
      invariant cmds == done + seq(end - 1 - x, k => DrawPixel(end - 1 - k, end - 1, color))
    {
      cmds := cmds + [DrawPixel(x, end - 1, color)];
      x := x - 1;
    }
    assert cmds == done + BottomRow(start, end, color);
    done := cmds;
    y := end - 2;
    while y > start
      invariant y <= end - 2 && (start <= y || y == end - 2)
      invariant cmds == done + seq(end - 2 - y, k => DrawPixel(start, end - 2 - k, color))
    {
      cmds := cmds + [DrawPixel(start, y, color)];
      y := y - 1;
    }
    assert cmds == done + LeftColumn(start, end, color);
  }

  /** The position of a border cell in the walk. */
  function WalkIndexOf(start: int, end: int, x: int, y: int): (k: int)
    requires end - start >= 2 && OnSquare(start, end, x, y)
    ensures 0 <= k < 4 * (end - start) - 4
  {
    var n := end - start;
    if y == start then x - start
    else if x == end - 1 && y < end - 1 then n + (y - start - 1)
    else if y == end - 1 then 2 * n - 2 + (end - 1 - x)
    else 3 * n - 2 + (end - 2 - y)
  }

  /** Each step of the walk draws a border cell in the given colour, at the
      position `WalkIndexOf` names. */
  lemma WalkStep(start: int, end: int, color: Color, k: int)
    requires end - start >= 2 && 0 <= k < |PerimeterWalk(start, end, color)|
    ensures |PerimeterWalk(start, end, color)| == 4 * (end - start) - 4
    ensures var c := PerimeterWalk(start, end, color)[k];
      c.DrawPixel? && c.color == color && OnSquare(start, end, c.x, c.y) &&
      WalkIndexOf(start, end, c.x, c.y) == k
  {
  }

  /** Each border cell is drawn at the step `WalkIndexOf` names. */
  lemma WalkReaches(start: int, end: int, color: Color, x: int, y: int)
    requires end - start >= 2 && OnSquare(start, end, x, y)
    ensures |PerimeterWalk(start, end, color)| == 4 * (end - start) - 4
    ensures PerimeterWalk(start, end, color)[WalkIndexOf(start, end, x, y)] == DrawPixel(x, y, color)
  {
  }

  /** `drawPerimeter` on a square of side n >= 2 draws 4n - 4 pixels: every
      border cell exactly once, and nothing else. */
  lemma PerimeterExactlyOnce(start: int, end: int, color: Color)
    requires end - start >= 2
    ensures |PerimeterWalk(start, end, color)| == 4 * (end - start) - 4
    ensures forall k :: 0 <= k < |PerimeterWalk(start, end, color)| ==>
      PerimeterWalk(start, end, color)[k].DrawPixel? &&
      PerimeterWalk(start, end, color)[k].color == color &&
      OnSquare(start, end, PerimeterWalk(start, end, color)[k].x, PerimeterWalk(start, end, color)[k].y)
    ensures forall i, j :: 0 <= i < j < |PerimeterWalk(start, end, color)| ==>
      PerimeterWalk(start, end, color)[i] != PerimeterWalk(start, end, color)[j]
    ensures forall x, y :: OnSquare(start, end, x, y) ==>
      exists k :: 0 <= k < |PerimeterWalk(start, end, color)| && PerimeterWalk(start, end, color)[k] == DrawPixel(x, y, color)
  {
    var w := PerimeterWalk(start, end, color);
    WalkStep(start, end, color, 0);
    forall k | 0 <= k < |w|
      ensures w[k].DrawPixel? && w[k].color == color && OnSquare(start, end, w[k].x, w[k].y)
    {
      WalkStep(start, end, color, k);
    }
    forall i, j | 0 <= i < j < |w|
      ensures w[i] != w[j]
    {
      WalkStep(start, end, color, i);
      WalkStep(start, end, color, j);
    }
    forall x, y | OnSquare(start, end, x, y)
      ensures exists k :: 0 <= k < |w| && w[k] == DrawPixel(x, y, color)
    {
      WalkReaches(start, end, color, x, y);
    }
  }

  /** A square of side 1 draws its single cell twice (the top row and the
      bottom row both contain it); an empty square draws nothing. */
  lemma DegeneratePerimeters(start: int, color: Color)
    ensures PerimeterWalk(start, start + 1, color) == [DrawPixel(start, start, color), DrawPixel(start, start, color)]
    ensures PerimeterWalk(start, start, color) == []
  {
  }

  // ---- Ring clock ----

  /** `tm_sec % 60`: the position on the outer ring. */
  function SecondIndex(t: Tm): (i: int)
    ensures ValidTm(t) ==> 0 <= i <= 59 && (t.sec < 60 ==> i == t.sec)
  {
    CRem(t.sec, 60)
  }

  /** `map(tm_min, 0, 59, 0, 51)`: the position on the middle ring. */
  function MinuteIndex(t: Tm): (i: int)
    ensures ValidTm(t) ==> 0 <= i <= 51
    ensures t.min == 0 ==> i == 0
    ensures t.min == 59 ==> i == 51
  {
    MinuteMap(t.min);
    ArduinoMap(t.min, 0, 59, 0, 51)
  }

  lemma MinuteMap(m: int)
    ensures 0 <= m <= 59 ==> 0 <= ArduinoMap(m, 0, 59, 0, 51) <= 51
  {
    if 0 <= m <= 59 {
      ArduinoMapRange(m, 0, 59, 0, 51);
    }
  }

  /** `map((tm_hour % 12) * 4 + tm_min / 15, 0, 47, 0, 43)`: the quarter hour
      on the inner ring. */
  function HourIndex(t: Tm): (i: int)
    ensures ValidTm(t) ==> 0 <= i <= 43
    ensures t.hour % 12 == 0 && 0 <= t.hour && 0 <= t.min < 15 ==> i == 0
    ensures t.hour == 11 && 45 <= t.min < 60 ==> i == 43
  {
    var q := CRem(t.hour, 12) * 4 + CDiv(t.min, 15);
    QuarterMap(q);
    ArduinoMap(q, 0, 47, 0, 43)
  }

  /** The quarter-hour map keeps [0, 47] inside [0, 43]. */
  lemma QuarterMap(q: int)
    ensures 0 <= q <= 47 ==> 0 <= ArduinoMap(q, 0, 47, 0, 43) <= 43
  {
    if 0 <= q <= 47 {
      ArduinoMapRange(q, 0, 47, 0, 43);
    }
  }

  /** What `drawRingClock` draws after the three backgrounds. */
  function RingHands(t: Tm): (r: seq<Cmd>)
    ensures |r| == 3 && forall k :: 0 <= k < 3 ==> r[k].DrawPixel?
    ensures r[0].color == SECONDS_COLOR && r[1].color == MINUTE_COLOR && r[2].color == HOURS_COLOR
  {
    var s := GetPerimeterXY(16, SecondIndex(t));
    var m := GetPerimeterXY(14, MinuteIndex(t));
    var h := GetPerimeterXY(12, HourIndex(t));
    [DrawPixel(s.x, s.y, SECONDS_COLOR), DrawPixel(m.x, m.y, MINUTE_COLOR), DrawPixel(h.x, h.y, HOURS_COLOR)]
  }

  /** `drawRingClock`: nothing when the time is unavailable; otherwise the
      screen is cleared, the three rings are painted grey, black and grey,
      and one pixel each marks the second, the minute and the hour. */
  method DrawRingClock(time: Option<Tm>) returns (cmds: seq<Cmd>)
    ensures time.None? ==> cmds == []
    ensures time.Some? ==>
      cmds == [FillScreen(0)] + PerimeterWalk(0, 16, GREY_COLOR) + PerimeterWalk(1, 15, BLACK) +
              PerimeterWalk(2, 14, GREY_COLOR) + RingHands(time.value)
  {
    if time.None? {
      return [];
    }
    var t := time.value;
    cmds := [FillScreen(0)];
    var ring := DrawPerimeter(0, 16, GREY_COLOR);
    cmds := cmds + ring;
    ring := DrawPerimeter(1, 15, BLACK);
    cmds := cmds + ring;
    ring := DrawPerimeter(2, 14, GREY_COLOR);
    cmds := cmds + ring;
    var s := GetPerimeterXY(16, SecondIndex(t));
    cmds := cmds + [DrawPixel(s.x, s.y, SECONDS_COLOR)];
    var m := GetPerimeterXY(14, MinuteIndex(t));
    cmds := cmds + [DrawPixel(m.x, m.y, MINUTE_COLOR)];
    var h := GetPerimeterXY(12, HourIndex(t));
    cmds := cmds + [DrawPixel(h.x, h.y, HOURS_COLOR)];
  }

  /** For a valid time each hand pixel lies on its own ring, and the second,
      minute and hour positions use 60, 52 and 44 of the ring's cells. */
  lemma RingHandsOnRings(t: Tm)
    requires ValidTm(t)
    ensures var hands := RingHands(t);
      OnSquare(0, 16, hands[0].x, hands[0].y) &&
      OnSquare(1, 15, hands[1].x, hands[1].y) &&
      OnSquare(2, 14, hands[2].x, hands[2].y)
    ensures SecondIndex(t) < Perimeter(16) && MinuteIndex(t) < Perimeter(14) && HourIndex(t) < Perimeter(12)
  {
    RingPositions();
  }

  // ---- Bars clock ----

  /** The bars of `drawBarsClock` for one value: `full` complete lines of
      width 5 (of height `full`, stacked up from row 13) and a partial line
      of `rem` pixels above them. */
  function Bar(x: int, full: int, rem: int, width: int, color: Color, fullColor: Color): seq<Cmd>
  {
    (if full > 0 then [FillRect(x, SIZE - 2 - full, width, full, fullColor)] else []) +
    [FillRect(x, SIZE - 2 - full - 1, rem, 1, color)]
  }

  /** The commands of `drawBarsClock` after the clear and the two grey bands:
      hours at the left with the quarter hour above, then the minutes and
      the seconds in fives. */
  function BarsBody(t: Tm): (r: seq<Cmd>)
    ensures 3 <= |r| <= 6
    ensures forall k :: 0 <= k < |r| ==> r[k].FillRect?
    ensures forall k :: 0 <= k < |r| ==> r[k].h == 1 || r[k].y + r[k].h == SIZE - 2
  {
    var hourHeight := CRem(t.hour, 12);
    var quarterWidth := CDiv(t.min, 15);
    Bar(0, hourHeight, quarterWidth, 4, QUARTERS_COLOR, HOURS_COLOR) +
    Bar(5, CDiv(t.min, 5), CRem(t.min, 5), 5, MINUTE_COLOR, MINUTE_COLOR) +
    Bar(SIZE - 5, CDiv(t.sec, 5), CRem(t.sec, 5), 5, SECONDS_COLOR, SECONDS_COLOR)
  }

  /** `drawBarsClock`. */
  function BarsClock(time: Option<Tm>): (cmds: seq<Cmd>)
    ensures time.None? ==> cmds == []
    ensures time.Some? ==>
      |cmds| >= 3 &&
      cmds[..3] == [FillScreen(0), FillRect(0, 0, SIZE, 2, GREY_COLOR), FillRect(0, SIZE - 2, SIZE, 2, GREY_COLOR)]
  {
    match time
    case None => []
    case Some(t) =>
      [FillScreen(0), FillRect(0, 0, SIZE, 2, GREY_COLOR), FillRect(0, SIZE - 2, SIZE, 2, GREY_COLOR)] + BarsBody(t)
  }

  /** A rectangle inside rows 2..13 and columns 0..15. */
  predicate InBarArea(c: Cmd)
  {
    c.FillRect? && 0 <= c.x && 0 <= c.w && c.x + c.w <= SIZE && 2 <= c.y && 0 <= c.h && c.y + c.h <= SIZE - 2
  }

  /** The bar sizes encode the time: the hour bar is 0..11 high, the quarter
      line 0..3 wide, and full lines times 5 plus the partial line gives the
      minutes and the seconds. With `tm_sec` at most 59 every bar stays
      between the grey bands. */
  lemma BarsLayout(t: Tm)
    requires ValidTm(t)
    ensures 0 <= CRem(t.hour, 12) <= 11 && 0 <= CDiv(t.min, 15) <= 3
    ensures CDiv(t.min, 5) * 5 + CRem(t.min, 5) == t.min
    ensures CDiv(t.sec, 5) * 5 + CRem(t.sec, 5) == t.sec
    ensures t.sec <= 59 ==> forall k :: 0 <= k < |BarsBody(t)| ==> InBarArea(BarsBody(t)[k])
  {
  }

  /** A leap second (`tm_sec == 60`) pushes the seconds' partial line to
      row 1, into the top grey band; the line has width 0, so it draws
      nothing there. */
  lemma LeapSecondBar()
    ensures BarsBody(Tm(0, 0, 60))[|BarsBody(Tm(0, 0, 60))| - 1] == FillRect(SIZE - 5, 1, 0, 1, SECONDS_COLOR)
  {
  }

  // ---- Digital clock ----

  /** What `snprintf(buf, 3, "%02d", n)` leaves in the 3-byte buffer: `n`
      zero-padded to two characters (after a minus sign, if any), cut to
      two characters. */
  function Pad2(n: int): (s: string)
    ensures |s| == 2
  {
    var full := if n < 0 then "-" + NatString(-n) else if n < 10 then "0" + NatString(n) else NatString(n);
    full[..2]
  }

  /** Two-digit values print as their two digits, which read back as the
      value. */
  lemma Pad2Digits(n: int)
    requires 0 <= n < 100
    ensures AllDigits(Pad2(n)) && DigitsValue(Pad2(n)) == n
    ensures Pad2(n) == [DigitChar(n / 10), DigitChar(n % 10)]
  {
    var s := Pad2(n);
    if n >= 10 {
      assert NatString(n / 10) == [DigitChar(n / 10)];
      assert NatString(n) == [DigitChar(n / 10), DigitChar(n % 10)];
    } else {
      assert NatString(n) == [DigitChar(n)];
      assert DigitChar(0) == '0';
    }
    assert s == [DigitChar(n / 10), DigitChar(n % 10)];
    assert s[..1] == [DigitChar(n / 10)];
    assert DigitsValue(s[..1]) == n / 10 by {
      assert s[..1][..0] == [];
    }
  }

  /** `drawDigitalClock`: the hour at (2, 0), a colon at (12, 0) on even
      seconds only, and the minute at (2, 8), in white at size 1. */
  function DigitalClock(time: Option<Tm>): (cmds: seq<Cmd>)
    ensures time.None? ==> cmds == []
  {
    match time
    case None => []
    case Some(t) =>
      [FillScreen(0), SetTextColor(WHITE), SetTextSize(1), SetCursor(2, 0), Print(Pad2(t.hour))] +
      (if CRem(t.sec, 2) == 0 then [SetCursor(12, 0), Print(":")] else []) +
      [SetCursor(2, 8), Print(Pad2(t.min))]
  }

  /** The colon is drawn iff the second is even, and the two rows show the
      hour and the minute as two digits. */
  lemma DigitalLayout(t: Tm)
    requires ValidTm(t)
    ensures var cmds := DigitalClock(Some(t));
      (Print(":") in cmds <==> t.sec % 2 == 0) &&
      cmds[3..5] == [SetCursor(2, 0), Print(Pad2(t.hour))] &&
      cmds[|cmds| - 2..] == [SetCursor(2, 8), Print(Pad2(t.min))]
    ensures DigitsValue(Pad2(t.hour)) == t.hour && DigitsValue(Pad2(t.min)) == t.min
  {
    Pad2Digits(t.hour);
    Pad2Digits(t.min);
    var cmds := DigitalClock(Some(t));
    var head := [FillScreen(0), SetTextColor(WHITE), SetTextSize(1), SetCursor(2, 0), Print(Pad2(t.hour))];
    var tail := [SetCursor(2, 8), Print(Pad2(t.min))];
    if t.sec % 2 != 0 {
      assert cmds == head + tail;
      assert forall k :: 0 <= k < |cmds| ==> cmds[k] != Print(":") by {
        assert |Pad2(t.hour)| == 2 && |Pad2(t.min)| == 2;
      }
    } else {
      assert cmds == head + [SetCursor(12, 0), Print(":")] + tail;
      assert cmds[6] == Print(":");
    }
    assert cmds[3..5] == head[3..5];
  }

  /** Scenario: 09:05:07 prints "09" and "05" and no colon. */
  lemma DigitalScenario()
    ensures DigitalClock(Some(Tm(9, 5, 7))) ==
      [FillScreen(0), SetTextColor(WHITE), SetTextSize(1), SetCursor(2, 0), Print("09"), SetCursor(2, 8), Print("05")]
  {
    Pad2Digits(9);
    Pad2Digits(5);
    assert DigitChar(0) == '0' && DigitChar(9) == '9' && DigitChar(5) == '5';
  }
}

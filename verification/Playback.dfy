/**
 When a motion plays: the time within it, the weight it eases in and out with, and the sampling of its curves.
 */
module Playback {
  // Times and weights are real numbers.

  import F = MotionFormat
  import opened Wrappers

  /** The timing fields of a motion. */
  datatype Motion = Motion(
    loops: bool, duration: real, loopIn: real, loopOut: real, easeIn: real, easeOut: real, basePriority: int,
        priorities: seq<int>)

  /** The timing of a decoded file. */
  function TimingOf(m: F.Motion): Motion {
    Motion(m.timing.loops, m.header.duration, m.timing.loopIn, m.timing.loopOut, m.timing.easeIn, m.timing.easeOut,
           m.header.basePriority, seq(|m.joints|, k requires 0 <= k < |m.joints| => m.joints[k].priority))
  }

  function Max(a: real, b: real): real { if a >= b then a else b }

  function Min(a: real, b: real): real { if a <= b then a else b }

  function Abs(a: real): real { if a >= 0.0 then a else -a }

  // ---------------------------------------------------------------------------------
  // Products and quotients.  Each product is named, so that the facts about it stay linear.

  lemma TimesMonotone(d: real, x: real, y: real, dx: real, dy: real)
    requires d >= 0.0 && x <= y && dx == d * x && dy == d * y
    ensures dx <= dy
  {
  }

  lemma TimesStrict(d: real, x: real, y: real, dx: real, dy: real)
    requires d > 0.0 && x < y && dx == d * x && dy == d * y
    ensures dx < dy
  {
  }

  lemma TimesNext(b: real, f: real, bf: real, next: real)
    requires bf == b * f && next == b * (f + 1.0)
    ensures next == bf + b
  {
  }

  lemma TimesDifference(d: real, x: real, y: real, dx: real, dy: real, diff: real)
    requires dx == d * x && dy == d * y && diff == d * (y - x)
    ensures diff == dy - dx
  {
  }

  /** A quotient is what gives the dividend back. */
  lemma QuotientIs(a: real, d: real, q: real)
    requires d > 0.0 && d * q == a
    ensures a / d == q
  {
    var r := a / d;
    if r < q { TimesStrict(d, r, q, a, a); }
    if q < r { TimesStrict(d, q, r, a, a); }
  }

  lemma Quotient(a: real, b: real, d: real)
    requires a <= b && d > 0.0
    ensures a / d <= b / d && b / d - a / d == (b - a) / d
  {
    var x, y := a / d, b / d;
    if y < x { TimesStrict(d, y, x, b, a); }
    TimesDifference(d, x, y, a, b, d * (y - x));
    QuotientIs(b - a, d, y - x);
  }

  // ---------------------------------------------------------------------------------
  // Where in the motion an elapsed time falls.

  /** Towards zero. */
  function Truncated(q: real): int { if q >= 0.0 then q.Floor else -((-q).Floor) }

  /** The floating-point remainder, with the sign of the dividend. */
  function Remainder(a: real, b: real): real
    requires b != 0.0
  {
    a - b * Truncated(a / b) as real
  }

  function PlaybackTime(m: Motion, elapsed: real): real {
    var time := Max(elapsed, 0.0);
    if !m.loops then time
    else if m.duration == 0.0 then 0.0
    else if time <= m.loopOut then time
    else if m.loopOut - m.loopIn == 0.0 then m.loopOut
    else m.loopIn + Remainder(time - m.loopOut, m.loopOut - m.loopIn)
  }

  lemma RemainderInside(a: real, b: real)
    requires a >= 0.0 && b > 0.0
    ensures 0.0 <= Remainder(a, b) < b
  {
    var q, f := a / b, (a / b).Floor as real;
    if q < 0.0 { TimesStrict(b, q, 0.0, a, 0.0); }
    var bf, next := b * f, b * (f + 1.0);
    TimesMonotone(b, f, q, bf, a);
    TimesStrict(b, q, f + 1.0, a, next);
    TimesNext(b, f, bf, next);
    assert Remainder(a, b) == a - bf;
  }

  lemma RemainderOfNegative(a: real, b: real)
    requires a >= 0.0 && b < 0.0
    ensures Remainder(a, b) == Remainder(a, -b)
  {
    var q, r := a / b, a / -b;
    assert b * q == a && -b * r == a;
    assert b * (q + r) == 0.0;
    assert q == -r;
    if r < 0.0 { TimesStrict(-b, r, 0.0, a, 0.0); }
  }

  /** Past the loop-out point the time stays in the loop window exactly if the window is not empty;
      nothing in a motion file keeps the loop-in point from lying at or behind the loop-out point.
      A motion of no duration stands still at zero. */
  lemma LoopStaysInWindow(m: Motion, elapsed: real)
    requires m.loops && Max(elapsed, 0.0) > m.loopOut
    ensures m.loopIn <= PlaybackTime(m, elapsed) < m.loopOut
       <==> if m.duration == 0.0 then m.loopIn <= 0.0 < m.loopOut else m.loopIn < m.loopOut
    ensures m.duration != 0.0 && m.loopIn == m.loopOut ==> PlaybackTime(m, elapsed) == m.loopOut
    ensures m.duration != 0.0 && m.loopIn > m.loopOut ==>
              m.loopIn <= PlaybackTime(m, elapsed) < m.loopIn + (m.loopIn - m.loopOut)
  {
    var late, span := Max(elapsed, 0.0) - m.loopOut, m.loopOut - m.loopIn;
    if span > 0.0 {
      RemainderInside(late, span);
    } else if span < 0.0 {
      RemainderOfNegative(late, span);
      RemainderInside(late, -span);
    }
  }

  lemma RemainderSteps(a: real, b: real)
    requires a >= 0.0 && b > 0.0
    ensures Remainder(a + b, b) == Remainder(a, b)
  {
    var q, f := a / b, (a / b).Floor as real;
    if q < 0.0 { TimesStrict(b, q, 0.0, a, 0.0); }
    TimesNext(b, q, a, b * (q + 1.0));
    QuotientIs(a + b, b, q + 1.0);
    assert (q + 1.0).Floor as real == f + 1.0;
    var bf, next := b * f, b * (f + 1.0);
    TimesNext(b, f, bf, next);
    assert Remainder(a, b) == a - bf;
    assert Remainder(a + b, b) == a + b - next;
  }

  /** One span later, the motion is at the same time again, whichever way the loop points lie. */
  lemma LoopIsPeriodic(m: Motion, elapsed: real)
    requires m.loops && elapsed >= 0.0 && elapsed > m.loopOut
    ensures PlaybackTime(m, elapsed + Abs(m.loopOut - m.loopIn)) == PlaybackTime(m, elapsed)
  {
    var late, span := elapsed - m.loopOut, m.loopOut - m.loopIn;
    if span > 0.0 {
      RemainderSteps(late, span);
    } else if span < 0.0 {
      RemainderOfNegative(late, span);
      RemainderOfNegative(late - span, span);
      RemainderSteps(late, -span);
    }
    assert elapsed + Abs(span) - m.loopOut == late + Abs(span);
  }

  lemma RemainderOfPart(a: real, b: real)
    requires 0.0 <= a < b
    ensures Remainder(a, b) == a
  {
    var q := a / b;
    if q < 0.0 { TimesStrict(b, q, 0.0, a, 0.0); }
    if q >= 1.0 { TimesMonotone(b, 1.0, q, b, a); }
    assert q.Floor == 0;
  }

  /** After `k` whole spans and a part of another, `past` in all, the remainder is the part. */
  lemma {:induction false} RemainderAfterSpans(k: nat, part: real, b: real, past: real)
    requires 0.0 <= part < b && past == k as real * b + part
    ensures past >= part && Remainder(past, b) == part
  {
    if k == 0 {
      RemainderOfPart(part, b);
    } else {
      var before := (k - 1) as real * b + part;
      TimesNext(b, (k - 1) as real, b * (k - 1) as real, b * k as real);
      RemainderAfterSpans(k - 1, part, b, before);
      RemainderSteps(before, b);
    }
  }

  /** No time passes before the start.  A motion that does not loop is at the time elapsed, and so is one that does
      up to its loop-out point. */
  lemma TimeBeforeTheLoop(m: Motion, elapsed: real)
    ensures elapsed <= 0.0 ==> PlaybackTime(m, elapsed) == PlaybackTime(m, 0.0)
    ensures elapsed >= 0.0 && (!m.loops || (m.duration != 0.0 && elapsed <= m.loopOut)) ==>
              PlaybackTime(m, elapsed) == elapsed
    ensures m.loops && m.duration == 0.0 ==> PlaybackTime(m, elapsed) == 0.0
  {
  }

  /** From the loop-out point on, after `k` whole spans it is as far behind the loop-in point as it is into the next
      span, whichever way the loop points lie. */
  lemma TimeInTheLoop(m: Motion, elapsed: real, k: nat, part: real)
    requires m.loops && m.duration != 0.0 && elapsed >= 0.0 && elapsed > m.loopOut
    requires 0.0 <= part < Abs(m.loopOut - m.loopIn)
    requires elapsed == m.loopOut + (k as real * Abs(m.loopOut - m.loopIn) + part)
    ensures PlaybackTime(m, elapsed) == m.loopIn + part
  {
    var span := m.loopOut - m.loopIn;
    RemainderAfterSpans(k, part, Abs(span), elapsed - m.loopOut);
    if span < 0.0 { RemainderOfNegative(elapsed - m.loopOut, span); }
  }

  // ---------------------------------------------------------------------------------
  // The pose weight.

  function Clamp(x: real): real { Min(Max(x, 0.0), 1.0) }

  function CubicStep(x: real): real {
    var c := Clamp(x);
    c * c * (3.0 - 2.0 * c)
  }

  function EaseInWeight(m: Motion, elapsed: real): real {
    if m.easeIn <= 0.0 then 1.0 else CubicStep(elapsed / m.easeIn)
  }

  function EaseOutStart(m: Motion, stoppedAt: Option<real>): Option<real> {
    var natural := if m.loops then None else Some(Max(m.duration - m.easeOut, 0.0));
    if stoppedAt.Some? && natural.Some? then Some(Min(stoppedAt.value, natural.value))
    else if stoppedAt.Some? then stoppedAt
    else natural
  }

  function PoseWeight(m: Motion, elapsed: real, stoppedAt: Option<real>): real {
    var start := EaseOutStart(m, stoppedAt);
    if start.None? || elapsed < start.value then EaseInWeight(m, elapsed)
    else if m.easeOut <= 0.0 then 0.0
    else EaseInWeight(m, start.value) * CubicStep(1.0 - (elapsed - start.value) / m.easeOut)
  }

  predicate IsFinished(m: Motion, elapsed: real, stoppedAt: Option<real>) {
    var start := EaseOutStart(m, stoppedAt);
    start.Some? && elapsed >= start.value + m.easeOut
  }

  lemma StepInUnit(x: real)
    ensures 0.0 <= CubicStep(x) <= 1.0
    ensures x <= 0.0 ==> CubicStep(x) == 0.0
    ensures x >= 1.0 ==> CubicStep(x) == 1.0
  {
    var c := Clamp(x);
    StepRises(0.0, c);
    StepRises(c, 1.0);
  }

  /** The difference of two values of the ramp, as a product. */
  lemma StepDifference(a: real, b: real, slope: real, rise: real)
    requires 0.0 <= a <= b <= 1.0 && slope == 3.0 * (a + b) - 2.0 * (a * a + a * b + b * b) && rise == (b - a) * slope
    ensures CubicStep(b) - CubicStep(a) == rise
  {
    var s, q := a + b, a * a + a * b + b * b;
    assert (b - a) * s == b * b - a * a;
    assert (b - a) * q == b * b * b - a * a * a;
    assert (b - a) * (3.0 * s - 2.0 * q) == 3.0 * ((b - a) * s) - 2.0 * ((b - a) * q);
    assert b * b * (3.0 - 2.0 * b) == 3.0 * (b * b) - 2.0 * (b * b * b);
    assert a * a * (3.0 - 2.0 * a) == 3.0 * (a * a) - 2.0 * (a * a * a);
  }

  lemma SquareOfDifference(a: real, b: real, aa: real, ab: real, bb: real)
    requires aa == a * a && ab == a * b && bb == b * b
    ensures aa - 2.0 * ab + bb >= 0.0
  {
    var square := (a - b) * (a - b);
    assert square >= 0.0;
    assert square == aa - 2.0 * ab + bb;
  }

  lemma SquareOfSum(a: real, b: real, aa: real, ab: real, bb: real)
    requires aa == a * a && ab == a * b && bb == b * b
    ensures aa + 2.0 * ab + bb - 2.0 * (a + b) + 1.0 >= 0.0
  {
    var t, tt := a + b, (a + b) * (a + b);
    assert tt == aa + 2.0 * ab + bb;
    SquareOfDifference(t, 1.0, tt, t, 1.0);
  }

  lemma SlopeBounds(a: real, b: real, aa: real, ab: real, bb: real)
    requires 0.0 <= a <= b <= 1.0 && aa == a * a && ab == a * b && bb == b * b
    ensures 0.0 <= 3.0 * (a + b) - 2.0 * (aa + ab + bb) <= 1.5
  {
    TimesMonotone(a, a, 1.0, aa, a);
    TimesMonotone(b, b, 1.0, bb, b);
    TimesMonotone(a, b, 1.0, ab, a);
    TimesMonotone(b, a, 1.0, ab, b);
    SquareOfDifference(a, b, aa, ab, bb);
    SquareOfSum(a, b, aa, ab, bb);
  }

  lemma StepRises(a: real, b: real)
    requires 0.0 <= a <= b <= 1.0
    ensures 0.0 <= CubicStep(b) - CubicStep(a) <= 1.5 * (b - a)
  {
    var slope := 3.0 * (a + b) - 2.0 * (a * a + a * b + b * b);
    var rise := (b - a) * slope;
    StepDifference(a, b, slope, rise);
    SlopeBounds(a, b, a * a, a * b, b * b);
    TimesMonotone(b - a, 0.0, slope, 0.0, rise);
    TimesMonotone(b - a, slope, 1.5, rise, 1.5 * (b - a));
  }

  /** The ramp starts gently, and ends as it starts. */
  lemma StepIsGentle(x: real)
    requires 0.0 <= x <= 1.0
    ensures CubicStep(x) <= 3.0 * (x * x) && CubicStep(1.0 - x) == 1.0 - CubicStep(x)
  {
    var xx, y := x * x, 1.0 - x;
    assert y * y == 1.0 - 2.0 * x + xx;
    assert CubicStep(x) == 3.0 * xx - 2.0 * (xx * x);
    assert CubicStep(y) == (1.0 - 2.0 * x + xx) * (1.0 + 2.0 * x);
    TimesMonotone(xx, 0.0, x, 0.0, xx * x);
  }

  lemma StepIsMonotone(x: real, y: real)
    requires x <= y
    ensures CubicStep(x) <= CubicStep(y) <= CubicStep(x) + 1.5 * (y - x)
  {
    StepRises(Clamp(x), Clamp(y));
  }

  lemma EaseInMonotone(m: Motion, a: real, b: real)
    requires a <= b
    ensures 0.0 <= EaseInWeight(m, a) <= EaseInWeight(m, b) <= 1.0
    ensures m.easeIn > 0.0 ==> EaseInWeight(m, b) - EaseInWeight(m, a) <= 1.5 * ((b - a) / m.easeIn)
  {
    if m.easeIn > 0.0 {
      Quotient(a, b, m.easeIn);
      StepIsMonotone(a / m.easeIn, b / m.easeIn);
      StepInUnit(a / m.easeIn);
      StepInUnit(b / m.easeIn);
    }
  }

  lemma Product(r: real, x: real, y: real, rx: real, ry: real)
    requires 0.0 <= r <= 1.0 && 0.0 <= x <= y <= 1.0 && rx == r * x && ry == r * y
    ensures 0.0 <= rx <= ry <= 1.0 && ry - rx <= y - x
  {
    TimesMonotone(r, 0.0, x, 0.0, rx);
    TimesMonotone(r, x, y, rx, ry);
    TimesMonotone(y, r, 1.0, ry, y);
    TimesDifference(r, x, y, rx, ry, r * (y - x));
    TimesMonotone(y - x, r, 1.0, r * (y - x), y - x);
  }

  /** Until the ease-out starts, the weight only rises. */
  lemma WeightRises(m: Motion, a: real, b: real, stoppedAt: Option<real>)
    requires a <= b && (EaseOutStart(m, stoppedAt).None? || b < EaseOutStart(m, stoppedAt).value)
    ensures PoseWeight(m, a, stoppedAt) <= PoseWeight(m, b, stoppedAt)
  {
    EaseInMonotone(m, a, b);
  }

  lemma FallingStep(a: real, b: real, start: real, d: real)
    requires a <= b && d > 0.0
    ensures var x, y := 1.0 - (b - start) / d, 1.0 - (a - start) / d;
            x <= y && y - x == (b - a) / d && CubicStep(x) <= CubicStep(y) <= CubicStep(x) + 1.5 * ((b - a) / d)
  {
    Quotient(a - start, b - start, d);
    StepIsMonotone(1.0 - (b - start) / d, 1.0 - (a - start) / d);
  }

  /** The ease-out ramp. */
  function Fade(m: Motion, start: real, elapsed: real): real
    requires m.easeOut > 0.0
  {
    CubicStep(1.0 - (elapsed - start) / m.easeOut)
  }

  lemma FadeFalls(m: Motion, start: real, a: real, b: real)
    requires m.easeOut > 0.0 && a <= b
    ensures 0.0 <= Fade(m, start, b) <= Fade(m, start, a) <= 1.0
    ensures Fade(m, start, a) - Fade(m, start, b) <= 1.5 * ((b - a) / m.easeOut)
  {
    FallingStep(a, b, start, m.easeOut);
    StepInUnit(1.0 - (a - start) / m.easeOut);
    StepInUnit(1.0 - (b - start) / m.easeOut);
  }

  /** The weight while easing out, from the weight `r` that the ease-in had reached. */
  lemma RampFalls(m: Motion, start: real, a: real, b: real, r: real, wa: real, wb: real)
    requires m.easeOut > 0.0 && a <= b && 0.0 <= r <= 1.0 && wa == r * Fade(m, start, a) && wb == r * Fade(m, start, b)
    ensures 0.0 <= wb <= wa <= 1.0 && wa - wb <= 1.5 * ((b - a) / m.easeOut)
  {
    FadeFalls(m, start, a, b);
    Product(r, Fade(m, start, b), Fade(m, start, a), wb, wa);
  }

  lemma EasingOut(m: Motion, elapsed: real, stoppedAt: Option<real>)
    requires EaseOutStart(m, stoppedAt).Some? && EaseOutStart(m, stoppedAt).value <= elapsed && m.easeOut > 0.0
    ensures var start := EaseOutStart(m, stoppedAt).value;
            PoseWeight(m, elapsed, stoppedAt) == EaseInWeight(m, start) * Fade(m, start, elapsed)
  {
  }

  lemma EaseInUnit(m: Motion, elapsed: real)
    ensures 0.0 <= EaseInWeight(m, elapsed) <= 1.0
  {
    EaseInMonotone(m, elapsed, elapsed);
  }

  lemma FadingFalls(m: Motion, a: real, b: real, stoppedAt: Option<real>, drop: real)
    requires EaseOutStart(m, stoppedAt).Some? && EaseOutStart(m, stoppedAt).value <= a <= b && m.easeOut > 0.0
    requires drop == 1.5 * ((b - a) / m.easeOut)
    ensures 0.0 <= PoseWeight(m, b, stoppedAt) <= PoseWeight(m, a, stoppedAt) <= 1.0
    ensures PoseWeight(m, a, stoppedAt) - PoseWeight(m, b, stoppedAt) <= drop
  {
    var start := EaseOutStart(m, stoppedAt).value;
    EaseInUnit(m, start);
    EasingOut(m, a, stoppedAt);
    EasingOut(m, b, stoppedAt);
    RampFalls(m, start, a, b, EaseInWeight(m, start), PoseWeight(m, a, stoppedAt), PoseWeight(m, b, stoppedAt));
  }

  /** From then on, it only falls, and no faster than its ramp. */
  lemma WeightFalls(m: Motion, a: real, b: real, stoppedAt: Option<real>)
    requires EaseOutStart(m, stoppedAt).Some? && EaseOutStart(m, stoppedAt).value <= a <= b
    ensures 0.0 <= PoseWeight(m, b, stoppedAt) <= PoseWeight(m, a, stoppedAt) <= 1.0
    ensures m.easeOut > 0.0 ==> PoseWeight(m, a, stoppedAt) - PoseWeight(m, b, stoppedAt) <= 1.5 * ((b - a) / m.easeOut)
  {
    if m.easeOut > 0.0 {
      FadingFalls(m, a, b, stoppedAt, 1.5 * ((b - a) / m.easeOut));
    }
  }

  /** The weight is always a proper fraction. */
  lemma WeightInUnit(m: Motion, elapsed: real, stoppedAt: Option<real>)
    ensures 0.0 <= PoseWeight(m, elapsed, stoppedAt) <= 1.0
  {
    EaseInMonotone(m, elapsed, elapsed);
    var start := EaseOutStart(m, stoppedAt);
    if start.Some? && start.value <= elapsed {
      WeightFalls(m, elapsed, elapsed, stoppedAt);
    }
  }

  /** Where the ease-out starts, it starts from the weight the ease-in has reached. */
  lemma EaseOutStartsWhereEaseInEnds(m: Motion, stoppedAt: Option<real>)
    requires EaseOutStart(m, stoppedAt).Some? && m.easeOut > 0.0
    ensures var start := EaseOutStart(m, stoppedAt).value; PoseWeight(m, start, stoppedAt) == EaseInWeight(m, start)
  {
    var start := EaseOutStart(m, stoppedAt).value;
    QuotientIs(start - start, m.easeOut, 0.0);
    StepInUnit(1.0);
    assert EaseInWeight(m, start) * 1.0 == EaseInWeight(m, start);
  }

  /** How fast the weight may change: the steepest slope of either ramp. */
  function Steepness(m: Motion, t: real): real
    requires m.easeOut > 0.0
  {
    1.5 * (t / m.easeOut) + if m.easeIn > 0.0 then 1.5 * (t / m.easeIn) else 0.0
  }

  lemma Share(t: real, d: real)
    requires t >= 0.0 && d > 0.0
    ensures t / d >= 0.0
  {
    Quotient(0.0, t, d);
    QuotientIs(0.0, d, 0.0);
  }

  lemma LaterShare(a: real, c: real, b: real, d: real)
    requires a <= c <= b && d > 0.0
    ensures (c - a) / d <= (b - a) / d && (b - c) / d <= (b - a) / d
  {
    Quotient(c - a, b - a, d);
    Quotient(b - c, b - a, d);
  }

  /** With a positive ease-out, the weight never jumps, at its start or anywhere else. */
  lemma WeightNeverJumps(m: Motion, a: real, b: real, stoppedAt: Option<real>)
    requires m.easeOut > 0.0 && a <= b
    ensures Abs(PoseWeight(m, b, stoppedAt) - PoseWeight(m, a, stoppedAt)) <= Steepness(m, b - a)
  {
    Share(b - a, m.easeOut);
    if m.easeIn > 0.0 { Share(b - a, m.easeIn); }
    var start := EaseOutStart(m, stoppedAt);
    if start.None? || b < start.value {
      EaseInMonotone(m, a, b);
    } else if start.value <= a {
      WeightFalls(m, a, b, stoppedAt);
    } else {
      EaseInMonotone(m, a, start.value);
      EaseOutStartsWhereEaseInEnds(m, stoppedAt);
      WeightFalls(m, start.value, b, stoppedAt);
      LaterShare(a, start.value, b, m.easeOut);
      if m.easeIn > 0.0 { LaterShare(a, start.value, b, m.easeIn); }
    }
  }

  /** A finished motion stays finished and has no weight left, if its ease-out is not negative. */
  lemma FinishedIsSilent(m: Motion, elapsed: real, later: real, stoppedAt: Option<real>)
    requires m.easeOut >= 0.0 && IsFinished(m, elapsed, stoppedAt) && elapsed <= later
    ensures IsFinished(m, later, stoppedAt) && PoseWeight(m, later, stoppedAt) == 0.0
  {
    var start := EaseOutStart(m, stoppedAt).value;
    if m.easeOut > 0.0 {
      Quotient(m.easeOut, later - start, m.easeOut);
      QuotientIs(m.easeOut, m.easeOut, 1.0);
      StepInUnit(1.0 - (later - start) / m.easeOut);
      assert EaseInWeight(m, start) * 0.0 == 0.0;
    }
  }

  /**
   Nothing in a motion file keeps the ease-out from being negative, and then a motion that nobody
   stopped is finished while it still has all its weight.
   */
  lemma FinishedWithWeight()
    ensures var m := Motion(false, 1.0, 0.0, 1.0, 0.0, -1.0, 0, []);
            IsFinished(m, 1.5, None) && PoseWeight(m, 1.5, None) == 1.0
  {
  }

  /** A stop is noted when it happens, so that no time asked about lies before it. */
  predicate Driven(elapsed: real, stoppedAt: Option<real>) { stoppedAt.Some? ==> stoppedAt.value <= elapsed }

  ghost predicate SilentWhenFinished(m: Motion, stoppedAt: Option<real>) {
    forall e: real :: Driven(e, stoppedAt) && IsFinished(m, e, stoppedAt) ==> PoseWeight(m, e, stoppedAt) == 0.0
  }

  lemma StepIsPositive(x: real)
    requires x > 0.0
    ensures CubicStep(x) > 0.0
  {
    var c := Clamp(x);
    TimesStrict(c, 0.0, c, 0.0, c * c);
    TimesStrict(c * c, 0.0, 3.0 - 2.0 * c, 0.0, CubicStep(x));
  }

  /** A motion that was stopped is silent once it is finished, whatever its ease-out. */
  lemma StoppedIsSilent(m: Motion, elapsed: real, stop: real)
    requires stop <= elapsed && IsFinished(m, elapsed, Some(stop))
    ensures PoseWeight(m, elapsed, Some(stop)) == 0.0
  {
    if m.easeOut > 0.0 { FinishedIsSilent(m, elapsed, elapsed, Some(stop)); }
  }

  /** The times at which an unstopped one-shot with a negative ease-out is finished but not yet faded. */
  lemma LoudWhenFinished(m: Motion) returns (e: real)
    requires !m.loops && m.easeOut < 0.0 && (m.easeIn <= 0.0 || m.duration > m.easeOut)
    ensures IsFinished(m, e, None) && PoseWeight(m, e, None) > 0.0
    ensures m.duration > m.easeOut ==> e > 0.0
  {
    var start := EaseOutStart(m, None).value;
    e := if start > 0.0 then Max(start + m.easeOut, start / 2.0) else start + m.easeOut;
    assert e < start;
    if m.easeIn > 0.0 {
      assert e / m.easeIn > 0.0;
      StepIsPositive(e / m.easeIn);
    }
  }

  lemma SilentBeforeStart(m: Motion, elapsed: real)
    requires m.easeIn > 0.0 && elapsed <= 0.0
    ensures EaseInWeight(m, elapsed) == 0.0
  {
    Quotient(elapsed, 0.0, m.easeIn);
    QuotientIs(0.0, m.easeIn, 0.0);
    StepInUnit(elapsed / m.easeIn);
  }

  /** Exactly when a motion is silent at every time it is finished. */
  lemma SilentExactlyWhen(m: Motion, stoppedAt: Option<real>)
    ensures SilentWhenFinished(m, stoppedAt)
       <==> stoppedAt.Some? || m.loops || m.easeOut >= 0.0 || (m.easeIn > 0.0 && m.duration <= m.easeOut)
  {
    if stoppedAt.None? && !m.loops && m.easeOut < 0.0 && !(m.easeIn > 0.0 && m.duration <= m.easeOut) {
      var e := LoudWhenFinished(m);
      assert Driven(e, stoppedAt);
    } else {
      forall e: real | Driven(e, stoppedAt) && IsFinished(m, e, stoppedAt) ensures PoseWeight(m, e, stoppedAt) == 0.0 {
        if stoppedAt.Some? {
          StoppedIsSilent(m, e, stoppedAt.value);
        } else if m.easeOut >= 0.0 {
          FinishedIsSilent(m, e, e, stoppedAt);
        } else if e < EaseOutStart(m, stoppedAt).value {
          SilentBeforeStart(m, e);
        }
      }
    }
  }

  /** Exactly when an unstopped motion is silent at every such time from its start on. */
  lemma SilentFromTheStartExactlyWhen(m: Motion)
    ensures (forall e: real :: e >= 0.0 && IsFinished(m, e, None) ==> PoseWeight(m, e, None) == 0.0)
       <==> m.loops || m.easeOut >= 0.0 || m.duration <= m.easeOut
  {
    if !m.loops && m.easeOut < 0.0 && m.duration > m.easeOut {
      var e := LoudWhenFinished(m);
    } else {
      forall e: real | e >= 0.0 && IsFinished(m, e, None) ensures PoseWeight(m, e, None) == 0.0 {
        if m.easeOut >= 0.0 { FinishedIsSilent(m, e, e, None); }
      }
    }
  }

  /** A stop ends the motion after one ease-out, unless its own end comes first: then the stop changes nothing. */
  lemma StopEnds(m: Motion, elapsed: real, stop: real)
    ensures m.loops || stop <= Max(m.duration - m.easeOut, 0.0) ==>
              (IsFinished(m, elapsed, Some(stop)) <==> elapsed >= stop + m.easeOut)
    ensures !m.loops && stop >= Max(m.duration - m.easeOut, 0.0) ==>
              && (IsFinished(m, elapsed, Some(stop)) <==> IsFinished(m, elapsed, None))
              && PoseWeight(m, elapsed, Some(stop)) == PoseWeight(m, elapsed, None)
    ensures elapsed < stop && (m.loops || elapsed < m.duration - m.easeOut) ==>
              PoseWeight(m, elapsed, Some(stop)) == PoseWeight(m, elapsed, None)
  {
  }

  /** Left alone, a motion that does not loop finishes at its duration, or once a longer ease-out is over. */
  lemma FinishesAtDuration(m: Motion, elapsed: real)
    requires !m.loops
    ensures IsFinished(m, elapsed, None) <==> elapsed >= Max(m.duration, m.easeOut)
  {
  }

  /** Left alone, a decoded one-shot is over after a minute, unless its own ease-out is longer still;
      and it is silent then, unless its ease-out is negative and ends before its duration. */
  lemma DecodedOneShotEnds(nums: F.Numbers, d: F.Bytes, elapsed: real)
    requires F.ReadMotion(nums, d).Ok? && !F.ReadMotion(nums, d).value.0.timing.loops
    requires var t := F.ReadMotion(nums, d).value.0.timing; elapsed >= Max(60.0, t.easeOut)
    ensures var m := TimingOf(F.ReadMotion(nums, d).value.0);
            && IsFinished(m, elapsed, None)
            && (m.easeOut >= 0.0 || m.duration <= m.easeOut ==> PoseWeight(m, elapsed, None) == 0.0)
  {
    F.AcceptedIsWellFormed(nums, d);
    var m := TimingOf(F.ReadMotion(nums, d).value.0);
    FinishesAtDuration(m, elapsed);
    SilentFromTheStartExactlyWhen(m);
  }

  /** A motion that loops and was not stopped never finishes, and keeps the weight it eased in to. */
  lemma LoopingNeverFinishes(m: Motion, elapsed: real)
    requires m.loops
    ensures !IsFinished(m, elapsed, None) && (elapsed >= m.easeIn ==> PoseWeight(m, elapsed, None) == 1.0)
  {
    if m.easeIn > 0.0 && elapsed >= m.easeIn {
      Quotient(m.easeIn, elapsed, m.easeIn);
      QuotientIs(m.easeIn, m.easeIn, 1.0);
      StepInUnit(elapsed / m.easeIn);
    }
  }

  // ---------------------------------------------------------------------------------
  // Keyframe curves.

  datatype Key<V> = Key(time: real, value: V)

  /** How many keys lie before `time`, up to the first that does not. */
  function FirstAt<V>(keys: seq<Key<V>>, time: real): (i: nat)
    ensures i <= |keys| && (i < |keys| ==> keys[i].time >= time) && forall j | 0 <= j < i :: keys[j].time < time
  {
    if keys == [] || keys[0].time >= time then 0
    else
      var i := FirstAt(keys[1..], time);
      assert forall j | 0 < j < i + 1 :: keys[j] == keys[1..][j - 1];
      i + 1
  }

  function SampleCurve<V>(interp: (real, V, V) -> V, keys: seq<Key<V>>, time: real): Option<V> {
    var right := FirstAt(keys, time);
    if right == |keys| then if keys == [] then None else Some(keys[|keys| - 1].value)
    else if right == 0 then Some(keys[0].value)
    else
      var before, after := keys[right - 1].time, keys[right].time;
      if after - before == 0.0 then Some(keys[right].value)
      else Some(interp((time - before) / (after - before), keys[right - 1].value, keys[right].value))
  }

  /** The first `n` keys lie before `time`. */
  ghost predicate Before<V>(keys: seq<Key<V>>, n: nat, time: real)
    requires n <= |keys|
  {
    forall j | 0 <= j < n :: keys[j].time < time
  }

  /** Up to the first key and once all keys are past the curve holds the end values. */
  lemma SampleHoldsEnds<V>(interp: (real, V, V) -> V, keys: seq<Key<V>>, time: real)
    requires keys != []
    ensures time <= keys[0].time ==> SampleCurve(interp, keys, time) == Some(keys[0].value)
    ensures Before(keys, |keys|, time) ==> SampleCurve(interp, keys, time) == Some(keys[|keys| - 1].value)
  {
  }

  lemma FirstAtIs<V>(keys: seq<Key<V>>, time: real, i: nat)
    requires i < |keys| && keys[i].time >= time && Before(keys, i, time)
    ensures FirstAt(keys, time) == i
  {
  }

  /** Between two neighbouring keys, the later included, it mixes just those two, by the fraction of the way gone. */
  lemma SampleMixesNeighbours<V>(interp: (real, V, V) -> V, keys: seq<Key<V>>, time: real, i: nat)
    requires i + 1 < |keys| && Before(keys, i + 1, time) && time <= keys[i + 1].time
    ensures var f := (time - keys[i].time) / (keys[i + 1].time - keys[i].time);
            0.0 < f <= 1.0 && SampleCurve(interp, keys, time) == Some(interp(f, keys[i].value, keys[i + 1].value))
  {
    FirstAtIs(keys, time, i + 1);
    var span := keys[i + 1].time - keys[i].time;
    Quotient(time - keys[i].time, span, span);
    QuotientIs(span, span, 1.0);
    var gone := time - keys[i].time;
    if gone / span <= 0.0 { TimesMonotone(span, gone / span, 0.0, gone, 0.0); }
  }

  /** Mixing all the way yields the second value. */
  ghost predicate EndsAtSecond<V(!new)>(interp: (real, V, V) -> V) { forall a: V, b: V :: interp(1.0, a, b) == b }

  /** A curve passes through the keys that no earlier key stands in the way of. */
  lemma SampleHitsKeys<V(!new)>(interp: (real, V, V) -> V, keys: seq<Key<V>>, i: nat)
    requires i < |keys| && Before(keys, i, keys[i].time) && EndsAtSecond(interp)
    ensures SampleCurve(interp, keys, keys[i].time) == Some(keys[i].value)
  {
    if i == 0 {
      SampleHoldsEnds(interp, keys, keys[0].time);
    } else {
      SampleMixesNeighbours(interp, keys, keys[i].time, i - 1);
      var span := keys[i].time - keys[i - 1].time;
      QuotientIs(span, span, 1.0);
    }
  }

  function Times<V>(keys: seq<Key<V>>): seq<real> {
    seq(|keys|, k requires 0 <= k < |keys| => keys[k].time)
  }

  /** Nothing in a motion file keeps its keys in order: a curve passes through key `i`, whatever the
      values, exactly if all keys before it are earlier. */
  lemma SampleHitsKeysExactlyWhen(times: seq<real>, i: nat)
    requires i < |times|
    ensures (forall interp: (real, int, int) -> int, keys: seq<Key<int>> |
               EndsAtSecond(interp) && Times(keys) == times ::
               i < |keys| && SampleCurve(interp, keys, keys[i].time) == Some(keys[i].value))
       <==> forall j | 0 <= j < i :: times[j] < times[i]
  {
    if forall j | 0 <= j < i :: times[j] < times[i] {
      forall interp: (real, int, int) -> int, keys: seq<Key<int>> | EndsAtSecond(interp) && Times(keys) == times
        ensures i < |keys| && SampleCurve(interp, keys, keys[i].time) == Some(keys[i].value)
      {
        assert forall j | 0 <= j < |keys| :: Times(keys)[j] == keys[j].time;
        SampleHitsKeys(interp, keys, i);
      }
    } else {
      var second := (f: real, a: int, b: int) => b;
      var keys := seq(|times|, k requires 0 <= k < |times| => Key(times[k], k));
      assert Times(keys) == times && EndsAtSecond(second);
      var first := FirstAt(keys, times[i]);
      assert first < i && keys[first].value == first;
    }
  }

  // ---------------------------------------------------------------------------------
  // The priority that arbitrates hand poses.

  const USE_MOTION := -1
  const LOW := 0
  const ADDITIVE_CLAMPED := 6

  method MaxPriority(m: Motion) returns (max: int)
    ensures max >= LOW && forall p <- m.priorities :: p != USE_MOTION ==> p <= max
    ensures max == LOW || (max == ADDITIVE_CLAMPED && m.basePriority == ADDITIVE_CLAMPED)
            || (max in m.priorities && max != USE_MOTION)
    ensures m.basePriority == ADDITIVE_CLAMPED ==> max >= ADDITIVE_CLAMPED
  {
    max := if m.basePriority == ADDITIVE_CLAMPED then m.basePriority else LOW;
    for k := 0 to |m.priorities|
      invariant max >= LOW && (m.basePriority == ADDITIVE_CLAMPED ==> max >= ADDITIVE_CLAMPED)
      invariant forall j | 0 <= j < k :: m.priorities[j] != USE_MOTION ==> m.priorities[j] <= max
      invariant max == LOW || (max == ADDITIVE_CLAMPED && m.basePriority == ADDITIVE_CLAMPED)
                || (max in m.priorities && max != USE_MOTION)
    {
      if m.priorities[k] != USE_MOTION && m.priorities[k] > max {
        max := m.priorities[k];
      }
    }
  }
}

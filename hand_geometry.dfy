/**
 * Clock-hand geometry of the watch face: the fixed-point rotation angle of
 * each hand and the placement of each hand's frame on the 144 x 168 screen.
 * An angle is a fraction of a full turn scaled by TrigMaxAngle.
 */
module HandGeometry {
  import opened CInt

  /** The platform's full-turn angle, TRIG_MAX_ANGLE. */
  const TrigMaxAngle: int := 0x10000

  const ScreenWidth: int := 144
  const ScreenHeight: int := 168

  /** The broken-down time fields the hands are drawn from. */
  datatype Tm = Tm(hour: int, min: int, sec: int)

  /** The ranges C's `struct tm` guarantees (60 is a leap second). */
  predicate ValidTm(t: Tm) {
    0 <= t.hour <= 23 && 0 <= t.min <= 59 && 0 <= t.sec <= 60
  }

  // ---------------------------------------------------------------------
  // Angles, as the C expressions compute them (left to right, truncating)
  // ---------------------------------------------------------------------

  /** Degrees of the hour hand before scaling: 30 per hour plus one per two minutes. */
  function HourDegrees(hour: int, min: int): int {
    Rem(hour, 12) * 30 + Div(min, 2)
  }

  function HourAngle(hour: int, min: int): int {
    Div(TrigMaxAngle * HourDegrees(hour, min), 360)
  }

  function MinuteAngle(min: int): int {
    Div(TrigMaxAngle * (min * 6), 360)
  }

  function SecondAngle(sec: int): int {
    Div(TrigMaxAngle * (sec * 6), 360)
  }

  /** The hour expression evaluated in 32-bit `int`: None if any step overflows. */
  function HourAngle32(hour: int, min: int): Option<int> {
    var h := Rem(hour, 12);
    var h30 := h * 30;
    var m2 := Div(min, 2);
    var deg := h30 + m2;
    var scaled := TrigMaxAngle * deg;
    if InInt32(hour) && InInt32(min) && InInt32(h30) && InInt32(deg) && InInt32(scaled)
    then Some(Div(scaled, 360))
    else None
  }

  /** A minute or second expression evaluated in 32-bit `int`: None if any step overflows. */
  function SixtiethAngle32(n: int): Option<int> {
    var n6 := n * 6;
    var scaled := TrigMaxAngle * n6;
    if InInt32(n) && InInt32(n6) && InInt32(scaled) then Some(Div(scaled, 360)) else None
  }

  /** Hours 0..23 and minutes 0..59 give an hour angle short of a full turn. */
  lemma HourAngleRange(hour: int, min: int)
    requires 0 <= hour <= 23 && 0 <= min <= 59
    ensures 0 <= HourDegrees(hour, min) <= 359
    ensures 0 <= HourAngle(hour, min) < TrigMaxAngle
  {
  }

  /** The hour hand only depends on the hour modulo 12. */
  lemma {:induction false} HourAnglePeriodic(hour: int, min: int)
    requires 0 <= hour
    ensures HourAngle(hour + 12, min) == HourAngle(hour, min)
  {
    NonNegativeAgrees(hour, 12);
    NonNegativeAgrees(hour + 12, 12);
    assert (hour + 12) % 12 == hour % 12;
  }

  /** Scaling and then truncating preserves order. */
  lemma ScaledMonotone(a: int, b: int)
    requires 0 <= a <= b
    ensures Div(TrigMaxAngle * a, 360) <= Div(TrigMaxAngle * b, 360)
  {
    NonNegativeAgrees(TrigMaxAngle * a, 360);
    NonNegativeAgrees(TrigMaxAngle * b, 360);
  }

  /** Scaling two values at least one degree apart gives strictly larger angles. */
  lemma ScaledStrict(a: int, b: int)
    requires 0 <= a && a + 1 <= b
    ensures Div(TrigMaxAngle * a, 360) < Div(TrigMaxAngle * b, 360)
  {
    NonNegativeAgrees(TrigMaxAngle * a, 360);
    NonNegativeAgrees(TrigMaxAngle * b, 360);
  }

  /**
   * Within one hour the hour hand never moves backwards, starts on the hour mark
   * and stays short of the next hour mark.
   */
  lemma HourAngleWithinHour(hour: int, min1: int, min2: int)
    requires 0 <= hour && 0 <= min1 <= min2 <= 59
    ensures HourAngle(hour, min1) <= HourAngle(hour, min2)
    ensures HourAngle(hour, 0) == Div(TrigMaxAngle * (30 * Rem(hour, 12)), 360)
    ensures Div(TrigMaxAngle * (30 * Rem(hour, 12)), 360) <= HourAngle(hour, min2)
    ensures HourAngle(hour, min2) < Div(TrigMaxAngle * (30 * (Rem(hour, 12) + 1)), 360)
  {
    ScaledMonotone(HourDegrees(hour, min1), HourDegrees(hour, min2));
    ScaledMonotone(30 * Rem(hour, 12), HourDegrees(hour, min2));
    ScaledStrict(HourDegrees(hour, min2), 30 * (Rem(hour, 12) + 1));
  }

  /**
   * Across a half day the hour hand never moves backwards: a later time of day
   * (in minutes past the last 12 o'clock) gives an angle at least as large.
   */
  lemma HourAngleMonotone(t1: Tm, t2: Tm)
    requires ValidTm(t1) && ValidTm(t2)
    requires Rem(t1.hour, 12) * 60 + t1.min <= Rem(t2.hour, 12) * 60 + t2.min
    ensures HourAngle(t1.hour, t1.min) <= HourAngle(t2.hour, t2.min)
  {
    assert HourDegrees(t1.hour, t1.min) <= HourDegrees(t2.hour, t2.min);
    ScaledMonotone(HourDegrees(t1.hour, t1.min), HourDegrees(t2.hour, t2.min));
  }

  /** Minute and second hands share one formula. */
  lemma SecondMatchesMinute(n: int)
    ensures SecondAngle(n) == MinuteAngle(n)
  {
  }

  /** For 0..59 the minute (and second) angle is short of a full turn and strictly increasing. */
  lemma {:induction false} MinuteAngleRangeStrict(m1: int, m2: int)
    requires 0 <= m1 < m2 <= 59
    ensures 0 <= MinuteAngle(m1) < MinuteAngle(m2) < TrigMaxAngle
  {
    ScaledStrict(m1 * 6, m2 * 6);
    ScaledMonotone(0, m1 * 6);
    ScaledStrict(m2 * 6, 360);
  }

  /** A leap second puts the second hand at exactly one full turn. */
  lemma LeapSecondFullTurn()
    ensures SecondAngle(60) == TrigMaxAngle
  {
  }

  /** For every valid time no step of the three angle expressions overflows 32 bits. */
  lemma NoOverflow(t: Tm)
    requires ValidTm(t)
    ensures HourAngle32(t.hour, t.min) == Some(HourAngle(t.hour, t.min))
    ensures SixtiethAngle32(t.min) == Some(MinuteAngle(t.min))
    ensures SixtiethAngle32(t.sec) == Some(SecondAngle(t.sec))
  {
    HourAngleRange(t.hour, t.min);
  }

  // ---------------------------------------------------------------------
  // Frames
  // ---------------------------------------------------------------------

  datatype GPoint = GPoint(x: int16, y: int16)
  datatype GSize = GSize(w: int16, h: int16)
  datatype GRect = GRect(origin: GPoint, size: GSize)

  /**
   * The frame moved so that its centre sits on the screen centre
   * (to within the half pixel an odd size leaves), its size untouched.
   */
  function CenterFrame(f: GRect): (r: GRect)
    ensures r.size == f.size
    ensures 2 * r.origin.x + r.size.w == ScreenWidth + Rem(f.size.w, 2)
    ensures 2 * r.origin.y + r.size.h == ScreenHeight + Rem(f.size.h, 2)
  {
    GRect(GPoint(ScreenWidth / 2 - Div(f.size.w, 2), ScreenHeight / 2 - Div(f.size.h, 2)), f.size)
  }

  /** A frame counts as centred when re-centring it would not move it. */
  predicate IsCentred(f: GRect) {
    2 * f.origin.x + f.size.w == ScreenWidth + Rem(f.size.w, 2)
    && 2 * f.origin.y + f.size.h == ScreenHeight + Rem(f.size.h, 2)
  }

  /** CenterFrame gives the one centred frame of the given size, so re-centring is idempotent. */
  lemma CenterFrameUnique(f: GRect, g: GRect)
    requires g.size == f.size && IsCentred(g)
    ensures CenterFrame(f) == g
    ensures CenterFrame(g) == g
  {
  }

  // ---------------------------------------------------------------------
  // The six rotated-bitmap hand layers
  // ---------------------------------------------------------------------

  /** What the model keeps of a rotated-bitmap layer: its angle and frame. */
  datatype RotLayer = RotLayer(angle: int, frame: GRect)

  /** A white and a black layer per hand, composited over each other. */
  datatype Hands = Hands(
    whiteHour: RotLayer, blackHour: RotLayer,
    whiteMinute: RotLayer, blackMinute: RotLayer,
    whiteSecond: RotLayer, blackSecond: RotLayer)

  /**
   * The hand layers after a redraw at time `t`: both layers of a hand get that
   * hand's angle and the centred frame of its WHITE layer.
   */
  function Placed(h: Hands, t: Tm): Hands {
    var hourFrame := CenterFrame(h.whiteHour.frame);
    var minuteFrame := CenterFrame(h.whiteMinute.frame);
    var secondFrame := CenterFrame(h.whiteSecond.frame);
    Hands(
      RotLayer(HourAngle(t.hour, t.min), hourFrame), RotLayer(HourAngle(t.hour, t.min), hourFrame),
      RotLayer(MinuteAngle(t.min), minuteFrame), RotLayer(MinuteAngle(t.min), minuteFrame),
      RotLayer(SecondAngle(t.sec), secondFrame), RotLayer(SecondAngle(t.sec), secondFrame))
  }

  /** Each hand's two layers share one centred frame. */
  predicate Centred(h: Hands) {
    IsCentred(h.whiteHour.frame) && h.blackHour.frame == h.whiteHour.frame
    && IsCentred(h.whiteMinute.frame) && h.blackMinute.frame == h.whiteMinute.frame
    && IsCentred(h.whiteSecond.frame) && h.blackSecond.frame == h.whiteSecond.frame
  }

  /** Every layer's angle is the angle of its hand at time `t`. */
  predicate Shows(h: Hands, t: Tm) {
    h.whiteHour.angle == HourAngle(t.hour, t.min) && h.blackHour.angle == HourAngle(t.hour, t.min)
    && h.whiteMinute.angle == MinuteAngle(t.min) && h.blackMinute.angle == MinuteAngle(t.min)
    && h.whiteSecond.angle == SecondAngle(t.sec) && h.blackSecond.angle == SecondAngle(t.sec)
  }

  /**
   * A redraw leaves every hand centred, showing `t`, with the white layers' sizes
   * unchanged; redrawing hands that are already centred moves no frame.
   */
  lemma PlacedCentred(h: Hands, t: Tm)
    ensures Centred(Placed(h, t)) && Shows(Placed(h, t), t)
    ensures Placed(h, t).whiteHour.frame.size == h.whiteHour.frame.size
    ensures Placed(h, t).whiteMinute.frame.size == h.whiteMinute.frame.size
    ensures Placed(h, t).whiteSecond.frame.size == h.whiteSecond.frame.size
    ensures Centred(h) ==>
      Placed(h, t).whiteHour.frame == h.whiteHour.frame && Placed(h, t).blackHour.frame == h.blackHour.frame
      && Placed(h, t).whiteMinute.frame == h.whiteMinute.frame && Placed(h, t).blackMinute.frame == h.blackMinute.frame
      && Placed(h, t).whiteSecond.frame == h.whiteSecond.frame && Placed(h, t).blackSecond.frame == h.blackSecond.frame
  {
    if Centred(h) {
      CenterFrameUnique(h.whiteHour.frame, h.whiteHour.frame);
      CenterFrameUnique(h.whiteMinute.frame, h.whiteMinute.frame);
      CenterFrameUnique(h.whiteSecond.frame, h.whiteSecond.frame);
    }
  }

  /**
   * The hour and minute layers turn by less than a full turn; the second layers by at
   * most one (exactly one only in a leap second).
   */
  predicate AnglesInRange(h: Hands) {
    0 <= h.whiteHour.angle < TrigMaxAngle && 0 <= h.blackHour.angle < TrigMaxAngle
    && 0 <= h.whiteMinute.angle < TrigMaxAngle && 0 <= h.blackMinute.angle < TrigMaxAngle
    && 0 <= h.whiteSecond.angle <= TrigMaxAngle && 0 <= h.blackSecond.angle <= TrigMaxAngle
  }

  /** Hands showing a valid time are in range, and the second hand is at a full turn only in a leap second. */
  lemma ShownAnglesInRange(h: Hands, t: Tm)
    requires Shows(h, t) && ValidTm(t)
    ensures AnglesInRange(h)
    ensures h.whiteSecond.angle == TrigMaxAngle <==> t.sec == 60
  {
    HourAngleRange(t.hour, t.min);
    if t.min < 59 { MinuteAngleRangeStrict(t.min, 59); } else { MinuteAngleRangeStrict(0, 59); }
    if t.sec < 59 { MinuteAngleRangeStrict(t.sec, 59); }
    else if t.sec == 59 { MinuteAngleRangeStrict(0, 59); }
    SecondMatchesMinute(t.sec);
    LeapSecondFullTurn();
  }
}

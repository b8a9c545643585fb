/**
 * The lesson-39 clock adjuster (ClockAdjuster.cpp): a click walks through the
 * fields of a `struct tm` (year, month, day, weekday, hour, minute), the
 * encoder steps the current field, and every step shows a three-character
 * label on the seven-segment display. The click in Wait loads the time
 * through the get callback; the click in Minute hands it back through the set
 * callback.
 */
module ClockAdjuster {
  import opened Io
  import opened S7Glyphs

  /** `state_t`, in declaration order. */
  datatype AdjustState = Wait | Year | Month | Day | WeekDay | Hour | Minute

  /** `struct tm`: the fields the adjuster touches and the rest, carried along. */
  datatype Tm = Tm(sec: int, min: int, hour: int, mday: int, mon: int, year: int,
                   wday: int, yday: int, isdst: int)

  const TM_ZERO: Tm := Tm(0, 0, 0, 0, 0, 0, 0, 0, 0)

  /** Every field is an `int`. */
  predicate TmValid(t: Tm) {
    && IsInt32(t.sec) && IsInt32(t.min) && IsInt32(t.hour) && IsInt32(t.mday) && IsInt32(t.mon)
    && IsInt32(t.year) && IsInt32(t.wday) && IsInt32(t.yday) && IsInt32(t.isdst)
  }

  /** What the adjuster asks the display to do. */
  datatype DisplayCall = PrintText(text: string) | PrintWaitIndicator

  /** The click order: Wait, Year, Month, Day, WeekDay, Hour, Minute, then Wait again. */
  function NextState(s: AdjustState): AdjustState {
    match s
    case Wait => Year
    case Year => Month
    case Month => Day
    case Day => WeekDay
    case WeekDay => Hour
    case Hour => Minute
    case Minute => Wait
  }

  /** C++ `%` on int: the remainder takes the sign of the dividend. */
  function CRem(a: int, b: int): int
    requires b != 0
  {
    var r := Abs(a) % Abs(b);
    if a < 0 then -r else r
  }

  /** The weekday after one step: `(wday + 7 + increment) % 7`. */
  function StepWeekDay(wday: int, decrease: bool): int {
    CRem(wday + 7 + (if decrease then -1 else 1), 7)
  }

  /** `on_rotate` on the time: the field the state selects moves by one (down when `decrease`). */
  function RotateTime(t: Tm, s: AdjustState, decrease: bool): Tm {
    var inc := if decrease then -1 else 1;
    match s
    case Year => t.(year := t.year + inc)
    case Month => t.(mon := t.mon + inc)
    case Day => t.(mday := t.mday + inc)
    case WeekDay => t.(wday := StepWeekDay(t.wday, decrease))
    case Hour => t.(hour := t.hour + inc)
    case Minute => t.(min := t.min + inc)
    case Wait => t
  }

  /** The step does not overflow the field it changes. */
  predicate RotateDefined(t: Tm, s: AdjustState, decrease: bool) {
    var inc := if decrease then -1 else 1;
    match s
    case Year => IsInt32(t.year + inc)
    case Month => IsInt32(t.mon + inc)
    case Day => IsInt32(t.mday + inc)
    case WeekDay => IsInt32(t.wday + 7 + inc)
    case Hour => IsInt32(t.hour + inc)
    case Minute => IsInt32(t.min + inc)
    case Wait => true
  }

  /** The character of a decimal digit. */
  function DigitChar(d: int): char
    requires 0 <= d <= 9
  {
    "0123456789"[d]
  }

  /** The decimal digits of u, most significant first, as `%u` writes them. */
  function DecimalString(u: nat): (r: string)
    ensures |r| >= 1
  {
    if u < 10 then [DigitChar(u)] else DecimalString(u / 10) + [DigitChar(u % 10)]
  }

  /**
   * The two characters `%02u` leaves in the label: the int reinterpreted as
   * unsigned, zero-padded to two digits, cut to the two that fit the buffer.
   */
  function TwoDigits(v: int): (r: string)
    ensures |r| == 2
  {
    var s := DecimalString(Wrap32(v));
    if |s| < 2 then ['0'] + s else s[..2]
  }

  /** The weekday name `get_day_of_week` copies for 0..6 (Sunday first). */
  function DayName(wday: int): string
    requires 0 <= wday <= 6
  {
    ["SUN", "MON", "TUE", "WED", "THU", "FRI", "SAT"][wday]
  }

  /** The three-character label shown in a field state. */
  function Label(t: Tm, s: AdjustState): (r: string)
    requires s != Wait
    requires s == WeekDay ==> 0 <= t.wday <= 6
    ensures |r| == 3
  {
    match s
    case Year => ['Y'] + TwoDigits(CRem(t.year, 100))
    case Month => ['M'] + TwoDigits(t.mon)
    case Day => ['D'] + TwoDigits(t.mday)
    case WeekDay => DayName(t.wday)
    case Hour => ['H'] + TwoDigits(t.hour)
    case Minute => [' '] + TwoDigits(t.min)
  }

  /** What `update_display` shows: the wait animation unless one is running, or the label. */
  function Shown(t: Tm, s: AdjustState, animationRunning: bool): seq<DisplayCall>
    requires s == WeekDay ==> 0 <= t.wday <= 6
  {
    if s == Wait then (if animationRunning then [] else [PrintWaitIndicator])
    else [PrintText(Label(t, s) + ['\0'])]
  }

  class Adjuster {
    var state: AdjustState
    /** `m_time_info`. */
    var time: Tm
    /** The display calls made so far. */
    var log: seq<DisplayCall>
    /** The times handed to the set callback so far. */
    var sent: seq<Tm>

    /** The weekday label is only ever drawn for a weekday in 0..6. */
    ghost predicate Valid()
      reads this
    {
      TmValid(time) && (state == WeekDay ==> 0 <= time.wday <= 6)
    }

    /** Starts in Wait with a zeroed time and shows the wait animation on the fresh display. */
    constructor ()
      ensures Valid()
      ensures state == Wait && time == TM_ZERO && sent == []
      ensures log == [PrintWaitIndicator]
    {
      state := Wait;
      time := TM_ZERO;
      log := [];
      sent := [];
      new;
      UpdateDisplay(false);
    }

    /** `update_display`; `animationRunning` is what the display's `IsAnimationRunning` answers. */
    method UpdateDisplay(animationRunning: bool)
      requires state == WeekDay ==> 0 <= time.wday <= 6
      modifies this
      ensures state == old(state) && time == old(time) && sent == old(sent)
      ensures log == old(log) + Shown(time, state, animationRunning)
    {
      match state
      case Wait =>
        if !animationRunning {
          log := log + [PrintWaitIndicator];
        }
      case WeekDay =>
        log := log + [PrintText(DayName(time.wday) + ['\0'])];
      case _ =>
        log := log + [PrintText(Label(time, state) + ['\0'])];
    }

    /** `on_rotate`: step the selected field, then redisplay. */
    method OnRotate(decrease: bool, animationRunning: bool)
      requires Valid()
      requires RotateDefined(time, state, decrease)
      modifies this
      ensures Valid()
      ensures state == old(state) && sent == old(sent)
      ensures time == RotateTime(old(time), state, decrease)
      ensures log == old(log) + Shown(time, state, animationRunning)
    {
      var inc := if decrease then -1 else 1;
      match state {
      case Year =>
        time := time.(year := time.year + inc);
      case Month =>
        time := time.(mon := time.mon + inc);
      case Day =>
        time := time.(mday := time.mday + inc);
      case WeekDay =>
        WeekDayStaysInRange(time.wday, decrease);
        time := time.(wday := CRem(time.wday + 7 + inc, 7));
      case Hour =>
        time := time.(hour := time.hour + inc);
      case Minute =>
        time := time.(min := time.min + inc);
      case Wait =>
      }
      UpdateDisplay(animationRunning);
    }

    /**
     * `on_click`: move to the next field. Leaving Wait loads `loaded` (what the
     * get callback writes) and shifts its month to 1-based; leaving Minute
     * shifts the month back and hands the time to the set callback.
     */
    method OnClick(loaded: Tm, animationRunning: bool)
      requires Valid()
      requires state == Wait ==> TmValid(loaded) && loaded.mon < INT32_MAX
      requires state == Minute ==> time.mon > INT32_MIN
      requires state == Day ==> 0 <= time.wday <= 6
      modifies this
      ensures Valid()
      ensures state == NextState(old(state))
      ensures old(state) == Wait ==> time == loaded.(mon := loaded.mon + 1) && sent == old(sent)
      ensures old(state) == Minute ==>
        var back := old(time).(mon := old(time).mon - 1);
        time == back && sent == old(sent) + [back]
      ensures old(state) != Wait && old(state) != Minute ==> time == old(time) && sent == old(sent)
      ensures log == old(log) + Shown(time, state, animationRunning)
    {
      match state {
      case Wait =>
        time := loaded;
        time := time.(mon := time.mon + 1);
        state := Year;
      case Year =>
        state := Month;
      case Month =>
        state := Day;
      case Day =>
        state := WeekDay;
      case WeekDay =>
        state := Hour;
      case Hour =>
        state := Minute;
      case Minute =>
        time := time.(mon := time.mon - 1);
        sent := sent + [time];
        state := Wait;
      }
      UpdateDisplay(animationRunning);
    }
  }

  // ----- Lemmas -----

  /** Seven clicks go once around the states, visiting each exactly once. */
  lemma ClickCycle(s: AdjustState)
    ensures NextState(NextState(NextState(NextState(NextState(NextState(NextState(s))))))) == s
    ensures s != NextState(s)
  {
  }

  /** A weekday in 0..6 stays in 0..6, and a step down undoes a step up. */
  lemma WeekDayStaysInRange(wday: int, decrease: bool)
    requires 0 <= wday <= 6
    ensures 0 <= StepWeekDay(wday, decrease) <= 6
    ensures StepWeekDay(StepWeekDay(wday, decrease), !decrease) == wday
    ensures StepWeekDay(wday, false) == if wday == 6 then 0 else wday + 1
    ensures StepWeekDay(wday, true) == if wday == 0 then 6 else wday - 1
  {
  }

  /** C++ and Dafny remainders differ on a negative dividend: -1 % 7 is -1 in C++. */
  lemma CRemOfNegative()
    ensures CRem(-1, 7) == -1 && (-1) % 7 == 6
  {
  }

  /** Rotating changes only the selected field; in Wait it changes nothing, and up then down restores the time. */
  lemma RotateOnlyTheField(t: Tm, s: AdjustState, decrease: bool)
    requires s == WeekDay ==> 0 <= t.wday <= 6
    ensures var r := RotateTime(t, s, decrease);
      && (s != Year ==> r.year == t.year) && (s != Month ==> r.mon == t.mon)
      && (s != Day ==> r.mday == t.mday) && (s != WeekDay ==> r.wday == t.wday)
      && (s != Hour ==> r.hour == t.hour) && (s != Minute ==> r.min == t.min)
      && r.sec == t.sec && r.yday == t.yday && r.isdst == t.isdst
      && RotateTime(r, s, !decrease) == t
  {
    if s == WeekDay {
      WeekDayStaysInRange(t.wday, decrease);
    }
  }

  /** One rotation: the state it happened in and its direction. */
  datatype Rotation = Rotation(state: AdjustState, decrease: bool)

  function RotateAll(t: Tm, rs: seq<Rotation>): Tm
    decreases |rs|
  {
    if rs == [] then t else RotateAll(RotateTime(t, rs[0].state, rs[0].decrease), rs[1..])
  }

  /** Rotations outside the Month state never change the month. */
  lemma {:induction false} MonthKeptOutsideMonth(t: Tm, rs: seq<Rotation>)
    requires forall k :: 0 <= k < |rs| ==> rs[k].state != Month
    ensures RotateAll(t, rs).mon == t.mon
    decreases |rs|
  {
    if rs != [] {
      MonthKeptOutsideMonth(RotateTime(t, rs[0].state, rs[0].decrease), rs[1..]);
    }
  }

  /**
   * The month shift round-trips: a session that loads a time (month made
   * 1-based for display), rotates only outside the Month state and then hands
   * the time back (month made 0-based again) returns the month it loaded.
   */
  lemma SessionHandsBackMonth(loaded: Tm, rs: seq<Rotation>)
    requires forall k :: 0 <= k < |rs| ==> rs[k].state != Month
    ensures var shown := loaded.(mon := loaded.mon + 1);
      var adjusted := RotateAll(shown, rs);
      adjusted.(mon := adjusted.mon - 1).mon == loaded.mon
  {
    MonthKeptOutsideMonth(loaded.(mon := loaded.mon + 1), rs);
  }

  /** The digits of a number below 100: tens first. */
  lemma {:induction false} DecimalStringOfSmall(u: nat)
    requires u < 100
    ensures u < 10 ==> DecimalString(u) == [DigitChar(u)]
    ensures u >= 10 ==> DecimalString(u) == [DigitChar(u / 10), DigitChar(u % 10)]
  {
    if u >= 10 {
      assert DecimalString(u / 10) == [DigitChar(u / 10)];
    }
  }

  /** A field value in 0..99 shows as its two decimal digits, zero-padded. */
  lemma TwoDigitsOfSmall(v: int)
    requires 0 <= v < 100
    ensures TwoDigits(v) == [DigitChar(v / 10), DigitChar(v % 10)]
  {
    DecimalStringOfSmall(v);
  }

  /** The year label shows the year of the century: a tm year of 124 (2024) shows "Y24". */
  lemma YearLabelOfCentury(t: Tm)
    requires t.year >= 0
    ensures var c := t.year % 100;
      Label(t, Year) == ['Y', DigitChar(c / 10), DigitChar(c % 10)]
  {
    var c := t.year % 100;
    assert CRem(t.year, 100) == c;
    TwoDigitsOfSmall(c);
  }

  /** The month label of a loaded time in 0..11 shows the 1-based month, 01..12. */
  lemma MonthLabelIsOneBased(loaded: Tm)
    requires 0 <= loaded.mon <= 11
    ensures var shown := loaded.(mon := loaded.mon + 1);
      Label(shown, Month) == ['M', DigitChar((loaded.mon + 1) / 10), DigitChar((loaded.mon + 1) % 10)]
  {
    TwoDigitsOfSmall(loaded.mon + 1);
  }

  /** The weekday names are seven distinct three-letter labels. */
  lemma DayNamesDistinct(a: int, b: int)
    requires 0 <= a <= 6 && 0 <= b <= 6
    ensures |DayName(a)| == 3
    ensures DayName(a) == DayName(b) <==> a == b
  {
  }
}

/**
 * The lesson-25 traffic light (TrafficLight.cpp): a mode, a countdown of
 * 100 ms ticks and a blink counter. Every timer tick counts down; when the
 * countdown runs out the light moves on along Red, Red+Yellow, Green, six
 * green blinks, Yellow and back to Red, or keeps blinking yellow when
 * inactive. The three LEDs are active low.
 */
module TrafficLight {
  import opened Io

  /** `Mode`, in declaration order; `Inactive` is another name for `YellowBlink`. */
  datatype Mode = Off | Red | RedYellow | Green | GreenBlink | Yellow | YellowBlink

  const INACTIVE: Mode := YellowBlink

  const TICK_MS: int := 100
  const LIGHT_DURATION_TICKS: int := 30
  const BLINK_DURATION_TICKS: int := 5
  /** How many green blink phases come between Green and Yellow. */
  const GREEN_BLINKS: int := 6

  /** `GPIO_NUM_NC`: the pin of an LED before `init`. */
  const PIN_NC: int := -1

  /** The status of the red, yellow and green LEDs. */
  datatype Lights = Lights(red: bool, yellow: bool, green: bool)

  const DARK: Lights := Lights(false, false, false)

  /** What the traffic light holds: mode, countdown, blink counter and LED statuses. */
  datatype Phase = Phase(mode: Mode, ticks: int, blink: int, lights: Lights)

  /** One `gpio_set_level` call. */
  datatype LedWrite = LedWrite(pin: int, level: int)

  /** The LEDs are active low: a lit LED is driven to 0. */
  function LedLevel(status: bool): int {
    if status then LOW else HIGH
  }

  /** The countdown a mode starts with. */
  function PhaseTicks(m: Mode): int {
    match m
    case Off => 0
    case GreenBlink => BLINK_DURATION_TICKS
    case YellowBlink => BLINK_DURATION_TICKS
    case _ => LIGHT_DURATION_TICKS
  }

  /** The lights a mode shows; the blink modes toggle their LED and darken the others. */
  function LightsFor(m: Mode, current: Lights): Lights {
    match m
    case Off => DARK
    case Red => Lights(true, false, false)
    case RedYellow => Lights(true, true, false)
    case Green => Lights(false, false, true)
    case GreenBlink => Lights(false, false, !current.green)
    case Yellow => Lights(false, true, false)
    case YellowBlink => Lights(false, !current.yellow, false)
  }

  /** `set_mode` on the held state. */
  function EnterMode(s: Phase, m: Mode): Phase {
    Phase(m, PhaseTicks(m), s.blink, LightsFor(m, s.lights))
  }

  /** `tick_and_check_timeout` on the countdown: one down unless it is already 0. */
  function TickDown(t: int): int {
    if t != 0 then t - 1 else 0
  }

  /** `process_state` calls `set_mode` on this tick: the light is on and its countdown ran out. */
  predicate TimesOut(s: Phase) {
    s.mode != Off && TickDown(s.ticks) <= 0
  }

  /** `process_state` on the held state. */
  function Process(s: Phase): Phase {
    if s.mode == Off then s
    else
      var ticked := s.(ticks := TickDown(s.ticks));
      if ticked.ticks > 0 then ticked
      else match s.mode
        case Red => EnterMode(ticked, RedYellow)
        case RedYellow => EnterMode(ticked, Green)
        case Green => EnterMode(ticked.(blink := GREEN_BLINKS), GreenBlink)
        case GreenBlink =>
          var b := s.blink - 1;
          EnterMode(ticked.(blink := b), if b != 0 then GreenBlink else Yellow)
        case Yellow => EnterMode(ticked, Red)
        case YellowBlink => EnterMode(ticked, YellowBlink)
  }

  /** n timer ticks. */
  function ProcessN(s: Phase, n: nat): Phase
    decreases n
  {
    if n == 0 then s else ProcessN(Process(s), n - 1)
  }

  /** The writes of `set_lights`: red, yellow, green, each active low. */
  function LightWrites(pins: seq<int>, l: Lights): seq<LedWrite>
    requires |pins| == 3
  {
    [LedWrite(pins[0], LedLevel(l.red)), LedWrite(pins[1], LedLevel(l.yellow)),
     LedWrite(pins[2], LedLevel(l.green))]
  }

  class TrafficLight {
    var ticks: int
    var blinkCounter: int
    var mode: Mode
    /** `m_leds[i].m_status` for red, yellow and green. */
    const status: array<bool>
    /** `m_leds[i].m_pin`. */
    var pins: seq<int>
    /** The `gpio_set_level` calls so far. */
    var writes: seq<LedWrite>

    ghost predicate Valid()
      reads this
    {
      status.Length == 3 && |pins| == 3 && 0 <= ticks <= LIGHT_DURATION_TICKS && IsInt32(blinkCounter)
    }

    /** The held state, as a value. */
    function Snapshot(): Phase
      reads this, status
      requires status.Length == 3
    {
      Phase(mode, ticks, blinkCounter, Lights(status[0], status[1], status[2]))
    }

    /** The field defaults: Off, no countdown, LEDs off and not yet attached to pins. */
    constructor ()
      ensures Valid() && fresh(status)
      ensures Snapshot() == Phase(Off, 0, 0, DARK)
      ensures pins == [PIN_NC, PIN_NC, PIN_NC] && writes == []
    {
      ticks := 0;
      blinkCounter := 0;
      mode := Off;
      status := new bool[3](_ => false);
      pins := [PIN_NC, PIN_NC, PIN_NC];
      writes := [];
    }

    /** `init`: attach the three LEDs (each starts dark, at level 1), then enter Off. */
    method Init(pinRed: int, pinYellow: int, pinGreen: int)
      requires Valid()
      requires 0 <= pinRed < 64 && 0 <= pinYellow < 64 && 0 <= pinGreen < 64
      modifies this, status
      ensures Valid()
      ensures pins == [pinRed, pinYellow, pinGreen]
      ensures Snapshot() == EnterMode(old(Snapshot()), Off)
      ensures Snapshot().mode == Off && Snapshot().lights == DARK && ticks == 0
      ensures writes == old(writes) + [LedWrite(pinRed, HIGH), LedWrite(pinYellow, HIGH), LedWrite(pinGreen, HIGH)]
                        + LightWrites(pins, DARK)
    {
      pins := [pinRed, pinYellow, pinGreen];
      writes := writes + [LedWrite(pinRed, HIGH), LedWrite(pinYellow, HIGH), LedWrite(pinGreen, HIGH)];
      SetMode(Off);
    }

    /** `set_mode`: the mode's lights and countdown. */
    method SetMode(m: Mode)
      requires Valid()
      modifies this, status
      ensures Valid()
      ensures Snapshot() == EnterMode(old(Snapshot()), m)
      ensures pins == old(pins)
      ensures writes == old(writes) + LightWrites(pins, Snapshot().lights)
    {
      ghost var s0 := Snapshot();
      mode := m;
      match mode {
      case Off =>
        SetLights(false, false, false);
        ticks := 0;
      case Red =>
        SetLights(true, false, false);
        ticks := LIGHT_DURATION_TICKS;
      case RedYellow =>
        SetLights(true, true, false);
        ticks := LIGHT_DURATION_TICKS;
      case Green =>
        SetLights(false, false, true);
        ticks := LIGHT_DURATION_TICKS;
      case GreenBlink =>
        SetLights(false, false, !status[2]);
        ticks := BLINK_DURATION_TICKS;
      case Yellow =>
        SetLights(false, true, false);
        ticks := LIGHT_DURATION_TICKS;
      case YellowBlink =>
        SetLights(false, !status[1], false);
        ticks := BLINK_DURATION_TICKS;
      }
      assert s0 == old(Snapshot());
    }

    /** `process_state`: one timer tick. A green blink phase that times out needs its counter decrement to fit an int. */
    method ProcessState()
      requires Valid()
      requires mode == GreenBlink && TickDown(ticks) <= 0 ==> blinkCounter > INT32_MIN
      modifies this, status
      ensures Valid()
      ensures Snapshot() == Process(old(Snapshot()))
      ensures pins == old(pins)
      ensures writes == old(writes) + (if TimesOut(old(Snapshot())) then LightWrites(pins, Snapshot().lights) else [])
    {
      match mode
      case Off =>
      case YellowBlink =>
        var timeout := TickAndCheckTimeout();
        if timeout {
          SetMode(YellowBlink);
        }
      case Red =>
        var timeout := TickAndCheckTimeout();
        if timeout {
          SetMode(RedYellow);
        }
      case RedYellow =>
        var timeout := TickAndCheckTimeout();
        if timeout {
          SetMode(Green);
        }
      case Green =>
        var timeout := TickAndCheckTimeout();
        if timeout {
          blinkCounter := GREEN_BLINKS;
          SetMode(GreenBlink);
        }
      case GreenBlink =>
        var timeout := TickAndCheckTimeout();
        if timeout {
          blinkCounter := blinkCounter - 1;
          if blinkCounter != 0 {
            SetMode(GreenBlink);
          } else {
            SetMode(Yellow);
          }
        }
      case Yellow =>
        var timeout := TickAndCheckTimeout();
        if timeout {
          SetMode(Red);
        }
    }

    /** `tick_and_check_timeout`: count down unless already at 0, and report whether the countdown ran out. */
    method TickAndCheckTimeout() returns (timeout: bool)
      requires Valid()
      modifies this
      ensures Valid()
      ensures ticks == TickDown(old(ticks)) && timeout == (ticks <= 0)
      ensures mode == old(mode) && blinkCounter == old(blinkCounter)
      ensures pins == old(pins) && writes == old(writes)
    {
      if ticks != 0 {
        ticks := ticks - 1;
      }
      timeout := ticks <= 0;
    }

    /** `set_lights`: each LED's status, written to its pin active low. */
    method SetLights(red: bool, yellow: bool, green: bool)
      requires status.Length == 3 && |pins| == 3
      modifies this, status
      ensures pins == old(pins) && mode == old(mode) && ticks == old(ticks) && blinkCounter == old(blinkCounter)
      ensures status[0] == red && status[1] == yellow && status[2] == green
      ensures writes == old(writes) + LightWrites(pins, Lights(red, yellow, green))
    {
      status[0] := red;
      writes := writes + [LedWrite(pins[0], LedLevel(red))];
      status[1] := yellow;
      writes := writes + [LedWrite(pins[1], LedLevel(yellow))];
      status[2] := green;
      writes := writes + [LedWrite(pins[2], LedLevel(green))];
    }
  }

  // ----- Lemmas -----

  /** A lit LED is driven low and a dark one high. */
  lemma LedLevelActiveLow(status: bool)
    ensures LedLevel(status) == 0 <==> status
    ensures LedLevel(status) == 1 <==> !status
  {
  }

  /** The countdown never goes negative, and a running one times out exactly when it reaches 0. */
  lemma TickDownNeverNegative(t: int)
    requires t >= 0
    ensures TickDown(t) >= 0
    ensures TickDown(t) <= 0 <==> t <= 1
  {
  }

  /** Off ignores the timer. */
  lemma OffIsInert(s: Phase)
    requires s.mode == Off
    ensures ProcessN(s, 1) == s
  {
  }

  lemma {:induction false} ProcessNAppend(s: Phase, a: nat, b: nat)
    ensures ProcessN(s, a + b) == ProcessN(ProcessN(s, a), b)
    decreases a
  {
    if a > 0 {
      ProcessNAppend(Process(s), a - 1, b);
    }
  }

  /** A lit phase with countdown T >= 1 does nothing but count down for T - 1 ticks. */
  lemma {:induction false} CountingDown(s: Phase, k: nat)
    requires s.mode != Off && k < s.ticks
    ensures ProcessN(s, k) == s.(ticks := s.ticks - k)
    decreases k
  {
    if k > 0 {
      assert Process(s) == s.(ticks := s.ticks - 1);
      CountingDown(s.(ticks := s.ticks - 1), k - 1);
    }
  }

  /** One tick. */
  lemma ProcessOne(s: Phase)
    ensures ProcessN(s, 1) == Process(s)
  {
    assert ProcessN(s, 1) == ProcessN(Process(s), 0);
  }

  /** Running the full countdown of a lit phase: T ticks end in what its timeout enters. */
  lemma RunPhase(s: Phase)
    requires s.mode != Off && s.ticks >= 1
    ensures ProcessN(s, s.ticks) == Process(s.(ticks := 1))
  {
    var t: nat := s.ticks - 1;
    var last := s.(ticks := 1);
    CountingDown(s, t);
    ProcessNAppend(s, t, 1);
    ProcessOne(last);
    assert ProcessN(s, s.ticks) == ProcessN(last, 1);
  }

  /** A phase loaded with T >= 1 ticks times out on exactly the T-th tick, and not before. */
  lemma TimesOutOnTthTick(s: Phase, k: nat)
    requires s.mode != Off && s.ticks >= 1 && k < s.ticks
    ensures !TimesOut(ProcessN(s, k)) <==> k < s.ticks - 1
    ensures TimesOut(ProcessN(s, s.ticks - 1))
  {
    CountingDown(s, k);
    CountingDown(s, s.ticks - 1);
  }

  /** The phase entered when the green light times out: counter 6, green dark. */
  const FIRST_GREEN_BLINK: Phase := Phase(GreenBlink, BLINK_DURATION_TICKS, GREEN_BLINKS, DARK)

  /**
   * The green blink phases: k of them (k < 6) leave the light blinking with
   * 6 - k phases to go and the green LED toggled k times.
   */
  lemma {:induction false} GreenBlinkPhases(k: nat)
    requires k <= GREEN_BLINKS
    ensures k < GREEN_BLINKS ==>
      ProcessN(FIRST_GREEN_BLINK, BLINK_DURATION_TICKS * k)
        == Phase(GreenBlink, BLINK_DURATION_TICKS, GREEN_BLINKS - k, Lights(false, false, k % 2 == 1))
    ensures k == GREEN_BLINKS ==>
      ProcessN(FIRST_GREEN_BLINK, BLINK_DURATION_TICKS * k) == Phase(Yellow, LIGHT_DURATION_TICKS, 0, Lights(false, true, false))
  {
    if k > 0 {
      GreenBlinkPhases(k - 1);
      var prev := Phase(GreenBlink, BLINK_DURATION_TICKS, GREEN_BLINKS - (k - 1), Lights(false, false, (k - 1) % 2 == 1));
      ProcessNAppend(FIRST_GREEN_BLINK, BLINK_DURATION_TICKS * (k - 1), BLINK_DURATION_TICKS);
      assert BLINK_DURATION_TICKS * k == BLINK_DURATION_TICKS * (k - 1) + BLINK_DURATION_TICKS;
      RunPhase(prev);
    }
  }

  /** Red with a full countdown and an idle blink counter: where the normal cycle starts. */
  const RED_START: Phase := Phase(Red, LIGHT_DURATION_TICKS, 0, Lights(true, false, false))

  /**
   * The normal cycle: Red, Red+Yellow and Green for 30 ticks each, six green
   * blink phases of 5 ticks, Yellow for 30 ticks, and back to the same Red
   * after 150 ticks (15 s).
   */
  lemma NormalCycle()
    ensures ProcessN(RED_START, 30) == Phase(RedYellow, 30, 0, Lights(true, true, false))
    ensures ProcessN(RED_START, 60) == Phase(Green, 30, 0, Lights(false, false, true))
    ensures ProcessN(RED_START, 90) == FIRST_GREEN_BLINK
    ensures ProcessN(RED_START, 120) == Phase(Yellow, 30, 0, Lights(false, true, false))
    ensures ProcessN(RED_START, 150) == RED_START
  {
    var redYellow := Phase(RedYellow, 30, 0, Lights(true, true, false));
    var green := Phase(Green, 30, 0, Lights(false, false, true));
    var yellow := Phase(Yellow, 30, 0, Lights(false, true, false));
    RunPhase(RED_START);
    RunPhase(redYellow);
    ProcessNAppend(RED_START, 30, 30);
    RunPhase(green);
    ProcessNAppend(RED_START, 60, 30);
    GreenBlinkPhases(GREEN_BLINKS);
    ProcessNAppend(RED_START, 90, 30);
    RunPhase(yellow);
    ProcessNAppend(RED_START, 120, 30);
  }

  /** Inactive blinks yellow forever: every 5 ticks the yellow LED toggles and the others stay dark. */
  lemma InactiveBlinksForever(yellow: bool, blink: int)
    ensures var s := Phase(YellowBlink, BLINK_DURATION_TICKS, blink, Lights(false, yellow, false));
      ProcessN(s, BLINK_DURATION_TICKS) == Phase(YellowBlink, BLINK_DURATION_TICKS, blink, Lights(false, !yellow, false))
  {
    RunPhase(Phase(YellowBlink, BLINK_DURATION_TICKS, blink, Lights(false, yellow, false)));
  }
}

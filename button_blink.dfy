/**
 * The lesson-22 sketch: two LEDs blink by the deadline rule, LED 1 with
 * 20 ms on and 500 ms off, LED 2 with 200 ms on and 500 ms off. A falling
 * edge on the button raises a flag from its interrupt handler; LED 2's
 * handler consumes the flag and either parks LED 2 (both deadlines at
 * `ULONG_MAX`, pin driven HIGH, i.e. dark) or, when it is parked, resumes it
 * from deadlines 0.
 */
module ButtonBlink {
  import opened Io
  import opened BlinkRule

  const PIN_LED_1: Pin := 6
  const PIN_LED_2: Pin := 3
  const PIN_BUTTON: Pin := 4

  const LED_1_ON_DURATION: int := 20
  const LED_1_OFF_DURATION: int := 500
  const LED_2_ON_DURATION: int := 200
  const LED_2_OFF_DURATION: int := 500

  /** `ULONG_MAX`: `ulong` is 32 bits wide on this board. */
  const ULONG_MAX: int := UINT32_MAX

  /** The deadlines of a parked LED. */
  const PARKED: Deadlines := Deadlines(ULONG_MAX, ULONG_MAX)

  /** What a consumed press does to LED 2's deadlines: resume from 0 when parked, park otherwise. */
  function Toggled(d: Deadlines): Deadlines {
    if d.nextOff == ULONG_MAX then START else PARKED
  }

  /** The write a consumed press makes: parking drives the pin HIGH, resuming writes nothing. */
  function ToggleWrites(d: Deadlines): seq<GpioWrite> {
    if d.nextOff == ULONG_MAX then [] else [SetLevel(PIN_LED_2, HIGH)]
  }

  /** `led_2_handler` on its held deadlines, with `pressed` the flag it finds. */
  function Led2Step(d: Deadlines, pressed: bool, now: int): Deadlines
    requires ValidDeadlines(d)
  {
    Rule(if pressed then Toggled(d) else d, now, LED_2_ON_DURATION, LED_2_OFF_DURATION)
  }

  /** The writes of `led_2_handler`. */
  function Led2Writes(d: Deadlines, pressed: bool, now: int): seq<GpioWrite> {
    (if pressed then ToggleWrites(d) else [])
      + RuleWrites(if pressed then Toggled(d) else d, now, PIN_LED_2, LED_2_ON_DURATION)
  }

  class Sketch {
    /** `g_button_pressed` */
    var buttonPressed: bool
    /** `g_time` */
    var time: int
    /** The statics of `led_1_handler` and `led_2_handler`. */
    const led1: CHandler
    const led2: CHandler
    /** Every `digitalWrite`, in order. */
    var writes: seq<GpioWrite>

    ghost predicate Valid()
      reads this, led1, led2
    {
      && led1 != led2 && led1.Valid() && led2.Valid()
      && led1.pin == PIN_LED_1 && led1.onDuration == LED_1_ON_DURATION && led1.offDuration == LED_1_OFF_DURATION
      && led2.pin == PIN_LED_2 && led2.onDuration == LED_2_ON_DURATION && led2.offDuration == LED_2_OFF_DURATION
    }

    constructor ()
      ensures Valid() && !buttonPressed && time == 0 && writes == []
      ensures led1.Snapshot() == START && led2.Snapshot() == START
    {
      buttonPressed := false;
      time := 0;
      led1 := new CHandler(PIN_LED_1, LED_1_ON_DURATION, LED_1_OFF_DURATION);
      led2 := new CHandler(PIN_LED_2, LED_2_ON_DURATION, LED_2_OFF_DURATION);
      writes := [];
    }

    /** `buttonHandler`, the falling-edge interrupt: raise the flag. */
    method ButtonHandler()
      modifies this
      ensures buttonPressed
      ensures time == old(time) && writes == old(writes)
    {
      buttonPressed := true;
    }

    /** `led_1_handler` */
    method Led1Handler()
      requires Valid()
      modifies this, led1
      ensures Valid()
      ensures led1.Snapshot() == Rule(old(led1.Snapshot()), time, LED_1_ON_DURATION, LED_1_OFF_DURATION)
      ensures writes == old(writes) + RuleWrites(old(led1.Snapshot()), time, PIN_LED_1, LED_1_ON_DURATION)
      ensures buttonPressed == old(buttonPressed) && time == old(time)
    {
      var w := led1.Handle(time);
      writes := writes + w;
    }

    /** `led_2_handler`: consume the flag, then follow the rule. */
    method Led2Handler()
      requires Valid()
      modifies this, led2
      ensures Valid() && !buttonPressed && time == old(time)
      ensures led2.Snapshot() == Led2Step(old(led2.Snapshot()), old(buttonPressed), time)
      ensures writes == old(writes) + Led2Writes(old(led2.Snapshot()), old(buttonPressed), time)
    {
      if buttonPressed {
        buttonPressed := false;
        if led2.nextOff == ULONG_MAX {
          led2.nextOn := 0;
          led2.nextOff := 0;
        } else {
          led2.nextOff := ULONG_MAX;
          led2.nextOn := ULONG_MAX;
          writes := writes + [SetLevel(PIN_LED_2, HIGH)];
        }
      }
      var w := led2.Handle(time);
      writes := writes + w;
    }

    /** `loop` with `now` the value `millis()` returns: one time stamp, LED 1 before LED 2. */
    method Loop(now: int)
      requires Valid()
      modifies this, led1, led2
      ensures Valid() && time == now && !buttonPressed
      ensures led1.Snapshot() == Rule(old(led1.Snapshot()), now, LED_1_ON_DURATION, LED_1_OFF_DURATION)
      ensures led2.Snapshot() == Led2Step(old(led2.Snapshot()), old(buttonPressed), now)
      ensures writes == old(writes) + RuleWrites(old(led1.Snapshot()), now, PIN_LED_1, LED_1_ON_DURATION)
        + Led2Writes(old(led2.Snapshot()), old(buttonPressed), now)
    {
      time := now;
      Led1Handler();
      Led2Handler();
    }
  }

  // ----- Lemmas -----

  /** A press on a running LED parks it: the pin is driven HIGH and no time can fire it again until the next press. */
  lemma PressParks(d: Deadlines, now: int, later: int)
    requires ValidDeadlines(d) && d.nextOff != ULONG_MAX
    requires 0 <= now < TWO_32 && 0 <= later < TWO_32
    ensures Led2Step(d, true, now) == PARKED
    ensures Led2Writes(d, true, now) == [SetLevel(PIN_LED_2, HIGH)]
    ensures Led2Step(PARKED, false, later) == PARKED && Led2Writes(PARKED, false, later) == []
  {
    ParkedNeverFires(now, PIN_LED_2, LED_2_ON_DURATION, LED_2_OFF_DURATION);
    ParkedNeverFires(later, PIN_LED_2, LED_2_ON_DURATION, LED_2_OFF_DURATION);
  }

  /** A press on a parked LED resumes it from deadlines 0: the first call at a time after 0 switches it on. */
  lemma PressResumes(now: int)
    requires now > 0
    ensures Led2Step(PARKED, true, now).nextOff == LED_2_ON_DURATION
    ensures Led2Writes(PARKED, true, now)[0] == SetLevel(PIN_LED_2, LOW)
    ensures now <= LED_2_ON_DURATION ==> Led2Writes(PARKED, true, now) == [SetLevel(PIN_LED_2, LOW)]
  {
  }

  /** Two consumed presses from a running LED bring its deadlines back to the start. */
  lemma TwoPressesRestart(d: Deadlines)
    requires d.nextOff != ULONG_MAX
    ensures Toggled(Toggled(d)) == START
    ensures Toggled(d) == PARKED
  {
  }
}

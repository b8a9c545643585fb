/**
 * The lesson-18 sketch: the lesson-14 LED modes with two buttons (button 1
 * cycles forward, button 2 backward), the mode computed as an index that
 * wraps around `LED_Mode::Count`, and the police show read from a table.
 * Once None has darkened the LEDs it parks its period at `UINT32_MAX`.
 */
module LedModes18 {
  import opened Io
  import opened LedModes

  /** The minimal time unit, in loops; the buttons are read once per unit. */
  const TIME_UNIT: int := 1000

  const SLOW_BLINK_PERIOD: int := 1000 * TIME_UNIT
  const FAST_BLINK_PERIOD: int := 100 * TIME_UNIT

  /** `POLICE_PATTERN`: red blinks three times, then blue blinks three times. */
  const POLICE_PATTERN: seq<Leds> := [
    Leds(true, false), Leds(false, false), Leds(true, false), Leds(false, false), Leds(true, false), Leds(false, false),
    Leds(false, true), Leds(false, false), Leds(false, true), Leds(false, false), Leds(false, true), Leds(false, false)
  ]

  /** The sketch's globals as a value; `button1` and `button2` are `g_button_state`. */
  datatype State = State(mode: LedMode, policeIndex: int, period: int, leds: Leds,
                         counter: int, button1: int, button2: int)

  /** The period `Cycle_LED_Modes` sets for each mode. */
  function PeriodOf(m: LedMode): int {
    match m
    case None => 0
    case Red => SLOW_BLINK_PERIOD
    case Blue => SLOW_BLINK_PERIOD
    case Police => FAST_BLINK_PERIOD
  }

  /** The states the sketch can be in: the period is the mode's, or None has parked it. */
  predicate ValidState(s: State) {
    && 0 <= s.policeIndex < |POLICE_PATTERN|
    && (s.period == PeriodOf(s.mode) || (s.mode == None && s.period == UINT32_MAX))
    && 0 <= s.counter < TWO_32
    && IsReading(s.button1) && IsReading(s.button2)
  }

  /** The mode index one step forward or backward, wrapped into 0..Count-1. */
  function NextIndex(m: LedMode, backward: bool): (r: int)
    ensures 0 <= r < MODE_COUNT
  {
    var n := if backward then ModeIndex(m) - 1 else ModeIndex(m) + 1;
    var n' := if n >= MODE_COUNT then 0 else n;
    if n' < 0 then MODE_COUNT - 1 else n'
  }

  /** `Cycle_LED_Modes`: the neighbouring mode and its period; entering Police restarts the show. */
  function Cycle(s: State, backward: bool): State {
    var m := ModeOf(NextIndex(s.mode, backward));
    match m
    case None => s.(mode := m, period := 0)
    case Red => s.(mode := m, period := SLOW_BLINK_PERIOD)
    case Blue => s.(mode := m, period := SLOW_BLINK_PERIOD)
    case Police => s.(mode := m, period := FAST_BLINK_PERIOD, policeIndex := 0)
  }

  /** Whether `Process_State` acts on this loop. */
  predicate Due(period: int, counter: int) {
    period == 0 || counter % period == 0
  }

  /** The state switch of `Process_State`, once it is due. */
  function Advance(s: State): State
    requires 0 <= s.policeIndex < |POLICE_PATTERN|
  {
    match s.mode
    case None => s.(leds := DARK, period := UINT32_MAX)
    case Red => s.(leds := Leds(!s.leds.red, false))
    case Blue => s.(leds := Leds(false, !s.leds.blue))
    case Police =>
      var next := s.policeIndex + 1;
      s.(leds := POLICE_PATTERN[s.policeIndex], policeIndex := if next >= |POLICE_PATTERN| then 0 else next)
  }

  /** One button of `Process_Input_Pins`: a new level is stored and a LOW one cycles the mode. */
  function ButtonStep(s: State, stored: int, level: int, backward: bool): State {
    if stored == level then s
    else
      var t := if backward then s.(button2 := level) else s.(button1 := level);
      if level == LOW then Cycle(t, backward) else t
  }

  /** `Process_Input_Pins` on the counter already incremented: on a sampling loop, button 1 and then button 2. */
  function InputStep(s: State, level1: int, level2: int): State {
    if s.counter % TIME_UNIT != 0 then s
    else
      var t := ButtonStep(s, s.button1, level1, false);
      ButtonStep(t, t.button2, level2, true)
  }

  /** One `loop`. */
  function LoopStep(s: State, level1: int, level2: int): State
    requires 0 <= s.policeIndex < |POLICE_PATTERN|
  {
    var t := InputStep(s.(counter := Wrap32(s.counter + 1)), level1, level2);
    if Due(t.period, t.counter) then Advance(t) else t
  }

  class Sketch {
    var mode: LedMode
    /** `g_police_index` */
    var policeIndex: int
    /** `g_blink_period` */
    var period: int
    /** `g_loop_counter` */
    var loopCounter: int
    /** `g_button_state` */
    const buttonState: array<int>
    /** The `state` of `g_leds[ID_RED]` and `g_leds[ID_BLUE]`. */
    const ledState: array<bool>
    /** Every `digitalWrite`, in order. */
    var writes: seq<GpioWrite>

    function Snapshot(): State
      reads this, ledState, buttonState
      requires ledState.Length == 2 && buttonState.Length == 2
    {
      State(mode, policeIndex, period, Leds(ledState[0], ledState[1]), loopCounter, buttonState[0], buttonState[1])
    }

    ghost predicate Valid()
      reads this, ledState, buttonState
    {
      ledState.Length == 2 && buttonState.Length == 2 && ValidState(Snapshot())
    }

    /** `setup`: drive both LEDs from their initial (off) state, then cycle forward from None into Red. */
    constructor ()
      ensures Valid() && fresh(ledState) && fresh(buttonState)
      ensures Snapshot() == Cycle(State(None, 0, 0, DARK, 0, LOW, LOW), false)
      ensures writes == OutputWrites([false, false])
    {
      mode, policeIndex, period, loopCounter := None, 0, 0, 0;
      ledState := new bool[2](_ => false);
      buttonState := new int[2](_ => LOW);
      writes := [];
      new;
      ProcessOutputPins();
      CycleLedModes(false);
    }

    /** `Process_Output_Pins`: write every LED's pin from its state. */
    method ProcessOutputPins()
      requires ledState.Length == 2 && buttonState.Length == 2
      modifies this
      ensures Snapshot() == old(Snapshot())
      ensures writes == old(writes) + OutputWrites(ledState[..])
    {
      var out: seq<GpioWrite> := [];
      var i := 0;
      while i < ledState.Length
        invariant 0 <= i <= ledState.Length
        invariant out == OutputWrites(ledState[..i])
      {
        out := out + [SetLevel(LED_PINS[i], if ledState[i] then HIGH else LOW)];
        i := i + 1;
      }
      assert ledState[..i] == ledState[..];
      writes := writes + out;
    }

    /** `Cycle_LED_Modes` */
    method CycleLedModes(backward: bool)
      requires ledState.Length == 2 && buttonState.Length == 2
      modifies this
      ensures Snapshot() == Cycle(old(Snapshot()), backward)
      ensures writes == old(writes)
    {
      var newMode := if backward then ModeIndex(mode) - 1 else ModeIndex(mode) + 1;
      if newMode >= MODE_COUNT {
        newMode := 0;
      }
      if newMode < 0 {
        newMode := MODE_COUNT - 1;
      }
      mode := ModeOf(newMode);
      match mode {
        case None =>
          period := 0;
        case Red =>
          period := SLOW_BLINK_PERIOD;
        case Blue =>
          period := SLOW_BLINK_PERIOD;
        case Police =>
          period := FAST_BLINK_PERIOD;
          policeIndex := 0;
      }
    }

    /** `Process_State`: `changed` is whether a period has elapsed, and then the LEDs take their next state. */
    method ProcessState() returns (changed: bool)
      requires Valid()
      modifies this, ledState
      ensures Valid()
      ensures changed == Due(old(period), old(loopCounter))
      ensures Snapshot() == if changed then Advance(old(Snapshot())) else old(Snapshot())
      ensures writes == old(writes)
    {
      if period != 0 && loopCounter % period != 0 {
        return false;
      }
      match mode {
        case None =>
          ledState[0] := false;
          ledState[1] := false;
          period := UINT32_MAX;
        case Red =>
          ledState[0] := !ledState[0];
          ledState[1] := false;
        case Blue =>
          ledState[0] := false;
          ledState[1] := !ledState[1];
        case Police =>
          var cstel := POLICE_PATTERN[policeIndex];
          policeIndex := policeIndex + 1;
          ledState[0] := cstel.red;
          ledState[1] := cstel.blue;
          if policeIndex >= |POLICE_PATTERN| {
            policeIndex := 0;
          }
      }
      changed := true;
    }

    /** `Process_Input_Pins`, with `level1` and `level2` what `digitalRead` returns for the two buttons on this loop. */
    method ProcessInputPins(level1: int, level2: int)
      requires Valid() && IsReading(level1) && IsReading(level2)
      modifies this, buttonState
      ensures Valid()
      ensures Snapshot() == InputStep(old(Snapshot()), level1, level2)
      ensures writes == old(writes)
    {
      if loopCounter % TIME_UNIT != 0 {
        return;
      }
      if buttonState[0] != level1 {
        buttonState[0] := level1;
        if level1 == LOW {
          CycleLedModes(false);
        }
      }
      if buttonState[1] != level2 {
        buttonState[1] := level2;
        if level2 == LOW {
          CycleLedModes(true);
        }
      }
    }

    /** `loop`: the LEDs are written only when `Process_State` reports a change. */
    method Loop(level1: int, level2: int) returns (changed: bool)
      requires Valid() && IsReading(level1) && IsReading(level2)
      modifies this, ledState, buttonState
      ensures Valid()
      ensures Snapshot() == LoopStep(old(Snapshot()), level1, level2)
      ensures writes == old(writes) + (if changed then OutputWrites(ledState[..]) else [])
    {
      ghost var s0 := Snapshot();
      loopCounter := Wrap32(loopCounter + 1);
      ghost var s1 := Snapshot();
      assert s1 == s0.(counter := Wrap32(s0.counter + 1));
      ProcessInputPins(level1, level2);
      ghost var t := Snapshot();
      assert t == InputStep(s1, level1, level2);
      changed := ProcessState();
      ghost var u := Snapshot();
      assert changed == Due(t.period, t.counter);
      LoopStepParts(s0, level1, level2);
      assert u == LoopStep(s0, level1, level2);
      if changed {
        ProcessOutputPins();
      }
      assert Snapshot() == u;
      assert s0 == old(Snapshot());
    }
  }

  // ----- Lemmas -----

  /** The loop keeps the police index in 0..11 and the period the mode's (or parked). */
  lemma LoopKeepsValid(s: State, level1: int, level2: int)
    requires ValidState(s) && IsReading(level1) && IsReading(level2)
    ensures ValidState(LoopStep(s, level1, level2))
  {
    var c := s.(counter := Wrap32(s.counter + 1));
    CounterStepKeepsValid(s);
    InputStepKeepsValid(c, level1, level2);
    DueStepKeepsValid(InputStep(c, level1, level2));
    LoopStepParts(s, level1, level2);
  }

  /** The loop counter stays a 32-bit value. */
  lemma CounterStepKeepsValid(s: State)
    requires ValidState(s)
    ensures ValidState(s.(counter := Wrap32(s.counter + 1)))
  {
  }

  /** One loop: the counter ticks, the buttons are sampled, and a due step advances the show. */
  lemma LoopStepParts(s: State, level1: int, level2: int)
    requires ValidState(s)
    ensures var t := InputStep(s.(counter := Wrap32(s.counter + 1)), level1, level2);
      LoopStep(s, level1, level2) == if Due(t.period, t.counter) then Advance(t) else t
  {
  }

  /** The end of a loop, where a due step advances the show, keeps the state valid. */
  lemma DueStepKeepsValid(t: State)
    requires ValidState(t)
    ensures ValidState(if Due(t.period, t.counter) then Advance(t) else t)
  {
    if Due(t.period, t.counter) {
      AdvanceKeepsValid(t);
    }
  }

  /** The button sampling keeps the state valid. */
  lemma InputStepKeepsValid(s: State, level1: int, level2: int)
    requires ValidState(s) && IsReading(level1) && IsReading(level2)
    ensures ValidState(InputStep(s, level1, level2))
  {
    if s.counter % TIME_UNIT == 0 {
      var t := ButtonStep(s, s.button1, level1, false);
      ButtonStepKeepsValid(s, s.button1, level1, false);
      ButtonStepKeepsValid(t, t.button2, level2, true);
    }
  }

  /** One button keeps the state valid. */
  lemma ButtonStepKeepsValid(s: State, stored: int, level: int, backward: bool)
    requires ValidState(s) && IsReading(level)
    ensures ValidState(ButtonStep(s, stored, level, backward))
  {
    if stored != level {
      var t := if backward then s.(button2 := level) else s.(button1 := level);
      assert ValidState(t);
      CycleSetsPeriod(t, backward);
    }
  }

  /** A due step keeps the state valid. */
  lemma AdvanceKeepsValid(s: State)
    requires ValidState(s)
    ensures ValidState(Advance(s))
  {
  }

  /** Forward is +1 and backward is -1, modulo Count, so one undoes the other. */
  lemma CycleIsModular(s: State)
    ensures ModeIndex(Cycle(s, false).mode) == (ModeIndex(s.mode) + 1) % MODE_COUNT
    ensures ModeIndex(Cycle(s, true).mode) == (ModeIndex(s.mode) + MODE_COUNT - 1) % MODE_COUNT
    ensures Cycle(Cycle(s, false), true).mode == s.mode
    ensures Cycle(Cycle(s, true), false).mode == s.mode
  {
  }

  /** Cycling sets the new mode's period, restarts the show on entering Police, and leaves LEDs, counter and buttons alone. */
  lemma CycleSetsPeriod(s: State, backward: bool)
    ensures var r := Cycle(s, backward);
      && r.period == PeriodOf(r.mode)
      && (r.mode == Police ==> r.policeIndex == 0)
      && (r.mode != Police ==> r.policeIndex == s.policeIndex)
      && r.leds == s.leds && r.counter == s.counter && r.button1 == s.button1 && r.button2 == s.button2
  {
  }

  /** The table is the police show: no step lights both LEDs. */
  lemma PatternIsPoliceFlash(k: int)
    requires 0 <= k < |POLICE_PATTERN|
    ensures POLICE_PATTERN[k] == PoliceFlash(k)
    ensures !(POLICE_PATTERN[k].red && POLICE_PATTERN[k].blue)
  {
    PoliceFlashShape(k);
  }

  /** A police step shows the table entry at the index and moves the index on, wrapping at 12. */
  lemma PoliceStep(s: State)
    requires ValidState(s) && s.mode == Police
    ensures Advance(s).leds == PoliceFlash(s.policeIndex)
    ensures Advance(s).policeIndex == (s.policeIndex + 1) % |POLICE_PATTERN|
  {
    PatternIsPoliceFlash(s.policeIndex);
  }

  /**
   * A None step darkens both LEDs and parks the period at `UINT32_MAX`; from
   * then on the step is due again only when the 32-bit counter is 0 or
   * `UINT32_MAX`.
   */
  lemma NoneParks(s: State, c: int)
    requires ValidState(s) && s.mode == None && 0 <= c < TWO_32
    ensures Advance(s).leds == DARK && Advance(s).period == UINT32_MAX
    ensures Due(UINT32_MAX, c) <==> c == 0 || c == UINT32_MAX
  {
    if c == UINT32_MAX {
      assert c % UINT32_MAX == 0;
    } else if c != 0 {
      assert c % UINT32_MAX == c;
    }
  }

  /** Entering None sets period 0, so the very next `Process_State` runs and darkens the LEDs. */
  lemma EnteringNoneDarkensNext(s: State, backward: bool, c: int)
    requires ValidState(s) && Cycle(s, backward).mode == None
    ensures Due(Cycle(s, backward).period, c)
    ensures Advance(Cycle(s, backward)).leds == DARK
  {
  }

  /** A Red step toggles red and forces blue off; a Blue step the mirror image. */
  lemma SolidModesToggle(s: State)
    requires ValidState(s) && (s.mode == Red || s.mode == Blue)
    ensures s.mode == Red ==> Advance(s).leds == Leds(!s.leds.red, false)
    ensures s.mode == Blue ==> Advance(s).leds == Leds(false, !s.leds.blue)
  {
  }

  /**
   * On a sampling loop, button 1 newly LOW moves one mode forward and button 2
   * newly LOW one mode back; both at once leave the mode where it was. Off
   * the sampling loops the buttons are not read.
   */
  lemma ButtonsMoveTheMode(s: State, level1: int, level2: int)
    requires ValidState(s) && IsReading(level1) && IsReading(level2)
    ensures s.counter % TIME_UNIT != 0 ==> InputStep(s, level1, level2) == s
    ensures var forward := s.button1 != level1 && level1 == LOW;
      var backward := s.button2 != level2 && level2 == LOW;
      s.counter % TIME_UNIT == 0 ==>
        ModeIndex(InputStep(s, level1, level2).mode)
          == (ModeIndex(s.mode) + (if forward then 1 else 0) + (if backward then MODE_COUNT - 1 else 0)) % MODE_COUNT
  {
  }
}

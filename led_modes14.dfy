/**
 * The lesson-14 sketch: a button cycles the LED mode None -> Red -> Blue ->
 * Police -> None; on every loop whose counter is a multiple of the mode's
 * period the LEDs take their next state, and the police mode walks a
 * twelve-step state machine.
 *
 * The sketch's globals are the fields of one `Sketch` object; `setup` is its
 * constructor and `loop` its `Loop` method, with the button level read in
 * that loop passed in.
 */
module LedModes14 {
  import opened Io
  import opened LedModes

  /** The button is read on every 1000th loop. */
  const BUTTON_SAMPLE_LOOPS: int := 1 * 1000

  /** The state switching periods, in loops. */
  const RED_PERIOD: int := 1000 * 1000
  const BLUE_PERIOD: int := 1000 * 1000
  const POLICE_PERIOD: int := 100 * 1000

  /** The sketch's globals as a value. */
  datatype State = State(mode: LedMode, fsm: int, period: int, leds: Leds, counter: int, lastButton: int)

  /** The period each mode runs with (0: every loop). */
  function PeriodOf(m: LedMode): int {
    match m
    case None => 0
    case Red => RED_PERIOD
    case Blue => BLUE_PERIOD
    case Police => POLICE_PERIOD
  }

  /** The states the sketch can be in. */
  predicate ValidState(s: State) {
    && 0 <= s.fsm < POLICE_STEPS
    && (s.mode != Police ==> s.fsm == 0)
    && s.period == PeriodOf(s.mode)
    && 0 <= s.counter < TWO_32
    && IsReading(s.lastButton)
  }

  /** `Cycle_LED_Mode`: the next mode with its period and the state machine reset; entering None darkens both LEDs. */
  function Cycle(s: State): State {
    match s.mode
    case None => s.(mode := Red, period := 1000 * 1000, fsm := 0)
    case Red => s.(mode := Blue, period := 1000 * 1000, fsm := 0)
    case Blue => s.(mode := Police, period := 100 * 1000, fsm := 0)
    case Police => s.(mode := None, period := 0, fsm := 0, leds := DARK)
  }

  /** The police `switch`: the LEDs at state-machine step `k`; any other step leaves them as they were. */
  function PoliceCase(k: int, current: Leds): Leds {
    if k == 0 then Leds(true, false)
    else if k == 1 then Leds(false, false)
    else if k == 2 then Leds(true, false)
    else if k == 3 then Leds(false, false)
    else if k == 4 then Leds(true, false)
    else if k == 5 then Leds(false, false)
    else if k == 6 then Leds(false, true)
    else if k == 7 then Leds(false, false)
    else if k == 8 then Leds(false, true)
    else if k == 9 then Leds(false, false)
    else if k == 10 then Leds(false, true)
    else if k == 11 then Leds(false, false)
    else current
  }

  /** Whether `Process_State` acts on this loop: always with period 0, otherwise on multiples of the period. */
  predicate Due(period: int, counter: int) {
    period == 0 || counter % period == 0
  }

  /** The state switch of `Process_State`, once it is due. */
  function Advance(s: State): State {
    match s.mode
    case None => s
    case Red => s.(leds := Leds(!s.leds.red, false))
    case Blue => s.(leds := Leds(false, !s.leds.blue))
    case Police =>
      s.(fsm := if s.fsm == 11 then 0 else Wrap32(s.fsm + 1), leds := PoliceCase(s.fsm, s.leds))
  }

  /** `Process_Input_Pins` on the counter already incremented: on a sampling loop, a new level is stored and a LOW one cycles the mode. */
  function InputStep(s: State, button: int): State {
    if s.counter % BUTTON_SAMPLE_LOOPS != 0 || s.lastButton == button then s
    else if button == LOW then Cycle(s.(lastButton := button))
    else s.(lastButton := button)
  }

  /** A button press is seen on this loop. */
  predicate Pressed(s: State, button: int) {
    s.counter % BUTTON_SAMPLE_LOOPS == 0 && s.lastButton != button && button == LOW
  }

  /** One `loop`: count the loop, read the button, and advance the LEDs when due. */
  function LoopStep(s: State, button: int): State {
    var t := InputStep(s.(counter := Wrap32(s.counter + 1)), button);
    if Due(t.period, t.counter) then Advance(t) else t
  }

  /** The sketch state after `k` due steps. */
  function AdvanceN(s: State, k: nat): State
    decreases k
  {
    if k == 0 then s else AdvanceN(Advance(s), k - 1)
  }

  class Sketch {
    var mode: LedMode
    /** `g_mode_fsm` */
    var fsm: int
    /** `g_period` */
    var period: int
    /** `g_loop_counter` */
    var loopCounter: int
    /** `g_last_button_state`, as the level it compares equal to. */
    var lastButton: int
    /** The `state` of `g_led_state[ID_RED]` and `g_led_state[ID_BLUE]`. */
    const ledState: array<bool>
    /** Every `digitalWrite`, in order. */
    var writes: seq<GpioWrite>

    function Snapshot(): State
      reads this, ledState
      requires ledState.Length == 2
    {
      State(mode, fsm, period, Leds(ledState[0], ledState[1]), loopCounter, lastButton)
    }

    ghost predicate Valid()
      reads this, ledState
    {
      ledState.Length == 2 && ValidState(Snapshot())
    }

    /** `setup`: drive both LEDs from their initial (off) state, then cycle from None into Red. */
    constructor ()
      ensures Valid() && fresh(ledState)
      ensures Snapshot() == Cycle(State(None, 0, 0, DARK, 0, LOW))
      ensures writes == OutputWrites([false, false])
    {
      mode, fsm, period, loopCounter, lastButton := None, 0, 0, 0, LOW;
      ledState := new bool[2](_ => false);
      writes := [];
      new;
      ProcessOutputPins();
      CycleLedMode();
    }

    /** `Process_Output_Pins`: write every LED's pin from its state. */
    method ProcessOutputPins()
      requires ledState.Length == 2
      modifies this
      ensures Snapshot() == old(Snapshot())
      ensures writes == old(writes) + OutputWrites(ledState[..])
    {
      var out: seq<GpioWrite> := [];
      var i := 0;
      while i < ledState.Length
        invariant 0 <= i <= ledState.Length
        invariant out == OutputWrites(ledState[..i])
      {
        out := out + [SetLevel(LED_PINS[i], if ledState[i] then HIGH else LOW)];
        i := i + 1;
      }
      assert ledState[..i] == ledState[..];
      writes := writes + out;
    }

    /** `Cycle_LED_Mode` */
    method CycleLedMode()
      requires ledState.Length == 2
      modifies this, ledState
      ensures Snapshot() == Cycle(old(Snapshot()))
      ensures writes == old(writes)
    {
      match mode {
        case None =>
          mode := Red;
          period := 1000 * 1000;
          fsm := 0;
        case Red =>
          mode := Blue;
          period := 1000 * 1000;
          fsm := 0;
        case Blue =>
          mode := Police;
          period := 100 * 1000;
          fsm := 0;
        case Police =>
          mode := None;
          period := 0;
          fsm := 0;
          ledState[0] := false;
          ledState[1] := false;
      }
    }

    /** `Process_State`: `changed` is whether a period has elapsed, and then the LEDs take their next state. */
    method ProcessState() returns (changed: bool)
      requires Valid()
      modifies this, ledState
      ensures Valid()
      ensures changed == Due(old(period), old(loopCounter))
      ensures Snapshot() == if changed then Advance(old(Snapshot())) else old(Snapshot())
      ensures writes == old(writes)
    {
      if period != 0 && loopCounter % period != 0 {
        return false;
      }
      match mode {
        case None =>
        case Red =>
          ledState[0] := !ledState[0];
          ledState[1] := false;
        case Blue =>
          ledState[0] := false;
          ledState[1] := !ledState[1];
        case Police =>
          var k := fsm;
          fsm := Wrap32(fsm + 1);
          if k == 0 {
            ledState[0], ledState[1] := true, false;
          } else if k == 1 {
            ledState[0], ledState[1] := false, false;
          } else if k == 2 {
            ledState[0], ledState[1] := true, false;
          } else if k == 3 {
            ledState[0], ledState[1] := false, false;
          } else if k == 4 {
            ledState[0], ledState[1] := true, false;
          } else if k == 5 {
            ledState[0], ledState[1] := false, false;
          } else if k == 6 {
            ledState[0], ledState[1] := false, true;
          } else if k == 7 {
            ledState[0], ledState[1] := false, false;
          } else if k == 8 {
            ledState[0], ledState[1] := false, true;
          } else if k == 9 {
            ledState[0], ledState[1] := false, false;
          } else if k == 10 {
            ledState[0], ledState[1] := false, true;
          } else if k == 11 {
            ledState[0], ledState[1] := false, false;
            fsm := 0;
          }
      }
      changed := true;
    }

    /** `Process_Input_Pins`, with `button` the level `digitalRead` returns on this loop. */
    method ProcessInputPins(button: int)
      requires Valid() && IsReading(button)
      modifies this, ledState
      ensures Valid()
      ensures Snapshot() == InputStep(old(Snapshot()), button)
      ensures writes == old(writes)
    {
      if loopCounter % BUTTON_SAMPLE_LOOPS != 0 {
        return;
      }
      if lastButton != button {
        lastButton := button;
        if button == LOW {
          CycleLedMode();
        }
      }
    }

    /** `loop`: the LEDs are written only when `Process_State` reports a change. */
    method Loop(button: int) returns (changed: bool)
      requires Valid() && IsReading(button)
      modifies this, ledState
      ensures Valid()
      ensures Snapshot() == LoopStep(old(Snapshot()), button)
      ensures writes == old(writes) + (if changed then OutputWrites(ledState[..]) else [])
    {
      loopCounter := Wrap32(loopCounter + 1);
      ProcessInputPins(button);
      changed := ProcessState();
      if changed {
        ProcessOutputPins();
      }
    }
  }

  // ----- Lemmas -----

  /** Every reachable state stays reachable: the loop keeps the state machine in 0..11 and the period matching the mode. */
  lemma LoopKeepsValid(s: State, button: int)
    requires ValidState(s) && IsReading(button)
    ensures ValidState(LoopStep(s, button))
  {
  }

  /**
   * Four presses visit Red, Blue, Police and None and come back; each one
   * resets the state machine and sets the mode's period; entering None
   * darkens both LEDs.
   */
  lemma CycleOrder(s: State)
    ensures Cycle(s).fsm == 0 && Cycle(s).period == PeriodOf(Cycle(s).mode)
    ensures ModeIndex(Cycle(s).mode) == (ModeIndex(s.mode) + 1) % MODE_COUNT
    ensures Cycle(Cycle(Cycle(Cycle(s)))).mode == s.mode
    ensures Cycle(s).mode == None ==> Cycle(s).leds == DARK
    ensures Cycle(s).mode != None ==> Cycle(s).leds == s.leds
    ensures Cycle(s).counter == s.counter && Cycle(s).lastButton == s.lastButton
  {
  }

  /** The police `switch` shows the police pattern at every step of the state machine. */
  lemma PoliceCaseIsPattern(k: int, current: Leds)
    requires 0 <= k < POLICE_STEPS
    ensures PoliceCase(k, current) == PoliceFlash(k)
  {
  }

  /**
   * Started at step `j`, `k` police steps end at step (j + k) mod 12 showing
   * the pattern of the last step taken; twelve steps from 0 come back to 0.
   */
  lemma {:induction false} PoliceRun(s: State, j: int, k: nat)
    requires s.mode == Police && s.fsm == j && 0 <= j && 1 <= k && j + k <= POLICE_STEPS
    ensures var r := AdvanceN(s, k);
      r.mode == Police && r.fsm == (j + k) % POLICE_STEPS && r.leds == PoliceFlash(j + k - 1)
      && r.period == s.period && r.counter == s.counter
    decreases k
  {
    PoliceCaseIsPattern(j, s.leds);
    if k > 1 {
      PoliceRun(Advance(s), j + 1, k - 1);
    }
  }

  /** In None the period is 0, so `Process_State` reports a change on every loop but leaves the LEDs alone. */
  lemma NoneIsIdle(s: State)
    requires ValidState(s) && s.mode == None
    ensures forall c :: Due(s.period, c)
    ensures Advance(s) == s
  {
  }

  /** A Red step toggles red and forces blue off, so two steps restore red; Blue is the mirror image. */
  lemma SolidModesToggle(s: State)
    requires s.mode == Red || s.mode == Blue
    ensures s.mode == Red ==> Advance(s).leds == Leds(!s.leds.red, false) && Advance(Advance(s)).leds.red == s.leds.red
    ensures s.mode == Blue ==> Advance(s).leds == Leds(false, !s.leds.blue) && Advance(Advance(s)).leds.blue == s.leds.blue
  {
  }

  /** The mode changes on a loop exactly when the button is read LOW after another level, on a sampling loop. */
  lemma ModeChangesOnlyOnPress(s: State, button: int)
    requires ValidState(s) && IsReading(button)
    ensures var c := s.(counter := Wrap32(s.counter + 1));
      LoopStep(s, button).mode == (if Pressed(c, button) then Cycle(s).mode else s.mode)
  {
  }
}

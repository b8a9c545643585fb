/**
 * What the lesson-14 and lesson-18 sketches share: the four LED modes, the
 * red and blue LEDs (active high, on pins 10 and 7), the police flashing
 * pattern both of them show, and `Process_Output_Pins`, which drives every
 * LED from its logical state.
 */
module LedModes {
  import opened Io

  /** `LED_Mode`, in declaration order. */
  datatype LedMode = None | Red | Blue | Police

  /** `static_cast<int>` of a mode. */
  function ModeIndex(m: LedMode): (r: int)
    ensures 0 <= r < MODE_COUNT
  {
    match m
    case None => 0
    case Red => 1
    case Blue => 2
    case Police => 3
  }

  /** `static_cast<LED_Mode>` of an index in range. */
  function ModeOf(n: int): (r: LedMode)
    requires 0 <= n < MODE_COUNT
    ensures ModeIndex(r) == n
  {
    if n == 0 then None else if n == 1 then Red else if n == 2 then Blue else Police
  }

  /** `LED_Mode::Count`. */
  const MODE_COUNT: int := 4

  const PIN_RED: Pin := 10
  const PIN_BLUE: Pin := 7

  /** The pins of the LED array, indexed by `ID_RED` (0) and `ID_BLUE` (1). */
  const LED_PINS: seq<Pin> := [PIN_RED, PIN_BLUE]

  /** The logical state of the red and the blue LED. */
  datatype Leds = Leds(red: bool, blue: bool)

  const DARK: Leds := Leds(false, false)

  /** How many steps the police pattern has. */
  const POLICE_STEPS: int := 12

  /**
   * The police show, step by step: red flashes on the even steps of the first
   * half, blue on the even steps of the second half.
   */
  function PoliceFlash(k: int): Leds {
    Leds(0 <= k < 6 && k % 2 == 0, 6 <= k < POLICE_STEPS && k % 2 == 0)
  }

  /** A level that `digitalRead` returns. */
  predicate IsReading(l: int) { l == LOW || l == HIGH }

  /** The level an LED is driven to: active high. */
  function LedLevel(on: bool): int {
    if on then HIGH else LOW
  }

  /** `Process_Output_Pins` over the first `|states|` LEDs: one `digitalWrite` per LED, in array order. */
  function OutputWrites(states: seq<bool>): (r: seq<GpioWrite>)
    requires |states| <= |LED_PINS|
    ensures |r| == |states|
  {
    seq(|states|, i requires 0 <= i < |states| => SetLevel(LED_PINS[i], LedLevel(states[i])))
  }

  // ----- Lemmas -----

  /** The mode index is a bijection onto 0..Count-1. */
  lemma ModeIndexRoundTrip(m: LedMode, n: int)
    ensures ModeOf(ModeIndex(m)) == m
    ensures 0 <= n < MODE_COUNT ==> ModeIndex(ModeOf(n)) == n
  {
  }

  /** The two LEDs are never on together, red is on exactly at steps 0, 2 and 4, and blue exactly at 6, 8 and 10. */
  lemma PoliceFlashShape(k: int)
    ensures !(PoliceFlash(k).red && PoliceFlash(k).blue)
    ensures PoliceFlash(k).red <==> k == 0 || k == 2 || k == 4
    ensures PoliceFlash(k).blue <==> k == 6 || k == 8 || k == 10
  {
  }

  /** After `Process_Output_Pins`, the red pin shows the red state and the blue pin the blue state, whatever the pins showed before. */
  lemma OutputShowsLeds(levels: map<Pin, int>, leds: Leds)
    ensures var after := ApplyAll(levels, OutputWrites([leds.red, leds.blue]));
      && PIN_RED in after && after[PIN_RED] == LedLevel(leds.red)
      && PIN_BLUE in after && after[PIN_BLUE] == LedLevel(leds.blue)
  {
    var ws := OutputWrites([leds.red, leds.blue]);
    assert ws == [SetLevel(PIN_RED, LedLevel(leds.red)), SetLevel(PIN_BLUE, LedLevel(leds.blue))];
    ApplyTwo(levels, ws[0], ws[1]);
  }
}

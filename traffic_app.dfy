/**
 * The lesson-25 application (app_main.cpp): the button callback cycles a
 * device mode Off -> Normal -> Inactive -> Off and sets the traffic light's
 * mode accordingly; the 100 ms timer alarm runs one `process_state`.
 */
module TrafficApp {
  import opened Io
  import TL = TrafficLight

  /** `DeviceMode`, the static `s_mode` of the button callback. */
  datatype DeviceMode = Off | Normal | Inactive

  /** The next device mode on a button press. */
  function NextDeviceMode(d: DeviceMode): DeviceMode {
    match d
    case Off => Normal
    case Normal => Inactive
    case Inactive => Off
  }

  /** The traffic light mode a press enters with the new device mode. */
  function LightModeFor(d: DeviceMode): TL.Mode {
    match d
    case Off => TL.Off
    case Normal => TL.Red
    case Inactive => TL.INACTIVE
  }

  /** The device mode and the traffic light together. */
  datatype AppState = AppState(device: DeviceMode, light: TL.Phase)

  /** A button press on the held state. */
  function Press(a: AppState): AppState {
    var d := NextDeviceMode(a.device);
    AppState(d, TL.EnterMode(a.light, LightModeFor(d)))
  }

  /** A timer alarm on the held state. */
  function Tick(a: AppState): AppState {
    a.(light := TL.Process(a.light))
  }

  /** The modes of the normal cycle. */
  predicate NormalMode(m: TL.Mode) {
    m == TL.Red || m == TL.RedYellow || m == TL.Green || m == TL.GreenBlink || m == TL.Yellow
  }

  /**
   * What the device mode tells about the light: Off keeps it off, Inactive
   * keeps it blinking yellow, Normal keeps it in the normal cycle; the blink
   * counter stays in 0..6 and is at least 1 while green blinks.
   */
  predicate Consistent(a: AppState) {
    && (a.device == Off ==> a.light.mode == TL.Off)
    && (a.device == Inactive ==> a.light.mode == TL.YellowBlink)
    && (a.device == Normal ==> NormalMode(a.light.mode))
    && 0 <= a.light.blink <= TL.GREEN_BLINKS
    && (a.light.mode == TL.GreenBlink ==> a.light.blink >= 1)
  }

  class App {
    /** `s_mode`. */
    var device: DeviceMode
    const light: TL.TrafficLight

    ghost predicate Valid()
      reads this, light, light.status
    {
      light.Valid() && Consistent(AppState(device, light.Snapshot()))
    }

    /** `app_main`: create the light, attach its LEDs, and start with the button in Off. */
    constructor (pinRed: int, pinYellow: int, pinGreen: int)
      requires 0 <= pinRed < 64 && 0 <= pinYellow < 64 && 0 <= pinGreen < 64
      ensures Valid() && fresh(light) && fresh(light.status)
      ensures device == Off && light.Snapshot() == TL.Phase(TL.Off, 0, 0, TL.DARK)
      ensures light.pins == [pinRed, pinYellow, pinGreen]
    {
      var l := new TL.TrafficLight();
      l.Init(pinRed, pinYellow, pinGreen);
      light := l;
      device := Off;
    }

    /** The button callback: next device mode, and exactly one `set_mode`. */
    method OnButton()
      requires Valid()
      modifies this, light, light.status
      ensures Valid()
      ensures AppState(device, light.Snapshot()) == Press(AppState(old(device), old(light.Snapshot())))
      ensures light.pins == old(light.pins)
      ensures light.writes == old(light.writes) + TL.LightWrites(light.pins, light.Snapshot().lights)
    {
      match device
      case Off =>
        device := Normal;
        light.SetMode(TL.Red);
      case Normal =>
        device := Inactive;
        light.SetMode(TL.INACTIVE);
      case Inactive =>
        device := Off;
        light.SetMode(TL.Off);
    }

    /** `timer_cb`: one `process_state`; returns false (no task to wake). */
    method TimerCallback() returns (wake: bool)
      requires Valid()
      modifies light, light.status
      ensures Valid()
      ensures !wake
      ensures AppState(device, light.Snapshot()) == Tick(AppState(device, old(light.Snapshot())))
    {
      ConsistentKeptByTick(AppState(device, light.Snapshot()));
      light.ProcessState();
      wake := false;
    }
  }

  // ----- Lemmas -----

  /** A press keeps the device mode and the light consistent. */
  lemma ConsistentKeptByPress(a: AppState)
    requires Consistent(a)
    ensures Consistent(Press(a))
  {
  }

  /** A timer tick keeps the device mode and the light consistent: the normal cycle never leaves itself. */
  lemma ConsistentKeptByTick(a: AppState)
    requires Consistent(a)
    ensures Consistent(Tick(a))
  {
  }

  /** Three presses come back to Off, with the light off and dark, whatever happened in between. */
  lemma ThreePressesTurnOff(a: AppState)
    ensures Press(Press(Press(a))).device == a.device
    ensures a.device == Inactive ==> Press(a).light.mode == TL.Off && Press(a).light.lights == TL.DARK
    ensures var b := Press(Press(Press(AppState(Off, a.light))));
      b.device == Off && b.light.mode == TL.Off && b.light.lights == TL.DARK && b.light.ticks == 0
  {
  }

  /** The first press starts the normal cycle at Red with a full countdown. */
  lemma FirstPressStartsRed(l: TL.Phase)
    ensures Press(AppState(Off, l)).light
      == TL.Phase(TL.Red, TL.LIGHT_DURATION_TICKS, l.blink, TL.Lights(true, false, false))
  {
  }
}

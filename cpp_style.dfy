/**
 * The lesson-21 C++-style blinker (cpp_style_impl.h and .cpp): an
 * `LED_handler` object per LED splits the blink rule in two. `schedule_work`
 * moves the deadlines and decides the new logical state and whether it is
 * time to write; `do_work` then writes the pin once. The loop schedules all
 * three LEDs with one time stamp before any of them is written.
 */
module CppStyle {
  import opened Io
  import opened BlinkRule

  /** What one handler holds besides its constants. */
  datatype HandlerState = HandlerState(deadlines: Deadlines, itsTime: bool, logicalState: bool)

  /** `schedule_work` on a held state: the deadlines follow the rule; it is time to write when a branch fired; the off branch wins. */
  function Scheduled(h: HandlerState, now: int, on: int, off: int): HandlerState
    requires ValidDeadlines(h.deadlines)
  {
    var d := h.deadlines;
    var fOn := FiresOn(d, now);
    var fOff := FiresOff(d, now, on);
    HandlerState(Rule(d, now, on, off), fOn || fOff,
                 if fOff then false else if fOn then true else h.logicalState)
  }

  /** `do_work` on a held state: one write when it is time, LOW for on (the pin is active low). */
  function WorkWrites(h: HandlerState, pin: Pin): seq<GpioWrite> {
    if h.itsTime then [SetLevel(pin, if h.logicalState then LOW else HIGH)] else []
  }

  class LedHandler {
    const pin: Pin
    const onDuration: int
    const offDuration: int
    /** `m_next_on_time` */
    var nextOn: int
    /** `m_next_off_time` */
    var nextOff: int
    /** `m_its_time` */
    var itsTime: bool
    /** `m_logical_state` */
    var logicalState: bool

    function Snapshot(): HandlerState
      reads this
    {
      HandlerState(Deadlines(nextOn, nextOff), itsTime, logicalState)
    }

    ghost predicate Valid()
      reads this
    {
      ValidDeadlines(Snapshot().deadlines) && 0 <= onDuration < TWO_32 && 0 <= offDuration < TWO_32
    }

    /** Both deadlines at 0, the LED logically off, nothing to write. */
    constructor (pin: Pin, onDuration: int, offDuration: int)
      requires 0 <= onDuration < TWO_32 && 0 <= offDuration < TWO_32
      ensures Valid() && Snapshot() == HandlerState(START, false, false)
      ensures this.pin == pin && this.onDuration == onDuration && this.offDuration == offDuration
    {
      this.pin := pin;
      this.onDuration := onDuration;
      this.offDuration := offDuration;
      nextOn, nextOff := 0, 0;
      itsTime, logicalState := false, false;
    }

    /** `schedule_work` */
    method ScheduleWork(now: int)
      requires Valid()
      modifies this
      ensures Valid()
      ensures Snapshot() == Scheduled(old(Snapshot()), now, onDuration, offDuration)
    {
      itsTime := false;
      if now > nextOn {
        nextOff := Wrap32(nextOn + onDuration);
        logicalState := true;
        itsTime := true;
      }
      if now > nextOff {
        nextOn := Wrap32(nextOff + offDuration);
        logicalState := false;
        itsTime := true;
      }
    }

    /** `do_work`: `out` is the `digitalWrite` it makes, if any. */
    method DoWork() returns (out: seq<GpioWrite>)
      ensures out == WorkWrites(Snapshot(), pin)
    {
      out := [];
      if itsTime {
        out := [SetLevel(pin, if logicalState then LOW else HIGH)];
      }
    }
  }

  /** The sketch's three handlers: (pin, on ms, off ms) = (6, 10, 200), (8, 10, 500), (12, 10, 1000). */
  class Sketch {
    const led1: LedHandler
    const led2: LedHandler
    const led3: LedHandler
    /** Every `digitalWrite`, in order. */
    var writes: seq<GpioWrite>

    ghost predicate Valid()
      reads this, led1, led2, led3
    {
      && led1 != led2 && led2 != led3 && led1 != led3
      && led1.Valid() && led2.Valid() && led3.Valid()
    }

    constructor ()
      ensures Valid() && writes == []
      ensures led1.pin == 6 && led1.onDuration == 10 && led1.offDuration == 200
      ensures led2.pin == 8 && led2.onDuration == 10 && led2.offDuration == 500
      ensures led3.pin == 12 && led3.onDuration == 10 && led3.offDuration == 1000
      ensures led1.Snapshot() == led2.Snapshot() == led3.Snapshot() == HandlerState(START, false, false)
    {
      led1 := new LedHandler(6, 10, 200);
      led2 := new LedHandler(8, 10, 500);
      led3 := new LedHandler(12, 10, 1000);
      writes := [];
    }

    /** `loop_cpp_impl` at time `now`: every handler sees the same time, and each evolves on its own state only. */
    method Loop(now: int)
      requires Valid()
      modifies this, led1, led2, led3
      ensures Valid()
      ensures led1.Snapshot() == Scheduled(old(led1.Snapshot()), now, led1.onDuration, led1.offDuration)
      ensures led2.Snapshot() == Scheduled(old(led2.Snapshot()), now, led2.onDuration, led2.offDuration)
      ensures led3.Snapshot() == Scheduled(old(led3.Snapshot()), now, led3.onDuration, led3.offDuration)
      ensures writes == old(writes) + WorkWrites(led1.Snapshot(), led1.pin)
        + WorkWrites(led2.Snapshot(), led2.pin) + WorkWrites(led3.Snapshot(), led3.pin)
    {
      led1.ScheduleWork(now);
      led2.ScheduleWork(now);
      led3.ScheduleWork(now);
      var w1 := led1.DoWork();
      var w2 := led2.DoWork();
      var w3 := led3.DoWork();
      writes := writes + w1 + w2 + w3;
    }
  }

  // ----- Lemmas -----

  /**
   * `schedule_work` makes it time to write exactly when a branch fired; when
   * none fired nothing but the flag changes; when both fired the LED ends off.
   */
  lemma ScheduledCases(h: HandlerState, now: int, on: int, off: int)
    requires ValidDeadlines(h.deadlines)
    ensures var r := Scheduled(h, now, on, off);
      && (r.itsTime <==> FiresOn(h.deadlines, now) || FiresOff(h.deadlines, now, on))
      && (!r.itsTime ==> r == h.(itsTime := false))
      && (FiresOff(h.deadlines, now, on) ==> !r.logicalState)
      && (FiresOn(h.deadlines, now) && !FiresOff(h.deadlines, now, on) ==> r.logicalState)
  {
  }

  /**
   * The C++ split and the C-style handler agree: from the same deadlines at
   * the same time they reach the same deadlines, and the one write of
   * `do_work` leaves the pin at the level the C-style writes leave it.
   */
  lemma AgreesWithCStyle(h: HandlerState, now: int, pin: Pin, on: int, off: int, levels: map<Pin, int>)
    requires ValidDeadlines(h.deadlines)
    ensures Scheduled(h, now, on, off).deadlines == Rule(h.deadlines, now, on, off)
    ensures ApplyAll(levels, WorkWrites(Scheduled(h, now, on, off), pin))
         == ApplyAll(levels, RuleWrites(h.deadlines, now, pin, on))
  {
    var d := h.deadlines;
    RuleWritesCases(d, now, pin, on, off);
    var low := SetLevel(pin, LOW);
    var high := SetLevel(pin, HIGH);
    if FiresOn(d, now) && FiresOff(d, now, on) {
      ApplyTwo(levels, low, high);
      assert [high][1..] == [];
      assert ApplyAll(levels, [high]) == Apply(levels, high);
      assert Apply(Apply(levels, low), high) == Apply(levels, high);
    }
  }
}

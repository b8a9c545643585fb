/**
 * The two-deadline blink rule of lessons 21 and 22. Each LED keeps the time
 * it is next due on and the time it is next due off (in `millis()`, a 32-bit
 * `ulong` that wraps around). On every call: if the time is past the on
 * deadline, the off deadline becomes that deadline plus the on duration and
 * the LED is switched on; then, if the time is past the (possibly new) off
 * deadline, the on deadline becomes it plus the off duration and the LED is
 * switched off. The LEDs are wired so that LOW lights them.
 *
 * `CHandler` is the C-style handler: its deadlines are the function-local
 * statics of one `led_X_handler`, and it writes the pin inside each branch.
 */
module BlinkRule {
  import opened Io

  /** The two deadlines of one LED. */
  datatype Deadlines = Deadlines(nextOn: int, nextOff: int)

  /** Both deadlines start at 0. */
  const START: Deadlines := Deadlines(0, 0)

  predicate ValidDeadlines(d: Deadlines) {
    0 <= d.nextOn < TWO_32 && 0 <= d.nextOff < TWO_32
  }

  /** Whether the on branch fires at `now`. */
  predicate FiresOn(d: Deadlines, now: int) {
    now > d.nextOn
  }

  /** The deadlines after the on branch. */
  function AfterOn(d: Deadlines, now: int, on: int): Deadlines {
    if FiresOn(d, now) then d.(nextOff := Wrap32(d.nextOn + on)) else d
  }

  /** Whether the off branch fires at `now`, judged on the deadlines the on branch left. */
  predicate FiresOff(d: Deadlines, now: int, on: int) {
    now > AfterOn(d, now, on).nextOff
  }

  /** The deadlines after one call of the rule. */
  function Rule(d: Deadlines, now: int, on: int, off: int): (r: Deadlines)
    requires ValidDeadlines(d)
    ensures ValidDeadlines(r)
    ensures !FiresOn(d, now) && !FiresOff(d, now, on) ==> r == d
  {
    var e := AfterOn(d, now, on);
    if now > e.nextOff then e.(nextOn := Wrap32(e.nextOff + off)) else e
  }

  /** The pin writes of one C-style call: LOW when the on branch fires, then HIGH when the off branch fires. */
  function RuleWrites(d: Deadlines, now: int, pin: Pin, on: int): (r: seq<GpioWrite>)
    ensures |r| <= 2
    ensures forall i :: 0 <= i < |r| ==> r[i].SetLevel? && r[i].pin == pin
  {
    (if FiresOn(d, now) then [SetLevel(pin, LOW)] else [])
      + (if FiresOff(d, now, on) then [SetLevel(pin, HIGH)] else [])
  }

  /**
   * The deadlines sit on the grid of the blink period P = on + off after `k`
   * periods: the on deadline is k * P, and the off deadline is `on` after it
   * (the LED is on) or `off` before it (the LED is off); or both are still 0.
   */
  predicate OnGrid(d: Deadlines, on: int, off: int, k: nat) {
    && d.nextOn == k * (on + off)
    && (d.nextOff == d.nextOn + on || d.nextOff + off == d.nextOn || d == START)
  }

  /** One C-style `led_X_handler`: its pin and durations, and its static deadlines. */
  class CHandler {
    const pin: Pin
    const onDuration: int
    const offDuration: int
    /** `next_on_time` */
    var nextOn: int
    /** `next_off_time` */
    var nextOff: int

    function Snapshot(): Deadlines
      reads this
    {
      Deadlines(nextOn, nextOff)
    }

    ghost predicate Valid()
      reads this
    {
      ValidDeadlines(Snapshot()) && 0 <= onDuration < TWO_32 && 0 <= offDuration < TWO_32
    }

    /** The statics start at 0. */
    constructor (pin: Pin, onDuration: int, offDuration: int)
      requires 0 <= onDuration < TWO_32 && 0 <= offDuration < TWO_32
      ensures Valid() && Snapshot() == START
      ensures this.pin == pin && this.onDuration == onDuration && this.offDuration == offDuration
    {
      this.pin := pin;
      this.onDuration := onDuration;
      this.offDuration := offDuration;
      nextOn := 0;
      nextOff := 0;
    }

    /** One call of the handler at time `now`; `out` are the `digitalWrite`s it makes. */
    method Handle(now: int) returns (out: seq<GpioWrite>)
      requires Valid()
      modifies this
      ensures Valid()
      ensures Snapshot() == Rule(old(Snapshot()), now, onDuration, offDuration)
      ensures out == RuleWrites(old(Snapshot()), now, pin, onDuration)
    {
      out := [];
      if now > nextOn {
        nextOff := Wrap32(nextOn + onDuration);
        out := out + [SetLevel(pin, LOW)];
      }
      if now > nextOff {
        nextOn := Wrap32(nextOff + offDuration);
        out := out + [SetLevel(pin, HIGH)];
      }
    }
  }

  // ----- Lemmas -----

  /**
   * When both branches fire in one call, the LED is written twice and ends
   * HIGH (off); when only one fires, it is written once, LOW for on and HIGH
   * for off; when neither fires nothing is written and nothing changes.
   */
  lemma RuleWritesCases(d: Deadlines, now: int, pin: Pin, on: int, off: int)
    requires ValidDeadlines(d)
    ensures var w := RuleWrites(d, now, pin, on);
      && (FiresOn(d, now) && FiresOff(d, now, on) ==> w == [SetLevel(pin, LOW), SetLevel(pin, HIGH)])
      && (FiresOn(d, now) && !FiresOff(d, now, on) ==> w == [SetLevel(pin, LOW)])
      && (!FiresOn(d, now) && FiresOff(d, now, on) ==> w == [SetLevel(pin, HIGH)])
      && (!FiresOn(d, now) && !FiresOff(d, now, on) ==> w == [] && Rule(d, now, on, off) == d)
  {
  }

  /**
   * Without wrap-around the deadlines never leave the grid of the blink
   * period: a call moves them on by at most one whole period, re-based on the
   * previous deadline and not on the time of the call, so lateness does not
   * accumulate into drift.
   */
  lemma RuleStaysOnGrid(d: Deadlines, now: int, on: int, off: int, k: nat)
    requires ValidDeadlines(d) && on >= 0 && off >= 0
    requires d.nextOn + on + off < TWO_32 && d.nextOff + off < TWO_32
    requires OnGrid(d, on, off, k)
    ensures OnGrid(Rule(d, now, on, off), on, off, k) || OnGrid(Rule(d, now, on, off), on, off, k + 1)
    ensures Rule(d, now, on, off).nextOn == d.nextOn || Rule(d, now, on, off).nextOn == d.nextOn + on + off
  {
    var r := Rule(d, now, on, off);
    if FiresOn(d, now) && now > d.nextOn + on {
      assert r.nextOn == d.nextOn + on + off;
      assert (k + 1) * (on + off) == k * (on + off) + (on + off);
      assert OnGrid(r, on, off, k + 1);
    } else if !FiresOn(d, now) && now > d.nextOff {
      assert d.nextOff + off == d.nextOn || d == START;
    }
  }

  /** A deadline at `UINT32_MAX` can never be passed by a 32-bit time: the rule leaves such an LED alone and writes nothing. */
  lemma ParkedNeverFires(now: int, pin: Pin, on: int, off: int)
    requires 0 <= now < TWO_32
    ensures var parked := Deadlines(UINT32_MAX, UINT32_MAX);
      Rule(parked, now, on, off) == parked && RuleWrites(parked, now, pin, on) == []
  {
  }
}

/**
 * The lesson-25 push button (Button.cpp): an any-edge interrupt samples the
 * pin, keeps the debounce stamps, and calls the user callback for each press.
 */
module Button {
  import opened Debounce

  /** `GPIO_NUM_NC`. */
  const PIN_NC: int := -1

  class Button {
    var sampleTime: int
    var depressTime: int
    var releaseTime: int
    var level: int
    var pin: int
    /** How many times the callback has been called. */
    var clicks: nat

    /** The sampled state, as a value. */
    function Stamps(): Stamps
      reads this
    {
      Debounce.Stamps(level, sampleTime, depressTime, releaseTime)
    }

    /** Not attached to a pin yet; the atomics start at 0. */
    constructor ()
      ensures pin == PIN_NC && clicks == 0
      ensures Stamps() == Debounce.Stamps(0, 0, 0, 0)
    {
      sampleTime, depressTime, releaseTime, level := 0, 0, 0, 0;
      pin := PIN_NC;
      clicks := 0;
    }

    /** `init`: attach to `pin` and stamp both times with `now` with the pin released, so the first click is not missed. */
    method Init(pin: int, now: nat)
      requires 0 <= pin < 64
      modifies this
      ensures this.pin == pin && clicks == old(clicks)
      ensures Stamps() == Initial(old(Stamps()), now)
    {
      this.pin := pin;
      depressTime := now;
      releaseTime := now;
      level := 1;
    }

    /** `handler`: one interrupt at time `now` reading `level`; `fired` says whether the callback ran. */
    method Handler(now: nat, level: int) returns (fired: bool)
      requires IsLevel(level)
      modifies this
      ensures Stamps() == Sampled(old(Stamps()), now, level)
      ensures fired == GuardedPress(Stamps())
      ensures clicks == old(clicks) + (if fired then 1 else 0)
      ensures pin == old(pin)
    {
      if this.level == level {
        if level != 0 {
          depressTime := 0;
        } else {
          releaseTime := 0;
        }
      } else {
        if level != 0 {
          releaseTime := now;
        } else {
          depressTime := now;
        }
      }
      this.level := level;
      sampleTime := now;
      fired := false;
      if this.level == 0 && depressTime != 0 && releaseTime != 0
        && depressTime - releaseTime > HIGH_STATE_GUARD_INTERVAL_US
      {
        clicks := clicks + 1;
        fired := true;
      }
    }
  }
}

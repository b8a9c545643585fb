/**
 * The bookkeeping that the lesson-25 `Button::handler` and the lesson-22
 * `HandlerBase::Handler` share: on every interrupt the pin level and the time
 * are sampled; a repeated level clears one timestamp, a changed level stamps
 * one; and a press is recognised when the pin went low after staying high for
 * longer than a guard interval.
 *
 * Times are microseconds since boot from `esp_timer_get_time`, non-negative
 * 64-bit values; the model takes them as naturals.
 */
module Debounce {

  /** How long the pin must stay high to end a press: 10 ms. */
  const HIGH_STATE_GUARD_INTERVAL_US: int := 10 * 1000

  /** The sampled state: the last level, when it was sampled, and the depress and release stamps (0 = cleared). */
  datatype Stamps = Stamps(level: int, sampleTime: int, depressTime: int, releaseTime: int)

  /** A level read from a pin. */
  predicate IsLevel(l: int) { l == 0 || l == 1 }

  /** One interrupt: the level and timestamp update. */
  function Sampled(s: Stamps, now: nat, level: int): (r: Stamps)
    ensures r.level == level && r.sampleTime == now
  {
    var depress :=
      if s.level == level then (if level != 0 then 0 else s.depressTime)
      else (if level != 0 then s.depressTime else now);
    var release :=
      if s.level == level then (if level != 0 then s.releaseTime else 0)
      else (if level != 0 then now else s.releaseTime);
    Stamps(level, now, depress, release)
  }

  /** After `Init`: both stamps at the start time, the pin high (released). */
  function Initial(s: Stamps, now: nat): Stamps {
    s.(depressTime := now, releaseTime := now, level := 1)
  }

  /** A press: the pin is low, neither stamp is cleared, and it went low more than the guard interval after it went high. */
  predicate GuardedPress(s: Stamps) {
    && s.level == 0
    && s.depressTime != 0
    && s.releaseTime != 0
    && s.depressTime - s.releaseTime > HIGH_STATE_GUARD_INTERVAL_US
  }

  // ----- Lemmas -----

  /** The four cases of the update, each stated outright. */
  lemma SampledCases(s: Stamps, now: nat, level: int)
    requires IsLevel(level)
    ensures var r := Sampled(s, now, level);
      && (s.level == level && level == 1 ==> r.depressTime == 0 && r.releaseTime == s.releaseTime)
      && (s.level == level && level == 0 ==> r.releaseTime == 0 && r.depressTime == s.depressTime)
      && (s.level != level && level == 1 ==> r.releaseTime == now && r.depressTime == s.depressTime)
      && (s.level != level && level == 0 ==> r.depressTime == now && r.releaseTime == s.releaseTime)
  {
  }

  /**
   * A press is recognised only on the sample where the pin goes from high to
   * low, and then exactly when the release stamp is set, the time is not 0 and
   * the pin stayed high for more than 10 ms.
   */
  lemma PressOnlyOnFallingEdge(s: Stamps, now: nat, level: int)
    requires IsLevel(level)
    ensures GuardedPress(Sampled(s, now, level)) ==> s.level != 0 && level == 0
    ensures s.level != 0 && level == 0 ==>
      (GuardedPress(Sampled(s, now, level)) <==>
         s.releaseTime != 0 && now != 0 && now - s.releaseTime > HIGH_STATE_GUARD_INTERVAL_US)
  {
  }

  /** Holding the button (a second low sample) never counts again. */
  lemma HeldButtonCountsOnce(s: Stamps, now: nat, later: nat)
    requires IsLevel(s.level)
    ensures !GuardedPress(Sampled(Sampled(s, now, 0), later, 0))
  {
  }

  /** A bounce back to high within 10 ms of the release blocks the next press until the pin is high long enough. */
  lemma ShortHighBlocksPress(s: Stamps, release: nat, press: nat)
    requires s.level == 0
    requires press - release <= HIGH_STATE_GUARD_INTERVAL_US
    ensures !GuardedPress(Sampled(Sampled(s, release, 1), press, 0))
  {
  }

  /** After `Init` the first falling edge counts when it comes more than 10 ms after the start. */
  lemma FirstPressAfterInit(s: Stamps, start: nat, now: nat)
    requires start != 0
    ensures GuardedPress(Sampled(Initial(s, start), now, 0)) <==> now - start > HIGH_STATE_GUARD_INTERVAL_US
  {
  }
}

/**
 * The lesson-21 C-style blinker (c_style_impl.cpp): one `led_X_handler` per
 * LED, generated by a macro, each keeping its deadlines in function-local
 * statics and writing its pin inside the branch that fires. The loop reads
 * the time once into `s_time` and runs handlers 1, 2 and 3 in order.
 */
module CStyle {
  import opened Io
  import opened BlinkRule

  const PIN_LED_1: Pin := 6
  const LED_1_ON_DURATION: int := 10
  const LED_1_OFF_DURATION: int := 200

  const PIN_LED_2: Pin := 8
  const LED_2_ON_DURATION: int := 10
  const LED_2_OFF_DURATION: int := 500

  const PIN_LED_3: Pin := 12
  const LED_3_ON_DURATION: int := 10
  const LED_3_OFF_DURATION: int := 1000

  class Sketch {
    /** `s_time` */
    var time: int
    const led1: CHandler
    const led2: CHandler
    const led3: CHandler
    /** Every `digitalWrite`, in order. */
    var writes: seq<GpioWrite>

    ghost predicate Valid()
      reads this, led1, led2, led3
    {
      && led1 != led2 && led2 != led3 && led1 != led3
      && led1.Valid() && led2.Valid() && led3.Valid()
      && led1.pin == PIN_LED_1 && led2.pin == PIN_LED_2 && led3.pin == PIN_LED_3
    }

    constructor ()
      ensures Valid() && writes == [] && time == 0
      ensures led1.onDuration == LED_1_ON_DURATION && led1.offDuration == LED_1_OFF_DURATION
      ensures led2.onDuration == LED_2_ON_DURATION && led2.offDuration == LED_2_OFF_DURATION
      ensures led3.onDuration == LED_3_ON_DURATION && led3.offDuration == LED_3_OFF_DURATION
      ensures led1.Snapshot() == led2.Snapshot() == led3.Snapshot() == START
    {
      time := 0;
      led1 := new CHandler(PIN_LED_1, LED_1_ON_DURATION, LED_1_OFF_DURATION);
      led2 := new CHandler(PIN_LED_2, LED_2_ON_DURATION, LED_2_OFF_DURATION);
      led3 := new CHandler(PIN_LED_3, LED_3_ON_DURATION, LED_3_OFF_DURATION);
      writes := [];
    }

    /** `loop_c_impl` with `now` the value `millis()` returns: each handler follows the rule on its own deadlines. */
    method Loop(now: int)
      requires Valid()
      modifies this, led1, led2, led3
      ensures Valid() && time == now
      ensures led1.Snapshot() == Rule(old(led1.Snapshot()), now, led1.onDuration, led1.offDuration)
      ensures led2.Snapshot() == Rule(old(led2.Snapshot()), now, led2.onDuration, led2.offDuration)
      ensures led3.Snapshot() == Rule(old(led3.Snapshot()), now, led3.onDuration, led3.offDuration)
      ensures writes == old(writes) + RuleWrites(old(led1.Snapshot()), now, PIN_LED_1, led1.onDuration)
        + RuleWrites(old(led2.Snapshot()), now, PIN_LED_2, led2.onDuration)
        + RuleWrites(old(led3.Snapshot()), now, PIN_LED_3, led3.onDuration)
    {
      time := now;
      var w1 := led1.Handle(time);
      var w2 := led2.Handle(time);
      var w3 := led3.Handle(time);
      writes := writes + w1 + w2 + w3;
    }
  }

  // ----- Lemmas -----

  /** The three handlers share nothing: after a loop, each LED's pin shows what its own handler's writes leave it at. */
  lemma PinsIndependent(levels: map<Pin, int>, w1: seq<GpioWrite>, w2: seq<GpioWrite>, w3: seq<GpioWrite>)
    requires forall i :: 0 <= i < |w1| ==> w1[i].SetLevel? && w1[i].pin == PIN_LED_1
    requires forall i :: 0 <= i < |w2| ==> w2[i].SetLevel? && w2[i].pin == PIN_LED_2
    requires forall i :: 0 <= i < |w3| ==> w3[i].SetLevel? && w3[i].pin == PIN_LED_3
    ensures var after := ApplyAll(levels, w1 + w2 + w3);
      && SameAt(after, ApplyAll(levels, w1), PIN_LED_1)
      && SameAt(after, ApplyAll(levels, w2), PIN_LED_2)
      && SameAt(after, ApplyAll(levels, w3), PIN_LED_3)
  {
    ApplyAllAppend(levels, w1 + w2, w3);
    ApplyAllAppend(levels, w1, w2);
    var l1 := ApplyAll(levels, w1);
    var l12 := ApplyAll(l1, w2);
    // LED 1: the writes of LEDs 2 and 3 leave its pin alone.
    ApplyAllUntouched(l1, w2, PIN_LED_1);
    ApplyAllUntouched(l12, w3, PIN_LED_1);
    // LED 2: LED 1's writes leave its pin as it was, LED 3's after it.
    ApplyAllUntouched(levels, w1, PIN_LED_2);
    ApplyAllSameAt(l1, levels, w2, PIN_LED_2);
    ApplyAllUntouched(l12, w3, PIN_LED_2);
    // LED 3: the writes before it leave its pin as it was.
    ApplyAllUntouched(levels, w1, PIN_LED_3);
    ApplyAllUntouched(l1, w2, PIN_LED_3);
    ApplyAllSameAt(l12, levels, w3, PIN_LED_3);
  }
}

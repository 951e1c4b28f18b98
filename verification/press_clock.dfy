/**
  The press timestamp as the sketch actually takes it. `loop` reads
  `millis()` into `agora` (PowerKeeper_C.cpp:59) before calling
  `alternarTensao`, which stamps a press into OFF with a second `millis()`
  reading (line 112). The expiry test that follows (line 65) subtracts that
  later stamp from the earlier `agora`; if the clock ticked in between, the
  unsigned difference wraps to nearly 2^32 and the OFF indicator is
  extinguished in the very iteration that lit it.
 */
module PressClock {
  import opened Time32
  import opened Gpio
  import opened Indicators
  import opened PowerKeeper

  /**
    One iteration of `loop` as written: `pressClock` is the `millis()` value
    read inside `alternarTensao`, `input.now` the one read at the top of `loop`.
    When the two readings agree it is exactly `Step`.
   */
  function StepAsWritten(s: State, input: Input, pressClock: U32): (t: State)
    ensures pressClock == input.now ==> t == Step(s, input)
    ensures Valid(s) ==> Valid(t)
    ensures !IsPress(s.prevButton, input.button) ==> t == Step(s, input)
  {
    var pressed := HandleButton(s, input.button, pressClock);
    var expired := ExpireOffLed(pressed, input.now);
    Sample(expired, input.now, input.readingMilliamps)
  }

  /**
    If `millis()` advances by any amount between the two readings (up to
    2^32 - 10000 ms), a press that selects OFF ends the iteration with the
    OFF timer disarmed and every LED dark: the 10-second indication never
    shows.
   */
  lemma TickBeforeStampExtinguishesAtOnce(s: State, input: Input, tick: nat)
    requires Valid(s) && IsPress(s.prevButton, input.button) && s.counter == 1
    requires 1 <= tick <= Modulus - OffHoldMs
    ensures StepAsWritten(s, input, Advance(input.now, tick)).voltage == 0
    ensures !StepAsWritten(s, input, Advance(input.now, tick)).offPending
    ensures StepAsWritten(s, input, Advance(input.now, tick)).leds == Dark
  {
    var stamp := Advance(input.now, tick);
    ElapsedAdvance(input.now, tick);
    assert Elapsed(input.now, stamp) == Modulus - tick;
  }

  /**
    A concrete instance: 220 V selected, the button goes LOW while `agora`
    is 5000, and `millis()` reads 5001 at the stamp.
   */
  lemma OffIndicatorLostAt5000()
    ensures var s := Boot().(counter := 1, voltage := 220, leds := Render(220));
      var t := StepAsWritten(s, Input(Low, 5000, 0), 5001);
      t.voltage == 0 && !t.offPending && t.leds == Dark
  {
    var s := Boot().(counter := 1, voltage := 220, leds := Render(220));
    TickBeforeStampExtinguishesAtOnce(s, Input(Low, 5000, 0), 1);
  }
}

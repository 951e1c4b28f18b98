/**
  The per-iteration state machine of the PowerKeeper sketch (PowerKeeper_C.cpp):
  button edge detection and mode cycling (`alternarTensao`), the LED panel
  (`atualizarLEDs`), and the two timers of `loop` (the OFF indicator's
  10-second auto-extinguish and the 1-second sample gate). The pin reads,
  `millis()` and the current sensor become inputs of a pure `Step`.
 */
module PowerKeeper {
  import opened Wrappers
  import opened Time32
  import opened Gpio
  import opened Indicators
  import opened Mode

  /** `intervaloLeitura`: the sample period in milliseconds. */
  const SampleIntervalMs: U32 := 1000

  /** How long the OFF indicator stays lit after a press selects OFF, in milliseconds. */
  const OffHoldMs: U32 := 10000

  /** The noise floor below which an RMS reading is stored as 0: 0.16 A, in milliamps. */
  const NoiseFloorMilliamps: nat := 160

  /**
    The sketch's globals (PowerKeeper_C.cpp:19-32) and the LED outputs.
    - voltage: `tensao`;
    - prevButton: `estadoBotaoAnterior`;
    - counter: `contadorTensao`;
    - lastSample: `ultimoLeitura`;
    - irmsMilliamps: `Irms`, in milliamps;
    - offSince: `tempoDesligamentoVermelho`;
    - offPending: `vermelhoDesligando`;
    - leds: the levels last written to the three LED pins.
   */
  datatype State = State(
    voltage: int,
    prevButton: Level,
    counter: int,
    lastSample: U32,
    irmsMilliamps: nat,
    offSince: U32,
    offPending: bool,
    leds: Leds)

  /** What one iteration of `loop` observes: the button level, `millis()`, and the sensor's RMS reading. */
  datatype Input = Input(button: Level, now: U32, readingMilliamps: nat)

  /**
    The invariant every reachable state keeps: the counter is 0, 1 or 2 and
    `tensao` is the voltage it stands for; the OFF timer is armed only in OFF
    mode; the panel shows the selected voltage, except that in OFF mode the
    indicator may have been extinguished once the timer expired, and in OFF
    mode the OFF LED is lit exactly while the timer is armed; a stored
    reading is 0 or at least the noise floor.
   */
  predicate Valid(s: State)
  {
    && IsCounter(s.counter)
    && CounterOf(s.voltage) == Some(s.counter)
    && (s.offPending ==> s.voltage == 0)
    && (s.leds == Render(s.voltage) || (s.voltage == 0 && !s.offPending && s.leds == Dark))
    && (s.voltage == 0 ==> (s.offPending <==> s.leds.ledOff == High))
    && (s.irmsMilliamps == 0 || s.irmsMilliamps >= NoiseFloorMilliamps)
  }

  /**
    The state after the globals' initialisers and `setup()`'s call to
    `atualizarLEDs`: 110 V selected, counter 0, button released (HIGH, the
    pull-up level), and the 110 V LED lit.
   */
  function Boot(): (s: State)
    ensures Valid(s)
    ensures s.prevButton == High && !s.offPending
    ensures s.counter == 0 && s.voltage == 110 && Shown(s.leds) == Some(110)
    ensures s.lastSample == 0 && s.irmsMilliamps == 0 && s.offSince == 0
  {
    State(
      voltage := 110,
      prevButton := High,
      counter := 0,
      lastSample := 0,
      irmsMilliamps := 0,
      offSince := 0,
      offPending := false,
      leds := Render(110))
  }

  /** A press is a HIGH-to-LOW transition of the (pulled-up) button input. */
  predicate IsPress(prev: Level, current: Level)
    ensures IsPress(prev, current) <==> prev != current && current == Low
  {
    prev == High && current == Low
  }

  /**
    `alternarTensao` with the button read as `level` and the press stamped
    with `pressedAt`. On a press the counter advances, `tensao` follows it,
    the panel is redrawn, and the OFF timer is armed (OFF selected) or
    disarmed (110 V or 220 V selected). In every case the reading becomes the
    previous level.
   */
  function HandleButton(s: State, level: Level, pressedAt: U32): (t: State)
    ensures t.prevButton == level
    ensures t.lastSample == s.lastSample && t.irmsMilliamps == s.irmsMilliamps
    ensures !IsPress(s.prevButton, level) ==> t == s.(prevButton := level)
    ensures IsPress(s.prevButton, level) ==>
      && t.counter == NextCounter(s.counter)
      && t.voltage == SwitchVoltage(t.counter, s.voltage)
      && t.leds == Render(t.voltage)
      && (t.voltage == 0 ==> t.offPending && t.offSince == pressedAt)
      && (t.voltage != 0 ==> !t.offPending && t.offSince == s.offSince)
    ensures Valid(s) ==> Valid(t)
    ensures Valid(s) && IsPress(s.prevButton, level) ==>
      t.counter == (s.counter + 1) % 3 && Shown(t.leds) == Some(t.voltage)
  {
    if IsPress(s.prevButton, level) then
      var counter := NextCounter(s.counter);
      var voltage := SwitchVoltage(counter, s.voltage);
      var redrawn := s.(counter := counter, voltage := voltage, leds := Render(voltage));
      var timed :=
        if voltage == 0 then redrawn.(offPending := true, offSince := pressedAt)
        else redrawn.(offPending := false);
      timed.(prevButton := level)
    else
      s.(prevButton := level)
  }

  /**
    The first branch of `loop`: once the OFF timer has run for `OffHoldMs`
    on the wrapping clock, the OFF LED is switched off and the timer
    disarmed. The mode is never touched.
   */
  function ExpireOffLed(s: State, now: U32): (t: State)
    ensures t.offPending <==> s.offPending && Elapsed(now, s.offSince) < OffHoldMs
    ensures t.voltage == s.voltage && t.counter == s.counter && t.prevButton == s.prevButton
    ensures t.lastSample == s.lastSample && t.irmsMilliamps == s.irmsMilliamps && t.offSince == s.offSince
    ensures t.offPending == s.offPending ==> t == s
    ensures s.offPending && !t.offPending ==> t.leds == s.leds.(ledOff := Low)
    ensures Valid(s) ==> Valid(t)
    ensures Valid(s) && s.offPending && !t.offPending ==> LitCount(t.leds) == 0
  {
    if s.offPending && HasElapsed(now, s.offSince, OffHoldMs) then
      s.(leds := s.leds.(ledOff := Low), offPending := false)
    else
      s
  }

  /** The noise filter: a reading below 0.16 A is stored as 0, any other is kept. */
  function Denoise(readingMilliamps: nat): (r: nat)
    ensures r == 0 || r >= NoiseFloorMilliamps
    ensures r == 0 || r == readingMilliamps
    ensures readingMilliamps >= NoiseFloorMilliamps ==> r == readingMilliamps
  {
    if readingMilliamps < NoiseFloorMilliamps then 0 else readingMilliamps
  }

  /**
    The second branch of `loop`: once `intervaloLeitura` has passed on the
    wrapping clock since the last sample, the sample time is reset to `now`
    and the filtered reading stored; otherwise nothing changes.
   */
  function Sample(s: State, now: U32, readingMilliamps: nat): (t: State)
    ensures HasElapsed(now, s.lastSample, SampleIntervalMs) ==>
      t == s.(lastSample := now, irmsMilliamps := Denoise(readingMilliamps))
    ensures !HasElapsed(now, s.lastSample, SampleIntervalMs) ==> t == s
    ensures Valid(s) ==> Valid(t)
  {
    if HasElapsed(now, s.lastSample, SampleIntervalMs) then
      s.(lastSample := now, irmsMilliamps := Denoise(readingMilliamps))
    else
      s
  }

  /**
    One iteration of `loop`: the button handler (with the press stamped by
    this iteration's `millis()` reading), then the OFF-indicator expiry, then
    the sample gate.
   */
  function Step(s: State, input: Input): (t: State)
    ensures Valid(s) ==> Valid(t)
    ensures t.prevButton == input.button
    ensures !IsPress(s.prevButton, input.button) ==> t.counter == s.counter && t.voltage == s.voltage
    ensures Valid(s) && IsPress(s.prevButton, input.button) ==> t.counter == (s.counter + 1) % 3
  {
    var pressed := HandleButton(s, input.button, input.now);
    var expired := ExpireOffLed(pressed, input.now);
    Sample(expired, input.now, input.readingMilliamps)
  }

  /** The number of presses in a sequence of button readings that follows the reading `prev`. */
  function Presses(prev: Level, inputs: seq<Input>): nat
    decreases |inputs|
  {
    if |inputs| == 0 then 0
    else (if IsPress(prev, inputs[0].button) then 1 else 0) + Presses(inputs[0].button, inputs[1..])
  }

  /**
    Successive iterations of `loop`. From a valid state every state reached is
    valid, and the mode has advanced once per HIGH-to-LOW edge of the button,
    and never otherwise.
   */
  function Run(s: State, inputs: seq<Input>): (t: State)
    ensures Valid(s) ==> Valid(t)
    ensures Valid(s) ==> t.counter == (s.counter + Presses(s.prevButton, inputs)) % 3
    ensures |inputs| > 0 ==> t.prevButton == inputs[|inputs| - 1].button
    decreases |inputs|
  {
    if |inputs| == 0 then s else Run(Step(s, inputs[0]), inputs[1..])
  }

  /**
    Every state the sketch can reach from power-up keeps the invariant; in
    particular, in OFF mode the OFF LED is lit exactly while its 10-second
    timer is armed.
   */
  lemma ReachableStatesAreValid(inputs: seq<Input>)
    ensures Valid(Run(Boot(), inputs))
    ensures Shown(Run(Boot(), inputs).leds) == Some(Run(Boot(), inputs).voltage)
      || Run(Boot(), inputs).leds == Dark
    ensures Run(Boot(), inputs).voltage == 0 ==>
      (Run(Boot(), inputs).leds.ledOff == High <==> Run(Boot(), inputs).offPending)
  {
  }

  /** Holding the button down changes the mode once: the next iteration with the button still LOW is not a press. */
  lemma HeldButtonFiresOnce(s: State, first: Input, second: Input)
    requires first.button == Low && second.button == Low
    ensures Step(Step(s, first), second).counter == Step(s, first).counter
    ensures Step(Step(s, first), second).voltage == Step(s, first).voltage
  {
  }

  /** Three press-and-release cycles return the panel to the mode it started in. */
  lemma ThreePressesRestoreMode(s: State, inputs: seq<Input>)
    requires Valid(s) && s.prevButton == High
    requires |inputs| == 6
    requires forall i :: 0 <= i < 6 ==> inputs[i].button == (if i % 2 == 0 then Low else High)
    ensures Run(s, inputs).counter == s.counter
    ensures Run(s, inputs).voltage == s.voltage
  {
    var r := Run(s, inputs);
    assert Presses(Low, inputs[5..]) == 0;
    assert Presses(High, inputs[4..]) == 1 by { assert inputs[4..][1..] == inputs[5..]; }
    assert Presses(Low, inputs[3..]) == 1 by { assert inputs[3..][1..] == inputs[4..]; }
    assert Presses(High, inputs[2..]) == 2 by { assert inputs[2..][1..] == inputs[3..]; }
    assert Presses(Low, inputs[1..]) == 2 by { assert inputs[1..][1..] == inputs[2..]; }
    assert Presses(High, inputs) == 3;
    assert CounterOf(r.voltage) == Some(s.counter);
  }

  /** Adding a multiple of three to a counter in 0..2 and reducing modulo 3 gives the counter back. */
  lemma AddMultipleOfThree(c: int, p: nat)
    requires IsCounter(c) && p % 3 == 0
    ensures (c + p) % 3 == c
  {
    var k := p / 3;
    assert c + p == 3 * k + c;
  }

  /**
    Any run of iterations whose HIGH-to-LOW edges number a multiple of three,
    however long each press is held, ends in the mode it started in.
   */
  lemma PressesMultipleOfThreeRestoreMode(s: State, inputs: seq<Input>)
    requires Valid(s) && Presses(s.prevButton, inputs) % 3 == 0
    ensures Run(s, inputs).counter == s.counter
    ensures Run(s, inputs).voltage == s.voltage
  {
    ModeRestored(s, Run(s, inputs), Presses(s.prevButton, inputs));
  }

  /**
    Between two valid states whose counters differ by a multiple of three
    presses, counter and voltage agree: the counter determines the voltage.
   */
  lemma ModeRestored(s: State, t: State, presses: nat)
    requires Valid(s) && Valid(t)
    requires presses % 3 == 0 && t.counter == (s.counter + presses) % 3
    ensures t.counter == s.counter && t.voltage == s.voltage
  {
    AddMultipleOfThree(s.counter, presses);
    Mode.CounterVoltageCorrespondence(s.counter, 0, s.voltage);
    Mode.CounterVoltageCorrespondence(s.counter, 0, t.voltage);
  }

  /**
    While the OFF timer armed at real time `pressedAt` is still armed, the
    expiry branch keeps LED_OFF lit exactly while fewer than 10 000 real
    milliseconds have passed, even when `millis()` overflows in between.
   */
  lemma OffIndicatorHoldsTenSeconds(s: State, pressedAt: nat, nowReal: nat)
    requires Valid(s) && s.offPending && s.offSince == pressedAt % Modulus
    requires pressedAt <= nowReal < pressedAt + Modulus
    ensures ExpireOffLed(s, nowReal % Modulus).offPending <==> nowReal - pressedAt < OffHoldMs
    ensures ExpireOffLed(s, nowReal % Modulus).leds.ledOff == High <==> nowReal - pressedAt < OffHoldMs
  {
    HasElapsedIsRealTime(pressedAt, nowReal, OffHoldMs);
  }

  /**
    The whole iteration: with the OFF timer armed at real time `pressedAt` and
    no press in this iteration, LED_OFF is still lit at the end of the
    iteration exactly when fewer than 10 000 real milliseconds have passed.
    (A press would leave OFF mode and redraw the panel instead.)
   */
  lemma OffIndicatorStepHoldsTenSeconds(s: State, input: Input, pressedAt: nat, nowReal: nat)
    requires Valid(s) && s.offPending && s.offSince == pressedAt % Modulus
    requires pressedAt <= nowReal < pressedAt + Modulus
    requires !IsPress(s.prevButton, input.button) && input.now == nowReal % Modulus
    ensures Step(s, input).leds.ledOff == High <==> nowReal - pressedAt < OffHoldMs
    ensures Step(s, input).offPending <==> nowReal - pressedAt < OffHoldMs
  {
    OffIndicatorHoldsTenSeconds(s.(prevButton := input.button), pressedAt, nowReal);
  }

  /**
    The sample gate fires exactly when at least `intervaloLeitura` real
    milliseconds have passed since the last sample, even across a `millis()`
    overflow.
   */
  lemma SampleGateAcrossOverflow(s: State, sampledAt: nat, nowReal: nat, readingMilliamps: nat)
    requires s.lastSample == sampledAt % Modulus
    requires sampledAt <= nowReal < sampledAt + Modulus
    ensures Sample(s, nowReal % Modulus, readingMilliamps) ==
      if nowReal - sampledAt >= SampleIntervalMs
      then s.(lastSample := nowReal % Modulus, irmsMilliamps := Denoise(readingMilliamps))
      else s
  {
    HasElapsedIsRealTime(sampledAt, nowReal, SampleIntervalMs);
  }

  /**
    A press that selects OFF lights the OFF indicator and arms its timer at
    this iteration's clock reading, and the indicator is still lit when the
    iteration ends.
   */
  lemma PressIntoOffLightsIndicator(s: State, input: Input)
    requires Valid(s) && IsPress(s.prevButton, input.button) && s.counter == 1
    ensures Step(s, input).voltage == 0
    ensures Step(s, input).offPending && Step(s, input).offSince == input.now
    ensures Step(s, input).leds == Render(0)
  {
  }
}

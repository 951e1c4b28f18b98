/**
  The three indicator LEDs and `atualizarLEDs` (PowerKeeper_C.cpp:125-141),
  which clears all three and then lights the one matching the selected voltage.
 */
module Indicators {
  import opened Gpio
  import opened Wrappers

  /** Output levels of the LED_220V, LED_110V and LED_OFF pins. */
  datatype Leds = Leds(led220: Level, led110: Level, ledOff: Level)

  /** All three LEDs dark. */
  const Dark := Leds(Low, Low, Low)

  /** The number of LEDs that are lit. */
  function LitCount(l: Leds): nat
  {
    (if l.led220 == High then 1 else 0)
    + (if l.led110 == High then 1 else 0)
    + (if l.ledOff == High then 1 else 0)
  }

  /** The voltages the panel can display: 110 V, 220 V and OFF (0 V). */
  predicate IsNominal(voltage: int)
  {
    voltage == 110 || voltage == 220 || voltage == 0
  }

  /**
    `atualizarLEDs`: exactly the LED matching a nominal voltage is lit; a
    voltage outside the `switch` leaves every LED dark.
   */
  function Render(voltage: int): (l: Leds)
    ensures l.led110 == High <==> voltage == 110
    ensures l.led220 == High <==> voltage == 220
    ensures l.ledOff == High <==> voltage == 0
    ensures IsNominal(voltage) ==> LitCount(l) == 1
    ensures !IsNominal(voltage) ==> l == Dark
  {
    var cleared := Dark;
    match voltage
    case 110 => cleared.(led110 := High)
    case 220 => cleared.(led220 := High)
    case 0 => cleared.(ledOff := High)
    case _ => cleared
  }

  /**
    What an observer reads off the panel: the voltage of the single lit LED,
    or nothing when none or several are lit.
   */
  function Shown(l: Leds): (r: Option<int>)
    ensures r.Some? <==> LitCount(l) == 1
    ensures r.Some? ==> IsNominal(r.value) && Render(r.value) == l
  {
    if LitCount(l) != 1 then None
    else if l.led110 == High then Some(110)
    else if l.led220 == High then Some(220)
    else Some(0)
  }

  /** Reading the panel back recovers the voltage `atualizarLEDs` displayed. */
  lemma ShownRender(voltage: int)
    requires IsNominal(voltage)
    ensures Shown(Render(voltage)) == Some(voltage)
  {
  }

  /** Two nominal voltages render differently, so the display is unambiguous. */
  lemma RenderInjective(v: int, w: int)
    requires IsNominal(v) && IsNominal(w)
    ensures Render(v) == Render(w) <==> v == w
  {
    ShownRender(v);
    ShownRender(w);
  }
}

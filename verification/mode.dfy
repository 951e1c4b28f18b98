/**
  The voltage-mode counter `contadorTensao` and the voltage `tensao` derived
  from it (PowerKeeper_C.cpp:95-102).
 */
module Mode {
  import opened Wrappers
  import Indicators

  /** The counter values the sketch reaches. */
  predicate IsCounter(c: int)
  {
    0 <= c <= 2
  }

  /**
    `contadorTensao++` followed by the reset to 0 above 2: on the reachable
    counters, the successor modulo 3.
   */
  function NextCounter(c: int): (n: int)
    ensures IsCounter(c) ==> IsCounter(n) && n == (c + 1) % 3
    ensures c < 2 ==> n == c + 1
    ensures c >= 2 ==> n == 0
  {
    var bumped := c + 1;
    if bumped > 2 then 0 else bumped
  }

  /**
    The counter a nominal voltage stands for: 110 V is 0, 220 V is 1, OFF is 2.
    This is the inverse of the `switch` in `SwitchVoltage`.
   */
  function CounterOf(voltage: int): (r: Option<int>)
    ensures r.Some? <==> Indicators.IsNominal(voltage)
    ensures r.Some? ==> IsCounter(r.value)
  {
    if voltage == 110 then Some(0)
    else if voltage == 220 then Some(1)
    else if voltage == 0 then Some(2)
    else None
  }

  /**
    The `switch (contadorTensao)` that sets `tensao`: a reachable counter selects
    the nominal voltage it stands for; any other counter matches no case and
    leaves `current` in place.
   */
  function SwitchVoltage(c: int, current: int): (v: int)
    ensures IsCounter(c) ==> CounterOf(v) == Some(c)
    ensures !IsCounter(c) ==> v == current
  {
    match c
    case 0 => 110
    case 1 => 220
    case 2 => 0
    case _ => current
  }

  /** Counter and voltage determine each other: the correspondence is a bijection. */
  lemma CounterVoltageCorrespondence(c: int, current: int, voltage: int)
    requires IsCounter(c)
    ensures SwitchVoltage(c, current) == voltage <==> CounterOf(voltage) == Some(c)
  {
  }

  /** Three advances bring the counter back to where it started. */
  lemma ThreeAdvancesCycle(c: int)
    requires IsCounter(c)
    ensures NextCounter(NextCounter(NextCounter(c))) == c
  {
  }

  /** The cycle visits every mode: three successive counters are 0, 1 and 2 in some rotation. */
  lemma CycleVisitsEveryMode(c: int)
    requires IsCounter(c)
    ensures {c, NextCounter(c), NextCounter(NextCounter(c))} == {0, 1, 2}
  {
  }
}

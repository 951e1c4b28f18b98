# PowerKeeper state machine in Dafny

PowerKeeper is an ESP32 sketch. It reads an SCT013 current transformer. A push-button cycles the displayed nominal voltage through 110 V, 220 V and OFF. Three LEDs show the selected voltage. When OFF is selected, its indicator is switched off again after ten seconds. The sketch prints a current sample once per second.

This project models the sketch's per-iteration state machine as pure functions:

- `Time32`: 32-bit `unsigned long` timestamps. This module defines the wrapping elapsed-time test `agora - t >= k` and proves it measures real elapsed time across `millis()` overflow.
- `Gpio`: pin levels.
- `Indicators`: the LED panel and `atualizarLEDs`.
- `Mode`: the counter `contadorTensao`, its cyclic advance, and the `switch` that derives `tensao` from it.
- `PowerKeeper`: the globals as a `State` record and the invariant `Valid`. It also holds the post-`setup()` state `Boot`, the button handler `HandleButton` (`alternarTensao`), the two timer branches of `loop` (`ExpireOffLed` and `Sample`), one iteration `Step`, and many iterations `Run`.
- `PressClock`: the sketch as written, where a press is stamped by a second `millis()` read (see Findings).

The button level, `millis()` and the sensor's RMS reading are inputs of `Step`. The RMS reading is an opaque natural number of milliamps. In the main model, a press is stamped with the iteration's own `millis()` reading.

## Model

| member | source | states |
|---|---|---|
| Time32.Elapsed | PowerKeeper_C.cpp:65 | `agora - t` on 32-bit unsigned values is the unique delay in 0..2^32-1 that takes `t` to `agora` on the wrapping clock. It equals the plain difference when `t <= agora` and the difference plus 2^32 otherwise. |
| Time32.HasElapsed | PowerKeeper_C.cpp:65-72 | The test `agora - t >= k`. Without wrap-around it is the plain comparison `agora - t >= k`. After `millis()` has wrapped past `t`, it compares `agora + 2^32 - t` with `k`. |
| Time32.ElapsedAdvance | PowerKeeper_C.cpp:65 | For any delay shorter than 2^32 ms, elapsed time undoes clock advance. |
| Time32.ElapsedIsRealTime | PowerKeeper_C.cpp:59-72 | Suppose two real instants are less than 2^32 ms apart. Their wrapped `millis()` readings subtract to the real difference, however many times `millis()` has overflowed before. |
| Time32.HasElapsedIsRealTime | PowerKeeper_C.cpp:65-72 | For two real instants less than 2^32 ms apart, the test `agora - t >= k` holds exactly when at least `k` real milliseconds have passed. This includes the case where `millis()` overflows between them. |
| Indicators.Render | PowerKeeper_C.cpp:125-141 | After `atualizarLEDs`, the 110 V, 220 V and OFF LEDs are lit exactly when `tensao` is 110, 220 and 0. For those voltages exactly one LED is lit. Any other value leaves all three dark. |
| Indicators.Shown | PowerKeeper_C.cpp:125-141 | Reading the panel yields a voltage exactly when one LED is lit. That voltage is nominal, and rendering it reproduces the panel. |
| Indicators.ShownRender | PowerKeeper_C.cpp:125-141 | Round trip: reading back the panel drawn for a nominal voltage yields that voltage. |
| Indicators.RenderInjective | PowerKeeper_C.cpp:130-140 | Two nominal voltages produce the same panel only if they are equal. |
| Mode.NextCounter | PowerKeeper_C.cpp:95-96 | The increment with reset above 2 keeps the counter in {0,1,2}. There it is the successor modulo 3. A counter below 2 is incremented, and any counter of 2 or more becomes 0. |
| Mode.CounterOf | PowerKeeper_C.cpp:98-102 | The inverse of the `switch`: exactly 110, 220 and 0 stand for a counter, and that counter is in {0,1,2}. |
| Mode.SwitchVoltage | PowerKeeper_C.cpp:98-102 | A counter in {0,1,2} sets `tensao` to the voltage that stands for it. Any other counter leaves `tensao` unchanged. |
| Mode.CounterVoltageCorrespondence | PowerKeeper_C.cpp:98-102 | The `switch` selects a voltage exactly when that voltage maps back to the counter. Both directions hold, so the correspondence is a bijection. |
| Mode.ThreeAdvancesCycle | PowerKeeper_C.cpp:95-96 | Three advances return the counter to its start. |
| Mode.CycleVisitsEveryMode | PowerKeeper_C.cpp:95-102 | Three successive counters are exactly {0,1,2}, so every mode is reached. |
| PowerKeeper.Boot | PowerKeeper_C.cpp:19-32 | The initial globals satisfy the invariant. The counter is 0 and `tensao` is 110, and after `setup()`'s redraw the panel shows 110 V. The previous button level is HIGH and the OFF timer is disarmed. `ultimoLeitura`, `Irms` and `tempoDesligamentoVermelho` start at 0, so the first sample is taken once `millis()` reaches 1000. |
| PowerKeeper.HandleButton | PowerKeeper_C.cpp:90-123 | Counter, voltage, LEDs and OFF timer change only on a HIGH-to-LOW edge, and the reading always becomes the previous level. On a press, the counter advances modulo 3 and `tensao` follows it. The panel then shows the new voltage. Selecting OFF arms the timer with the press time; selecting 110 V or 220 V disarms it. The invariant is preserved. |
| PowerKeeper.ExpireOffLed | PowerKeeper_C.cpp:65-69 | The OFF timer stays armed exactly while it was armed and less than 10 000 ms have elapsed on the wrapping clock. When it expires, only the OFF LED is switched off and no LED remains lit. Mode, counter and timestamps are untouched, and the invariant is preserved. |
| PowerKeeper.Denoise | PowerKeeper_C.cpp:79 | A stored reading is 0 or at least the 0.16 A floor. A reading at or above the floor is kept, and a reading below it becomes 0. |
| PowerKeeper.Sample | PowerKeeper_C.cpp:72-79 | When at least 1000 ms have elapsed since `ultimoLeitura` on the wrapping clock, the sample time becomes `agora` and the filtered reading is stored. Otherwise the state is unchanged. The invariant is preserved. |
| PowerKeeper.Step | PowerKeeper_C.cpp:58-86 | One `loop` iteration preserves the invariant and records the button reading. Without a press it leaves counter and voltage unchanged. With a press it advances the counter modulo 3. |
| PowerKeeper.Run | PowerKeeper_C.cpp:58-86 | Over any run of iterations from a valid state, every state stays valid. The counter advances by exactly the number of HIGH-to-LOW edges, modulo 3. |
| PowerKeeper.ReachableStatesAreValid | PowerKeeper_C.cpp:19-32 | Every state reachable from power-up is valid. Its panel either shows the selected voltage or, after the OFF timer expires, is dark. In OFF mode, LED_OFF is lit exactly while the timer is armed (lines 65-69 and 110-113). |
| PowerKeeper.HeldButtonFiresOnce | PowerKeeper_C.cpp:94-122 | Holding the button LOW for a second iteration does not change the mode again. |
| PowerKeeper.IsPress | PowerKeeper_C.cpp:94 | A press is exactly a change of the button level whose new level is LOW, that is, a falling edge. |
| PowerKeeper.PressesMultipleOfThreeRestoreMode | PowerKeeper_C.cpp:94-102 | Take any run of iterations whose HIGH-to-LOW edges number a multiple of three, however long each press is held. It ends with the counter and voltage it started with. |
| PowerKeeper.ModeRestored | PowerKeeper_C.cpp:95-102 | Two valid states whose counters differ by a multiple of three advances have the same counter and the same `tensao`. |
| PowerKeeper.ThreePressesRestoreMode | PowerKeeper_C.cpp:94-102 | Three press-and-release cycles return counter and voltage to where they started. |
| PowerKeeper.OffIndicatorHoldsTenSeconds | PowerKeeper_C.cpp:65-69 | Suppose the OFF timer was armed at real time T and is still armed. The expiry branch keeps LED_OFF lit, and the timer armed, exactly while fewer than 10 000 real ms have passed since T. This holds across `millis()` overflow. |
| PowerKeeper.OffIndicatorStepHoldsTenSeconds | PowerKeeper_C.cpp:58-69 | Suppose the OFF timer was armed at real time T and this iteration's button reading is not a press. Suppose also that the iteration comes less than 2^32 ms after T. Then LED_OFF is still lit at the end of the whole iteration exactly when fewer than 10 000 real ms have passed since T, across overflow. A press would leave OFF mode and redraw the panel instead (lines 94-104). |
| PowerKeeper.SampleGateAcrossOverflow | PowerKeeper_C.cpp:72-73 | For an iteration less than 2^32 ms after the last sample, a sample is taken exactly when at least 1000 real milliseconds have passed since that sample. This includes the case where `millis()` overflows in between. |
| PowerKeeper.PressIntoOffLightsIndicator | PowerKeeper_C.cpp:110-116 | A press that selects OFF lights the OFF indicator and arms the timer at the iteration's clock reading. The indicator is still lit at the end of that iteration. |
| PressClock.StepAsWritten | PowerKeeper_C.cpp:110-116 | The iteration as written, with the press stamped by a second `millis()` read. It preserves the invariant. It agrees with `Step` when the two reads coincide or there is no press. |
| PressClock.TickBeforeStampExtinguishesAtOnce | PowerKeeper_C.cpp:59-69 | As written, suppose the clock advances by 1 to 2^32 - 10 000 ms between the read at the top of `loop` and the stamp. Then a press into OFF ends the iteration with the timer disarmed and every LED dark. |
| PressClock.OffIndicatorLostAt5000 | PowerKeeper_C.cpp:110-113 | Concrete case: `agora` = 5000 and the stamp = 5001. A press from 220 V into OFF leaves the panel dark in the same iteration. |

## Left out

- Wi-Fi (`conectarWiFi`, PowerKeeper_C.cpp:143-162): network I/O and a busy-wait on a library status. It has no effect on the state machine.
- All `Serial` output: console printing only.
- `SCT013.current` and `calcIrms` (lines 44 and 76): EmonLib is a foreign library that computes RMS in floating point. The reading is an opaque input in whole milliamps, and the 0.16 A threshold is modelled as 160 mA. Fractional milliamps are not represented.
- `delay(300)` (line 119): it only blocks, so time passing shows up in the next iteration's `millis()` input.
- Pin numbers, `pinMode` and the credentials (lines 7-16 and 47-50): hardware configuration. Before `setup()` runs, the LED levels are unspecified. `Boot` models the state after `setup()`'s call to `atualizarLEDs` (line 51).
- Mode.NextCounter: does not model the overflow of the `int` increment at the top of its range. No reachable state gets there, because `Valid` keeps the counter in {0,1,2}.
- PowerKeeper.Step: stamps a press with the iteration's `millis()` reading (line 59), not the second read at line 112. The as-written variant is `PressClock.StepAsWritten`; see Findings.
- PowerKeeper.OffIndicatorHoldsTenSeconds: assumes an iteration happens within 2^32 ms (about 49.7 days) of the press. A longer gap cannot be told apart on a 32-bit clock.
- PowerKeeper.OffIndicatorStepHoldsTenSeconds: assumes the same under-2^32 ms gap between the press and the iteration, for the same reason.
- PowerKeeper.SampleGateAcrossOverflow: assumes an iteration happens within 2^32 ms of the last sample. After a longer gap the wrapped difference under-reports the real one.
- Time32.HasElapsedIsRealTime: holds only for instants less than 2^32 ms apart. For real instants 0 and 2^32 + 5 ms, `agora - t` wraps to 5 and a 1000 ms test fails.

## Findings

| source | as written | input that shows it | evidently intended | confidence | as-written member | corrected member |
|---|---|---|---|---|---|---|
| PowerKeeper_C.cpp:59-69,110-113 | `loop` reads `millis()` into `agora` and then calls `alternarTensao`. That function stamps a press into OFF with a second `millis()` read, and the expiry test `agora - tempoDesligamentoVermelho >= 10000` then runs in the same iteration. A later stamp makes the unsigned difference wrap to nearly 2^32, so the OFF LED goes dark immediately. | `agora` = 5000 with `millis()` = 5001 at line 112, on a press from 220 V into OFF | The OFF indicator stays lit for 10 s after the press, as the message at line 113 announces. This holds when the press is stamped with `agora`. | not executed; medium (needs a millisecond tick between lines 59 and 112) | PressClock.TickBeforeStampExtinguishesAtOnce | PowerKeeper.PressIntoOffLightsIndicator |

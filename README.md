# remote_touch control loop in Dafny

A model of the control state machine in the PSoC firmware of the remote-touch
plate (`remote_touch.cydsn/main.c`). The firmware heats a copper plate with a
PWM-driven heater while a remote-touch pin is asserted, and otherwise cools it
for a limited time with a Peltier element switched by two relays. The model
has three parts:

- `stopwatch.dfy`, module `Stopwatch`: `stopwatch_start` and
  `stopwatch_elapsed_ms` as functions of the timer's count and period, with
  C's wrapping `uint32_t` arithmetic written out. It also has a reference
  count-down counter (`Next`, `After`) against which the elapsed time is
  proved exact.
- `control.dfy`, module `Control`: a `Board` value holding the relay pins, the
  PWM compare register, the timer, the click and cooling timestamps, the
  local-touch pin and the loop's last temperature. Each step is a function on
  that value: the relay check, the click, the duty law, the heating step, the
  cooling step, one loop iteration (`Step`) and a finite run of iterations
  (`Run`). The lemmas about runs live here too.
- `firmware.dfy`, module `Firmware`: class `Device`, whose fields are the same
  hardware state. Its methods read and write those fields in the order
  `main.c` does, and each is proved to perform the matching `Control` step.

Pins are `bool` (true = driven high). Temperature is a `real`, because the
controller only compares it with `TargetTemp`. The Peltier element is active
when its two relays disagree and inactive when they agree. The safety
condition `Safe` says two things. A driven Peltier is only ever driven in the
cooling direction. The heater duty is zero whenever the Peltier is driven.
Every loop iteration establishes `Safe`, whatever the state before it.

## Model

| member | source | states |
|---|---|---|
| Stopwatch.Start | remote_touch.cydsn/main.c:6-8 | a sample taken now reads back as 0 ms elapsed, whatever the period |
| Stopwatch.ElapsedMs | remote_touch.cydsn/main.c:11-16 | sample ≥ current gives sample − current with no uint32 wrap, and 0 when they are equal; sample < current ≤ period gives sample + (period − current) with no wrap, and the result is below period |
| Stopwatch.ElapsedCountsTicks | remote_touch.cydsn/main.c:11-16 | on a down-counter with a cycle of `period` ticks, the elapsed time after k < period ticks is exactly k, across the wrap |
| Stopwatch.ElapsedOnReloadToPeriod | remote_touch.cydsn/main.c:13-15 | on a down-counter that reloads to `period` itself, the reading is k before the first reload and k − 1 after it |
| Control.SettleRelays | remote_touch.cydsn/main.c:45-50 | afterwards the relays agree; relays that disagreed are both off; relays that agreed are left alone; nothing else changes |
| Control.Click | remote_touch.cydsn/main.c:52-60 | when no local touch and more than 1000 ms have passed since the click timestamp, both relays are inverted and the timestamp is set to the current count; otherwise nothing changes; agreement of the relays is preserved |
| Control.HeaterDuty | remote_touch.cydsn/main.c:62-72 | duty is 255 exactly when temp < 30 and 147 exactly when temp ≥ 30 |
| Control.Heating | remote_touch.cydsn/main.c:44-75 | the relays end in the same state; duty follows the two-level law; the cooling timestamp is set to the current count; the click timestamp moves only when the click fires; the relays are inverted from the settled state exactly when the click fires |
| Control.Cooling | remote_touch.cydsn/main.c:78-100 | duty 0, heat relay off, cool relay on exactly when less than 7000 ms have passed since the cooling timestamp; neither timestamp is written |
| Control.Sense | remote_touch.cydsn/main.c:127-144 | a new temperature or touch result replaces the old one only when it arrived; otherwise the last value is kept |
| Control.Step | remote_touch.cydsn/main.c:125-148 | after any iteration the state is Safe and the duty is 0, 147 or 255; a remote-touch iteration leaves the relays agreeing and re-arms the cooling timestamp; any other iteration turns the heater and the heat relay off and keeps both timestamps |
| Control.Run | remote_touch.cydsn/main.c:125-148 | the timer period is never changed; after at least one iteration the state is Safe |
| Control.CoolingKeepsTimestamps | remote_touch.cydsn/main.c:78-100 | any run of cooling iterations leaves the cooling and click timestamps unchanged, so only heating re-arms the cooling budget |
| Control.CoolingBudget | remote_touch.cydsn/main.c:91-99 | after any non-empty run of cooling iterations, duty is 0, the heat relay is off, and the cool relay is on exactly when less than 7000 ms have passed since the timestamp the run started with |
| Control.CoolingWindow | remote_touch.cydsn/main.c:91-99 | when heating last ran k ticks ago (k under one period), a run of cooling iterations leaves the cool relay on exactly when k < 7000: the window is one-shot |
| Control.CoolingReopensAfterWrap | remote_touch.cydsn/main.c:92 | once the counter returns to the value it had when heating last ran, cooling iterations switch the cool relay on again |
| Control.ClickThrottle | remote_touch.cydsn/main.c:53-59 | of two consecutive remote-touch iterations, the second inverts both relays only when no local touch is registered and more than 1000 ms have passed since the click timestamp the first left; otherwise it leaves relays and timestamp as they were |
| Firmware.Device.constructor | remote_touch.cydsn/main.c:102-125 | the loop starts with the click timestamp 0, the cooling timestamp 7000 and the temperature 0, and the pins and timer as the peripherals left them |
| Firmware.Device.StopwatchStart | remote_touch.cydsn/main.c:6-8 | returns the current count, for which no time has elapsed |
| Firmware.Device.StopwatchElapsedMs | remote_touch.cydsn/main.c:11-16 | returns ElapsedMs of the sample against the device's counter and period |
| Firmware.Device.HeaterController | remote_touch.cydsn/main.c:44-75 | performs Heating on the device's state in place: relays agree, duty by the two-level law, cooling timestamp at the current count |
| Firmware.Device.CoolingController | remote_touch.cydsn/main.c:78-100 | performs Cooling on the device's state in place: duty 0, heat relay off, both timestamps unchanged |
| Firmware.Device.Tick | remote_touch.cydsn/main.c:125-148 | performs Step in place; the device is Safe afterwards |
| Firmware.Device.Loop | remote_touch.cydsn/main.c:125-148 | a finite prefix of the main loop leaves the device in the state Run gives |

## Left out

- `rtd_volt_to_temp` (main.c:32-34) is floating-point arithmetic and is not modelled. The temperature arrives as an optional input to each iteration. Its unguarded division by a zero voltage, and NaN or infinite temperatures, are therefore outside the model.
- UART telemetry (`sprintf`, `UART_PC_PutString`) has no effect on control decisions and is left out.
- The `CyDelay` busy-waits are no-ops. The timer count is taken as constant within one iteration and advances only between iterations (`TickInput.now`). In the firmware the 1 ms and 5 ms delays let the counter move between the elapsed check and the new timestamp.
- The ADC and CapSense driver calls are not modelled. A completed conversion and a finished scan are optional inputs (`TickInput.sample`, `TickInput.touch`), and the remote-touch pin is a boolean input. The local `is_touched` in `main` is only ever echoed onto the local-touch pin, so the model keeps the pin alone.
- Peripheral start-up, `CyGlobalIntEnable` and the initial pin, duty and timer values are not modelled. The constructor takes them as parameters.
- The global `timer_heating` is never used and is left out.
- The stopwatch reading is proved exact for a counter whose cycle is `period` ticks. If the timer instead reloads to `period` (a cycle of period + 1 ticks), each wrap loses one millisecond, as ElapsedOnReloadToPeriod states. The timer's configuration lives in the generated `project.h`, which is not part of this model.
- Elapsed times of one full timer period or more are not supported by the firmware's arithmetic. CoolingReopensAfterWrap states the consequence: the cooling window opens again after a wrap.
- The code has two states, heating and cooling with a 7000 ms budget. A three-state IDLE/HEAT/COOL controller with a 60000 ms budget, status strings and a fail-safe for a zero sensor voltage does not exist in this source. The model follows the code.

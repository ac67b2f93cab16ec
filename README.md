# nrfBLEsq sensor-to-characteristic layer, modelled in Dafny

This project models the firmware of an nRF52 BLE peripheral. It covers the
layer that carries board state into the custom "sq" GATT service:

- **sq service** (`sq_service.dfy`, module `SqService`). The three update
  functions compare a new ADC, input or RSSI value with a shadow copy. Only
  a changed value is written to the attribute database, and it is notified
  to the peer only while a connection is up. The BLE event dispatcher keeps
  the connection handle current and routes one-byte writes on the out1
  characteristic to output register 1.
- **GPIO manager** (`gpio_manager.dfy`, module `GpioManager`):
  - the three byte registers;
  - the bit-diff update of output register 1;
  - the LED on/off/flip logic and the blinking modes;
  - the two-stage button timer that classifies a press as short or long.
- **RSSI manager** (`rssi_manager.dfy`, module `RssiManager`): a 64-slot
  ring of `int8_t` readings, and their average over the nonzero slots. The
  average uses C's truncating division.
- **ADC manager** (`adc_manager.dfy`, module `AdcManager`):
  - the integer millivolt conversion;
  - the two sample buffers kept with the SAADC driver;
  - the routing of a finished conversion: channel 0 goes to the battery
    service and channel 1 to the ADC characteristic.
- **Service handler** (`sq_service_handler.dfy`, module `SqServiceHandler`):
  the initial characteristic values, the `int8_t`→`uint8_t` RSSI cast, and
  the forwarders to the single service instance.

Module `Nrf` (`nrf.dfy`) holds the status codes and the invalid connection
handle of the Nordic SDK: NRF_SUCCESS 0, NRF_ERROR_INVALID_STATE 8,
NRF_ERROR_NULL 14 and BLE_CONN_HANDLE_INVALID 0xFFFF.

Conventions of the model:

- **Oracles.** SoftDevice and driver calls return a status that is an
  input of the modelled operation:
  - `sd_ble_gatts_value_set` and `sd_ble_gatts_hvx`;
  - `nrf_drv_saadc_buffer_convert`;
  - `bas_battery_level_update`.
- **Traces.** Each call that has an effect is appended to a sequence:
  - database writes and notifications go to `Service.effects`;
  - pin writes go to `Gpio.pinWrites`;
  - values published by the button logic go to `Gpio.published`;
  - battery voltages go to `Saadc.batteryMilliVolts`.
- **Timers.** A timer is modelled by the interval it is armed with, in
  milliseconds. The edge interrupt of the button pin is a flag. The level
  read from the button pin is a parameter.
- **Statics.** The static objects `gpio_state` and `m_sqs` are the `Gpio`
  and `Service` objects passed explicitly. `rssi_buffer` is the `buffer`
  array owned by an `RssiFilter`. The ADC buffers `adc_buf_one` and
  `adc_buf_two` are the tags `BufOne` and `BufTwo` in `Saadc.queued`, and
  the samples of a completed conversion arrive in the `Done` event.

The code is modelled as written, including its defects:

- the input update stores into the ADC shadow;
- bits masked with `1 << i` are compared with `1`;
- slot 0 of the RSSI buffer is always overwritten;
- the average divides by the number of nonzero slots.

Lemmas show the consequences of each:

- `InputUpdateNotIdempotent` and `InputUpdateClobbersAdcShadow` for the
  input update, and `InputZeroNeverSent`, `TwoShortPresses` and
  `TwoShortPressesReportedOnce` for its combined effect: `reg_in` stays 0,
  so an input value of 0 is never written, and after a second short press
  clears the short bit the database still shows it set;
- `RepeatedBit1WriteDrivesPinAgain` for the comparison with `1`;
- `SecondPushLosesFirst` and `TwoReadingsAfterStartUp` for slot 0: after
  two readings, slots 0 and 1 both hold the second one, and the first is
  gone;
- `NoAverageAtStartUp` for the divisor: before the first reading no slot
  is nonzero, so the average cannot be taken at start-up.

The button classifier is also modelled as written. At the first expiry of
the button timer, the comment at `my_gpio_manager/my_gpio_manager.c:129`
calls a high pin a detected short push. The code at lines 130-133 only sets
the flag and re-arms the timer with the long interval. At the second expiry
a pin still high sets the long bit (lines 140-145). The button pin is
pulled up and senses a falling edge (lines 194-195), so a high pin is a
released button. Two consequences follow:

- `ReleasedPressClassifiedLong`: a press released before the first expiry
  is published as a long press.
- `HeldPressPublishesNothing`: a press still held at the first expiry is
  not published at all.

## Model

| member | source | states |
|---|---|---|
| GpioManager.IndicationInterval | my_gpio_manager/my_gpio_manager.c:235-250 | each blinking mode arms the LED timer with one of the four intervals 250/1000/500/750 ms |
| GpioManager.ChangeBitStep | my_gpio_manager/my_gpio_manager.c:274-286 | at iteration i the loop sees bit i as it was before the loop, and the iteration moves the register from "bits below i updated" to "bits below i+1 updated" |
| GpioManager.StepBits | my_gpio_manager/my_gpio_manager.c:276-284 | the same step stated on the masks, for each single bit b with the bits below it already updated |
| GpioManager.ChangeLevelAsWritten | my_gpio_manager/my_gpio_manager.c:276-283 | the level written for a differing bit i is 1 exactly when `(1 << i) & n == 1`, i.e. only for bit 0 with n's bit 0 set |
| GpioManager.Reg1After | my_gpio_manager/my_gpio_manager.c:274-286 | register 1 after the loop: bit 0 follows the new value, and a bit above 0 stays set only where both the register and the new value have it |
| GpioManager.BitWrite | my_gpio_manager/my_gpio_manager.c:275-284 | a bit makes at most one pin write, exactly when it differs, to its own pin, and high only for bit 0 with the new value's bit 0 set |
| GpioManager.DiffWrites | my_gpio_manager/my_gpio_manager.c:274-286 | the change loop over k bits makes at most k pin writes; `DiffWritesPerBit` states which ones |
| GpioManager.DiffWritesPerBit | my_gpio_manager/my_gpio_manager.c:274-286 | the change loop makes exactly one pin write per differing bit, and no other: the write for differing bit i goes to its pin with the loop's level, after those of the differing bits below i |
| GpioManager.DiffWritesNone | my_gpio_manager/my_gpio_manager.c:274-275 | writing register 1's own value drives no pin |
| GpioManager.DiffWritesLevels | my_gpio_manager/my_gpio_manager.c:274-284 | every pin write goes to the pin of a bit in `out_reg1_pin_numbers`; a write that is not low is pin 28 driven high for a value with bit 0 set |
| GpioManager.Reg1AfterIdempotent | my_gpio_manager/my_gpio_manager.c:274-286 | applying the same value to register 1 twice gives the register of one application |
| GpioManager.Reg1AfterHighBitsCleared | my_gpio_manager/my_gpio_manager.c:275-284 | bits above 0 of register 1 are only ever kept or cleared, never set |
| GpioManager.Bit0WriteScenario | my_gpio_manager/my_gpio_manager.c:274-286 | writing 1 to a cleared register sets bit 0 with one write (pin 28 high); repeating it writes no pin |
| GpioManager.RepeatedBit1WriteDrivesPinAgain | my_gpio_manager/my_gpio_manager.c:276-282 | as written, a value with bit 1 set never sets bit 1, so every repeat drives that bit's pin low again |
| GpioManager.Classify | my_gpio_manager/my_gpio_manager.c:140-158 | the second-expiry classification changes only the short and long bits, and never leaves both set |
| GpioManager.ClassifyAsWritten | my_gpio_manager/my_gpio_manager.c:140-158 | the second expiry with the pin high sets the long bit and clears short (the `== 1` test on mask 2 never holds); with the pin low it toggles short and clears long; short and long are never both set |
| GpioManager.Gpio.constructor | my_gpio_manager/my_gpio_manager.c:175-198 | `my_gpio_init` on the zeroed globals: the LED is switched off (pin 25 low), pin 24 is driven high and pin 19 low, the button edge is enabled; registers zero, flag false, timers stopped |
| GpioManager.Gpio.LedState | my_gpio_manager/my_gpio_manager.c:85-90 | `get_led_state` is true exactly when the LED bit of output register 2 is set |
| GpioManager.Gpio.LedOn | my_gpio_manager/my_gpio_manager.c:70-73 | `led_on` sets bit 4 of output register 2 only, so `get_led_state` reports on, and drives the LED pin to the active level |
| GpioManager.Gpio.LedOff | my_gpio_manager/my_gpio_manager.c:77-80 | `led_off` clears bit 4 only, so `get_led_state` reports off, and drives the LED pin inactive |
| GpioManager.Gpio.LedTimerCallback | my_gpio_manager/my_gpio_manager.c:112-119 | each LED tick flips bit 4 and nothing else, and writes the pin to the new level |
| GpioManager.Gpio.LedIndicateManage | my_gpio_manager/my_gpio_manager.c:225-256 | NOT_INDICATION stops the LED timer and switches the LED off; a blinking mode starts a stopped timer with its interval, leaves a running one at the interval it already has, and changes no register and no pin |
| GpioManager.Gpio.ButtonEventHandler | my_gpio_manager/my_gpio_manager.c:94-108 | a falling edge on pin 26 disables the edge event and arms the button timer with 100 ms; any other pin or polarity changes nothing |
| GpioManager.Gpio.ButtonTimerCallback | my_gpio_manager/my_gpio_manager.c:123-165 | first expiry: pin high arms the 250 ms long stage, pin low re-enables the edge, no register changes and nothing is published; second expiry: flag reset, input register classified as `Classify` states, published once, edge re-enabled; the register invariants are kept |
| GpioManager.Gpio.ChangeOneBit | my_gpio_manager/my_gpio_manager.c:275-285 | one iteration: a differing bit is set or cleared and its pin written once; an agreeing bit changes nothing |
| GpioManager.Gpio.ChangeReg1 | my_gpio_manager/my_gpio_manager.c:274-286 | the eight-iteration loop leaves register 1 fully updated and appends exactly the per-bit writes, in bit order |
| GpioManager.ReleasedPressClassifiedLong | my_gpio_manager/my_gpio_manager.c:123-165 | from start-up, a falling edge and two expiries with the pin high publish the long bit alone, and the classifier is idle again |
| GpioManager.HeldPressPublishesNothing | my_gpio_manager/my_gpio_manager.c:123-136 | from start-up, a falling edge and a first expiry with the pin low publish nothing and leave the classifier idle |
| GpioManager.TwoShortPresses | my_gpio_manager/my_gpio_manager.c:123-165 | from start-up, two short presses publish the short bit and then 0, since the second toggles the short bit off |
| GpioManager.BlinkSwitchKeepsInterval | my_gpio_manager/my_gpio_manager.c:235-241 | from start-up, fast blinking and then slow blinking leave the LED timer running at the fast interval, since no stop precedes the second start |
| GpioManager.Gpio.OutChangeState | my_gpio_manager/my_gpio_manager.c:268-293 | for GPIO_OUT_REG1 the register becomes `(old & n & 0xFE) \| (n & 1)`, with one write per differing bit; GPIO_OUT_REG2 and other numbers change nothing |
| SqService.Sync | sq_service.c:310-367 | the shared gate: an equal value is a successful no-op with no effect; otherwise the database is written first; a failed write is returned, keeps the shadow and notifies nothing; a successful write commits; a notification of the same bytes at offset 0 follows exactly when a link is up; the status is then the notify status, or NRF_ERROR_INVALID_STATE without a link |
| SqService.AdcBytes | sq_service.c:321-327 | the ADC value is sent as two little-endian bytes, `b[0] + 256*b[1] == adc_value` |
| SqService.ByteSplit | sq_service.c:322-323 | the masks and shift pick the low and the high byte |
| SqService.AdcBytesInjective | sq_service.c:321-327 | the byte pair determines the ADC value and decodes back to it |
| SqService.AdcUpdate | sq_service.c:307-371 | only `reg_adc` and the trace change; after a successful database write `reg_adc` is the new value, whatever the notify outcome; after a failed one it is kept |
| SqService.InputUpdate | sq_service.c:378-438 | as written: `reg_in` never changes, and a successful write of a value that differs from `reg_in` stores it into `reg_adc` |
| SqService.RssiUpdate | sq_service.c:446-505 | only `reg_rssi` and the trace change; after a successful database write `reg_rssi` is the new value |
| SqService.SyncCounts | sq_service.c:310-365 | one update makes one database write exactly when the value changed, and one notification exactly when it commits with a link up |
| SqService.ChangeGating | sq_service.c:310-365 | over any run of values with successful writes, the database is written once per change in the run, and notified as often when a link is up, never without one |
| SqService.RepeatedValueWrittenOnce | sq_service.c:310-367 | pushing a changed value twice writes the database once, and notifies once with a link and never without |
| SqService.RssiBytes | sq_service.c:460-462 | the RSSI value is sent as the single byte it is |
| SqService.AdcRunReplays | sq_service.c:307-371 | a run of ADC updates with successful writes appends to the trace exactly the change-gated trace of the run |
| SqService.RssiRunReplays | sq_service.c:446-505 | a run of RSSI updates with successful writes appends to the trace exactly the change-gated trace of the run |
| SqService.AdcRunGating | sq_service.c:307-371 | over a run of ADC updates with successful writes, the ADC database is written once per change of the value and notified as often while a link is up, never without one |
| SqService.RssiRunGating | sq_service.c:446-505 | the same for a run of RSSI updates |
| SqService.AdcUpdateIdempotent | sq_service.c:310-367 | after a successful ADC write, the same value again returns NRF_SUCCESS and changes nothing |
| SqService.InputUpdateNotIdempotent | sq_service.c:381-402 | as written, a value differing from `reg_in` writes the database on every call |
| SqService.InputUpdateClobbersAdcShadow | sq_service.c:381-402 | as written, an input update leaves its value in `reg_adc`, so a following ADC reading equal to it is suppressed |
| SqService.Service.constructor | sq_service.c:81-94 | after `ble_sqs_init` the connection handle is invalid, the shadows are zero and no database write or notification has happened |
| SqService.Service.OnConnect | sq_service.c:33-36 | the connection handle becomes the event's handle |
| SqService.Service.OnDisconnect | sq_service.c:44-48 | the connection handle becomes BLE_CONN_HANDLE_INVALID |
| SqService.Service.OnWrite | sq_service.c:56-67 | a write of length 1 on the out1 value handle is applied to output register 1; any other write changes no register and writes no pin |
| SqService.Service.OnBleEvt | sq_service.c:280-299 | connect, disconnect and write are dispatched as above; every other event changes nothing |
| SqService.UpdateAdcCharacteristic | sq_service.c:307-371 | a null service gives NRF_ERROR_NULL; otherwise the new state and status are those of AdcUpdate |
| SqService.UpdateInputCharacteristic | sq_service.c:378-438 | a null service gives NRF_ERROR_NULL; otherwise the new state and status are those of InputUpdate |
| SqService.UpdateRssiCharacteristic | sq_service.c:446-505 | a null service gives NRF_ERROR_NULL; otherwise the new state and status are those of RssiUpdate |
| SqServiceHandler.ServiceInit | service_handlers/sq_service_handler.c:41-57 | initial values in 0xCC, out1 0xAA, out2 0xBB, rssi 0xDD, adc 0 from the zeroed struct; the shadows still start at 0 |
| SqServiceHandler.InputZeroNeverSent | sq_service.c:378-381 | while `reg_in` is 0, an input update with value 0 changes nothing, writes and notifies nothing, and returns success |
| SqServiceHandler.TwoShortPressesReportedOnce | my_gpio_manager/my_gpio_manager.c:123-165 | from start-up, two short presses whose published values are forwarded as at line 161 publish the short bit and then 0; only the short bit reaches the database, so it still shows the short bit set |
| SqServiceHandler.FirstRssiUpdateWritesInitialValue | service_handlers/sq_service_handler.c:49-54 | since the shadow starts at 0 and not at 0xDD, a first RSSI update with the initial value still writes the database |
| SqServiceHandler.RssiToByte | service_handlers/sq_service_handler.c:84-86 | `(uint8_t)r`: a negative r becomes r+256, a nonnegative r is unchanged |
| SqServiceHandler.ByteToRssi | service_handlers/sq_service_handler.c:84-86 | reading a byte back as `int8_t`: values from 128 up become negative |
| SqServiceHandler.RssiByteRoundTrip | service_handlers/sq_service_handler.c:84-86 | the cast is a bijection: byte and RSSI round-trip in both directions |
| SqServiceHandler.OnBleEvt | service_handlers/sq_service_handler.c:63-65 | the BLE event reaches the single service instance unchanged: the connection handle, output register 1 and the pin writes change as the service's dispatcher states |
| SqServiceHandler.ServiceUpdateAdc | service_handlers/sq_service_handler.c:70-72 | forwards the ADC value unchanged to the service instance |
| SqServiceHandler.ServiceUpdateInput | service_handlers/sq_service_handler.c:77-79 | forwards the input value unchanged to the service instance |
| SqServiceHandler.ServiceUpdateRssi | service_handlers/sq_service_handler.c:84-87 | forwards the RSSI as its byte; after a successful write the shadow reads back as the RSSI given |
| RssiManager.NonZeroCount | my_rssi_manager/my_rssi_manager.c:36-40 | the nonzero count never exceeds the number of slots, so it fits the `uint8_t` counter |
| RssiManager.TruncDiv | my_rssi_manager/my_rssi_manager.c:41 | C division: the quotient times the divisor approaches the dividend from the side of zero, within one divisor |
| RssiManager.SumBounds | my_rssi_manager/my_rssi_manager.c:33-40 | zero slots add nothing: with all nonzero slots in [lo, hi], the sum lies between lo and hi times the nonzero count |
| RssiManager.TruncDivBounds | my_rssi_manager/my_rssi_manager.c:41 | truncating division keeps a quotient between the bounds of the averaged values |
| RssiManager.Average | my_rssi_manager/my_rssi_manager.c:31-42 | the average of a buffer with a nonzero slot fits `int8_t` |
| RssiManager.AverageBounds | my_rssi_manager/my_rssi_manager.c:31-42 | the average lies between the smallest and largest nonzero slot, so it fits `int8_t` |
| RssiManager.AverageOfConstant | my_rssi_manager/my_rssi_manager.c:31-42 | if every nonzero slot holds v, the average is v |
| RssiManager.RssiFilter.constructor | my_rssi_manager/my_rssi_manager.c:17-23 | 64 slots, all 0, cursor 0 |
| RssiManager.RssiFilter.PushValue | my_rssi_manager/my_rssi_manager.c:58-64 | the reading goes into slot 0 and into the cursor slot, every other slot is kept, and the cursor advances by one modulo 64 |
| RssiManager.RssiFilter.ProcessBuffer | my_rssi_manager/my_rssi_manager.c:31-42 | the loop returns the sum of all 64 slots divided, truncating, by the number of nonzero slots |
| RssiManager.RssiFilter.GetValue | my_rssi_manager/my_rssi_manager.c:51-53 | returns that average |
| RssiManager.FirstPushAverage | my_rssi_manager/my_rssi_manager.c:58-60 | after one nonzero reading is pushed into the initial buffer, the average is that reading |
| RssiManager.InitialBuffer | my_rssi_manager/my_rssi_manager.c:22 | the buffer at start-up: 64 slots, all 0 |
| RssiManager.NoAverageAtStartUp | my_rssi_manager/my_rssi_manager.c:38-41 | before any reading is pushed the nonzero count is 0, so `process_buffer` would divide by zero |
| RssiManager.SecondPushLosesFirst | my_rssi_manager/my_rssi_manager.c:58-64 | after two nonzero readings a then b, slots 0 and 1 both hold b, a is no longer in the buffer, and the average is b |
| RssiManager.TwoReadingsAfterStartUp | my_rssi_manager/my_rssi_manager.c:51-64 | from start-up, pushing a then b and reading the average returns b |
| AdcManager.MilliVolts | my_adc_manager/my_adc_manager.c:37-38 | a multiple of 6, at most 3594 (fits `uint16_t`), and at most 6 mV below the exact raw*3600/1024 |
| AdcManager.MilliVoltsMonotone | my_adc_manager/my_adc_manager.c:37-38 | the conversion never decreases as the sample grows |
| AdcManager.MilliVoltsWorkedValues | my_adc_manager/my_adc_manager.c:37-38 | raw 512 gives 1800 mV and raw 1023 gives 3594 mV |
| AdcManager.Saadc.constructor | my_adc_manager/my_adc_manager.c:51-52 | no buffer is with the driver and no battery voltage was computed |
| AdcManager.Saadc.Configure | my_adc_manager/my_adc_manager.c:184-188 | buffer one and then buffer two are handed to the driver; a failed hand-over is fatal and stops |
| AdcManager.Saadc.EventHandler | my_adc_manager/my_adc_manager.c:84-137 | only DONE events act; the completed buffer is handed back before conversion (a failure is fatal); sample 0 becomes the battery voltage; a battery status other than NRF_SUCCESS or NRF_ERROR_INVALID_STATE is fatal; otherwise sample 1's millivolts go to the ADC characteristic, whose status is ignored |
| AdcManager.BuffersRotate | my_adc_manager/my_adc_manager.c:95 | with both buffers queued, handing back the completed one keeps both queued and alternates them |

## Left out

- `ble_sqs_init` service and characteristic registration, with its UUIDs and SoftDevice calls (sq_service.c:81-270). The model keeps only its effect on the service structure: the connection handle is invalid and the shadows are zero.
- The `reg_out1`/`reg_out2` shadows of `ble_sq_t`: no modelled operation reads or writes them.
- The empty service event handler `on_sq_evt` and `my_gpio_on_ble_evt`: they do nothing.
- The battery and TX-power service handlers and `battery_level_in_percent`. These are thin wrappers over Nordic libraries that are not part of this model. The battery update's status is an input, and the voltage passed to the percentage conversion is recorded.
- Peripheral bring-up, which is driver and timer I/O with no logic of its own: `my_gpio_init` pin configuration, `nrf_drv_saadc_init` and channel set-up in `adc_configure`, `my_adc_timer_init`/`my_adc_timer_start` and `adc_meas_timeout_handler`.
- Real time: `APP_TIMER_TICKS` conversion, timer expiry, interrupts and their priorities. Timers are modelled by the interval they are armed with, and a callback runs when its caller invokes it.
- Status checks of `app_timer_start`/`app_timer_stop` in the GPIO code. Their results are ignored or checked by APP_ERROR_CHECK, and the model treats the timer calls as successful.
- `NRF_LOG_*` logging.
- GpioManager.Gpio.LedIndicateManage: relies on the behaviour of `app_timer_start`, whose library is not part of this model. A start on a timer that is already running is taken to be ignored, as that library documents, so the timer keeps its earlier interval.
- GpioManager.Gpio.LedIndicateManage: does not model the return value. For NOT_INDICATION it is an uninitialised `err_code`, and otherwise it is the `app_timer_start` status.
- GpioManager.Gpio.ButtonTimerCallback: does not model the status of the input characteristic update it triggers. The value is recorded in `published`, and `SqService.UpdateInputCharacteristic` models the update itself. The calls form a cycle that Dafny modules cannot: `my_gpio_manager.c` includes `sq_service_handler.h`, the handler calls into `sq_service.c`, and `sq_service.c` includes `my_gpio_manager.h`.
- Negative and out-of-range SAADC samples: `nrf_saadc_value_t` is signed, and the model restricts samples to [0, 1023].
- The two-byte initial value of the ADC characteristic, read from the one-byte `adc_reg_value`: an out-of-bounds read, not logic.
- RssiManager.RssiFilter.ProcessBuffer: requires at least one nonzero slot. With none, the C code divides by zero, which is undefined behaviour.
- The `default` branch of `led_indicate_manage`: the `Indication` datatype has no other value.

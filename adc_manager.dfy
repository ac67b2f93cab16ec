/** The SAADC manager (my_adc_manager.c): the integer millivolt conversion,
    the two sample buffers handed to the driver, and the routing of a
    completed conversion — channel 0 to the battery service, channel 1 to the
    ADC characteristic of the sq service.

    Driver calls (nrf_drv_saadc_buffer_convert) and the battery service update
    (bas_battery_level_update) are oracles whose status is an input. A failed
    APP_ERROR_CHECK or APP_ERROR_HANDLER does not return; the model returns
    Fatal with the code instead and makes no further step. */
module AdcManager {
  import opened Nrf
  import SqService
  import SqServiceHandler

  /** ADC_REF_VOLTAGE_IN_MILLIVOLTS */
  const RefVoltageMilliVolts: nat := 600
  /** ADC_PRE_SCALING_COMPENSATION */
  const PreScalingCompensation: nat := 6
  /** DIODE_FWD_VOLT_DROP_MILLIVOLTS (no diode fitted) */
  const DiodeFwdVoltDropMilliVolts: nat := 0
  /** ADC_RES_10BIT */
  const Res10Bit: nat := 1024
  /** USED_ADC_CHANNELS */
  const UsedChannels: nat := 2

  /** ADC_RESULT_IN_MILLI_VOLTS(raw) + DIODE_FWD_VOLT_DROP_MILLIVOLTS for a
      10-bit sample. The result is the exact voltage raw * 3600 / 1024 rounded
      down to a multiple of 6, so it is at most 6 mV below it, and it fits the
      uint16_t it is stored in. */
  function MilliVolts(raw: int): (mv: nat)
    requires 0 <= raw < Res10Bit
    ensures mv % 6 == 0 && mv <= 3594
    ensures mv * 1024 <= raw * 3600 < (mv + 6) * 1024
  {
    var q := (raw * RefVoltageMilliVolts) / Res10Bit;
    QuotientBounds(raw * RefVoltageMilliVolts, q);
    q * PreScalingCompensation + DiodeFwdVoltDropMilliVolts
  }

  /** The quotient of a scaled 10-bit sample by 1024, scaled by 6, stays
      within 6 * 1024 below six times the dividend. */
  lemma QuotientBounds(x: nat, q: nat)
    requires x < Res10Bit * RefVoltageMilliVolts && q == x / Res10Bit
    ensures q <= 599
    ensures q * 6 * 1024 <= x * 6 < (q * 6 + 6) * 1024
  {
    assert q * 1024 <= x < q * 1024 + 1024;
    assert q * 6 * 1024 == (q * 1024) * 6;
    assert (q * 6 + 6) * 1024 == (q * 1024 + 1024) * 6;
  }

  /** The conversion never decreases as the sample grows. */
  lemma MilliVoltsMonotone(a: int, b: int)
    requires 0 <= a <= b < Res10Bit
    ensures MilliVolts(a) <= MilliVolts(b)
  {
    assert a * 600 <= b * 600;
    DivMonotone(a * 600, b * 600, 1024);
  }

  lemma DivMonotone(x: nat, y: nat, d: nat)
    requires x <= y && d > 0
    ensures x / d <= y / d
  {
    var qx, qy := x / d, y / d;
    assert qx * d <= x;
    assert y < qy * d + d;
    assert qx * d < (qy + 1) * d;
  }

  /** Two worked values: the mid-scale sample and the full-scale sample. */
  lemma MilliVoltsWorkedValues()
    ensures MilliVolts(512) == 1800
    ensures MilliVolts(1023) == 3594
  {
  }

  /** The two static sample buffers adc_buf_one and adc_buf_two. */
  datatype BufferId = BufOne | BufTwo

  /** A SAADC driver event; a completed conversion carries its buffer and the
      samples of the used channels. */
  datatype SaadcEvent =
    | Done(buffer: BufferId, samples: seq<int>)
    | LimitEvent
    | CalibrateDone

  /** How a handler ends: normally, or in the fatal error handler with a code. */
  datatype Outcome = Handled | Fatal(code: Status)

  class Saadc {
    /** the buffers handed to the driver, oldest first */
    var queued: seq<BufferId>
    /** every battery voltage passed on to battery_level_in_percent */
    var batteryMilliVolts: seq<nat>

    constructor ()
      ensures queued == [] && batteryMilliVolts == []
    {
      queued := [];
      batteryMilliVolts := [];
    }

    /** The buffer set-up of adc_configure: buffer one, then buffer two, is
        handed to the driver; a failed hand-over is fatal. */
    method Configure(status1: Status, status2: Status) returns (out: Outcome)
      modifies this`queued
      ensures status1 != Success ==> out == Fatal(status1) && queued == old(queued)
      ensures status1 == Success && status2 != Success ==> out == Fatal(status2) && queued == old(queued) + [BufOne]
      ensures status1 == Success && status2 == Success ==> out == Handled && queued == old(queued) + [BufOne, BufTwo]
    {
      if status1 != Success {
        return Fatal(status1);
      }
      queued := queued + [BufOne];
      if status2 != Success {
        return Fatal(status2);
      }
      queued := queued + [BufTwo];
      out := Handled;
    }

    /** saadc_event_handler. Only a completed conversion is handled: the
        driver releases the oldest buffer, which is handed back before its
        samples are used; sample 0 becomes the battery voltage, whose update
        may fail only with NRF_ERROR_INVALID_STATE; sample 1 becomes the ADC
        characteristic value, whose update status is ignored. */
    method EventHandler(ev: SaadcEvent, convertStatus: Status, basStatus: Status,
                        sqs: SqService.Service, setStatus: Status, hvxStatus: Status)
      returns (out: Outcome)
      requires ev.Done? ==> |queued| > 0 && queued[0] == ev.buffer
      requires ev.Done? ==> |ev.samples| == UsedChannels &&
                            0 <= ev.samples[0] < Res10Bit && 0 <= ev.samples[1] < Res10Bit
      modifies this`queued, this`batteryMilliVolts, sqs
      ensures !ev.Done? ==> out == Handled && queued == old(queued) &&
                            batteryMilliVolts == old(batteryMilliVolts) && sqs.State() == old(sqs.State())
      ensures ev.Done? && convertStatus != Success ==>
                out == Fatal(convertStatus) && queued == old(queued)[1..] &&
                batteryMilliVolts == old(batteryMilliVolts) && sqs.State() == old(sqs.State())
      ensures ev.Done? && convertStatus == Success ==>
                queued == old(queued)[1..] + [ev.buffer] &&
                batteryMilliVolts == old(batteryMilliVolts) + [MilliVolts(ev.samples[0])]
      ensures ev.Done? && convertStatus == Success && basStatus != Success && basStatus != ErrorInvalidState ==>
                out == Fatal(basStatus) && sqs.State() == old(sqs.State())
      ensures ev.Done? && convertStatus == Success && (basStatus == Success || basStatus == ErrorInvalidState) ==>
                out == Handled &&
                sqs.State() == SqService.AdcUpdate(sqs.handles, old(sqs.State()),
                                                   MilliVolts(ev.samples[1]) as bv16, setStatus, hvxStatus).0
    {
      if !ev.Done? {
        return Handled;
      }
      var adcResult := ev.samples[0];
      // the driver has released the completed buffer
      queued := queued[1..];
      if convertStatus != Success {
        return Fatal(convertStatus);
      }
      queued := queued + [ev.buffer];
      var battMilliVolts := MilliVolts(adcResult);
      batteryMilliVolts := batteryMilliVolts + [battMilliVolts];
      if basStatus != Success && basStatus != ErrorInvalidState {
        return Fatal(basStatus);
      }
      var adcResult2 := ev.samples[1];
      var adcMilliVolts := MilliVolts(adcResult2);
      var _ := SqServiceHandler.ServiceUpdateAdc(sqs, adcMilliVolts as bv16, setStatus, hvxStatus);
      out := Handled;
    }
  }

  /** After configuration both buffers are with the driver, and a handled
      conversion hands its buffer straight back: the driver again holds both,
      the other one first. */
  lemma BuffersRotate(queued: seq<BufferId>, b: BufferId)
    requires queued == [BufOne, BufTwo] || queued == [BufTwo, BufOne]
    requires queued[0] == b
    ensures var next := queued[1..] + [b];
            |next| == 2 && next[0] != b && next[1] == b &&
            (next == [BufOne, BufTwo] || next == [BufTwo, BufOne])
  {
  }
}

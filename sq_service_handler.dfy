/** The application-side wrapper of the sq service (sq_service_handler.c): it
    owns the single service instance, chooses the initial characteristic
    values and forwards the update calls. The static instance m_sqs is passed
    explicitly as `sqs`. */
module SqServiceHandler {
  import opened Nrf
  import SqService
  import GpioManager

  /** The initial values sq_service_init hands to ble_sqs_init: the structure
      is zeroed, then four values are set; the ADC value keeps the zero. */
  const DefaultInit: SqService.InitValues :=
    SqService.InitValues(out1 := 0xAA, out2 := 0xBB, input := 0xCC, adc := 0, rssi := 0xDD)

  /** sq_service_init: registers the service with the default initial values.
      The attribute database starts from those values, while the shadows the
      updates gate on start at zero. */
  method ServiceInit(handles: SqService.Handles) returns (sqs: SqService.Service)
    ensures fresh(sqs) && sqs.handles == handles
    ensures sqs.initValues.input == 0xCC && sqs.initValues.out1 == 0xAA
    ensures sqs.initValues.out2 == 0xBB && sqs.initValues.rssi == 0xDD && sqs.initValues.adc == 0
    ensures sqs.State() == SqService.Shadows(0, 0, 0, ConnHandleInvalid, [])
  {
    var init := SqService.InitValues(0, 0, 0, 0, 0);
    init := init.(input := 0xCC, out1 := 0xAA, out2 := 0xBB, rssi := 0xDD);
    sqs := new SqService.Service(init, handles);
  }

  /** Because the shadows start at zero and not at the initial values, the
      first update with a value equal to a characteristic's initial value is
      not suppressed: it writes the database although nothing changed. */
  lemma FirstRssiUpdateWritesInitialValue(h: SqService.Handles, hvx: Status)
    ensures var st := SqService.Shadows(0, 0, 0, ConnHandleInvalid, []);
            var (st1, err) := SqService.RssiUpdate(h, st, DefaultInit.rssi, Success, hvx);
            st1.effects == [SqService.DbWrite(ConnHandleInvalid, h.rssi, [0xDD])] &&
            err == ErrorInvalidState
  {
  }

  /** The (uint8_t) cast of an int8_t: two's complement, a negative value
      maps to itself plus 256. */
  function RssiToByte(r: int8): (b: bv8)
    ensures b as int == if r < 0 then r as int + 256 else r as int
  {
    ByteOf(r as int % 256)
  }

  /** The byte whose value is x, counted up from 0. */
  function ByteOf(x: nat): (b: bv8)
    requires x < 256
    ensures b as int == x
  {
    if x == 0 then 0 else ByteOf(x - 1) + 1
  }

  /** The reading back of such a byte as an int8_t. */
  function ByteToRssi(b: bv8): (r: int8)
    ensures r as int == if b as int < 128 then b as int else b as int - 256
  {
    if b as int < 128 then b as int as int8 else (b as int - 256) as int8
  }

  /** The cast loses nothing: the byte sent reads back as the RSSI pushed,
      and every byte is the cast of the RSSI it reads back as. */
  lemma RssiByteRoundTrip(r: int8, b: bv8)
    ensures ByteToRssi(RssiToByte(r)) == r
    ensures RssiToByte(ByteToRssi(b)) == b
  {
    var b' := RssiToByte(ByteToRssi(b));
    assert b' as int == b as int;
    BytesOfSameValue(b', b);
  }

  /** Bytes are determined by their values. */
  lemma BytesOfSameValue(a: bv8, b: bv8)
    requires a as int == b as int
    ensures a == b
  {
    assert (a as int) as bv8 == a && (b as int) as bv8 == b;
  }

  /** sq_on_ble_evt: forwards the event to the service. */
  method OnBleEvt(sqs: SqService.Service, ev: SqService.BleEvent, gpio: GpioManager.Gpio)
    requires gpio.Valid()
    modifies sqs`connHandle, gpio`outputReg1, gpio`pinWrites
    ensures gpio.Valid()
    ensures ev.Connected? ==> sqs.connHandle == ev.connHandle
    ensures ev.Disconnected? ==> sqs.connHandle == ConnHandleInvalid
    ensures !ev.Connected? && !ev.Disconnected? ==> sqs.connHandle == old(sqs.connHandle)
    ensures ev.GattsWrite? && ev.handle == sqs.handles.out1 && |ev.data| == 1 ==>
      gpio.outputReg1 == GpioManager.Reg1After(old(gpio.outputReg1), ev.data[0]) &&
      gpio.pinWrites == old(gpio.pinWrites) + GpioManager.DiffWrites(old(gpio.outputReg1), ev.data[0], 8)
    ensures !(ev.GattsWrite? && ev.handle == sqs.handles.out1 && |ev.data| == 1) ==>
      gpio.outputReg1 == old(gpio.outputReg1) && gpio.pinWrites == old(gpio.pinWrites)
  {
    sqs.OnBleEvt(ev, gpio);
  }

  /** sq_service_update_adc_characteristic */
  method ServiceUpdateAdc(sqs: SqService.Service, adcValue: bv16, setStatus: Status, hvxStatus: Status)
    returns (err: Status)
    modifies sqs
    ensures (sqs.State(), err) == SqService.AdcUpdate(sqs.handles, old(sqs.State()), adcValue, setStatus, hvxStatus)
  {
    err := SqService.UpdateAdcCharacteristic(sqs, adcValue, setStatus, hvxStatus);
  }

  /** sq_service_update_input_characteristic */
  method ServiceUpdateInput(sqs: SqService.Service, value: bv8, setStatus: Status, hvxStatus: Status)
    returns (err: Status)
    modifies sqs
    ensures (sqs.State(), err) == SqService.InputUpdate(sqs.handles, old(sqs.State()), value, setStatus, hvxStatus)
  {
    err := SqService.UpdateInputCharacteristic(sqs, value, setStatus, hvxStatus);
  }

  /** sq_service_update_rssi_value: the signed reading goes out as its byte. */
  method ServiceUpdateRssi(sqs: SqService.Service, rssi: int8, setStatus: Status, hvxStatus: Status)
    returns (err: Status)
    modifies sqs
    ensures (sqs.State(), err) == SqService.RssiUpdate(sqs.handles, old(sqs.State()), RssiToByte(rssi), setStatus, hvxStatus)
    ensures setStatus == Success ==> ByteToRssi(sqs.regRssi) == rssi
  {
    RssiByteRoundTrip(rssi, 0);
    err := SqService.UpdateRssiCharacteristic(sqs, RssiToByte(rssi), setStatus, hvxStatus);
  }

  /** reg_in is never stored, so it keeps its start-up 0, and an input value
      of 0 is gated away: the update writes nothing, notifies nothing and
      returns success. */
  lemma InputZeroNeverSent(h: SqService.Handles, st: SqService.Shadows, setStatus: Status, hvx: Status)
    requires st.regIn == 0
    ensures SqService.InputUpdate(h, st, 0, setStatus, hvx) == (st, Success)
  {
    var r := SqService.Sync(st.regIn, 0, st.connHandle, h.input, [0], setStatus, hvx);
    assert r == SqService.SyncResult(Success, false, []);
    assert st.effects + r.effects == st.effects;
  }

  /** Two short presses from start-up, each published value forwarded to the
      input update: the first writes the short bit, the second publishes 0,
      which the gate suppresses, so the database keeps the short bit. */
  method TwoShortPressesReportedOnce(handles: SqService.Handles)
    returns (g: GpioManager.Gpio, sqs: SqService.Service)
    ensures g.published == [GpioManager.ButShortBit, 0]
    ensures sqs.regIn == 0
    ensures sqs.effects == [SqService.DbWrite(ConnHandleInvalid, handles.input, [GpioManager.ButShortBit])]
  {
    g := GpioManager.TwoShortPresses();
    sqs := ServiceInit(handles);
    var err := ServiceUpdateInput(sqs, g.published[0], Success, Success);
    InputZeroNeverSent(handles, sqs.State(), Success, Success);
    err := ServiceUpdateInput(sqs, g.published[1], Success, Success);
  }
}

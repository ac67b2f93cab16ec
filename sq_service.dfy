/** The sq GATT service (sq_service.c): the change-gated replication of the
    ADC, input and RSSI values into the attribute database, with a
    notification to the connected peer, and the handling of the BLE events
    that concern the service.

    The SoftDevice calls sd_ble_gatts_value_set (the database write) and
    sd_ble_gatts_hvx (the notification) are oracles: their status is an input
    of each update, and each call that is made is appended to the service's
    trace of effects. */
module SqService {
  import opened Nrf
  import GpioManager

  /** A call into the SoftDevice made by the service. */
  datatype Effect =
    | DbWrite(conn: bv16, handle: bv16, bytes: seq<bv8>)
    | Notification(conn: bv16, handle: bv16, offset: nat, bytes: seq<bv8>)

  /** What one change-gated update does: the status it returns, whether the
      shadow takes the new value, and the SoftDevice calls it makes. */
  datatype SyncResult = SyncResult(status: Status, commit: bool, effects: seq<Effect>)

  /** The value handles the SoftDevice assigned to the characteristics. */
  datatype Handles = Handles(out1: bv16, input: bv16, adc: bv16, rssi: bv16)

  /** The initial values handed to ble_sqs_init (ble_sq_init_t). */
  datatype InitValues = InitValues(out1: bv8, out2: bv8, input: bv8, adc: bv8, rssi: bv8)

  /** The part of ble_sq_t that the updates read and write, with the trace. */
  datatype Shadows = Shadows(regIn: bv8, regAdc: bv16, regRssi: bv8, connHandle: bv16, effects: seq<Effect>)

  /** The BLE events the service dispatches on; `data` of a write carries its
      length. */
  datatype BleEvent =
    | Connected(connHandle: bv16)
    | Disconnected
    | GattsWrite(handle: bv16, data: seq<bv8>)
    | OtherEvent

  predicate Notifies(es: seq<Effect>)
  {
    exists i :: 0 <= i < |es| && es[i].Notification?
  }

  /** The protocol shared by the three update functions, for a characteristic
      whose last value is `shadow` and whose new value is encoded as `bytes`:
      an equal value is a successful no-op; otherwise the database is written,
      a failed write is returned with the shadow kept and nothing notified, and
      a successful write commits the shadow and then notifies the same bytes
      at offset 0 when a link is up, returning the notify status, or returns
      NRF_ERROR_INVALID_STATE without a link. */
  function Sync<T(==)>(shadow: T, value: T, conn: bv16, handle: bv16, bytes: seq<bv8>,
                       setStatus: Status, hvxStatus: Status): (r: SyncResult)
    ensures r.effects == [] <==> shadow == value
    ensures r.effects != [] ==> r.effects[0] == DbWrite(conn, handle, bytes)
    ensures r.commit <==> shadow != value && setStatus == Success
    ensures Notifies(r.effects) <==> r.commit && conn != ConnHandleInvalid
    ensures Notifies(r.effects) ==> r.effects == [DbWrite(conn, handle, bytes), Notification(conn, handle, 0, bytes)]
    ensures !Notifies(r.effects) ==> |r.effects| <= 1
    ensures r.status ==
      if shadow == value then Success
      else if setStatus != Success then setStatus
      else if conn == ConnHandleInvalid then ErrorInvalidState
      else hvxStatus
  {
    if shadow == value then SyncResult(Success, false, [])
    else
      var write := DbWrite(conn, handle, bytes);
      if setStatus != Success then SyncResult(setStatus, false, [write])
      else if conn != ConnHandleInvalid then
        var note := Notification(conn, handle, 0, bytes);
        assert [write, note][1].Notification?;
        SyncResult(hvxStatus, true, [write, note])
      else SyncResult(ErrorInvalidState, true, [write])
  }

  /** The two bytes of the ADC value, least significant first. */
  function AdcBytes(v: bv16): (b: seq<bv8>)
    ensures |b| == 2 && b[0] as int + 256 * b[1] as int == v as int
  {
    ByteSplit(v);
    [(v & 0x00FF) as bv8, ((v & 0xFF00) >> 8) as bv8]
  }

  /** The masks of the split select the low and the high byte. */
  lemma ByteSplit(v: bv16)
    ensures ((v & 0x00FF) as bv8) as int == v as int % 256
    ensures (((v & 0xFF00) >> 8) as bv8) as int == v as int / 256
  {
  }

  /** The value a little-endian byte pair stands for. */
  function FromLittleEndian(b: seq<bv8>): int
    requires |b| == 2
  {
    b[0] as int + 256 * b[1] as int
  }

  /** The two bytes determine the ADC value: different values are sent as
      different bytes. */
  lemma AdcBytesInjective(v: bv16, w: bv16)
    ensures AdcBytes(v) == AdcBytes(w) ==> v == w
    ensures FromLittleEndian(AdcBytes(v)) == v as int
  {
  }

  /** sqs_update_adc_characteristic on the service state. Only regAdc and the
      trace change; after a successful database write regAdc is the new value
      whatever the notification does, and after a failed one it is kept. */
  function AdcUpdate(h: Handles, st: Shadows, value: bv16, setStatus: Status, hvxStatus: Status): (res: (Shadows, Status))
    ensures res.0.regIn == st.regIn && res.0.regRssi == st.regRssi && res.0.connHandle == st.connHandle
    ensures res.0.regAdc == if value != st.regAdc && setStatus == Success then value else st.regAdc
    ensures setStatus == Success ==> res.0.regAdc == value
  {
    var r := Sync(st.regAdc, value, st.connHandle, h.adc, AdcBytes(value), setStatus, hvxStatus);
    (st.(regAdc := if r.commit then value else st.regAdc, effects := st.effects + r.effects), r.status)
  }

  /** sqs_update_input_characteristic on the service state, as written: the
      gate compares with regIn, but a successful write stores the value into
      regAdc, so regIn never changes. */
  function InputUpdate(h: Handles, st: Shadows, value: bv8, setStatus: Status, hvxStatus: Status): (res: (Shadows, Status))
    ensures res.0.regIn == st.regIn && res.0.regRssi == st.regRssi && res.0.connHandle == st.connHandle
    ensures res.0.regAdc == if value != st.regIn && setStatus == Success then value as bv16 else st.regAdc
  {
    var r := Sync(st.regIn, value, st.connHandle, h.input, [value], setStatus, hvxStatus);
    (st.(regAdc := if r.commit then value as bv16 else st.regAdc, effects := st.effects + r.effects), r.status)
  }

  /** sqs_update_rssi_characteristic on the service state. */
  function RssiUpdate(h: Handles, st: Shadows, value: bv8, setStatus: Status, hvxStatus: Status): (res: (Shadows, Status))
    ensures res.0.regIn == st.regIn && res.0.regAdc == st.regAdc && res.0.connHandle == st.connHandle
    ensures res.0.regRssi == if value != st.regRssi && setStatus == Success then value else st.regRssi
    ensures setStatus == Success ==> res.0.regRssi == value
  {
    var r := Sync(st.regRssi, value, st.connHandle, h.rssi, RssiBytes(value), setStatus, hvxStatus);
    (st.(regRssi := if r.commit then value else st.regRssi, effects := st.effects + r.effects), r.status)
  }

  /** The number of database writes in a trace. */
  function CountWrites(es: seq<Effect>): nat
  {
    if es == [] then 0 else (if es[0].DbWrite? then 1 else 0) + CountWrites(es[1..])
  }

  /** The number of notifications in a trace. */
  function CountNotifications(es: seq<Effect>): nat
  {
    if es == [] then 0 else (if es[0].Notification? then 1 else 0) + CountNotifications(es[1..])
  }

  lemma {:induction false} CountAppend(a: seq<Effect>, b: seq<Effect>)
    ensures CountWrites(a + b) == CountWrites(a) + CountWrites(b)
    ensures CountNotifications(a + b) == CountNotifications(a) + CountNotifications(b)
  {
    if a != [] {
      assert (a + b)[1..] == a[1..] + b;
      CountAppend(a[1..], b);
    } else {
      assert a + b == b;
    }
  }

  /** One update makes one database write when the value changed and none
      otherwise, and one notification exactly when it notifies. */
  lemma SyncCounts<T>(shadow: T, value: T, conn: bv16, handle: bv16, bytes: seq<bv8>,
                          setStatus: Status, hvxStatus: Status)
    ensures var r := Sync(shadow, value, conn, handle, bytes, setStatus, hvxStatus);
            CountWrites(r.effects) == (if shadow != value then 1 else 0) &&
            CountNotifications(r.effects) == (if r.commit && conn != ConnHandleInvalid then 1 else 0)
  {
    var r := Sync(shadow, value, conn, handle, bytes, setStatus, hvxStatus);
    if r.effects != [] {
      if Notifies(r.effects) {
        var e := r.effects;
        assert e[1..] == [e[1]] && e[1..][1..] == [];
        assert e[0].DbWrite? && e[1].Notification?;
        assert CountWrites(e[1..]) == 0 && CountNotifications(e[1..]) == 1;
      } else {
        assert r.effects[1..] == [];
      }
    }
  }

  /** The trace of a run of updates of one characteristic whose gate is its
      own shadow (the ADC and RSSI updates), every database write succeeding. */
  function Replay<T(==)>(shadow: T, values: seq<T>, conn: bv16, handle: bv16,
                         encode: T -> seq<bv8>, hvxStatus: Status): seq<Effect>
    decreases |values|
  {
    if values == [] then []
    else
      var r := Sync(shadow, values[0], conn, handle, encode(values[0]), Success, hvxStatus);
      r.effects + Replay(if r.commit then values[0] else shadow, values[1..], conn, handle, encode, hvxStatus)
  }

  /** The number of values in a run that differ from the one before them (the
      initial shadow before the first). */
  function Changes<T(==)>(shadow: T, values: seq<T>): nat
    decreases |values|
  {
    if values == [] then 0
    else
      var prev := if |values| == 1 then shadow else values[|values| - 2];
      Changes(shadow, values[..|values| - 1]) + (if values[|values| - 1] != prev then 1 else 0)
  }

  lemma {:induction false} ChangesCons<T>(shadow: T, v: T, rest: seq<T>)
    ensures Changes(shadow, [v] + rest) == (if v != shadow then 1 else 0) + Changes(v, rest)
    decreases |rest|
  {
    var vs := [v] + rest;
    if rest == [] {
      assert vs[..0] == [];
    } else {
      var front := rest[..|rest| - 1];
      assert vs[..|vs| - 1] == [v] + front;
      ChangesCons(shadow, v, front);
    }
  }

  /** Change gating: over any run of values with successful database writes,
      the database is written once per change in the run, not once per call,
      and a notification goes out for each write exactly when a link is up. */
  lemma {:induction false} ChangeGating<T>(shadow: T, values: seq<T>, conn: bv16, handle: bv16,
                                               encode: T -> seq<bv8>, hvxStatus: Status)
    ensures CountWrites(Replay(shadow, values, conn, handle, encode, hvxStatus)) == Changes(shadow, values)
    ensures CountNotifications(Replay(shadow, values, conn, handle, encode, hvxStatus))
         == if conn == ConnHandleInvalid then 0 else Changes(shadow, values)
    decreases |values|
  {
    if values != [] {
      var v := values[0];
      var r := Sync(shadow, v, conn, handle, encode(v), Success, hvxStatus);
      var next := if r.commit then v else shadow;
      ChangeGating(next, values[1..], conn, handle, encode, hvxStatus);
      CountAppend(r.effects, Replay(next, values[1..], conn, handle, encode, hvxStatus));
      SyncCounts(shadow, v, conn, handle, encode(v), Success, hvxStatus);
      assert values == [v] + values[1..];
      ChangesCons(shadow, v, values[1..]);
    }
  }

  /** Idempotence: pushing a changed value twice in a row writes the database
      once and notifies at most once. */
  lemma RepeatedValueWrittenOnce<T>(shadow: T, v: T, conn: bv16, handle: bv16,
                                        encode: T -> seq<bv8>, hvxStatus: Status)
    requires v != shadow
    ensures CountWrites(Replay(shadow, [v, v], conn, handle, encode, hvxStatus)) == 1
    ensures CountNotifications(Replay(shadow, [v, v], conn, handle, encode, hvxStatus))
         == if conn == ConnHandleInvalid then 0 else 1
  {
    ChangeGating(shadow, [v, v], conn, handle, encode, hvxStatus);
    assert [v, v][..1] == [v] && [v][..0] == [];
    assert Changes(shadow, [v]) == 1;
  }

  /** The byte of an RSSI value, as sqs_update_rssi_characteristic sends it. */
  function RssiBytes(v: bv8): (b: seq<bv8>)
    ensures |b| == 1 && b[0] == v
  {
    [v]
  }

  /** A run of ADC updates, each database write succeeding. */
  function AdcRun(h: Handles, st: Shadows, values: seq<bv16>, hvxStatus: Status): Shadows
    decreases |values|
  {
    if values == [] then st
    else AdcRun(h, AdcUpdate(h, st, values[0], Success, hvxStatus).0, values[1..], hvxStatus)
  }

  /** A run of RSSI updates, each database write succeeding. */
  function RssiRun(h: Handles, st: Shadows, values: seq<bv8>, hvxStatus: Status): Shadows
    decreases |values|
  {
    if values == [] then st
    else RssiRun(h, RssiUpdate(h, st, values[0], Success, hvxStatus).0, values[1..], hvxStatus)
  }

  /** Replay takes the first value through the gate, then continues from the
      shadow the gate leaves. */
  lemma ReplayCons<T>(shadow: T, values: seq<T>, conn: bv16, handle: bv16,
                      encode: T -> seq<bv8>, hvxStatus: Status)
    requires values != []
    ensures var r := Sync(shadow, values[0], conn, handle, encode(values[0]), Success, hvxStatus);
            Replay(shadow, values, conn, handle, encode, hvxStatus)
              == r.effects + Replay(if r.commit then values[0] else shadow, values[1..], conn, handle, encode, hvxStatus)
  {
  }

  /** One ADC update is one step of the gate on the ADC shadow. */
  lemma AdcStep(h: Handles, st: Shadows, v: bv16, hvxStatus: Status)
    ensures var r := Sync(st.regAdc, v, st.connHandle, h.adc, AdcBytes(v), Success, hvxStatus);
            var st1 := AdcUpdate(h, st, v, Success, hvxStatus).0;
            st1.effects == st.effects + r.effects && st1.connHandle == st.connHandle &&
            st1.regAdc == if r.commit then v else st.regAdc
  {
  }

  /** One RSSI update is one step of the gate on the RSSI shadow. */
  lemma RssiStep(h: Handles, st: Shadows, v: bv8, hvxStatus: Status)
    ensures var r := Sync(st.regRssi, v, st.connHandle, h.rssi, RssiBytes(v), Success, hvxStatus);
            var st1 := RssiUpdate(h, st, v, Success, hvxStatus).0;
            st1.effects == st.effects + r.effects && st1.connHandle == st.connHandle &&
            st1.regRssi == if r.commit then v else st.regRssi
  {
  }

  /** A run of ADC updates appends to the trace exactly what Replay describes
      for the ADC characteristic, gated on the ADC shadow. */
  lemma {:induction false} AdcRunReplays(h: Handles, st: Shadows, values: seq<bv16>, hvxStatus: Status)
    ensures AdcRun(h, st, values, hvxStatus).effects
         == st.effects + Replay(st.regAdc, values, st.connHandle, h.adc, AdcBytes, hvxStatus)
    decreases |values|
  {
    if values == [] {
      assert st.effects + [] == st.effects;
    } else {
      var v := values[0];
      var r := Sync(st.regAdc, v, st.connHandle, h.adc, AdcBytes(v), Success, hvxStatus);
      var st1 := AdcUpdate(h, st, v, Success, hvxStatus).0;
      AdcStep(h, st, v, hvxStatus);
      AdcRunReplays(h, st1, values[1..], hvxStatus);
      ReplayCons(st.regAdc, values, st.connHandle, h.adc, AdcBytes, hvxStatus);
      var rest := Replay(st1.regAdc, values[1..], st.connHandle, h.adc, AdcBytes, hvxStatus);
      assert st.effects + r.effects + rest == st.effects + (r.effects + rest);
    }
  }

  /** A run of RSSI updates appends to the trace exactly what Replay describes
      for the RSSI characteristic, gated on the RSSI shadow. */
  lemma {:induction false} RssiRunReplays(h: Handles, st: Shadows, values: seq<bv8>, hvxStatus: Status)
    ensures RssiRun(h, st, values, hvxStatus).effects
         == st.effects + Replay(st.regRssi, values, st.connHandle, h.rssi, RssiBytes, hvxStatus)
    decreases |values|
  {
    if values == [] {
      assert st.effects + [] == st.effects;
    } else {
      var v := values[0];
      var r := Sync(st.regRssi, v, st.connHandle, h.rssi, RssiBytes(v), Success, hvxStatus);
      var st1 := RssiUpdate(h, st, v, Success, hvxStatus).0;
      RssiStep(h, st, v, hvxStatus);
      RssiRunReplays(h, st1, values[1..], hvxStatus);
      ReplayCons(st.regRssi, values, st.connHandle, h.rssi, RssiBytes, hvxStatus);
      var rest := Replay(st1.regRssi, values[1..], st.connHandle, h.rssi, RssiBytes, hvxStatus);
      assert st.effects + r.effects + rest == st.effects + (r.effects + rest);
    }
  }

  /** Change gating of the ADC and RSSI updates themselves: over a run of
      updates with successful writes, each characteristic's database is
      written once per change of its value and notified as often while a
      link is up, never without one. */
  lemma AdcRunGating(h: Handles, st: Shadows, values: seq<bv16>, hvxStatus: Status)
    ensures var es := AdcRun(h, st, values, hvxStatus).effects;
            CountWrites(es) == CountWrites(st.effects) + Changes(st.regAdc, values) &&
            CountNotifications(es) == CountNotifications(st.effects) +
              (if st.connHandle == ConnHandleInvalid then 0 else Changes(st.regAdc, values))
  {
    AdcRunReplays(h, st, values, hvxStatus);
    ChangeGating(st.regAdc, values, st.connHandle, h.adc, AdcBytes, hvxStatus);
    CountAppend(st.effects, Replay(st.regAdc, values, st.connHandle, h.adc, AdcBytes, hvxStatus));
  }

  /** The same for the RSSI characteristic. */
  lemma RssiRunGating(h: Handles, st: Shadows, values: seq<bv8>, hvxStatus: Status)
    ensures var es := RssiRun(h, st, values, hvxStatus).effects;
            CountWrites(es) == CountWrites(st.effects) + Changes(st.regRssi, values) &&
            CountNotifications(es) == CountNotifications(st.effects) +
              (if st.connHandle == ConnHandleInvalid then 0 else Changes(st.regRssi, values))
  {
    RssiRunReplays(h, st, values, hvxStatus);
    ChangeGating(st.regRssi, values, st.connHandle, h.rssi, RssiBytes, hvxStatus);
    CountAppend(st.effects, Replay(st.regRssi, values, st.connHandle, h.rssi, RssiBytes, hvxStatus));
  }

  /** A repeated ADC value after a successful write is a no-op. */
  lemma AdcUpdateIdempotent(h: Handles, st: Shadows, v: bv16, hvx1: Status, set2: Status, hvx2: Status)
    ensures var st1 := AdcUpdate(h, st, v, Success, hvx1).0;
            AdcUpdate(h, st1, v, set2, hvx2) == (st1, Success)
  {
    var st1 := AdcUpdate(h, st, v, Success, hvx1).0;
    assert st1.effects + [] == st1.effects;
  }

  /** As written, the input gate never closes: regIn is never updated, so a
      value that differs from it writes the database on every call. */
  lemma InputUpdateNotIdempotent(h: Handles, st: Shadows, v: bv8, hvx1: Status, hvx2: Status)
    requires v != st.regIn
    ensures var st1 := InputUpdate(h, st, v, Success, hvx1).0;
            var st2 := InputUpdate(h, st1, v, Success, hvx2).0;
            CountWrites(st2.effects) == CountWrites(st.effects) + 2
  {
    var st1 := InputUpdate(h, st, v, Success, hvx1).0;
    var r1 := Sync(st.regIn, v, st.connHandle, h.input, [v], Success, hvx1);
    var r2 := Sync(st1.regIn, v, st1.connHandle, h.input, [v], Success, hvx2);
    CountAppend(st.effects, r1.effects);
    CountAppend(st1.effects, r2.effects);
    SyncCounts(st.regIn, v, st.connHandle, h.input, [v], Success, hvx1);
    SyncCounts(st1.regIn, v, st1.connHandle, h.input, [v], Success, hvx2);
  }

  /** As written, a successful input update overwrites the ADC shadow: a later
      ADC reading equal to the input value is then suppressed, although the
      ADC attribute still holds the earlier reading. */
  lemma InputUpdateClobbersAdcShadow(h: Handles, st: Shadows, v: bv8, hvx: Status,
                                     set2: Status, hvx2: Status)
    requires v != st.regIn
    ensures var st1 := InputUpdate(h, st, v, Success, hvx).0;
            st1.regAdc == v as bv16 &&
            AdcUpdate(h, st1, v as bv16, set2, hvx2) == (st1, Success)
  {
    var st1 := InputUpdate(h, st, v, Success, hvx).0;
    assert st1.effects + [] == st1.effects;
  }

  /** The service structure ble_sq_t. */
  class Service {
    const handles: Handles
    /** the values the attribute database was created with */
    const initValues: InitValues
    var regIn: bv8
    var regAdc: bv16
    var regRssi: bv8
    var connHandle: bv16
    /** every database write and notification, oldest first */
    var effects: seq<Effect>

    function State(): Shadows
      reads this
    {
      Shadows(regIn, regAdc, regRssi, connHandle, effects)
    }

    /** The state ble_sqs_init leaves behind: the initial values go into the
        attribute database only, the shadows keep the zero of the static
        structure, and no link is up. */
    constructor (init: InitValues, handles: Handles)
      ensures this.handles == handles && initValues == init
      ensures State() == Shadows(0, 0, 0, ConnHandleInvalid, [])
    {
      this.handles := handles;
      initValues := init;
      regIn, regAdc, regRssi := 0, 0, 0;
      connHandle := ConnHandleInvalid;
      effects := [];
    }

    /** on_connect: remember the connection handle of the event. */
    method OnConnect(conn: bv16)
      modifies this`connHandle
      ensures connHandle == conn
    {
      connHandle := conn;
    }

    /** on_disconnect: no link any more. */
    method OnDisconnect()
      modifies this`connHandle
      ensures connHandle == ConnHandleInvalid
    {
      connHandle := ConnHandleInvalid;
    }

    /** on_write: a one-byte write to the out1 value is applied to output
        register 1 by my_gpio_out_change_state; any other write is ignored. */
    method OnWrite(handle: bv16, data: seq<bv8>, gpio: GpioManager.Gpio)
      requires gpio.Valid()
      modifies gpio`outputReg1, gpio`pinWrites
      ensures gpio.Valid()
      ensures handle == handles.out1 && |data| == 1 ==>
        gpio.outputReg1 == GpioManager.Reg1After(old(gpio.outputReg1), data[0]) &&
        gpio.pinWrites == old(gpio.pinWrites) + GpioManager.DiffWrites(old(gpio.outputReg1), data[0], 8)
      ensures !(handle == handles.out1 && |data| == 1) ==>
        gpio.outputReg1 == old(gpio.outputReg1) && gpio.pinWrites == old(gpio.pinWrites)
    {
      if handle == handles.out1 && |data| == 1 {
        gpio.OutChangeState(GpioManager.GpioOutReg1, data[0]);
      }
    }

    /** ble_sqs_on_ble_evt: dispatch to on_connect, on_disconnect and
        on_write; every other event changes nothing. */
    method OnBleEvt(ev: BleEvent, gpio: GpioManager.Gpio)
      requires gpio.Valid()
      modifies this`connHandle, gpio`outputReg1, gpio`pinWrites
      ensures gpio.Valid()
      ensures ev.Connected? ==> connHandle == ev.connHandle
      ensures ev.Disconnected? ==> connHandle == ConnHandleInvalid
      ensures !ev.Connected? && !ev.Disconnected? ==> connHandle == old(connHandle)
      ensures ev.GattsWrite? && ev.handle == handles.out1 && |ev.data| == 1 ==>
        gpio.outputReg1 == GpioManager.Reg1After(old(gpio.outputReg1), ev.data[0]) &&
        gpio.pinWrites == old(gpio.pinWrites) + GpioManager.DiffWrites(old(gpio.outputReg1), ev.data[0], 8)
      ensures !(ev.GattsWrite? && ev.handle == handles.out1 && |ev.data| == 1) ==>
        gpio.outputReg1 == old(gpio.outputReg1) && gpio.pinWrites == old(gpio.pinWrites)
    {
      match ev
      case Connected(conn) => OnConnect(conn);
      case Disconnected => OnDisconnect();
      case GattsWrite(handle, data) => OnWrite(handle, data, gpio);
      case OtherEvent =>
    }
  }

  /** sqs_update_adc_characteristic: NRF_ERROR_NULL for a null service, which
      then changes nothing; otherwise the update AdcUpdate describes. */
  method UpdateAdcCharacteristic(s: Service?, adcValue: bv16, setStatus: Status, hvxStatus: Status)
    returns (err: Status)
    modifies s
    ensures s == null ==> err == ErrorNull
    ensures s != null ==> (s.State(), err) == AdcUpdate(s.handles, old(s.State()), adcValue, setStatus, hvxStatus)
  {
    if s != null {
      if s.regAdc != adcValue {
        var bytes := AdcBytes(adcValue);
        s.effects := s.effects + [DbWrite(s.connHandle, s.handles.adc, bytes)];
        if setStatus == Success {
          s.regAdc := adcValue;
        } else {
          return setStatus;
        }
        if s.connHandle != ConnHandleInvalid {
          s.effects := s.effects + [Notification(s.connHandle, s.handles.adc, 0, bytes)];
          assert s.effects == old(s.effects) + [DbWrite(s.connHandle, s.handles.adc, bytes), Notification(s.connHandle, s.handles.adc, 0, bytes)];
          return hvxStatus;
        } else {
          err := ErrorInvalidState;
        }
        return err;
      }
      assert s.effects == old(s.effects) + [];
      return Success;
    } else {
      return ErrorNull;
    }
  }

  /** sqs_update_input_characteristic, as written (see InputUpdate). */
  method UpdateInputCharacteristic(s: Service?, value: bv8, setStatus: Status, hvxStatus: Status)
    returns (err: Status)
    modifies s
    ensures s == null ==> err == ErrorNull
    ensures s != null ==> (s.State(), err) == InputUpdate(s.handles, old(s.State()), value, setStatus, hvxStatus)
  {
    if s != null {
      if s.regIn != value {
        s.effects := s.effects + [DbWrite(s.connHandle, s.handles.input, [value])];
        if setStatus == Success {
          s.regAdc := value as bv16;
        } else {
          return setStatus;
        }
        if s.connHandle != ConnHandleInvalid {
          s.effects := s.effects + [Notification(s.connHandle, s.handles.input, 0, [value])];
          assert s.effects == old(s.effects) + [DbWrite(s.connHandle, s.handles.input, [value]), Notification(s.connHandle, s.handles.input, 0, [value])];
          return hvxStatus;
        } else {
          err := ErrorInvalidState;
        }
        return err;
      }
      assert s.effects == old(s.effects) + [];
      return Success;
    } else {
      return ErrorNull;
    }
  }

  /** sqs_update_rssi_characteristic (see RssiUpdate). */
  method UpdateRssiCharacteristic(s: Service?, value: bv8, setStatus: Status, hvxStatus: Status)
    returns (err: Status)
    modifies s
    ensures s == null ==> err == ErrorNull
    ensures s != null ==> (s.State(), err) == RssiUpdate(s.handles, old(s.State()), value, setStatus, hvxStatus)
  {
    if s != null {
      if s.regRssi != value {
        s.effects := s.effects + [DbWrite(s.connHandle, s.handles.rssi, [value])];
        if setStatus == Success {
          s.regRssi := value;
        } else {
          return setStatus;
        }
        if s.connHandle != ConnHandleInvalid {
          s.effects := s.effects + [Notification(s.connHandle, s.handles.rssi, 0, [value])];
          assert s.effects == old(s.effects) + [DbWrite(s.connHandle, s.handles.rssi, [value]), Notification(s.connHandle, s.handles.rssi, 0, [value])];
          return hvxStatus;
        } else {
          err := ErrorInvalidState;
        }
        return err;
      }
      assert s.effects == old(s.effects) + [];
      return Success;
    } else {
      return ErrorNull;
    }
  }
}

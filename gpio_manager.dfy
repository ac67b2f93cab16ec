/** The GPIO register bank of the board (my_gpio_manager.c): two output
    registers and one input register, the LED blinking state machine and the
    two-stage button classifier.

    Timers are modelled by what they are armed with (Timer), the edge
    interrupt of the button pin by a flag, and every physical pin write is
    appended to a trace. The publication of the input register to the sq
    service is appended to the trace `published`; what the service then does
    with it is SqService.UpdateInputCharacteristic. */
module GpioManager {

  // custom_board.h
  /** LED_BIT_NUMBER: the LED state lives in bit 4 of output register 2. */
  const LedBit: bv8 := 0x10
  /** BUT_SHORT_BIT_NUMBER and BUT_LONG_BIT_NUMBER: bits 0 and 1 of the input register. */
  const ButShortBit: bv8 := 0x01
  const ButLongBit: bv8 := 0x02
  const ButtonPin: nat := 26
  const LedPin: nat := 25
  /** ADC_INPUT_HIGH_SIDE_PIN_NUMBER and ADC_INPUT_LOW_SIDE_PIN_NUMBER */
  const AdcHighSidePin: nat := 24
  const AdcLowSidePin: nat := 19
  /** LEDS_ACTIVE_STATE */
  const LedsActiveState: nat := 1

  // my_gpio_manager.h, in milliseconds
  const LedFastInterval: nat := 250
  const LedSlowInterval: nat := 1000
  const LedAdvertisingInterval: nat := 500
  const LedConnectedInterval: nat := 750
  const ButShortInterval: nat := 100
  const ButLongInterval: nat := 250

  /** gpio_out_regs_t */
  const GpioOutReg1: nat := 0
  const GpioOutReg2: nat := 1

  /** out_reg1_pin_numbers: the pin driven by each bit of output register 1. */
  const OutReg1Pins: seq<nat> := [28, 0, 0, 0, 0, 0, 0, 0]

  /** led_indication_state_t */
  datatype Indication = NotIndication | FastBlink | SlowBlink | Advertising | Connected

  /** nrf_gpiote_polarity_t */
  datatype Polarity = LoToHi | HiToLo | Toggle

  /** An application timer: stopped, or armed with an interval in milliseconds. */
  datatype Timer = Stopped | Running(interval: nat)

  /** One nrf_gpio_pin_write(pin, level). */
  datatype PinWrite = PinWrite(pin: nat, level: nat)

  /** The interval the LED timer is armed with in each blinking mode. */
  function IndicationInterval(mode: Indication): (ms: nat)
    requires mode != NotIndication
    ensures ms in {LedFastInterval, LedSlowInterval, LedAdvertisingInterval, LedConnectedInterval}
  {
    match mode
    case FastBlink => LedFastInterval
    case SlowBlink => LedSlowInterval
    case Advertising => LedAdvertisingInterval
    case Connected => LedConnectedInterval
  }

  /** The mask `1 << i` of bit i. */
  function Bit(i: nat): bv8
    requires i < 8
  {
    (1 as bv8) << i
  }

  /** The mask of bits 0 .. i-1. */
  function LowMask(i: nat): bv8
    requires i <= 8
  {
    [0x00, 0x01, 0x03, 0x07, 0x0F, 0x1F, 0x3F, 0x7F, 0xFF][i]
  }

  /** Output register 1 after my_gpio_out_change_state(GPIO_OUT_REG1, n) as
      written: bit 0 follows n, a bit above 0 that differs from n is cleared
      (the masked bit is compared with 1, which only bit 0 can equal), and a
      bit that already agrees is kept. */
  function Reg1After(reg: bv8, n: bv8): (r: bv8)
    ensures r & 1 == n & 1
    ensures forall i :: 0 < i < 8 ==> Bit(i) & r == Bit(i) & reg & n
  {
    (reg & n & 0xFE) | (n & 1)
  }

  /** Register 1 part way through the change loop: bits below i already
      updated, the others as they were. */
  function Reg1Partial(reg: bv8, n: bv8, i: nat): bv8
    requires i <= 8
  {
    Mix(Reg1After(reg, n), reg, LowMask(i))
  }

  /** The bits of `upd` under mask m, the bits of `keep` elsewhere. */
  function Mix(upd: bv8, keep: bv8, m: bv8): bv8
  {
    (upd & m) | (keep & !m)
  }

  /** One iteration of the change loop on bit i. */
  function ChangeBit(cur: bv8, n: bv8, i: nat): bv8
    requires i < 8
  {
    ChangeMasked(cur, n, Bit(i))
  }

  /** The loop body on the bit under mask b: a differing bit is set when the
      masked bit of n equals 1 and cleared otherwise. */
  function ChangeMasked(cur: bv8, n: bv8, b: bv8): bv8
  {
    if b & cur != b & n then
      (if b & n == 1 then cur | b else cur & !b)
    else cur
  }

  /** An iteration on bit i sees bit i as it was before the loop and moves the
      register from Reg1Partial(i) to Reg1Partial(i + 1). */
  lemma ChangeBitStep(reg: bv8, n: bv8, i: nat)
    requires i < 8
    ensures Bit(i) & Reg1Partial(reg, n, i) == Bit(i) & reg
    ensures ChangeBit(Reg1Partial(reg, n, i), n, i) == Reg1Partial(reg, n, i + 1)
    ensures BitWrite(Reg1Partial(reg, n, i), n, i) == BitWrite(reg, n, i)
  {
    MaskFacts(i);
    StepBits(reg, n, Bit(i), LowMask(i), LowMask(i + 1));
    BitWriteOnBit(Reg1Partial(reg, n, i), reg, n, i);
  }

  /** The step on the masks alone, for a single bit b whose lower bits lo are
      already updated: bit b is still as it was, and the loop body on it
      extends the updated bits to hi. */
  lemma StepBits(reg: bv8, n: bv8, b: bv8, lo: bv8, hi: bv8)
    requires b in {0x01, 0x02, 0x04, 0x08, 0x10, 0x20, 0x40, 0x80}
    requires lo == b - 1 && hi == lo | b
    ensures b & Mix(Reg1After(reg, n), reg, lo) == b & reg
    ensures ChangeMasked(Mix(Reg1After(reg, n), reg, lo), n, b) == Mix(Reg1After(reg, n), reg, hi)
  {
    if b == 0x01 {} else if b == 0x02 {} else if b == 0x04 {} else if b == 0x08 {}
    else if b == 0x10 {} else if b == 0x20 {} else if b == 0x40 {} else {}
  }

  /** Bit i is a single bit, the bits below it are one less, and the mask of
      bits below i + 1 is that of the bits below i plus bit i. */
  lemma MaskFacts(i: nat)
    requires i < 8
    ensures Bit(i) in {0x01, 0x02, 0x04, 0x08, 0x10, 0x20, 0x40, 0x80}
    ensures LowMask(i) == Bit(i) - 1 && LowMask(i + 1) == LowMask(i) | Bit(i)
  {
    if i == 0 {} else if i == 1 {} else if i == 2 {} else if i == 3 {}
    else if i == 4 {} else if i == 5 {} else if i == 6 {} else {}
  }

  /** The pin write for bit i depends on the register only through bit i. */
  lemma BitWriteOnBit(c1: bv8, c2: bv8, n: bv8, i: nat)
    requires i < 8 && Bit(i) & c1 == Bit(i) & c2
    ensures BitWrite(c1, n, i) == BitWrite(c2, n, i)
  {
  }

  /** The level the change loop writes to the pin of a differing bit i. */
  function ChangeLevel(n: bv8, i: nat): nat
    requires i < 8
  {
    if i == 0 && n & 1 == 1 then 1 else 0
  }

  /** The level written for bit i is 1 exactly when the masked bit equals 1. */
  lemma ChangeLevelAsWritten(n: bv8, i: nat)
    requires i < 8
    ensures ChangeLevel(n, i) == if Bit(i) & n == 1 then 1 else 0
  {
    if i == 0 {} else if i == 1 {} else if i == 2 {} else if i == 3 {}
    else if i == 4 {} else if i == 5 {} else if i == 6 {} else {}
  }

  /** The pin write of the change loop for bit i: one write, to the bit's
      pin, when reg and n differ there. */
  function BitWrite(reg: bv8, n: bv8, i: nat): (w: seq<PinWrite>)
    requires i < 8
    ensures |w| <= 1 && (w != [] <==> Bit(i) & reg != Bit(i) & n)
    ensures w != [] ==> w[0].pin == OutReg1Pins[i] && (w[0].level == 1 <==> i == 0 && n & 1 == 1)
  {
    if Bit(i) & reg != Bit(i) & n then [PinWrite(OutReg1Pins[i], ChangeLevel(n, i))] else []
  }

  /** The pin writes of the change loop over bits 0 .. k-1, in bit order. */
  function DiffWrites(reg: bv8, n: bv8, k: nat): (w: seq<PinWrite>)
    requires k <= 8
    ensures |w| <= k
  {
    if k == 0 then [] else DiffWrites(reg, n, k - 1) + BitWrite(reg, n, k - 1)
  }

  /** A write to register 1 that agrees with it bit for bit drives no pin. */
  lemma {:induction false} DiffWritesNone(reg: bv8, k: nat)
    requires k <= 8
    ensures DiffWrites(reg, reg, k) == []
  {
    if k > 0 {
      DiffWritesNone(reg, k - 1);
    }
  }

  /** Only bit 0 can drive a pin high: every pin write of the change loop is
      to the pin of a differing bit, and a write that is not low is the write
      of pin 28 for a value with bit 0 set. */
  lemma {:induction false} DiffWritesLevels(reg: bv8, n: bv8, k: nat)
    requires k <= 8
    ensures forall w :: w in DiffWrites(reg, n, k) ==> w.pin in OutReg1Pins[..k]
    ensures forall w :: w in DiffWrites(reg, n, k) && w.level != 0 ==> w == PinWrite(28, 1) && n & 1 == 1
  {
    if k > 0 {
      DiffWritesLevels(reg, n, k - 1);
      assert OutReg1Pins[..k] == OutReg1Pins[..k - 1] + [OutReg1Pins[k - 1]];
    }
  }

  /** Bit i of reg and of n differ. */
  predicate Differs(reg: bv8, n: bv8, i: nat)
    requires i < 8
  {
    Bit(i) & reg != Bit(i) & n
  }

  /** The bits of register 1 where reg and n differ, below bit k. */
  function DiffBits(reg: bv8, n: bv8, k: nat): (d: set<nat>)
    requires k <= 8
    ensures forall i: nat :: i in d <==> i < k && Differs(reg, n, i)
  {
    if k == 0 then {}
    else DiffBits(reg, n, k - 1) + (if Differs(reg, n, k - 1) then {k - 1} else {})
  }

  /** The change loop drives each differing bit's pin exactly once, in bit
      order: there are as many pin writes as differing bits, and the write
      for differing bit i, to its pin with the level the loop chooses, comes
      after those of the differing bits below i. */
  lemma {:induction false} DiffWritesPerBit(reg: bv8, n: bv8, k: nat)
    requires k <= 8
    ensures |DiffWrites(reg, n, k)| == |DiffBits(reg, n, k)|
    ensures forall i :: i in DiffBits(reg, n, k) ==>
              |DiffBits(reg, n, i)| < |DiffWrites(reg, n, k)| &&
              DiffWrites(reg, n, k)[|DiffBits(reg, n, i)|] == PinWrite(OutReg1Pins[i], ChangeLevel(n, i))
  {
    if k > 0 {
      var j := k - 1;
      DiffWritesPerBit(reg, n, j);
      DiffBitsStep(reg, n, j);
      BitWriteDiffers(reg, n, j);
      var front, last := DiffWrites(reg, n, j), BitWrite(reg, n, j);
      assert DiffWrites(reg, n, k) == front + last;
      forall i | i in DiffBits(reg, n, k)
        ensures |DiffBits(reg, n, i)| < |front + last|
        ensures (front + last)[|DiffBits(reg, n, i)|] == PinWrite(OutReg1Pins[i], ChangeLevel(n, i))
      {
        if i < j {
          assert i in DiffBits(reg, n, j);
        }
      }
    }
  }

  /** Going from bit j to bit j + 1 adds bit j to the differing bits exactly
      when it differs. */
  lemma DiffBitsStep(reg: bv8, n: bv8, j: nat)
    requires j < 8
    ensures Differs(reg, n, j) ==>
              DiffBits(reg, n, j + 1) == DiffBits(reg, n, j) + {j} &&
              |DiffBits(reg, n, j + 1)| == |DiffBits(reg, n, j)| + 1
    ensures !Differs(reg, n, j) ==> DiffBits(reg, n, j + 1) == DiffBits(reg, n, j)
  {
    assert j !in DiffBits(reg, n, j);
  }

  /** The change loop writes bit j's pin exactly when bit j differs. */
  lemma BitWriteDiffers(reg: bv8, n: bv8, j: nat)
    requires j < 8
    ensures Differs(reg, n, j) ==> BitWrite(reg, n, j) == [PinWrite(OutReg1Pins[j], ChangeLevel(n, j))]
    ensures !Differs(reg, n, j) ==> BitWrite(reg, n, j) == []
  {
  }

  /** Applying the same value to register 1 twice leaves it as one application does. */
  lemma Reg1AfterIdempotent(reg: bv8, n: bv8)
    ensures Reg1After(Reg1After(reg, n), n) == Reg1After(reg, n)
  {
  }

  /** Bits above 0 of register 1 are never set by a write: once they are all
      zero they stay zero. */
  lemma Reg1AfterHighBitsCleared(reg: bv8, n: bv8)
    ensures Reg1After(reg, n) & 0xFE == reg & n & 0xFE
    ensures reg & 0xFE == 0 ==> Reg1After(reg, n) & 0xFE == 0
  {
  }

  /** Writing 1 to a cleared register 1 drives pin 28 high and sets bit 0;
      repeating the write drives no pin. */
  lemma Bit0WriteScenario()
    ensures Reg1After(0, 1) == 1
    ensures DiffWrites(0, 1, 8) == [PinWrite(28, 1)]
    ensures DiffWrites(Reg1After(0, 1), 1, 8) == []
  {
    DiffWritesNone(1, 8);
  }

  /** As written, a write with bit 1 set is never absorbed: bit 1 stays
      clear, so repeating the write of 0x02 drives the pin of bit 1 low again
      each time. */
  lemma RepeatedBit1WriteDrivesPinAgain()
    ensures Reg1After(0, 2) == 0
    ensures DiffWrites(Reg1After(0, 2), 2, 8) == [PinWrite(0, 0)]
  {
  }

  /** The button classification of the second timer expiry as written
      (lines 140-158): with the pin high the long bit is set and the short bit
      cleared, with the pin low the short bit toggles and the long bit is
      cleared. */
  function Classify(input: bv8, pinLevel: nat): (r: bv8)
    ensures r & !(ButShortBit | ButLongBit) == input & !(ButShortBit | ButLongBit)
    ensures r & (ButShortBit | ButLongBit) != (ButShortBit | ButLongBit)
  {
    if pinLevel == 1 then
      (if input & ButLongBit == 1 then input & !ButLongBit else input | ButLongBit) & !ButShortBit
    else
      (if input & ButShortBit == 1 then input & !ButShortBit else input | ButShortBit) & !ButLongBit
  }

  /** The long bit is compared with 1 but its mask is 2, so the long branch
      always sets it; the short bit's comparison works and toggles it. After a
      classification the two bits are never both set. */
  lemma ClassifyAsWritten(input: bv8, pinLevel: nat)
    ensures pinLevel == 1 ==> Classify(input, pinLevel) == (input | ButLongBit) & !ButShortBit
    ensures pinLevel != 1 ==> Classify(input, pinLevel) == (input ^ ButShortBit) & !ButLongBit
    ensures Classify(input, pinLevel) & (ButShortBit | ButLongBit) != (ButShortBit | ButLongBit)
  {
  }

  /** The global gpio_state, button_short_pres_made_flag, the two timers and
      the button edge interrupt. */
  class Gpio {
    var outputReg1: bv8
    var outputReg2: bv8
    var inputReg: bv8
    /** button_short_pres_made_flag */
    var shortPressMade: bool
    /** whether the edge event of the button pin is enabled */
    var buttonEdgeEnabled: bool
    /** m_button_timer_id, single shot */
    var buttonTimer: Timer
    /** m_led_timer_id, repeated */
    var ledTimer: Timer
    /** every nrf_gpio_pin_write, oldest first */
    var pinWrites: seq<PinWrite>
    /** every value passed to sq_service_update_input_characteristic, oldest first */
    var published: seq<bv8>

    /** Waiting for a press: the edge interrupt is on and no classification is in flight. */
    ghost predicate Idle()
      reads this
    {
      buttonEdgeEnabled && !shortPressMade && buttonTimer == Stopped
    }

    /** First stage: the edge came, the short timer runs. */
    ghost predicate Debouncing()
      reads this
    {
      !buttonEdgeEnabled && !shortPressMade && buttonTimer == Running(ButShortInterval)
    }

    /** Second stage: the pin read high at the first expiry, the long timer runs. */
    ghost predicate AwaitingLong()
      reads this
    {
      !buttonEdgeEnabled && shortPressMade && buttonTimer == Running(ButLongInterval)
    }

    /** The classifier is in exactly one of its three phases, the edge interrupt
        is off while a classification is in flight, the reserved bits of the
        input register and of output register 2 stay zero, short and long are
        never both set, and output register 1 never gets a bit above 0. */
    ghost predicate Valid()
      reads this
    {
      (Idle() || Debouncing() || AwaitingLong()) &&
      inputReg & !(ButShortBit | ButLongBit) == 0 &&
      inputReg & (ButShortBit | ButLongBit) != (ButShortBit | ButLongBit) &&
      outputReg1 & 0xFE == 0 &&
      outputReg2 & !LedBit == 0
    }

    /** get_led_state */
    predicate LedState()
      reads this
      ensures LedState() <==> outputReg2 & LedBit == LedBit
    {
      LedBit & outputReg2 != 0
    }

    /** The state after my_gpio_init on the zero-initialised globals: the LED
        switched off, the high side of the ADC input driven high and the low
        side low, and the button edge event enabled. */
    constructor ()
      ensures Valid() && Idle()
      ensures outputReg1 == 0 && outputReg2 == 0 && inputReg == 0
      ensures ledTimer == Stopped && published == []
      ensures pinWrites == [PinWrite(LedPin, 0), PinWrite(AdcHighSidePin, 1), PinWrite(AdcLowSidePin, 0)]
    {
      outputReg1, outputReg2, inputReg := 0, 0, 0;
      shortPressMade := false;
      buttonTimer, ledTimer := Stopped, Stopped;
      pinWrites, published := [], [];
      buttonEdgeEnabled := true;
      new;
      LedOff();
      // the two sides of the ADC input divider
      pinWrites := pinWrites + [PinWrite(AdcHighSidePin, 1), PinWrite(AdcLowSidePin, 0)];
    }

    /** led_on: set the LED bit and drive the LED pin active. */
    method LedOn()
      requires Valid()
      modifies this`outputReg2, this`pinWrites
      ensures Valid()
      ensures outputReg2 == old(outputReg2) | LedBit && LedState()
      ensures pinWrites == old(pinWrites) + [PinWrite(LedPin, LedsActiveState)]
    {
      outputReg2 := outputReg2 | LedBit;
      pinWrites := pinWrites + [PinWrite(LedPin, if LedsActiveState != 0 then 1 else 0)];
    }

    /** led_off: clear the LED bit and drive the LED pin inactive. */
    method LedOff()
      requires Valid()
      modifies this`outputReg2, this`pinWrites
      ensures Valid()
      ensures outputReg2 == old(outputReg2) & !LedBit && !LedState()
      ensures pinWrites == old(pinWrites) + [PinWrite(LedPin, 0)]
    {
      outputReg2 := outputReg2 & !LedBit;
      pinWrites := pinWrites + [PinWrite(LedPin, if LedsActiveState != 0 then 0 else 1)];
    }

    /** led_timer_callback: every tick of the LED timer flips the LED bit and
        nothing else of the register. */
    method LedTimerCallback()
      requires Valid()
      modifies this`outputReg2, this`pinWrites
      ensures Valid()
      ensures outputReg2 == old(outputReg2) ^ LedBit
      ensures LedState() == !old(LedState())
      ensures pinWrites == old(pinWrites) + [PinWrite(LedPin, if old(LedState()) then 0 else 1)]
    {
      if LedState() {
        LedOff();
      } else {
        LedOn();
      }
    }

    /** led_indicate_manage: NOT_INDICATION stops the LED timer and switches the
        LED off; a blinking mode starts the repeated timer with its interval
        and changes no register. No stop precedes that start, and a start on a
        timer that is already running is ignored, so a running LED timer keeps
        the interval it was started with until NOT_INDICATION stops it. */
    method LedIndicateManage(mode: Indication)
      requires Valid()
      modifies this`ledTimer, this`outputReg2, this`pinWrites
      ensures Valid()
      ensures mode == NotIndication ==>
        ledTimer == Stopped && outputReg2 == old(outputReg2) & !LedBit &&
        pinWrites == old(pinWrites) + [PinWrite(LedPin, 0)]
      ensures mode != NotIndication && old(ledTimer) == Stopped ==>
        ledTimer == Running(IndicationInterval(mode))
      ensures mode != NotIndication && old(ledTimer).Running? ==> ledTimer == old(ledTimer)
      ensures mode != NotIndication ==> outputReg2 == old(outputReg2) && pinWrites == old(pinWrites)
    {
      match mode
      case NotIndication =>
        ledTimer := Stopped;
        LedOff();
      case FastBlink =>
        StartLedTimer(LedFastInterval);
      case SlowBlink =>
        StartLedTimer(LedSlowInterval);
      case Advertising =>
        StartLedTimer(LedAdvertisingInterval);
      case Connected =>
        StartLedTimer(LedConnectedInterval);
    }

    /** app_timer_start on the repeated LED timer: a stopped timer starts with
        the interval, a running one is left as it is. */
    method StartLedTimer(interval: nat)
      modifies this`ledTimer
      ensures old(ledTimer) == Stopped ==> ledTimer == Running(interval)
      ensures old(ledTimer).Running? ==> ledTimer == old(ledTimer)
    {
      if ledTimer == Stopped {
        ledTimer := Running(interval);
      }
    }

    /** button_event_handler: a falling edge on the button pin disables the
        edge event and arms the button timer with the short interval; any
        other pin or polarity changes nothing. The driver delivers a button
        edge only while its event is enabled. */
    method ButtonEventHandler(pin: nat, action: Polarity)
      requires Valid()
      requires pin == ButtonPin ==> buttonEdgeEnabled
      modifies this`buttonEdgeEnabled, this`buttonTimer
      ensures Valid()
      ensures pin == ButtonPin && action == HiToLo ==> Debouncing()
      ensures !(pin == ButtonPin && action == HiToLo) ==>
        buttonEdgeEnabled == old(buttonEdgeEnabled) && buttonTimer == old(buttonTimer)
    {
      if pin == ButtonPin {
        if action == HiToLo {
          buttonEdgeEnabled := false;
          buttonTimer := Running(ButShortInterval);
        }
      }
    }

    /** buton_timer_callback, called when the single-shot button timer has
        fired; pinLevel is what nrf_gpio_pin_read returns for the button pin.

        First expiry: a high pin arms the long interval and keeps the edge off,
        a low pin re-enables the edge; no register changes and nothing is
        published. Second expiry: the flag is reset, the input register is
        classified (see Classify), published once, and the edge re-enabled. */
    method ButtonTimerCallback(pinLevel: nat)
      requires Valid() && (Debouncing() || AwaitingLong())
      requires pinLevel <= 1
      modifies this`shortPressMade, this`buttonEdgeEnabled, this`buttonTimer, this`inputReg, this`published
      ensures Valid()
      ensures !old(shortPressMade) ==> inputReg == old(inputReg) && published == old(published)
      ensures !old(shortPressMade) && pinLevel == 1 ==> AwaitingLong()
      ensures !old(shortPressMade) && pinLevel == 0 ==> Idle()
      ensures old(shortPressMade) ==> Idle() && published == old(published) + [inputReg]
      ensures old(shortPressMade) && pinLevel == 1 ==> inputReg == (old(inputReg) | ButLongBit) & !ButShortBit
      ensures old(shortPressMade) && pinLevel == 0 ==> inputReg == (old(inputReg) ^ ButShortBit) & !ButLongBit
      ensures old(shortPressMade) ==> inputReg == Classify(old(inputReg), pinLevel)
    {
      buttonTimer := Stopped;
      if !shortPressMade {
        if pinLevel == 1 {
          shortPressMade := true;
          buttonTimer := Running(ButLongInterval);
        } else {
          buttonEdgeEnabled := true;
        }
      } else {
        shortPressMade := false;
        var reg := inputReg;
        if pinLevel == 1 {
          if reg & ButLongBit == 1 {
            reg := reg & !ButLongBit;
          } else {
            reg := reg | ButLongBit;
          }
          reg := reg & !ButShortBit;
        } else {
          if reg & ButShortBit == 1 {
            reg := reg & !ButShortBit;
          } else {
            reg := reg | ButShortBit;
          }
          reg := reg & !ButLongBit;
        }
        inputReg := reg;
        published := published + [inputReg];
        buttonEdgeEnabled := true;
      }
    }

    /** The body of the change loop for bit i: a bit that differs from
        newState is set (if the masked bit equals 1) or cleared, and its pin
        written accordingly. */
    method ChangeOneBit(i: nat, newState: bv8)
      requires i < 8
      modifies this`outputReg1, this`pinWrites
      ensures outputReg1 == ChangeBit(old(outputReg1), newState, i)
      ensures pinWrites == old(pinWrites) + BitWrite(old(outputReg1), newState, i)
    {
      ChangeLevelAsWritten(newState, i);
      var b := Bit(i);
      if b & outputReg1 != b & newState {
        if b & newState == 1 {
          outputReg1 := outputReg1 | b;
          pinWrites := pinWrites + [PinWrite(OutReg1Pins[i], 1)];
        } else {
          outputReg1 := outputReg1 & !b;
          pinWrites := pinWrites + [PinWrite(OutReg1Pins[i], 0)];
        }
      }
    }

    /** The loop of my_gpio_out_change_state over the eight bits of register 1. */
    method ChangeReg1(newState: bv8)
      modifies this`outputReg1, this`pinWrites
      ensures outputReg1 == Reg1Partial(old(outputReg1), newState, 8)
      ensures pinWrites == old(pinWrites) + DiffWrites(old(outputReg1), newState, 8)
    {
      var i: nat := 0;
      while i < 8
        invariant i <= 8
        invariant outputReg1 == Reg1Partial(old(outputReg1), newState, i)
        invariant pinWrites == old(pinWrites) + DiffWrites(old(outputReg1), newState, i)
      {
        ChangeBitStep(old(outputReg1), newState, i);
        ChangeOneBit(i, newState);
        i := i + 1;
      }
    }

    /** my_gpio_out_change_state: for register 1, every bit where the register
        differs from newState gets exactly one pin write, to its pin, in bit
        order, and the register becomes Reg1After(old, newState); register 2
        and any other number change nothing. */
    method OutChangeState(regNumber: nat, newState: bv8)
      requires Valid()
      modifies this`outputReg1, this`pinWrites
      ensures Valid()
      ensures regNumber == GpioOutReg1 ==>
        outputReg1 == Reg1After(old(outputReg1), newState) &&
        pinWrites == old(pinWrites) + DiffWrites(old(outputReg1), newState, 8)
      ensures regNumber != GpioOutReg1 ==>
        outputReg1 == old(outputReg1) && pinWrites == old(pinWrites)
    {
      if regNumber == GpioOutReg1 {
        Reg1AfterHighBitsCleared(outputReg1, newState);
        ChangeReg1(newState);
      } else if regNumber == GpioOutReg2 {
        // register 2 is not implemented in the firmware
      }
    }
  }

  /** A press released before the first expiry: the pin reads high at both
      expiries, so the first expiry takes the path commented as a detected
      short push and arms the long timer, and the second classifies the
      press as long. */
  method ReleasedPressClassifiedLong() returns (g: Gpio)
    ensures g.Valid() && g.Idle()
    ensures g.inputReg == ButLongBit && g.published == [ButLongBit]
  {
    g := new Gpio();
    g.ButtonEventHandler(ButtonPin, HiToLo);
    g.ButtonTimerCallback(1);
    g.ButtonTimerCallback(1);
  }

  /** A press still held at the first expiry: the pin reads low, the edge
      event is re-enabled and nothing is classified or published. */
  method HeldPressPublishesNothing() returns (g: Gpio)
    ensures g.Valid() && g.Idle()
    ensures g.inputReg == 0 && g.published == []
  {
    g := new Gpio();
    g.ButtonEventHandler(ButtonPin, HiToLo);
    g.ButtonTimerCallback(0);
  }

  /** A direct switch from fast to slow blinking keeps the fast interval: the
      second start finds the LED timer running. */
  method BlinkSwitchKeepsInterval() returns (g: Gpio)
    ensures g.Valid()
    ensures g.ledTimer == Running(LedFastInterval) && g.ledTimer != Running(LedSlowInterval)
  {
    g := new Gpio();
    g.LedIndicateManage(FastBlink);
    g.LedIndicateManage(SlowBlink);
  }

  /** Two short presses from start-up: the first sets the short bit and
      publishes it, the second toggles it off and publishes 0. */
  method TwoShortPresses() returns (g: Gpio)
    ensures g.Valid() && g.Idle()
    ensures g.inputReg == 0 && g.published == [ButShortBit, 0]
  {
    g := new Gpio();
    g.ButtonEventHandler(ButtonPin, HiToLo);
    g.ButtonTimerCallback(1);
    g.ButtonTimerCallback(0);
    g.ButtonEventHandler(ButtonPin, HiToLo);
    g.ButtonTimerCallback(1);
    g.ButtonTimerCallback(0);
  }
}

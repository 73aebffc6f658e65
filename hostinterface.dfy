// The host side of the register bank (avr/registers.c): what a read by the
// host refreshes before it returns a register, and the side effect table of a
// host write. The pins sampled by a read are parameters; the outcome of the
// charge-timer bus write is a parameter; hardware writes are returned as
// effects.

module HostInterface {
  import opened Bytes
  import opened Registers
  import opened Board

  /** The input pins a host read samples (true = the pin reads high). */
  datatype Pins = Pins(buttonHigh: bool, optoHigh: bool, pgoodHigh: bool)

  const STATUS_SAMPLED: Byte := STATUS_BUTTON | STATUS_OPTO | STATUS_POWER_GOOD

  /** The STATUS register after a host read refreshes it: each of the three
      status bits is set exactly when its pin reads low (active low), and every
      other bit is kept. */
  function StatusSample(status: Byte, pins: Pins): (r: Byte)
    ensures AnyBit(r, STATUS_POWER_GOOD) <==> !pins.pgoodHigh
    ensures AnyBit(r, STATUS_BUTTON) <==> !pins.buttonHigh
    ensures AnyBit(r, STATUS_OPTO) <==> !pins.optoHigh
    ensures r & !STATUS_SAMPLED == status & !STATUS_SAMPLED
  {
    var withPower := WithBits(status, STATUS_POWER_GOOD, !pins.pgoodHigh);
    var withButton := WithBits(withPower, STATUS_BUTTON, !pins.buttonHigh);
    WithBits(withButton, STATUS_OPTO, !pins.optoHigh)
  }

  /** The register array after registers_host_read(index): STATUS is resampled,
      a SECONDS register is loaded with its byte of the running seconds counter,
      and nothing else is touched. */
  function ReadImage(regs: seq<Byte>, index: RegIndex, seconds: Word32, pins: Pins): (r: seq<Byte>)
    requires |regs| == NUM_REGISTERS
    ensures |r| == NUM_REGISTERS
    ensures forall j | 0 <= j < NUM_REGISTERS && j != index :: r[j] == regs[j]
    ensures IsSecondsRegister(index) ==> r[index] == ByteAt(seconds, index - REG_SECONDS_0)
    ensures index != REG_STATUS && !IsSecondsRegister(index) ==> r == regs
  {
    if index == REG_STATUS then regs[index := StatusSample(regs[index], pins)]
    else if IsSecondsRegister(index) then regs[index := ByteAt(seconds, index - REG_SECONDS_0)]
    else regs
  }

  /** The variables a host write may change. */
  datatype HostState = HostState(regs: seq<Byte>, seconds: Word32, rebootflag: bool)

  predicate WellFormed(h: HostState)
  {
    |h.regs| == NUM_REGISTERS
  }

  /** The charge current a host may store: at most 3 thirds of an ampere. */
  function ClampCurrent(data: Byte): (r: Byte)
    ensures r <= 3
    ensures data <= 3 ==> r == data
    ensures data > 3 ==> r == 3
  {
    if data > 3 then 3 else data
  }

  /** The charge time a host may store: 3 to 10 hours. */
  function ClampTimer(data: Byte): (r: Byte)
    ensures 3 <= r <= 10
    ensures 3 <= data <= 10 ==> r == data
    ensures data < 3 ==> r == 3
    ensures data > 10 ==> r == 10
  {
    if data < 3 then 3 else if data > 10 then 10 else data
  }

  /** The seconds counter as the little-endian value of SECONDS_0..3. */
  function SecondsOf(regs: seq<Byte>): Word32
    requires |regs| == NUM_REGISTERS
  {
    LittleEndian32(regs[REG_SECONDS_0], regs[REG_SECONDS_1], regs[REG_SECONDS_2], regs[REG_SECONDS_3])
  }

  /** The outputs a CONTROL write drives: chip enable and the two LEDs. */
  function ControlEffects(data: Byte): seq<Effect>
  {
    [ChipEnable(AnyBit(data, CONTROL_CE)), Led(0, AnyBit(data, CONTROL_LED0)), Led(1, AnyBit(data, CONTROL_LED1))]
  }

  /** The charger pin effect of board_set_charge_current, if the board has the pins. */
  function CurrentEffects(regs: seq<Byte>, thirds: Byte): seq<Effect>
    requires |regs| == NUM_REGISTERS
  {
    var pins := SetChargeCurrent(regs[REG_BOARD_REV], regs[REG_BOARD_STEP], thirds);
    if pins.Some? then [ChargeCurrent(pins.value)] else []
  }

  /** The potentiometer effect of board_set_charge_timer, if the board has one. */
  function TimerEffects(regs: seq<Byte>, hours: Byte): seq<Effect>
    requires |regs| == NUM_REGISTERS && hours >= 3
  {
    if HasChargeControl(regs[REG_BOARD_REV], regs[REG_BOARD_STEP])
    then [ChargeTimerWiper(WIPER_VALUE[WiperIndex(hours)])] else []
  }

  /** The registers after board_set_charge_timer: the error marker when the
      bus write to the potentiometer fails. */
  function TimerMark(regs: seq<Byte>, busFails: bool): (r: seq<Byte>)
    requires |regs| == NUM_REGISTERS
    ensures |r| == NUM_REGISTERS
  {
    if HasChargeControl(regs[REG_BOARD_REV], regs[REG_BOARD_STEP]) && busFails
    then regs[REG_I2C_TCHARGE := TCHARGE_BUS_ERROR] else regs
  }

  /** registers_host_write(index, data): the new state and the hardware effects. */
  function AfterWrite(h: HostState, index: RegIndex, data: Byte, busFails: bool): (r: (HostState, seq<Effect>))
    requires WellFormed(h)
    ensures WellFormed(r.0)
  {
    var regs := h.regs;
    if index == REG_OSCCAL then
      (h.(regs := regs[index := data]), [OscillatorCalibration(data)])
    else if index == REG_CONTROL then
      (h.(regs := regs[index := data], rebootflag := h.rebootflag || AnyBit(data, CONTROL_BOOTLOAD)),
       ControlEffects(data))
    else if IsRestartRegister(index) then
      (h.(regs := regs[index := data][REG_START_ENABLE := regs[REG_START_ENABLE] | START_TIMEOUT]), [])
    else if IsSecondsRegister(index) then
      var stored := regs[index := data];
      (h.(regs := stored, seconds := SecondsOf(stored)), [])
    else if index == REG_EXTENDED then
      (h, [])
    else if index == REG_I2C_ADDRESS then
      (h.(regs := regs[index := data]), [Persist(I2cAddressCell, data)])
    else if index == REG_I2C_ICHARGE then
      var d := ClampCurrent(data);
      (h.(regs := regs[index := d]), CurrentEffects(regs, d) + [Persist(ChargeCurrentCell, d)])
    else if index == REG_I2C_TCHARGE then
      var d := ClampTimer(data);
      (h.(regs := TimerMark(regs, busFails)[index := d]), TimerEffects(regs, d) + [Persist(ChargeTimerCell, d)])
    else
      (h.(regs := regs[index := data]), [])
  }

  /** The value a host reads back from `index` right after writing `data` to it,
      with no other event in between. */
  function ReadBack(h: HostState, index: RegIndex, data: Byte, pins: Pins): (v: Byte)
    requires WellFormed(h)
  {
    var h' := AfterWrite(h, index, data, false).0;
    ReadImage(h'.regs, index, h'.seconds, pins)[index]
  }

  // ---------------------------------------------------------------------------
  // Properties of the host write table

  /** A stored charge current is at most 3 and a stored charge time lies in
      3..10 hours, whatever the host sends and whether or not the potentiometer
      answers; in range, the value is stored as sent. */
  lemma {:induction false} ChargeSettingsClamped(h: HostState, data: Byte, busFails: bool)
    requires WellFormed(h)
    ensures AfterWrite(h, REG_I2C_ICHARGE, data, busFails).0.regs[REG_I2C_ICHARGE] <= 3
    ensures var t := AfterWrite(h, REG_I2C_TCHARGE, data, busFails).0.regs[REG_I2C_TCHARGE];
            3 <= t <= 10 && (3 <= data <= 10 ==> t == data)
    ensures data <= 3 ==> AfterWrite(h, REG_I2C_ICHARGE, data, busFails).0.regs[REG_I2C_ICHARGE] == data
  {
    var d := ClampTimer(data);
    assert AfterWrite(h, REG_I2C_TCHARGE, data, busFails).0.regs == TimerMark(h.regs, busFails)[REG_I2C_TCHARGE := d];
  }

  /** The EXTENDED register cannot be written: the write changes nothing at all. */
  lemma ExtendedIsReadOnly(h: HostState, data: Byte, busFails: bool)
    requires WellFormed(h)
    ensures AfterWrite(h, REG_EXTENDED, data, busFails) == (h, [])
  {
  }

  /** Writing a restart register stores it and enables the timeout wake source:
      START_TIMEOUT is set in START_ENABLE, its other bits and every other
      register are kept. */
  lemma {:induction false} RestartWriteArmsTimeout(h: HostState, index: RegIndex, data: Byte, busFails: bool)
    requires WellFormed(h) && IsRestartRegister(index)
    ensures var h' := AfterWrite(h, index, data, busFails).0;
            h'.regs[index] == data
            && AnyBit(h'.regs[REG_START_ENABLE], START_TIMEOUT)
            && h'.regs[REG_START_ENABLE] & !START_TIMEOUT == h.regs[REG_START_ENABLE] & !START_TIMEOUT
            && (forall j | 0 <= j < NUM_REGISTERS && j != index && j != REG_START_ENABLE :: h'.regs[j] == h.regs[j])
            && h'.seconds == h.seconds && h'.rebootflag == h.rebootflag
    ensures AfterWrite(h, index, data, busFails).1 == []
  {
    var enable := h.regs[REG_START_ENABLE];
    TimeoutBitSet(enable);
    RestartWriteImage(h, index, data, busFails);
  }

  lemma RestartWriteImage(h: HostState, index: RegIndex, data: Byte, busFails: bool)
    requires WellFormed(h) && IsRestartRegister(index)
    ensures AfterWrite(h, index, data, busFails)
            == (h.(regs := h.regs[index := data][REG_START_ENABLE := h.regs[REG_START_ENABLE] | START_TIMEOUT]), [])
  {
  }

  lemma TimeoutBitSet(enable: Byte)
    ensures AnyBit(enable | START_TIMEOUT, START_TIMEOUT)
    ensures (enable | START_TIMEOUT) & !START_TIMEOUT == enable & !START_TIMEOUT
  {
  }

  /** A CONTROL write stores the byte, drives chip enable and the LEDs from its
      bits, and requests the bootloader exactly when BOOTLOAD is set (a request
      once made is never withdrawn by a later write). */
  lemma ControlWrite(h: HostState, data: Byte, busFails: bool)
    requires WellFormed(h)
    ensures var (h', fx) := AfterWrite(h, REG_CONTROL, data, busFails);
            h'.regs == h.regs[REG_CONTROL := data]
            && (h'.rebootflag <==> h.rebootflag || data & CONTROL_BOOTLOAD != 0)
            && ChipEnable(data & CONTROL_CE != 0) in fx
            && Led(0, data & CONTROL_LED0 != 0) in fx
            && Led(1, data & CONTROL_LED1 != 0) in fx
  {
  }

  /** Every register except STATUS, a SECONDS register, EXTENDED and the two
      clamped charge settings reads back exactly what was written; the charge
      settings read back clamped and EXTENDED reads back unchanged. */
  lemma {:induction false} ReadAfterWrite(h: HostState, index: RegIndex, data: Byte, pins: Pins)
    requires WellFormed(h)
    ensures index == REG_I2C_ICHARGE ==> ReadBack(h, index, data, pins) == ClampCurrent(data)
    ensures index == REG_I2C_TCHARGE ==> ReadBack(h, index, data, pins) == ClampTimer(data)
    ensures index == REG_EXTENDED ==> ReadBack(h, index, data, pins) == h.regs[REG_EXTENDED]
    ensures IsSecondsRegister(index) ==> ReadBack(h, index, data, pins) == data
    ensures (index != REG_STATUS && index != REG_EXTENDED && index != REG_I2C_ICHARGE
             && index != REG_I2C_TCHARGE) ==> ReadBack(h, index, data, pins) == data
  {
    if IsSecondsRegister(index) {
      var stored := h.regs[index := data];
      LittleEndianBytes(stored[REG_SECONDS_0], stored[REG_SECONDS_1], stored[REG_SECONDS_2], stored[REG_SECONDS_3]);
      assert ByteAt(SecondsOf(stored), index - REG_SECONDS_0) == stored[index];
    }
  }

  /** The seconds counter round trip: after the host writes b0..b3 to
      SECONDS_0..SECONDS_3, the counter holds their little-endian value, and
      reading the four registers back returns b0..b3. */
  lemma {:induction false} SecondsRoundTrip(h: HostState, b0: Byte, b1: Byte, b2: Byte, b3: Byte, busFails: bool, pins: Pins)
    requires WellFormed(h)
    ensures var h1 := AfterWrite(h, REG_SECONDS_0, b0, busFails).0;
            var h2 := AfterWrite(h1, REG_SECONDS_1, b1, busFails).0;
            var h3 := AfterWrite(h2, REG_SECONDS_2, b2, busFails).0;
            var h4 := AfterWrite(h3, REG_SECONDS_3, b3, busFails).0;
            h4.seconds == LittleEndian32(b0, b1, b2, b3)
            && ReadImage(h4.regs, REG_SECONDS_0, h4.seconds, pins)[REG_SECONDS_0] == b0
            && ReadImage(h4.regs, REG_SECONDS_1, h4.seconds, pins)[REG_SECONDS_1] == b1
            && ReadImage(h4.regs, REG_SECONDS_2, h4.seconds, pins)[REG_SECONDS_2] == b2
            && ReadImage(h4.regs, REG_SECONDS_3, h4.seconds, pins)[REG_SECONDS_3] == b3
  {
    var h1 := AfterWrite(h, REG_SECONDS_0, b0, busFails).0;
    var h2 := AfterWrite(h1, REG_SECONDS_1, b1, busFails).0;
    var h3 := AfterWrite(h2, REG_SECONDS_2, b2, busFails).0;
    var h4 := AfterWrite(h3, REG_SECONDS_3, b3, busFails).0;
    assert h4.regs[REG_SECONDS_0] == b0 && h4.regs[REG_SECONDS_1] == b1;
    assert h4.regs[REG_SECONDS_2] == b2 && h4.regs[REG_SECONDS_3] == b3;
    LittleEndianBytes(b0, b1, b2, b3);
  }

  /** A failed potentiometer write marks TCHARGE with 0xEE inside
      board_set_charge_timer, but the store at the end of the host write
      replaces the marker with the clamped value, so the host never sees it. */
  lemma {:induction false} TimerErrorMarkerOverwritten(h: HostState, data: Byte)
    requires WellFormed(h) && HasChargeControl(h.regs[REG_BOARD_REV], h.regs[REG_BOARD_STEP])
    ensures TimerMark(h.regs, true)[REG_I2C_TCHARGE] == TCHARGE_BUS_ERROR
    ensures AfterWrite(h, REG_I2C_TCHARGE, data, true).0.regs[REG_I2C_TCHARGE] == ClampTimer(data)
    ensures AfterWrite(h, REG_I2C_TCHARGE, data, true).0.regs[REG_I2C_TCHARGE] != TCHARGE_BUS_ERROR
  {
    assert AfterWrite(h, REG_I2C_TCHARGE, data, true).0.regs == TimerMark(h.regs, true)[REG_I2C_TCHARGE := ClampTimer(data)];
  }

  // ---------------------------------------------------------------------------
  // The host interface on the register bank

  /** registers_host_read: refresh the register the host asks for, return it,
      and clear the activity watchdog. */
  method HostRead(bank: RegisterBank, board: BoardState, index: RegIndex, pins: Pins) returns (value: Byte)
    requires bank.Valid()
    modifies bank.regs, bank`activityWatchdog
    ensures bank.activityWatchdog == 0
    ensures bank.regs[..] == ReadImage(old(bank.regs[..]), index, board.seconds, pins)
    ensures value == bank.regs[index]
  {
    if bank.activityWatchdog != 0 {
      bank.activityWatchdog := 0;
    }
    if index == REG_STATUS {
      SampleStatus(bank, pins);
    } else if IsSecondsRegister(index) {
      bank.Set(index, ByteAt(board.seconds, index - REG_SECONDS_0));
    }
    value := bank.Get(index);
  }

  /** One `if (pin) clear_mask else set_mask` of the STATUS refresh: the bits
      of `mask` end up set exactly when `on`. */
  method MirrorBits(bank: RegisterBank, index: RegIndex, mask: Byte, on: bool)
    requires bank.Valid()
    modifies bank.regs
    ensures bank.regs[..] == old(bank.regs[..])[index := WithBits(old(bank.regs[index]), mask, on)]
  {
    if on {
      bank.SetMask(index, mask);
    } else {
      bank.ClearMask(index, mask);
    }
  }

  /** The REG_STATUS case of registers_host_read: board_pgood, then the button
      and opto bits, each set when its pin reads low. */
  method SampleStatus(bank: RegisterBank, pins: Pins)
    requires bank.Valid()
    modifies bank.regs
    ensures bank.regs[..] == old(bank.regs[..])[REG_STATUS := StatusSample(old(bank.regs[REG_STATUS]), pins)]
  {
    var _ := PowerGood(bank, pins.pgoodHigh);
    MirrorBits(bank, REG_STATUS, STATUS_BUTTON, !pins.buttonHigh);
    MirrorBits(bank, REG_STATUS, STATUS_OPTO, !pins.optoHigh);
  }

  /** The state a host write starts from. */
  function StateOf(bank: RegisterBank, board: BoardState): HostState
    reads bank, bank.regs, board
  {
    HostState(bank.regs[..], board.seconds, bank.rebootflag)
  }

  /** registers_host_write: apply the side effect of the register written, then
      store the (possibly clamped) byte, except where a case returns early. */
  method HostWrite(bank: RegisterBank, board: BoardState, index: RegIndex, data: Byte, busFails: bool)
    returns (effects: seq<Effect>)
    requires bank.Valid()
    modifies bank.regs, bank`activityWatchdog, bank`rebootflag, board`seconds
    ensures bank.activityWatchdog == 0
    ensures (StateOf(bank, board), effects) == AfterWrite(old(StateOf(bank, board)), index, data, busFails)
  {
    if bank.activityWatchdog != 0 {
      bank.activityWatchdog := 0;
    }
    if IsRestartRegister(index) {
      WriteRestart(bank, board, index, data, busFails);
      effects := [];
    } else if IsSecondsRegister(index) {
      WriteSeconds(bank, board, index, data, busFails);
      effects := [];
    } else if index == REG_EXTENDED {
      effects := [];
    } else {
      effects := WriteAndStore(bank, board, index, data, busFails);
    }
  }

  /** The restart-register case: store the byte, enable the timeout wake source. */
  method WriteRestart(bank: RegisterBank, board: BoardState, index: RegIndex, data: Byte, ghost busFails: bool)
    requires bank.Valid() && IsRestartRegister(index)
    modifies bank.regs
    ensures (StateOf(bank, board), []) == AfterWrite(old(StateOf(bank, board)), index, data, busFails)
  {
    bank.Set(index, data);
    bank.SetMask(REG_START_ENABLE, START_TIMEOUT);
  }

  /** The SECONDS case: store the byte, reload the counter from all four registers. */
  method WriteSeconds(bank: RegisterBank, board: BoardState, index: RegIndex, data: Byte, ghost busFails: bool)
    requires bank.Valid() && IsSecondsRegister(index)
    modifies bank.regs, board`seconds
    ensures (StateOf(bank, board), []) == AfterWrite(old(StateOf(bank, board)), index, data, busFails)
  {
    bank.Set(index, data);
    board.seconds := LittleEndian32(bank.Get(REG_SECONDS_0), bank.Get(REG_SECONDS_1),
                                    bank.Get(REG_SECONDS_2), bank.Get(REG_SECONDS_3));
  }

  /** The cases that end by storing the byte: OSCCAL, CONTROL, the bus address,
      the two clamped charge settings and every register without a case. */
  method WriteAndStore(bank: RegisterBank, board: BoardState, index: RegIndex, data: Byte, busFails: bool)
    returns (effects: seq<Effect>)
    requires bank.Valid()
    requires !IsRestartRegister(index) && !IsSecondsRegister(index) && index != REG_EXTENDED
    modifies bank.regs, bank`rebootflag
    ensures (StateOf(bank, board), effects) == AfterWrite(old(StateOf(bank, board)), index, data, busFails)
  {
    if index == REG_CONTROL {
      effects := WriteControl(bank, board, data, busFails);
    } else if index == REG_I2C_TCHARGE {
      effects := WriteChargeTimer(bank, board, data, busFails);
    } else {
      var d := data;
      effects := [];
      if index == REG_OSCCAL {
        effects := [OscillatorCalibration(d)];
      } else if index == REG_I2C_ADDRESS {
        effects := [Persist(I2cAddressCell, d)];
      } else if index == REG_I2C_ICHARGE {
        if d > 3 {
          d := 3;
        }
        effects := CurrentEffects(bank.regs[..], d) + [Persist(ChargeCurrentCell, d)];
      }
      bank.Set(index, d);
    }
  }

  /** The CONTROL case: chip enable, the LEDs, the bootloader request, then the store. */
  method WriteControl(bank: RegisterBank, board: BoardState, data: Byte, ghost busFails: bool)
    returns (effects: seq<Effect>)
    requires bank.Valid()
    modifies bank.regs, bank`rebootflag
    ensures (StateOf(bank, board), effects) == AfterWrite(old(StateOf(bank, board)), REG_CONTROL, data, busFails)
  {
    effects := ControlEffects(data);
    if AnyBit(data, CONTROL_BOOTLOAD) {
      bank.rebootflag := true;
    }
    bank.Set(REG_CONTROL, data);
  }

  /** The TCHARGE case: clamp to 3..10 hours, set the potentiometer, persist,
      then store the clamped value. */
  method WriteChargeTimer(bank: RegisterBank, board: BoardState, data: Byte, busFails: bool)
    returns (effects: seq<Effect>)
    requires bank.Valid()
    modifies bank.regs
    ensures (StateOf(bank, board), effects) == AfterWrite(old(StateOf(bank, board)), REG_I2C_TCHARGE, data, busFails)
  {
    var d := data;
    if d < 3 {
      d := 3;
    }
    if d > 10 {
      d := 10;
    }
    var wiper := SetChargeTimer(bank, d, busFails);
    effects := (if wiper.Some? then [ChargeTimerWiper(wiper.value)] else []) + [Persist(ChargeTimerCell, d)];
    bank.Set(REG_I2C_TCHARGE, d);
  }
}

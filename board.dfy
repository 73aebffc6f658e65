// Board policy and the one-second timer of the supervisor (avr/board.c):
// restart countdown arming, the power-good sample, the charge-current pin
// selection, the charge-timer potentiometer and the TIMER2 overflow handler.
// Pin reads are parameters; pin and bus writes are returned as effects.

module Board {
  import opened Bytes
  import opened Registers

  /** Board revision 'A' and stepping '2' are the first with charge control. */
  const REV_A: Byte := 0x41
  const STEP_2: Byte := 0x32

  predicate HasChargeControl(rev: Byte, step: Byte)
  {
    rev == REV_A && step >= STEP_2
  }

  /** The two charge-current set pins of the charger. */
  datatype IsetPin = ISET2 | ISET3

  /** The pin-change wake sources: the opto-isolated input and the button. */
  datatype WakePin = OptoPin | ButtonPin

  /** The pin-change interrupts board_enable_interrupt / board_disable_interrupt
      touch for a START_* mask. */
  function WakePins(mask: Byte): (pins: set<WakePin>)
    ensures OptoPin in pins <==> AnyBit(mask, START_EXTERNAL)
    ensures ButtonPin in pins <==> AnyBit(mask, START_BUTTON)
  {
    (if AnyBit(mask, START_EXTERNAL) then {OptoPin} else {})
    + (if AnyBit(mask, START_BUTTON) then {ButtonPin} else {})
  }

  /** Persisted configuration cells written by the firmware. */
  datatype EepromCell = I2cAddressCell | ChargeCurrentCell | ChargeTimerCell | CalibrationCell | FlagsCell

  /** What the firmware does to the hardware besides its own variables. */
  datatype Effect =
    | ChipEnable(on: bool)
    | Led(led: nat, on: bool)
    | ChargeCurrent(pins: set<IsetPin>)
    | ChargeTimerWiper(wiper: Byte)
    | OscillatorCalibration(value: Byte)
    | Persist(cell: EepromCell, value: Byte)
    | PowerOn
    | PowerOff
    | Sleep
    | EnableWakeInterrupts(sources: set<WakePin>)
    | DisableWakeInterrupts(sources: set<WakePin>)
    | SetBootloaderFlag
    | BusStart(twar: Byte)
    | BusStop
    | BoardStop
    | WatchdogReset

  // ---------------------------------------------------------------------------
  // Charge current (board_set_charge_current)

  /** The pins driven for a charge current of `thirds` thirds of an ampere. */
  function ChargeCurrentPins(thirds: Byte): set<IsetPin>
  {
    if thirds == 3 then {ISET2, ISET3}
    else if thirds == 2 then {ISET2}
    else if thirds == 0 then {}
    else {ISET3}
  }

  /** The pins board_set_charge_current drives, or None when the board has none. */
  function SetChargeCurrent(rev: Byte, step: Byte, thirds: Byte): Option<set<IsetPin>>
  {
    if HasChargeControl(rev, step) then Some(ChargeCurrentPins(thirds)) else None
  }

  /** Pins are touched only on charge-control boards; there the selection is the
      binary code of the current: ISET3 for bit 0 and ISET2 for bit 1 of a value
      up to 3, and any larger value falls back to one third. */
  lemma {:induction false} ChargeCurrentEncoding(rev: Byte, step: Byte, thirds: Byte)
    ensures SetChargeCurrent(rev, step, thirds).Some? <==> HasChargeControl(rev, step)
    ensures thirds <= 3 ==> (ISET3 in ChargeCurrentPins(thirds) <==> thirds & 1 != 0)
    ensures thirds <= 3 ==> (ISET2 in ChargeCurrentPins(thirds) <==> thirds & 2 != 0)
    ensures thirds > 3 ==> ChargeCurrentPins(thirds) == ChargeCurrentPins(1)
  {
    if thirds <= 3 {
      assert thirds == 0 || thirds == 1 || thirds == 2 || thirds == 3;
    }
  }

  // ---------------------------------------------------------------------------
  // Charge timer (board_set_charge_timer and wiper_value)

  /** Potentiometer positions for 3..13 hours: +10k per hour of a 100k, 127-step part. */
  const WIPER_VALUE: seq<Byte> := [0, 13, 26, 38, 51, 64, 76, 89, 102, 114, 127]

  /** The table spans the whole potentiometer, rises strictly, and each entry is
      within one step of the exact tenth of the range. */
  lemma WiperTable()
    ensures |WIPER_VALUE| == 11
    ensures WIPER_VALUE[0] == 0 && WIPER_VALUE[10] == 127
    ensures forall i, j | 0 <= i < j < 11 :: WIPER_VALUE[i] < WIPER_VALUE[j]
    ensures forall k | 0 <= k < 11 :: -10 < 10 * (WIPER_VALUE[k] as int) - 127 * k < 10
  {
  }

  /** The table index board_set_charge_timer uses for a requested number of hours. */
  function WiperIndex(hours: Byte): (k: nat)
    requires hours >= 3
    ensures k < |WIPER_VALUE|
    ensures hours <= 10 ==> k == hours as int - 3
    ensures hours > 10 ==> k == 7
  {
    (if hours > 10 then 10 else hours as int) - 3
  }

  /** The error marker board_set_charge_timer leaves in TCHARGE when the bus write fails. */
  const TCHARGE_BUS_ERROR: Byte := 0xEE

  // ---------------------------------------------------------------------------
  // Restart countdown (board_begin_countdown)

  /** The countdown, in one-second ticks, for a restart delay of h:m:s. */
  function RestartDelay(h: Byte, m: Byte, s: Byte): (ticks: Uint32)
    ensures ticks == 0 <==> h == 0 && m == 0 && s == 0
  {
    h as int * 3600 + m as int * 60 + s as int
  }

  // ---------------------------------------------------------------------------
  // One timer tick (TIMER2_OVF_vect), as functions of the counters

  /** One tick of the restart countdown: the next value and whether START_TIMEOUT fires. */
  function CountdownTick(c: Uint32): (Uint32, bool)
  {
    if c != 0 then (c - 1, c - 1 == 0) else (0, false)
  }

  /** The countdown after n ticks. */
  function CountdownAfter(c: Uint32, n: nat): Uint32
    decreases n
  {
    if n == 0 then c else CountdownAfter(CountdownTick(c).0, n - 1)
  }

  /** How many times START_TIMEOUT fires in n ticks. */
  function TimeoutsIn(c: Uint32, n: nat): nat
    decreases n
  {
    if n == 0 then 0
    else (if CountdownTick(c).1 then 1 else 0) + TimeoutsIn(CountdownTick(c).0, n - 1)
  }

  /** Armed with c > 0 the countdown reaches zero after c ticks and fires exactly
      once, on tick c; a zero countdown never fires. */
  lemma {:induction false} CountdownFiresOnce(c: Uint32, n: nat)
    ensures CountdownAfter(c, n) == if n >= c then 0 else c - n
    ensures TimeoutsIn(c, n) == if c > 0 && n >= c then 1 else 0
    decreases n
  {
    if n > 0 {
      CountdownFiresOnce(CountdownTick(c).0, n - 1);
      if c == 0 {
        assert CountdownTick(c) == (0, false);
      }
    }
  }

  /** One tick of the forced power-off check: the new hold count and whether
      power_down is requested. */
  function HoldTick(count: Uint8, pressed: bool): (Uint8, bool)
  {
    if pressed then (Inc8(count), Inc8(count) == 5) else (0, false)
  }

  /** The hold count after n ticks with the button held. */
  function HeldFor(count: Uint8, n: nat): Uint8
    decreases n
  {
    if n == 0 then count else HoldTick(HeldFor(count, n - 1), true).0
  }

  /** Pressed from a released state, the button requests power_down on the fifth
      tick it is held (and again only when the 8-bit count wraps to 5). */
  lemma {:induction false} HoldRequestsPowerDown(n: nat)
    requires n > 0
    ensures HeldFor(0, n) == n % 256
    ensures HoldTick(HeldFor(0, n - 1), true).1 <==> n % 256 == 5
  {
    HeldForCount(n);
    HeldForCount(n - 1);
  }

  lemma {:induction false} HeldForCount(n: nat)
    ensures HeldFor(0, n) == n % 256
  {
    if n > 0 {
      HeldForCount(n - 1);
    }
  }

  // ---------------------------------------------------------------------------
  // The board's own variables

  class BoardState {
    var systemTicks: Uint16
    var countdown: Uint32
    var seconds: Word32
    var buttonHoldCount: Uint8

    /** The zero-initialised globals and the static hold counter. */
    constructor ()
      ensures systemTicks == 0 && countdown == 0 && seconds == 0 && buttonHoldCount == 0
    {
      systemTicks, countdown, seconds, buttonHoldCount := 0, 0, 0, 0;
    }

    /** board_begin_countdown: arm the countdown from the three restart registers;
        a zero delay disables the timeout wake source instead. */
    method BeginCountdown(bank: RegisterBank) returns (armed: bool)
      requires bank.Valid()
      modifies this`countdown, bank.regs
      ensures countdown == RestartDelay(old(bank.regs[REG_RESTART_HOURS]),
                                        old(bank.regs[REG_RESTART_MINUTES]),
                                        old(bank.regs[REG_RESTART_SECONDS]))
      ensures armed <==> countdown != 0
      ensures bank.regs[..] == if armed then old(bank.regs[..])
                               else old(bank.regs[..])[REG_START_ENABLE := old(bank.regs[REG_START_ENABLE]) & !START_TIMEOUT]
    {
      countdown := bank.Get(REG_RESTART_HOURS) as int * 3600;
      countdown := countdown + bank.Get(REG_RESTART_MINUTES) as int * 60;
      countdown := countdown + bank.Get(REG_RESTART_SECONDS) as int;
      if countdown == 0 {
        bank.ClearMask(REG_START_ENABLE, START_TIMEOUT);
        return false;
      }
      return true;
    }

    /** The TIMER2 overflow handler. The two requests it makes of avr/main.c
        (power_event(START_TIMEOUT) and power_down) are returned. */
    method TimerOverflow(buttonPressed: bool) returns (timeoutFired: bool, holdExpired: bool)
      modifies this
      ensures systemTicks == Inc16(old(systemTicks)) && seconds == old(seconds) + 1
      ensures (countdown, timeoutFired) == CountdownTick(old(countdown))
      ensures (buttonHoldCount, holdExpired) == HoldTick(old(buttonHoldCount), buttonPressed)
    {
      var next := seconds + 1;
      seconds := next;
      systemTicks := Inc16(systemTicks);
      timeoutFired := false;
      if countdown != 0 {
        countdown := countdown - 1;
        if countdown == 0 {
          timeoutFired := true;
        }
      }
      holdExpired := false;
      if buttonPressed {
        buttonHoldCount := Inc8(buttonHoldCount);
        if buttonHoldCount == 5 {
          holdExpired := true;
        }
      } else {
        buttonHoldCount := 0;
      }
    }
  }

  /** board_pgood: power is good when the PGOOD pin reads low; the STATUS
      register's POWER_GOOD bit mirrors the answer. */
  method PowerGood(bank: RegisterBank, pgoodPinHigh: bool) returns (good: bool)
    requires bank.Valid()
    modifies bank.regs
    ensures good == !pgoodPinHigh
    ensures bank.regs[..] == old(bank.regs[..])[REG_STATUS := WithBits(old(bank.regs[REG_STATUS]), STATUS_POWER_GOOD, good)]
  {
    good := false;
    if pgoodPinHigh {
      bank.ClearMask(REG_STATUS, STATUS_POWER_GOOD);
    } else {
      bank.SetMask(REG_STATUS, STATUS_POWER_GOOD);
      good := true;
    }
  }

  /** board_set_charge_timer: set the potentiometer for `hours` (at most 10);
      a failed bus write leaves the error marker in TCHARGE. The bus write's
      outcome is the parameter busFails. */
  method SetChargeTimer(bank: RegisterBank, hours: Byte, busFails: bool) returns (wiper: Option<Byte>)
    requires bank.Valid() && hours >= 3
    modifies bank.regs
    ensures wiper == if HasChargeControl(old(bank.regs[REG_BOARD_REV]), old(bank.regs[REG_BOARD_STEP]))
                     then Some(WIPER_VALUE[WiperIndex(hours)]) else None
    ensures bank.regs[..] == if wiper.Some? && busFails
                             then old(bank.regs[..])[REG_I2C_TCHARGE := TCHARGE_BUS_ERROR]
                             else old(bank.regs[..])
  {
    wiper := None;
    if bank.Get(REG_BOARD_REV) == REV_A && bank.Get(REG_BOARD_STEP) >= STEP_2 {
      var h := hours;
      if h > 10 {
        h := 10;
      }
      var b := WIPER_VALUE[h as int - 3];
      wiper := Some(b);
      if busFails {
        bank.Set(REG_I2C_TCHARGE, TCHARGE_BUS_ERROR);
      }
    }
  }
}

// The register bank of the supervisor (avr/registers.c): a fixed array of
// NUM_REGISTERS bytes shared by the host bus handler, the timer interrupt and
// the power state machine, with its internal interface (get, set, set_mask,
// clear_mask) and its power-on contents (registers_init).
//
// The register layout is not part of the visible source (avr/registers.h is an
// older, shorter enum); the indices below are distinct, SECONDS_0..3 are
// consecutive, and the proofs rely on nothing else about them.

module Registers {
  import opened Bytes

  const REG_MCUSR := 0
  const REG_OSCCAL := 1
  const REG_STATUS := 2
  const REG_CONTROL := 3
  const REG_START_ENABLE := 4
  const REG_START_REASON := 5
  const REG_RESTART_HOURS := 6
  const REG_RESTART_MINUTES := 7
  const REG_RESTART_SECONDS := 8
  const REG_SECONDS_0 := 9
  const REG_SECONDS_1 := 10
  const REG_SECONDS_2 := 11
  const REG_SECONDS_3 := 12
  const REG_CAPABILITY := 13
  const REG_BOARD_TYPE := 14
  const REG_BOARD_REV := 15
  const REG_BOARD_STEP := 16
  const REG_I2C_ADDRESS := 17
  const REG_I2C_ICHARGE := 18
  const REG_I2C_TCHARGE := 19
  const REG_EXTENDED := 20
  const NUM_REGISTERS := 21

  /** A valid register index; an index out of range is undefined behaviour in the firmware. */
  type RegIndex = i: int | 0 <= i < NUM_REGISTERS

  predicate IsSecondsRegister(i: int)
  {
    REG_SECONDS_0 <= i <= REG_SECONDS_3
  }

  predicate IsRestartRegister(i: int)
  {
    i == REG_RESTART_HOURS || i == REG_RESTART_MINUTES || i == REG_RESTART_SECONDS
  }

  // STATUS register bits
  const STATUS_BUTTON: Byte := 0x01
  const STATUS_OPTO: Byte := 0x02
  const STATUS_POWER_GOOD: Byte := 0x04

  // CONTROL register bits
  const CONTROL_CE: Byte := 0x01
  const CONTROL_LED0: Byte := 0x02
  const CONTROL_LED1: Byte := 0x04
  const CONTROL_BOOTLOAD: Byte := 0x80

  // START_ENABLE / START_REASON bits: the wake sources
  const START_BUTTON: Byte := 0x01
  const START_EXTERNAL: Byte := 0x02
  const START_PWRGOOD: Byte := 0x04
  const START_TIMEOUT: Byte := 0x08
  const START_ALL: Byte := 0x0F

  const CAPABILITY_STATUS: Byte := 0x01

  /** The default 7-bit slave address of the host bus. */
  const TWI_SLAVE_ADDRESS: Byte := 0x21

  /** The marker registers_init puts in the read-only EXTENDED register. */
  const EXTENDED_MARKER: Byte := 0x69

  /** An EEPROM cell that was never written reads 0xFF. */
  const ERASED: Byte := 0xFF

  /** The persisted configuration registers_init reads from EEPROM. */
  datatype Persisted = Persisted(
    boardType: Byte, revision: Byte, stepping: Byte,
    i2cAddress: Byte, chargeCurrent: Byte, chargeTimer: Byte)

  /** A persisted byte, or the default when the cell is erased. */
  function OrDefault(stored: Byte, default: Byte): (r: Byte)
    ensures stored != ERASED ==> r == stored
    ensures stored == ERASED ==> r == default
  {
    if stored == ERASED then default else stored
  }

  /** Register i after registers_init, on the zero-initialised static array. */
  function InitialValue(ee: Persisted, i: RegIndex): Byte
  {
    if i == REG_CONTROL then CONTROL_CE
    else if i == REG_START_ENABLE then START_ALL
    else if i == REG_EXTENDED then EXTENDED_MARKER
    else if i == REG_CAPABILITY then CAPABILITY_STATUS
    else if i == REG_BOARD_TYPE then ee.boardType
    else if i == REG_BOARD_REV then ee.revision
    else if i == REG_BOARD_STEP then ee.stepping
    else if i == REG_I2C_ADDRESS then OrDefault(ee.i2cAddress, TWI_SLAVE_ADDRESS)
    else if i == REG_I2C_ICHARGE then OrDefault(ee.chargeCurrent, 1)
    else if i == REG_I2C_TCHARGE then OrDefault(ee.chargeTimer, 3)
    else 0
  }

  /** A freshly erased EEPROM gives the default address, 1/3 A and 3 hours;
      every wake source is enabled and no restart time is set. */
  lemma ErasedEepromDefaults(ee: Persisted)
    requires ee.i2cAddress == ERASED && ee.chargeCurrent == ERASED && ee.chargeTimer == ERASED
    ensures InitialValue(ee, REG_I2C_ADDRESS) == TWI_SLAVE_ADDRESS
    ensures InitialValue(ee, REG_I2C_ICHARGE) == 1
    ensures InitialValue(ee, REG_I2C_TCHARGE) == 3
    ensures InitialValue(ee, REG_EXTENDED) == EXTENDED_MARKER
    ensures InitialValue(ee, REG_START_ENABLE) == START_ALL
    ensures forall i: RegIndex | IsRestartRegister(i) :: InitialValue(ee, i) == 0
  {
  }

  /** The register array with the globals the host interface shares with the
      rest of the firmware (rebootflag of avr/main.c, activity_watchdog). */
  class RegisterBank {
    var regs: array<Byte>
    var activityWatchdog: Uint8
    var rebootflag: bool

    ghost predicate Valid()
      reads this
    {
      regs.Length == NUM_REGISTERS
    }

    /** registers_init, on the zero-initialised static array. */
    constructor Init(ee: Persisted)
      ensures Valid() && fresh(regs)
      ensures forall i: RegIndex :: regs[i] == InitialValue(ee, i)
      ensures activityWatchdog == 0 && !rebootflag
    {
      regs := new Byte[NUM_REGISTERS](i requires 0 <= i < NUM_REGISTERS => InitialValue(ee, i));
      activityWatchdog := 0;
      rebootflag := false;
    }

    function Get(index: RegIndex): Byte
      reads this, regs
      requires Valid()
    {
      regs[index]
    }

    method Set(index: RegIndex, value: Byte)
      requires Valid()
      modifies regs
      ensures regs[..] == old(regs[..])[index := value]
    {
      regs[index] := value;
    }

    /** registers_set_mask: OR the mask into one register, nothing else changes. */
    method SetMask(index: RegIndex, mask: Byte)
      requires Valid()
      modifies regs
      ensures regs[..] == old(regs[..])[index := old(regs[index]) | mask]
    {
      regs[index] := regs[index] | mask;
    }

    /** registers_clear_mask: AND the complement of the mask into one register. */
    method ClearMask(index: RegIndex, mask: Byte)
      requires Valid()
      modifies regs
      ensures regs[..] == old(regs[..])[index := old(regs[index]) & !mask]
    {
      regs[index] := regs[index] & !mask;
    }
  }
}

# PowerCape supervisor firmware — a Dafny model

The PowerCape is a power-management board for the BeagleBone. A small AVR
microcontroller on it decides when the BeagleBone is powered. It watches the
3.3 V rail, the PGOOD signal, a push button, an opto-isolated input and a
restart timer. It shows its state to the host as a bank of I²C registers. The
firmware is updated through one of two bootloaders:

- **twiboot**, which is driven over I²C;
- **AVR109** ("AVRBOOT"), which is driven over a serial line.

This project models the core of that firmware and proves properties of the
model:

- `registers.dfy`: the register bank (`avr/registers.c`). It is a class over
  a fixed-size array with get, set, set-mask and clear-mask, and the power-on
  defaults taken from EEPROM.
- `board.dfy`: the board glue (`avr/board.c`):
  - the restart countdown and the one-second timer interrupt with its
    button-hold counter;
  - the PGOOD sample, the wake-pin masks;
  - the charge current pins and the charge-timer potentiometer table.
- `hostinterface.dfy`: what a host read or write of a register does
  (`registers_host_read` / `registers_host_write`). This covers:
  - the STATUS sample and the four SECONDS bytes;
  - CONTROL, the clamped charge settings, the restart registers and the
    read-only EXTENDED register.
- `twislave.dfy`: the I²C slave interrupt and its auto-incrementing register
  pointer (`avr/twi_slave.c`).
- `power.dfy`: the power state machine of `avr/main.c`:
  - `power_down`, `power_event`, `state_machine` with its three power-up
    retries;
  - one pass of the main loop.
- `spm.dfy`: the self-programming operations both bootloaders use. Page
  erase, filling the temporary page buffer a word at a time, and page write,
  which can only clear bits (the new flash is the old flash AND the buffer).
- `twiboot.dfy`: the twiboot loader. It covers the boot decision, the TWI
  interrupt as a pure step function plus a class that runs it, and page
  programming. It also covers the version, chip-info, flash and EEPROM read
  streams.
- `avr109.dfy`, `avr109_properties.dfy`: the AVR109 loader. It covers the boot
  decision, every command of the command loop, BlockLoad and BlockRead as
  methods with loops, and the whole session. Properties are stated as
  round trips between commands (write a block, rewind the address, read it
  back).

Registers, bytes and addresses keep the widths of the C code. Bytes are
`bv8`. Counters are explicit 8-, 16- or 32-bit values that wrap. Program
memory is the full 16-bit byte address space (64 KiB); a device with less
flash is not mirrored (see Left out). Pins, the I²C bus to the charge-timer
potentiometer and the serial/I²C byte streams are parameters. Hardware
outputs (chip enable, LEDs, EEPROM writes, bus start/stop, …) are returned
as a sequence of `Effect` values.

## Model

| member | source | states |
|---|---|---|
| Bytes.Inc8 | avr/twi_slave.c:57 | An 8-bit `++`: one more below 255, 0 after 255. |
| Bytes.Inc16 | avr/board.c:299 | A 16-bit `++` (system_ticks, addresses): one more below 0xFFFF, 0 after it. |
| Bytes.Inc16Mod | avr/twiboot/main.c:443 | A 16-bit counter holding x mod 2^16, incremented, holds x + 1 mod 2^16. |
| Bytes.WithBitsEffect | avr/board.c:129-137 | Setting or clearing a mask changes only the bits of the mask; a bit of the mask then reads as requested. |
| Bytes.LittleEndianBytes | avr/registers.c:77-96 | Byte i of four bytes packed little-endian into a 32-bit word is byte i. |
| Bytes.BytesLittleEndian | avr/registers.c:164-172 | Splitting a 32-bit word into its four bytes and packing them again gives the word. |
| Registers.OrDefault | avr/registers.c:229-248 | A persisted byte is used unless it reads 0xFF (erased), and then the default is. |
| Registers.ErasedEepromDefaults | avr/registers.c:214-249 | With erased EEPROM the bank starts with the default slave address, 1/3 A, 3 h, EXTENDED = 0x69, all start sources enabled and a zero restart delay. |
| Registers.RegisterBank.Init | avr/registers.c:214-249 | Every register holds its registers_init value; the activity watchdog and the reboot flag are clear. |
| Registers.RegisterBank.Set | avr/registers.c:36-39 | One register is replaced; all others are unchanged. |
| Registers.RegisterBank.SetMask | avr/registers.c:18-21 | One register is ORed with the mask; all others are unchanged. |
| Registers.RegisterBank.ClearMask | avr/registers.c:24-27 | One register is ANDed with the complement of the mask; all others are unchanged. |
| Board.WakePins | avr/board.c:151-180 | The opto pin is selected iff START_EXTERNAL is in the mask, the button pin iff START_BUTTON is. |
| Board.ChargeCurrentEncoding | avr/board.c:183-203 | Pins are driven iff the board is revision A step 2 or later; for 0..3 thirds ISET3 is bit 0 and ISET2 bit 1; more than 3 drives the same pins as 1. |
| Board.WiperTable | avr/board.c:206-218 | Eleven wiper values from 0 to 127, strictly increasing, each within a tenth of a step of 127·k/10. |
| Board.WiperIndex | avr/board.c:221-240 | The table index is hours − 3, with hours capped at 10. |
| Board.RestartDelay | avr/board.c:19-31 | The countdown in seconds is zero iff hours, minutes and seconds are all zero. |
| Board.CountdownFiresOnce | avr/board.c:306-313 | After n ticks the countdown is c − n, or 0 once n ≥ c; START_TIMEOUT fires exactly once, iff c > 0 and n ≥ c. |
| Board.HoldRequestsPowerDown | avr/board.c:315-327 | With the button held for n ticks the counter is n mod 256, and the n-th tick requests power-down iff n mod 256 = 5. |
| Board.HeldForCount | avr/board.c:315-327 | The hold counter after n held ticks from 0 is n mod 256. |
| Board.BoardState.constructor | avr/board.c:14-16 | The tick, countdown, seconds and hold counters start at zero. |
| Board.BoardState.BeginCountdown | avr/board.c:19-31 | The countdown is the restart delay from the three registers; it is armed iff non-zero, and otherwise START_TIMEOUT is cleared from START_ENABLE and nothing else changes. |
| Board.BoardState.TimerOverflow | avr/board.c:294-328 | Ticks and seconds advance with 16- and 32-bit wrap-around; the countdown and the hold counter take one step each and report START_TIMEOUT and the forced power-down. |
| Board.PowerGood | avr/board.c:125-140 | Power is good iff the PGOOD pin is low, and STATUS.POWER_GOOD then mirrors it; no other register changes. |
| Board.SetChargeTimer | avr/board.c:221-240 | A board with the potentiometer gets the table value for the hours and no other board gets a value; TCHARGE becomes 0xEE iff such a board's bus write fails; otherwise the bank is unchanged. |
| HostInterface.StatusSample | avr/registers.c:52-76 | POWER_GOOD, BUTTON and OPTO read as set iff their pins are low; the other STATUS bits are kept. |
| HostInterface.ReadImage | avr/registers.c:43-100 | A read changes at most the register read; SECONDS_n then holds byte n of the seconds counter; reading a register other than STATUS and the SECONDS registers leaves the bank as it was. |
| HostInterface.ClampCurrent | avr/registers.c:187-193 | The stored charge current is the request, at most 3. |
| HostInterface.ClampTimer | avr/registers.c:195-202 | The stored charge time is the request clamped to 3..10 hours. |
| HostInterface.TimerMark | avr/registers.c:195-202 | The bank after a charge-timer write keeps its size; which register it marks is stated by TimerErrorMarkerOverwritten. |
| HostInterface.AfterWrite | avr/registers.c:103-211 | A host write leaves a well-formed register state; its effect per register is stated by the lemmas below. |
| HostInterface.ChargeSettingsClamped | avr/registers.c:187-202 | After a write ICHARGE ≤ 3 and TCHARGE is in 3..10; a value already in range is stored as sent. |
| HostInterface.ExtendedIsReadOnly | avr/registers.c:174-178 | A write to EXTENDED changes nothing and drives nothing. |
| HostInterface.RestartWriteArmsTimeout | avr/registers.c:155-162 | A restart-register write stores the byte and sets START_TIMEOUT in START_ENABLE; every other register, bit and the seconds counter is kept; nothing is driven. |
| HostInterface.RestartWriteImage | avr/registers.c:155-162 | The whole state after a restart-register write, in closed form. |
| HostInterface.ControlWrite | avr/registers.c:118-153 | CONTROL is stored; chip enable and both LEDs follow their bits; the reboot flag is set iff it was set or BOOTLOAD is sent. |
| HostInterface.ReadAfterWrite | avr/registers.c:103-211 | Reading a register just written returns the byte sent, the clamped charge setting, or for EXTENDED the old value. |
| HostInterface.SecondsRoundTrip | avr/registers.c:164-172 | Writing SECONDS_0..3 sets the counter to their little-endian value, and reading them back returns the bytes written. |
| HostInterface.TimerErrorMarkerOverwritten | avr/registers.c:195-202 | A failed potentiometer write marks TCHARGE 0xEE, but the store that ends the write overwrites it with the clamped value. |
| HostInterface.HostRead | avr/registers.c:43-100 | Clears the activity watchdog, updates the bank as ReadImage says, and returns the register's new value. |
| HostInterface.MirrorBits | avr/registers.c:52-76 | One register has the mask's bits set or cleared together; the rest of the bank is unchanged. |
| HostInterface.SampleStatus | avr/registers.c:52-76 | STATUS becomes StatusSample of the pins; no other register changes. |
| HostInterface.HostWrite | avr/registers.c:103-211 | Clears the activity watchdog and moves the bank, seconds and reboot flag exactly as AfterWrite says, with its effects. |
| HostInterface.WriteRestart | avr/registers.c:155-162 | The restart-register branch of HostWrite agrees with AfterWrite. |
| HostInterface.WriteSeconds | avr/registers.c:164-172 | The SECONDS branch of HostWrite agrees with AfterWrite. |
| HostInterface.WriteAndStore | avr/registers.c:112-210 | The storing branches of HostWrite (OSCCAL, CONTROL, address, charge settings, others) agree with AfterWrite. |
| HostInterface.WriteControl | avr/registers.c:118-153 | The CONTROL branch agrees with AfterWrite. |
| HostInterface.WriteChargeTimer | avr/registers.c:195-202 | The TCHARGE branch, including the failed bus write, agrees with AfterWrite. |
| TwiSlave.Classify | avr/twi_slave.c:14-16 | The bus event depends only on the status with its two prescaler bits masked off. |
| TwiSlave.NextIndex | avr/twi_slave.c:28-33 | The register pointer moves to the next register and wraps to 0 after the last. |
| TwiSlave.FirstByteIndex | avr/twi_slave.c:43-55 | The first byte of a write selects that register, or register 0 when it is out of range. |
| TwiSlave.AdvanceWraps | avr/twi_slave.c:49-55 | k auto-increments move the pointer k places round the bank. |
| TwiSlave.OffsetShift | avr/twi_slave.c:49-55 | One auto-increment followed by k − 1 places is k places. |
| TwiSlave.DataBytesAdvance | avr/twi_slave.c:38-59 | Data bytes after the first go to consecutive registers round the bank, and the byte counter counts them. |
| TwiSlave.WriteTransfer | avr/twi_slave.c:38-59 | A write transfer's first byte is the register pointer and is stored nowhere; the next bytes go to that register onward; the 8-bit counter wraps after 255 bytes. |
| TwiSlave.SplitLast | avr/twi_slave.c:38-59 | The byte that wraps the counter to 0 is still stored at the next register. |
| TwiSlave.SlaveAddress | avr/twi_slave.c:82-86 | The 7-bit address is the stored one, or the default when bit 7 is set. |
| TwiSlave.TwarEncodesAddress | avr/twi_slave.c:88 | The address register holds the 7-bit address in bits 7..1, and general call is off. |
| TwiSlave.SlaveInit | avr/twi_slave.c:78-90 | The bus starts on the address register value for REG_I2C_ADDRESS. |
| TwiSlave.SlaveBus.constructor | avr/twi_slave.c:8-9 | The pointer and the byte counter start at zero. |
| TwiSlave.SlaveBus.Interrupt | avr/twi_slave.c:11-75 | The counters step as Counters says. A read refreshes the register image as ReadImage says, returns the current register's value and leaves seconds, reboot flag and effects unchanged. A data byte after the first is a host write as AfterWrite says. A read or such a write clears the activity watchdog; every other event leaves it, changes no register and drives nothing. |
| Power.Dec8 | avr/main.c:141 | `retries--` on 8 bits: one less, or 0xFF from 0. |
| Power.AfterPowerDown | avr/main.c:45-51 | Only a board that is on starts powering down; in any other state nothing changes. |
| Power.AfterEvent | avr/main.c:54-65 | A power event leaves a well-formed machine; what it does is EventGating. |
| Power.EventGating | avr/main.c:54-65 | In an off state with the reason enabled, the machine powers up with 3 retries and ORs the reason into START_REASON, leaving every other register alone; otherwise nothing changes. |
| Power.SamplePowerGood | avr/board.c:125-140 | The PGOOD sample keeps the register count; its bit is stated in ClearMaskClearsReason. |
| Power.ArmCountdown | avr/board.c:19-31 | Arming the countdown keeps the register count; its effect is stated in ClearMaskClearsReason. |
| Power.ClearMaskStep | avr/main.c:87-106 | The CLEAR_MASK step leaves a well-formed machine; see ClearMaskClearsReason. |
| Power.OffNoPgoodStep | avr/main.c:108-122 | The OFF_NO_PGOOD step leaves a well-formed machine; see OffNoPgoodWakes. |
| Power.Check3vStep | avr/main.c:147-168 | The CHECK_3V step leaves a well-formed machine; see PowerUpCheckOnDown. |
| Power.Step | avr/main.c:68-187 | One state_machine step leaves a well-formed machine; its transitions are the lemmas below. |
| Power.InitStep | avr/main.c:72-85 | INIT and any unknown state go to POWER_UP with 3 retries when 3.3 V is present, otherwise to POWER_DOWN; registers are kept. |
| Power.ClearMaskClearsReason | avr/main.c:87-106 | CLEAR_MASK clears START_REASON, samples PGOOD into STATUS, goes to OFF_WITH_PGOOD iff PGOOD is low, and arms the countdown from the restart registers. |
| Power.OffNoPgoodWakes | avr/main.c:108-122 | When PGOOD turns good in OFF_NO_PGOOD, the board powers up with 3 retries iff START_PWRGOOD is enabled, recording the reason; otherwise it waits in OFF_WITH_PGOOD. |
| Power.PowerUpCheckOnDown | avr/main.c:139-187 | POWER_UP uses a retry and checks 3.3 V. CHECK_3V goes on, retries, or gives up with POWER_DOWN. ON falls to POWER_DOWN when 3.3 V is lost. POWER_DOWN goes to CLEAR_MASK. |
| Power.InvKept | avr/main.c:68-187 | The retry counter never underflows: the invariant holds initially and is kept by every step, event and power-down; POWER_UP always has a retry left. |
| Power.Run | avr/main.c:222-248 | Repeated steps keep the machine well formed. |
| Power.RetriesExhaust | avr/main.c:139-168 | Without 3.3 V, r retries take exactly 2r steps and r power-up attempts, then the machine is in POWER_DOWN with 0 retries. |
| Power.RunSplit | avr/main.c:222-248 | Running a + b steps is running a, then b. |
| Power.ThreeTriesAfterEvent | avr/main.c:54-65 | After an enabled wake event with no 3.3 V, the board tries to power up exactly 3 times in 6 steps and ends in POWER_DOWN. |
| Power.PowerControl.constructor | avr/main.c:41-42 | The machine starts in INIT with 0 retries, which satisfies the retry invariant. |
| Power.PowerControl.PowerDown | avr/main.c:45-51 | The state becomes AfterPowerDown of the old state. |
| Power.PowerControl.PowerEvent | avr/main.c:54-65 | State, retries and registers become AfterEvent of the old ones. |
| Power.PowerControl.StateMachine | avr/main.c:68-187 | State, registers, effects and any new countdown are exactly Step's. |
| Power.PowerControl.ClearMask | avr/main.c:87-106 | The CLEAR_MASK branch is ClearMaskStep. |
| Power.PowerControl.OffNoPgood | avr/main.c:108-122 | The OFF_NO_PGOOD branch is OffNoPgoodStep. |
| Power.PowerControl.Check3v | avr/main.c:147-168 | The CHECK_3V branch is Check3vStep. |
| Power.PowerControl.TimerInterrupt | avr/board.c:294-328 | One timer tick: the countdown and hold counter step; an expiring countdown is a START_TIMEOUT event; a 5-tick hold then powers down. |
| Power.PowerControl.WakePinChange | avr/board.c:261-291 | An opto or button edge to low is a START_EXTERNAL or START_BUTTON event, and any other edge changes nothing; the opto interrupt is disabled on every edge, the button interrupt only on a low one. |
| Power.PowerControl.MainLoopPass | avr/main.c:222-248 | The watchdog is reset first; the machine steps iff the tick counter moved since the last pass; the restart countdown is re-armed only by that step; a reboot request stops the loop; otherwise the OSCCAL register becomes the oscillator value. The effects are exactly the watchdog reset, the step's effects, then either the bus stop, board stop and bootloader flag, or the persisted and applied new calibration. |
| Spm.PageStart | avr/twiboot/main.c:214-217 | The page holding an address starts at a page boundary at or below it, within one page. |
| Spm.PageBelow | avr/twiboot/main.c:214-215 | A page starting below APP_END ends at or before it. |
| Spm.AlignedPageStart | avr/twiboot/main.c:210-217 | An aligned address starts its own page. |
| Spm.WordOffset | avr/twiboot/main.c:224 | boot_page_fill uses an even offset inside the page, so a whole word fits. |
| Spm.Pos | avr/twiboot/main.c:220-229 | Pos inverts Slot: it gives the byte that lands at each offset of the page. |
| Spm.OffsetAdvance | avr/twiboot/main.c:220-229 | Filling at an address j bytes on lands j bytes further round the page. |
| Spm.WrapOffset | avr/avr109/main.c:224-225 | A 16-bit address that wrapped fills the same place in the page. |
| Spm.Erased | avr/avr109/main.c:346-356 | An erased area reads 0xFF everywhere. |
| Spm.PageFill | avr/twiboot/main.c:224 | boot_page_fill keeps the buffer's size; which bytes it loads is stated by FillWordsAt. |
| Spm.FillWrapped | avr/avr109/main.c:224-225 | Filling at an address taken mod 2^16 fills the same word. |
| Spm.FillWords | avr/twiboot/main.c:220-229 | Loading n bytes word by word keeps the buffer's size; its contents are stated by FillWordsAt and FillWordsNext. |
| Spm.FillWordsNext | avr/avr109/main.c:434-462 | Loading one more word is a page fill at the 16-bit address reached so far. |
| Spm.FillWordsPrefix | avr/avr109/main.c:434-462 | Only the bytes actually loaded matter to the buffer. |
| Spm.FillWordsAt | avr/twiboot/main.c:220-229 | After loading n bytes from address a, each buffer byte is the data byte that landed there, or the old byte if none did. |
| Spm.PageErase | avr/twiboot/main.c:217 | boot_page_erase keeps the flash size; its effect is stated by EraseThenWrite and WriteBelowProtects. |
| Spm.PageWrite | avr/twiboot/main.c:231 | boot_page_write keeps the flash size; its effect is stated by EraseThenWrite, WriteOnlyClearsBits and FlashPageWritten. |
| Spm.EraseThenWrite | avr/twiboot/main.c:217-231 | An erase followed by a write puts the buffer into the page and leaves all other flash alone. |
| Spm.WriteOnlyClearsBits | avr/avr109/main.c:239 | A page write never sets a bit that is clear in flash. |
| Spm.WriteBelowProtects | avr/twiboot/main.c:214-231 | An erase or write at an address below APP_END leaves the boot section unchanged. |
| TwiBoot.Chipinfo | avr/twiboot/main.c:151-166 | The chip-info reply has 8 bytes and begins with the 3 signature bytes. |
| TwiBoot.ChipinfoEncodes | avr/twiboot/main.c:151-166 | Byte 3 is the page size; bytes 4-5 are APP_END and bytes 6-7 the EEPROM size, high byte first, truncated to 16 bits (exact below 64 KiB). |
| TwiBoot.BootDecision | avr/twiboot/main.c:505-520 | The loader stays iff the reset vector is erased or the watchdog caused the reset, and it runs the boot timeout iff the application exists. |
| TwiBoot.ProgramPage | avr/twiboot/main.c:208-234 | Programming at an address below APP_END leaves the boot section unchanged. |
| TwiBoot.WritePage | avr/twiboot/main.c:208-234 | write_flash_page keeps the invariant and never changes the boot section. |
| TwiBoot.Receive | avr/twiboot/main.c:287-414 | Any received byte keeps the invariant and leaves the boot section unchanged. |
| TwiBoot.Transmit | avr/twiboot/main.c:428-457 | A read keeps the invariant and changes neither flash nor EEPROM. |
| TwiBoot.Event | avr/twiboot/main.c:265-472 | Whatever the master sends, the invariant holds and the boot section is never programmed. |
| TwiBoot.FirstByte | avr/twiboot/main.c:292-314 | The first byte becomes the command. Only WAIT, SWITCH_APPLICATION and WRITE_MEMORY are ACKed; the last two go on to a parameter byte. Address and memories are kept. |
| TwiBoot.UnknownByteKeepsLoader | avr/twiboot/main.c:292-314 | With the timeout stopped, an unknown first byte leaves the loader iff it is BOOT_APPLICATION. |
| TwiBoot.SwitchApplication | avr/twiboot/main.c:320-329 | The parameter BOOTTYPE_APPLICATION turns the command into BOOT_APPLICATION; the byte is NACKed either way. |
| TwiBoot.SelectMemory | avr/twiboot/main.c:330-358 | Memory types 0..2 select chip info, flash or EEPROM writes and are ACKed; any other is NACKed and resets the counter. |
| TwiBoot.AddressBytes | avr/twiboot/main.c:362-367 | The next two bytes set the address, high byte first, and are ACKed. |
| TwiBoot.ReceiveAll | avr/twiboot/main.c:287-414 | A run of bytes keeps the invariant and has one ACK per byte. |
| TwiBoot.PayloadCompletesPage | avr/twiboot/main.c:369-409 | The payload bytes that complete a page buffer trigger exactly one page write of that buffer. |
| TwiBoot.AcksThenNack | avr/twiboot/main.c:376-384 | n − 1 ACKs and then one NACK. |
| TwiBoot.PayloadAcks | avr/twiboot/main.c:376-384 | Every payload byte is ACKed except the one that fills the page. |
| TwiBoot.PayloadByte | avr/twiboot/main.c:373-409 | A flash payload byte is stored in the buffer, or written out with the page when it is the last. |
| TwiBoot.FlashWriteTransfer | avr/twiboot/main.c:369-413 | A full page of payload: every byte but the last is ACKed and the buffer holds the page. Below APP_END the page is programmed and the address advances a page; at or above it flash and address are unchanged. |
| TwiBoot.ProgramPageAt | avr/twiboot/main.c:208-234 | Byte i of flash after programming is the data byte that landed there if i is in the page, else unchanged. |
| TwiBoot.ProgramAlignedPage | avr/twiboot/main.c:208-234 | At an aligned address below APP_END the page becomes exactly the data, and the page ends at or before APP_END. |
| TwiBoot.ReadAll | avr/twiboot/main.c:428-457 | A read of n bytes keeps the invariant and returns n bytes. |
| TwiBoot.ReadSequence | avr/twiboot/main.c:428-457 | The k-th byte of a read run is the k-th byte of the reply stream: reads cycle through the version string and chip info, stream flash and EEPROM from the address with 16-bit wrap-around, and give 0xFF for any other command. |
| TwiBoot.ReplyFirst | avr/twiboot/main.c:428-457 | The byte sent now is the first byte of the stream. |
| TwiBoot.ReplyShift | avr/twiboot/main.c:428-457 | After one byte the rest of the reply is the same stream one byte on. |
| TwiBoot.CounterShift | avr/twiboot/main.c:432-440 | The version and chip-info counters move on modulo the reply's length. |
| TwiBoot.AddressShift | avr/twiboot/main.c:442-448 | Flash and EEPROM reads move the 16-bit address on by one. |
| TwiBoot.VersionRead | avr/twiboot/main.c:417-435 | SLA+R restarts the counter: the version reply is the version string from its first byte, cyclically. |
| TwiBoot.EepromCounterWraps | avr/twiboot/main.c:389-413 | The 256th byte of an EEPROM write wraps the 8-bit counter to 0, is still ACKed and is still written. |
| TwiBoot.ActivityStopsTimeout | avr/twiboot/main.c:275-284 | Once the master addresses the loader, the boot timeout is off, and only BOOT_APPLICATION ends the loader. |
| TwiBoot.Bootloader.constructor | avr/twiboot/main.c:505-520 | The loader starts in CMD_WAIT with counter and address 0, an erased page buffer, and the timeout the boot decision chose. |
| TwiBoot.Bootloader.Interrupt | avr/twiboot/main.c:265-472 | One TWI interrupt is Event, both in state and in the answer to the bus. |
| TwiBoot.Bootloader.Addressed | avr/twiboot/main.c:275-284 | SLA+W stops the timeout on first activity and resets the counter. |
| TwiBoot.Bootloader.ReceiveByte | avr/twiboot/main.c:287-414 | A received byte is Receive. |
| TwiBoot.Bootloader.ReceiveHeader | avr/twiboot/main.c:290-367 | Bytes 0 to 3 of a write are Receive. |
| TwiBoot.Bootloader.ReceivePayload | avr/twiboot/main.c:369-413 | Payload bytes are Receive, including the page write and the EEPROM write. |
| TwiBoot.Bootloader.WriteFlashPage | avr/twiboot/main.c:208-234 | write_flash_page is WritePage. |
| TwiBoot.Bootloader.FillPage | avr/twiboot/main.c:220-229 | The fill loop loads the whole buffer word by word from the address on and advances the address by a page. |
| TwiBoot.Bootloader.LoadWord | avr/twiboot/main.c:222-227 | One word is filled and the address moves on by 2. |
| TwiBoot.Bootloader.WriteEepromByte | avr/twiboot/main.c:247-261 | The byte is stored at the address and the address moves on with 16-bit wrap-around. |
| TwiBoot.Bootloader.ReadEepromByte | avr/twiboot/main.c:237-244 | Returns the byte at the address and moves the address on. |
| TwiBoot.Bootloader.TransmitByte | avr/twiboot/main.c:428-457 | The reply to a read is Transmit. |
| Avr109.BootDecision | avr/avr109/main.c:124-146 | The loader runs iff the reset vector is erased or the EEPROM loader flag is set; OSCCAL is loaded iff its EEPROM byte is not erased. |
| Avr109.Word | avr/avr109/main.c:166-171 | A 16-bit word from a high and a low byte: high byte = word / 256, low byte = word mod 256. |
| Avr109.BlockSupport | avr/avr109/main.c:191-196 | The 'b' reply is 3 bytes starting with 'Y'. |
| Avr109.BlockSupportEncodesSize | avr/avr109/main.c:191-196 | Its two size bytes encode the page size, high byte first. |
| Avr109.DeviceCodes | avr/avr109/main.c:328-334 | The 't' reply is the part code (if any) then the list end, 0. |
| Avr109.SignatureReply | avr/avr109/main.c:378-383 | The 's' reply is the three signature bytes, last first. |
| Avr109.BlockCount | avr/avr109/main.c:434-462 | A do-while loop on a 16-bit size runs size times, or 65536 times for size 0. |
| Avr109.ByteAddress | avr/avr109/main.c:224 | `address << 1` in 16 bits is even. |
| Avr109.Cleared | avr/avr109/main.c:346-356 | Every flash byte below the limit reads 0xFF; the rest is unchanged. |
| Avr109.EepromBlock | avr/avr109/main.c:415-431 | Writing an EEPROM block keeps the EEPROM's size. |
| Avr109.EepromBlockPrefix | avr/avr109/main.c:415-431 | Only the bytes written matter to the EEPROM block. |
| Avr109.EepromBytes | avr/avr109/main.c:472-490 | BlockRead 'E' sends n bytes. |
| Avr109.FlashBytes | avr/avr109/main.c:491-498 | BlockRead 'F' sends n bytes. |
| Avr109.EepromBytesStep | avr/avr109/main.c:472-490 | One more EEPROM byte is the byte at the wrapped address. |
| Avr109.FlashBytesStep | avr/avr109/main.c:491-498 | One more word is the two flash bytes at the 16-bit address, low byte first, and the address moves on by 2. |
| Avr109.Dispatch | avr/avr109/main.c:153-396 | Any command keeps the invariant and consumes input. |
| Avr109.DispatchBlock | avr/avr109/main.c:175-188 | 'B' and 'g' keep the invariant. |
| Avr109.DispatchMemory | avr/avr109/main.c:166-356 | The memory and argument commands keep the invariant. |
| Avr109.AnswerBytes | avr/avr109/main.c:359-395 | Only ESC is answered with nothing; any unknown command is answered with '?'. |
| Avr109.Execute | avr/avr109/main.c:153-163 | One pass of the loop keeps the invariant and consumes at least the command character. |
| Avr109.Session | avr/avr109/main.c:153-396 | The loop runs until 'E' or until the input no longer holds a complete command, and keeps the invariant. |
| Avr109.Steps | avr/avr109/main.c:153-396 | k passes keep the invariant. |
| Avr109.NextWordLoaded | avr/avr109/main.c:444-452 | One more pass of the fill loop loads the next word at the 16-bit address reached so far, and the address moves on by 2. |
| Avr109.Bootloader.constructor | avr/avr109/main.c:124-150 | The loader starts at address 0 with an erased page buffer and the EEPROM flags read. |
| Avr109.Bootloader.RxChar | avr/avr109/main.c:158-160 | rxchar takes the next input byte. |
| Avr109.Bootloader.TxChar | avr/avr109/main.c:216 | txchar appends one output byte. |
| Avr109.Bootloader.Serve | avr/avr109/main.c:153-396 | The command loop's final state is Session. |
| Avr109.Bootloader.Command | avr/avr109/main.c:155-396 | One command is Execute. |
| Avr109.Bootloader.RunBlock | avr/avr109/main.c:175-188 | 'B' and 'g' are DispatchBlock. |
| Avr109.Bootloader.RunMemory | avr/avr109/main.c:166-356 | The other commands with arguments are DispatchMemory. |
| Avr109.Bootloader.ReceiveAddress | avr/avr109/main.c:166-171 | 'A' is SetAddress. |
| Avr109.Bootloader.SendProgramWord | avr/avr109/main.c:201-209 | 'R' is ReadProgram. |
| Avr109.Bootloader.ReceiveLowByte | avr/avr109/main.c:212-217 | 'c' is LoadLow. |
| Avr109.Bootloader.ReceiveHighByte | avr/avr109/main.c:220-227 | 'C' is LoadHigh. |
| Avr109.Bootloader.ProgramPage | avr/avr109/main.c:230-243 | 'm' is WriteProgramPage. |
| Avr109.Bootloader.ReceiveEepromByte | avr/avr109/main.c:248-254 | 'D' is WriteEepromByte. |
| Avr109.Bootloader.SendEepromByte | avr/avr109/main.c:257-261 | 'd' is ReadEepromByte. |
| Avr109.Bootloader.ReceiveLockBits | avr/avr109/main.c:266-271 | 'l' is WriteLockBits. |
| Avr109.Bootloader.Exit | avr/avr109/main.c:312-319 | 'E' is ExitLoader. |
| Avr109.Bootloader.IgnoreArgument | avr/avr109/main.c:337-341 | 'x', 'y' and 'T' read their argument and answer OK. |
| Avr109.Bootloader.SendAnswer | avr/avr109/main.c:359-395 | The commands that only answer send AnswerBytes. |
| Avr109.Bootloader.SendSoftwareId | avr/avr109/main.c:359-368 | 'S' sends "AVRBOOT". |
| Avr109.Bootloader.EraseApplication | avr/avr109/main.c:346-356 | 'e' is ChipErase. |
| Avr109.Bootloader.BlockLoad | avr/avr109/main.c:408-469 | BlockLoad is LoadEepromBlock or LoadFlashBlock and answers OK; an unknown memory type changes nothing and answers '?'. |
| Avr109.Bootloader.BlockLoadEeprom | avr/avr109/main.c:415-431 | BlockLoad 'E' is LoadEepromBlock. |
| Avr109.Bootloader.ReceiveBuffer | avr/avr109/main.c:417-422 | The first loop copies the next size input bytes into the buffer. |
| Avr109.Bootloader.ProgramEeprom | avr/avr109/main.c:423-429 | The second loop writes the buffer into EEPROM from the address on, and the address advances by size with 16-bit wrap-around. |
| Avr109.Bootloader.BlockLoadFlash | avr/avr109/main.c:434-462 | BlockLoad 'F' is LoadFlashBlock. |
| Avr109.Bootloader.FillBlock | avr/avr109/main.c:440-455 | The do-while loop fills BlockCount(size) bytes as words from the byte address and advances it with 16-bit wrap-around. |
| Avr109.Bootloader.LoadNextWord | avr/avr109/main.c:442-453 | One pass loads the next word, low byte first, and moves the address on by 2. |
| Avr109.Bootloader.BlockRead | avr/avr109/main.c:472-502 | BlockRead is ReadEepromBlock or ReadFlashBlock; an unknown memory type sends nothing and changes nothing. |
| Avr109.Bootloader.BlockReadEeprom | avr/avr109/main.c:477-489 | BlockRead 'E' is ReadEepromBlock. |
| Avr109.Bootloader.BlockReadFlash | avr/avr109/main.c:491-501 | BlockRead 'F' is ReadFlashBlock. |
| Avr109.Bootloader.SendBlock | avr/avr109/main.c:491-498 | The loop sends FlashBytes from the byte address and advances it with 16-bit wrap-around. |
| Avr109.Bootloader.SendNextWord | avr/avr109/main.c:493-497 | One pass sends the word at the address, low byte first, and moves on by 2. |
| Avr109Properties.WordAdvance | avr/avr109/main.c:460-461 | Converting back to a word address after n bytes is n / 2 words on, modulo 2^15. |
| Avr109Properties.ReadWordBothWays | avr/avr109/main.c:201-209 | 'R' and a 2-byte BlockRead 'F' return the same word in opposite byte order; 'R' wraps the address at 2^16, BlockRead at 2^15. |
| Avr109Properties.ExecuteStep | avr/avr109/main.c:153-163 | A pass of the loop dispatches on the first input byte. |
| Avr109Properties.WordBytes | avr/avr109/main.c:215-222 | A low byte held in temp_int with a high byte ORed over it gives both back. |
| Avr109Properties.LowThenHigh | avr/avr109/main.c:212-227 | 'c' then 'C' fills that word at the byte address, moves the word address on and answers OK twice. |
| Avr109Properties.PageWriteGuard | avr/avr109/main.c:230-243 | 'm' never touches the boot section; at or above APP_END it answers '?' then OK and changes nothing. |
| Avr109Properties.EepromBlockAt | avr/avr109/main.c:415-431 | After an EEPROM block that fits, byte j is the block's byte j − a inside it, and unchanged outside it. |
| Avr109Properties.EepromReadBack | avr/avr109/main.c:472-490 | Reading back a block that fits returns the block. |
| Avr109Properties.SetAddressStep | avr/avr109/main.c:166-171 | 'A' hi lo sets the address, high byte first, and answers OK. |
| Avr109Properties.OneStep | avr/avr109/main.c:153-396 | One pass on a complete command is Dispatch. |
| Avr109Properties.BlockLoadStep | avr/avr109/main.c:175-180 | A pass on 'B' is LoadBlock on its arguments. |
| Avr109Properties.LoadEepromReady | avr/avr109/main.c:175-180 | An EEPROM block load whose data has all arrived can run. |
| Avr109Properties.LoadEepromDispatch | avr/avr109/main.c:175-180 | 'B' with memory 'E' takes the size then the data and answers OK. |
| Avr109Properties.EepromBlockInput | avr/avr109/main.c:415-431 | BlockLoad 'E' writes the data, moves the address by its length, consumes it, and changes no other field. |
| Avr109Properties.EepromBlockFields | avr/avr109/main.c:415-431 | The same, field by field, once the size and memory type are taken. |
| Avr109Properties.LoadEepromResult | avr/avr109/main.c:175-180 | 'B' … 'E' after the command byte, field by field. |
| Avr109Properties.EepromLoadStep | avr/avr109/main.c:175-180 | A full EEPROM block-load command, field by field. |
| Avr109Properties.EepromReadStep | avr/avr109/main.c:183-188 | 'g' … 'E' sends the EEPROM bytes from the address and moves the address on. |
| Avr109Properties.EepromLoadRewind | avr/avr109/main.c:166-180 | An EEPROM block load then 'A' back to the start leaves the block written and the address where it began. |
| Avr109Properties.EepromBlockRoundTrip | avr/avr109/main.c:175-188 | Writing an EEPROM block, rewinding and reading it back returns exactly the data. |
| Avr109Properties.LoadFlashReady | avr/avr109/main.c:175-180 | A flash block load whose words have all arrived can run. |
| Avr109Properties.LoadFlashDispatch | avr/avr109/main.c:175-180 | 'B' with memory 'F' takes the size then the words and answers OK. |
| Avr109Properties.FlashBlockInput | avr/avr109/main.c:434-462 | BlockLoad 'F' writes the filled buffer at the byte address, erases the buffer, moves the word address and changes no other field. |
| Avr109Properties.FlashBlockFields | avr/avr109/main.c:434-462 | The same once the size and memory type are taken. |
| Avr109Properties.FlashLoadStep | avr/avr109/main.c:175-180 | A full flash block-load command, field by field. |
| Avr109Properties.LoadFlashResult | avr/avr109/main.c:175-180 | 'B' … 'F' after the command byte, field by field. |
| Avr109Properties.FlashReadStep | avr/avr109/main.c:183-188 | 'g' … 'F' sends the flash bytes from the byte address and moves the word address on. |
| Avr109Properties.FlashPageWritten | avr/avr109/main.c:434-462 | A page-aligned block of a page: each byte becomes old AND data, and all other flash is unchanged. |
| Avr109Properties.FlashPageProgrammed | avr/avr109/main.c:434-462 | Over an erased page the words sent are what the page then holds. |
| Avr109Properties.FlashLoadRewind | avr/avr109/main.c:166-180 | A flash block load then 'A' back leaves the page written and the address where it began. |
| Avr109Properties.FlashBlockRoundTrip | avr/avr109/main.c:175-188 | Writing a page over erased flash, rewinding and reading it back returns exactly the data. |
| Avr109Properties.BlockLoadReachesBootSection | avr/avr109/main.c:434-462 | BlockLoad 'F' has no APP_END check: a page at APP_END is programmed (old AND data). |
| Avr109Properties.EepromWriteStep | avr/avr109/main.c:248-254 | 'D' v stores v at the address, moves the address on and answers OK. |
| Avr109Properties.EepromByteRoundTrip | avr/avr109/main.c:248-261 | 'D' v, 'A' back, 'd' returns v. |
| Avr109Properties.BootSectionKept | avr/avr109/main.c:153-396 | Every command but a flash BlockLoad leaves the boot section unchanged. |
| Avr109Properties.DispatchProgramming | avr/avr109/main.c:230-356 | The loop runs 'm' and 'e' as WriteProgramPage and ChipErase. |
| Avr109Properties.WritePageKeepsBootSection | avr/avr109/main.c:230-243 | 'm' only writes below APP_END. |
| Avr109Properties.ChipEraseKeepsBootSection | avr/avr109/main.c:346-356 | 'e' only erases below APP_END. |
| Avr109Properties.BlockKeepsBootSection | avr/avr109/main.c:408-502 | Block commands other than a flash block load leave flash alone. |
| Avr109Properties.MemoryKeepsFlash | avr/avr109/main.c:166-341 | The other argument commands leave flash alone. |
| Avr109Properties.ChipEraseStep | avr/avr109/main.c:346-356 | 'e' erases everything below APP_END, keeps the rest, leaves the address at APP_END and answers OK. |
| Avr109Properties.ExitStep | avr/avr109/main.c:312-319 | 'E' clears the loader flag in EEPROM, answers OK and ends the session; the next reset runs the loader only if the reset vector is erased. |
| Avr109Properties.LockBitsStep | avr/avr109/main.c:266-271 | 'l' v answers OK and sets no lock bit: every bit clear in v is clear afterwards, and flash is unchanged. |
| Avr109Properties.UnknownStep | avr/avr109/main.c:392-395 | An unknown command is answered '?', ESC with nothing; nothing else changes. |
| Avr109Properties.EmptyBlockRead | avr/avr109/main.c:472-490 | BlockRead 'E' of size 0 sends 65536 bytes and leaves the address where it was. |
| Avr109Properties.SessionSteps | avr/avr109/main.c:153-396 | Running k passes and then the session is the same as the session. |

## Left out

- I/O timing, sleep, the watchdog, interrupt priorities and concurrency. Each interrupt is one atomic step. The torn read of the 32-bit seconds counter is not modelled.
- The bit-banged I²C driver (`bb_i2c.c`), the INA3221 monitor, `eeprom.c` and the `utils` host tools. They are outside the modelled core. A failed potentiometer write is a boolean parameter, and EEPROM writes are `Persist` effects.
- The power-good oscillation handler (PCINT1, `avr/board.c:273-280`). It only drives chip enable.
- The GPIO, timer and UART set-up, LEDs, vector relocation and the start-up code of both loaders.
- Register numbers and bit masks. The repository's `registers.h` does not match `registers.c`, so the model chooses distinct register numbers and single-bit masks, and its proofs use only those facts.
- AVR109 'r', 'F', 'N' and 'Q' read lock and fuse bits with a macro the sources do not define, so they are answered as unknown commands.
- AVR109 `(rxchar() << 8) | rxchar()`: C does not fix the order of the two reads. The model reads the high byte first.
- AVR109 `rxchar` blocks until a byte arrives. The model requires each command's arguments to be present (`Ready`), and a session ends when they are not.
- Avr109.Bootloader.BlockLoad: an odd flash block size is excluded by its requires, because the loop counts down by 2 and would not stop. An EEPROM block larger than the page is excluded too, because it would overrun the local buffer.
- Avr109.Bootloader.BlockRead: an odd flash block size is excluded by its requires, for the same reason.
- Lock-bit writes: the hardware rule for which lock bits may be programmed is not modelled. Programming `~v` clears the bits that are clear in v, so 'l' v ANDs v into the lock byte.
- The EEPROM address of both loaders is taken modulo the EEPROM size; the hardware ignores the high address bits.
- Flash mirroring: program memory is one 64 KiB byte sequence, while a device with less flash ignores the high address bits. A twiboot flash read at or above the flash size, an AVR109 'R' or BlockRead 'F' at a word address at or above half the flash size, and an AVR109 BlockLoad 'F' at such an address (which on the device rewrites low flash, page 0 included) reach a separate upper region in the model instead of low flash.
- twiboot devices are limited to pages of at most 128 bytes, so the 8-bit byte counter and page countdown cannot overflow.
- APP_END, the page size, the EEPROM size and the signature are parameters of the device, not constants of one chip.
- Avr109Properties.PageWriteGuard: states that flash at or above APP_END is unchanged, but not the page written below it. Page contents are stated for block loads by FlashPageWritten.
- HostInterface.AfterWrite: its own contract states only well-formedness. Each register write is stated by ChargeSettingsClamped, ExtendedIsReadOnly, RestartWriteArmsTimeout, ControlWrite, ReadAfterWrite and SecondsRoundTrip.
- HostInterface.TimerMark: its own contract states only the bank size. Its effect is stated by TimerErrorMarkerOverwritten.
- Power.AfterEvent: its own contract states only well-formedness. EventGating states the transition.
- Power.Step: its own contract states only well-formedness. InitStep, ClearMaskClearsReason, OffNoPgoodWakes, PowerUpCheckOnDown and InvKept state the transitions.
- Power.ClearMaskStep: its own contract states only well-formedness. ClearMaskClearsReason states its effect.
- Power.OffNoPgoodStep: its own contract states only well-formedness. OffNoPgoodWakes states its effect.
- Power.Check3vStep: its own contract states only well-formedness. PowerUpCheckOnDown states its effect.
- Power.SamplePowerGood: its own contract states only the register count. ClearMaskClearsReason states the sampled bit.
- Power.ArmCountdown: its own contract states only the register count. ClearMaskClearsReason states its effect.
- Power.Run: its own contract states only well-formedness. RetriesExhaust, RunSplit and ThreeTriesAfterEvent state what runs do.
- Spm.PageFill: its own contract states only the buffer size. FillWordsAt and FillWordsNext state its contents.
- Spm.PageFill: two hardware rules of the SPM page buffer are not modelled. (1) On the device a buffer word cannot be loaded twice before the buffer is erased by a page write or reset; the model lets a second fill overwrite it. This affects AVR109 'c'/'C' repeated at the same word before 'm' (avr/avr109/main.c:212-227), and a BlockLoad 'F' over words already loaded by 'c'/'C'. (2) On the device an EEPROM write in the middle of a page load discards the words loaded so far; the model keeps them. This affects AVR109 'D' (avr/avr109/main.c:248-252), BlockLoad 'E' (avr/avr109/main.c:415-430) and the flag update of 'E' (avr/avr109/main.c:312-317) issued between 'c'/'C' and 'm'. Avr109Properties.FlashPageWritten, FlashPageProgrammed, FlashLoadRewind and FlashBlockRoundTrip therefore describe the device only when the page buffer is erased at the start of the block load, as it is after reset and after every page write; with words left over from 'c'/'C' the model reads back the new data where the device keeps the old words. twiboot is not affected: it fills the SPM buffer only inside write_flash_page, once per word, right before the page write.
- Spm.FillWords: its own contract states only the buffer size. FillWordsAt states its contents.
- Spm.PageErase: its own contract states only the flash size. EraseThenWrite and WriteBelowProtects state its effect.
- Spm.PageWrite: its own contract states only the flash size. EraseThenWrite, WriteOnlyClearsBits and FlashPageWritten state its effect.
- TwiBoot.ProgramPage: its own contract states boot-section safety. ProgramPageAt and ProgramAlignedPage state the page contents.
- TwiBoot.Receive: its own contract states the invariant and boot-section safety. FirstByte, SwitchApplication, SelectMemory, AddressBytes, PayloadByte and EepromCounterWraps state what each byte does.
- TwiBoot.Transmit: its own contract states the invariant and that memory is unchanged. ReplyFirst and ReplyShift state the byte sent.
- TwiBoot.Event: its own contract states the invariant and boot-section safety. ActivityStopsTimeout and VersionRead state particular events.
- TwiBoot.ReceiveAll: its own contract states the invariant and the ACK count. PayloadAcks and FlashWriteTransfer state the ACKs and the result.
- TwiBoot.ReadAll: its own contract states the invariant and the length. ReadSequence states the bytes.
- Avr109.Dispatch: its own contract states the invariant and that input is consumed. The step lemmas in Avr109Properties state each command.
- Avr109.DispatchBlock: the same; BlockLoadStep, EepromReadStep and FlashReadStep state the block commands.
- Avr109.DispatchMemory: the same; SetAddressStep, LowThenHigh, PageWriteGuard, EepromWriteStep, LockBitsStep and ChipEraseStep state the memory commands.
- Avr109.EepromBlock: its own contract states only the size. EepromBlockAt states the contents.

// The serial bootloader after Atmel application note AVR109, "Self-programming"
// (avr/avr109/main.c): the boot decision, and a command loop that reads one
// command character and its arguments from the UART and answers on it,
// programming flash pages, EEPROM and lock bits. The UART is reduced to the
// sequence of bytes still to be received and the sequence of bytes sent.

module Avr109 {
  import opened Bytes
  import opened Spm

  // Command characters (ASCII)
  const CMD_SET_ADDRESS: Byte := 0x41       // 'A'
  const CMD_BLOCK_LOAD: Byte := 0x42        // 'B'
  const CMD_BLOCK_READ: Byte := 0x67        // 'g'
  const CMD_BLOCK_SUPPORT: Byte := 0x62     // 'b'
  const CMD_READ_PROGRAM: Byte := 0x52      // 'R'
  const CMD_LOAD_LOW: Byte := 0x63          // 'c'
  const CMD_LOAD_HIGH: Byte := 0x43         // 'C'
  const CMD_WRITE_PAGE: Byte := 0x6D        // 'm'
  const CMD_WRITE_EEPROM: Byte := 0x44      // 'D'
  const CMD_READ_EEPROM: Byte := 0x64       // 'd'
  const CMD_WRITE_LOCK: Byte := 0x6C        // 'l'
  const CMD_ENTER_PROGRAMMING: Byte := 0x50 // 'P'
  const CMD_LEAVE_PROGRAMMING: Byte := 0x4C // 'L'
  const CMD_EXIT: Byte := 0x45              // 'E'
  const CMD_PROGRAMMER_TYPE: Byte := 0x70   // 'p'
  const CMD_DEVICE_CODES: Byte := 0x74      // 't'
  const CMD_SET_LED: Byte := 0x78           // 'x'
  const CMD_CLEAR_LED: Byte := 0x79         // 'y'
  const CMD_SET_DEVICE: Byte := 0x54        // 'T'
  const CMD_CHIP_ERASE: Byte := 0x65        // 'e'
  const CMD_SOFTWARE_ID: Byte := 0x53       // 'S'
  const CMD_SOFTWARE_VERSION: Byte := 0x56  // 'V'
  const CMD_SIGNATURE: Byte := 0x73         // 's'
  const CMD_AUTO_INCREMENT: Byte := 0x61    // 'a'
  const ESC: Byte := 0x1B

  // Memory types of the block commands
  const MEM_EEPROM: Byte := 0x45            // 'E'
  const MEM_FLASH: Byte := 0x46             // 'F'

  // Replies
  const OK: Byte := 0x0D                    // '\r'
  const UNKNOWN: Byte := 0x3F               // '?'
  const YES: Byte := 0x59                   // 'Y'
  const SERIAL: Byte := 0x53                // 'S'
  const SOFTWARE_ID: seq<Byte> := [0x41, 0x56, 0x52, 0x42, 0x4F, 0x4F, 0x54]   // "AVRBOOT"
  const SOFTWARE_VERSION: seq<Byte> := [0x31, 0x35]                          // "15"

  /** Bit of the flags byte (EEPROM byte 0) that asks for the loader. */
  const EE_FLAG_LOADER: Byte := 0x01

  /** What the build fixes per device: the page geometry (BLOCKSIZE is the
      page size), the EEPROM size, the signature bytes 1, 2, 3 and the
      AVR910 part code, 0 for none. */
  datatype Device = Device(geometry: Geometry, eepromSize: nat, signature: seq<Byte>, partCode: Byte)

  /** There is an application section, and EEPROM holds the flags and
      oscillator bytes. */
  predicate ValidDevice(d: Device)
  {
    ValidGeometry(d.geometry) && 0 < d.geometry.appEnd
    && 2 <= d.eepromSize <= MEMORY_SIZE && |d.signature| == 3
  }

  // ---------------------------------------------------------------------------
  // Boot decision

  datatype Boot = Boot(runLoader: bool, osccal: Option<Byte>)

  /** main: the oscillator calibration byte (EEPROM byte 1) is loaded unless
      erased; the loader runs when flash word 0 is erased or the flags byte
      (EEPROM byte 0) has EE_FLAG_LOADER set, otherwise the application starts. */
  function BootDecision(flash: seq<Byte>, eeprom: seq<Byte>): (b: Boot)
    requires |flash| >= 2 && |eeprom| >= 2
    ensures b.runLoader <==> (flash[0] == 0xFF && flash[1] == 0xFF) || eeprom[0] & EE_FLAG_LOADER != 0
    ensures b.osccal.Some? <==> eeprom[1] != 0xFF
    ensures b.osccal.Some? ==> b.osccal.value == eeprom[1]
  {
    var flags, oscval := eeprom[0], eeprom[1];
    var osccal := if oscval != 0xFF then Some(oscval) else None;
    var word0 := (flash[0] as bv16) | ((flash[1] as bv16) << 8);
    if word0 == 0xFFFF then Boot(true, osccal)
    else if flags & EE_FLAG_LOADER != 0 then Boot(true, osccal)
    else Boot(false, osccal)
  }

  // ---------------------------------------------------------------------------
  // Arguments and replies

  /** `(rxchar() << 8) | rxchar()`, taking the first byte received as the
      high byte: a size or a word address. */
  function Word(hi: Byte, lo: Byte): (w: Uint16)
    ensures w / 0x100 == hi as int && w % 0x100 == lo as int
  {
    hi as int * 0x100 + lo as int
  }

  /** The same word as the 16 bits stored into temp_int. */
  function WordBits(hi: Byte, lo: Byte): bv16
  {
    ((hi as bv16) << 8) | (lo as bv16)
  }

  /** The reply to 'b': block mode supported, BLOCKSIZE high byte first. */
  function BlockSupport(d: Device): (r: seq<Byte>)
    requires ValidDevice(d)
    ensures |r| == 3 && r[0] == YES
  {
    var w := d.geometry.pageSize as bv16;
    [YES, ((w >> 8) & 0xFF) as Byte, (w & 0xFF) as Byte]
  }

  /** The two size bytes of the 'b' reply encode the page size. */
  lemma BlockSupportEncodesSize(d: Device)
    requires ValidDevice(d)
    ensures var r := BlockSupport(d); WordBits(r[1], r[2]) == d.geometry.pageSize as bv16
  {
  }

  /** The reply to 't': the part code unless there is none, then the list end. */
  function DeviceCodes(d: Device): (r: seq<Byte>)
    ensures 1 <= |r| <= 2 && r[|r| - 1] == 0 && (|r| == 2 <==> d.partCode != 0)
    ensures d.partCode != 0 ==> r[0] == d.partCode
  {
    (if d.partCode != 0 then [d.partCode] else []) + [0]
  }

  /** The reply to 's': the signature bytes, last first. */
  function SignatureReply(d: Device): (r: seq<Byte>)
    requires ValidDevice(d)
    ensures |r| == 3 && forall i :: 0 <= i < 3 ==> r[i] == d.signature[2 - i]
  {
    [d.signature[2], d.signature[1], d.signature[0]]
  }

  // ---------------------------------------------------------------------------
  // Programmer state and the effect of each command, as functions

  /** The globals of the loader (`address`, `temp_int`), the memories it
      programs, the lock bits, and the UART: bytes not yet received and bytes
      sent. `exited` records the jump to the application made by 'E'. */
  datatype Programmer = Programmer(address: Uint16, tempInt: bv16,
                                   flash: seq<Byte>, pageBuffer: seq<Byte>, eeprom: seq<Byte>,
                                   lockBits: Byte, input: seq<Byte>, output: seq<Byte>, exited: bool)

  predicate Inv(d: Device, s: Programmer)
  {
    ValidDevice(d) && |s.flash| == MEMORY_SIZE && |s.pageBuffer| == d.geometry.pageSize
    && |s.eeprom| == d.eepromSize
  }

  /** Bytes a do-while loop over an unsigned 16-bit count handles: a count of
      0 is decremented past zero and runs the full 64 KiB. */
  function BlockCount(size: Uint16): (n: nat)
    ensures 0 < n <= MEMORY_SIZE && n % 2 == size % 2
    ensures size != 0 ==> n == size
  {
    if size == 0 then MEMORY_SIZE else size
  }

  /** The byte address of a word address: `address << 1` in 16 bits. */
  function ByteAddress(a: Uint16): (b: Uint16)
    ensures b % 2 == 0
  {
    (2 * a) % MEMORY_SIZE
  }

  /** The command's arguments are all there, so rxchar never waits for ever,
      and the block commands are ones whose loops end inside the buffer:
      an EEPROM block load fits buffer[BLOCKSIZE], and a flash block is a
      whole number of words. */
  predicate Ready(d: Device, input: seq<Byte>)
  {
    |input| >= 1 &&
    var c, args := input[0], input[1..];
    if c == CMD_SET_ADDRESS then |args| >= 2
    else if c in {CMD_LOAD_LOW, CMD_LOAD_HIGH, CMD_WRITE_EEPROM, CMD_WRITE_LOCK,
                  CMD_SET_LED, CMD_CLEAR_LED, CMD_SET_DEVICE} then |args| >= 1
    else if c == CMD_BLOCK_READ then
      |args| >= 3 && (args[2] == MEM_FLASH ==> Word(args[0], args[1]) % 2 == 0)
    else if c == CMD_BLOCK_LOAD then
      |args| >= 3 &&
      var size, mem := Word(args[0], args[1]), args[2];
      (mem == MEM_EEPROM ==> size <= d.geometry.pageSize && |args| >= 3 + size)
      && (mem == MEM_FLASH ==> size % 2 == 0 && |args| >= 3 + BlockCount(size))
    else true
  }

  /** 'x', 'y' and 'T': the parameter byte is read and ignored. */
  function SkipArgument(s: Programmer): Programmer
    requires |s.input| >= 1
  {
    s.(input := s.input[1..], output := s.output + [OK])
  }

  /** 'A': set the word address. */
  function SetAddress(s: Programmer): Programmer
    requires |s.input| >= 2
  {
    s.(address := Word(s.input[0], s.input[1]), input := s.input[2..],
       output := s.output + [OK])
  }

  /** 'R': the flash word at the word address, high byte then low byte. */
  function ReadProgram(s: Programmer): Programmer
    requires |s.flash| == MEMORY_SIZE
  {
    var b := ByteAddress(s.address);
    s.(output := s.output + [s.flash[b + 1], s.flash[b]], address := Inc16(s.address))
  }

  /** 'c': the low byte of the next word, kept in temp_int. */
  function LoadLow(s: Programmer): Programmer
    requires |s.input| >= 1
  {
    s.(tempInt := s.input[0] as bv16, input := s.input[1..], output := s.output + [OK])
  }

  /** `t | (hi << 8)`: the high byte ORed into a 16-bit word. */
  function OrHigh(t: bv16, hi: Byte): bv16
  {
    t | ((hi as bv16) << 8)
  }

  /** The low and the high byte of a 16-bit word. */
  function LowOf(t: bv16): Byte
  {
    (t & 0xFF) as Byte
  }

  function HighOf(t: bv16): Byte
  {
    (t >> 8) as Byte
  }

  /** 'C': OR the high byte into temp_int and load that word into the
      temporary buffer at the word address. */
  function LoadHigh(d: Device, s: Programmer): Programmer
    requires Inv(d, s) && |s.input| >= 1
  {
    var t := OrHigh(s.tempInt, s.input[0]);
    s.(tempInt := t,
       pageBuffer := PageFill(d.geometry, s.pageBuffer, ByteAddress(s.address), LowOf(t), HighOf(t)),
       address := Inc16(s.address), input := s.input[1..], output := s.output + [OK])
  }

  /** 'm': program the temporary buffer into the page of the word address,
      refused with '?' from the boot section on. */
  function WriteProgramPage(d: Device, s: Programmer): Programmer
    requires Inv(d, s)
  {
    if s.address >= d.geometry.appEnd / 2 then s.(output := s.output + [UNKNOWN, OK])
    else
      s.(flash := PageWrite(d.geometry, s.flash, s.pageBuffer, ByteAddress(s.address)),
         pageBuffer := Erased(d.geometry.pageSize), output := s.output + [OK])
  }

  /** 'D': one EEPROM byte at the address; the address moves on. */
  function WriteEepromByte(d: Device, s: Programmer): Programmer
    requires Inv(d, s) && |s.input| >= 1
  {
    s.(eeprom := s.eeprom[s.address % d.eepromSize := s.input[0]], address := Inc16(s.address),
       input := s.input[1..], output := s.output + [OK])
  }

  /** 'd': the EEPROM byte at the address; the address moves on. */
  function ReadEepromByte(d: Device, s: Programmer): Programmer
    requires Inv(d, s)
  {
    s.(output := s.output + [s.eeprom[s.address % d.eepromSize]], address := Inc16(s.address))
  }

  /** 'l': boot_lock_bits_set(~v) writes v, and programming a lock bit
      clears it: a lock bit written as 0 is programmed, one written as 1
      keeps its state. */
  function WriteLockBits(s: Programmer): Programmer
    requires |s.input| >= 1
  {
    s.(lockBits := s.lockBits & s.input[0], input := s.input[1..], output := s.output + [OK])
  }

  /** 'E': answer, persist the flags byte with the loader flag cleared, and
      jump to the application. */
  function ExitLoader(d: Device, flags: Byte, s: Programmer): Programmer
    requires Inv(d, s)
  {
    s.(output := s.output + [OK], eeprom := s.eeprom[0 := flags & !EE_FLAG_LOADER], exited := true)
  }

  /** Flash with every byte below `end` erased. */
  function Cleared(flash: seq<Byte>, end: nat): (r: seq<Byte>)
    ensures |r| == |flash|
    ensures forall i :: 0 <= i < |flash| ==> r[i] == if i < end then 0xFF else flash[i]
  {
    seq(|flash|, i requires 0 <= i < |flash| => if i < end then 0xFF else flash[i])
  }

  /** 'e': erase every application page; the loop leaves the (word) address
      holding the byte address APP_END. */
  function ChipErase(d: Device, s: Programmer): Programmer
    requires Inv(d, s)
  {
    s.(flash := Cleared(s.flash, d.geometry.appEnd), address := d.geometry.appEnd,
       output := s.output + [OK])
  }

  // Block commands

  /** EEPROM after writing data[0..n) at addresses a, a + 1, ... (16-bit,
      decoded modulo the EEPROM size). */
  function EepromBlock(eeprom: seq<Byte>, a: Uint16, data: seq<Byte>, n: nat): (r: seq<Byte>)
    requires |eeprom| > 0 && n <= |data|
    ensures |r| == |eeprom|
    decreases n
  {
    if n == 0 then eeprom
    else EepromBlock(eeprom, a, data, n - 1)[((a + n - 1) % MEMORY_SIZE) % |eeprom| := data[n - 1]]
  }

  /** Only the first n bytes of data matter. */
  lemma {:induction false} EepromBlockPrefix(eeprom: seq<Byte>, a: Uint16, data: seq<Byte>, other: seq<Byte>, n: nat)
    requires |eeprom| > 0 && n <= |data| && n <= |other| && data[..n] == other[..n]
    ensures EepromBlock(eeprom, a, data, n) == EepromBlock(eeprom, a, other, n)
    decreases n
  {
    if n > 0 {
      assert data[n - 1] == data[..n][n - 1] == other[..n][n - 1] == other[n - 1];
      assert data[..n - 1] == data[..n][..n - 1];
      assert other[..n - 1] == other[..n][..n - 1];
      EepromBlockPrefix(eeprom, a, data, other, n - 1);
    }
  }

  /** The n EEPROM bytes from address a on, as BlockRead sends them. */
  function EepromBytes(eeprom: seq<Byte>, a: Uint16, n: nat): (r: seq<Byte>)
    requires |eeprom| > 0
    ensures |r| == n
  {
    seq(n, i requires 0 <= i < n => eeprom[((a + i) % MEMORY_SIZE) % |eeprom|])
  }

  /** The n flash bytes from byte address b on, in address order. */
  function FlashBytes(flash: seq<Byte>, b: Uint16, n: nat): (r: seq<Byte>)
    requires |flash| == MEMORY_SIZE
    ensures |r| == n
  {
    seq(n, i requires 0 <= i < n => flash[(b + i) % MEMORY_SIZE])
  }

  /** One more EEPROM byte read. */
  lemma EepromBytesStep(eeprom: seq<Byte>, a: Uint16, k: nat)
    requires |eeprom| > 0
    ensures EepromBytes(eeprom, a, k + 1)
            == EepromBytes(eeprom, a, k) + [eeprom[((a + k) % MEMORY_SIZE) % |eeprom|]]
  {
    assert EepromBytes(eeprom, a, k + 1)[..k] == EepromBytes(eeprom, a, k);
  }

  /** One more flash word read, low byte first, from a, which is where the
      byte address has got to. */
  lemma FlashBytesStep(flash: seq<Byte>, b: Uint16, k: nat, a: nat)
    requires |flash| == MEMORY_SIZE && b % 2 == 0 && k % 2 == 0 && a == (b + k) % MEMORY_SIZE
    ensures a + 1 < MEMORY_SIZE && (a + 2) % MEMORY_SIZE == (b + k + 2) % MEMORY_SIZE
    ensures FlashBytes(flash, b, k + 2) == FlashBytes(flash, b, k) + [flash[a], flash[a + 1]]
  {
    EvenWrap(b + k);
    ModOfSum(b + k, 2, MEMORY_SIZE);
    assert FlashBytes(flash, b, k + 2)[..k] == FlashBytes(flash, b, k);
  }

  /** An even address stays even when it wraps round the 16-bit space. */
  lemma EvenWrap(x: nat)
    requires x % 2 == 0
    ensures x % MEMORY_SIZE % 2 == 0
  {
    var q := x / MEMORY_SIZE;
    assert x == MEMORY_SIZE * q + x % MEMORY_SIZE;
    assert x % MEMORY_SIZE == 2 * (x / 2 - 0x8000 * q);
  }

  /** BlockLoad 'E': size bytes into EEPROM from the address on. */
  function LoadEepromBlock(d: Device, s: Programmer, size: Uint16): Programmer
    requires Inv(d, s) && size <= |s.input|
  {
    s.(eeprom := EepromBlock(s.eeprom, s.address, s.input, size),
       address := (s.address + size) % MEMORY_SIZE, input := s.input[size..])
  }

  /** BlockLoad 'F': the words received go into the temporary buffer from
      byte address 2 * address on, and the page holding that address is
      programmed, without erasing it and without any APP_END check; the
      address ends one past the last word, in words, bit 15 lost. */
  function LoadFlashBlock(d: Device, s: Programmer, size: Uint16): Programmer
    requires Inv(d, s) && size % 2 == 0 && BlockCount(size) <= |s.input|
  {
    var g, n, start := d.geometry, BlockCount(size), ByteAddress(s.address);
    var filled := FillWords(g, s.pageBuffer, start, s.input, n);
    s.(flash := PageWrite(g, s.flash, filled, start), pageBuffer := Erased(g.pageSize),
       address := ((start + n) % MEMORY_SIZE) / 2, input := s.input[n..])
  }

  /** 'B': size (high byte first), memory type, then the data; the reply is
      BlockLoad's result. temp_int keeps the size. */
  function LoadBlock(d: Device, s: Programmer): Programmer
    requires Inv(d, s) && Ready(d, [CMD_BLOCK_LOAD] + s.input)
  {
    var args := ([CMD_BLOCK_LOAD] + s.input)[1..];
    assert args == s.input;
    var size, mem := Word(s.input[0], s.input[1]), s.input[2];
    var s1 := s.(tempInt := WordBits(s.input[0], s.input[1]), input := s.input[3..]);
    if mem == MEM_EEPROM then
      var s2 := LoadEepromBlock(d, s1, size); s2.(output := s2.output + [OK])
    else if mem == MEM_FLASH then
      var s2 := LoadFlashBlock(d, s1, size); s2.(output := s2.output + [OK])
    else s1.(output := s1.output + [UNKNOWN])
  }

  /** BlockRead 'E': the EEPROM bytes from the address on. */
  function ReadEepromBlock(d: Device, s: Programmer, size: Uint16): Programmer
    requires Inv(d, s)
  {
    var n := BlockCount(size);
    s.(output := s.output + EepromBytes(s.eeprom, s.address, n), address := (s.address + n) % MEMORY_SIZE)
  }

  /** BlockRead 'F': the flash bytes from byte address 2 * address on, so each
      word low byte first; the address ends one past the last word. */
  function ReadFlashBlock(d: Device, s: Programmer, size: Uint16): Programmer
    requires Inv(d, s)
  {
    var n, start := BlockCount(size), ByteAddress(s.address);
    s.(output := s.output + FlashBytes(s.flash, start, n), address := ((start + n) % MEMORY_SIZE) / 2)
  }

  /** 'g': size (high byte first) and memory type; an unknown type sends
      nothing. temp_int keeps the size. */
  function ReadBlock(d: Device, s: Programmer): Programmer
    requires Inv(d, s) && Ready(d, [CMD_BLOCK_READ] + s.input)
  {
    var args := ([CMD_BLOCK_READ] + s.input)[1..];
    assert args == s.input;
    var size, mem := Word(s.input[0], s.input[1]), s.input[2];
    var s1 := s.(tempInt := WordBits(s.input[0], s.input[1]), input := s.input[3..]);
    if mem == MEM_EEPROM then ReadEepromBlock(d, s1, size)
    else if mem == MEM_FLASH then ReadFlashBlock(d, s1, size)
    else s1
  }

  /** Whether c is one of the commands the loader answers. */
  predicate Known(c: Byte)
  {
    c in {CMD_SET_ADDRESS, CMD_BLOCK_LOAD, CMD_BLOCK_READ, CMD_BLOCK_SUPPORT, CMD_READ_PROGRAM,
          CMD_LOAD_LOW, CMD_LOAD_HIGH, CMD_WRITE_PAGE, CMD_WRITE_EEPROM, CMD_READ_EEPROM,
          CMD_WRITE_LOCK, CMD_ENTER_PROGRAMMING, CMD_LEAVE_PROGRAMMING, CMD_EXIT,
          CMD_PROGRAMMER_TYPE, CMD_DEVICE_CODES, CMD_SET_LED, CMD_CLEAR_LED, CMD_SET_DEVICE,
          CMD_CHIP_ERASE, CMD_SOFTWARE_ID, CMD_SOFTWARE_VERSION, CMD_SIGNATURE, CMD_AUTO_INCREMENT}
  }

  /** The block commands. */
  predicate IsBlock(c: Byte)
  {
    c == CMD_BLOCK_LOAD || c == CMD_BLOCK_READ
  }

  /** The commands that program or read memory, or take arguments. */
  predicate IsMemory(c: Byte)
  {
    c in {CMD_SET_ADDRESS, CMD_READ_PROGRAM, CMD_LOAD_LOW, CMD_LOAD_HIGH, CMD_WRITE_PAGE,
          CMD_WRITE_EEPROM, CMD_READ_EEPROM, CMD_WRITE_LOCK, CMD_EXIT, CMD_CHIP_ERASE,
          CMD_SET_LED, CMD_CLEAR_LED, CMD_SET_DEVICE}
  }

  /** The dispatch of the command loop on the command character c. */
  function Dispatch(d: Device, flags: Byte, c: Byte, s: Programmer): (r: Programmer)
    requires Inv(d, s) && Ready(d, [c] + s.input)
    ensures Inv(d, r) && |r.input| <= |s.input|
  {
    if IsBlock(c) then DispatchBlock(d, c, s)
    else if IsMemory(c) then DispatchMemory(d, flags, c, s)
    else Answer(d, c, s)
  }

  function DispatchBlock(d: Device, c: Byte, s: Programmer): (r: Programmer)
    requires Inv(d, s) && Ready(d, [c] + s.input) && IsBlock(c)
    ensures Inv(d, r) && |r.input| <= |s.input|
  {
    if c == CMD_BLOCK_LOAD then LoadBlock(d, s) else ReadBlock(d, s)
  }

  function DispatchMemory(d: Device, flags: Byte, c: Byte, s: Programmer): (r: Programmer)
    requires Inv(d, s) && Ready(d, [c] + s.input) && IsMemory(c)
    ensures Inv(d, r) && |r.input| <= |s.input|
  {
    assert ([c] + s.input)[1..] == s.input;
    if c == CMD_SET_ADDRESS then SetAddress(s)
    else if c == CMD_READ_PROGRAM then ReadProgram(s)
    else if c == CMD_LOAD_LOW then LoadLow(s)
    else if c == CMD_LOAD_HIGH then LoadHigh(d, s)
    else if c == CMD_WRITE_PAGE then WriteProgramPage(d, s)
    else if c == CMD_WRITE_EEPROM then WriteEepromByte(d, s)
    else if c == CMD_READ_EEPROM then ReadEepromByte(d, s)
    else if c == CMD_WRITE_LOCK then WriteLockBits(s)
    else if c == CMD_EXIT then ExitLoader(d, flags, s)
    else if c == CMD_CHIP_ERASE then ChipErase(d, s)
    else SkipArgument(s)
  }

  /** The answers of the commands that only answer, and the answer to
      anything else: '?', except for ESC, which gets none. */
  function AnswerBytes(d: Device, c: Byte): (r: seq<Byte>)
    requires ValidDevice(d)
    ensures r == [] <==> c == ESC
    ensures !Known(c) && c != ESC ==> r == [UNKNOWN]
  {
    if c == CMD_BLOCK_SUPPORT then BlockSupport(d)
    else if c == CMD_ENTER_PROGRAMMING || c == CMD_LEAVE_PROGRAMMING then [OK]
    else if c == CMD_PROGRAMMER_TYPE then [SERIAL]
    else if c == CMD_DEVICE_CODES then DeviceCodes(d)
    else if c == CMD_SOFTWARE_ID then SOFTWARE_ID
    else if c == CMD_SOFTWARE_VERSION then SOFTWARE_VERSION
    else if c == CMD_SIGNATURE then SignatureReply(d)
    else if c == CMD_AUTO_INCREMENT then [YES]
    else if c != ESC then [UNKNOWN]
    else []
  }

  function Answer(d: Device, c: Byte, s: Programmer): (r: Programmer)
    requires ValidDevice(d)
  {
    s.(output := s.output + AnswerBytes(d, c))
  }

  /** One pass of the command loop: read the command character and run it. */
  function Execute(d: Device, flags: Byte, s: Programmer): (r: Programmer)
    requires Inv(d, s) && Ready(d, s.input)
    ensures Inv(d, r) && |r.input| < |s.input|
  {
    var c := s.input[0];
    assert s.input == [c] + s.input[1..];
    Dispatch(d, flags, c, s.(input := s.input[1..]))
  }

  /** The command loop run until the loader jumps to the application or the
      next command is not (yet) all there. */
  function Session(d: Device, flags: Byte, s: Programmer): (r: Programmer)
    requires Inv(d, s)
    ensures Inv(d, r) && (r.exited || !Ready(d, r.input))
    decreases |s.input|
  {
    if s.exited || !Ready(d, s.input) then s else Session(d, flags, Execute(d, flags, s))
  }

  /** The first k passes of the command loop, stopping early as Session does. */
  function Steps(d: Device, flags: Byte, s: Programmer, k: nat): (r: Programmer)
    requires Inv(d, s)
    ensures Inv(d, r) && |r.input| <= |s.input|
    decreases k
  {
    if k == 0 || s.exited || !Ready(d, s.input) then s else Steps(d, flags, Execute(d, flags, s), k - 1)
  }

  // ---------------------------------------------------------------------------
  // The loader as the firmware runs it

  /** One word loaded by LoadNextWord extends FillWords by two bytes, and
      the 16-bit address moves on by 2. */
  lemma NextWordLoaded(g: Geometry, buffer0: seq<Byte>, start: nat, data: seq<Byte>, words: nat, buffer: seq<Byte>, a: Uint16)
    requires ValidGeometry(g) && |buffer0| == g.pageSize && 2 * words + 2 <= |data|
    requires buffer == FillWords(g, buffer0, start, data, 2 * words) && a == (start + 2 * words) % MEMORY_SIZE
    ensures PageFill(g, buffer, a, data[2 * words], data[2 * words + 1]) == FillWords(g, buffer0, start, data, 2 * words + 2)
    ensures (a + 2) % MEMORY_SIZE == (start + (2 * words + 2)) % MEMORY_SIZE
  {
    var k := 2 * words;
    FillWordsNext(g, buffer0, start, data, k);
    ModOfSum(start + k, 2, MEMORY_SIZE);
    assert start + k + 2 == start + (k + 2);
  }

  class Bootloader {
    const dev: Device
    /** EEPROM byte 0 as read at reset; 'E' writes it back. */
    const flags: Byte
    var address: Uint16
    var tempInt: bv16
    var flash: seq<Byte>
    var pageBuffer: seq<Byte>
    var eeprom: seq<Byte>
    var lockBits: Byte
    var input: seq<Byte>
    var output: seq<Byte>
    var exited: bool

    ghost function State(): Programmer
      reads this
    {
      Programmer(address, tempInt, flash, pageBuffer, eeprom, lockBits, input, output, exited)
    }

    ghost predicate Valid()
      reads this
    {
      Inv(dev, State())
    }

    /** main, when it decides for the loader: the globals start at zero and
        the temporary buffer erased. */
    constructor (d: Device, flash0: seq<Byte>, eeprom0: seq<Byte>, lock0: Byte, input0: seq<Byte>)
      requires ValidDevice(d) && |flash0| == MEMORY_SIZE && |eeprom0| == d.eepromSize
      requires BootDecision(flash0, eeprom0).runLoader
      ensures Valid() && dev == d && flags == eeprom0[0]
      ensures State() == Programmer(0, 0, flash0, Erased(d.geometry.pageSize), eeprom0, lock0, input0, [], false)
    {
      dev, flags := d, eeprom0[0];
      address, tempInt := 0, 0;
      flash, pageBuffer, eeprom, lockBits := flash0, Erased(d.geometry.pageSize), eeprom0, lock0;
      input, output, exited := input0, [], false;
    }

    /** rxchar: the next byte from the UART. */
    method RxChar() returns (c: Byte)
      requires |input| >= 1
      modifies this`input
      ensures c == old(input)[0] && input == old(input)[1..]
    {
      c := input[0];
      input := input[1..];
    }

    /** txchar: one byte to the UART. */
    method TxChar(c: Byte)
      modifies this`output
      ensures output == old(output) + [c]
    {
      output := output + [c];
    }

    /** The for(;;) command loop, until 'E' leaves for the application or
        the next command is not all there. */
    method Serve()
      requires Valid()
      modifies this
      ensures Valid() && State() == Session(dev, flags, old(State()))
    {
      while !exited && Ready(dev, input)
        invariant Valid()
        invariant Session(dev, flags, State()) == Session(dev, flags, old(State()))
        decreases |input|
      {
        Command();
      }
    }

    /** One command: its character, then its arguments and answer. */
    method Command()
      requires Valid() && Ready(dev, input)
      modifies this
      ensures Valid() && State() == Execute(dev, flags, old(State()))
    {
      assert input == [input[0]] + input[1..];
      var c := RxChar();
      if IsBlock(c) {
        RunBlock(c);
      } else if IsMemory(c) {
        RunMemory(c);
      } else {
        SendAnswer(c);
      }
    }

    method RunBlock(c: Byte)
      requires Valid() && Ready(dev, [c] + input) && IsBlock(c)
      modifies this
      ensures Valid() && State() == DispatchBlock(dev, c, old(State()))
    {
      assert ([c] + input)[1..] == input;
      var hi := RxChar();
      var lo := RxChar();
      tempInt := WordBits(hi, lo);
      var size := Word(hi, lo);
      var mem := RxChar();
      if c == CMD_BLOCK_LOAD {
        var reply := BlockLoad(size, mem);
        TxChar(reply);
      } else {
        BlockRead(size, mem);
      }
    }

    method RunMemory(c: Byte)
      requires Valid() && Ready(dev, [c] + input) && IsMemory(c)
      modifies this
      ensures Valid() && State() == DispatchMemory(dev, flags, c, old(State()))
    {
      assert ([c] + input)[1..] == input;
      if c == CMD_SET_ADDRESS {
        ReceiveAddress();
      } else if c == CMD_READ_PROGRAM {
        SendProgramWord();
      } else if c == CMD_LOAD_LOW {
        ReceiveLowByte();
      } else if c == CMD_LOAD_HIGH {
        ReceiveHighByte();
      } else if c == CMD_WRITE_PAGE {
        ProgramPage();
      } else if c == CMD_WRITE_EEPROM {
        ReceiveEepromByte();
      } else if c == CMD_READ_EEPROM {
        SendEepromByte();
      } else if c == CMD_WRITE_LOCK {
        ReceiveLockBits();
      } else if c == CMD_EXIT {
        Exit();
      } else if c == CMD_CHIP_ERASE {
        EraseApplication();
      } else {
        IgnoreArgument();
      }
    }

    /** 'A'. */
    method ReceiveAddress()
      requires Valid() && |input| >= 2
      modifies this`address, this`input, this`output
      ensures Valid() && State() == SetAddress(old(State()))
    {
      var hi := RxChar();
      var lo := RxChar();
      address := Word(hi, lo);
      TxChar(OK);
    }

    /** 'R'. */
    method SendProgramWord()
      requires Valid()
      modifies this`address, this`output
      ensures Valid() && State() == ReadProgram(old(State()))
    {
      var b := (address * 2) % MEMORY_SIZE;
      TxChar(flash[b + 1]);
      TxChar(flash[b]);
      address := Inc16(address);
    }

    /** 'c'. */
    method ReceiveLowByte()
      requires Valid() && |input| >= 1
      modifies this`tempInt, this`input, this`output
      ensures Valid() && State() == LoadLow(old(State()))
    {
      var lo := RxChar();
      tempInt := lo as bv16;
      TxChar(OK);
    }

    /** 'C'. */
    method ReceiveHighByte()
      requires Valid() && |input| >= 1
      modifies this`tempInt, this`pageBuffer, this`address, this`input, this`output
      ensures Valid() && State() == LoadHigh(dev, old(State()))
    {
      var hi := RxChar();
      tempInt := OrHigh(tempInt, hi);
      pageBuffer := PageFill(dev.geometry, pageBuffer, (address * 2) % MEMORY_SIZE, LowOf(tempInt), HighOf(tempInt));
      address := Inc16(address);
      TxChar(OK);
    }

    /** 'm'. */
    method ProgramPage()
      requires Valid()
      modifies this`flash, this`pageBuffer, this`output
      ensures Valid() && State() == WriteProgramPage(dev, old(State()))
    {
      if address >= dev.geometry.appEnd / 2 {
        TxChar(UNKNOWN);
      } else {
        flash := PageWrite(dev.geometry, flash, pageBuffer, (address * 2) % MEMORY_SIZE);
        pageBuffer := Erased(dev.geometry.pageSize);
      }
      TxChar(OK);
    }

    /** 'D'. */
    method ReceiveEepromByte()
      requires Valid() && |input| >= 1
      modifies this`eeprom, this`address, this`input, this`output
      ensures Valid() && State() == WriteEepromByte(dev, old(State()))
    {
      var v := RxChar();
      eeprom := eeprom[address % dev.eepromSize := v];
      address := Inc16(address);
      TxChar(OK);
    }

    /** 'd'. */
    method SendEepromByte()
      requires Valid()
      modifies this`address, this`output
      ensures Valid() && State() == ReadEepromByte(dev, old(State()))
    {
      TxChar(eeprom[address % dev.eepromSize]);
      address := Inc16(address);
    }

    /** 'l': boot_lock_bits_set(~v). */
    method ReceiveLockBits()
      requires Valid() && |input| >= 1
      modifies this`lockBits, this`input, this`output
      ensures Valid() && State() == WriteLockBits(old(State()))
    {
      var v := RxChar();
      var mask := !v;
      lockBits := lockBits & !mask;
      TxChar(OK);
    }

    /** 'E'. */
    method Exit()
      requires Valid()
      modifies this`eeprom, this`output, this`exited
      ensures Valid() && State() == ExitLoader(dev, flags, old(State()))
    {
      TxChar(OK);
      eeprom := eeprom[0 := flags & !EE_FLAG_LOADER];
      exited := true;
    }

    /** 'x', 'y', 'T'. */
    method IgnoreArgument()
      requires Valid() && |input| >= 1
      modifies this`input, this`output
      ensures Valid() && State() == SkipArgument(old(State()))
    {
      var _ := RxChar();
      TxChar(OK);
    }

    /** The commands that only answer. */
    method SendAnswer(c: Byte)
      requires Valid()
      modifies this`output
      ensures Valid() && output == old(output) + AnswerBytes(dev, c)
    {
      if c == CMD_BLOCK_SUPPORT {
        var w := dev.geometry.pageSize as bv16;
        TxChar(YES);
        TxChar(((w >> 8) & 0xFF) as Byte);
        TxChar((w & 0xFF) as Byte);
      } else if c == CMD_ENTER_PROGRAMMING || c == CMD_LEAVE_PROGRAMMING {
        TxChar(OK);
      } else if c == CMD_PROGRAMMER_TYPE {
        TxChar(SERIAL);
      } else if c == CMD_DEVICE_CODES {
        if dev.partCode != 0 {
          TxChar(dev.partCode);
        }
        TxChar(0);
      } else if c == CMD_SOFTWARE_ID {
        SendSoftwareId();
      } else if c == CMD_SOFTWARE_VERSION {
        TxChar(0x31);
        TxChar(0x35);
      } else if c == CMD_SIGNATURE {
        TxChar(dev.signature[2]);
        TxChar(dev.signature[1]);
        TxChar(dev.signature[0]);
      } else if c == CMD_AUTO_INCREMENT {
        TxChar(YES);
      } else if c != ESC {
        TxChar(UNKNOWN);
      }
    }

    /** 'S': "AVRBOOT", one character at a time. */
    method SendSoftwareId()
      modifies this`output
      ensures output == old(output) + SOFTWARE_ID
    {
      TxChar(0x41);
      TxChar(0x56);
      TxChar(0x52);
      TxChar(0x42);
      TxChar(0x4F);
      TxChar(0x4F);
      TxChar(0x54);
    }

    /** 'e': the for loop erasing page after page below APP_END, with the
        address as its (byte) counter. */
    method EraseApplication()
      requires Valid()
      modifies this`flash, this`address, this`output
      ensures Valid() && State() == ChipErase(dev, old(State()))
    {
      var g := dev.geometry;
      ghost var flash0 := flash;
      ghost var pages := 0;
      address := 0;
      while address < g.appEnd
        invariant address == g.pageSize * pages && address <= g.appEnd
        invariant flash == Cleared(flash0, address) && output == old(output)
        decreases g.appEnd - address
      {
        AlignedPageStart(g, pages);
        PageBelow(g, address, g.appEnd);
        flash := PageErase(g, flash, address);
        address := address + g.pageSize;
        pages := pages + 1;
      }
      TxChar(OK);
    }

    /** BlockLoad: the reply, '?' for an unknown memory type. */
    method BlockLoad(size: Uint16, mem: Byte) returns (reply: Byte)
      requires Valid()
      requires mem == MEM_EEPROM ==> size <= dev.geometry.pageSize && size <= |input|
      requires mem == MEM_FLASH ==> size % 2 == 0 && BlockCount(size) <= |input|
      modifies this`eeprom, this`address, this`input, this`flash, this`pageBuffer
      ensures Valid()
      ensures mem == MEM_EEPROM ==> State() == LoadEepromBlock(dev, old(State()), size) && reply == OK
      ensures mem == MEM_FLASH ==> State() == LoadFlashBlock(dev, old(State()), size) && reply == OK
      ensures mem != MEM_EEPROM && mem != MEM_FLASH ==> State() == old(State()) && reply == UNKNOWN
    {
      if mem == MEM_EEPROM {
        BlockLoadEeprom(size);
        reply := OK;
      } else if mem == MEM_FLASH {
        BlockLoadFlash(size);
        reply := OK;
      } else {
        reply := UNKNOWN;
      }
    }

    /** BlockLoad 'E': all bytes into buffer[BLOCKSIZE] first, then into
        EEPROM from the address on. */
    method BlockLoadEeprom(size: Uint16)
      requires Valid() && size <= dev.geometry.pageSize && size <= |input|
      modifies this`eeprom, this`address, this`input
      ensures Valid() && State() == LoadEepromBlock(dev, old(State()), size)
    {
      ghost var data := input;
      var buffer := new Byte[dev.geometry.pageSize];
      ReceiveBuffer(buffer, size);
      ProgramEeprom(buffer, size);
      EepromBlockPrefix(old(eeprom), old(address), buffer[..], data, size);
    }

    /** The first loop of BlockLoad 'E': size bytes into the local buffer. */
    method ReceiveBuffer(buffer: array<Byte>, size: nat)
      requires size <= buffer.Length && size <= |input|
      modifies this`input, buffer
      ensures input == old(input)[size..] && buffer[..size] == old(input)[..size]
    {
      var t := 0;
      while t < size
        invariant t <= size && input == old(input)[t..]
        invariant buffer[..t] == old(input)[..t]
      {
        buffer[t] := RxChar();
        t := t + 1;
      }
    }

    /** The second loop of BlockLoad 'E': the buffer into EEPROM byte by
        byte while the address advances. */
    method ProgramEeprom(buffer: array<Byte>, size: nat)
      requires Valid() && size <= buffer.Length
      modifies this`eeprom, this`address
      ensures Valid() && address == (old(address) + size) % MEMORY_SIZE
      ensures eeprom == EepromBlock(old(eeprom), old(address), buffer[..], size)
    {
      var t := 0;
      while t < size
        invariant t <= size && address == (old(address) + t) % MEMORY_SIZE
        invariant eeprom == EepromBlock(old(eeprom), old(address), buffer[..], t)
      {
        Inc16Mod(old(address) + t);
        eeprom := eeprom[address % dev.eepromSize := buffer[t]];
        address := Inc16(address);
        t := t + 1;
      }
    }

    /** BlockLoad 'F': the address in bytes, the words into the temporary
        buffer, one page write at the start address, the address in words. */
    method BlockLoadFlash(size: Uint16)
      requires Valid() && size % 2 == 0 && BlockCount(size) <= |input|
      modifies this`flash, this`pageBuffer, this`address, this`input
      ensures Valid() && State() == LoadFlashBlock(dev, old(State()), size)
    {
      ghost var r := LoadFlashBlock(dev, State(), size);
      address := ByteAddress(address);
      var tempaddress := address;
      FillBlock(size);
      var written := PageWrite(dev.geometry, flash, pageBuffer, tempaddress);
      assert written == r.flash && address / 2 == r.address && input == r.input;
      flash := written;
      pageBuffer := Erased(dev.geometry.pageSize);
      address := address / 2;
    }

    /** The do-while loop of BlockLoad 'F': a word at a time into the
        temporary buffer while the byte address advances and the 16-bit
        size counts down by 2. */
    method FillBlock(size: Uint16)
      requires ValidGeometry(dev.geometry) && |pageBuffer| == dev.geometry.pageSize
      requires size % 2 == 0 && BlockCount(size) <= |input|
      modifies this`pageBuffer, this`address, this`input
      ensures pageBuffer == FillWords(dev.geometry, old(pageBuffer), old(address), old(input), BlockCount(size))
      ensures address == (old(address) + BlockCount(size)) % MEMORY_SIZE
      ensures input == old(input)[BlockCount(size)..]
    {
      var g := dev.geometry;
      ghost var data, buffer0, start, n := input, pageBuffer, address, BlockCount(size);
      var left := size;
      var first := true;
      ghost var k, words, half := 0, 0, n / 2;
      while first || left != 0
        invariant n == 2 * half && k == 2 * words && words <= half && n <= |data|
        invariant first <==> k == 0
        invariant first ==> left == size
        invariant !first ==> left == n - k
        invariant address == (start + k) % MEMORY_SIZE
        invariant input == data[k..]
        invariant pageBuffer == FillWords(g, buffer0, start, data, k)
        decreases n - k
      {
        assert words < half;
        LoadNextWord(buffer0, start, data, words);
        left := if left >= 2 then left - 2 else left + MEMORY_SIZE - 2;
        first := false;
        k, words := k + 2, words + 1;
      }
    }

    /** One pass of BlockLoad's flash loop: a word, low byte first, into the
        temporary buffer at the byte address, which moves on by 2. */
    method LoadNextWord(ghost buffer0: seq<Byte>, ghost start: nat, ghost data: seq<Byte>, ghost words: nat)
      requires ValidGeometry(dev.geometry) && |buffer0| == dev.geometry.pageSize
      requires 2 * words + 2 <= |data| && input == data[2 * words..]
      requires pageBuffer == FillWords(dev.geometry, buffer0, start, data, 2 * words)
      requires address == (start + 2 * words) % MEMORY_SIZE
      modifies this`pageBuffer, this`address, this`input
      ensures pageBuffer == FillWords(dev.geometry, buffer0, start, data, 2 * words + 2)
      ensures address == (start + (2 * words + 2)) % MEMORY_SIZE && input == data[2 * words + 2..]
    {
      var g := dev.geometry;
      ghost var k := 2 * words;
      var lo := RxChar();
      var hi := RxChar();
      assert lo == data[k] && hi == data[k + 1] && input == data[k + 2..];
      NextWordLoaded(g, buffer0, start, data, words, pageBuffer, address);
      var filled := PageFill(g, pageBuffer, address, lo, hi);
      var next := (address + 2) % MEMORY_SIZE;
      pageBuffer, address := filled, next;
    }

    /** BlockRead: nothing at all for an unknown memory type. */
    method BlockRead(size: Uint16, mem: Byte)
      requires Valid() && (mem == MEM_FLASH ==> size % 2 == 0)
      modifies this`address, this`output
      ensures Valid()
      ensures mem == MEM_EEPROM ==> State() == ReadEepromBlock(dev, old(State()), size)
      ensures mem == MEM_FLASH ==> State() == ReadFlashBlock(dev, old(State()), size)
      ensures mem != MEM_EEPROM && mem != MEM_FLASH ==> State() == old(State())
    {
      if mem == MEM_EEPROM {
        BlockReadEeprom(size);
      } else if mem == MEM_FLASH {
        BlockReadFlash(size);
      }
    }

    /** BlockRead 'E': the do-while loop sending EEPROM bytes. */
    method BlockReadEeprom(size: Uint16)
      requires Valid()
      modifies this`address, this`output
      ensures Valid() && State() == ReadEepromBlock(dev, old(State()), size)
    {
      ghost var output0, address0, n := output, address, BlockCount(size);
      var left := size;
      var first := true;
      ghost var k := 0;
      while first || left != 0
        invariant k <= n && (first <==> k == 0)
        invariant first ==> left == size
        invariant !first ==> left == n - k
        invariant address == (address0 + k) % MEMORY_SIZE
        invariant output == output0 + EepromBytes(eeprom, address0, k)
        decreases n - k
      {
        EepromBytesStep(eeprom, address0, k);
        Inc16Mod(address0 + k);
        TxChar(eeprom[address % dev.eepromSize]);
        address := Inc16(address);
        left := if left >= 1 then left - 1 else left + MEMORY_SIZE - 1;
        first := false;
        k := k + 1;
      }
    }

    /** BlockRead 'F': the address in bytes, the words out, the address in
        words. */
    method BlockReadFlash(size: Uint16)
      requires Valid() && size % 2 == 0
      modifies this`address, this`output
      ensures Valid() && State() == ReadFlashBlock(dev, old(State()), size)
    {
      address := ByteAddress(address);
      SendBlock(size);
      address := address / 2;
    }

    /** The do-while loop of BlockRead 'F': each word low byte first, while
        the byte address advances and the 16-bit size counts down by 2. */
    method SendBlock(size: Uint16)
      requires |flash| == MEMORY_SIZE && size % 2 == 0 && address % 2 == 0
      modifies this`address, this`output
      ensures output == old(output) + FlashBytes(flash, old(address), BlockCount(size))
      ensures address == (old(address) + BlockCount(size)) % MEMORY_SIZE
    {
      ghost var output0, start, n := output, address, BlockCount(size);
      var left := size;
      var first := true;
      ghost var k, words, half := 0, 0, n / 2;
      while first || left != 0
        invariant n == 2 * half && k == 2 * words && words <= half
        invariant first <==> k == 0
        invariant first ==> left == size
        invariant !first ==> left == n - k
        invariant address == (start + k) % MEMORY_SIZE
        invariant output == output0 + FlashBytes(flash, start, k)
        decreases n - k
      {
        ghost var a, before := address, output;
        FlashBytesStep(flash, start, k, a);
        SendNextWord();
        assert output == output0 + FlashBytes(flash, start, k + 2) by {
          assert before + [flash[a], flash[a + 1]] == output0 + (FlashBytes(flash, start, k) + [flash[a], flash[a + 1]]);
        }
        left := if left >= 2 then left - 2 else left + MEMORY_SIZE - 2;
        first := false;
        k, words := k + 2, words + 1;
      }
    }

    /** One pass of BlockRead's flash loop: the bytes at the byte address and
        the next one, which moves on by 2. */
    method SendNextWord()
      requires |flash| == MEMORY_SIZE && address + 1 < MEMORY_SIZE
      modifies this`address, this`output
      ensures output == old(output) + [flash[old(address)], flash[old(address) + 1]]
      ensures address == (old(address) + 2) % MEMORY_SIZE
    {
      TxChar(flash[address]);
      TxChar(flash[address + 1]);
      address := (address + 2) % MEMORY_SIZE;
    }
  }
}

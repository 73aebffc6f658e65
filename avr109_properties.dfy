// Properties of the AVR109 loader across commands: what a programmer on the
// other end of the UART can rely on when it sends whole command sequences.

module Avr109Properties {
  import opened Bytes
  import opened Spm
  import opened Avr109

  /** An address moved on by n and wrapped at m. */
  function Moved(a: int, n: int, m: int): int
    requires m > 0
  {
    (a + n) % m
  }

  // ---------------------------------------------------------------------------
  // Arithmetic of the 16-bit addresses

  /** Doubling a word address in 16 bits drops its bit 15. */
  lemma DoubleWrap(x: nat)
    ensures (2 * x) % MEMORY_SIZE == 2 * (x % 0x8000)
  {
    var q := x / 0x8000;
    assert x == 0x8000 * q + x % 0x8000;
    DivModUnique(2 * x, MEMORY_SIZE, q, 2 * (x % 0x8000));
  }

  /** Converting a word address to bytes, moving on n bytes and converting
      back moves it on n / 2 words, modulo 2^15: bit 15 is lost. */
  lemma WordAdvance(a: Uint16, n: nat)
    requires n % 2 == 0
    ensures ((ByteAddress(a) + n) % MEMORY_SIZE) / 2 == (a + n / 2) % 0x8000
  {
    var h := n / 2;
    DoubleWrap(a);
    assert ByteAddress(a) + n == 2 * (a % 0x8000 + h);
    DoubleWrap(a % 0x8000 + h);
    ModOfSum(a, h, 0x8000);
  }

  /** Every command moves the word address on in 16 bits: 'R' keeps bit 15,
      a flash block read of the same word does not. */
  lemma ReadWordBothWays(d: Device, flags: Byte, s: Programmer, rest: seq<Byte>)
    requires Inv(d, s)
    ensures var n := |s.output|;
            var r := Execute(d, flags, s.(input := [CMD_READ_PROGRAM] + rest));
            var q := Execute(d, flags, s.(input := [CMD_BLOCK_READ, 0, 2, MEM_FLASH] + rest));
            |r.output| == |q.output| == n + 2 && r.input == q.input == rest
            && r.output[n] == q.output[n + 1] && r.output[n + 1] == q.output[n]
            && r.address == (s.address + 1) % MEMORY_SIZE && q.address == (s.address + 1) % 0x8000
  {
    var b := ByteAddress(s.address);
    var sr := s.(input := [CMD_READ_PROGRAM] + rest);
    assert sr.input[1..] == rest;
    var sq := s.(input := [CMD_BLOCK_READ, 0, 2, MEM_FLASH] + rest);
    assert sq.input[1..] == [0, 2, MEM_FLASH] + rest;
    assert Word(0, 2) == 2;
    var q1 := sq.(input := [0, 2, MEM_FLASH] + rest);
    assert q1.input[3..] == rest;
    EvenWrap(b);
    WordAdvance(s.address, 2);
    assert FlashBytes(s.flash, b, 2) == [s.flash[b], s.flash[b + 1]];
  }

  /** A pass of the command loop on input c + rest dispatches on c with
      the arguments in rest. */
  lemma ExecuteStep(d: Device, flags: Byte, s: Programmer, c: Byte, rest: seq<Byte>)
    requires Inv(d, s) && s.input == [c] + rest && Ready(d, s.input)
    ensures Execute(d, flags, s) == Dispatch(d, flags, c, s.(input := rest))
  {
    assert s.input[1..] == rest;
  }

  // ---------------------------------------------------------------------------
  // Byte-wise flash programming

  /** A low byte in temp_int with a high byte ORed over it gives back both. */
  lemma WordBytes(lo: Byte, hi: Byte)
    ensures LowOf(OrHigh(lo as bv16, hi)) == lo && HighOf(OrHigh(lo as bv16, hi)) == hi
  {
  }

  /** 'c' lo then 'C' hi loads the word hi:lo into the temporary buffer at
      the word address and moves the address on to the next word; nothing
      is programmed yet. */
  lemma LowThenHigh(d: Device, flags: Byte, s: Programmer, lo: Byte, hi: Byte, rest: seq<Byte>)
    requires Inv(d, s) && s.input == [CMD_LOAD_LOW, lo, CMD_LOAD_HIGH, hi] + rest
    ensures var r := Execute(d, flags, Execute(d, flags, s));
            r.pageBuffer == PageFill(d.geometry, s.pageBuffer, ByteAddress(s.address), lo, hi)
            && r.address == Inc16(s.address) && r.output == s.output + [OK, OK] && r.input == rest
            && r.flash == s.flash && r.eeprom == s.eeprom
  {
    assert s.input[1..] == [lo, CMD_LOAD_HIGH, hi] + rest;
    var s1 := Execute(d, flags, s);
    assert s1 == LoadLow(s.(input := s.input[1..]));
    assert s1.input == [CMD_LOAD_HIGH, hi] + rest;
    assert s1.input[1..] == [hi] + rest;
    assert Execute(d, flags, s1) == LoadHigh(d, s1.(input := s1.input[1..]));
    WordBytes(lo, hi);
  }

  /** 'm' programs only below the boot section: it refuses every word
      address from APP_END / 2 on with '?', and the page it writes otherwise
      ends at or before APP_END. */
  lemma PageWriteGuard(d: Device, flags: Byte, s: Programmer, rest: seq<Byte>)
    requires Inv(d, s) && s.input == [CMD_WRITE_PAGE] + rest
    ensures var r := Execute(d, flags, s);
            r.flash[d.geometry.appEnd..] == s.flash[d.geometry.appEnd..] && r.input == rest
            && (s.address >= d.geometry.appEnd / 2 <==> r.output == s.output + [UNKNOWN, OK])
            && (s.address >= d.geometry.appEnd / 2 ==> r.flash == s.flash && r.pageBuffer == s.pageBuffer)
  {
    var g := d.geometry;
    ExecuteStep(d, flags, s, CMD_WRITE_PAGE, rest);
    assert Dispatch(d, flags, CMD_WRITE_PAGE, s.(input := rest)) == WriteProgramPage(d, s.(input := rest));
    if s.address < g.appEnd / 2 {
      DoubleWrap(s.address);
      WriteBelowProtects(g, s.flash, s.pageBuffer, ByteAddress(s.address));
    }
  }

  // ---------------------------------------------------------------------------
  // EEPROM blocks

  /** A block that fits in EEPROM without wrapping lands byte for byte from
      the address on, and every other EEPROM byte keeps its value. */
  lemma {:induction false} EepromBlockAt(eeprom: seq<Byte>, a: Uint16, data: seq<Byte>, n: nat, j: nat)
    requires 0 < |eeprom| <= MEMORY_SIZE && n <= |data| && a + n <= |eeprom| && j < |eeprom|
    ensures EepromBlock(eeprom, a, data, n)[j] == if a <= j < a + n then data[j - a] else eeprom[j]
    decreases n
  {
    if n > 0 {
      var x := a + n - 1;
      EepromBlockAt(eeprom, a, data, n - 1, j);
      DivModUnique(x, MEMORY_SIZE, 0, x);
      DivModUnique(x, |eeprom|, 0, x);
    }
  }

  /** Reading back the bytes of a block that fits gives the block. */
  lemma EepromReadBack(eeprom: seq<Byte>, a: Uint16, data: seq<Byte>, n: nat)
    requires 0 < |eeprom| <= MEMORY_SIZE && n <= |data| && a + n <= |eeprom|
    ensures EepromBytes(EepromBlock(eeprom, a, data, n), a, n) == data[..n]
  {
    forall i | 0 <= i < n
      ensures EepromBytes(EepromBlock(eeprom, a, data, n), a, n)[i] == data[i]
    {
      DivModUnique(a + i, MEMORY_SIZE, 0, a + i);
      DivModUnique(a + i, |eeprom|, 0, a + i);
      EepromBlockAt(eeprom, a, data, n, a + i);
    }
  }

  /** 'A' hi lo: the word address becomes hi * 256 + lo, answered with OK;
      nothing else changes. */
  lemma SetAddressStep(d: Device, flags: Byte, s: Programmer, hi: Byte, lo: Byte, rest: seq<Byte>)
    requires Inv(d, s) && !s.exited && s.input == [CMD_SET_ADDRESS, hi, lo] + rest
    ensures Steps(d, flags, s, 1)
            == s.(address := hi as int * 0x100 + lo as int, input := rest, output := s.output + [OK])
  {
    assert s.input == [CMD_SET_ADDRESS] + ([hi, lo] + rest);
    ExecuteStep(d, flags, s, CMD_SET_ADDRESS, [hi, lo] + rest);
    assert ([hi, lo] + rest)[2..] == rest;
  }

  /** One pass of the command loop on a command that is all there. */
  lemma OneStep(d: Device, flags: Byte, s: Programmer, c: Byte, args: seq<Byte>)
    requires Inv(d, s) && !s.exited && s.input == [c] + args && Ready(d, s.input)
    ensures Steps(d, flags, s, 1) == Dispatch(d, flags, c, s.(input := args))
  {
    ExecuteStep(d, flags, s, c, args);
  }

  /** A pass of the command loop on 'B' is BlockLoad on the arguments. */
  lemma BlockLoadStep(d: Device, flags: Byte, s: Programmer, args: seq<Byte>)
    requires Inv(d, s) && !s.exited && s.input == [CMD_BLOCK_LOAD] + args && Ready(d, s.input)
    ensures Steps(d, flags, s, 1) == LoadBlock(d, s.(input := args))
  {
    OneStep(d, flags, s, CMD_BLOCK_LOAD, args);
  }

  /** An EEPROM block load whose data has all arrived is ready to run. */
  lemma LoadEepromReady(d: Device, t: Programmer, hi: Byte, lo: Byte, data: seq<Byte>, rest: seq<Byte>)
    requires Inv(d, t) && Word(hi, lo) <= d.geometry.pageSize && |data| == Word(hi, lo)
    requires t.input == [hi, lo, MEM_EEPROM] + data + rest
    ensures Ready(d, [CMD_BLOCK_LOAD] + t.input)
  {
    assert ([CMD_BLOCK_LOAD] + t.input)[1..] == t.input;
  }

  /** BlockLoad 'E' takes the size, then the data after the memory type. */
  lemma LoadEepromDispatch(d: Device, t: Programmer, hi: Byte, lo: Byte, data: seq<Byte>, rest: seq<Byte>)
    requires Inv(d, t) && Word(hi, lo) <= d.geometry.pageSize && |data| == Word(hi, lo)
    requires t.input == [hi, lo, MEM_EEPROM] + data + rest && Ready(d, [CMD_BLOCK_LOAD] + t.input)
    ensures var r := LoadBlock(d, t);
            var q := LoadEepromBlock(d, t.(tempInt := WordBits(hi, lo), input := data + rest), Word(hi, lo));
            r == q.(output := q.output + [OK])
  {
    assert t.input[3..] == data + rest;
  }

  /** LoadEepromBlock on input that starts with the block. */
  lemma EepromBlockInput(d: Device, s: Programmer, size: Uint16, data: seq<Byte>, rest: seq<Byte>)
    requires Inv(d, s) && |data| == size && s.input == data + rest
    ensures var q := LoadEepromBlock(d, s, size);
            q.eeprom == EepromBlock(s.eeprom, s.address, data, |data|)
            && q.address == Moved(s.address, |data|, MEMORY_SIZE) && q.input == rest
            && q.tempInt == s.tempInt && q.flash == s.flash && q.pageBuffer == s.pageBuffer
            && q.lockBits == s.lockBits && q.output == s.output && q.exited == s.exited
  {
    assert (data + rest)[|data|..] == rest;
    assert (data + rest)[..|data|] == data[..|data|];
    EepromBlockPrefix(s.eeprom, s.address, data + rest, data, |data|);
  }

  /** The same once the size and memory type are taken. */
  lemma EepromBlockFields(d: Device, t: Programmer, hi: Byte, lo: Byte, data: seq<Byte>, rest: seq<Byte>)
    requires Inv(d, t) && |data| == Word(hi, lo)
    ensures var q := LoadEepromBlock(d, t.(tempInt := WordBits(hi, lo), input := data + rest), Word(hi, lo));
            q.eeprom == EepromBlock(t.eeprom, t.address, data, |data|)
            && q.address == Moved(t.address, |data|, MEMORY_SIZE) && q.input == rest
            && q.tempInt == WordBits(hi, lo) && q.flash == t.flash && q.pageBuffer == t.pageBuffer
            && q.lockBits == t.lockBits && q.output == t.output && q.exited == t.exited
  {
    EepromBlockInput(d, t.(tempInt := WordBits(hi, lo), input := data + rest), Word(hi, lo), data, rest);
  }

  /** BlockLoad 'E' after the command byte, field by field. */
  lemma LoadEepromResult(d: Device, t: Programmer, hi: Byte, lo: Byte, data: seq<Byte>, rest: seq<Byte>)
    requires Inv(d, t) && Word(hi, lo) <= d.geometry.pageSize && |data| == Word(hi, lo)
    requires t.input == [hi, lo, MEM_EEPROM] + data + rest && Ready(d, [CMD_BLOCK_LOAD] + t.input)
    ensures var r := LoadBlock(d, t);
            r.eeprom == EepromBlock(t.eeprom, t.address, data, |data|)
            && r.address == Moved(t.address, |data|, MEMORY_SIZE) && r.input == rest
            && r.tempInt == WordBits(hi, lo) && r.output == t.output + [OK] && r.flash == t.flash
            && r.pageBuffer == t.pageBuffer && r.lockBits == t.lockBits && r.exited == t.exited
  {
    LoadEepromDispatch(d, t, hi, lo, data, rest);
    EepromBlockFields(d, t, hi, lo, data, rest);
  }

  /** 'B' size 'E' data: the block goes into EEPROM from the address on,
      the address moves past it, temp_int keeps the size and the answer is
      OK; flash and everything else are unchanged. */
  lemma EepromLoadStep(d: Device, flags: Byte, s: Programmer, hi: Byte, lo: Byte,
                       data: seq<Byte>, rest: seq<Byte>)
    requires Inv(d, s) && !s.exited && Word(hi, lo) <= d.geometry.pageSize && |data| == Word(hi, lo)
    requires s.input == [CMD_BLOCK_LOAD, hi, lo, MEM_EEPROM] + data + rest
    ensures var r := Steps(d, flags, s, 1);
            r.eeprom == EepromBlock(s.eeprom, s.address, data, |data|)
            && r.address == Moved(s.address, |data|, MEMORY_SIZE) && r.input == rest
            && r.tempInt == WordBits(hi, lo) && r.output == s.output + [OK] && r.flash == s.flash
            && r.pageBuffer == s.pageBuffer && r.lockBits == s.lockBits && !r.exited
  {
    var args := [hi, lo, MEM_EEPROM] + data + rest;
    assert s.input == [CMD_BLOCK_LOAD] + args;
    var t := s.(input := args);
    LoadEepromReady(d, t, hi, lo, data, rest);
    BlockLoadStep(d, flags, s, args);
    LoadEepromResult(d, t, hi, lo, data, rest);
  }

  /** 'g' size 'E': the EEPROM bytes from the address on are sent, and the
      address moves past them. */
  lemma EepromReadStep(d: Device, flags: Byte, s: Programmer, hi: Byte, lo: Byte, rest: seq<Byte>)
    requires Inv(d, s) && !s.exited && s.input == [CMD_BLOCK_READ, hi, lo, MEM_EEPROM] + rest
    ensures var n := BlockCount(Word(hi, lo));
            Steps(d, flags, s, 1)
            == s.(tempInt := WordBits(hi, lo), address := Moved(s.address, n, MEMORY_SIZE), input := rest,
                  output := s.output + EepromBytes(s.eeprom, s.address, n))
  {
    assert s.input == [CMD_BLOCK_READ] + ([hi, lo, MEM_EEPROM] + rest);
    ExecuteStep(d, flags, s, CMD_BLOCK_READ, [hi, lo, MEM_EEPROM] + rest);
    assert ([hi, lo, MEM_EEPROM] + rest)[3..] == rest;
  }

  /** 'B' size 'E' data, then 'A' back to the start: the block is in
      EEPROM and the address is where it began. */
  lemma EepromLoadRewind(d: Device, flags: Byte, s: Programmer, hi: Byte, lo: Byte,
                         data: seq<Byte>, ahi: Byte, alo: Byte, rest: seq<Byte>)
    requires Inv(d, s) && !s.exited && Word(hi, lo) <= d.geometry.pageSize && |data| == Word(hi, lo)
    requires Word(ahi, alo) == s.address
    requires s.input == [CMD_BLOCK_LOAD, hi, lo, MEM_EEPROM] + data + [CMD_SET_ADDRESS, ahi, alo] + rest
    ensures var r := Steps(d, flags, Steps(d, flags, s, 1), 1);
            r.eeprom == EepromBlock(s.eeprom, s.address, data, |data|) && r.address == s.address
            && r.input == rest && r.output == s.output + [OK] + [OK] && !r.exited
  {
    var tail := [CMD_SET_ADDRESS, ahi, alo] + rest;
    assert s.input == [CMD_BLOCK_LOAD, hi, lo, MEM_EEPROM] + data + tail;
    EepromLoadStep(d, flags, s, hi, lo, data, tail);
    SetAddressStep(d, flags, Steps(d, flags, s, 1), ahi, alo, rest);
  }

  /** 'B' size 'E' data, then 'A' back to the start, then 'g' size 'E':
      a block that fits in EEPROM is read back unchanged. */
  lemma EepromBlockRoundTrip(d: Device, flags: Byte, s: Programmer, hi: Byte, lo: Byte,
                             data: seq<Byte>, ahi: Byte, alo: Byte, rest: seq<Byte>)
    requires Inv(d, s) && !s.exited && 0 < Word(hi, lo) <= d.geometry.pageSize && |data| == Word(hi, lo)
    requires Word(ahi, alo) == s.address && s.address + |data| <= d.eepromSize
    requires s.input == [CMD_BLOCK_LOAD, hi, lo, MEM_EEPROM] + data + [CMD_SET_ADDRESS, ahi, alo]
                        + [CMD_BLOCK_READ, hi, lo, MEM_EEPROM] + rest
    ensures var moved := Steps(d, flags, Steps(d, flags, s, 1), 1);
            Steps(d, flags, moved, 1).output == s.output + [OK] + [OK] + data
  {
    var n, a := |data|, s.address;
    var readTail := [CMD_BLOCK_READ, hi, lo, MEM_EEPROM] + rest;
    assert s.input == [CMD_BLOCK_LOAD, hi, lo, MEM_EEPROM] + data + [CMD_SET_ADDRESS, ahi, alo] + readTail;
    EepromLoadRewind(d, flags, s, hi, lo, data, ahi, alo, readTail);
    var moved := Steps(d, flags, Steps(d, flags, s, 1), 1);
    EepromReadStep(d, flags, moved, hi, lo, rest);
    EepromReadBack(s.eeprom, a, data, n);
    assert data[..n] == data;
  }

  // ---------------------------------------------------------------------------
  // Flash blocks

  /** A flash block load whose words have all arrived is ready to run. */
  lemma LoadFlashReady(d: Device, t: Programmer, hi: Byte, lo: Byte, data: seq<Byte>, rest: seq<Byte>)
    requires Inv(d, t) && Word(hi, lo) % 2 == 0 && |data| == BlockCount(Word(hi, lo))
    requires t.input == [hi, lo, MEM_FLASH] + data + rest
    ensures Ready(d, [CMD_BLOCK_LOAD] + t.input)
  {
    assert ([CMD_BLOCK_LOAD] + t.input)[1..] == t.input;
  }

  /** BlockLoad 'F' takes the size, then the words after the memory type. */
  lemma LoadFlashDispatch(d: Device, t: Programmer, hi: Byte, lo: Byte, data: seq<Byte>, rest: seq<Byte>)
    requires Inv(d, t) && Word(hi, lo) % 2 == 0 && |data| == BlockCount(Word(hi, lo))
    requires t.input == [hi, lo, MEM_FLASH] + data + rest && Ready(d, [CMD_BLOCK_LOAD] + t.input)
    ensures var r := LoadBlock(d, t);
            var q := LoadFlashBlock(d, t.(tempInt := WordBits(hi, lo), input := data + rest), Word(hi, lo));
            r == q.(output := q.output + [OK])
  {
    assert t.input[3..] == data + rest;
  }

  /** LoadFlashBlock on input that starts with the words of the block. */
  lemma FlashBlockInput(d: Device, s: Programmer, size: Uint16, data: seq<Byte>, rest: seq<Byte>)
    requires Inv(d, s) && size % 2 == 0 && |data| == BlockCount(size) && s.input == data + rest
    ensures var g, start, q := d.geometry, ByteAddress(s.address), LoadFlashBlock(d, s, size);
            q.flash == PageWrite(g, s.flash, FillWords(g, s.pageBuffer, start, data, |data|), start)
            && q.pageBuffer == Erased(g.pageSize) && q.address == Moved(s.address, |data| / 2, 0x8000)
            && q.input == rest && q.tempInt == s.tempInt && q.eeprom == s.eeprom
            && q.lockBits == s.lockBits && q.output == s.output && q.exited == s.exited
  {
    assert (data + rest)[|data|..] == rest;
    assert (data + rest)[..|data|] == data[..|data|];
    FillWordsPrefix(d.geometry, s.pageBuffer, ByteAddress(s.address), data + rest, data, |data|);
    WordAdvance(s.address, |data|);
  }

  /** The same once the size and memory type are taken. */
  lemma FlashBlockFields(d: Device, t: Programmer, hi: Byte, lo: Byte, data: seq<Byte>, rest: seq<Byte>)
    requires Inv(d, t) && Word(hi, lo) % 2 == 0 && |data| == BlockCount(Word(hi, lo))
    ensures var g, start := d.geometry, ByteAddress(t.address);
            var q := LoadFlashBlock(d, t.(tempInt := WordBits(hi, lo), input := data + rest), Word(hi, lo));
            q.flash == PageWrite(g, t.flash, FillWords(g, t.pageBuffer, start, data, |data|), start)
            && q.pageBuffer == Erased(g.pageSize) && q.address == Moved(t.address, |data| / 2, 0x8000)
            && q.input == rest && q.tempInt == WordBits(hi, lo) && q.eeprom == t.eeprom
            && q.lockBits == t.lockBits && q.output == t.output && q.exited == t.exited
  {
    FlashBlockInput(d, t.(tempInt := WordBits(hi, lo), input := data + rest), Word(hi, lo), data, rest);
  }

  /** 'B' size 'F' data: the words go into the temporary buffer from the
      byte address 2 * address on, the page holding that address is
      programmed, and the word address moves on by size / 2 words modulo
      2^15; there is no APP_END check. */
  lemma FlashLoadStep(d: Device, flags: Byte, s: Programmer, hi: Byte, lo: Byte,
                      data: seq<Byte>, rest: seq<Byte>)
    requires Inv(d, s) && !s.exited && Word(hi, lo) % 2 == 0 && |data| == BlockCount(Word(hi, lo))
    requires s.input == [CMD_BLOCK_LOAD, hi, lo, MEM_FLASH] + data + rest
    ensures var g, start, r := d.geometry, ByteAddress(s.address), Steps(d, flags, s, 1);
            r.flash == PageWrite(g, s.flash, FillWords(g, s.pageBuffer, start, data, |data|), start)
            && r.pageBuffer == Erased(g.pageSize) && r.address == Moved(s.address, |data| / 2, 0x8000)
            && r.tempInt == WordBits(hi, lo) && r.input == rest && r.output == s.output + [OK]
            && r.eeprom == s.eeprom && r.lockBits == s.lockBits && !r.exited
  {
    var args := [hi, lo, MEM_FLASH] + data + rest;
    assert s.input == [CMD_BLOCK_LOAD] + args;
    var t := s.(input := args);
    LoadFlashReady(d, t, hi, lo, data, rest);
    BlockLoadStep(d, flags, s, args);
    LoadFlashResult(d, t, hi, lo, data, rest);
  }

  /** BlockLoad 'F' after the command byte, field by field. */
  lemma LoadFlashResult(d: Device, t: Programmer, hi: Byte, lo: Byte, data: seq<Byte>, rest: seq<Byte>)
    requires Inv(d, t) && Word(hi, lo) % 2 == 0 && |data| == BlockCount(Word(hi, lo))
    requires t.input == [hi, lo, MEM_FLASH] + data + rest && Ready(d, [CMD_BLOCK_LOAD] + t.input)
    ensures var g, start, r := d.geometry, ByteAddress(t.address), LoadBlock(d, t);
            r.flash == PageWrite(g, t.flash, FillWords(g, t.pageBuffer, start, data, |data|), start)
            && r.pageBuffer == Erased(g.pageSize) && r.address == Moved(t.address, |data| / 2, 0x8000)
            && r.tempInt == WordBits(hi, lo) && r.input == rest && r.output == t.output + [OK]
            && r.eeprom == t.eeprom && r.lockBits == t.lockBits && r.exited == t.exited
  {
    LoadFlashDispatch(d, t, hi, lo, data, rest);
    FlashBlockFields(d, t, hi, lo, data, rest);
  }

  /** 'g' size 'F': the flash bytes from byte address 2 * address on, each
      word low byte first, and the word address moves on by size / 2 words
      modulo 2^15. */
  lemma FlashReadStep(d: Device, flags: Byte, s: Programmer, hi: Byte, lo: Byte, rest: seq<Byte>)
    requires Inv(d, s) && !s.exited && Word(hi, lo) % 2 == 0
    requires s.input == [CMD_BLOCK_READ, hi, lo, MEM_FLASH] + rest
    ensures var n := BlockCount(Word(hi, lo));
            Steps(d, flags, s, 1)
            == s.(tempInt := WordBits(hi, lo), address := Moved(s.address, n / 2, 0x8000), input := rest,
                  output := s.output + FlashBytes(s.flash, ByteAddress(s.address), n))
  {
    assert s.input == [CMD_BLOCK_READ] + ([hi, lo, MEM_FLASH] + rest);
    ExecuteStep(d, flags, s, CMD_BLOCK_READ, [hi, lo, MEM_FLASH] + rest);
    assert ([hi, lo, MEM_FLASH] + rest)[3..] == rest;
    WordAdvance(s.address, BlockCount(Word(hi, lo)));
  }

  /** A whole page loaded at a page boundary: each byte of the page keeps
      only the bits it had that the word sent also has, and nothing outside
      the page changes. */
  lemma FlashPageWritten(g: Geometry, flash: seq<Byte>, buffer: seq<Byte>, start: nat, data: seq<Byte>)
    requires ValidGeometry(g) && |flash| == MEMORY_SIZE && |buffer| == g.pageSize && |data| == g.pageSize
    requires start % g.pageSize == 0 && start + g.pageSize <= MEMORY_SIZE
    ensures var w := PageWrite(g, flash, FillWords(g, buffer, start, data, g.pageSize), start);
            (forall k :: 0 <= k < g.pageSize ==> w[start + k] == flash[start + k] & data[k])
            && forall i :: 0 <= i < MEMORY_SIZE && !(start <= i < start + g.pageSize) ==> w[i] == flash[i]
  {
    var p := g.pageSize;
    AlignedPageStart(g, start / p);
    assert start == p * (start / p);
    assert WordOffset(g, start) == 0;
    forall k | 0 <= k < p
      ensures FillWords(g, buffer, start, data, p)[k] == data[k]
    {
      FillWordsAt(g, buffer, start, data, p, k);
    }
  }

  /** Over an erased page the words sent are what the page then holds. */
  lemma FlashPageProgrammed(g: Geometry, flash: seq<Byte>, buffer: seq<Byte>, start: nat, data: seq<Byte>)
    requires ValidGeometry(g) && |flash| == MEMORY_SIZE && |buffer| == g.pageSize && |data| == g.pageSize
    requires start % g.pageSize == 0 && start + g.pageSize <= MEMORY_SIZE
    requires forall i :: start <= i < start + g.pageSize ==> flash[i] == 0xFF
    ensures var w := PageWrite(g, flash, FillWords(g, buffer, start, data, g.pageSize), start);
            FlashBytes(w, start, g.pageSize) == data
  {
    var w := PageWrite(g, flash, FillWords(g, buffer, start, data, g.pageSize), start);
    FlashPageWritten(g, flash, buffer, start, data);
    forall k | 0 <= k < g.pageSize
      ensures FlashBytes(w, start, g.pageSize)[k] == data[k]
    {
      DivModUnique(start + k, MEMORY_SIZE, 0, start + k);
      assert w[start + k] == 0xFF & data[k];
    }
  }

  /** 'B' size 'F' data, then 'A' back to the start: the page is programmed
      and the address is where it began. */
  lemma FlashLoadRewind(d: Device, flags: Byte, s: Programmer, hi: Byte, lo: Byte,
                        data: seq<Byte>, ahi: Byte, alo: Byte, rest: seq<Byte>)
    requires Inv(d, s) && !s.exited && Word(hi, lo) % 2 == 0 && |data| == BlockCount(Word(hi, lo))
    requires Word(ahi, alo) == s.address
    requires s.input == [CMD_BLOCK_LOAD, hi, lo, MEM_FLASH] + data + [CMD_SET_ADDRESS, ahi, alo] + rest
    ensures var g, start, r := d.geometry, ByteAddress(s.address), Steps(d, flags, Steps(d, flags, s, 1), 1);
            r.flash == PageWrite(g, s.flash, FillWords(g, s.pageBuffer, start, data, |data|), start)
            && r.address == s.address && r.input == rest && r.output == s.output + [OK] + [OK] && !r.exited
  {
    var tail := [CMD_SET_ADDRESS, ahi, alo] + rest;
    assert s.input == [CMD_BLOCK_LOAD, hi, lo, MEM_FLASH] + data + tail;
    FlashLoadStep(d, flags, s, hi, lo, data, tail);
    SetAddressStep(d, flags, Steps(d, flags, s, 1), ahi, alo, rest);
  }

  /** 'B' size 'F' with a whole page of words at a page boundary over an
      erased page, then 'A' back to the start, then 'g' size 'F': the
      words are read back as they were sent. */
  lemma FlashBlockRoundTrip(d: Device, flags: Byte, s: Programmer, hi: Byte, lo: Byte,
                            data: seq<Byte>, ahi: Byte, alo: Byte, rest: seq<Byte>)
    requires Inv(d, s) && !s.exited && Word(hi, lo) == d.geometry.pageSize && |data| == Word(hi, lo)
    requires Word(ahi, alo) == s.address && ByteAddress(s.address) % d.geometry.pageSize == 0
    requires forall i :: 0 <= i < |s.flash| && ByteAddress(s.address) <= i < ByteAddress(s.address) + d.geometry.pageSize
                         ==> s.flash[i] == 0xFF
    requires s.input == [CMD_BLOCK_LOAD, hi, lo, MEM_FLASH] + data + [CMD_SET_ADDRESS, ahi, alo]
                        + [CMD_BLOCK_READ, hi, lo, MEM_FLASH] + rest
    ensures var moved := Steps(d, flags, Steps(d, flags, s, 1), 1);
            Steps(d, flags, moved, 1).output == s.output + [OK] + [OK] + data
  {
    var g, start := d.geometry, ByteAddress(s.address);
    var readTail := [CMD_BLOCK_READ, hi, lo, MEM_FLASH] + rest;
    assert s.input == [CMD_BLOCK_LOAD, hi, lo, MEM_FLASH] + data + [CMD_SET_ADDRESS, ahi, alo] + readTail;
    FlashLoadRewind(d, flags, s, hi, lo, data, ahi, alo, readTail);
    var moved := Steps(d, flags, Steps(d, flags, s, 1), 1);
    FlashReadStep(d, flags, moved, hi, lo, rest);
    PageBelow(g, start, MEMORY_SIZE);
    FlashPageProgrammed(g, s.flash, s.pageBuffer, start, data);
  }

  /** 'B' size 'F' checks the address against APP_END nowhere, unlike 'm':
      at the byte address APP_END a page of words is written over the first
      page of the boot section, the loader's own code. */
  lemma BlockLoadReachesBootSection(d: Device, flags: Byte, s: Programmer, hi: Byte, lo: Byte,
                                    data: seq<Byte>, rest: seq<Byte>)
    requires Inv(d, s) && !s.exited && Word(hi, lo) == d.geometry.pageSize && |data| == Word(hi, lo)
    requires ByteAddress(s.address) == d.geometry.appEnd
    requires s.input == [CMD_BLOCK_LOAD, hi, lo, MEM_FLASH] + data + rest
    ensures var r, e := Steps(d, flags, s, 1), d.geometry.appEnd;
            forall k :: 0 <= k < d.geometry.pageSize ==> r.flash[e + k] == s.flash[e + k] & data[k]
  {
    FlashLoadStep(d, flags, s, hi, lo, data, rest);
    FlashPageWritten(d.geometry, s.flash, s.pageBuffer, d.geometry.appEnd, data);
  }

  // ---------------------------------------------------------------------------
  // Byte-wise EEPROM access

  /** 'D' v: v goes to the EEPROM byte at the address and the address moves
      on by one. */
  lemma EepromWriteStep(d: Device, flags: Byte, s: Programmer, v: Byte, rest: seq<Byte>)
    requires Inv(d, s) && !s.exited && s.input == [CMD_WRITE_EEPROM, v] + rest
    ensures Steps(d, flags, s, 1)
            == s.(eeprom := s.eeprom[s.address % d.eepromSize := v], address := Inc16(s.address),
                  input := rest, output := s.output + [OK])
  {
    assert s.input == [CMD_WRITE_EEPROM] + ([v] + rest);
    OneStep(d, flags, s, CMD_WRITE_EEPROM, [v] + rest);
    assert ([v] + rest)[1..] == rest;
  }

  /** 'D' v, then 'A' back, then 'd': the byte written is read back. */
  lemma EepromByteRoundTrip(d: Device, flags: Byte, s: Programmer, v: Byte, ahi: Byte, alo: Byte,
                            rest: seq<Byte>)
    requires Inv(d, s) && !s.exited && Word(ahi, alo) == s.address
    requires s.input == [CMD_WRITE_EEPROM, v] + [CMD_SET_ADDRESS, ahi, alo] + [CMD_READ_EEPROM] + rest
    ensures var moved := Steps(d, flags, Steps(d, flags, s, 1), 1);
            Steps(d, flags, moved, 1).output == s.output + [OK] + [OK] + [v]
            && Steps(d, flags, moved, 1).input == rest
  {
    var tail := [CMD_SET_ADDRESS, ahi, alo] + ([CMD_READ_EEPROM] + rest);
    assert s.input == [CMD_WRITE_EEPROM, v] + tail;
    EepromWriteStep(d, flags, s, v, tail);
    SetAddressStep(d, flags, Steps(d, flags, s, 1), ahi, alo, [CMD_READ_EEPROM] + rest);
    var moved := Steps(d, flags, Steps(d, flags, s, 1), 1);
    OneStep(d, flags, moved, CMD_READ_EEPROM, rest);
  }

  // ---------------------------------------------------------------------------
  // The boot section

  /** Every command but a flash block load leaves the boot section (from
      APP_END on) as it was: 'm' refuses its pages and 'e' stops below it. */
  lemma BootSectionKept(d: Device, flags: Byte, c: Byte, s: Programmer)
    requires Inv(d, s) && Ready(d, [c] + s.input)
    requires c == CMD_BLOCK_LOAD ==> s.input[2] != MEM_FLASH
    ensures var e := d.geometry.appEnd; Dispatch(d, flags, c, s).flash[e..] == s.flash[e..]
  {
    if IsBlock(c) {
      BlockKeepsBootSection(d, c, s);
    } else if c == CMD_WRITE_PAGE || c == CMD_CHIP_ERASE {
      DispatchProgramming(d, flags, c, s);
      WritePageKeepsBootSection(d, s);
      ChipEraseKeepsBootSection(d, s);
    } else if IsMemory(c) {
      MemoryKeepsFlash(d, flags, c, s);
    }
  }

  /** The loop runs 'm' and 'e' as WriteProgramPage and ChipErase. */
  lemma DispatchProgramming(d: Device, flags: Byte, c: Byte, s: Programmer)
    requires Inv(d, s) && Ready(d, [c] + s.input)
    ensures c == CMD_WRITE_PAGE ==> Dispatch(d, flags, c, s) == WriteProgramPage(d, s)
    ensures c == CMD_CHIP_ERASE ==> Dispatch(d, flags, c, s) == ChipErase(d, s)
  {
  }

  /** 'm' writes only pages below APP_END. */
  lemma WritePageKeepsBootSection(d: Device, s: Programmer)
    requires Inv(d, s)
    ensures var e := d.geometry.appEnd; WriteProgramPage(d, s).flash[e..] == s.flash[e..]
  {
    if s.address < d.geometry.appEnd / 2 {
      DoubleWrap(s.address);
      WriteBelowProtects(d.geometry, s.flash, s.pageBuffer, ByteAddress(s.address));
    }
  }

  /** 'e' erases only below APP_END. */
  lemma ChipEraseKeepsBootSection(d: Device, s: Programmer)
    requires Inv(d, s)
    ensures var e := d.geometry.appEnd; ChipErase(d, s).flash[e..] == s.flash[e..]
  {
    var e := d.geometry.appEnd;
    assert ChipErase(d, s).flash[e..] == s.flash[e..];
  }

  /** The block commands but a flash block load leave flash alone. */
  lemma BlockKeepsBootSection(d: Device, c: Byte, s: Programmer)
    requires Inv(d, s) && Ready(d, [c] + s.input) && IsBlock(c)
    requires c == CMD_BLOCK_LOAD ==> s.input[2] != MEM_FLASH
    ensures DispatchBlock(d, c, s).flash == s.flash
  {
    assert ([c] + s.input)[1..] == s.input;
  }

  /** The other commands that take arguments leave flash alone. */
  lemma MemoryKeepsFlash(d: Device, flags: Byte, c: Byte, s: Programmer)
    requires Inv(d, s) && Ready(d, [c] + s.input) && IsMemory(c)
    requires c != CMD_WRITE_PAGE && c != CMD_CHIP_ERASE
    ensures DispatchMemory(d, flags, c, s).flash == s.flash
  {
  }

  /** 'e': every application byte is erased, the boot section is kept, and
      the address holds APP_END. */
  lemma ChipEraseStep(d: Device, flags: Byte, s: Programmer, rest: seq<Byte>)
    requires Inv(d, s) && !s.exited && s.input == [CMD_CHIP_ERASE] + rest
    ensures var r, e := Steps(d, flags, s, 1), d.geometry.appEnd;
            (forall i :: 0 <= i < e ==> r.flash[i] == 0xFF) && r.flash[e..] == s.flash[e..]
            && r.address == e && r.output == s.output + [OK] && r.input == rest
  {
    OneStep(d, flags, s, CMD_CHIP_ERASE, rest);
    var e := d.geometry.appEnd;
    var r := Steps(d, flags, s, 1);
    assert r == ChipErase(d, s.(input := rest));
    assert r.flash[e..] == s.flash[e..];
  }

  // ---------------------------------------------------------------------------
  // Leaving the loader, lock bits, and answers

  /** 'E': OK is sent, the flags byte is stored with the loader flag
      cleared, and the loop ends; at the next reset the loader runs again
      only if flash word 0 is erased. */
  lemma ExitStep(d: Device, flags: Byte, s: Programmer, rest: seq<Byte>)
    requires Inv(d, s) && !s.exited && s.input == [CMD_EXIT] + rest
    ensures var r := Steps(d, flags, s, 1);
            r.exited && r.output == s.output + [OK] && r.input == rest && r.flash == s.flash
            && r.eeprom == s.eeprom[0 := flags & !EE_FLAG_LOADER]
            && (BootDecision(r.flash, r.eeprom).runLoader <==> r.flash[0] == 0xFF && r.flash[1] == 0xFF)
            && Session(d, flags, s) == r
  {
    OneStep(d, flags, s, CMD_EXIT, rest);
    var r := Steps(d, flags, s, 1);
    assert r == ExitLoader(d, flags, s.(input := rest));
    assert r.eeprom[0] & EE_FLAG_LOADER == 0;
    ExecuteStep(d, flags, s, CMD_EXIT, rest);
  }

  /** 'l' v: a lock bit written as 0 becomes programmed, and no lock bit
      that is programmed is ever unprogrammed. */
  lemma LockBitsStep(d: Device, flags: Byte, s: Programmer, v: Byte, rest: seq<Byte>)
    requires Inv(d, s) && !s.exited && s.input == [CMD_WRITE_LOCK, v] + rest
    ensures var r := Steps(d, flags, s, 1);
            r.lockBits & !v == 0 && r.lockBits | s.lockBits == s.lockBits
            && r.output == s.output + [OK] && r.input == rest && r.flash == s.flash
  {
    assert s.input == [CMD_WRITE_LOCK] + ([v] + rest);
    OneStep(d, flags, s, CMD_WRITE_LOCK, [v] + rest);
    assert ([v] + rest)[1..] == rest;
  }

  /** A character that is no command gets '?' and changes nothing else; ESC
      gets no answer at all. */
  lemma UnknownStep(d: Device, flags: Byte, s: Programmer, c: Byte, rest: seq<Byte>)
    requires Inv(d, s) && !s.exited && !Known(c) && s.input == [c] + rest
    ensures Steps(d, flags, s, 1)
            == if c == ESC then s.(input := rest) else s.(input := rest, output := s.output + [UNKNOWN])
  {
    OneStep(d, flags, s, c, rest);
  }

  /** 'g' 0 0 'E': a size of 0 runs the do-while loop over all 65536
      addresses, so the whole 16-bit EEPROM address space is sent and the
      address comes back where it was. */
  lemma EmptyBlockRead(d: Device, flags: Byte, s: Programmer, rest: seq<Byte>)
    requires Inv(d, s) && !s.exited && s.input == [CMD_BLOCK_READ, 0, 0, MEM_EEPROM] + rest
    ensures var r := Steps(d, flags, s, 1);
            |r.output| == |s.output| + MEMORY_SIZE && r.address == s.address && r.input == rest
  {
    EepromReadStep(d, flags, s, 0, 0, rest);
    DivModUnique(s.address + MEMORY_SIZE, MEMORY_SIZE, 1, s.address);
  }

  /** Running some passes of the loop first does not change where the
      session ends. */
  lemma {:induction false} SessionSteps(d: Device, flags: Byte, s: Programmer, k: nat)
    requires Inv(d, s)
    ensures Session(d, flags, Steps(d, flags, s, k)) == Session(d, flags, s)
    decreases k
  {
    if k != 0 && !s.exited && Ready(d, s.input) {
      SessionSteps(d, flags, Execute(d, flags, s), k - 1);
    }
  }
}

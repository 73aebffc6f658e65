// The I2C bootloader (avr/twiboot/main.c): the boot decision, and the bus
// interrupt that runs a byte-by-byte command protocol over a command byte,
// a byte counter, a 16-bit address and a one-page buffer, programming flash
// pages below the boot section and reading and writing EEPROM.

module TwiBoot {
  import opened Bytes
  import opened Spm

  // Command bytes. The read and write commands share their codes.
  const CMD_WAIT: Byte := 0x00
  const CMD_READ_VERSION: Byte := 0x01       // also CMD_SWITCH_APPLICATION
  const CMD_SWITCH_APPLICATION: Byte := 0x01
  const CMD_WRITE_MEMORY: Byte := 0x02       // also CMD_READ_MEMORY
  const CMD_READ_CHIPINFO: Byte := 0x12      // also CMD_WRITE_CHIPINFO
  const CMD_WRITE_CHIPINFO: Byte := 0x12
  const CMD_BOOT_APPLICATION: Byte := 0x21
  const CMD_READ_FLASH: Byte := 0x22         // also CMD_WRITE_FLASH
  const CMD_WRITE_FLASH: Byte := 0x22
  const CMD_READ_EEPROM: Byte := 0x32        // also CMD_WRITE_EEPROM
  const CMD_WRITE_EEPROM: Byte := 0x32

  const BOOTTYPE_APPLICATION: Byte := 0x80
  const MEMTYPE_CHIPINFO: Byte := 0x00
  const MEMTYPE_FLASH: Byte := 0x01
  const MEMTYPE_EEPROM: Byte := 0x02

  /** Watchdog reset flag in MCUSR. */
  const WDRF: Byte := 0x08

  // Slave status codes, TWSR with the prescaler bits masked off
  const TW_SR_SLA_ACK: Byte := 0x60
  const TW_SR_DATA_ACK: Byte := 0x80
  const TW_SR_STOP: Byte := 0xA0
  const TW_ST_SLA_ACK: Byte := 0xA8
  const TW_ST_DATA_ACK: Byte := 0xB8
  const TW_ST_DATA_NACK: Byte := 0xC0
  const TW_BUS_ERROR: Byte := 0xF8

  /** The version reply: "TWIBOOT v2.1d" padded with zero bytes to 16. */
  const INFO: seq<Byte> :=
    [0x54, 0x57, 0x49, 0x42, 0x4F, 0x4F, 0x54, 0x20, 0x76, 0x32, 0x2E, 0x31, 0x64, 0x00, 0x00, 0x00]

  /** What the build fixes per device: the page geometry, the EEPROM size
      (E2END + 1) and the three signature bytes. */
  datatype Device = Device(geometry: Geometry, eepromSize: nat, signature: seq<Byte>)

  /** The supported devices have pages of at most 128 bytes, so the byte
      counter and the 8-bit page countdown never overflow. */
  predicate ValidDevice(d: Device)
  {
    ValidGeometry(d.geometry) && d.geometry.pageSize <= 128
    && 0 < d.eepromSize <= MEMORY_SIZE && |d.signature| == 3
  }

  /** The chip-info reply: signature, page size, APP_END and EEPROM size,
      16-bit values high byte first. */
  function Chipinfo(d: Device): (c: seq<Byte>)
    requires ValidDevice(d)
    ensures |c| == 8 && c[..3] == d.signature
  {
    var a, e := d.geometry.appEnd, d.eepromSize;
    d.signature + [LowByte(d.geometry.pageSize), LowByte(a / 0x100), LowByte(a),
                   LowByte(e / 0x100), LowByte(e)]
  }

  /** The chip-info layout: byte 3 is the page size, bytes 4-5 APP_END and
      bytes 6-7 the EEPROM size, each high byte first and truncated to 16 bits
      as the C table's `& 0xFF` does; an EEPROM of 64 KiB would read as 0. */
  lemma ChipinfoEncodes(d: Device)
    requires ValidDevice(d)
    ensures var c := Chipinfo(d);
            c[3] as int == d.geometry.pageSize
            && c[4] as int * 0x100 + c[5] as int == d.geometry.appEnd
            && c[6] as int * 0x100 + c[7] as int == d.eepromSize % 0x1_0000
            && (d.eepromSize < 0x1_0000 ==> c[6] as int * 0x100 + c[7] as int == d.eepromSize)
  {
    var c := Chipinfo(d);
    var a, e := d.geometry.appEnd, d.eepromSize;
    assert c[3] == LowByte(d.geometry.pageSize) && c[4] == LowByte(a / 0x100) && c[5] == LowByte(a);
    assert c[6] == LowByte(e / 0x100) && c[7] == LowByte(e);
    NumberRoundTrip(d.geometry.pageSize);
    HighLowBytes(a);
    HighLowBytes(e);
    DivModUnique(a, 0x1_0000, 0, a);
    if e < 0x1_0000 {
      DivModUnique(e, 0x1_0000, 0, e);
    }
  }

  // ---------------------------------------------------------------------------
  // Boot decision

  datatype Entry = RunApplication | StayInLoader(timed: bool)

  /** main: stay in the loader when flash word 0 is erased (no application) or
      when the last reset came from the watchdog; only the second case arms
      the timeout that starts the application again. */
  function BootDecision(flash: seq<Byte>, mcusr: Byte): (e: Entry)
    requires |flash| >= 2
    ensures e.StayInLoader? <==> (flash[0] == 0xFF && flash[1] == 0xFF) || mcusr & WDRF != 0
    ensures e.StayInLoader? ==> (e.timed <==> !(flash[0] == 0xFF && flash[1] == 0xFF))
  {
    var word0 := (flash[0] as bv16) | ((flash[1] as bv16) << 8);
    if word0 == 0xFFFF then StayInLoader(false)
    else if mcusr & WDRF != 0 then StayInLoader(true)
    else RunApplication
  }

  // ---------------------------------------------------------------------------
  // Loader state and one bus interrupt, as functions

  /** The statics the interrupt works on, the memories it programs, and the
      two flags of the boot timeout (no_activity, and whether timer 2 runs). */
  datatype Loader = Loader(bcnt: Uint8, cmd: Byte, addr: Uint16, buf: seq<Byte>,
                           flash: seq<Byte>, pageBuffer: seq<Byte>, eeprom: seq<Byte>,
                           noActivity: bool, timerRunning: bool)

  /** The counter stays inside the table or buffer the current command indexes. */
  predicate Inv(d: Device, s: Loader)
  {
    ValidDevice(d)
    && |s.buf| == d.geometry.pageSize && |s.pageBuffer| == d.geometry.pageSize
    && |s.flash| == MEMORY_SIZE && |s.eeprom| == d.eepromSize
    && (s.cmd == CMD_READ_VERSION ==> s.bcnt < |INFO|)
    && (s.cmd == CMD_READ_CHIPINFO ==> s.bcnt < 8)
    && (s.cmd == CMD_WRITE_FLASH ==> s.bcnt <= d.geometry.pageSize + 3)
    && (!s.noActivity ==> !s.timerRunning)
  }

  /** The first own-address event stops the boot timeout for good. */
  function Activity(s: Loader): Loader
  {
    if s.noActivity then s.(timerRunning := false, noActivity := false) else s
  }

  /** Erase the page holding a, load data into the temporary buffer as words
      from a on, and program it. */
  function ProgramPage(g: Geometry, flash: seq<Byte>, pageBuffer: seq<Byte>, a: nat, data: seq<Byte>): (r: seq<Byte>)
    requires ValidGeometry(g) && |pageBuffer| == g.pageSize && |data| == g.pageSize
    requires a < g.appEnd && |flash| == MEMORY_SIZE
    ensures |r| == MEMORY_SIZE && r[g.appEnd..] == flash[g.appEnd..]
  {
    var erased := PageErase(g, flash, a);
    var filled := FillWords(g, pageBuffer, a, data, |data|);
    WriteBelowProtects(g, flash, filled, a);
    WriteBelowProtects(g, erased, filled, a);
    PageWrite(g, erased, filled, a)
  }

  /** write_flash_page: nothing at or above APP_END; otherwise the page at
      addr is programmed from buf and addr moves on by one page. */
  function WritePage(d: Device, s: Loader): (r: Loader)
    requires Inv(d, s)
    ensures Inv(d, r) && r.flash[d.geometry.appEnd..] == s.flash[d.geometry.appEnd..]
  {
    var g := d.geometry;
    if s.addr >= g.appEnd then s
    else
      s.(flash := ProgramPage(g, s.flash, s.pageBuffer, s.addr, s.buf),
         pageBuffer := Erased(g.pageSize), addr := s.addr + g.pageSize)
  }

  /** A byte received after SLA+W: the new state and whether it is ACKed. */
  function Receive(d: Device, s: Loader, data: Byte): (r: (Loader, bool))
    requires Inv(d, s)
    ensures Inv(d, r.0) && r.0.flash[d.geometry.appEnd..] == s.flash[d.geometry.appEnd..]
  {
    var p := d.geometry.pageSize;
    if s.bcnt == 0 then
      var start := data == CMD_SWITCH_APPLICATION || data == CMD_WRITE_MEMORY;
      (s.(cmd := data, bcnt := if start then 1 else 0), start || data == CMD_WAIT)
    else if s.bcnt == 1 then
      if s.cmd == CMD_SWITCH_APPLICATION then
        (s.(cmd := if data == BOOTTYPE_APPLICATION then CMD_BOOT_APPLICATION else s.cmd, bcnt := 0), false)
      else if s.cmd == CMD_WRITE_MEMORY then
        if data == MEMTYPE_CHIPINFO then (s.(cmd := CMD_WRITE_CHIPINFO, bcnt := 2), true)
        else if data == MEMTYPE_FLASH then (s.(cmd := CMD_WRITE_FLASH, bcnt := 2), true)
        else if data == MEMTYPE_EEPROM then (s.(cmd := CMD_WRITE_EEPROM, bcnt := 2), true)
        else (s.(bcnt := 0), false)
      else (s.(bcnt := 0), false)
    else if s.bcnt <= 3 then
      (s.(addr := (s.addr % 0x100) * 0x100 + data as int, bcnt := s.bcnt + 1), true)
    else if s.cmd == CMD_WRITE_FLASH then
      var stored := s.(buf := s.buf[s.bcnt - 4 := data]);
      if s.bcnt < p + 3 then (stored.(bcnt := s.bcnt + 1), true)
      else (WritePage(d, stored.(bcnt := 0)), false)
    else if s.cmd == CMD_WRITE_EEPROM then
      (s.(eeprom := s.eeprom[s.addr % d.eepromSize := data], addr := Inc16(s.addr), bcnt := Inc8(s.bcnt)), true)
    else (s.(bcnt := 0), false)
  }

  /** The byte sent for a read, and the state after it. */
  function Transmit(d: Device, s: Loader): (r: (Loader, Byte))
    requires Inv(d, s)
    ensures Inv(d, r.0) && r.0.flash == s.flash && r.0.eeprom == s.eeprom
  {
    if s.cmd == CMD_READ_VERSION then (s.(bcnt := (s.bcnt + 1) % |INFO|), INFO[s.bcnt])
    else if s.cmd == CMD_READ_CHIPINFO then (s.(bcnt := (s.bcnt + 1) % 8), Chipinfo(d)[s.bcnt])
    else if s.cmd == CMD_READ_FLASH then (s.(addr := Inc16(s.addr)), s.flash[s.addr])
    else if s.cmd == CMD_READ_EEPROM then (s.(addr := Inc16(s.addr)), s.eeprom[s.addr % d.eepromSize])
    else (s, 0xFF)
  }

  /** What the interrupt tells the bus hardware. */
  datatype TwiAction =
    | Acknowledge(ack: bool)   // continue, ACKing the next byte or not
    | Reply(data: Byte)        // a byte loaded for the master to read
    | RecoverBus               // bus error: release the lines
    | NoResponse               // any other status: the interrupt does nothing

  /** TWI_vect: one bus interrupt. Whatever the master sends, the loader's
      invariant holds afterwards and the boot section is never programmed. */
  function Event(d: Device, s: Loader, status: Byte, data: Byte): (r: (Loader, TwiAction))
    requires Inv(d, s)
    ensures Inv(d, r.0) && r.0.flash[d.geometry.appEnd..] == s.flash[d.geometry.appEnd..]
  {
    var code := status & 0xF8;
    if code == TW_SR_SLA_ACK then (Activity(s).(bcnt := 0), Acknowledge(true))
    else if code == TW_SR_DATA_ACK then
      var (s', ack) := Receive(d, s, data); (s', Acknowledge(ack))
    else if code == TW_ST_SLA_ACK then
      var (s', b) := Transmit(d, Activity(s).(bcnt := 0)); (s', Reply(b))
    else if code == TW_ST_DATA_ACK then
      var (s', b) := Transmit(d, s); (s', Reply(b))
    else if code == TW_SR_STOP || code == TW_ST_DATA_NACK then (s, Acknowledge(true))
    else if code == TW_BUS_ERROR then (s, RecoverBus)
    else (s, NoResponse)
  }

  /** The wait loop in main ends on the boot command, or on the timeout if
      timer 2 still runs and has overflowed. */
  predicate LeavesLoader(s: Loader, timerOverflow: bool)
  {
    s.cmd == CMD_BOOT_APPLICATION || (s.timerRunning && timerOverflow)
  }

  // ---------------------------------------------------------------------------
  // Properties of the protocol

  /** The first byte after SLA+W always becomes the command (the boot command
      the unknown-byte branch stores is overwritten by the byte itself); 0x01
      and 0x02 start a command, 0x00 is ACKed and starts nothing, any other
      byte is NACKed. */
  lemma FirstByte(d: Device, s: Loader, data: Byte)
    requires Inv(d, s) && s.bcnt == 0
    ensures var (s', ack) := Receive(d, s, data);
            s'.cmd == data
            && s'.bcnt == (if data == CMD_SWITCH_APPLICATION || data == CMD_WRITE_MEMORY then 1 else 0)
            && (ack <==> data == CMD_WAIT || data == CMD_SWITCH_APPLICATION || data == CMD_WRITE_MEMORY)
            && s'.addr == s.addr && s'.flash == s.flash && s'.eeprom == s.eeprom
  {
  }

  /** An unknown first byte does not end the loader, unless it happens to be
      the value of the boot command itself. */
  lemma UnknownByteKeepsLoader(d: Device, s: Loader, data: Byte)
    requires Inv(d, s) && s.bcnt == 0 && !s.timerRunning
    requires data !in {CMD_WAIT, CMD_SWITCH_APPLICATION, CMD_WRITE_MEMORY}
    ensures var (s', _) := Receive(d, s, data);
            LeavesLoader(s', true) <==> data == CMD_BOOT_APPLICATION
  {
  }

  /** The byte after 0x01: 0x80 selects the boot command, anything else keeps
      0x01; either way it is NACKed and the counter restarts. */
  lemma SwitchApplication(d: Device, s: Loader, data: Byte)
    requires Inv(d, s) && s.bcnt == 1 && s.cmd == CMD_SWITCH_APPLICATION
    ensures var (s', ack) := Receive(d, s, data);
            !ack && s'.bcnt == 0
            && s'.cmd == (if data == BOOTTYPE_APPLICATION then CMD_BOOT_APPLICATION else CMD_SWITCH_APPLICATION)
  {
  }

  /** The byte after 0x02 selects the memory: 0, 1 and 2 map to chip info,
      flash and EEPROM and are ACKed; any other value is NACKed. */
  lemma SelectMemory(d: Device, s: Loader, data: Byte)
    requires Inv(d, s) && s.bcnt == 1 && s.cmd == CMD_WRITE_MEMORY
    ensures var (s', ack) := Receive(d, s, data);
            (ack <==> data as int <= 2)
            && (ack ==> s'.bcnt == 2 && s'.cmd == [CMD_WRITE_CHIPINFO, CMD_WRITE_FLASH, CMD_WRITE_EEPROM][data as int])
            && (!ack ==> s'.bcnt == 0 && s'.cmd == CMD_WRITE_MEMORY)
  {
  }

  /** The next two bytes are the address, high byte first, whatever addr was. */
  lemma AddressBytes(d: Device, s: Loader, hi: Byte, lo: Byte)
    requires Inv(d, s) && s.bcnt == 2
    ensures var (s1, ack1) := Receive(d, s, hi);
            var (s2, ack2) := Receive(d, s1, lo);
            ack1 && ack2 && s2.bcnt == 4 && s2.cmd == s.cmd
            && s2.addr == hi as int * 0x100 + lo as int
  {
    var s1 := Receive(d, s, hi).0;
    assert s1.addr == (s.addr % 0x100) * 0x100 + hi as int;
    DivModUnique(s1.addr, 0x100, s.addr % 0x100, hi as int);
  }

  /** A run of received bytes: the final state and the ACK of each byte. */
  function ReceiveAll(d: Device, s: Loader, bytes: seq<Byte>): (r: (Loader, seq<bool>))
    requires Inv(d, s)
    ensures Inv(d, r.0) && |r.1| == |bytes|
    decreases |bytes|
  {
    if bytes == [] then (s, [])
    else
      var (s1, ack) := Receive(d, s, bytes[0]);
      var (s2, acks) := ReceiveAll(d, s1, bytes[1..]);
      (s2, [ack] + acks)
  }

  /** Flash payload bytes fill buf in order from the counter's position; the
      byte that fills the page triggers write_flash_page. */
  lemma {:induction false} PayloadCompletesPage(d: Device, s: Loader, data: seq<Byte>)
    requires Inv(d, s) && s.cmd == CMD_WRITE_FLASH && 4 <= s.bcnt
    requires s.bcnt - 4 + |data| == d.geometry.pageSize
    ensures ReceiveAll(d, s, data).0 == WritePage(d, s.(bcnt := 0, buf := s.buf[..s.bcnt - 4] + data))
    decreases |data|
  {
    PayloadByte(d, s, data[0]);
    StoreThenFill(s, data);
    if |data| > 1 {
      PayloadCompletesPage(d, Receive(d, s, data[0]).0, data[1..]);
    }
  }

  /** Storing the first byte at the counter's position and then the rest
      after it is storing them all from that position. */
  lemma StoreThenFill(s: Loader, data: seq<Byte>)
    requires 4 <= s.bcnt && 0 < |data| && s.bcnt - 4 + |data| == |s.buf| <= 128
    ensures var j := s.bcnt - 4;
            var s1 := s.(buf := s.buf[j := data[0]], bcnt := s.bcnt + 1);
            (|data| == 1 ==> s.(buf := s.buf[j := data[0]]).(bcnt := 0) == s.(bcnt := 0, buf := s.buf[..j] + data))
            && s1.(bcnt := 0, buf := s1.buf[..j + 1] + data[1..]) == s.(bcnt := 0, buf := s.buf[..j] + data)
  {
    var j := s.bcnt - 4;
    if |data| == 1 {
      assert s.buf[j := data[0]] == s.buf[..j] + data;
    } else {
      assert s.buf[j := data[0]][..j + 1] + data[1..] == s.buf[..j] + data;
    }
  }

  /** n - 1 ACKs followed by one NACK. */
  function AcksThenNack(n: nat): (acks: seq<bool>)
    requires n > 0
    ensures |acks| == n && forall k :: 0 <= k < n ==> (acks[k] <==> k < n - 1)
  {
    if n == 1 then [false] else [true] + AcksThenNack(n - 1)
  }

  /** Every payload byte but the one that fills the page is ACKed. */
  lemma {:induction false} PayloadAcks(d: Device, s: Loader, data: seq<Byte>)
    requires Inv(d, s) && s.cmd == CMD_WRITE_FLASH && 4 <= s.bcnt
    requires s.bcnt - 4 + |data| == d.geometry.pageSize
    ensures ReceiveAll(d, s, data).1 == AcksThenNack(|data|)
    decreases |data|
  {
    PayloadByte(d, s, data[0]);
    var first := Receive(d, s, data[0]);
    if |data| > 1 {
      PayloadAcks(d, first.0, data[1..]);
    }
  }

  /** One flash payload byte: stored at the counter's position, and the last
      one of the page written. */
  lemma PayloadByte(d: Device, s: Loader, b: Byte)
    requires Inv(d, s) && s.cmd == CMD_WRITE_FLASH && 4 <= s.bcnt
    ensures var stored := s.(buf := s.buf[s.bcnt - 4 := b]);
            Receive(d, s, b) == if s.bcnt < d.geometry.pageSize + 3 then (stored.(bcnt := s.bcnt + 1), true)
                                else (WritePage(d, stored.(bcnt := 0)), false)
  {
  }

  /** A flash write transfer: after the command, memory type and address,
      exactly one page of payload ends in a NACK; below APP_END it programs
      the page holding addr (rotated by addr's offset in the page) and moves
      addr on by a page, at or above APP_END it changes no memory at all. */
  lemma FlashWriteTransfer(d: Device, s: Loader, data: seq<Byte>)
    requires Inv(d, s) && s.cmd == CMD_WRITE_FLASH && s.bcnt == 4
    requires |data| == d.geometry.pageSize
    ensures var (s', acks) := ReceiveAll(d, s, data);
            var g := d.geometry;
            (forall k :: 0 <= k < |acks| ==> (acks[k] <==> k < |data| - 1)) && s'.bcnt == 0 && s'.buf == data
            && (s.addr < g.appEnd ==>
                  s'.flash == ProgramPage(g, s.flash, s.pageBuffer, s.addr, data)
                  && s'.addr == s.addr + g.pageSize)
            && (s.addr >= g.appEnd ==> s'.flash == s.flash && s'.addr == s.addr)
  {
    PayloadCompletesPage(d, s, data);
    PayloadAcks(d, s, data);
    assert s.buf[..0] + data == data;
  }

  /** What programming a page puts where: byte i of the page holding a gets
      data byte Pos(offset of a, i - start), and nothing else changes. */
  lemma {:induction false} ProgramPageAt(g: Geometry, flash: seq<Byte>, pageBuffer: seq<Byte>, a: nat, data: seq<Byte>, i: nat)
    requires ValidGeometry(g) && |pageBuffer| == g.pageSize && |data| == g.pageSize
    requires a < g.appEnd && |flash| == MEMORY_SIZE && i < MEMORY_SIZE
    ensures var s := PageStart(g, a);
            ProgramPage(g, flash, pageBuffer, a, data)[i]
            == if s <= i < s + g.pageSize then data[Pos(g, WordOffset(g, a), i - s)] else flash[i]
  {
    var s := PageStart(g, a);
    EraseThenWrite(g, flash, FillWords(g, pageBuffer, a, data, |data|), a, i);
    if s <= i < s + g.pageSize {
      FillWordsAt(g, pageBuffer, a, data, |data|, i - s);
    }
  }

  /** At a page-aligned address below APP_END the page becomes exactly data. */
  lemma {:induction false} ProgramAlignedPage(g: Geometry, flash: seq<Byte>, pageBuffer: seq<Byte>, a: nat, data: seq<Byte>)
    requires ValidGeometry(g) && |pageBuffer| == g.pageSize && |data| == g.pageSize
    requires a < g.appEnd && |flash| == MEMORY_SIZE && a % g.pageSize == 0
    ensures a + g.pageSize <= g.appEnd
    ensures ProgramPage(g, flash, pageBuffer, a, data) == flash[..a] + data + flash[a + g.pageSize..]
  {
    PageBelow(g, a, g.appEnd);
    var r := ProgramPage(g, flash, pageBuffer, a, data);
    var expected := flash[..a] + data + flash[a + g.pageSize..];
    forall i | 0 <= i < MEMORY_SIZE
      ensures r[i] == expected[i]
    {
      ProgramPageAt(g, flash, pageBuffer, a, data, i);
    }
  }

  /** A run of n bytes read by the master: the final state and the bytes. */
  function ReadAll(d: Device, s: Loader, n: nat): (r: (Loader, seq<Byte>))
    requires Inv(d, s)
    ensures Inv(d, r.0) && |r.1| == n
    decreases n
  {
    if n == 0 then (s, [])
    else
      var (s1, b) := Transmit(d, s);
      var (s2, bs) := ReadAll(d, s1, n - 1);
      (s2, [b] + bs)
  }

  /** The k-th byte a read returns from state s. */
  function ReplyAt(d: Device, s: Loader, k: nat): Byte
    requires Inv(d, s)
  {
    if s.cmd == CMD_READ_VERSION then INFO[(s.bcnt + k) % |INFO|]
    else if s.cmd == CMD_READ_CHIPINFO then Chipinfo(d)[(s.bcnt + k) % 8]
    else if s.cmd == CMD_READ_FLASH then s.flash[(s.addr + k) % MEMORY_SIZE]
    else if s.cmd == CMD_READ_EEPROM then s.eeprom[(s.addr + k) % MEMORY_SIZE % d.eepromSize]
    else 0xFF
  }

  /** Reads cycle through the version string (16 bytes) and the chip info
      (8 bytes), stream flash and EEPROM from addr on with a 16-bit address
      that wraps, and return 0xFF for any other command. */
  lemma {:induction false} ReadSequence(d: Device, s: Loader, n: nat)
    requires Inv(d, s)
    ensures forall k :: 0 <= k < n ==> ReadAll(d, s, n).1[k] == ReplyAt(d, s, k)
    decreases n
  {
    if n > 0 {
      var (s1, b) := Transmit(d, s);
      var rest := ReadAll(d, s1, n - 1).1;
      ReadSequence(d, s1, n - 1);
      ReplyFirst(d, s);
      var bs := ReadAll(d, s, n).1;
      assert bs == [b] + rest;
      forall k | 0 <= k < n
        ensures bs[k] == ReplyAt(d, s, k)
      {
        if k > 0 {
          assert bs[k] == rest[k - 1];
          ReplyShift(d, s, k);
        }
      }
    }
  }

  /** The byte sent now is the first byte of the stream. */
  lemma ReplyFirst(d: Device, s: Loader)
    requires Inv(d, s)
    ensures Transmit(d, s).1 == ReplyAt(d, s, 0)
  {
    if s.cmd == CMD_READ_VERSION {
      assert (s.bcnt + 0) % 16 == s.bcnt;
    } else if s.cmd == CMD_READ_CHIPINFO {
      assert (s.bcnt + 0) % 8 == s.bcnt;
    } else if s.cmd == CMD_READ_FLASH || s.cmd == CMD_READ_EEPROM {
      assert (s.addr + 0) % MEMORY_SIZE == s.addr;
    }
  }

  /** After one byte is sent, the rest of the reply is the same stream one
      byte further on. */
  lemma ReplyShift(d: Device, s: Loader, k: nat)
    requires Inv(d, s) && k >= 1
    ensures ReplyAt(d, Transmit(d, s).0, k - 1) == ReplyAt(d, s, k)
  {
    if s.cmd == CMD_READ_VERSION || s.cmd == CMD_READ_CHIPINFO {
      CounterShift(d, s, k);
    } else if s.cmd == CMD_READ_FLASH || s.cmd == CMD_READ_EEPROM {
      AddressShift(d, s, k);
    } else {
      assert Transmit(d, s).0 == s;
    }
  }

  /** ReplyShift for the version and chip-info replies: the byte counter
      moves on modulo the reply's length. */
  lemma CounterShift(d: Device, s: Loader, k: nat)
    requires Inv(d, s) && k >= 1 && (s.cmd == CMD_READ_VERSION || s.cmd == CMD_READ_CHIPINFO)
    ensures ReplyAt(d, Transmit(d, s).0, k - 1) == ReplyAt(d, s, k)
  {
    var s1 := Transmit(d, s).0;
    if s.cmd == CMD_READ_VERSION {
      assert s1.bcnt == (s.bcnt + 1) % 16 && s1.cmd == s.cmd;
      ModOfSum(s.bcnt + 1, k - 1, 16);
    } else {
      assert s1.bcnt == (s.bcnt + 1) % 8 && s1.cmd == s.cmd;
      ModOfSum(s.bcnt + 1, k - 1, 8);
    }
  }

  /** ReplyShift for flash and EEPROM reads: the 16-bit address moves on. */
  lemma AddressShift(d: Device, s: Loader, k: nat)
    requires Inv(d, s) && k >= 1 && (s.cmd == CMD_READ_FLASH || s.cmd == CMD_READ_EEPROM)
    ensures ReplyAt(d, Transmit(d, s).0, k - 1) == ReplyAt(d, s, k)
  {
    var s1 := Transmit(d, s).0;
    assert s1 == s.(addr := (s.addr + 1) % MEMORY_SIZE);
    ModOfSum(s.addr + 1, k - 1, MEMORY_SIZE);
    assert (s1.addr + (k - 1)) % MEMORY_SIZE == (s.addr + k) % MEMORY_SIZE;
  }

  /** A read transfer (SLA+R, then n - 1 further ACKed reads) restarts the
      counter: the version reply is INFO from its first byte, cyclically. */
  lemma VersionRead(d: Device, s: Loader, n: nat)
    requires Inv(d, s) && s.cmd == CMD_READ_VERSION && n >= 1
    ensures var (s1, b) := Event(d, s, TW_ST_SLA_ACK, 0);
            var bs := ReadAll(d, s1, n - 1).1;
            b == Reply(INFO[0]) && forall k :: 0 <= k < n - 1 ==> bs[k] == INFO[(k + 1) % 16]
  {
    var s1 := Event(d, s, TW_ST_SLA_ACK, 0).0;
    ReadSequence(d, s1, n - 1);
  }

  /** An EEPROM write transfer that runs the 8-bit byte counter past 255
      wraps it to 0, so the following byte is taken as a new command. */
  lemma EepromCounterWraps(d: Device, s: Loader, data: Byte)
    requires Inv(d, s) && s.cmd == CMD_WRITE_EEPROM && s.bcnt == 0xFF
    ensures var (s', ack) := Receive(d, s, data);
            ack && s'.bcnt == 0 && s'.eeprom == s.eeprom[s.addr % d.eepromSize := data]
  {
  }

  /** Once the master has addressed the loader, only the boot command ends it. */
  lemma ActivityStopsTimeout(d: Device, s: Loader, status: Byte, data: Byte)
    requires Inv(d, s) && (status & 0xF8 == TW_SR_SLA_ACK || status & 0xF8 == TW_ST_SLA_ACK)
    ensures var (s', _) := Event(d, s, status, data);
            !s'.timerRunning && !s'.noActivity
            && (LeavesLoader(s', true) <==> s'.cmd == CMD_BOOT_APPLICATION)
  {
  }

  // ---------------------------------------------------------------------------
  // The bootloader's statics and its interrupt, as the firmware runs them

  class Bootloader {
    const dev: Device
    var bcnt: Uint8
    var cmd: Byte
    var addr: Uint16
    const buf: array<Byte>
    var flash: seq<Byte>
    var pageBuffer: seq<Byte>
    var eeprom: seq<Byte>
    var noActivity: bool
    var timerRunning: bool

    ghost function State(): Loader
      reads this, buf
    {
      Loader(bcnt, cmd, addr, buf[..], flash, pageBuffer, eeprom, noActivity, timerRunning)
    }

    ghost predicate Valid()
      reads this, buf
    {
      Inv(dev, State())
    }

    /** The loader as main enters it: statics zeroed, buffer empty, the
        timeout running only for a watchdog reset over a present application. */
    constructor (d: Device, flash0: seq<Byte>, eeprom0: seq<Byte>, mcusr: Byte)
      requires ValidDevice(d) && |flash0| == MEMORY_SIZE && |eeprom0| == d.eepromSize
      requires BootDecision(flash0, mcusr).StayInLoader?
      ensures Valid() && fresh(buf)
      ensures State() == Loader(0, CMD_WAIT, 0, seq(d.geometry.pageSize, _ => 0), flash0,
                                Erased(d.geometry.pageSize), eeprom0, true,
                                BootDecision(flash0, mcusr).timed)
    {
      dev := d;
      bcnt, cmd, addr := 0, CMD_WAIT, 0;
      buf := new Byte[d.geometry.pageSize](_ => 0);
      flash, pageBuffer, eeprom := flash0, Erased(d.geometry.pageSize), eeprom0;
      noActivity := true;
      timerRunning := BootDecision(flash0, mcusr).timed;
    }

    /** TWI_vect. */
    method Interrupt(status: Byte, data: Byte) returns (action: TwiAction)
      requires Valid()
      modifies this, buf
      ensures Valid() && (State(), action) == Event(dev, old(State()), status, data)
    {
      var code := status & 0xF8;
      if code == TW_SR_SLA_ACK {
        Addressed();
        action := Acknowledge(true);
      } else if code == TW_SR_DATA_ACK {
        var ack := ReceiveByte(data);
        action := Acknowledge(ack);
      } else if code == TW_ST_SLA_ACK {
        Addressed();
        var b := TransmitByte();
        action := Reply(b);
      } else if code == TW_ST_DATA_ACK {
        var b := TransmitByte();
        action := Reply(b);
      } else if code == TW_SR_STOP || code == TW_ST_DATA_NACK {
        action := Acknowledge(true);
      } else if code == TW_BUS_ERROR {
        action := RecoverBus;
      } else {
        action := NoResponse;
      }
    }

    /** SLA+W or SLA+R: stop the boot timeout on first activity, restart the
        byte counter. */
    method Addressed()
      requires Valid()
      modifies this
      ensures Valid() && State() == Activity(old(State())).(bcnt := 0)
    {
      if noActivity {
        timerRunning := false;
        noActivity := false;
      }
      bcnt := 0;
    }

    method ReceiveByte(data: Byte) returns (ack: bool)
      requires Valid()
      modifies this, buf
      ensures Valid() && (State(), ack) == Receive(dev, old(State()), data)
    {
      if bcnt < 4 {
        ack := ReceiveHeader(data);
      } else {
        ack := ReceivePayload(data);
      }
    }

    /** Bytes 0 to 3 of a write: command, parameter, address high and low. */
    method ReceiveHeader(data: Byte) returns (ack: bool)
      requires Valid() && bcnt < 4
      modifies this
      ensures Valid() && (State(), ack) == Receive(dev, old(State()), data)
    {
      ack := true;
      if bcnt == 0 {
        if data == CMD_SWITCH_APPLICATION || data == CMD_WRITE_MEMORY {
          bcnt := bcnt + 1;
        } else if data != CMD_WAIT {
          cmd := CMD_BOOT_APPLICATION;
          ack := false;
        }
        cmd := data;
      } else if bcnt == 1 {
        if cmd == CMD_SWITCH_APPLICATION {
          if data == BOOTTYPE_APPLICATION {
            cmd := CMD_BOOT_APPLICATION;
          }
          ack := false;
        } else if cmd == CMD_WRITE_MEMORY {
          bcnt := bcnt + 1;
          if data == MEMTYPE_CHIPINFO {
            cmd := CMD_WRITE_CHIPINFO;
          } else if data == MEMTYPE_FLASH {
            cmd := CMD_WRITE_FLASH;
          } else if data == MEMTYPE_EEPROM {
            cmd := CMD_WRITE_EEPROM;
          } else {
            ack := false;
          }
        } else {
          ack := false;
        }
      } else {
        // shift the next address byte in from the right; the 16-bit address keeps its low byte as the new high byte
        addr := (addr % 0x100) * 0x100 + data as int;
        bcnt := bcnt + 1;
      }
      if !ack {
        bcnt := 0;
      }
    }

    /** Bytes from 4 on: flash payload into buf, or one EEPROM byte each. */
    method ReceivePayload(data: Byte) returns (ack: bool)
      requires Valid() && bcnt >= 4
      modifies this, buf
      ensures Valid() && (State(), ack) == Receive(dev, old(State()), data)
    {
      ack := true;
      var flashIt := 0;
      if cmd == CMD_WRITE_FLASH {
        buf[bcnt - 4] := data;
        if bcnt < dev.geometry.pageSize + 3 {
          bcnt := bcnt + 1;
        } else {
          flashIt := 1;
          ack := false;
        }
      } else if cmd == CMD_WRITE_EEPROM {
        flashIt := 2;
        bcnt := Inc8(bcnt);
      } else {
        ack := false;
      }
      if !ack {
        bcnt := 0;
      }
      if flashIt == 1 {
        WriteFlashPage();
      } else if flashIt == 2 {
        WriteEepromByte(data);
      }
    }

    /** write_flash_page: erase, load buf word by word while addr advances,
        program; nothing at all when addr is in the boot section. */
    method WriteFlashPage()
      requires Valid()
      modifies this
      ensures Valid() && State() == WritePage(dev, old(State()))
    {
      var g := dev.geometry;
      var pagestart := addr;
      if pagestart >= g.appEnd {
        return;
      }
      ghost var s0 := State();
      flash := PageErase(g, flash, pagestart);
      FillPage();
      flash := PageWrite(g, flash, pageBuffer, pagestart);
      pageBuffer := Erased(g.pageSize);
      assert flash == ProgramPage(g, s0.flash, s0.pageBuffer, s0.addr, s0.buf);
    }

    /** The do-while loop of write_flash_page: buf goes into the temporary
        buffer as little-endian words at addr, addr + 2, ... */
    method FillPage()
      requires ValidGeometry(dev.geometry) && buf.Length == |pageBuffer| == dev.geometry.pageSize
      requires addr + dev.geometry.pageSize < MEMORY_SIZE
      modifies this`addr, this`pageBuffer
      ensures pageBuffer == FillWords(dev.geometry, old(pageBuffer), old(addr), buf[..], buf.Length)
      ensures addr == old(addr) + dev.geometry.pageSize
    {
      var g := dev.geometry;
      var size := g.pageSize;
      var p := 0;
      ghost var words, half := 0, g.pageSize / 2;
      assert g.pageSize == 2 * half;
      while size != 0
        invariant p == 2 * words && size == 2 * (half - words) && words <= half
        invariant addr == old(addr) + p
        invariant pageBuffer == FillWords(g, old(pageBuffer), old(addr), buf[..], p)
        decreases size
      {
        LoadWord(buf[p], buf[p + 1]);
        p := p + 2;
        size := size - 2;
        words := words + 1;
      }
    }

    /** boot_page_fill of one word at addr, then addr += 2. */
    method LoadWord(lo: Byte, hi: Byte)
      requires ValidGeometry(dev.geometry) && |pageBuffer| == dev.geometry.pageSize
      requires addr + 2 < MEMORY_SIZE
      modifies this`addr, this`pageBuffer
      ensures pageBuffer == PageFill(dev.geometry, old(pageBuffer), old(addr), lo, hi)
      ensures addr == old(addr) + 2
    {
      pageBuffer := PageFill(dev.geometry, pageBuffer, addr, lo, hi);
      addr := addr + 2;
    }

    /** write_eeprom_byte: store at addr, then addr++. */
    method WriteEepromByte(v: Byte)
      requires Valid()
      modifies this`eeprom, this`addr
      ensures Valid()
      ensures eeprom == old(eeprom)[old(addr) % dev.eepromSize := v] && addr == Inc16(old(addr))
    {
      eeprom := eeprom[addr % dev.eepromSize := v];
      addr := Inc16(addr);
    }

    /** read_eeprom_byte: the byte at addr, then addr++. */
    method ReadEepromByte() returns (v: Byte)
      requires Valid()
      modifies this`addr
      ensures Valid() && v == eeprom[old(addr) % dev.eepromSize] && addr == Inc16(old(addr))
    {
      v := eeprom[addr % dev.eepromSize];
      addr := Inc16(addr);
    }

    /** The reply to a read, per command. */
    method TransmitByte() returns (b: Byte)
      requires Valid()
      modifies this`bcnt, this`addr
      ensures Valid() && (State(), b) == Transmit(dev, old(State()))
    {
      if cmd == CMD_READ_VERSION {
        b := INFO[bcnt];
        bcnt := (bcnt + 1) % |INFO|;
      } else if cmd == CMD_READ_CHIPINFO {
        b := Chipinfo(dev)[bcnt];
        bcnt := (bcnt + 1) % 8;
      } else if cmd == CMD_READ_FLASH {
        b := flash[addr];
        addr := Inc16(addr);
      } else if cmd == CMD_READ_EEPROM {
        b := ReadEepromByte();
      } else {
        b := 0xFF;
      }
    }
  }
}

// The supervisor's slave side of the host bus (avr/twi_slave.c): the register
// pointer and byte counter the bus interrupt keeps, and the bus address set up
// by twi_slave_init. The bus hardware is reduced to the status code of each
// interrupt and the data byte it carries.

module TwiSlave {
  import opened Bytes
  import opened Registers
  import opened Board
  import opened HostInterface

  // Slave status codes (TWSR with the prescaler bits masked off)
  const SR_SLA_ACK: Byte := 0x60
  const SR_STOP: Byte := 0xA0
  const ST_SLA_ACK: Byte := 0xA8
  const ST_DATA_ACK: Byte := 0xB8
  const SR_DATA_ACK: Byte := 0x80

  /** What one bus interrupt does to the register pointer. */
  datatype BusEvent =
    | Addressed   // own address with write, or stop / repeated start: a new transfer
    | Transmit    // own address with read, or a data byte sent and acknowledged
    | Receive     // a data byte received
    | Ignored     // every other status

  /** The dispatch on `TWSR & 0xFC`. */
  function Classify(status: Byte): (e: BusEvent)
    ensures e == Classify(status & 0xFC)
  {
    var s := status & 0xFC;
    if s == SR_SLA_ACK || s == SR_STOP then Addressed
    else if s == ST_SLA_ACK || s == ST_DATA_ACK then Transmit
    else if s == SR_DATA_ACK then Receive
    else Ignored
  }

  /** The register after `index` in auto-increment order, wrapping to 0. */
  function NextIndex(index: RegIndex): (r: RegIndex)
    ensures r == (index + 1) % NUM_REGISTERS
  {
    if index + 1 >= NUM_REGISTERS then 0 else index + 1
  }

  /** The register pointer the first byte of a write selects; an index past the
      bank selects register 0. */
  function FirstByteIndex(data: Byte): (r: RegIndex)
    ensures data as int < NUM_REGISTERS ==> r == data as int
    ensures data as int >= NUM_REGISTERS ==> r == 0
  {
    if data as int >= NUM_REGISTERS then 0 else data as int
  }

  /** The register pointer and byte counter after one interrupt. */
  function Counters(e: BusEvent, index: RegIndex, count: Uint8, data: Byte): (RegIndex, Uint8)
  {
    match e
    case Addressed => (index, 0)
    case Transmit => (NextIndex(index), count)
    case Receive => (if count == 0 then FirstByteIndex(data) else NextIndex(index), Inc8(count))
    case Ignored => (index, count)
  }

  /** The register k places after `index`, counting around the bank. */
  function Offset(index: RegIndex, k: int): RegIndex
  {
    (index + k) % NUM_REGISTERS
  }

  /** The register pointer after k auto-increments. */
  function Advance(index: RegIndex, k: nat): RegIndex
    decreases k
  {
    if k == 0 then index else NextIndex(Advance(index, k - 1))
  }

  /** Auto-increment wraps around the bank: k steps from i land on (i + k) mod N,
      so consecutive reads return registers i, i+1, ... modulo NUM_REGISTERS. */
  lemma {:induction false} AdvanceWraps(index: RegIndex, k: nat)
    ensures Advance(index, k) == Offset(index, k)
  {
    if k > 0 {
      AdvanceWraps(index, k - 1);
    }
  }

  /** The registers a run of received bytes is written to: None for a byte that
      sets the pointer, Some(i) for a byte passed to the host write of register i. */
  function WriteTargets(index: RegIndex, count: Uint8, bytes: seq<Byte>): seq<Option<RegIndex>>
    decreases |bytes|
  {
    if bytes == [] then []
    else
      var target := if count == 0 then None else Some(index);
      var (index', count') := Counters(Receive, index, count, bytes[0]);
      [target] + WriteTargets(index', count', bytes[1..])
  }

  /** The byte counter after a run of received bytes. */
  function CountAfter(index: RegIndex, count: Uint8, bytes: seq<Byte>): Uint8
    decreases |bytes|
  {
    if bytes == [] then count
    else
      var (index', count') := Counters(Receive, index, count, bytes[0]);
      CountAfter(index', count', bytes[1..])
  }

  /** One step of auto-increment is one place of offset. */
  lemma OffsetShift(index: RegIndex, k: nat)
    requires k >= 1
    ensures Offset(NextIndex(index), k - 1) == Offset(index, k)
  {
    if index + 1 == NUM_REGISTERS {
      ModAddMultiple(1, k - 1, NUM_REGISTERS);
    }
  }

  /** Within one transfer, once the pointer is set, data byte k goes to register
      (pointer + k) mod N, as long as the 8-bit byte counter does not wrap. */
  lemma {:induction false} DataBytesAdvance(index: RegIndex, count: Uint8, ds: seq<Byte>)
    requires count >= 1 && count + |ds| <= 0xFF
    ensures WriteTargets(index, count, ds) == seq(|ds|, k => Some(Offset(index, k)))
    ensures CountAfter(index, count, ds) == count + |ds|
    decreases |ds|
  {
    if ds != [] {
      DataBytesAdvance(NextIndex(index), count + 1, ds[1..]);
      var rest := WriteTargets(NextIndex(index), count + 1, ds[1..]);
      assert WriteTargets(index, count, ds) == [Some(index)] + rest;
      forall k | 0 <= k < |ds|
        ensures ([Some(index)] + rest)[k] == Some(Offset(index, k))
      {
        if k > 0 {
          assert rest[k - 1] == Some(Offset(NextIndex(index), k - 1));
          OffsetShift(index, k);
        }
      }
    }
  }

  /** A write transfer: the first byte a sets the pointer, the following bytes
      are written to FirstByteIndex(a), FirstByteIndex(a)+1, ... modulo N, and
      after 255 data bytes the counter wraps to 0, so the byte after them sets
      the pointer again instead of being written. */
  lemma {:induction false} WriteTransfer(index: RegIndex, a: Byte, ds: seq<Byte>)
    requires |ds| <= 0xFF
    ensures WriteTargets(index, 0, [a] + ds)
            == [None] + seq(|ds|, k => Some(Offset(FirstByteIndex(a), k)))
    ensures |ds| < 0xFF ==> CountAfter(index, 0, [a] + ds) == |ds| + 1
    ensures |ds| == 0xFF ==> CountAfter(index, 0, [a] + ds) == 0
  {
    var start := FirstByteIndex(a);
    assert ([a] + ds)[1..] == ds;
    if |ds| < 0xFF {
      DataBytesAdvance(start, 1, ds);
    } else {
      var init := ds[..0xFE];
      var last := ds[0xFE];
      DataBytesAdvance(start, 1, init);
      SplitLast(start, 1, init, last);
      assert init + [last] == ds;
    }
  }

  /** Running the counters over `bytes + [b]` is running them over `bytes`, then b. */
  lemma {:induction false} SplitLast(index: RegIndex, count: Uint8, bytes: seq<Byte>, b: Byte)
    requires count >= 1 && count + |bytes| == 0xFF
    ensures WriteTargets(index, count, bytes + [b])
            == WriteTargets(index, count, bytes) + [Some(Offset(index, |bytes|))]
    ensures CountAfter(index, count, bytes + [b]) == 0
    decreases |bytes|
  {
    if bytes == [] {
      assert [b][1..] == [];
    } else {
      assert (bytes + [b])[1..] == bytes[1..] + [b];
      SplitLast(NextIndex(index), count + 1, bytes[1..], b);
      assert (NextIndex(index) + |bytes[1..]|) % NUM_REGISTERS == (index + |bytes|) % NUM_REGISTERS;
    }
  }

  // ---------------------------------------------------------------------------
  // Bus address (twi_slave_init)

  /** The 7-bit slave address: the stored one unless it has bit 7 set. */
  function SlaveAddress(stored: Byte): (a: Byte)
    ensures a < 0x80
    ensures stored < 0x80 ==> a == stored
    ensures stored >= 0x80 ==> a == TWI_SLAVE_ADDRESS
  {
    if stored & 0x80 != 0 then TWI_SLAVE_ADDRESS else stored
  }

  /** The address register value: the 7-bit address in bits 7..1, general call off. */
  function Twar(stored: Byte): Byte
  {
    SlaveAddress(stored) << 1
  }

  /** The address register encodes the slave address without loss. */
  lemma TwarEncodesAddress(stored: Byte)
    ensures Twar(stored) >> 1 == SlaveAddress(stored)
    ensures Twar(stored) & 1 == 0
  {
  }

  /** twi_slave_init: start the bus on the address held in REG_I2C_ADDRESS. */
  method SlaveInit(bank: RegisterBank) returns (effect: Effect)
    requires bank.Valid()
    ensures effect.BusStart? && effect.twar >> 1 == SlaveAddress(bank.regs[REG_I2C_ADDRESS])
    ensures effect == BusStart(Twar(bank.regs[REG_I2C_ADDRESS]))
  {
    var i := bank.Get(REG_I2C_ADDRESS);
    if i & 0x80 != 0 {
      i := TWI_SLAVE_ADDRESS;
    }
    effect := BusStart(i << 1);
  }

  // ---------------------------------------------------------------------------
  // The bus interrupt

  class SlaveBus {
    var regIndex: Uint8
    var dataCount: Uint8

    /** The pointer always names a register of the bank. */
    ghost predicate Valid()
      reads this
    {
      regIndex < NUM_REGISTERS
    }

    constructor ()
      ensures Valid() && regIndex == 0 && dataCount == 0
    {
      regIndex, dataCount := 0, 0;
    }

    /** TWI_vect: one bus event. A transmit event returns the byte loaded into
        the data register; a receive event returns the effects of the host write
        it makes, if any. */
    method Interrupt(status: Byte, data: Byte, bank: RegisterBank, board: BoardState, pins: Pins, busFails: bool)
      returns (reply: Option<Byte>, effects: seq<Effect>)
      requires Valid() && bank.Valid()
      modifies this, bank.regs, bank`activityWatchdog, bank`rebootflag, board`seconds
      ensures Valid()
      ensures (regIndex, dataCount) == Counters(Classify(status), old(regIndex), old(dataCount), data)
      ensures reply.Some? <==> Classify(status) == Transmit
      ensures Classify(status) == Transmit ==>
                bank.regs[..] == ReadImage(old(bank.regs[..]), old(regIndex), board.seconds, pins)
                && reply.value == bank.regs[old(regIndex)]
      ensures Classify(status) == Transmit ==>
                board.seconds == old(board.seconds) && bank.rebootflag == old(bank.rebootflag) && effects == []
      ensures (Classify(status) == Transmit || (Classify(status) == Receive && old(dataCount) != 0)) ==>
                bank.activityWatchdog == 0
      ensures !(Classify(status) == Transmit || (Classify(status) == Receive && old(dataCount) != 0)) ==>
                bank.activityWatchdog == old(bank.activityWatchdog)
      ensures Classify(status) == Receive && old(dataCount) != 0 ==>
                (StateOf(bank, board), effects)
                == AfterWrite(old(StateOf(bank, board)), old(regIndex), data, busFails)
      ensures !(Classify(status) == Transmit || (Classify(status) == Receive && old(dataCount) != 0)) ==>
                StateOf(bank, board) == old(StateOf(bank, board)) && effects == []
    {
      reply, effects := None, [];
      var s := status & 0xFC;
      if s == SR_SLA_ACK || s == SR_STOP {
        dataCount := 0;
      } else if s == ST_SLA_ACK || s == ST_DATA_ACK {
        var value := HostRead(bank, board, regIndex, pins);
        reply := Some(value);
        regIndex := regIndex + 1;
        if regIndex >= NUM_REGISTERS {
          regIndex := 0;
        }
      } else if s == SR_DATA_ACK {
        if dataCount == 0 {
          regIndex := data as int;
        } else {
          effects := HostWrite(bank, board, regIndex, data, busFails);
          regIndex := regIndex + 1;
        }
        if regIndex >= NUM_REGISTERS {
          regIndex := 0;
        }
        dataCount := Inc8(dataCount);
      }
    }
  }
}

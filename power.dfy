// The power state machine of the supervisor (avr/main.c): the state and retry
// counter, the two callbacks the interrupts use (power_event, power_down), the
// one-step state_machine run once per timer tick, and the main loop that gates
// it on the tick counter. The 3V3 and PGOOD pins are parameters; pin, bus and
// sleep actions are returned as effects.

module Power {
  import opened Bytes
  import opened Registers
  import opened Board
  import opened TwiSlave

  // The values of the power state (an 8-bit variable; any other value is
  // handled like STATE_INIT by the default case)
  const STATE_INIT: Uint8 := 0
  const STATE_CLEAR_MASK: Uint8 := 1
  const STATE_OFF_NO_PGOOD: Uint8 := 2
  const STATE_OFF_WITH_PGOOD: Uint8 := 3
  const STATE_POWER_UP: Uint8 := 4
  const STATE_CHECK_3V: Uint8 := 5
  const STATE_ON: Uint8 := 6
  const STATE_POWER_DOWN: Uint8 := 7

  /** The number of power-up attempts an event or a cold start grants. */
  const POWER_UP_TRIES: Uint8 := 3

  predicate IsOff(state: Uint8)
  {
    state == STATE_OFF_NO_PGOOD || state == STATE_OFF_WITH_PGOOD
  }

  /** The variables the state machine reads and writes, apart from the countdown. */
  datatype Machine = Machine(state: Uint8, retries: Uint8, regs: seq<Byte>)

  predicate WellFormed(m: Machine)
  {
    |m.regs| == NUM_REGISTERS
  }

  /** Decrement of an 8-bit retry counter, wrapping from 0 to 255. */
  function Dec8(x: Uint8): (r: Uint8)
    ensures x > 0 ==> r == x - 1
    ensures x == 0 ==> r == 0xFF
  {
    (x - 1) % 0x100
  }

  // ---------------------------------------------------------------------------
  // The callbacks

  /** power_down: only a board that is on starts powering down. */
  function AfterPowerDown(m: Machine): (r: Machine)
    ensures m.state == STATE_ON ==> r == m.(state := STATE_POWER_DOWN)
    ensures m.state != STATE_ON ==> r == m
  {
    if m.state == STATE_ON then m.(state := STATE_POWER_DOWN) else m
  }

  /** power_event(reason): a wake request is honoured only when the board is off
      and one of its reason bits is enabled in START_ENABLE. */
  function AfterEvent(m: Machine, reason: Byte): (r: Machine)
    requires WellFormed(m)
    ensures WellFormed(r)
  {
    if IsOff(m.state) && AnyBit(m.regs[REG_START_ENABLE], reason)
    then Machine(STATE_POWER_UP, POWER_UP_TRIES, m.regs[REG_START_REASON := m.regs[REG_START_REASON] | reason])
    else m
  }

  /** An honoured event starts a power-up with three tries and records the
      reason bits in START_REASON; any other event changes nothing at all. */
  lemma EventGating(m: Machine, reason: Byte)
    requires WellFormed(m)
    ensures var r := AfterEvent(m, reason);
            if IsOff(m.state) && m.regs[REG_START_ENABLE] & reason != 0 then
              r.state == STATE_POWER_UP && r.retries == 3
              && r.regs[REG_START_REASON] & reason == reason
              && r.regs[REG_START_REASON] & !reason == m.regs[REG_START_REASON] & !reason
              && (forall j | 0 <= j < NUM_REGISTERS && j != REG_START_REASON :: r.regs[j] == m.regs[j])
            else r == m
  {
    OrSetsBits(m.regs[REG_START_REASON], reason);
  }

  lemma OrSetsBits(a: Byte, m: Byte)
    ensures (a | m) & m == m && (a | m) & !m == a & !m
  {
  }

  // ---------------------------------------------------------------------------
  // One step of state_machine

  /** What one step does besides the state, retries and registers: the restart
      countdown it arms, if any, and its hardware effects. */
  datatype StepResult = StepResult(m: Machine, countdown: Option<Uint32>, effects: seq<Effect>)

  /** The registers after board_pgood with the PGOOD pin sampled. */
  function SamplePowerGood(regs: seq<Byte>, pgood: bool): (r: seq<Byte>)
    requires |regs| == NUM_REGISTERS
    ensures |r| == NUM_REGISTERS
  {
    regs[REG_STATUS := WithBits(regs[REG_STATUS], STATUS_POWER_GOOD, pgood)]
  }

  /** The registers after board_begin_countdown: a zero delay disables the
      timeout wake source. */
  function ArmCountdown(regs: seq<Byte>): (r: seq<Byte>)
    requires |regs| == NUM_REGISTERS
    ensures |r| == NUM_REGISTERS
  {
    if RestartDelay(regs[REG_RESTART_HOURS], regs[REG_RESTART_MINUTES], regs[REG_RESTART_SECONDS]) == 0
    then regs[REG_START_ENABLE := regs[REG_START_ENABLE] & !START_TIMEOUT]
    else regs
  }

  /** STATE_CLEAR_MASK: arm the wake sources and the countdown, sample PGOOD,
      go to the matching off state and clear START_REASON. */
  function ClearMaskStep(m: Machine, pgood: bool): (r: StepResult)
    requires WellFormed(m)
    ensures WellFormed(r.m)
  {
    var armed := ArmCountdown(m.regs);
    var sampled := SamplePowerGood(armed, pgood);
    var cleared := sampled[REG_START_REASON := sampled[REG_START_REASON] & !0xFF];
    StepResult(
      m.(state := if pgood then STATE_OFF_WITH_PGOOD else STATE_OFF_NO_PGOOD, regs := cleared),
      Some(RestartDelay(m.regs[REG_RESTART_HOURS], m.regs[REG_RESTART_MINUTES], m.regs[REG_RESTART_SECONDS])),
      [EnableWakeInterrupts(WakePins(m.regs[REG_START_ENABLE]))])
  }

  /** STATE_OFF_NO_PGOOD: power arriving is itself a wake request (START_PWRGOOD);
      otherwise the controller sleeps. */
  function OffNoPgoodStep(m: Machine, pgood: bool): (r: StepResult)
    requires WellFormed(m)
    ensures WellFormed(r.m)
  {
    var sampled := m.(regs := SamplePowerGood(m.regs, pgood));
    if pgood then StepResult(AfterEvent(sampled.(state := STATE_OFF_WITH_PGOOD), START_PWRGOOD), None, [])
    else StepResult(sampled, None, [Sleep])
  }

  /** STATE_CHECK_3V: on when the 3V3 rail came up, otherwise power off and try
      again while tries remain. */
  function Check3vStep(m: Machine, has3v3: bool): (r: StepResult)
    requires WellFormed(m)
    ensures WellFormed(r.m)
  {
    if has3v3 then
      StepResult(m.(state := STATE_ON), None,
                 [BusStart(Twar(m.regs[REG_I2C_ADDRESS])), DisableWakeInterrupts(WakePins(START_ALL))])
    else if m.retries > 0 then StepResult(m.(state := STATE_POWER_UP), None, [PowerOff])
    else StepResult(m.(state := STATE_POWER_DOWN), None, [PowerOff])
  }

  /** state_machine(), given the 3V3 rail and the PGOOD pin. */
  function Step(m: Machine, has3v3: bool, pgoodPinHigh: bool): (r: StepResult)
    requires WellFormed(m)
    ensures WellFormed(r.m)
  {
    var pgood := !pgoodPinHigh;
    var s := m.state;
    if s == STATE_CLEAR_MASK then ClearMaskStep(m, pgood)
    else if s == STATE_OFF_NO_PGOOD then OffNoPgoodStep(m, pgood)
    else if s == STATE_OFF_WITH_PGOOD then
      var sampled := m.(regs := SamplePowerGood(m.regs, pgood));
      if !pgood then StepResult(sampled.(state := STATE_OFF_NO_PGOOD), None, [])
      else StepResult(sampled, None, [Sleep])
    else if s == STATE_POWER_UP then
      StepResult(m.(state := STATE_CHECK_3V, retries := Dec8(m.retries)), None, [PowerOn])
    else if s == STATE_CHECK_3V then Check3vStep(m, has3v3)
    else if s == STATE_ON then
      StepResult(if !has3v3 then m.(state := STATE_POWER_DOWN) else m, None, [])
    else if s == STATE_POWER_DOWN then
      StepResult(m.(state := STATE_CLEAR_MASK), None, [BusStop, PowerOff])
    else
      // STATE_INIT and every value outside the enumeration
      if has3v3 then StepResult(m.(state := STATE_POWER_UP, retries := POWER_UP_TRIES), None, [])
      else StepResult(m.(state := STATE_POWER_DOWN), None, [])
  }

  // ---------------------------------------------------------------------------
  // Properties of one step

  /** INIT, and any value outside the enumeration, powers up with three tries
      when the 3V3 rail is present and powers down otherwise. */
  lemma InitStep(m: Machine, has3v3: bool, pgoodPinHigh: bool)
    requires WellFormed(m) && (m.state == STATE_INIT || m.state > STATE_POWER_DOWN)
    ensures var r := Step(m, has3v3, pgoodPinHigh).m;
            (has3v3 ==> r.state == STATE_POWER_UP && r.retries == 3)
            && (!has3v3 ==> r.state == STATE_POWER_DOWN && r.retries == m.retries)
            && r.regs == m.regs
  {
  }

  /** CLEAR_MASK always leaves START_REASON cleared, arms the countdown from the
      restart registers, and goes to OFF_WITH_PGOOD exactly when power is good. */
  lemma {:induction false} ClearMaskClearsReason(m: Machine, has3v3: bool, pgoodPinHigh: bool)
    requires WellFormed(m) && m.state == STATE_CLEAR_MASK
    ensures var r := Step(m, has3v3, pgoodPinHigh);
            r.m.regs[REG_START_REASON] == 0
            && (r.m.state == STATE_OFF_WITH_PGOOD <==> !pgoodPinHigh)
            && (r.m.state == STATE_OFF_NO_PGOOD <==> pgoodPinHigh)
            && AnyBit(r.m.regs[REG_STATUS], STATUS_POWER_GOOD) == !pgoodPinHigh
            && r.countdown == Some(RestartDelay(m.regs[REG_RESTART_HOURS], m.regs[REG_RESTART_MINUTES],
                                                m.regs[REG_RESTART_SECONDS]))
  {
    var armed := ArmCountdown(m.regs);
    var sampled := SamplePowerGood(armed, !pgoodPinHigh);
    WithBitsEffect(armed[REG_STATUS], STATUS_POWER_GOOD, !pgoodPinHigh, STATUS_POWER_GOOD);
    assert sampled[REG_START_REASON] & !0xFF == 0;
  }

  /** OFF_NO_PGOOD seeing power good raises START_PWRGOOD after moving to
      OFF_WITH_PGOOD, so it powers up exactly when that source is enabled. */
  lemma OffNoPgoodWakes(m: Machine, has3v3: bool)
    requires WellFormed(m) && m.state == STATE_OFF_NO_PGOOD
    ensures var r := Step(m, has3v3, false).m;
            (r.state == STATE_POWER_UP <==> AnyBit(m.regs[REG_START_ENABLE], START_PWRGOOD))
            && (r.state != STATE_POWER_UP ==> r.state == STATE_OFF_WITH_PGOOD)
            && (r.state == STATE_POWER_UP ==> r.retries == 3 && AnyBit(r.regs[REG_START_REASON], START_PWRGOOD))
  {
    var sampled := SamplePowerGood(m.regs, true);
    assert sampled[REG_START_ENABLE] == m.regs[REG_START_ENABLE];
    var reason := sampled[REG_START_REASON];
    assert AnyBit(reason | START_PWRGOOD, START_PWRGOOD);
  }

  /** POWER_UP uses up one try; CHECK_3V turns on with the rail, retries while
      tries remain and powers down otherwise; ON powers down when the rail is
      lost; POWER_DOWN always goes on to CLEAR_MASK. */
  lemma PowerUpCheckOnDown(m: Machine, has3v3: bool, pgoodPinHigh: bool)
    requires WellFormed(m)
    ensures var r := Step(m, has3v3, pgoodPinHigh).m;
            (m.state == STATE_POWER_UP && m.retries > 0 ==>
               r.state == STATE_CHECK_3V && r.retries == m.retries - 1)
            && (m.state == STATE_CHECK_3V ==>
                  r.state == (if has3v3 then STATE_ON else if m.retries > 0 then STATE_POWER_UP else STATE_POWER_DOWN))
            && (m.state == STATE_ON ==> r.state == (if has3v3 then STATE_ON else STATE_POWER_DOWN))
            && (m.state == STATE_POWER_DOWN ==> r.state == STATE_CLEAR_MASK)
  {
  }

  // ---------------------------------------------------------------------------
  // Bounded retries

  /** The reachable states: a known state, at most three tries left, and at
      least one whenever a power-up step is next. */
  predicate Inv(m: Machine)
  {
    m.state <= STATE_POWER_DOWN && m.retries <= 3 && (m.state == STATE_POWER_UP ==> m.retries >= 1)
  }

  /** The invariant holds at reset and is kept by every step, event and forced
      power-down, so `retries--` never wraps around. */
  lemma {:induction false} InvKept(m: Machine, has3v3: bool, pgoodPinHigh: bool, reason: Byte)
    requires WellFormed(m)
    ensures Inv(Machine(STATE_INIT, 0, m.regs))
    ensures Inv(m) ==> Inv(Step(m, has3v3, pgoodPinHigh).m)
    ensures Inv(m) ==> Inv(AfterEvent(m, reason)) && Inv(AfterPowerDown(m))
    ensures Inv(m) && m.state == STATE_POWER_UP ==> Step(m, has3v3, pgoodPinHigh).m.retries == m.retries - 1
  {
    if Inv(m) && m.state == STATE_OFF_NO_PGOOD {
      var sampled := m.(regs := SamplePowerGood(m.regs, !pgoodPinHigh));
      assert Inv(sampled.(state := STATE_OFF_WITH_PGOOD));
    }
  }

  /** The machine after n steps with the same inputs. */
  function Run(m: Machine, n: nat, has3v3: bool, pgoodPinHigh: bool): (r: Machine)
    requires WellFormed(m)
    ensures WellFormed(r)
    decreases n
  {
    if n == 0 then m else Run(Step(m, has3v3, pgoodPinHigh).m, n - 1, has3v3, pgoodPinHigh)
  }

  /** How many of the first n steps were POWER_UP steps. */
  function PowerUps(m: Machine, n: nat, has3v3: bool, pgoodPinHigh: bool): nat
    requires WellFormed(m)
    decreases n
  {
    if n == 0 then 0
    else (if m.state == STATE_POWER_UP then 1 else 0)
         + PowerUps(Step(m, has3v3, pgoodPinHigh).m, n - 1, has3v3, pgoodPinHigh)
  }

  /** If the 3V3 rail never comes up, a power-up with r tries alternates
      POWER_UP and CHECK_3V exactly r times and then powers down with no tries
      left; every POWER_UP step on the way has a try to spend. */
  lemma {:induction false} RetriesExhaust(m: Machine, pgoodPinHigh: bool)
    requires WellFormed(m) && m.state == STATE_POWER_UP && m.retries >= 1
    ensures Run(m, 2 * m.retries, false, pgoodPinHigh) == m.(state := STATE_POWER_DOWN, retries := 0)
    ensures PowerUps(m, 2 * m.retries, false, pgoodPinHigh) == m.retries
    ensures forall k | 0 <= k < 2 * m.retries ::
              Run(m, k, false, pgoodPinHigh).state == STATE_POWER_UP ==> Run(m, k, false, pgoodPinHigh).retries >= 1
    decreases m.retries
  {
    var checking := Step(m, false, pgoodPinHigh).m;
    assert checking == m.(state := STATE_CHECK_3V, retries := m.retries - 1);
    var next := Step(checking, false, pgoodPinHigh).m;
    assert Run(m, 2, false, pgoodPinHigh) == next by {
      assert Run(checking, 1, false, pgoodPinHigh) == next;
    }
    if m.retries == 1 {
      assert next == m.(state := STATE_POWER_DOWN, retries := 0);
      assert PowerUps(m, 2, false, pgoodPinHigh) == 1 by {
        assert PowerUps(checking, 1, false, pgoodPinHigh) == 0;
      }
      forall k | 0 <= k < 2
        ensures Run(m, k, false, pgoodPinHigh).state == STATE_POWER_UP ==> Run(m, k, false, pgoodPinHigh).retries >= 1
      {
        if k == 1 {
          assert Run(m, 1, false, pgoodPinHigh) == checking;
        }
      }
    } else {
      assert next == m.(retries := m.retries - 1);
      RetriesExhaust(next, pgoodPinHigh);
      RunSplit(m, 2, 2 * next.retries, pgoodPinHigh);
      assert PowerUps(m, 2 * m.retries, false, pgoodPinHigh) == 1 + PowerUps(next, 2 * next.retries, false, pgoodPinHigh) by {
        assert PowerUps(checking, 2 * m.retries - 1, false, pgoodPinHigh)
               == PowerUps(next, 2 * next.retries, false, pgoodPinHigh);
      }
      forall k | 0 <= k < 2 * m.retries
        ensures Run(m, k, false, pgoodPinHigh).state == STATE_POWER_UP ==> Run(m, k, false, pgoodPinHigh).retries >= 1
      {
        if k == 1 {
          assert Run(m, 1, false, pgoodPinHigh) == checking;
        } else if k >= 2 {
          RunSplit(m, 2, k - 2, pgoodPinHigh);
        }
      }
    }
  }

  /** Running a + b steps is running a steps, then b. */
  lemma {:induction false} RunSplit(m: Machine, a: nat, b: nat, pgoodPinHigh: bool)
    requires WellFormed(m)
    ensures Run(m, a + b, false, pgoodPinHigh) == Run(Run(m, a, false, pgoodPinHigh), b, false, pgoodPinHigh)
    decreases a
  {
    if a > 0 {
      RunSplit(Step(m, false, pgoodPinHigh).m, a - 1, b, pgoodPinHigh);
    }
  }

  /** An honoured wake request with the rail never coming up costs exactly three
      POWER_UP steps and ends in POWER_DOWN after six steps. */
  lemma ThreeTriesAfterEvent(m: Machine, reason: Byte, pgoodPinHigh: bool)
    requires WellFormed(m) && IsOff(m.state) && AnyBit(m.regs[REG_START_ENABLE], reason)
    ensures var e := AfterEvent(m, reason);
            PowerUps(e, 6, false, pgoodPinHigh) == 3 && Run(e, 6, false, pgoodPinHigh).state == STATE_POWER_DOWN
  {
    RetriesExhaust(AfterEvent(m, reason), pgoodPinHigh);
  }

  // ---------------------------------------------------------------------------
  // The controller

  class PowerControl {
    var state: Uint8
    var retries: Uint8
    var lastTick: Uint16
    var oscval: Byte

    /** The machine as the functions above see it. */
    function MachineOf(bank: RegisterBank): Machine
      reads this, bank, bank.regs
    {
      Machine(state, retries, bank.regs[..])
    }

    /** Reset: STATE_INIT with no tries, the tick counter seen as 0, and the
        oscillator calibration main() starts from. */
    constructor (oscval: Byte)
      ensures state == STATE_INIT && retries == 0 && lastTick == 0 && this.oscval == oscval
      ensures Inv(Machine(state, retries, []))
    {
      this.state, this.retries, this.lastTick, this.oscval := STATE_INIT, 0, 0, oscval;
    }

    method PowerDown()
      modifies this`state
      ensures Machine(state, retries, []) == AfterPowerDown(Machine(old(state), retries, []))
    {
      if state == STATE_ON {
        state := STATE_POWER_DOWN;
      }
    }

    method PowerEvent(bank: RegisterBank, reason: Byte)
      requires bank.Valid()
      modifies this`state, this`retries, bank.regs
      ensures MachineOf(bank) == AfterEvent(old(MachineOf(bank)), reason)
    {
      if state == STATE_OFF_NO_PGOOD || state == STATE_OFF_WITH_PGOOD {
        if AnyBit(bank.Get(REG_START_ENABLE), reason) {
          retries := POWER_UP_TRIES;
          state := STATE_POWER_UP;
          bank.SetMask(REG_START_REASON, reason);
        }
      }
    }

    /** state_machine(): one step, given the 3V3 rail and the PGOOD pin. */
    method StateMachine(bank: RegisterBank, board: BoardState, has3v3: bool, pgoodPinHigh: bool)
      returns (effects: seq<Effect>)
      requires bank.Valid()
      modifies this`state, this`retries, bank.regs, board`countdown
      ensures var r := Step(old(MachineOf(bank)), has3v3, pgoodPinHigh);
              MachineOf(bank) == r.m && effects == r.effects
              && board.countdown == (if r.countdown.Some? then r.countdown.value else old(board.countdown))
    {
      if state == STATE_CLEAR_MASK {
        effects := ClearMask(bank, board, pgoodPinHigh);
      } else if state == STATE_OFF_NO_PGOOD {
        effects := OffNoPgood(bank, pgoodPinHigh);
      } else if state == STATE_OFF_WITH_PGOOD {
        var good := PowerGood(bank, pgoodPinHigh);
        if !good {
          state := STATE_OFF_NO_PGOOD;
          effects := [];
        } else {
          effects := [Sleep];
        }
      } else if state == STATE_POWER_UP {
        retries := Dec8(retries);
        effects := [PowerOn];
        state := STATE_CHECK_3V;
      } else if state == STATE_CHECK_3V {
        effects := Check3v(bank, has3v3);
      } else if state == STATE_ON {
        if !has3v3 {
          state := STATE_POWER_DOWN;
        }
        effects := [];
      } else if state == STATE_POWER_DOWN {
        effects := [BusStop, PowerOff];
        state := STATE_CLEAR_MASK;
      } else {
        if has3v3 {
          retries := POWER_UP_TRIES;
          state := STATE_POWER_UP;
        } else {
          state := STATE_POWER_DOWN;
        }
        effects := [];
      }
    }

    method ClearMask(bank: RegisterBank, board: BoardState, pgoodPinHigh: bool) returns (effects: seq<Effect>)
      requires bank.Valid() && state == STATE_CLEAR_MASK
      modifies this`state, bank.regs, board`countdown
      ensures var r := ClearMaskStep(old(MachineOf(bank)), !pgoodPinHigh);
              MachineOf(bank) == r.m && effects == r.effects && board.countdown == r.countdown.value
    {
      ghost var regs0 := bank.regs[..];
      var reg := bank.Get(REG_START_ENABLE);
      effects := [EnableWakeInterrupts(WakePins(reg))];
      var _ := board.BeginCountdown(bank);
      assert bank.regs[..] == ArmCountdown(regs0);
      var good := PowerGood(bank, pgoodPinHigh);
      assert bank.regs[..] == SamplePowerGood(ArmCountdown(regs0), good);
      if good {
        state := STATE_OFF_WITH_PGOOD;
      } else {
        state := STATE_OFF_NO_PGOOD;
      }
      bank.ClearMask(REG_START_REASON, 0xFF);
    }

    method OffNoPgood(bank: RegisterBank, pgoodPinHigh: bool) returns (effects: seq<Effect>)
      requires bank.Valid() && state == STATE_OFF_NO_PGOOD
      modifies this`state, this`retries, bank.regs
      ensures var r := OffNoPgoodStep(old(MachineOf(bank)), !pgoodPinHigh);
              MachineOf(bank) == r.m && effects == r.effects
    {
      var good := PowerGood(bank, pgoodPinHigh);
      if good {
        state := STATE_OFF_WITH_PGOOD;
        PowerEvent(bank, START_PWRGOOD);
        effects := [];
      } else {
        effects := [Sleep];
      }
    }

    method Check3v(bank: RegisterBank, has3v3: bool) returns (effects: seq<Effect>)
      requires bank.Valid() && state == STATE_CHECK_3V
      modifies this`state
      ensures var r := Check3vStep(old(MachineOf(bank)), has3v3);
              MachineOf(bank) == r.m && effects == r.effects
    {
      if has3v3 {
        state := STATE_ON;
        var start := SlaveInit(bank);
        effects := [start, DisableWakeInterrupts(WakePins(START_ALL))];
      } else {
        effects := [PowerOff];
        if retries > 0 {
          state := STATE_POWER_UP;
        } else {
          state := STATE_POWER_DOWN;
        }
      }
    }

    /** TIMER2_OVF_vect with its two callbacks: the countdown reaching zero is a
        START_TIMEOUT wake request, and a five-second button hold forces the
        board down. */
    method TimerInterrupt(bank: RegisterBank, board: BoardState, buttonPressed: bool)
      requires bank.Valid()
      modifies this`state, this`retries, bank.regs, board
      ensures var (countdown, fired) := CountdownTick(old(board.countdown));
              var (hold, expired) := HoldTick(old(board.buttonHoldCount), buttonPressed);
              var woken := if fired then AfterEvent(old(MachineOf(bank)), START_TIMEOUT) else old(MachineOf(bank));
              board.countdown == countdown && board.buttonHoldCount == hold
              && board.systemTicks == Inc16(old(board.systemTicks)) && board.seconds == old(board.seconds) + 1
              && MachineOf(bank) == (if expired then AfterPowerDown(woken) else woken)
    {
      var timeoutFired, holdExpired := board.TimerOverflow(buttonPressed);
      if timeoutFired {
        PowerEvent(bank, START_TIMEOUT);
      }
      if holdExpired {
        PowerDown();
      }
    }

    /** The opto and button pin-change interrupts: each disarms its own pin and
        raises its wake request when the pin reads low (the opto interrupt
        disarms even on a high level). */
    method WakePinChange(bank: RegisterBank, pin: WakePin, pinLow: bool) returns (effects: seq<Effect>)
      requires bank.Valid()
      modifies this`state, this`retries, bank.regs
      ensures var reason := if pin == OptoPin then START_EXTERNAL else START_BUTTON;
              MachineOf(bank) == (if pinLow then AfterEvent(old(MachineOf(bank)), reason) else old(MachineOf(bank)))
      ensures effects == if pinLow || pin == OptoPin then [DisableWakeInterrupts({pin})] else []
    {
      effects := [];
      if pin == OptoPin {
        effects := [DisableWakeInterrupts({OptoPin})];
        if pinLow {
          PowerEvent(bank, START_EXTERNAL);
        }
      } else if pinLow {
        effects := [DisableWakeInterrupts({ButtonPin})];
        PowerEvent(bank, START_BUTTON);
      }
    }

    /** One pass of the main loop: run the state machine once per new timer
        tick, hand over to the bootloader when the host asked for it, and
        persist a new oscillator calibration. `rebooting` means the loop has
        stopped and waits for the watchdog to reset the controller. */
    method MainLoopPass(bank: RegisterBank, board: BoardState, has3v3: bool, pgoodPinHigh: bool)
      returns (ranStep: bool, rebooting: bool, effects: seq<Effect>)
      requires bank.Valid()
      modifies this, bank.regs, board`countdown
      ensures ranStep <==> old(lastTick) != board.systemTicks
      ensures lastTick == board.systemTicks
      ensures var stepped := Step(old(MachineOf(bank)), has3v3, pgoodPinHigh);
              MachineOf(bank) == (if ranStep then stepped.m else old(MachineOf(bank)))
      ensures rebooting <==> bank.rebootflag
      ensures rebooting ==> oscval == old(oscval)
      ensures !rebooting ==> oscval == bank.regs[REG_OSCCAL]
      ensures var stepped := Step(old(MachineOf(bank)), has3v3, pgoodPinHigh);
              board.countdown == (if ranStep && stepped.countdown.Some? then stepped.countdown.value
                                  else old(board.countdown))
      ensures var stepped := Step(old(MachineOf(bank)), has3v3, pgoodPinHigh);
              var osc := bank.regs[REG_OSCCAL];
              effects == [WatchdogReset] + (if ranStep then stepped.effects else [])
                         + (if rebooting then [BusStop, BoardStop, SetBootloaderFlag]
                            else if osc != old(oscval) then [Persist(CalibrationCell, osc), OscillatorCalibration(osc)]
                            else [])
    {
      effects := [WatchdogReset];
      ranStep := false;
      if lastTick != board.systemTicks {
        lastTick := board.systemTicks;
        var stepEffects := StateMachine(bank, board, has3v3, pgoodPinHigh);
        effects := effects + stepEffects;
        ranStep := true;
      }
      if bank.rebootflag {
        effects := effects + [BusStop, BoardStop, SetBootloaderFlag];
        return ranStep, true, effects;
      }
      rebooting := false;
      if bank.Get(REG_OSCCAL) != oscval {
        oscval := bank.Get(REG_OSCCAL);
        effects := effects + [Persist(CalibrationCell, oscval), OscillatorCalibration(oscval)];
      }
    }
  }
}

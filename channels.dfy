/** The three channel classes of the controller (Cycler, Camera, Laser) over
    a model of the part of an RP2040 PIO state machine that their setters
    touch: the run flag, the TX FIFO, OSR and ISR. The PIO block's IRQ flags
    0 and 1 are one array shared by all machines. Every setter validates its
    argument first and, only if it is valid, stops the machine, pushes the new
    countdown, optionally raises an IRQ flag, executes `pull()` and
    `mov(isr, osr)`, and restarts the machine. */
module Channels {
  import opened Conversion

  /** The registers a setter reads or writes. */
  datatype Registers = Registers(active: bool, txFifo: seq<int>, osr: int, isr: int)

  /** The registers after a successful reconfiguration with countdown `n`:
      running, FIFO drained, `n` in OSR and ISR, whatever they held before. */
  function Configured(n: int): Registers
  {
    Registers(true, [], n, n)
  }

  class StateMachine {
    const index: int
    var active: bool
    var txFifo: seq<int>
    var osr: int
    var isr: int
    /** Set once ISR has been rewritten while the machine was running. */
    ghost var isrWrittenWhileActive: bool

    function Regs(): Registers
      reads this
    {
      Registers(active, txFifo, osr, isr)
    }

    /** A freshly claimed state machine is stopped with empty registers. */
    constructor (index: int)
      ensures this.index == index
      ensures Regs() == Registers(false, [], 0, 0) && !isrWrittenWhileActive
    {
      this.index := index;
      active, txFifo, osr, isr := false, [], 0, 0;
      isrWrittenWhileActive := false;
    }

    /** `sm.active(on)` */
    method SetActive(on: bool)
      modifies this
      ensures Regs() == old(Regs()).(active := on)
      ensures isrWrittenWhileActive == old(isrWrittenWhileActive)
    {
      active := on;
    }

    /** `sm.put(v)`: append a word to the TX FIFO. */
    method Put(v: int)
      modifies this
      ensures Regs() == old(Regs()).(txFifo := old(txFifo) + [v])
      ensures isrWrittenWhileActive == old(isrWrittenWhileActive)
    {
      txFifo := txFifo + [v];
    }

    /** `sm.exec("pull()")`: move the oldest FIFO word into OSR. A blocking
        pull on an empty FIFO would stall; every setter puts first. */
    method ExecPull()
      requires txFifo != []
      modifies this
      ensures Regs() == old(Regs()).(txFifo := old(txFifo)[1..], osr := old(txFifo)[0])
      ensures isrWrittenWhileActive == old(isrWrittenWhileActive)
    {
      osr := txFifo[0];
      txFifo := txFifo[1..];
    }

    /** `sm.exec("mov(isr, osr)")` */
    method ExecMovIsrOsr()
      modifies this
      ensures Regs() == old(Regs()).(isr := old(osr))
      ensures isrWrittenWhileActive == (old(isrWrittenWhileActive) || old(active))
    {
      isr := osr;
      isrWrittenWhileActive := isrWrittenWhileActive || active;
    }
  }

  /** The heartbeat channel on state machine 0. */
  class Cycler {
    const sm: StateMachine
    /** The PIO block's IRQ flags 0 and 1. */
    const irq: array<bool>

    ghost predicate Valid()
      reads this, sm
    {
      irq.Length == 2 && sm.index == 0 && sm.txFifo == []
    }

    /** `Cycler()`: claims state machine 0 and starts it at 15 Hz, whose
        countdown is `1000000 // 15 - 3` = 66663. */
    constructor (irq: array<bool>)
      requires irq.Length == 2
      modifies irq
      ensures Valid() && fresh(sm) && this.irq == irq
      ensures sm.Regs() == Configured(66663) && !sm.isrWrittenWhileActive
      ensures irq[0] && irq[1] == old(irq[1])
    {
      this.irq := irq;
      sm := new StateMachine(0);
      new;
      var _ := SetRate(15);
    }

    /** `set_rate(hz)`: an invalid rate raises before the machine is touched;
        a valid one leaves the machine running with ISR = hz_to_cycles(hz) and
        IRQ 0 raised. The result does not depend on the previous state, so a
        repeated call changes nothing further. */
    method SetRate(hz: int) returns (r: Outcome)
      requires Valid()
      modifies sm, irq
      ensures Valid()
      ensures sm.isrWrittenWhileActive == old(sm.isrWrittenWhileActive)
      ensures match HzToCycles(hz)
        case Err(e) => r == Failed(e) && sm.Regs() == old(sm.Regs()) && irq[..] == old(irq[..])
        case Ok(n) => r == Done && sm.Regs() == Configured(n) && irq[0] && irq[1] == old(irq[1])
    {
      var cycles := HzToCycles(hz);
      if cycles.Err? {
        return Failed(cycles.error);
      }
      var n := cycles.value;
      if sm.active {
        sm.SetActive(false);
      }
      sm.Put(n);
      irq[0] := true;  // exec("irq(0)")
      sm.ExecPull();
      sm.ExecMovIsrOsr();
      sm.SetActive(true);
      r := Done;
    }
  }

  /** The exposure-window channel on state machine 1. */
  class Camera {
    const sm: StateMachine
    const irq: array<bool>

    ghost predicate Valid()
      reads this, sm
    {
      irq.Length == 2 && sm.index == 1 && sm.txFifo == []
    }

    /** `Camera(pin_base)`: claims state machine 1 with a 30 us exposure. */
    constructor (irq: array<bool>)
      requires irq.Length == 2
      modifies irq
      ensures Valid() && fresh(sm) && this.irq == irq
      ensures sm.Regs() == Configured(27) && !sm.isrWrittenWhileActive
      ensures irq[1] && irq[0] == old(irq[0])
    {
      this.irq := irq;
      sm := new StateMachine(1);
      new;
      var _ := SetExposure(30);
    }

    /** `set_exposure(us)`: below 4 us it raises with nothing changed;
        otherwise the machine runs with ISR = us - 3 and IRQ 1 raised. */
    method SetExposure(us: int) returns (r: Outcome)
      requires Valid()
      modifies sm, irq
      ensures Valid()
      ensures sm.isrWrittenWhileActive == old(sm.isrWrittenWhileActive)
      ensures match ExposureCycles(us)
        case Err(e) => r == Failed(e) && sm.Regs() == old(sm.Regs()) && irq[..] == old(irq[..])
        case Ok(n) => r == Done && sm.Regs() == Configured(n) && irq[1] && irq[0] == old(irq[0])
    {
      if us < 4 {
        return Failed(InvalidExposure(us));
      }
      if sm.active {
        sm.SetActive(false);
      }
      sm.Put(us - 3);
      irq[1] := true;  // exec("irq(1)")
      sm.ExecPull();
      sm.ExecMovIsrOsr();
      sm.SetActive(true);
      r := Done;
    }
  }

  /** A laser channel on state machine 2 or above. It never touches the IRQ
      flags: its setter has no `irq` to modify. */
  class Laser {
    const sm: StateMachine

    ghost predicate Valid()
      reads this, sm
    {
      sm.index >= 2 && sm.txFifo == []
    }

    constructor Claim(index: int)
      requires index >= 2
      ensures Valid() && fresh(sm) && sm.index == index
      ensures sm.Regs() == Registers(false, [], 0, 0) && !sm.isrWrittenWhileActive
    {
      sm := new StateMachine(index);
    }

    /** `Laser(state_machine_index, pin_base, delay)`: an index below 2 is
        rejected before a machine is claimed; otherwise the machine is claimed
        and `set_delay(delay)` runs, whose failure the constructor passes on. */
    static method Create(index: int, delay: int) returns (r: Result<Laser>)
      ensures r.Ok? <==> index >= 2 && delay >= 1
      ensures index < 2 ==> r == Err(InvalidStateMachineIndex(index))
      ensures index >= 2 && delay < 1 ==> r == Err(InvalidDelay(delay))
      ensures r.Ok? ==> fresh(r.value) && fresh(r.value.sm) && r.value.Valid()
      ensures r.Ok? ==> r.value.sm.index == index && r.value.sm.Regs() == Configured(delay - 1)
      ensures r.Ok? ==> !r.value.sm.isrWrittenWhileActive
    {
      if index < 2 {
        return Err(InvalidStateMachineIndex(index));
      }
      var laser := new Laser.Claim(index);
      var outcome := laser.SetDelay(delay);
      if outcome.Failed? {
        return Err(outcome.error);
      }
      r := Ok(laser);
    }

    /** `set_delay(us)`: below 1 us it raises with nothing changed; otherwise
        the machine runs with ISR = us - 1. */
    method SetDelay(us: int) returns (r: Outcome)
      requires Valid()
      modifies sm
      ensures Valid()
      ensures sm.isrWrittenWhileActive == old(sm.isrWrittenWhileActive)
      ensures match DelayCycles(us)
        case Err(e) => r == Failed(e) && sm.Regs() == old(sm.Regs())
        case Ok(n) => r == Done && sm.Regs() == Configured(n)
    {
      if us < 1 {
        return Failed(InvalidDelay(us));
      }
      if sm.active {
        sm.SetActive(false);
      }
      sm.Put(us - 1);
      sm.ExecPull();
      sm.ExecMovIsrOsr();
      sm.SetActive(true);
      r := Done;
    }
  }
}

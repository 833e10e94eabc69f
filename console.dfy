/** The script's top level: building the four channels at start-up and the
    operator's `d` command, which retunes laser 1's delay relative to the
    shared base delay. */
module Console {
  import opened Conversion
  import opened Channels
  import Pio
  import Timing

  /** `initial_delay`: laser 0's delay and the base of laser 1's. */
  const InitialDelay: int := 100

  /** The smallest value the `d` command accepts. */
  const MinDelayCommand: int := 35

  /** What the `d<value>` command does once its value has been parsed. */
  datatype DelayAction = RejectDelay(value: int) | SetLaser1Delay(us: int)

  /** The `d` rule: values below 35 are rejected without touching a laser;
      any other value becomes laser 1's delay on top of the base delay, a
      delay `set_delay` always accepts, with countdown `99 + value`. */
  function DelayCommand(value: int): (a: DelayAction)
    ensures a.RejectDelay? <==> value < MinDelayCommand
    ensures a.RejectDelay? ==> a.value == value
    ensures a.SetLaser1Delay? ==> a.us - InitialDelay == value && a.us >= 135
    ensures a.SetLaser1Delay? ==> DelayCycles(a.us) == Ok(99 + value)
  {
    if value < MinDelayCommand then RejectDelay(value) else SetLaser1Delay(InitialDelay + value)
  }

  /** The `d` branch of the command loop with its value parsed: a rejected
      value leaves laser 1 as it was, an accepted one leaves it running with
      countdown `99 + value`. */
  method HandleDelayCommand(laser1: Laser, value: int) returns (accepted: bool)
    requires laser1.Valid()
    modifies laser1.sm
    ensures laser1.Valid()
    ensures accepted <==> value >= MinDelayCommand
    ensures !accepted ==> laser1.sm.Regs() == old(laser1.sm.Regs())
    ensures accepted ==> laser1.sm.Regs() == Configured(99 + value)
    ensures laser1.sm.isrWrittenWhileActive == old(laser1.sm.isrWrittenWhileActive)
  {
    match DelayCommand(value)
    case RejectDelay(_) =>
      accepted := false;
    case SetLaser1Delay(us) =>
      var _ := laser1.SetDelay(us);
      accepted := true;
  }

  /** After an accepted `d<value>`, laser 1's warm-up pulse rises exactly
      `value` cycles after laser 0's (still at the base delay) when both are
      released in the same cycle. */
  lemma DelayCommandStagger(value: int, x0: Pio.Word, x1: Pio.Word, t: nat)
    requires MinDelayCommand <= value <= 0x1_0000_0000 - InitialDelay
    ensures DelayCommand(value).SetLaser1Delay?
    ensures Pio.Length(Pio.Run(Pio.LaserProg, 1, x0, DelayCycles(InitialDelay).value, t).events) == 5
    ensures Pio.Length(Pio.Run(Pio.LaserProg, 1, x1, DelayCycles(DelayCommand(value).us).value, t).events) == 5
    ensures Pio.At(Pio.Run(Pio.LaserProg, 1, x1, DelayCycles(DelayCommand(value).us).value, t).events, 0).at
          - Pio.At(Pio.Run(Pio.LaserProg, 1, x0, DelayCycles(InitialDelay).value, t).events, 0).at
         == value
  {
    Timing.LaserStagger(InitialDelay, DelayCommand(value).us, x0, x1, t);
  }

  /** Lines 128-132 of the script: the camera at 30 us, laser 0 at the base
      delay, laser 1 at the base delay plus 300, and the cycler at 15 Hz, all
      running and sharing one set of IRQ flags, both raised. */
  method Startup() returns (camera: Camera, laser0: Laser, laser1: Laser, cycler: Cycler)
    ensures camera.Valid() && laser0.Valid() && laser1.Valid() && cycler.Valid()
    ensures camera.irq == cycler.irq && camera.irq[0] && camera.irq[1]
    ensures camera.sm.Regs() == Configured(27)
    ensures laser0.sm.index == 2 && laser0.sm.Regs() == Configured(InitialDelay - 1)
    ensures laser1.sm.index == 3 && laser1.sm.Regs() == Configured(InitialDelay + 300 - 1)
    ensures cycler.sm.Regs() == Configured(66663)
  {
    var irq := new bool[2](_ => false);
    camera := new Camera(irq);
    var r0 := Laser.Create(2, InitialDelay);
    var r1 := Laser.Create(3, InitialDelay + 300);
    laser0, laser1 := r0.value, r1.value;
    cycler := new Cycler(irq);
  }
}

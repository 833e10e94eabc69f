/** What the countdown values computed by the setters mean once a program
    runs them: the heartbeat period, the camera's exposure window and the
    laser's pulse schedule, all counted in 1 MHz cycles. */
module Timing {
  import opened Conversion
  import opened Pio

  /** The cycler as written: the value `hz_to_cycles` loads makes one pass
      last `1000000 // hz + 1` ticks, one more than the `n + 3` its rate
      report divides by, so the heartbeat is always slower than requested.
      IRQ 0 is cleared and raised in the first two ticks of every pass. */
  lemma CyclerPeriod(hz: int, x: Word, t: nat)
    requires 0 < hz <= MaxRateHz
    ensures HzToCycles(hz).Ok? && HzToCycles(hz).value < 0x1_0000_0000
    ensures Run(CyclerProg, 0, x, HzToCycles(hz).value, t)
         == Pass(t + TickHz / hz + 1, Then(FlagCleared(t, 0), Then(FlagRaised(t + 1, 0), Idle)))
    ensures (TickHz / hz + 1) * hz > TickHz
  {
    var n := HzToCycles(hz).value;
    assert n + 3 <= TickHz by {
      assert (n + 3) * hz <= TickHz;
    }
    assert n + 3 == TickHz / hz;
    CyclerPass(x, n, t);
  }

  /** A rate that divides the tick rate exactly shows the discrepancy:
      1000 Hz loads 997, the rate report assumes a 1000-tick period, and the
      program runs a 1001-tick one. */
  lemma CyclerRateDiscrepancy()
    ensures HzToCycles(1000) == Ok(997)
    ensures TickHz / (HzToCycles(1000).value + 3) == 1000
    ensures Run(CyclerProg, 0, 0, 997, 0).end == 1001
  {
    CyclerPass(0, 997, 0);
  }

  /** The corrected conversion gives a period of exactly `1000000 // hz`
      ticks: the longest period whose `hz` repetitions fit in one second. */
  lemma CorrectedCyclerPeriod(hz: int, x: Word, t: nat)
    requires 0 < hz <= TickHz / 4
    ensures HzToCyclesCorrected(hz).Ok? && HzToCyclesCorrected(hz).value < 0x1_0000_0000
    ensures Run(CyclerProg, 0, x, HzToCyclesCorrected(hz).value, t).end == t + TickHz / hz
    ensures (TickHz / hz) * hz <= TickHz < (TickHz / hz + 1) * hz
  {
    var n := HzToCyclesCorrected(hz).value;
    assert n + 4 <= TickHz by {
      assert (n + 4) * hz <= TickHz;
    }
    assert n + 4 == TickHz / hz;
    CyclerPass(x, n, t);
  }

  /** With the countdown `set_exposure(us)` loads, the camera pin goes high
      when the camera wakes and low exactly `us` cycles later; IRQ 1 is raised
      again in the next cycle. */
  lemma ExposureWindow(us: int, x: Word, t: nat)
    requires 4 <= us < 0x1_0000_0003
    ensures ExposureCycles(us).Ok? && ExposureCycles(us).value < 0x1_0000_0000
    ensures Run(CameraProg, 1, x, ExposureCycles(us).value, t)
         == Pass(t + us + 2,
                 Then(PinsWritten(t, 1),
                 Then(PinsWritten(t + us, 0),
                 Then(FlagRaised(t + us + 1, 1), Idle))))
  {
    var n := ExposureCycles(us).value;
    CameraPass(x, n, t);
    assert t + n + 3 == t + us;
  }

  /** With the countdown `set_delay(us)` loads, the laser's warm-up pulse
      rises `us + 1` cycles after its `mov(x, isr)`; the rest of the pass is
      fixed. */
  lemma LaserSchedule(us: int, x: Word, t: nat)
    requires 1 <= us <= 0x1_0000_0000
    ensures DelayCycles(us).Ok? && DelayCycles(us).value < 0x1_0000_0000
    ensures Run(LaserProg, 1, x, DelayCycles(us).value, t)
         == Pass(t + us + 152,
                 Then(PinsWritten(t + us + 1, 1),
                 Then(PinsWritten(t + us + 11, 0),
                 Then(FlagCleared(t + us + 130, 1),
                 Then(PinsWritten(t + us + 141, 2),
                 Then(PinsWritten(t + us + 151, 0), Idle))))))
  {
    var n := DelayCycles(us).value;
    LaserPass(x, n, t);
    assert t + n + 2 == t + us + 1;
  }

  /** Whatever the delay: the warm-up and trigger pulses each last 10 cycles,
      the trigger rises 140 cycles after the warm-up, and IRQ 1 is cleared
      11 cycles before the trigger rises. */
  lemma LaserPulseShape(us: int, x: Word, t: nat)
    requires 1 <= us <= 0x1_0000_0000
    ensures var e := Run(LaserProg, 1, x, DelayCycles(us).value, t).events;
      Length(e) == 5
      && At(e, 0).PinsWritten? && At(e, 0).value == 1
      && At(e, 1).PinsWritten? && At(e, 1).value == 0
      && At(e, 3).PinsWritten? && At(e, 3).value == 2
      && At(e, 4).PinsWritten? && At(e, 4).value == 0
      && At(e, 2) == FlagCleared(At(e, 2).at, 1)
      && At(e, 1).at - At(e, 0).at == 10 && At(e, 4).at - At(e, 3).at == 10
      && At(e, 3).at - At(e, 0).at == 140 && At(e, 3).at - At(e, 2).at == 11
  {
    LaserSchedule(us, x, t);
    FiveEvents(PinsWritten(t + us + 1, 1), PinsWritten(t + us + 11, 0), FlagCleared(t + us + 130, 1),
               PinsWritten(t + us + 141, 2), PinsWritten(t + us + 151, 0));
  }

  /** Two lasers released in the same cycle raise their warm-up pulses
      `us1 - us0` cycles apart: only the configured delays differ. */
  lemma LaserStagger(us0: int, us1: int, x0: Word, x1: Word, t: nat)
    requires 1 <= us0 <= 0x1_0000_0000 && 1 <= us1 <= 0x1_0000_0000
    ensures Length(Run(LaserProg, 1, x0, DelayCycles(us0).value, t).events) == 5
    ensures Length(Run(LaserProg, 1, x1, DelayCycles(us1).value, t).events) == 5
    ensures At(Run(LaserProg, 1, x1, DelayCycles(us1).value, t).events, 0).at
          - At(Run(LaserProg, 1, x0, DelayCycles(us0).value, t).events, 0).at
         == us1 - us0
  {
    LaserSchedule(us0, x0, t);
    LaserSchedule(us1, x1, t);
    FiveEvents(PinsWritten(t + us0 + 1, 1), PinsWritten(t + us0 + 11, 0), FlagCleared(t + us0 + 130, 1),
               PinsWritten(t + us0 + 141, 2), PinsWritten(t + us0 + 151, 0));
    FiveEvents(PinsWritten(t + us1 + 1, 1), PinsWritten(t + us1 + 11, 0), FlagCleared(t + us1 + 130, 1),
               PinsWritten(t + us1 + 141, 2), PinsWritten(t + us1 + 151, 0));
  }
}

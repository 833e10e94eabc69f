# rp2040_laser_controller: verified model of the timing core

`pewpew.py` is a MicroPython script for the RP2040. It runs four PIO state
machines at 1 MHz, so one cycle is one microsecond:

- a **cycler** (machine 0) that pulses IRQ 0 at the heartbeat rate;
- a **camera** (machine 1) that holds its pin high for the exposure time
  after IRQ 1 is released;
- two **lasers** (machines 2 and 3). After IRQ 0 each one waits its delay,
  fires a 10-cycle warm-up pulse, pads 118 cycles, releases IRQ 1 and fires a
  10-cycle trigger pulse.

Operators retune the system through three setters: `set_rate`,
`set_exposure` and `set_delay`. Each one converts a physical quantity into a
countdown value and reloads the machine's ISR. The `d` command of the
console retunes laser 1.

This project models that core in Dafny.

- `conversion.dfy` (module `Conversion`) holds the three conversion formulas
  and their range checks as pure functions. Their exceptions become a
  `Result`.
- `pio.dfy` (module `Pio`) writes the three PIO programs as instruction lists.
  It has a cycle-accurate interpreter `Run` for one pass. Each instruction
  costs 1 cycle plus its `[d]` delay. `jmp(x_dec)` jumps while X was non-zero
  and decrements X in every case, so a countdown from X = x runs x + 1 times.
  The file also proves the event schedule of each program.
- `timing.dfy` (module `Timing`) connects the two. For example, the value
  `set_exposure(us)` loads keeps the camera pin high for exactly `us` cycles,
  and the laser's trigger always rises 140 cycles after its warm-up pulse.
- `channels.dfy` (module `Channels`) models the state machines as classes.
  A `StateMachine` has a run flag, a TX FIFO, OSR and ISR. `Cycler`, `Camera`
  and `Laser` have setters that follow the source's sequence: validate, stop
  if running, `put`, optionally raise an IRQ flag, `pull()`,
  `mov(isr, osr)`, start. The IRQ flags are one `array<bool>` of length 2
  shared by the machines. A ghost flag records whether ISR was ever
  rewritten while the machine ran. Every setter leaves that flag as it was.
- `console.dfy` (module `Console`) models the `d` command rule and the
  start-up wiring at lines 128-132.

The model follows the code's floor division: at 15 Hz the countdown is
1000000 // 15 - 3 = 66663.

## Model

| member | source | states |
|---|---|---|
| Conversion.FloorDiv | pewpew.py:24 | the result is Python's `//`: the quotient rounded towards minus infinity, for divisors of either sign |
| Conversion.HzToCycles | pewpew.py:23-30 | a rate succeeds exactly when 0 < hz <= 333333; hz = 0 fails as a division by zero and other bad rates fail as an invalid rate; a returned n is non-negative and n + 3 is the largest tick count whose hz repetitions fit in 1 000 000 ticks |
| Conversion.ExposureCycles | pewpew.py:62-67 | fails exactly when us < 4, with the exposure error; otherwise the countdown is at least 1 and is us less the 3 fixed cycles |
| Conversion.DelayCycles | pewpew.py:110-115 | fails exactly when us < 1, with the delay error; otherwise the countdown is us less 1 |
| Conversion.HzToCyclesCorrected | pewpew.py:24 | corrected conversion (subtracts 4): succeeds exactly when 0 < hz <= 250000, and then n + 4 is the largest tick count whose hz repetitions fit in a second |
| Pio.Cost | pewpew.py:85 | every instruction takes at least one cycle, one plus its `[d]` delay |
| Pio.Step | pewpew.py:10-14 | every instruction moves on to the next one, except a `jmp(x_dec)` to itself with X non-zero, which stays put and lowers X |
| Pio.Run | pewpew.py:6-15 | a pass from instruction pc ends no earlier than one cycle per remaining instruction after it started |
| Pio.Countdown | pewpew.py:13-14 | a self-targeted `jmp(x_dec)` with X = x runs x + 1 times, taking (x + 1)(1 + d) cycles, then falls through with X wrapped to 0xFFFFFFFF |
| Pio.MovCountdown | pewpew.py:12-14 | `mov(x, isr)` followed by the countdown takes ISR + 2 cycles whatever X held |
| Pio.CyclerPass | pewpew.py:7-15 | one cycler pass clears IRQ 0 at its first cycle, raises it at its second, and lasts ISR + 4 cycles |
| Pio.CameraPass | pewpew.py:44-54 | after the wait the camera writes pin 1, writes 0 ISR + 3 cycles later, raises IRQ 1 one cycle after that, and ends one cycle later |
| Pio.LaserPass | pewpew.py:75-98 | after the wait the laser's pass is exactly: warm-up high at ISR + 2, low 10 later, IRQ 1 cleared 119 later, trigger high 11 later, low 10 later; total ISR + 153 cycles |
| Pio.LaserFromWarmUp | pewpew.py:84-98 | the fixed part of the laser's pass, from the warm-up instruction, lasts 151 cycles with the events at these offsets |
| Pio.LaserWarmUp | pewpew.py:84-86 | the warm-up pulse writes pin value 1 at its first cycle and 0 ten cycles later, and the padding starts one cycle after that |
| Pio.LaserNops | pewpew.py:87-92 | the four padding nops make nothing visible and only let 118 cycles pass |
| Pio.LaserTrigger | pewpew.py:93-97 | IRQ 1 clear with `[10]` followed by the trigger pulse: events at 0, 11 and 21, 22 cycles in all |
| Pio.LaserPaddingBudget | pewpew.py:87-94 | the four nops take 118 cycles; the warm-up pulse and the IRQ clear take 11 each; together they make the 140 cycles of the comment |
| Pio.StraightLineEnd | pewpew.py:84-94 | over a stretch of instructions with no `mov(x, isr)` and no countdown, the pass ends exactly the stretch's summed cycle costs later than from the stretch's end, linking the cycle budget to the interpreter |
| Pio.LaserBudgetByRun | pewpew.py:84-94 | by the interpreter, the laser gets from its warm-up instruction to its trigger instruction in exactly 140 cycles, the budget of the comment at line 88 |
| Timing.CyclerPeriod | pewpew.py:23-30 | with the countdown `hz_to_cycles` loads, a cycler pass lasts `1000000 // hz + 1` ticks, so the heartbeat is strictly slower than hz; IRQ 0 is cleared and raised at the pass's first two ticks |
| Timing.CyclerRateDiscrepancy | pewpew.py:24-28 | at 1000 Hz the code loads 997 and reports a 1000-tick period, but the pass runs 1001 ticks |
| Timing.CorrectedCyclerPeriod | pewpew.py:24 | with the corrected countdown the pass lasts exactly `1000000 // hz` ticks, the largest period that fits hz times into a second |
| Timing.ExposureWindow | pewpew.py:48-53 | with the countdown `set_exposure(us)` loads, the camera pin is high for exactly us cycles; IRQ 1 is re-raised one cycle after it goes low |
| Timing.LaserSchedule | pewpew.py:81-97 | with the countdown `set_delay(us)` loads, the warm-up rises us + 1 cycles after `mov(x, isr)`, and the rest of the pass is at fixed offsets from it |
| Timing.LaserPulseShape | pewpew.py:84-97 | for any delay: warm-up and trigger pulses last 10 cycles each, the trigger rises 140 cycles after the warm-up, and IRQ 1 is cleared 11 cycles before the trigger |
| Timing.LaserStagger | pewpew.py:130-131 | two lasers released together raise their warm-ups exactly the difference of their delays apart |
| Channels.StateMachine.constructor | pewpew.py:20 | a claimed machine starts stopped with empty FIFO and zero OSR and ISR |
| Channels.StateMachine.SetActive | pewpew.py:34-35 | `sm.active(on)` changes only the run flag |
| Channels.StateMachine.Put | pewpew.py:36 | `sm.put(v)` appends v to the TX FIFO and changes nothing else |
| Channels.StateMachine.ExecPull | pewpew.py:38 | `pull()` moves the oldest FIFO word into OSR |
| Channels.StateMachine.ExecMovIsrOsr | pewpew.py:39 | `mov(isr, osr)` copies OSR into ISR and records whether the machine was running at the time |
| Channels.Cycler.constructor | pewpew.py:19-21 | the cycler claims machine 0 and runs at 15 Hz with ISR 66663 and IRQ 0 raised |
| Channels.Cycler.SetRate | pewpew.py:32-40 | an invalid rate fails before anything changes (registers and both IRQ flags unchanged); a valid one leaves the machine running with ISR = hz_to_cycles(hz), IRQ 0 raised and IRQ 1 untouched; ISR is never rewritten while running; the new state does not depend on the old one, so a repeated call is idempotent |
| Channels.Camera.constructor | pewpew.py:58-60 | the camera claims machine 1 and runs with a 30 us exposure, ISR 27, and IRQ 1 raised |
| Channels.Camera.SetExposure | pewpew.py:62-71 | us < 4 fails with nothing changed; otherwise the machine runs with ISR = us - 3 >= 1, IRQ 1 raised and IRQ 0 untouched; ISR is never rewritten while running; idempotent |
| Channels.Laser.Claim | pewpew.py:106-107 | claims state machine `index` (at least 2), stopped |
| Channels.Laser.Create | pewpew.py:102-108 | an index below 2 is rejected first; then a delay below 1 is rejected; otherwise a fresh laser runs with ISR = delay - 1 |
| Channels.Laser.SetDelay | pewpew.py:110-119 | us < 1 fails with nothing changed; otherwise the machine runs with ISR = us - 1; the IRQ flags are outside its frame; ISR is never rewritten while running; idempotent |
| Console.DelayCommand | pewpew.py:171-180 | values below 35 are rejected; any other value sets laser 1's delay to 100 + value, at least 135, which set_delay accepts with countdown 99 + value |
| Console.HandleDelayCommand | pewpew.py:171-180 | a rejected value leaves laser 1's registers unchanged; an accepted one leaves it running with ISR = 99 + value |
| Console.DelayCommandStagger | pewpew.py:128-131 | after an accepted `d<value>`, laser 1's warm-up rises exactly value cycles after laser 0's when both are released together |
| Console.Startup | pewpew.py:128-132 | start-up leaves the camera at ISR 27, laser 0 (machine 2) at 99, laser 1 (machine 3) at 399 and the cycler at 66663, all running on one shared set of IRQ flags, both raised |

## Findings

| source | as written | input that shows it | evidently intended | confidence | as-written member | corrected member |
|---|---|---|---|---|---|---|
| pewpew.py:24-28 | `n = 1000000 // hz - 3`; the rate report divides by `n + 3`. But the counted pass at lines 10-14 is `irq(clear, 0)`, `irq(0)` and `mov` plus n + 1 `jmp`s, which is n + 4 cycles | hz = 1000: n = 997, reported 1000 Hz (1000-tick period), actual pass 1001 ticks (about 999.0 Hz) | the period is `1000000 // hz` ticks, so subtract 4 (this fits the commented-out single `irq(0)` at line 9, which made the pass n + 3) | high; not executed | Timing.CyclerRateDiscrepancy | Timing.CorrectedCyclerPeriod |

`Conversion.HzToCyclesCorrected` holds the corrected conversion, and
`Timing.CorrectedCyclerPeriod` proves its exact period. `Channels.Cycler.SetRate`
keeps the `- 3` of the code. That way its contract describes the machine the
script actually configures, and `Timing.CyclerPeriod` states what that machine
does.

## Left out

- The IRQ handshake between machines is not modelled. This covers
  `irq(block, i)` waiting for another machine's `irq(clear, i)`, and the
  ordering of cycler, lasers and camera. It is concurrency between four
  hardware machines. `Pio.Run` counts a blocking `irq(block, i)` as one cycle,
  as if it were released at once. The timing lemmas therefore measure each
  pass from the instruction after the wait.
- `wrap()` and `wrap_target()` cost no cycle on the RP2040. A pass ends at the
  wrap, and the next pass starts there.
- Hardware and library calls are reduced to field updates. This covers
  `StateMachine(...)` construction (including its own index and frequency
  checks), `Pin`, the pin mapping, and the raw IRQ-mask write at line 126.
  `sm.exec` is modelled only for the three instruction strings the setters
  pass.
- Register width: PIO registers are 32 bits. The channel classes keep ISR and
  OSR as unbounded integers, and truncation by `put` of a value of 2^32 or
  more is not modelled. The timing lemmas require the countdown to fit in
  32 bits.
- Floating point: the `r` command parses a float. The model takes the rate
  as an integer with floor division. The `actual_hz` report at line 28 is
  printed output. It appears only as the discrepancy in the Findings table.
- The console loop's I/O and parsing are not modelled: `input`, `print`,
  `int`/`float` conversion, and the `h`, `E`, `D` and `q` branches.
  `set_state` (lines 135-137) only toggles the run flags of the hardware.
  When parsing fails, the `ValueError` handlers at lines 160-175 fall through
  to a stale or undefined variable. That is a defect of the loop, not
  behaviour of the core. `Console.HandleDelayCommand` takes the value
  already parsed.
- Channels.StateMachine.ExecPull: requires a non-empty FIFO. On an empty FIFO
  a blocking `pull()` stalls the machine. Every setter calls `put` first.

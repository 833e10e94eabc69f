/** Turning the physical quantities an operator asks for (a rate in Hz, an
    exposure or a delay in microseconds) into the countdown value that a PIO
    state machine loads into its X register through ISR. Every state machine
    runs at 1 MHz, so one cycle is one microsecond. */
module Conversion {

  /** The clock every state machine is started with (`freq=1000000`). */
  const TickHz: int := 1_000_000

  /** The largest rate the cycler accepts: above it `1000000 // hz - 3` is negative. */
  const MaxRateHz: int := 333_333

  /** The exceptions the setters and the laser constructor raise. */
  datatype ConfigError =
    | RateDivisionByZero            // `1000000 // 0` in hz_to_cycles
    | InvalidRate(hz: int)          // "Invalid cycler rate"
    | InvalidExposure(us: int)      // "Invalid camera exposure"
    | InvalidDelay(us: int)         // "Invalid Laser delay"
    | InvalidStateMachineIndex(index: int)  // "Invalid Laser state_machine_index"

  datatype Result<T> = Ok(value: T) | Err(error: ConfigError)

  /** What a setter reports: it either completed or raised. */
  datatype Outcome = Done | Failed(error: ConfigError)

  /** Python's `a // b` on integers: the quotient rounded towards minus infinity. */
  function FloorDiv(a: int, b: int): (q: int)
    requires b != 0
    ensures b > 0 ==> q * b <= a < q * b + b
    ensures b < 0 ==> q * b >= a > q * b + b
  {
    if b > 0 then a / b else (-a) / (-b)
  }

  /** Cycler.hz_to_cycles: the countdown for a heartbeat of `hz` Hz, or the
      exception it raises. A positive rate is accepted exactly when it is at
      most MaxRateHz, and then `n + 3` is the largest whole number of ticks
      whose `hz` repetitions fit in one second. */
  function HzToCycles(hz: int): (r: Result<nat>)
    ensures r.Ok? <==> 0 < hz <= MaxRateHz
    ensures hz == 0 ==> r == Err(RateDivisionByZero)
    ensures hz != 0 && r.Err? ==> r == Err(InvalidRate(hz))
    ensures r.Ok? ==> (r.value + 3) * hz <= TickHz < (r.value + 4) * hz
  {
    if hz == 0 then Err(RateDivisionByZero)
    else
      var n := FloorDiv(TickHz, hz) - 3;
      if n < 0 then Err(InvalidRate(hz)) else Ok(n)
  }

  /** Camera.set_exposure's check and formula: the countdown that keeps the
      camera pin high for `us` cycles, three of which the program itself
      spends outside the countdown. */
  function ExposureCycles(us: int): (r: Result<nat>)
    ensures r.Ok? <==> us >= 4
    ensures r.Err? ==> r == Err(InvalidExposure(us))
    ensures r.Ok? ==> r.value >= 1 && r.value + 3 == us
  {
    if us < 4 then Err(InvalidExposure(us)) else Ok(us - 3)
  }

  /** Laser.set_delay's check and formula: the pre-warm-up countdown for a
      delay of `us` microseconds. */
  function DelayCycles(us: int): (r: Result<nat>)
    ensures r.Ok? <==> us >= 1
    ensures r.Err? ==> r == Err(InvalidDelay(us))
    ensures r.Ok? ==> r.value + 1 == us
  {
    if us < 1 then Err(InvalidDelay(us)) else Ok(us - 1)
  }

  /** The conversion the cycler evidently intends: its counted pass costs four
      cycles besides the countdown, so four are subtracted and the period is
      exactly `1000000 // hz` ticks. */
  function HzToCyclesCorrected(hz: int): (r: Result<nat>)
    ensures r.Ok? <==> 0 < hz <= TickHz / 4
    ensures r.Ok? ==> (r.value + 4) * hz <= TickHz < (r.value + 5) * hz
  {
    if hz == 0 then Err(RateDivisionByZero)
    else
      var n := FloorDiv(TickHz, hz) - 4;
      if n < 0 then Err(InvalidRate(hz)) else Ok(n)
  }
}

/** The three PIO programs as instruction lists, and a cycle-accurate
    interpreter for one pass through a program (from a given instruction to
    the `wrap()` at its end). As on the RP2040, every instruction takes one
    cycle plus its `[d]` delay, and `jmp(x_dec, L)` jumps while X was non-zero
    before the decrement, decrementing X in every case. */
module Pio {

  /** A 32-bit PIO register (X, ISR). */
  type Word = x: int | 0 <= x < 0x1_0000_0000

  const WordMax: Word := 0xFFFF_FFFF

  /** The instructions the three programs use. In all of them the label of the
      countdown sits on the `jmp` itself, so the jump always targets itself. */
  datatype Instr =
    | IrqSetAndWait(flag: nat, delay: nat)   // irq(block, i)
    | IrqClear(flag: nat, delay: nat)        // irq(clear, i)
    | IrqRaise(flag: nat, delay: nat)        // irq(i)
    | MovXIsr(delay: nat)                    // mov(x, isr)
    | JmpXDecSelf(delay: nat)                // label(L); jmp(x_dec, L)
    | SetPins(value: nat, delay: nat)        // set(pins, v)
    | Nop(delay: nat)                        // nop()

  /** Cycles an instruction occupies: one to execute plus its delay. */
  function Cost(i: Instr): (c: nat)
    ensures c >= 1
  {
    1 + i.delay
  }

  /** What a pass does that is visible outside the state machine, stamped with
      the cycle in which the instruction executes. */
  datatype Event =
    | PinsWritten(at: nat, value: nat)
    | FlagRaised(at: nat, flag: nat)
    | FlagCleared(at: nat, flag: nat)
    | FlagWaited(at: nat, flag: nat)

  /** The events of a pass, in order. */
  datatype Trace = Idle | Then(event: Event, rest: Trace)

  function Length(tr: Trace): nat
  {
    if tr.Idle? then 0 else 1 + Length(tr.rest)
  }

  /** The `i`-th event of a trace, counting from 0. */
  function At(tr: Trace, i: nat): Event
    requires i < Length(tr)
  {
    if i == 0 then tr.event else At(tr.rest, i - 1)
  }

  /** Reading back a trace of five events. */
  lemma FiveEvents(a: Event, b: Event, c: Event, d: Event, e: Event)
    ensures var tr := Then(a, Then(b, Then(c, Then(d, Then(e, Idle)))));
      Length(tr) == 5
      && At(tr, 0) == a && At(tr, 1) == b && At(tr, 2) == c && At(tr, 3) == d && At(tr, 4) == e
  {
    var t4 := Then(e, Idle);
    var t3 := Then(d, t4);
    var t2 := Then(c, t3);
    var t1 := Then(b, t2);
    assert Length(t4) == 1 && At(t4, 0) == e;
    assert Length(t3) == 2 && At(t3, 1) == e && At(t3, 0) == d;
    assert Length(t2) == 3 && At(t2, 2) == e && At(t2, 1) == d && At(t2, 0) == c;
    assert Length(t1) == 4 && At(t1, 3) == e && At(t1, 2) == d && At(t1, 1) == c;
  }

  /** The cycle at which a pass ends (the next instruction would start) and
      the events it produced. */
  datatype Pass = Pass(end: nat, events: Trace)

  /** What one instruction makes visible, if anything. */
  datatype Output = Silent | Emits(event: Event)

  /** Where one instruction leaves the machine: the next instruction, the
      new X, and what it made visible. */
  datatype Next = Next(pc: nat, x: Word, out: Output)

  /** The effect of executing instruction `i`, found at `pc`, at cycle `t`.
      Only the countdown can stay at `pc`, and then it decreases X. */
  function Step(i: Instr, pc: nat, x: Word, isr: Word, t: nat): (n: Next)
    ensures n.pc == pc + 1 || (n.pc == pc && n.x < x)
    ensures n.pc == pc <==> i.JmpXDecSelf? && x != 0
  {
    match i
    case JmpXDecSelf(_) => if x == 0 then Next(pc + 1, WordMax, Silent) else Next(pc, x - 1, Silent)
    case MovXIsr(_) => Next(pc + 1, isr, Silent)
    case SetPins(v, _) => Next(pc + 1, x, Emits(PinsWritten(t, v)))
    case IrqRaise(f, _) => Next(pc + 1, x, Emits(FlagRaised(t, f)))
    case IrqClear(f, _) => Next(pc + 1, x, Emits(FlagCleared(t, f)))
    case IrqSetAndWait(f, _) => Next(pc + 1, x, Emits(FlagWaited(t, f)))
    case Nop(_) => Next(pc + 1, x, Silent)
  }

  /** Runs `prog` from instruction `pc` at cycle `t` with scratch register X =
      `x` until the wrap. The blocking part of `irq(block, i)` is not modelled:
      the wait is counted as if the flag were released at once. */
  function Run(prog: seq<Instr>, pc: nat, x: Word, isr: Word, t: nat): (p: Pass)
    requires pc <= |prog|
    ensures t + (|prog| - pc) <= p.end
    decreases |prog| - pc, x
  {
    if pc == |prog| then Pass(t, Idle)
    else
      var n := Step(prog[pc], pc, x, isr, t);
      var rest := Run(prog, n.pc, n.x, isr, t + Cost(prog[pc]));
      match n.out
      case Silent => rest
      case Emits(e) => Pass(rest.end, Then(e, rest.events))
  }

  /** Cycles spent by a countdown `jmp` with delay `d` entered with X = x. */
  function CountdownCycles(x: nat, d: nat): nat
  {
    (x + 1) * (1 + d)
  }

  /** A countdown `jmp(x_dec, L)` on itself with X = x executes x + 1 times and
      then falls through with X wrapped to 0xFFFFFFFF. */
  lemma {:induction false} Countdown(prog: seq<Instr>, pc: nat, x: Word, isr: Word, t: nat)
    requires pc < |prog| && prog[pc].JmpXDecSelf?
    ensures Run(prog, pc, x, isr, t)
         == Run(prog, pc + 1, WordMax, isr, t + CountdownCycles(x, prog[pc].delay))
    decreases x
  {
    var c := Cost(prog[pc]);
    if x > 0 {
      assert Run(prog, pc, x, isr, t) == Run(prog, pc, x - 1, isr, t + c);
      Countdown(prog, pc, x - 1, isr, t + c);
      assert t + c + x * c == t + (x + 1) * c;
    } else {
      assert Run(prog, pc, x, isr, t) == Run(prog, pc + 1, WordMax, isr, t + c);
    }
  }

  /** `mov(x, isr)` followed by the countdown on X: together they take the
      value in ISR plus two cycles. */
  lemma MovCountdown(prog: seq<Instr>, pc: nat, x: Word, isr: Word, t: nat)
    requires pc + 1 < |prog| && prog[pc] == MovXIsr(0) && prog[pc + 1] == JmpXDecSelf(0)
    ensures Run(prog, pc, x, isr, t) == Run(prog, pc + 2, WordMax, isr, t + isr + 2)
  {
    Countdown(prog, pc + 1, isr, isr, t + 1);
  }

  /** cycler_prog: clear IRQ 0, raise IRQ 0, reload X and count down. */
  const CyclerProg: seq<Instr> := [
    IrqClear(0, 0),
    IrqRaise(0, 0),
    MovXIsr(0),
    JmpXDecSelf(0)
  ]

  /** camera_prog: wait on IRQ 1, pin high, count down, pin low, raise IRQ 1. */
  const CameraProg: seq<Instr> := [
    IrqSetAndWait(1, 0),
    SetPins(1, 0),
    MovXIsr(0),
    JmpXDecSelf(0),
    SetPins(0, 0),
    IrqRaise(1, 0)
  ]

  /** laser_prog: wait on IRQ 0, pre-delay countdown, warm-up pulse on pin 0,
      four padding nops, clear IRQ 1, trigger pulse on pin 1. */
  const LaserProg: seq<Instr> := [
    IrqSetAndWait(0, 0),
    MovXIsr(0),
    JmpXDecSelf(0),
    SetPins(1, 9),
    SetPins(0, 0),
    Nop(31),
    Nop(31),
    Nop(31),
    Nop(21),
    IrqClear(1, 10),
    SetPins(2, 9),
    SetPins(0, 0)
  ]

  /** The laser's padding between the end of the warm-up pulse and the IRQ. */
  const LaserPadding: seq<Instr> := LaserProg[5..9]

  /** Total cycles of a straight run of instructions. */
  function Cycles(s: seq<Instr>): (c: nat)
    ensures c >= |s|
  {
    if s == [] then 0 else Cost(s[0]) + Cycles(s[1..])
  }

  /** One pass of the cycler takes the countdown plus four cycles; IRQ 0 is
      cleared in its first cycle and raised in its second. */
  lemma CyclerPass(x: Word, isr: Word, t: nat)
    ensures Run(CyclerProg, 0, x, isr, t)
         == Pass(t + isr + 4, Then(FlagCleared(t, 0), Then(FlagRaised(t + 1, 0), Idle)))
  {
    MovCountdown(CyclerProg, 2, x, isr, t + 2);
    assert Run(CyclerProg, 4, WordMax, isr, t + isr + 4) == Pass(t + isr + 4, Idle);
  }

  /** From its pin-high instruction, the camera writes 1, holds it for the
      countdown plus three cycles, writes 0 and then raises IRQ 1. */
  lemma CameraPass(x: Word, isr: Word, t: nat)
    ensures Run(CameraProg, 1, x, isr, t)
         == Pass(t + isr + 5,
                 Then(PinsWritten(t, 1),
                 Then(PinsWritten(t + isr + 3, 0),
                 Then(FlagRaised(t + isr + 4, 1), Idle))))
  {
    MovCountdown(CameraProg, 2, x, isr, t + 1);
    var e := t + isr + 3;
    assert Run(CameraProg, 6, WordMax, isr, e + 2) == Pass(e + 2, Idle);
  }

  /** From its `mov(x, isr)`, the laser writes its warm-up pulse (rising the
      countdown plus two cycles later), clears IRQ 1 and writes its trigger
      pulse at these cycles. */
  lemma LaserPass(x: Word, isr: Word, t: nat)
    ensures Run(LaserProg, 1, x, isr, t)
         == Pass(t + isr + 153,
                 Then(PinsWritten(t + isr + 2, 1),
                 Then(PinsWritten(t + isr + 12, 0),
                 Then(FlagCleared(t + isr + 131, 1),
                 Then(PinsWritten(t + isr + 142, 2),
                 Then(PinsWritten(t + isr + 152, 0), Idle))))))
  {
    var w := t + isr + 2;
    LaserFromWarmUp(isr, w);
    MovCountdown(LaserProg, 1, x, isr, t);
    assert Run(LaserProg, 1, x, isr, t) == Run(LaserProg, 3, WordMax, isr, w);
  }

  /** The laser's straight-line part, from the warm-up instruction at cycle
      `w` with X already wrapped by the countdown. */
  lemma LaserFromWarmUp(isr: Word, w: nat)
    ensures Run(LaserProg, 3, WordMax, isr, w)
         == Pass(w + 151,
                 Then(PinsWritten(w, 1),
                 Then(PinsWritten(w + 10, 0),
                 Then(FlagCleared(w + 129, 1),
                 Then(PinsWritten(w + 140, 2),
                 Then(PinsWritten(w + 150, 0), Idle))))))
  {
    var rest := Run(LaserProg, 5, WordMax, isr, w + 11);
    LaserNops(isr, w + 11);
    LaserTrigger(isr, w + 129);
    assert rest.end == w + 151;
    assert rest.events == Then(FlagCleared(w + 129, 1),
                          Then(PinsWritten(w + 140, 2),
                          Then(PinsWritten(w + 150, 0), Idle)));
    LaserWarmUp(isr, w);
  }

  /** The warm-up pulse: pin 0 high for 10 cycles, then low for one. */
  lemma LaserWarmUp(isr: Word, w: nat)
    ensures var rest := Run(LaserProg, 5, WordMax, isr, w + 11);
      Run(LaserProg, 3, WordMax, isr, w)
      == Pass(rest.end, Then(PinsWritten(w, 1), Then(PinsWritten(w + 10, 0), rest.events)))
  {
  }

  /** The four padding nops only let 118 cycles pass. */
  lemma LaserNops(isr: Word, c: nat)
    ensures Run(LaserProg, 5, WordMax, isr, c) == Run(LaserProg, 9, WordMax, isr, c + 118)
  {
    assert Run(LaserProg, 7, WordMax, isr, c + 64) == Run(LaserProg, 9, WordMax, isr, c + 118);
  }

  /** The laser's last three instructions: clear IRQ 1, then the trigger pulse. */
  lemma LaserTrigger(isr: Word, c: nat)
    ensures Run(LaserProg, 9, WordMax, isr, c)
         == Pass(c + 22,
                 Then(FlagCleared(c, 1),
                 Then(PinsWritten(c + 11, 2),
                 Then(PinsWritten(c + 21, 0), Idle))))
  {
    assert Run(LaserProg, 12, WordMax, isr, c + 22) == Pass(c + 22, Idle);
  }

  /** The four padding nops cost 32 + 32 + 32 + 22 = 118 cycles, which is the
      140-cycle gap between the warm-up and trigger rising edges less the
      11 cycles of the warm-up pulse and the 11 of the IRQ clear. */
  lemma {:induction false} LaserPaddingBudget()
    ensures Cycles(LaserPadding) == 118
    ensures Cycles(LaserProg[3..5]) == 11 && Cycles(LaserProg[9..10]) == 11
    ensures Cycles(LaserProg[3..10]) == 140
  {
    assert LaserPadding == [Nop(31), Nop(31), Nop(31), Nop(21)];
    assert Cycles([Nop(21)]) == 22;
    assert Cycles([Nop(31), Nop(21)]) == 54;
    assert Cycles([Nop(31), Nop(31), Nop(21)]) == 86;
    assert Cycles([SetPins(0, 0)]) == 1;
    assert LaserProg[3..5] == [SetPins(1, 9), SetPins(0, 0)];
    assert LaserProg[9..10] == [IrqClear(1, 10)];
    assert LaserProg[3..10] == LaserProg[3..5] + LaserPadding + LaserProg[9..10];
    CyclesAppend(LaserProg[3..5], LaserPadding);
    CyclesAppend(LaserProg[3..5] + LaserPadding, LaserProg[9..10]);
  }

  /** Instructions `i` up to `j` neither load nor count down X. */
  predicate StraightLine(prog: seq<Instr>, i: nat, j: nat)
    requires i <= j <= |prog|
  {
    forall k :: i <= k < j ==> !prog[k].JmpXDecSelf? && !prog[k].MovXIsr?
  }

  /** Over instructions that neither load nor count down X, a pass ends
      exactly `Cycles` of that stretch later than it would from its end. */
  lemma {:induction false} StraightLineEnd(prog: seq<Instr>, i: nat, j: nat, x: Word, isr: Word, t: nat)
    requires i <= j <= |prog|
    requires StraightLine(prog, i, j)
    ensures Run(prog, i, x, isr, t).end == Run(prog, j, x, isr, t + Cycles(prog[i..j])).end
    decreases j - i
  {
    if i < j {
      var c := Cost(prog[i]);
      StepEnd(prog, i, x, isr, t);
      StraightLineEnd(prog, i + 1, j, x, isr, t + c);
      CyclesFirst(prog[i..j]);
      assert prog[i..j][1..] == prog[i + 1..j];
    }
  }

  lemma StepEnd(prog: seq<Instr>, pc: nat, x: Word, isr: Word, t: nat)
    requires pc < |prog| && !prog[pc].JmpXDecSelf? && !prog[pc].MovXIsr?
    ensures Run(prog, pc, x, isr, t).end == Run(prog, pc + 1, x, isr, t + Cost(prog[pc])).end
  {
    var n := Step(prog[pc], pc, x, isr, t);
    assert n.pc == pc + 1 && n.x == x;
  }

  lemma CyclesFirst(s: seq<Instr>)
    requires s != []
    ensures Cycles(s) == Cost(s[0]) + Cycles(s[1..])
  {
  }

  /** The 140-cycle budget of `LaserPaddingBudget`, read off the interpreter:
      a pass entering the warm-up at cycle `w` reaches the trigger at `w + 140`. */
  lemma LaserBudgetByRun(isr: Word, w: nat)
    ensures Run(LaserProg, 3, WordMax, isr, w).end == Run(LaserProg, 10, WordMax, isr, w + 140).end
  {
    LaserPaddingBudget();
    StraightLineEnd(LaserProg, 3, 10, WordMax, isr, w);
  }

  lemma {:induction false} CyclesAppend(a: seq<Instr>, b: seq<Instr>)
    ensures Cycles(a + b) == Cycles(a) + Cycles(b)
    decreases |a|
  {
    if a == [] {
      assert a + b == b;
    } else {
      assert (a + b)[0] == a[0];
      assert (a + b)[1..] == a[1..] + b;
      CyclesAppend(a[1..], b);
    }
  }
}

/** Interrupt request lines and the devices that drive them: the multicomp09 timer and UART0, and
    the eon2 interrupt multiplexer with its timer. */
module Lines {
  import opened Words
  import opened Arch
  import opened Effects
  import opened Cpu6809
  import opened Queues

  // ----- request lines of the processor -----

  /** Taking the interrupt that a request may cause leaves the pending words as requested. */
  lemma RequestSetsLine(s: State, source: nat)
    ensures RequestIrq(s, source).irqs == SetBit(s.irqs, source) && RequestIrq(s, source).firqs == s.firqs
    ensures RequestFirq(s, source).firqs == SetBit(s.firqs, source) && RequestFirq(s, source).irqs == s.irqs
  {
    hide StackState, Read16, SetBit;
    StackEffects(s.(irqs := SetBit(s.irqs, source)), true);
    StackEffects(s.(firqs := SetBit(s.firqs, source)), false);
  }

  // ----- multicomp09 -----

  const TIMER_LINE := 0
  const UART_LINE := 1

  /** The timer register (bit 1 enable, bit 7 interrupt), UART0 and the IRQ lines. */
  datatype Io = Io(timer: byte, fifo: Fifo, status: byte, irqs: nat)

  /** `arrived` is the byte the host has for the UART at the moment of the poll, if any. */
  datatype IoEvent =
    | Tick
    | TimerWrite(v: byte)
    | StatusRead(arrived: seq<byte>)
    | DataRead(arrived: seq<byte>)
    | StatusWrite(v: byte)
    | Update(arrived: seq<byte>)

  function Poll(f: Fifo, arrived: seq<byte>): Fifo
    requires Shaped(f)
  {
    if arrived == [] then f else Receive(f, arrived[0])
  }

  function SetLine(io: Io, n: nat): Io { io.(irqs := SetBit(io.irqs, n)) }
  function ClearLine(io: Io, n: nat): Io { io.(irqs := ClearBit(io.irqs, n)) }

  /** Bit 1 is stored; a written bit 7 clears the interrupt and its line. */
  function TimerAfterWrite(timer: byte, v: byte): byte {
    SetByteBit(timer, 1);
    var t: byte := if Bit(v, 1) then SetBit(timer, 1) else ClearBit(timer, 1);
    SetByteBit(t, 7);
    if Bit(v, 7) then ClearBit(t, 7) else t
  }

  function TimerAfterTick(timer: byte): byte {
    SetByteBit(timer, 7);
    SetBit(timer, 7)
  }

  function IoStep(io: Io, e: IoEvent): Io
    requires Shaped(io.fifo)
  {
    match e
    case Tick => if Bit(io.timer, 1) then SetLine(io.(timer := TimerAfterTick(io.timer)), TIMER_LINE) else io
    case TimerWrite(v) =>
      var t := io.(timer := TimerAfterWrite(io.timer, v));
      if Bit(v, 7) then ClearLine(t, TIMER_LINE) else t
    case StatusRead(arrived) => io.(fifo := Poll(io.fifo, arrived))
    case DataRead(arrived) =>
      var f := Poll(io.fifo, arrived);
      var t := io.(fifo := Drop(f));
      if !f.empty && t.fifo.empty then ClearLine(t, UART_LINE) else t
    case StatusWrite(v) =>
      if v == 3 then ClearLine(io.(fifo := Reset(io.fifo), status := 0), UART_LINE) else io.(status := v)
    case Update(arrived) =>
      var t := io.(fifo := Poll(io.fifo, arrived));
      if !t.fifo.empty && Bit(io.status, 7) then SetLine(t, UART_LINE) else t
  }

  /** The timer line is up exactly while the timer's interrupt bit is set; the UART line implies a
      byte to be read. */
  predicate Agree(io: Io) {
    Shaped(io.fifo) && (Bit(io.irqs, TIMER_LINE) <==> Bit(io.timer, 7)) && (Bit(io.irqs, UART_LINE) ==> !io.fifo.empty)
  }

  lemma StepAgrees(io: Io, e: IoEvent)
    requires Agree(io)
    ensures Agree(IoStep(io, e))
  {
    hide Bit, SetBit, ClearBit;
    SetClearBit(io.irqs, TIMER_LINE, TIMER_LINE); SetClearBit(io.irqs, TIMER_LINE, UART_LINE);
    SetClearBit(io.irqs, UART_LINE, TIMER_LINE); SetClearBit(io.irqs, UART_LINE, UART_LINE);
    if e.Tick? {
      SetByteBit(io.timer, 7);
    } else if e.TimerWrite? {
      SetByteBit(io.timer, 1);
      var t: byte := if Bit(e.v, 1) then SetBit(io.timer, 1) else ClearBit(io.timer, 1);
      SetByteBit(t, 7);
    }
  }

  /** What an event does to the processor: a request, a release, or nothing. */
  function CpuStep(io: Io, e: IoEvent, s: State): State
    requires Shaped(io.fifo)
  {
    match e
    case Tick => if Bit(io.timer, 1) then RequestIrq(s, TIMER_LINE) else s
    case TimerWrite(v) => if Bit(v, 7) then ReleaseIrq(s, TIMER_LINE) else s
    case StatusRead(_) => s
    case DataRead(arrived) =>
      var f := Poll(io.fifo, arrived);
      if !f.empty && Drop(f).empty then ReleaseIrq(s, UART_LINE) else s
    case StatusWrite(v) => if v == 3 then ReleaseIrq(s, UART_LINE) else s
    case Update(arrived) =>
      if !Poll(io.fifo, arrived).empty && Bit(io.status, 7) then RequestIrq(s, UART_LINE) else s
  }

  /** The lines of the device model are the request word of the processor. */
  lemma CpuStepLines(io: Io, e: IoEvent, s: State)
    requires Shaped(io.fifo) && s.irqs == io.irqs
    ensures CpuStep(io, e, s).irqs == IoStep(io, e).irqs
  {
    hide RequestIrq, Bit, SetBit, ClearBit;
    RequestSetsLine(s, TIMER_LINE);
    RequestSetsLine(s, UART_LINE);
  }

  /** Bit 1 of the last value written decides whether a tick raises the line; a tick of a disabled timer
      changes nothing. */
  lemma TickObeysWrite(io: Io, v: byte)
    requires Agree(io)
    ensures var t := IoStep(io, TimerWrite(v)); var u := IoStep(t, Tick);
            && (Bit(v, 1) ==> Bit(u.irqs, 0) && Bit(u.timer, 7)) && (!Bit(v, 1) ==> u == t)
            && (Bit(v, 7) ==> !Bit(t.irqs, 0) && !Bit(t.timer, 7))
            && (!Bit(v, 7) ==> t.irqs == io.irqs && Bit(t.timer, 7) == Bit(io.timer, 7))
  {
    hide Bit, SetBit, ClearBit;
    SetByteBit(io.timer, 1);
    var w: byte := if Bit(v, 1) then SetBit(io.timer, 1) else ClearBit(io.timer, 1);
    SetByteBit(w, 7);
    var t := IoStep(io, TimerWrite(v));
    SetByteBit(t.timer, 7);
    SetClearBit(io.irqs, 0, 0); SetClearBit(t.irqs, 0, 0);
  }

  /** Bit 7 of the control value last written decides whether a waiting byte raises the UART's line. */
  lemma UpdateObeysControl(io: Io, v: byte, arrived: seq<byte>)
    requires Agree(io) && v != 3
    ensures var u := IoStep(IoStep(io, StatusWrite(v)), Update(arrived));
            Bit(u.irqs, 1) <==> Bit(io.irqs, 1) || (Bit(v, 7) && !(io.fifo.empty && arrived == []))
  {
    hide Bit, SetBit, ClearBit;
    SetClearBit(io.irqs, 1, 1);
  }

  function IoRun(io: Io, es: seq<IoEvent>): Io
    requires Agree(io)
    decreases |es|
  {
    if es == [] then io else StepAgrees(io, es[0]); IoRun(IoStep(io, es[0]), es[1..])
  }

  /** Lines and devices agree in every reachable state, a master reset at any read index included. */
  lemma {:induction false} AlwaysAgree(io: Io, es: seq<IoEvent>)
    requires Agree(io)
    ensures Agree(IoRun(io, es))
    decreases |es|
  {
    hide IoStep;
    if es != [] {
      StepAgrees(io, es[0]);
      AlwaysAgree(IoStep(io, es[0]), es[1..]);
    }
  }

  class MulticompIo {
    const cpu: Cpu
    var timer: byte
    var wr: nat
    var rd: nat
    var empty: bool
    const data: array<byte>
    var status: byte

    constructor (cpu: Cpu)
      ensures this.cpu == cpu && fresh(data) && Ready() && timer == 0 && empty && wr == rd == 0 && status == 0
    {
      this.cpu := cpu;
      timer, wr, rd, empty, status := 0, 0, 0, true, 0;
      data := new byte[FIFO](_ => 0);
    }

    ghost predicate Ready()
      reads this
    {
      data.Length == FIFO && wr < FIFO && rd < FIFO
    }

    ghost function State(): Io
      reads this, data, cpu`irqs
    {
      Io(timer, Fifo(wr, rd, empty, data[..]), status, cpu.irqs)
    }

    /** Neither stopped nor given a new slice. */
    ghost predicate Undisturbed(halted: bool, period: int)
      reads cpu
    {
      cpu.halted == halted && cpu.period == period
    }

    method RaiseLine(n: nat)
      modifies cpu
      ensures cpu.irqs == SetBit(old(cpu.irqs), n)
      ensures cpu.Abs() == RequestIrq(old(cpu.Abs()), n) && Undisturbed(old(cpu.halted), old(cpu.period))
    {
      hide SetBit, RequestIrq;
      RequestSetsLine(cpu.Abs(), n);
      cpu.RequestIrqLine(n);
    }

    method ReceivePoll(arrived: seq<byte>)
      requires Ready()
      modifies `wr, `empty, data
      ensures Ready() && State() == old(State()).(fifo := Poll(old(State()).fifo, arrived))
    {
      if arrived != [] && !(wr == rd && !empty) {
        empty := false;
        data[wr] := arrived[0];
        wr := (wr + 1) % FIFO;
      }
    }

    method TickTimer()
      requires Ready()
      modifies `timer, cpu
      ensures Ready() && State() == IoStep(old(State()), Tick)
      ensures cpu.Abs() == CpuStep(old(State()), Tick, old(cpu.Abs())) && Undisturbed(old(cpu.halted), old(cpu.period))
    {
      hide SetBit, Bit;
      if Bit(timer, 1) {
        SetByteBit(timer, 7);
        timer := SetBit(timer, 7);
        RaiseLine(TIMER_LINE);
      }
    }

    method WriteTimer(v: byte)
      requires Ready()
      modifies `timer, cpu
      ensures Ready() && State() == IoStep(old(State()), TimerWrite(v))
      ensures cpu.Abs() == CpuStep(old(State()), TimerWrite(v), old(cpu.Abs())) && Undisturbed(old(cpu.halted), old(cpu.period))
    {
      hide SetBit, ClearBit, Bit;
      SetByteBit(timer, 1);
      timer := if Bit(v, 1) then SetBit(timer, 1) else ClearBit(timer, 1);
      if Bit(v, 7) {
        cpu.ReleaseIrqLine(TIMER_LINE);
        SetByteBit(timer, 7);
        timer := ClearBit(timer, 7);
      }
    }

    /** UART0 data register: returns the oldest byte with the keyboard conversions, or 0xff. */
    method ReadUart(arrived: seq<byte>) returns (v: byte)
      requires Ready()
      modifies `wr, `rd, `empty, data, cpu
      ensures Ready() && State() == IoStep(old(State()), DataRead(arrived))
      ensures cpu.Abs() == CpuStep(old(State()), DataRead(arrived), old(cpu.Abs())) && Undisturbed(old(cpu.halted), old(cpu.period))
      ensures var f := Poll(old(State()).fifo, arrived);
              v == if f.empty then 0xff
                   else var c := f.data[f.rd]; if c == 127 then 8 else if c == 10 then 13 else c
    {
      hide ClearBit;
      ReceivePoll(arrived);
      v := 0xff;
      if !empty {
        v := Converted(data[rd]);
        rd := (rd + 1) % FIFO;
        if rd == wr {
          empty := true;
          cpu.ReleaseIrqLine(UART_LINE);
        }
      }
    }

    method WriteUartStatus(v: byte)
      requires Ready()
      modifies `status, `wr, `empty, cpu
      ensures Ready() && State() == IoStep(old(State()), StatusWrite(v))
      ensures cpu.Abs() == CpuStep(old(State()), StatusWrite(v), old(cpu.Abs())) && Undisturbed(old(cpu.halted), old(cpu.period))
    {
      hide ClearBit;
      status := v;
      if v == 3 {
        wr := 0;
        empty := true;
        status := 0;
        cpu.ReleaseIrqLine(UART_LINE);
      }
    }

    method UpdateConsole(arrived: seq<byte>)
      requires Ready()
      modifies `wr, `empty, data, cpu
      ensures Ready() && State() == IoStep(old(State()), Update(arrived))
      ensures cpu.Abs() == CpuStep(old(State()), Update(arrived), old(cpu.Abs())) && Undisturbed(old(cpu.halted), old(cpu.period))
    {
      hide SetBit, Bit;
      ReceivePoll(arrived);
      if !empty && Bit(status, 7) {
        RaiseLine(UART_LINE);
      }
    }
  }

  /** Rubout becomes backspace and line feed carriage return. */
  function Converted(c: byte): byte { if c == 127 then 8 else if c == 10 then 13 else c }

  // ----- eon2 -----

  /** imux_refresh as the processor sees it: line 1 requested or released. */
  function MuxLine(s: State, up: bool): State { if up then RequestIrq(s, 1) else ReleaseIrq(s, 1) }

  lemma MuxLineSets(s: State, up: bool)
    ensures var t := MuxLine(s, up);
            && t.irqs == (if up then SetBit(s.irqs, 1) else ClearBit(s.irqs, 1)) && t.ccChanged == s.ccChanged
  {
    hide StackState, Read16, SetBit, ClearBit;
    StackEffects(s.(irqs := SetBit(s.irqs, 1)), true);
  }

  /** The multiplexer on IRQ source 1. */
  class Imux {
    const cpu: Cpu
    var enabled: nat
    var pending: nat

    constructor (cpu: Cpu)
      ensures this.cpu == cpu && enabled == 0 && pending == 0
    {
      this.cpu := cpu;
      enabled, pending := 0, 0;
    }

    /** The CPU's line 1 is up exactly while some enabled source is pending. */
    ghost predicate LineAgrees()
      reads this, cpu`irqs
    {
      Bit(cpu.irqs, 1) <==> And(pending, enabled) != 0
    }

    method Refresh()
      modifies cpu
      ensures LineAgrees()
      ensures forall j: nat :: j != 1 ==> Bit(cpu.irqs, j) == Bit(old(cpu.irqs), j)
      ensures cpu.Abs() == MuxLine(old(cpu.Abs()), And(pending, enabled) != 0)
      ensures cpu.halted == old(cpu.halted) && cpu.ccChanged == old(cpu.ccChanged) && cpu.period == old(cpu.period)
    {
      hide Bit, And, SetBit, ClearBit, RequestIrq;
      forall j: nat
        ensures Bit(SetBit(cpu.irqs, 1), j) == (j == 1 || Bit(cpu.irqs, j))
                && Bit(ClearBit(cpu.irqs, 1), j) == (j != 1 && Bit(cpu.irqs, j))
      {
        SetClearBit(cpu.irqs, 1, j);
      }
      if And(pending, enabled) != 0 {
        RequestSetsLine(cpu.Abs(), 1);
        cpu.RequestIrqLine(1);
      } else {
        cpu.ReleaseIrqLine(1);
      }
    }

    /** imux_write: register 0 sets the enables, register 1 clears pending sources. */
    method Write(addr: nat, val: byte)
      modifies `enabled, `pending, cpu
      ensures LineAgrees()
      ensures enabled == (if addr == 0 then val else old(enabled))
      ensures pending == if addr == 1 then And(old(pending), 0xffff_ffff - val) else old(pending)
      ensures cpu.Abs() == MuxLine(old(cpu.Abs()), And(pending, enabled) != 0)
      ensures cpu.halted == old(cpu.halted) && cpu.ccChanged == old(cpu.ccChanged) && cpu.period == old(cpu.period)
    {
      hide And, MuxLine;
      if addr == 0 {
        enabled := val;
      } else if addr == 1 {
        pending := And(pending, 0xffff_ffff - val);
      }
      Refresh();
    }

    /** imux_assert. */
    method Assert(sig: nat)
      modifies `pending, cpu
      ensures LineAgrees() && pending == SetBit(old(pending), sig)
      ensures cpu.Abs() == MuxLine(old(cpu.Abs()), And(pending, enabled) != 0)
      ensures cpu.halted == old(cpu.halted) && cpu.ccChanged == old(cpu.ccChanged) && cpu.period == old(cpu.period)
    {
      hide And, SetBit, MuxLine;
      pending := SetBit(pending, sig);
      Refresh();
    }
  }
}

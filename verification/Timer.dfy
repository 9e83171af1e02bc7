/** The cycle timer, its conservation law, and the eon2 main loop in which it drives the interrupt
    multiplexer. */
module Timer {
  import opened Words
  import opened Arch
  import opened Cpu6809
  import opened Lines
  import Budget
  import Masks
  import Effects

  /** `count` and `reload` of a running timer. */
  datatype Counter = Counter(count: int, reload: nat)

  /** Outcome of one hwtimer_decrement: the new counter, whether it expired (and so asked for an
      interrupt), whether it was reloaded, and whether it fell through twice and stopped the emulator. */
  datatype Countdown = Countdown(next: Counter, expired: bool, reloaded: bool, failed: bool)

  function Decrement(c: Counter, cycles: nat): Countdown {
    if c.count == 0 && c.reload == 0 then Countdown(c, false, false, false)
    else
      var n := c.count - cycles;
      if n > 0 then Countdown(c.(count := n), false, false, false)
      else if n == 0 then Countdown(c.(count := 0), true, false, false)
      else if c.reload > 0 then Countdown(c.(count := n + c.reload), true, true, n + c.reload < 0)
      else Countdown(c.(count := 0), true, false, false)
  }

  /** The timer stops the emulator exactly when an update covers more than the rest of the period
      and a whole further one. */
  lemma FailsIff(c: Counter, cycles: nat)
    requires 0 <= c.count && c.reload > 0
    ensures Decrement(c, cycles).failed <==> cycles > c.count + c.reload
  {
  }

  // ----- runs -----

  function Sum(es: seq<nat>): nat { if es == [] then 0 else es[0] + Sum(es[1..]) }

  /** Final counter, number of expiries, reloads and exact zeros, and whether any update failed. */
  datatype Tally = Tally(last: Counter, expiries: nat, reloads: nat, zeros: nat, failed: bool)

  function RunTimer(c: Counter, es: seq<nat>): Tally
    decreases |es|
  {
    if es == [] then Tally(c, 0, 0, 0, false)
    else
      var t := Decrement(c, es[0]);
      var rest := RunTimer(t.next, es[1..]);
      Tally(rest.last, rest.expiries + (if t.expired then 1 else 0), rest.reloads + (if t.reloaded then 1 else 0),
            rest.zeros + (if t.expired && !t.reloaded then 1 else 0), rest.failed || t.failed)
  }

  /** While no update covers more than one period: the count stays within it, cycles are conserved
      (count plus elapsed time is the initial count plus one period for each reload), every reload
      asks for an interrupt, and the only extra interrupts are those of updates that end exactly on zero. */
  lemma {:induction false} Conservation(c: Counter, es: seq<nat>)
    requires c.reload > 0 && 0 <= c.count <= c.reload
    requires forall i :: 0 <= i < |es| ==> es[i] <= c.reload
    ensures var t := RunTimer(c, es);
            && 0 <= t.last.count <= c.reload && t.last.reload == c.reload && !t.failed
            && t.last.count + Sum(es) == c.count + c.reload * t.reloads
            && t.expiries == t.reloads + t.zeros
    decreases |es|
  {
    hide Decrement;
    if es != [] {
      var t := Decrement(c, es[0]);
      DecrementWithin(c, es[0]);
      Conservation(t.next, es[1..]);
      OneMore(c.reload, RunTimer(t.next, es[1..]).reloads);
    }
  }

  lemma OneMore(period: nat, k: nat)
    ensures period * (k + 1) == period * k + period
  {
  }

  lemma DecrementWithin(c: Counter, cycles: nat)
    requires c.reload > 0 && 0 <= c.count <= c.reload && cycles <= c.reload
    ensures var t := Decrement(c, cycles);
            && 0 <= t.next.count <= c.reload && t.next.reload == c.reload && !t.failed
            && t.next.count + cycles == c.count + (if t.reloaded then c.reload else 0)
            && (t.reloaded ==> t.expired)
  {
  }

  /** Without a reload value the timer runs down once: it expires with the update that reaches the
      count, and then rests at zero for good. */
  lemma {:induction false} OneShot(c: Counter, es: seq<nat>)
    requires c.reload == 0 && c.count >= 0
    ensures var t := RunTimer(c, es);
            && t.last == Counter(if Sum(es) < c.count then c.count - Sum(es) else 0, 0) && !t.failed && t.reloads == 0
            && t.expiries == (if c.count > 0 && Sum(es) >= c.count then 1 else 0)
    decreases |es|
  {
    if es != [] {
      OneShot(Decrement(c, es[0]).next, es[1..]);
    }
  }

  // ----- asking twice -----

  /** One update ends exactly on zero and asks; the next one reloads the counter and asks again. */
  lemma AsksTwice(k: nat, r: nat)
    requires k > 0 && r > 0
    ensures var first := Decrement(Counter(k, r), k);
            && first.expired && !first.reloaded && first.next == Counter(0, r)
            && var second := Decrement(first.next, 1); second.expired && second.reloaded && second.next == Counter(r - 1, r)
  {
  }

  /** Elapsed time `x` is a point at which the period ends. */
  ghost predicate Grid(c: Counter, x: nat) { exists j: nat {:trigger Times(j, c.reload)} :: x == c.count + Times(j, c.reload) }

  function Times(j: nat, r: nat): nat { j * r }

  /** Update `k` ends on the grid, and is not a whole period that started there. */
  ghost predicate EndsOnGrid(c: Counter, es: seq<nat>, k: nat)
    requires 1 <= k <= |es|
  {
    Grid(c, Sum(es[..k])) && !(Grid(c, Sum(es[..k - 1])) && es[k - 1] == c.reload)
  }

  /** An update moves the counter along the grid. */
  lemma GridShift(c: Counter, e: nat, y: nat)
    requires c.reload > 0 && 0 <= c.count <= c.reload && e <= c.reload
    ensures Grid(Decrement(c, e).next, y) <==> Grid(c, e + y)
  {
    hide Decrement;
    var t := Decrement(c, e);
    DecrementWithin(c, e);
    var k := if t.reloaded then 1 else 0;
    if Grid(t.next, y) {
      var j: nat :| y == t.next.count + Times(j, c.reload);
      OneMore(c.reload, j);
      assert e + y == c.count + Times(j + k, c.reload);
    }
    if Grid(c, e + y) {
      var j: nat :| e + y == c.count + Times(j, c.reload);
      assert j >= k by { ReloadedLate(c, e); }
      if k == 1 { OneMore(c.reload, j - 1); }
      assert y == t.next.count + Times(j - k, c.reload);
    }
  }

  lemma ReloadedLate(c: Counter, e: nat)
    ensures Decrement(c, e).reloaded ==> e > c.count
    ensures c.reload > 0 ==> (Decrement(c, e).expired && !Decrement(c, e).reloaded <==> e == c.count)
  {
  }

  /** Within the first period only its end is on the grid, or its start for a counter at zero. */
  lemma GridNear(c: Counter, e: nat)
    requires c.reload > 0 && 0 <= c.count <= c.reload && e <= c.reload
    ensures Grid(c, e) <==> e == c.count || (c.count == 0 && e == c.reload)
  {
    if Grid(c, e) {
      var j: nat :| e == c.count + Times(j, c.reload);
      TwoOrMore(j, c.reload);
    }
    assert Times(0, c.reload) == 0 && Times(1, c.reload) == c.reload;
  }

  lemma TwoOrMore(j: nat, r: nat)
    ensures j <= 1 || Times(j, r) >= 2 * r
  {
  }

  lemma SumStep(es: seq<nat>, k: nat)
    requires 1 <= k <= |es|
    ensures Sum(es[..k]) == es[0] + Sum(es[1..][..k - 1])
  {
    assert es[..k][1..] == es[1..][..k - 1];
  }

  lemma EndsShift(c: Counter, es: seq<nat>, k: nat)
    requires c.reload > 0 && 0 <= c.count <= c.reload && 2 <= k <= |es| && es[0] <= c.reload
    ensures EndsOnGrid(Decrement(c, es[0]).next, es[1..], k - 1) <==> EndsOnGrid(c, es, k)
  {
    hide Decrement, Grid;
    DecrementWithin(c, es[0]);
    SumStep(es, k);
    SumStep(es, k - 1);
    GridShift(c, es[0], Sum(es[1..][..k - 1]));
    GridShift(c, es[0], Sum(es[1..][..k - 2]));
  }

  /** The timer asks once for each reload if and only if no update ends on the grid: no update is
      timed to the very end of a period, nor of no length while the counter rests at zero. */
  lemma {:induction false} AsksOnceIff(c: Counter, es: seq<nat>)
    requires c.reload > 0 && 0 <= c.count <= c.reload
    requires forall i :: 0 <= i < |es| ==> es[i] <= c.reload
    ensures var t := RunTimer(c, es);
            t.expiries == t.reloads <==> forall k :: 1 <= k <= |es| ==> !EndsOnGrid(c, es, k)
    decreases |es|
  {
    hide Decrement, EndsOnGrid;
    if es != [] {
      var t := Decrement(c, es[0]);
      var rest := RunTimer(t.next, es[1..]);
      DecrementWithin(c, es[0]);
      ReloadedLate(c, es[0]);
      AsksOnceIff(t.next, es[1..]);
      Conservation(t.next, es[1..]);
      assert EndsOnGrid(c, es, 1) <==> es[0] == c.count by { EndsFirst(c, es); }
      forall k | 2 <= k <= |es| ensures EndsOnGrid(c, es, k) <==> EndsOnGrid(t.next, es[1..], k - 1) { EndsShift(c, es, k); }
      if k :| 1 <= k <= |es[1..]| && EndsOnGrid(t.next, es[1..], k) {
        assert EndsOnGrid(c, es, k + 1);
      }
    }
  }

  lemma EndsFirst(c: Counter, es: seq<nat>)
    requires c.reload > 0 && 0 <= c.count <= c.reload && es != [] && es[0] <= c.reload
    ensures EndsOnGrid(c, es, 1) <==> es[0] == c.count
  {
    hide Grid;
    SumStep(es, 1);
    assert es[1..][..0] == [] && es[..0] == [];
    GridNear(c, es[0]);
    GridNear(c, 0);
  }

  /** Why the exception: a whole period counted from zero ends on the grid, yet asks once and reloads once. */
  lemma WholePeriodFromZero(r: nat)
    requires r > 0
    ensures var t := RunTimer(Counter(0, r), [r]); t.expiries == t.reloads == 1
    ensures Grid(Counter(0, r), Sum([r][..1])) && !EndsOnGrid(Counter(0, r), [r], 1)
  {
    hide Grid;
    GridNear(Counter(0, r), r);
    GridNear(Counter(0, r), 0);
    assert [r][..1] == [r] && [r][..0] == [] && [r][1..] == [];
    assert Sum([r]) == r;
    assert RunTimer(Counter(0, r), []) == Tally(Counter(0, r), 0, 0, 0, false);
  }

  /** For a counter that does not start at zero: exactly when no nonempty prefix of the updates adds
      up to the rest of the period and any number of further periods. */
  lemma AsksOnceIffOffGrid(c: Counter, es: seq<nat>)
    requires c.reload > 0 && 0 < c.count <= c.reload
    requires forall i :: 0 <= i < |es| ==> es[i] <= c.reload
    ensures var t := RunTimer(c, es);
            t.expiries == t.reloads <==> forall k :: 1 <= k <= |es| ==> !Grid(c, Sum(es[..k]))
  {
    hide RunTimer, Grid;
    AsksOnceIff(c, es);
    if k :| 1 <= k <= |es| && Grid(c, Sum(es[..k])) {
      FirstOnGrid(c, es, k);
    }
  }

  lemma {:induction false} FirstOnGrid(c: Counter, es: seq<nat>, k: nat)
    requires c.reload > 0 && 0 < c.count <= c.reload && k <= |es| && Grid(c, Sum(es[..k]))
    ensures exists i :: 1 <= i <= k && EndsOnGrid(c, es, i)
    decreases k
  {
    hide Grid;
    if k == 0 {
      GridNear(c, 0);
    } else if Grid(c, Sum(es[..k - 1])) {
      FirstOnGrid(c, es, k - 1);
    } else {
      assert EndsOnGrid(c, es, k);
    }
  }

  // ----- the timer device -----

  /** An enabled timer that expires makes the multiplexer refresh its line; otherwise the processor
      is left alone. */
  function CpuAfter(c: Counter, cycles: nat, enabled: bool, up: bool, s: State): State {
    if Decrement(c, cycles).expired && enabled then MuxLine(s, up) else s
  }

  /** hwtimer, attached to line `line` of a multiplexer; bit 7 of `flags` enables its interrupt. */
  class HwTimer {
    const mux: Imux
    const line: nat
    var count: int
    var reload: nat
    var flags: byte
    var prev: int
    var failed: bool

    /** oscillator_create followed by its reset. */
    constructor Oscillator(mux: Imux, line: nat, now: int)
      ensures this.mux == mux && this.line == line && State() == Counter(2048, 2048) && prev == now && !failed && flags == 0x80
    {
      this.mux := mux;
      this.line := line;
      reload := 2048;
      count := 2048;
      flags := 0x80;
      prev := now;
      failed := false;
    }

    /** HWTF_INT. */
    predicate Enabled()
      reads this
    {
      flags >= 0x80
    }

    ghost function State(): Counter
      reads this
    {
      Counter(count, reload)
    }

    /** hwtimer_decrement. */
    method Elapse(cycles: nat)
      modifies `count, `failed, mux`pending, mux.cpu
      ensures var t := Decrement(old(State()), cycles);
              && State() == t.next && (failed <==> old(failed) || t.failed)
              && (t.expired && Enabled() ==> mux.pending == SetBit(old(mux.pending), line) && mux.LineAgrees())
              && (!(t.expired && Enabled()) ==> mux.pending == old(mux.pending) && mux.cpu.irqs == old(mux.cpu.irqs))
      ensures mux.cpu.halted == old(mux.cpu.halted) && mux.cpu.ccChanged == old(mux.cpu.ccChanged)
      ensures mux.cpu.period == old(mux.cpu.period)
      ensures mux.cpu.Abs() == CpuAfter(old(State()), cycles, Enabled(), And(mux.pending, mux.enabled) != 0, old(mux.cpu.Abs()))
    {
      hide SetBit, And, MuxLine;
      if count == 0 && reload == 0 { return; }
      count := count - cycles;
      if count <= 0 {
        if Enabled() { mux.Assert(line); }
        if count < 0 {
          if reload > 0 {
            count := count + reload;
            if count < 0 { failed := true; }
          } else {
            count := 0;
          }
        }
      }
    }

    /** hwtimer_update. */
    method Update(now: int)
      requires now >= prev
      modifies `count, `failed, `prev, mux`pending, mux.cpu
      ensures var t := Decrement(old(State()), now - old(prev));
              && State() == t.next && (failed <==> old(failed) || t.failed) && prev == now
              && (t.expired && Enabled() ==> mux.pending == SetBit(old(mux.pending), line) && mux.LineAgrees())
              && (!(t.expired && Enabled()) ==> mux.pending == old(mux.pending) && mux.cpu.irqs == old(mux.cpu.irqs))
      ensures mux.cpu.halted == old(mux.cpu.halted) && mux.cpu.ccChanged == old(mux.cpu.ccChanged)
      ensures mux.cpu.period == old(mux.cpu.period)
      ensures mux.cpu.Abs() == CpuAfter(old(State()), now - old(prev), Enabled(), And(mux.pending, mux.enabled) != 0, old(mux.cpu.Abs()))
    {
      hide SetBit, And, MuxLine, Decrement;
      Elapse(now - prev);
      prev := now;
    }
  }

  // ----- the main loop -----

  const SLICE := 1024

  /** The eon2 machine as main runs it: device updates, then a slice of CPU time. */
  class Eon2 {
    const cpu: Cpu
    const timer: HwTimer
    var total: int

    constructor (cpu: Cpu, timer: HwTimer)
      requires timer.mux.cpu == cpu && timer.flags == 0x80 && timer.State() == Counter(2048, 2048) && !timer.failed
      requires timer.prev == 0 && cpu.period == cpu.clk && !cpu.ccChanged && !cpu.halted && timer.mux.LineAgrees()
      ensures this.cpu == cpu && this.timer == timer && Ready() && total == 0
    {
      this.cpu := cpu;
      this.timer := timer;
      total := 0;
    }

    /** get_cycles. */
    ghost function Cycles(): int
      reads this, cpu
    {
      total + cpu.period - cpu.clk
    }

    /** Between slices: the processor is at an instruction boundary, its line 1 shows the state of the
        multiplexer, and the timer has not been left behind by more than a slice and its overrun. */
    ghost predicate Ready()
      reads this, cpu, timer, timer.mux
    {
      && timer.mux.cpu == cpu && timer.flags == 0x80 && !timer.failed && timer.mux.LineAgrees()
      && timer.reload == 2048 && 0 <= timer.count <= 2048
      && cpu.period == cpu.clk && !cpu.ccChanged && !cpu.halted
      && timer.prev <= total <= timer.prev + SLICE + 35
    }

    /** One turn of the main loop.  The overrun bound of cpu_execute keeps every update below one
        period, so the oscillator never stops the emulator; the processor runs on from the state the
        timer's request, if any, has left it in. */
    method Turn()
      requires Ready()
      modifies this, cpu, timer, timer.mux
      ensures !timer.failed
      ensures !cpu.halted ==> Ready() && SLICE <= total - old(total) <= SLICE + 35 && Cycles() == total
      ensures timer.prev == old(Cycles()) && timer.State() == Decrement(old(timer.State()), old(Cycles() - timer.prev)).next
      ensures var start := CpuAfter(old(timer.State()), old(Cycles() - timer.prev), true,
                                    And(timer.mux.pending, timer.mux.enabled) != 0, old(cpu.Abs()));
              !start.ccChanged && (!cpu.halted ==>
                Running(cpu.Abs().(clk := SLICE - (total - old(total)))) == Budget.Run(start.(clk := SLICE)))
    {
      hide Budget.Run, And, MuxLine, Bit;
      MuxLineSets(cpu.Abs(), true); MuxLineSets(cpu.Abs(), false);
      timer.Update(total + cpu.period - cpu.clk);
      Slice(SLICE);
    }

    /** `total += cpu_execute(cycles)`.  get_cycles advances by the cycles spent, less whatever an
        interrupt entry since the last slice had added: it goes on without a jump if and only if
        there was no such entry. */
    method Slice(cycles: int)
      requires !cpu.halted && !cpu.ccChanged
      modifies `total, cpu
      ensures !cpu.halted ==> Cycles() == total && cpu.period == cpu.clk && !cpu.ccChanged
      ensures !cpu.halted ==> Cycles() - old(Cycles()) == total - old(total) - old(cpu.period - cpu.clk)
      ensures !cpu.halted ==> (Cycles() - old(Cycles()) == total - old(total) <==> old(cpu.clk == cpu.period))
      ensures !cpu.halted ==> Running(cpu.Abs().(clk := cycles - (total - old(total)))) == Budget.Run(old(cpu.Abs()).(clk := cycles))
      ensures !cpu.halted && cycles >= 1 ==> cycles <= total - old(total) <= cycles + 35
      ensures !cpu.halted ==> cpu.irqs == old(cpu.irqs)
    {
      hide Budget.Run, Budget.TotalCost, Cpu.Cc;
      Masks.RunKeepsLines(cpu.Abs().(clk := cycles));
      var spent := cpu.Execute(cycles);
      total := total + spent;
    }

    /** A device requests an IRQ between two slices, then the next slice runs.  get_cycles read in
        between goes on without a jump exactly when the request is not taken or ends a CWAI; otherwise
        the 19 cycles of the entry, shown in between, are missing afterwards. */
    method RequestThenSlice(source: nat, cycles: int) returns (shown: int)
      requires !cpu.halted && !cpu.ccChanged && cpu.period == cpu.clk
      modifies `total, cpu
      ensures shown - old(Cycles()) == if old(Quietly(cpu.Abs())) then 0 else 19
      ensures !cpu.halted ==> (Cycles() - shown == total - old(total) <==> old(Quietly(cpu.Abs())))
    {
      hide RequestIrq;
      EntryShowsIff(cpu.Abs(), source, cpu.period, total);
      cpu.RequestIrqLine(source);
      shown := total + cpu.period - cpu.clk;
      Slice(cycles);
    }

    /** Any number of turns, until the processor stops. */
    method RunTurns(n: nat)
      requires Ready()
      modifies this, cpu, timer, timer.mux
      ensures !timer.failed && (!cpu.halted ==> Ready())
    {
      var i := 0;
      while i < n && !cpu.halted
        invariant !timer.failed && (!cpu.halted ==> Ready())
      {
        Turn();
        i := i + 1;
      }
    }
  }

  /** An IRQ request charges nothing: it is masked or ends a CWAI wait. */
  predicate Quietly(s: State) { s.cc.i || s.waiting }

  /** With the slice just finished (`period == clk`), a request between slices leaves get_cycles
      alone exactly when it is masked or finds the processor waiting; otherwise it shows the entry. */
  lemma EntryShowsIff(s: State, source: nat, period: int, total: int)
    requires period == s.clk
    ensures total + period - RequestIrq(s, source).clk == total <==> s.cc.i || s.waiting
    ensures !s.cc.i && !s.waiting ==> total + period - RequestIrq(s, source).clk == total + 19
    ensures RequestIrq(s, source).ccChanged == s.ccChanged
  {
    hide StackState, SetBit, Read16;
    Effects.StackEffects(s.(irqs := SetBit(s.irqs, source)), true);
  }

  lemma FastEntryShowsIff(s: State, source: nat, period: int, total: int)
    requires period == s.clk
    ensures total + period - RequestFirq(s, source).clk == total <==> s.cc.f || s.waiting
    ensures !s.cc.f && !s.waiting ==> total + period - RequestFirq(s, source).clk == total + 6
    ensures RequestFirq(s, source).ccChanged == s.ccChanged
  {
    hide StackState, SetBit, Read16;
    Effects.StackEffects(s.(firqs := SetBit(s.firqs, source)), false);
  }
}

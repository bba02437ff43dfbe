/** The processor's run loop (src/spc700.c), as far as the clock sees it: an instruction is
    the loads and stores it makes in the sound processor's registers, and four clocks. */
module RunLoop {
  import opened Bits
  import opened Clocks

  datatype Access = Store(reg: nat, byte: u8) | Load(reg: nat)

  /** An opcode without a handler, or an instruction. */
  datatype Insn = Halt | Exec(accesses: seq<Access>)

  ghost predicate InRegisters(accesses: seq<Access>)
  {
    forall k :: 0 <= k < |accesses| ==> accesses[k].reg < 16
  }

  ghost predicate AllInRegisters(insns: seq<Insn>)
  {
    forall k :: 0 <= k < |insns| ==> insns[k].Exec? ==> InRegisters(insns[k].accesses)
  }

  /** The instructions before the first that cannot be executed. */
  function Executed(insns: seq<Insn>): (n: nat)
    ensures n <= |insns|
    ensures forall k :: 0 <= k < n ==> insns[k].Exec?
    ensures n < |insns| ==> insns[n].Halt?
  {
    if insns == [] || insns[0].Halt? then 0 else 1 + Executed(insns[1..])
  }

  // ---- the run as a function ----

  ghost function Accessed(s: ApuState, a: Access): (r: ApuState)
    requires s.Valid() && a.reg < 16
    ensures r.Valid()
  {
    match a
    case Store(reg, byte) => Stored(s, reg, byte)
    case Load(reg) => Loaded(s, reg)
  }

  /** All of them, in order. */
  ghost function AllAccessed(s: ApuState, accesses: seq<Access>): (r: ApuState)
    requires s.Valid() && InRegisters(accesses)
    ensures r.Valid()
    decreases |accesses|
  {
    if accesses == [] then s
    else
      var n := |accesses| - 1;
      Accessed(AllAccessed(s, accesses[..n]), accesses[n])
  }

  /** Instruction j has made its accesses; its four clocks are still to come. */
  ghost function Within(s: ApuState, insns: seq<Insn>, j: nat): (r: ApuState)
    requires s.Valid() && AllInRegisters(insns) && j < Executed(insns)
    ensures r.Valid()
    decreases j, 1
  {
    AllAccessed(After(s, insns, j), insns[j].accesses)
  }

  /** The registers after n instructions, on the 32-bit clock. */
  ghost function After(s: ApuState, insns: seq<Insn>, n: nat): (r: ApuState)
    requires s.Valid() && AllInRegisters(insns) && n <= Executed(insns)
    ensures r.Valid()
    decreases n, 0
  {
    if n == 0 then s else Clocked(Within(s, insns, n - 1), 4 * n % WRAP32)
  }

  // ---- the loop ----

  method RunAccesses(apu: Apu, accesses: seq<Access>, dsp: u8 -> u8)
    requires apu.Valid() && InRegisters(accesses)
    modifies apu`rom, apu`dspStores, apu.sram, apu.timers, apu.ioOut
    ensures apu.Valid() && apu.View() == AllAccessed(old(apu.View()), accesses)
  {
    hide Stored, Loaded, LoadValue;
    ghost var s := apu.View();
    for k := 0 to |accesses|
      invariant apu.Valid() && apu.View() == AllAccessed(s, accesses[..k])
    {
      assert accesses[..k + 1][..k] == accesses[..k];
      match accesses[k] {
        case Store(reg, byte) => apu.MmioStore(reg, byte);
        case Load(reg) => var _ := apu.MmioLoad(reg, dsp);
      }
    }
    assert accesses[..|accesses|] == accesses;
  }

  /** Runs until an opcode without a handler. */
  method RunForever(apu: Apu, insns: seq<Insn>, dsp: u8 -> u8) returns (n: nat)
    requires apu.Valid() && AllInRegisters(insns)
    modifies apu, apu.sram, apu.timers, apu.ioOut
    ensures apu.Valid() && n == Executed(insns) && apu.View() == After(old(apu.View()), insns, n)
  {
    hide Clocked, AllAccessed, Executed;
    ghost var s := apu.View();
    var cycle: u32 := 0;
    n := 0;
    while n < |insns|
      invariant n <= Executed(insns) <= |insns|
      invariant apu.Valid() && apu.View() == After(s, insns, n)
      invariant cycle == 4 * n % WRAP32
    {
      if insns[n].Halt? {
        break;
      }
      NotYetHalted(insns, n);
      RunAccesses(apu, insns[n].accesses, dsp);
      ClockAdvances(n);
      cycle := (cycle + 4) % WRAP32;
      NothingDue(apu.View(), cycle);
      if cycle % 0x10 == 0 {
        apu.UpdateClocks(cycle);
      }
      n := n + 1;
    }
    HaltedOrDone(insns, n);
  }

  lemma {:induction false} NotYetHalted(insns: seq<Insn>, n: nat)
    requires n < |insns| && n <= Executed(insns) && insns[n].Exec?
    ensures n < Executed(insns)
  {
  }

  lemma {:induction false} HaltedOrDone(insns: seq<Insn>, n: nat)
    requires n <= Executed(insns) && (n < |insns| ==> insns[n].Halt?)
    ensures n == Executed(insns)
  {
  }

  lemma ClockAdvances(n: nat)
    ensures (4 * n % WRAP32 + 4) % WRAP32 == 4 * (n + 1) % WRAP32
  {
  }

  lemma NothingDue(s: ApuState, cycle: u32)
    requires s.Valid()
    ensures cycle % 0x10 != 0 ==> Clocked(s, cycle) == s
  {
  }

  // ---- what has been issued ----

  /** The loop's test on the wrapped clock is a test on the number of instructions. */
  lemma ClockBits(n: nat, m: nat)
    requires m == 4 || m == 8 || m == 32
    ensures 4 * n % WRAP32 % (4 * m) == 0 <==> n % m == 0
  {
    WrapKeepsLowBits(4 * n, 4 * m);
    DivDiv(4 * n, 4, m);
  }

  lemma CoarserClocks(n: nat)
    ensures (n % 8 == 0 ==> n % 4 == 0) && (n % 32 == 0 ==> n % 8 == 0)
  {
    DivDiv(n, 4, 2);
    DivDiv(n, 8, 4);
  }

  /** What instruction n issues on a clock of 4 * d cycles. */
  function Due(n: nat, d: nat): (r: nat)
    requires d > 0
    ensures r <= 1
  {
    if (n + 1) % d == 0 then 1 else 0
  }

  lemma DueCounts(n: nat, d: nat)
    requires d > 0
    ensures (n + 1) / d == n / d + Due(n, d)
  {
    NextQuotient(n, d);
    DivUnique(n, d, n / d, n % d);
  }

  /** The instructions between two ticks of a timer. */
  function TickEvery(i: nat): (d: nat)
    ensures d > 0
  {
    if i == 2 then 4 else 32
  }

  ghost function TimerOf(s: ApuState, i: nat): (r: (Timer, u8))
    requires s.Valid() && i < 3
    ensures r.0.Valid()
  {
    (s.timers[i], s.sram[13 + i])
  }

  lemma TickedTimers(s: ApuState, i: nat, j: nat)
    requires s.Valid() && i < 3 && j < 3
    ensures TimerOf(Ticked(s, i), j) == if i == j then Tick(TimerOf(s, i).0, TimerOf(s, i).1) else TimerOf(s, j)
    ensures var r := Ticked(s, i); r.fast == s.fast && r.samples == s.samples && r.slow == s.slow
  {
    hide Tick;
  }

  /** The four clocks of instruction n issue what is due on them and nothing else. */
  lemma ClockIssues(s: ApuState, n: nat, i: nat)
    requires s.Valid() && i < 3
    ensures var r := Clocked(s, 4 * (n + 1) % WRAP32);
            && r.fast == s.fast + Due(n, 4) && r.samples == s.samples + Due(n, 8) && r.slow == s.slow + Due(n, 32)
            && TimerOf(r, i) == if Due(n, TickEvery(i)) == 1 then Tick(TimerOf(s, i).0, TimerOf(s, i).1) else TimerOf(s, i)
  {
    hide Tick, Ticked;
    ClockBits(n + 1, 4);
    ClockBits(n + 1, 8);
    ClockBits(n + 1, 32);
    CoarserClocks(n + 1);
    var f := Ticked(s, 2).(fast := s.fast + 1, samples := s.samples + Due(n, 8));
    TickedTimers(s, 2, i);
    TickedTimers(f, 0, i);
    TickedTimers(Ticked(f, 0), 1, i);
  }

  lemma AccessIssuesNothing(s: ApuState, a: Access)
    requires s.Valid() && a.reg < 16
    ensures var r := Accessed(s, a); r.fast == s.fast && r.samples == s.samples && r.slow == s.slow
  {
    hide CtrlStored;
    if a.Store? {
      CtrlStoreMeans(s.(sram := s.sram[a.reg := a.byte]), a.byte);
    }
  }

  lemma {:induction false} AccessesIssueNothing(s: ApuState, accesses: seq<Access>)
    requires s.Valid() && InRegisters(accesses)
    ensures var r := AllAccessed(s, accesses); r.fast == s.fast && r.samples == s.samples && r.slow == s.slow
    decreases |accesses|
  {
    hide Accessed;
    if accesses != [] {
      var n := |accesses| - 1;
      AccessesIssueNothing(s, accesses[..n]);
      AccessIssuesNothing(AllAccessed(s, accesses[..n]), accesses[n]);
    }
  }

  /** After n instructions exactly n/4 ticks of 64 kHz, n/8 samples and n/32 ticks of 8 kHz
      have been issued, however often the 32-bit clock has wrapped and whatever the
      instructions load and store. */
  lemma {:induction false} TicksIssued(s: ApuState, insns: seq<Insn>, n: nat)
    requires s.Valid() && AllInRegisters(insns) && n <= Executed(insns)
    ensures var r := After(s, insns, n);
            r.fast == s.fast + n / 4 && r.samples == s.samples + n / 8 && r.slow == s.slow + n / 32
    decreases n
  {
    hide Clocked, AllAccessed, Due, Executed;
    if n > 0 {
      TicksIssued(s, insns, n - 1);
      AccessesIssueNothing(After(s, insns, n - 1), insns[n - 1].accesses);
      ClockIssues(Within(s, insns, n - 1), n - 1, 0);
      DueCounts(n - 1, 4);
      DueCounts(n - 1, 8);
      DueCounts(n - 1, 32);
    }
  }

  // ---- timers left alone ----

  /** The accesses that reach timer i: stores into CTRL or into its output, and, for timer 0,
      loads of any of the three outputs. A store into its divider is not one of them. */
  predicate Touches(a: Access, i: nat)
  {
    match a
    case Store(reg, _) => reg == 1 || reg == 13 + i
    case Load(reg) => i == 0 && reg >= 13
  }

  predicate Untouched(accesses: seq<Access>, i: nat)
  {
    forall k :: 0 <= k < |accesses| ==> !Touches(accesses[k], i)
  }

  lemma {:induction false} UntouchedStays(s: ApuState, accesses: seq<Access>, i: nat)
    requires s.Valid() && InRegisters(accesses) && i < 3 && Untouched(accesses, i)
    ensures TimerOf(AllAccessed(s, accesses), i) == TimerOf(s, i)
    decreases |accesses|
  {
    hide CtrlStored;
    if accesses != [] {
      var n := |accesses| - 1;
      UntouchedStays(s, accesses[..n], i);
      assert !Touches(accesses[n], i);
    }
  }

  /** A timer that no instruction touches after instruction j, in a run of any length on a
      clock that may wrap, and with anything before: it has had exactly the ticks issued
      since, n/32 - j/32 for timers 0 and 1 and n/4 - j/4 for timer 2. */
  lemma {:induction false} UntouchedTimerTicks(s: ApuState, insns: seq<Insn>, j: nat, n: nat, i: nat)
    requires s.Valid() && AllInRegisters(insns) && j < n <= Executed(insns) && i < 3
    requires forall k :: j < k < n ==> Untouched(insns[k].accesses, i)
    ensures var d := if i == 2 then 4 else 32;
            var at := TimerOf(Within(s, insns, j), i);
            n / d >= j / d && TimerOf(After(s, insns, n), i) == Ticks(at.0, at.1, n / d - j / d)
    decreases n
  {
    hide Clocked, AllAccessed, TimerOf, Executed, Untouched, Tick, Ticks, Due;
    var d, at := TickEvery(i), TimerOf(Within(s, insns, j), i);
    var w := Within(s, insns, n - 1);
    ClockIssues(w, n - 1, i);
    DueCounts(n - 1, d);
    if n == j + 1 {
      TicksUnfold(at.0, at.1, 0);
      TicksUnfold(at.0, at.1, 1);
    } else {
      UntouchedTimerTicks(s, insns, j, n - 1, i);
      UntouchedStays(After(s, insns, n - 1), insns[n - 1].accesses, i);
      TicksUnfold(at.0, at.1, (n - 1) / d - j / d + 1);
    }
  }

  /** A byte stored into CTRL that enables timer 0 or 1: timer 1 has two bits. */
  predicate Enables(byte: u8, i: nat) { Bit(byte, i) || (i == 1 && Bit(byte, 2)) }

  /** A timer that the program itself enables, in the last of its accesses to the timer in
      instruction j, and then leaves alone: divider T, 0 meaning 256, and k ticks later the
      cycles are k mod T and the output is k/T mod 16. */
  lemma {:induction false} ProgramTimer(s: ApuState, insns: seq<Insn>, j: nat, n: nat, i: nat, p: nat)
    requires s.Valid() && AllInRegisters(insns) && j < n <= Executed(insns) && i < 2
    requires p < |insns[j].accesses| && insns[j].accesses[p].Store? && insns[j].accesses[p].reg == 1
    requires Enables(insns[j].accesses[p].byte, i)
    requires Untouched(insns[j].accesses[p + 1..], i)
    requires forall k :: j < k < n ==> Untouched(insns[k].accesses, i)
    ensures var div := AllAccessed(After(s, insns, j), insns[j].accesses[..p]).sram[10 + i];
            var t := if div == 0 then 0x100 else div as int;
            var k := n / 32 - j / 32;
            TimerOf(After(s, insns, n), i) == (Timer(k % t, t, true), k / t % 0x10)
  {
    hide After, AllAccessed, Ticks, Executed, Untouched, Enables, TimerOf;
    var acc, start := insns[j].accesses, After(s, insns, j);
    var before := AllAccessed(start, acc[..p]);
    var div := before.sram[T0DIV + i];
    EnabledHere(start, acc, i, p);
    UntouchedTimerTicks(s, insns, j, n, i);
    FreshTimerTicks(div, n / 32 - j / 32);
  }

  lemma {:induction false} AccessesSplit(s: ApuState, a: seq<Access>, b: seq<Access>)
    requires s.Valid() && InRegisters(a) && InRegisters(b)
    ensures InRegisters(a + b) && AllAccessed(s, a + b) == AllAccessed(AllAccessed(s, a), b)
    decreases |b|
  {
    hide Accessed;
    if b == [] {
      assert a + b == a;
    } else {
      var n := |b| - 1;
      AccessesSplit(s, a, b[..n]);
      assert (a + b)[..|a + b| - 1] == a + b[..n];
    }
  }

  lemma {:induction false} EnabledHere(s: ApuState, acc: seq<Access>, i: nat, p: nat)
    requires s.Valid() && InRegisters(acc) && i < 2 && p < |acc|
    requires acc[p].Store? && acc[p].reg == CTRL && Enables(acc[p].byte, i) && Untouched(acc[p + 1..], i)
    ensures var div := AllAccessed(s, acc[..p]).sram[T0DIV + i];
            TimerOf(AllAccessed(s, acc), i) == (TimerInit(div), 0)
  {
    hide CtrlStored, Bit, TimerInit, Untouched;
    var before := AllAccessed(s, acc[..p]);
    assert acc[..p + 1][..p] == acc[..p];
    CtrlStoreMeans(before.(sram := before.sram[CTRL := acc[p].byte]), acc[p].byte);
    assert acc == acc[..p + 1] + acc[p + 1..];
    AccessesSplit(s, acc[..p + 1], acc[p + 1..]);
    UntouchedStays(AllAccessed(s, acc[..p + 1]), acc[p + 1..], i);
  }

  // ---- timers polled ----

  /** What a load of timer i's output returns after the first p accesses of instruction j. */
  ghost function Polled(s: ApuState, insns: seq<Insn>, j: nat, p: nat, i: nat, dsp: u8 -> u8): u8
    requires s.Valid() && AllInRegisters(insns) && j < Executed(insns) && p <= |insns[j].accesses| && i < 3
  {
    LoadValue(AllAccessed(After(s, insns, j), insns[j].accesses[..p]), 13 + i, dsp)
  }

  lemma {:induction false} LoadedHere(s: ApuState, acc: seq<Access>, i: nat, p: nat)
    requires s.Valid() && InRegisters(acc) && i < 2 && p < |acc|
    requires acc[p] == Load(T0OUT + i) && Untouched(acc[p + 1..], i)
    ensures var at := TimerOf(AllAccessed(s, acc[..p]), i);
            TimerOf(AllAccessed(s, acc), i) == (at.0, if i == 0 then 0 else at.1)
  {
    hide Untouched;
    assert acc[..p + 1][..p] == acc[..p];
    assert acc == acc[..p + 1] + acc[p + 1..];
    AccessesSplit(s, acc[..p + 1], acc[p + 1..]);
    UntouchedStays(AllAccessed(s, acc[..p + 1]), acc[p + 1..], i);
  }

  lemma {:induction false} PolledIs(s: ApuState, insns: seq<Insn>, j: nat, p: nat, i: nat, dsp: u8 -> u8)
    requires s.Valid() && AllInRegisters(insns) && j < Executed(insns) && p <= |insns[j].accesses| && i < 3
    ensures Polled(s, insns, j, p, i, dsp) == TimerOf(AllAccessed(After(s, insns, j), insns[j].accesses[..p]), i).1
  {
    hide After, AllAccessed;
  }

  /** A running timer that the program polls in instruction j and again in instruction n, and
      otherwise does not touch in between. The second load of timer 0 returns the rounds
      completed since the first, modulo 16. Timer 1 is not cleared by being read: its second
      load returns what the first did and the rounds since, however often it was read
      between. */
  lemma {:induction false} PolledTwice(s: ApuState, insns: seq<Insn>, j: nat, n: nat, i: nat, p: nat, q: nat, dsp: u8 -> u8)
    requires s.Valid() && AllInRegisters(insns) && j < n < Executed(insns) && i < 2
    requires p < |insns[j].accesses| && insns[j].accesses[p] == Load(13 + i)
    requires q < |insns[n].accesses| && insns[n].accesses[q] == Load(13 + i)
    requires Untouched(insns[j].accesses[p + 1..], i) && Untouched(insns[n].accesses[..q], i)
    requires forall k :: j < k < n ==> Untouched(insns[k].accesses, i)
    requires AllAccessed(After(s, insns, j), insns[j].accesses[..p]).timers[i].enabled
    requires i == 1 ==> Polled(s, insns, j, p, 1, dsp) < 0x10
    ensures var t := AllAccessed(After(s, insns, j), insns[j].accesses[..p]).timers[i];
            var first, second := Polled(s, insns, j, p, i, dsp), Polled(s, insns, n, q, i, dsp);
            var rounds := Quot(t.cycles + (n / 32 - j / 32), t.target);
            second == (if i == 0 then rounds else first + rounds) % 0x10
  {
    hide After, AllAccessed, Ticks, Executed, Untouched, Polled, Quot, Rem;
    var at := AllAccessed(After(s, insns, j), insns[j].accesses[..p]);
    PolledIs(s, insns, j, p, i, dsp);
    PolledIs(s, insns, n, q, i, dsp);
    LoadedHere(After(s, insns, j), insns[j].accesses, i, p);
    UntouchedTimerTicks(s, insns, j, n, i);
    UntouchedStays(After(s, insns, n), insns[n].accesses[..q], i);
    TicksClosedForm(at.timers[i], if i == 0 then 0 else at.sram[T0OUT + i], n / 32 - j / 32);
  }

  // ---- timer 2 ----

  /** No program enables timer 2. */
  lemma {:induction false} Timer2NeverRuns(s: ApuState, insns: seq<Insn>, n: nat)
    requires s.Valid() && AllInRegisters(insns) && n <= Executed(insns) && !s.timers[2].enabled
    ensures !After(s, insns, n).timers[2].enabled
    decreases n
  {
    hide Clocked, AllAccessed, Executed;
    if n > 0 {
      Timer2NeverRuns(s, insns, n - 1);
      AccessesLeaveTimer2Off(After(s, insns, n - 1), insns[n - 1].accesses);
      var w := Within(s, insns, n - 1);
      ClockIssues(w, n - 1, 2);
    }
  }

  lemma {:induction false} AccessesLeaveTimer2Off(s: ApuState, accesses: seq<Access>)
    requires s.Valid() && InRegisters(accesses) && !s.timers[2].enabled
    ensures !AllAccessed(s, accesses).timers[2].enabled
    decreases |accesses|
  {
    hide Stored;
    if accesses != [] {
      var n := |accesses| - 1;
      AccessesLeaveTimer2Off(s, accesses[..n]);
      if accesses[n].Store? {
        Timer2StaysOff(AllAccessed(s, accesses[..n]), accesses[n].reg, accesses[n].byte);
      }
    }
  }
}

/** The sound processor's own registers, its timers and its clock divider (src/apu.c).
    Module RunLoop drives them. */
module Clocks {
  import opened Bits

  // ---- one timer ----

  datatype Timer = Timer(cycles: u16, target: u16, enabled: bool) {
    ghost predicate Valid() { enabled ==> cycles < target <= 0x100 }
  }

  /** A divider of 0 means 256. */
  function TimerInit(div: u8): Timer { Timer(0, if div != 0 then div else 0x100, true) }

  /** One tick: the timer and its four-bit output. */
  function Tick(t: Timer, out: u8): (r: (Timer, u8))
    requires t.Valid()
    ensures r.0.Valid()
  {
    if !t.enabled then (t, out)
    else if t.cycles + 1 >= t.target then (t.(cycles := 0), (out + 1) % 0x10)
    else (t.(cycles := t.cycles + 1), out)
  }

  function Ticks(t: Timer, out: u8, k: nat): (r: (Timer, u8))
    requires t.Valid()
    ensures r.0.Valid() && r.0.enabled == t.enabled && r.0.target == t.target
  {
    if k == 0 then (t, out) else var s := Ticks(t, out, k - 1); Tick(s.0, s.1)
  }

  /** k ticks that complete q rounds and leave r cycles. */
  lemma {:induction false} TicksCount(t: Timer, out: u8, k: nat, q: nat, r: nat)
    requires t.Valid() && t.enabled && out < 0x10
    requires t.cycles + k == t.target * q + r && r < t.target
    ensures Ticks(t, out, k) == (t.(cycles := r), (out + q) % 0x10)
    decreases k
  {
    hide Tick;
    TicksUnfold(t, out, k);
    hide Ticks;
    if k == 0 {
      SmallMultiple(t.target, q);
    } else if r > 0 {
      TicksCount(t, out, k - 1, q, r - 1);
      RunningTick(t.(cycles := r - 1), (out + q) % 0x10);
    } else {
      RoundBefore(t.target, q, t.cycles + k);
      TicksCount(t, out, k - 1, q - 1, t.target - 1);
      RunningTick(t.(cycles := t.target - 1), (out + (q - 1)) % 0x10);
      NextNibble(out + q - 1);
    }
  }

  lemma RoundBefore(d: nat, q: nat, x: nat)
    requires d > 0 && x == d * q && x > 0
    ensures q > 0 && x - 1 == d * (q - 1) + (d - 1)
  {
    MulDistributes(d, q, 1);
  }

  lemma {:induction false} TicksUnfold(t: Timer, out: u8, k: nat)
    requires t.Valid()
    ensures Ticks(t, out, k) == if k == 0 then (t, out) else Tick(Ticks(t, out, k - 1).0, Ticks(t, out, k - 1).1)
  {
    hide Tick;
  }

  lemma RunningTick(t: Timer, out: u8)
    requires t.Valid() && t.enabled
    ensures Tick(t, out) == if t.cycles + 1 >= t.target then (t.(cycles := 0), (out + 1) % 0x10)
                            else (t.(cycles := t.cycles + 1), out)
  {
  }

  lemma NextNibble(x: nat)
    ensures (x % 0x10 + 1) % 0x10 == (x + 1) % 0x10
  {
  }

  /** k ticks of a running timer, wherever it stands: the ticks are neither lost nor counted
      twice, and the output counts the completed rounds modulo 16. */
  lemma {:induction false} TicksClosedForm(t: Timer, out: u8, k: nat)
    requires t.Valid() && t.enabled && out < 0x10
    ensures Ticks(t, out, k).0.cycles == Rem(t.cycles + k, t.target)
    ensures Ticks(t, out, k).1 == (out + Quot(t.cycles + k, t.target)) % 0x10
  {
    hide Ticks, Rem, Quot;
    var x := t.cycles + k;
    Division(x, t.target);
    TicksCount(t, out, k, Quot(x, t.target), Rem(x, t.target));
  }

  /** A timer enabled with divider div and left alone for k ticks. */
  lemma {:induction false} FreshTimerTicks(div: u8, k: nat)
    ensures var t := TimerInit(div);
            var target := if div == 0 then 0x100 else div as int;
            && Ticks(t, 0, k).0.cycles == k % target
            && Ticks(t, 0, k).1 == k / target % 0x10
  {
    hide Ticks;
    TicksClosedForm(TimerInit(div), 0, k);
  }

  // ---- the registers as a value ----

  const CTRL: nat := 1
  const DSP_ADDR: nat := 2
  const DSP_DATA: nat := 3
  const IO0: nat := 4
  const T0DIV: nat := 10
  const T0OUT: nat := 13

  /** The sixteen registers, the timers, the latches of the four I/O ports, the stores passed
      on to the sample engine, whether the boot ROM is asked for, and what has been issued
      so far: 64 kHz ticks, samples and 8 kHz ticks. */
  datatype ApuState = ApuState(
    sram: seq<u8>, timers: seq<Timer>, ioIn: seq<u8>, ioOut: seq<u8>, dspStores: seq<(u8, u8)>, rom: bool,
    fast: nat, samples: nat, slow: nat)
  {
    ghost predicate Valid()
    {
      && |sram| == 16 && |timers| == 3 && |ioIn| == 4 && |ioOut| == 4
      && timers[0].Valid() && timers[1].Valid() && timers[2].Valid()
    }
  }

  /** timer_enable and timer_disable. */
  ghost function Switched(s: ApuState, i: nat, on: bool): (r: ApuState)
    requires s.Valid() && i < 3
    ensures r.Valid()
  {
    if on then s.(timers := s.timers[i := TimerInit(s.sram[T0DIV + i])], sram := s.sram[T0OUT + i := 0])
    else s.(timers := s.timers[i := s.timers[i].(enabled := false)])
  }

  /** Two of the I/O ports read as 0. */
  ghost function PortsCleared(s: ApuState, first: nat, on: bool): (r: ApuState)
    requires s.Valid() && (first == IO0 || first == IO0 + 2)
    ensures r.Valid()
  {
    if on then s.(sram := s.sram[first := 0][first + 1 := 0]) else s
  }

  /** The timer bits of CTRL. Bit 2 enables timer 1 a second time; only its absence is about
      timer 2. */
  ghost function TimersSwitched(s: ApuState, byte: u8): (r: ApuState)
    requires s.Valid()
    ensures r.Valid()
  {
    var t := Switched(Switched(s, 0, Bit(byte, 0)), 1, Bit(byte, 1));
    Switched(t, if Bit(byte, 2) then 1 else 2, Bit(byte, 2))
  }

  /** apu_ctrl_store. */
  ghost function CtrlStored(s: ApuState, byte: u8): (r: ApuState)
    requires s.Valid()
    ensures r.Valid()
  {
    var u := TimersSwitched(s, byte);
    PortsCleared(PortsCleared(u, IO0, Bit(byte, 4)), IO0 + 2, Bit(byte, 5)).(rom := Bit(byte, 7))
  }

  /** A store of the processor into one of the registers. */
  ghost function Stored(s: ApuState, reg: nat, byte: u8): (r: ApuState)
    requires s.Valid() && reg < 16
    ensures r.Valid()
  {
    var kept := s.(sram := s.sram[reg := byte]);
    if reg == CTRL then CtrlStored(kept, byte)
    else if reg == DSP_DATA then kept.(dspStores := s.dspStores + [(s.sram[DSP_ADDR], byte)])
    else if IO0 <= reg < IO0 + 4 then kept.(ioOut := s.ioOut[reg - IO0 := byte])
    else kept
  }

  /** A load. The offset that was to select the output cleared is always 0. */
  ghost function Loaded(s: ApuState, reg: nat): (r: ApuState)
    requires s.Valid() && reg < 16
    ensures r.Valid()
  {
    if reg >= T0OUT then s.(sram := s.sram[T0OUT := 0]) else s
  }

  /** What the load returns; dsp is what the sample engine's registers hold. */
  ghost function LoadValue(s: ApuState, reg: nat, dsp: u8 -> u8): u8
    requires s.Valid() && reg < 16
  {
    if reg == DSP_DATA then dsp(s.sram[DSP_ADDR])
    else if IO0 <= reg < IO0 + 4 then s.ioIn[reg - IO0]
    else s.sram[reg]
  }

  ghost function Ticked(s: ApuState, i: nat): (r: ApuState)
    requires s.Valid() && i < 3
    ensures r.Valid()
  {
    var t := Tick(s.timers[i], s.sram[T0OUT + i]);
    s.(timers := s.timers[i := t.0], sram := s.sram[T0OUT + i := t.1])
  }

  /** The clock reaches `cycle`: timer 2 ticks on every sixteenth, a sample is due on every
      second of those, and timers 0 and 1 tick on every eighth. */
  ghost function Clocked(s: ApuState, cycle: u32): (r: ApuState)
    requires s.Valid()
    ensures r.Valid()
  {
    if cycle % 0x10 != 0 then s
    else
      var f := Ticked(s, 2).(fast := s.fast + 1, samples := s.samples + (if cycle % 0x20 == 0 then 1 else 0));
      if cycle % 0x80 != 0 then f else Ticked(Ticked(f, 0), 1).(slow := s.slow + 1)
  }

  // ---- what the registers promise ----

  /** After a CTRL store timers 0 and 1 have been restarted, running or not, or stopped;
      timer 2 may only have been stopped; the ports are cleared in pairs; every other
      register is as it was. */
  lemma CtrlStoreMeans(s: ApuState, byte: u8)
    requires s.Valid()
    ensures var r := CtrlStored(s, byte);
            var on0, on1 := Bit(byte, 0), Bit(byte, 1) || Bit(byte, 2);
            && r.timers == [if on0 then TimerInit(s.sram[10]) else s.timers[0].(enabled := false),
                            if on1 then TimerInit(s.sram[11]) else s.timers[1].(enabled := false),
                            if Bit(byte, 2) then s.timers[2] else s.timers[2].(enabled := false)]
            && (forall k :: 0 <= k < 16 ==>
                  r.sram[k] == if (k == 13 && on0) || (k == 14 && on1)
                                  || ((k == 4 || k == 5) && Bit(byte, 4)) || ((k == 6 || k == 7) && Bit(byte, 5)) then 0
                               else s.sram[k])
            && r.rom == Bit(byte, 7)
            && r == s.(timers := r.timers, sram := r.sram, rom := r.rom)
  {
    hide Bit, TimerInit, TimersSwitched;
    TimersMean(s, byte);
  }

  lemma TimersMean(s: ApuState, byte: u8)
    requires s.Valid()
    ensures var r := TimersSwitched(s, byte);
            var on0, on1 := Bit(byte, 0), Bit(byte, 1) || Bit(byte, 2);
            && r.timers == [if on0 then TimerInit(s.sram[10]) else s.timers[0].(enabled := false),
                            if on1 then TimerInit(s.sram[11]) else s.timers[1].(enabled := false),
                            if Bit(byte, 2) then s.timers[2] else s.timers[2].(enabled := false)]
            && (forall k :: 0 <= k < 16 ==>
                  r.sram[k] == if (k == 13 && on0) || (k == 14 && on1) then 0 else s.sram[k])
            && r == s.(timers := r.timers, sram := r.sram)
  {
    hide Bit, TimerInit;
  }

  /** No store enables timer 2. */
  lemma Timer2StaysOff(s: ApuState, reg: nat, byte: u8)
    requires s.Valid() && reg < 16 && !s.timers[2].enabled
    ensures !Stored(s, reg, byte).timers[2].enabled
  {
    hide CtrlStored;
    var kept := s.(sram := s.sram[reg := byte]);
    CtrlStoreMeans(kept, byte);
  }

  /** Loading a timer's output clears it if and only if the timer is timer 0, or the output
      was 0; loading any of the three clears timer 0's. */
  lemma OutputLoadsHitTimer0(s: ApuState, i: nat)
    requires s.Valid() && i < 3
    ensures Loaded(s, 13 + i).sram[13 + i] == 0 <==> i == 0 || s.sram[13 + i] == 0
    ensures Loaded(s, 13 + i) == s.(sram := s.sram[13 := 0])
  {
  }

  /** The I/O ports, registers 4 to 7, go two ways: a store reaches the latch that the other
      side reads and no other, and a load returns what the other side has latched, whatever
      was stored. Register 3 is a window on the sample engine: a store passes on the address
      in register 2 and the byte, a load returns what stands there. Any other register but
      CTRL is only memory. */
  lemma PortsInNumbers(s: ApuState, reg: nat, byte: u8, p: nat, dsp: u8 -> u8)
    requires s.Valid() && reg < 16 && p < 4
    ensures var r := Stored(s, reg, byte);
            && r.ioIn == s.ioIn && LoadValue(r, 4 + p, dsp) == s.ioIn[p]
            && r.ioOut[p] == (if reg == 4 + p then byte else s.ioOut[p])
            && r.dspStores == (if reg == 3 then s.dspStores + [(s.sram[2], byte)] else s.dspStores)
            && r.sram[reg] == byte
            && (reg != 1 ==> r.sram == s.sram[reg := byte] && r.timers == s.timers && r.rom == s.rom)
    ensures LoadValue(s, 3, dsp) == dsp(s.sram[2])
    ensures reg != 3 && (reg < 4 || reg > 7) ==> LoadValue(s, reg, dsp) == s.sram[reg]
    ensures reg < 13 ==> Loaded(s, reg) == s
  {
    hide CtrlStored;
    CtrlStoreMeans(s.(sram := s.sram[reg := byte]), byte);
  }

  // ---- the registers in place ----

  class Apu {
    const sram: array<u8>
    const timers: array<Timer>
    const ioIn: array<u8>
    const ioOut: array<u8>
    var dspStores: seq<(u8, u8)>
    var rom: bool
    /** Sound samples made so far. */
    var samples: nat
    ghost var fast: nat
    ghost var slow: nat

    ghost function View(): ApuState
      reads this, sram, timers, ioIn, ioOut
    {
      ApuState(sram[..], timers[..], ioIn[..], ioOut[..], dspStores, rom, fast, samples, slow)
    }

    ghost predicate Valid()
      reads this, sram, timers, ioIn, ioOut
    {
      View().Valid() && sram != ioIn && sram != ioOut && ioIn != ioOut
    }

    constructor ()
      ensures Valid() && fresh(sram) && fresh(timers) && fresh(ioIn) && fresh(ioOut)
      ensures View() == ApuState(seq(16, _ => 0), seq(3, _ => Timer(0, 0, false)), seq(4, _ => 0), seq(4, _ => 0),
                                 [], false, 0, 0, 0)
    {
      sram := new u8[16](_ => 0);
      timers := new Timer[3](_ => Timer(0, 0, false));
      ioIn := new u8[4](_ => 0);
      ioOut := new u8[4](_ => 0);
      dspStores, rom := [], false;
      samples, fast, slow := 0, 0, 0;
      new;
      assert sram[..] == seq(16, _ => 0) && timers[..] == seq(3, _ => Timer(0, 0, false));
      assert ioIn[..] == seq(4, _ => 0) && ioOut[..] == seq(4, _ => 0);
    }

    method TimerEnable(index: nat)
      requires Valid() && index < 3
      modifies sram, timers
      ensures Valid() && View() == Switched(old(View()), index, true)
    {
      var div := sram[T0DIV + index];
      timers[index] := TimerInit(div);
      sram[T0OUT + index] := 0;
    }

    method TimerDisable(index: nat)
      requires Valid() && index < 3
      modifies timers
      ensures Valid() && View() == Switched(old(View()), index, false)
    {
      timers[index] := timers[index].(enabled := false);
    }

    method ClearPorts(first: nat)
      requires Valid() && (first == IO0 || first == IO0 + 2)
      modifies sram
      ensures Valid() && View() == PortsCleared(old(View()), first, true)
    {
      sram[first] := 0;
      sram[first + 1] := 0;
    }

    /** What one control bit does to a timer. */
    method TimerSwitch(index: nat, on: bool)
      requires Valid() && index < 3
      modifies sram, timers
      ensures Valid() && View() == Switched(old(View()), index, on)
    {
      hide Switched;
      if on {
        TimerEnable(index);
      } else {
        TimerDisable(index);
      }
    }

    method CtrlStore(byte: u8)
      requires Valid()
      modifies this`rom, sram, timers
      ensures Valid() && View() == CtrlStored(old(View()), byte)
    {
      hide Bit, Switched, PortsCleared;
      TimerSwitch(0, Bit(byte, 0));
      TimerSwitch(1, Bit(byte, 1));
      TimerSwitch(if Bit(byte, 2) then 1 else 2, Bit(byte, 2));
      CtrlPorts(byte);
      rom := Bit(byte, 7);
    }

    method CtrlPorts(byte: u8)
      requires Valid()
      modifies sram
      ensures Valid()
      ensures View() == PortsCleared(PortsCleared(old(View()), IO0, Bit(byte, 4)), IO0 + 2, Bit(byte, 5))
    {
      hide Bit;
      if Bit(byte, 4) {
        ClearPorts(IO0);
      }
      if Bit(byte, 5) {
        ClearPorts(IO0 + 2);
      }
    }

    method MmioStore(reg: nat, byte: u8)
      requires Valid() && reg < 16
      modifies this`rom, this`dspStores, sram, timers, ioOut
      ensures Valid() && View() == Stored(old(View()), reg, byte)
    {
      hide CtrlStored;
      sram[reg] := byte;
      if reg == CTRL {
        CtrlStore(byte);
      } else if reg == DSP_DATA {
        dspStores := dspStores + [(sram[DSP_ADDR], byte)];
      } else if IO0 <= reg < IO0 + 4 {
        ioOut[reg - IO0] := byte;
      }
    }

    method MmioLoad(reg: nat, dsp: u8 -> u8) returns (byte: u8)
      requires Valid() && reg < 16
      modifies sram
      ensures Valid() && View() == Loaded(old(View()), reg)
      ensures byte == LoadValue(old(View()), reg, dsp)
    {
      byte := sram[reg];
      if reg == DSP_DATA {
        return dsp(sram[DSP_ADDR]);
      } else if IO0 <= reg < IO0 + 4 {
        return ioIn[reg - IO0];
      } else if reg >= T0OUT {
        sram[T0OUT] := 0;
      }
    }

    method DoTimerTick(index: nat)
      requires Valid() && index < 3
      modifies sram, timers
      ensures Valid() && View() == Ticked(old(View()), index)
    {
      hide Tick;
      var t := timers[index];
      OneTick(t, sram[T0OUT + index]);
      if !t.enabled {
        assert sram[..] == sram[..][T0OUT + index := sram[T0OUT + index]];
        return;
      }
      timers[index] := t.(cycles := t.cycles + 1);
      if timers[index].cycles >= t.target {
        timers[index] := timers[index].(cycles := 0);
        sram[T0OUT + index] := (sram[T0OUT + index] as int + 1) % 0x100;
        sram[T0OUT + index] := sram[T0OUT + index] % 0x10;
      }
    }

    /** Called on every sixteenth clock. */
    method UpdateClocks(cycle: u32)
      requires Valid() && cycle % 0x10 == 0
      modifies this`samples, this`fast, this`slow, sram, timers
      ensures Valid() && View() == Clocked(old(View()), cycle)
    {
      hide Ticked;
      DoTimerTick(2);
      fast := fast + 1;
      if cycle % 0x20 == 0 {
        samples := samples + 1;
      }
      if cycle % 0x80 == 0 {
        DoTimerTick(0);
        DoTimerTick(1);
        slow := slow + 1;
      }
    }
  }

  lemma NibbleOfByte(x: nat)
    ensures x % 0x100 % 0x10 == x % 0x10
  {
    assert x == 0x100 * (x / 0x100) + x % 0x100;
    ModAdd(x % 0x100, 0x10, 0x10 * (x / 0x100));
  }

  /** A tick with the output's byte wrapped before it is cut to four bits. */
  lemma OneTick(t: Timer, out: u8)
    requires t.Valid()
    ensures Tick(t, out) == if !t.enabled then (t, out)
                            else if t.cycles + 1 >= t.target then (t.(cycles := 0), (out as int + 1) % 0x100 % 0x10)
                            else (t.(cycles := t.cycles + 1), out)
  {
    NibbleOfByte(out + 1);
  }
}

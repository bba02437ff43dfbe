/** The sample engine as the emulator keeps it: register file, ARAM, eight voice records,
    counters and echo fields, all updated in place (src/dsp.c). Every method is proved
    against the functions of module Chip. */
module DspUnit {
  import opened Bits
  import opened Aram
  import opened Counters
  import opened Envelope
  import V = Voices
  import opened VoiceUnit
  import opened Echo
  import opened Chip

  /** No two records are the same, and no two share a ring. */
  ghost predicate Distinct(vs: seq<Voice>)
  {
    forall i, j :: 0 <= i < j < |vs| ==> vs[i] != vs[j] && vs[i].buf != vs[j].buf
  }

  /** The static array of eight voice records. */
  method NewVoices() returns (vs: seq<Voice>)
    ensures |vs| == CHANNELS && fresh(vs)
    ensures forall i :: 0 <= i < |vs| ==> fresh(vs[i].buf) && vs[i].View() == V.ZeroVoice()
    ensures Distinct(vs)
  {
    vs := [];
    for k := 0 to CHANNELS
      invariant |vs| == k && fresh(vs)
      invariant forall i :: 0 <= i < |vs| ==> fresh(vs[i].buf) && vs[i].View() == V.ZeroVoice()
      invariant Distinct(vs)
    {
      var v := new Voice();
      vs := vs + [v];
    }
  }

  class Dsp {
    const regs: array<u8>
    const aram: array<u8>
    const gauss: seq<s16>
    const voices: seq<Voice>
    const counters: RateCounters
    var toggle: bool
    var kon: u8
    var koff: u8
    var eon: u8
    var esa: u8
    var echoEnabled: bool
    var echoOffset: u16
    var echoLength: u16
    var echoPtr: u16
    const echoHist: array<Sample>
    var echoHistPos: u8

    ghost function EchoView(): EState
      reads this, echoHist
    {
      EState(esa, echoEnabled, echoOffset, echoLength, echoPtr, echoHist[..], echoHistPos)
    }

    ghost function VoiceViews(): (r: seq<V.VState>)
      reads voices, set v | v in voices :: v.buf
      ensures |r| == |voices| && forall j :: 0 <= j < |voices| ==> r[j] == voices[j].View()
    {
      seq(|voices|, j requires 0 <= j < |voices| reads voices, set v | v in voices :: v.buf => voices[j].View())
    }

    /** The whole state as a value. */
    ghost function View(): State
      reads this, regs, aram, echoHist, counters, voices, set v | v in voices :: v.buf
    {
      State(regs[..], aram[..], gauss, VoiceViews(), counters.runs, toggle, kon, koff, eon, EchoView())
    }

    /** Fixed sizes, and no two of the arrays and records are the same. */
    ghost predicate Shaped()
      reads this, counters
    {
      && regs.Length == REGISTERS && aram.Length == ARAM_SIZE + SPILL && |gauss| == 512
      && |voices| == CHANNELS && echoHist.Length == TAPS
      && regs != aram && regs != counters.internal && aram != counters.internal
      && Distinct(voices)
    }

    ghost predicate Valid()
      reads this, regs, aram, echoHist, voices, set v | v in voices :: v.buf
      reads counters, counters.internal, counters.out
    {
      Shaped() && counters.Valid() && CInv(View())
    }

    /** Start-up: everything zero, the registers restored from a saved file (all zero after
        a plain reset). The ARAM belongs to the processor. */
    constructor (saved: seq<u8>, aram: array<u8>, gauss: seq<s16>)
      requires |saved| == REGISTERS && aram.Length == ARAM_SIZE + SPILL && |gauss| == 512
      ensures Valid() && View() == Chip.Reset(saved, aram[..], gauss)
      ensures this.aram == aram
    {
      hide CInv, VoiceViews, V.Inv, V.ZeroVoice, InternalAfter, OutAfter, Distinct;
      this.aram, this.gauss := aram, gauss;
      regs := new u8[REGISTERS](i requires 0 <= i < |saved| => saved[i]);
      var records := NewVoices();
      voices := records;
      counters := new RateCounters();
      toggle, kon, koff, eon, esa := false, 0, 0, 0, 0;
      echoEnabled, echoOffset, echoLength, echoPtr, echoHistPos := false, 0, 0, 0, 0;
      echoHist := new Sample[TAPS](_ => Sample(0, 0));
      new;
      assert regs[..] == saved;
      assert echoHist[..] == seq(TAPS, _ => Sample(0, 0));
      assert VoiceViews() == seq(CHANNELS, _ => V.ZeroVoice());
      assert View() == Chip.Reset(saved, aram[..], gauss);
    }

    /** OUTX, ENVX and the voice's bit of ENDX. */
    method ShowVoice(i: nat, t: V.Tone, ended: bool, keyed: bool, ghost o: V.VOut)
      requires regs.Length == REGISTERS && i < CHANNELS
      requires o == V.VOut(o.left, o.right, t.outx, t.envx, ended, keyed)
      modifies regs
      ensures regs[..] == Show(old(regs[..]), i, o)
    {
      regs[16 * i + 9] := t.outx;
      regs[16 * i + 8] := t.envx;
      if ended {
        regs[REG_ENDX] := ByteWithBit(regs[REG_ENDX], i, true);
      }
      if keyed {
        regs[REG_ENDX] := ByteWithBit(regs[REG_ENDX], i, false);
      }
    }

    /** One sample of the record of voice i. */
    method StepVoice(i: nat) returns (t: V.Tone, left: s16, right: s16, ended: bool, keyed: bool)
      requires Valid() && i < CHANNELS
      modifies voices[i], voices[i].buf
      ensures var c := old(View());
              && View() == c.(vs := c.vs[i := V.VoiceStep(c.vs[i], VoiceInput(c, i))])
              && V.VOut(left, right, t.outx, t.envx, ended, keyed) == V.VoiceOut(c.vs[i], VoiceInput(c, i))
    {
      hide VoiceInput, V.VoiceStep, V.VoiceOut, V.Inv, CInv, Bit, S8;
      var b := 16 * i;
      ghost var c := View();
      ghost var x := VoiceInput(c, i);
      VoiceReads(c, i);
      var pitchReg := regs[b + 2] + regs[b + 3] as int * 0x100;
      var shape := Shape(regs[b + 5], regs[b + 6], regs[b + 7]);
      var noise, reset := Bit(regs[REG_NON], i), regs[REG_FLG] >= 0x80;
      var keyOff, keyOn := Bit(koff, i), Bit(kon, i);
      t, left, right, ended, keyed := voices[i].Run(aram, gauss, counters, regs[REG_DIR], regs[b + 4], pitchReg, shape,
        noise, reset, !toggle, keyOff, keyOn, S8(regs[b]), S8(regs[b + 1]), x);
      assert VoiceViews() == c.vs[i := V.VoiceStep(c.vs[i], x)];
    }

    /** Voice i for one sample. */
    method VoiceRun(i: nat) returns (out: Sample)
      requires Valid() && i < CHANNELS
      modifies regs, voices[i], voices[i].buf
      ensures Valid()
      ensures View() == OneVoice(old(View()), SILENCE, i).0
      ensures out == VoiceSample(old(View()), i)
    {
      hide V.VoiceStep, V.VoiceOut, VoiceInput, CInv, Show, OneVoice, V.Inv, VoiceSample, VoiceViews;
      ghost var c := View();
      ghost var o := OneVoiceIs(c, i);
      var t, left, right, ended, keyed := StepVoice(i);
      ghost var mid := View();
      ShowVoice(i, t, ended, keyed, o);
      assert View() == mid.(regs := regs[..]);
      out := Sample(left, right);
    }

    // ---- the echo unit ----

    /** One tap more (`sample_accumulate` of `calc_fir`); w is the window that the taps of
        this sample are meant to read. */
    method AddTap(i: nat, l: int, r: int, ghost w: seq<Sample>) returns (left: int, right: int)
      requires regs.Length == REGISTERS && echoHist.Length == TAPS && i < TAPS && echoHistPos < TAPS
      requires |w| == TAPS && echoHist[Place(echoHistPos, i + 1)] == w[i]
      requires (l, r) == Convolve(w, Coefficients(regs[..]), i)
      ensures (left, right) == Convolve(w, Coefficients(regs[..]), i + 1)
    {
      var coeff := S8(regs[16 * i + 15]);
      var s := echoHist[Place(echoHistPos, i + 1)];
      left, right := l + FirTerm(s.left, coeff), r + FirTerm(s.right, coeff);
    }

    /** Cycles 22 and 23: the left input enters the history and three taps are taken, the
        right input not being there yet. e is the state before the sample, tap what the
        pointer shows. */
    method FirHead(ghost e: EState, ghost tap: Sample) returns (l: int, r: int)
      requires Shaped() && EInv(e) && e == EchoView() && tap == Tapped(e, aram[..])
      modifies this`echoPtr, this`echoHistPos, echoHist
      ensures var p := Push(e, tap);
              && EchoView() == p.(ptr := EchoPtr(e), hist := p.hist[p.histPos := Sample(tap.left / 2, e.hist[p.histPos].right)])
              && (l, r) == Convolve(HistWindow(p), Coefficients(regs[..]), 3)
    {
      hide FirTerm, Convolve, HistWindow, S16, Word, Coefficients, Push, Tapped, EchoPtr, Place, Halved;
      ghost var p := Push(e, tap);
      ghost var win := HistWindow(p);
      PushAndTap(e, aram[..]);
      NoTermsYet(win, Coefficients(regs[..]));
      if echoHistPos + 1 >= TAPS {
        echoHistPos := 0;
      } else {
        echoHistPos := echoHistPos + 1;
      }
      echoPtr := Wrap16(esa * 0x100 + echoOffset);
      var w := Voice.ReadWord(aram, echoPtr);
      echoHist[echoHistPos] := echoHist[echoHistPos].(left := S16(w) / 2);
      assert echoHist[..] == e.hist[p.histPos := Sample(tap.left / 2, e.hist[p.histPos].right)];
      PushedTap(e, tap, 0);
      l, r := AddTap(0, 0, 0, win);
      PushedTap(e, tap, 1);
      l, r := AddTap(1, l, r, win);
      PushedTap(e, tap, 2);
      l, r := AddTap(2, l, r, win);
    }

    /** Cycles 23 to 25: the right input enters the history and the other taps are taken. */
    method FirTail(l0: int, r0: int, ghost e: EState, ghost tap: Sample) returns (l: int, r: int)
      requires Shaped() && EInv(e) && tap == Tapped(e, aram[..])
      requires var p := Push(e, tap);
               && EchoView() == p.(ptr := EchoPtr(e), hist := p.hist[p.histPos := Sample(tap.left / 2, e.hist[p.histPos].right)])
               && (l0, r0) == Convolve(HistWindow(p), Coefficients(regs[..]), 3)
      modifies echoHist
      ensures EchoView() == Push(e, tap).(ptr := EchoPtr(e))
      ensures (l, r) == Convolve(HistWindow(Push(e, tap)), Coefficients(regs[..]), TAPS)
    {
      hide FirTerm, Convolve, HistWindow, S16, Word, Coefficients, Push, Tapped, EchoPtr, Place, Halved;
      ghost var p := Push(e, tap);
      ghost var win := HistWindow(p);
      PushAndTap(e, aram[..]);
      HalvedIs(tap);
      var w := Voice.ReadWord(aram, Wrap16(echoPtr + 2));
      echoHist[echoHistPos] := echoHist[echoHistPos].(right := S16(w) / 2);
      assert echoHist[..] == p.hist;
      PushedTap(e, tap, 3);
      l, r := AddTap(3, l0, r0, win);
      PushedTap(e, tap, 4);
      l, r := AddTap(4, l, r, win);
      PushedTap(e, tap, 5);
      l, r := AddTap(5, l, r, win);
      PushedTap(e, tap, 6);
      l, r := AddTap(6, l, r, win);
      PushedTap(e, tap, 7);
      l, r := AddTap(7, l, r, win);
    }

    /** Reads the delay line into the history and filters it. */
    method RunFir() returns (echo: Sample)
      requires Shaped() && EInv(EchoView())
      modifies this`echoPtr, this`echoHistPos, echoHist
      ensures EchoView() == Push(old(EchoView()), Tapped(old(EchoView()), aram[..])).(ptr := EchoPtr(old(EchoView())))
      ensures echo == Filtered(HistWindow(Push(old(EchoView()), Tapped(old(EchoView()), aram[..]))), Coefficients(regs[..]))
    {
      hide Convolve, HistWindow, EvenClamp, Coefficients, Push, Tapped, EchoPtr, Filtered;
      ghost var e := EchoView();
      ghost var tap := Tapped(e, aram[..]);
      var l, r := FirHead(e, tap);
      l, r := FirTail(l, r, e, tap);
      FilteredIs(HistWindow(Push(e, tap)), Coefficients(regs[..]));
      echo := Sample(EvenClamp(l), EvenClamp(r));
    }

    method WriteWord(a: u16, val: u16)
      requires aram.Length == ARAM_SIZE + SPILL
      modifies aram
      ensures aram[..] == WithWord(old(aram[..]), a, val)
    {
      aram[Wrap16(a + 1)] := val / 0x100;
      aram[a] := val % 0x100;
    }

    /** Cycles 28 to 30: the settings are latched, the pointer moves on and the feedback is
        written where the tap was read. e and x are the state before the sample and what
        the echo unit reads in it. */
    method WriteEcho(f: Sample, ghost e: EState, ghost x: EIn)
      requires Shaped() && EInv(e) && x.Valid() && EchoView() == Push(e, Tapped(e, aram[..])).(ptr := EchoPtr(e))
      requires x.esa == regs[REG_ESA] && x.edl == regs[REG_EDL] && x.disabled == Bit(regs[REG_FLG], 5)
      requires f == Feedback(e, aram[..], x)
      modifies this`eon, this`echoEnabled, this`esa, this`echoLength, this`echoOffset, aram
      ensures EchoView() == EchoStep(e, old(aram[..]), x)
      ensures aram[..] == EchoMemory(e, old(aram[..]), x)
      ensures eon == regs[REG_EON]
    {
      hide Tapped, Feedback, WithWord, Bit, HistWindow;
      eon := regs[REG_EON];
      echoEnabled := !Bit(regs[REG_FLG], 5);
      esa := regs[REG_ESA];
      if echoOffset == 0 {
        echoLength := (regs[REG_EDL] % 16) as int * 0x800;
      }
      echoOffset := echoOffset + 4;
      if echoOffset >= echoLength {
        echoOffset := 0;
      }
      if echoEnabled {
        WriteWord(echoPtr, U16(f.left));
      }
      echoEnabled := !Bit(regs[REG_FLG], 5);
      if echoEnabled {
        WriteWord(Wrap16(echoPtr + 2), U16(f.right));
      }
    }

    /** KON and KOFF are polled every other sample, and the rate counters run. */
    method RunLatch()
      requires Valid()
      modifies this`toggle, this`kon, this`koff, counters, counters.internal, counters.out
      ensures Valid() && View() == Latch(old(View()))
    {
      hide CInv, VoiceViews, ByteAndNot;
      ghost var c := View();
      toggle := !toggle;
      if !toggle {
        kon := ByteAndNot(regs[REG_KON], kon);
        koff := regs[REG_KOFF];
      }
      counters.Run();
      assert View() == Latch(c);
    }

    /** The eight voices in sequence, each blended into the outputs. */
    method RunAllVoices() returns (mix: Mix)
      requires Valid()
      modifies regs, voices, set v | v in voices :: v.buf
      ensures Valid() && (View(), mix) == RunVoices(old(View()), CHANNELS)
    {
      hide CInv, VoiceViews, OneVoice, VoiceSample, Bit, Blend;
      ghost var c := View();
      mix := SILENCE;
      for i := 0 to CHANNELS
        invariant Valid()
        invariant (View(), mix) == RunVoices(c, i)
      {
        ghost var before := View();
        var s := VoiceRun(i);
        VoiceJoins(before, mix, i);
        mix := Mix(Blend(mix.main, s.left, s.right), if Bit(eon, i) then Blend(mix.echo, s.left, s.right) else mix.echo);
      }
    }

    /** The echo unit for one sample; mix is what the voices feed it. */
    method RunEcho(mix: Sample) returns (echo: Sample)
      requires Valid()
      modifies this`echoPtr, this`echoHistPos, echoHist
      modifies this`eon, this`echoEnabled, this`esa, this`echoLength, this`echoOffset, aram
      ensures Valid() && View() == EchoPart(old(View()), mix)
      ensures var d := old(View()); echo == EchoSample(d.echo, d.mem, EchoInput(d, mix))
    {
      hide CInv, EInv, VoiceViews, EchoInput, Push, Tapped, EchoStep, EchoMemory, Feedback, EchoSample, Filtered, EvenClamp, Bit;
      hide HistWindow, Coefficients, EchoPtr, EchoPart;
      ghost var d := View();
      ghost var x := EchoInput(d, mix);
      EchoReads(d, mix);
      echo := RunFir();
      var f := Sample(EvenClamp(mix.left + V.SampleScale(echo.left, S8(regs[REG_EFB]))),
                      EvenClamp(mix.right + V.SampleScale(echo.right, S8(regs[REG_EFB]))));
      WriteEcho(f, d.echo, x);
      assert VoiceViews() == d.vs;
    }

    /** One sample of the whole engine. */
    method NextSample() returns (out: Sample)
      requires Valid()
      modifies this, regs, aram, echoHist, voices, set v | v in voices :: v.buf
      modifies counters, counters.internal, counters.out
      ensures Valid() && View() == Next(old(View())) && out == Output(old(View()))
    {
      hide CInv, VoiceViews, RunVoices, Latch, EchoPart, MixOut, EchoInput, EchoSample, EInv;
      RunLatch();
      var mix := RunAllVoices();
      var echo := RunEcho(mix.echo);
      out := MixOut(regs[..], mix.main, echo);
    }

    /** A store of the processor into a register; any store to ENDX clears it. */
    method Store(addr: nat, byte: u8)
      requires Valid() && addr < REGISTERS
      modifies regs
      ensures Valid() && View() == old(View()).(regs := Stored(old(regs[..]), addr, byte))
    {
      hide VoiceViews;
      ghost var c := View();
      if addr == REG_ENDX {
        regs[REG_ENDX] := 0;
      } else {
        regs[addr] := byte;
      }
      assert View() == c.(regs := Stored(c.regs, addr, byte));
    }
  }

  lemma EchoReads(d: State, mix: Sample)
    requires CInv(d)
    ensures |d.regs| == REGISTERS && IsMemory(d.mem) && EInv(d.echo)
    ensures EchoInput(d, mix) == EIn(d.regs[REG_ESA], d.regs[REG_EDL], Bit(d.regs[REG_FLG], 5), S8(d.regs[REG_EFB]),
                                     Coefficients(d.regs), mix)
    ensures var x := EchoInput(d, mix);
            && EchoSample(d.echo, d.mem, x) == Filtered(HistWindow(Push(d.echo, Tapped(d.echo, d.mem))), x.coeff)
            && Feedback(d.echo, d.mem, x)
               == Sample(EvenClamp(mix.left + V.SampleScale(EchoSample(d.echo, d.mem, x).left, x.efb)),
                         EvenClamp(mix.right + V.SampleScale(EchoSample(d.echo, d.mem, x).right, x.efb)))
            && EchoPart(d, mix)
               == d.(echo := EchoStep(d.echo, d.mem, x), mem := EchoMemory(d.echo, d.mem, x), eon := d.regs[REG_EON])
  {
    hide Filtered, HistWindow, Push, Tapped, EvenClamp, EchoStep, EchoMemory, Bit, S8, Coefficients, V.SampleScale;
  }

  lemma {:induction false} FilteredIs(w: seq<Sample>, c: seq<s8>)
    requires |w| == TAPS && |c| == TAPS
    ensures var sum := Convolve(w, c, TAPS); Filtered(w, c) == Sample(EvenClamp(sum.0), EvenClamp(sum.1))
  {
  }

  lemma {:induction false} NoTermsYet(w: seq<Sample>, c: seq<s8>)
    requires |w| == TAPS && |c| == TAPS
    ensures Convolve(w, c, 0) == (0, 0)
  {
  }

  lemma HalvedIs(s: Sample)
    ensures Halved(s) == Sample(s.left / 2, s.right / 2)
  {
  }

  lemma PushAndTap(e: EState, mem: seq<u8>)
    requires EInv(e) && IsMemory(mem)
    ensures var p := EchoPtr(e);
            var pos := if e.histPos + 1 >= TAPS then 0 else e.histPos + 1;
            && p == Wrap16(e.esa * 0x100 + e.offset)
            && Tapped(e, mem) == Sample(S16(Word(mem, p)), S16(Word(mem, Wrap16(p + 2))))
            && Push(e, Tapped(e, mem)) == e.(histPos := pos, hist := e.hist[pos := Halved(Tapped(e, mem))])
  {
  }

  lemma VoiceJoins(c: State, m: Mix, i: nat)
    requires CInv(c) && i < CHANNELS
    ensures var s := VoiceSample(c, i);
            OneVoice(c, m, i) == (OneVoice(c, SILENCE, i).0,
                                  Mix(Blend(m.main, s.left, s.right),
                                      if Bit(c.eon, i) then Blend(m.echo, s.left, s.right) else m.echo))
  {
    hide V.VoiceStep, V.VoiceOut, VoiceInput, Show, V.Inv, Bit, Blend;
  }

  lemma VoiceReads(c: State, i: nat)
    requires CInv(c) && i < CHANNELS
    ensures |c.regs| == REGISTERS && |c.vs| == CHANNELS && V.Inv(c.vs[i])
    ensures var b := 16 * i;
            var sh := Shape(c.regs[b + 5], c.regs[b + 6], c.regs[b + 7]);
            VoiceInput(c, i)
            == V.VIn(c.regs[REG_DIR], c.regs[b + 4], c.regs[b + 2] + c.regs[b + 3] as int * 0x100, sh,
                     S8(c.regs[b]), S8(c.regs[b + 1]), Bit(c.regs[REG_NON], i), c.regs[REG_FLG] >= 0x80,
                     !c.toggle, Bit(c.kon, i), Bit(c.koff, i), c.n, c.mem, c.gauss)
  {
    hide Bit, S8;
  }

  lemma OneVoiceIs(c: State, i: nat) returns (o: V.VOut)
    requires CInv(c) && i < CHANNELS
    ensures V.Inv(c.vs[i]) && o == V.VoiceOut(c.vs[i], VoiceInput(c, i))
    ensures |c.regs| == REGISTERS && |c.vs| == CHANNELS
    ensures OneVoice(c, SILENCE, i).0 == c.(vs := c.vs[i := V.VoiceStep(c.vs[i], VoiceInput(c, i))], regs := Show(c.regs, i, o))
    ensures VoiceSample(c, i) == Sample(o.left, o.right)
  {
    hide V.VoiceStep, V.VoiceOut, VoiceInput, Show, V.Inv;
    o := V.VoiceOut(c.vs[i], VoiceInput(c, i));
  }
}

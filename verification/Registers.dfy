/** What the registers mean, address by address and in numbers: what a voice and the mixer
    read from them, what a voice leaves in them, and what goes out (src/dsp.c). */
module Registers {
  import opened Bits
  import opened Aram
  import opened Envelope
  import opened Voices
  import VoiceRuns
  import opened Echo
  import opened Chip
  import opened ChipRuns

  // ---- one voice in numbers ----

  /** The interpolated sample of a voice: four consecutive samples of the last twelve, the
      first of them as many past the oldest as the position has whole samples, weighed by the
      table at the fraction m, in 256ths, of the position; each product over 2048 and rounded
      down, the sum made even and cut to 16 bits. */
  ghost function RawSample(v: VState, gauss: seq<s16>): s16
    requires Inv(v) && |gauss| == 512
  {
    var w, at, m := VoiceRuns.Window(v), v.interpPos / 0x1000, v.interpPos % 0x1000 / 16;
    S16(Even(gauss[255 - m] as int * w[at] / 2048 + gauss[511 - m] as int * w[at + 1] / 2048
             + gauss[256 + m] as int * w[at + 2] / 2048 + gauss[m] as int * w[at + 3] / 2048))
  }

  lemma RawSampleIs(v: VState, gauss: seq<s16>)
    requires Inv(v) && |gauss| == 512
    ensures S16(Interpolate(v, gauss)) == RawSample(v, gauss)
  {
    hide Tap, Weigh, VoiceRuns.Window, S16, Even, InterpMid, Inv;
    VoiceRuns.InterpolationReadsWindow(v, 0);
    VoiceRuns.InterpolationReadsWindow(v, 1);
    VoiceRuns.InterpolationReadsWindow(v, 2);
    VoiceRuns.InterpolationReadsWindow(v, 3);
    PositionIsNatural(v);
    Fraction(v.interpPos);
    var w, at, m := VoiceRuns.Window(v), v.interpPos / 0x1000, v.interpPos % 0x1000 / 16;
    WeighIs(gauss[255 - m], w[at]);
    WeighIs(gauss[511 - m], w[at + 1]);
    WeighIs(gauss[256 + m], w[at + 2]);
    WeighIs(gauss[m], w[at + 3]);
  }

  lemma PositionIsNatural(v: VState)
    requires Inv(v)
    ensures 0 <= v.interpPos
  {
  }

  lemma Fraction(pos: nat)
    ensures InterpMid(pos) == pos % 0x1000 / 16
  {
    DivDiv(pos, 16, 0x100);
    DivUnique(pos % 0x1000, 16, pos / 16 % 0x100, pos % 16);
  }

  lemma WeighIs(g: s16, s: s16)
    ensures Weigh(g, s) == g as int * s / 2048
  {
  }

  /** A voice whose level is 0 or whose attack delay runs shows and puts out nothing. */
  lemma MuteInNumbers(v: VState, i: VIn)
    requires Inv(v) && i.Valid() && (v.attackDelay > 0 || v.env == 0)
    ensures var o := VoiceOut(v, i); o.left == 0 && o.right == 0 && o.outx == 0 && o.envx == 0
  {
    hide Interpolate, Begin;
    assert S16(SampleScale(0, i.volL)) == 0 && S16(SampleScale(0, i.volR)) == 0;
    hide S16, SampleScale;
  }

  /** Any other shows the high byte of its interpolated sample as OUTX and its level over 16 as
      ENVX, and puts out the sample times the level over 2048, made even, times each volume
      over 128, rounded down each time. Noise is not made: its sample is 0. */
  lemma OutputInNumbers(v: VState, i: VIn)
    requires Inv(v) && i.Valid() && v.attackDelay == 0 && v.env > 0
    ensures var o := VoiceOut(v, i);
            var raw: int := if i.noise then 0 else RawSample(v, i.gauss);
            var tone := Even(raw * v.env / 2048);
            && o.outx == raw / 256 % 256 && o.envx == v.env / 16
            && o.left == (if Silent(Begin(v, i)) then 0 else tone * i.volL / 128)
            && o.right == (if Silent(Begin(v, i)) then 0 else tone * i.volR / 128)
  {
    hide Begin, Interpolate, RawSample, S16, Word;
    var d := Delay(Fetch(v, i));
    RawOfFetched(v, i);
    var raw: s16 := if i.noise then 0 else RawSample(v, i.gauss);
    OutputNeverWraps(raw, v.env, i.volL);
    OutputNeverWraps(raw, v.env, i.volR);
    hide Fetch, Delay;
  }

  lemma RawOfFetched(v: VState, i: VIn)
    requires Inv(v) && i.Valid() && v.attackDelay == 0
    ensures S16(Interpolate(Delay(Fetch(v, i)), i.gauss)) == RawSample(v, i.gauss)
    ensures Delay(Fetch(v, i)).env == v.env
  {
    hide S16, Even, Word;
    RawSampleIs(v, i.gauss);
    hide Fetch;
    assert SameTaps(v, Delay(Fetch(v, i))) by {
      FetchKeepsTaps(v, i);
    }
    SameInterpolation(v, Delay(Fetch(v, i)), i.gauss);
  }

  predicate SameTaps(v: VState, d: VState)
  {
    v.buf == d.buf && v.bufPos == d.bufPos && v.interpPos == d.interpPos && v.env == d.env
  }

  lemma FetchKeepsTaps(v: VState, i: VIn)
    requires Inv(v) && i.Valid() && v.attackDelay == 0
    ensures SameTaps(v, Delay(Fetch(v, i)))
  {
    hide Word;
  }

  lemma SameInterpolation(v: VState, d: VState, gauss: seq<s16>)
    requires Inv(v) && Inv(d) && |gauss| == 512 && SameTaps(v, d)
    ensures Interpolate(v, gauss) == Interpolate(d, gauss)
  {
    hide Weigh, Even;
  }

  // ---- where a voice shows ----

  /** Voice j's OUTX is register 16 * j + 9 and its ENVX 16 * j + 8; the voices write these
      sixteen registers and ENDX, $7c, and no other. */
  lemma {:induction false} VoicesShow(c: State, k: nat, a: nat)
    requires CInv(c) && k <= 8 && a < 0x80 && a != 0x7c
    ensures var r := RunVoices(c, k).0.regs;
            && (a % 16 == 9 && a / 16 < k ==> r[a] == VoiceShows(c, a / 16).outx)
            && (a % 16 == 8 && a / 16 < k ==> r[a] == VoiceShows(c, a / 16).envx)
            && (a % 16 < 8 || a % 16 > 9 || a / 16 >= k ==> r[a] == c.regs[a])
  {
    hide VoiceStep, VoiceOut, VoiceInput, Inv, IsShown, Bit, OneVoice;
    if k > 0 {
      VoicesShow(c, k - 1, a);
      VoicesAreIndependent(c, k - 1);
      var p := RunVoices(c, k - 1);
      SameInput(c, p.0, k - 1);
      assert VoiceShows(p.0, k - 1) == VoiceShows(c, k - 1);
      OneVoiceShows(p.0, p.1, k - 1, a);
    }
  }

  lemma OneVoiceShows(c: State, m: Mix, i: nat, a: nat)
    requires CInv(c) && i < 8 && a < 0x80 && a != 0x7c
    ensures OneVoice(c, m, i).0.regs[a]
            == if a == 16 * i + 9 then VoiceShows(c, i).outx else if a == 16 * i + 8 then VoiceShows(c, i).envx else c.regs[a]
  {
    hide VoiceStep, VoiceOut, VoiceInput, Inv, Bit, ByteWithBit;
  }

  /** After a sample of the engine. */
  lemma EngineShows(c: State, a: nat)
    requires CInv(c) && a < 0x80 && a != 0x7c
    ensures var r := Next(c).regs;
            && (a % 16 == 9 ==> r[a] == VoiceShows(Latch(c), a / 16).outx)
            && (a % 16 == 8 ==> r[a] == VoiceShows(Latch(c), a / 16).envx)
            && (a % 16 < 8 || a % 16 > 9 ==> r[a] == c.regs[a])
  {
    VoicesShow(Latch(c), 8, a);
    hide RunVoices, VoiceShows, EchoStep, EchoMemory, EchoInput, Inv;
  }

  // ---- what a voice reads ----

  /** Each voice has sixteen registers of its own, and its bits of the global ones. */
  lemma VoiceReadsRegisters(c: State, i: nat)
    requires CInv(c) && i < 8
    ensures var x, r, b := VoiceInput(Latch(c), i), c.regs, 16 * i;
            && x.volL == S8(r[b]) && x.volR == S8(r[b + 1]) && x.pitchReg == r[b + 2] + r[b + 3] as int * 0x100
            && x.srcn == r[b + 4] && x.shape == Shape(r[b + 5], r[b + 6], r[b + 7])
            && x.dir == r[0x5d] && x.noise == Bit(r[0x3d], i) && x.reset == (r[0x6c] >= 0x80)
            && x.poll == c.toggle && (x.poll ==> x.koff == Bit(r[0x5c], i))
            && x.n == c.n + 1 && x.mem == c.mem && x.gauss == c.gauss
  {
    hide Bit, S8, Inv, EInv;
  }

  /** The directory is a table of two little-endian words for each source, at 256 * DIR: the
      start address, read while the attack delay runs, and the loop address. */
  lemma DirectoryInNumbers(v: VState, i: VIn)
    requires Inv(v) && i.Valid()
    ensures var p := i.dir as int * 0x100 + i.srcn as int * 4 + (if v.attackDelay > 0 then 0 else 2);
            VoiceRuns.DirectoryWord(v, i) == i.mem[(p + 1) % 0x1_0000] as int * 0x100 + i.mem[p % 0x1_0000]
  {
    WordIs(i.mem, i.dir as int * 0x100 + i.srcn as int * 4 + (if v.attackDelay > 0 then 0 else 2));
    var entry := i.dir as int * 0x100 + i.srcn as int * 4;
    assert Wrap16(Wrap16(entry) + 2) == Wrap16(entry + 2);
    hide Word, Wrap16;
  }

  // ---- the mix and the output ----

  /** Voice by voice, in order, with both sides clamped each time: on the main bus always, on
      the echo bus if the voice's bit is set of EON, $4d, as it was latched in the sample before. */
  lemma {:induction false} VoiceEntersMix(c: State, k: nat)
    requires CInv(c) && k < 8
    ensures var m, r, o := RunVoices(c, k).1, RunVoices(c, k + 1).1, VoiceSample(c, k);
            && r.main == Sample(Clamp16(m.main.left as int + o.left), Clamp16(m.main.right as int + o.right))
            && r.echo == if Bit(c.eon, k) then Sample(Clamp16(m.echo.left as int + o.left), Clamp16(m.echo.right as int + o.right))
                         else m.echo
    ensures RunVoices(c, 0).1 == Mix(Sample(0, 0), Sample(0, 0))
  {
    hide RunVoices, VoiceSample, OneVoice, CInv, Bit, Clamp16;
    var p := RunVoices(c, k);
    MixUnfolds(c, k);
    VoiceSampleStays(c, k);
    OneVoiceMixes(p.0, p.1, k);
  }

  lemma {:induction false} VoiceSampleStays(c: State, k: nat)
    requires CInv(c) && k < 8
    ensures VoiceSample(RunVoices(c, k).0, k) == VoiceSample(c, k) && RunVoices(c, k).0.eon == c.eon
  {
    hide RunVoices, VoiceStep, VoiceInput, VoiceOut, VoiceSample, Inv, IsShown;
    var d := RunVoices(c, k).0;
    VoicesAreIndependent(c, k);
    SameInput(c, d, k);
    SameSample(c, d, k);
  }

  lemma {:induction false} MixUnfolds(c: State, k: nat)
    requires CInv(c) && k < 8
    ensures RunVoices(c, k + 1) == OneVoice(RunVoices(c, k).0, RunVoices(c, k).1, k)
    ensures RunVoices(c, 0).1 == Mix(Sample(0, 0), Sample(0, 0))
  {
    hide OneVoice;
  }

  lemma EonLatched(c: State)
    requires CInv(c)
    ensures Next(c).eon == c.regs[0x4d]
  {
    hide RunVoices, EchoStep, EchoMemory, EchoInput, CInv, Latch;
    EonStays(c);
  }

  lemma {:induction false} EonStays(c: State)
    requires CInv(c)
    ensures CInv(Latch(c)) && RunVoices(Latch(c), 8).0.regs[0x4d] == c.regs[0x4d]
  {
    VoicesAreIndependent(Latch(c), 8);
    hide RunVoices, Inv, EInv, VoiceStep, VoiceInput;
  }

  /** One side of what goes out: the main mix and the filtered echo, each times its volume
      register, the low four bits of which are taken for a signed char in steps of 16, over
      128 and rounded down; and the sum clamped. */
  function Side(main: s16, mvol: u8, echo: s16, evol: u8): s16
  {
    Clamp16(main * S8(mvol as int * 16) / 128 + echo * S8(evol as int * 16) / 128)
  }

  /** What goes out: the main volumes are $0c and $1c and the echo volumes $2c and $3c, left
      and right; and while bit 6 of $6c is set nothing goes out. */
  lemma OutputIsMix(c: State)
    requires CInv(c)
    ensures var p := RunVoices(Latch(c), 8);
            var m, e := p.1.main, EchoSample(p.0.echo, p.0.mem, EchoInput(p.0, p.1.echo));
            Output(c) == if c.regs[0x6c] / 0x40 % 2 == 1 then Sample(0, 0)
                         else Sample(Side(m.left, c.regs[0x0c], e.left, c.regs[0x2c]),
                                     Side(m.right, c.regs[0x1c], e.right, c.regs[0x3c]))
  {
    hide Output, RunVoices, CInv, EchoSample, EchoInput, Side, Bit, Latch, MixOut;
    MixRegistersStay(c);
    SixthBit(c.regs[0x6c]);
    var p, e := OutputUnfolds(c);
    MixOutIs(p.0.regs, p.1.main, e);
  }

  lemma OutputUnfolds(c: State) returns (p: (State, Mix), e: Sample)
    requires CInv(c)
    ensures CInv(Latch(c)) && p == RunVoices(Latch(c), 8) && |p.0.regs| == 0x80
    ensures IsMemory(p.0.mem) && EInv(p.0.echo)
    ensures e == EchoSample(p.0.echo, p.0.mem, EchoInput(p.0, p.1.echo)) && Output(c) == MixOut(p.0.regs, p.1.main, e)
  {
    p := RunVoices(Latch(c), 8);
    PartsHold(p.0);
    e := EchoSample(p.0.echo, p.0.mem, EchoInput(p.0, p.1.echo));
    hide RunVoices, CInv, EchoSample, EchoInput, Latch, MixOut;
  }

  lemma PartsHold(c: State)
    requires CInv(c)
    ensures |c.regs| == 0x80 && IsMemory(c.mem) && EInv(c.echo)
  {
  }

  lemma MixOutIs(r: seq<u8>, m: Sample, e: Sample)
    requires |r| == 0x80
    ensures MixOut(r, m, e)
            == if Bit(r[0x6c], 6) then Sample(0, 0)
               else Sample(Side(m.left, r[0x0c], e.left, r[0x2c]), Side(m.right, r[0x1c], e.right, r[0x3c]))
  {
    hide Clamp16, S8, Bit;
  }

  lemma MixRegistersStay(c: State)
    requires CInv(c)
    ensures var r := RunVoices(Latch(c), 8).0.regs;
            && |c.regs| == 0x80 && |r| == 0x80 && CInv(Latch(c)) && r[0x6c] == c.regs[0x6c]
            && r[0x0c] == c.regs[0x0c] && r[0x1c] == c.regs[0x1c] && r[0x2c] == c.regs[0x2c] && r[0x3c] == c.regs[0x3c]
  {
    VoicesAreIndependent(Latch(c), 8);
    hide RunVoices, Inv, EInv, VoiceStep, VoiceInput;
  }

  lemma SixthBit(x: u8)
    ensures Bit(x, 6) == (x / 0x40 % 2 == 1)
  {
    assert Pow2(4) == 16;
  }

  /** A store reaches the register it names, except that any store clears ENDX. */
  lemma StoreReaches(regs: seq<u8>, addr: nat, byte: u8, a: nat)
    requires |regs| == 0x80 && addr < 0x80 && a < 0x80
    ensures Stored(regs, addr, byte)[a] == if a != addr then regs[a] else if a == 0x7c then 0 else byte
  {
  }
}

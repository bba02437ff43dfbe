/** The whole sample engine (src/dsp.c, `next_sample`): eight voices, their mix and the echo
    unit, as a function from the state before a sample to the state after it. */
module Chip {
  import opened Bits
  import opened Aram
  import opened Envelope
  import opened Voices
  import opened Echo

  const CHANNELS := 8
  const REGISTERS := 0x80

  const REG_MVOLL: nat := 0x0c
  const REG_MVOLR: nat := 0x1c
  const REG_EVOLL: nat := 0x2c
  const REG_EVOLR: nat := 0x3c
  const REG_KON: nat := 0x4c
  const REG_KOFF: nat := 0x5c
  const REG_FLG: nat := 0x6c
  const REG_ENDX: nat := 0x7c
  const REG_EFB: nat := 0x0d
  const REG_NON: nat := 0x3d
  const REG_EON: nat := 0x4d
  const REG_DIR: nat := 0x5d
  const REG_ESA: nat := 0x6d
  const REG_EDL: nat := 0x7d

  /** n counts the runs of the rate counters; gauss is the interpolation table. */
  datatype State = State(
    regs: seq<u8>, mem: seq<u8>, gauss: seq<s16>, vs: seq<VState>, n: nat, toggle: bool,
    kon: u8, koff: u8, eon: u8, echo: EState)

  ghost predicate CInv(c: State)
  {
    && |c.regs| == REGISTERS && IsMemory(c.mem) && |c.gauss| == 512
    && |c.vs| == CHANNELS && (forall i :: 0 <= i < CHANNELS ==> Inv(c.vs[i]))
    && EInv(c.echo)
  }

  lemma ZeroStateHolds()
    ensures Inv(ZeroVoice()) && EInv(ZeroEcho())
  {
  }

  /** Everything zero except the registers, which may have been restored from a file. */
  ghost function Reset(regs: seq<u8>, mem: seq<u8>, gauss: seq<s16>): (c: State)
    requires |regs| == REGISTERS && IsMemory(mem) && |gauss| == 512
    ensures CInv(c)
  {
    ZeroStateHolds();
    hide ZeroVoice, ZeroEcho, Inv, EInv;
    State(regs, mem, gauss, seq(CHANNELS, _ => ZeroVoice()), 0, false, 0, 0, 0, ZeroEcho())
  }

  // ---- one sample ----

  /** KON and KOFF are polled in every other sample; the rate counters run in each. */
  ghost function Latch(c: State): (r: State)
    requires CInv(c)
    ensures CInv(r)
  {
    if c.toggle
    then c.(toggle := false, n := c.n + 1, kon := ByteAndNot(c.regs[REG_KON], c.kon), koff := c.regs[REG_KOFF])
    else c.(toggle := true, n := c.n + 1)
  }

  ghost function VoiceInput(c: State, i: nat): (r: VIn)
    requires CInv(c) && i < CHANNELS
    ensures r.Valid()
  {
    var b := 16 * i;
    VIn(c.regs[REG_DIR], c.regs[b + 4], c.regs[b + 2] + c.regs[b + 3] as int * 0x100,
        Shape(c.regs[b + 5], c.regs[b + 6], c.regs[b + 7]), S8(c.regs[b]), S8(c.regs[b + 1]),
        Bit(c.regs[REG_NON], i), c.regs[REG_FLG] >= 0x80,
        !c.toggle, Bit(c.kon, i), Bit(c.koff, i), c.n, c.mem, c.gauss)
  }

  /** What a voice leaves in the registers: OUTX, ENVX and its bit of ENDX. */
  ghost function Show(regs: seq<u8>, i: nat, o: VOut): (r: seq<u8>)
    requires |regs| == REGISTERS && i < CHANNELS
    ensures |r| == REGISTERS
  {
    var shown := regs[16 * i + 9 := o.outx][16 * i + 8 := o.envx];
    var ended := if o.endSet then shown[REG_ENDX := ByteWithBit(shown[REG_ENDX], i, true)] else shown;
    if o.endClear then ended[REG_ENDX := ByteWithBit(ended[REG_ENDX], i, false)] else ended
  }

  function Blend(a: Sample, left: s16, right: s16): Sample
  {
    Sample(Clamp16(a.left + left), Clamp16(a.right + right))
  }

  datatype Mix = Mix(main: Sample, echo: Sample)

  const SILENCE := Mix(Sample(0, 0), Sample(0, 0))

  /** The first k voices have run, in order. */
  ghost function RunVoices(c: State, k: nat): (r: (State, Mix))
    requires CInv(c) && k <= CHANNELS
    ensures CInv(r.0)
  {
    if k == 0 then (c, SILENCE)
    else
      var p := RunVoices(c, k - 1);
      OneVoice(p.0, p.1, k - 1)
  }

  ghost function OneVoice(c: State, m: Mix, i: nat): (r: (State, Mix))
    requires CInv(c) && i < CHANNELS
    ensures CInv(r.0)
  {
    var x := VoiceInput(c, i);
    var o := VoiceOut(c.vs[i], x);
    (c.(vs := c.vs[i := VoiceStep(c.vs[i], x)], regs := Show(c.regs, i, o)),
     Mix(Blend(m.main, o.left, o.right),
         if Bit(c.eon, i) then Blend(m.echo, o.left, o.right) else m.echo))
  }

  ghost function VoiceSample(c: State, i: nat): Sample
    requires CInv(c) && i < CHANNELS
  {
    var o := VoiceOut(c.vs[i], VoiceInput(c, i));
    Sample(o.left, o.right)
  }

  ghost function EchoInput(c: State, mix: Sample): (r: EIn)
    requires CInv(c)
    ensures r.Valid()
  {
    EIn(c.regs[REG_ESA], c.regs[REG_EDL], Bit(c.regs[REG_FLG], 5), S8(c.regs[REG_EFB]),
        Coefficients(c.regs), mix)
  }

  ghost function Coefficients(regs: seq<u8>): (r: seq<s8>)
    requires |regs| == REGISTERS
    ensures |r| == TAPS
  {
    seq(TAPS, j requires 0 <= j < TAPS => S8(regs[16 * j + 15]))
  }

  ghost function Next(c: State): (r: State)
    requires CInv(c)
    ensures CInv(r)
  {
    var p := RunVoices(Latch(c), CHANNELS);
    EchoPart(p.0, p.1.echo)
  }

  ghost function EchoPart(d: State, mix: Sample): (r: State)
    requires CInv(d)
    ensures CInv(r)
  {
    var x := EchoInput(d, mix);
    d.(echo := EchoStep(d.echo, d.mem, x), mem := EchoMemory(d.echo, d.mem, x), eon := d.regs[REG_EON])
  }

  /** A volume register is shifted left by four before it is narrowed to a signed char. */
  function Volume(reg: u8): s8 { S8(reg * 16) }

  ghost function Output(c: State): Sample
    requires CInv(c)
  {
    var p := RunVoices(Latch(c), CHANNELS);
    MixOut(p.0.regs, p.1.main, EchoSample(p.0.echo, p.0.mem, EchoInput(p.0, p.1.echo)))
  }

  function MixOut(regs: seq<u8>, main: Sample, echo: Sample): Sample
    requires |regs| == REGISTERS
  {
    if Bit(regs[REG_FLG], 6) then Sample(0, 0)
    else
      Sample(Clamp16(SampleScale(main.left, Volume(regs[REG_MVOLL])) + SampleScale(echo.left, Volume(regs[REG_EVOLL]))),
             Clamp16(SampleScale(main.right, Volume(regs[REG_MVOLR])) + SampleScale(echo.right, Volume(regs[REG_EVOLR]))))
  }

  /** A register store; any store to ENDX clears it. */
  ghost function Stored(regs: seq<u8>, addr: nat, byte: u8): (r: seq<u8>)
    requires |regs| == REGISTERS && addr < REGISTERS
    ensures |r| == REGISTERS
  {
    regs[addr := if addr == REG_ENDX then 0 else byte]
  }
}

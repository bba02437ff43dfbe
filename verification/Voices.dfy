/** One of the eight voices (src/dsp.c, `struct vstate` and `voice_run`), as a function
    from one sample to the next. Module VoiceUnit runs it in place. */
module Voices {
  import opened Bits
  import opened Aram
  import opened Brr
  import opened Envelope

  const RING := 12

  /** The voice's state. */
  datatype VState = VState(
    interpPos: int, env: int, srcnPtr: u16, nextBrrAddr: u16, brrAddr: u16, pitch: u16,
    envMode: EnvMode, brrHdr: u8, brrOff: u8, bufPos: u8, attackDelay: u8, buf: seq<s16>)

  /** What a voice reads in one sample: its registers, the global register bits that
      concern it, the poll of KON and KOFF, the rate counters' run number, the ARAM and
      the interpolation table. */
  datatype VIn = VIn(
    dir: u8, srcn: u8, pitchReg: u16, shape: Shape, volL: s8, volR: s8,
    noise: bool, reset: bool, poll: bool, kon: bool, koff: bool,
    n: nat, mem: seq<u8>, gauss: seq<s16>)
  {
    ghost predicate Valid() { IsMemory(mem) && |gauss| == 512 }
  }

  // ---- what holds in every reachable state ----

  /** A voice that has never been keyed on, or was keyed on in the last sample: its block
      offset is still zero and it is not yet allowed to decode. */
  ghost predicate Unused(v: VState)
  {
    && v.brrOff == 0
    && (if v.attackDelay == 5 then v.interpPos < 0x4000 else Silent(v) && v.interpPos == 0)
  }

  ghost predicate Inv(v: VState)
  {
    && |v.buf| == RING
    && 0 <= v.env <= ENV_MAX
    && 0 <= v.interpPos <= 0x7fff
    && v.pitch <= 0x3fff
    && (v.bufPos == 0 || v.bufPos == 4 || v.bufPos == 8)
    && v.attackDelay <= 5
    && (v.brrOff == 1 || v.brrOff == 3 || v.brrOff == 5 || v.brrOff == 7 || Unused(v))
  }

  function ZeroVoice(): VState { VState(0, 0, 0, 0, 0, 0, Release, 0, 0, 0, 0, seq(RING, _ => 0)) }

  // ---- the decode ring ----

  /** The two samples that precede the write position. */
  function History(v: VState): (s16, s16)
    requires Inv(v)
  {
    if v.bufPos != 0 then (v.buf[v.bufPos - 2], v.buf[v.bufPos - 1])
    else (v.buf[RING - 2], v.buf[RING - 1])
  }

  function GroupInputs(hdr: u8, b0: u8, b1: u8): (r: seq<s16>)
    ensures |r| == 4
  {
    [Input(hdr, b0, false), Input(hdr, b0, true), Input(hdr, b1, false), Input(hdr, b1, true)]
  }

  /** The four samples decoded next. */
  function GroupOut(v: VState, mem: seq<u8>): (g: seq<s16>)
    requires Inv(v) && IsMemory(mem) && v.brrOff != 0
    ensures |g| == 4
  {
    var a := v.brrAddr + v.brrOff;
    Clamped(Ideal(FilterOf(v.brrHdr), GroupInputs(v.brrHdr, mem[a], mem[a + 1]), History(v).0, History(v).1))
  }

  /** They are the samples of the next two bytes of the block, filtered from the two samples
      before the write position. */
  lemma GroupOutInNumbers(v: VState, mem: seq<u8>)
    requires Inv(v) && IsMemory(mem) && v.brrOff != 0
    ensures var a := v.brrAddr + v.brrOff;
            IsGroup(v.brrHdr, mem[a], mem[a + 1], History(v).0, History(v).1, GroupOut(v, mem))
  {
    hide IsGroup, Clamped, Ideal, Input, History, FilterOf;
    var a := v.brrAddr + v.brrOff;
    GroupFromBytes(v.brrHdr, mem[a], mem[a + 1], History(v).0, History(v).1);
  }

  function BrrSample4(v: VState, mem: seq<u8>): (r: VState)
    requires Inv(v) && IsMemory(mem) && v.brrOff != 0
  {
    var pos := v.bufPos + 4;
    v.(buf := v.buf[..v.bufPos] + GroupOut(v, mem) + v.buf[pos..],
       bufPos := if pos >= RING then 0 else pos,
       brrOff := v.brrOff + 2)
  }

  function Wrap12(val: nat): (r: nat)
    requires val <= 8 + 7 + 3
    ensures r < RING && r == val % RING
  {
    if val >= 12 then val - 12 else val
  }

  /** Bits 12 to 14 of the pitch accumulator: whole samples past the oldest. */
  function InterpHi(pos: int): (r: nat)
    ensures r < 8
  {
    pos / 0x1000 % 8
  }

  /** Bits 4 to 11: the place between two samples. */
  function InterpMid(pos: int): (r: nat)
    ensures r < 0x100
  {
    pos / 16 % 0x100
  }

  function Tap(v: VState, k: nat): s16
    requires Inv(v) && k < 4
  {
    v.buf[Wrap12(v.bufPos + InterpHi(v.interpPos) + k)]
  }

  function Weigh(g: s16, s: s16): int { g as int * s / 0x800 }

  function Interpolate(v: VState, gauss: seq<s16>): int
    requires Inv(v) && |gauss| == 512
  {
    var mid := InterpMid(v.interpPos);
    Even(Weigh(gauss[255 - mid], Tap(v, 0)) + Weigh(gauss[511 - mid], Tap(v, 1))
         + Weigh(gauss[256 + mid], Tap(v, 2)) + Weigh(gauss[mid], Tap(v, 3)))
  }

  // ---- one sample, phase by phase ----

  /** Cycles 1 to 3b: directory entry, pitch and block header. */
  function Fetch(v: VState, i: VIn): (r: VState)
    requires Inv(v) && i.Valid()
    ensures Inv(r)
  {
    var entry := Wrap16(i.dir * 0x100 + i.srcn * 4);
    var p := if v.attackDelay == 0 then Wrap16(entry + 2) else entry;
    v.(srcnPtr := p, nextBrrAddr := Word(i.mem, p), pitch := i.pitchReg % 0x4000, brrHdr := i.mem[v.brrAddr])
  }

  /** The six samples between a key-on and the first one heard. */
  function Delay(v: VState): (r: VState)
    requires Inv(v)
    ensures Inv(r) && r.attackDelay < 5 && (r.brrOff == 0 ==> r.interpPos == 0)
  {
    if v.attackDelay == 0 then v
    else
      var w := if v.attackDelay == 5
               then v.(brrAddr := v.nextBrrAddr, brrOff := 1, bufPos := 0, brrHdr := 0)
               else v;
      w.(attackDelay := v.attackDelay - 1,
         interpPos := if v.attackDelay - 1 <= 3 then 0x4000 else 0,
         pitch := 0, env := 0)
  }

  /** The interpolated and enveloped sample, and what OUTX and ENVX show of it. */
  datatype Tone = Tone(sample: int, outx: u8, envx: u8)

  function Enveloped(raw: s16, env: int): int { Even(raw * env / 0x800) }

  function Sound(v: VState, i: VIn): Tone
    requires Inv(v) && i.Valid()
  {
    if v.env == 0 then Tone(0, 0, 0)
    else
      var raw := if i.noise then 0 else S16(Interpolate(v, i.gauss));
      Tone(S16(Enveloped(raw, v.env)), raw / 0x100 % 0x100, v.env / 16)
  }

  /** A soft reset, or a block that ends the sample, silences the voice. */
  function Mute(v: VState, i: VIn): (r: VState)
    requires Inv(v)
    ensures Inv(r)
  {
    if i.reset || v.brrHdr % 4 == 1 then v.(envMode := Release, env := 0) else v
  }

  function Poll(v: VState, i: VIn): (r: VState)
    requires Inv(v) && (v.brrOff == 0 ==> v.interpPos == 0)
    ensures Inv(r)
  {
    if !i.poll then v
    else
      var w := if i.koff then v.(envMode := Release) else v;
      if i.kon then w.(envMode := Attack, attackDelay := 5) else w
  }

  function RunEnvelope(v: VState, i: VIn): (r: VState)
    requires Inv(v) && v.attackDelay == 0
    ensures Inv(r)
  {
    EnvStepRules(Env(v.envMode, v.env), i.shape, i.n);
    var e := EnvStep(Env(v.envMode, v.env), i.shape, i.n);
    v.(envMode := e.mode, env := e.level)
  }

  /** Everything that happens before the voice may fall silent. */
  function Begin(v: VState, i: VIn): (r: VState)
    requires Inv(v) && i.Valid()
    ensures Inv(r) && r.buf == v.buf
    ensures r.brrOff == 0 ==> r.interpPos == 0
  {
    var w := Poll(Mute(Delay(Fetch(v, i)), i), i);
    if w.attackDelay == 0 then RunEnvelope(w, i) else w
  }

  predicate Silent(v: VState)
  {
    v.attackDelay == 0 && v.envMode == Release && v.env == 0
  }

  predicate Decodes(v: VState) { v.interpPos >= 0x4000 }

  /** A group is decoded, and at the end of a block the next one is entered. */
  function NextGroup(v: VState, mem: seq<u8>): (r: VState)
    requires Inv(v) && IsMemory(mem) && v.brrOff != 0
    ensures Inv(r) && r.brrOff != 0
  {
    var w := BrrSample4(v, mem);
    if w.brrOff < BLOCK_SIZE then w
    else w.(brrAddr := if IsEnd(v.brrHdr) then v.nextBrrAddr else Wrap16(v.brrAddr + BLOCK_SIZE), brrOff := 1)
  }

  predicate EndsBlock(v: VState) { v.brrOff + 2 >= BLOCK_SIZE }

  /** The pitch accumulator, with its clamp. */
  function Advance(v: VState): VState
  {
    var p := v.interpPos % 0x4000 + v.pitch;
    v.(interpPos := if p > 0x7fff then 0x7fff else p)
  }

  function Finish(v: VState, mem: seq<u8>): (r: VState)
    requires Inv(v) && IsMemory(mem) && !Silent(v)
    requires v.brrOff == 0 ==> v.interpPos == 0
    ensures Inv(r)
  {
    Advance(if Decodes(v) then NextGroup(v, mem) else v)
  }

  /** The voice after one sample. */
  function VoiceStep(v: VState, i: VIn): (r: VState)
    requires Inv(v) && i.Valid()
    ensures Inv(r)
  {
    var w := Begin(v, i);
    if Silent(w) then w else Finish(w, i.mem)
  }

  /** What the voice shows of the sample in the registers and on its output. */
  datatype VOut = VOut(left: s16, right: s16, outx: u8, envx: u8, endSet: bool, endClear: bool)

  function SampleScale(sample: int, scale: s8): int { sample * scale / 0x80 }

  function VoiceOut(v: VState, i: VIn): VOut
    requires Inv(v) && i.Valid()
  {
    var t := Sound(Delay(Fetch(v, i)), i);
    var w := Begin(v, i);
    if Silent(w) then VOut(0, 0, t.outx, t.envx, false, false)
    else
      VOut(S16(SampleScale(t.sample, i.volL)), S16(SampleScale(t.sample, i.volR)), t.outx, t.envx,
           Decodes(w) && EndsBlock(w) && IsEnd(w.brrHdr), w.attackDelay == 5)
  }

  /** The clamp of the pitch accumulator never changes a value. */
  lemma PitchNeverClamps(v: VState)
    requires Inv(v)
    ensures Advance(v).interpPos == v.interpPos % 0x4000 + v.pitch
  {
  }

  /** The enveloped sample stays two steps inside 16 bits, so no cast on the way to the
      output wraps, not even at volume -128. */
  lemma OutputNeverWraps(raw: s16, env: int, vol: s8)
    requires 0 <= env <= ENV_MAX
    ensures -32752 <= Enveloped(raw, env) <= 32750
    ensures S16(Enveloped(raw, env)) == Enveloped(raw, env)
    ensures var out := SampleScale(Enveloped(raw, env), vol); S16(out) == out
  {
    MulMono(env, raw, 0x7fff);
    MulMono(env, -0x8000, raw);
    var e := Enveloped(raw, env);
    if e >= 0 {
      MulMono(e, vol, 0x7f);
      MulMono(e, -0x80, vol);
    } else {
      MulMono(-e, vol, 0x7f);
      MulMono(-e, -0x80, vol);
      assert e * vol == -((-e) * vol);
    }
  }
}

/** What a voice does over whole runs of samples, for arbitrary inputs in every sample:
    registers, directory, ARAM and counters may all change from one sample to the next
    unless a lemma says otherwise. */
module VoiceRuns {
  import opened Bits
  import opened Aram
  import opened Brr
  import opened Envelope
  import opened Voices

  ghost predicate AllValid(ins: seq<VIn>)
  {
    forall k :: 0 <= k < |ins| ==> ins[k].Valid()
  }

  /** The voice after one sample for each input. */
  ghost function VRun(v: VState, ins: seq<VIn>): (r: VState)
    requires Inv(v) && AllValid(ins)
    ensures Inv(r)
    decreases |ins|
  {
    if ins == [] then v else VRun(VoiceStep(v, ins[0]), ins[1..])
  }

  lemma {:induction false} VRunSnoc(v: VState, ins: seq<VIn>, k: nat)
    requires Inv(v) && AllValid(ins) && k < |ins|
    ensures VRun(v, ins[..k + 1]) == VoiceStep(VRun(v, ins[..k]), ins[k])
    decreases k
  {
    var w := VoiceStep(v, ins[0]);
    assert ins[..k + 1][1..] == ins[1..][..k];
    if k > 0 {
      assert ins[..k][1..] == ins[1..][..k - 1];
      VRunSnoc(w, ins[1..], k - 1);
    }
  }

  /** The address a voice reads in the directory: the loop entry, or the start entry while
      the attack delay runs. */
  ghost function DirectoryWord(v: VState, i: VIn): u16
    requires Inv(v) && i.Valid()
  {
    var entry := Wrap16(i.dir * 0x100 + i.srcn * 4);
    Word(i.mem, if v.attackDelay == 0 then Wrap16(entry + 2) else entry)
  }

  lemma FetchFrame(v: VState, i: VIn) returns (f: VState)
    requires Inv(v) && i.Valid()
    ensures f == Fetch(v, i) && f.brrHdr == i.mem[v.brrAddr] && f.nextBrrAddr == DirectoryWord(v, i)
    ensures f.pitch == i.pitchReg % 0x4000 && f.bufPos == v.bufPos && f.brrAddr == v.brrAddr && f.brrOff == v.brrOff
    ensures f.interpPos == v.interpPos && f.attackDelay == v.attackDelay
  {
    hide Word;
    f := Fetch(v, i);
  }

  lemma DelayFrame(f: VState)
    requires Inv(f) && f.attackDelay != 5
    ensures var d := Delay(f);
            && d.bufPos == f.bufPos && d.brrAddr == f.brrAddr && d.brrOff == f.brrOff
            && d.brrHdr == f.brrHdr && d.nextBrrAddr == f.nextBrrAddr
            && (f.attackDelay == 0 ==> d == f)
  {
  }

  /** What a sample leaves alone before it decodes, and what it has read by then. */
  lemma BeginFrame(v: VState, i: VIn)
    requires Inv(v) && i.Valid() && v.attackDelay != 5
    ensures var w := Begin(v, i);
            && w.bufPos == v.bufPos && w.brrAddr == v.brrAddr && w.brrOff == v.brrOff
            && w.brrHdr == i.mem[v.brrAddr] && w.nextBrrAddr == DirectoryWord(v, i)
            && (v.attackDelay == 0 ==> w.interpPos == v.interpPos && w.pitch == i.pitchReg % 0x4000)
  {
    hide EnvStep, Fetch, DirectoryWord, Inv;
    var f := FetchFrame(v, i);
    DelayFrame(f);
  }

  // ---- the samples decoded in a run ----

  /** The state in which a sample's group is decoded. */
  ghost predicate DecodesIn(v: VState, i: VIn)
    requires Inv(v) && i.Valid()
  {
    var w := Begin(v, i);
    !Silent(w) && Decodes(w)
  }

  ghost function Emitted(v: VState, i: VIn): (g: seq<s16>)
    requires Inv(v) && i.Valid()
  {
    if DecodesIn(v, i) then GroupOut(Begin(v, i), i.mem) else []
  }

  /** Everything decoded in a run. */
  ghost function Stream(v: VState, ins: seq<VIn>): seq<s16>
    requires Inv(v) && AllValid(ins)
    decreases |ins|
  {
    if ins == [] then [] else Emitted(v, ins[0]) + Stream(VoiceStep(v, ins[0]), ins[1..])
  }

  ghost function GroupsDecoded(v: VState, ins: seq<VIn>): nat
    requires Inv(v) && AllValid(ins)
    decreases |ins|
  {
    if ins == [] then 0
    else (if DecodesIn(v, ins[0]) then 1 else 0) + GroupsDecoded(VoiceStep(v, ins[0]), ins[1..])
  }

  // ---- the ring is a window on the stream ----

  /** The ring read from the write position on: oldest sample first. */
  ghost function Window(v: VState): (w: seq<s16>)
    requires Inv(v)
    ensures |w| == RING
  {
    v.buf[v.bufPos..] + v.buf[..v.bufPos]
  }

  ghost function Last12(s: seq<s16>): seq<s16>
    requires |s| >= RING
  {
    s[|s| - RING..]
  }

  lemma GroupEntersWindow(v: VState, mem: seq<u8>)
    requires Inv(v) && IsMemory(mem) && v.brrOff != 0
    ensures Window(NextGroup(v, mem)) == Window(v)[4..] + GroupOut(v, mem)
    ensures History(v) == (Window(v)[10], Window(v)[11])
  {
    hide GroupOut;
    SpliceWindow(v.buf, v.bufPos, GroupOut(v, mem));
  }

  lemma SpliceWindow(buf: seq<s16>, pos: nat, g: seq<s16>)
    requires |buf| == RING && |g| == 4 && pos in {0, 4, 8}
    ensures var b := buf[..pos] + g + buf[pos + 4..];
            var p := if pos == 8 then 0 else pos + 4;
            b[p..] + b[..p] == (buf[pos..] + buf[..pos])[4..] + g
  {
    var b := buf[..pos] + g + buf[pos + 4..];
    assert (buf[pos..] + buf[..pos])[4..] == buf[pos + 4..] + buf[..pos];
    if pos == 8 {
      assert b[0..] == buf[..8] + g;
    } else {
      assert b[pos + 4..] == buf[pos + 4..] && b[..pos + 4] == buf[..pos] + g;
    }
  }

  /** One sample shifts exactly the decoded samples into the window; only the first sample
      after a key-on, which resets the write position, reads the ring from elsewhere. */
  lemma StepShiftsWindow(v: VState, i: VIn)
    requires Inv(v) && i.Valid() && v.attackDelay != 5
    ensures Window(VoiceStep(v, i)) == Last12(Window(v) + Emitted(v, i))
  {
    hide Begin, GroupOut, NextGroup, Inv;
    var w := Begin(v, i);
    BeginFrame(v, i);
    if DecodesIn(v, i) {
      GroupEntersWindow(w, i.mem);
      assert Last12(Window(v) + Emitted(v, i)) == Window(v)[4..] + Emitted(v, i);
    } else {
      assert Window(v) + Emitted(v, i) == Window(v);
    }
  }

  /** No sample of the run begins with the reset of the write position. */
  ghost predicate NeverRestarts(v: VState, ins: seq<VIn>)
    requires Inv(v) && AllValid(ins)
    decreases |ins|
  {
    ins != [] ==> v.attackDelay != 5 && NeverRestarts(VoiceStep(v, ins[0]), ins[1..])
  }

  /** The decode ring is a window on the stream: after any run it holds the last twelve
      samples, oldest first, of what it held before followed by all that was decoded. */
  lemma {:induction false} RingIsWindow(v: VState, ins: seq<VIn>)
    requires Inv(v) && AllValid(ins) && NeverRestarts(v, ins)
    ensures Window(VRun(v, ins)) == Last12(Window(v) + Stream(v, ins))
    decreases |ins|
  {
    hide VoiceStep, Emitted, Window;
    if ins == [] {
      assert Window(v) + Stream(v, ins) == Window(v);
    } else {
      var w, e := VoiceStep(v, ins[0]), Emitted(v, ins[0]);
      var rest := Stream(w, ins[1..]);
      RingIsWindow(w, ins[1..]);
      StepShiftsWindow(v, ins[0]);
      assert Window(v) + (e + rest) == (Window(v) + e) + rest;
      LastOfLast(Window(v) + e, rest);
    }
  }

  lemma LastOfLast(a: seq<s16>, b: seq<s16>)
    requires |a| >= RING
    ensures Last12(Last12(a) + b) == Last12(a + b)
  {
  }

  /** Interpolation reads four consecutive samples of the window, the first of them
      interpPos >> 12 past the oldest. */
  lemma InterpolationReadsWindow(v: VState, k: nat)
    requires Inv(v) && k < 4
    ensures v.interpPos / 0x1000 + k < RING
    ensures Tap(v, k) == Window(v)[v.interpPos / 0x1000 + k]
  {
  }

  /** The table is the rising half of one symmetric kernel of 1024 points. */
  function Kernel(gauss: seq<s16>, x: nat): s16
    requires |gauss| == 512 && x < 1024
  {
    if x < 512 then gauss[x] else gauss[1023 - x]
  }

  /** The forward and reverse table pointers are one convolution: tap k weighs its sample by
      the kernel at 256 * k + 255 - m, m the eight fraction bits of the position. */
  lemma InterpolationIsConvolution(v: VState, gauss: seq<s16>)
    requires Inv(v) && |gauss| == 512
    ensures var m, at := InterpMid(v.interpPos), v.interpPos / 0x1000;
            && at + 3 < RING
            && Interpolate(v, gauss)
               == Even(Weigh(Kernel(gauss, 255 - m), Window(v)[at]) + Weigh(Kernel(gauss, 511 - m), Window(v)[at + 1])
                       + Weigh(Kernel(gauss, 767 - m), Window(v)[at + 2]) + Weigh(Kernel(gauss, 1023 - m), Window(v)[at + 3]))
  {
    hide Tap, Window, Weigh, InterpMid, Even, Inv, Kernel;
    InterpolationReadsWindow(v, 0);
    InterpolationReadsWindow(v, 1);
    InterpolationReadsWindow(v, 2);
    InterpolationReadsWindow(v, 3);
    KernelIsTable(gauss, InterpMid(v.interpPos));
  }

  lemma KernelIsTable(gauss: seq<s16>, m: nat)
    requires |gauss| == 512 && m < 0x100
    ensures Kernel(gauss, 255 - m) == gauss[255 - m] && Kernel(gauss, 511 - m) == gauss[511 - m]
    ensures Kernel(gauss, 767 - m) == gauss[256 + m] && Kernel(gauss, 1023 - m) == gauss[m]
  {
  }

  // ---- where interpolation overflows ----

  /** The blend of four samples at a position m between two of them. */
  function Blended(gauss: seq<s16>, m: nat, a: s16, b: s16, c: s16, d: s16): int
    requires |gauss| == 512 && m < 0x100
  {
    Even(Weigh(gauss[255 - m], a) + Weigh(gauss[511 - m], b) + Weigh(gauss[256 + m], c) + Weigh(gauss[m], d))
  }

  lemma InterpolateBlends(v: VState, gauss: seq<s16>)
    requires Inv(v) && |gauss| == 512
    ensures Interpolate(v, gauss) == Blended(gauss, InterpMid(v.interpPos), Tap(v, 0), Tap(v, 1), Tap(v, 2), Tap(v, 3))
  {
    hide Inv, Tap, Weigh, InterpMid, Even;
  }

  /** The four weights of a position, in 2048ths. */
  function WeightSum(gauss: seq<s16>, m: nat): int
    requires |gauss| == 512 && m < 0x100
  {
    gauss[255 - m] as int + gauss[511 - m] + gauss[256 + m] + gauss[m]
  }

  predicate NonNegative(gauss: seq<s16>, m: nat)
    requires |gauss| == 512 && m < 0x100
  {
    gauss[255 - m] >= 0 && gauss[511 - m] >= 0 && gauss[256 + m] >= 0 && gauss[m] >= 0
  }

  /** Some four samples blend to one that does not fit the 16 bits it is stored in. */
  ghost predicate CanOverflow(gauss: seq<s16>, m: nat)
    requires |gauss| == 512 && m < 0x100
  {
    exists a: s16, b: s16, c: s16, d: s16 :: !Fits(Blended(gauss, m, a, b, c, d))
  }

  /** A weight moves a sample by no more than itself, and never all the way up. */
  lemma WeighBounds(g: nat, s: s16)
    ensures -16 * g <= g as int * s / 0x800 <= 16 * g
    ensures g > 0 ==> g as int * s / 0x800 < 16 * g
    ensures g as int * -0x8000 / 0x800 == -16 * g
  {
    MulMono(g, s, 0x7fff);
    MulMono(g, -0x8000, s);
  }

  lemma BlendBounds(gauss: seq<s16>, m: nat, a: s16, b: s16, c: s16, d: s16)
    requires |gauss| == 512 && m < 0x100 && NonNegative(gauss, m)
    ensures -16 * WeightSum(gauss, m) <= Blended(gauss, m, a, b, c, d) <= 16 * WeightSum(gauss, m)
    ensures WeightSum(gauss, m) > 0 ==> Blended(gauss, m, a, b, c, d) < 16 * WeightSum(gauss, m)
    ensures Blended(gauss, m, -0x8000, -0x8000, -0x8000, -0x8000) == -16 * WeightSum(gauss, m)
  {
    WeighBounds(gauss[255 - m], a);
    WeighBounds(gauss[511 - m], b);
    WeighBounds(gauss[256 + m], c);
    WeighBounds(gauss[m], d);
  }

  /** Whatever the table, a position can overflow if and only if its weights add up to more
      than one; a ring at the lower rail then shows it. */
  lemma OverflowsExactly(gauss: seq<s16>, m: nat)
    requires |gauss| == 512 && m < 0x100 && NonNegative(gauss, m)
    ensures CanOverflow(gauss, m) <==> WeightSum(gauss, m) > 0x800
  {
    hide Blended, NonNegative, WeightSum;
    BlendBounds(gauss, m, -0x8000, -0x8000, -0x8000, -0x8000);
    forall a: s16, b: s16, c: s16, d: s16 | WeightSum(gauss, m) <= 0x800
      ensures Fits(Blended(gauss, m, a, b, c, d))
    {
      BlendBounds(gauss, m, a, b, c, d);
    }
  }

  // ---- what is put out ----

  /** The output of a voice that sounds is its enveloped sample times the volume over 128,
      rounded down, on both sides and for every volume: no cast has cut anything. */
  lemma OutputIsScaled(v: VState, i: VIn)
    requires Inv(v) && i.Valid() && !Silent(Begin(v, i))
    ensures var o, e := VoiceOut(v, i), Sound(Delay(Fetch(v, i)), i).sample;
            && 0 <= e * i.volL - 0x80 * o.left < 0x80
            && 0 <= e * i.volR - 0x80 * o.right < 0x80
  {
    hide Begin, Fetch, Delay, Interpolate, S16, Enveloped;
    var d := Delay(Fetch(v, i));
    if d.env != 0 {
      var raw := if i.noise then 0 else S16(Interpolate(d, i.gauss));
      OutputNeverWraps(raw, d.env, i.volL);
      OutputNeverWraps(raw, d.env, i.volR);
    }
    SilentScales(i.volL);
    SilentScales(i.volR);
  }

  lemma SilentScales(vol: s8)
    ensures S16(SampleScale(0, vol)) == 0
  {
  }

  /** While the attack delay runs nothing is heard or shown, and a key-on starts it again. */
  lemma DelayIsMute(v: VState, i: VIn)
    requires Inv(v) && i.Valid() && v.attackDelay > 0
    ensures var o := VoiceOut(v, i); o.left == 0 && o.right == 0 && o.outx == 0 && o.envx == 0
    ensures VoiceStep(v, i).attackDelay == if i.poll && i.kon then 5 else v.attackDelay - 1
  {
    var d := Delay(Fetch(v, i));
    assert d.env == 0 && d.attackDelay == v.attackDelay - 1;
    SilentScales(i.volL);
    SilentScales(i.volR);
    hide EnvStep, Fetch, Delay, GroupOut, Advance, NextGroup, SampleScale, S16, Interpolate;
    assert Sound(d, i) == Tone(0, 0, 0);
    if !Silent(Begin(v, i)) {
      FinishKeepsMode(Begin(v, i), i.mem);
    }
  }

  // ---- pitch is conserved ----

  /** Past its attack delay and sounding, in every sample of the run. */
  ghost predicate AlwaysActive(v: VState, ins: seq<VIn>)
    requires Inv(v) && AllValid(ins)
    decreases |ins|
  {
    ins != [] ==>
      && v.attackDelay == 0 && !Silent(Begin(v, ins[0]))
      && AlwaysActive(VoiceStep(v, ins[0]), ins[1..])
  }

  ghost function PitchSum(ins: seq<VIn>): nat
  {
    if ins == [] then 0 else ins[0].pitchReg % 0x4000 + PitchSum(ins[1..])
  }

  lemma PitchStep(v: VState, i: VIn)
    requires Inv(v) && i.Valid() && v.attackDelay == 0 && !Silent(Begin(v, i))
    ensures (if DecodesIn(v, i) then 0x4000 else 0) + VoiceStep(v, i).interpPos == v.interpPos + i.pitchReg % 0x4000
  {
    hide Begin, GroupOut;
    BeginFrame(v, i);
    assert 0 <= v.interpPos <= 0x7fff;
    assert v.interpPos % 0x4000 == v.interpPos - (if v.interpPos >= 0x4000 then 0x4000 else 0);
  }

  /** Nothing is lost or gained: every 0x4000 steps of pitch are one decoded group. */
  lemma {:induction false} PitchIsConserved(v: VState, ins: seq<VIn>)
    requires Inv(v) && AllValid(ins) && AlwaysActive(v, ins)
    ensures 0x4000 * GroupsDecoded(v, ins) + VRun(v, ins).interpPos == v.interpPos + PitchSum(ins)
    decreases |ins|
  {
    if ins != [] {
      PitchStep(v, ins[0]);
      hide VoiceStep, DecodesIn, Begin;
      PitchIsConserved(VoiceStep(v, ins[0]), ins[1..]);
    }
  }

  // ---- mode changes ----

  /** The header in force in a sample. */
  ghost function HeaderIn(v: VState, i: VIn): u8
    requires Inv(v) && i.Valid()
  {
    if v.attackDelay == 5 then 0 else i.mem[v.brrAddr]
  }

  /** Each mode is entered from its predecessor only, attack by key-on and release by
      key-off, reset or an end block only. */
  lemma ModeMoves(v: VState, i: VIn)
    requires Inv(v) && i.Valid()
    ensures var r := VoiceStep(v, i);
            && (i.poll && i.kon <==> r.envMode == Attack && r.attackDelay == 5)
            && (r.envMode == Attack ==> v.envMode == Attack || (i.poll && i.kon))
            && (r.envMode == Decay ==> v.envMode in {Attack, Decay})
            && (r.envMode == Sustain ==> v.envMode in {Decay, Sustain})
            && (r.envMode == Release && v.envMode != Release ==>
                  i.reset || HeaderIn(v, i) % 4 == 1 || (i.poll && i.koff))
  {
    var d := Delay(Fetch(v, i));
    assert d.envMode == v.envMode && d.brrHdr == HeaderIn(v, i) && d.attackDelay < 5;
    var w := Poll(Mute(d, i), i);
    if w.attackDelay == 0 {
      EnvStepRules(Env(w.envMode, w.env), i.shape, i.n);
    }
    hide EnvStep, Fetch, Delay, GroupOut, Advance, NextGroup;
    if !Silent(Begin(v, i)) {
      FinishKeepsMode(Begin(v, i), i.mem);
    }
  }

  lemma FinishKeepsMode(w: VState, mem: seq<u8>)
    requires Inv(w) && IsMemory(mem) && !Silent(w) && (w.brrOff == 0 ==> w.interpPos == 0)
    ensures var r := Finish(w, mem);
            r.envMode == w.envMode && r.env == w.env && r.attackDelay == w.attackDelay
  {
  }

  /** A voice asks for its ENDX bit exactly when it finishes the last group of an end block,
      from which it goes on where the directory says, and never in the sample after a key-on;
      it takes the bit back exactly when it is keyed on. */
  lemma EndxEvents(v: VState, i: VIn)
    requires Inv(v) && i.Valid()
    ensures VoiceOut(v, i).endClear <==> i.poll && i.kon
    ensures v.attackDelay != 5 ==>
              (VoiceOut(v, i).endSet <==> DecodesIn(v, i) && v.brrOff == 7 && i.mem[v.brrAddr] % 2 == 1)
    ensures v.attackDelay == 5 ==> !VoiceOut(v, i).endSet
    ensures v.attackDelay != 5 && VoiceOut(v, i).endSet ==>
              VoiceStep(v, i).brrAddr == DirectoryWord(v, i) && VoiceStep(v, i).brrOff == 1
  {
    hide EnvStep, GroupOut, Sound, SampleScale, S16, Word;
    KeyOnShows(v, i);
    if v.attackDelay != 5 {
      BeginFrame(v, i);
      hide Begin, DirectoryWord;
    }
  }

  lemma KeyOnShows(v: VState, i: VIn)
    requires Inv(v) && i.Valid()
    ensures Begin(v, i).attackDelay == 5 <==> i.poll && i.kon
  {
    var d := Delay(Fetch(v, i));
    assert d.attackDelay < 5;
    hide EnvStep, Fetch, Delay;
  }

  // ---- release and silence ----

  ghost predicate NoKeyOn(ins: seq<VIn>)
  {
    forall k :: 0 <= k < |ins| ==> !(ins[k].poll && ins[k].kon)
  }

  /** What releases a voice: after a sample it is in release if and only if it was not keyed
      on in it and was in release before, or soft reset was set, or the block was one that
      ends the sample, or its key was polled as off. */
  lemma ReleasedExactly(v: VState, i: VIn)
    requires Inv(v) && i.Valid()
    ensures VoiceStep(v, i).envMode == Release
            <==> !(i.poll && i.kon)
                 && (v.envMode == Release || i.reset || HeaderIn(v, i) % 4 == 1 || (i.poll && i.koff))
    ensures i.reset || HeaderIn(v, i) % 4 == 1 ==> VoiceStep(v, i).envMode in {Release, Attack} && VoiceStep(v, i).env == 0
  {
    BeginReleases(v, i);
    hide Begin, Finish, Advance, NextGroup;
    if !Silent(Begin(v, i)) {
      FinishKeepsMode(Begin(v, i), i.mem);
    }
  }

  lemma BeginReleases(v: VState, i: VIn)
    requires Inv(v) && i.Valid()
    ensures Begin(v, i).envMode == Release
            <==> !(i.poll && i.kon)
                 && (v.envMode == Release || i.reset || HeaderIn(v, i) % 4 == 1 || (i.poll && i.koff))
    ensures i.reset || HeaderIn(v, i) % 4 == 1 ==> Begin(v, i).envMode in {Release, Attack} && Begin(v, i).env == 0
  {
    var d := Delay(Fetch(v, i));
    assert d.envMode == v.envMode && d.brrHdr == HeaderIn(v, i) && d.attackDelay < 5;
    var w := Poll(Mute(d, i), i);
    if w.attackDelay == 0 {
      EnvStepRules(Env(w.envMode, w.env), i.shape, i.n);
      if w.envMode == Release {
        ReleaseStays(Env(w.envMode, w.env), i.shape, i.n);
      }
    }
    hide EnvStep, Fetch, Delay;
  }

  lemma ReleaseStays(e: Env, sh: Shape, n: nat)
    requires e.mode == Release
    ensures EnvStep(e, sh, n) == Env(Release, EnvelopeRelease(e.level))
  {
  }

  /** A voice that is in release, or is keyed off, loses eight levels a sample, or all of them
      while its attack delay runs. */
  lemma ReleaseFalls(v: VState, i: VIn)
    requires Inv(v) && i.Valid() && !(i.poll && i.kon) && (v.envMode == Release || (i.poll && i.koff))
    ensures var r := VoiceStep(v, i);
            && r.envMode == Release && r.env <= (if v.env > 8 then v.env - 8 else 0)
            && r.attackDelay == if v.attackDelay > 0 then v.attackDelay - 1 else 0
  {
    var d := Delay(Fetch(v, i));
    assert d.attackDelay == if v.attackDelay > 0 then v.attackDelay - 1 else 0;
    assert d.env == if v.attackDelay > 0 then 0 else v.env;
    assert d.envMode == v.envMode;
    var w := Poll(Mute(d, i), i);
    assert w.envMode == Release && w.attackDelay == d.attackDelay && w.env <= d.env;
    hide Fetch, Delay, Advance, NextGroup;
    ReleaseStays(Env(w.envMode, w.env), i.shape, i.n);
    if !Silent(Begin(v, i)) {
      FinishKeepsMode(Begin(v, i), i.mem);
    }
  }

  /** How far a voice must have got, `done` samples after it was released. */
  ghost predicate Fading(v: VState, done: nat)
  {
    v.envMode == Release && v.env <= Released(ENV_MAX, done) && v.attackDelay as int <= (if done < 5 then 5 - done else 0)
  }

  lemma StillFading(v: VState, i: VIn, done: nat)
    requires Inv(v) && i.Valid() && !(i.poll && i.kon)
    requires Fading(v, done) || (done == 0 && i.poll && i.koff)
    ensures Fading(VoiceStep(v, i), done + 1)
  {
    ReleaseFalls(v, i);
    hide VoiceStep;
  }

  lemma {:induction false} ReleaseRuns(v: VState, ins: seq<VIn>, done: nat)
    requires Inv(v) && AllValid(ins) && NoKeyOn(ins) && Fading(v, done)
    ensures Fading(VRun(v, ins), done + |ins|)
    decreases |ins|
  {
    hide VoiceStep, Fading;
    if ins != [] {
      StillFading(v, ins[0], done);
      ReleaseRuns(VoiceStep(v, ins[0]), ins[1..], done + 1);
    }
  }

  /** A voice that is in release when it starts, or is keyed off in the first sample, and is
      not keyed on is silent after 256 samples, whatever its level, its attack delay and its
      registers were. */
  lemma {:induction false} ReleaseReachesSilence(v: VState, ins: seq<VIn>)
    requires Inv(v) && AllValid(ins) && NoKeyOn(ins) && |ins| >= 256
    requires v.envMode == Release || (ins[0].poll && ins[0].koff)
    ensures Silent(VRun(v, ins))
  {
    hide VoiceStep;
    assert v.envMode == Release ==> Fading(v, 0);
    StillFading(v, ins[0], 0);
    ReleaseRuns(VoiceStep(v, ins[0]), ins[1..], 1);
    assert Released(ENV_MAX, |ins|) == 0;
  }

  /** What a silent voice must leave alone. */
  ghost predicate SamePlace(v: VState, w: VState)
  {
    && v.brrAddr == w.brrAddr && v.brrOff == w.brrOff && v.buf == w.buf && v.bufPos == w.bufPos
    && v.interpPos == w.interpPos && v.env == w.env && v.envMode == w.envMode
    && v.attackDelay == w.attackDelay
  }

  lemma SilenceHolds(v: VState, i: VIn)
    requires Inv(v) && i.Valid() && Silent(v) && !(i.poll && i.kon)
    ensures SamePlace(v, VoiceStep(v, i)) && Silent(VoiceStep(v, i))
    ensures VoiceOut(v, i) == VOut(0, 0, 0, 0, false, false)
  {
  }

  /** A silent voice stays where it is, puts out nothing and touches no ENDX bit until it
      is keyed on. */
  lemma {:induction false} SilenceLasts(v: VState, ins: seq<VIn>, k: nat)
    requires Inv(v) && AllValid(ins) && NoKeyOn(ins) && Silent(v) && k < |ins|
    ensures SamePlace(v, VRun(v, ins[..k])) && Silent(VRun(v, ins[..k]))
    ensures VoiceOut(VRun(v, ins[..k]), ins[k]) == VOut(0, 0, 0, 0, false, false)
    decreases k
  {
    hide VoiceStep, VoiceOut;
    if k > 0 {
      SilenceLasts(v, ins, k - 1);
      VRunSnoc(v, ins, k - 1);
      SilenceHolds(VRun(v, ins[..k - 1]), ins[k - 1]);
    }
    SilenceHolds(VRun(v, ins[..k]), ins[k]);
  }
}

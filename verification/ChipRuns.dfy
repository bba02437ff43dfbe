/** Runs of the sample engine from reset, with arbitrary stores into the registers and the
    ARAM between the samples, and what the theorems about one voice and about the echo
    unit say of them. */
module ChipRuns {
  import opened Bits
  import opened Aram
  import Brr
  import opened Envelope
  import opened Voices
  import VoiceRuns
  import Liveness
  import Streaming
  import Counters
  import opened Echo
  import opened Chip

  /** What the processor stores between two samples. */
  datatype Frame = Frame(stores: seq<(nat, u8)>, pokes: seq<(u16, u8)>) {
    ghost predicate Valid() { forall k :: 0 <= k < |stores| ==> stores[k].0 < REGISTERS }
  }

  ghost function AllStored(regs: seq<u8>, stores: seq<(nat, u8)>): (r: seq<u8>)
    requires |regs| == REGISTERS && forall k :: 0 <= k < |stores| ==> stores[k].0 < REGISTERS
    ensures |r| == REGISTERS
    decreases |stores|
  {
    if stores == [] then regs else AllStored(Stored(regs, stores[0].0, stores[0].1), stores[1..])
  }

  ghost function AllPoked(mem: seq<u8>, pokes: seq<(u16, u8)>): (r: seq<u8>)
    requires IsMemory(mem)
    ensures IsMemory(r)
    ensures forall a: u16 :: (forall k :: 0 <= k < |pokes| ==> pokes[k].0 != a) ==> r[a] == mem[a]
    decreases |pokes|
  {
    if pokes == [] then mem
    else
      assert forall k :: 0 <= k < |pokes[1..]| ==> pokes[1..][k] == pokes[k + 1];
      AllPoked(mem[pokes[0].0 := pokes[0].1], pokes[1..])
  }

  ghost function Before(c: State, f: Frame): (r: State)
    requires CInv(c) && f.Valid()
    ensures CInv(r)
  {
    c.(regs := AllStored(c.regs, f.stores), mem := AllPoked(c.mem, f.pokes))
  }

  ghost predicate AllFrames(fs: seq<Frame>)
  {
    forall k :: 0 <= k < |fs| ==> fs[k].Valid()
  }

  /** The state after k frames: stores, then one sample, each. */
  ghost function CRun(c: State, fs: seq<Frame>, k: nat): (r: State)
    requires CInv(c) && AllFrames(fs) && k <= |fs|
    ensures CInv(r)
    decreases k, 0
  {
    if k == 0 then c else Next(AtSample(c, fs, k - 1))
  }

  /** The state in which sample k starts. */
  ghost function AtSample(c: State, fs: seq<Frame>, k: nat): (r: State)
    requires CInv(c) && AllFrames(fs) && k < |fs|
    ensures CInv(r)
    decreases k, 1
  {
    Before(CRun(c, fs, k), fs[k])
  }

  /** The invariant of every run from reset, in plain bounds. */
  lemma {:induction false} EveryRunStaysInBounds(regs: seq<u8>, mem: seq<u8>, gauss: seq<s16>, fs: seq<Frame>, k: nat)
    requires |regs| == REGISTERS && IsMemory(mem) && |gauss| == 512 && AllFrames(fs) && k <= |fs|
    ensures var c := CRun(Reset(regs, mem, gauss), fs, k);
            && (forall i :: 0 <= i < CHANNELS ==>
                  var v := c.vs[i];
                  && 0 <= v.env <= 0x7ff && 0 <= v.interpPos <= 0x7fff && v.bufPos in {0, 4, 8}
                  && v.attackDelay <= 5 && v.brrOff in {0, 1, 3, 5, 7}
                  && (v.brrOff == 0 ==> !Decodes(v))
                  && v.bufPos + v.interpPos / 0x1000 + 3 <= 18)
            && c.echo.histPos < 8 && c.echo.offset % 4 == 0 && c.echo.length <= 0x7800
            && (c.echo.offset == 0 || c.echo.offset < c.echo.length)
  {
    hide Next, CRun;
    var c := CRun(Reset(regs, mem, gauss), fs, k);
    forall i | 0 <= i < CHANNELS
      ensures Inv(c.vs[i])
    {
    }
  }

  // ---- the voices do not disturb each other ----

  /** The registers that voices write. */
  predicate IsShown(addr: nat) { addr == REG_ENDX || addr % 16 == 8 || addr % 16 == 9 }

  ghost predicate SameButShown(c: State, d: State)
    requires CInv(c) && CInv(d)
  {
    && (forall a :: 0 <= a < REGISTERS && !IsShown(a) ==> c.regs[a] == d.regs[a])
    && c.mem == d.mem && c.gauss == d.gauss && c.n == d.n && c.toggle == d.toggle
    && c.kon == d.kon && c.koff == d.koff && c.eon == d.eon && c.echo == d.echo
  }

  lemma SameInput(c: State, d: State, i: nat)
    requires CInv(c) && CInv(d) && SameButShown(c, d) && i < CHANNELS
    ensures VoiceInput(c, i) == VoiceInput(d, i)
  {
    hide Bit, S8;
    assert c.regs[16 * i] == d.regs[16 * i] && c.regs[16 * i + 1] == d.regs[16 * i + 1]
        && c.regs[16 * i + 2] == d.regs[16 * i + 2] && c.regs[16 * i + 3] == d.regs[16 * i + 3]
        && c.regs[16 * i + 4] == d.regs[16 * i + 4] && c.regs[16 * i + 5] == d.regs[16 * i + 5]
        && c.regs[16 * i + 6] == d.regs[16 * i + 6] && c.regs[16 * i + 7] == d.regs[16 * i + 7];
  }

  lemma OneVoiceIsLocal(c: State, m: Mix, i: nat)
    requires CInv(c) && i < CHANNELS
    ensures var d := OneVoice(c, m, i).0;
            && SameButShown(c, d)
            && d.vs == c.vs[i := VoiceStep(c.vs[i], VoiceInput(c, i))]
  {
    hide VoiceStep, VoiceOut, VoiceInput, Bit, ByteWithBit, Inv;
  }

  /** In one sample every voice steps on the state in which the sample started, whatever
      the voices before it have done. */
  lemma {:induction false} VoicesAreIndependent(c: State, k: nat)
    requires CInv(c) && k <= CHANNELS
    ensures var d := RunVoices(c, k).0;
            && SameButShown(c, d)
            && forall i :: 0 <= i < CHANNELS ==>
                 d.vs[i] == if i < k then VoiceStep(c.vs[i], VoiceInput(c, i)) else c.vs[i]
  {
    hide VoiceStep, VoiceInput, OneVoice, Inv, IsShown;
    if k > 0 {
      VoicesAreIndependent(c, k - 1);
      var p := RunVoices(c, k - 1);
      OneVoiceIsLocal(p.0, p.1, k - 1);
      SameInput(c, p.0, k - 1);
    }
  }

  // ---- the mix ----

  /** The sums of what the first k voices put out, on the main bus and on the echo bus. */
  ghost function MainSum(c: State, k: nat): (int, int)
    requires CInv(c) && k <= CHANNELS
  {
    if k == 0 then (0, 0)
    else
      var s, o := MainSum(c, k - 1), VoiceSample(c, k - 1);
      (s.0 + o.left, s.1 + o.right)
  }

  ghost function EchoSum(c: State, k: nat): (int, int)
    requires CInv(c) && k <= CHANNELS
  {
    if k == 0 then (0, 0)
    else
      var s, o := EchoSum(c, k - 1), VoiceSample(c, k - 1);
      if Bit(c.eon, k - 1) then (s.0 + o.left, s.1 + o.right) else s
  }

  predicate IsSample(s: (int, int)) { -0x8000 <= s.0 < 0x8000 && -0x8000 <= s.1 < 0x8000 }

  /** As long as no partial sum leaves 16 bits, the buses carry the sums of the voices, the
      echo bus of those whose EON bit is set. */
  lemma {:induction false} MixIsSum(c: State, k: nat)
    requires CInv(c) && k <= CHANNELS
    requires forall j :: 0 <= j <= k ==> IsSample(MainSum(c, j)) && IsSample(EchoSum(c, j))
    ensures var m := RunVoices(c, k).1;
            && (m.main.left, m.main.right) == MainSum(c, k)
            && (m.echo.left, m.echo.right) == EchoSum(c, k)
  {
    hide VoiceSample, OneVoice, Bit, Inv, CInv, IsShown, VoiceInput, Blend;
    if k > 0 {
      MixIsSum(c, k - 1);
      var p := RunVoices(c, k - 1);
      VoicesAreIndependent(c, k - 1);
      SameInput(c, p.0, k - 1);
      SameSample(c, p.0, k - 1);
      OneVoiceMixes(p.0, p.1, k - 1);
      assert IsSample(MainSum(c, k)) && IsSample(EchoSum(c, k));
      var o := VoiceSample(c, k - 1);
      BlendIsSum(p.1.main, o.left, o.right);
      if Bit(c.eon, k - 1) {
        BlendIsSum(p.1.echo, o.left, o.right);
      }
    }
  }

  lemma BlendIsSum(a: Sample, left: s16, right: s16)
    requires IsSample((a.left + left, a.right + right))
    ensures Blend(a, left, right) == Sample(a.left + left, a.right + right)
  {
  }

  lemma SameSample(c: State, d: State, i: nat)
    requires CInv(c) && CInv(d) && i < CHANNELS && c.vs[i] == d.vs[i] && VoiceInput(c, i) == VoiceInput(d, i)
    ensures VoiceSample(c, i) == VoiceSample(d, i)
  {
  }

  lemma OneVoiceMixes(c: State, m: Mix, i: nat)
    requires CInv(c) && i < CHANNELS
    ensures var o, r := VoiceSample(c, i), OneVoice(c, m, i).1;
            && r.main == Blend(m.main, o.left, o.right)
            && r.echo == if Bit(c.eon, i) then Blend(m.echo, o.left, o.right) else m.echo
  {
    hide VoiceStep, VoiceOut, VoiceInput, Show, Inv, Bit, Blend;
  }

  // ---- one voice of a run ----

  /** What voice i reads in sample k of a run. */
  ghost function SampleInput(c: State, fs: seq<Frame>, i: nat, k: nat): (r: VIn)
    requires CInv(c) && AllFrames(fs) && k < |fs| && i < CHANNELS
    ensures r.Valid()
  {
    VoiceInput(Latch(AtSample(c, fs, k)), i)
  }

  ghost function VoiceInputs(c: State, fs: seq<Frame>, i: nat, k: nat): (r: seq<VIn>)
    requires CInv(c) && AllFrames(fs) && k <= |fs| && i < CHANNELS
    ensures |r| == k && VoiceRuns.AllValid(r)
  {
    seq(k, j requires 0 <= j < k => SampleInput(c, fs, i, j))
  }

  lemma NextStepsVoice(c: State, i: nat)
    requires CInv(c) && i < CHANNELS
    ensures Next(c).vs[i] == VoiceStep(c.vs[i], VoiceInput(Latch(c), i))
    ensures Next(c).n == c.n + 1
  {
    VoicesAreIndependent(Latch(c), CHANNELS);
    hide RunVoices, VoiceStep, VoiceInput, EchoStep, EchoMemory, Inv;
  }

  lemma {:induction false} FrameStepsVoice(c: State, fs: seq<Frame>, i: nat, k: nat)
    requires CInv(c) && AllFrames(fs) && k < |fs| && i < CHANNELS
    ensures CRun(c, fs, k + 1).vs[i] == VoiceStep(CRun(c, fs, k).vs[i], SampleInput(c, fs, i, k))
    ensures CRun(c, fs, k + 1).n == CRun(c, fs, k).n + 1
  {
    NextStepsVoice(AtSample(c, fs, k), i);
    hide Next, VoiceStep, VoiceInput, Latch, Inv;
  }

  /** Voice i of the engine is the voice that the theorems of VoiceRuns, Streaming and
      Liveness are about, run on the inputs that the engine hands it, the rate counters
      one run further on in each. */
  lemma {:induction false} VoiceOfRun(c: State, fs: seq<Frame>, i: nat, k: nat)
    requires CInv(c) && AllFrames(fs) && k <= |fs| && i < CHANNELS
    ensures CRun(c, fs, k).vs[i] == VoiceRuns.VRun(c.vs[i], VoiceInputs(c, fs, i, k))
    ensures CRun(c, fs, k).n == c.n + k
  {
    hide VoiceStep, SampleInput, VoiceInputs, Inv, VoiceRuns.VRun, CRun;
    if k == 0 {
      NothingRun(c, fs, i);
    } else {
      VoiceOfRun(c, fs, i, k - 1);
      FrameStepsVoice(c, fs, i, k - 1);
      InputsSnoc(c, fs, i, k);
      VoiceRuns.VRunSnoc(c.vs[i], VoiceInputs(c, fs, i, k), k - 1);
    }
  }

  lemma {:induction false} NothingRun(c: State, fs: seq<Frame>, i: nat)
    requires CInv(c) && AllFrames(fs) && i < CHANNELS
    ensures CRun(c, fs, 0) == c && VoiceRuns.VRun(c.vs[i], VoiceInputs(c, fs, i, 0)) == c.vs[i]
  {
    hide SampleInput, Inv;
  }

  lemma InputsSnoc(c: State, fs: seq<Frame>, i: nat, k: nat)
    requires CInv(c) && AllFrames(fs) && 0 < k <= |fs| && i < CHANNELS
    ensures var ins := VoiceInputs(c, fs, i, k);
            ins[k - 1] == SampleInput(c, fs, i, k - 1) && ins[..k - 1] == VoiceInputs(c, fs, i, k - 1) && ins[..k] == ins
  {
    hide SampleInput;
  }

  lemma {:induction false} CountersAdvance(c: State, fs: seq<Frame>, i: nat, k: nat)
    requires CInv(c) && AllFrames(fs) && k < |fs| && i < CHANNELS
    ensures SampleInput(c, fs, i, k).n == c.n + k + 1
  {
    VoiceOfRun(c, fs, i, k);
    hide CRun, Inv, Bit, S8;
  }

  /** The voice of the engine after k samples is the voice after the first k inputs. */
  lemma {:induction false} VoicePrefix(c: State, fs: seq<Frame>, i: nat, k: nat)
    requires CInv(c) && AllFrames(fs) && k <= |fs| && i < CHANNELS
    ensures var ins := VoiceInputs(c, fs, i, |fs|);
            CRun(c, fs, k).vs[i] == VoiceRuns.VRun(c.vs[i], ins[..k])
  {
    hide CRun, VoiceRuns.VRun, SampleInput;
    VoiceOfRun(c, fs, i, k);
    assert VoiceInputs(c, fs, i, |fs|)[..k] == VoiceInputs(c, fs, i, k);
  }

  /** In every sample of the run the envelope registers of voice i hold sh, and the voice
      meets no key event, no reset and no end-without-loop block. */
  ghost predicate VoiceLeftAlone(c: State, fs: seq<Frame>, i: nat, sh: Shape)
    requires CInv(c) && AllFrames(fs) && i < CHANNELS
  {
    forall k :: 0 <= k < |fs| ==>
      SampleInput(c, fs, i, k).shape == sh && Liveness.Undisturbed(CRun(c, fs, k).vs[i], SampleInput(c, fs, i, k))
  }

  lemma {:induction false} LeftAloneIsHeld(c: State, fs: seq<Frame>, i: nat, sh: Shape)
    requires CInv(c) && AllFrames(fs) && i < CHANNELS && VoiceLeftAlone(c, fs, i, sh)
    ensures Liveness.Held(c.vs[i], VoiceInputs(c, fs, i, |fs|), sh, c.n + 1)
  {
    hide CRun, VoiceRuns.VRun, SampleInput, Liveness.Undisturbed, Liveness.Held;
    var v, ins, n := c.vs[i], VoiceInputs(c, fs, i, |fs|), c.n + 1;
    forall k | 0 <= k < |ins|
      ensures Liveness.HeldAt(v, ins, sh, n, k)
    {
      VoicePrefix(c, fs, i, k);
      CountersAdvance(c, fs, i, k);
      assert ins[k] == SampleInput(c, fs, i, k);
    }
    Liveness.HeldSampleBySample(v, ins, sh, n, 0);
    NoSamplesYet(c, fs, i);
  }

  lemma NoSamplesYet(c: State, fs: seq<Frame>, i: nat)
    requires CInv(c) && AllFrames(fs) && i < CHANNELS
    ensures var ins := VoiceInputs(c, fs, i, |fs|); VoiceRuns.VRun(c.vs[i], ins[..0]) == c.vs[i] && ins[0..] == ins
  {
    hide SampleInput;
  }

  /** In the running engine, whatever the other voices, the echo and the processor do: a
      voice keyed on with ADSR and then left alone is in decay at most 64 periods of its
      attack rate after its attack delay, and in sustain at most 896 periods of its decay
      rate after that. */
  lemma EngineKeyOnLeadsToSustain(c: State, fs: seq<Frame>, i: nat, sh: Shape) returns (d: nat, s: nat)
    requires CInv(c) && AllFrames(fs) && i < CHANNELS && sh.UsesAdsr() && VoiceLeftAlone(c, fs, i, sh)
    requires c.vs[i].attackDelay == 5 && c.vs[i].envMode == Attack
    requires |fs| >= 5 + Liveness.AttackAndDecayTime(sh)
    ensures 5 < d <= 5 + 64 * Counters.Period(sh.AttackRate()) && d < s <= d + 896 * Counters.Period(sh.DecayRate())
    ensures s <= |fs| && CRun(c, fs, d).vs[i].envMode == Decay && CRun(c, fs, s).vs[i].envMode == Sustain
  {
    hide CRun, VoiceRuns.VRun, VoiceInputs, Liveness.Held, VoiceLeftAlone, Counters.Period;
    LeftAloneIsHeld(c, fs, i, sh);
    d, s := Liveness.KeyOnLeadsToSustain(c.vs[i], VoiceInputs(c, fs, i, |fs|), sh, c.n + 1);
    VoicePrefix(c, fs, i, d);
    VoicePrefix(c, fs, i, s);
  }

  // ---- what becomes of a key-on ----

  /** KON and KOFF are looked at in every other sample, and a bit of KON counts only if it
      did not count the time before. */
  lemma KeysPolled(c: State, j: nat)
    requires CInv(c) && j < CHANNELS
    ensures Next(c).toggle == !c.toggle
    ensures Bit(Next(c).kon, j) == if c.toggle then Bit(c.regs[0x4c], j) && !Bit(c.kon, j) else Bit(c.kon, j)
    ensures Next(c).koff == if c.toggle then c.regs[0x5c] else c.koff
    ensures Next(c).kon == Latch(c).kon && Next(c).toggle == Latch(c).toggle
  {
    AndNotBit(c.regs[REG_KON], c.kon, 8, j);
    VoicesAreIndependent(Latch(c), CHANNELS);
    hide RunVoices, EchoStep, EchoMemory, EchoInput, Inv, Bit, AndNot, VoiceStep, VoiceInput;
  }

  /** What a voice learns of its keys in a sample. */
  lemma KeysSeen(c: State, j: nat)
    requires CInv(c) && j < CHANNELS
    ensures var i := VoiceInput(Latch(c), j); i.poll == c.toggle && i.kon == Bit(Next(c).kon, j)
  {
    KeysPolled(c, j);
    hide Next, CInv, Bit, S8;
  }

  /** The samples still to be waited after k samples of a run. */
  ghost function DelayAfter(c: State, fs: seq<Frame>, j: nat, k: nat): nat
    requires CInv(c) && AllFrames(fs) && j < CHANNELS && k <= |fs|
  {
    CRun(c, fs, k).vs[j].attackDelay
  }

  /** Bit j of KON when sample k starts. */
  ghost predicate KonSet(c: State, fs: seq<Frame>, j: nat, k: nat)
    requires CInv(c) && AllFrames(fs) && k < |fs|
  {
    Bit(AtSample(c, fs, k).regs[0x4c], j)
  }

  /** Voice j is keyed on in sample k: it polls the keys, the bit of KON is set, and it did
      not count the time before. */
  ghost predicate KeyedAt(c: State, fs: seq<Frame>, j: nat, k: nat)
    requires CInv(c) && AllFrames(fs) && k < |fs|
  {
    CRun(c, fs, k).toggle && KonSet(c, fs, j, k) && !Bit(CRun(c, fs, k).kon, j)
  }

  /** What the poll of sample k leaves for the next. */
  lemma {:induction false} FramePolls(c: State, fs: seq<Frame>, j: nat, k: nat)
    requires CInv(c) && AllFrames(fs) && j < CHANNELS && k < |fs|
    ensures var s, r := CRun(c, fs, k), CRun(c, fs, k + 1);
            && r.toggle == !s.toggle
            && Bit(r.kon, j) == (if s.toggle then KonSet(c, fs, j, k) && !Bit(s.kon, j) else Bit(s.kon, j))
    ensures var i := SampleInput(c, fs, j, k); (i.poll && i.kon) == KeyedAt(c, fs, j, k)
  {
    hide Next, Inv, Bit, Latch, VoiceInput;
    KeysPolled(AtSample(c, fs, k), j);
    KeysSeen(AtSample(c, fs, k), j);
  }

  /** A key-on starts the attack delay; without one it runs down. */
  lemma FrameDelays(c: State, fs: seq<Frame>, j: nat, k: nat)
    requires CInv(c) && AllFrames(fs) && j < CHANNELS && k < |fs|
    ensures KeyedAt(c, fs, j, k) ==> DelayAfter(c, fs, j, k + 1) == 5
    ensures !KeyedAt(c, fs, j, k) && DelayAfter(c, fs, j, k) > 0 ==>
              DelayAfter(c, fs, j, k + 1) == DelayAfter(c, fs, j, k) - 1
  {
    hide CRun, SampleInput, KeyedAt, VoiceStep, VoiceInput, Inv;
    FrameStepsVoice(c, fs, j, k);
    FramePolls(c, fs, j, k);
    if KeyedAt(c, fs, j, k) {
      VoiceRuns.ModeMoves(CRun(c, fs, k).vs[j], SampleInput(c, fs, j, k));
    } else if DelayAfter(c, fs, j, k) > 0 {
      VoiceRuns.DelayIsMute(CRun(c, fs, k).vs[j], SampleInput(c, fs, j, k));
    }
  }

  /** A voice that is not past its delay puts out nothing. */
  lemma {:induction false} DelayedIsMute(c: State, fs: seq<Frame>, j: nat, k: nat)
    requires CInv(c) && AllFrames(fs) && j < CHANNELS && k < |fs| && DelayAfter(c, fs, j, k) > 0
    ensures VoiceSample(Latch(AtSample(c, fs, k)), j) == Sample(0, 0)
  {
    hide CRun, SampleInput, VoiceOut, VoiceSample, Inv;
    SampleOfVoice(c, fs, j, k);
    VoiceRuns.DelayIsMute(CRun(c, fs, k).vs[j], SampleInput(c, fs, j, k));
  }

  /** The next poll clears the key, so it can count again only in the one after. */
  lemma NextKeyOn(c: State, fs: seq<Frame>, j: nat, k: nat)
    requires CInv(c) && AllFrames(fs) && j < CHANNELS && k + 4 < |fs| && KeyedAt(c, fs, j, k)
    ensures !KeyedAt(c, fs, j, k + 1) && !KeyedAt(c, fs, j, k + 2) && !KeyedAt(c, fs, j, k + 3)
    ensures KeyedAt(c, fs, j, k + 4) <==> KonSet(c, fs, j, k + 4)
    ensures k + 5 < |fs| ==> !KeyedAt(c, fs, j, k + 5)
  {
    hide CRun, Bit, CInv, KonSet;
    FramePolls(c, fs, j, k);
    FramePolls(c, fs, j, k + 1);
    FramePolls(c, fs, j, k + 2);
    FramePolls(c, fs, j, k + 3);
    FramePolls(c, fs, j, k + 4);
  }

  /** A voice keyed on in any sample k is past its delay six samples on if and only if its
      KON bit is clear when the fourth sample after it starts; if not, it is keyed on again. */
  lemma KeyOnGetsThrough(c: State, fs: seq<Frame>, j: nat, k: nat)
    requires CInv(c) && AllFrames(fs) && j < CHANNELS && k + 6 <= |fs| && KeyedAt(c, fs, j, k)
    ensures forall t :: k < t <= k + 5 ==> DelayAfter(c, fs, j, t) > 0
    ensures DelayAfter(c, fs, j, k + 6) == 0 <==> !KonSet(c, fs, j, k + 4)
  {
    hide CRun, CInv, KonSet, KeyedAt, DelayAfter;
    NextKeyOn(c, fs, j, k);
    FrameDelays(c, fs, j, k);
    FrameDelays(c, fs, j, k + 1);
    FrameDelays(c, fs, j, k + 2);
    FrameDelays(c, fs, j, k + 3);
    FrameDelays(c, fs, j, k + 4);
    FrameDelays(c, fs, j, k + 5);
  }

  /** Not past its delay at any time after sample k and up to the start of sample n. */
  ghost predicate DelayedUntil(c: State, fs: seq<Frame>, j: nat, k: nat, n: nat)
    requires CInv(c) && AllFrames(fs) && j < CHANNELS && n <= |fs|
  {
    forall t :: k < t <= n ==> DelayAfter(c, fs, j, t) > 0
  }

  predicate InRound(k: nat, t: nat) { t > k && (t - k) % 4 == 0 }

  /** Set when sample k + 4 starts, and k + 8, and so on up to n. */
  ghost predicate SetEveryFourth(c: State, fs: seq<Frame>, j: nat, k: nat, n: nat)
    requires CInv(c) && AllFrames(fs) && n < |fs|
  {
    forall t: nat :: t <= n && InRound(k, t) ==> KonSet(c, fs, j, t)
  }

  /** Exactly when a keyed-on voice stays mute: for m rounds of four samples it has not got
      past its delay if and only if its KON bit was set at the start of each of the samples
      k + 4, k + 8, ... k + 4 * m. What KON holds at other times, and all the rest of the
      engine, plays no part. */
  lemma {:induction false} MuteExactlyWhileHeld(c: State, fs: seq<Frame>, j: nat, k: nat, m: nat)
    requires CInv(c) && AllFrames(fs) && j < CHANNELS && m > 0 && k + 4 * m + 2 <= |fs| && KeyedAt(c, fs, j, k)
    ensures DelayedUntil(c, fs, j, k, k + 4 * m + 2) <==> SetEveryFourth(c, fs, j, k, k + 4 * m)
    decreases m
  {
    hide CRun, CInv, KonSet, KeyedAt, DelayAfter;
    NextKeyOn(c, fs, j, k);
    KeyOnGetsThrough(c, fs, j, k);
    if KonSet(c, fs, j, k + 4) {
      if m > 1 {
        MuteExactlyWhileHeld(c, fs, j, k + 4, m - 1);
      }
      FourLater(k);
    } else {
      assert InRound(k, k + 4);
    }
  }

  lemma FourLater(k: nat)
    ensures forall t: nat :: InRound(k, t) <==> t == k + 4 || InRound(k + 4, t)
  {
  }

  // ---- a key-on register that is held ----

  /** Bit j of KON is set whenever a sample starts, from a sample that polls it on. */
  ghost predicate KeyHeld(c: State, fs: seq<Frame>, j: nat)
    requires CInv(c) && AllFrames(fs)
  {
    c.toggle && !Bit(c.kon, j) && forall k :: 0 <= k < |fs| ==> KonSet(c, fs, j, k)
  }

  lemma {:induction false} HeldKeyAlternates(c: State, fs: seq<Frame>, j: nat, k: nat)
    requires CInv(c) && AllFrames(fs) && j < CHANNELS && KeyHeld(c, fs, j) && k <= |fs|
    ensures CRun(c, fs, k).toggle == (k % 2 == 0)
    ensures Bit(CRun(c, fs, k).kon, j) == ((k + 1) / 2 % 2 == 1)
  {
    hide Next, Inv, Bit, CInv, CRun, KonSet;
    if k == 0 {
      NoFrameYet(c, fs);
    } else {
      HeldKeyAlternates(c, fs, j, k - 1);
      FramePolls(c, fs, j, k - 1);
      HalfOfNext(k);
    }
  }

  lemma {:induction false} NoFrameYet(c: State, fs: seq<Frame>)
    requires CInv(c) && AllFrames(fs)
    ensures CRun(c, fs, 0) == c
  {
    hide CInv;
  }

  lemma HalfOfNext(k: nat)
    ensures (k + 1) / 2 == k / 2 + k % 2
  {
  }

  lemma HeldKeyCounts(c: State, fs: seq<Frame>, j: nat, k: nat)
    requires CInv(c) && AllFrames(fs) && j < CHANNELS && KeyHeld(c, fs, j) && k < |fs|
    ensures KeyedAt(c, fs, j, k) <==> k % 4 == 0
  {
    hide CInv, Bit, CRun, KonSet;
    HeldKeyAlternates(c, fs, j, k);
    assert KonSet(c, fs, j, k);
    EveryFourth(k);
  }

  lemma EveryFourth(k: nat)
    ensures k % 2 == 0 && (k + 1) / 2 % 2 == 0 <==> k % 4 == 0
  {
    assert k == 2 * (k / 2) + k % 2 && k == 4 * (k / 4) + k % 4;
  }

  /** A voice is keyed on again in every fourth sample for as long as its KON bit is held,
      so that its five samples of attack delay never end and it puts out nothing. */
  lemma {:induction false} HeldKeyNeverSounds(c: State, fs: seq<Frame>, j: nat, k: nat)
    requires CInv(c) && AllFrames(fs) && j < CHANNELS && KeyHeld(c, fs, j) && 0 < k <= |fs|
    ensures DelayAfter(c, fs, j, k) == 5 - (k - 1) % 4
    ensures k < |fs| ==> VoiceSample(Latch(AtSample(c, fs, k)), j) == Sample(0, 0)
  {
    hide CRun, AtSample, DelayAfter, KeyHeld, KeyedAt, VoiceSample, Latch, CInv;
    FrameDelays(c, fs, j, k - 1);
    HeldKeyCounts(c, fs, j, k - 1);
    if k > 1 {
      HeldKeyNeverSounds(c, fs, j, k - 1);
    }
    if k < |fs| {
      DelayedIsMute(c, fs, j, k);
    }
  }

  lemma {:induction false} SampleOfVoice(c: State, fs: seq<Frame>, j: nat, k: nat)
    requires CInv(c) && AllFrames(fs) && j < CHANNELS && k < |fs|
    ensures var o := VoiceOut(CRun(c, fs, k).vs[j], SampleInput(c, fs, j, k));
            VoiceSample(Latch(AtSample(c, fs, k)), j) == Sample(o.left, o.right)
  {
    hide CRun, VoiceOut, VoiceInput, Inv;
  }

  // ---- what becomes of a key-off ----

  /** Voice j is keyed off in sample k: the keys are polled, and its bit of KOFF, $5c, is set. */
  ghost predicate KeyedOffAt(c: State, fs: seq<Frame>, j: nat, k: nat)
    requires CInv(c) && AllFrames(fs) && k < |fs|
  {
    CRun(c, fs, k).toggle && Bit(AtSample(c, fs, k).regs[0x5c], j)
  }

  lemma KeyOffSeen(c: State, j: nat)
    requires CInv(c) && j < CHANNELS
    ensures var i := VoiceInput(Latch(c), j);
            (i.poll && i.koff) == (c.toggle && Bit(c.regs[0x5c], j)) && i.reset == (c.regs[0x6c] >= 0x80) && i.mem == c.mem
  {
    hide CInv, Bit, S8;
  }

  lemma {:induction false} FrameKeysOff(c: State, fs: seq<Frame>, j: nat, k: nat)
    requires CInv(c) && AllFrames(fs) && j < CHANNELS && k < |fs|
    ensures var i, s := SampleInput(c, fs, j, k), AtSample(c, fs, k);
            (i.poll && i.koff) == KeyedOffAt(c, fs, j, k) && i.reset == (s.regs[0x6c] >= 0x80) && i.mem == s.mem
  {
    hide CRun, Latch, VoiceInput, Inv, Bit;
    KeyOffSeen(AtSample(c, fs, k), j);
  }

  /** In the running engine a voice is in release after a sample if and only if it was not
      keyed on in it and was in release before, or bit 7 of FLG, $6c, was set, or it stood on
      a block that ends the sample, or its key was polled as off. */
  lemma {:induction false} EngineReleases(c: State, fs: seq<Frame>, j: nat, k: nat)
    requires CInv(c) && AllFrames(fs) && j < CHANNELS && k < |fs|
    ensures var v, s := CRun(c, fs, k).vs[j], AtSample(c, fs, k);
            CRun(c, fs, k + 1).vs[j].envMode == Release
            <==> !KeyedAt(c, fs, j, k)
                 && (v.envMode == Release || s.regs[0x6c] >= 0x80 || (v.attackDelay != 5 && s.mem[v.brrAddr] % 4 == 1)
                     || KeyedOffAt(c, fs, j, k))
  {
    hide CRun, SampleInput, KeyedAt, KeyedOffAt, VoiceStep, Inv;
    FrameStepsVoice(c, fs, j, k);
    FramePolls(c, fs, j, k);
    FrameKeysOff(c, fs, j, k);
    VoiceRuns.ReleasedExactly(CRun(c, fs, k).vs[j], SampleInput(c, fs, j, k));
  }

  lemma {:induction false} EngineFades(c: State, fs: seq<Frame>, j: nat, k: nat, t: nat)
    requires CInv(c) && AllFrames(fs) && j < CHANNELS && 0 < t && k + t <= |fs| && KeyedOffAt(c, fs, j, k)
    requires forall m :: k <= m < k + t ==> !KeyedAt(c, fs, j, m)
    ensures VoiceRuns.Fading(CRun(c, fs, k + t).vs[j], t)
    decreases t
  {
    hide CRun, SampleInput, KeyedAt, KeyedOffAt, VoiceStep, Inv, VoiceRuns.Fading;
    var m := k + t - 1;
    if t > 1 {
      EngineFades(c, fs, j, k, t - 1);
    }
    assert !KeyedAt(c, fs, j, m);
    FrameStepsVoice(c, fs, j, m);
    FramePolls(c, fs, j, m);
    FrameKeysOff(c, fs, j, m);
    VoiceRuns.StillFading(CRun(c, fs, m).vs[j], SampleInput(c, fs, j, m), t - 1);
  }

  /** A KOFF bit that is set in a polling sample silences its voice, in whatever state it is,
      within 256 samples, unless the voice is keyed on in that time. */
  lemma {:induction false} EngineKeyOffSilences(c: State, fs: seq<Frame>, j: nat, k: nat)
    requires CInv(c) && AllFrames(fs) && j < CHANNELS && k + 256 <= |fs| && KeyedOffAt(c, fs, j, k)
    requires forall m :: k <= m < k + 256 ==> !KeyedAt(c, fs, j, m)
    ensures Silent(CRun(c, fs, k + 256).vs[j])
  {
    hide CRun, KeyedAt, KeyedOffAt;
    EngineFades(c, fs, j, k, 256);
    assert Released(ENV_MAX, 256) == 0;
    assert Inv(CRun(c, fs, k + 256).vs[j]);
  }

  // ---- ENDX ----

  ghost function VoiceShows(c: State, i: nat): VOut
    requires CInv(c) && i < CHANNELS
  {
    VoiceOut(c.vs[i], VoiceInput(c, i))
  }

  function EndxBit(was: bool, o: VOut): bool { !o.endClear && (o.endSet || was) }

  lemma ShowEndx(regs: seq<u8>, i: nat, o: VOut, j: nat)
    requires |regs| == REGISTERS && i < CHANNELS && j < CHANNELS
    ensures var was := Bit(regs[REG_ENDX], j);
            Bit(Show(regs, i, o)[REG_ENDX], j) == if j == i then EndxBit(was, o) else was
  {
    var x := regs[REG_ENDX];
    WithBitBits(x, i, true, j);
    WithBitBits(x, i, false, j);
    WithBitBits(ByteWithBit(x, i, true), i, false, j);
    hide Bit, WithBit;
  }

  lemma OneVoiceEndx(c: State, m: Mix, i: nat, j: nat)
    requires CInv(c) && i < CHANNELS && j < CHANNELS
    ensures var was := Bit(c.regs[REG_ENDX], j);
            Bit(OneVoice(c, m, i).0.regs[REG_ENDX], j) == if j == i then EndxBit(was, VoiceShows(c, i)) else was
  {
    ShowEndx(c.regs, i, VoiceShows(c, i), j);
    hide VoiceStep, VoiceOut, VoiceInput, Inv, Bit, Show;
  }

  lemma {:induction false} EndxAfterVoices(c: State, k: nat, j: nat)
    requires CInv(c) && k <= CHANNELS && j < CHANNELS
    ensures var was := Bit(c.regs[REG_ENDX], j);
            Bit(RunVoices(c, k).0.regs[REG_ENDX], j) == if j < k then EndxBit(was, VoiceShows(c, j)) else was
  {
    hide VoiceStep, VoiceOut, VoiceInput, Inv, IsShown, Bit, OneVoice;
    if k > 0 {
      EndxAfterVoices(c, k - 1, j);
      VoicesAreIndependent(c, k - 1);
      var p := RunVoices(c, k - 1);
      SameInput(c, p.0, k - 1);
      assert VoiceShows(p.0, k - 1) == VoiceShows(c, k - 1);
      OneVoiceEndx(p.0, p.1, k - 1, j);
    }
  }

  /** Each voice's ENDX bit is set when it finishes an end block, cleared when it is keyed
      on, and otherwise left as it was: no voice touches the bit of another. */
  lemma EndxOfVoice(c: State, j: nat)
    requires CInv(c) && j < CHANNELS
    ensures Bit(Next(c).regs[0x7c], j) == EndxBit(Bit(c.regs[0x7c], j), VoiceShows(Latch(c), j))
  {
    EndxAfterVoices(Latch(c), CHANNELS, j);
    hide RunVoices, VoiceShows, EchoStep, EchoMemory, EchoInput, Inv, Bit;
  }

  /** A silent voice that is not keyed on stays where it is, and its ENDX bit with it,
      whatever else the sample does. */
  lemma SilentVoiceIsStill(c: State, j: nat)
    requires CInv(c) && j < CHANNELS && Silent(c.vs[j])
    requires Latch(c).toggle || !Bit(Latch(c).kon, j)
    ensures VoiceRuns.SamePlace(c.vs[j], Next(c).vs[j]) && Silent(Next(c).vs[j])
    ensures Bit(Next(c).regs[REG_ENDX], j) == Bit(c.regs[REG_ENDX], j)
  {
    hide Next, VoiceStep, VoiceOut, Bit, Silent, VoiceRuns.SamePlace;
    var x := VoiceInput(Latch(c), j);
    VoiceRuns.SilenceHolds(c.vs[j], x);
    NextStepsVoice(c, j);
    EndxOfVoice(c, j);
  }

  // ---- the echo unit of a run ----

  /** What the echo unit reads in sample k. */
  ghost function SampleMoment(c: State, fs: seq<Frame>, k: nat): (m: Moment)
    requires CInv(c) && AllFrames(fs) && k < |fs|
    ensures m.Valid()
  {
    var p := RunVoices(Latch(AtSample(c, fs, k)), CHANNELS);
    Moment(EchoInput(p.0, p.1.echo), p.0.mem)
  }

  ghost function Moments(c: State, fs: seq<Frame>): (r: seq<Moment>)
    requires CInv(c) && AllFrames(fs)
    ensures |r| == |fs| && AllValid(r)
  {
    seq(|fs|, k requires 0 <= k < |fs| => SampleMoment(c, fs, k))
  }

  lemma {:induction false} FrameStepsEcho(c: State, fs: seq<Frame>, k: nat)
    requires CInv(c) && AllFrames(fs) && k < |fs|
    ensures var m := SampleMoment(c, fs, k);
            var e := CRun(c, fs, k).echo;
            && m.mem == AtSample(c, fs, k).mem
            && CRun(c, fs, k + 1).echo == EchoStep(e, m.mem, m.i)
            && CRun(c, fs, k + 1).mem == EchoMemory(e, m.mem, m.i)
  {
    VoicesAreIndependent(Latch(AtSample(c, fs, k)), CHANNELS);
    hide RunVoices, EchoStep, EchoMemory, EchoInput, Inv, VoiceStep, VoiceInput;
  }

  lemma {:induction false} EchoFollows(c: State, fs: seq<Frame>, k: nat)
    requires CInv(c) && AllFrames(fs) && k < |fs| && CRun(c, fs, k).echo == ERun(c.echo, Moments(c, fs), k)
    ensures CRun(c, fs, k + 1).echo == ERun(c.echo, Moments(c, fs), k + 1)
  {
    hide CRun, SampleMoment, EchoStep, Inv, ERun;
    FrameStepsEcho(c, fs, k);
    ERunUnfolds(c.echo, Moments(c, fs), k + 1);
    assert Moments(c, fs)[k] == SampleMoment(c, fs, k);
  }

  /** The echo unit of the engine is the one that the theorems of module Echo are about. */
  lemma {:induction false} EchoOfRun(c: State, fs: seq<Frame>, k: nat)
    requires CInv(c) && AllFrames(fs) && k <= |fs|
    ensures CRun(c, fs, k).echo == ERun(c.echo, Moments(c, fs), k)
    decreases k
  {
    hide Next, SampleMoment, EchoStep, Inv, AtSample;
    if k > 0 {
      EchoOfRun(c, fs, k - 1);
      EchoFollows(c, fs, k - 1);
    }
  }

  /** The echo registers reach the echo unit: ESA $6d, EDL $7d, echo off bit 5 of $6c, EFB $0d
      and coefficient j at 16 * j + 15, all as they stand when the sample starts. */
  lemma {:induction false} MomentReads(c: State, fs: seq<Frame>, k: nat)
    requires CInv(c) && AllFrames(fs) && k < |fs|
    ensures var i, r := SampleMoment(c, fs, k).i, AtSample(c, fs, k).regs;
            && i.esa == r[0x6d] && i.edl == r[0x7d] && i.disabled == (r[0x6c] / 0x20 % 2 == 1) && i.efb == S8(r[0x0d])
            && forall j :: 0 <= j < 8 ==> i.coeff[j] == S8(r[16 * j + 15])
  {
    var s := Latch(AtSample(c, fs, k));
    EchoRegistersStay(s);
    hide AtSample, RunVoices, CInv, EchoInput, S8;
    var p := RunVoices(s, CHANNELS);
    EchoReadsRegisters(p.0, p.1.echo);
  }

  lemma {:induction false} EchoRegistersStay(c: State)
    requires CInv(c)
    ensures var r := RunVoices(c, CHANNELS).0.regs;
            && |r| == 0x80 && |c.regs| == 0x80
            && r[0x6d] == c.regs[0x6d] && r[0x7d] == c.regs[0x7d] && r[0x6c] == c.regs[0x6c] && r[0x0d] == c.regs[0x0d]
            && forall j :: 0 <= j < 8 ==> r[16 * j + 15] == c.regs[16 * j + 15]
  {
    hide RunVoices, Inv, EInv, VoiceStep, VoiceInput;
    VoicesAreIndependent(c, CHANNELS);
    NotShown();
    hide IsShown;
  }

  lemma NotShown()
    ensures !IsShown(0x6d) && !IsShown(0x7d) && !IsShown(0x6c) && !IsShown(0x0d)
    ensures forall j :: 0 <= j < 8 ==> !IsShown(16 * j + 15)
  {
  }

  lemma EchoReadsRegisters(d: State, mix: Sample)
    requires CInv(d)
    ensures var i := EchoInput(d, mix);
            && i.esa == d.regs[0x6d] && i.edl == d.regs[0x7d] && i.disabled == (d.regs[0x6c] / 0x20 % 2 == 1)
            && i.efb == S8(d.regs[0x0d]) && i.voices == mix
            && forall j :: 0 <= j < 8 ==> i.coeff[j] == S8(d.regs[16 * j + 15])
  {
    hide Bit, S8, Inv, EInv;
    FifthBit(d.regs[0x6c]);
  }

  lemma FifthBit(x: u8)
    ensures Bit(x, 5) == (x / 0x20 % 2 == 1)
  {
    assert Pow2(4) == 16;
  }

  /** The engine's filtered echo of sample k, written out over the eight stereo samples it
      has read last and its eight coefficient registers, $0f for the oldest and $7f for the
      one just read. */
  lemma {:induction false} EngineFir(c: State, fs: seq<Frame>, k: nat)
    requires CInv(c) && AllFrames(fs) && 7 <= k < |fs|
    ensures var m, ms, r := SampleMoment(c, fs, k), Moments(c, fs), AtSample(c, fs, k).regs;
            var s := EchoSample(CRun(c, fs, k).echo, m.mem, m.i);
            var x := seq(8, j requires 0 <= j < 8 => ReadAt(c.echo, ms, k - 7 + j));
            && s.left == Even(Clamp16(
                 x[0].left / 2 * S8(r[0x0f]) / 64 + x[1].left / 2 * S8(r[0x1f]) / 64
                 + x[2].left / 2 * S8(r[0x2f]) / 64 + x[3].left / 2 * S8(r[0x3f]) / 64
                 + x[4].left / 2 * S8(r[0x4f]) / 64 + x[5].left / 2 * S8(r[0x5f]) / 64
                 + x[6].left / 2 * S8(r[0x6f]) / 64 + x[7].left / 2 * S8(r[0x7f]) / 64))
            && s.right == Even(Clamp16(
                 x[0].right / 2 * S8(r[0x0f]) / 64 + x[1].right / 2 * S8(r[0x1f]) / 64
                 + x[2].right / 2 * S8(r[0x2f]) / 64 + x[3].right / 2 * S8(r[0x3f]) / 64
                 + x[4].right / 2 * S8(r[0x4f]) / 64 + x[5].right / 2 * S8(r[0x5f]) / 64
                 + x[6].right / 2 * S8(r[0x6f]) / 64 + x[7].right / 2 * S8(r[0x7f]) / 64))
  {
    hide CRun, AtSample, SampleMoment, ReadAt, ERun, EchoSample, Clamp16, Even, S8, Inv;
    EchoOfRun(c, fs, k);
    MomentReads(c, fs, k);
    FirWrittenOut(c.echo, Moments(c, fs), k);
    var i := SampleMoment(c, fs, k).i;
    var r := AtSample(c, fs, k).regs;
    assert i.coeff[0] == S8(r[0x0f]) && i.coeff[1] == S8(r[0x1f]) && i.coeff[2] == S8(r[0x2f]) && i.coeff[3] == S8(r[0x3f]);
    assert i.coeff[4] == S8(r[0x4f]) && i.coeff[5] == S8(r[0x5f]) && i.coeff[6] == S8(r[0x6f]) && i.coeff[7] == S8(r[0x7f]);
  }

  /** ESA, EDL and the echo flag as they stand when sample k starts. */
  ghost predicate EchoHeld(c: State, fs: seq<Frame>, esa: u8, edl: nat)
    requires CInv(c) && AllFrames(fs)
  {
    forall k :: 0 <= k < |fs| ==> EchoRegisters(AtSample(c, fs, k), esa, edl)
  }

  ghost predicate EchoRegisters(s: State, esa: u8, edl: nat)
    requires CInv(s)
  {
    s.regs[0x6d] == esa && s.regs[0x7d] % 16 == edl && !Bit(s.regs[0x6c], 5)
  }

  /** No store of the processor falls into the delay line. */
  ghost predicate PokesElsewhere(fs: seq<Frame>, esa: u8, edl: nat)
    requires edl < 16
  {
    forall k, j, s, b :: 0 <= k < |fs| && 0 <= j < |fs[k].pokes| && 0 <= s < DelayLength(edl) && 0 <= b < 4 ==>
      fs[k].pokes[j].0 != SlotAddr(esa, s, b)
  }

  lemma {:induction false} MomentRegisters(c: State, fs: seq<Frame>, esa: u8, edl: nat, k: nat)
    requires CInv(c) && AllFrames(fs) && k < |fs| && EchoRegisters(AtSample(c, fs, k), esa, edl)
    ensures var i := SampleMoment(c, fs, k).i; i.esa == esa && i.edl % 16 == edl && !i.disabled
  {
    hide AtSample, RunVoices, Inv, VoiceStep, VoiceInput, Bit, S8, EInv;
    VoicesAreIndependent(Latch(AtSample(c, fs, k)), CHANNELS);
  }

  /** The delay line of the whole engine: with ESA, EDL and the echo flag held and no store
      of the processor into the region, the stereo sample read in sample k of a run is the
      one written L samples before. */
  lemma EngineEchoIsDelayLine(c: State, fs: seq<Frame>, esa: u8, edl: nat, k: nat)
    requires CInv(c) && AllFrames(fs) && edl < 16
    requires c.echo.offset == 0 && c.echo.esa == esa
    requires EchoHeld(c, fs, esa, edl) && PokesElsewhere(fs, esa, edl)
    requires DelayLength(edl) <= k < |fs|
    ensures ReadAt(c.echo, Moments(c, fs), k) == WrittenAt(c.echo, Moments(c, fs), k - DelayLength(edl))
  {
    var ms := Moments(c, fs);
    forall j | 0 <= j < |ms|
      ensures ms[j].i.esa == esa && ms[j].i.edl % 16 == edl && !ms[j].i.disabled
    {
      MomentRegisters(c, fs, esa, edl, j);
    }
    hide SampleMoment, AtSample, CRun, EchoMemory, EchoRegisters, Inv, SlotAddr, EInv, DelayLength, ReadAt, WrittenAt;
    forall j, s, b | 0 < j < |ms| && 0 <= s < DelayLength(edl) && 0 <= b < 4
      ensures ms[j].mem[SlotAddr(esa, s, b)]
              == EchoMemory(ERun(c.echo, ms, j - 1), ms[j - 1].mem, ms[j - 1].i)[SlotAddr(esa, s, b)]
    {
      SlotUndisturbed(c, fs, esa, edl, j, s, b);
    }
    EchoIsDelayLine(c.echo, ms, esa, edl, k);
  }

  lemma {:induction false} SlotUndisturbed(c: State, fs: seq<Frame>, esa: u8, edl: nat, j: nat, s: nat, b: nat)
    requires CInv(c) && AllFrames(fs) && edl < 16 && PokesElsewhere(fs, esa, edl)
    requires 0 < j < |fs| && s < DelayLength(edl) && b < 4
    ensures var ms := Moments(c, fs);
            ms[j].mem[SlotAddr(esa, s, b)]
            == EchoMemory(ERun(c.echo, ms, j - 1), ms[j - 1].mem, ms[j - 1].i)[SlotAddr(esa, s, b)]
  {
    hide CRun, AtSample, SampleMoment, EchoMemory, ERun, SlotAddr, CInv, EchoStep, EInv, PokesElsewhere, AllPoked;
    var a := SlotAddr(esa, s, b);
    EchoOfRun(c, fs, j - 1);
    FrameStepsEcho(c, fs, j - 1);
    FrameStepsEcho(c, fs, j);
    NotPoked(c, fs, esa, edl, j, s, b);
    assert Moments(c, fs)[j - 1] == SampleMoment(c, fs, j - 1) && Moments(c, fs)[j] == SampleMoment(c, fs, j);
  }

  lemma {:induction false} NotPoked(c: State, fs: seq<Frame>, esa: u8, edl: nat, j: nat, s: nat, b: nat)
    requires CInv(c) && AllFrames(fs) && edl < 16 && PokesElsewhere(fs, esa, edl)
    requires j < |fs| && s < DelayLength(edl) && b < 4
    ensures AtSample(c, fs, j).mem[SlotAddr(esa, s, b)] == CRun(c, fs, j).mem[SlotAddr(esa, s, b)]
  {
    assert AtSample(c, fs, j).mem == AllPoked(CRun(c, fs, j).mem, fs[j].pokes);
    hide CRun, AtSample, CInv, SlotAddr;
  }

  /** What the voices of sample k put on the echo bus, as a sum. */
  ghost function EchoBus(c: State, fs: seq<Frame>, k: nat): (int, int)
    requires CInv(c) && AllFrames(fs) && k < |fs|
  {
    EchoSum(Latch(AtSample(c, fs, k)), CHANNELS)
  }

  /** No partial sum of sample k leaves 16 bits on either bus. */
  ghost predicate QuietMix(c: State, fs: seq<Frame>, k: nat)
    requires CInv(c) && AllFrames(fs) && k < |fs|
  {
    var s := Latch(AtSample(c, fs, k));
    forall j :: 0 <= j <= CHANNELS ==> IsSample(MainSum(s, j)) && IsSample(EchoSum(s, j))
  }

  lemma MomentVoices(c: State, fs: seq<Frame>, k: nat)
    requires CInv(c) && AllFrames(fs) && k < |fs| && QuietMix(c, fs, k)
    ensures var i := SampleMoment(c, fs, k).i;
            (i.voices.left, i.voices.right) == EchoBus(c, fs, k) && IsSample(EchoBus(c, fs, k))
  {
    MixIsSum(Latch(AtSample(c, fs, k)), CHANNELS);
    hide AtSample, Latch, RunVoices, MainSum, EchoSum, Coefficients, Bit, S8, CInv, Inv;
  }

  lemma {:induction false} FeedbackStays(c: State)
    requires CInv(c)
    ensures RunVoices(c, CHANNELS).0.regs[REG_EFB] == c.regs[REG_EFB]
  {
    hide RunVoices, Inv, VoiceStep, VoiceInput, EInv;
    VoicesAreIndependent(c, CHANNELS);
  }

  lemma FeedbackRead(c: State, mix: Sample)
    requires CInv(c)
    ensures EchoInput(c, mix).efb == S8(c.regs[REG_EFB])
  {
    hide S8, Bit, Inv, EInv;
  }

  lemma {:induction false} MomentFeedback(c: State, fs: seq<Frame>, k: nat)
    requires CInv(c) && AllFrames(fs) && k < |fs| && AtSample(c, fs, k).regs[0x0d] == 0
    ensures SampleMoment(c, fs, k).i.efb == 0
  {
    hide AtSample, RunVoices, CInv, EchoInput;
    var s := Latch(AtSample(c, fs, k));
    FeedbackStays(s);
    var p := RunVoices(s, CHANNELS);
    FeedbackRead(p.0, p.1.echo);
  }

  lemma {:induction false} WrittenIs(e: EState, ms: seq<Moment>, k: nat)
    requires EInv(e) && Echo.AllValid(ms) && k < |ms|
    ensures WrittenAt(e, ms, k) == Feedback(ERun(e, ms, k), ms[k].mem, ms[k].i)
  {
  }

  /** Without feedback the engine's echo returns the sum of the voices whose EON bit was set,
      L samples late and less the lowest bit. */
  lemma {:induction false} EngineDryEcho(c: State, fs: seq<Frame>, esa: u8, edl: nat, k: nat)
    requires CInv(c) && AllFrames(fs) && edl < 16
    requires c.echo.offset == 0 && c.echo.esa == esa
    requires EchoHeld(c, fs, esa, edl) && PokesElsewhere(fs, esa, edl)
    requires DelayLength(edl) <= k < |fs|
    requires AtSample(c, fs, k - DelayLength(edl)).regs[0x0d] == 0 && QuietMix(c, fs, k - DelayLength(edl))
    ensures IsSample(EchoBus(c, fs, k - DelayLength(edl)))
    ensures var sum := EchoBus(c, fs, k - DelayLength(edl));
            ReadAt(c.echo, Moments(c, fs), k) == WithoutLowBits(Sample(sum.0, sum.1))
  {
    hide CRun, AtSample, SampleMoment, DelayLength, ReadAt, WrittenAt, QuietMix, EchoBus, EchoHeld, PokesElsewhere, Feedback;
    hide WithoutLowBits, Inv, EInv;
    var j := k - DelayLength(edl);
    EngineEchoIsDelayLine(c, fs, esa, edl, k);
    MomentVoices(c, fs, j);
    MomentFeedback(c, fs, j);
    var m := SampleMoment(c, fs, j);
    assert Moments(c, fs)[j] == m;
    WrittenIs(c.echo, Moments(c, fs), j);
    DryFeedback(ERun(c.echo, Moments(c, fs), j), m.mem, m.i);
  }

  // ---- what a voice of a run decodes ----

  /** Between sample 0 and sample k neither the processor nor the echo unit stores into the
      byte at x. */
  ghost predicate NotStoredInto(c: State, fs: seq<Frame>, x: nat, k: nat)
    requires CInv(c) && AllFrames(fs) && k < |fs|
  {
    && (forall t, j :: 0 < t <= k && 0 <= j < |fs[t].pokes| ==> fs[t].pokes[j].0 != x)
    && (forall t :: 0 <= t < k ==> !EchoWrites(CRun(c, fs, t).echo, SampleMoment(c, fs, t).i, x))
  }

  lemma {:induction false} PokesKeep(mem: seq<u8>, pokes: seq<(u16, u8)>, x: nat)
    requires IsMemory(mem) && x < |mem| && forall j :: 0 <= j < |pokes| ==> pokes[j].0 != x
    ensures AllPoked(mem, pokes)[x] == mem[x]
    decreases |pokes|
  {
    if pokes != [] {
      assert forall j :: 0 <= j < |pokes[1..]| ==> pokes[1..][j] == pokes[j + 1];
      PokesKeep(mem[pokes[0].0 := pokes[0].1], pokes[1..], x);
    }
  }

  lemma {:induction false} ByteStays(c: State, fs: seq<Frame>, x: nat, k: nat)
    requires CInv(c) && AllFrames(fs) && k < |fs| && x < ARAM_SIZE + SPILL && NotStoredInto(c, fs, x, k)
    ensures AtSample(c, fs, k).mem[x] == AtSample(c, fs, 0).mem[x]
    decreases k
  {
    hide CRun, AtSample, SampleMoment, EchoWrites, EchoMemory, EchoStep, EInv, Inv, CInv, AllPoked;
    if k > 0 {
      ByteStays(c, fs, x, k - 1);
      FrameStepsEcho(c, fs, k - 1);
      var m := SampleMoment(c, fs, k - 1);
      MemoryAtSample(c, fs, k - 1);
      EchoKeeps(CRun(c, fs, k - 1).echo, m.mem, m.i, x);
      PokesKeep(CRun(c, fs, k).mem, fs[k].pokes, x);
      MemoryAtSample(c, fs, k);
    }
  }

  lemma {:induction false} MemoryAtSample(c: State, fs: seq<Frame>, k: nat)
    requires CInv(c) && AllFrames(fs) && k < |fs|
    ensures EInv(CRun(c, fs, k).echo) && IsMemory(CRun(c, fs, k).mem)
    ensures AtSample(c, fs, k).mem == AllPoked(CRun(c, fs, k).mem, fs[k].pokes) && IsMemory(AtSample(c, fs, k).mem)
    ensures forall i :: 0 <= i < CHANNELS ==> SampleInput(c, fs, i, k).mem == AtSample(c, fs, k).mem
  {
    hide CRun, Inv, EInv, Bit, S8, AllPoked;
  }

  /** When voice i decodes a group, the block it stands in is as it is in mem. The rest of the
      memory, and that block at other times, may hold anything. */
  ghost predicate PlaysFrom(c: State, fs: seq<Frame>, i: nat, mem: seq<u8>)
    requires CInv(c) && AllFrames(fs) && i < CHANNELS && IsMemory(mem)
  {
    forall k :: 0 <= k < |fs| ==>
      VoiceRuns.DecodesIn(CRun(c, fs, k).vs[i], SampleInput(c, fs, i, k)) ==>
        Streaming.SameBlock(SampleInput(c, fs, i, k).mem, mem, CRun(c, fs, k).vs[i].brrAddr)
  }

  /** The blocks that voice i plays in a run from its key-on, from the directory's start entry
      on, as mem holds them. */
  ghost function BlocksPlayed(c: State, fs: seq<Frame>, i: nat, mem: seq<u8>): seq<u16>
    requires CInv(c) && AllFrames(fs) && i < CHANNELS && fs != [] && IsMemory(mem)
  {
    var v, ins := c.vs[i], VoiceInputs(c, fs, i, |fs|);
    Streaming.BlocksFrom(mem, VoiceRuns.DirectoryWord(v, ins[0]), Streaming.Nexts(VoiceStep(v, ins[0]), ins[1..]))
  }

  /** From its key-on voice i of the engine decodes the sound its directory entry names, block
      for block: what the block decoder makes of those blocks, as long as the ideal stream
      fits 16 bits. Only the block being decoded matters; registers, directory and all
      other memory may change in every sample. */
  lemma {:induction false} EngineDecodesBlocks(c: State, fs: seq<Frame>, i: nat, mem: seq<u8>)
    requires CInv(c) && AllFrames(fs) && i < CHANNELS && fs != [] && IsMemory(mem)
    requires c.vs[i].attackDelay == 5 && forall k :: 0 < k < |fs| ==> CRun(c, fs, k).vs[i].attackDelay != 5
    requires PlaysFrom(c, fs, i, mem) && Streaming.InsideMemory(BlocksPlayed(c, fs, i, mem))
    ensures var v, addrs := c.vs[i], BlocksPlayed(c, fs, i, mem);
            var heard := VoiceRuns.Stream(v, VoiceInputs(c, fs, i, |fs|));
            && |heard| <= 16 * |addrs|
            && heard == Brr.GroupList(mem, addrs, v.buf[10], v.buf[11])[..|heard|]
            && (Brr.InRange(Brr.IdealList(mem, addrs, v.buf[10], v.buf[11])) ==>
                  heard == Brr.BlockList(mem, addrs, v.buf[10], v.buf[11])[..|heard|])
  {
    hide CRun, SampleInput, VoiceStep, VoiceRuns.VRun, Inv, Streaming.BlocksFrom, Streaming.Nexts, VoiceRuns.DirectoryWord;
    hide Streaming.InsideMemory, VoiceRuns.Stream, Brr.GroupList, Brr.BlockList, Brr.IdealList, Brr.InRange;
    hide Streaming.SameBlock, VoiceRuns.DecodesIn;
    var v, ins := c.vs[i], VoiceInputs(c, fs, i, |fs|);
    forall k | 1 <= k < |ins|
      ensures VoiceRuns.VRun(v, ins[..k]).attackDelay != 5
      ensures VoiceRuns.DecodesIn(VoiceRuns.VRun(v, ins[..k]), ins[k]) ==>
                Streaming.SameBlock(ins[k].mem, mem, VoiceRuns.VRun(v, ins[..k]).brrAddr)
    {
      VoicePrefix(c, fs, i, k);
      assert ins[k] == SampleInput(c, fs, i, k);
    }
    Streaming.NeverRestartsFrom(v, ins, 1);
    Streaming.BlocksKeptFrom(v, ins, mem, 1);
    FirstSampleOf(v, ins);
    Streaming.KeyOnDecodesBlocks(v, ins, mem);
  }

  /** When voice i decodes a group, nothing has been stored since sample 0 into the nine bytes
      of the block it stands in. Any other store is free. */
  ghost predicate PlayedBlocksLeftAlone(c: State, fs: seq<Frame>, i: nat)
    requires CInv(c) && AllFrames(fs) && i < CHANNELS
  {
    forall k, x: nat :: 0 <= k < |fs| && InBlock(CRun(c, fs, k).vs[i].brrAddr, x) ==>
      VoiceRuns.DecodesIn(CRun(c, fs, k).vs[i], SampleInput(c, fs, i, k)) ==> NotStoredInto(c, fs, x, k)
  }

  predicate InBlock(a: u16, x: nat) { a <= x < a + Brr.BLOCK_SIZE }

  lemma SameNine(m: seq<u8>, mem: seq<u8>, a: u16)
    requires IsMemory(m) && IsMemory(mem)
    requires forall x: nat :: InBlock(a, x) ==> m[x] == mem[x]
    ensures Streaming.SameBlock(m, mem, a)
  {
    assert forall x: nat :: a <= x < a + Brr.BLOCK_SIZE ==> InBlock(a, x);
  }

  /** Stores of the processor and of the echo unit that miss the blocks played, between the
      key-on and their decoding, do not disturb what is played. */
  lemma {:induction false} LeftAlonePlays(c: State, fs: seq<Frame>, i: nat)
    requires CInv(c) && AllFrames(fs) && i < CHANNELS && fs != [] && PlayedBlocksLeftAlone(c, fs, i)
    ensures IsMemory(AtSample(c, fs, 0).mem) && PlaysFrom(c, fs, i, AtSample(c, fs, 0).mem)
  {
    hide CRun, AtSample, SampleInput, NotStoredInto, VoiceRuns.DecodesIn, Inv, AllPoked, Streaming.SameBlock;
    MemoryAtSample(c, fs, 0);
    forall k | 0 <= k < |fs| && VoiceRuns.DecodesIn(CRun(c, fs, k).vs[i], SampleInput(c, fs, i, k))
      ensures Streaming.SameBlock(SampleInput(c, fs, i, k).mem, AtSample(c, fs, 0).mem, CRun(c, fs, k).vs[i].brrAddr)
    {
      MemoryAtSample(c, fs, k);
      var a := CRun(c, fs, k).vs[i].brrAddr;
      forall x: nat | InBlock(a, x)
        ensures AtSample(c, fs, k).mem[x] == AtSample(c, fs, 0).mem[x]
      {
        ByteStays(c, fs, x, k);
      }
      SameNine(AtSample(c, fs, k).mem, AtSample(c, fs, 0).mem, a);
    }
  }

  lemma {:induction false} FirstSampleOf(v: VState, ins: seq<VIn>)
    requires Inv(v) && VoiceRuns.AllValid(ins) && ins != []
    ensures VoiceRuns.VRun(v, ins[..1]) == VoiceStep(v, ins[0])
  {
    hide VoiceStep, Inv;
    assert ins[..1][0] == ins[0] && ins[..1][1..] == [];
  }
}

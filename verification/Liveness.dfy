/** From key-on through attack and decay to sustain, in bounded time (src/dsp.c,
    `voice_run` and `run_envelope`). */
module Liveness {
  import opened Aram
  import opened Counters
  import opened Envelope
  import opened Voices
  import opened VoiceRuns

  /** In every sample of the run the envelope registers hold sh, the rate counters are one
      run further on, and there is no key event, no reset and no end-without-loop block. */
  ghost predicate Held(v: VState, ins: seq<VIn>, sh: Shape, n: nat)
    requires Inv(v) && AllValid(ins)
    decreases |ins|
  {
    ins != [] ==>
      && Undisturbed(v, ins[0]) && ins[0].shape == sh && ins[0].n == n
      && Held(VoiceStep(v, ins[0]), ins[1..], sh, n + 1)
  }

  ghost predicate Undisturbed(v: VState, i: VIn)
    requires Inv(v) && i.Valid()
  {
    !(i.poll && (i.kon || i.koff)) && !i.reset && HeaderIn(v, i) % 4 != 1
  }

  lemma {:induction false} HeldSplit(v: VState, ins: seq<VIn>, sh: Shape, n: nat, k: nat)
    requires Inv(v) && AllValid(ins) && Held(v, ins, sh, n) && k <= |ins|
    ensures Held(v, ins[..k], sh, n)
    ensures Held(VRun(v, ins[..k]), ins[k..], sh, n + k)
    ensures VRun(v, ins) == VRun(VRun(v, ins[..k]), ins[k..])
    decreases k
  {
    hide VoiceStep, Undisturbed, Inv;
    if k > 0 {
      HeldSplit(VoiceStep(v, ins[0]), ins[1..], sh, n + 1, k - 1);
      assert ins[..k][1..] == ins[1..][..k - 1] && ins[1..][k - 1..] == ins[k..];
    } else {
      assert ins[0..] == ins;
    }
  }

  /** The same, said sample by sample. */
  ghost predicate HeldAt(v: VState, ins: seq<VIn>, sh: Shape, n: nat, k: nat)
    requires Inv(v) && AllValid(ins) && k < |ins|
  {
    Undisturbed(VRun(v, ins[..k]), ins[k]) && ins[k].shape == sh && ins[k].n == n + k
  }

  lemma {:induction false} HeldSampleBySample(v: VState, ins: seq<VIn>, sh: Shape, n: nat, k: nat)
    requires Inv(v) && AllValid(ins) && k <= |ins|
    requires forall j :: 0 <= j < |ins| ==> HeldAt(v, ins, sh, n, j)
    ensures Held(VRun(v, ins[..k]), ins[k..], sh, n + k)
    decreases |ins| - k
  {
    hide VoiceStep, Undisturbed, Inv, VRun;
    if k < |ins| {
      assert HeldAt(v, ins, sh, n, k);
      VRunSnoc(v, ins, k);
      HeldSampleBySample(v, ins, sh, n, k + 1);
      assert ins[k..][0] == ins[k] && ins[k..][1..] == ins[k + 1..];
    }
  }

  ghost function EnvOf(v: VState): Env { Env(v.envMode, v.env) }

  lemma UndisturbedStep(v: VState, i: VIn)
    requires Inv(v) && i.Valid() && v.attackDelay == 0 && Undisturbed(v, i)
    ensures VoiceStep(v, i).attackDelay == 0
    ensures EnvOf(VoiceStep(v, i)) == EnvStep(EnvOf(v), i.shape, i.n)
  {
    var d := Delay(Fetch(v, i));
    assert d.envMode == v.envMode && d.env == v.env && d.brrHdr == HeaderIn(v, i) && d.attackDelay == 0;
    hide Fetch, Delay, EnvStep, NextGroup, Advance;
    if !Silent(Begin(v, i)) {
      FinishKeepsMode(Begin(v, i), i.mem);
    }
  }

  /** Past its attack delay an undisturbed voice runs its envelope, one step a sample. */
  lemma {:induction false} HeldVoiceRunsEnvelope(v: VState, ins: seq<VIn>, sh: Shape, n: nat)
    requires Inv(v) && AllValid(ins) && v.attackDelay == 0 && Held(v, ins, sh, n)
    ensures VRun(v, ins).attackDelay == 0
    ensures EnvOf(v).InRange() && EnvOf(VRun(v, ins)) == EnvRun(EnvOf(v), sh, n, |ins|)
    decreases |ins|
  {
    hide VoiceStep, Undisturbed, EnvStep;
    if ins != [] {
      UndisturbedStep(v, ins[0]);
      EnvRunFrom(EnvOf(v), sh, n, 1, |ins|);
      assert EnvRun(EnvOf(v), sh, n, 1) == EnvStep(EnvRun(EnvOf(v), sh, n, 0), sh, n);
      HeldVoiceRunsEnvelope(VoiceStep(v, ins[0]), ins[1..], sh, n + 1);
    }
  }

  /** The mode of the voice after k samples of a run. */
  ghost function ModeAfter(v: VState, ins: seq<VIn>, k: nat): EnvMode
    requires Inv(v) && AllValid(ins) && k <= |ins|
  {
    VRun(v, ins[..k]).envMode
  }

  lemma {:induction false} ModesAreTheEnvelopes(v: VState, ins: seq<VIn>, sh: Shape, n: nat)
    requires Inv(v) && AllValid(ins) && v.attackDelay == 0 && Held(v, ins, sh, n)
    ensures EnvOf(v).InRange()
    ensures forall k :: 0 <= k <= |ins| ==> ModeAfter(v, ins, k) == EnvRun(EnvOf(v), sh, n, k).mode
  {
    forall k | 0 <= k <= |ins|
      ensures ModeAfter(v, ins, k) == EnvRun(EnvOf(v), sh, n, k).mode
    {
      HeldSplit(v, ins, sh, n, k);
      HeldVoiceRunsEnvelope(v, ins[..k], sh, n);
    }
  }

  /** The bound on the samples of a whole attack and decay. */
  ghost function AttackAndDecayTime(sh: Shape): nat
  {
    64 * Period(sh.AttackRate()) + 896 * Period(sh.DecayRate())
  }

  /** With ADSR on, an undisturbed voice in attack reaches decay within 64 counter events
      and 64 periods of its attack rate, and sustain within 896 periods of its decay rate
      after that, with no other mode on the way. */
  lemma AttackLeadsToSustain(v: VState, ins: seq<VIn>, sh: Shape, n: nat) returns (d: nat, s: nat)
    requires Inv(v) && AllValid(ins) && v.attackDelay == 0 && v.envMode == Attack
    requires sh.UsesAdsr() && Held(v, ins, sh, n) && |ins| >= AttackAndDecayTime(sh)
    ensures 0 < d < s <= |ins|
    ensures d <= 64 * Period(sh.AttackRate()) && Firings(sh.AttackRate(), n, d) <= 64
    ensures s - d <= 896 * Period(sh.DecayRate())
    ensures forall k :: 0 <= k < d ==> ModeAfter(v, ins, k) == Attack
    ensures forall k :: d <= k < s ==> ModeAfter(v, ins, k) == Decay
    ensures ModeAfter(v, ins, s) == Sustain
  {
    ModesAreTheEnvelopes(v, ins, sh, n);
    hide EnvRun, ModeAfter, Period, VRun, Held;
    d, s := AttackReachesSustain(EnvOf(v), sh, n);
  }

  // ---- the attack delay ----

  lemma DelayStep(v: VState, i: VIn)
    requires Inv(v) && i.Valid() && v.attackDelay > 0 && v.envMode == Attack
    requires Undisturbed(v, i) && i.shape.UsesAdsr()
    ensures var r := VoiceStep(v, i);
            && r.envMode == Attack && r.attackDelay == v.attackDelay - 1
            && (DecodesIn(v, i) <==> v.attackDelay < 5)
            && r.brrOff == (if v.attackDelay == 5 || v.brrOff == 7 then 1 else v.brrOff + 2)
  {
    hide GroupOut, Word;
  }

  /** Where the block offset stands while the delay after a key-on runs. */
  ghost predicate InDelay(v: VState)
  {
    v.envMode == Attack && v.attackDelay <= 5 && (0 <= v.attackDelay < 4 ==> v.attackDelay > 0 && v.brrOff == 9 - 2 * v.attackDelay)
    && (v.attackDelay == 4 ==> v.brrOff == 1)
  }

  /** The attack delay takes five samples after the key-on and decodes one whole block
      before the voice is first heard. */
  lemma {:induction false} DelayDecodesOneBlock(v: VState, ins: seq<VIn>, sh: Shape, n: nat)
    requires Inv(v) && AllValid(ins) && InDelay(v) && |ins| == v.attackDelay
    requires sh.UsesAdsr() && Held(v, ins, sh, n)
    ensures var r := VRun(v, ins); r.attackDelay == 0 && r.envMode == Attack && r.brrOff == 1
    ensures GroupsDecoded(v, ins) == if v.attackDelay == 5 then 4 else v.attackDelay
    decreases |ins|
  {
    hide VoiceStep, Undisturbed, DecodesIn, Inv;
    DelayStep(v, ins[0]);
    var r := VoiceStep(v, ins[0]);
    if v.attackDelay > 1 {
      DelayDecodesOneBlock(r, ins[1..], sh, n + 1);
    } else {
      assert ins[1..] == [];
    }
  }

  lemma {:induction false} AfterDelay(v: VState, ins: seq<VIn>, sh: Shape, n: nat)
    requires Inv(v) && AllValid(ins) && v.attackDelay == 5 && v.envMode == Attack
    requires sh.UsesAdsr() && Held(v, ins, sh, n) && |ins| >= 5
    ensures AllValid(ins[..5]) && AllValid(ins[5..])
    ensures ModeAfter(v, ins, 5) == Attack
    ensures var w := VRun(v, ins[..5]); w.attackDelay == 0 && w.envMode == Attack && Held(w, ins[5..], sh, n + 5)
  {
    HeldSplit(v, ins, sh, n, 5);
    DelayDecodesOneBlock(v, ins[..5], sh, n);
    hide VRun, Held;
  }

  /** A voice keyed on and then left alone reaches sustain in bounded time. */
  lemma KeyOnLeadsToSustain(v: VState, ins: seq<VIn>, sh: Shape, n: nat) returns (d: nat, s: nat)
    requires Inv(v) && AllValid(ins) && v.attackDelay == 5 && v.envMode == Attack
    requires sh.UsesAdsr() && Held(v, ins, sh, n) && |ins| >= 5 + AttackAndDecayTime(sh)
    ensures 5 < d <= 5 + 64 * Period(sh.AttackRate()) && d < s <= d + 896 * Period(sh.DecayRate())
    ensures s <= |ins|
    ensures ModeAfter(v, ins, 5) == Attack && VRun(v, ins[..5]).attackDelay == 0
    ensures ModeAfter(v, ins, d) == Decay && ModeAfter(v, ins, s) == Sustain
  {
    hide VRun, Held, Inv, AllValid, Period, ModeAfter;
    AfterDelay(v, ins, sh, n);
    var w := VRun(v, ins[..5]);
    var d0, s0 := AttackLeadsToSustain(w, ins[5..], sh, n + 5);
    d, s := 5 + d0, 5 + s0;
    ModeAfterSplit(v, ins, sh, n, 5, d0);
    ModeAfterSplit(v, ins, sh, n, 5, s0);
  }

  lemma {:induction false} ModeAfterSplit(v: VState, ins: seq<VIn>, sh: Shape, n: nat, j: nat, k: nat)
    requires Inv(v) && AllValid(ins) && Held(v, ins, sh, n) && j + k <= |ins|
    ensures ModeAfter(v, ins, j + k) == ModeAfter(VRun(v, ins[..j]), ins[j..], k)
  {
    hide VRun, Held, Inv;
    HeldSplit(v, ins, sh, n, j + k);
    HeldSplit(v, ins[..j + k], sh, n, j);
    assert ins[..j + k][..j] == ins[..j] && ins[..j + k][j..] == ins[j..][..k];
  }
}

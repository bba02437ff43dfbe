/** The envelope generator of one voice (src/dsp.c): ADSR, GAIN and release, paced by the
    rate counters. */
module Envelope {
  import opened Bits
  import opened Counters

  datatype EnvMode = Release | Attack | Decay | Sustain

  const ENV_MAX := 0x7ff

  /** The register bytes that shape one voice's envelope. */
  datatype Shape = Shape(adsr1: u8, adsr2: u8, gain: u8) {
    predicate UsesAdsr() { adsr1 >= 0x80 }

    function AttackRate(): (r: nat)
      ensures 1 <= r < 32
    {
      adsr1 % 16 * 2 + 1
    }

    function DecayRate(): (r: nat)
      ensures 16 <= r < 31
    {
      0x10 + adsr1 / 16 % 8 * 2
    }

    function SustainRate(): (r: nat)
      ensures r < 32
    {
      adsr2 % 32
    }

    /** The top three bits of ADSR2, or of GAIN when ADSR is off. */
    function SustainTarget(): (t: nat)
      ensures t < 8
    {
      if UsesAdsr() then adsr2 / 32 else gain / 32
    }
  }

  /** A level and the rate at which it is to be taken over. */
  datatype Target = Target(env: int, rate: nat)

  function Clipped(x: int): int { if x < 0 then 0 else if x > ENV_MAX then ENV_MAX else x }

  function ExpDecrease(env: int): int { env - (env / 0x100 + 1) }

  function AdsrEnv(mode: EnvMode, env: int, sh: Shape): (t: Target)
    requires mode != Release
    ensures t.rate < 32
  {
    match mode
    case Attack =>
      Target(env + (if sh.AttackRate() == 0x1f then 0x400 else 0x20), sh.AttackRate())
    case Sustain => Target(ExpDecrease(env), sh.SustainRate())
    case Decay => Target(ExpDecrease(env), sh.DecayRate())
  }

  function GainEnv(env: int, gain: u8): (t: Target)
    ensures t.rate < 32
  {
    if gain < 0x80 then Target(gain * 0x10, 31)
    else
      match gain / 32 % 4
      case 0 => Target(env - 0x20, gain % 32)
      case 1 => Target(ExpDecrease(env), gain % 32)
      case _ => Target(env + 0x20, gain % 32)
  }

  function EnvelopeRelease(env: int): int { if env > 8 then env - 8 else 0 }

  datatype Env = Env(mode: EnvMode, level: int) {
    predicate InRange() { 0 <= level <= ENV_MAX }
  }

  /** One sample of the envelope, in the n-th run of the rate counters. */
  function EnvStep(e: Env, sh: Shape, n: nat): (r: Env)
  {
    if e.mode == Release then Env(Release, EnvelopeRelease(e.level))
    else
      var t := if sh.UsesAdsr() then AdsrEnv(e.mode, e.level, sh) else GainEnv(e.level, sh.gain);
      var m1 := if t.env / 0x100 == sh.SustainTarget() && e.mode == Decay then Sustain else e.mode;
      var outside := t.env < 0 || t.env > ENV_MAX;
      var m2 := if outside && m1 == Attack then Decay else m1;
      Env(m2, if Fires(t.rate, n) then Clipped(t.env) else e.level)
  }

  /** What one sample can do: the level stays in range, the mode only moves from attack
      to decay or from decay to sustain, the level does not fall in attack and does not
      rise in decay or sustain. */
  lemma EnvStepRules(e: Env, sh: Shape, n: nat)
    requires e.InRange()
    ensures var r := EnvStep(e, sh, n);
            && r.InRange()
            && (r.mode == e.mode || (e.mode == Attack && r.mode == Decay) || (e.mode == Decay && r.mode == Sustain))
            && (e.mode == Release ==> r.level <= e.level)
            && (sh.UsesAdsr() && e.mode == Attack ==> r.level >= e.level)
            && (sh.UsesAdsr() && e.mode in {Decay, Sustain} ==> r.level <= e.level)
  {
  }

  /** k samples with the registers held, the first of them in counter run n. */
  function EnvRun(e: Env, sh: Shape, n: nat, k: nat): (r: Env)
    requires e.InRange()
    ensures r.InRange()
  {
    if k == 0 then e
    else
      var last := EnvRun(e, sh, n, k - 1);
      EnvStepRules(last, sh, n + k - 1);
      EnvStep(last, sh, n + k - 1)
  }

  // ---- attack ends ----

  /** The level attack adds at each counter event. */
  function AttackStep(sh: Shape): int { if sh.AttackRate() == 0x1f then 0x400 else 0x20 }

  lemma AttackStepAdds(e: Env, sh: Shape, n: nat)
    requires e.InRange() && e.mode == Attack && sh.UsesAdsr() && EnvStep(e, sh, n).mode == Attack
    ensures EnvStep(e, sh, n).level == e.level + (if Fires(sh.AttackRate(), n) then AttackStep(sh) else 0)
  {
  }

  /** While attack lasts, the level counts the counter events. */
  lemma {:induction false} AttackClimbs(e: Env, sh: Shape, n: nat, k: nat)
    requires e.InRange() && e.mode == Attack && sh.UsesAdsr()
    requires EnvRun(e, sh, n, k).mode == Attack
    ensures EnvRun(e, sh, n, k).level == e.level + AttackStep(sh) * Firings(sh.AttackRate(), n, k)
  {
    hide EnvStep, AttackStep, Fires;
    if k > 0 {
      EnvStepRules(EnvRun(e, sh, n, k - 1), sh, n + k - 1);
      AttackClimbs(e, sh, n, k - 1);
      AttackStepAdds(EnvRun(e, sh, n, k - 1), sh, n + k - 1);
      MulDistributes(AttackStep(sh), Firings(sh.AttackRate(), n, k - 1), 1);
    }
  }

  /** A voice in attack enters decay after at most 64 counter events of its attack rate,
      at a level no 32-wide step below the top. */
  lemma AttackReachesDecay(e: Env, sh: Shape, n: nat) returns (k: nat)
    requires e.InRange() && e.mode == Attack && sh.UsesAdsr()
    ensures 0 < k <= 64 * Period(sh.AttackRate())
    ensures Firings(sh.AttackRate(), n, k) <= 64
    ensures forall j :: 0 <= j < k ==> EnvRun(e, sh, n, j).mode == Attack
    ensures EnvRun(e, sh, n, k).mode == Decay
    ensures EnvRun(e, sh, n, k).level >= 0x7e0
  {
    hide EnvStep, Fires, Period, AttackStep;
    var rate := sh.AttackRate();
    var last := 64 * Period(rate);
    FiringsInPeriods(rate, n, 64, last);
    k := 0;
    while EnvRun(e, sh, n, k).mode == Attack && k < last
      invariant k <= last
      invariant forall j :: 0 <= j < k ==> EnvRun(e, sh, n, j).mode == Attack
      decreases last - k
    {
      k := k + 1;
    }
    if EnvRun(e, sh, n, k).mode == Attack {
      AttackClimbs(e, sh, n, k);
      SixtyFourSteps(sh);
    }
    FiringsGrow(rate, n, k, last);
    EnvStepRules(EnvRun(e, sh, n, k - 1), sh, n + k - 1);
    AttackExit(EnvRun(e, sh, n, k - 1), sh, n + k - 1);
  }

  lemma SixtyFourSteps(sh: Shape)
    ensures AttackStep(sh) * 64 > ENV_MAX
  {
  }

  /** Attack is left from the top step, or from anywhere at rate 31, which fires always. */
  lemma AttackExit(e: Env, sh: Shape, n: nat)
    requires e.InRange() && e.mode == Attack && sh.UsesAdsr() && EnvStep(e, sh, n).mode != Attack
    ensures EnvStep(e, sh, n).mode == Decay && EnvStep(e, sh, n).level >= 0x7e0
  {
    if sh.AttackRate() == 31 {
      assert Period(31) == 1;
      assert Fires(31, n);
    }
  }

  lemma {:induction false} FiringsGrow(rate: nat, n: nat, j: nat, k: nat)
    requires rate < 32 && j <= k
    ensures Firings(rate, n, j) <= Firings(rate, n, k)
    decreases k
  {
    if j < k {
      FiringsGrow(rate, n, j, k - 1);
    }
  }

  // ---- decay ends ----

  /** The next level of a decay does not lie below the sustain band. */
  ghost predicate AboveSustain(e: Env, sh: Shape)
  {
    ExpDecrease(e.level) >= 0x100 * sh.SustainTarget()
  }

  /** No decay step jumps over the band: a step that stays in decay stays above it, and
      a counter event takes at least two off the level. */
  lemma DecayStep(e: Env, sh: Shape, n: nat)
    requires e.InRange() && e.mode == Decay && sh.UsesAdsr() && AboveSustain(e, sh)
    requires EnvStep(e, sh, n).mode == Decay
    ensures AboveSustain(EnvStep(e, sh, n), sh)
    ensures 0x100 <= EnvStep(e, sh, n).level <= e.level - (if Fires(sh.DecayRate(), n) then 2 else 0)
  {
    assert ExpDecrease(e.level) / 0x100 > sh.SustainTarget();
  }

  lemma {:induction false} DecayDescends(e: Env, sh: Shape, n: nat, k: nat)
    requires e.InRange() && sh.UsesAdsr() && AboveSustain(e, sh)
    requires forall j :: 0 <= j <= k ==> EnvRun(e, sh, n, j).mode == Decay
    ensures AboveSustain(EnvRun(e, sh, n, k), sh)
    ensures EnvRun(e, sh, n, k).level <= e.level - 2 * Firings(sh.DecayRate(), n, k)
    ensures k > 0 ==> EnvRun(e, sh, n, k).level >= 0x100
  {
    hide EnvStep, AboveSustain, Fires;
    if k > 0 {
      DecayDescends(e, sh, n, k - 1);
      assert EnvRun(e, sh, n, k - 1).mode == Decay && EnvRun(e, sh, n, k).mode == Decay;
      DecayStep(EnvRun(e, sh, n, k - 1), sh, n + k - 1);
    }
  }

  /** A voice in decay above its sustain band enters sustain within 896 counter events of
      its decay rate. */
  lemma DecayReachesSustain(e: Env, sh: Shape, n: nat) returns (k: nat)
    requires e.InRange() && e.mode == Decay && sh.UsesAdsr() && AboveSustain(e, sh)
    ensures 0 < k <= 896 * Period(sh.DecayRate())
    ensures forall j :: 0 <= j < k ==> EnvRun(e, sh, n, j).mode == Decay
    ensures EnvRun(e, sh, n, k).mode == Sustain
  {
    hide EnvStep, AboveSustain, Fires, Period;
    var rate := sh.DecayRate();
    var last := 896 * Period(rate);
    FiringsInPeriods(rate, n, 896, last);
    k := 0;
    while EnvRun(e, sh, n, k).mode == Decay && k < last
      invariant k <= last
      invariant forall j :: 0 <= j < k ==> EnvRun(e, sh, n, j).mode == Decay
      decreases last - k
    {
      k := k + 1;
    }
    if EnvRun(e, sh, n, k).mode == Decay {
      DecayDescends(e, sh, n, k);
    }
    EnvStepRules(EnvRun(e, sh, n, k - 1), sh, n + k - 1);
  }

  /** A decay that starts below the sustain band sinks away from it. */
  lemma {:induction false} DecayBelowSustainStays(e: Env, sh: Shape, n: nat, k: nat)
    requires e.InRange() && e.mode == Decay && sh.UsesAdsr() && !AboveSustain(e, sh)
    ensures EnvRun(e, sh, n, k).mode == Decay && !AboveSustain(EnvRun(e, sh, n, k), sh)
  {
    hide EnvStep, AboveSustain, Fires;
    if k > 0 {
      DecayBelowSustainStays(e, sh, n, k - 1);
      SinkingStep(EnvRun(e, sh, n, k - 1), sh, n + k - 1);
    }
  }

  lemma SinkingStep(e: Env, sh: Shape, n: nat)
    requires e.InRange() && e.mode == Decay && sh.UsesAdsr() && !AboveSustain(e, sh)
    ensures EnvStep(e, sh, n).mode == Decay && !AboveSustain(EnvStep(e, sh, n), sh)
  {
  }

  /** In decay now and for as long as sh is held. */
  ghost predicate NeverEnds(e: Env, sh: Shape, n: nat)
    requires e.InRange()
  {
    forall k: nat :: EnvRun(e, sh, n, k).mode == Decay
  }

  lemma BelowSustainNeverEnds(e: Env, sh: Shape, n: nat)
    requires e.InRange() && e.mode == Decay && sh.UsesAdsr() && !AboveSustain(e, sh)
    ensures NeverEnds(e, sh, n)
  {
    hide EnvRun, AboveSustain;
    forall k: nat
      ensures EnvRun(e, sh, n, k).mode == Decay
    {
      DecayBelowSustainStays(e, sh, n, k);
    }
  }

  /** With ADSR held a decay ever ends if and only if the level it would step to first does
      not lie below the sustain band. */
  lemma {:induction false} DecayEndsExactly(e: Env, sh: Shape, n: nat)
    requires e.InRange() && e.mode == Decay && sh.UsesAdsr()
    ensures (exists k: nat :: EnvRun(e, sh, n, k).mode == Sustain) <==> ExpDecrease(e.level) >= 0x100 * sh.SustainTarget()
    ensures NeverEnds(e, sh, n) <==> ExpDecrease(e.level) < 0x100 * sh.SustainTarget()
  {
    hide EnvRun;
    if AboveSustain(e, sh) {
      var k := DecayReachesSustain(e, sh, n);
    } else {
      BelowSustainNeverEnds(e, sh, n);
    }
  }

  /** Running on. */
  lemma {:induction false} EnvRunFrom(e: Env, sh: Shape, n: nat, j: nat, k: nat)
    requires e.InRange() && j <= k
    ensures EnvRun(e, sh, n, k) == EnvRun(EnvRun(e, sh, n, j), sh, n + j, k - j)
    decreases k
  {
    if j < k {
      EnvRunFrom(e, sh, n, j, k - 1);
    }
  }

  lemma TopIsAboveSustain(e: Env, sh: Shape)
    requires 0x7e0 <= e.level <= ENV_MAX
    ensures AboveSustain(e, sh)
  {
    assert e.level / 0x100 == 7;
  }

  /** With ADSR held, attack is followed by decay and decay by sustain, each within a
      bound that depends on its rate alone. */
  lemma AttackReachesSustain(e: Env, sh: Shape, n: nat) returns (d: nat, s: nat)
    requires e.InRange() && e.mode == Attack && sh.UsesAdsr()
    ensures 0 < d <= 64 * Period(sh.AttackRate()) && d < s <= d + 896 * Period(sh.DecayRate())
    ensures Firings(sh.AttackRate(), n, d) <= 64
    ensures forall j :: 0 <= j < d ==> EnvRun(e, sh, n, j).mode == Attack
    ensures forall j :: d <= j < s ==> EnvRun(e, sh, n, j).mode == Decay
    ensures EnvRun(e, sh, n, s).mode == Sustain
  {
    hide EnvStep, AboveSustain, Fires, Period, EnvRun;
    d := AttackReachesDecay(e, sh, n);
    var at := EnvRun(e, sh, n, d);
    TopIsAboveSustain(at, sh);
    var k := DecayReachesSustain(at, sh, n + d);
    s := d + k;
    forall j | d <= j <= s
      ensures EnvRun(e, sh, n, j) == EnvRun(at, sh, n + d, j - d)
    {
      EnvRunFrom(e, sh, n, d, j);
    }
  }

  /** A decay that sustains in its next sample, but not before its step has reached the band,
      stands less than a band above it. */
  lemma LastDecayStep(e: Env, sh: Shape, n: nat)
    requires e.InRange() && e.mode == Decay && sh.UsesAdsr() && EnvStep(e, sh, n).mode == Sustain
    ensures ExpDecrease(e.level) < 0x100 * (sh.SustainTarget() + 1)
  {
  }

  /** So a held shape never leads a decay below its band, but a change of the sustain level can
      strand one for good: from any attack under sh there is a sample after which any shape
      sh2 with a higher sustain level keeps the voice in decay for ever. */
  lemma RaisedSustainStrands(e: Env, sh: Shape, sh2: Shape, n: nat) returns (k: nat)
    requires e.InRange() && e.mode == Attack && sh.UsesAdsr() && sh2.UsesAdsr() && sh2.SustainTarget() > sh.SustainTarget()
    ensures k < 64 * Period(sh.AttackRate()) + 896 * Period(sh.DecayRate())
    ensures EnvRun(e, sh, n, k).mode == Decay
    ensures NeverEnds(EnvRun(e, sh, n, k), sh2, n + k)
  {
    var d, s := AttackReachesSustain(e, sh, n);
    k := s - 1;
    hide EnvStep, Fires, Period;
    var at := EnvRun(e, sh, n, k);
    LastDecayStep(at, sh, n + k);
    BelowSustainNeverEnds(at, sh2, n + k);
  }

  // ---- sustain ----

  /** m steps of the exponential decrease, stopped at 0. */
  function Decayed(level: int, m: nat): (r: int)
    ensures 0 <= level <= ENV_MAX ==> 0 <= r <= level && r <= (if level > m then level - m else 0)
  {
    if m == 0 then level else Clipped(ExpDecrease(Decayed(level, m - 1)))
  }

  lemma SustainStep(e: Env, sh: Shape, n: nat)
    requires e.InRange() && e.mode == Sustain && sh.UsesAdsr()
    ensures EnvStep(e, sh, n)
            == Env(Sustain, if Fires(sh.SustainRate(), n) then Clipped(ExpDecrease(e.level)) else e.level)
  {
  }

  /** Sustain lasts, and its level is the exponential decrease iterated once for every
      counter event of its rate. */
  lemma {:induction false} SustainIsExponential(e: Env, sh: Shape, n: nat, k: nat)
    requires e.InRange() && e.mode == Sustain && sh.UsesAdsr()
    ensures EnvRun(e, sh, n, k) == Env(Sustain, Decayed(e.level, Firings(sh.SustainRate(), n, k)))
  {
    hide EnvStep, Fires, Clipped, ExpDecrease;
    if k > 0 {
      SustainIsExponential(e, sh, n, k - 1);
      SustainStep(EnvRun(e, sh, n, k - 1), sh, n + k - 1);
    }
  }

  /** At rate 0 the level is held for ever; at any other it is 0 after 2047 periods. */
  lemma {:induction false} SustainHoldsOrDies(e: Env, sh: Shape, n: nat, k: nat)
    requires e.InRange() && e.mode == Sustain && sh.UsesAdsr()
    ensures sh.SustainRate() == 0 ==> EnvRun(e, sh, n, k) == e
    ensures sh.SustainRate() != 0 && k >= 2047 * Period(sh.SustainRate()) ==> EnvRun(e, sh, n, k) == Env(Sustain, 0)
  {
    hide EnvRun, Fires, Period;
    var rate := sh.SustainRate();
    SustainIsExponential(e, sh, n, k);
    if rate == 0 {
      NeverFires(n, k);
    } else if k >= 2047 * Period(rate) {
      FiringsInPeriods(rate, n, 2047, 2047 * Period(rate));
      FiringsGrow(rate, n, 2047 * Period(rate), k);
    }
  }

  lemma {:induction false} NeverFires(n: nat, k: nat)
    ensures Firings(0, n, k) == 0
  {
    if k > 0 {
      NeverFires(n, k - 1);
    }
  }

  // ---- gain ----

  /** A directly given level holds from the very next sample on. */
  lemma DirectGainIsImmediate(e: Env, sh: Shape, n: nat)
    requires e.mode != Release && !sh.UsesAdsr() && sh.gain < 0x80
    ensures EnvStep(e, sh, n).level == 16 * sh.gain
  {
    assert Period(31) == 1;
    assert Fires(31, n);
  }

  /** The change a linear gain mode makes at each counter event. */
  function GainSlope(gain: u8): int
    requires gain >= 0x80 && gain / 32 % 4 != 1
  {
    if gain / 32 % 4 == 0 then -0x20 else 0x20
  }

  lemma GainStep(e: Env, sh: Shape, n: nat)
    requires e.InRange() && e.mode != Release && !sh.UsesAdsr() && sh.gain >= 0x80 && sh.gain / 32 % 4 != 1
    ensures EnvStep(e, sh, n).mode != Release
    ensures EnvStep(e, sh, n).level == Clipped(e.level + (if Fires(sh.gain % 32, n) then GainSlope(sh.gain) else 0))
  {
  }

  lemma ClipOnce(x: int, slope: int, more: int)
    requires 0 <= x <= ENV_MAX && ((0 <= slope && 0 <= more) || (slope <= 0 && more <= 0))
    ensures Clipped(Clipped(x + slope) + more) == Clipped(x + slope + more)
  {
  }

  /** With GAIN held in a linear mode the level after k samples is a straight line in the
      number of counter events, cut off at both ends; at rate 0 it stands still. */
  lemma {:induction false} GainIsLinear(e: Env, sh: Shape, n: nat, k: nat)
    requires e.InRange() && e.mode != Release && !sh.UsesAdsr() && sh.gain >= 0x80 && sh.gain / 32 % 4 != 1
    ensures EnvRun(e, sh, n, k).mode != Release
    ensures EnvRun(e, sh, n, k).level == Clipped(e.level + GainSlope(sh.gain) * Firings(sh.gain % 32, n, k))
  {
    hide EnvStep, Fires, Clipped;
    if k == 0 {
      Unclipped(e.level);
    } else {
      var slope, events := GainSlope(sh.gain), Firings(sh.gain % 32, n, k - 1);
      GainIsLinear(e, sh, n, k - 1);
      GainStep(EnvRun(e, sh, n, k - 1), sh, n + k - 1);
      MulDistributes(slope, events, 1);
      ClipOnce(e.level, slope * events, if Fires(sh.gain % 32, n + k - 1) then slope else 0);
    }
  }

  /** In the exponential GAIN mode it is the exponential decrease iterated once for every
      counter event. */
  lemma {:induction false} GainIsExponential(e: Env, sh: Shape, n: nat, k: nat)
    requires e.InRange() && e.mode != Release && !sh.UsesAdsr() && sh.gain >= 0x80 && sh.gain / 32 % 4 == 1
    ensures EnvRun(e, sh, n, k).mode != Release
    ensures EnvRun(e, sh, n, k).level == Decayed(e.level, Firings(sh.gain % 32, n, k))
  {
    hide EnvStep, Fires, Clipped, ExpDecrease;
    if k > 0 {
      GainIsExponential(e, sh, n, k - 1);
      ExpGainStep(EnvRun(e, sh, n, k - 1), sh, n + k - 1);
    }
  }

  lemma ExpGainStep(e: Env, sh: Shape, n: nat)
    requires e.InRange() && e.mode != Release && !sh.UsesAdsr() && sh.gain >= 0x80 && sh.gain / 32 % 4 == 1
    ensures EnvStep(e, sh, n).mode != Release
    ensures EnvStep(e, sh, n).level == if Fires(sh.gain % 32, n) then Clipped(ExpDecrease(e.level)) else e.level
  {
  }

  lemma Unclipped(x: int)
    requires 0 <= x <= ENV_MAX
    ensures Clipped(x) == x
  {
  }

  // ---- one sample in numbers ----

  /** The level that a sample aims at; q is the band of 256 in which the level lies. */
  function Aim(e: Env, sh: Shape, q: nat): int
  {
    if sh.adsr1 >= 0x80 then
      if e.mode == Attack then e.level + (if sh.adsr1 % 16 == 15 then 0x400 else 0x20)
      else e.level - q - 1
    else if sh.gain < 0x80 then 16 * sh.gain
    else if sh.gain / 32 == 4 then e.level - 32
    else if sh.gain / 32 == 5 then e.level - q - 1
    else e.level + 32
  }

  /** The rate at which it gets there. */
  function AimRate(e: Env, sh: Shape): (r: nat)
    ensures r < 32
  {
    if sh.adsr1 >= 0x80 then
      if e.mode == Attack then 2 * (sh.adsr1 % 16) + 1
      else if e.mode == Decay then 16 + 2 * (sh.adsr1 / 16 % 8)
      else sh.adsr2 % 32
    else if sh.gain < 0x80 then 31
    else sh.gain % 32
  }

  /** The band of 256 in which decay becomes sustain. */
  predicate InSustainBand(sh: Shape, aim: int)
  {
    var t := if sh.adsr1 >= 0x80 then sh.adsr2 / 32 else sh.gain / 32;
    0x100 * t <= aim < 0x100 * (t + 1)
  }

  /** One sample in full: what the level becomes, and which mode is left for which. */
  lemma EnvStepInNumbers(e: Env, sh: Shape, n: nat, q: nat)
    requires e.InRange() && 0x100 * q <= e.level < 0x100 * (q + 1)
    ensures var r, aim := EnvStep(e, sh, n), Aim(e, sh, q);
            if e.mode == Release then r == Env(Release, if e.level > 8 then e.level - 8 else 0)
            else
              && r.level == (if !Fires(AimRate(e, sh), n) then e.level
                             else if aim < 0 then 0 else if aim > 0x7ff then 0x7ff else aim)
              && r.mode == (match e.mode
                            case Attack => if 0 <= aim <= 0x7ff then Attack else Decay
                            case Decay => if InSustainBand(sh, aim) then Sustain else Decay
                            case _ => Sustain)
  {
    hide Fires;
    assert e.level / 0x100 == q;
  }

  /** An exponential step, of decay, of sustain and of exponential GAIN alike, takes one more than
      the number of its band off the level, stops at 0, and is made in the samples in which
      the rate fires. */
  lemma ExponentialStep(e: Env, sh: Shape, n: nat, q: nat)
    requires e.InRange() && 0x100 * q <= e.level < 0x100 * (q + 1) && e.mode != Release
    requires if sh.adsr1 >= 0x80 then e.mode != Attack else sh.gain / 32 == 5
    ensures var rate := if sh.adsr1 < 0x80 then sh.gain % 32
                        else if e.mode == Decay then 16 + 2 * (sh.adsr1 / 16 % 8) else sh.adsr2 % 32;
            EnvStep(e, sh, n).level == if !Fires(rate, n) then e.level else if e.level > q then e.level - q - 1 else 0
  {
    EnvStepInNumbers(e, sh, n, q);
    hide EnvStep, Fires;
  }

  /** While it has not left its band the level is a straight line of slope q + 1 in the number
      of exponential steps; the step that leaves the band is still on it. */
  lemma {:induction false} DecayedInBand(level: int, q: nat, m: nat)
    requires 0x100 * q <= level < 0x100 * (q + 1) && level <= ENV_MAX
    requires m > 0 ==> level - (m - 1) * (q + 1) >= 0x100 * q
    ensures Decayed(level, m) == if level >= m * (q + 1) then level - m * (q + 1) else 0
  {
    if m > 0 {
      if m > 1 {
        MulMono(q + 1, m - 2, m - 1);
      }
      MulDistributes(q + 1, m - 1, 1);
      DecayedInBand(level, q, m - 1);
      MulMono(q + 1, 0, m - 1);
      NextInBand(level - (m - 1) * (q + 1), q);
    }
  }

  lemma NextInBand(x: int, q: nat)
    requires 0x100 * q <= x < 0x100 * (q + 1) && x <= ENV_MAX
    ensures Clipped(ExpDecrease(x)) == if x >= q + 1 then x - (q + 1) else 0
  {
    assert x / 0x100 == q;
  }

  /** The shape and mode that make the level fall exponentially, and at which rate. */
  predicate FallsAt(mode: EnvMode, sh: Shape, rate: nat)
  {
    if sh.adsr1 < 0x80 then mode != Release && sh.gain / 32 == 5 && rate == sh.gain % 32
    else if mode == Decay then rate == 16 + 2 * (sh.adsr1 / 16 % 8)
    else mode == Sustain && rate == sh.adsr2 % 32
  }

  /** Decay, sustain and exponential GAIN in closed form, for as long as the mode lasts and up to
      the step that leaves the band: after m counter events the level is lower by m * (q + 1). */
  lemma {:induction false} FallsInStraightLines(e: Env, sh: Shape, rate: nat, n: nat, k: nat, q: nat)
    requires e.InRange() && 0x100 * q <= e.level < 0x100 * (q + 1) && rate < 32
    requires forall j :: 0 <= j < k ==> FallsAt(EnvRun(e, sh, n, j).mode, sh, rate)
    requires var m := Firings(rate, n, k); m > 0 ==> e.level - (m - 1) * (q + 1) >= 0x100 * q
    ensures var fall := Firings(rate, n, k) * (q + 1);
            EnvRun(e, sh, n, k).level == if e.level >= fall then e.level - fall else 0
  {
    hide EnvRun, EnvStep, Fires, Decayed;
    FallsExponentially(e, sh, rate, n, k);
    DecayedInBand(e.level, q, Firings(rate, n, k));
  }

  lemma {:induction false} FallsExponentially(e: Env, sh: Shape, rate: nat, n: nat, k: nat)
    requires e.InRange() && rate < 32
    requires forall j :: 0 <= j < k ==> FallsAt(EnvRun(e, sh, n, j).mode, sh, rate)
    ensures EnvRun(e, sh, n, k).level == Decayed(e.level, Firings(rate, n, k))
  {
    hide EnvStep, Fires, Clipped, ExpDecrease, FallsAt;
    if k > 0 {
      FallsExponentially(e, sh, rate, n, k - 1);
      assert FallsAt(EnvRun(e, sh, n, k - 1).mode, sh, rate);
      FallStep(EnvRun(e, sh, n, k - 1), sh, rate, n + k - 1);
    }
  }

  lemma FallStep(e: Env, sh: Shape, rate: nat, n: nat)
    requires e.InRange() && rate < 32 && FallsAt(e.mode, sh, rate)
    ensures EnvStep(e, sh, n).level == if Fires(rate, n) then Clipped(ExpDecrease(e.level)) else e.level
  {
    hide Fires;
  }

  // ---- release ends ----

  /** Release takes eight off the level in every sample, whatever the registers hold. */
  function Released(level: int, k: nat): int { if level > 8 * k then level - 8 * k else 0 }

  lemma ReleaseStep(level: int, k: nat)
    ensures 0 <= level ==> EnvelopeRelease(Released(level, k)) == Released(level, k + 1)
    ensures level <= ENV_MAX ==> Released(level, 256) == 0
  {
  }
}

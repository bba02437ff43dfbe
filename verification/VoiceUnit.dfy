/** A voice as the emulator keeps it: a record updated in place (src/dsp.c). Every method is
    proved against the functions of module Voices. */
module VoiceUnit {
  import opened Bits
  import opened Aram
  import opened Brr
  import opened Counters
  import opened Envelope
  import V = Voices

  class Voice {
    var interpPos: int
    var env: int
    var srcnPtr: u16
    var nextBrrAddr: u16
    var brrAddr: u16
    var pitch: u16
    var envMode: EnvMode
    var brrHdr: u8
    var brrOff: u8
    var bufPos: u8
    var attackDelay: u8
    const buf: array<s16>

    /** The record as a value. */
    ghost function View(): V.VState
      reads this, buf
    {
      V.VState(interpPos, env, srcnPtr, nextBrrAddr, brrAddr, pitch, envMode, brrHdr, brrOff, bufPos, attackDelay, buf[..])
    }

    ghost predicate Valid()
      reads this, buf
    {
      V.Inv(View())
    }

    constructor ()
      ensures Valid() && View() == V.ZeroVoice() && fresh(buf)
    {
      interpPos, env := 0, 0;
      srcnPtr, nextBrrAddr, brrAddr, pitch := 0, 0, 0, 0;
      envMode := Release;
      brrHdr, brrOff, bufPos, attackDelay := 0, 0, 0, 0;
      buf := new s16[V.RING](_ => 0);
      new;
      assert buf[..] == seq(V.RING, _ => 0);
    }

    method BrrByte(aram: array<u8>) returns (byte: u8)
      requires aram.Length == ARAM_SIZE + SPILL && brrAddr + brrOff < ARAM_SIZE + SPILL && brrOff < 0xff
      modifies this`brrOff
      ensures brrOff == old(brrOff) + 1
      ensures byte == aram[brrAddr + old(brrOff)]
    {
      byte := aram[brrAddr + brrOff];
      brrOff := brrOff + 1;
    }

    method FilterState() returns (older: s16, prev: s16)
      requires Valid()
      ensures (older, prev) == V.History(View())
    {
      if bufPos != 0 {
        return buf[bufPos - 2], buf[bufPos - 1];
      } else {
        return buf[V.RING - 2], buf[V.RING - 1];
      }
    }

    /** The filter switch: four samples on ints, nothing clamped in between. */
    static method FilterGroup(f: nat, s: seq<s16>, older: s16, prev: s16) returns (a: int, b: int, c: int, d: int)
      requires f < 4 && |s| == 4
      ensures [a, b, c, d] == Ideal(f, s, older, prev)
    {
      FourSamples(f, s, older, prev);
      hide Ideal;
      match f {
        case 0 =>
          a, b, c, d := s[0], s[1], s[2], s[3];
        case 1 =>
          a := Filter1(s[0], prev);
          b := Filter1(s[1], a);
          c := Filter1(s[2], b);
          d := Filter1(s[3], c);
        case 2 =>
          a := Filter2(s[0], prev, older);
          b := Filter2(s[1], a, prev);
          c := Filter2(s[2], b, a);
          d := Filter2(s[3], c, b);
        case _ =>
          a := Filter3(s[0], prev, older);
          b := Filter3(s[1], a, prev);
          c := Filter3(s[2], b, a);
          d := Filter3(s[3], c, b);
      }
    }

    static lemma FourInPlace(b0: seq<s16>, at: nat, a: int, b: int, c: int, d: int)
      requires at + 4 <= |b0|
      ensures b0[at := Clamp16(a)][at + 1 := Clamp16(b)][at + 2 := Clamp16(c)][at + 3 := Clamp16(d)]
              == b0[..at] + Clamped([a, b, c, d]) + b0[at + 4..]
    {
      hide Clamp16;
      assert Clamped([a, b, c, d]) == [Clamp16(a), Clamp16(b), Clamp16(c), Clamp16(d)];
    }

    method StoreGroup(a: int, b: int, c: int, d: int)
      requires buf.Length == V.RING && bufPos + 4 <= V.RING
      modifies this`bufPos, buf
      ensures buf[..] == old(buf[..bufPos]) + Clamped([a, b, c, d]) + old(buf[bufPos + 4..])
      ensures bufPos == if old(bufPos) + 4 >= V.RING then 0 else old(bufPos) + 4
    {
      hide Clamp16;
      ghost var b0 := buf[..];
      buf[bufPos + 0] := Clamp16(a);
      buf[bufPos + 1] := Clamp16(b);
      buf[bufPos + 2] := Clamp16(c);
      buf[bufPos + 3] := Clamp16(d);
      assert buf[..] == b0[bufPos := Clamp16(a)][bufPos + 1 := Clamp16(b)][bufPos + 2 := Clamp16(c)][bufPos + 3 := Clamp16(d)];
      FourInPlace(b0, bufPos, a, b, c, d);
      assert old(buf[..bufPos]) == b0[..bufPos] && old(buf[bufPos + 4..]) == b0[bufPos + 4..];
      bufPos := bufPos + 4;
      if bufPos >= V.RING {
        bufPos := 0;
      }
    }

    /** The two bytes of a group are read and filtered. */
    method ReadGroup(aram: array<u8>) returns (a: int, b: int, c: int, d: int)
      requires Valid() && aram.Length == ARAM_SIZE + SPILL && brrOff != 0
      modifies this`brrOff
      ensures brrOff == old(brrOff) + 2
      ensures Clamped([a, b, c, d]) == V.GroupOut(old(View()), aram[..])
    {
      ghost var v := View();
      var older, prev := FilterState();
      var b0 := BrrByte(aram);
      var b1 := BrrByte(aram);
      var inputs := [Input(brrHdr, b0, false), Input(brrHdr, b0, true), Input(brrHdr, b1, false), Input(brrHdr, b1, true)];
      assert inputs == V.GroupInputs(brrHdr, aram[v.brrAddr + v.brrOff], aram[v.brrAddr + v.brrOff + 1]);
      hide Input, Ideal, Clamped;
      a, b, c, d := FilterGroup(FilterOf(brrHdr), inputs, older, prev);
    }

    /** Four samples, clamped only when all four are known. */
    method BrrSample4(aram: array<u8>)
      requires Valid() && aram.Length == ARAM_SIZE + SPILL && brrOff != 0
      modifies this`brrOff, this`bufPos, buf
      ensures View() == V.BrrSample4(old(View()), aram[..]) && brrOff == old(brrOff) + 2
      ensures var a, at := brrAddr + old(brrOff), old(bufPos);
              IsGroup(brrHdr, aram[a], aram[a + 1], old(V.History(View())).0, old(V.History(View())).1, buf[at..at + 4])
    {
      ghost var v := View();
      hide V.GroupOut, IsGroup, V.History, Clamped, FilterOf;
      V.GroupOutInNumbers(v, aram[..]);
      var a, b, c, d := ReadGroup(aram);
      assert buf[..] == v.buf;
      StoreGroup(a, b, c, d);
      assert buf[v.bufPos..v.bufPos + 4] == V.GroupOut(v, aram[..]);
      assert v.buf[..v.bufPos] == old(buf[..bufPos]) && v.buf[v.bufPos + 4..] == old(buf[bufPos + 4..]);
    }

    method RunEnvelope(sh: Shape, counters: RateCounters)
      requires Valid() && attackDelay == 0 && counters.Valid()
      modifies this`env, this`envMode
      ensures Valid()
      ensures Env(envMode, env) == EnvStep(Env(old(envMode), old(env)), sh, counters.runs)
    {
      ghost var e := Env(envMode, env);
      EnvStepRules(e, sh, counters.runs);
      if envMode == Release {
        EnvelopeReleased();
        return;
      }
      var target: nat;
      var ret: Target;
      if sh.adsr1 >= 0x80 {
        target := sh.adsr2 / 32;
        ret := AdsrEnv(envMode, env, sh);
      } else {
        target := sh.gain / 32;
        ret := GainEnv(env, sh.gain);
      }
      if ret.env / 0x100 == target && envMode == Decay {
        envMode := Sustain;
      }
      if ret.env < 0 || ret.env > ENV_MAX {
        ret := ret.(env := if ret.env < 0 then 0 else ENV_MAX);
        if envMode == Attack {
          envMode := Decay;
        }
      }
      var fires := counters.Read(ret.rate);
      if fires {
        env := ret.env;
      }
    }

    method EnvelopeReleased()
      modifies this`env
      ensures env == EnvelopeRelease(old(env))
    {
      if env > 8 {
        env := env - 8;
      } else {
        env := 0;
      }
    }

    // ---- the phases of one sample; x collects what the voice reads in it ----

    static method ReadWord(aram: array<u8>, a: u16) returns (w: u16)
      requires aram.Length == ARAM_SIZE + SPILL
      ensures w == Word(aram[..], a)
    {
      w := (aram[Wrap16(a + 1)] as int) * 0x100 + aram[a];
    }

    /** Cycles 1 to 3b. */
    method Fetch(aram: array<u8>, dir: u8, srcn: u8, pitchReg: u16, ghost x: V.VIn)
      requires Valid() && x.Valid() && aram.Length == ARAM_SIZE + SPILL && x.mem == aram[..]
      requires x.dir == dir && x.srcn == srcn && x.pitchReg == pitchReg
      modifies this
      ensures Valid() && View() == V.Fetch(old(View()), x)
    {
      srcnPtr := Wrap16(dir * 0x100 + srcn * 4);
      if attackDelay == 0 {
        srcnPtr := Wrap16(srcnPtr + 2);
      }
      nextBrrAddr := ReadWord(aram, srcnPtr);
      pitch := pitchReg % 0x4000;
      brrHdr := aram[brrAddr];
    }

    /** Cycle 3c: the attack delay counts down. */
    method RunDelay()
      requires Valid()
      modifies this
      ensures Valid() && View() == V.Delay(old(View()))
    {
      if attackDelay != 0 {
        if attackDelay == 5 {
          brrAddr := nextBrrAddr;
          brrOff := 1;
          bufPos := 0;
          brrHdr := 0;
        }
        attackDelay := attackDelay - 1;
        if attackDelay <= 3 {
          interpPos := 0x4000;
        } else {
          interpPos := 0;
        }
        pitch := 0;
        env := 0;
      }
    }

    method Interpolate(gauss: seq<s16>) returns (out: int)
      requires Valid() && |gauss| == 512
      ensures out == V.Interpolate(View(), gauss)
    {
      hide V.Weigh, V.InterpHi, V.InterpMid, Even;
      var hi, mid := V.InterpHi(interpPos), V.InterpMid(interpPos);
      var pos: nat := bufPos + hi;
      var in0, in1 := buf[V.Wrap12(pos + 0)], buf[V.Wrap12(pos + 1)];
      var in2, in3 := buf[V.Wrap12(pos + 2)], buf[V.Wrap12(pos + 3)];
      ghost var v := View();
      assert in0 == V.Tap(v, 0) && in1 == V.Tap(v, 1) && in2 == V.Tap(v, 2) && in3 == V.Tap(v, 3);
      hide V.Tap;
      out := V.Weigh(gauss[255 - mid], in0);
      out := out + V.Weigh(gauss[511 - mid], in1);
      out := out + V.Weigh(gauss[256 + mid], in2);
      out := out + V.Weigh(gauss[mid], in3);
      out := Even(out);
    }

    /** The sample before volume, and what OUTX and ENVX are to show. */
    method Sound(noise: bool, gauss: seq<s16>, ghost x: V.VIn) returns (t: V.Tone)
      requires Valid() && x.Valid() && x.noise == noise && x.gauss == gauss
      ensures t == V.Sound(View(), x)
    {
      if env != 0 {
        var sample: s16 := 0;
        if !noise {
          var out := Interpolate(gauss);
          sample := S16(out);
        }
        var outx := sample / 0x100 % 0x100;
        sample := S16(V.Enveloped(sample, env));
        t := V.Tone(sample, outx, env / 16);
      } else {
        t := V.Tone(0, 0, 0);
      }
    }

    /** Reset and end of sample, the poll of the key registers, and the envelope. */
    method RunKeys(reset: bool, poll: bool, koff: bool, kon: bool, sh: Shape, counters: RateCounters, ghost v: V.VState, ghost x: V.VIn)
      requires Valid() && counters.Valid()
      requires V.Inv(v) && x.Valid() && View() == V.Delay(V.Fetch(v, x))
      requires x.reset == reset && x.poll == poll && x.koff == koff && x.kon == kon && x.shape == sh && x.n == counters.runs
      modifies this`env, this`envMode, this`attackDelay
      ensures Valid() && View() == V.Begin(v, x)
    {
      hide V.Fetch, V.Delay, EnvStep;
      ghost var d := View();
      if reset || brrHdr % 4 == 1 {
        envMode := Release;
        env := 0;
      }
      assert View() == V.Mute(d, x);
      if poll {
        if koff {
          if envMode != Release {
            envMode := Release;
          }
        }
        if kon {
          envMode := Attack;
          attackDelay := 5;
        }
      }
      ghost var p := V.Poll(V.Mute(d, x), x);
      assert View() == p;
      hide V.Mute, V.Poll;
      if attackDelay == 0 {
        RunEnvelope(sh, counters);
      }
    }

    /** Cycle 4: decode a group when one is due, then advance by the pitch. */
    method RunDecoder(aram: array<u8>) returns (ended: bool)
      requires Valid() && aram.Length == ARAM_SIZE + SPILL
      requires !V.Silent(View()) && (brrOff == 0 ==> interpPos == 0)
      modifies this, buf
      ensures Valid() && View() == V.Finish(old(View()), aram[..])
      ensures attackDelay == old(attackDelay)
      ensures ended == old(V.Decodes(View()) && V.EndsBlock(View()) && IsEnd(brrHdr))
    {
      hide V.BrrSample4, V.GroupOut;
      ghost var v := View();
      ended := false;
      if interpPos >= 0x4000 {
        BrrSample4(aram);
        ghost var w := V.BrrSample4(v, aram[..]);
        assert View() == w;
        if brrOff >= BLOCK_SIZE {
          brrAddr := Wrap16(brrAddr + BLOCK_SIZE);
          if brrHdr % 2 == 1 {
            brrAddr := nextBrrAddr;
            ended := true;
          }
          brrOff := 1;
        }
        assert View() == V.NextGroup(v, aram[..]);
      }
      interpPos := interpPos % 0x4000 + pitch;
      interpPos := if interpPos > 0x7fff then 0x7fff else interpPos;
    }

    /** One sample of the voice, cycle by cycle: what it shows in its registers, its output,
        and what becomes of its ENDX bit. */
    method Run(aram: array<u8>, gauss: seq<s16>, counters: RateCounters, dir: u8, srcn: u8, pitchReg: u16, sh: Shape,
               noise: bool, reset: bool, poll: bool, koff: bool, kon: bool, volL: s8, volR: s8, ghost x: V.VIn)
      returns (t: V.Tone, left: s16, right: s16, ended: bool, keyed: bool)
      requires Valid() && counters.Valid() && x.Valid() && aram.Length == ARAM_SIZE + SPILL
      requires x == V.VIn(dir, srcn, pitchReg, sh, volL, volR, noise, reset, poll, kon, koff, counters.runs, aram[..], gauss)
      modifies this, buf
      ensures Valid() && View() == V.VoiceStep(old(View()), x)
      ensures V.VOut(left, right, t.outx, t.envx, ended, keyed) == V.VoiceOut(old(View()), x)
    {
      hide V.Inv, V.Fetch, V.Delay, V.Sound, V.Begin, V.Finish, V.SampleScale, S16;
      ghost var v := View();
      Fetch(aram, dir, srcn, pitchReg, x);
      RunDelay();
      t := Sound(noise, gauss, x);
      RunKeys(reset, poll, koff, kon, sh, counters, v, x);
      ghost var w := View();
      if attackDelay == 0 && envMode == Release && env == 0 {
        return t, 0, 0, false, false;
      }
      ended := RunDecoder(aram);
      keyed := attackDelay == 5;
      left, right := S16(V.SampleScale(t.sample, volL)), S16(V.SampleScale(t.sample, volR));
    }
  }
}

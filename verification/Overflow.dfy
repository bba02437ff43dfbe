/** A sample that overflows, from the block in memory to what a voice shows of it: two
    full-scale samples of one sign blend to one of the other (src/dsp.c). */
module Overflow {
  import opened Bits
  import opened Aram
  import opened Brr
  import opened Envelope
  import opened Voices
  import opened VoiceRuns
  import opened Streaming
  import opened GaussTable
  import Liveness

  const FLOOR: s16 := -0x8000

  ghost predicate AllFloor(xs: seq<s16>)
  {
    forall k :: 0 <= k < |xs| ==> xs[k] == FLOOR
  }

  // ---- a block that drives every decoder to the lower rail ----

  /** Filter 1 at full shift, and nothing but the nibble -8. */
  ghost predicate IsFloorBlock(mem: seq<u8>, a: u16)
    requires IsMemory(mem)
  {
    a + 8 < ARAM_SIZE && mem[a] / 4 == 0x31 && forall x :: a < x <= a + 8 ==> mem[x] == 0x88
  }

  ghost predicate AllLowest(ins: seq<int>)
  {
    forall k :: 0 <= k < |ins| ==> ins[k] == -0x4000
  }

  lemma LowestInput(hdr: u8)
    requires hdr / 4 == 0x31
    ensures FilterOf(hdr) == 1 && Input(hdr, 0x88, false) == -0x4000 && Input(hdr, 0x88, true) == -0x4000
  {
    assert Shift(hdr) == 12;
    assert Pow2(12) == 4096 by {
      assert Pow2(4) == 16 && Pow2(8) == 256;
    }
  }

  lemma FloorBlockInputs(mem: seq<u8>, a: u16)
    requires IsMemory(mem) && IsFloorBlock(mem, a)
    ensures FilterOf(mem[a]) == 1 && AllLowest(BlockInputs(mem, a))
  {
    LowestInput(mem[a]);
    hide Input, FilterOf;
    forall j | 0 <= j < 16
      ensures BlockInputs(mem, a)[j] == -0x4000
    {
      assert mem[a + 1 + j / 2] == 0x88;
    }
  }

  /** Whatever the history, the fourth sample is at the rail, and after it all are. */
  lemma {:induction false} LowestGroup(ins: seq<int>, older: s16, prev: s16)
    requires |ins| == 4 && AllLowest(ins)
    ensures var g := Clamped(Ideal(1, ins, older, prev));
            g[3] == FLOOR && (prev == FLOOR ==> AllFloor(g))
  {
    FourSamples(1, ins, older, prev);
    var a := Filter(1, ins[0], prev, older);
    var b := Filter(1, ins[1], a, prev);
    var c := Filter(1, ins[2], b, a);
    var d := Filter(1, ins[3], c, b);
    FiltersAreFractions(1, ins[0], prev, older);
    FiltersAreFractions(1, ins[1], a, prev);
    FiltersAreFractions(1, ins[2], b, a);
    FiltersAreFractions(1, ins[3], c, b);
    hide Filter, Ideal;
    assert a <= 14335 && b <= -2945 && c <= -19145 && d <= -34333;
    assert prev == FLOOR ==> a == -47104 && b < -0x8000 && c < -0x8000;
  }

  lemma {:induction false} FloorStays(ins: seq<int>, older: s16, prev: s16)
    requires |ins| % 4 == 0 && AllLowest(ins) && prev == FLOOR
    ensures AllFloor(Grouped(1, ins, older, prev))
  {
    hide Ideal, Clamped, Grouped;
    if ins == [] {
      assert Grouped(1, ins, older, prev) == [];
    } else {
      var g := Clamped(Ideal(1, ins[..4], older, prev));
      GroupedUnfolds(1, ins, older, prev);
      LowestGroup(ins[..4], older, prev);
      FloorStays(ins[4..], g[2], g[3]);
    }
  }

  /** From any history, all but the first four samples of such a block are at the rail. */
  lemma {:induction false} FloorBlock(mem: seq<u8>, a: u16, rest: seq<u16>, older: s16, prev: s16)
    requires IsMemory(mem) && IsFloorBlock(mem, a)
    ensures AllFloor(GroupList(mem, [a] + rest, older, prev)[4..16])
  {
    FloorBlockInputs(mem, a);
    hide IsFloorBlock, BlockInputs, Ideal, Clamped, Grouped, GroupList;
    var ins := BlockInputs(mem, a);
    var g := Clamped(Ideal(1, ins[..4], older, prev));
    GroupedUnfolds(1, ins, older, prev);
    LowestGroup(ins[..4], older, prev);
    FloorStays(ins[4..], g[2], g[3]);
    var b := Grouped(1, ins, older, prev);
    GroupListUnfolds(mem, a, rest, older, prev);
    assert (b + GroupList(mem, rest, b[14], b[15]))[4..16] == b[4..];
  }

  // ---- the ring ----

  ghost predicate FloorRing(v: VState)
    requires Inv(v)
  {
    AllFloor(v.buf)
  }

  /** A voice that has decoded exactly such a block, whatever its registers did and whatever it
      held before, has nothing else in its ring. */
  lemma {:induction false} FloorBlockFillsRing(v: VState, ins: seq<VIn>, mem: seq<u8>)
    requires Inv(v) && AllValid(ins) && NeverRestarts(v, ins) && v.brrOff == 1
    requires IsMemory(mem) && BlocksKept(v, ins, mem) && IsFloorBlock(mem, v.brrAddr) && |Nexts(v, ins)| == 4
    ensures FloorRing(VRun(v, ins))
  {
    hide Inv, Nexts, Stream, VRun, NeverRestarts, BlocksKept, GroupList, IsFloorBlock, BlocksFrom, BlockList, IdealList, InRange;
    hide GroupStream, GroupRun, History, Window, InsideMemory, FloorRing;
    var nexts, h, heard := Nexts(v, ins), History(v), Stream(v, ins);
    OneBlock(mem, v.brrAddr, nexts);
    VoiceStreams(v, ins, mem);
    VoiceDecodesBlocks(v, ins, mem);
    FloorBlock(mem, v.brrAddr, [], h.0, h.1);
    assert [v.brrAddr] + [] == [v.brrAddr];
    var all := GroupList(mem, [v.brrAddr], h.0, h.1);
    assert all[..|heard|] == all;
    RingIsWindow(v, ins);
    WindowOfStream(v, VRun(v, ins), heard);
  }

  lemma OneBlock(mem: seq<u8>, a: u16, nexts: seq<u16>)
    requires IsMemory(mem) && IsFloorBlock(mem, a) && |nexts| == 4
    ensures BlocksFrom(mem, a, nexts) == [a] && InsideMemory(BlocksFrom(mem, a, nexts))
  {
    assert Padded(nexts) == nexts;
    BlockAddrsUnfolds(mem, a, nexts, 1);
    assert BlockAddrs(mem, Following(mem, a, nexts[3]), nexts[4..], 0) == [];
  }

  lemma WindowOfStream(v: VState, r: VState, heard: seq<s16>)
    requires Inv(v) && Inv(r) && |heard| == 16 && AllFloor(heard[4..16])
    requires Window(r) == Last12(Window(v) + heard)
    ensures FloorRing(r)
  {
    assert Window(r) == heard[4..16];
    forall k | 0 <= k < RING
      ensures r.buf[k] == FLOOR
    {
      var j := if k >= r.bufPos then k - r.bufPos else k - r.bufPos + RING;
      assert Window(r)[j] == r.buf[k];
    }
  }

  // ---- the interpolated sample ----

  /** With such a ring the shipped table interpolates a sample that does not fit exactly at the
      positions of module GaussTable; what is stored of it is a positive sample. */
  lemma FloorRingFlips(v: VState)
    requires Inv(v) && FloorRing(v)
    ensures var m := InterpMid(v.interpPos);
            && (Fits(Interpolate(v, Table())) <==> !Overshoots(m))
            && (Overshoots(m) ==> Interpolate(v, Table()) == -32784 && S16(Interpolate(v, Table())) == 32752)
  {
    hide Table, Overshoots, Tap, Interpolate, Blended, Inv, InterpMid, WeightSum, NonNegative, FloorRing;
    var m := InterpMid(v.interpPos);
    FloorTaps(v);
    InterpolateBlends(v, Table());
    WeightSumsOfTable(m);
    TableWeighs(m);
    BlendBounds(Table(), m, FLOOR, FLOOR, FLOOR, FLOOR);
  }

  lemma FloorTaps(v: VState)
    requires Inv(v) && FloorRing(v)
    ensures Tap(v, 0) == FLOOR && Tap(v, 1) == FLOOR && Tap(v, 2) == FLOOR && Tap(v, 3) == FLOOR
  {
  }

  // ---- from a key-on ----

  lemma {:induction false} NextsCountGroups(v: VState, ins: seq<VIn>)
    requires Inv(v) && AllValid(ins)
    ensures |Nexts(v, ins)| == GroupsDecoded(v, ins)
    decreases |ins|
  {
    hide VoiceStep, DecodesIn, DirectoryWord, Inv;
    if ins != [] {
      NextsCountGroups(VoiceStep(v, ins[0]), ins[1..]);
    }
  }

  lemma {:induction false} DelayNeverRestarts(v: VState, ins: seq<VIn>, sh: Shape, n: nat)
    requires Inv(v) && AllValid(ins) && v.attackDelay <= 4 && v.envMode == Attack && |ins| == v.attackDelay
    requires sh.UsesAdsr() && Liveness.Held(v, ins, sh, n)
    ensures NeverRestarts(v, ins)
    decreases |ins|
  {
    hide VoiceStep, Liveness.Undisturbed, DecodesIn, Inv;
    if ins != [] {
      Liveness.DelayStep(v, ins[0]);
      DelayNeverRestarts(VoiceStep(v, ins[0]), ins[1..], sh, n + 1);
    }
  }

  lemma FinishMoves(w: VState, mem: seq<u8>)
    requires Inv(w) && IsMemory(mem) && !Silent(w) && (w.brrOff == 0 ==> w.interpPos == 0)
    ensures Finish(w, mem).interpPos == w.interpPos % 0x4000 + w.pitch
  {
    PitchNeverClamps(w);
    hide GroupOut;
  }

  lemma DelayedState(v: VState, i: VIn)
    requires Inv(v) && i.Valid() && v.attackDelay > 0
    ensures var d := Delay(Fetch(v, i)); d.pitch == 0 && (d.interpPos == 0 || d.interpPos == 0x4000)
  {
    hide Word;
  }

  /** The delay leaves the position between two samples at 0. */
  lemma DelayRests(v: VState, i: VIn)
    requires Inv(v) && i.Valid() && v.attackDelay > 0 && v.envMode == Attack && Liveness.Undisturbed(v, i)
    ensures VoiceStep(v, i).interpPos == 0
  {
    hide Fetch, Delay, Begin, Finish, Inv, Liveness.Undisturbed;
    DelayedState(v, i);
    BeginRests(v, i);
    FinishMoves(Begin(v, i), i.mem);
  }

  lemma BeginRests(v: VState, i: VIn)
    requires Inv(v) && i.Valid() && v.attackDelay > 0 && v.envMode == Attack && Liveness.Undisturbed(v, i)
    ensures var d, w := Delay(Fetch(v, i)), Begin(v, i);
            w.envMode != Release && w.pitch == d.pitch && w.interpPos == d.interpPos
  {
    var d := Delay(Fetch(v, i));
    assert d.envMode == Attack && d.brrHdr == HeaderIn(v, i);
    hide Fetch, Delay;
    EnvStepRules(Env(d.envMode, d.env), i.shape, i.n);
    hide EnvStep;
  }

  lemma {:induction false} DelayEndsAtRest(v: VState, ins: seq<VIn>, sh: Shape, n: nat)
    requires Inv(v) && AllValid(ins) && v.attackDelay <= 5 && v.envMode == Attack && |ins| == v.attackDelay && ins != []
    requires sh.UsesAdsr() && Liveness.Held(v, ins, sh, n)
    ensures VRun(v, ins).interpPos == 0
    decreases |ins|
  {
    hide VoiceStep, Liveness.Undisturbed, DecodesIn, Inv;
    var r := VoiceStep(v, ins[0]);
    DelayRests(v, ins[0]);
    Liveness.DelayStep(v, ins[0]);
    if v.attackDelay > 1 {
      DelayEndsAtRest(r, ins[1..], sh, n + 1);
    } else {
      assert ins[1..] == [];
    }
  }

  /** A voice keyed on, on a sound that starts with such a block: when it is first heard its
      ring is at the lower rail, it stands at a position that overflows, and what should be
      the lowest sample is stored as 32752. */
  lemma {:induction false} KeyOnFlips(v: VState, ins: seq<VIn>, mem: seq<u8>, sh: Shape, n: nat)
    requires Inv(v) && AllValid(ins) && v.attackDelay == 5 && v.envMode == Attack && |ins| == 5
    requires sh.UsesAdsr() && Liveness.Held(v, ins, sh, n)
    requires IsMemory(mem) && IsFloorBlock(mem, DirectoryWord(v, ins[0]))
    requires BlocksKept(VoiceStep(v, ins[0]), ins[1..], mem)
    ensures var r := VRun(v, ins);
            && r.attackDelay == 0 && r.interpPos == 0 && FloorRing(r)
            && Interpolate(r, Table()) == -32784 && S16(Interpolate(r, Table())) == 32752
  {
    hide VoiceStep, DecodesIn, Inv, DirectoryWord, BlocksKept, IsFloorBlock, Nexts, NeverRestarts, Interpolate, Table, FloorRing, S16;
    hide Liveness.Undisturbed, InterpMid, Overshoots, History, GroupsDecoded, VRun, Liveness.Held;
    var w := VoiceStep(v, ins[0]);
    KeyOnStep(v, ins[0]);
    FirstOfDelay(v, ins, sh, n);
    Liveness.DelayDecodesOneBlock(v, ins, sh, n);
    DelayEndsAtRest(v, ins, sh, n);
    DelayNeverRestarts(w, ins[1..], sh, n + 1);
    NextsCountGroups(w, ins[1..]);
    FloorBlockFillsRing(w, ins[1..], mem);
    FloorRingFlips(VRun(v, ins));
    ZeroOvershoots();
  }

  lemma ZeroOvershoots()
    ensures Overshoots(InterpMid(0))
  {
  }

  lemma {:induction false} FirstOfDelay(v: VState, ins: seq<VIn>, sh: Shape, n: nat)
    requires Inv(v) && AllValid(ins) && v.attackDelay == 5 && v.envMode == Attack && |ins| == 5
    requires sh.UsesAdsr() && Liveness.Held(v, ins, sh, n)
    ensures var w := VoiceStep(v, ins[0]);
            && w.attackDelay == 4 && w.envMode == Attack && Liveness.Held(w, ins[1..], sh, n + 1)
            && VRun(v, ins) == VRun(w, ins[1..])
            && GroupsDecoded(v, ins) == (if DecodesIn(v, ins[0]) then 1 else 0) + GroupsDecoded(w, ins[1..])
  {
    hide VoiceStep, DecodesIn, Inv, Liveness.Undisturbed;
    Liveness.DelayStep(v, ins[0]);
  }

  /** What the voice then shows: OUTX is $7f, the upper rail, in place of $80. */
  lemma FlipIsShown(r: VState, i: VIn)
    requires Inv(r) && i.Valid() && r.attackDelay == 0 && r.env != 0 && FloorRing(r)
    requires Overshoots(InterpMid(r.interpPos)) && i.gauss == Table() && !i.noise
    ensures VoiceOut(r, i).outx == 0x7f
  {
    hide Interpolate, Overshoots, Table, S16, Begin, Fetch, Delay, Inv, FloorRing, InterpMid, Enveloped, SampleScale;
    FloorRingFlips(r);
    var f := FetchKeeps(r, i);
    SameTaps(r, f, i.gauss);
  }

  lemma FetchKeeps(r: VState, i: VIn) returns (f: VState)
    requires Inv(r) && i.Valid() && r.attackDelay == 0
    ensures f == Fetch(r, i) && Delay(f) == f && Inv(f)
    ensures f.buf == r.buf && f.bufPos == r.bufPos && f.interpPos == r.interpPos && f.env == r.env
  {
    hide Word;
    f := Fetch(r, i);
  }

  lemma SameTaps(v: VState, w: VState, gauss: seq<s16>)
    requires Inv(v) && Inv(w) && |gauss| == 512
    requires v.buf == w.buf && v.bufPos == w.bufPos && v.interpPos == w.interpPos
    ensures Interpolate(v, gauss) == Interpolate(w, gauss)
  {
    hide Weigh, InterpMid, Even;
  }
}

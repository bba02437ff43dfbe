/** BRR sample decoding (src/dsp.c): the filter arithmetic, the block decoder, and the
    one integer recurrence that both it and the streaming decoder of module Voices
    are measured against. */
module Brr {
  import opened Bits
  import opened Aram

  // ---- filter arithmetic, in the emulator's shift form ----

  function Coeff1Mul(p: int): int { p + (-p) / 16 }

  function Coeff2Mul(p: int): int { p * 2 + (-p * 3) / 32 }

  function Coeff3Mul(p: int): int { p * 2 + (-p * 13) / 64 }

  function Coeff4Mul(p: int): int { p + (-p * 3) / 16 }

  function Filter1(s: int, p: int): int { s + Coeff1Mul(p) }

  function Filter2(s: int, p: int, pp: int): int { s + Coeff2Mul(p) - Coeff1Mul(pp) }

  function Filter3(s: int, p: int, pp: int): int { s + Coeff3Mul(p) - Coeff4Mul(pp) }

  /** The sample a filter makes of an input s, the last sample p and the one before. */
  function Filter(f: nat, s: int, p: int, pp: int): int
    requires f < 4
  {
    match f
    case 0 => s
    case 1 => Filter1(s, p)
    case 2 => Filter2(s, p, pp)
    case _ => Filter3(s, p, pp)
  }

  /** The shift forms are the advertised fractions, rounded down, for every integer. */
  lemma CoefficientsAreFractions(p: int)
    ensures Coeff1Mul(p) == 15 * p / 16
    ensures Coeff2Mul(p) == 61 * p / 32
    ensures Coeff3Mul(p) == 115 * p / 64
    ensures Coeff4Mul(p) == 13 * p / 16
  {
  }

  /** So each filter is the fraction of the history it is documented to be. */
  lemma FiltersAreFractions(f: nat, s: int, p: int, pp: int)
    requires f < 4
    ensures Filter(f, s, p, pp) == s + (match f
                                        case 0 => 0
                                        case 1 => 15 * p / 16
                                        case 2 => 61 * p / 32 - 15 * pp / 16
                                        case _ => 115 * p / 64 - 13 * pp / 16)
  {
    CoefficientsAreFractions(p);
    CoefficientsAreFractions(pp);
    hide Coeff1Mul, Coeff2Mul, Coeff3Mul, Coeff4Mul;
  }

  // ---- unpacking ----

  /** A four-bit field of a signed char. */
  function Nibble(x: nat): int
    requires x < 16
  {
    if x >= 8 then x - 16 else x
  }

  /** A byte is its two signed fields, the first one the high four bits. */
  lemma NibblesRebuildByte(byte: u8)
    ensures var hi, lo := Nibble(byte / 16), Nibble(byte % 16);
            && -8 <= hi < 8 && -8 <= lo < 8
            && (16 * hi + lo % 16) % 0x100 == byte
  {
  }

  /** The block's shift; the hardware's invalid values above 12 count as 12. */
  function Shift(hdr: u8): (r: nat)
    ensures r <= 12
  {
    if hdr / 16 > 12 then 12 else hdr / 16
  }

  function FilterOf(hdr: u8): (f: nat)
    ensures f < 4
  {
    hdr / 4 % 4
  }

  function Scale(s: int, shift: nat): int { s * Pow2(shift) / 2 }

  /** A scaled nibble fits the 16-bit field that holds it. */
  lemma ScaledFits(s: int, shift: nat)
    requires -8 <= s < 8 && shift <= 12
    ensures -0x4000 <= Scale(s, shift) < 0x4000
  {
    Pow2Upto(shift, 12);
    assert Pow2(12) == 4096 by {
      assert Pow2(4) == 16 && Pow2(8) == 256;
    }
    var p := Pow2(shift);
    MulMono(p, s, 8);
    MulMono(p, -8, s);
    MulMono(p, s, 7);
  }

  lemma {:induction false} Pow2Upto(a: nat, b: nat)
    requires a <= b
    ensures Pow2(a) <= Pow2(b)
    decreases b
  {
    if a < b {
      Pow2Upto(a, b - 1);
    }
  }

  /** The input carried by one nibble of a data byte, the high nibble first. */
  function Input(hdr: u8, byte: u8, second: bool): (r: s16)
    ensures -0x4000 <= r < 0x4000
  {
    var n := Nibble(if second then byte % 16 else byte / 16);
    ScaledFits(n, Shift(hdr));
    Scale(n, Shift(hdr))
  }

  // ---- the ideal recurrence and its two approximations ----

  /** No rounding to 16 bits anywhere. */
  function Ideal(f: nat, ins: seq<int>, older: int, prev: int): (r: seq<int>)
    requires f < 4
    ensures |r| == |ins|
  {
    if ins == [] then []
    else
      var x := Filter(f, ins[0], prev, older);
      [x] + Ideal(f, ins[1..], prev, x)
  }

  /** Every sample is cast to 16 bits before it is used again. */
  function Truncated(f: nat, ins: seq<int>, older: s16, prev: s16): (r: seq<s16>)
    requires f < 4
    ensures |r| == |ins|
  {
    if ins == [] then []
    else
      var x := S16(Filter(f, ins[0], prev, older));
      [x] + Truncated(f, ins[1..], prev, x)
  }

  /** Four samples at a time; the four are clamped when the last one is known. */
  function Grouped(f: nat, ins: seq<int>, older: s16, prev: s16): (r: seq<s16>)
    requires f < 4 && |ins| % 4 == 0
    ensures |r| == |ins|
  {
    if ins == [] then []
    else
      var g := Clamped(Ideal(f, ins[..4], older, prev));
      g + Grouped(f, ins[4..], g[2], g[3])
  }

  function Clamped(xs: seq<int>): (r: seq<s16>)
    ensures |r| == |xs|
    ensures forall k :: 0 <= k < |xs| ==> r[k] == Clamp16(xs[k])
  {
    seq(|xs|, i requires 0 <= i < |xs| => Clamp16(xs[i]))
  }

  predicate InRange(xs: seq<int>)
  {
    forall k :: 0 <= k < |xs| ==> -0x8000 <= xs[k] < 0x8000
  }

  /** Truncation is invisible exactly when the ideal samples all fit 16 bits. */
  lemma {:induction false} TruncatedIsIdeal(f: nat, ins: seq<int>, older: s16, prev: s16)
    requires f < 4
    ensures Truncated(f, ins, older, prev) == Ideal(f, ins, older, prev) <==> InRange(Ideal(f, ins, older, prev))
  {
    if ins != [] {
      var ideal, cut := Ideal(f, ins, older, prev), Truncated(f, ins, older, prev);
      var x := Filter(f, ins[0], prev, older);
      assert ideal[0] == x && ideal[1..] == Ideal(f, ins[1..], prev, x);
      if -0x8000 <= x < 0x8000 {
        assert cut[1..] == Truncated(f, ins[1..], prev, x);
        TruncatedIsIdeal(f, ins[1..], prev, x);
        assert forall k :: 0 <= k < |ideal[1..]| ==> ideal[1..][k] == ideal[k + 1];
        assert forall k :: 0 < k < |ideal| ==> ideal[k] == ideal[1..][k - 1];
        assert cut == [x] + cut[1..] && ideal == [x as int] + ideal[1..];
      } else {
        assert cut[0] != ideal[0];
      }
    }
  }

  /** The recurrence continues from its last two samples. */
  lemma {:induction false} IdealSplit(f: nat, ins: seq<int>, n: nat, older: int, prev: int)
    requires f < 4 && 2 <= n <= |ins|
    ensures var head := Ideal(f, ins[..n], older, prev);
            Ideal(f, ins, older, prev) == head + Ideal(f, ins[n..], head[n - 2], head[n - 1])
  {
    var x := Filter(f, ins[0], prev, older);
    var y := Filter(f, ins[1], x, prev);
    assert ins[..n][1..] == ins[1..][..n - 1] && ins[1..][n - 1..] == ins[n..];
    if n == 2 {
      assert ins[..2] == [ins[0], ins[1]];
      assert Ideal(f, ins[..2][1..], prev, x) == [y] + Ideal(f, [], x, y);
      assert ins[1..][1..] == ins[2..];
    } else {
      IdealSplit(f, ins[1..], n - 1, prev, x);
    }
  }

  /** One group of the grouped decoder. */
  lemma {:induction false} GroupedUnfolds(f: nat, ins: seq<int>, older: s16, prev: s16)
    requires f < 4 && |ins| % 4 == 0 && ins != []
    ensures var g := Clamped(Ideal(f, ins[..4], older, prev));
            Grouped(f, ins, older, prev) == g + Grouped(f, ins[4..], g[2], g[3])
  {
    hide Clamped, Ideal;
  }

  /** Clamping in groups is invisible exactly when the ideal samples all fit 16 bits. */
  lemma {:induction false} GroupedIsIdeal(f: nat, ins: seq<int>, older: s16, prev: s16)
    requires f < 4 && |ins| % 4 == 0
    ensures Grouped(f, ins, older, prev) == Ideal(f, ins, older, prev) <==> InRange(Ideal(f, ins, older, prev))
  {
    if ins != [] {
      var head := Ideal(f, ins[..4], older, prev);
      var g, ideal := Clamped(head), Ideal(f, ins, older, prev);
      IdealSplit(f, ins, 4, older, prev);
      assert head == ideal[..4];
      if InRange(head) {
        assert g == head;
        GroupedIsIdeal(f, ins[4..], g[2], g[3]);
        var tail := Ideal(f, ins[4..], g[2], g[3]);
        assert ideal[4..] == tail;
        assert forall k :: 4 <= k < |ideal| ==> ideal[k] == tail[k - 4];
        assert forall k :: 0 <= k < |tail| ==> tail[k] == ideal[k + 4];
        var all := Grouped(f, ins, older, prev);
        assert all[4..] == Grouped(f, ins[4..], g[2], g[3]);
        assert all == g + all[4..] && ideal == head + tail;
      } else {
        var k :| 0 <= k < 4 && !(-0x8000 <= head[k] < 0x8000);
        assert Grouped(f, ins, older, prev)[k] == g[k] != ideal[k];
      }
    }
  }

  /** Inside a group no sample leaves 22 bits, whatever the header, data and history. */
  lemma {:induction false} GroupStaysSmall(f: nat, ins: seq<int>, older: s16, prev: s16)
    requires f < 4 && |ins| == 4
    requires forall k :: 0 <= k < 4 ==> -0x4000 <= ins[k] < 0x4000
    ensures forall k :: 0 <= k < 4 ==> -0x20_0000 < Ideal(f, ins, older, prev)[k] < 0x20_0000
  {
    var a := Filter(f, ins[0], prev, older);
    var b := Filter(f, ins[1], a, prev);
    var c := Filter(f, ins[2], b, a);
    var d := Filter(f, ins[3], c, b);
    FourSamples(f, ins, older, prev);
    FilterBound(f, ins[0], prev, older, 0x8000, 0x8000);
    FilterBound(f, ins[1], a, prev, 112_000, 0x8000);
    FilterBound(f, ins[2], b, a, 261_000, 112_000);
    FilterBound(f, ins[3], c, b, 620_000, 261_000);
  }

  lemma FilterBound(f: nat, s: int, p: int, pp: int, bp: int, bpp: int)
    requires f < 4 && -0x4000 <= s < 0x4000 && -bp <= p <= bp && -bpp <= pp <= bpp && bp >= 0 && bpp >= 0
    ensures -(0x4002 + 61 * bp / 32 + 15 * bpp / 16) <= Filter(f, s, p, pp) <= 0x4002 + 61 * bp / 32 + 15 * bpp / 16
  {
  }

  lemma {:induction false} FourSamples(f: nat, ins: seq<int>, older: int, prev: int)
    requires f < 4 && |ins| == 4
    ensures var a := Filter(f, ins[0], prev, older);
            var b := Filter(f, ins[1], a, prev);
            var c := Filter(f, ins[2], b, a);
            Ideal(f, ins, older, prev) == [a, b, c, Filter(f, ins[3], c, b)]
  {
    var a := Filter(f, ins[0], prev, older);
    var b := Filter(f, ins[1], a, prev);
    var c := Filter(f, ins[2], b, a);
    assert Ideal(f, ins[3..], b, c) == [Filter(f, ins[3], c, b)] + Ideal(f, ins[3..][1..], c, Filter(f, ins[3], c, b));
    assert ins[2..][1..] == ins[3..] && ins[1..][1..] == ins[2..];
    assert Ideal(f, ins[2..], a, b) == [c] + Ideal(f, ins[3..], b, c);
    assert Ideal(f, ins[1..], prev, a) == [b] + Ideal(f, ins[2..], a, b);
  }

  // ---- blocks in memory ----

  const BLOCK_SIZE := 9

  /** The sixteen inputs of a block, its data addressed with 16-bit wrap-around. */
  function BlockInputs(mem: seq<u8>, aptr: u16): (r: seq<s16>)
    requires IsMemory(mem)
    ensures |r| == 16
  {
    seq(16, j requires 0 <= j < 16 => Input(mem[aptr], mem[Wrap16(aptr + 1 + j / 2)], j % 2 == 1))
  }

  predicate IsEnd(hdr: u8) { hdr % 2 == 1 }

  predicate IsLoop(hdr: u8) { hdr / 2 % 2 == 1 }

  /** With filter 0 the history plays no part. */
  lemma {:induction false} UnfilteredIsInput(ins: seq<s16>, older: s16, prev: s16)
    ensures Truncated(0, ins, older, prev) == ins
  {
    if ins != [] {
      UnfilteredIsInput(ins[1..], prev, ins[0]);
    }
  }

  /** One unfolding by two samples. */
  lemma {:induction false} TruncatedPair(f: nat, ins: seq<int>, n: nat, older: s16, prev: s16)
    requires f < 4 && n + 2 <= |ins|
    ensures var x := S16(Filter(f, ins[n], prev, older));
            var y := S16(Filter(f, ins[n + 1], x, prev));
            Truncated(f, ins[n..], older, prev) == [x, y] + Truncated(f, ins[n + 2..], x, y)
  {
    assert ins[n..][1..][1..] == ins[n + 2..];
  }

  lemma TakePair(s: seq<s16>, i: nat)
    requires 2 * i + 2 <= |s|
    ensures s[..2 * (i + 1)] == s[..2 * i] + [s[2 * i], s[2 * i + 1]]
  {
  }

  method LoadPair(aram: array<u8>, aptr: u16, ctrl: u8, a: u16, ghost i: nat) returns (first: s16, second: s16)
    requires aram.Length == ARAM_SIZE + SPILL && i < 8
    requires ctrl == aram[aptr] && a == Wrap16(aptr + 1 + i)
    ensures first == BlockInputs(aram[..], aptr)[2 * i] && second == BlockInputs(aram[..], aptr)[2 * i + 1]
  {
    first, second := Input(ctrl, aram[a], false), Input(ctrl, aram[a], true);
    assert 2 * i / 2 == i && (2 * i + 1) / 2 == i && 2 * i % 2 == 0 && (2 * i + 1) % 2 == 1;
  }

  /** i pairs are done, and what is left of the recurrence, run from the current history,
      completes the block. */
  ghost predicate IsDecoding(f: nat, ins: seq<s16>, whole: seq<s16>, i: nat, done: seq<s16>, older: s16, prev: s16)
  {
    f < 4 && 2 * i <= |ins| && done + Truncated(f, ins[2 * i..], older, prev) == whole
  }

  lemma DecodingStep(f: nat, ins: seq<s16>, whole: seq<s16>, i: nat, done: seq<s16>, older: s16, prev: s16)
    requires IsDecoding(f, ins, whole, i, done, older, prev) && 2 * i + 2 <= |ins|
    ensures var x := S16(Filter(f, ins[2 * i], prev, older));
            var y := S16(Filter(f, ins[2 * i + 1], x, prev));
            IsDecoding(f, ins, whole, i + 1, done + [x, y], x, y)
  {
    TruncatedPair(f, ins, 2 * i, older, prev);
  }

  /** The block decoder: two samples a turn, each cast as it is stored. The loops of
      filters 1 to 3 differ only in the filter they call and are one loop here.
      The local array `blk.s`, only ever filled at its next index, is a sequence. */
  method DecodeBrr(aram: array<u8>, aptr: u16, older: s16, prev: s16)
    returns (blk: seq<s16>, end: bool, loop: bool)
    requires aram.Length == ARAM_SIZE + SPILL
    requires aram[aptr] / 16 <= 12
    ensures blk == Truncated(FilterOf(aram[aptr]), BlockInputs(aram[..], aptr), older, prev)
    ensures IsDecoded(aram[..], aptr, older, prev, blk)
    ensures end == (aram[aptr] % 2 == 1) && loop == (aram[aptr] / 2 % 2 == 1)
  {
    hide Input, Filter, Truncated, BlockInputs, IsDecoded;
    var ctrl := aram[aptr];
    var curOlder, curPrev := older, prev;
    var a: u16 := Wrap16(aptr + 1);
    blk := [];
    var f := FilterOf(ctrl);
    ghost var ins := BlockInputs(aram[..], aptr);
    ghost var whole := Truncated(f, ins, older, prev);

    if f == 0 {
      for i := 0 to 8
        invariant a == Wrap16(aptr + 1 + i)
        invariant blk == ins[..2 * i]
      {
        var s0, s1 := LoadPair(aram, aptr, ctrl, a, i);
        a := Wrap16(a + 1);
        TakePair(ins, i);
        blk := blk + [s0, s1];
      }
      UnfilteredIsInput(ins, older, prev);
    } else {
      for i := 0 to 8
        invariant a == Wrap16(aptr + 1 + i)
        invariant IsDecoding(f, ins, whole, i, blk, curOlder, curPrev)
      {
        var s0, s1 := LoadPair(aram, aptr, ctrl, a, i);
        a := Wrap16(a + 1);
        DecodingStep(f, ins, whole, i, blk, curOlder, curPrev);
        curOlder := S16(Filter(f, s0, curPrev, curOlder));
        curPrev := S16(Filter(f, s1, curOlder, curPrev));
        blk := blk + [curOlder, curPrev];
      }
    }
    BlockIsDecoded(aram[..], aptr, older, prev);
    end := IsEnd(ctrl);
    loop := IsLoop(ctrl);
  }

  // ---- the decoders in numbers ----

  /** The sample that a header and one field of a data byte stand for, after the samples p
      and, before it, pp: the high or the low four bits of the byte as a signed number, times
      two to the shift (the top four bits of the header, 12 at most), halved and rounded down;
      and on filters 1, 2 and 3, bits 2 and 3 of the header, the fractions of p and pp. */
  function FromByte(hdr: u8, b: u8, low: bool, p: int, pp: int): int
  {
    var field := if low then S8(b as int * 16 % 0x100) / 16 else S8(b) / 16;
    field * Pow2(if hdr / 16 > 12 then 12 else hdr / 16) / 2
    + match hdr / 4 % 4
      case 0 => 0
      case 1 => 15 * p / 16
      case 2 => 61 * p / 32 - 15 * pp / 16
      case _ => 115 * p / 64 - 13 * pp / 16
  }

  lemma SignedFields(b: u8)
    ensures S8(b) / 16 == Nibble(b / 16) && S8(b as int * 16 % 0x100) / 16 == Nibble(b % 16)
  {
    var hi, lo := b as int / 16, b as int % 16;
    assert b as int * 16 % 0x100 == 16 * lo;
    assert S8(b) == 16 * Nibble(hi) + lo && S8(16 * lo) == 16 * Nibble(lo);
    hide S8, Nibble;
  }

  /** The inputs of the recurrence are the fields of the bytes, the high field first. */
  lemma {:induction false} InputsOfByte(hdr: u8, b: u8)
    ensures Input(hdr, b, false) == S8(b) / 16 * Pow2(if hdr / 16 > 12 then 12 else hdr / 16) / 2
    ensures Input(hdr, b, true) == S8(b as int * 16 % 0x100) / 16 * Pow2(if hdr / 16 > 12 then 12 else hdr / 16) / 2
  {
    SignedFields(b);
    hide Pow2, S8, Nibble;
  }

  lemma SampleOfByte(hdr: u8, b: u8, low: bool, p: int, pp: int)
    ensures Filter(FilterOf(hdr), Input(hdr, b, low), p, pp) == FromByte(hdr, b, low, p, pp)
  {
    InputsOfByte(hdr, b);
    FiltersAreFractions(FilterOf(hdr), Input(hdr, b, low), p, pp);
    hide Pow2, S8, Input, Filter;
  }

  /** A sample of the truncating recurrence is the filter of the two before it. */
  lemma {:induction false} TruncatedAt(f: nat, ins: seq<int>, older: s16, prev: s16, k: nat)
    requires f < 4 && k < |ins|
    ensures var r := Truncated(f, ins, older, prev);
            var p := if k >= 1 then r[k - 1] else prev;
            var pp := if k >= 2 then r[k - 2] else if k == 1 then prev else older;
            r[k] == S16(Filter(f, ins[k], p, pp))
    decreases k
  {
    hide S16, Filter;
    if k > 0 {
      var x := S16(Filter(f, ins[0], prev, older));
      var rest := Truncated(f, ins[1..], prev, x);
      assert Truncated(f, ins, older, prev) == [x] + rest;
      TruncatedAt(f, ins[1..], prev, x, k - 1);
    }
  }

  /** Sample k of a block at a is that of the byte at a + 1 + k / 2, its high field for even
      k and its low field for odd k, cut to 16 bits. */
  ghost predicate SampleIs(mem: seq<u8>, a: u16, older: s16, prev: s16, blk: seq<s16>, k: nat)
    requires IsMemory(mem) && |blk| == 16 && k < 16
  {
    blk[k] == S16(FromByte(mem[a], mem[(a as int + 1 + k / 2) % 0x1_0000], k % 2 == 1,
                           if k >= 1 then blk[k - 1] else prev,
                           if k >= 2 then blk[k - 2] else if k == 1 then prev else older))
  }

  ghost predicate IsDecoded(mem: seq<u8>, a: u16, older: s16, prev: s16, blk: seq<s16>)
    requires IsMemory(mem)
  {
    |blk| == 16 && forall k :: 0 <= k < 16 ==> SampleIs(mem, a, older, prev, blk, k)
  }

  /** What a decoded block is, sample for sample. */
  lemma {:induction false} BlockIsDecoded(mem: seq<u8>, a: u16, older: s16, prev: s16)
    requires IsMemory(mem)
    ensures IsDecoded(mem, a, older, prev, Truncated(FilterOf(mem[a]), BlockInputs(mem, a), older, prev))
  {
    hide Truncated, BlockInputs, FilterOf, SampleIs;
    forall k | 0 <= k < 16
      ensures SampleIs(mem, a, older, prev, Truncated(FilterOf(mem[a]), BlockInputs(mem, a), older, prev), k)
    {
      BlockSample(mem, a, older, prev, k);
    }
  }

  lemma {:induction false} BlockSample(mem: seq<u8>, a: u16, older: s16, prev: s16, k: nat)
    requires IsMemory(mem) && k < 16
    ensures SampleIs(mem, a, older, prev, Truncated(FilterOf(mem[a]), BlockInputs(mem, a), older, prev), k)
  {
    hide Truncated, Filter, S16, Input, BlockInputs, FromByte, FilterOf;
    var f, ins := FilterOf(mem[a]), BlockInputs(mem, a);
    var blk := Truncated(f, ins, older, prev);
    TruncatedAt(f, ins, older, prev, k);
    BlockInputIs(mem, a, k);
    SampleOfByte(mem[a], mem[(a as int + 1 + k / 2) % 0x1_0000], k % 2 == 1,
                 if k >= 1 then blk[k - 1] else prev,
                 if k >= 2 then blk[k - 2] else if k == 1 then prev else older);
  }

  lemma BlockInputIs(mem: seq<u8>, a: u16, k: nat)
    requires IsMemory(mem) && k < 16
    ensures BlockInputs(mem, a)[k] == Input(mem[a], mem[(a as int + 1 + k / 2) % 0x1_0000], k % 2 == 1)
  {
    hide Input;
    assert Wrap16(a + 1 + k / 2) == (a as int + 1 + k / 2) % 0x1_0000;
  }

  /** On filter 0 the two samples of data byte k are its two fields and nothing else, the
      high one first, from any history. */
  lemma {:induction false} UnfilteredBlock(mem: seq<u8>, a: u16, older: s16, prev: s16, k: nat)
    requires IsMemory(mem) && k < 8 && mem[a] / 4 % 4 == 0
    ensures var blk := Truncated(FilterOf(mem[a]), BlockInputs(mem, a), older, prev);
            var b := mem[(a as int + 1 + k) % 0x1_0000];
            var s := if mem[a] / 16 > 12 then 12 else mem[a] / 16;
            && blk[2 * k] == S8(b) / 16 * Pow2(s) / 2
            && blk[2 * k + 1] == S8(b as int * 16 % 0x100) / 16 * Pow2(s) / 2
  {
    hide Pow2, S8, Input, BlockInputs, Truncated;
    UnfilteredIsInput(BlockInputs(mem, a), older, prev);
    InputsOfPair(mem, a, k);
    InputsOfByte(mem[a], mem[(a as int + 1 + k) % 0x1_0000]);
  }

  lemma InputsOfPair(mem: seq<u8>, a: u16, k: nat)
    requires IsMemory(mem) && k < 8
    ensures var b := mem[(a as int + 1 + k) % 0x1_0000];
            BlockInputs(mem, a)[2 * k] == Input(mem[a], b, false) && BlockInputs(mem, a)[2 * k + 1] == Input(mem[a], b, true)
  {
    hide Input, BlockInputs;
    BlockInputIs(mem, a, 2 * k);
    BlockInputIs(mem, a, 2 * k + 1);
    assert 2 * k / 2 == k && (2 * k + 1) / 2 == k && 2 * k % 2 == 0 && (2 * k + 1) % 2 == 1;
  }

  /** The four samples of a group, from its two bytes, each from those before it before any of
      them is clamped. */
  ghost predicate IsGroup(hdr: u8, b0: u8, b1: u8, older: s16, prev: s16, g: seq<s16>)
  {
    var x0 := FromByte(hdr, b0, false, prev, older);
    var x1 := FromByte(hdr, b0, true, x0, prev);
    var x2 := FromByte(hdr, b1, false, x1, x0);
    var x3 := FromByte(hdr, b1, true, x2, x1);
    g == [Clamp16(x0), Clamp16(x1), Clamp16(x2), Clamp16(x3)]
  }

  lemma {:induction false} GroupFromBytes(hdr: u8, b0: u8, b1: u8, older: s16, prev: s16)
    ensures var ins := [Input(hdr, b0, false), Input(hdr, b0, true), Input(hdr, b1, false), Input(hdr, b1, true)];
            IsGroup(hdr, b0, b1, older, prev, Clamped(Ideal(FilterOf(hdr), ins, older, prev)))
  {
    hide Input, Filter, Ideal, FromByte, Clamp16, FilterOf;
    var ins := [Input(hdr, b0, false), Input(hdr, b0, true), Input(hdr, b1, false), Input(hdr, b1, true)];
    var x0 := FromByte(hdr, b0, false, prev, older);
    var x1 := FromByte(hdr, b0, true, x0, prev);
    var x2 := FromByte(hdr, b1, false, x1, x0);
    SampleOfByte(hdr, b0, false, prev, older);
    SampleOfByte(hdr, b0, true, x0, prev);
    SampleOfByte(hdr, b1, false, x1, x0);
    SampleOfByte(hdr, b1, true, x2, x1);
    FourSamples(FilterOf(hdr), ins, older, prev);
  }

  // ---- runs of blocks, history carried from each to the next ----

  /** Decoding a list of blocks one after the other with the block decoder, the last two
      samples of each (s[14], s[15]) being the history of the next. */
  function BlockList(mem: seq<u8>, addrs: seq<u16>, older: s16, prev: s16): (r: seq<s16>)
    requires IsMemory(mem)
    ensures |r| == 16 * |addrs|
  {
    if addrs == [] then []
    else
      var b := Truncated(FilterOf(mem[addrs[0]]), BlockInputs(mem, addrs[0]), older, prev);
      b + BlockList(mem, addrs[1..], b[14], b[15])
  }

  /** The same list, four samples at a time. */
  function GroupList(mem: seq<u8>, addrs: seq<u16>, older: s16, prev: s16): (r: seq<s16>)
    requires IsMemory(mem)
    ensures |r| == 16 * |addrs|
  {
    if addrs == [] then []
    else
      var b := Grouped(FilterOf(mem[addrs[0]]), BlockInputs(mem, addrs[0]), older, prev);
      b + GroupList(mem, addrs[1..], b[14], b[15])
  }

  function IdealList(mem: seq<u8>, addrs: seq<u16>, older: int, prev: int): (r: seq<int>)
    requires IsMemory(mem)
    ensures |r| == 16 * |addrs|
  {
    if addrs == [] then []
    else
      var b := Ideal(FilterOf(mem[addrs[0]]), BlockInputs(mem, addrs[0]), older, prev);
      b + IdealList(mem, addrs[1..], b[14], b[15])
  }

  /** For any list of blocks and any history the two decoders both produce the ideal
      stream exactly when the whole ideal stream fits 16 bits. */
  lemma {:induction false} ListsAreIdeal(mem: seq<u8>, addrs: seq<u16>, older: s16, prev: s16)
    requires IsMemory(mem)
    ensures BlockList(mem, addrs, older, prev) == IdealList(mem, addrs, older, prev)
            <==> InRange(IdealList(mem, addrs, older, prev))
    ensures GroupList(mem, addrs, older, prev) == IdealList(mem, addrs, older, prev)
            <==> InRange(IdealList(mem, addrs, older, prev))
  {
    if addrs != [] {
      var f, ins := FilterOf(mem[addrs[0]]), BlockInputs(mem, addrs[0]);
      var b := Ideal(f, ins, older, prev);
      TruncatedIsIdeal(f, ins, older, prev);
      GroupedIsIdeal(f, ins, older, prev);
      if InRange(b) {
        var tail := IdealList(mem, addrs[1..], b[14], b[15]);
        ListsAreIdeal(mem, addrs[1..], b[14], b[15]);
        SameTail(b, BlockList(mem, addrs[1..], b[14], b[15]), tail);
        SameTail(b, GroupList(mem, addrs[1..], b[14], b[15]), tail);
        RangeSplits(b, tail);
      } else {
        var tail := IdealList(mem, addrs[1..], b[14], b[15]);
        var cut := Truncated(f, ins, older, prev);
        var g := Grouped(f, ins, older, prev);
        RangeSplits(b, tail);
        DifferentHead(cut, BlockList(mem, addrs[1..], cut[14], cut[15]), b, tail);
        DifferentHead(g, GroupList(mem, addrs[1..], g[14], g[15]), b, tail);
      }
    }
  }

  // ---- where the two decoders part ----

  predicate Fits(x: int) { -0x8000 <= x < 0x8000 }

  /** The first sample that leaves 16 bits. */
  predicate FirstOut(xs: seq<int>, k: nat)
  {
    k < |xs| && InRange(xs[..k]) && !Fits(xs[k])
  }

  /** A sample whose cast is, by chance, the rail at which it is clamped. */
  predicate LooksClamped(x: int) { x == 0x1_7fff || x == -0x1_8000 }

  lemma CastOrClamp(x: int)
    requires -0x2_0000 <= x < 0x2_0000 && !Fits(x)
    ensures S16(x) == Clamp16(x) <==> LooksClamped(x)
  {
  }

  predicate AreInputs(ins: seq<int>)
  {
    forall k :: 0 <= k < |ins| ==> -0x4000 <= ins[k] < 0x4000
  }

  /** One step of the recurrence. */
  lemma {:induction false} IdealSteps(f: nat, ins: seq<int>, older: int, prev: int)
    requires f < 4 && ins != []
    ensures var x := Filter(f, ins[0], prev, older);
            Ideal(f, ins, older, prev) == [x] + Ideal(f, ins[1..], prev, x)
  {
    hide Filter;
  }

  lemma FirstOutLater(x: int, xs: seq<int>, k: nat)
    requires FirstOut([x] + xs, k) && k > 0
    ensures Fits(x) && FirstOut(xs, k - 1) && xs[k - 1] == ([x] + xs)[k]
  {
    assert ([x] + xs)[..k][0] == x;
    assert ([x] + xs)[..k][1..] == xs[..k - 1];
    assert forall j :: 0 <= j < k - 1 ==> xs[j] == ([x] + xs)[..k][j + 1];
  }

  /** It follows two samples that fit, so that it is less than twice too large; on filters 0
      and 1, less than one and a half times. */
  lemma {:induction false} FirstOutIsNear(f: nat, ins: seq<int>, older: s16, prev: s16, k: nat)
    requires f < 4 && AreInputs(ins) && FirstOut(Ideal(f, ins, older, prev), k)
    ensures -0x2_0000 <= Ideal(f, ins, older, prev)[k] < 0x2_0000
    ensures f < 2 ==> !LooksClamped(Ideal(f, ins, older, prev)[k])
    decreases k
  {
    var x := Filter(f, ins[0], prev, older);
    IdealSteps(f, ins, older, prev);
    hide Ideal, Filter;
    if k == 0 {
      FilterBound(f, ins[0], prev, older, 0x8000, 0x8000);
      QuietFilters(f, ins[0], prev, older);
    } else {
      FirstOutLater(x, Ideal(f, ins[1..], prev, x), k);
      FirstOutIsNear(f, ins[1..], prev, x, k - 1);
    }
  }

  lemma QuietFilters(f: nat, s: int, p: s16, pp: s16)
    requires f < 4 && -0x4000 <= s < 0x4000
    ensures f < 2 ==> !LooksClamped(Filter(f, s, p, pp))
  {
  }

  lemma {:induction false} TruncatedParts(f: nat, ins: seq<int>, older: s16, prev: s16, k: nat)
    requires f < 4 && FirstOut(Ideal(f, ins, older, prev), k)
    ensures var ideal, cut := Ideal(f, ins, older, prev), Truncated(f, ins, older, prev);
            cut[..k] == ideal[..k] && cut[k] == S16(ideal[k])
    decreases k
  {
    var x := Filter(f, ins[0], prev, older);
    IdealSteps(f, ins, older, prev);
    hide Ideal, Filter;
    var rest := Ideal(f, ins[1..], prev, x);
    if k > 0 {
      FirstOutLater(x, rest, k);
      TruncatedParts(f, ins[1..], prev, x, k - 1);
      assert ([x] + rest)[..k] == [x] + rest[..k - 1];
      var cut := Truncated(f, ins[1..], prev, x);
      assert ([x as s16] + cut)[..k] == [x as s16] + cut[..k - 1];
    }
  }

  lemma FirstOutAfter(a: seq<int>, b: seq<int>, k: nat)
    requires FirstOut(a + b, k)
    ensures k < |a| ==> FirstOut(a, k) && a[k] == (a + b)[k]
    ensures k >= |a| ==> InRange(a) && FirstOut(b, k - |a|) && b[k - |a|] == (a + b)[k]
  {
    if k < |a| {
      assert (a + b)[..k] == a[..k];
    } else {
      assert (a + b)[..k] == a + b[..k - |a|];
      RangeSplits(a, b[..k - |a|]);
    }
  }

  lemma {:induction false} GroupedParts(f: nat, ins: seq<int>, older: s16, prev: s16, k: nat)
    requires f < 4 && |ins| % 4 == 0 && FirstOut(Ideal(f, ins, older, prev), k)
    ensures var ideal, g := Ideal(f, ins, older, prev), Grouped(f, ins, older, prev);
            g[..k] == ideal[..k] && g[k] == Clamp16(ideal[k])
    decreases k
  {
    hide Ideal, Grouped, Clamp16;
    OutDoesNotFit(Ideal(f, ins, older, prev), k);
    var head := Ideal(f, ins[..4], older, prev);
    IdealSplit(f, ins, 4, older, prev);
    var tail := Ideal(f, ins[4..], head[2], head[3]);
    FirstOutAfter(head, tail, k);
    var g := Clamped(head);
    GroupedUnfolds(f, ins, older, prev);
    if k < 4 {
      assert forall j :: 0 <= j < k ==> head[..k][j] == head[j];
      assert g[..k] == head[..k];
    } else {
      assert g == head;
      GroupedParts(f, ins[4..], g[2], g[3], k - 4);
      SplitAt(head, tail, k);
      SplitAt(g, Grouped(f, ins[4..], g[2], g[3]), k);
    }
  }

  lemma SplitAt(a: seq<int>, b: seq<int>, k: nat)
    requires |a| <= k < |a| + |b|
    ensures (a + b)[..k] == a + b[..k - |a|] && (a + b)[k] == b[k - |a|]
  {
  }

  /** Up to the first ideal sample outside 16 bits, wherever it lies, both decoders give the
      ideal stream. There the block decoder wraps it and the streaming one holds it at the
      rail, and they part if and only if the two are not by chance the same. */
  lemma {:induction false} DecodersPart(f: nat, ins: seq<int>, older: s16, prev: s16, k: nat)
    requires f < 4 && |ins| % 4 == 0 && AreInputs(ins) && FirstOut(Ideal(f, ins, older, prev), k)
    ensures var ideal := Ideal(f, ins, older, prev);
            var cut, g := Truncated(f, ins, older, prev), Grouped(f, ins, older, prev);
            && cut[..k] == g[..k] == ideal[..k]
            && cut[k] == S16(ideal[k]) && g[k] == Clamp16(ideal[k])
            && (cut[k] != g[k] <==> !LooksClamped(ideal[k]))
            && (f < 2 ==> cut[k] != g[k])
  {
    hide Ideal, Truncated, Grouped, FirstOut, S16, Clamp16;
    FirstOutIsNear(f, ins, older, prev, k);
    TruncatedParts(f, ins, older, prev, k);
    GroupedParts(f, ins, older, prev, k);
    OutDoesNotFit(Ideal(f, ins, older, prev), k);
    CastOrClamp(Ideal(f, ins, older, prev)[k]);
  }

  lemma OutDoesNotFit(xs: seq<int>, k: nat)
    requires FirstOut(xs, k)
    ensures k < |xs| && !Fits(xs[k])
  {
  }

  /** The same for any list of blocks, with the history carried across them. */
  lemma {:induction false} ListsPart(mem: seq<u8>, addrs: seq<u16>, older: s16, prev: s16, k: nat)
    requires IsMemory(mem) && FirstOut(IdealList(mem, addrs, older, prev), k)
    ensures var ideal := IdealList(mem, addrs, older, prev);
            var cut, g := BlockList(mem, addrs, older, prev), GroupList(mem, addrs, older, prev);
            && cut[..k] == g[..k] == ideal[..k]
            && cut[k] == S16(ideal[k]) && g[k] == Clamp16(ideal[k])
            && (cut[k] != g[k] <==> !LooksClamped(ideal[k]))
            && (QuietBlocks(mem, addrs) ==> cut[k] != g[k])
    decreases |addrs|
  {
    hide Ideal, Truncated, Grouped, FirstOut, S16, Clamp16, LooksClamped, BlockInputs;
    OutDoesNotFit(IdealList(mem, addrs, older, prev), k);
    var f, ins := FilterOf(mem[addrs[0]]), BlockInputs(mem, addrs[0]);
    var b := Ideal(f, ins, older, prev);
    var rest := IdealList(mem, addrs[1..], b[14], b[15]);
    var cut, g := Truncated(f, ins, older, prev), Grouped(f, ins, older, prev);
    var cuts, gs := BlockList(mem, addrs[1..], cut[14], cut[15]), GroupList(mem, addrs[1..], g[14], g[15]);
    FirstOutAfter(b, rest, k);
    BlockInputsAreInputs(mem, addrs[0]);
    if k < 16 {
      DecodersPart(f, ins, older, prev, k);
      TakeHead(b, rest, k);
      TakeHead(cut, cuts, k);
      TakeHead(g, gs, k);
    } else {
      TruncatedIsIdeal(f, ins, older, prev);
      GroupedIsIdeal(f, ins, older, prev);
      ListsPart(mem, addrs[1..], b[14], b[15], k - 16);
      SplitAt(b, rest, k);
      SplitAt(cut, cuts, k);
      SplitAt(g, gs, k);
    }
  }

  lemma TakeHead(a: seq<int>, b: seq<int>, k: nat)
    requires k < |a|
    ensures (a + b)[..k] == a[..k] && (a + b)[k] == a[k]
  {
  }

  lemma BlockInputsAreInputs(mem: seq<u8>, a: u16)
    requires IsMemory(mem)
    ensures AreInputs(BlockInputs(mem, a))
  {
    hide Input;
    forall j | 0 <= j < 16
      ensures BlockInputs(mem, a)[j] == Input(mem[a], mem[Wrap16(a + 1 + j / 2)], j % 2 == 1)
    {
    }
  }

  lemma {:induction false} FirstOutExists(xs: seq<int>) returns (k: nat)
    requires !InRange(xs)
    ensures FirstOut(xs, k)
  {
    k := 0;
    while Fits(xs[k])
      invariant k < |xs| && InRange(xs[..k]) && !InRange(xs)
      decreases |xs| - k
    {
      if k + 1 == |xs| {
        assert false;
      }
      k := k + 1;
    }
  }

  /** Every block of the list is on filter 0 or 1. */
  ghost predicate QuietBlocks(mem: seq<u8>, addrs: seq<u16>)
    requires IsMemory(mem)
  {
    forall j :: 0 <= j < |addrs| ==> FilterOf(mem[addrs[j]]) < 2
  }

  /** The first sample outside 16 bits is by chance the rail. */
  ghost predicate FirstOutLooksClamped(xs: seq<int>)
  {
    exists k: nat :: FirstOut(xs, k) && LooksClamped(xs[k])
  }

  /** The decoders agree on a list of blocks if its ideal stream fits, and otherwise only if
      its first sample outside 16 bits looks clamped. On filters 0 and 1 none does, and
      they agree exactly when the ideal stream fits. */
  lemma {:induction false} ListsAgree(mem: seq<u8>, addrs: seq<u16>, older: s16, prev: s16)
    requires IsMemory(mem)
    ensures var ideal := IdealList(mem, addrs, older, prev);
            var agree := BlockList(mem, addrs, older, prev) == GroupList(mem, addrs, older, prev);
            && (InRange(ideal) ==> agree)
            && (agree ==> InRange(ideal) || FirstOutLooksClamped(ideal))
            && (QuietBlocks(mem, addrs) ==> (agree <==> InRange(ideal)))
  {
    hide BlockList, GroupList, IdealList, InRange, LooksClamped, FirstOut, S16, Clamp16, FilterOf;
    ListsAreIdeal(mem, addrs, older, prev);
    var ideal := IdealList(mem, addrs, older, prev);
    if !InRange(ideal) {
      var k := FirstOutExists(ideal);
      OutDoesNotFit(ideal, k);
      ListsPart(mem, addrs, older, prev, k);
      assert LooksClamped(ideal[k]) ==> FirstOutLooksClamped(ideal);
    }
  }

  /** The streaming decoder's own sample x, before its clamp, and y as the filter makes it of
      the clamped samples before, show the same in both decoders. */
  predicate ShowsSame(x: int, y: int) { S16(y) == Clamp16(x) }

  /** Every sample that the streaming decoder makes, group by group, shows the same. */
  predicate StayTogether(f: nat, ins: seq<int>, older: s16, prev: s16)
    requires f < 4 && |ins| % 4 == 0
  {
    ins != [] ==>
      var x := Ideal(f, ins[..4], older, prev);
      var g := Clamped(x);
      && ShowsSame(x[0], x[0]) && ShowsSame(x[1], Filter(f, ins[1], g[0], prev))
      && ShowsSame(x[2], Filter(f, ins[2], g[1], g[0])) && ShowsSame(x[3], Filter(f, ins[3], g[2], g[1]))
      && StayTogether(f, ins[4..], g[2], g[3])
  }

  lemma {:induction false} CutsUnfold(f: nat, ins: seq<int>, older: s16, prev: s16)
    requires f < 4 && |ins| >= 4
    ensures var a := S16(Filter(f, ins[0], prev, older));
            var b := S16(Filter(f, ins[1], a, prev));
            var c := S16(Filter(f, ins[2], b, a));
            var d := S16(Filter(f, ins[3], c, b));
            Truncated(f, ins, older, prev) == [a, b, c, d] + Truncated(f, ins[4..], c, d)
  {
    hide S16, Filter, Truncated;
    var a := S16(Filter(f, ins[0], prev, older));
    var b := S16(Filter(f, ins[1], a, prev));
    var c := S16(Filter(f, ins[2], b, a));
    var d := S16(Filter(f, ins[3], c, b));
    assert ins[0..] == ins;
    TruncatedPair(f, ins, 0, older, prev);
    TruncatedPair(f, ins, 2, a, b);
    assert [a, b] + ([c, d] + Truncated(f, ins[4..], c, d)) == [a, b, c, d] + Truncated(f, ins[4..], c, d);
  }

  lemma {:induction false} FirstOfFour(f: nat, ins: seq<int>, older: int, prev: int)
    requires f < 4 && |ins| >= 4
    ensures Ideal(f, ins[..4], older, prev)[0] == Filter(f, ins[0], prev, older)
  {
    hide Filter;
  }

  /** The decoders agree if and only if they stay together. */
  lemma {:induction false} AgreeExactly(f: nat, ins: seq<int>, older: s16, prev: s16)
    requires f < 4 && |ins| % 4 == 0
    ensures Truncated(f, ins, older, prev) == Grouped(f, ins, older, prev) <==> StayTogether(f, ins, older, prev)
  {
    hide S16, Clamp16, Filter, Ideal, Truncated, Grouped;
    if ins == [] {
      assert Truncated(f, ins, older, prev) == [] && Grouped(f, ins, older, prev) == [];
    } else {
      var g := Clamped(Ideal(f, ins[..4], older, prev));
      FirstOfFour(f, ins, older, prev);
      CutsUnfold(f, ins, older, prev);
      GroupedUnfolds(f, ins, older, prev);
      var a := S16(Filter(f, ins[0], prev, older));
      var b := S16(Filter(f, ins[1], a, prev));
      var c := S16(Filter(f, ins[2], b, a));
      var cut := [a, b, c, S16(Filter(f, ins[3], c, b))];
      FourAgree(cut, g);
      if cut == g {
        AgreeExactly(f, ins[4..], g[2], g[3]);
        SameTail(g, Truncated(f, ins[4..], g[2], g[3]), Grouped(f, ins[4..], g[2], g[3]));
      } else {
        DifferentHead(cut, Truncated(f, ins[4..], cut[2], cut[3]), g, Grouped(f, ins[4..], g[2], g[3]));
      }
    }
  }

  lemma FourAgree(a: seq<s16>, b: seq<s16>)
    requires |a| == 4 && |b| == 4
    ensures a == b <==> a[0] == b[0] && a[1] == b[1] && a[2] == b[2] && a[3] == b[3]
  {
  }

  ghost predicate BlocksStayTogether(mem: seq<u8>, addrs: seq<u16>, older: s16, prev: s16)
    requires IsMemory(mem)
  {
    addrs != [] ==>
      var f, ins := FilterOf(mem[addrs[0]]), BlockInputs(mem, addrs[0]);
      var b := Grouped(f, ins, older, prev);
      StayTogether(f, ins, older, prev) && BlocksStayTogether(mem, addrs[1..], b[14], b[15])
  }

  /** On any list of blocks, from any history, agreement can be checked with one decoder: the
      two agree if and only if every sample the streaming decoder makes shows the same. */
  lemma {:induction false} ListsAgreeExactly(mem: seq<u8>, addrs: seq<u16>, older: s16, prev: s16)
    requires IsMemory(mem)
    ensures BlockList(mem, addrs, older, prev) == GroupList(mem, addrs, older, prev)
            <==> BlocksStayTogether(mem, addrs, older, prev)
  {
    hide Truncated, Grouped, StayTogether, BlockInputs, FilterOf;
    if addrs != [] {
      var f, ins := FilterOf(mem[addrs[0]]), BlockInputs(mem, addrs[0]);
      var cut, b := Truncated(f, ins, older, prev), Grouped(f, ins, older, prev);
      AgreeExactly(f, ins, older, prev);
      if cut == b {
        ListsAgreeExactly(mem, addrs[1..], b[14], b[15]);
        SameTail(b, BlockList(mem, addrs[1..], b[14], b[15]), GroupList(mem, addrs[1..], b[14], b[15]));
      } else {
        DifferentHead(cut, BlockList(mem, addrs[1..], cut[14], cut[15]), b, GroupList(mem, addrs[1..], b[14], b[15]));
      }
    }
  }

  /** A block in any memory, from the history of a voice never used before, on which they
      part: filter 1 at full shift, the first data bytes $77 $77. The third sample is -25160
      for the one decoder and 32767 for the other. */
  lemma {:induction false} DecodersCanDisagree(mem: seq<u8>, a: u16, rest: seq<u16>)
    requires IsMemory(mem) && mem[a] / 4 == 0x31 && mem[Wrap16(a + 1)] == 0x77 && mem[Wrap16(a + 2)] == 0x77
    ensures BlockList(mem, [a] + rest, 0, 0)[2] == -25160
    ensures GroupList(mem, [a] + rest, 0, 0)[2] == 32767
  {
    var addrs := [a] + rest;
    var f, ins := FilterOf(mem[a]), BlockInputs(mem, a);
    assert f == 1;
    LoudInputs(mem, a);
    hide BlockList, GroupList, BlockInputs;
    IdealSteps(1, ins, 0, 0);
    IdealSteps(1, ins[1..], 0, 14336);
    IdealSteps(1, ins[1..][1..], 14336, 27776);
    var b := Ideal(1, ins, 0, 0);
    hide Ideal;
    assert b[0] == 14336 && b[1] == 27776 && b[2] == 40376;
    var ideal := IdealList(mem, addrs, 0, 0);
    assert ideal[..2] == [b[0], b[1]] && ideal[2] == b[2];
    ListsPart(mem, addrs, 0, 0, 2);
  }

  lemma LoudInputs(mem: seq<u8>, a: u16)
    requires IsMemory(mem) && mem[a] / 4 == 0x31 && mem[Wrap16(a + 1)] == 0x77 && mem[Wrap16(a + 2)] == 0x77
    ensures var ins := BlockInputs(mem, a); ins[0] == 14336 && ins[1] == 14336 && ins[2] == 14336
  {
    assert Shift(mem[a]) == 12;
    assert Pow2(12) == 4096 by {
      assert Pow2(4) == 16 && Pow2(8) == 256;
    }
    assert Input(mem[a], 0x77, false) == 14336 && Input(mem[a], 0x77, true) == 14336;
    hide Input;
    assert BlockInputs(mem, a)[0] == 14336 && BlockInputs(mem, a)[1] == 14336 && BlockInputs(mem, a)[2] == 14336;
  }

  lemma {:induction false} FourCuts(f: nat, ins: seq<int>, older: s16, prev: s16)
    requires f < 4 && |ins| == 4
    ensures var a := S16(Filter(f, ins[0], prev, older));
            var b := S16(Filter(f, ins[1], a, prev));
            var c := S16(Filter(f, ins[2], b, a));
            Truncated(f, ins, older, prev) == [a, b, c, S16(Filter(f, ins[3], c, b))]
    ensures Grouped(f, ins, older, prev) == Clamped(Ideal(f, ins, older, prev))
  {
    hide S16, Filter, Ideal, Clamped;
    CutsUnfold(f, ins, older, prev);
    GroupedUnfolds(f, ins, older, prev);
    assert ins[4..] == [] && ins[..4] == ins;
  }

  lemma SecondFilter(s: int, p: int, pp: int, q: int, r: int)
    requires 32 * q <= 61 * p < 32 * q + 32 && 16 * r <= 15 * pp < 16 * r + 16
    ensures Filter(2, s, p, pp) == s + q - r
  {
    hide Filter;
    FiltersAreFractions(2, s, p, pp);
    DivUnique(61 * p, 32, q, 61 * p - 32 * q);
    DivUnique(15 * pp, 16, r, 15 * pp - 16 * r);
  }

  lemma ChanceFilters()
    ensures Filter(2, 6144, 32767, -31676) == 98303 && Filter(2, 1024, 32767, 32767) == 32767
    ensures Filter(2, 1024, 98303, 32767) == 157695 && Filter(2, 1024, 157695, 98303) == 209471
    ensures Filter(2, 1024, 209471, 157695) == 252489
  {
    hide Filter;
    SecondFilter(6144, 32767, -31676, 62462, -29697);
    SecondFilter(1024, 32767, 32767, 62462, 30719);
    SecondFilter(1024, 98303, 32767, 187390, 30719);
    SecondFilter(1024, 157695, 98303, 300606, 92159);
    SecondFilter(1024, 209471, 157695, 399304, 147839);
  }

  lemma ChanceRails()
    ensures S16(98303) == 32767 && Clamped([98303, 157695, 209471, 252489]) == [32767, 32767, 32767, 32767]
  {
    assert S16(98303) == 32767;
    hide S16, Clamp16;
  }

  /** An ideal stream that leaves 16 bits by such a chance, on which they stay together. */
  lemma {:induction false} ChanceHidesTheRail(ins: seq<int>)
    requires ins == [6144, 1024, 1024, 1024]
    ensures Ideal(2, ins, -31676, 32767)[0] == 0x1_7fff
    ensures Truncated(2, ins, -31676, 32767) == Grouped(2, ins, -31676, 32767) == [32767, 32767, 32767, 32767]
  {
    hide Ideal, Truncated, Grouped, Filter, S16, Clamped;
    ChanceFilters();
    ChanceRails();
    FourSamples(2, ins, -31676, 32767);
    FourCuts(2, ins, -31676, 32767);
  }

  lemma RangeSplits(a: seq<int>, b: seq<int>)
    ensures InRange(a + b) <==> InRange(a) && InRange(b)
  {
    if InRange(a + b) {
      assert forall k :: 0 <= k < |a| ==> a[k] == (a + b)[k];
      assert forall k :: 0 <= k < |b| ==> b[k] == (a + b)[k + |a|];
    }
  }

  lemma DifferentHead(a: seq<int>, b: seq<int>, c: seq<int>, d: seq<int>)
    requires |a| == |c| && a != c
    ensures a + b != c + d
  {
    assert (a + b)[..|a|] == a && (c + d)[..|a|] == c;
  }
}

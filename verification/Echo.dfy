/** The echo unit (src/dsp.c): a delay line kept in ARAM, read and rewritten four bytes a
    sample, and an eight-tap FIR filter over the samples read from it. */
module Echo {
  import opened Bits
  import opened Aram
  import opened Voices

  datatype Sample = Sample(left: s16, right: s16)

  const TAPS := 8

  datatype EState = EState(
    esa: u8, enabled: bool, offset: u16, length: u16, ptr: u16, hist: seq<Sample>, histPos: u8)

  /** The registers the echo unit reads in one sample, and what the voices feed it. */
  datatype EIn = EIn(esa: u8, edl: u8, disabled: bool, efb: s8, coeff: seq<s8>, voices: Sample) {
    ghost predicate Valid() { |coeff| == TAPS }
  }

  ghost predicate EInv(e: EState)
  {
    && |e.hist| == TAPS && e.histPos < TAPS
    && e.offset % 4 == 0 && e.length % 0x800 == 0 && e.length <= 0x7800
    && (e.offset == 0 || e.offset < e.length)
  }

  function ZeroEcho(): EState { EState(0, false, 0, 0, 0, seq(TAPS, _ => Sample(0, 0)), 0) }

  // ---- one sample ----

  function EchoPtr(e: EState): u16
    requires EInv(e)
  {
    Wrap16(e.esa * 0x100 + e.offset)
  }

  /** The stereo sample under the echo pointer. */
  function Tapped(e: EState, mem: seq<u8>): Sample
    requires EInv(e) && IsMemory(mem)
  {
    Sample(S16(Word(mem, EchoPtr(e))), S16(Word(mem, Wrap16(EchoPtr(e) + 2))))
  }

  function Halved(s: Sample): Sample { Sample(s.left / 2, s.right / 2) }

  /** The FIR history, oldest sample first. */
  function HistWindow(e: EState): (w: seq<Sample>)
    requires EInv(e)
    ensures |w| == TAPS
  {
    e.hist[e.histPos + 1..] + e.hist[..e.histPos + 1]
  }

  /** The history after the sample under the pointer has entered it. */
  function Push(e: EState, s: Sample): (r: EState)
    requires EInv(e)
    ensures EInv(r)
  {
    var pos := if e.histPos + 1 >= TAPS then 0 else e.histPos + 1;
    e.(histPos := pos, hist := e.hist[pos := Halved(s)])
  }

  /** Direct convolution of the last k entries of a window with the last k coefficients. */
  function Convolve(w: seq<Sample>, coeff: seq<s8>, k: nat): (int, int)
    requires |w| == TAPS && |coeff| == TAPS && k <= TAPS
  {
    if k == 0 then (0, 0)
    else
      var s := Convolve(w, coeff, k - 1);
      (s.0 + FirTerm(w[k - 1].left, coeff[k - 1]), s.1 + FirTerm(w[k - 1].right, coeff[k - 1]))
  }

  function FirTerm(s: s16, coeff: s8): int { s as int * coeff / 0x40 }

  /** The ring index `depth` places on from pos. */
  function Place(pos: nat, depth: nat): (r: nat)
    ensures r < TAPS
  {
    (pos + depth) % TAPS
  }

  /** Tap i of the window after a push, as a place in the ring. */
  lemma PushedTap(e: EState, s: Sample, i: nat)
    requires EInv(e) && i < TAPS
    ensures var r := Push(e, s);
            var place := Place(r.histPos, i + 1);
            && HistWindow(r)[i] == r.hist[place]
            && (place == r.histPos <==> i == 7)
            && (i < 7 ==> r.hist[place] == e.hist[place])
            && (i == 7 ==> r.hist[place] == Halved(s))
  {
  }

  function EvenClamp(x: int): s16 { Even(Clamp16(x)) }

  /** The filtered echo: eight taps, oldest sample with coefficient 0. */
  function Filtered(w: seq<Sample>, coeff: seq<s8>): Sample
    requires |w| == TAPS && |coeff| == TAPS
  {
    var sum := Convolve(w, coeff, TAPS);
    Sample(EvenClamp(sum.0), EvenClamp(sum.1))
  }

  function EchoSample(e: EState, mem: seq<u8>, i: EIn): Sample
    requires EInv(e) && IsMemory(mem) && i.Valid()
  {
    Filtered(HistWindow(Push(e, Tapped(e, mem))), i.coeff)
  }

  /** What is written back into the delay line. */
  function Feedback(e: EState, mem: seq<u8>, i: EIn): Sample
    requires EInv(e) && IsMemory(mem) && i.Valid()
  {
    var s := EchoSample(e, mem, i);
    Sample(EvenClamp(i.voices.left + SampleScale(s.left, i.efb)),
           EvenClamp(i.voices.right + SampleScale(s.right, i.efb)))
  }

  function EchoMemory(e: EState, mem: seq<u8>, i: EIn): (r: seq<u8>)
    requires EInv(e) && IsMemory(mem) && i.Valid()
    ensures IsMemory(r)
  {
    if i.disabled then mem
    else
      var p, f := EchoPtr(e), Feedback(e, mem, i);
      WithWord(WithWord(mem, p, U16(f.left)), Wrap16(p + 2), U16(f.right))
  }

  /** The byte at x is one of the four that the echo unit writes in a sample. */
  ghost predicate EchoWrites(e: EState, i: EIn, x: nat)
    requires EInv(e)
  {
    var p := EchoPtr(e);
    !i.disabled && (x == p || x == Wrap16(p + 1) || x == Wrap16(p + 2) || x == Wrap16(p + 3))
  }

  /** Every other byte stays. */
  lemma EchoKeeps(e: EState, mem: seq<u8>, i: EIn, x: nat)
    requires EInv(e) && IsMemory(mem) && i.Valid() && x < |mem| && !EchoWrites(e, i, x)
    ensures EchoMemory(e, mem, i)[x] == mem[x]
  {
    hide Feedback, EchoPtr;
    var p: int := EchoPtr(e);
    assert Wrap16(Wrap16(p + 2) as int + 1) == Wrap16(p + 3);
  }

  function EchoLength(e: EState, i: EIn): u16
  {
    if e.offset == 0 then i.edl % 16 * 0x800 else e.length
  }

  function EchoStep(e: EState, mem: seq<u8>, i: EIn): (r: EState)
    requires EInv(e) && IsMemory(mem) && i.Valid()
    ensures EInv(r)
  {
    var len := EchoLength(e, i);
    Push(e, Tapped(e, mem)).(
      ptr := EchoPtr(e), esa := i.esa, enabled := !i.disabled, length := len,
      offset := if e.offset + 4 >= len then 0 else e.offset + 4)
  }

  // ---- runs ----

  /** The memory and the inputs of one sample. The memory of the next sample is not tied to
      what this one leaves behind: the processor may have stored anything in between. */
  datatype Moment = Moment(i: EIn, mem: seq<u8>) {
    ghost predicate Valid() { i.Valid() && IsMemory(mem) }
  }

  ghost predicate AllValid(ms: seq<Moment>)
  {
    forall k :: 0 <= k < |ms| ==> ms[k].Valid()
  }

  /** The echo unit after k samples. */
  ghost function ERun(e: EState, ms: seq<Moment>, k: nat): (r: EState)
    requires EInv(e) && AllValid(ms) && k <= |ms|
    ensures EInv(r)
  {
    if k == 0 then e else EchoStep(ERun(e, ms, k - 1), ms[k - 1].mem, ms[k - 1].i)
  }

  lemma {:induction false} ERunUnfolds(e: EState, ms: seq<Moment>, k: nat)
    requires EInv(e) && AllValid(ms) && 0 < k <= |ms|
    ensures ERun(e, ms, k) == EchoStep(ERun(e, ms, k - 1), ms[k - 1].mem, ms[k - 1].i)
  {
  }

  /** The stereo sample read from the delay line in sample k. */
  ghost function ReadAt(e: EState, ms: seq<Moment>, k: nat): Sample
    requires EInv(e) && AllValid(ms) && k < |ms|
  {
    Tapped(ERun(e, ms, k), ms[k].mem)
  }

  ghost function WrittenAt(e: EState, ms: seq<Moment>, k: nat): Sample
    requires EInv(e) && AllValid(ms) && k < |ms|
  {
    Feedback(ERun(e, ms, k), ms[k].mem, ms[k].i)
  }

  // ---- the FIR filter ----

  lemma PushShifts(e: EState, s: Sample)
    requires EInv(e)
    ensures HistWindow(Push(e, s)) == HistWindow(e)[1..] + [Halved(s)]
  {
    var r := Push(e, s);
    if e.histPos == 7 {
      assert HistWindow(e) == e.hist;
      assert r.hist == [Halved(s)] + e.hist[1..];
    } else {
      var p := e.histPos + 1;
      assert r.hist == e.hist[..p] + [Halved(s)] + e.hist[p + 1..];
      assert r.hist[p + 1..] == e.hist[p + 1..] && r.hist[..p + 1] == e.hist[..p] + [Halved(s)];
    }
  }

  /** The halved inputs of the samples lo, lo + 1, ... hi - 1. */
  ghost function Inputs(e: EState, ms: seq<Moment>, lo: nat, hi: nat): (r: seq<Sample>)
    requires EInv(e) && AllValid(ms) && lo <= hi <= |ms|
    ensures |r| == hi - lo
  {
    seq(hi - lo, j requires 0 <= j < hi - lo => Halved(ReadAt(e, ms, lo + j)))
  }

  ghost function Last8(s: seq<Sample>): seq<Sample>
    requires |s| >= TAPS
  {
    s[|s| - TAPS..]
  }

  lemma Last8Shifts(s: seq<Sample>, x: Sample)
    requires |s| >= TAPS
    ensures Last8(s)[1..] + [x] == Last8(s + [x])
  {
  }

  /** The history is a window on the initial history followed by everything read since. */
  lemma {:induction false} HistoryIsInputs(e: EState, ms: seq<Moment>, k: nat)
    requires EInv(e) && AllValid(ms) && k <= |ms|
    ensures HistWindow(ERun(e, ms, k)) == Last8(HistWindow(e) + Inputs(e, ms, 0, k))
  {
    hide HistWindow, ERun, ReadAt, Halved;
    var w := HistWindow(e);
    if k > 0 {
      HistoryIsInputs(e, ms, k - 1);
      HistoryGrows(e, ms, k - 1);
      var x := Halved(ReadAt(e, ms, k - 1));
      assert Inputs(e, ms, 0, k) == Inputs(e, ms, 0, k - 1) + [x];
      assert w + Inputs(e, ms, 0, k) == (w + Inputs(e, ms, 0, k - 1)) + [x];
      Last8Shifts(w + Inputs(e, ms, 0, k - 1), x);
    } else {
      NoInputsYet(e, ms);
    }
  }

  lemma {:induction false} NoInputsYet(e: EState, ms: seq<Moment>)
    requires EInv(e) && AllValid(ms)
    ensures HistWindow(ERun(e, ms, 0)) == Last8(HistWindow(e) + Inputs(e, ms, 0, 0))
  {
    hide HistWindow;
    assert HistWindow(e) + Inputs(e, ms, 0, 0) == HistWindow(e);
  }

  lemma LastInputs(e: EState, ms: seq<Moment>, k: nat)
    requires EInv(e) && AllValid(ms) && TAPS <= k <= |ms|
    ensures Last8(HistWindow(e) + Inputs(e, ms, 0, k)) == Inputs(e, ms, k - TAPS, k)
  {
    hide HistWindow, ReadAt, Halved;
  }

  lemma {:induction false} HistoryGrows(e: EState, ms: seq<Moment>, k: nat)
    requires EInv(e) && AllValid(ms) && k < |ms|
    ensures HistWindow(ERun(e, ms, k + 1)) == HistWindow(ERun(e, ms, k))[1..] + [Halved(ReadAt(e, ms, k))]
    ensures EchoSample(ERun(e, ms, k), ms[k].mem, ms[k].i) == Filtered(HistWindow(ERun(e, ms, k + 1)), ms[k].i.coeff)
  {
    StepHistory(ERun(e, ms, k), ms[k].mem, ms[k].i);
    hide HistWindow, Push, Tapped, EchoStep, Filtered, Halved;
  }

  lemma StepHistory(e: EState, mem: seq<u8>, i: EIn)
    requires EInv(e) && IsMemory(mem) && i.Valid()
    ensures HistWindow(EchoStep(e, mem, i)) == HistWindow(e)[1..] + [Halved(Tapped(e, mem))]
    ensures HistWindow(Push(e, Tapped(e, mem))) == HistWindow(EchoStep(e, mem, i))
  {
    PushShifts(e, Tapped(e, mem));
    hide Tapped, Halved;
  }

  /** The FIR ring is a direct convolution: in every sample both channels are the eight-tap
      sum over the last eight halved echo inputs, the oldest with coefficient 0. */
  lemma {:induction false} FirIsConvolution(e: EState, ms: seq<Moment>, k: nat)
    requires EInv(e) && AllValid(ms) && TAPS <= k + 1 <= |ms|
    ensures EchoSample(ERun(e, ms, k), ms[k].mem, ms[k].i) == Filtered(Inputs(e, ms, k + 1 - TAPS, k + 1), ms[k].i.coeff)
  {
    hide Last8, HistWindow, EchoSample, ERun, Filtered, Inputs;
    HistoryIsInputs(e, ms, k + 1);
    LastInputs(e, ms, k + 1);
    HistoryGrows(e, ms, k);
  }

  /** The sum over one channel of eight entries and eight coefficients: entry j halved, times
      coefficient j, over 64 and rounded down, for j from 0, the oldest, to 7. */
  function EightTaps(x0: int, x1: int, x2: int, x3: int, x4: int, x5: int, x6: int, x7: int, c: seq<s8>): int
    requires |c| == 8
  {
    x0 / 2 * c[0] / 64 + x1 / 2 * c[1] / 64 + x2 / 2 * c[2] / 64 + x3 / 2 * c[3] / 64
    + x4 / 2 * c[4] / 64 + x5 / 2 * c[5] / 64 + x6 / 2 * c[6] / 64 + x7 / 2 * c[7] / 64
  }

  lemma {:induction false} ConvolveUnfolds(w: seq<Sample>, c: seq<s8>, k: nat)
    requires |w| == 8 && |c| == 8 && k < 8
    ensures Convolve(w, c, k + 1)
            == (Convolve(w, c, k).0 + FirTerm(w[k].left, c[k]), Convolve(w, c, k).1 + FirTerm(w[k].right, c[k]))
    ensures Convolve(w, c, 0) == (0, 0)
  {
  }

  lemma {:induction false} ConvolveIsSum(w: seq<Sample>, c: seq<s8>)
    requires |w| == 8 && |c| == 8
    ensures Convolve(w, c, 8).0
            == FirTerm(w[0].left, c[0]) + FirTerm(w[1].left, c[1]) + FirTerm(w[2].left, c[2]) + FirTerm(w[3].left, c[3])
               + FirTerm(w[4].left, c[4]) + FirTerm(w[5].left, c[5]) + FirTerm(w[6].left, c[6]) + FirTerm(w[7].left, c[7])
    ensures Convolve(w, c, 8).1
            == FirTerm(w[0].right, c[0]) + FirTerm(w[1].right, c[1]) + FirTerm(w[2].right, c[2]) + FirTerm(w[3].right, c[3])
               + FirTerm(w[4].right, c[4]) + FirTerm(w[5].right, c[5]) + FirTerm(w[6].right, c[6]) + FirTerm(w[7].right, c[7])
  {
    hide Convolve, FirTerm;
    ConvolveUnfolds(w, c, 0);
    ConvolveUnfolds(w, c, 1);
    ConvolveUnfolds(w, c, 2);
    ConvolveUnfolds(w, c, 3);
    ConvolveUnfolds(w, c, 4);
    ConvolveUnfolds(w, c, 5);
    ConvolveUnfolds(w, c, 6);
    ConvolveUnfolds(w, c, 7);
  }

  lemma TermOfHalved(x: Sample, c: s8)
    ensures FirTerm(Halved(x).left, c) == x.left / 2 * c / 64 && FirTerm(Halved(x).right, c) == x.right / 2 * c / 64
  {
  }

  lemma {:induction false} ConvolveWrittenOut(x: seq<Sample>, c: seq<s8>)
    requires |x| == 8 && |c| == 8
    ensures Convolve(seq(8, j requires 0 <= j < 8 => Halved(x[j])), c, 8)
            == (EightTaps(x[0].left, x[1].left, x[2].left, x[3].left, x[4].left, x[5].left, x[6].left, x[7].left, c),
                EightTaps(x[0].right, x[1].right, x[2].right, x[3].right, x[4].right, x[5].right, x[6].right, x[7].right, c))
  {
    hide Convolve, FirTerm, Halved;
    ConvolveIsSum(seq(8, j requires 0 <= j < 8 => Halved(x[j])), c);
    TermOfHalved(x[0], c[0]);
    TermOfHalved(x[1], c[1]);
    TermOfHalved(x[2], c[2]);
    TermOfHalved(x[3], c[3]);
    TermOfHalved(x[4], c[4]);
    TermOfHalved(x[5], c[5]);
    TermOfHalved(x[6], c[6]);
    TermOfHalved(x[7], c[7]);
  }

  /** The filtered echo of sample k written out: the sum of eight products over the samples
      read in k - 7, ... k, clamped and made even, on both sides. */
  lemma {:induction false} FirWrittenOut(e: EState, ms: seq<Moment>, k: nat)
    requires EInv(e) && AllValid(ms) && 7 <= k < |ms|
    ensures var s, c := EchoSample(ERun(e, ms, k), ms[k].mem, ms[k].i), ms[k].i.coeff;
            var x0, x1, x2, x3 := ReadAt(e, ms, k - 7), ReadAt(e, ms, k - 6), ReadAt(e, ms, k - 5), ReadAt(e, ms, k - 4);
            var x4, x5, x6, x7 := ReadAt(e, ms, k - 3), ReadAt(e, ms, k - 2), ReadAt(e, ms, k - 1), ReadAt(e, ms, k);
            && s.left == Even(Clamp16(EightTaps(x0.left, x1.left, x2.left, x3.left, x4.left, x5.left, x6.left, x7.left, c)))
            && s.right == Even(Clamp16(EightTaps(x0.right, x1.right, x2.right, x3.right,
                                                 x4.right, x5.right, x6.right, x7.right, c)))
  {
    hide ReadAt, ERun, EchoSample, EightTaps, Convolve, Halved, Clamp16, Even;
    FirIsConvolution(e, ms, k);
    var x := seq(8, j requires 0 <= j < 8 => ReadAt(e, ms, k - 7 + j));
    ConvolveWrittenOut(x, ms[k].i.coeff);
    assert Inputs(e, ms, k - 7, k + 1) == seq(8, j requires 0 <= j < 8 => Halved(x[j]));
  }

  /** What is read, fed back and latched, in numbers: the sample read is the two little-endian
      words at 256 * ESA + offset, past $ffff from $0000 on; what is fed back is the voices'
      echo plus the filtered echo times EFB over 128, clamped and made even; and EDL is taken
      over, in steps of 2048 bytes, at offset 0 only. */
  lemma EchoInNumbers(e: EState, mem: seq<u8>, i: EIn)
    requires EInv(e) && IsMemory(mem) && i.Valid()
    ensures var p := e.esa as int * 0x100 + e.offset;
            && Tapped(e, mem).left == S16(mem[(p + 1) % 0x1_0000] as int * 0x100 + mem[p % 0x1_0000])
            && Tapped(e, mem).right == S16(mem[(p + 3) % 0x1_0000] as int * 0x100 + mem[(p + 2) % 0x1_0000])
    ensures var f, s := Feedback(e, mem, i), EchoSample(e, mem, i);
            && f.left == Even(Clamp16(i.voices.left + s.left as int * i.efb / 0x80))
            && f.right == Even(Clamp16(i.voices.right + s.right as int * i.efb / 0x80))
    ensures EchoStep(e, mem, i).length == if e.offset == 0 then 0x800 * (i.edl % 16) else e.length
    ensures EchoStep(e, mem, i).esa == i.esa
  {
    hide EchoSample, Clamp16, Even, S16;
    TapIsWords(e, mem);
    hide Tapped, Push, EchoPtr;
  }

  lemma TapIsWords(e: EState, mem: seq<u8>)
    requires EInv(e) && IsMemory(mem)
    ensures var p := e.esa as int * 0x100 + e.offset;
            && Tapped(e, mem).left == S16(mem[(p + 1) % 0x1_0000] as int * 0x100 + mem[p % 0x1_0000])
            && Tapped(e, mem).right == S16(mem[(p + 3) % 0x1_0000] as int * 0x100 + mem[(p + 2) % 0x1_0000])
  {
    hide S16;
    var p: int := e.esa as int * 0x100 + e.offset;
    WordIs(mem, p);
    WordIs(mem, p + 2);
    assert Wrap16(Wrap16(p) + 2) == Wrap16(p + 2);
    hide Word, Wrap16;
  }

  lemma WordIs(mem: seq<u8>, p: nat)
    requires IsMemory(mem) && p < 0x1_8000
    ensures Word(mem, Wrap16(p)) == mem[(p + 1) % 0x1_0000] as int * 0x100 + mem[p % 0x1_0000]
  {
  }

  // ---- the delay line ----

  /** Echo enabled, with these settings of ESA and EDL, in every sample. */
  ghost predicate Steady(ms: seq<Moment>, esa: u8, edl: nat)
    requires AllValid(ms)
  {
    forall k :: 0 <= k < |ms| ==> ms[k].i.esa == esa && ms[k].i.edl % 16 == edl && !ms[k].i.disabled
  }

  /** The delay in samples. */
  function DelayLength(edl: nat): (l: nat)
    ensures l > 0
  {
    if edl == 0 then 1 else 0x200 * edl
  }

  /** Byte j of slot s of the delay line, which may wrap past $ffff. */
  function SlotAddr(esa: u8, s: nat, j: nat): u16
    requires 4 * s + j < 0x7800
  {
    Wrap16(esa * 0x100 + 4 * s + j)
  }

  /** Nothing but the echo unit stores into the delay line. */
  ghost predicate Undisturbed(e: EState, ms: seq<Moment>, esa: u8, edl: nat)
    requires EInv(e) && AllValid(ms) && edl < 16
  {
    forall k, s, j :: 0 < k < |ms| && 0 <= s < DelayLength(edl) && 0 <= j < 4 ==>
      ms[k].mem[SlotAddr(esa, s, j)]
      == EchoMemory(ERun(e, ms, k - 1), ms[k - 1].mem, ms[k - 1].i)[SlotAddr(esa, s, j)]
  }

  lemma SlotsAreApart(esa: u8, s: nat, j: nat, s': nat, j': nat)
    requires 4 * s + j < 0x7800 && 4 * s' + j' < 0x7800 && j < 4 && j' < 4
    ensures SlotAddr(esa, s, j) == SlotAddr(esa, s', j') <==> s == s' && j == j'
  {
  }

  /** From a sample at offset 0 on, the pointer goes round the slots. */
  lemma {:induction false} PointerGoesRound(e: EState, ms: seq<Moment>, esa: u8, edl: nat, k: nat)
    requires EInv(e) && AllValid(ms) && Steady(ms, esa, edl) && edl < 16 && k <= |ms|
    requires e.offset == 0 && e.esa == esa
    ensures var r := ERun(e, ms, k);
            && r.esa == esa && r.offset == 4 * (k % DelayLength(edl))
            && (r.offset != 0 ==> r.length == 0x800 * edl)
  {
    hide EchoStep, Steady;
    if k > 0 {
      PointerGoesRound(e, ms, esa, edl, k - 1);
      NextQuotient(k - 1, DelayLength(edl));
      ERunUnfolds(e, ms, k);
      SteadyAt(ms, esa, edl, k - 1);
      PointerSteps(ERun(e, ms, k - 1), ms[k - 1].mem, ms[k - 1].i, edl);
      hide ERun;
    }
  }

  lemma SteadyAt(ms: seq<Moment>, esa: u8, edl: nat, k: nat)
    requires AllValid(ms) && Steady(ms, esa, edl) && k < |ms|
    ensures ms[k].i.esa == esa && ms[k].i.edl % 16 == edl && !ms[k].i.disabled
  {
  }

  lemma PointerSteps(e: EState, mem: seq<u8>, i: EIn, edl: nat)
    requires EInv(e) && IsMemory(mem) && i.Valid() && i.edl % 16 == edl
    requires e.offset != 0 ==> e.length == 0x800 * edl
    ensures var r := EchoStep(e, mem, i);
            && r.esa == i.esa && r.length == 0x800 * edl
            && r.offset == if e.offset + 4 >= 0x800 * edl then 0 else e.offset + 4
  {
    hide Push, Tapped;
  }

  /** The four bytes of a slot, as the delay line stores a sample. */
  ghost predicate Holds(mem: seq<u8>, esa: u8, s: nat, f: Sample)
    requires IsMemory(mem) && 4 * s + 3 < 0x7800
  {
    && mem[SlotAddr(esa, s, 0)] == U16(f.left) % 0x100 && mem[SlotAddr(esa, s, 1)] == U16(f.left) / 0x100
    && mem[SlotAddr(esa, s, 2)] == U16(f.right) % 0x100 && mem[SlotAddr(esa, s, 3)] == U16(f.right) / 0x100
  }

  /** One sample writes its feedback into the slot under the pointer and no other. */
  lemma SlotWritten(e: EState, mem: seq<u8>, i: EIn, s: nat, s': nat, f: Sample)
    requires EInv(e) && IsMemory(mem) && i.Valid() && !i.disabled
    requires e.offset == 4 * s && 4 * s + 3 < 0x7800 && 4 * s' + 3 < 0x7800
    ensures Holds(EchoMemory(e, mem, i), e.esa, s, Feedback(e, mem, i))
    ensures s' != s && Holds(mem, e.esa, s', f) ==> Holds(EchoMemory(e, mem, i), e.esa, s', f)
  {
    hide Feedback, SlotAddr;
    forall j, j' | 0 <= j < 4 && 0 <= j' < 4
      ensures SlotAddr(e.esa, s, j) == SlotAddr(e.esa, s, j') <==> j == j'
      ensures s' != s ==> SlotAddr(e.esa, s, j) != SlotAddr(e.esa, s', j')
    {
      SlotsAreApart(e.esa, s, j, s, j');
      SlotsAreApart(e.esa, s, j, s', j');
    }
    PointerAddresses(e, s);
    hide EchoPtr, Wrap16;
  }

  /** The four bytes under the pointer are those of its slot. */
  lemma PointerAddresses(e: EState, s: nat)
    requires EInv(e) && e.offset == 4 * s && 4 * s + 3 < 0x7800
    ensures var p := EchoPtr(e);
            && p == SlotAddr(e.esa, s, 0) && Wrap16(p + 1) == SlotAddr(e.esa, s, 1)
            && Wrap16(p + 2) == SlotAddr(e.esa, s, 2) && Wrap16(Wrap16(p + 2) + 1) == SlotAddr(e.esa, s, 3)
  {
  }

  lemma CastRoundTrip(x: s16)
    ensures S16(U16(x)) == x
  {
  }

  lemma HeldIsRead(e: EState, mem: seq<u8>, s: nat, f: Sample)
    requires EInv(e) && IsMemory(mem) && e.offset == 4 * s && 4 * s + 3 < 0x7800 && Holds(mem, e.esa, s, f)
    ensures Tapped(e, mem) == f
  {
    var p := EchoPtr(e);
    PointerAddresses(e, s);
    assert Word(mem, p) == U16(f.left) && Word(mem, Wrap16(p + 2)) == U16(f.right);
    CastRoundTrip(f.left);
    CastRoundTrip(f.right);
    hide Word, EchoPtr, SlotAddr, S16, U16;
  }

  /** What sample k writes is still in its slot u samples later, until the pointer returns. */
  lemma {:induction false} SlotKeeps(e: EState, ms: seq<Moment>, esa: u8, edl: nat, k: nat, u: nat)
    requires EInv(e) && AllValid(ms) && edl < 16 && Steady(ms, esa, edl) && Undisturbed(e, ms, esa, edl)
    requires e.offset == 0 && e.esa == esa
    requires 0 < u <= DelayLength(edl) && k + u < |ms|
    ensures Holds(ms[k + u].mem, esa, k % DelayLength(edl), WrittenAt(e, ms, k))
    decreases u
  {
    var l, s, f := DelayLength(edl), k % DelayLength(edl), WrittenAt(e, ms, k);
    var m := k + u - 1;
    PointerGoesRound(e, ms, esa, edl, m);
    var at := ERun(e, ms, m);
    if u > 1 {
      SlotKeeps(e, ms, esa, edl, k, u - 1);
      if m % l == s {
        SameResidue(k, m, l);
      }
    }
    SlotWritten(at, ms[m].mem, ms[m].i, m % l, s, f);
    assert Holds(EchoMemory(at, ms[m].mem, ms[m].i), esa, s, f);
  }

  lemma SameSlot(k: nat, edl: nat)
    requires edl < 16
    ensures (k + DelayLength(edl)) % DelayLength(edl) == k % DelayLength(edl)
    ensures 4 * (k % DelayLength(edl)) + 3 < 0x7800
  {
    ModAdd(k, DelayLength(edl), 1);
  }

  /** The echo memory is a delay line: with the echo enabled and ESA and EDL held, from a
      sample at offset 0 on, the stereo sample read is the one written L samples before,
      L = 512 * EDL (1 for EDL 0), even when the region wraps past $ffff. */
  lemma EchoIsDelayLine(e: EState, ms: seq<Moment>, esa: u8, edl: nat, k: nat)
    requires EInv(e) && AllValid(ms) && edl < 16 && Steady(ms, esa, edl) && Undisturbed(e, ms, esa, edl)
    requires e.offset == 0 && e.esa == esa
    requires DelayLength(edl) <= k < |ms|
    ensures ReadAt(e, ms, k) == WrittenAt(e, ms, k - DelayLength(edl))
  {
    hide ERun, Holds, Tapped, WrittenAt, DelayLength, Steady, Undisturbed, Feedback;
    var l := DelayLength(edl);
    SlotKeeps(e, ms, esa, edl, k - l, l);
    PointerGoesRound(e, ms, esa, edl, k);
    SameSlot(k - l, edl);
    HeldIsRead(ERun(e, ms, k), ms[k].mem, k % l, WrittenAt(e, ms, k - l));
  }

  function WithoutLowBits(s: Sample): Sample { Sample(Even(s.left), Even(s.right)) }

  lemma DryFeedback(e: EState, mem: seq<u8>, i: EIn)
    requires EInv(e) && IsMemory(mem) && i.Valid() && i.efb == 0
    ensures Feedback(e, mem, i) == WithoutLowBits(i.voices)
  {
    hide EchoSample;
    Unscaled(EchoSample(e, mem, i).left);
    Unscaled(EchoSample(e, mem, i).right);
  }

  lemma Unscaled(x: s16)
    ensures SampleScale(x, 0) == 0
  {
  }

  /** Without feedback the delay line returns the voices themselves, L samples late and less
      their lowest bit. */
  lemma DryEchoIsDelayedVoices(e: EState, ms: seq<Moment>, esa: u8, edl: nat, k: nat)
    requires EInv(e) && AllValid(ms) && edl < 16 && Steady(ms, esa, edl) && Undisturbed(e, ms, esa, edl)
    requires e.offset == 0 && e.esa == esa
    requires DelayLength(edl) <= k < |ms| && ms[k - DelayLength(edl)].i.efb == 0
    ensures ReadAt(e, ms, k) == WithoutLowBits(ms[k - DelayLength(edl)].i.voices)
  {
    hide ERun, ReadAt, DelayLength, Steady, Undisturbed, Feedback, WithoutLowBits;
    EchoIsDelayLine(e, ms, esa, edl, k);
    var j := k - DelayLength(edl);
    DryFeedback(ERun(e, ms, j), ms[j].mem, ms[j].i);
  }
}

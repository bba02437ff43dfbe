/** The three free-running rate counters that pace every envelope (src/dsp.c).

    Two of the three are divided down by small internal counters, and a rate fires
    when the low bits of its counter are clear in the very sample in which the
    internal counter was reloaded. */
module Counters {
  import opened Bits

  /** Which counter drives a rate; rate 0 has none. */
  function CtrNumber(rate: nat): nat
    requires rate < 32
  {
    if rate >= 30 || rate % 3 == 1 then 0 else if rate % 3 == 2 then 1 else 2
  }

  function CtrMask(rate: nat): nat
    requires rate < 32
  {
    match rate
    case 0 => 0      case 1 => 0x7ff  case 2 => 0x1ff
    case 3 => 0x0ff  case 4 => 0x3ff  case 5 => 0x0ff
    case 6 => 0x07f  case 7 => 0x1ff  case 8 => 0x07f
    case 9 => 0x03f  case 10 => 0x0ff case 11 => 0x03f
    case 12 => 0x01f case 13 => 0x07f case 14 => 0x01f
    case 15 => 0x00f case 16 => 0x03f case 17 => 0x00f
    case 18 => 0x007 case 19 => 0x01f case 20 => 0x007
    case 21 => 0x003 case 22 => 0x00f case 23 => 0x003
    case 24 => 0x001 case 25 => 0x007 case 26 => 0x001
    case 27 => 0x000 case 28 => 0x003 case 29 => 0x000
    case 30 => 0x001
    case _ => 0x000
  }

  function CtrRate(c: nat): nat
    requires c < 3
  {
    if c == 0 then 1 else if c == 1 then 3 else 5
  }

  function CtrInternalInit(c: nat): u8
    requires c < 3
  {
    c + 1
  }

  /** The unsigned initial values 0, -347 and -107. */
  function CtrInitial(c: nat): u32
    requires c < 3
  {
    if c == 0 then 0 else if c == 1 then WRAP32 - 347 else WRAP32 - 107
  }

  // ---- what the counters hold after n runs ----

  function InternalAfter(c: nat, n: nat): (r: u8)
    requires c < 3
  {
    if c == 0 then 1 else if c == 1 then 3 - (n + 1) % 3 else 5 - (n + 2) % 5
  }

  function OutAfter(c: nat, n: nat): (r: u32)
    requires c < 3
  {
    (CtrInitial(c) + (if c == 0 then n else if c == 1 then (n + 1) / 3 else (n + 2) / 5)) % WRAP32
  }

  /** One run: a plain counter counts, a divided one counts when its internal counter
      reaches zero and is reloaded. */
  lemma AfterOneMore(c: nat, n: nat)
    requires c < 3
    ensures InternalAfter(c, n) >= 1
    ensures InternalAfter(c, n + 1) == if InternalAfter(c, n) == 1 then CtrRate(c) else InternalAfter(c, n) - 1
    ensures OutAfter(c, n + 1) == if InternalAfter(c, n) == 1 then (OutAfter(c, n) + 1) % WRAP32 else OutAfter(c, n)
  {
    var k := n + c;
    IncrementWraps(CtrInitial(c) + n);
    if c == 1 {
      IncrementWraps(CtrInitial(1) + k / 3);
      assert if k % 3 == 2 then (k + 1) / 3 == k / 3 + 1 else (k + 1) / 3 == k / 3;
    } else if c == 2 {
      IncrementWraps(CtrInitial(2) + k / 5);
      assert if k % 5 == 4 then (k + 1) / 5 == k / 5 + 1 else (k + 1) / 5 == k / 5;
    }
  }

  lemma PlainCounter(n: nat)
    ensures InternalAfter(0, n) == 1
  {
  }

  lemma IncrementWraps(x: int)
    ensures (x % WRAP32 + 1) % WRAP32 == (x + 1) % WRAP32
  {
  }

  class RateCounters {
    var internal: array<u8>
    var out: array<u32>
    ghost var runs: nat

    ghost predicate Valid()
      reads this, internal, out
    {
      && internal.Length == 3 && out.Length == 3 && internal as object != out
      && internal[0] == InternalAfter(0, runs) && out[0] == OutAfter(0, runs)
      && internal[1] == InternalAfter(1, runs) && out[1] == OutAfter(1, runs)
      && internal[2] == InternalAfter(2, runs) && out[2] == OutAfter(2, runs)
    }

    constructor ()
      ensures Valid() && fresh(internal) && fresh(out) && runs == 0
    {
      internal := new u8[3](_ => 0);
      out := new u32[3](_ => 0);
      runs := 0;
      new;
      for i := 0 to 3
        invariant runs == 0 && internal.Length == 3 && out.Length == 3
        invariant fresh(internal) && fresh(out) && internal as object != out
        invariant forall c :: 0 <= c < i ==> internal[c] == CtrInternalInit(c) && out[c] == CtrInitial(c)
      {
        internal[i] := CtrInternalInit(i);
        out[i] := CtrInitial(i);
      }
    }

    /** One sample: the state after n runs becomes the state after n + 1, the 2^32
        wrap included. */
    method Run()
      requires Valid()
      modifies this`runs, internal, out
      ensures Valid() && runs == old(runs) + 1
    {
      hide InternalAfter, OutAfter;
      ghost var n := runs;
      AfterOneMore(0, n);
      AfterOneMore(1, n);
      AfterOneMore(2, n);
      PlainCounter(n);
      out[0] := (out[0] + 1) % WRAP32;

      internal[1] := (internal[1] - 1) % 0x100;
      if internal[1] == 0 {
        internal[1] := 3;
        out[1] := (out[1] + 1) % WRAP32;
      }
      internal[2] := (internal[2] - 1) % 0x100;
      if internal[2] == 0 {
        internal[2] := 5;
        out[2] := (out[2] + 1) % WRAP32;
      }
      runs := n + 1;
    }

    /** The masks are one less than a power of two, so `&` with one is `%` by its
        successor. */
    method Read(rate: nat) returns (fires: bool)
      requires Valid() && rate < 32
      ensures fires == Fires(rate, runs)
    {
      if rate == 0 {
        return false;
      }
      var c := CtrNumber(rate);
      FiresMeansReload(rate, runs);
      if out[c] % (CtrMask(rate) + 1) != 0 {
        return false;
      }
      return internal[c] == CtrRate(c);
    }
  }

  // ---- the closed form ----

  /** Samples between two firings of a rate. */
  function Period(rate: nat): (p: nat)
    requires rate < 32
    ensures 1 <= p <= 2048
  {
    CtrRate(CtrNumber(rate)) * (CtrMask(rate) + 1)
  }

  /** Where in its period each counter starts. */
  function Offset(c: nat): int
    requires c < 3
  {
    if c == 0 then 0 else if c == 1 then 1 - 3 * 347 else 2 - 5 * 107
  }

  /** A rate fires in the samples congruent to its counter's offset, for ever. */
  predicate Fires(rate: nat, n: nat)
    requires rate < 32
  {
    rate != 0 && (n + Offset(CtrNumber(rate))) % Period(rate) == 0
  }

  /** The emulator's test (counter bits clear, internal counter just reloaded) is the
      congruence, whatever multiple of 2^32 the counter has passed. */
  lemma FiresMeansReload(rate: nat, n: nat)
    requires 0 < rate < 32
    ensures var c := CtrNumber(rate);
            Fires(rate, n) <==>
            OutAfter(c, n) % (CtrMask(rate) + 1) == 0 && InternalAfter(c, n) == CtrRate(c)
  {
    var c, m := CtrNumber(rate), CtrMask(rate) + 1;
    if c == 0 {
      WrapKeepsLowBits(n, m);
    } else if c == 1 {
      WrapKeepsLowBits(WRAP32 - 347 + (n + 1) / 3, m);
      WrapKeepsLowBits((n + 1) / 3 - 347, m);
      DividedDown(n + 1, 3, 347, m);
    } else {
      WrapKeepsLowBits(WRAP32 - 107 + (n + 2) / 5, m);
      WrapKeepsLowBits((n + 2) / 5 - 107, m);
      DividedDown(n + 2, 5, 107, m);
    }
  }

  lemma DividedDown(k: int, d: nat, back: int, m: nat)
    requires d > 0 && m > 0
    ensures d * m > 0
    ensures (k - d * back) % (d * m) == 0 <==> k % d == 0 && (k / d - back) % m == 0
  {
    MulDistributes(d, k / d, back);
    var x := k - d * back;
    DivUnique(x, d, k / d - back, k % d);
    DivDiv(x, d, m);
    if x / d % m > 0 {
      MulMono(d, 1, x / d % m);
    }
  }

  // ---- in numbers ----

  /** Every third rate is twice as fast. */
  lemma PeriodsHalve(rate: nat)
    requires 1 <= rate <= 26
    ensures Period(rate) == 2 * Period(rate + 3)
  {
  }

  /** The samples in which each rate fires, counted from start-up. */
  lemma FiresUpTo10(n: nat)
    ensures !Fires(0, n)
    ensures Fires(1, n) <==> n % 2048 == 0
    ensures Fires(2, n) <==> (n - 1040) % 1536 == 0
    ensures Fires(3, n) <==> (n - 533) % 1280 == 0
    ensures Fires(4, n) <==> n % 1024 == 0
    ensures Fires(5, n) <==> (n - 1040) % 768 == 0
    ensures Fires(6, n) <==> (n - 533) % 640 == 0
    ensures Fires(7, n) <==> n % 512 == 0
    ensures Fires(8, n) <==> (n - 1040) % 384 == 0
    ensures Fires(9, n) <==> (n - 533) % 320 == 0
    ensures Fires(10, n) <==> n % 256 == 0
  {
    assert Period(1) == 2048;
    assert Period(2) == 1536;
    assert Period(3) == 1280;
    assert Period(4) == 1024;
    assert Period(5) == 768;
    assert Period(6) == 640;
    assert Period(7) == 512;
    assert Period(8) == 384;
    assert Period(9) == 320;
    assert Period(10) == 256;
    hide Period;
  }

  lemma FiresUpTo20(n: nat)
    ensures Fires(11, n) <==> (n - 1040) % 192 == 0
    ensures Fires(12, n) <==> (n - 533) % 160 == 0
    ensures Fires(13, n) <==> n % 128 == 0
    ensures Fires(14, n) <==> (n - 1040) % 96 == 0
    ensures Fires(15, n) <==> (n - 533) % 80 == 0
    ensures Fires(16, n) <==> n % 64 == 0
    ensures Fires(17, n) <==> (n - 1040) % 48 == 0
    ensures Fires(18, n) <==> (n - 533) % 40 == 0
    ensures Fires(19, n) <==> n % 32 == 0
    ensures Fires(20, n) <==> (n - 1040) % 24 == 0
  {
    assert Period(11) == 192;
    assert Period(12) == 160;
    assert Period(13) == 128;
    assert Period(14) == 96;
    assert Period(15) == 80;
    assert Period(16) == 64;
    assert Period(17) == 48;
    assert Period(18) == 40;
    assert Period(19) == 32;
    assert Period(20) == 24;
    hide Period;
  }

  lemma FiresUpTo31(n: nat)
    ensures Fires(21, n) <==> (n - 533) % 20 == 0
    ensures Fires(22, n) <==> n % 16 == 0
    ensures Fires(23, n) <==> (n - 1040) % 12 == 0
    ensures Fires(24, n) <==> (n - 533) % 10 == 0
    ensures Fires(25, n) <==> n % 8 == 0
    ensures Fires(26, n) <==> (n - 1040) % 6 == 0
    ensures Fires(27, n) <==> (n - 533) % 5 == 0
    ensures Fires(28, n) <==> n % 4 == 0
    ensures Fires(29, n) <==> (n - 1040) % 3 == 0
    ensures Fires(30, n) <==> n % 2 == 0
    ensures Fires(31, n) <==> n % 1 == 0
  {
    assert Period(21) == 20;
    assert Period(22) == 16;
    assert Period(23) == 12;
    assert Period(24) == 10;
    assert Period(25) == 8;
    assert Period(26) == 6;
    assert Period(27) == 5;
    assert Period(28) == 4;
    assert Period(29) == 3;
    assert Period(30) == 2;
    assert Period(31) == 1;
    hide Period;
  }

  // ---- exact periodicity ----

  lemma RoundedUp(a: int, p: nat)
    requires p > 0
    ensures (if a % p == 0 then a else a + p - a % p) % p == 0
  {
    var q := a / p;
    assert a == p * q + a % p;
    MulDistributes(p, q, 1);
    ModAdd(0, p, q + 1);
  }

  /** The sample at or after w in which a rate fires next. */
  function NextFiring(rate: nat, w: nat): (t: nat)
    requires 0 < rate < 32
    ensures w <= t < w + Period(rate)
    ensures Fires(rate, t)
  {
    var p, a := Period(rate), w + Offset(CtrNumber(rate));
    RoundedUp(a, p);
    hide Period, Offset, CtrNumber;
    if a % p == 0 then w else w + p - a % p
  }

  /** Every window of one period holds exactly one firing; rate 0 never fires. */
  lemma ExactlyOncePerPeriod(rate: nat, w: nat)
    requires rate < 32
    ensures rate == 0 ==> forall t: nat :: !Fires(rate, t)
    ensures rate != 0 ==>
              forall t :: w <= t < w + Period(rate) ==> (Fires(rate, t) <==> t == NextFiring(rate, w))
  {
    if rate != 0 {
      var p, first := Period(rate), NextFiring(rate, w);
      forall t | w <= t < w + p && Fires(rate, t)
        ensures t == first
      {
        SameResidue(first + Offset(CtrNumber(rate)), t + Offset(CtrNumber(rate)), p);
      }
    }
  }

  /** How often a rate fires in the k samples n, n + 1, ... */
  function Firings(rate: nat, n: nat, k: nat): (r: nat)
    requires rate < 32
  {
    if k == 0 then 0 else Firings(rate, n, k - 1) + (if Fires(rate, n + k - 1) then 1 else 0)
  }

  lemma {:induction false} FiringsSplit(rate: nat, n: nat, j: nat, k: nat)
    requires rate < 32
    ensures Firings(rate, n, j + k) == Firings(rate, n, j) + Firings(rate, n + j, k)
  {
    if k > 0 {
      FiringsSplit(rate, n, j, k - 1);
    }
  }

  lemma {:induction false} FiringsWithin(rate: nat, w: nat, k: nat)
    requires 0 < rate < 32 && k <= Period(rate)
    ensures Firings(rate, w, k) == if NextFiring(rate, w) < w + k then 1 else 0
  {
    if k > 0 {
      FiringsWithin(rate, w, k - 1);
      ExactlyOncePerPeriod(rate, w);
    }
  }

  /** m whole periods, wherever they start, hold exactly m firings. */
  lemma {:induction false} FiringsInPeriods(rate: nat, n: nat, m: nat, k: nat)
    requires 0 < rate < 32 && k == Period(rate) * m
    ensures Firings(rate, n, k) == m
    decreases m
  {
    hide Period, NextFiring, Fires;
    if m > 0 {
      var p := Period(rate);
      MulDistributes(p, m, 1);
      MulMono(p, 0, m - 1);
      FiringsInPeriods(rate, n, m - 1, k - p);
      FiringsWithin(rate, n + (k - p), p);
      FiringsSplit(rate, n, k - p, p);
    }
  }
}

/** The SPC700's carry-chained arithmetic, division and status word (src/spc700.c), as
    functions, and what they mean for numbers of any width. Module Cpu runs them on the
    processor's registers. */
module Alu {
  import opened Bits

  function Num(b: bool): (n: nat) { if b then 1 else 0 }

  /** Bits 4 and 7 of a byte. */
  predicate Bit4(x: u8) { x / 0x10 % 2 == 1 }

  predicate Bit7(x: u8) { x / 0x80 == 1 }

  function Complement(x: u8): u8 { 0xff - x }

  // ---- one byte ----

  datatype Sum = Sum(result: u8, carry: bool, half: bool, overflow: bool)

  /** The half carry is bit 4 of `a ^ b ^ result`, the overflow bit 7 of
      `(a ^ result) & (b ^ result)`. */
  function Adc(a: u8, b: u8, carry: bool): Sum
  {
    var sum := a + b + Num(carry);
    var r := sum % 0x100;
    Sum(r, sum / 0x100 != 0,
        (Bit4(a) != Bit4(b)) != Bit4(r),
        Bit7(a) != Bit7(r) && Bit7(b) != Bit7(r))
  }

  function Sbc(a: u8, b: u8, carry: bool): Sum { Adc(a, Complement(b), carry) }

  function Signed(x: u8): int { if Bit7(x) then x - 0x100 else x }

  /** What the flags of one addition say about the numbers added. */
  lemma AdcMeans(a: u8, b: u8, carry: bool)
    ensures var s := Adc(a, b, carry);
            && s.result + 0x100 * Num(s.carry) == a + b + Num(carry)
            && (s.half <==> a % 0x10 + b % 0x10 + Num(carry) >= 0x10)
            && (s.overflow <==> !(-0x80 <= Signed(a) + Signed(b) + Num(carry) < 0x80))
  {
    HalfMeans(a, b, Num(carry));
  }

  lemma HalfMeans(a: u8, b: u8, c: nat)
    requires c <= 1
    ensures (Bit4(a) != Bit4(b)) != Bit4((a + b + c) % 0x100) <==> a % 0x10 + b % 0x10 + c >= 0x10
  {
    var s := a + b + c;
    var over := if a % 0x10 + b % 0x10 + c >= 0x10 then 1 else 0;
    assert s / 0x10 == a / 0x10 + b / 0x10 + over;
    assert s % 0x100 / 0x10 == s / 0x10 - 0x10 * (s / 0x100);
    ParityOfSum(a / 0x10, b / 0x10, over, s / 0x100);
  }

  lemma ParityOfSum(x: nat, y: nat, c: nat, q: nat)
    requires c <= 1
    ensures ((x % 2 == 1) != (y % 2 == 1)) != ((x + y + c - 0x10 * q) % 2 == 1) <==> c == 1
  {
    var i, j := x / 2, y / 2;
    var r := x % 2 + y % 2 + c;
    assert x + y + c - 0x10 * q == 2 * (i + j - 8 * q) + r;
    ModAdd(r, 2, i + j - 8 * q);
  }

  /** CMP: the difference as a 16-bit int decides the carry, its low byte the flags Z and N. */
  function Cmp(a: u8, b: u8): (r: (u8, bool)) { ((a - b) % 0x100, a - b >= 0) }

  /** CMP leaves C, and through its result Z and N, as SBC with the carry set does. */
  lemma CmpIsSbc(a: u8, b: u8)
    ensures Cmp(a, b) == (Sbc(a, b, true).result, Sbc(a, b, true).carry)
  {
    assert a + Complement(b) + 1 == a - b + 0x100;
  }

  // ---- byte strings, least significant byte first ----

  function Pow256(n: nat): (r: nat)
    ensures r >= 1
  {
    if n == 0 then 1 else 0x100 * Pow256(n - 1)
  }

  function Value(xs: seq<u8>): (v: nat)
    ensures v < Pow256(|xs|)
  {
    if xs == [] then 0 else xs[0] + 0x100 * Value(xs[1..])
  }

  /** The string as a two's complement number. */
  function SignedValue(xs: seq<u8>): int
    requires xs != []
  {
    if |xs| == 1 then Signed(xs[0]) else xs[0] + 0x100 * SignedValue(xs[1..])
  }

  /** A carry out of n bytes. */
  function CarryWeight(carry: bool, n: nat): nat { if carry then Pow256(n) else 0 }

  /** v is an n-byte two's complement number. */
  predicate FitsSigned(v: int, n: nat) { -(Pow256(n) as int) <= 2 * v < Pow256(n) }

  function Complements(xs: seq<u8>): (r: seq<u8>)
    ensures |r| == |xs|
  {
    seq(|xs|, i requires 0 <= i < |xs| => Complement(xs[i]))
  }

  datatype Chain = Chain(result: seq<u8>, carry: bool, overflow: bool)

  /** `adc` byte by byte, each carry fed into the next; the flags left are those of the
      last byte. */
  function AddChain(xs: seq<u8>, ys: seq<u8>, carry: bool, overflow: bool): (r: Chain)
    requires |xs| == |ys|
    ensures |r.result| == |xs|
  {
    if xs == [] then Chain([], carry, overflow)
    else
      var s := Adc(xs[0], ys[0], carry);
      var rest := AddChain(xs[1..], ys[1..], s.carry, s.overflow);
      Chain([s.result] + rest.result, rest.carry, rest.overflow)
  }

  function SubChain(xs: seq<u8>, ys: seq<u8>, carry: bool, overflow: bool): (r: Chain)
    requires |xs| == |ys|
    ensures |r.result| == |xs|
  {
    if xs == [] then Chain([], carry, overflow)
    else
      var s := Sbc(xs[0], ys[0], carry);
      var rest := SubChain(xs[1..], ys[1..], s.carry, s.overflow);
      Chain([s.result] + rest.result, rest.carry, rest.overflow)
  }

  /** Folding `adc` is addition of n-byte numbers: the sum modulo 256^n with the final
      carry as its carry-out, and overflow exactly when the signed sum does not fit. */
  lemma {:induction false} AddChainIsAddition(xs: seq<u8>, ys: seq<u8>, carry: bool, overflow: bool)
    requires |xs| == |ys|
    ensures var r := AddChain(xs, ys, carry, overflow);
            && Value(r.result) + CarryWeight(r.carry, |xs|) == Value(xs) + Value(ys) + Num(carry)
            && (xs != [] ==>
                  (r.overflow <==>
                   !FitsSigned(SignedValue(xs) + SignedValue(ys) + Num(carry), |xs|)))
  {
    hide Adc, Bit7, Signed, Bit4, Num, FitsSigned, CarryWeight;
    if xs != [] {
      var s := Adc(xs[0], ys[0], carry);
      AdcMeans(xs[0], ys[0], carry);
      AddChainIsAddition(xs[1..], ys[1..], s.carry, s.overflow);
      var rest := AddChain(xs[1..], ys[1..], s.carry, s.overflow);
      var r := AddChain(xs, ys, carry, overflow);
      assert r.result[1..] == rest.result && r.result[0] == s.result;
      CarryOneByteMore(rest.carry, |xs| - 1);
      if |xs| == 1 {
        assert SignedValue(xs) == Signed(xs[0]) && SignedValue(ys) == Signed(ys[0]);
        FitsOneByte(Signed(xs[0]) + Signed(ys[0]) + Num(carry));
      } else {
        FitsOneByteMore(s.result, SignedValue(xs[1..]) + SignedValue(ys[1..]) + Num(s.carry), |xs| - 1);
      }
    } else {
      CarryWeightOfNothing(carry);
    }
  }

  lemma CarryOneByteMore(carry: bool, n: nat)
    ensures CarryWeight(carry, n + 1) == 0x100 * CarryWeight(carry, n)
  {
  }

  lemma CarryWeightOfNothing(carry: bool)
    ensures CarryWeight(carry, 0) == Num(carry)
  {
  }

  lemma FitsOneByte(v: int)
    ensures FitsSigned(v, 1) <==> -0x80 <= v < 0x80
  {
    assert Pow256(1) == 0x100 * Pow256(0);
  }

  lemma FitsOneByteMore(lo: u8, v: int, n: nat)
    requires n > 0
    ensures FitsSigned(lo + 0x100 * v, n + 1) <==> FitsSigned(v, n)
  {
    var half := 0x80 * Pow256(n - 1);
    assert Pow256(n) == 2 * half && Pow256(n + 1) == 0x200 * half;
    hide Pow256;
    assert FitsSigned(v, n) <==> -half <= v < half;
  }

  lemma {:induction false} ComplementsMean(ys: seq<u8>)
    ensures Value(Complements(ys)) == Pow256(|ys|) - 1 - Value(ys)
    ensures ys != [] ==> SignedValue(Complements(ys)) == -1 - SignedValue(ys)
  {
    if ys != [] {
      assert Complements(ys)[1..] == Complements(ys[1..]);
      ComplementsMean(ys[1..]);
    }
  }

  lemma {:induction false} SubChainIsAddChain(xs: seq<u8>, ys: seq<u8>, carry: bool, overflow: bool)
    requires |xs| == |ys|
    ensures SubChain(xs, ys, carry, overflow) == AddChain(xs, Complements(ys), carry, overflow)
  {
    if xs != [] {
      var s := Sbc(xs[0], ys[0], carry);
      assert Complements(ys)[1..] == Complements(ys[1..]);
      SubChainIsAddChain(xs[1..], ys[1..], s.carry, s.overflow);
    }
  }

  /** Folding `sbc` is subtraction with borrow: the difference modulo 256^n, carry left
      set exactly when nothing was borrowed, overflow when the signed difference does not
      fit. */
  lemma {:induction false} SubChainIsSubtraction(xs: seq<u8>, ys: seq<u8>, carry: bool, overflow: bool)
    requires |xs| == |ys|
    ensures var r := SubChain(xs, ys, carry, overflow);
            var borrow := 1 - Num(carry);
            && Value(r.result) == Value(xs) - Value(ys) - borrow + CarryWeight(!r.carry, |xs|)
            && (r.carry <==> Value(xs) >= Value(ys) + borrow)
            && (xs != [] ==>
                  (r.overflow <==>
                   !FitsSigned(SignedValue(xs) - SignedValue(ys) - borrow, |xs|)))
  {
    SubChainIsAddChain(xs, ys, carry, overflow);
    AddChainIsAddition(xs, Complements(ys), carry, overflow);
    ComplementsMean(ys);
  }

  // ---- words ----

  function Lo(w: u16): u8 { w % 0x100 }

  function Hi(w: u16): u8 { w / 0x100 }

  function Join(lo: u8, hi: u8): u16 { lo + hi as int * 0x100 }

  /** ADDW and SUBW are the two-byte chains, low byte first, started without carry and
      without borrow. */
  function Addw(a: u16, b: u16): Chain { AddChain([Lo(a), Hi(a)], [Lo(b), Hi(b)], false, false) }

  function Subw(a: u16, b: u16): Chain { SubChain([Lo(a), Hi(a)], [Lo(b), Hi(b)], true, false) }

  function SignedWord(w: u16): int { if w >= 0x8000 then w - 0x1_0000 else w }

  lemma WordValue(w: u16)
    ensures Value([Lo(w), Hi(w)]) == w && SignedValue([Lo(w), Hi(w)]) == SignedWord(w)
    ensures Pow256(2) == 0x1_0000
    ensures Join(Lo(w), Hi(w)) == w
  {
    assert [Lo(w), Hi(w)][1..] == [Hi(w)];
    assert Value([Hi(w)]) == Hi(w) + 0x100 * Value([]);
    assert Pow256(1) == 0x100 * Pow256(0);
  }

  lemma {:induction false} PairValue(s: seq<u8>)
    requires |s| == 2
    ensures Value(s) == Join(s[0], s[1])
  {
    assert s[1..] == [s[1]] && [s[1]][1..] == [];
    assert Value([s[1]]) == s[1] + 0x100 * Value([]);
  }

  lemma WordsUnfold(a: u16, b: u16)
    ensures var s0 := Adc(Lo(a), Lo(b), false);
            var s1 := Adc(Hi(a), Hi(b), s0.carry);
            Addw(a, b) == Chain([s0.result, s1.result], s1.carry, s1.overflow)
    ensures var s0 := Sbc(Lo(a), Lo(b), true);
            var s1 := Sbc(Hi(a), Hi(b), s0.carry);
            Subw(a, b) == Chain([s0.result, s1.result], s1.carry, s1.overflow)
  {
    hide Adc, Sbc, Lo, Hi;
    assert [Lo(a), Hi(a)][1..] == [Hi(a)] && [Lo(b), Hi(b)][1..] == [Hi(b)];
    assert [Hi(a)][1..] == [] && [Hi(b)][1..] == [];
    var s0 := Adc(Lo(a), Lo(b), false);
    var d0 := Sbc(Lo(a), Lo(b), true);
    assert AddChain([Hi(a)], [Hi(b)], s0.carry, s0.overflow).result == [Adc(Hi(a), Hi(b), s0.carry).result];
    assert SubChain([Hi(a)], [Hi(b)], d0.carry, d0.overflow).result == [Sbc(Hi(a), Hi(b), d0.carry).result];
  }

  /** 16-bit addition, with the carry and overflow of 16 bits. */
  lemma AddwAdds(a: u16, b: u16)
    ensures var r := Addw(a, b);
            && Join(r.result[0], r.result[1]) == (a + b) % 0x1_0000
            && (r.carry <==> a + b >= 0x1_0000)
            && (r.overflow <==> !(-0x8000 <= SignedWord(a) + SignedWord(b) < 0x8000))
  {
    hide AddChain, Value, SignedValue, Pow256, Lo, Hi, Join, SignedWord;
    WordValue(a);
    WordValue(b);
    AddChainIsAddition([Lo(a), Hi(a)], [Lo(b), Hi(b)], false, false);
    PairValue(Addw(a, b).result);
  }

  /** 16-bit subtraction: carry set means no borrow. */
  lemma SubwSubtracts(a: u16, b: u16)
    ensures var r := Subw(a, b);
            && Join(r.result[0], r.result[1]) == (a - b) % 0x1_0000
            && (r.carry <==> a >= b)
            && (r.overflow <==> !(-0x8000 <= SignedWord(a) - SignedWord(b) < 0x8000))
  {
    hide SubChain, Value, SignedValue, Pow256, Lo, Hi, Join, SignedWord;
    WordValue(a);
    WordValue(b);
    SubChainIsSubtraction([Lo(a), Hi(a)], [Lo(b), Hi(b)], true, false);
    PairValue(Subw(a, b).result);
  }

  /** The half carry that ADDW and SUBW leave, that of their high bytes, is the carry out of
      bit 11 of the words, or the absence of a borrow there. */
  lemma WordHalfCarry(a: u16, b: u16)
    ensures Adc(Hi(a), Hi(b), Adc(Lo(a), Lo(b), false).carry).half <==> a % 0x1000 + b % 0x1000 >= 0x1000
    ensures Sbc(Hi(a), Hi(b), Sbc(Lo(a), Lo(b), true).carry).half <==> a % 0x1000 >= b % 0x1000
  {
    AdcMeans(Lo(a), Lo(b), false);
    AdcMeans(Hi(a), Hi(b), Adc(Lo(a), Lo(b), false).carry);
    AdcMeans(Lo(a), Complement(Lo(b)), true);
    AdcMeans(Hi(a), Complement(Hi(b)), Sbc(Lo(a), Lo(b), true).carry);
    hide Adc, Signed;
    TwelveBits(a);
    TwelveBits(b);
  }

  lemma TwelveBits(w: u16)
    ensures w % 0x1000 == 0x100 * (Hi(w) % 0x10) + Lo(w)
    ensures Complement(Hi(w)) % 0x10 == 0xf - Hi(w) % 0x10
  {
  }

  // ---- shifts ----

  /** ROL and ROR: the byte shifted, and the bit that falls out as the new carry. */
  function Rol(x: u8, carry: bool): (u8, bool)
  {
    var r := x * 2 + Num(carry);
    (r % 0x100, r / 0x100 == 1)
  }

  function Ror(x: u8, carry: bool): (u8, bool) { (x / 2 + 0x80 * Num(carry), x % 2 == 1) }

  /** ROL over a string, least significant byte first. */
  function RolChain(xs: seq<u8>, carry: bool): (r: (seq<u8>, bool))
    ensures |r.0| == |xs|
  {
    if xs == [] then ([], carry)
    else
      var s := Rol(xs[0], carry);
      var rest := RolChain(xs[1..], s.1);
      ([s.0] + rest.0, rest.1)
  }

  /** ROR over a string, most significant byte first. */
  function RorChain(xs: seq<u8>, carry: bool): (r: (seq<u8>, bool))
    ensures |r.0| == |xs|
  {
    if xs == [] then ([], carry)
    else
      var rest := RorChain(xs[1..], carry);
      var s := Ror(xs[0], rest.1);
      ([s.0] + rest.0, s.1)
  }

  /** Rotating a number left through the carry doubles it. */
  lemma {:induction false} RolDoubles(xs: seq<u8>, carry: bool)
    ensures var r := RolChain(xs, carry);
            Value(r.0) + CarryWeight(r.1, |xs|) == 2 * Value(xs) + Num(carry)
  {
    if xs != [] {
      var s := Rol(xs[0], carry);
      assert s.0 + 0x100 * Num(s.1) == xs[0] * 2 + Num(carry);
      hide Rol;
      RolDoubles(xs[1..], s.1);
      assert RolChain(xs, carry).0[1..] == RolChain(xs[1..], s.1).0;
    }
  }

  /** Rotating right undoes rotating left, carry included, at any width. */
  lemma {:induction false} RorUndoesRol(xs: seq<u8>, carry: bool)
    ensures var r := RolChain(xs, carry); RorChain(r.0, r.1) == (xs, carry)
  {
    if xs != [] {
      var s := Rol(xs[0], carry);
      assert Ror(s.0, carry).1 == carry && Ror(s.0, s.1) == (xs[0], carry);
      hide Rol, Ror;
      RorUndoesRol(xs[1..], s.1);
      var r, rest := RolChain(xs, carry), RolChain(xs[1..], s.1);
      assert r.0 == [s.0] + rest.0 && r.0[1..] == rest.0 && r.1 == rest.1;
      assert RorChain(r.0[1..], r.1) == (xs[1..], s.1);
      assert xs == [xs[0]] + xs[1..];
    }
  }

  // ---- division ----

  datatype Quotient = Quotient(a: u8, y: u8, overflow: bool, half: bool)

  /** `div ya, x`: an ordinary division while the quotient needs no more than nine bits, and
      the hardware's odd second regime beyond. The assignments to the byte registers cut. */
  function Div(y: u8, a: u8, x: u8): Quotient
  {
    var ya := Join(a, y);
    var half := y % 0x10 >= x % 0x10;
    if y < x * 2 then
      Quotient(Quot(ya, x) % 0x100, Rem(ya, x) % 0x100, y >= x, half)
    else
      var over := ya - x * 0x200;
      Quotient((0xff - Quot(over, 0x100 - x)) % 0x100, (x + Rem(over, 0x100 - x)) % 0x100, y >= x, half)
  }

  /** What the results of a division say of the dividend. While Y < 2X, V is the ninth bit of
      the quotient; beyond, where X may be 0, the quotient runs backwards from 255 in steps
      of 256 - X. */
  predicate DividesExactly(y: u8, a: u8, x: u8, q: Quotient)
  {
    var ya := Join(a, y);
    if y < 2 * x then ya == (0x100 * Num(q.overflow) + q.a) * x + q.y && q.y < x
    else ya == 0x200 * x + (0xff - q.a) * (0x100 - x) + (q.y - x) && x <= q.y && q.overflow
  }

  /** The division is total and exact in both regimes; neither result is cut by its byte
      register. */
  lemma DivIsExact(y: u8, a: u8, x: u8)
    ensures DividesExactly(y, a, x, Div(y, a, x))
  {
    hide Div, Join, Quot, Rem;
    var ya := Join(a, y);
    DivUncut(y, a, x);
    if y < 2 * x {
      NineBitQuotient(ya, x);
      SameProduct(0x100 * Num(y >= x) + Div(y, a, x).a, Quot(ya, x), x);
    } else {
      BackwardQuotient(ya, x);
      var d, over := 0x100 - x, ya - x * 0x200;
      SameProduct(0xff - Div(y, a, x).a, Quot(over, d), d);
    }
  }

  lemma SameProduct(a: int, b: int, c: int)
    requires a == b
    ensures a * c == b * c
  {
  }

  lemma DivUnfolds(y: u8, a: u8, x: u8)
    ensures var ya := Join(a, y);
            var half := y % 0x10 >= x % 0x10;
            && (y < 2 * x ==> Div(y, a, x) == Quotient(Quot(ya, x) % 0x100, Rem(ya, x) % 0x100, y >= x, half))
            && (y >= 2 * x ==>
                  var over := ya - x * 0x200;
                  over >= 0 &&
                  Div(y, a, x) == Quotient((0xff - Quot(over, 0x100 - x)) % 0x100, (x + Rem(over, 0x100 - x)) % 0x100, y >= x, half))
  {
    hide Quot, Rem;
  }

  /** No assignment to A or Y cuts anything off but the ninth quotient bit. */
  lemma DivUncut(y: u8, a: u8, x: u8)
    ensures var q := Div(y, a, x);
            var ya := Join(a, y);
            && ya / 0x100 == y
            && q.overflow == (y >= x)
            && (y < 2 * x ==> 0x100 * Num(y >= x) + q.a == Quot(ya, x) && q.y == Rem(ya, x))
            && (y >= 2 * x ==>
                  var d := 0x100 - x;
                  var over := ya - x * 0x200;
                  over >= 0 && q.a == 0xff - Quot(over, d) && q.y == x + Rem(over, d))
  {
    hide Quot, Rem, Div, Join;
    DivUnfolds(y, a, x);
    JoinHigh(a, y);
    var ya := Join(a, y);
    if y < 2 * x {
      NineBitQuotient(ya, x);
      NinthBit(Quot(ya, x));
      SmallMod(Rem(ya, x));
    } else {
      BackwardQuotient(ya, x);
      var over := ya - x * 0x200;
      SmallMod(0xff - Quot(over, 0x100 - x));
      SmallMod(x + Rem(over, 0x100 - x));
    }
  }

  lemma SmallMod(x: int)
    requires 0 <= x < 0x100
    ensures x % 0x100 == x
  {
  }

  lemma NinthBit(n: nat)
    requires n < 0x200
    ensures 0x100 * Num(n >= 0x100) + n % 0x100 == n
  {
  }

  lemma JoinHigh(lo: u8, hi: u8)
    ensures Join(lo, hi) / 0x100 == hi
  {
  }

  lemma NineBitQuotient(ya: u16, x: nat)
    requires ya / 0x100 < 2 * x
    ensures ya == Quot(ya, x) * x + Rem(ya, x) && Quot(ya, x) < 0x200
    ensures Quot(ya, x) >= 0x100 <==> ya / 0x100 >= x
  {
    var n := ya / x;
    assert ya == x * n + ya % x;
    if n >= 0x200 {
      MulMono(x, 0x200, n);
    }
    if n >= 0x100 {
      MulMono(x, 0x100, n);
    } else {
      MulMono(x, n, 0xff);
    }
  }

  lemma BackwardQuotient(ya: u16, x: nat)
    requires x < 0x80 && ya / 0x100 >= 2 * x
    ensures var d := 0x100 - x;
            var over := ya - x * 0x200;
            over >= 0 && Quot(over, d) <= 0xff && over == Quot(over, d) * d + Rem(over, d)
  {
    var d := 0x100 - x;
    var over := ya - x * 0x200;
    assert over == d * (over / d) + over % d;
    if over / d > 0xff {
      MulMono(d, 0x100, over / d);
    }
  }

  /** A product of bytes fits a word. */
  function Mul(p: u8, q: u8): u16
  {
    MulMono(q, p, 0xff);
    MulMono(q, 0, p);
    q * p
  }

  lemma MulInNumbers(p: u8, q: u8)
    ensures Mul(p, q) == p as int * q
    ensures Join(Lo(Mul(p, q)), Hi(Mul(p, q))) == Mul(p, q)
  {
    WordValue(Mul(p, q));
    hide Lo, Hi, Join;
  }

  /** Multiplying and then dividing by the old Y restores A, with nothing left over and V
      clear. */
  lemma MulThenDiv(a: u8, y: u8)
    requires y != 0
    ensures var q := Div(Hi(Mul(a, y)), Lo(Mul(a, y)), y); q.a == a && q.y == 0 && !q.overflow
  {
    MulMono(y, a, 0xff);
    var w := Mul(a, y);
    WordValue(w);
    assert w == y * a && Hi(w) < y;
    DivUnique(w, y, a, 0);
    hide Lo, Hi, Join, Mul;
  }

  // ---- the status word ----

  datatype Flags = Flags(c: bool, z: bool, i: bool, h: bool, b: bool, p: bool, v: bool, n: bool) {
    /** In the order of the PSW_SHIFT constants, bit 0 first. */
    function Bits(): seq<bool> { [c, z, i, h, b, p, v, n] }
  }

  /** `(b0 << 0) | (b1 << 1) | ...` */
  function FromBits(bs: seq<bool>): (r: nat)
    ensures r < Pow2(|bs|)
  {
    if bs == [] then 0 else Num(bs[0]) + 2 * FromBits(bs[1..])
  }

  /** The lowest n bits, one after the other. */
  function ToBits(x: nat, n: nat): (r: seq<bool>)
    ensures |r| == n
  {
    if n == 0 then [] else [x % 2 == 1] + ToBits(x / 2, n - 1)
  }

  function Compose(f: Flags): u8
  {
    Pow2Of8();
    FromBits(f.Bits())
  }

  function Decompose(psw: u8): Flags
  {
    var b := ToBits(psw, 8);
    Flags(b[0], b[1], b[2], b[3], b[4], b[5], b[6], b[7])
  }

  lemma {:induction false} ToBitsUndoesFromBits(bs: seq<bool>)
    ensures ToBits(FromBits(bs), |bs|) == bs
  {
    if bs != [] {
      ToBitsUndoesFromBits(bs[1..]);
      assert bs == [bs[0]] + bs[1..];
    }
  }

  lemma {:induction false} FromBitsUndoesToBits(x: nat, n: nat)
    requires x < Pow2(n)
    ensures FromBits(ToBits(x, n)) == x
  {
    if n > 0 {
      FromBitsUndoesToBits(x / 2, n - 1);
      assert ToBits(x, n)[1..] == ToBits(x / 2, n - 1);
    }
  }

  lemma {:induction false} FromBitsUnfolds(bs: seq<bool>, k: nat)
    requires k < |bs|
    ensures FromBits(bs[k..]) == Num(bs[k]) + 2 * FromBits(bs[k + 1..])
  {
    assert bs[k..][1..] == bs[k + 1..];
  }

  lemma {:induction false} FourBitsUp(bs: seq<bool>, k: nat)
    requires k + 4 <= |bs|
    ensures FromBits(bs[k..]) == Num(bs[k]) + 2 * Num(bs[k + 1]) + 4 * Num(bs[k + 2]) + 8 * Num(bs[k + 3])
                                 + 0x10 * FromBits(bs[k + 4..])
  {
    hide FromBits, Num;
    FromBitsUnfolds(bs, k);
    FromBitsUnfolds(bs, k + 1);
    FromBitsUnfolds(bs, k + 2);
    FromBitsUnfolds(bs, k + 3);
  }

  lemma {:induction false} EndsOfBits(bs: seq<bool>)
    requires |bs| == 8
    ensures FromBits(bs[0..]) == FromBits(bs) && FromBits(bs[8..]) == 0
  {
    assert bs[0..] == bs && bs[8..] == [];
  }

  lemma {:induction false} EightBits(bs: seq<bool>)
    requires |bs| == 8
    ensures FromBits(bs) == Num(bs[0]) + 2 * Num(bs[1]) + 4 * Num(bs[2]) + 8 * Num(bs[3])
                            + 0x10 * (Num(bs[4]) + 2 * Num(bs[5]) + 4 * Num(bs[6]) + 8 * Num(bs[7]))
  {
    hide FromBits, Num;
    EndsOfBits(bs);
    FourBitsUp(bs, 0);
    FourBitsUp(bs, 4);
  }

  /** Which bit of the status word each flag is: carry, zero, interrupt, half carry, break,
      direct page, overflow and negative, from bit 0 up. */
  lemma FlagsInNumbers(f: Flags)
    ensures Compose(f) == (if f.c then 1 else 0) + (if f.z then 2 else 0) + (if f.i then 4 else 0) + (if f.h then 8 else 0)
                          + (if f.b then 0x10 else 0) + (if f.p then 0x20 else 0)
                          + (if f.v then 0x40 else 0) + (if f.n then 0x80 else 0)
  {
    hide FromBits;
    var bs := f.Bits();
    EightBits(bs);
  }

  /** The status word and the eight flags carry the same information: no flag is lost on
      its way through the byte, no bit on its way through the flags. */
  lemma FlagsRoundTrip(f: Flags, psw: u8)
    ensures Decompose(Compose(f)) == f
    ensures Compose(Decompose(psw)) == psw
  {
    hide FromBits, ToBits, Pow2;
    Pow2Of8();
    var b := ToBits(psw, 8);
    ToBitsUndoesFromBits(f.Bits());
    FromBitsUndoesToBits(psw, 8);
    assert b == [b[0], b[1], b[2], b[3], b[4], b[5], b[6], b[7]];
  }
}

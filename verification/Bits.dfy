/** The C integer types the emulator uses, and its casts, shifts and bit tests.

    A right shift by k of a signed value is `/` by 2^k here: Dafny's division by a
    positive number rounds down, which is what the emulator's compiler does for
    negative values. */
module Bits {

  type u8 = x: int | 0 <= x < 0x100
  type u16 = x: int | 0 <= x < 0x1_0000
  type u32 = x: int | 0 <= x < 0x1_0000_0000
  type s8 = x: int | -0x80 <= x < 0x80
  type s16 = x: int | -0x8000 <= x < 0x8000

  const WRAP32: int := 0x1_0000_0000

  /** The cast `(int16_t)x`. */
  function S16(x: int): (r: s16)
    ensures -0x8000 <= x < 0x8000 ==> r == x
  {
    (x + 0x8000) % 0x1_0000 - 0x8000
  }

  /** The cast `(int8_t)x`. */
  function S8(x: int): (r: s8)
    ensures -0x80 <= x < 0x80 ==> r == x
  {
    (x + 0x80) % 0x100 - 0x80
  }

  /** The cast `(uint16_t)x`. */
  function U16(x: int): u16 { x % 0x1_0000 }

  /** The same cast of a value that has wrapped at most once. */
  function Wrap16(x: nat): (r: u16)
    requires x < 0x2_0000
  {
    if x >= 0x1_0000 then x - 0x1_0000 else x
  }

  /** `x & ~1`. */
  function Even(x: int): int { x - x % 2 }

  /** The emulator's `clamp16`: the cast is compared with the value, and when they
      differ the sign alone decides between the two rails. */
  function Clamp16(x: int): (r: s16)
    ensures -0x8000 <= x < 0x8000 ==> r == x
    ensures x >= 0x8000 ==> r == 0x7fff
    ensures x < -0x8000 ==> r == -0x8000
  {
    if S16(x) != x then (if x < 0 then -0x8000 else 0x7fff) else x
  }

  /** The casts keep the low bits; `& ~1` takes off the lowest. */
  lemma CastsKeepLowBits(x: int)
    ensures (x - S16(x)) % 0x1_0000 == 0 && (x - S8(x)) % 0x100 == 0 && (x - U16(x)) % 0x1_0000 == 0
    ensures Even(x) % 2 == 0 && x - 1 <= Even(x) <= x
    ensures 0 <= x < 0x2_0000 ==> Wrap16(x) == x % 0x1_0000
  {
    ModAdd(0, 0x1_0000, (x + 0x8000) / 0x1_0000);
    ModAdd(0, 0x100, (x + 0x80) / 0x100);
    ModAdd(0, 0x1_0000, x / 0x1_0000);
  }

  function Pow2(k: nat): (r: nat)
    ensures r >= 1
  {
    if k == 0 then 1 else 2 * Pow2(k - 1)
  }

  /** `x & (1 << k)`, as a truth value. */
  predicate Bit(x: nat, k: nat) { x / Pow2(k) % 2 == 1 }

  lemma Pow2Of8()
    ensures Pow2(8) == 0x100
  {
    assert Pow2(4) == 16;
  }

  lemma LowBit(x: nat)
    ensures Bit(x, 0) <==> x % 2 == 1
  {
  }

  /** x with bit k set or cleared: `x | (1 << k)` and `x & ~(1 << k)`. */
  function WithBit(x: nat, k: nat, on: bool): (r: nat)
  {
    if k == 0 then x / 2 * 2 + (if on then 1 else 0) else x % 2 + 2 * WithBit(x / 2, k - 1, on)
  }

  lemma {:induction false} WithBitWidth(x: nat, k: nat, on: bool, n: nat)
    requires k < n && x < Pow2(n)
    ensures WithBit(x, k, on) < Pow2(n)
  {
    var half := Pow2(n - 1);
    assert Pow2(n) == 2 * half && x / 2 < half;
    if k > 0 {
      WithBitWidth(x / 2, k - 1, on, n - 1);
    }
  }

  /** Bit k is as told, every other bit as it was. */
  lemma {:induction false} WithBitBits(x: nat, k: nat, on: bool, j: nat)
    ensures Bit(WithBit(x, k, on), j) == if j == k then on else Bit(x, j)
  {
    LowBit(x);
    LowBit(WithBit(x, k, on));
    if j > 0 {
      BitShift(x, j);
      BitShift(WithBit(x, k, on), j);
      hide Bit;
      if k > 0 {
        WithBitBits(x / 2, k - 1, on, j - 1);
      }
    } else {
      hide Bit;
    }
  }

  function ByteWithBit(x: u8, k: nat, on: bool): u8
    requires k < 8
  {
    Pow2Of8();
    WithBitWidth(x, k, on, 8);
    WithBit(x, k, on)
  }

  /** `a & ~b`, the lowest n bits. */
  function AndNot(a: nat, b: nat, n: nat): (r: nat)
    ensures r < Pow2(n)
  {
    if n == 0 then 0
    else (if a % 2 == 1 && b % 2 == 0 then 1 else 0) + 2 * AndNot(a / 2, b / 2, n - 1)
  }

  function ByteAndNot(a: u8, b: u8): u8
  {
    Pow2Of8();
    AndNot(a, b, 8)
  }

  lemma {:induction false} BitShift(x: nat, k: nat)
    requires k > 0
    ensures Bit(x, k) == Bit(x / 2, k - 1)
  {
    DivDiv(x, 2, Pow2(k - 1));
  }

  /** Bit by bit, `AndNot` is conjunction with the negation. */
  lemma {:induction false} AndNotBit(a: nat, b: nat, n: nat, k: nat)
    requires k < n
    ensures Bit(AndNot(a, b, n), k) == (Bit(a, k) && !Bit(b, k))
  {
    hide Bit;
    LowBit(a);
    LowBit(b);
    LowBit(AndNot(a, b, n));
    if k > 0 {
      AndNotBit(a / 2, b / 2, n - 1, k - 1);
      BitShift(a, k);
      BitShift(b, k);
      BitShift(AndNot(a, b, n), k);
    }
  }

  /** Sequences with one head are equal when their tails are. */
  lemma SameTail<T>(a: seq<T>, b: seq<T>, c: seq<T>)
    ensures a + b == a + c <==> b == c
  {
    assert (a + b)[|a|..] == b && (a + c)[|a|..] == c;
  }

  lemma LowestBit(x: nat)
    ensures x == (if Bit(x, 0) then 1 else 0) + 2 * (x / 2)
  {
  }

  lemma FourBits(x: nat)
    ensures x == (if Bit(x, 0) then 1 else 0) + (if Bit(x, 1) then 2 else 0)
                 + (if Bit(x, 2) then 4 else 0) + (if Bit(x, 3) then 8 else 0) + 0x10 * (x / 0x10)
  {
    hide Bit;
    assert x / 2 / 2 / 2 / 2 == x / 0x10;
    LowestBit(x);
    LowestBit(x / 2);
    LowestBit(x / 2 / 2);
    LowestBit(x / 2 / 2 / 2);
    BitShift(x, 1);
    BitShift(x, 2);
    BitShift(x / 2, 1);
    BitShift(x, 3);
    BitShift(x / 2, 2);
    BitShift(x / 2 / 2, 1);
  }

  lemma HighBit(x: nat, k: nat)
    ensures Bit(x, 4 + k) == Bit(x / 0x10, k)
  {
    assert x / 2 / 2 / 2 / 2 == x / 0x10;
    hide Bit;
    BitShift(x, 4 + k);
    BitShift(x / 2, 3 + k);
    BitShift(x / 2 / 2, 2 + k);
    BitShift(x / 2 / 2 / 2, 1 + k);
  }

  /** A byte is the sum of its bits, each in its place. */
  lemma BitsAddUp(x: u8)
    ensures x == (if Bit(x, 0) then 1 else 0) + (if Bit(x, 1) then 2 else 0) + (if Bit(x, 2) then 4 else 0)
                 + (if Bit(x, 3) then 8 else 0) + (if Bit(x, 4) then 0x10 else 0) + (if Bit(x, 5) then 0x20 else 0)
                 + (if Bit(x, 6) then 0x40 else 0) + (if Bit(x, 7) then 0x80 else 0)
  {
    hide Bit;
    FourBits(x);
    FourBits(x / 0x10);
    HighBit(x, 0);
    HighBit(x, 1);
    HighBit(x, 2);
    HighBit(x, 3);
  }

  // ---- division by a variable ----

  /** C's `/` and `%` on unsigned operands. */
  function Quot(x: nat, d: nat): nat
    requires d > 0
  {
    x / d
  }

  function Rem(x: nat, d: nat): (r: nat)
    requires d > 0
    ensures r < d
  {
    x % d
  }

  lemma Division(x: nat, d: nat)
    requires d > 0
    ensures x == d * Quot(x, d) + Rem(x, d)
  {
  }

  lemma MulMono(d: nat, a: int, b: int)
    requires a <= b
    ensures d * a <= d * b
  {
    assert d * (b - a) >= 0;
  }

  lemma MulDistributes(d: int, a: int, b: int)
    ensures d * (a - b) == d * a - d * b
    ensures d * (a + b) == d * a + d * b
  {
  }

  lemma MulAssociates(a: int, b: int, c: int)
    ensures a * (b * c) == (a * b) * c
  {
  }

  /** A multiple of d strictly between -d and d is zero. */
  lemma SmallMultiple(d: nat, k: int)
    requires -(d as int) < d * k < d
    ensures k == 0
  {
    if k >= 1 {
      MulMono(d, 1, k);
    }
    if k <= -1 {
      MulMono(d, k, -1);
    }
  }

  /** Quotient and remainder are unique. */
  lemma DivUnique(x: int, d: int, q: int, r: int)
    requires 0 <= r < d
    requires x == d * q + r
    ensures x / d == q && x % d == r
  {
    var q', r' := x / d, x % d;
    assert x == d * q' + r';
    MulDistributes(d, q, q');
    SmallMultiple(d, q - q');
  }

  /** The next quotient and remainder. */
  lemma NextQuotient(x: nat, d: nat)
    requires d > 0
    ensures if x % d + 1 == d then (x + 1) % d == 0 && (x + 1) / d == x / d + 1
            else (x + 1) % d == x % d + 1 && (x + 1) / d == x / d
  {
    if x % d + 1 == d {
      MulDistributes(d, x / d, 1);
      DivUnique(x + 1, d, x / d + 1, 0);
    } else {
      DivUnique(x + 1, d, x / d, x % d + 1);
    }
  }

  lemma DivDiv(x: int, a: nat, b: nat)
    requires a > 0 && b > 0
    ensures a * b > 0
    ensures x / (a * b) == x / a / b
    ensures x % (a * b) == a * (x / a % b) + x % a
  {
    MulMono(a, 1, b);
    var q, r := x / a, x % a;
    var q2, r2 := q / b, q % b;
    assert x == a * q + r && q == b * q2 + r2;
    MulDistributes(a, b * q2, r2);
    MulAssociates(a, b, q2);
    MulMono(a, 0, r2);
    MulMono(a, r2, b - 1);
    MulDistributes(a, b, 1);
    DivUnique(x, a * b, q2, a * r2 + r);
  }

  /** Adding a multiple of the modulus changes nothing. */
  lemma ModAdd(x: int, d: int, k: int)
    requires d > 0
    ensures (x + d * k) % d == x % d
  {
    MulDistributes(d, x / d, k);
    DivUnique(x + d * k, d, x / d + k, x % d);
  }

  /** Two numbers less than d apart with one residue are one number. */
  lemma SameResidue(x: int, y: int, d: int)
    requires d > 0 && x % d == y % d && -d < y - x < d
    ensures x == y
  {
    var i, j := x / d, y / d;
    assert x == d * i + x % d && y == d * j + y % d;
    MulDistributes(d, j, i);
    SmallMultiple(d, j - i);
  }

  /** Wrapping at 2^32 does not show modulo a divisor of 2^32. */
  lemma WrapKeepsLowBits(x: int, m: int)
    requires m > 0 && WRAP32 % m == 0
    ensures x % WRAP32 % m == x % m
    ensures (x + WRAP32) % m == x % m
  {
    var w := WRAP32 / m;
    assert WRAP32 == m * w;
    ModAdd(x, m, w);
    var q := x / WRAP32;
    MulAssociates(m, w, q);
    ModAdd(x % WRAP32, m, w * q);
  }
}

/** The SPC700's registers, flags and memory access (src/spc700.c), updated in place. The
    arithmetic is proved against module Alu, the stack against Stack, the boot ROM overlay
    against Overlay. */
module Cpu {
  import opened Bits
  import opened Aram
  import A = Alu
  import Stack
  import O = Overlay

  class Spc700 {
    var pc: u16
    var a: u8
    var x: u8
    var y: u8
    var sp: u8
    var carry: bool
    var zero: bool
    var pswI: bool
    var halfCarry: bool
    var pswB: bool
    var pswP: bool
    var overflow: bool
    var negative: bool
    const aram: array<u8>
    const extraRam: array<u8>
    const rom: seq<u8>
    var showRom: bool
    /** Stores forwarded to the sound registers, oldest first. */
    var forwarded: seq<(u16, u8)>
    /** What the sound registers answer to a load. */
    const answer: u16 -> u8

    ghost predicate Valid()
      reads this
    {
      aram.Length == ARAM_SIZE + SPILL && extraRam.Length == O.ROM_SIZE && O.IsRom(rom) && aram != extraRam
    }

    ghost function Flags(): A.Flags
      reads this
    {
      A.Flags(carry, zero, pswI, halfCarry, pswB, pswP, overflow, negative)
    }

    ghost function Machine(): Stack.Machine
      reads this, aram
    {
      Stack.Machine(aram[..], sp, pc)
    }

    ghost function Memory(): O.Fast
      reads this, aram, extraRam
    {
      O.Fast(aram[..], extraRam[..], showRom)
    }

    constructor (aram: array<u8>, rom: seq<u8>, answer: u16 -> u8)
      requires aram.Length == ARAM_SIZE + SPILL && O.IsRom(rom)
      ensures Valid() && !showRom && forwarded == [] && this.aram == aram && this.rom == rom
    {
      this.aram, this.rom, this.answer := aram, rom, answer;
      extraRam := new u8[O.ROM_SIZE](_ => 0);
      showRom, forwarded := false, [];
      pc, a, x, y, sp := 0, 0, 0, 0, 0;
      carry, zero, pswI, halfCarry := false, false, false, false;
      pswB, pswP, overflow, negative := false, false, false, false;
    }

    // ---- flags ----

    method SetZn(result: u8)
      modifies this`zero, this`negative
      ensures zero == (result == 0) && negative == (result >= 0x80)
    {
      zero := result == 0;
      negative := result >= 0x80;
    }

    method SetZn16(result: u16)
      modifies this`zero, this`negative
      ensures zero == (result == 0) && negative == (result >= 0x8000)
    {
      zero := result == 0;
      negative := result >= 0x8000;
    }

    method PswDecompose(psw: u8)
      modifies this`carry, this`zero, this`pswI, this`halfCarry, this`pswB, this`pswP, this`overflow, this`negative
      ensures Flags() == A.Decompose(psw) && A.Compose(Flags()) == psw
    {
      hide A.Compose, A.Decompose;
      var f := A.Decompose(psw);
      A.FlagsRoundTrip(f, psw);
      carry, zero, pswI, halfCarry := f.c, f.z, f.i, f.h;
      pswB, pswP, overflow, negative := f.b, f.p, f.v, f.n;
    }

    method PswCompose() returns (psw: u8)
      ensures psw == A.Compose(Flags()) && A.Decompose(psw) == Flags()
    {
      hide A.Compose, A.Decompose;
      psw := A.Compose(A.Flags(carry, zero, pswI, halfCarry, pswB, pswP, overflow, negative));
      A.FlagsRoundTrip(Flags(), psw);
    }

    // ---- arithmetic ----

    method Adc(p: u8, q: u8) returns (r: u8)
      modifies this`carry, this`halfCarry, this`overflow
      ensures A.Sum(r, carry, halfCarry, overflow) == A.Adc(p, q, old(carry))
    {
      var sum := p + q + A.Num(carry);
      r := sum % 0x100;
      carry := sum / 0x100 != 0;
      halfCarry := (A.Bit4(p) != A.Bit4(q)) != A.Bit4(r);
      overflow := A.Bit7(p) != A.Bit7(r) && A.Bit7(q) != A.Bit7(r);
    }

    method Sbc(p: u8, q: u8) returns (r: u8)
      modifies this`carry, this`halfCarry, this`overflow
      ensures A.Sum(r, carry, halfCarry, overflow) == A.Sbc(p, q, old(carry))
    {
      r := Adc(p, A.Complement(q));
    }

    method AluAdc(p: u8, q: u8) returns (r: u8)
      modifies this`carry, this`halfCarry, this`overflow, this`zero, this`negative
      ensures A.Sum(r, carry, halfCarry, overflow) == A.Adc(p, q, old(carry))
      ensures zero == (r == 0) && negative == (r >= 0x80)
    {
      r := Adc(p, q);
      SetZn(r);
    }

    method AluSbc(p: u8, q: u8) returns (r: u8)
      modifies this`carry, this`halfCarry, this`overflow, this`zero, this`negative
      ensures A.Sum(r, carry, halfCarry, overflow) == A.Sbc(p, q, old(carry))
      ensures zero == (r == 0) && negative == (r >= 0x80)
    {
      r := Sbc(p, q);
      SetZn(r);
    }

    /** ADDW: low byte first, then the high byte with the carry; Z and N of the word. */
    method AluAddw(p: u16, q: u16) returns (r: u16)
      modifies this`carry, this`halfCarry, this`overflow, this`zero, this`negative
      ensures r == (p + q) % 0x1_0000 && carry == (p + q >= 0x1_0000)
      ensures overflow == !(-0x8000 <= A.SignedWord(p) + A.SignedWord(q) < 0x8000)
      ensures halfCarry == (p % 0x1000 + q % 0x1000 >= 0x1000)
      ensures zero == (r == 0) && negative == (r >= 0x8000)
    {
      carry := false;
      var lo := Adc(A.Lo(p), A.Lo(q));
      var hi := Adc(A.Hi(p), A.Hi(q));
      r := A.Join(lo, hi);
      A.WordsUnfold(p, q);
      A.AddwAdds(p, q);
      A.WordHalfCarry(p, q);
      SetZn16(r);
    }

    method AluSubw(p: u16, q: u16) returns (r: u16)
      modifies this`carry, this`halfCarry, this`overflow, this`zero, this`negative
      ensures r == (p - q) % 0x1_0000 && carry == (p >= q)
      ensures overflow == !(-0x8000 <= A.SignedWord(p) - A.SignedWord(q) < 0x8000)
      ensures halfCarry == (p % 0x1000 >= q % 0x1000)
      ensures zero == (r == 0) && negative == (r >= 0x8000)
    {
      carry := true;
      var lo := Sbc(A.Lo(p), A.Lo(q));
      var hi := Sbc(A.Hi(p), A.Hi(q));
      r := A.Join(lo, hi);
      A.WordsUnfold(p, q);
      A.SubwSubtracts(p, q);
      A.WordHalfCarry(p, q);
      SetZn16(r);
    }

    method AluCmp(p: u8, q: u8)
      modifies this`carry, this`zero, this`negative
      ensures carry == A.Sbc(p, q, true).carry
      ensures zero == (A.Sbc(p, q, true).result == 0) && negative == (A.Sbc(p, q, true).result >= 0x80)
      ensures carry == (p >= q) && zero == (p == q) && negative == ((p - q) % 0x100 >= 0x80)
    {
      A.CmpIsSbc(p, q);
      var cmp := p - q;
      carry := cmp >= 0;
      SetZn(cmp % 0x100);
    }

    method AluRol(p: u8) returns (r: u8)
      modifies this`carry, this`zero, this`negative
      ensures (r, carry) == A.Rol(p, old(carry)) && zero == (r == 0) && negative == (r >= 0x80)
    {
      var result := p * 2 + A.Num(carry);
      r := result % 0x100;
      carry := result / 0x100 == 1;
      SetZn(r);
    }

    method AluRor(p: u8) returns (r: u8)
      modifies this`carry, this`zero, this`negative
      ensures (r, carry) == A.Ror(p, old(carry)) && zero == (r == 0) && negative == (r >= 0x80)
    {
      r := p / 2 + 0x80 * A.Num(carry);
      carry := p % 2 == 1;
      SetZn(r);
    }

    method AluAsl(p: u8) returns (r: u8)
      modifies this`carry, this`zero, this`negative
      ensures (r, carry) == A.Rol(p, false) && zero == (r == 0) && negative == (r >= 0x80)
    {
      r := p * 2 % 0x100;
      carry := p >= 0x80;
      SetZn(r);
    }

    method AluLsr(p: u8) returns (r: u8)
      modifies this`carry, this`zero, this`negative
      ensures (r, carry) == A.Ror(p, false) && zero == (r == 0) && negative == (r >= 0x80)
    {
      r := p / 2;
      carry := p % 2 == 1;
      SetZn(r);
    }

    /** `div ya, x`, with the exact relation between the operands and the results. */
    method DivYaX()
      modifies this`a, this`y, this`overflow, this`halfCarry, this`zero, this`negative
      ensures A.Quotient(a, y, overflow, halfCarry) == A.Div(old(y), old(a), x)
      ensures A.DividesExactly(old(y), old(a), x, A.Quotient(a, y, overflow, halfCarry))
      ensures halfCarry == (old(y) % 0x10 >= x % 0x10) && overflow == (old(y) >= x)
      ensures zero == (a == 0) && negative == (a >= 0x80)
    {
      hide Quot, Rem, A.Join, A.Num, A.Div, A.DividesExactly;
      A.DivIsExact(y, a, x);
      A.DivUnfolds(y, a, x);
      var ya := A.Join(a, y);
      halfCarry := y % 0x10 >= x % 0x10;
      overflow := y >= x;
      if y < x * 2 {
        a := Quot(ya, x) % 0x100;
        y := Rem(ya, x) % 0x100;
      } else {
        var over := ya - x * 0x200;
        a := (0xff - Quot(over, 0x100 - x)) % 0x100;
        y := (x + Rem(over, 0x100 - x)) % 0x100;
      }
      SetZn(a);
    }

    method MulYa()
      modifies this`a, this`y, this`zero, this`negative
      ensures y as int * 0x100 + a == old(a) as int * old(y)
      ensures y == A.Hi(A.Mul(old(a), old(y))) && a == A.Lo(A.Mul(old(a), old(y)))
      ensures zero == (a == 0 && y == 0) && negative == (y >= 0x80)
    {
      hide A.Hi, A.Lo, A.Mul;
      var result := A.Mul(a, y);
      A.MulInNumbers(a, y);
      SetZn16(result);
      y := A.Hi(result);
      a := A.Lo(result);
    }

    // ---- memory ----

    /** Stores to the sound registers go to them and to memory alike. */
    method MemStore(addr: u16, byte: u8)
      requires Valid()
      modifies this`forwarded, aram
      ensures aram[..] == old(aram[..])[addr := byte]
      ensures forwarded == old(forwarded) + (if 0xf0 <= addr < 0x100 then [(addr, byte)] else [])
    {
      if Stack.IsMmio(addr) {
        forwarded := forwarded + [(addr, byte)];
      }
      aram[addr] := byte;
    }

    method MemLoad(addr: u16) returns (byte: u8)
      requires Valid()
      ensures byte == if 0xf0 <= addr < 0x100 then answer(addr) else aram[addr]
    {
      if Stack.IsMmio(addr) {
        return answer(addr);
      }
      return aram[addr];
    }

    /** The copying form of the overlay. */
    method SetShowIplRom(show: bool)
      requires Valid()
      modifies this`showRom, aram, extraRam
      ensures Memory() == O.FastShow(old(Memory()), show, rom)
    {
      if show == showRom {
        return;
      }
      ghost var f := Memory();
      showRom := show;
      if showRom {
        forall i | 0 <= i < O.ROM_SIZE {
          extraRam[i] := aram[O.ROM_BASE + i];
        }
        assert extraRam[..] == O.Area(f.mem);
        forall i | 0 <= i < O.ROM_SIZE {
          aram[O.ROM_BASE + i] := rom[i];
        }
        assert aram[..] == O.Over(f.mem, rom);
      } else {
        forall i | 0 <= i < O.ROM_SIZE {
          aram[O.ROM_BASE + i] := extraRam[i];
        }
        assert aram[..] == O.Over(f.mem, f.extra);
      }
    }

    // ---- stack ----

    method PushByte(byte: u8)
      requires Valid()
      modifies this`sp, this`forwarded, aram
      ensures Machine() == Stack.Push(old(Machine()), byte) && forwarded == old(forwarded)
    {
      MemStore(0x100 + sp, byte);
      sp := (sp - 1) % 0x100;
    }

    method PopByte() returns (byte: u8)
      requires Valid()
      modifies this`sp
      ensures byte == Stack.Top(old(Machine())) && Machine() == Stack.Popped(old(Machine()))
    {
      sp := (sp + 1) % 0x100;
      byte := MemLoad(0x100 + sp);
    }

    method PushWord(word: u16)
      requires Valid()
      modifies this`sp, this`forwarded, aram
      ensures Machine() == Stack.PushWord(old(Machine()), word) && forwarded == old(forwarded)
    {
      PushByte(word / 0x100);
      PushByte(word % 0x100);
    }

    method PopWord() returns (word: u16)
      requires Valid()
      modifies this`sp
      ensures Machine().(pc := word) == Stack.Return(old(Machine()))
    {
      var lo := PopByte();
      var hi := PopByte();
      word := A.Join(lo, hi);
    }

    method Call(addr: u16)
      requires Valid()
      modifies this`sp, this`pc, this`forwarded, aram
      ensures Machine() == Stack.Call(old(Machine()), addr) && forwarded == old(forwarded)
    {
      PushWord(pc);
      pc := addr;
    }

    method Ret()
      requires Valid()
      modifies this`sp, this`pc
      ensures Machine() == Stack.Return(old(Machine()))
    {
      var reta := PopWord();
      pc := reta;
    }

    /** PUSH PSW. */
    method PushPsw()
      requires Valid()
      modifies this`sp, this`forwarded, aram
      ensures Machine() == Stack.Push(old(Machine()), A.Compose(old(Flags()))) && forwarded == old(forwarded)
    {
      var psw := PswCompose();
      PushByte(psw);
    }

    /** POP PSW: whatever flags were composed into the byte on top come back. */
    method PopPsw()
      requires Valid()
      modifies this`sp, this`carry, this`zero, this`pswI, this`halfCarry, this`pswB, this`pswP, this`overflow, this`negative
      ensures Machine() == Stack.Popped(old(Machine()))
      ensures forall f: A.Flags :: Stack.Top(old(Machine())) == A.Compose(f) ==> Flags() == f
    {
      var psw := PopByte();
      PswDecompose(psw);
      forall f: A.Flags | psw == A.Compose(f)
        ensures Flags() == f
      {
        A.FlagsRoundTrip(f, psw);
      }
    }
  }
}
